/**
  The abstract page model that stands in for the HTML library: a parsed page is
  a tree of elements, and queries search an element's descendants in document
  order.
*/
module Html {
  import opened Wrappers

  /**
    One element: its tag name, its `id` attribute, its classes, its `href`
    attribute, its text as the library renders it (opaque here), and its
    children in order. A parsed page is the root element holding the page's
    top-level elements as children.
  */
  datatype Element = Element(
    tag: string,
    id: Option<string>,
    classes: seq<string>,
    href: Option<string>,
    text: string,
    children: seq<Element>)

  /** A `find`/`findAll` query: a tag name and optionally an `id` or a class the element must carry. */
  datatype Query = Query(tag: string, id: Option<string>, cls: Option<string>)

  function ByTag(tag: string): Query { Query(tag, None, None) }

  predicate Matches(e: Element, q: Query) {
    && e.tag == q.tag
    && (q.id.Some? ==> e.id == q.id)
    && (q.cls.Some? ==> q.cls.value in e.classes)
  }

  /** Table rows and table cells, as both table readers query them. */
  const Row: Query := ByTag("tr")
  const Cell: Query := ByTag("td")

  /** `xs[1:]`: every element after the first, in order; nothing when `s` is empty. */
  function Tail<T>(s: seq<T>): (r: seq<T>)
    ensures |r| == if |s| == 0 then 0 else |s| - 1
    ensures forall i :: 0 <= i < |r| ==> r[i] == s[i + 1]
  {
    if |s| == 0 then [] else s[1..]
  }

  /** The elements of a forest in document order: each element, then its descendants, then its later siblings. */
  function Flatten(cs: seq<Element>): seq<Element>
    decreases cs
  {
    if cs == [] then [] else [cs[0]] + Flatten(cs[0].children) + Flatten(cs[1..])
  }

  /** Every element below `e`, in document order; `e` itself is not included. */
  function Descendants(e: Element): seq<Element> {
    Flatten(e.children)
  }

  /** The elements of `s` that match `q`, in their order in `s`. */
  function Select(s: seq<Element>, q: Query): (r: seq<Element>)
    ensures |r| <= |s|
    ensures forall x :: x in r <==> x in s && Matches(x, q)
  {
    if s == [] then []
    else (if Matches(s[0], q) then [s[0]] else []) + Select(s[1..], q)
  }

  /** The first element of `Select(s, q)` is the first element of `s` that matches `q`. */
  lemma {:induction false} SelectFirst(s: seq<Element>, q: Query, i: nat)
    requires i < |s| && Matches(s[i], q)
    requires forall k :: 0 <= k < i ==> !Matches(s[k], q)
    ensures |Select(s, q)| > 0 && Select(s, q)[0] == s[i]
  {
    if i > 0 {
      SelectFirst(s[1..], q, i - 1);
    }
  }

  /** The second element of `Select(s, q)` is the second element of `s` that matches `q`. */
  lemma {:induction false} SelectSecond(s: seq<Element>, q: Query, i: nat, j: nat)
    requires i < j < |s| && Matches(s[i], q) && Matches(s[j], q)
    requires forall k :: 0 <= k < j && k != i ==> !Matches(s[k], q)
    ensures |Select(s, q)| > 1 && Select(s, q)[1] == s[j]
  {
    if i > 0 {
      SelectSecond(s[1..], q, i - 1, j - 1);
    } else {
      SelectFirst(s[1..], q, j - 1);
    }
  }

  /** Nothing is selected when no element matches. */
  lemma {:induction false} SelectNoMatch(s: seq<Element>, q: Query)
    requires forall l :: 0 <= l < |s| ==> !Matches(s[l], q)
    ensures Select(s, q) == []
  {
    if s != [] {
      SelectNoMatch(s[1..], q);
    }
  }

  /** When no two elements of `s` match `q`, `Select(s, q)` holds at most one element. */
  lemma {:induction false} SelectAtMostOne(s: seq<Element>, q: Query)
    requires forall k, l :: 0 <= k < l < |s| && Matches(s[k], q) ==> !Matches(s[l], q)
    ensures |Select(s, q)| <= 1
  {
    if s != [] {
      SelectAtMostOne(s[1..], q);
      if Matches(s[0], q) {
        assert forall l :: 0 <= l < |s[1..]| ==> !Matches(s[1..][l], q) by {
          forall l | 0 <= l < |s[1..]| ensures !Matches(s[1..][l], q) {
            assert s[1..][l] == s[l + 1];
          }
        }
        SelectNoMatch(s[1..], q);
      }
    }
  }

  /** `e.findAll(q)`: every descendant of `e` matching `q`, in document order. */
  function FindAll(e: Element, q: Query): seq<Element> {
    Select(Descendants(e), q)
  }

  /** `e.find(q)`: the first descendant of `e` matching `q`, or `None`. */
  function Find(e: Element, q: Query): Option<Element> {
    var all := FindAll(e, q);
    if |all| == 0 then None else Some(all[0])
  }

  /** `Find` returns the first descendant in document order that matches, and `None` exactly when none does. */
  lemma FindFirst(e: Element, q: Query, i: nat)
    requires i < |Descendants(e)| && Matches(Descendants(e)[i], q)
    requires forall k :: 0 <= k < i ==> !Matches(Descendants(e)[k], q)
    ensures Find(e, q) == Some(Descendants(e)[i])
  {
    SelectFirst(Descendants(e), q, i);
  }

  lemma FindNone(e: Element, q: Query)
    requires forall x :: x in Descendants(e) ==> !Matches(x, q)
    ensures Find(e, q) == None
  {
    if |FindAll(e, q)| > 0 {
      assert FindAll(e, q)[0] in FindAll(e, q);
    }
  }

  /**
    The first index at or after `from` whose element satisfies `p`. On the
    flattened page this is how `find_next` is read: the first match at a later
    position in document order.
  */
  function FirstFrom(s: seq<Element>, from: nat, p: Element -> bool): (r: Option<nat>)
    ensures r.Some? ==> from <= r.value < |s| && p(s[r.value])
    ensures r.Some? ==> forall k :: from <= k < r.value ==> !p(s[k])
    ensures r.None? ==> forall k :: from <= k < |s| ==> !p(s[k])
    decreases |s| - from
  {
    if from >= |s| then None
    else if p(s[from]) then Some(from)
    else FirstFrom(s, from + 1, p)
  }

  /** `str.lower()` restricted to ASCII letters. */
  function Lower(s: string): (r: string)
    ensures |r| == |s|
    ensures forall i :: 0 <= i < |s| ==> r[i] == (if 'A' <= s[i] <= 'Z' then (s[i] as int + 32) as char else s[i])
  {
    if s == [] then []
    else [if 'A' <= s[0] <= 'Z' then (s[0] as int + 32) as char else s[0]] + Lower(s[1..])
  }

  predicate EndsWith(s: string, suffix: string) {
    |suffix| <= |s| && s[|s| - |suffix|..] == suffix
  }
}
