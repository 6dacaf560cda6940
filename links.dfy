/** The cell helper shared by both table parsers (`_getTextAndLink`). */
module Links {
  import opened Wrappers
  import opened Html

  /** The text of a cell and the `href` of its link, if it has one. */
  datatype TextLink = TextLink(text: string, link: Option<string>)

  const Anchor: Query := ByTag("a")

  /** An anchor inside the cell wins: its text and its `href`; without one, the cell's own text and no link. */
  function TextAndLink(el: Element): TextLink {
    match Find(el, Anchor)
    case Some(a) => TextLink(a.text, a.href)
    case None => TextLink(el.text, None)
  }

  /** With an anchor among the cell's descendants, the first one in document order supplies both text and link. */
  lemma AnchorWins(el: Element, i: nat)
    requires i < |Descendants(el)| && Descendants(el)[i].tag == "a"
    requires forall k :: 0 <= k < i ==> Descendants(el)[k].tag != "a"
    ensures TextAndLink(el) == TextLink(Descendants(el)[i].text, Descendants(el)[i].href)
  {
    FindFirst(el, Anchor, i);
  }

  /** Without any anchor the cell's own text is used and there is no link. */
  lemma NoAnchorCellText(el: Element)
    requires forall x :: x in Descendants(el) ==> x.tag != "a"
    ensures TextAndLink(el) == TextLink(el.text, None)
  {
    FindNone(el, Anchor);
  }
}
