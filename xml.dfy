/**
 * The parsed product specification as an immutable tree, and the generic
 * queries of XmlHandler over it (ElementTree's find, findall and text).
 */
module Xml {
  import opened Wrappers
  import opened Errors

  /**
   * An element: its tag, its attributes, its text and its children in
   * document order. The text is None when the element has none, as
   * ElementTree's text is.
   */
  datatype Element = Element(tag: string, attributes: map<string, string>, text: Option<string>, children: seq<Element>)

  /** `a` is `b` with some elements left out, the rest kept in order. */
  ghost predicate Subsequence<T>(a: seq<T>, b: seq<T>)
    decreases |b|
  {
    if a == [] then true
    else if b == [] then false
    else (a[0] == b[0] && Subsequence(a[1..], b[1..])) || Subsequence(a, b[1..])
  }

  /** The elements of `es` whose tag is `tag`, in order. */
  function WithTag(es: seq<Element>, tag: string): (r: seq<Element>)
    ensures |r| <= |es|
    ensures forall i | 0 <= i < |r| :: r[i].tag == tag
    decreases |es|
  {
    if es == [] then []
    else if es[0].tag == tag then [es[0]] + WithTag(es[1..], tag)
    else WithTag(es[1..], tag)
  }

  /** The tagged elements keep their order: they are a subsequence of `es`. */
  lemma {:induction false} WithTagIsSubsequence(es: seq<Element>, tag: string)
    ensures Subsequence(WithTag(es, tag), es)
    decreases |es|
  {
    if es != [] {
      WithTagIsSubsequence(es[1..], tag);
      var r := WithTag(es, tag);
      if es[0].tag == tag {
        assert r[1..] == WithTag(es[1..], tag);
      }
    }
  }

  /** Every tagged element is kept and nothing else is. */
  lemma {:induction false} WithTagMembers(es: seq<Element>, tag: string, e: Element)
    ensures e in WithTag(es, tag) <==> e in es && e.tag == tag
    decreases |es|
  {
    if es != [] {
      WithTagMembers(es[1..], tag, e);
      assert e in es <==> e == es[0] || e in es[1..];
    }
  }

  /** fetch_all_elements: parent.findall(tag), the children with the tag. */
  function FindAll(parent: Element, tag: string): seq<Element>
    requires tag != ""
  {
    WithTag(parent.children, tag)
  }

  /** has_element: some child carries the tag. */
  function HasElement(parent: Element, tag: string): (b: bool)
    requires tag != ""
  {
    FindAll(parent, tag) != []
  }

  /** fetch_element: the first child with the tag, or an error naming the tag and the parent. */
  function Find(parent: Element, tag: string): (r: Res<Element>)
    requires tag != ""
    ensures r.Ok? <==> FindAll(parent, tag) != []
    ensures r.Ok? ==> r.value.tag == tag
    ensures r.Err? ==> r.error == ElementNotFound(tag, parent.tag)
  {
    var all := FindAll(parent, tag);
    if all == [] then Err(ElementNotFound(tag, parent.tag)) else Ok(all[0])
  }

  /** has_element holds exactly when some child carries the tag, and find() then returns one of them. */
  lemma FindSucceedsIffPresent(parent: Element, tag: string)
    requires tag != ""
    ensures HasElement(parent, tag) <==> exists c | c in parent.children :: c.tag == tag
    ensures Find(parent, tag).Ok? <==> exists c | c in parent.children :: c.tag == tag
    ensures Find(parent, tag).Ok? ==> Find(parent, tag).value in parent.children
  {
    var all := FindAll(parent, tag);
    if all != [] {
      WithTagMembers(parent.children, tag, all[0]);
    } else {
      forall c | c in parent.children
        ensures c.tag != tag
      {
        WithTagMembers(parent.children, tag, c);
      }
    }
  }

  /** fetch_text: the text of the first child with the tag, None when that child has no text. */
  function FetchText(parent: Element, tag: string): (r: Res<Option<string>>)
    requires tag != ""
    ensures r.Ok? <==> Find(parent, tag).Ok?
    ensures r.Ok? ==> r.value == Find(parent, tag).value.text
    ensures r.Err? ==> r.error == ElementNotFound(tag, parent.tag)
  {
    var e :- Find(parent, tag);
    Ok(e.text)
  }

  /**
   * fetch_text where the caller needs a string (int() of it, or joining it
   * to other text): a child without text stops the run with TextMissing.
   */
  function FetchString(parent: Element, tag: string): (r: Res<string>)
    requires tag != ""
    ensures r.Ok? <==> Find(parent, tag).Ok? && Find(parent, tag).value.text.Some?
    ensures r.Ok? ==> FetchText(parent, tag) == Ok(Some(r.value))
    ensures Find(parent, tag).Ok? && Find(parent, tag).value.text.None? ==> r == Err(TextMissing(tag))
    ensures Find(parent, tag).Err? ==> r == Err(ElementNotFound(tag, parent.tag))
  {
    var text :- FetchText(parent, tag);
    if text.None? then Err(TextMissing(tag)) else Ok(text.value)
  }

  /** The first child carrying the tag is the one find() returns. */
  lemma {:induction false} FindIsFirst(parent: Element, tag: string, i: nat)
    requires tag != "" && i < |parent.children| && parent.children[i].tag == tag
    requires forall j | 0 <= j < i :: parent.children[j].tag != tag
    ensures Find(parent, tag) == Ok(parent.children[i])
  {
    WithTagHead(parent.children, tag, i);
  }

  lemma {:induction false} WithTagHead(es: seq<Element>, tag: string, i: nat)
    requires i < |es| && es[i].tag == tag
    requires forall j | 0 <= j < i :: es[j].tag != tag
    ensures WithTag(es, tag) != [] && WithTag(es, tag)[0] == es[i]
    decreases i
  {
    if i > 0 {
      WithTagHead(es[1..], tag, i - 1);
    }
  }
}
