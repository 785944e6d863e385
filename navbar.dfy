/** The Navbar primitive's link list: `links.map((link, index) => <a key={index} ...>)`,
    with `links` defaulting to `[]`. The title slot and the fixed sign-in button
    are constant content and are not modelled. */
module Navbar {
  import opened Wrappers

  /** A link descriptor `{ href, label }` (`label` is a reserved word in Dafny,
      hence `text`). */
  datatype Link = Link(href: string, text: string)

  /** An entry of the `links` array: a descriptor object, `null` or `undefined`. */
  datatype Entry = Descriptor(link: Link) | NullEntry | UndefinedEntry

  /** One rendered `<a>`: React key, `href`, and the link's label as its text. */
  datatype Anchor = Anchor(key: nat, href: string, text: string)

  /** The `links` prop: left out (so the default `[]` applies), `null`, or an array. */
  datatype LinksProp = Missing | Null | Given(items: seq<Entry>)

  /** Calling `.map` on `null`, or reading `.href` of a `null` or `undefined`
      entry, throws. */
  datatype RenderError = TypeError

  /** The anchors for a list of links, keyed by position. */
  function Anchors(links: seq<Link>): (r: seq<Anchor>)
    ensures |r| == |links|
    ensures forall i :: 0 <= i < |r| ==> r[i] == Anchor(i, links[i].href, links[i].text)
  {
    if links == [] then []
    else
      var n := |links| - 1;
      var init := Anchors(links[..n]);
      assert forall i :: 0 <= i < n ==> links[..n][i] == links[i];
      init + [Anchor(n, links[n].href, links[n].text)]
  }

  /** The descriptors of an array whose entries are all objects; `None` as soon
      as one entry is `null` or `undefined`. */
  function Descriptors(items: seq<Entry>): (r: Option<seq<Link>>)
    ensures r.Some? <==> forall i :: 0 <= i < |items| ==> items[i].Descriptor?
    ensures r.Some? ==> |r.value| == |items| && forall i :: 0 <= i < |items| ==> r.value[i] == items[i].link
  {
    if items == [] then Some([])
    else
      var n := |items| - 1;
      var init := Descriptors(items[..n]);
      assert forall i :: 0 <= i < n ==> items[..n][i] == items[i];
      if init.None? || !items[n].Descriptor? then None
      else Some(init.value + [items[n].link])
  }

  /** The anchors of a rendered Navbar, or the error its `.map` call raises.
      A missing `links` gives no anchors; `null`, or an array with a `null` or
      `undefined` entry, fails; otherwise each descriptor gives one anchor, in
      order, keyed by its position. */
  function Render(links: LinksProp): (r: Result<seq<Anchor>, RenderError>)
    ensures r.Err? <==> links.Null? || (links.Given? && exists i :: 0 <= i < |links.items| && !links.items[i].Descriptor?)
    ensures links.Missing? ==> r == Ok([])
    ensures links.Given? && r.Ok? ==> |r.value| == |links.items|
    ensures links.Given? && r.Ok? ==> forall i :: 0 <= i < |r.value| ==>
              r.value[i] == Anchor(i, links.items[i].link.href, links.items[i].link.text)
  {
    match links
    case Missing => Ok(Anchors([]))
    case Null => Err(TypeError)
    case Given(items) =>
      match Descriptors(items)
      case None => Err(TypeError)
      case Some(ls) => Ok(Anchors(ls))
  }

  /** Reading the links back off the anchors gives the input: nothing is
      dropped, merged, reordered or altered. */
  function LinksOf(anchors: seq<Anchor>): (r: seq<Link>)
    ensures |r| == |anchors|
    ensures forall i :: 0 <= i < |r| ==> r[i] == Link(anchors[i].href, anchors[i].text)
  {
    seq(|anchors|, i requires 0 <= i < |anchors| => Link(anchors[i].href, anchors[i].text))
  }

  lemma AnchorsRoundTrip(links: seq<Link>)
    ensures LinksOf(Anchors(links)) == links
  {
  }

  /** Keys are the positions 0, 1, ..., so they are pairwise distinct even when
      two links are equal. */
  lemma AnchorKeysDistinct(links: seq<Link>)
    ensures forall i, j :: 0 <= i < j < |links| ==> Anchors(links)[i].key != Anchors(links)[j].key
  {
  }

  /** Mapping a concatenation: the second list's anchors follow the first's,
      their keys shifted by the length of the first. */
  lemma {:induction false} AnchorsAppend(a: seq<Link>, b: seq<Link>)
    ensures |Anchors(a + b)| == |a| + |b|
    ensures Anchors(a + b)[..|a|] == Anchors(a)
    ensures forall j :: 0 <= j < |b| ==> Anchors(a + b)[|a| + j] == Anchors(b)[j].(key := |a| + j)
  {
    assert forall i :: 0 <= i < |a| ==> (a + b)[i] == a[i];
    assert forall j :: 0 <= j < |b| ==> (a + b)[|a| + j] == b[j];
  }

  /** Two equal links give two anchors, not one. */
  lemma DuplicatesKept()
    ensures Render(Given([Descriptor(Link("/a", "A")), Descriptor(Link("/a", "A"))]))
         == Ok([Anchor(0, "/a", "A"), Anchor(1, "/a", "A")])
  {
    var r := Render(Given([Descriptor(Link("/a", "A")), Descriptor(Link("/a", "A"))]));
    assert r.Ok?;
    assert r.value[0] == Anchor(0, "/a", "A") && r.value[1] == Anchor(1, "/a", "A");
    assert r.value == [Anchor(0, "/a", "A"), Anchor(1, "/a", "A")];
  }
}
