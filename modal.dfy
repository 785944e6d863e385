/** The Modal primitive: nothing when closed, otherwise an overlay holding a
    header (title and a close control), a body (the children) and a footer
    (a secondary Button that closes). Class strings and static labels are not
    modelled; the tree keeps elements, click handlers and the caller's content. */
module Modal {
  import opened Js
  import opened Wrappers

  /** A rendered tree. `V` stands for any caller-supplied value: the title, the
      children and the `onClose` handler. */
  datatype Node<V> =
    | Element(tag: string, onClick: Option<V>, kids: seq<Node<V>>)
    | Embed(v: V)

  /** Caller content embedded in a tree, in document order. */
  function Embeds<V>(n: Node<V>): seq<V>
    decreases n, 1
  {
    match n
    case Embed(v) => [v]
    case Element(_, _, kids) => EmbedsAll(kids, n)
  }

  function EmbedsAll<V>(ns: seq<Node<V>>, ghost parent: Node<V>): seq<V>
    requires forall k :: 0 <= k < |ns| ==> ns[k] < parent
    decreases parent, 0, |ns|
  {
    if ns == [] then [] else Embeds(ns[0]) + EmbedsAll(ns[1..], parent)
  }

  /** Click handlers in a tree, with the tag of the element that carries each,
      in document order. */
  function Handlers<V>(n: Node<V>): seq<(string, V)>
    decreases n, 1
  {
    match n
    case Embed(_) => []
    case Element(tag, onClick, kids) =>
      (if onClick.Some? then [(tag, onClick.value)] else []) + HandlersAll(kids, n)
  }

  function HandlersAll<V>(ns: seq<Node<V>>, ghost parent: Node<V>): seq<(string, V)>
    requires forall k :: 0 <= k < |ns| ==> ns[k] < parent
    decreases parent, 0, |ns|
  {
    if ns == [] then [] else Handlers(ns[0]) + HandlersAll(ns[1..], parent)
  }

  function Header<V>(onClose: V, title: V): Node<V> {
    Element("div", None, [Element("h3", None, [Embed(title)]), Element("button", Some(onClose), [])])
  }

  function Body<V>(children: V): Node<V> {
    Element("div", None, [Embed(children)])
  }

  function Footer<V>(onClose: V): Node<V> {
    Element("div", None, [Element("button", Some(onClose), [])])
  }

  /** The three regions of an open modal: header, body, footer. */
  function Regions<V>(onClose: V, title: V, children: V): seq<Node<V>> {
    [Header(onClose, title), Body(children), Footer(onClose)]
  }

  /** `Modal({ isOpen, onClose, title, children })`. The overlay holds one panel
      whose regions are the header, the body and the footer. The title and the
      children each appear once, title first, and exactly two controls (both
      buttons) call `onClose`. */
  function Render<V>(isOpen: Value, onClose: V, title: V, children: V): (r: Option<Node<V>>)
    ensures r.None? <==> !Truthy(isOpen)
    ensures r.Some? ==> Embeds(r.value) == [title, children]
    ensures r.Some? ==> Handlers(r.value) == [("button", onClose), ("button", onClose)]
    ensures r.Some? ==> r.value.Element? && |r.value.kids| == 1 && r.value.kids[0].Element?
    ensures r.Some? ==> r.value.kids[0].kids == Regions(onClose, title, children)
  {
    if !Truthy(isOpen) then None
    else
      var panel := Element("div", None, Regions(onClose, title, children));
      var overlay := Element("div", None, [panel]);
      OpenLayout(onClose, title, children);
      Some(overlay)
  }

  lemma OneKid<V>(n: Node<V>, parent: Node<V>)
    requires n < parent
    ensures EmbedsAll([n], parent) == Embeds(n)
    ensures HandlersAll([n], parent) == Handlers(n)
  {
    assert [n][1..] == [];
  }

  lemma TwoKids<V>(a: Node<V>, b: Node<V>, parent: Node<V>)
    requires a < parent && b < parent
    ensures EmbedsAll([a, b], parent) == Embeds(a) + Embeds(b)
    ensures HandlersAll([a, b], parent) == Handlers(a) + Handlers(b)
  {
    assert [a, b][1..] == [b];
    OneKid(b, parent);
  }

  lemma ThreeKids<V>(a: Node<V>, b: Node<V>, c: Node<V>, parent: Node<V>)
    requires a < parent && b < parent && c < parent
    ensures EmbedsAll([a, b, c], parent) == Embeds(a) + (Embeds(b) + Embeds(c))
    ensures HandlersAll([a, b, c], parent) == Handlers(a) + (Handlers(b) + Handlers(c))
  {
    assert [a, b, c][1..] == [b, c];
    TwoKids(b, c, parent);
  }

  /** Region by region: the header holds the title and one close button, the
      body holds the children and nothing clickable, the footer holds the
      other close button. */
  lemma RegionContents<V>(onClose: V, title: V, children: V)
    ensures Embeds(Header(onClose, title)) == [title]
    ensures Handlers(Header(onClose, title)) == [("button", onClose)]
    ensures Embeds(Body(children)) == [children]
    ensures Handlers(Body(children)) == []
    ensures Embeds(Footer(onClose)) == []
    ensures Handlers(Footer(onClose)) == [("button", onClose)]
  {
    var h := Header(onClose, title);
    var h3 := Element("h3", None, [Embed(title)]);
    var close: Node<V> := Element("button", Some(onClose), []);
    assert h3.kids[0] == Embed(title);
    OneKid(Embed(title), h3);
    assert h.kids[0] == h3 && h.kids[1] == close;
    TwoKids(h3, close, h);
    var b := Body(children);
    assert b.kids[0] == Embed(children);
    OneKid(Embed(children), b);
    var f := Footer(onClose);
    assert f.kids[0] == close;
    OneKid(close, f);
  }

  lemma OpenLayout<V>(onClose: V, title: V, children: V)
    ensures var overlay := Element("div", None, [Element("div", None, Regions(onClose, title, children))]);
      && Embeds(overlay) == [title, children]
      && Handlers(overlay) == [("button", onClose), ("button", onClose)]
  {
    var h, b, f := Header(onClose, title), Body(children), Footer(onClose);
    var panel := Element("div", None, [h, b, f]);
    var overlay := Element("div", None, [panel]);
    RegionContents(onClose, title, children);
    assert overlay.kids[0] == panel;
    OneKid(panel, overlay);
    assert panel.kids[0] == h && panel.kids[1] == b && panel.kids[2] == f;
    ThreeKids(h, b, f, panel);
  }

  /** Only the truthiness of `isOpen` matters: the modal owns no visibility state. */
  lemma RenderDependsOnTruthiness<V>(a: Value, b: Value, onClose: V, title: V, children: V)
    requires Truthy(a) == Truthy(b)
    ensures Render(a, onClose, title, children) == Render(b, onClose, title, children)
  {
  }
}
