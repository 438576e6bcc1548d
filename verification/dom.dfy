/**
 * A snapshot of the browser state the plugin reads. Every property the plugin reads from the
 * DOM (computed style, bounding rect, client / scroll / inner / offset sizes, jQuery's width())
 * is a field of the node it is read from. The snapshot does not change during one query.
 */
module Dom {
  import opened Base

  /** Nodes are numbered in document order, so a parent always has a smaller number than its children. */
  type NodeId = nat

  /** Windows are not DOM nodes (they have no nodeType); the other kinds are node types 9, 1, 11 and 3. */
  datatype Kind = WindowNode | DocumentNode | ElementNode | FragmentNode | TextNode

  /** A bounding client rect: the border box of an element, in viewport coordinates. */
  datatype Rect = Rect(top: real, right: real, bottom: real, left: real)

  /**
   * Computed style values. Keyword values are lower-cased; "" stands for an empty or missing value.
   * Widths are the results of parseFloat on the computed lengths.
   */
  datatype Css = Css(
    overflow: string, overflowX: string, overflowY: string, position: string,
    borderTopWidth: real, borderRightWidth: real, borderBottomWidth: real, borderLeftWidth: real,
    paddingTop: real, paddingRight: real, paddingBottom: real, paddingLeft: real,
    marginTop: real, marginLeft: real)

  /** Geometry reads. `width`/`height` are what jQuery's width()/height() report for the node. */
  datatype Box = Box(
    rect: Rect,
    clientWidth: real, clientHeight: real,
    scrollWidth: real, scrollHeight: real,
    innerWidth: real, innerHeight: real,
    width: real, height: real,
    offsetWidth: real, offsetHeight: real)

  datatype Node = Node(
    kind: Kind,
    tagName: string,                  // lower-cased tag name of an element
    parent: Option<NodeId>,           // parentNode
    ownerDocument: Option<NodeId>,    // for elements, fragments and text nodes
    defaultView: Option<NodeId>,      // for documents: defaultView || parentWindow
    document: Option<NodeId>,         // for windows: window.document
    contentWindow: Option<NodeId>,    // for iframe elements
    contentDocument: Option<NodeId>,  // for iframe elements: contentDocument || contentWindow.document
    documentElement: Option<NodeId>,  // for documents: the html element
    body: Option<NodeId>,             // for documents: the body element
    backCompat: bool,                 // for documents: compatMode === "BackCompat"
    css: Css,
    box: Box)

  predicate Links(nodes: map<NodeId, Node>, link: Option<NodeId>, kind: Kind) {
    link.None? || (link.value in nodes && nodes[link.value].kind == kind)
  }

  /** The structural facts every browser guarantees about the objects above. */
  predicate NodeWF(nodes: map<NodeId, Node>, id: NodeId, n: Node) {
    && (n.parent.Some? ==> n.parent.value < id && n.parent.value in nodes)
    && ((n.kind == WindowNode || n.kind == DocumentNode) <==> n.ownerDocument.None?)
    && (n.kind == WindowNode ==> n.document.Some?)
    && Links(nodes, n.ownerDocument, DocumentNode)
    && Links(nodes, n.defaultView, WindowNode)
    && Links(nodes, n.document, DocumentNode)
    && Links(nodes, n.contentWindow, WindowNode)
    && Links(nodes, n.contentDocument, DocumentNode)
    && Links(nodes, n.documentElement, ElementNode)
    && Links(nodes, n.body, ElementNode)
  }

  datatype Snapshot = Snapshot(nodes: map<NodeId, Node>) {
    predicate WF() {
      forall id | id in nodes :: NodeWF(nodes, id, nodes[id])
    }
  }

  predicate InDom(dom: Snapshot, sel: seq<NodeId>) {
    forall i | 0 <= i < |sel| :: sel[i] in dom.nodes
  }

  /** A jQuery set built from a possibly missing object: `$(undefined)` is empty. */
  function Wrap(o: Option<NodeId>): (sel: seq<NodeId>)
    ensures |sel| <= 1
    ensures o.Some? ==> sel == [o.value]
    ensures o.None? ==> sel == []
  {
    if o.Some? then [o.value] else []
  }

  /** The first node of a set, or undefined. */
  function First(sel: seq<NodeId>): Option<NodeId> {
    if |sel| > 0 then Some(sel[0]) else None
  }

  predicate IsWindow(dom: Snapshot, n: NodeId)
    requires n in dom.nodes
  {
    dom.nodes[n].kind == WindowNode
  }

  predicate IsIframe(dom: Snapshot, n: NodeId)
    requires n in dom.nodes
  {
    dom.nodes[n].kind == ElementNode && dom.nodes[n].tagName == "iframe"
  }

  /** jQuery's $.contains: `n` is a strict descendant of `ancestor`. */
  predicate IsDescendant(dom: Snapshot, ancestor: NodeId, n: NodeId)
    requires dom.WF()
    decreases n
  {
    && n in dom.nodes
    && dom.nodes[n].parent.Some?
    && var p := dom.nodes[n].parent.value;
       p == ancestor || IsDescendant(dom, ancestor, p)
  }

  /** Containment is strict: an ancestor comes before its descendants, so no node contains itself. */
  lemma {:induction false} DescendantComesFirst(dom: Snapshot, ancestor: NodeId, n: NodeId)
    requires dom.WF()
    requires IsDescendant(dom, ancestor, n)
    ensures ancestor < n
    ensures ancestor != n
    decreases n
  {
    var p := dom.nodes[n].parent.value;
    assert NodeWF(dom.nodes, n, dom.nodes[n]);
    if p != ancestor {
      DescendantComesFirst(dom, ancestor, p);
    }
  }

  /**
   * ownerWindow: the window of the first node of the set. A window is its own owner window, a
   * document owns through its view, any other node through its owner document's view.
   */
  function OwnerWindow(dom: Snapshot, sel: seq<NodeId>): (r: Option<NodeId>)
    requires dom.WF() && InDom(dom, sel)
    ensures r.Some? ==> r.value in dom.nodes && IsWindow(dom, r.value)
    ensures |sel| == 0 ==> r.None?
    ensures |sel| > 0 && IsWindow(dom, sel[0]) ==> r == Some(sel[0])
    ensures |sel| > 0 && dom.nodes[sel[0]].kind == DocumentNode ==> r == dom.nodes[sel[0]].defaultView
    // any other node: the view of its owner document
    ensures |sel| > 0 && dom.nodes[sel[0]].ownerDocument.Some? ==>
              dom.nodes[sel[0]].ownerDocument.value in dom.nodes &&
              r == dom.nodes[dom.nodes[sel[0]].ownerDocument.value].defaultView
  {
    if |sel| == 0 then None
    else
      var elem := sel[0];
      var n := dom.nodes[elem];
      assert NodeWF(dom.nodes, elem, n);
      var ownerDocument := if n.kind == DocumentNode then Some(elem) else n.ownerDocument;
      var view := if ownerDocument.Some? then dom.nodes[ownerDocument.value].defaultView else None;
      assert view.Some? ==> NodeWF(dom.nodes, ownerDocument.value, dom.nodes[ownerDocument.value]);
      if view.Some? then view
      else if n.kind == WindowNode then Some(elem)
      else None
  }
}
