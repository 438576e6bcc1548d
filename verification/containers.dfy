/**
 * Container resolution (wrapContainer) and the hierarchy check (checkHierarchy). A container is
 * canonicalised to a window or to a node that can clip its content.
 */
module Containers {
  import opened Base
  import opened Dom

  /** Documents and iframe elements stand for a window, so they are resolved one level further. */
  function ProxyRank(dom: Snapshot, sel: seq<NodeId>): nat
    requires InDom(dom, sel)
  {
    if |sel| > 0 && (dom.nodes[sel[0]].kind == DocumentNode || IsIframe(dom, sel[0])) then 1 else 0
  }

  /**
   * wrapContainer: an empty set is rejected; a document is replaced by its view and an iframe by its
   * content window (either may be missing, which gives an empty set again); a node other than a
   * window whose `overflow` is "visible" is rejected. The result is the first node of the wrapper.
   */
  function WrapContainer(dom: Snapshot, sel: seq<NodeId>): (r: Result<NodeId>)
    requires dom.WF() && InDom(dom, sel)
    decreases ProxyRank(dom, sel)
    ensures r.Ok? ==> r.value in dom.nodes
    // the result is a window or a node that clips, and never a proxy
    ensures r.Ok? ==> IsWindow(dom, r.value) || dom.nodes[r.value].css.overflow != "visible"
    ensures r.Ok? ==> dom.nodes[r.value].kind != DocumentNode && !IsIframe(dom, r.value)
    ensures |sel| == 0 ==> r == Err(EmptyContainer)
    ensures |sel| > 0 && IsWindow(dom, sel[0]) ==> r == Ok(sel[0])
    ensures |sel| > 0 && dom.nodes[sel[0]].kind == DocumentNode ==>
              r == (if dom.nodes[sel[0]].defaultView.Some? then Ok(dom.nodes[sel[0]].defaultView.value) else Err(EmptyContainer))
    ensures |sel| > 0 && IsIframe(dom, sel[0]) ==>
              r == (if dom.nodes[sel[0]].contentWindow.Some? then Ok(dom.nodes[sel[0]].contentWindow.value) else Err(EmptyContainer))
    ensures r.Err? ==> r.error == EmptyContainer || r.error == VisibleContainer
  {
    if |sel| == 0 then Err(EmptyContainer)
    else
      var c := sel[0];
      var node := dom.nodes[c];
      assert NodeWF(dom.nodes, c, node);
      if node.kind == DocumentNode then WrapContainer(dom, Wrap(node.defaultView))
      else if IsIframe(dom, c) then WrapContainer(dom, Wrap(node.contentWindow))
      else if !IsWindow(dom, c) && node.css.overflow == "visible" then Err(VisibleContainer)
      else Ok(c)
  }

  /**
   * checkHierarchy: the element must be an element node inside the container: of the container's
   * document for a window, under the root element for a document, a descendant otherwise.
   */
  function CheckHierarchy(dom: Snapshot, elem: NodeId, container: NodeId): (r: Result<()>)
    requires dom.WF() && elem in dom.nodes && container in dom.nodes
    ensures dom.nodes[elem].kind != ElementNode ==> r == Err(NotAnElement)
    ensures dom.nodes[elem].kind == ElementNode && IsWindow(dom, container) ==>
              (r.Ok? <==> OwnerWindow(dom, [elem]) == Some(container))
    ensures dom.nodes[elem].kind == ElementNode && dom.nodes[container].kind != WindowNode
            && dom.nodes[container].kind != DocumentNode ==>
              (r.Ok? <==> IsDescendant(dom, container, elem))
    // a node is never its own ancestor, so the element and its container differ
    ensures r.Ok? && !IsWindow(dom, container) ==> elem != container
    ensures r.Err? ==> r.error == NotAnElement || r.error == NotAnAncestor || r.error == HostTypeError
  {
    var n := dom.nodes[elem];
    assert NodeWF(dom.nodes, elem, n);
    if n.kind != ElementNode then Err(NotAnElement)
    else
      var c := dom.nodes[container];
      assert NodeWF(dom.nodes, container, c);
      var contained :- if c.kind == WindowNode then
                         Ok(dom.nodes[n.ownerDocument.value].defaultView == Some(container))
                       else if c.kind == DocumentNode then
                         (if c.documentElement.None? then Err(HostTypeError)
                          else Ok(IsDescendant(dom, c.documentElement.value, elem)))
                       else Ok(IsDescendant(dom, container, elem));
      if !contained then Err(NotAnAncestor)
      else
        assert c.kind != WindowNode ==> elem != container by {
          if c.kind == DocumentNode {
            DescendantComesFirst(dom, c.documentElement.value, elem);
            assert dom.nodes[c.documentElement.value].kind == ElementNode;
          } else if c.kind != WindowNode {
            DescendantComesFirst(dom, container, elem);
          }
        }
        Ok(())
  }
}
