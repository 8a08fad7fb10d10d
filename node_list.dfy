/**
 * The older concrete NodeList class (package org.htmlparser.util before the
 * interface split). Its list algorithms are the same as NodeListImpl's and
 * are proved against the same specification functions; its recursive
 * extraction appends the children's matches through add(NodeList).
 */
module LegacyNodeLists {
  import opened Wrappers
  import opened Nodes
  import NodeLists

  class NodeList {
    var nodes: seq<Node>

    /** NodeList(): an empty list. */
    constructor ()
      ensures nodes == []
    {
      nodes := [];
    }

    /** NodeList(node): a one-element list. */
    constructor Single(node: Node)
      ensures nodes == [node]
    {
      nodes := [node];
    }

    /** A list over the given nodes (how a tag's child list is reached). */
    constructor FromNodes(ns: seq<Node>)
      ensures nodes == ns
    {
      nodes := ns;
    }

    /** ArrayList.add(node): append one node. */
    method Add(node: Node)
      modifies this
      ensures nodes == old(nodes) + [node]
    {
      nodes := nodes + [node];
    }

    /** add(NodeList): append all elements of `list`, in order. */
    method AddList(list: NodeList)
      modifies this
      ensures nodes == old(nodes) + old(list.nodes)
    {
      nodes := nodes + list.nodes;
    }

    /** prepend: insert at the head. */
    method Prepend(node: Node)
      modifies this
      ensures nodes == [node] + old(nodes)
    {
      nodes := [node] + nodes;
    }

    /** removeAll: clear the list. */
    method RemoveAll()
      modifies this
      ensures nodes == []
    {
      nodes := [];
    }

    /** toHtml(verbatim): the elements' HTML concatenated in order. */
    method ToHtml(verbatim: bool, html: (Node, bool) -> string) returns (r: string)
      ensures r == Html(nodes, n => html(n, verbatim))
    {
      r := "";
      var i := 0;
      while i < |nodes|
        invariant 0 <= i <= |nodes|
        invariant r == Html(nodes[..i], n => html(n, verbatim))
      {
        assert nodes[..i + 1][..i] == nodes[..i];
        r := r + html(nodes[i], verbatim);
        i := i + 1;
      }
      assert nodes[..i] == nodes;
    }

    /** toHtml(): verbatim defaults to false. */
    method ToHtmlDefault(html: (Node, bool) -> string) returns (r: string)
      ensures r == Html(nodes, n => html(n, false))
    {
      r := ToHtml(false, html);
    }

    /**
     * extractAllNodesThatMatch(filter, recursive): accepted elements in
     * order, each followed (when recursive) by the list its children
     * yield, added with add(NodeList).
     */
    method ExtractAllNodesThatMatch(accept: Node -> bool, recursive: bool) returns (ret: NodeList)
      ensures fresh(ret)
      ensures ret.nodes == Extract(nodes, accept, recursive)
      decreases nodes
    {
      ret := new NodeList();
      var ns := nodes;
      var i := 0;
      while i < |ns|
        invariant 0 <= i <= |ns|
        invariant fresh(ret)
        invariant ret.nodes == Extract(ns[..i], accept, recursive)
      {
        var node := ns[i];
        ExtractStep(ns, i, accept, recursive);
        ghost var before := ret.nodes;
        ghost var own: seq<Node> := if accept(node) then [node] else [];
        ghost var below: seq<Node> :=
          if recursive && node.Tag? && node.children.ChildList? then Extract(node.children.list, accept, recursive) else [];
        assert ExtractOne(node, accept, recursive) == own + below;
        if accept(node) {
          ret.Add(node);
        }
        assert ret.nodes == before + own;
        if recursive && node.Tag? && node.children.ChildList? {
          var children := new NodeList.FromNodes(node.children.list);
          var matches := children.ExtractAllNodesThatMatch(accept, recursive);
          ret.AddList(matches);
        }
        assert ret.nodes == (before + own) + below;
        AppendAssoc(before, own, below);
        i := i + 1;
      }
      assert ns[..i] == ns;
    }

    /** extractAllNodesThatMatch(filter): the accepted elements in their original order. */
    method ExtractMatching(accept: Node -> bool) returns (ret: NodeList)
      ensures fresh(ret)
      ensures ret.nodes == Filter(nodes, accept)
    {
      ret := ExtractAllNodesThatMatch(accept, false);
      ExtractShallow(nodes, accept);
    }

    /** The recursive extraction in pre-order. */
    method ExtractDeepMatches(accept: Node -> bool) returns (ret: NodeList)
      ensures fresh(ret)
      ensures ret.nodes == Filter(PreOrder(nodes), accept)
    {
      ret := ExtractAllNodesThatMatch(accept, true);
      ExtractDeep(nodes, accept);
    }

    /** keepAllNodesThatMatch(filter, recursive): in-place removal of the rejected elements. */
    method KeepAllNodesThatMatch(accept: Node -> bool, recursive: bool)
      modifies this
      ensures nodes == Keep(old(nodes), accept, recursive)
    {
      nodes := NodeLists.KeepInPlace(nodes, accept, recursive);
    }

    /** keepAllNodesThatMatch(filter): the rejected elements go, the rest keep their order. */
    method KeepMatching(accept: Node -> bool)
      modifies this
      ensures nodes == Filter(old(nodes), accept)
    {
      KeepAllNodesThatMatch(accept, false);
      KeepIsFilter(old(nodes), accept, false);
    }

    /** visitAllNodesWith: beginParsing, each element's accept in order, finishedParsing. */
    method VisitAllNodesWith(visitor: NodeLists.Visitor)
      modifies visitor
      ensures visitor.calls == old(visitor.calls) + VisitTrace(nodes)
    {
      var ns := nodes;
      visitor.calls := visitor.calls + [BeginParsing];
      ghost var start := visitor.calls;
      var i := 0;
      while i < |ns|
        invariant 0 <= i <= |ns|
        invariant visitor.calls == start + Accepts(ns[..i])
      {
        AcceptsStep(ns, i);
        AppendAssoc(start, Accepts(ns[..i]), [Accept(ns[i])]);
        visitor.calls := visitor.calls + [Accept(ns[i])];
        i := i + 1;
      }
      assert ns[..i] == ns;
      visitor.calls := visitor.calls + [FinishedParsing];
      AppendAssoc(old(visitor.calls), [BeginParsing], Accepts(ns));
      AppendAssoc(old(visitor.calls), [BeginParsing] + Accepts(ns), [FinishedParsing]);
    }
  }
}
