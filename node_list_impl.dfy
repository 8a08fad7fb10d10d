/**
 * NodeListImpl: an ArrayList of nodes. The in-place edits (add, prepend,
 * removeAll, keepAllNodesThatMatch) reassign `nodes`; extraction and
 * rendering loop over it and build fresh results. Every method is proved
 * against the specification functions of module Nodes.
 */
module NodeLists {
  import opened Wrappers
  import opened Nodes

  /** A NodeVisitor, reduced to the calls it receives. */
  class Visitor {
    var calls: seq<Visit>

    constructor ()
      ensures calls == []
    {
      calls := [];
    }
  }

  /**
   * keepAllNodesThatMatch's loop at element `done`, the first `done`
   * elements already kept: a rejected element adds nothing to what is kept.
   */
  lemma KeepLoopDrop(orig: seq<Node>, done: nat, accept: Node -> bool, recursive: bool)
    requires done < |orig| && !accept(orig[done])
    ensures Keep(orig[..done + 1], accept, recursive) == Keep(orig[..done], accept, recursive)
  {
    assert orig[..done + 1][..done] == orig[..done];
  }

  /** An accepted element is kept, in its pruned form, after what is already kept. */
  lemma KeepLoopKeep(orig: seq<Node>, done: nat, accept: Node -> bool, recursive: bool)
    requires done < |orig| && accept(orig[done])
    ensures Keep(orig[..done + 1], accept, recursive) ==
      Keep(orig[..done], accept, recursive) + [Pruned(orig[done], accept, recursive)]
  {
    assert orig[..done + 1][..done] == orig[..done];
  }

  /**
   * One pass of keepAllNodesThatMatch's loop over `ns`, the first `done`
   * elements kept and the rest untouched: removing a rejected element, or
   * overwriting an accepted one with its pruned form and stepping past it,
   * leaves the first done + 1 elements kept.
   */
  lemma KeepLoopStep(orig: seq<Node>, done: nat, accept: Node -> bool, recursive: bool, ns: seq<Node>, i: nat)
    requires done < |orig|
    requires ns == Keep(orig[..done], accept, recursive) + orig[done..]
    requires i == |Keep(orig[..done], accept, recursive)|
    ensures i < |ns| && ns[i] == orig[done]
    ensures !accept(orig[done]) ==>
      ns[..i] + ns[i + 1..] == Keep(orig[..done + 1], accept, recursive) + orig[done + 1..] &&
      i == |Keep(orig[..done + 1], accept, recursive)|
    ensures accept(orig[done]) ==>
      ns[i := Pruned(orig[done], accept, recursive)] == Keep(orig[..done + 1], accept, recursive) + orig[done + 1..] &&
      i + 1 == |Keep(orig[..done + 1], accept, recursive)|
  {
    var kept := Keep(orig[..done], accept, recursive);
    SpliceAt(kept, orig, done, Pruned(orig[done], accept, recursive));
    if accept(orig[done]) {
      KeepLoopKeep(orig, done, accept, recursive);
    } else {
      KeepLoopDrop(orig, done, accept, recursive);
    }
  }

  /**
   * The list as the loop holds it, `kept + orig[done..]`: its element at
   * |kept| is orig[done]; removing it, or overwriting it with y, gives the
   * list for the next pass.
   */
  lemma SpliceAt<T>(kept: seq<T>, orig: seq<T>, done: nat, y: T)
    requires done < |orig|
    ensures (kept + orig[done..])[|kept|] == orig[done]
    ensures (kept + orig[done..])[..|kept|] + (kept + orig[done..])[|kept| + 1..] == kept + orig[done + 1..]
    ensures (kept + orig[done..])[|kept| := y] == (kept + [y]) + orig[done + 1..]
  {
    var current := kept + orig[done..];
    assert current[..|kept|] == kept;
    assert current[|kept| + 1..] == orig[done + 1..];
  }

  /** A kept element: when recursive, its child list is filtered the same way. */
  method PruneChildren(node: Node, accept: Node -> bool, recursive: bool) returns (pruned: Node)
    ensures pruned == Pruned(node, accept, recursive)
    decreases node
  {
    pruned := node;
    if recursive && node.Tag? && node.children.ChildList? {
      var kept := KeepInPlace(node.children.list, accept, recursive);
      pruned := node.(children := ChildList(kept));
    }
  }

  /**
   * keepAllNodesThatMatch(filter, recursive)'s loop: remove each rejected
   * element where it stands; a kept element's children are filtered the
   * same way when recursive.
   */
  method KeepInPlace(orig: seq<Node>, accept: Node -> bool, recursive: bool) returns (ns: seq<Node>)
    ensures ns == Keep(orig, accept, recursive)
    decreases orig
  {
    ghost var done := 0;
    ns := orig;
    var i := 0;
    while i < |ns|
      invariant done <= |orig|
      invariant ns == Keep(orig[..done], accept, recursive) + orig[done..]
      invariant i == |Keep(orig[..done], accept, recursive)|
      decreases |orig| - done
    {
      KeepLoopStep(orig, done, accept, recursive, ns, i);
      var node := ns[i];
      if !accept(node) {
        ns := ns[..i] + ns[i + 1..];
      } else {
        var pruned := PruneChildren(node, accept, recursive);
        ns := ns[i := pruned];
        i := i + 1;
      }
      done := done + 1;
    }
    assert orig[..done] == orig;
  }

  class NodeListImpl {
    var nodes: seq<Node>

    /** NodeListImpl(): an empty list. */
    constructor ()
      ensures nodes == []
    {
      nodes := [];
    }

    /** NodeListImpl(List<Node>): a list holding the given nodes. */
    constructor FromNodes(ns: seq<Node>)
      ensures nodes == ns
    {
      nodes := ns;
    }

    /** ArrayList.add(node): append one node. */
    method Add(node: Node)
      modifies this
      ensures nodes == old(nodes) + [node]
    {
      nodes := nodes + [node];
    }

    /** add(NodeList): append all elements of `list`, in order (`list` may be this list). */
    method AddList(list: NodeListImpl)
      modifies this
      ensures nodes == old(nodes) + old(list.nodes)
    {
      nodes := nodes + list.nodes;
    }

    /** prepend: the node becomes element 0 and the others shift up by one. */
    method Prepend(node: Node)
      modifies this
      ensures nodes == [node] + old(nodes)
      ensures |nodes| == |old(nodes)| + 1 && nodes[0] == node
      ensures forall i :: 0 <= i < |old(nodes)| ==> nodes[i + 1] == old(nodes)[i]
    {
      nodes := [node] + nodes;
    }

    /** removeAll: clear the list. */
    method RemoveAll()
      modifies this
      ensures nodes == []
    {
      nodes := [];
    }

    /** toHtml(verbatim): each element's toHtml(verbatim), concatenated in order. */
    method ToHtml(verbatim: bool, html: (Node, bool) -> string) returns (r: string)
      ensures r == Html(nodes, n => html(n, verbatim))
    {
      r := "";
      var i := 0;
      while i < |nodes|
        invariant 0 <= i <= |nodes|
        invariant r == Html(nodes[..i], n => html(n, verbatim))
      {
        assert nodes[..i + 1][..i] == nodes[..i];
        r := r + html(nodes[i], verbatim);
        i := i + 1;
      }
      assert nodes[..i] == nodes;
    }

    /** toHtml(): toHtml(false). */
    method ToHtmlDefault(html: (Node, bool) -> string) returns (r: string)
      ensures r == Html(nodes, n => html(n, false))
    {
      r := ToHtml(false, html);
    }

    /**
     * extractAllNodesThatMatch(filter, recursive): a fresh list of the
     * accepted elements, each followed, when recursive, by the matches
     * among its children. The receiver is not changed.
     */
    method ExtractAllNodesThatMatch(accept: Node -> bool, recursive: bool) returns (ret: NodeListImpl)
      ensures fresh(ret)
      ensures ret.nodes == Extract(nodes, accept, recursive)
      decreases nodes
    {
      ret := new NodeListImpl();
      var ns := nodes;
      var i := 0;
      while i < |ns|
        invariant 0 <= i <= |ns|
        invariant fresh(ret)
        invariant ret.nodes == Extract(ns[..i], accept, recursive)
      {
        var node := ns[i];
        ExtractStep(ns, i, accept, recursive);
        ghost var before := ret.nodes;
        ghost var own: seq<Node> := if accept(node) then [node] else [];
        ghost var below: seq<Node> :=
          if recursive && node.Tag? && node.children.ChildList? then Extract(node.children.list, accept, recursive) else [];
        assert ExtractOne(node, accept, recursive) == own + below;
        if accept(node) {
          ret.Add(node);
        }
        assert ret.nodes == before + own;
        if recursive && node.Tag? && node.children.ChildList? {
          var children := new NodeListImpl.FromNodes(node.children.list);
          var matches := children.ExtractAllNodesThatMatch(accept, recursive);
          ret.AddList(matches);
        }
        assert ret.nodes == (before + own) + below;
        AppendAssoc(before, own, below);
        i := i + 1;
      }
      assert ns[..i] == ns;
    }

    /** extractAllNodesThatMatch(filter): the non-recursive form, exactly the accepted elements. */
    method ExtractMatching(accept: Node -> bool) returns (ret: NodeListImpl)
      ensures fresh(ret)
      ensures ret.nodes == Filter(nodes, accept)
    {
      ret := ExtractAllNodesThatMatch(accept, false);
      ExtractShallow(nodes, accept);
    }

    /**
     * keepAllNodesThatMatch(filter, recursive): remove each rejected
     * element where it stands; a kept element's children are filtered the
     * same way when recursive.
     */
    method KeepAllNodesThatMatch(accept: Node -> bool, recursive: bool)
      modifies this
      ensures nodes == Keep(old(nodes), accept, recursive)
    {
      nodes := KeepInPlace(nodes, accept, recursive);
    }

    /** keepAllNodesThatMatch(filter): the non-recursive form keeps exactly the accepted elements. */
    method KeepMatching(accept: Node -> bool)
      modifies this
      ensures nodes == Filter(old(nodes), accept)
    {
      KeepAllNodesThatMatch(accept, false);
      KeepIsFilter(old(nodes), accept, false);
    }

    /** visitAllNodesWith: beginParsing, accept on each element in order, finishedParsing. */
    method VisitAllNodesWith(visitor: Visitor)
      modifies visitor
      ensures visitor.calls == old(visitor.calls) + VisitTrace(nodes)
    {
      var ns := nodes;
      visitor.calls := visitor.calls + [BeginParsing];
      ghost var start := visitor.calls;
      var i := 0;
      while i < |ns|
        invariant 0 <= i <= |ns|
        invariant visitor.calls == start + Accepts(ns[..i])
      {
        AcceptsStep(ns, i);
        AppendAssoc(start, Accepts(ns[..i]), [Accept(ns[i])]);
        visitor.calls := visitor.calls + [Accept(ns[i])];
        i := i + 1;
      }
      assert ns[..i] == ns;
      visitor.calls := visitor.calls + [FinishedParsing];
      AppendAssoc(old(visitor.calls), [BeginParsing], Accepts(ns));
      AppendAssoc(old(visitor.calls), [BeginParsing] + Accepts(ns), [FinishedParsing]);
    }

    /** getElements(filter): extractAllNodesThatMatch(filter, true), the pre-order matches. */
    method GetElements(accept: Node -> bool) returns (ret: NodeListImpl)
      ensures fresh(ret)
      ensures ret.nodes == Filter(PreOrder(nodes), accept)
    {
      ret := ExtractAllNodesThatMatch(accept, true);
      ExtractDeep(nodes, accept);
    }

    /**
     * getElementById: the first pre-order node the id filter accepts, or
     * None for Node.BLANK_NODE; `hasId` stands for the filter
     * HasAttributeFilter("id", id).
     */
    method GetElementById(hasId: Node -> bool) returns (r: Option<Node>)
      ensures r == FirstOrBlank(Filter(PreOrder(nodes), hasId))
      ensures r.None? <==> forall i :: 0 <= i < |PreOrder(nodes)| ==> !hasId(PreOrder(nodes)[i])
      ensures r.Some? ==> hasId(r.value) && r.value in PreOrder(nodes)
    {
      var found := GetElements(hasId);
      r := if found.nodes == [] then None else Some(found.nodes[0]);
      FirstFilteredIsFirstMatch(PreOrder(nodes), hasId);
    }
  }
}
