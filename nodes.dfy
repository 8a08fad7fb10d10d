/**
 * The node tree the lists hold, and the specification functions of the
 * list algorithms (filtering, pre-order extraction, keeping, rendering,
 * visiting) that the NodeListImpl and NodeList classes are proved against.
 */
module Nodes {
  import opened Wrappers
  import opened Attributes

  /**
   * A node of the page. Only tags carry children, and only composite tags
   * have a child list (getChildren is null otherwise).
   */
  datatype Node =
    | Text(text: string)
    | Remark(text: string)
    | Tag(attributes: seq<Attribute>, children: Children)

  /** Node.getChildren: absent (null) or a list. */
  datatype Children = NoChildren | ChildList(list: seq<Node>)

  /** The nodes of a list and of all their descendants, each before its children. */
  function PreOrder(ns: seq<Node>): (r: seq<Node>)
    ensures |ns| <= |r|
    decreases ns
  {
    if ns == [] then []
    else PreOrder(ns[..|ns| - 1]) + [ns[|ns| - 1]] + Descendants(ns[|ns| - 1])
  }

  /** PreOrder of a node's child list, empty when it has none. */
  function Descendants(n: Node): seq<Node>
    decreases n
  {
    if n.Tag? && n.children.ChildList? then PreOrder(n.children.list) else []
  }

  /** The accepted elements of a list, in order. */
  function Filter(ns: seq<Node>, accept: Node -> bool): (r: seq<Node>)
    ensures |r| <= |ns|
    ensures forall i :: 0 <= i < |r| ==> accept(r[i])
  {
    if ns == [] then []
    else Filter(ns[..|ns| - 1], accept) + (if accept(ns[|ns| - 1]) then [ns[|ns| - 1]] else [])
  }

  /**
   * extractAllNodesThatMatch(filter, recursive): for each element in turn,
   * the element if accepted, then (when recursive) the matches among its
   * children.
   */
  function Extract(ns: seq<Node>, accept: Node -> bool, recursive: bool): (r: seq<Node>)
    ensures forall i :: 0 <= i < |r| ==> accept(r[i])
    decreases ns
  {
    if ns == [] then []
    else Extract(ns[..|ns| - 1], accept, recursive) + ExtractOne(ns[|ns| - 1], accept, recursive)
  }

  /** What one element contributes to the extraction. */
  function ExtractOne(n: Node, accept: Node -> bool, recursive: bool): (r: seq<Node>)
    ensures forall i :: 0 <= i < |r| ==> accept(r[i])
    decreases n
  {
    (if accept(n) then [n] else []) +
    (if recursive && n.Tag? && n.children.ChildList? then Extract(n.children.list, accept, recursive) else [])
  }

  /** Extraction over one more element of a list: the element's share is appended. */
  lemma ExtractStep(ns: seq<Node>, i: nat, accept: Node -> bool, recursive: bool)
    requires i < |ns|
    ensures Extract(ns[..i + 1], accept, recursive) == Extract(ns[..i], accept, recursive) + ExtractOne(ns[i], accept, recursive)
  {
    assert ns[..i + 1][..i] == ns[..i];
  }

  lemma {:induction false} FilterAppend(a: seq<Node>, b: seq<Node>, accept: Node -> bool)
    ensures Filter(a + b, accept) == Filter(a, accept) + Filter(b, accept)
    decreases |b|
  {
    if b == [] {
      assert a + b == a;
    } else {
      assert (a + b)[..|a + b| - 1] == a + b[..|b| - 1];
      FilterAppend(a, b[..|b| - 1], accept);
    }
  }

  /** Filtering a list with a given head: the head if accepted, then the filtered tail. */
  lemma FilterCons(x: Node, s: seq<Node>, accept: Node -> bool)
    ensures Filter([x] + s, accept) == (if accept(x) then [x] else []) + Filter(s, accept)
  {
    assert Filter([x], accept) == (if accept(x) then [x] else []) by {
      assert [x][..0] == [];
      assert Filter([x][..0], accept) == [];
    }
    FilterAppend([x], s, accept);
  }

  /** Non-recursive extraction is exactly the filter of the list. */
  lemma {:induction false} ExtractShallow(ns: seq<Node>, accept: Node -> bool)
    ensures Extract(ns, accept, false) == Filter(ns, accept)
    decreases |ns|
  {
    if ns != [] {
      ExtractShallow(ns[..|ns| - 1], accept);
    }
  }

  /**
   * Recursive extraction is the filter of the pre-order walk: an accepted
   * node comes before every match found below it.
   */
  lemma {:induction false} ExtractDeep(ns: seq<Node>, accept: Node -> bool)
    ensures Extract(ns, accept, true) == Filter(PreOrder(ns), accept)
    decreases ns
  {
    if ns != [] {
      var init, last := ns[..|ns| - 1], ns[|ns| - 1];
      ExtractDeep(init, accept);
      ExtractOneDeep(last, accept);
      FilterAppend(PreOrder(init), [last] + Descendants(last), accept);
      assert PreOrder(ns) == PreOrder(init) + ([last] + Descendants(last));
    }
  }

  /** One element's share of the recursive extraction is the filter of its own walk. */
  lemma {:induction false} ExtractOneDeep(n: Node, accept: Node -> bool)
    ensures ExtractOne(n, accept, true) == Filter([n] + Descendants(n), accept)
    decreases n
  {
    FilterAppend([n], Descendants(n), accept);
    assert Filter([n], accept) == if accept(n) then [n] else [] by {
      assert [n][..0] == [];
    }
    if n.Tag? && n.children.ChildList? {
      ExtractDeep(n.children.list, accept);
    }
  }

  lemma {:induction false} PreOrderAppend(a: seq<Node>, b: seq<Node>)
    ensures PreOrder(a + b) == PreOrder(a) + PreOrder(b)
    decreases |b|
  {
    if b == [] {
      assert a + b == a;
    } else {
      assert (a + b)[..|a + b| - 1] == a + b[..|b| - 1];
      PreOrderAppend(a, b[..|b| - 1]);
    }
  }

  /** Every element of the list, and every node below one, appears in the walk. */
  lemma {:induction false} PreOrderContainsElements(ns: seq<Node>)
    ensures forall i :: 0 <= i < |ns| ==> ns[i] in PreOrder(ns)
    decreases |ns|
  {
    if ns != [] {
      PreOrderContainsElements(ns[..|ns| - 1]);
      forall i | 0 <= i < |ns|
        ensures ns[i] in PreOrder(ns)
      {
        if i < |ns| - 1 {
          assert ns[i] == ns[..|ns| - 1][i];
        }
      }
    }
  }

  /** The element kept in place of an accepted node: its children pruned too when recursive. */
  function Pruned(n: Node, accept: Node -> bool, recursive: bool): Node
    decreases n
  {
    if recursive && n.Tag? && n.children.ChildList? then
      n.(children := ChildList(Keep(n.children.list, accept, recursive)))
    else n
  }

  /** keepAllNodesThatMatch(filter, recursive): the list after its in-place removals. */
  function Keep(ns: seq<Node>, accept: Node -> bool, recursive: bool): (r: seq<Node>)
    ensures |r| <= |ns|
    decreases ns
  {
    if ns == [] then []
    else
      Keep(ns[..|ns| - 1], accept, recursive) +
      (if accept(ns[|ns| - 1]) then [Pruned(ns[|ns| - 1], accept, recursive)] else [])
  }

  /** The same node up to its children: a pruned node keeps its kind, text and attributes. */
  predicate SameHead(a: Node, b: Node)
  {
    match a
    case Text(t) => b == Text(t)
    case Remark(t) => b == Remark(t)
    case Tag(attrs, c) => b.Tag? && b.attributes == attrs && (c.ChildList? <==> b.children.ChildList?)
  }

  /**
   * keepAllNodesThatMatch removes exactly the rejected elements and the
   * survivors keep their order; without recursion they are untouched.
   */
  lemma {:induction false} KeepIsFilter(ns: seq<Node>, accept: Node -> bool, recursive: bool)
    ensures |Keep(ns, accept, recursive)| == |Filter(ns, accept)|
    ensures forall i :: 0 <= i < |Filter(ns, accept)| ==>
      SameHead(Filter(ns, accept)[i], Keep(ns, accept, recursive)[i])
    ensures !recursive ==> Keep(ns, accept, recursive) == Filter(ns, accept)
    decreases |ns|
  {
    if ns != [] {
      KeepIsFilter(ns[..|ns| - 1], accept, recursive);
    }
  }

  lemma {:induction false} KeepAppend(a: seq<Node>, b: seq<Node>, accept: Node -> bool, recursive: bool)
    ensures Keep(a + b, accept, recursive) == Keep(a, accept, recursive) + Keep(b, accept, recursive)
    decreases |b|
  {
    if b == [] {
      assert a + b == a;
    } else {
      assert (a + b)[..|a + b| - 1] == a + b[..|b| - 1];
      KeepAppend(a, b[..|b| - 1], accept, recursive);
    }
  }

  /** Keeping from a list none of whose nodes, at any depth, is rejected changes nothing. */
  lemma {:induction false} KeepAllAccepted(ns: seq<Node>, accept: Node -> bool, recursive: bool)
    requires forall n :: n in PreOrder(ns) ==> accept(n)
    ensures Keep(ns, accept, recursive) == ns
    decreases ns
  {
    if ns != [] {
      var init, last := ns[..|ns| - 1], ns[|ns| - 1];
      var before, below := PreOrder(init), Descendants(last);
      assert PreOrder(ns) == before + [last] + below;
      assert forall n :: n in before ==> n in PreOrder(ns);
      KeepAllAccepted(init, accept, recursive);
      assert accept(last) by {
        assert last in PreOrder(ns);
      }
      if recursive && last.Tag? && last.children.ChildList? {
        assert forall n :: n in below ==> n in PreOrder(ns);
        KeepAllAccepted(last.children.list, accept, recursive);
      }
      assert Pruned(last, accept, recursive) == last;
      assert init + [last] == ns;
    }
  }

  /** toHtml: each element's HTML, in order; `html` stands for Node.toHtml(verbatim). */
  function Html(ns: seq<Node>, html: Node -> string): string
  {
    if ns == [] then "" else Html(ns[..|ns| - 1], html) + html(ns[|ns| - 1])
  }

  /** The HTML of two lists joined is the two HTML texts joined. */
  lemma {:induction false} HtmlAppend(a: seq<Node>, b: seq<Node>, html: Node -> string)
    ensures Html(a + b, html) == Html(a, html) + Html(b, html)
    decreases |b|
  {
    if b == [] {
      assert a + b == a;
    } else {
      assert (a + b)[..|a + b| - 1] == a + b[..|b| - 1];
      HtmlAppend(a, b[..|b| - 1], html);
    }
  }

  /** The visitor calls a list makes: beginParsing, one accept per element, finishedParsing. */
  datatype Visit = BeginParsing | Accept(node: Node) | FinishedParsing

  function Accepts(ns: seq<Node>): (r: seq<Visit>)
    ensures |r| == |ns| && forall i :: 0 <= i < |ns| ==> r[i] == Accept(ns[i])
  {
    seq(|ns|, i requires 0 <= i < |ns| => Accept(ns[i]))
  }

  /** The accept calls for one more element of a list. */
  lemma AcceptsStep(ns: seq<Node>, i: nat)
    requires i < |ns|
    ensures Accepts(ns[..i + 1]) == Accepts(ns[..i]) + [Accept(ns[i])]
  {
  }

  function VisitTrace(ns: seq<Node>): (r: seq<Visit>)
    ensures |r| == |ns| + 2 && r[0] == BeginParsing && r[|r| - 1] == FinishedParsing
    ensures forall i :: 0 <= i < |ns| ==> r[i + 1] == Accept(ns[i])
  {
    [BeginParsing] + Accepts(ns) + [FinishedParsing]
  }

  /** The visitor method TagNode.accept calls: visitEndTag for an end tag, visitTag otherwise. */
  datatype TagVisit = VisitTag(attributes: seq<Attribute>) | VisitEndTag(attributes: seq<Attribute>)

  function AcceptTag(attributes: seq<Attribute>): (r: TagVisit)
    ensures r.attributes == attributes
    ensures r.VisitEndTag? <==>
      (RawTagName(attributes).Some? && |RawTagName(attributes).value| > 0 && RawTagName(attributes).value[0] == '/')
  {
    if IsEndTag(attributes) then VisitEndTag(attributes) else VisitTag(attributes)
  }

  /**
   * getElementById: the first node of the pre-order walk that has the id,
   * or None for Node.BLANK_NODE.
   */
  function FirstOrBlank(ns: seq<Node>): Option<Node>
  {
    if ns == [] then None else Some(ns[0])
  }

  /** The first pre-order node that has the id, found through the filter of the walk. */
  lemma {:induction false} FirstFilteredIsFirstMatch(ns: seq<Node>, accept: Node -> bool)
    ensures var r := FirstOrBlank(Filter(ns, accept));
      && (r.None? <==> forall i :: 0 <= i < |ns| ==> !accept(ns[i]))
      && (r.Some? ==> exists i :: 0 <= i < |ns| && ns[i] == r.value && accept(ns[i]) &&
                        forall j :: 0 <= j < i ==> !accept(ns[j]))
    decreases |ns|
  {
    if ns != [] {
      var init, last := ns[..|ns| - 1], ns[|ns| - 1];
      FirstFilteredIsFirstMatch(init, accept);
      var fi := Filter(init, accept);
      if fi == [] {
        assert forall i :: 0 <= i < |init| ==> !accept(ns[i]) by {
          forall i | 0 <= i < |init| ensures !accept(ns[i]) { assert ns[i] == init[i]; }
        }
        if accept(last) {
          assert FirstOrBlank(Filter(ns, accept)) == Some(last);
        }
      } else {
        var i :| 0 <= i < |init| && init[i] == fi[0] && accept(init[i]) &&
          forall j :: 0 <= j < i ==> !accept(init[j]);
        assert ns[i] == init[i];
        assert forall j :: 0 <= j < i ==> ns[j] == init[j];
      }
    }
  }
}
