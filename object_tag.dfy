/**
 * ObjectTag: an <OBJECT> tag whose PARAM children form a name-to-value
 * table. The table is read with a loop over the children and rewritten by
 * removing every PARAM child and appending fresh ones.
 */
module ObjectTags {
  import opened Wrappers
  import opened JavaStrings
  import opened Attributes
  import opened Nodes
  import opened TagNodes

  /** The names handled by this tag. */
  const Ids: seq<string> := ["OBJECT"]

  /** The end tags that stop the scan of an OBJECT tag. */
  const EndTagEnders: seq<string> := ["BODY", "HTML"]

  /** The attributes with a getter and a setter of their own (getObjectClassId ... setObjectWidth). */
  const ObjectAttributeNames: set<string> :=
    {"CLASSID", "CODEBASE", "CODETYPE", "DATA", "HEIGHT", "STANDBY", "TYPE", "WIDTH"}

  /** getChildren as a list: null reads as empty. */
  function Kids(c: Children): seq<Node>
  {
    match c
    case NoChildren => []
    case ChildList(list) => list
  }

  /** A Tag child whose tag name is null: getTagName().equals(...) throws on it. */
  predicate IsNamelessTag(n: Node)
  {
    n.Tag? && TagName(n.attributes).None?
  }

  /** A Tag child named PARAM. */
  predicate IsParam(n: Node)
  {
    n.Tag? && TagName(n.attributes) == Some("PARAM")
  }

  /** A TextNode whose text is empty once trimmed. */
  predicate IsBlankText(n: Node)
  {
    n.Text? && |Trim(n.text)| == 0
  }

  // ---------------------------------------------------------------------
  // createObjectParamsTable
  // ---------------------------------------------------------------------

  /**
   * The table after one more child: a PARAM tag with a non-empty NAME adds
   * NAME upper-cased to VALUE; a null VALUE throws (the table rejects
   * nulls), as does a Tag without a name.
   */
  function AddParam(table: Result<map<string, string>, JavaException>, n: Node): (r: Result<map<string, string>, JavaException>)
    ensures r.Ok? ==> table.Ok? && table.value.Keys <= r.value.Keys
    ensures r.Ok? && !IsParam(n) ==> r == table
  {
    match table
    case Err(e) => Err(e)
    case Ok(m) =>
      if !n.Tag? then Ok(m)
      else if TagName(n.attributes).None? then Err(NullPointerException)
      else if TagName(n.attributes).value != "PARAM" then Ok(m)
      else
        var paramName := ValueOf(n.attributes, "NAME");
        if paramName.None? || |paramName.value| == 0 then Ok(m)
        else
          var paramValue := ValueOf(n.attributes, "VALUE");
          if paramValue.None? then Err(NullPointerException)
          else Ok(m[Upper(paramName.value) := paramValue.value])
  }

  /** The table built from `table` by the children in order: a failure sticks, and keys are only added. */
  function CollectParams(table: Result<map<string, string>, JavaException>, ns: seq<Node>): (r: Result<map<string, string>, JavaException>)
    ensures r.Ok? ==> table.Ok? && table.value.Keys <= r.value.Keys
  {
    if ns == [] then table else AddParam(CollectParams(table, ns[..|ns| - 1]), ns[|ns| - 1])
  }

  /** createObjectParamsTable over a child list. */
  function ParamsTable(kids: Children): Result<map<string, string>, JavaException>
  {
    CollectParams(Ok(map[]), Kids(kids))
  }

  lemma {:induction false} CollectParamsAppend(table: Result<map<string, string>, JavaException>, a: seq<Node>, b: seq<Node>)
    ensures CollectParams(table, a + b) == CollectParams(CollectParams(table, a), b)
    decreases |b|
  {
    if b == [] {
      assert a + b == a;
    } else {
      assert (a + b)[..|a + b| - 1] == a + b[..|b| - 1];
      CollectParamsAppend(table, a, b[..|b| - 1]);
    }
  }

  /** Children that are neither PARAM nor nameless tags add nothing to the table. */
  lemma {:induction false} CollectParamsIgnoresOthers(table: map<string, string>, ns: seq<Node>)
    requires forall i :: 0 <= i < |ns| ==> !IsParam(ns[i]) && !IsNamelessTag(ns[i])
    ensures CollectParams(Ok(table), ns) == Ok(table)
    decreases |ns|
  {
    if ns != [] {
      CollectParamsIgnoresOthers(table, ns[..|ns| - 1]);
    }
  }

  // ---------------------------------------------------------------------
  // setObjectParams
  // ---------------------------------------------------------------------

  /** The child list as the removal loop leaves it, and whether it threw. */
  datatype Stripping = Stripping(nodes: seq<Node>, failed: bool)

  function Prefixed(kept: seq<Node>, s: Stripping): Stripping
  {
    Stripping(kept + s.nodes, s.failed)
  }

  /**
   * setObjectParams' removal loop: every PARAM child goes, and with it a
   * blank TextNode right after it; a nameless tag stops the loop with an
   * exception, leaving the rest of the list as it was.
   */
  function StripParams(ns: seq<Node>): (r: Stripping)
    ensures |r.nodes| <= |ns|
    ensures (forall i :: 0 <= i < |ns| ==> !IsNamelessTag(ns[i])) ==> !r.failed
    decreases |ns|
  {
    if ns == [] then Stripping([], false)
    else if IsNamelessTag(ns[0]) then Stripping(ns, true)
    else if IsParam(ns[0]) then
      if |ns| > 1 && IsBlankText(ns[1]) then StripParams(ns[2..]) else StripParams(ns[1..])
    else Prefixed([ns[0]], StripParams(ns[1..]))
  }

  /** A child the removal never drops: neither a PARAM tag nor blank text. */
  predicate Substantial(n: Node)
  {
    !IsParam(n) && !IsBlankText(n)
  }

  /** The children that are neither PARAM tags nor blank text, in order. */
  function Substance(ns: seq<Node>): seq<Node>
  {
    Filter(ns, Substantial)
  }

  lemma SubstanceCons(x: Node, s: seq<Node>)
    ensures Substance([x] + s) == (if Substantial(x) then [x] else []) + Substance(s)
  {
    FilterCons(x, s, Substantial);
  }

  /** A removal that does not throw leaves no PARAM tag and no nameless tag. */
  lemma {:induction false} StripParamsLeavesNoParams(ns: seq<Node>)
    requires !StripParams(ns).failed
    ensures forall i :: 0 <= i < |StripParams(ns).nodes| ==>
      !IsParam(StripParams(ns).nodes[i]) && !IsNamelessTag(StripParams(ns).nodes[i])
    decreases |ns|
  {
    if ns != [] {
      if IsParam(ns[0]) {
        if |ns| > 1 && IsBlankText(ns[1]) {
          StripParamsLeavesNoParams(ns[2..]);
        } else {
          StripParamsLeavesNoParams(ns[1..]);
        }
      } else {
        StripParamsLeavesNoParams(ns[1..]);
        var rest := StripParams(ns[1..]).nodes;
        assert StripParams(ns).nodes == [ns[0]] + rest;
        forall i | 0 <= i < |StripParams(ns).nodes|
          ensures !IsParam(StripParams(ns).nodes[i]) && !IsNamelessTag(StripParams(ns).nodes[i])
        {
          if i > 0 {
            assert StripParams(ns).nodes[i] == rest[i - 1];
          }
        }
      }
    }
  }

  /**
   * The removal drops only PARAM tags and blank text: every other child
   * survives, in order, whether or not the loop threw part-way.
   */
  lemma {:induction false} StripParamsKeepsOthers(ns: seq<Node>)
    ensures Substance(StripParams(ns).nodes) == Substance(ns)
    decreases |ns|
  {
    if ns != [] && !IsNamelessTag(ns[0]) {
      if IsParam(ns[0]) && |ns| > 1 && IsBlankText(ns[1]) {
        StripParamsKeepsOthers(ns[2..]);
        SubstanceDropsTwo(ns);
      } else if IsParam(ns[0]) {
        StripParamsKeepsOthers(ns[1..]);
        SubstanceDropsOne(ns);
      } else {
        StripParamsKeepsOthers(ns[1..]);
        assert ns == [ns[0]] + ns[1..];
        KeptHead(ns[0], ns[1..], StripParams(ns[1..]).nodes);
      }
    }
  }

  lemma SubstanceDropsOne(ns: seq<Node>)
    requires ns != [] && !Substantial(ns[0])
    ensures Substance(ns) == Substance(ns[1..])
  {
    assert ns == [ns[0]] + ns[1..];
    SubstanceCons(ns[0], ns[1..]);
  }

  lemma SubstanceDropsTwo(ns: seq<Node>)
    requires |ns| > 1 && !Substantial(ns[0]) && !Substantial(ns[1])
    ensures Substance(ns) == Substance(ns[2..])
  {
    SubstanceDropsOne(ns);
    SubstanceDropsOne(ns[1..]);
    assert ns[1..][1..] == ns[2..];
  }

  lemma KeptHead(x: Node, tail: seq<Node>, stripped: seq<Node>)
    requires Substance(stripped) == Substance(tail)
    ensures Substance([x] + stripped) == Substance([x] + tail)
  {
    SubstanceCons(x, stripped);
    SubstanceCons(x, tail);
  }

  /** The PARAM tag setObjectParams writes for one entry: PARAM, " ", VALUE="v", " ", NAME="KEY". */
  function ParamAttributes(key: string, value: Option<string>): seq<Attribute>
  {
    [NameEntry("PARAM"), Whitespace(" "), Attribute(Some("VALUE"), value, '"'),
     Whitespace(" "), Attribute(Some("NAME"), Some(Upper(key)), '"')]
  }

  function ParamTag(key: string, value: Option<string>): Node
  {
    Tag(ParamAttributes(key, value), NoChildren)
  }

  function ParamTags(entries: seq<(string, Option<string>)>): (r: seq<Node>)
    ensures |r| == |entries| && forall i :: 0 <= i < |entries| ==> r[i] == ParamTag(entries[i].0, entries[i].1)
  {
    seq(|entries|, i requires 0 <= i < |entries| => ParamTag(entries[i].0, entries[i].1))
  }

  /** The table of a sequence of entries, later entries winning. */
  function EntriesTable(entries: seq<(string, Option<string>)>): map<string, string>
    requires forall i :: 0 <= i < |entries| ==> entries[i].1.Some?
  {
    if entries == [] then map[]
    else EntriesTable(entries[..|entries| - 1])[Upper(entries[|entries| - 1].0) := entries[|entries| - 1].1.value]
  }

  /** A written PARAM tag is read back as its key upper-cased and its value. */
  lemma ParamTagReadBack(table: map<string, string>, key: string, value: string)
    requires |key| > 0
    ensures AddParam(Ok(table), ParamTag(key, Some(value))) == Ok(table[Upper(key) := value])
  {
    ParamTagIsParam(key, Some(value));
    ParamTagName(key, Some(value));
    ParamTagValue(key, Some(value));
    UpperIdempotent(key);
  }

  /** The tag written for an entry is named PARAM. */
  lemma ParamTagIsParam(key: string, value: Option<string>)
    ensures TagName(ParamAttributes(key, value)) == Some("PARAM")
  {
    assert Upper("PARAM") == "PARAM";
    assert NormalizeTagName("PARAM") == "PARAM" by {
      assert "PARAM"[..1] == "P";
      assert "PARAM"[4..] == "M";
    }
  }

  /** Its NAME attribute is the upper-cased key. */
  lemma ParamTagName(key: string, value: Option<string>)
    ensures ValueOf(ParamAttributes(key, value), "NAME") == Some(Upper(key))
  {
    var attrs := ParamAttributes(key, value);
    assert Upper("NAME") == "NAME" && Upper("VALUE") == "VALUE";
    assert !EqualsIgnoreCase("NAME", "PARAM") && !EqualsIgnoreCase("NAME", "VALUE");
    assert NameMatches(attrs[4], "NAME");
    assert FindFrom(attrs, "NAME", 4) == Some(4);
    assert FindFrom(attrs, "NAME", 3) == Some(4);
    assert FindFrom(attrs, "NAME", 2) == Some(4);
    assert FindFrom(attrs, "NAME", 1) == Some(4);
  }

  /** Its VALUE attribute is the entry's value. */
  lemma ParamTagValue(key: string, value: Option<string>)
    ensures ValueOf(ParamAttributes(key, value), "VALUE") == value
  {
    var attrs := ParamAttributes(key, value);
    assert Upper("VALUE") == "VALUE" && Upper("PARAM") == "PARAM";
    assert !EqualsIgnoreCase("VALUE", "PARAM");
    assert NameMatches(attrs[2], "VALUE");
    assert FindFrom(attrs, "VALUE", 2) == Some(2);
    assert FindFrom(attrs, "VALUE", 1) == Some(2);
  }

  /** The PARAM tags written for the entries are read back as the entries' table. */
  lemma {:induction false} ParamTagsReadBack(entries: seq<(string, Option<string>)>)
    requires forall i :: 0 <= i < |entries| ==> |entries[i].0| > 0 && entries[i].1.Some?
    ensures CollectParams(Ok(map[]), ParamTags(entries)) == Ok(EntriesTable(entries))
    decreases |entries|
  {
    if entries != [] {
      var init := entries[..|entries| - 1];
      var last := entries[|entries| - 1];
      ParamTagsReadBack(init);
      assert ParamTags(entries)[..|entries| - 1] == ParamTags(init);
      ParamTagReadBack(EntriesTable(init), last.0, last.1.value);
    }
  }

  /**
   * setObjectParams then createObjectParamsTable: when the removal did not
   * throw and every entry has a non-empty name and a value, the table read
   * back is the table of the entries.
   */
  lemma SetThenReadParams(kids: Children, entries: seq<(string, Option<string>)>)
    requires !StripParams(Kids(kids)).failed
    requires forall i :: 0 <= i < |entries| ==> |entries[i].0| > 0 && entries[i].1.Some?
    ensures ParamsTable(ChildList(StripParams(Kids(kids)).nodes + ParamTags(entries))) == Ok(EntriesTable(entries))
  {
    var stripped := StripParams(Kids(kids)).nodes;
    StripParamsLeavesNoParams(Kids(kids));
    CollectParamsIgnoresOthers(map[], stripped);
    CollectParamsAppend(Ok(map[]), stripped, ParamTags(entries));
    ParamTagsReadBack(entries);
  }

  /** With distinct upper-cased names, each entry is found in the table under its name. */
  lemma {:induction false} EntriesTableLookup(entries: seq<(string, Option<string>)>, i: nat)
    requires forall j :: 0 <= j < |entries| ==> entries[j].1.Some?
    requires forall j, k :: 0 <= j < k < |entries| ==> Upper(entries[j].0) != Upper(entries[k].0)
    requires i < |entries|
    ensures Upper(entries[i].0) in EntriesTable(entries)
    ensures EntriesTable(entries)[Upper(entries[i].0)] == entries[i].1.value
    decreases |entries|
  {
    if i < |entries| - 1 {
      EntriesTableLookup(entries[..|entries| - 1], i);
    }
  }

  /** A child on which the loop throws ends the whole collection in that exception. */
  lemma ThrowsAt(kids: seq<Node>, i: nat)
    requires i < |kids| && CollectParams(Ok(map[]), kids[..i + 1]) == Err(NullPointerException)
    ensures CollectParams(Ok(map[]), kids) == Err(NullPointerException)
  {
    CollectParamsAppend(Ok(map[]), kids[..i + 1], kids[i + 1..]);
    ErrStaysErr(kids[i + 1..]);
    assert kids[..i + 1] + kids[i + 1..] == kids;
  }

  /**
   * createObjectParamsTable's loop over the children: a PARAM tag with a
   * non-empty NAME adds its VALUE under the upper-cased name; a nameless
   * tag, or such a PARAM without VALUE, throws NullPointerException.
   */
  method CollectParamsLoop(kids: seq<Node>) returns (r: Result<map<string, string>, JavaException>)
    ensures r == CollectParams(Ok(map[]), kids)
  {
    var ret: map<string, string> := map[];
    var i := 0;
    while i < |kids|
      invariant 0 <= i <= |kids|
      invariant CollectParams(Ok(map[]), kids[..i]) == Ok(ret)
    {
      var node := kids[i];
      assert kids[..i + 1][..i] == kids[..i] && kids[..i + 1][i] == node;
      if node.Tag? {
        var name := TagName(node.attributes);
        if name.None? {
          ThrowsAt(kids, i);
          return Err(NullPointerException);
        }
        if name.value == "PARAM" {
          var paramName := ValueOf(node.attributes, "NAME");
          if paramName.Some? && 0 != |paramName.value| {
            var paramValue := ValueOf(node.attributes, "VALUE");
            if paramValue.None? {
              ThrowsAt(kids, i);
              return Err(NullPointerException);
            }
            ret := ret[Upper(paramName.value) := paramValue.value];
          }
        }
      }
      i := i + 1;
    }
    assert kids[..i] == kids;
    r := Ok(ret);
  }

  class ObjectTag {
    /** The tag part: the attribute list inherited from TagNode. */
    const tag: TagNode
    /** The CompositeTag child list. */
    var children: Children

    /** ObjectTag(): an OBJECT tag with no attributes but its name and no children. */
    constructor ()
      ensures fresh(tag) && tag.attributes == [NameEntry("OBJECT")] && children == NoChildren
    {
      tag := new TagNode(None, Ids);
      children := NoChildren;
    }

    /** createObjectParamsTable (and getObjectParams): the PARAM children's table, filled in a loop. */
    method CreateObjectParamsTable() returns (r: Result<map<string, string>, JavaException>)
      ensures r == ParamsTable(children)
    {
      r := CollectParamsLoop(Kids(children));
    }

    /** getParameter: the table entry under the upper-cased key, or null. */
    method GetParameter(key: string) returns (r: Result<Option<string>, JavaException>)
      ensures ParamsTable(children).Err? ==> r == Err(ParamsTable(children).error)
      ensures ParamsTable(children).Ok? ==>
        r == Ok(if Upper(key) in ParamsTable(children).value then Some(ParamsTable(children).value[Upper(key)]) else None)
    {
      var table := CreateObjectParamsTable();
      match table
      case Err(e) => r := Err(e);
      case Ok(m) => r := Ok(if Upper(key) in m then Some(m[Upper(key)]) else None);
    }

    /** getParameterNames: the table's keys. */
    method GetParameterNames() returns (r: Result<set<string>, JavaException>)
      ensures ParamsTable(children).Err? ==> r == Err(ParamsTable(children).error)
      ensures ParamsTable(children).Ok? ==> r == Ok(ParamsTable(children).value.Keys)
    {
      var table := CreateObjectParamsTable();
      match table
      case Err(e) => r := Err(e);
      case Ok(m) => r := Ok(m.Keys);
    }

    /** getObjectClassId ... getObjectWidth: the value of that attribute, or null. */
    method GetObjectAttribute(name: string) returns (r: Option<string>)
      requires name in ObjectAttributeNames
      ensures r == ValueOf(tag.attributes, name)
    {
      r := tag.GetAttributeValue(name);
    }

    /** setObjectClassId ... setObjectWidth: setAttribute(name, value). */
    method SetObjectAttribute(name: string, value: Option<string>)
      requires name in ObjectAttributeNames
      modifies tag
      ensures tag.attributes == WithValue(old(tag.attributes), name, value)
      ensures ValueOf(tag.attributes, name) == ChooseQuote(value).value
    {
      tag.SetAttributeValue(name, value);
      ValueAfterWithValue(old(tag.attributes), name, value);
    }

    /**
     * setObjectParams: remove the PARAM children (each with a blank text
     * right after it), then append one PARAM tag per entry, in the map's
     * iteration order. A nameless tag child throws part-way, leaving the
     * list as the removal loop had it.
     */
    method SetObjectParams(entries: seq<(string, Option<string>)>) returns (thrown: Option<JavaException>)
      modifies this
      ensures var s := StripParams(Kids(old(children)));
        && (thrown.Some? <==> s.failed)
        && (thrown.Some? ==> thrown.value == NullPointerException && children == ChildList(s.nodes))
        && (thrown.None? ==> children == ChildList(s.nodes + ParamTags(entries)))
    {
      var stripped := RemoveParams(Kids(children));
      if stripped.failed {
        children := ChildList(stripped.nodes);
        return Some(NullPointerException);
      }
      var kids := AppendParamTags(stripped.nodes, entries);
      children := ChildList(kids);
      thrown := None;
    }
  }

  /**
   * setObjectParams' removal loop over the child list: an index walk that
   * deletes each PARAM tag and a blank text right after it, and throws on
   * a nameless tag, leaving the list as it then is.
   */
  method RemoveParams(children: seq<Node>) returns (r: Stripping)
    ensures r == StripParams(children)
  {
    var kids := children;
    var i := 0;
    while i < |kids|
      invariant 0 <= i <= |kids|
      invariant Prefixed(kids[..i], StripParams(kids[i..])) == StripParams(children)
      decreases |kids| - i
    {
      var node := kids[i];
      if node.Tag? && TagName(node.attributes).None? {
        StripNamelessStep(kids, i);
        return Stripping(kids, true);
      }
      if node.Tag? && TagName(node.attributes).value == "PARAM" {
        ghost var before := kids;
        kids := kids[..i] + kids[i + 1..];
        if i < |kids| && kids[i].Text? && 0 == |Trim(kids[i].text)| {
          assert kids[i] == before[i + 1];
          StripParamBlankStep(before, i);
          kids := kids[..i] + kids[i + 1..];
        } else {
          StripParamStep(before, i);
        }
      } else {
        StripKeepStep(kids, i);
        i := i + 1;
      }
    }
    assert kids[..i] == kids && kids[i..] == [];
    r := Stripping(kids, false);
  }

  /** setObjectParams' second loop: one new PARAM tag per entry, appended in order. */
  method AppendParamTags(kids: seq<Node>, entries: seq<(string, Option<string>)>) returns (r: seq<Node>)
    ensures r == kids + ParamTags(entries)
  {
    r := kids;
    var k := 0;
    while k < |entries|
      invariant 0 <= k <= |entries|
      invariant r == kids + ParamTags(entries[..k])
    {
      assert ParamTags(entries[..k + 1]) == ParamTags(entries[..k]) + [ParamTag(entries[k].0, entries[k].1)];
      var attributes := ParamAttributes(entries[k].0, entries[k].1);
      var param := new TagNode(Some(attributes), []);
      r := r + [Tag(param.attributes, NoChildren)];
      k := k + 1;
    }
    assert entries[..k] == entries;
  }

  /** Once the table is an error it stays one. */
  lemma {:induction false} ErrStaysErr(ns: seq<Node>)
    ensures CollectParams(Err(NullPointerException), ns) == Err(NullPointerException)
    decreases |ns|
  {
    if ns != [] {
      ErrStaysErr(ns[..|ns| - 1]);
    }
  }

  /** The removal loop meets a nameless tag at position i: it throws, leaving `kids` as it is. */
  lemma StripNamelessStep(kids: seq<Node>, i: nat)
    requires i < |kids| && IsNamelessTag(kids[i])
    ensures Prefixed(kids[..i], StripParams(kids[i..])) == Stripping(kids, true)
  {
    assert kids[..i] + kids[i..] == kids;
  }

  /**
   * The removal loop meets a PARAM tag at position i with no blank text
   * after it: dropping the tag keeps the loop's account of the whole removal.
   */
  lemma StripParamStep(kids: seq<Node>, i: nat)
    requires i < |kids| && IsParam(kids[i]) && !(i + 1 < |kids| && IsBlankText(kids[i + 1]))
    ensures var k1 := kids[..i] + kids[i + 1..];
      Prefixed(k1[..i], StripParams(k1[i..])) == Prefixed(kids[..i], StripParams(kids[i..]))
  {
    var rest := kids[i..];
    assert rest[0] == kids[i] && rest[1..] == kids[i + 1..];
    StripParamsOfParam(rest);
    DeleteAt(kids, i);
  }

  /**
   * The removal loop meets a PARAM tag at position i followed by blank
   * text: dropping both keeps the loop's account of the whole removal.
   */
  lemma StripParamBlankStep(kids: seq<Node>, i: nat)
    requires i + 1 < |kids| && IsParam(kids[i]) && IsBlankText(kids[i + 1])
    ensures var k1 := kids[..i] + kids[i + 1..];
      var k2 := k1[..i] + k1[i + 1..];
      Prefixed(k2[..i], StripParams(k2[i..])) == Prefixed(kids[..i], StripParams(kids[i..]))
  {
    var rest := kids[i..];
    assert rest[0] == kids[i] && rest[1] == kids[i + 1] && rest[2..] == kids[i + 2..];
    StripParamsOfParam(rest);
    var k1 := kids[..i] + kids[i + 1..];
    DeleteAt(kids, i);
    DeleteAt(k1, i);
    assert k1[i + 1..] == kids[i + 2..];
  }

  /** What the removal makes of a list that starts with a PARAM tag. */
  lemma StripParamsOfParam(rest: seq<Node>)
    requires rest != [] && IsParam(rest[0])
    ensures |rest| > 1 && IsBlankText(rest[1]) ==> StripParams(rest) == StripParams(rest[2..])
    ensures !(|rest| > 1 && IsBlankText(rest[1])) ==> StripParams(rest) == StripParams(rest[1..])
  {
  }

  /** Deleting the element at i leaves the part before i and shifts the part after it down. */
  lemma DeleteAt<T>(s: seq<T>, i: nat)
    requires i < |s|
    ensures (s[..i] + s[i + 1..])[..i] == s[..i]
    ensures (s[..i] + s[i + 1..])[i..] == s[i + 1..]
  {
  }

  /** The removal loop meets any other child at position i: keeping it keeps the account. */
  lemma StripKeepStep(kids: seq<Node>, i: nat)
    requires i < |kids| && !IsNamelessTag(kids[i]) && !IsParam(kids[i])
    ensures Prefixed(kids[..i + 1], StripParams(kids[i + 1..])) == Prefixed(kids[..i], StripParams(kids[i..]))
  {
    var rest := kids[i..];
    assert rest[0] == kids[i] && rest[1..] == kids[i + 1..];
    assert StripParams(rest) == Prefixed([kids[i]], StripParams(kids[i + 1..]));
    AppendAssoc(kids[..i], [kids[i]], StripParams(kids[i + 1..]).nodes);
    assert kids[..i + 1] == kids[..i] + [kids[i]];
  }
}
