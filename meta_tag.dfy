/**
 * MetaTag: a <META> tag's HTTP-EQUIV, CONTENT and NAME attributes. Its
 * setters change the value of the entry getAttribute finds, or append a
 * new entry with no whitespace before it.
 */
module MetaTags {
  import opened Wrappers
  import opened JavaStrings
  import opened Attributes
  import opened TagNodes

  /** The names handled by this tag. */
  const Ids: seq<string> := ["META"]

  /** The attributes MetaTag reads and writes. */
  const MetaAttributeNames: set<string> := {"HTTP-EQUIV", "CONTENT", "NAME"}

  /**
   * setHttpEquiv, setMetaTagContents, setMetaTagName: the entry found by
   * getAttribute gets the new value (its name and quote kept); without one
   * an unquoted entry is appended.
   */
  function WithMetaValue(attrs: seq<Attribute>, key: string, value: Option<string>): (r: seq<Attribute>)
    ensures |attrs| <= |r| <= |attrs| + 1
    ensures forall i :: 0 <= i < |attrs| ==> r[i].name == attrs[i].name
  {
    match IndexOf(attrs, key)
    case Some(i) => attrs[i := attrs[i].(value := value)]
    case None => attrs + [Attribute(Some(key), value, NoQuote)]
  }

  /** A first match at or after i in `attrs` is also the first match in `attrs + [x]`. */
  lemma {:induction false} FindFromAppendFound(attrs: seq<Attribute>, x: Attribute, key: string, i: nat)
    requires i <= |attrs| && FindFrom(attrs, key, i).Some?
    ensures FindFrom(attrs + [x], key, i) == FindFrom(attrs, key, i)
    decreases |attrs| - i
  {
    assert (attrs + [x])[i] == attrs[i];
    if !NameMatches(attrs[i], key) {
      FindFromAppendFound(attrs, x, key, i + 1);
    }
  }

  /** With no match at or after i in `attrs`, the search in `attrs + [x]` ends at x. */
  lemma {:induction false} FindFromAppendMissed(attrs: seq<Attribute>, x: Attribute, key: string, i: nat)
    requires i <= |attrs| && FindFrom(attrs, key, i).None?
    ensures FindFrom(attrs + [x], key, i) == if NameMatches(x, key) then Some(|attrs|) else None
    decreases |attrs| - i
  {
    if i < |attrs| {
      assert (attrs + [x])[i] == attrs[i];
      FindFromAppendMissed(attrs, x, key, i + 1);
    } else {
      assert (attrs + [x])[i] == x;
    }
  }

  /** Set then get: the setter's value is what getAttributeValue returns next. */
  lemma MetaValueRoundTrip(attrs: seq<Attribute>, key: string, value: Option<string>)
    ensures ValueOf(WithMetaValue(attrs, key, value), key) == value
  {
    var r := WithMetaValue(attrs, key, value);
    match IndexOf(attrs, key)
    case Some(i) =>
      FindFromSameMatches(attrs, r, key, 0);
    case None =>
      FindFromAppendMissed(attrs, Attribute(Some(key), value, NoQuote), key, 0);
  }

  /** The setter changes no other attribute's value, nor the tag name. */
  lemma MetaValueLeavesOthers(attrs: seq<Attribute>, key: string, value: Option<string>, other: string)
    requires !EqualsIgnoreCase(other, key)
    ensures ValueOf(WithMetaValue(attrs, key, value), other) == ValueOf(attrs, other)
    ensures |attrs| > 0 ==> RawTagName(WithMetaValue(attrs, key, value)) == RawTagName(attrs)
  {
    var r := WithMetaValue(attrs, key, value);
    match IndexOf(attrs, key)
    case Some(i) =>
      FindFromSameMatches(attrs, r, other, 0);
    case None =>
      var x := Attribute(Some(key), value, NoQuote);
      assert !NameMatches(x, other);
      if FindFrom(attrs, other, 0).Some? {
        FindFromAppendFound(attrs, x, other, 0);
      } else {
        FindFromAppendMissed(attrs, x, other, 0);
      }
  }

  /** The setter adds at most one entry, and adds one exactly when nothing matched. */
  lemma MetaValueShape(attrs: seq<Attribute>, key: string, value: Option<string>)
    ensures var r := WithMetaValue(attrs, key, value);
      && (IndexOf(attrs, key).Some? ==> |r| == |attrs| && r[IndexOf(attrs, key).value].name == attrs[IndexOf(attrs, key).value].name)
      && (IndexOf(attrs, key).None? ==> |r| == |attrs| + 1 && r[..|attrs|] == attrs && r[|attrs|].name == Some(key))
  {
  }

  /** doSemanticAction's test: HTTP-EQUIV is "Content-Type", ignoring case. */
  predicate DeclaresCharset(attrs: seq<Attribute>)
  {
    var httpEquiv := ValueOf(attrs, "HTTP-EQUIV");
    httpEquiv.Some? && EqualsIgnoreCase("Content-Type", httpEquiv.value)
  }

  class MetaTag {
    /** The tag part: the attribute list inherited from TagNode. */
    const tag: TagNode

    /** MetaTag(): a META tag with no attributes but its name. */
    constructor ()
      ensures fresh(tag) && tag.attributes == [NameEntry("META")]
    {
      tag := new TagNode(None, Ids);
    }

    /** getHttpEquiv, getMetaContent, getMetaTagName: the attribute's value, or null. */
    method GetMetaAttribute(key: string) returns (r: Option<string>)
      requires key in MetaAttributeNames
      ensures r == ValueOf(tag.attributes, key)
    {
      r := tag.GetAttributeValue(key);
    }

    /** setHttpEquiv, setMetaTagContents, setMetaTagName. */
    method SetMetaAttribute(key: string, value: Option<string>)
      requires key in MetaAttributeNames
      modifies tag
      ensures tag.attributes == WithMetaValue(old(tag.attributes), key, value)
      ensures ValueOf(tag.attributes, key) == value
    {
      var found := tag.Find(key);
      if found.Some? {
        var i := found.value;
        tag.attributes := tag.attributes[i := tag.attributes[i].(value := value)];
      } else {
        tag.attributes := tag.attributes + [Attribute(Some(key), value, NoQuote)];
      }
      MetaValueRoundTrip(old(tag.attributes), key, value);
    }

    /**
     * doSemanticAction: when HTTP-EQUIV names Content-Type, the CONTENT
     * value handed to the page for its charset; None when no charset is set.
     */
    method DoSemanticAction() returns (charsetSource: Option<Option<string>>)
      ensures charsetSource.Some? <==> DeclaresCharset(tag.attributes)
      ensures charsetSource.Some? ==> charsetSource.value == ValueOf(tag.attributes, "CONTENT")
    {
      var httpEquiv := tag.GetAttributeValue("HTTP-EQUIV");
      if httpEquiv.Some? && EqualsIgnoreCase("Content-Type", httpEquiv.value) {
        var content := tag.GetAttributeValue("CONTENT");
        charsetSource := Some(content);
      } else {
        charsetSource := None;
      }
    }
  }
}
