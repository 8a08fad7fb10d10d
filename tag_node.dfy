/**
 * TagNode: a tag whose attribute list is edited in place. Every method is
 * proved against the list rules of module Attributes.
 */
module TagNodes {
  import opened Wrappers
  import opened JavaStrings
  import opened Attributes

  class TagNode {
    /** mAttributes: entry 0 is the tag name, then whitespace and attributes. */
    var attributes: seq<Attribute>

    /**
     * TagNode(page, start, end, attributes): a null or empty list is
     * replaced by one holding only the tag name, the first of `ids` or "".
     */
    constructor (attributes: Option<seq<Attribute>>, ids: seq<string>)
      ensures attributes.Some? && attributes.value != [] ==> this.attributes == attributes.value
      ensures attributes.None? || attributes.value == [] ==>
        this.attributes == [NameEntry(if ids != [] then ids[0] else "")]
    {
      if attributes.Some? && attributes.value != [] {
        this.attributes := attributes.value;
      } else {
        this.attributes := [NameEntry(if ids != [] then ids[0] else "")];
      }
    }

    /** getAttribute's scan: the index of the first entry named `name`, ignoring case. */
    method Find(name: string) returns (r: Option<nat>)
      ensures r == IndexOf(attributes, name)
      ensures r.Some? ==> r.value < |attributes| && NameMatches(attributes[r.value], name)
    {
      r := None;
      var size := |attributes|;
      var i := 0;
      while i < size
        invariant 0 <= i <= size
        invariant r.None? ==> IndexOf(attributes, name) == FindFrom(attributes, name, i)
        invariant r.Some? ==> r == IndexOf(attributes, name) && i == size
        decreases size - i
      {
        var a := attributes[i];
        if a.name.Some? && EqualsIgnoreCase(name, a.name.value) {
          assert FindFrom(attributes, name, i) == Some(i);
          r := Some(i);
          i := size; // exit fast
        } else {
          i := i + 1;
        }
      }
    }

    /** getAttribute: the first entry whose name equals `name` ignoring case, or null. */
    method GetAttribute(name: string) returns (r: Option<Attribute>)
      ensures r == Lookup(attributes, name)
      ensures r.Some? <==> exists j :: 0 <= j < |attributes| && NameMatches(attributes[j], name)
    {
      var i := Find(name);
      LookupIsFirstMatch(attributes, name);
      match i
      case Some(k) => r := Some(attributes[k]);
      case None => r := None;
    }

    /** getAttributeValue: null when the attribute is absent or stand-alone. */
    method GetAttributeValue(name: string) returns (r: Option<string>)
      ensures r == ValueOf(attributes, name)
    {
      var a := GetAttribute(name);
      r := if a.Some? then a.value.value else None;
    }

    /**
     * setAttribute(key, value): one pass over the value sets the three
     * flags, a second pass escapes double quotes when no quote is free.
     */
    method SetAttributeValue(key: string, value: Option<string>)
      modifies this
      ensures attributes == WithValue(old(attributes), key, value)
    {
      var needed := false;
      var singleq := true;
      var doubleq := true;
      if value.Some? {
        var v := value.value;
        var i := 0;
        while i < |v|
          invariant 0 <= i <= |v|
          invariant needed <==> HasWhitespace(v[..i])
          invariant singleq <==> '\'' !in v[..i]
          invariant doubleq <==> '"' !in v[..i]
        {
          var ch := v[i];
          if IsJavaWhitespace(ch) {
            needed := true;
          } else if '\'' == ch {
            singleq := false;
          } else if '"' == ch {
            doubleq := false;
          }
          assert v[..i + 1] == v[..i] + [ch];
          i := i + 1;
        }
        assert v[..i] == v;
      }
      var stored := value;
      var quote: char;
      if needed {
        if doubleq {
          quote := '"';
        } else if singleq {
          quote := '\'';
        } else {
          quote := '"';
          var v := value.value;
          var buffer := "";
          var i := 0;
          while i < |v|
            invariant 0 <= i <= |v|
            invariant buffer == EscapeDoubleQuotes(v[..i])
          {
            var ch := v[i];
            if quote == ch {
              buffer := buffer + "&quot;";
            } else {
              buffer := buffer + [ch];
            }
            assert v[..i + 1][..i] == v[..i];
            i := i + 1;
          }
          assert v[..i] == v;
          stored := Some(buffer);
        }
      } else {
        quote := NoQuote;
      }
      assert Quoting(quote, stored) == ChooseQuote(value);
      var found := Find(key);
      match found
      case Some(k) =>
        var a := attributes[k];
        attributes := attributes[k := a.(value := stored, quote := if quote != NoQuote then quote else a.quote)];
      case None =>
        SetAttributeQuoted(key, stored, quote);
    }

    /** removeAttribute: drop the entry getAttribute finds, if any. */
    method RemoveAttribute(key: string)
      modifies this
      ensures attributes == WithoutAttribute(old(attributes), key)
    {
      var found := Find(key);
      if found.Some? {
        var k := found.value;
        attributes := attributes[..k] + attributes[k + 1..];
      }
    }

    /** setAttribute(key, value, quote): setAttribute(new Attribute(key, value, quote)). */
    method SetAttributeQuoted(key: string, value: Option<string>, quote: char)
      modifies this
      ensures attributes == WithAttribute(old(attributes), Attribute(Some(key), value, quote))
    {
      SetAttribute(Attribute(Some(key), value, quote));
    }

    /**
     * setAttribute(Attribute): replace every same-named entry from index 1
     * on; when none was replaced, append, after a " " entry unless the list
     * is empty or already ends in whitespace.
     */
    method SetAttribute(a: Attribute)
      modifies this
      ensures attributes == WithAttribute(old(attributes), a)
    {
      var replaced := false;
      var length := |attributes|;
      if 0 < length {
        var i := 1;
        while i < |attributes|
          invariant |attributes| == length && 1 <= i <= length
          invariant forall j :: 0 <= j < i ==> attributes[j] == ReplacedAt(old(attributes), a, j)
          invariant forall j :: i <= j < length ==> attributes[j] == old(attributes)[j]
          invariant replaced <==> exists j :: 1 <= j < i && SameName(old(attributes)[j], a)
        {
          var test := attributes[i];
          if test.name.Some? && a.name.Some? && EqualsIgnoreCase(test.name.value, a.name.value) {
            attributes := attributes[i := a];
            replaced := true;
          }
          i := i + 1;
        }
        assert attributes == ReplaceNamed(old(attributes), a);
      }
      if !replaced {
        if 0 != length && !IsWhitespace(attributes[length - 1]) {
          attributes := attributes + [Whitespace(" ")];
        }
        attributes := attributes + [a];
      }
    }

    /**
     * setTagName: replace entry 0 when it looks like a bare name (no value,
     * quote 0), otherwise insert the name in front.
     */
    method SetTagName(name: string)
      modifies this
      ensures attributes == WithTagName(old(attributes), name)
      ensures RawTagName(attributes) == Some(name)
    {
      var attribute := NameEntry(name);
      if 0 == |attributes| {
        attributes := attributes + [attribute];
      } else {
        var zeroth := attributes[0];
        if zeroth.value.None? && zeroth.quote == NoQuote {
          attributes := attributes[0 := attribute];
        } else {
          attributes := [attribute] + attributes;
        }
      }
      assert attributes[0] == attribute;
    }

    /**
     * setEmptyXmlTag with the empty last name treated as "no trailing
     * slash"; the code as written throws there (IsEmptyXmlTagAsWritten).
     */
    method SetEmptyXmlTag(emptyXml: bool)
      modifies this
      ensures attributes == WithEmptyXml(old(attributes), emptyXml)
      ensures emptyXml ==> IsEmptyXmlTag(attributes)
    {
      WithEmptyXmlMakesEmpty(attributes);
      var size := |attributes|;
      if 0 < size {
        var attribute := attributes[size - 1];
        if attribute.name.Some? {
          var name := attribute.name.value;
          var length := |name|;
          if attribute.value.None? {
            if 0 < length && name[length - 1] == '/' {
              if !emptyXml {
                if 1 == length {
                  attributes := attributes[..size - 1];
                } else {
                  attributes := attributes[..size - 1] + [NameEntry(name[..length - 1])];
                }
              }
            } else if emptyXml {
              attributes := attributes + [Whitespace(" "), NameEntry("/")];
            }
          } else if emptyXml {
            attributes := attributes + [Whitespace(" "), NameEntry("/")];
          }
        } else if emptyXml {
          attributes := attributes + [NameEntry("/")];
        }
      } else if emptyXml {
        attributes := attributes + [NameEntry("/")];
      }
    }

    /** toTagHtml: '<', each entry rendered in order, '>'. */
    method ToTagHtml(render: Attribute -> string) returns (html: string)
      ensures html == Attributes.ToTagHtml(attributes, render)
      ensures |html| >= 2 && html[0] == '<' && html[|html| - 1] == '>'
    {
      var ret := "<";
      var size := |attributes|;
      var i := 0;
      while i < size
        invariant 0 <= i <= size
        invariant ret == "<" + RenderAll(attributes[..i], render)
      {
        assert attributes[..i + 1][..i] == attributes[..i];
        ret := ret + render(attributes[i]);
        i := i + 1;
      }
      assert attributes[..i] == attributes;
      html := ret + ">";
    }

    /** getText: toHtml without the angle brackets. */
    method GetText(render: Attribute -> string) returns (text: string)
      ensures text == RenderAll(attributes, render)
    {
      var html := ToTagHtml(render);
      text := html[1..|html| - 1];
    }
  }
}
