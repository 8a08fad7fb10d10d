/**
 * The attribute list of a tag (TagNode.mAttributes) and the rules that read
 * and edit it, as functions on values. Entry 0 is the tag name itself; the
 * entries after it interleave whitespace and real attributes, so that the
 * original spacing can be written back out.
 */
module Attributes {
  import opened Wrappers
  import opened JavaStrings

  /**
   * One entry of the list. A whitespace entry has no name and keeps the
   * literal whitespace as its value; `quote` is the quote character written
   * around the value, or NoQuote.
   */
  datatype Attribute = Attribute(name: Option<string>, value: Option<string>, quote: char)

  const NoQuote: char := 0 as char

  /** new Attribute(" "): a whitespace entry. */
  function Whitespace(text: string): Attribute
  {
    Attribute(None, Some(text), NoQuote)
  }

  /** A whitespace entry is one without a name. */
  predicate IsWhitespace(a: Attribute)
  {
    a.name.None?
  }

  /** new Attribute(name, null, (char)0): a bare name, as setTagName writes it. */
  function NameEntry(name: string): Attribute
  {
    Attribute(Some(name), None, NoQuote)
  }

  // ---------------------------------------------------------------------
  // Lookup (getAttribute, getAttributeValue)
  // ---------------------------------------------------------------------

  /** getAttribute's test for one entry: it has a name equal to `key` ignoring case. */
  predicate NameMatches(a: Attribute, key: string)
  {
    a.name.Some? && EqualsIgnoreCase(key, a.name.value)
  }

  /** The first index at or after `i` whose entry matches `key`. */
  function FindFrom(attrs: seq<Attribute>, key: string, i: nat): (r: Option<nat>)
    requires i <= |attrs|
    ensures r.Some? ==> i <= r.value < |attrs| && NameMatches(attrs[r.value], key)
    ensures r.Some? ==> forall j :: i <= j < r.value ==> !NameMatches(attrs[j], key)
    ensures r.None? ==> forall j :: i <= j < |attrs| ==> !NameMatches(attrs[j], key)
    decreases |attrs| - i
  {
    if i == |attrs| then None
    else if NameMatches(attrs[i], key) then Some(i)
    else FindFrom(attrs, key, i + 1)
  }

  /** Index of the entry getAttribute returns: the first match, the tag name included. */
  function IndexOf(attrs: seq<Attribute>, key: string): Option<nat>
    ensures IndexOf(attrs, key).Some? ==> IndexOf(attrs, key).value < |attrs|
  {
    FindFrom(attrs, key, 0)
  }

  /** getAttribute: the first entry whose name equals `key` ignoring case, or null. */
  function Lookup(attrs: seq<Attribute>, key: string): Option<Attribute>
  {
    match IndexOf(attrs, key)
    case Some(i) => Some(attrs[i])
    case None => None
  }

  /** getAttributeValue: the value of that entry, or null when it is absent or has no value. */
  function ValueOf(attrs: seq<Attribute>, key: string): Option<string>
  {
    match Lookup(attrs, key)
    case Some(a) => a.value
    case None => None
  }

  /** The lookup is the first match and null exactly when nothing matches. */
  lemma LookupIsFirstMatch(attrs: seq<Attribute>, key: string)
    ensures Lookup(attrs, key).None? <==> forall j :: 0 <= j < |attrs| ==> !NameMatches(attrs[j], key)
    ensures Lookup(attrs, key).Some? ==>
      exists i :: 0 <= i < |attrs| && Lookup(attrs, key) == Some(attrs[i]) && NameMatches(attrs[i], key) &&
        forall j :: 0 <= j < i ==> !NameMatches(attrs[j], key)
  {
    match IndexOf(attrs, key)
    case Some(i) =>
    case None =>
  }

  /** Two lists that agree on every entry's match against `key` have the same first match. */
  lemma {:induction false} FindFromSameMatches(a: seq<Attribute>, b: seq<Attribute>, key: string, i: nat)
    requires |a| == |b| && i <= |a|
    requires forall j :: i <= j < |a| ==> (NameMatches(a[j], key) <==> NameMatches(b[j], key))
    ensures FindFrom(a, key, i) == FindFrom(b, key, i)
    decreases |a| - i
  {
    if i < |a| && !NameMatches(a[i], key) {
      FindFromSameMatches(a, b, key, i + 1);
    }
  }

  // ---------------------------------------------------------------------
  // Quote selection (setAttribute(String, String))
  // ---------------------------------------------------------------------

  predicate HasWhitespace(s: string)
  {
    exists i :: 0 <= i < |s| && IsJavaWhitespace(s[i])
  }

  /** What one character of the value becomes when double quotes are turned into &quot;. */
  function EscapePiece(c: char): string
  {
    if c == '"' then "&quot;" else [c]
  }

  /**
   * The value with every '"' replaced by the character reference &quot;:
   * no '"' is left, and a value without one is unchanged.
   */
  function EscapeDoubleQuotes(s: string): (r: string)
    ensures '"' !in r
    ensures '"' !in s ==> r == s
  {
    if s == [] then []
    else EscapeDoubleQuotes(s[..|s| - 1]) + EscapePiece(s[|s| - 1])
  }

  /** Each '"' adds the five extra characters of &quot;. */
  lemma {:induction false} EscapeDoubleQuotesLength(s: string)
    ensures |EscapeDoubleQuotes(s)| == |s| + 5 * multiset(s)['"']
    decreases |s|
  {
    if s != [] {
      assert s == s[..|s| - 1] + [s[|s| - 1]];
      EscapeDoubleQuotesLength(s[..|s| - 1]);
    }
  }

  /** Escaping one more character appends that character's piece. */
  lemma EscapeDoubleQuotesSnoc(s: string, c: char)
    ensures EscapeDoubleQuotes(s + [c]) == EscapeDoubleQuotes(s) + EscapePiece(c)
  {
    var t := s + [c];
    assert t[..|t| - 1] == s;
    assert t[|t| - 1] == c;
  }

  /** Escaping works piece by piece: the escape of a concatenation is the concatenated escapes. */
  lemma {:induction false} EscapeDoubleQuotesAppend(a: string, b: string)
    ensures EscapeDoubleQuotes(a + b) == EscapeDoubleQuotes(a) + EscapeDoubleQuotes(b)
    decreases |b|
  {
    if b == [] {
      assert a + b == a;
    } else {
      var init, c := b[..|b| - 1], b[|b| - 1];
      calc {
        EscapeDoubleQuotes(a + b);
        { assert a + b == (a + init) + [c]; }
        EscapeDoubleQuotes((a + init) + [c]);
        { EscapeDoubleQuotesSnoc(a + init, c); }
        EscapeDoubleQuotes(a + init) + EscapePiece(c);
        { EscapeDoubleQuotesAppend(a, init); }
        (EscapeDoubleQuotes(a) + EscapeDoubleQuotes(init)) + EscapePiece(c);
        { AppendAssoc(EscapeDoubleQuotes(a), EscapeDoubleQuotes(init), EscapePiece(c)); }
        EscapeDoubleQuotes(a) + (EscapeDoubleQuotes(init) + EscapePiece(c));
        { assert b == init + [c]; EscapeDoubleQuotesSnoc(init, c); }
        EscapeDoubleQuotes(a) + EscapeDoubleQuotes(b);
      }
    }
  }

  /** Each '"' becomes &quot; in place, and the text around it is escaped on its own. */
  lemma EscapeDoubleQuotesAtQuote(a: string, b: string)
    ensures EscapeDoubleQuotes(a + "\"" + b) == EscapeDoubleQuotes(a) + "&quot;" + EscapeDoubleQuotes(b)
  {
    EscapeDoubleQuotesAppend(a + "\"", b);
    EscapeDoubleQuotesAppend(a, "\"");
    assert EscapeDoubleQuotes("\"") == EscapeDoubleQuotes("\""[..0]) + EscapePiece('"');
  }

  /** The quote setAttribute(key, value) chooses and the value it then stores. */
  datatype Quoting = Quoting(quote: char, value: Option<string>)

  /**
   * Quote only a value that contains whitespace: prefer '"', else '\'' when
   * the value holds a '"' but no '\'', else '"' with every '"' escaped.
   */
  function ChooseQuote(value: Option<string>): (q: Quoting)
    ensures q.quote == NoQuote <==> value.None? || !HasWhitespace(value.value)
    ensures q.quote == NoQuote ==> q.value == value
    ensures q.quote in {NoQuote, '"', '\''}
    ensures q.value.None? <==> value.None?
    ensures q.quote != NoQuote ==> q.quote !in q.value.value
    ensures q.quote == '\'' ==> q.value == value && '"' in value.value
    ensures q.quote == '"' && '"' !in value.value ==> q.value == value
    ensures value.Some? && HasWhitespace(value.value) && '"' in value.value && '\'' !in value.value ==>
      q == Quoting('\'', value)
    ensures value.Some? && HasWhitespace(value.value) && '"' in value.value && '\'' in value.value ==>
      q == Quoting('"', Some(EscapeDoubleQuotes(value.value)))
  {
    match value
    case None => Quoting(NoQuote, None)
    case Some(v) =>
      if !HasWhitespace(v) then Quoting(NoQuote, value)
      else if '"' !in v then Quoting('"', value)
      else if '\'' !in v then Quoting('\'', value)
      else Quoting('"', Some(EscapeDoubleQuotes(v)))
  }

  // ---------------------------------------------------------------------
  // setAttribute(Attribute): replace every same-named entry after the tag
  // name, or append (after a " " separator when needed)
  // ---------------------------------------------------------------------

  /** setAttribute(Attribute)'s test: both named, names equal ignoring case. */
  predicate SameName(test: Attribute, a: Attribute)
  {
    test.name.Some? && a.name.Some? && EqualsIgnoreCase(test.name.value, a.name.value)
  }

  /** Some entry after the tag name has the new attribute's name. */
  predicate Replaceable(attrs: seq<Attribute>, a: Attribute)
  {
    exists i :: 1 <= i < |attrs| && SameName(attrs[i], a)
  }

  /** Entry `i` after setAttribute's replacement loop. */
  function ReplacedAt(attrs: seq<Attribute>, a: Attribute, i: nat): Attribute
    requires i < |attrs|
  {
    if i >= 1 && SameName(attrs[i], a) then a else attrs[i]
  }

  function ReplaceNamed(attrs: seq<Attribute>, a: Attribute): (r: seq<Attribute>)
    ensures |r| == |attrs| && forall i :: 0 <= i < |attrs| ==> r[i] == ReplacedAt(attrs, a, i)
  {
    seq(|attrs|, i requires 0 <= i < |attrs| => ReplacedAt(attrs, a, i))
  }

  /** A replacement puts the new attribute where the same-named entry was. */
  lemma ReplaceNamedHolds(attrs: seq<Attribute>, a: Attribute)
    requires Replaceable(attrs, a)
    ensures a in ReplaceNamed(attrs, a)
  {
    var i :| 1 <= i < |attrs| && SameName(attrs[i], a);
    assert ReplaceNamed(attrs, a)[i] == a;
  }

  /** The list after setAttribute(Attribute a): the new attribute is in it. */
  function WithAttribute(attrs: seq<Attribute>, a: Attribute): (r: seq<Attribute>)
    ensures a in r
  {
    if Replaceable(attrs, a) then ReplaceNamedHolds(attrs, a); ReplaceNamed(attrs, a)
    else if attrs != [] && !IsWhitespace(attrs[|attrs| - 1]) then attrs + [Whitespace(" "), a]
    else attrs + [a]
  }

  /**
   * setAttribute(Attribute) grows the list by 0 (replaced), 1 or 2 entries,
   * never touches the tag name, and otherwise changes only same-named entries.
   */
  lemma WithAttributeShape(attrs: seq<Attribute>, a: Attribute)
    ensures var r := WithAttribute(attrs, a);
      && (|r| == |attrs| <==> Replaceable(attrs, a))
      && (|r| == |attrs| || |r| == |attrs| + 1 || |r| == |attrs| + 2)
      && (|r| == |attrs| + 2 <==> !Replaceable(attrs, a) && attrs != [] && !IsWhitespace(attrs[|attrs| - 1]))
      && (attrs != [] ==> r[0] == attrs[0])
      && (!Replaceable(attrs, a) ==> r[|r| - 1] == a && r[..|attrs|] == attrs)
      && (|r| == |attrs| + 2 ==> r[|attrs|] == Whitespace(" "))
      && (forall i :: 0 <= i < |attrs| && !SameName(attrs[i], a) ==> r[i] == attrs[i])
  {
  }

  /**
   * After setAttribute(a) a lookup by a's name finds a, unless the tag name
   * itself matches that name (the lookup scans from entry 0, the
   * replacement from entry 1).
   */
  lemma LookupAfterWithAttribute(attrs: seq<Attribute>, a: Attribute, key: string)
    requires a.name == Some(key)
    ensures (attrs == [] || !NameMatches(attrs[0], key)) ==> Lookup(WithAttribute(attrs, a), key) == Some(a)
    ensures attrs != [] && NameMatches(attrs[0], key) ==> Lookup(WithAttribute(attrs, a), key) == Some(attrs[0])
  {
    var r := WithAttribute(attrs, a);
    WithAttributeShape(attrs, a);
    assert NameMatches(a, key);
    assert forall i :: 0 <= i < |attrs| ==> (NameMatches(attrs[i], key) <==> SameName(attrs[i], a));
    if attrs != [] && NameMatches(attrs[0], key) {
      assert IndexOf(r, key) == Some(0);
    } else {
      var k := |r| - 1;
      if Replaceable(attrs, a) {
        var w :| 1 <= w < |attrs| && SameName(attrs[w], a);
        k := w;
      }
      assert k < |r| && r[k] == a && NameMatches(r[k], key);
      var m := IndexOf(r, key);
      assert m.Some?;
      var j := m.value;
      assert NameMatches(r[j], key);
      assert r[j] == a by {
        if j < |attrs| && j >= 1 {
          assert r[j] == ReplacedAt(attrs, a, j);
        }
      }
    }
  }

  // ---------------------------------------------------------------------
  // setAttribute(String key, String value)
  // ---------------------------------------------------------------------

  /**
   * The list after setAttribute(key, value): an existing entry (the first
   * match) gets the new value and, when one was chosen, the new quote;
   * otherwise a new entry goes through setAttribute(Attribute).
   */
  function WithValue(attrs: seq<Attribute>, key: string, value: Option<string>): (r: seq<Attribute>)
    ensures IndexOf(attrs, key).Some? ==> |r| == |attrs|
    ensures |attrs| <= |r| <= |attrs| + 2
  {
    var q := ChooseQuote(value);
    match IndexOf(attrs, key)
    case Some(i) =>
      attrs[i := attrs[i].(value := q.value, quote := if q.quote != NoQuote then q.quote else attrs[i].quote)]
    case None => WithAttribute(attrs, Attribute(Some(key), q.value, q.quote))
  }

  /** On an existing key only that entry's value (and a non-zero chosen quote) changes. */
  lemma WithValueExisting(attrs: seq<Attribute>, key: string, value: Option<string>)
    requires IndexOf(attrs, key).Some?
    ensures var i := IndexOf(attrs, key).value; var r := WithValue(attrs, key, value);
      && |r| == |attrs|
      && r[i].name == attrs[i].name
      && r[i].value == ChooseQuote(value).value
      && (ChooseQuote(value).quote == NoQuote ==> r[i].quote == attrs[i].quote)
      && (ChooseQuote(value).quote != NoQuote ==> r[i].quote == ChooseQuote(value).quote)
      && forall j :: 0 <= j < |attrs| && j != i ==> r[j] == attrs[j]
  {
  }

  /** Set then get: the value read back is the value stored, after quoting. */
  lemma ValueAfterWithValue(attrs: seq<Attribute>, key: string, value: Option<string>)
    ensures ValueOf(WithValue(attrs, key, value), key) == ChooseQuote(value).value
  {
    var q := ChooseQuote(value);
    var r := WithValue(attrs, key, value);
    match IndexOf(attrs, key)
    case Some(i) =>
      FindFromSameMatches(attrs, r, key, 0);
    case None =>
      LookupAfterWithAttribute(attrs, Attribute(Some(key), q.value, q.quote), key);
  }

  /** A key that is absent gets appended with the chosen quote, and nothing is replaced. */
  lemma WithValueAbsent(attrs: seq<Attribute>, key: string, value: Option<string>)
    requires IndexOf(attrs, key).None?
    ensures var r := WithValue(attrs, key, value); var q := ChooseQuote(value);
      && |r| > |attrs| && r[..|attrs|] == attrs
      && r[|r| - 1] == Attribute(Some(key), q.value, q.quote)
  {
    var q := ChooseQuote(value);
    var a := Attribute(Some(key), q.value, q.quote);
    assert !Replaceable(attrs, a);
    WithAttributeShape(attrs, a);
  }

  // ---------------------------------------------------------------------
  // removeAttribute
  // ---------------------------------------------------------------------

  /** The list after removeAttribute(key): the entry getAttribute finds is dropped. */
  function WithoutAttribute(attrs: seq<Attribute>, key: string): (r: seq<Attribute>)
    ensures r == attrs <==> IndexOf(attrs, key).None?
    ensures multiset(r) <= multiset(attrs)
  {
    match IndexOf(attrs, key)
    case Some(i) =>
      assert attrs == attrs[..i] + [attrs[i]] + attrs[i + 1..];
      attrs[..i] + attrs[i + 1..]
    case None => attrs
  }

  /**
   * removeAttribute drops exactly the first match; a later lookup finds
   * the next match, if there is one.
   */
  lemma {:induction false} LookupAfterRemove(attrs: seq<Attribute>, key: string)
    requires IndexOf(attrs, key).Some?
    ensures var i := IndexOf(attrs, key).value; var r := WithoutAttribute(attrs, key);
      && |r| == |attrs| - 1
      && IndexOf(r, key) == (match FindFrom(attrs, key, i + 1)
                             case Some(j) => Some(j - 1)
                             case None => None)
  {
    var i := IndexOf(attrs, key).value;
    var r := WithoutAttribute(attrs, key);
    assert forall j :: 0 <= j < i ==> r[j] == attrs[j];
    assert forall j :: i <= j < |r| ==> r[j] == attrs[j + 1];
    match FindFrom(attrs, key, i + 1)
    case Some(j) =>
      assert NameMatches(r[j - 1], key);
      var m := IndexOf(r, key);
      assert m.Some? && m.value <= j - 1;
    case None =>
  }

  // ---------------------------------------------------------------------
  // Tag name (getRawTagName, getTagName, setTagName, isEndTag, breaksFlow)
  // ---------------------------------------------------------------------

  /** getRawTagName: the name of entry 0, or null. */
  function RawTagName(attrs: seq<Attribute>): Option<string>
  {
    if attrs == [] then None else attrs[0].name
  }

  /** Upper-case, then drop one leading '/', then one trailing '/'. */
  function NormalizeTagName(raw: string): string
  {
    var u := Upper(raw);
    var a := if StartsWith(u, "/") then u[1..] else u;
    if EndsWith(a, "/") then a[..|a| - 1] else a
  }

  /**
   * getTagName: null exactly when the raw name is; otherwise upper case and
   * at most the two slashes shorter than the raw name.
   */
  function TagName(attrs: seq<Attribute>): (r: Option<string>)
    ensures r.Some? <==> RawTagName(attrs).Some?
    ensures r.Some? ==> IsUpperCase(r.value) && |RawTagName(attrs).value| - 2 <= |r.value| <= |RawTagName(attrs).value|
  {
    match RawTagName(attrs)
    case Some(raw) =>
      NormalizeTagNameShape(raw);
      Some(NormalizeTagName(raw))
    case None => None
  }

  predicate IsUpperCase(s: string)
  {
    forall i :: 0 <= i < |s| ==> !('a' <= s[i] <= 'z')
  }

  /**
   * The tag name is upper case, loses at most the two slashes, and is the
   * plain upper-cased raw name when the raw name has no slash at either end.
   */
  lemma NormalizeTagNameShape(raw: string)
    ensures var n := NormalizeTagName(raw);
      && IsUpperCase(n)
      && |raw| - 2 <= |n| <= |raw|
      && (raw == [] || (raw[0] != '/' && raw[|raw| - 1] != '/') ==> n == Upper(raw))
  {
    var u := Upper(raw);
    var a := if StartsWith(u, "/") then u[1..] else u;
    assert IsUpperCase(u);
    assert IsUpperCase(a);
    if raw != [] && raw[0] != '/' && raw[|raw| - 1] != '/' {
      assert u[0] != '/' && u[|u| - 1] != '/';
      assert !StartsWith(u, "/");
      assert !EndsWith(u, "/");
    }
  }

  /** "/x/" normalises to the upper-cased x. */
  lemma NormalizeStripsBothSlashes(raw: string)
    requires |raw| >= 2 && raw[0] == '/' && raw[|raw| - 1] == '/'
    ensures NormalizeTagName(raw) == Upper(raw[1..|raw| - 1])
  {
    var u := Upper(raw);
    assert StartsWith(u, "/");
    assert EndsWith(u[1..], "/");
    assert u[1..][..|u| - 2] == Upper(raw[1..|raw| - 1]);
  }

  lemma UpperIdempotent(s: string)
    ensures Upper(Upper(s)) == Upper(s)
  {
  }

  /** "x/" normalises to the upper-cased x when x has no leading slash. */
  lemma NormalizeStripsTrailingSlash(x: string)
    requires x == [] || x[0] != '/'
    ensures NormalizeTagName(x + "/") == Upper(x)
  {
    var u, v := Upper(x + "/"), Upper(x);
    assert u == v + "/" by {
      forall i | 0 <= i < |x|
        ensures u[i] == v[i]
      {
        assert (x + "/")[i] == x[i];
      }
      assert u[|x|] == UpperChar((x + "/")[|x|]);
    }
    if x != [] {
      assert u[..1] == [UpperChar(x[0])];
      assert !StartsWith(u, "/");
    }
  }

  /** An end tag "</x>" has the same tag name as its start tag "<x>". */
  lemma EndTagNameMatchesStartTag(s: string)
    requires s == [] || s[0] != '/'
    ensures NormalizeTagName("/" + s) == NormalizeTagName(s)
  {
    var u, v := Upper("/" + s), Upper(s);
    assert u[..1] == "/" by {
      assert u[..1][0] == UpperChar('/');
    }
    assert u[1..] == v;
    assert !StartsWith(v, "/") by {
      if |v| > 0 {
        assert v[..1][0] == UpperChar(s[0]);
      }
    }
  }

  /**
   * isEndTag: the raw name is non-null, non-empty and starts with '/'; the
   * slash is then not part of the tag name.
   */
  predicate IsEndTag(attrs: seq<Attribute>)
    ensures IsEndTag(attrs) ==> TagName(attrs).Some? && |TagName(attrs).value| < |RawTagName(attrs).value|
  {
    match RawTagName(attrs)
    case Some(raw) => |raw| != 0 && raw[0] == '/'
    case None => false
  }

  /** The fixed table of tags after which text starts on a new line. */
  const BreakTags: set<string> := {
    "BLOCKQUOTE", "BODY", "BR", "CENTER", "DD", "DIR", "DIV", "DL", "DT", "FORM",
    "H1", "H2", "H3", "H4", "H5", "H6", "HEAD", "HR", "HTML", "ISINDEX",
    "LI", "MENU", "NOFRAMES", "OL", "P", "PRE", "TD", "TH", "TITLE", "UL"
  }

  /** breaksFlow: the tag name is in the table; a null or empty name never is. */
  predicate BreaksFlow(attrs: seq<Attribute>)
    ensures BreaksFlow(attrs) ==> RawTagName(attrs).Some? && |RawTagName(attrs).value| > 0
  {
    TagName(attrs).Some? && TagName(attrs).value in BreakTags
  }

  /** Whether a tag breaks the flow ignores case and end-tag slashes. */
  lemma BreaksFlowOfEndTag(s: string, rest1: seq<Attribute>, rest2: seq<Attribute>)
    requires s == [] || s[0] != '/'
    ensures BreaksFlow([NameEntry("/" + s)] + rest1) == BreaksFlow([NameEntry(Lower(s))] + rest2)
  {
    EndTagNameMatchesStartTag(s);
    LowerIgnoresCase(s);
    assert NormalizeTagName(s) == NormalizeTagName(Lower(s));
    LeadingNameEntry("/" + s, rest1);
    LeadingNameEntry(Lower(s), rest2);
  }

  /** A string and its lower-case form are equal ignoring case. */
  lemma LowerIgnoresCase(s: string)
    ensures EqualsIgnoreCase(s, Lower(s))
  {
    assert Upper(Lower(s)) == Upper(s);
  }

  /** A list headed by a bare name has that name, normalised, as its tag name. */
  lemma LeadingNameEntry(name: string, rest: seq<Attribute>)
    ensures TagName([NameEntry(name)] + rest) == Some(NormalizeTagName(name))
  {
    assert ([NameEntry(name)] + rest)[0] == NameEntry(name);
  }

  /**
   * The list after setTagName(name): entry 0 is replaced when it looks like
   * a bare name (no value, no quote), otherwise the name is inserted in
   * front; an empty list gets the name as its only entry.
   */
  function WithTagName(attrs: seq<Attribute>, name: string): (r: seq<Attribute>)
    ensures RawTagName(r) == Some(name)
    ensures |attrs| <= |r| <= |attrs| + 1
  {
    if attrs == [] then [NameEntry(name)]
    else if attrs[0].value.None? && attrs[0].quote == NoQuote then [NameEntry(name)] + attrs[1..]
    else [NameEntry(name)] + attrs
  }

  /** After setTagName the raw name is the one given, and the rest of the list is kept. */
  lemma WithTagNameShape(attrs: seq<Attribute>, name: string)
    ensures var r := WithTagName(attrs, name);
      && RawTagName(r) == Some(name)
      && TagName(r) == Some(NormalizeTagName(name))
      && (IsEndTag(r) <==> |name| != 0 && name[0] == '/')
      && (r[1..] == attrs || r[1..] == attrs[1..])
      && (|r| == |attrs| + 1 <==> attrs == [] || attrs[0].value.Some? || attrs[0].quote != NoQuote)
  {
  }

  // ---------------------------------------------------------------------
  // Empty XML tags (<x/>)
  // ---------------------------------------------------------------------

  predicate EndsWithSlash(name: string)
  {
    |name| > 0 && name[|name| - 1] == '/'
  }

  /**
   * isEmptyXmlTag: the last entry is named and its name ends in '/'; the
   * test as written agrees wherever it does not throw.
   */
  predicate IsEmptyXmlTag(attrs: seq<Attribute>)
    ensures IsEmptyXmlTagAsWritten(attrs).Ok? ==> IsEmptyXmlTagAsWritten(attrs) == Ok(IsEmptyXmlTag(attrs))
  {
    attrs != [] && attrs[|attrs| - 1].name.Some? && EndsWithSlash(attrs[|attrs| - 1].name.value)
  }

  /**
   * isEmptyXmlTag as written: it reads name.charAt(length - 1) without
   * checking the length, so an empty last name throws.
   */
  function IsEmptyXmlTagAsWritten(attrs: seq<Attribute>): Result<bool, JavaException>
  {
    if attrs == [] then Ok(false)
    else
      var last := attrs[|attrs| - 1];
      if last.name.None? then Ok(false)
      else if last.name.value == [] then Err(StringIndexOutOfBoundsException)
      else Ok(last.name.value[|last.name.value| - 1] == '/')
  }

  /** The slash and its separator that setEmptyXmlTag(true) appends after a real attribute. */
  function SlashAfter(attrs: seq<Attribute>): seq<Attribute>
  {
    attrs + [Whitespace(" "), NameEntry("/")]
  }

  /**
   * setEmptyXmlTag as written: it also reads charAt(length - 1) of a last
   * name with no value, and throws when that name is empty.
   */
  function WithEmptyXmlAsWritten(attrs: seq<Attribute>, emptyXml: bool): Result<seq<Attribute>, JavaException>
  {
    if attrs == [] then Ok(if emptyXml then [NameEntry("/")] else [])
    else
      var last := attrs[|attrs| - 1];
      if last.name.None? then Ok(if emptyXml then attrs + [NameEntry("/")] else attrs)
      else if last.value.Some? then Ok(if emptyXml then SlashAfter(attrs) else attrs)
      else if last.name.value == [] then Err(StringIndexOutOfBoundsException)
      else if last.name.value[|last.name.value| - 1] == '/' then
        Ok(if emptyXml then attrs
           else if |last.name.value| == 1 then attrs[..|attrs| - 1]
           else attrs[..|attrs| - 1] + [NameEntry(last.name.value[..|last.name.value| - 1])])
      else Ok(if emptyXml then SlashAfter(attrs) else attrs)
  }

  /**
   * setEmptyXmlTag with the empty-name case read as "does not end in a
   * slash", which is what the length check the code omits would give.
   */
  function WithEmptyXml(attrs: seq<Attribute>, emptyXml: bool): (r: seq<Attribute>)
    ensures |attrs| - 1 <= |r| <= |attrs| + 2
  {
    if attrs == [] then (if emptyXml then [NameEntry("/")] else [])
    else
      var last := attrs[|attrs| - 1];
      if last.name.None? then (if emptyXml then attrs + [NameEntry("/")] else attrs)
      else if last.value.Some? then (if emptyXml then SlashAfter(attrs) else attrs)
      else if EndsWithSlash(last.name.value) then
        (if emptyXml then attrs
         else if |last.name.value| == 1 then attrs[..|attrs| - 1]
         else attrs[..|attrs| - 1] + [NameEntry(last.name.value[..|last.name.value| - 1])])
      else (if emptyXml then SlashAfter(attrs) else attrs)
  }

  /** setEmptyXmlTag(true) makes the tag an empty XML tag, and a second call changes nothing. */
  lemma WithEmptyXmlMakesEmpty(attrs: seq<Attribute>)
    ensures IsEmptyXmlTag(WithEmptyXml(attrs, true))
    ensures WithEmptyXml(WithEmptyXml(attrs, true), true) == WithEmptyXml(attrs, true)
    ensures attrs != [] ==> WithEmptyXml(attrs, true)[..|attrs|] == attrs
  {
  }

  /** setEmptyXmlTag(false) removes a trailing lone "/" entry and leaves the rest. */
  lemma WithEmptyXmlRemovesSlash(attrs: seq<Attribute>)
    requires attrs != [] && attrs[|attrs| - 1] == NameEntry("/")
    ensures WithEmptyXml(attrs, false) == attrs[..|attrs| - 1]
  {
  }

  /** setEmptyXmlTag(false) never adds an entry. */
  lemma WithEmptyXmlFalseShrinks(attrs: seq<Attribute>)
    ensures |WithEmptyXml(attrs, false)| <= |attrs|
    ensures IsEmptyXmlTag(attrs) || WithEmptyXml(attrs, false) == attrs
  {
  }

  /** A fresh `new TagNode()` has the tag name "" and both as-written operations throw on it. */
  lemma EmptyNameThrows()
    ensures IsEmptyXmlTagAsWritten([NameEntry("")]) == Err(StringIndexOutOfBoundsException)
    ensures WithEmptyXmlAsWritten([NameEntry("")], true) == Err(StringIndexOutOfBoundsException)
    ensures IsEmptyXmlTag([NameEntry("")]) == false
    ensures WithEmptyXml([NameEntry("")], true) == [NameEntry(""), Whitespace(" "), NameEntry("/")]
  {
  }

  /** Everywhere else the as-written code and the corrected rule agree. */
  lemma AsWrittenAgreesOnNamedTags(attrs: seq<Attribute>, emptyXml: bool)
    requires attrs == [] || attrs[|attrs| - 1].name != Some([])
    ensures IsEmptyXmlTagAsWritten(attrs) == Ok(IsEmptyXmlTag(attrs))
    ensures WithEmptyXmlAsWritten(attrs, emptyXml) == Ok(WithEmptyXml(attrs, emptyXml))
  {
  }

  // ---------------------------------------------------------------------
  // Rendering (toTagHtml, getText)
  // ---------------------------------------------------------------------

  /**
   * The entries rendered one after another; `render` stands for
   * Attribute.toString(StringBuilder), which is not part of this model.
   */
  function RenderAll(attrs: seq<Attribute>, render: Attribute -> string): string
  {
    if attrs == [] then "" else RenderAll(attrs[..|attrs| - 1], render) + render(attrs[|attrs| - 1])
  }

  /** toTagHtml (and so a plain tag's toHtml): the entries between '<' and '>'. */
  function ToTagHtml(attrs: seq<Attribute>, render: Attribute -> string): string
  {
    "<" + RenderAll(attrs, render) + ">"
  }

  /** getText: toHtml without its first and last character. */
  function GetText(attrs: seq<Attribute>, render: Attribute -> string): (r: string)
    ensures r == RenderAll(attrs, render)
    ensures ToTagHtml(attrs, render) == "<" + r + ">"
  {
    var h := ToTagHtml(attrs, render);
    h[1..|h| - 1]
  }
}
