/**
 * StringExtractingNodeVisitor: gathers the user-visible text of a page into
 * a bounded buffer, collapsing white space with a three-state machine (the
 * white-space rules of section 9.1 of the HTML 4.01 specification), adding a
 * line separator after flow-breaking tags, and skipping SCRIPT and STYLE
 * content.
 */
module StringExtraction {
  import opened Wrappers
  import opened JavaStrings
  import opened Attributes

  // ---------------------------------------------------------------------
  // The collapse state machine
  // ---------------------------------------------------------------------

  /**
   * The characters collapse treats as white space: space, tab, form feed,
   * zero-width space, carriage return and line feed.
   */
  predicate IsCollapseWhite(c: char)
  {
    c == ' ' || c == '\t' || c == '\U{000C}' || c == '\U{200B}' || c == '\r' || c == '\n'
  }

  /**
   * State 0: white space was the last thing emitted (or nothing was);
   * state 1: inside white space; state 2: inside a word.
   */
  type CollapseState = s: int | 0 <= s <= 2

  /** What collapse appends for one character, and the state after it. */
  datatype Step = Step(emitted: string, state: CollapseState)

  function CollapseStep(state: CollapseState, c: char): (r: Step)
    ensures IsCollapseWhite(c) ==> r.emitted == [] && r.state == (if state == 0 then 0 else 1)
    ensures !IsCollapseWhite(c) ==> r.state == 2 && r.emitted == (if state == 1 then [' ', c] else [c])
  {
    if IsCollapseWhite(c) then Step([], if state != 0 then 1 else state)
    else Step((if state == 1 then [' '] else []) + [c], 2)
  }

  /** The text collapse appends for a whole string, and the final state. */
  function CollapseRun(state: CollapseState, s: string): Step
  {
    if s == [] then Step([], state)
    else
      var prev := CollapseRun(state, s[..|s| - 1]);
      var last := CollapseStep(prev.state, s[|s| - 1]);
      Step(prev.emitted + last.emitted, last.state)
  }

  /** The characters of `s` that are not collapse white space, in order. */
  function NonWhite(s: string): (r: string)
    ensures forall i :: 0 <= i < |r| ==> !IsCollapseWhite(r[i])
  {
    if s == [] then []
    else NonWhite(s[..|s| - 1]) + (if IsCollapseWhite(s[|s| - 1]) then [] else [s[|s| - 1]])
  }

  /** `s` with its ' ' characters removed. */
  function WithoutSpaces(s: string): string
  {
    if s == [] then []
    else WithoutSpaces(s[..|s| - 1]) + (if s[|s| - 1] == ' ' then [] else [s[|s| - 1]])
  }

  lemma {:induction false} WithoutSpacesAppend(a: string, b: string)
    ensures WithoutSpaces(a + b) == WithoutSpaces(a) + WithoutSpaces(b)
    decreases |b|
  {
    if b == [] {
      assert a + b == a;
    } else {
      assert (a + b)[..|a + b| - 1] == a + b[..|b| - 1];
      WithoutSpacesAppend(a, b[..|b| - 1]);
    }
  }

  /**
   * Collapse keeps every character that is not white space, in input
   * order, and adds nothing but ' ' characters.
   */
  lemma {:induction false} CollapseKeepsWords(state: CollapseState, s: string)
    ensures WithoutSpaces(CollapseRun(state, s).emitted) == NonWhite(s)
    decreases |s|
  {
    if s != [] {
      var prev := CollapseRun(state, s[..|s| - 1]);
      var last := CollapseStep(prev.state, s[|s| - 1]);
      CollapseKeepsWords(state, s[..|s| - 1]);
      WithoutSpacesAppend(prev.emitted, last.emitted);
      if !IsCollapseWhite(s[|s| - 1]) && prev.state == 1 {
        assert WithoutSpaces([' ', s[|s| - 1]]) == WithoutSpaces([' ']) + [s[|s| - 1]] by {
          assert [' ', s[|s| - 1]][..1] == [' '];
        }
        assert WithoutSpaces([' ']) == [] by {
          assert [' '][..0] == [];
        }
      } else if !IsCollapseWhite(s[|s| - 1]) {
        assert WithoutSpaces([s[|s| - 1]]) == [s[|s| - 1]] by {
          assert [s[|s| - 1]][..0] == [];
        }
      }
    }
  }

  /**
   * Text in collapsed form: no white space but ' ', no ' ' at either end,
   * and never two ' ' in a row.
   */
  predicate Collapsed(t: string)
  {
    && (forall i :: 0 <= i < |t| ==> t[i] == ' ' || !IsCollapseWhite(t[i]))
    && (|t| > 0 ==> t[0] != ' ' && t[|t| - 1] != ' ')
    && (forall i :: 0 <= i < |t| - 1 ==> !DoubleSpaceAt(t, i))
  }

  predicate DoubleSpaceAt(t: string, i: int)
    requires 0 <= i < |t| - 1
  {
    t[i] == ' ' && t[i + 1] == ' '
  }

  /** A word character after collapsed text keeps it collapsed. */
  lemma CollapsedAppendChar(t: string, c: char)
    requires Collapsed(t) && !IsCollapseWhite(c)
    ensures Collapsed(t + [c])
  {
    var out := t + [c];
    forall i | 0 <= i < |out| - 1
      ensures !DoubleSpaceAt(out, i)
    {
      if i < |t| - 1 {
        assert !DoubleSpaceAt(t, i);
      }
    }
  }

  /** A ' ' and a word character after non-empty collapsed text keep it collapsed. */
  lemma CollapsedAppendSpaced(t: string, c: char)
    requires Collapsed(t) && t != [] && !IsCollapseWhite(c)
    ensures Collapsed(t + [' ', c])
  {
    var out := t + [' ', c];
    forall i | 0 <= i < |out| - 1
      ensures !DoubleSpaceAt(out, i)
    {
      if i < |t| - 1 {
        assert !DoubleSpaceAt(t, i);
      }
    }
  }

  /**
   * From state 0 collapse produces collapsed text; it stays in state 0
   * only while it has emitted nothing.
   */
  lemma {:induction false} CollapseFromResetIsCollapsed(s: string)
    ensures Collapsed(CollapseRun(0, s).emitted)
    ensures CollapseRun(0, s).state == 0 <==> CollapseRun(0, s).emitted == []
    decreases |s|
  {
    if s != [] {
      CollapseFromResetIsCollapsed(s[..|s| - 1]);
      var prev := CollapseRun(0, s[..|s| - 1]);
      var c := s[|s| - 1];
      if !IsCollapseWhite(c) {
        if prev.state == 1 {
          CollapsedAppendSpaced(prev.emitted, c);
          assert CollapseRun(0, s).emitted == prev.emitted + [' ', c];
        } else {
          CollapsedAppendChar(prev.emitted, c);
          assert CollapseRun(0, s).emitted == prev.emitted + [c];
        }
      } else {
        assert CollapseRun(0, s).emitted == prev.emitted;
      }
    }
  }

  /**
   * What collapse from state 0 has produced after the first k characters
   * of collapsed text t: the prefix, with a trailing ' ' held back in state 1.
   */
  predicate ReproducesPrefix(t: string, k: nat, r: Step)
    requires k <= |t|
  {
    && (k == 0 ==> r.emitted == [] && r.state == 0)
    && (k > 0 && t[k - 1] == ' ' ==> r.emitted == t[..k - 1] && r.state == 1)
    && (k > 0 && t[k - 1] != ' ' ==> r.emitted == t[..k] && r.state == 2)
  }

  /** One more character of collapsed text keeps the prefix reproduced. */
  lemma ReproducesPrefixStep(t: string, k: nat, prev: Step)
    requires Collapsed(t) && 0 < k <= |t| && ReproducesPrefix(t, k - 1, prev)
    ensures var last := CollapseStep(prev.state, t[k - 1]);
      ReproducesPrefix(t, k, Step(prev.emitted + last.emitted, last.state))
  {
    var c := t[k - 1];
    assert t[..k] == t[..k - 1] + [c];
    if c == ' ' {
      assert k >= 2 && !DoubleSpaceAt(t, k - 2);
    } else {
      assert !IsCollapseWhite(c);
      if k >= 2 && t[k - 2] == ' ' {
        assert t[..k - 2] + [' ', c] == t[..k];
      }
    }
  }

  /**
   * On a prefix of collapsed text, collapse from state 0 reproduces the
   * prefix, holding back a trailing ' ' in state 1.
   */
  lemma {:induction false} CollapsePrefixOfCollapsed(t: string, k: nat)
    requires Collapsed(t) && k <= |t|
    ensures ReproducesPrefix(t, k, CollapseRun(0, t[..k]))
    decreases k
  {
    if k > 0 {
      CollapsePrefixOfCollapsed(t, k - 1);
      var prev := CollapseRun(0, t[..k - 1]);
      CollapseRunStep(0, t, k - 1);
      ReproducesPrefixStep(t, k, prev);
    }
  }

  /** Collapsing collapsed text from state 0 changes nothing, so collapse is idempotent. */
  lemma CollapseIdempotent(s: string)
    ensures var once := CollapseRun(0, s).emitted;
      CollapseRun(0, once).emitted == once
  {
    var once := CollapseRun(0, s).emitted;
    CollapseFromResetIsCollapsed(s);
    CollapsePrefixOfCollapsed(once, |once|);
    assert once[..|once|] == once;
  }

  /** The run over one more character is the run so far followed by one step. */
  lemma CollapseRunStep(state: CollapseState, s: string, i: nat)
    requires i < |s|
    ensures var prev := CollapseRun(state, s[..i]);
      var last := CollapseStep(prev.state, s[i]);
      CollapseRun(state, s[..i + 1]) == Step(prev.emitted + last.emitted, last.state)
  {
    assert s[..i + 1][..i] == s[..i];
  }

  /** Collapse appends at most one character per input character, plus a held-back space. */
  lemma {:induction false} CollapseLength(state: CollapseState, s: string)
    ensures var r := CollapseRun(state, s);
      |r.emitted| + (if r.state == 1 then 1 else 0) <= |s| + (if state == 1 then 1 else 0)
    decreases |s|
  {
    if s != [] {
      CollapseLength(state, s[..|s| - 1]);
    }
  }

  // ---------------------------------------------------------------------
  // Line breaks and the visited text
  // ---------------------------------------------------------------------

  /**
   * carriageReturn's buffer: the line separator is appended when the
   * buffer is non-empty, can hold a separator, does not already end with
   * one, and stays below maxSize.
   */
  function CarriageReturned(buffer: string, newline: string, maxSize: int): (r: string)
    ensures r == buffer || r == buffer + newline
    ensures r != buffer ==> |buffer| + |newline| < maxSize
  {
    var length := |buffer|;
    if 0 != length && length + |newline| < maxSize && |newline| <= length && buffer[length - |newline|..] != newline
    then buffer + newline
    else buffer
  }

  /** Two carriage returns in a row add at most one line separator. */
  lemma CarriageReturnIdempotent(buffer: string, newline: string, maxSize: int)
    ensures var once := CarriageReturned(buffer, newline, maxSize);
      CarriageReturned(once, newline, maxSize) == once
  {
    var once := CarriageReturned(buffer, newline, maxSize);
    if once != buffer {
      assert once[|once| - |newline|..] == newline;
    }
  }

  /** After a carriage return the buffer ends with the separator unless it was refused. */
  lemma CarriageReturnEndsLine(buffer: string, newline: string, maxSize: int)
    requires buffer != [] && |newline| <= |buffer| && |buffer| + |newline| < maxSize
    ensures EndsWith(CarriageReturned(buffer, newline, maxSize), newline)
  {
    var once := CarriageReturned(buffer, newline, maxSize);
    if once != buffer {
      assert once[|once| - |newline|..] == newline;
    }
  }

  /** String.replace(' ', ' '). */
  function ReplaceNonBreakingSpaces(s: string): (r: string)
    ensures |r| == |s|
    ensures forall i :: 0 <= i < |s| ==> r[i] == (if s[i] == '\U{00A0}' then ' ' else s[i])
  {
    seq(|s|, i requires 0 <= i < |s| => if s[i] == '\U{00A0}' then ' ' else s[i])
  }

  // ---------------------------------------------------------------------
  // The visitor
  // ---------------------------------------------------------------------

  /**
   * The body of collapse's loop for one character: white space only moves
   * the state to 1 (unless still at 0); any other character is appended,
   * after a single space when the state was 1.
   */
  method CollapseChar(buffer: string, state0: CollapseState, character: char) returns (buf: string, state: CollapseState)
    ensures buf == buffer + CollapseStep(state0, character).emitted
    ensures state == CollapseStep(state0, character).state
  {
    buf, state := buffer, state0;
    if IsCollapseWhite(character) {
      if 0 != state {
        state := 1;
      }
    } else {
      if 1 == state {
        buf := buf + [' '];
        AppendAssoc(buffer, [' '], [character]);
        assert [' '] + [character] == [' ', character];
      }
      state := 2;
      buf := buf + [character];
    }
  }

  /**
   * collapse's loop: the characters of `text` run through the state
   * machine, each emitted character appended to `buffer`.
   */
  method CollapseInto(buffer: string, state0: CollapseState, text: string) returns (buf: string, state: CollapseState)
    ensures buf == buffer + CollapseRun(state0, text).emitted
    ensures state == CollapseRun(state0, text).state
  {
    buf := buffer;
    state := state0;
    var chars := |text|;
    var i := 0;
    while i < chars
      invariant 0 <= i <= chars
      invariant buf == buffer + CollapseRun(state0, text[..i]).emitted
      invariant state == CollapseRun(state0, text[..i]).state
    {
      CollapseRunStep(state0, text, i);
      ghost var prev := CollapseRun(state0, text[..i]);
      buf, state := CollapseChar(buf, state, text[i]);
      AppendAssoc(buffer, prev.emitted, CollapseStep(prev.state, text[i]).emitted);
      i := i + 1;
    }
    TakeAll(text);
  }

  class StringExtractingNodeVisitor {
    /** The initial capacity of the buffer; it has no effect on the text. */
    const bufferSize: int
    /** The bound the buffer's length is kept under. */
    const maxSize: int
    /** The system line separator (NEWLINE). */
    const newline: string
    /** Translate.decode: character references to characters; it never lengthens text. */
    const decode: string -> string

    var strings: Option<string>
    var links: bool
    var replaceSpace: bool
    var collapse: bool
    var collapseState: CollapseState
    var buffer: string
    var isScript: bool
    var isPre: bool
    var isStyle: bool

    /** The buffer never gets longer than maxSize. */
    ghost predicate Valid()
      reads this
    {
      && (|buffer| <= maxSize || buffer == [])
      && (forall t :: |decode(t)| <= |t|)
    }

    /** The property defaults: no links, replace non-breaking spaces, collapse, all flags off. */
    predicate Defaults()
      reads this
    {
      strings.None? && !links && replaceSpace && collapse && collapseState == 0 &&
      buffer == [] && !isScript && !isPre && !isStyle
    }

    /** StringExtractingNodeVisitor(recurseChildren, recurseSelf, bufferSize, maxSize). */
    constructor (bufferSize: int, maxSize: int, newline: string, decode: string -> string)
      requires bufferSize >= 0
      requires forall t :: |decode(t)| <= |t|
      ensures this.bufferSize == bufferSize && this.maxSize == maxSize
      ensures this.newline == newline && this.decode == decode
      ensures Defaults() && Valid()
    {
      this.bufferSize := bufferSize;
      this.maxSize := maxSize;
      this.newline := newline;
      this.decode := decode;
      strings := None;
      links := false;
      replaceSpace := true;
      collapse := true;
      collapseState := 0;
      buffer := [];
      isScript := false;
      isPre := false;
      isStyle := false;
    }

    /** reset(): every property back to its default and an empty buffer. */
    method Reset()
      requires Valid()
      modifies this
      ensures Defaults() && Valid()
    {
      strings := None;
      links := false;
      replaceSpace := true;
      collapse := true;
      collapseState := 0;
      buffer := [];
      isScript := false;
      isPre := false;
      isStyle := false;
    }

    /** carriageReturn: append a line separator if there isn't one there already; state 0. */
    method CarriageReturn()
      requires Valid()
      modifies this`buffer, this`collapseState
      ensures buffer == CarriageReturned(old(buffer), newline, maxSize)
      ensures collapseState == 0
      ensures strings == old(strings) && isPre == old(isPre) && isScript == old(isScript) && isStyle == old(isStyle)
      ensures links == old(links) && replaceSpace == old(replaceSpace) && collapse == old(collapse)
      ensures Valid()
    {
      var length := |buffer|;
      if 0 != length && length + |newline| < maxSize && |newline| <= length
        && buffer[length - |newline|..] != newline
      {
        buffer := buffer + newline;
      }
      collapseState := 0;
    }

    /**
     * collapse(mBuffer, text): nothing when the text would reach maxSize,
     * otherwise the state machine run over the text.
     */
    method Collapse(text: string)
      requires Valid()
      modifies this`buffer, this`collapseState
      ensures |old(buffer)| + |text| >= maxSize ==> buffer == old(buffer) && collapseState == old(collapseState)
      ensures |old(buffer)| + |text| < maxSize ==>
        buffer == old(buffer) + CollapseRun(old(collapseState), text).emitted &&
        collapseState == CollapseRun(old(collapseState), text).state
      ensures strings == old(strings) && isPre == old(isPre) && isScript == old(isScript) && isStyle == old(isStyle)
      ensures links == old(links) && replaceSpace == old(replaceSpace) && collapse == old(collapse)
      ensures Valid()
    {
      var chars := |text|;
      if |buffer| + chars >= maxSize {
        return;
      }
      var buf, state := CollapseInto(buffer, collapseState, text);
      CollapseLength(old(collapseState), text);
      buffer := buf;
      collapseState := state;
    }

    /** updateStrings: the Strings property takes the new value. */
    method UpdateStrings(s: string)
      modifies this
      ensures strings == Some(s)
      ensures buffer == old(buffer) && collapseState == old(collapseState)
      ensures isPre == old(isPre) && isScript == old(isScript) && isStyle == old(isStyle)
      ensures links == old(links) && replaceSpace == old(replaceSpace) && collapse == old(collapse)
    {
      if strings.None? || strings.value != s {
        strings := Some(s);
      }
    }

    /** resetStrings: when text was delivered, forget it and start an empty buffer. */
    method ResetStrings()
      requires Valid()
      modifies this
      ensures old(strings).Some? ==> strings.None? && buffer == []
      ensures old(strings).None? ==> strings.None? && buffer == old(buffer)
      ensures collapseState == old(collapseState)
      ensures isPre == old(isPre) && isScript == old(isScript) && isStyle == old(isStyle)
      ensures links == old(links) && replaceSpace == old(replaceSpace) && collapse == old(collapse)
      ensures Valid()
    {
      if strings.Some? {
        strings := None;
        buffer := [];
      }
    }

    /**
     * getStrings: the buffer is delivered once, when nothing was delivered
     * yet and it is non-empty; null when both are empty.
     */
    method GetStrings() returns (r: Option<string>)
      modifies this
      ensures r == strings
      ensures old(strings).Some? ==> strings == old(strings)
      ensures old(strings).None? && old(buffer) != [] ==> strings == Some(old(buffer))
      ensures old(strings).None? && old(buffer) == [] ==> r.None?
      ensures buffer == old(buffer) && collapseState == old(collapseState)
      ensures isPre == old(isPre) && isScript == old(isScript) && isStyle == old(isStyle)
      ensures links == old(links) && replaceSpace == old(replaceSpace) && collapse == old(collapse)
    {
      if strings.None? {
        if 0 != |buffer| {
          UpdateStrings(buffer);
        }
      }
      r := strings;
    }

    /** setLinks: a change of value forgets delivered text. */
    method SetLinks(value: bool)
      requires Valid()
      modifies this
      ensures links == value
      ensures value != old(links) && old(strings).Some? ==> strings.None? && buffer == []
      ensures value == old(links) || old(strings).None? ==> strings == old(strings) && buffer == old(buffer)
      ensures collapseState == old(collapseState) && replaceSpace == old(replaceSpace) && collapse == old(collapse)
      ensures isPre == old(isPre) && isScript == old(isScript) && isStyle == old(isStyle)
      ensures Valid()
    {
      var oldValue := links;
      if oldValue != value {
        links := value;
        ResetStrings();
      }
    }

    /** setReplaceNonBreakingSpaces: a change of value forgets delivered text. */
    method SetReplaceNonBreakingSpaces(replace: bool)
      requires Valid()
      modifies this
      ensures replaceSpace == replace
      ensures replace != old(replaceSpace) && old(strings).Some? ==> strings.None? && buffer == []
      ensures replace == old(replaceSpace) || old(strings).None? ==> strings == old(strings) && buffer == old(buffer)
      ensures collapseState == old(collapseState) && links == old(links) && collapse == old(collapse)
      ensures isPre == old(isPre) && isScript == old(isScript) && isStyle == old(isStyle)
      ensures Valid()
    {
      var oldValue := replaceSpace;
      if oldValue != replace {
        replaceSpace := replace;
        ResetStrings();
      }
    }

    /** setCollapse: always resets the state machine; a change of value forgets delivered text. */
    method SetCollapse(value: bool)
      requires Valid()
      modifies this
      ensures collapse == value && collapseState == 0
      ensures value != old(collapse) && old(strings).Some? ==> strings.None? && buffer == []
      ensures value == old(collapse) || old(strings).None? ==> strings == old(strings) && buffer == old(buffer)
      ensures links == old(links) && replaceSpace == old(replaceSpace)
      ensures isPre == old(isPre) && isScript == old(isScript) && isStyle == old(isStyle)
      ensures Valid()
    {
      collapseState := 0;
      var oldValue := collapse;
      if oldValue != value {
        collapse := value;
        ResetStrings();
      }
    }

    /**
     * visitStringNode: nothing inside SCRIPT or STYLE or when the text
     * would reach maxSize; inside PRE the text verbatim; otherwise the
     * decoded text, with non-breaking spaces replaced and white space
     * collapsed as the properties say.
     */
    method VisitStringNode(text: string)
      requires Valid()
      modifies this
      ensures isScript || isStyle || |old(buffer)| + |text| >= maxSize ==>
        buffer == old(buffer) && collapseState == old(collapseState)
      ensures !isScript && !isStyle && |old(buffer)| + |text| < maxSize && isPre ==>
        buffer == old(buffer) + text && collapseState == old(collapseState)
      ensures !isScript && !isStyle && |old(buffer)| + |text| < maxSize && !isPre ==>
        var t := if replaceSpace then ReplaceNonBreakingSpaces(decode(text)) else decode(text);
        if collapse then
          (|old(buffer)| + |t| >= maxSize ==> buffer == old(buffer) && collapseState == old(collapseState)) &&
          (|old(buffer)| + |t| < maxSize ==>
            buffer == old(buffer) + CollapseRun(old(collapseState), t).emitted &&
            collapseState == CollapseRun(old(collapseState), t).state)
        else buffer == old(buffer) + t && collapseState == old(collapseState)
      ensures strings == old(strings) && isPre == old(isPre) && isScript == old(isScript) && isStyle == old(isStyle)
      ensures links == old(links) && replaceSpace == old(replaceSpace) && collapse == old(collapse)
      ensures Valid()
    {
      if !isScript && !isStyle {
        if |buffer| + |text| < maxSize {
          if !isPre {
            var t := decode(text);
            if replaceSpace {
              t := ReplaceNonBreakingSpaces(t);
            }
            if collapse {
              Collapse(t);
            } else {
              buffer := buffer + t;
            }
          } else {
            buffer := buffer + text;
          }
        }
      }
    }

    /**
     * visitTag: when links are on and the tag is a link with a URL, the URL
     * between angle brackets if it fits; then the PRE, SCRIPT or STYLE
     * flag for those tags, and a carriage return for flow-breaking ones. A
     * tag without a name throws after the link step. `link` is the URL of a
     * LinkTag, None for other tags or a null URL.
     */
    method VisitTag(attrs: seq<Attribute>, link: Option<string>) returns (thrown: Option<JavaException>)
      requires Valid()
      modifies this`buffer, this`collapseState, this`isPre, this`isScript, this`isStyle
      ensures thrown.Some? <==> TagName(attrs).None?
      ensures thrown.Some? ==> thrown.value == NullPointerException
      ensures var linked :=
          if links && link.Some? && |old(buffer)| + |link.value| + 2 < maxSize
          then old(buffer) + "<" + link.value + ">" else old(buffer);
        buffer == (if thrown.None? && BreaksFlow(attrs) then CarriageReturned(linked, newline, maxSize) else linked)
      ensures var name := TagName(attrs);
        && isPre == (old(isPre) || (name.Some? && EqualsIgnoreCase(name.value, "PRE")))
        && isScript == (old(isScript) || (name.Some? && !EqualsIgnoreCase(name.value, "PRE") &&
                                          EqualsIgnoreCase(name.value, "SCRIPT")))
        && isStyle == (old(isStyle) || (name.Some? && !EqualsIgnoreCase(name.value, "PRE") &&
                                        !EqualsIgnoreCase(name.value, "SCRIPT") && EqualsIgnoreCase(name.value, "STYLE")))
      ensures collapseState == (if thrown.None? && BreaksFlow(attrs) then 0 else old(collapseState))
      ensures strings == old(strings) && links == old(links) && replaceSpace == old(replaceSpace) && collapse == old(collapse)
      ensures Valid()
    {
      AppendLink(link);
      thrown := NameStep(TagName(attrs), BreaksFlow(attrs));
    }

    /**
     * visitTag after the link step: NullPointerException for a null name,
     * otherwise the flags, then a carriage return when the tag breaks the flow.
     */
    method NameStep(name: Option<string>, breaks: bool) returns (thrown: Option<JavaException>)
      requires Valid()
      modifies this`buffer, this`collapseState, this`isPre, this`isScript, this`isStyle
      ensures thrown == (if name.None? then Some(NullPointerException) else None)
      ensures buffer == (if name.Some? && breaks then CarriageReturned(old(buffer), newline, maxSize) else old(buffer))
      ensures isPre == (old(isPre) || (name.Some? && EqualsIgnoreCase(name.value, "PRE")))
      ensures isScript == (old(isScript) || (name.Some? && !EqualsIgnoreCase(name.value, "PRE") &&
                                             EqualsIgnoreCase(name.value, "SCRIPT")))
      ensures isStyle == (old(isStyle) || (name.Some? && !EqualsIgnoreCase(name.value, "PRE") &&
                                           !EqualsIgnoreCase(name.value, "SCRIPT") && EqualsIgnoreCase(name.value, "STYLE")))
      ensures collapseState == (if name.Some? && breaks then 0 else old(collapseState))
      ensures Valid()
    {
      if name.None? {
        return Some(NullPointerException);
      }
      SetFlags(name.value);
      if breaks {
        CarriageReturn();
      }
      thrown := None;
    }

    /** visitTag's first step: a LinkTag's URL between angle brackets, if it fits. */
    method AppendLink(link: Option<string>)
      requires Valid()
      modifies this`buffer
      ensures buffer ==
        if links && link.Some? && |old(buffer)| + |link.value| + 2 < maxSize
        then old(buffer) + "<" + link.value + ">" else old(buffer)
      ensures Valid()
    {
      if links && link.Some? {
        var lengthToAppend := |link.value| + 2;
        if |buffer| + lengthToAppend < maxSize {
          buffer := buffer + "<" + link.value + ">";
        }
      }
    }

    /** visitTag's flags: PRE, else SCRIPT, else STYLE, compared ignoring case. */
    method SetFlags(name: string)
      modifies this`isPre, this`isScript, this`isStyle
      ensures isPre == (old(isPre) || EqualsIgnoreCase(name, "PRE"))
      ensures isScript == (old(isScript) || (!EqualsIgnoreCase(name, "PRE") && EqualsIgnoreCase(name, "SCRIPT")))
      ensures isStyle == (old(isStyle) || (!EqualsIgnoreCase(name, "PRE") &&
                                           !EqualsIgnoreCase(name, "SCRIPT") && EqualsIgnoreCase(name, "STYLE")))
    {
      if EqualsIgnoreCase(name, "PRE") {
        isPre := true;
      } else if EqualsIgnoreCase(name, "SCRIPT") {
        isScript := true;
      } else if EqualsIgnoreCase(name, "STYLE") {
        isStyle := true;
      }
    }

    /** visitEndTag: the end tag of PRE, SCRIPT or STYLE clears that flag; no name throws. */
    method VisitEndTag(attrs: seq<Attribute>) returns (thrown: Option<JavaException>)
      modifies this
      ensures thrown.Some? <==> TagName(attrs).None?
      ensures thrown.Some? ==> thrown.value == NullPointerException
      ensures var name := TagName(attrs);
        && isPre == (old(isPre) && !(name.Some? && EqualsIgnoreCase(name.value, "PRE")))
        && isScript == (old(isScript) && !(name.Some? && !EqualsIgnoreCase(name.value, "PRE") &&
                                           EqualsIgnoreCase(name.value, "SCRIPT")))
        && isStyle == (old(isStyle) && !(name.Some? && !EqualsIgnoreCase(name.value, "PRE") &&
                                         !EqualsIgnoreCase(name.value, "SCRIPT") && EqualsIgnoreCase(name.value, "STYLE")))
      ensures buffer == old(buffer) && collapseState == old(collapseState) && strings == old(strings)
      ensures links == old(links) && replaceSpace == old(replaceSpace) && collapse == old(collapse)
    {
      var name := TagName(attrs);
      if name.None? {
        return Some(NullPointerException);
      }
      if EqualsIgnoreCase(name.value, "PRE") {
        isPre := false;
      } else if EqualsIgnoreCase(name.value, "SCRIPT") {
        isScript := false;
      } else if EqualsIgnoreCase(name.value, "STYLE") {
        isStyle := false;
      }
      thrown := None;
    }
  }

  /**
   * A start tag and its end tag, whatever their case, set and then clear
   * the same flag: "<pre>" then "</PRE>" leaves PRE mode.
   */
  lemma EndTagClearsStartTagFlag(s: string)
    requires s == [] || s[0] != '/'
    ensures NormalizeTagName("/" + s) == NormalizeTagName(s)
    ensures EqualsIgnoreCase(NormalizeTagName(Lower(s)), "PRE") <==> EqualsIgnoreCase(NormalizeTagName("/" + s), "PRE")
  {
    EndTagNameMatchesStartTag(s);
    assert Upper(Lower(s)) == Upper(s);
    assert NormalizeTagName(s) == NormalizeTagName(Lower(s));
  }
}
