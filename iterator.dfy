/**
 * IteratorImpl: the top-level node iterator. next() takes the lexer's next
 * node and, for a start tag that has a scanner, hands it to that scanner;
 * Exceptions other than ParserException are wrapped in one whose message
 * names the page and the current line. The lexer, the page and the
 * scanners are stand-ins: functions of the lexer's position.
 */
module Iterators {
  import opened Wrappers
  import opened JavaStrings
  import opened Attributes
  import opened Nodes

  /** An Exception leaving a call: a ParserException (message, cause), or any other Exception. */
  datatype Failure =
    | ParserFailure(message: string, cause: Option<string>)
    | OtherFailure(name: string)

  /** The outcome of a call that may throw. */
  datatype Outcome<T> = Done(value: T) | Thrown(failure: Failure)

  /** getClass().getName() of the iterator. */
  const ClassName: string := "org.htmlparser.util.IteratorImpl"

  /** What StringBuilder.append writes for a possibly null string. */
  function AppendedText(s: Option<string>): string
  {
    if s.Some? then s.value else "null"
  }

  /** The wrapping ParserException's message. */
  function WrapMessage(url: Option<string>, lineNumber: nat, line: string): string
  {
    "@" + ClassName + "#next()" + "\nUnexpected Exception occurred while reading "
      + AppendedText(url) + "Line " + NatToString(lineNumber) + ": " + line
  }

  /** Where the pieces of a message built by appending lie in it. */
  lemma MessagePieces(p: string, u: string, l: string, k: string, sep: string, line: string)
    ensures var m := p + u + l + k + sep + line;
      StartsWith(m, p) && Contains(m, u) && Contains(m, l + k) && EndsWith(m, line)
  {
    var m := p + u + l + k + sep + line;
    assert m[..|p|] == p;
    assert m[|p|..|p| + |u|] == u;
    ContainsAt(m, u, |p|);
    assert m[|p + u|..|p + u| + |l + k|] == l + k;
    ContainsAt(m, l + k, |p + u|);
    assert m[|m| - |line|..] == line;
  }

  /** The message names the iterator, the page URL, the line number and the line's text. */
  lemma WrapMessageMentions(url: Option<string>, lineNumber: nat, line: string)
    ensures StartsWith(WrapMessage(url, lineNumber, line), "@" + ClassName + "#next()")
    ensures Contains(WrapMessage(url, lineNumber, line), AppendedText(url))
    ensures Contains(WrapMessage(url, lineNumber, line), "Line " + NatToString(lineNumber))
    ensures EndsWith(WrapMessage(url, lineNumber, line), line)
  {
    var head := "@" + ClassName + "#next()";
    var p := head + "\nUnexpected Exception occurred while reading ";
    var m := WrapMessage(url, lineNumber, line);
    MessagePieces(p, AppendedText(url), "Line ", NatToString(lineNumber), ": ", line);
    assert m[..|head|] == p[..|p|][..|head|];
  }

  /** The scan-or-return decision: a lexed start tag with a scanner, when recursing. */
  predicate ShouldScan(ret: Option<Node>, recurse: bool, hasScanner: Node -> bool)
  {
    && ret.Some? && ret.value.Tag? && !IsEndTag(ret.value.attributes)
    && recurse && hasScanner(ret.value)
  }

  /** The lexer, reduced to its position and what it yields there. */
  class Lexer {
    var position: nat
    /** getPage().getUrl(). */
    const url: Option<string>
    /** getPage().getCharacter at a position; None for Page.EOF. */
    const characterAt: nat -> Option<char>
    /** Lexer.next(): the node (null at the end) and the position after it. */
    const lex: nat -> (Outcome<Option<Node>>, nat)
    /** getCurrentLineNumber and getCurrentLine at a position. */
    const lineNumber: nat -> nat
    const lineText: nat -> string

    constructor (url: Option<string>, characterAt: nat -> Option<char>, lex: nat -> (Outcome<Option<Node>>, nat),
                 lineNumber: nat -> nat, lineText: nat -> string)
      ensures position == 0 && this.url == url && this.characterAt == characterAt && this.lex == lex
      ensures this.lineNumber == lineNumber && this.lineText == lineText
    {
      position := 0;
      this.url := url;
      this.characterAt := characterAt;
      this.lex := lex;
      this.lineNumber := lineNumber;
      this.lineText := lineText;
    }
  }

  /** ParserFeedback, reduced to the error reports it receives. */
  class Feedback {
    var errors: seq<(string, Failure)>

    constructor ()
      ensures errors == []
    {
      errors := [];
    }
  }

  /** The exception next() throws for one that escaped the lexer or the scanner at position p. */
  function Wrapped(lexer: Lexer, failure: Failure, p: nat): Failure
    reads lexer
  {
    if failure.ParserFailure? then failure
    else ParserFailure(WrapMessage(lexer.url, lexer.lineNumber(p), lexer.lineText(p)), Some(failure.name))
  }

  /**
   * next(): the outcome and the lexer position after it, from the position
   * before it.
   */
  function NextOutcome(lexer: Lexer, recurse: bool, hasScanner: Node -> bool,
                       scan: (Node, nat) -> (Outcome<Option<Node>>, nat), p: nat): (r: (Outcome<Option<Node>>, nat))
    reads lexer
    ensures r.0.Thrown? ==> r.0.failure.ParserFailure?
  {
    var (lexed, p1) := lexer.lex(p);
    match lexed
    case Thrown(f) => (Thrown(Wrapped(lexer, f, p1)), p1)
    case Done(ret) =>
      if ShouldScan(ret, recurse, hasScanner) then
        var (scanned, p2) := scan(ret.value, p1);
        match scanned
        case Thrown(f) => (Thrown(Wrapped(lexer, f, p2)), p2)
        case Done(n) => (Done(n), p2)
      else (Done(ret), p1)
  }

  /** A lexed null, non-tag or end tag, or any node when not recursing, is returned as lexed. */
  lemma NextReturnsLexed(lexer: Lexer, recurse: bool, hasScanner: Node -> bool,
                         scan: (Node, nat) -> (Outcome<Option<Node>>, nat), p: nat)
    requires lexer.lex(p).0.Done?
    requires var ret := lexer.lex(p).0.value;
      ret.None? || !ret.value.Tag? || IsEndTag(ret.value.attributes) || !recurse
    ensures NextOutcome(lexer, recurse, hasScanner, scan, p) == (lexer.lex(p).0, lexer.lex(p).1)
  {
  }

  /** A ParserException from the lexer leaves next() as thrown; any other exception from it comes back wrapped. */
  lemma ParserExceptionPassesThrough(lexer: Lexer, recurse: bool, hasScanner: Node -> bool,
                                     scan: (Node, nat) -> (Outcome<Option<Node>>, nat), p: nat)
    requires var r := NextOutcome(lexer, recurse, hasScanner, scan, p); r.0.Thrown?
    ensures var r := NextOutcome(lexer, recurse, hasScanner, scan, p);
      && r.0.failure.ParserFailure?
      && (lexer.lex(p).0.Thrown? && lexer.lex(p).0.failure.ParserFailure? ==> r.0 == lexer.lex(p).0)
      && (lexer.lex(p).0.Thrown? && lexer.lex(p).0.failure.OtherFailure? ==>
            r.0.failure.cause == Some(lexer.lex(p).0.failure.name) &&
            Contains(r.0.failure.message, AppendedText(lexer.url)))
  {
    var (lexed, p1) := lexer.lex(p);
    if lexed.Thrown? && lexed.failure.OtherFailure? {
      WrapMessageMentions(lexer.url, lexer.lineNumber(p1), lexer.lineText(p1));
    }
  }

  class IteratorImpl {
    const lexer: Lexer
    const feedback: Feedback
    /** mCursor's position. */
    var cursor: nat
    const recurse: bool
    /** Tag.getThisScanner() is non-null. */
    const hasScanner: Node -> bool
    /** Scanner.scan(tag, lexer, new list): its result and the lexer position after it. */
    const scan: (Node, nat) -> (Outcome<Option<Node>>, nat)

    /** IteratorImpl(lexer, feedback): recursion on. */
    constructor (lexer: Lexer, fb: Feedback, hasScanner: Node -> bool, scan: (Node, nat) -> (Outcome<Option<Node>>, nat))
      ensures this.lexer == lexer && feedback == fb && recurse
      ensures this.hasScanner == hasScanner && this.scan == scan && cursor == 0
    {
      this.lexer := lexer;
      feedback := fb;
      recurse := true;
      this.hasScanner := hasScanner;
      this.scan := scan;
      cursor := 0;
    }

    /** IteratorImpl(lexer, feedback, recurse). */
    constructor WithRecurse(lexer: Lexer, fb: Feedback, recurse: bool, hasScanner: Node -> bool,
                            scan: (Node, nat) -> (Outcome<Option<Node>>, nat))
      ensures this.lexer == lexer && feedback == fb && this.recurse == recurse
      ensures this.hasScanner == hasScanner && this.scan == scan && cursor == 0
    {
      this.lexer := lexer;
      feedback := fb;
      this.recurse := recurse;
      this.hasScanner := hasScanner;
      this.scan := scan;
      cursor := 0;
    }

    /** hasNext: move the cursor to the lexer's position; more nodes unless the page is at EOF there. */
    method HasNext() returns (r: bool)
      modifies this
      ensures cursor == lexer.position
      ensures r <==> lexer.characterAt(lexer.position).Some?
    {
      cursor := lexer.position;
      r := lexer.characterAt(cursor).Some?;
    }

    /**
     * next: the lexed node, or the scanner's result for a start tag with a
     * scanner when recursing; a wrapped exception is reported to the
     * feedback before it is thrown.
     */
    method Next() returns (r: Outcome<Option<Node>>)
      modifies lexer, feedback
      ensures (r, lexer.position) == NextOutcome(lexer, recurse, hasScanner, scan, old(lexer.position))
      ensures var lexed := lexer.lex(old(lexer.position)).0;
        var wrappedNow := r.Thrown? && r.failure.ParserFailure? && r.failure.cause.Some? &&
          ((lexed.Thrown? && lexed.failure.OtherFailure?) ||
           (lexed.Done? && ShouldScan(lexed.value, recurse, hasScanner) &&
            scan(lexed.value.value, lexer.lex(old(lexer.position)).1).0.Thrown? &&
            scan(lexed.value.value, lexer.lex(old(lexer.position)).1).0.failure.OtherFailure?));
        feedback.errors == old(feedback.errors) + (if wrappedNow then [(r.failure.message, r.failure)] else [])
    {
      var (lexed, p1) := lexer.lex(lexer.position);
      lexer.position := p1;
      var failure: Failure;
      match lexed {
        case Done(ret) =>
          if ret.Some? && ret.value.Tag? && !IsEndTag(ret.value.attributes) {
            var scanner := recurse && hasScanner(ret.value);
            if scanner {
              var (scanned, p2) := scan(ret.value, lexer.position);
              lexer.position := p2;
              match scanned {
                case Done(n) => return Done(n);
                case Thrown(f) => failure := f;
              }
            } else {
              return Done(ret);
            }
          } else {
            return Done(ret);
          }
        case Thrown(f) => failure := f;
      }
      if failure.ParserFailure? {
        return Thrown(failure);
      }
      var message := WrapMessage(lexer.url, lexer.lineNumber(lexer.position), lexer.lineText(lexer.position));
      var ex := ParserFailure(message, Some(failure.name));
      feedback.errors := feedback.errors + [(message, ex)];
      r := Thrown(ex);
    }
  }
  /** What java.util.Iterator's next() gives back: a node, or an unchecked RuntimeException around a cause. */
  datatype Unchecked<T> = Returned(value: T) | RuntimeException(cause: Failure)

  /** Iter's wrapping: a ParserException leaves the adapter inside a RuntimeException. */
  function Rethrown<T>(o: Outcome<T>): (r: Unchecked<T>)
    ensures r.Returned? <==> o.Done?
    ensures o.Done? ==> r.value == o.value
    ensures o.Thrown? ==> r.cause == o.failure
  {
    match o
    case Done(v) => Returned(v)
    case Thrown(f) => RuntimeException(f)
  }

  /** IteratorImpl.Iter: the java.util.Iterator view of an IteratorImpl. */
  class Iter {
    const delegate: IteratorImpl

    constructor (delegate: IteratorImpl)
      ensures this.delegate == delegate
    {
      this.delegate := delegate;
    }

    /** next(): the delegate's node, or its exception, which is always a ParserException, inside a RuntimeException. */
    method Next() returns (r: Unchecked<Option<Node>>)
      modifies delegate.lexer, delegate.feedback
      ensures r == Rethrown(NextOutcome(delegate.lexer, delegate.recurse, delegate.hasScanner, delegate.scan,
                                        old(delegate.lexer.position)).0)
      ensures r.RuntimeException? ==> r.cause.ParserFailure?
    {
      var p := delegate.lexer.position;
      var o := delegate.Next();
      if o.Thrown? {
        ParserExceptionPassesThrough(delegate.lexer, delegate.recurse, delegate.hasScanner, delegate.scan, p);
      }
      r := Rethrown(o);
    }

    /**
     * hasNext(): the delegate's answer. The delegate's hasNext does not
     * throw here, so the RuntimeException branch never arises.
     */
    method HasNext() returns (r: bool)
      modifies delegate
      ensures delegate.cursor == delegate.lexer.position
      ensures r <==> delegate.lexer.characterAt(delegate.lexer.position).Some?
    {
      r := delegate.HasNext();
    }
  }
}
