/**
 * Option and Result, standing for Java's nullable references and thrown
 * exceptions, and facts about sequences the proofs share.
 */
module Wrappers {

  /** `None` stands for a Java `null`. */
  datatype Option<+T> = None | Some(value: T)

  /** `Err` stands for an exception that ends the Java call. */
  datatype Result<+T, +E> = Ok(value: T) | Err(error: E)

  /** The unchecked Java exceptions the modelled code can raise. */
  datatype JavaException = NullPointerException | StringIndexOutOfBoundsException

  /** Joining sequences is associative. */
  lemma AppendAssoc<T>(a: seq<T>, b: seq<T>, c: seq<T>)
    ensures (a + b) + c == a + (b + c)
  {
  }

  /** A sequence is its prefix up to i followed by the rest. */
  lemma SplitAt<T>(s: seq<T>, i: nat)
    requires i <= |s|
    ensures s[..i] + s[i..] == s
  {
  }

  /** The prefix of the whole length is the sequence itself. */
  lemma TakeAll<T>(s: seq<T>)
    ensures s[..|s|] == s
  {
  }
}
