/** Byte strings and the newline that frames every line protocol here. */
module Bytes {
  import opened Lists

  newtype Byte = b: int | 0 <= b < 256

  const NEWLINE: Byte := 10

  /** Index of the first newline, or the length when there is none. */
  function FirstNewline(s: seq<Byte>): (i: nat)
    ensures i <= |s|
    ensures i < |s| ==> s[i] == NEWLINE
    ensures NEWLINE !in s[..i]
  {
    FirstIndex(s, (b: Byte) => b == NEWLINE)
  }

  /** A newline-free prefix followed by a newline pins down the first newline. */
  lemma FirstNewlineAt(s: seq<Byte>, i: nat)
    requires i < |s| && s[i] == NEWLINE && NEWLINE !in s[..i]
    ensures FirstNewline(s) == i
  {
    var k := FirstNewline(s);
    assert forall j :: 0 <= j < i ==> s[j] in s[..i];
    assert forall j :: 0 <= j < k ==> s[j] in s[..k];
  }
}
