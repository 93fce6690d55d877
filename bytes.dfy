/** Bytes and the "binary string" view JavaScript uses for them (one char code per byte). */
module Bytes {

  newtype byte = x: int | 0 <= x < 256

  /** `String.fromCharCode(b)` for every byte, in order. */
  function Latin1(bs: seq<byte>): (s: string)
    ensures |s| == |bs|
    ensures forall i :: 0 <= i < |bs| ==> s[i] as int == bs[i] as int
  {
    if bs == [] then [] else [(bs[0] as int) as char] + Latin1(bs[1..])
  }

  /** True iff every char code of `s` fits in one byte (what `btoa` demands). */
  predicate IsLatin1(s: string) {
    forall i :: 0 <= i < |s| ==> s[i] as int < 256
  }

  /** `s.charCodeAt(i)` for every position, as bytes. */
  function CharCodes(s: string): (bs: seq<byte>)
    requires IsLatin1(s)
    ensures |bs| == |s|
    ensures forall i :: 0 <= i < |s| ==> bs[i] as int == s[i] as int
  {
    seq(|s|, i requires 0 <= i < |s| => s[i] as int as byte)
  }

  lemma CharCodesOfLatin1(bs: seq<byte>)
    ensures IsLatin1(Latin1(bs))
    ensures CharCodes(Latin1(bs)) == bs
  {
  }
}
