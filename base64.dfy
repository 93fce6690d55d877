/**
 * Base64 in the alphabet of section 4 of RFC 4648, with `=` padding: what the platform's
 * `btoa` produces from a binary string, and the forgiving reading by which `atob` turns it back.
 */
module Base64 {
  import opened Wrappers
  import opened Bytes

  predicate IsAlphabet(c: char) {
    ('A' <= c <= 'Z') || ('a' <= c <= 'z') || ('0' <= c <= '9') || c == '+' || c == '/'
  }

  /** The character of a 6-bit value. */
  function CharOf(i: nat): (c: char)
    requires i < 64
    ensures IsAlphabet(c)
  {
    if i < 26 then ('A' as int + i) as char
    else if i < 52 then ('a' as int + (i - 26)) as char
    else if i < 62 then ('0' as int + (i - 52)) as char
    else if i == 62 then '+'
    else '/'
  }

  /** The 6-bit value of an alphabet character; None for anything else. */
  function ValueOf(c: char): (r: Option<nat>)
    ensures r.Some? <==> IsAlphabet(c)
    ensures r.Some? ==> r.value < 64 && CharOf(r.value) == c
  {
    if 'A' <= c <= 'Z' then Some(c as int - 'A' as int)
    else if 'a' <= c <= 'z' then Some(c as int - 'a' as int + 26)
    else if '0' <= c <= '9' then Some(c as int - '0' as int + 52)
    else if c == '+' then Some(62)
    else if c == '/' then Some(63)
    else None
  }

  lemma ValueOfCharOf(i: nat)
    requires i < 64
    ensures ValueOf(CharOf(i)) == Some(i)
  {
  }

  /** Three bytes as four characters. */
  function Block3(a: byte, b: byte, c: byte): string
  {
    [CharOf(a as int / 4), CharOf((a as int % 4) * 16 + b as int / 16),
     CharOf((b as int % 16) * 4 + c as int / 64), CharOf(c as int % 64)]
  }

  /** A final two bytes: three characters and one `=`. */
  function Block2(a: byte, b: byte): string
  {
    [CharOf(a as int / 4), CharOf((a as int % 4) * 16 + b as int / 16), CharOf((b as int % 16) * 4), '=']
  }

  /** A final single byte: two characters and `==`. */
  function Block1(a: byte): string
  {
    [CharOf(a as int / 4), CharOf((a as int % 4) * 16), '=', '=']
  }

  lemma ShiftMod3(n: nat)
    ensures (n + 3) % 3 == n % 3
  {
  }

  lemma ShiftMod4(n: nat)
    ensures (n + 4) % 4 == n % 4
  {
  }

  /** `btoa` of the binary string whose char codes are `bs`. */
  function Encode(bs: seq<byte>): (s: string)
    ensures |s| % 4 == 0
    ensures |bs| > 0 ==> |s| >= 4
    decreases |bs|
  {
    if |bs| == 0 then ""
    else if |bs| == 1 then Block1(bs[0])
    else if |bs| == 2 then Block2(bs[0], bs[1])
    else
      var rest := Encode(bs[3..]);
      ShiftMod4(|rest|);
      Block3(bs[0], bs[1], bs[2]) + rest
  }

  /**
   * One group of four characters; `last` says whether it ends the input, the only place padding may
   * appear. Bits below the last byte of a padded group are ignored, as `atob` ignores them.
   */
  function DecodeGroup(g: string, last: bool): (r: Option<seq<byte>>)
    requires |g| == 4
    ensures r.Some? ==> 1 <= |r.value| <= 3 && (|r.value| < 3 ==> last)
  {
    var v0, v1, v2, v3 := ValueOf(g[0]), ValueOf(g[1]), ValueOf(g[2]), ValueOf(g[3]);
    if v0.None? || v1.None? then None
    else
      var x := (v0.value * 4 + v1.value / 16) as byte;
      if v2.Some? && v3.Some? then
        Some([x, ((v1.value % 16) * 16 + v2.value / 4) as byte, ((v2.value % 4) * 64 + v3.value) as byte])
      else if last && v2.Some? && g[3] == '=' then
        Some([x, ((v1.value % 16) * 16 + v2.value / 4) as byte])
      else if last && g[2] == '=' && g[3] == '=' then
        Some([x])
      else None
  }

  /** Strict decoding: whole groups of four, padding only at the end. */
  function Decode(s: string): (r: Option<seq<byte>>)
    decreases |s|
  {
    if |s| == 0 then Some([])
    else if |s| < 4 then None
    else
      match DecodeGroup(s[..4], |s| == 4)
      case None => None
      case Some(g) =>
        match Decode(s[4..])
        case None => None
        case Some(rest) => Some(g + rest)
  }

  lemma GroupOfBlock3(a: byte, b: byte, c: byte, last: bool)
    ensures DecodeGroup(Block3(a, b, c), last) == Some([a, b, c])
  {
    var x, y, z := a as int, b as int, c as int;
    var v0, v1, v2, v3 := x / 4, (x % 4) * 16 + y / 16, (y % 16) * 4 + z / 64, z % 64;
    ValueOfCharOf(v0);
    ValueOfCharOf(v1);
    ValueOfCharOf(v2);
    ValueOfCharOf(v3);
    assert v0 * 4 + v1 / 16 == x;
    assert (v1 % 16) * 16 + v2 / 4 == y;
    assert (v2 % 4) * 64 + v3 == z;
  }

  lemma GroupOfBlock2(a: byte, b: byte)
    ensures DecodeGroup(Block2(a, b), true) == Some([a, b])
  {
    var x, y := a as int, b as int;
    var v0, v1, v2 := x / 4, (x % 4) * 16 + y / 16, (y % 16) * 4;
    ValueOfCharOf(v0);
    ValueOfCharOf(v1);
    ValueOfCharOf(v2);
    assert v0 * 4 + v1 / 16 == x;
    assert (v1 % 16) * 16 + v2 / 4 == y;
  }

  lemma GroupOfBlock1(a: byte)
    ensures DecodeGroup(Block1(a), true) == Some([a])
  {
    var x := a as int;
    var v0, v1 := x / 4, (x % 4) * 16;
    ValueOfCharOf(v0);
    ValueOfCharOf(v1);
    assert v0 * 4 + v1 / 16 == x;
  }

  /** A leading group that decodes, followed by a rest that decodes, decodes to the concatenation. */
  lemma DecodeCons(g: string, t: string, x: seq<byte>, y: seq<byte>)
    requires |g| == 4 && DecodeGroup(g, |t| == 0) == Some(x) && Decode(t) == Some(y)
    ensures Decode(g + t) == Some(x + y)
  {
    assert (g + t)[..4] == g;
    assert (g + t)[4..] == t;
  }

  lemma {:induction false} DecodeEncode(bs: seq<byte>)
    ensures Decode(Encode(bs)) == Some(bs)
    decreases |bs|
  {
    if |bs| == 1 {
      DecodeEncodeOne(bs);
    } else if |bs| == 2 {
      DecodeEncodeTwo(bs);
    } else if |bs| > 2 {
      var t := Encode(bs[3..]);
      DecodeEncode(bs[3..]);
      DecodeEncodeStep(bs, t);
    }
  }

  lemma DecodeEncodeOne(bs: seq<byte>)
    requires |bs| == 1
    ensures Decode(Encode(bs)) == Some(bs)
  {
    GroupOfBlock1(bs[0]);
    DecodeCons(Block1(bs[0]), "", [bs[0]], []);
    assert Block1(bs[0]) + "" == Encode(bs);
    assert [bs[0]] + [] == bs;
  }

  lemma DecodeEncodeTwo(bs: seq<byte>)
    requires |bs| == 2
    ensures Decode(Encode(bs)) == Some(bs)
  {
    GroupOfBlock2(bs[0], bs[1]);
    DecodeCons(Block2(bs[0], bs[1]), "", [bs[0], bs[1]], []);
    assert Block2(bs[0], bs[1]) + "" == Encode(bs);
    assert [bs[0], bs[1]] + [] == bs;
  }

  /** The first group of a longer encoding decodes to the first three bytes, and the rest is the encoding of the rest. */
  lemma GroupOfEncode(bs: seq<byte>)
    requires |bs| > 2
    ensures var s := Encode(bs);
      |s| >= 4 && s[4..] == Encode(bs[3..]) && DecodeGroup(s[..4], |s| == 4) == Some(bs[..3])
  {
    var g, t := Block3(bs[0], bs[1], bs[2]), Encode(bs[3..]);
    assert Encode(bs) == g + t;
    assert (g + t)[..4] == g && (g + t)[4..] == t;
    GroupOfBlock3(bs[0], bs[1], bs[2], |t| == 0);
    assert bs[..3] == [bs[0], bs[1], bs[2]];
  }

  lemma DecodeEncodeStep(bs: seq<byte>, t: string)
    requires |bs| > 2 && t == Encode(bs[3..])
    requires Decode(t) == Some(bs[3..])
    ensures Decode(Encode(bs)) == Some(bs)
  {
    GroupOfEncode(bs);
    var s := Encode(bs);
    assert Decode(s) == Some(bs[..3] + bs[3..]);
    assert bs[..3] + bs[3..] == bs;
  }

  /** Alphabet characters throughout, except `=` among the last two; none at all unless `padded`. */
  predicate Shaped(s: string, padded: bool) {
    && (forall i :: 0 <= i < |s| - 2 ==> IsAlphabet(s[i]))
    && (forall i :: 0 <= i < |s| ==> IsAlphabet(s[i]) || s[i] == '=')
    && (!padded ==> forall i :: 0 <= i < |s| ==> IsAlphabet(s[i]))
  }

  lemma ShapedPrefix(g: string, t: string, padded: bool)
    requires |g| == 4 && IsAlphabet(g[0]) && IsAlphabet(g[1]) && IsAlphabet(g[2]) && IsAlphabet(g[3])
    requires Shaped(t, padded)
    ensures Shaped(g + t, padded)
  {
    var s := g + t;
    forall i | 4 <= i < |s|
      ensures s[i] == t[i - 4]
    {
    }
  }

  /** A lone padded group. */
  lemma ShapedFinal(g: string)
    requires |g| == 4 && IsAlphabet(g[0]) && IsAlphabet(g[1]) && (IsAlphabet(g[2]) || g[2] == '=') && g[3] == '='
    ensures Shaped(g, true)
  {
  }

  lemma ShapedBlock1(a: byte)
    ensures Shaped(Block1(a), true)
  {
    var g := Block1(a);
    assert IsAlphabet(g[0]) && IsAlphabet(g[1]);
    ShapedFinal(g);
  }

  lemma ShapedBlock2(a: byte, b: byte)
    ensures Shaped(Block2(a, b), true)
  {
    var g := Block2(a, b);
    assert IsAlphabet(g[0]) && IsAlphabet(g[1]) && IsAlphabet(g[2]);
    ShapedFinal(g);
  }

  /** Every character of an encoding is in the alphabet, except a padding of at most two `=` at the end. */
  lemma {:induction false} EncodeShape(bs: seq<byte>)
    ensures Shaped(Encode(bs), |bs| % 3 != 0)
    decreases |bs|
  {
    if |bs| == 1 {
      ShapedBlock1(bs[0]);
      assert Encode(bs) == Block1(bs[0]);
    } else if |bs| == 2 {
      ShapedBlock2(bs[0], bs[1]);
      assert Encode(bs) == Block2(bs[0], bs[1]);
    } else if |bs| >= 3 {
      EncodeShape(bs[3..]);
      var g := Block3(bs[0], bs[1], bs[2]);
      assert Encode(bs) == g + Encode(bs[3..]);
      ShiftMod3(|bs| - 3);
      ShapedPrefix(g, Encode(bs[3..]), |bs| % 3 != 0);
    }
  }

  /** Number of `=` characters that end an encoding. */
  function PadCount(s: string): nat
  {
    if |s| >= 2 && s[|s| - 1] == '=' && s[|s| - 2] == '=' then 2
    else if |s| >= 1 && s[|s| - 1] == '=' then 1
    else 0
  }

  /** How a text of at least two characters ends, for an input length `r` modulo three. */
  predicate EndsFor(s: string, r: nat) {
    && |s| >= 2
    && (r == 0 ==> IsAlphabet(s[|s| - 1]) && IsAlphabet(s[|s| - 2]))
    && (r == 1 ==> s[|s| - 1] == '=' && s[|s| - 2] == '=')
    && (r == 2 ==> s[|s| - 1] == '=' && IsAlphabet(s[|s| - 2]))
  }

  lemma EndsForPrefix(g: string, t: string, r: nat)
    requires EndsFor(t, r)
    ensures EndsFor(g + t, r)
  {
    var s := g + t;
    assert s[|s| - 1] == t[|t| - 1] && s[|s| - 2] == t[|t| - 2];
  }

  /** How an encoding ends, by the length of its input modulo three. */
  lemma {:induction false} EncodeEnd(bs: seq<byte>)
    ensures |bs| > 0 ==> EndsFor(Encode(bs), |bs| % 3)
    decreases |bs|
  {
    if |bs| > 3 {
      EncodeEnd(bs[3..]);
      ShiftMod3(|bs| - 3);
      EndsForPrefix(Block3(bs[0], bs[1], bs[2]), Encode(bs[3..]), |bs| % 3);
    } else if |bs| == 3 {
      assert Encode(bs) == Block3(bs[0], bs[1], bs[2]) + "";
    }
  }

  /** The encoding of `n` bytes carries no padding when three divides `n`, else `3 - n % 3` characters of it. */
  lemma PadCountOfEncode(bs: seq<byte>)
    ensures PadCount(Encode(bs)) == if |bs| % 3 == 0 then 0 else 3 - |bs| % 3
  {
    if |bs| == 0 {
      assert Encode(bs) == "";
    } else {
      EncodeEnd(bs);
      PadCountOfEnding(Encode(bs), |bs| % 3);
    }
  }

  lemma PadCountOfEnding(s: string, r: nat)
    requires r < 3 && EndsFor(s, r)
    ensures PadCount(s) == if r == 0 then 0 else 3 - r
  {
  }

  /** Four characters per started group of three bytes. */
  lemma {:induction false} EncodeLength(bs: seq<byte>)
    ensures |Encode(bs)| == 4 * ((|bs| + 2) / 3)
    decreases |bs|
  {
    if |bs| > 2 {
      EncodeLength(bs[3..]);
      assert (|bs| + 2) / 3 == (|bs[3..]| + 2) / 3 + 1;
    }
  }

  /**
   * Three quarters of an encoding's length is the byte count plus the padding: the estimate
   * `floor(len * 3 / 4)` is exact exactly when the encoding carries no padding.
   */
  lemma SizeEstimate(bs: seq<byte>)
    ensures |Encode(bs)| * 3 / 4 == |bs| + PadCount(Encode(bs))
    ensures |Encode(bs)| * 3 / 4 == |bs| <==> PadCount(Encode(bs)) == 0
  {
    EncodeLength(bs);
    PadCountOfEncode(bs);
    EstimateArith(|bs|, |Encode(bs)|, PadCount(Encode(bs)));
  }

  lemma EstimateArith(n: nat, len: nat, pad: nat)
    requires len == 4 * ((n + 2) / 3) && pad == if n % 3 == 0 then 0 else 3 - n % 3
    ensures len * 3 / 4 == n + pad
  {
    var k := (n + 2) / 3;
    assert len * 3 / 4 == 3 * k;
    assert n == 3 * (n / 3) + n % 3;
    if n % 3 == 0 {
      assert k == n / 3;
    } else {
      assert k == n / 3 + 1;
    }
  }

  /** `btoa(s)` for a binary string (every char code below 256). */
  function Btoa(s: string): (r: string)
    requires IsLatin1(s)
    ensures r == Encode(CharCodes(s))
  {
    Encode(CharCodes(s))
  }

  // ------------------------------------------------------------------ forgiving-base64, as `atob` reads

  /** The ASCII white space `atob` skips: tab, line feed, form feed, carriage return and space. */
  predicate IsAsciiWhite(c: char) {
    c == '\t' || c == '\n' || c == '\U{000C}' || c == '\r' || c == ' '
  }

  /** The text with its ASCII white space removed, the other characters kept in order. */
  function StripWhite(s: string): (r: string)
    ensures |r| <= |s|
    ensures forall i :: 0 <= i < |r| ==> !IsAsciiWhite(r[i])
    ensures forall c :: c in r <==> c in s && !IsAsciiWhite(c)
    ensures (forall i :: 0 <= i < |s| ==> !IsAsciiWhite(s[i])) ==> r == s
    decreases |s|
  {
    if |s| == 0 then ""
    else
      var rest := StripWhite(s[1..]);
      assert forall c :: c in s <==> c == s[0] || c in s[1..];
      (if IsAsciiWhite(s[0]) then "" else [s[0]]) + rest
  }

  predicate AllAlphabet(u: string) {
    forall i :: 0 <= i < |u| ==> IsAlphabet(u[i])
  }

  /** A text whose length four divides loses the one or two `=` it ends with. */
  function Unpadded(t: string): (u: string)
    ensures |u| <= |t| && u == t[..|u|]
  {
    if |t| % 4 == 0 then t[..|t| - PadCount(t)] else t
  }

  /** The `=` padding that completes the last group. */
  function Repad(u: string): string {
    if |u| % 4 == 2 then u + "==" else if |u| % 4 == 3 then u + "=" else u
  }

  /**
   * The forgiving-base64 decode `atob` runs: skip white space, drop a final padding, and decode
   * what is left unless its length leaves 1 modulo four or it holds a character outside the
   * alphabet (a `=` in the middle included). The bits below the last byte are ignored.
   */
  function ForgivingDecode(s: string): (r: Option<seq<byte>>)
    ensures var u := Unpadded(StripWhite(s));
      (r.Some? <==> |u| % 4 != 1 && AllAlphabet(u)) &&
      (r.Some? ==> |r.value| == |u| * 3 / 4)
  {
    var u := Unpadded(StripWhite(s));
    if |u| % 4 == 1 || !AllAlphabet(u) then None
    else
      RepadDecodes(u);
      Decode(Repad(u))
  }

  /** Alphabet text of a length other than 1 modulo four always decodes once its padding is put back. */
  lemma {:induction false} RepadDecodes(u: string)
    requires |u| % 4 != 1 && AllAlphabet(u)
    ensures Decode(Repad(u)).Some? && |Decode(Repad(u)).value| == |u| * 3 / 4
    decreases |u|
  {
    if |u| > 4 {
      var rest := u[4..];
      assert AllAlphabet(rest) by {
        forall i | 0 <= i < |rest| ensures IsAlphabet(rest[i]) {
          assert rest[i] == u[i + 4];
        }
      }
      RepadDecodes(rest);
      RepadStep(u);
    } else if |u| > 0 {
      RepadFinal(u);
    }
  }

  /** A leading group of four alphabet characters adds three bytes to what the rest decodes to. */
  lemma RepadStep(u: string)
    requires |u| > 4 && AllAlphabet(u)
    requires Decode(Repad(u[4..])).Some? && |Decode(Repad(u[4..])).value| == |u[4..]| * 3 / 4
    ensures Decode(Repad(u)).Some? && |Decode(Repad(u)).value| == |u| * 3 / 4
  {
    var g, rest := u[..4], u[4..];
    RepadCons(u);
    var x := DecodeGroup(g, false);
    assert x.Some? && |x.value| == 3 by {
      assert IsAlphabet(g[0]) && IsAlphabet(g[1]) && IsAlphabet(g[2]) && IsAlphabet(g[3]);
    }
    DecodeCons(g, Repad(rest), x.value, Decode(Repad(rest)).value);
    assert |u| * 3 / 4 == |rest| * 3 / 4 + 3;
  }

  /** The last two, three or four alphabet characters are one group once repadded. */
  lemma RepadFinal(u: string)
    requires 2 <= |u| <= 4 && AllAlphabet(u)
    ensures Decode(Repad(u)).Some? && |Decode(Repad(u)).value| == |u| * 3 / 4
  {
    var v := Repad(u);
    assert |v| == 4 && v[..4] == v && v[4..] == "";
    assert IsAlphabet(v[0]) && IsAlphabet(v[1]);
    if |u| == 4 {
      assert IsAlphabet(v[2]) && IsAlphabet(v[3]);
    } else if |u| == 3 {
      assert IsAlphabet(v[2]) && v[3] == '=';
    } else {
      assert v[2] == '=' && v[3] == '=';
    }
  }

  lemma RepadCons(u: string)
    requires |u| > 4
    ensures Repad(u) == u[..4] + Repad(u[4..])
  {
    assert |u| % 4 == |u[4..]| % 4;
    assert u == u[..4] + u[4..];
  }

  /** `atob(s)`: the binary string whose char codes are the forgiving decoding; None where `atob` throws. */
  function Atob(s: string): (r: Option<string>)
    ensures r.Some? <==> ForgivingDecode(s).Some?
    ensures r.Some? ==> IsLatin1(r.value) && CharCodes(r.value) == ForgivingDecode(s).value
  {
    match ForgivingDecode(s)
    case None => None
    case Some(bs) =>
      CharCodesOfLatin1(bs);
      Some(Latin1(bs))
  }

  /** An encoding holds no white space, and dropping its padding leaves alphabet text that repads to it. */
  lemma UnpaddedEncode(bs: seq<byte>)
    ensures var s := Encode(bs);
      StripWhite(s) == s && AllAlphabet(Unpadded(s)) && |Unpadded(s)| % 4 != 1 && Repad(Unpadded(s)) == s
  {
    var s := Encode(bs);
    EncodeShape(bs);
    assert forall i :: 0 <= i < |s| ==> !IsAsciiWhite(s[i]);
    if |bs| > 0 {
      EncodeEnd(bs);
      PadCountOfEnding(s, |bs| % 3);
      UnpaddedEnding(s, |bs| % 3);
    }
  }

  lemma UnpaddedEnding(s: string, r: nat)
    requires r < 3 && EndsFor(s, r) && |s| % 4 == 0 && PadCount(s) == (if r == 0 then 0 else 3 - r)
    requires forall i :: 0 <= i < |s| - 2 ==> IsAlphabet(s[i])
    ensures AllAlphabet(Unpadded(s)) && |Unpadded(s)| % 4 != 1 && Repad(Unpadded(s)) == s
  {
    var u := Unpadded(s);
    assert forall i :: 0 <= i < |u| ==> u[i] == s[i];
    if r == 1 {
      assert s == u + "==";
    } else if r == 2 {
      assert s == u + "=";
    }
  }

  /** `atob` reads every encoding back as its bytes. */
  lemma ForgivingEncode(bs: seq<byte>)
    ensures ForgivingDecode(Encode(bs)) == Some(bs)
  {
    UnpaddedEncode(bs);
    DecodeEncode(bs);
  }

  /** `atob` skips white space wherever it stands. */
  lemma ForgivingSkipsWhite(s: string)
    ensures ForgivingDecode(s) == ForgivingDecode(StripWhite(s))
  {
  }

  /** `atob` also reads an encoding with its padding left off, as `QQ` for `QQ==`. */
  lemma ForgivingUnpadded(bs: seq<byte>)
    ensures ForgivingDecode(Unpadded(Encode(bs))) == Some(bs)
  {
    var s := Encode(bs);
    UnpaddedEncode(bs);
    var u := Unpadded(s);
    assert forall i :: 0 <= i < |u| ==> !IsAsciiWhite(u[i]);
    assert Unpadded(u) == u by {
      if |u| % 4 == 0 {
        assert Repad(u) == u;
        assert PadCount(u) == 0;
      }
    }
    DecodeEncode(bs);
  }

  /** `atob("QQ")` and `atob("QQ==")` are both the one-character string `A`, which strict decoding refuses for `QQ`. */
  lemma AtobWithoutPadding()
    ensures Atob("QQ") == Some("A") && Atob("QQ==") == Some("A") && Decode("QQ") == None
  {
    var bs: seq<byte> := [65];
    EncodeOneA();
    ForgivingEncode(bs);
    ForgivingUnpadded(bs);
    assert Unpadded("QQ==") == "QQ";
    assert Latin1(bs) == "A";
  }

  lemma EncodeOneA()
    ensures Encode([65 as byte]) == "QQ=="
  {
    assert Encode([65 as byte]) == Block1(65);
  }

  lemma AtobBtoa(s: string)
    requires IsLatin1(s)
    ensures Atob(Btoa(s)) == Some(s)
  {
    ForgivingEncode(CharCodes(s));
    var bs := CharCodes(s);
    assert Latin1(bs) == s;
  }
}
