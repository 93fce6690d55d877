/**
 * The worker's small helpers: random tokens in lowercase hex, the PBKDF2 password-hash text and its
 * verification (with the legacy salted SHA-256 form), the constant-time string comparison, and the
 * structural checks of the signed-token verifier. The random bytes, PBKDF2, SHA-256, HMAC and the
 * base64/JSON decoding of a token are parameters: only what the code builds around them is modelled.
 */
module Utils {
  import opened Wrappers
  import opened Json
  import opened Bytes
  import opened Text

  // ---------------------------------------------------------------------------------------------
  // Lowercase hex

  predicate IsLowerHex(c: char) {
    '0' <= c <= '9' || 'a' <= c <= 'f'
  }

  function HexDigit(d: nat): (c: char)
    requires d < 16
    ensures IsLowerHex(c)
  {
    if d < 10 then ('0' as int + d) as char else ('a' as int + d - 10) as char
  }

  function HexValue(c: char): (r: Option<nat>)
    ensures r.Some? <==> IsLowerHex(c)
    ensures r.Some? ==> r.value < 16 && HexDigit(r.value) == c
  {
    if '0' <= c <= '9' then Some(c as int - '0' as int)
    else if 'a' <= c <= 'f' then Some(c as int - 'a' as int + 10)
    else None
  }

  lemma HexValueOfDigit(d: nat)
    requires d < 16
    ensures HexValue(HexDigit(d)) == Some(d)
  {
  }

  /** `b.toString(16).padStart(2, '0')`. */
  function HexByte(b: byte): (s: string)
    ensures |s| == 2 && IsLowerHex(s[0]) && IsLowerHex(s[1])
  {
    [HexDigit(b as int / 16), HexDigit(b as int % 16)]
  }

  /** `Array.from(bytes, b => hex2(b)).join('')`. */
  function Hex(bs: seq<byte>): (s: string)
    ensures |s| == 2 * |bs|
    ensures forall i :: 0 <= i < |s| ==> IsLowerHex(s[i])
  {
    if bs == [] then "" else HexByte(bs[0]) + Hex(bs[1..])
  }

  /** Reading lowercase hex back into bytes, two digits per byte. */
  function Unhex(s: string): (r: Option<seq<byte>>)
    decreases |s|
  {
    if s == "" then Some([])
    else if |s| == 1 then None
    else match (HexValue(s[0]), HexValue(s[1]), Unhex(s[2..]))
      case (Some(hi), Some(lo), Some(rest)) => Some([(16 * hi + lo) as byte] + rest)
      case _ => None
  }

  /** The hex text of a byte sequence determines the bytes. */
  lemma {:induction false} UnhexHex(bs: seq<byte>)
    ensures Unhex(Hex(bs)) == Some(bs)
  {
    if bs != [] {
      var s := Hex(bs);
      assert s == HexByte(bs[0]) + Hex(bs[1..]);
      assert s[2..] == Hex(bs[1..]);
      HexValueOfDigit(bs[0] as int / 16);
      HexValueOfDigit(bs[0] as int % 16);
      UnhexHex(bs[1..]);
      assert [bs[0]] + bs[1..] == bs;
    }
  }

  lemma HexInjective(a: seq<byte>, b: seq<byte>)
    ensures Hex(a) == Hex(b) <==> a == b
  {
    UnhexHex(a);
    UnhexHex(b);
  }

  /** `generateToken(n)` where `random` holds the `n` bytes `crypto.getRandomValues` filled in. */
  function GenerateToken(random: seq<byte>): (t: string)
    ensures |t| == 2 * |random|
    ensures forall i :: 0 <= i < |t| ==> IsLowerHex(t[i])
    ensures Unhex(t) == Some(random)
  {
    UnhexHex(random);
    Hex(random)
  }

  /** The default token length of `generateToken()`. */
  const DefaultTokenBytes: nat := 32

  // ---------------------------------------------------------------------------------------------
  // Constant-time comparison

  /**
   * JavaScript's `^` and `|` on the non-negative char codes, bit by bit from the lowest. Char codes
   * are far below 2^31, so the 32-bit signed operators give the same values.
   */
  function BitXor(a: nat, b: nat): nat
    decreases a + b
  {
    if a == 0 && b == 0 then 0 else 2 * BitXor(a / 2, b / 2) + (a % 2 + b % 2) % 2
  }

  function BitOr(a: nat, b: nat): nat
    decreases a + b
  {
    if a == 0 && b == 0 then 0 else 2 * BitOr(a / 2, b / 2) + (if a % 2 == 1 || b % 2 == 1 then 1 else 0)
  }

  lemma {:induction false} XorZero(a: nat, b: nat)
    ensures BitXor(a, b) == 0 <==> a == b
    decreases a + b
  {
    if !(a == 0 && b == 0) {
      XorZero(a / 2, b / 2);
    }
  }

  lemma {:induction false} OrZero(a: nat, b: nat)
    ensures BitOr(a, b) == 0 <==> a == 0 && b == 0
    decreases a + b
  {
    if !(a == 0 && b == 0) {
      OrZero(a / 2, b / 2);
    }
  }

  /**
   * `timingSafeEqual(a, b)`: false at once on different lengths, otherwise the OR of the XORs of all
   * char codes, compared with zero.
   */
  method TimingSafeEqual(a: string, b: string) returns (equal: bool)
    ensures equal <==> a == b
  {
    if |a| != |b| {
      return false;
    }
    var result: nat := 0;
    for i := 0 to |a|
      invariant result == 0 <==> a[..i] == b[..i]
    {
      XorZero(a[i] as int, b[i] as int);
      OrZero(result, BitXor(a[i] as int, b[i] as int));
      assert a[..i + 1] == a[..i] + [a[i]] && b[..i + 1] == b[..i] + [b[i]];
      result := BitOr(result, BitXor(a[i] as int, b[i] as int));
    }
    assert a[..|a|] == a && b[..|b|] == b;
    equal := result == 0;
  }

  // ---------------------------------------------------------------------------------------------
  // Password hashes

  /** The hash primitives of `crypto.subtle`, left abstract. */
  datatype Crypto = Crypto(
    /** PBKDF2-SHA-256 of (password, salt, iterations), 256 bits. */
    pbkdf2: (string, string, nat) -> seq<byte>,
    /** SHA-256 of the UTF-8 text. */
    sha256: string -> seq<byte>)

  const Iterations: nat := 100000

  /** `pbkdf2:100000:<salt>:<hex digest>`. */
  function HashWithSalt(crypto: Crypto, password: string, salt: string): string {
    "pbkdf2:100000:" + salt + ":" + Hex(crypto.pbkdf2(password, salt, Iterations))
  }

  /** `salt || generateToken(16)`: an empty or absent salt is replaced by a generated one. */
  function ActualSalt(salt: Option<string>, random: seq<byte>): (s: string)
    requires |random| == 16
    ensures s != ""
    ensures !Present(salt) ==> ':' !in s
  {
    if Present(salt) then salt.value
    else
      var t := GenerateToken(random);
      assert !IsLowerHex(':');
      t
  }

  /** `hashPassword(password, salt)`, with the 16 random bytes of the default salt as a parameter. */
  function HashPassword(crypto: Crypto, password: string, salt: Option<string>, random: seq<byte>): string
    requires |random| == 16
  {
    HashWithSalt(crypto, password, ActualSalt(salt, random))
  }

  /** The stored text has four colon-separated fields: tag, iteration count, salt and digest. */
  lemma HashFields(crypto: Crypto, password: string, salt: string)
    requires ':' !in salt
    ensures StartsWith(HashWithSalt(crypto, password, salt), "pbkdf2:")
    ensures Split(HashWithSalt(crypto, password, salt), ':')
         == ["pbkdf2", "100000", salt, Hex(crypto.pbkdf2(password, salt, Iterations))]
  {
    var hex := Hex(crypto.pbkdf2(password, salt, Iterations));
    var h := HashWithSalt(crypto, password, salt);
    assert ':' !in hex by {
      assert !IsLowerHex(':');
    }
    assert h == "pbkdf2" + [':'] + ("100000" + [':'] + (salt + [':'] + hex));
    assert h[..7] == "pbkdf2:";
    SplitWithout(hex, ':');
    SplitAfterFirst(salt, hex, ':');
    SplitAfterFirst("100000", salt + [':'] + hex, ':');
    SplitAfterFirst("pbkdf2", "100000" + [':'] + (salt + [':'] + hex), ':');
  }

  /** `verifyPassword(password, hash)`, with `timingSafeEqual` read as its specification, text equality. */
  predicate Verified(crypto: Crypto, password: string, hash: string, random: seq<byte>)
    requires |random| == 16
  {
    if StartsWith(hash, "pbkdf2:") then
      var parts := Split(hash, ':');
      |parts| == 4 && HashPassword(crypto, password, Some(parts[2]), random) == hash
    else
      var salt := Split(hash, ':')[0];
      salt + ":" + Hex(crypto.sha256(salt + password)) == hash
  }

  /** `verifyPassword`: dispatch on the `pbkdf2:` prefix, re-hash, compare in constant time. */
  method VerifyPassword(crypto: Crypto, password: string, hash: string, random: seq<byte>) returns (ok: bool)
    requires |random| == 16
    ensures ok == Verified(crypto, password, hash, random)
  {
    if StartsWith(hash, "pbkdf2:") {
      var parts := Split(hash, ':');
      if |parts| != 4 {
        return false;
      }
      ok := TimingSafeEqual(HashPassword(crypto, password, Some(parts[2]), random), hash);
    } else {
      var salt := Split(hash, ':')[0];
      ok := TimingSafeEqual(salt + ":" + Hex(crypto.sha256(salt + password)), hash);
    }
  }

  /**
   * A hash made by `hashPassword` accepts exactly the passwords that derive the same PBKDF2 bits
   * under its salt; in particular it accepts the password it was made from.
   */
  lemma VerifyMeansSameDerivation(crypto: Crypto, password: string, salt: Option<string>, random: seq<byte>,
                                  attempt: string, random': seq<byte>)
    requires |random| == 16 && |random'| == 16
    requires !Present(salt) || ':' !in salt.value
    ensures var s := ActualSalt(salt, random);
      Verified(crypto, attempt, HashPassword(crypto, password, salt, random), random')
      <==> crypto.pbkdf2(attempt, s, Iterations) == crypto.pbkdf2(password, s, Iterations)
  {
    var s := ActualSalt(salt, random);
    HashFields(crypto, password, s);
    HashInjectiveInDigest(crypto, attempt, password, s);
  }

  lemma HashInjectiveInDigest(crypto: Crypto, p: string, q: string, salt: string)
    ensures HashWithSalt(crypto, p, salt) == HashWithSalt(crypto, q, salt)
        <==> crypto.pbkdf2(p, salt, Iterations) == crypto.pbkdf2(q, salt, Iterations)
  {
    var hp, hq := Hex(crypto.pbkdf2(p, salt, Iterations)), Hex(crypto.pbkdf2(q, salt, Iterations));
    var prefix := "pbkdf2:100000:" + salt + ":";
    assert HashWithSalt(crypto, p, salt) == prefix + hp;
    assert HashWithSalt(crypto, q, salt) == prefix + hq;
    if prefix + hp == prefix + hq {
      assert hp == (prefix + hp)[|prefix|..];
    }
    HexInjective(crypto.pbkdf2(p, salt, Iterations), crypto.pbkdf2(q, salt, Iterations));
  }

  /**
   * A `pbkdf2:` hash is accepted only when it has four fields, a non-empty salt (an empty one is
   * replaced by a generated salt, which can never reproduce the stored text) and is the hash of the
   * attempt under that salt.
   */
  lemma AcceptedPbkdf2Shape(crypto: Crypto, password: string, hash: string, random: seq<byte>)
    requires |random| == 16
    requires StartsWith(hash, "pbkdf2:") && Verified(crypto, password, hash, random)
    ensures |Split(hash, ':')| == 4 && Split(hash, ':')[2] != ""
    ensures hash == HashWithSalt(crypto, password, Split(hash, ':')[2])
  {
    var parts := Split(hash, ':');
    if parts[2] == "" {
      var generated := GenerateToken(random);
      assert ':' !in generated by {
        assert !IsLowerHex(':');
      }
      HashFields(crypto, password, generated);
      assert false;
    }
  }

  /** A legacy `<salt>:<hex sha256(salt + password)>` hash accepts its own password. */
  lemma LegacyRoundTrip(crypto: Crypto, password: string, salt: string, random: seq<byte>)
    requires |random| == 16
    requires ':' !in salt && salt != "pbkdf2"
    ensures Verified(crypto, password, salt + ":" + Hex(crypto.sha256(salt + password)), random)
  {
    var hex := Hex(crypto.sha256(salt + password));
    var h := salt + ":" + hex;
    assert h == salt + [':'] + hex;
    SplitAfterFirst(salt, hex, ':');
    LegacyNotTagged(salt, hex);
  }

  /** A colon-free salt other than `pbkdf2` never makes a legacy hash look like a PBKDF2 one. */
  lemma LegacyNotTagged(salt: string, rest: string)
    requires ':' !in salt && salt != "pbkdf2"
    ensures !StartsWith(salt + [':'] + rest, "pbkdf2:")
  {
    var h := salt + [':'] + rest;
    if |h| >= 7 {
      if |salt| < 6 {
        assert h[|salt|] == ':' != "pbkdf2:"[|salt|];
        assert h[..7][|salt|] != "pbkdf2:"[|salt|];
      } else if |salt| == 6 {
        assert h[..6] == salt;
        assert h[..7][..6] != "pbkdf2:"[..6];
      } else {
        assert h[..7][6] == salt[6] != ':';
      }
    }
  }

  // ---------------------------------------------------------------------------------------------
  // Signed tokens

  /** What `verifyToken` does through `crypto.subtle` and `atob`/`JSON.parse`, left abstract. */
  datatype Signer = Signer(
    /** HMAC verification of (secret, signed data, base64 signature); `Err` when `atob` throws. */
    verify: (string, string, string) -> Result<bool, string>,
    /** `JSON.parse(atob(part))`; `Err` when either throws. */
    decodePayload: string -> Result<Json, string>)

  predicate IsDecimal(s: string) {
    |s| > 0 && forall i :: 0 <= i < |s| ==> '0' <= s[i] <= '9'
  }

  /** The number a run of decimal digits denotes. */
  function DecimalValue(s: string): nat
    requires forall i :: 0 <= i < |s| ==> '0' <= s[i] <= '9'
    decreases |s|
  {
    if |s| == 0 then 0 else 10 * DecimalValue(s[..|s| - 1]) + (s[|s| - 1] as int - '0' as int)
  }

  /**
   * `Number(s)` for texts: white space trimmed, the empty text is 0, an optionally signed run of
   * decimal digits is its value; None stands for NaN.
   */
  function TextToNumber(s: string): Option<int> {
    Numeral(Trim(s))
  }

  /** The value of a trimmed numeral, as `TextToNumber` reads it. */
  function Numeral(t: string): Option<int> {
    if t == "" then Some(0)
    else if t[0] == '-' && IsDecimal(t[1..]) then Some(-(DecimalValue(t[1..]) as int))
    else if t[0] == '+' && IsDecimal(t[1..]) then Some(DecimalValue(t[1..]))
    else if IsDecimal(t) then Some(DecimalValue(t))
    else None
  }

  /** The text of the `TypeError` that `ToPrimitive` throws when an object's own `toString` is not a function. */
  const NoPrimitive: string := "Cannot convert object to primitive value"

  /** An object parsed from JSON has its own `toString` member: a value, never a function. */
  predicate HidesToString(fields: seq<(string, Json)>) {
    exists i :: 0 <= i < |fields| && fields[i].0 == "toString"
  }

  /**
   * `String(v)` as `Array.prototype.join` writes an element: `null` is the empty text, an array is the
   * join of its own items, an object `[object Object]`; Err when converting the object throws.
   */
  function ElementText(v: Json): Result<string, string>
    decreases v, 1
  {
    match v
    case JNull => Ok("")
    case JBool(b) => Ok(if b then "true" else "false")
    case JNum(n) => Ok(IntToString(n))
    case JStr(t) => Ok(t)
    case JArr(items) => ItemsText(items)
    case JObj(fields) => if HidesToString(fields) then Err(NoPrimitive) else Ok("[object Object]")
  }

  /** `items.join(',')`. */
  function ItemsText(items: seq<Json>): Result<string, string>
    decreases items, 0
  {
    if |items| == 0 then Ok("")
    else match ItemsText(items[..|items| - 1])
      case Err(e) => Err(e)
      case Ok(front) =>
        match ElementText(items[|items| - 1])
        case Err(e) => Err(e)
        case Ok(last) => Ok(if |items| == 1 then last else front + "," + last)
  }

  /**
   * The number `<` compares a value as: `ToNumber(ToPrimitive(v))`. A boolean is 0 or 1, a text its
   * numeral, an array the numeral of its joined text, a plain object NaN (None); Err when the
   * conversion throws.
   */
  function ToNumber(v: Json): Result<Option<int>, string> {
    match v
    case JNull => Ok(Some(0))
    case JBool(b) => Ok(Some(if b then 1 else 0))
    case JNum(n) => Ok(Some(n))
    case JStr(t) => Ok(TextToNumber(t))
    case JArr(items) =>
      (match ItemsText(items)
       case Err(e) => Err(e)
       case Ok(t) => Ok(TextToNumber(t)))
    case JObj(fields) => if HidesToString(fields) then Err(NoPrimitive) else Ok(None)
  }

  /**
   * The expiry test turns the token away: `payload.exp` is truthy and, converted to a number, lies
   * before `now`, or the conversion throws, which the `catch` turns into null too. NaN is never
   * before anything.
   */
  predicate Expired(payload: Json, now: int) {
    var exp := Member(payload, "exp");
    Truthy(exp) &&
    match ToNumber(exp.value)
    case Err(_) => true
    case Ok(x) => x.Some? && x.value < now
  }

  /**
   * `verifyToken(token, secret)` at time `now`: three dot-separated parts, a valid signature over the
   * first two, a payload that decodes and has not expired. Every thrown error becomes null (None);
   * reading `exp` of a `null` payload throws too.
   */
  function VerifyToken(signer: Signer, token: string, secret: string, now: int): (r: Option<Json>)
    ensures r.Some? ==> |Split(token, '.')| == 3
    ensures r.Some? ==> signer.verify(secret, Split(token, '.')[0] + "." + Split(token, '.')[1],
                                      Split(token, '.')[2]) == Ok(true)
    ensures r.Some? ==> signer.decodePayload(Split(token, '.')[1]) == Ok(r.value)
    ensures r.Some? ==> r.value != JNull && !Expired(r.value, now)
  {
    var parts := Split(token, '.');
    if |parts| != 3 then None
    else match signer.verify(secret, parts[0] + "." + parts[1], parts[2])
      case Err(_) => None
      case Ok(valid) =>
        if !valid then None
        else match signer.decodePayload(parts[1])
          case Err(_) => None
          case Ok(payload) =>
            if payload == JNull || Expired(payload, now) then None else Some(payload)
  }

  /** The digits of a natural number denote it. */
  lemma {:induction false} DecimalOfNat(k: nat)
    ensures IsDecimal(NatToString(k)) && DecimalValue(NatToString(k)) == k
    decreases k
  {
    if k >= 10 {
      DecimalOfNat(k / 10);
      var s := NatToString(k);
      assert s[..|s| - 1] == NatToString(k / 10);
    }
  }

  /** A text that neither starts nor ends with white space trims to itself. */
  lemma TrimInner(s: string)
    requires |s| > 0 && !IsJsSpace(s[0]) && !IsJsSpace(s[|s| - 1])
    ensures Trim(s) == s
  {
    assert TrimStart(s) == s;
  }

  /** `Number(String(n))` is `n` for every integer: the numeral reads back. */
  lemma {:induction false} TextToNumberOfInt(n: int)
    ensures TextToNumber(IntToString(n)) == Some(n)
  {
    if n < 0 {
      NegativeIntText(n);
    } else {
      var d := NatToString(n);
      DecimalOfNat(n);
      PlainText(d, n);
    }
  }

  lemma NegativeIntText(n: int)
    requires n < 0
    ensures TextToNumber(IntToString(n)) == Some(n)
  {
    var m: nat := -n;
    var d := NatToString(m);
    assert IntToString(n) == "-" + d;
    DecimalOfNat(m);
    NegativeText(d, m);
  }

  /** A run of digits reads as its value. */
  lemma PlainText(d: string, m: nat)
    requires IsDecimal(d) && DecimalValue(d) == m
    ensures TextToNumber(d) == Some(m)
  {
    NumeralTrims(d);
  }

  /** A minus sign before a run of digits reads as the negated value. */
  lemma NegativeText(d: string, m: nat)
    requires IsDecimal(d) && DecimalValue(d) == m
    ensures TextToNumber("-" + d) == Some(-(m as int))
  {
    var t := "-" + d;
    assert t[|t| - 1] == d[|d| - 1];
    NumeralTrims(t);
    assert t[1..] == d;
    assert |t| > 0 && t[0] == '-';
    NegativeNumeral(t);
  }

  lemma NegativeNumeral(t: string)
    requires |t| > 0 && t[0] == '-' && IsDecimal(t[1..])
    ensures Numeral(t) == Some(-(DecimalValue(t[1..]) as int))
  {
  }

  /** A numeral starts with a sign or a digit and ends with a digit, so it trims to itself. */
  lemma NumeralTrims(t: string)
    requires |t| > 0 && (t[0] == '-' || '0' <= t[0] <= '9') && '0' <= t[|t| - 1] <= '9'
    ensures Trim(t) == t
  {
    TrimInner(t);
  }

  /** A payload with one field `exp` has that field's value as its `exp`. */
  lemma ExpField(e: Json)
    ensures Member(JObj([("exp", e)]), "exp") == Some(e)
  {
    var f := [("exp", e)];
    assert f[|f| - 1].0 == "exp";
  }

  /** The expiry test on a payload whose one field is `exp`. */
  lemma ExpiredOf(e: Json, now: int)
    ensures Expired(JObj([("exp", e)]), now) <==>
      Truthy(Some(e)) && (ToNumber(e).Err? || (ToNumber(e).value.Some? && ToNumber(e).value.value < now))
  {
    ExpField(e);
  }

  /** An integer's text `exp` expires exactly when the integer itself does, the integer 0 aside. */
  lemma TextExpiryAgrees(n: int, now: int)
    requires n != 0
    ensures Expired(JObj([("exp", JStr(IntToString(n)))]), now) <==> Expired(JObj([("exp", JNum(n))]), now)
  {
    ExpiredOf(JStr(IntToString(n)), now);
    ExpiredOf(JNum(n), now);
    TextToNumberOfInt(n);
    assert ToNumber(JStr(IntToString(n))) == Ok(Some(n));
    assert IntToString(n) != "";
  }

  /**
   * The text `0` is truthy where the number 0 is not: `{"exp":"0"}` is compared and expires once
   * `now` is positive, `{"exp":0}` never expires.
   */
  lemma ZeroExpiry(now: int)
    ensures Expired(JObj([("exp", JStr("0"))]), now) <==> 0 < now
    ensures !Expired(JObj([("exp", JNum(0))]), now)
  {
    ExpiredOf(JStr("0"), now);
    ExpiredOf(JNum(0), now);
    assert DecimalValue("0") == 0;
    PlainText("0", 0);
    assert ToNumber(JStr("0")) == Ok(Some(0));
  }

  /**
   * The comparison converts a text `exp` to its numeral first: at time 10 the text `5` has expired,
   * the text `20` and a text that is no numeral (NaN) have not.
   */
  lemma TextExpiryCoerces()
    ensures Expired(JObj([("exp", JStr("5"))]), 10)
    ensures !Expired(JObj([("exp", JStr("20"))]), 10)
    ensures !Expired(JObj([("exp", JStr("soon"))]), 10)
  {
    ExpiredOf(JStr("5"), 10);
    ExpiredOf(JStr("20"), 10);
    ExpiredOf(JStr("soon"), 10);
    FiveText();
    TwentyText();
    NoNumeralText();
  }

  /**
   * `true` compares as 1 and the array `[5]` as its joined text `5`, so both have expired at time 10;
   * the two-item array `[5,6]` joins to `5,6`, which is NaN.
   */
  lemma OtherExpiryCoerces()
    ensures Expired(JObj([("exp", JBool(true))]), 10)
    ensures Expired(JObj([("exp", JArr([JNum(5)]))]), 10)
    ensures !Expired(JObj([("exp", JArr([JNum(5), JNum(6)]))]), 10)
  {
    ExpiredOf(JBool(true), 10);
    ExpiredOf(JArr([JNum(5)]), 10);
    ExpiredOf(JArr([JNum(5), JNum(6)]), 10);
    SingleItemText();
    PairText();
    FiveText();
    PairNotNumeral();
  }

  lemma FiveText()
    ensures TextToNumber("5") == Some(5)
  {
    assert DecimalValue("5") == 5;
    PlainText("5", 5);
  }

  lemma TwentyText()
    ensures TextToNumber("20") == Some(20)
  {
    assert "20"[..1] == "2";
    assert DecimalValue("20") == 20;
    PlainText("20", 20);
  }

  lemma NoNumeralText()
    ensures TextToNumber("soon") == None
  {
    assert Trim("soon") == "soon" by { TrimInner("soon"); }
    assert Numeral("soon") == None by { NoNumeral("soon", 0); }
  }

  lemma PairNotNumeral()
    ensures TextToNumber("5,6") == None
  {
    assert Trim("5,6") == "5,6" by { TrimInner("5,6"); }
    assert Numeral("5,6") == None by { NoNumeral("5,6", 1); }
  }

  /** A text that neither is empty nor starts with a sign, with a character that is no digit, is NaN. */
  lemma NoNumeral(t: string, i: nat)
    requires i < |t| && t[0] != '-' && t[0] != '+' && !('0' <= t[i] <= '9')
    ensures Numeral(t) == None
  {
  }

  lemma SingleItemText()
    ensures ItemsText([JNum(5)]) == Ok("5")
  {
    assert NatToString(5) == "5";
    assert IntToString(5) == "5";
  }

  lemma PairText()
    ensures ItemsText([JNum(5), JNum(6)]) == Ok("5,6")
  {
    var pair := [JNum(5), JNum(6)];
    assert pair[..1] == [JNum(5)];
    SingleItemText();
    assert NatToString(6) == "6";
    assert ElementText(pair[1]) == Ok("6");
    assert "5" + "," + "6" == "5,6";
  }

  /** An object whose own `toString` is not a function makes the conversion throw: the token is refused. */
  lemma ObjectExpiryThrows()
    ensures Expired(JObj([("exp", JObj([("toString", JNum(1))]))]), 10)
  {
    ExpiredOf(JObj([("toString", JNum(1))]), 10);
    assert HidesToString([("toString", JNum(1))]) by { assert [("toString", JNum(1))][0].0 == "toString"; }
  }

  /** A well-signed token whose expiry test turns it away is null, whatever `exp` holds. */
  lemma ExpiredTokenRefused(signer: Signer, token: string, secret: string, now: int, payload: Json)
    requires |Split(token, '.')| == 3
    requires signer.verify(secret, Split(token, '.')[0] + "." + Split(token, '.')[1], Split(token, '.')[2]) == Ok(true)
    requires signer.decodePayload(Split(token, '.')[1]) == Ok(payload)
    requires Expired(payload, now)
    ensures VerifyToken(signer, token, secret, now) == None
  {
  }

  /** A token that passes later passes earlier: acceptance only ever ends with time. */
  lemma VerifyTokenAntitone(signer: Signer, token: string, secret: string, earlier: int, later: int)
    requires earlier <= later
    requires VerifyToken(signer, token, secret, later).Some?
    ensures VerifyToken(signer, token, secret, earlier) == VerifyToken(signer, token, secret, later)
  {
  }

  /** A well-signed token whose payload decodes to an object without `exp` is accepted at any time. */
  lemma VerifyTokenWithoutExpiry(signer: Signer, token: string, secret: string, now: int, payload: Json)
    requires |Split(token, '.')| == 3
    requires signer.verify(secret, Split(token, '.')[0] + "." + Split(token, '.')[1], Split(token, '.')[2]) == Ok(true)
    requires signer.decodePayload(Split(token, '.')[1]) == Ok(payload)
    requires payload.JObj? && forall i :: 0 <= i < |payload.fields| ==> payload.fields[i].0 != "exp"
    ensures VerifyToken(signer, token, secret, now) == Some(payload)
  {
  }
}
