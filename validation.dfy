/**
 * The input validators. Each regular expression of the source is restated as a predicate over
 * characters: a computable check, and where the pattern is not a plain character class, the
 * pattern's own reading as a separate definition with a lemma that the two agree.
 */
module Validation {
  import opened Wrappers
  import opened Text

  // ------------------------------------------------------------------ email

  /** A run matched by `[^\s@]+`. */
  predicate Plain(s: string) {
    |s| > 0 && forall i :: 0 <= i < |s| ==> !IsJsSpace(s[i]) && s[i] != '@'
  }

  /** What `@` is followed by: two plain runs around some dot. */
  predicate DottedDomain(d: string) {
    Plain(d) && exists j :: 0 < j < |d| - 1 && d[j] == '.'
  }

  /** `isValidEmail`: non-empty, one `local@domain.tld` shape, at most 254 UTF-16 code units. */
  predicate IsValidEmail(email: string) {
    email != "" &&
    (exists k :: 0 < k < |email| && email[k] == '@' && Plain(email[..k]) && DottedDomain(email[k + 1..])) &&
    Utf16Length(email) <= 254
  }

  /** The pattern `^[^\s@]+@[^\s@]+\.[^\s@]+$` read literally. */
  ghost predicate EmailPattern(s: string) {
    exists a, b, c :: s == a + "@" + b + "." + c && Plain(a) && Plain(b) && Plain(c)
  }

  lemma PlainAppendDot(b: string, c: string)
    requires Plain(b) && Plain(c)
    ensures Plain(b + "." + c)
  {
    var d := b + "." + c;
    forall i | 0 <= i < |d| ensures !IsJsSpace(d[i]) && d[i] != '@' {
      if i < |b| { assert d[i] == b[i]; }
      else if i > |b| { assert d[i] == c[i - |b| - 1]; }
    }
  }

  /** The check accepts exactly the strings the pattern matches, within the length bound. */
  lemma EmailMeansPattern(s: string)
    ensures IsValidEmail(s) <==> Utf16Length(s) <= 254 && EmailPattern(s)
  {
    if IsValidEmail(s) {
      EmailMatches(s);
    }
    if Utf16Length(s) <= 254 && EmailPattern(s) {
      var a, b, c :| s == a + "@" + b + "." + c && Plain(a) && Plain(b) && Plain(c);
      EmailAccepted(a, b, c);
    }
  }

  lemma EmailMatches(s: string)
    requires IsValidEmail(s)
    ensures EmailPattern(s)
  {
    var k :| 0 < k < |s| && s[k] == '@' && Plain(s[..k]) && DottedDomain(s[k + 1..]);
    var j :| 0 < j < |s[k + 1..]| - 1 && s[k + 1..][j] == '.';
    EmailMatchesAt(s, k, j);
  }

  lemma EmailMatchesAt(s: string, k: nat, j: nat)
    requires k < |s| && s[k] == '@' && Plain(s[..k]) && Plain(s[k + 1..])
    requires 0 < j < |s[k + 1..]| - 1 && s[k + 1..][j] == '.'
    ensures EmailPattern(s)
  {
    var d := s[k + 1..];
    PlainSlice(d, 0, j);
    PlainSlice(d, j + 1, |d|);
    var a, b, c := s[..k], d[..j], d[j + 1..];
    assert d == b + "." + c;
    assert s == a + "@" + b + "." + c;
  }

  lemma PlainSlice(d: string, i: nat, j: nat)
    requires Plain(d) && i < j <= |d|
    ensures Plain(d[i..j])
  {
    forall n | 0 <= n < j - i ensures !IsJsSpace(d[i..j][n]) && d[i..j][n] != '@' {
      assert d[i..j][n] == d[i + n];
    }
  }

  lemma EmailAccepted(a: string, b: string, c: string)
    requires Plain(a) && Plain(b) && Plain(c)
    ensures var s := a + "@" + b + "." + c; IsValidEmail(s) <==> Utf16Length(s) <= 254
  {
    var s := a + "@" + b + "." + c;
    var k := |a|;
    var d := b + "." + c;
    assert s == a + "@" + d;
    assert s[..k] == a && s[k] == '@' && s[k + 1..] == d;
    PlainAppendDot(b, c);
    assert d[|b|] == '.';
    assert DottedDomain(d);
  }

  /** A valid address has exactly one `@` and no white space. */
  lemma EmailHasOneAt(s: string)
    requires IsValidEmail(s)
    ensures forall i :: 0 <= i < |s| ==> !IsJsSpace(s[i])
    ensures exists k :: 0 <= k < |s| && s[k] == '@' && forall i :: 0 <= i < |s| && i != k ==> s[i] != '@'
  {
    var k :| 0 < k < |s| && s[k] == '@' && Plain(s[..k]) && DottedDomain(s[k + 1..]);
    forall i | 0 <= i < |s| ensures !IsJsSpace(s[i]) && (i != k ==> s[i] != '@') {
      if i < k { assert s[i] == s[..k][i]; }
      else if i > k { assert s[i] == s[k + 1..][i - k - 1]; }
    }
  }

  // ------------------------------------------------------------------ domain

  predicate IsAsciiLetter(c: char) {
    'a' <= c <= 'z' || 'A' <= c <= 'Z'
  }

  predicate IsAlnum(c: char) {
    IsAsciiLetter(c) || '0' <= c <= '9'
  }

  /** `[a-zA-Z0-9](?:[a-zA-Z0-9-]{0,61}[a-zA-Z0-9])?`: 1 to 63 characters, hyphens only inside. */
  predicate IsLabel(s: string) {
    1 <= |s| <= 63 && IsAlnum(s[0]) && IsAlnum(s[|s| - 1]) &&
    forall i :: 0 <= i < |s| ==> IsAlnum(s[i]) || s[i] == '-'
  }

  /** `[a-zA-Z]{2,}`. */
  predicate IsTld(s: string) {
    |s| >= 2 && forall i :: 0 <= i < |s| ==> IsAsciiLetter(s[i])
  }

  /** `isValidDomain`: one or more labels each followed by a dot, then the top-level name; at most 253 characters. */
  predicate IsValidDomain(domain: string) {
    var parts := Split(domain, '.');
    domain != "" && |parts| >= 2 &&
    (forall i :: 0 <= i < |parts| - 1 ==> IsLabel(parts[i])) && IsTld(parts[|parts| - 1]) &&
    |domain| <= 253
  }

  /**
   * Building a name from labels and a top-level name gives a valid domain exactly when it fits in
   * 253 characters; and every valid domain is built that way from its own pieces.
   */
  lemma DomainFromLabels(labels: seq<string>, tld: string)
    requires |labels| >= 1 && (forall i :: 0 <= i < |labels| ==> IsLabel(labels[i])) && IsTld(tld)
    ensures IsValidDomain(Join(labels + [tld], ".")) <==> |Join(labels + [tld], ".")| <= 253
  {
    var parts := labels + [tld];
    forall k | 0 <= k < |parts| ensures '.' !in parts[k] {
      if k < |labels| {
        assert parts[k] == labels[k];
        forall i | 0 <= i < |parts[k]| ensures parts[k][i] != '.' {
          assert IsAlnum(labels[k][i]) || labels[k][i] == '-';
        }
      } else {
        assert parts[k] == tld;
      }
    }
    SplitJoin(parts, '.');
    assert parts[0] == labels[0];
    JoinNonEmpty(parts, ".");
  }

  lemma DomainPieces(domain: string)
    requires IsValidDomain(domain)
    ensures var parts := Split(domain, '.'); Join(parts, ".") == domain
  {
    JoinSplit(domain, '.');
  }

  // ------------------------------------------------------------------ sanitizeString

  /** The characters `[\x00-\x08\x0B\x0C\x0E-\x1F\x7F]` removes: the C0 controls but tab, LF and CR, and DEL. */
  predicate IsStripped(c: char) {
    ('\0' <= c <= '\U{0008}') || c == '\U{000B}' || c == '\U{000C}' || ('\U{000E}' <= c <= '\U{001F}') || c == '\U{007F}'
  }

  /** `s.slice(0, n)`: a negative end counts from the end of the string. */
  function SliceTo(s: string, n: int): (r: string)
    ensures |r| <= |s| && r == s[..|r|]
    ensures n >= 0 ==> |r| == if n < |s| then n else |s|
  {
    if n >= 0 then (if n < |s| then s[..n] else s)
    else if -n < |s| then s[..|s| + n] else ""
  }

  function StripControls(s: string): (r: string)
    ensures |r| <= |s|
    decreases |s|
  {
    if |s| == 0 then "" else (if IsStripped(s[0]) then "" else [s[0]]) + StripControls(s[1..])
  }

  /** `sanitizeString(input, maxLength)`; the default length of the source is 1000. */
  function SanitizeString(input: string, maxLength: int): string {
    if input == "" then "" else StripControls(SliceTo(input, maxLength))
  }

  const DefaultMaxLength := 1000

  /** What is left is exactly the kept characters of the slice, in order. */
  lemma {:induction false} StripControlsKeeps(s: string)
    ensures forall i :: 0 <= i < |StripControls(s)| ==> !IsStripped(StripControls(s)[i])
    ensures forall i :: 0 <= i < |s| && !IsStripped(s[i]) ==> s[i] in StripControls(s)
    ensures (forall i :: 0 <= i < |s| ==> !IsStripped(s[i])) ==> StripControls(s) == s
    decreases |s|
  {
    if |s| > 0 {
      StripControlsKeeps(s[1..]);
      var head := if IsStripped(s[0]) then "" else [s[0]];
      assert StripControls(s) == head + StripControls(s[1..]);
      forall i | 0 <= i < |s| && !IsStripped(s[i]) ensures s[i] in StripControls(s) {
        if i > 0 { assert s[i] == s[1..][i - 1]; }
      }
    }
  }

  /**
   * The result is no longer than `maxLength`, holds no stripped control character, keeps every other
   * character of the slice (tab, LF and CR included), and sanitizing again changes nothing.
   */
  lemma SanitizeProperties(input: string, maxLength: nat)
    ensures var r := SanitizeString(input, maxLength);
      |r| <= maxLength &&
      (forall i :: 0 <= i < |r| ==> !IsStripped(r[i])) &&
      (forall i :: 0 <= i < |input| && i < maxLength && !IsStripped(input[i]) ==> input[i] in r) &&
      SanitizeString(r, maxLength) == r
  {
    if input != "" {
      var cut := SliceTo(input, maxLength);
      StripControlsKeeps(cut);
      var r := StripControls(cut);
      forall i | 0 <= i < |input| && i < maxLength && !IsStripped(input[i]) ensures input[i] in r {
        assert input[i] == cut[i];
      }
      StripControlsKeeps(r);
      assert SliceTo(r, maxLength) == r;
    }
  }

  lemma WhitespaceControlsSurvive()
    ensures !IsStripped('\t') && !IsStripped('\n') && !IsStripped('\r')
  {
  }

  // ------------------------------------------------------------------ password, API key, UUID, file size

  datatype PasswordCheck = PasswordCheck(valid: bool, error: Option<string>)

  const PasswordRequired := "Password is required"
  const PasswordTooShort := "Password must be at least 8 characters"
  const PasswordTooLong := "Password must be less than 128 characters"

  /** `isValidPassword`: required, then the lower bound, then the upper bound, in that order. */
  function IsValidPassword(password: string): (r: PasswordCheck)
    ensures r.valid <==> 8 <= Utf16Length(password) <= 128
    ensures r.valid <==> r.error.None?
    ensures |password| == 0 ==> r.error == Some(PasswordRequired)
    ensures 0 < |password| && Utf16Length(password) < 8 ==> r.error == Some(PasswordTooShort)
    ensures Utf16Length(password) > 128 ==> r.error == Some(PasswordTooLong)
  {
    if password == "" then PasswordCheck(false, Some(PasswordRequired))
    else if Utf16Length(password) < 8 then PasswordCheck(false, Some(PasswordTooShort))
    else if Utf16Length(password) > 128 then PasswordCheck(false, Some(PasswordTooLong))
    else PasswordCheck(true, None)
  }

  /** Four emoji are eight code units, so they make a password long enough. */
  lemma EmojiPassword()
    ensures IsValidPassword("\U{1F600}\U{1F600}\U{1F600}\U{1F600}").valid
  {
    var e := "\U{1F600}\U{1F600}\U{1F600}\U{1F600}";
    assert e[1..][1..][1..][1..] == "";
    assert Utf16Length(e[1..][1..][1..]) == 2;
    assert Utf16Length(e[1..][1..]) == 4;
    assert Utf16Length(e[1..]) == 6;
  }

  /** `[a-zA-Z0-9_\-\.]`. */
  predicate IsKeyChar(c: char) {
    IsAlnum(c) || c == '_' || c == '-' || c == '.'
  }

  /** `isValidApiKey`; its characters are ASCII, so counting them counts the UTF-16 code units. */
  predicate IsValidApiKey(apiKey: string) {
    apiKey != "" && 10 <= |apiKey| <= 256 && forall i :: 0 <= i < |apiKey| ==> IsKeyChar(apiKey[i])
  }

  /** Counted as `.length` counts: valid exactly for 10 to 256 UTF-16 code units, all of `[A-Za-z0-9_.-]`. */
  lemma ApiKeyMeans(apiKey: string)
    ensures IsValidApiKey(apiKey) <==>
      10 <= Utf16Length(apiKey) <= 256 && forall i :: 0 <= i < |apiKey| ==> IsKeyChar(apiKey[i])
  {
    if forall i :: 0 <= i < |apiKey| ==> IsKeyChar(apiKey[i]) {
      assert forall i :: 0 <= i < |apiKey| ==> !IsAstral(apiKey[i]);
    }
  }

  /** The bounds are inclusive, and a character outside the class (a space) refuses the key. */
  lemma ApiKeyEdges()
    ensures IsValidApiKey("sk_live.-9")
    ensures !IsValidApiKey("sk_live.-")
    ensures !IsValidApiKey("sk live.-9")
  {
    assert "sk live.-9"[2] == ' ';
  }

  predicate IsHexDigit(c: char) {
    '0' <= c <= '9' || 'a' <= c <= 'f' || 'A' <= c <= 'F'
  }

  predicate IsHexRun(s: string, n: nat) {
    |s| == n && forall i :: 0 <= i < |s| ==> IsHexDigit(s[i])
  }

  /** Positions of the four hyphens of the 8-4-4-4-12 layout. */
  predicate IsUuidHyphen(i: int) {
    i == 8 || i == 13 || i == 18 || i == 23
  }

  /** `isValidUUID`, case-insensitive. */
  predicate IsValidUUID(uuid: string) {
    uuid != "" && |uuid| == 36 &&
    forall i :: 0 <= i < 36 ==> if IsUuidHyphen(i) then uuid[i] == '-' else IsHexDigit(uuid[i])
  }

  /** Five hex runs of lengths 8, 4, 4, 4 and 12 joined by hyphens form a valid UUID. */
  lemma UuidFromGroups(a: string, b: string, c: string, d: string, e: string)
    requires IsHexRun(a, 8) && IsHexRun(b, 4) && IsHexRun(c, 4) && IsHexRun(d, 4) && IsHexRun(e, 12)
    ensures IsValidUUID(a + "-" + b + "-" + c + "-" + d + "-" + e)
  {
    var s := a + "-" + b + "-" + c + "-" + d + "-" + e;
    forall i | 0 <= i < 36 ensures if IsUuidHyphen(i) then s[i] == '-' else IsHexDigit(s[i]) {
      if i < 8 { assert s[i] == a[i]; }
      else if 8 < i < 13 { assert s[i] == b[i - 9]; }
      else if 13 < i < 18 { assert s[i] == c[i - 14]; }
      else if 18 < i < 23 { assert s[i] == d[i - 19]; }
      else if i > 23 { assert s[i] == e[i - 24]; }
    }
  }

  /** And every valid UUID is such a joining of its own five groups. */
  lemma UuidGroups(s: string)
    requires IsValidUUID(s)
    ensures s == s[..8] + "-" + s[9..13] + "-" + s[14..18] + "-" + s[19..23] + "-" + s[24..]
    ensures IsHexRun(s[..8], 8) && IsHexRun(s[9..13], 4) && IsHexRun(s[14..18], 4) && IsHexRun(s[19..23], 4) && IsHexRun(s[24..], 12)
  {
    assert s[8] == '-' && s[13] == '-' && s[18] == '-' && s[23] == '-';
    var t := s[..8] + "-" + s[9..13] + "-" + s[14..18] + "-" + s[19..23] + "-" + s[24..];
    assert |t| == 36;
    forall i | 0 <= i < 36 ensures t[i] == s[i] {
      if i < 8 { assert t[i] == s[..8][i]; }
      else if 8 < i < 13 { assert t[i] == s[9..13][i - 9]; }
      else if 13 < i < 18 { assert t[i] == s[14..18][i - 14]; }
      else if 18 < i < 23 { assert t[i] == s[19..23][i - 19]; }
      else if i > 23 { assert t[i] == s[24..][i - 24]; }
    }
    forall i | 0 <= i < 8 ensures IsHexDigit(s[..8][i]) { assert !IsUuidHyphen(i); }
    forall i | 0 <= i < 4 ensures IsHexDigit(s[9..13][i]) && IsHexDigit(s[14..18][i]) && IsHexDigit(s[19..23][i]) {
      assert !IsUuidHyphen(9 + i) && !IsUuidHyphen(14 + i) && !IsUuidHyphen(19 + i);
    }
    forall i | 0 <= i < 12 ensures IsHexDigit(s[24..][i]) { assert !IsUuidHyphen(24 + i); }
  }

  /** Case does not matter. */
  lemma UuidIgnoresCase(uuid: string)
    ensures IsValidUUID(ToLowerAscii(uuid)) <==> IsValidUUID(uuid)
  {
  }

  /** `isValidFileSize` on a number; fractional sizes are not modelled. */
  predicate IsValidFileSize(size: int, maxSize: int) {
    0 < size <= maxSize
  }

  /**
   * An empty file is never valid, the largest allowed size is whenever the maximum is at least 1,
   * nothing is valid against a maximum below 1, and raising the maximum keeps a size valid.
   */
  lemma FileSizeRange(size: int, maxSize: int, larger: int)
    requires maxSize <= larger
    ensures !IsValidFileSize(0, maxSize)
    ensures IsValidFileSize(maxSize, maxSize) <==> maxSize >= 1
    ensures IsValidFileSize(size, maxSize) ==> IsValidFileSize(size, larger)
  {
  }

  // ------------------------------------------------------------------ content type

  const BlockedTypes: seq<string> := [
    "application/x-executable",
    "application/x-msdownload",
    "application/x-msdos-program",
    "application/javascript",
    "text/javascript",
    "application/x-shellscript"]

  /** The media type without parameters: lower-cased, cut at the first `;`, trimmed. */
  function NormalizedType(contentType: string): string {
    Trim(Split(ToLowerAscii(contentType), ';')[0])
  }

  predicate IsAllowedContentType(contentType: string) {
    contentType != "" && NormalizedType(contentType) !in BlockedTypes
  }

  lemma LowerIdempotent(s: string)
    ensures ToLowerAscii(ToLowerAscii(s)) == ToLowerAscii(s)
  {
  }

  /** The verdict ignores the case of the letters. */
  lemma ContentTypeIgnoresCase(contentType: string)
    ensures IsAllowedContentType(ToLowerAscii(contentType)) <==> IsAllowedContentType(contentType)
  {
    LowerIdempotent(contentType);
  }

  /** Parameters after the first `;` never matter: a blocked type stays blocked whatever follows. */
  lemma ParametersIgnored(base: string, params: string)
    requires ';' !in base
    ensures NormalizedType(base + ";" + params) == NormalizedType(base)
  {
    var lower := ToLowerAscii(base + ";" + params);
    assert lower == ToLowerAscii(base) + ";" + ToLowerAscii(params);
    assert ';' !in ToLowerAscii(base) by {
      forall i | 0 <= i < |base| ensures ToLowerAscii(base)[i] != ';' {
        assert base[i] != ';';
      }
    }
    SplitAfterFirst(ToLowerAscii(base), ToLowerAscii(params), ';');
    SplitWithout(ToLowerAscii(base), ';');
  }

  // ------------------------------------------------------------------ escapeHtml

  /** `escapeHtml`: the five replacements in the source's order, `&` first. */
  function EscapeHtml(unsafe: string): string {
    if unsafe == "" then ""
    else ReplaceAll(ReplaceAll(ReplaceAll(ReplaceAll(ReplaceAll(unsafe, '&', "&amp;"), '<', "&lt;"), '>', "&gt;"), '"', "&quot;"), '\'', "&#039;")
  }

  /** The replacement text of each of the five characters. */
  datatype Entities = Entities(amp: string, lt: string, gt: string, quot: string, apos: string)

  const Html := Entities("&amp;", "&lt;", "&gt;", "&quot;", "&#039;")

  /** No replacement text holds a character that a later replacement rewrites. */
  predicate Ordered(e: Entities) {
    '<' !in e.amp && '>' !in e.amp && '"' !in e.amp && '\'' !in e.amp &&
    '>' !in e.lt && '"' !in e.lt && '\'' !in e.lt &&
    '"' !in e.gt && '\'' !in e.gt &&
    '\'' !in e.quot
  }

  function EntityWith(c: char, e: Entities): string {
    if c == '&' then e.amp
    else if c == '<' then e.lt
    else if c == '>' then e.gt
    else if c == '"' then e.quot
    else if c == '\'' then e.apos
    else [c]
  }

  /** The entity a character becomes. */
  function Entity(c: char): string {
    EntityWith(c, Html)
  }

  /** Character by character escaping: the reference the chain of replacements is compared with. */
  function EscapeEach(s: string): string
    decreases |s|
  {
    if |s| == 0 then "" else Entity(s[0]) + EscapeEach(s[1..])
  }

  lemma {:induction false} ReplaceAllAbsent(s: string, c: char, rep: string)
    requires c !in s
    ensures ReplaceAll(s, c, rep) == s
    decreases |s|
  {
    if |s| > 0 {
      ReplaceAllAbsent(s[1..], c, rep);
      assert [s[0]] + s[1..] == s;
    }
  }

  /** The five replacements, over any replacement texts. */
  function ChainWith(s: string, e: Entities): string {
    ReplaceAll(ReplaceAll(ReplaceAll(ReplaceAll(ReplaceAll(s, '&', e.amp), '<', e.lt), '>', e.gt), '"', e.quot), '\'', e.apos)
  }

  lemma ChainAppend(a: string, b: string, e: Entities)
    ensures ChainWith(a + b, e) == ChainWith(a, e) + ChainWith(b, e)
  {
    ReplaceAllAppend(a, b, '&', e.amp);
    var a1, b1 := ReplaceAll(a, '&', e.amp), ReplaceAll(b, '&', e.amp);
    ReplaceAllAppend(a1, b1, '<', e.lt);
    var a2, b2 := ReplaceAll(a1, '<', e.lt), ReplaceAll(b1, '<', e.lt);
    ReplaceAllAppend(a2, b2, '>', e.gt);
    var a3, b3 := ReplaceAll(a2, '>', e.gt), ReplaceAll(b2, '>', e.gt);
    ReplaceAllAppend(a3, b3, '"', e.quot);
    var a4, b4 := ReplaceAll(a3, '"', e.quot), ReplaceAll(b3, '"', e.quot);
    ReplaceAllAppend(a4, b4, '\'', e.apos);
  }

  lemma ReplaceOne(c: char, d: char, rep: string)
    ensures ReplaceAll([c], d, rep) == if c == d then rep else [c]
  {
  }

  /** With ordered replacement texts one character comes out as exactly its own entity. */
  lemma ChainOne(c: char, e: Entities)
    requires Ordered(e)
    ensures ChainWith([c], e) == EntityWith(c, e)
  {
    ReplaceOne(c, '&', e.amp);
    if c == '&' {
      ReplaceAllAbsent(e.amp, '<', e.lt);
      ReplaceAllAbsent(e.amp, '>', e.gt);
      ReplaceAllAbsent(e.amp, '"', e.quot);
      ReplaceAllAbsent(e.amp, '\'', e.apos);
    } else {
      ReplaceOne(c, '<', e.lt);
      if c == '<' {
        ReplaceAllAbsent(e.lt, '>', e.gt);
        ReplaceAllAbsent(e.lt, '"', e.quot);
        ReplaceAllAbsent(e.lt, '\'', e.apos);
      } else {
        ReplaceOne(c, '>', e.gt);
        if c == '>' {
          ReplaceAllAbsent(e.gt, '"', e.quot);
          ReplaceAllAbsent(e.gt, '\'', e.apos);
        } else {
          ReplaceOne(c, '"', e.quot);
          if c == '"' {
            ReplaceAllAbsent(e.quot, '\'', e.apos);
          } else {
            ReplaceOne(c, '\'', e.apos);
          }
        }
      }
    }
  }

  /** Replacing `&` first means no entity is escaped twice: the chain escapes each character once. */
  lemma {:induction false} EscapeIsPerCharacter(s: string)
    ensures EscapeHtml(s) == EscapeEach(s)
  {
    assert Ordered(Html);
    assert EscapeHtml(s) == if s == "" then "" else ChainWith(s, Html);
    ChainPerCharacter(s, Html);
  }

  lemma {:induction false} ChainPerCharacter(s: string, e: Entities)
    requires Ordered(e) && e == Html
    ensures ChainWith(s, e) == EscapeEach(s)
    decreases |s|
  {
    if |s| == 0 {
      assert ChainWith(s, e) == "";
    } else {
      ChainPerCharacter(s[1..], e);
      assert s == [s[0]] + s[1..];
      ChainAppend([s[0]], s[1..], e);
      ChainOne(s[0], e);
    }
  }

  predicate Markup(c: char) {
    c == '<' || c == '>' || c == '"' || c == '\''
  }

  /** The output holds no `<`, `>`, `"` or `'`. */
  lemma {:induction false} EscapeEachSafe(s: string)
    ensures forall i :: 0 <= i < |EscapeEach(s)| ==> !Markup(EscapeEach(s)[i])
    decreases |s|
  {
    if |s| > 0 {
      EscapeEachSafe(s[1..]);
      var e := Entity(s[0]);
      assert forall i :: 0 <= i < |e| ==> !Markup(e[i]);
      var r := EscapeEach(s);
      forall i | 0 <= i < |r| ensures !Markup(r[i]) {
        if i >= |e| { assert r[i] == EscapeEach(s[1..])[i - |e|]; }
      }
    }
  }

  lemma EscapeHtmlSafe(s: string)
    ensures forall i :: 0 <= i < |EscapeHtml(s)| ==> !Markup(EscapeHtml(s)[i])
  {
    EscapeIsPerCharacter(s);
    EscapeEachSafe(s);
  }

  /** Reading the entities back: the inverse the escaping is checked against. */
  function Unescape(s: string): string
    decreases |s|
  {
    if |s| == 0 then ""
    else if StartsWith(s, "&amp;") then "&" + Unescape(s[5..])
    else if StartsWith(s, "&lt;") then "<" + Unescape(s[4..])
    else if StartsWith(s, "&gt;") then ">" + Unescape(s[4..])
    else if StartsWith(s, "&quot;") then "\"" + Unescape(s[6..])
    else if StartsWith(s, "&#039;") then "'" + Unescape(s[6..])
    else [s[0]] + Unescape(s[1..])
  }

  lemma UnescapeEntity(c: char, rest: string)
    ensures Unescape(Entity(c) + rest) == [c] + Unescape(rest)
  {
    var s := Entity(c) + rest;
    var e := Entity(c);
    assert s[..|e|] == e;
    assert s[|e|..] == rest;
    if c == '&' {
      assert StartsWith(s, "&amp;");
    } else if c == '<' {
      assert !StartsWith(s, "&amp;") by { assert s[1] == 'l'; }
      assert StartsWith(s, "&lt;");
    } else if c == '>' {
      assert !StartsWith(s, "&amp;") && !StartsWith(s, "&lt;") by { assert s[1] == 'g'; }
      assert StartsWith(s, "&gt;");
    } else if c == '"' {
      assert !StartsWith(s, "&amp;") && !StartsWith(s, "&lt;") && !StartsWith(s, "&gt;") by { assert s[1] == 'q'; }
      assert StartsWith(s, "&quot;");
    } else if c == '\'' {
      assert !StartsWith(s, "&amp;") && !StartsWith(s, "&lt;") && !StartsWith(s, "&gt;") && !StartsWith(s, "&quot;") by { assert s[1] == '#'; }
      assert StartsWith(s, "&#039;");
    } else {
      assert s[0] == c;
      if c != '&' {
        assert !StartsWith(s, "&amp;") && !StartsWith(s, "&lt;") && !StartsWith(s, "&gt;") && !StartsWith(s, "&quot;") && !StartsWith(s, "&#039;");
      }
    }
  }

  /** Escaping loses nothing: reading the entities back gives the input. */
  lemma {:induction false} UnescapeEscape(s: string)
    ensures Unescape(EscapeHtml(s)) == s
    decreases |s|
  {
    EscapeIsPerCharacter(s);
    if |s| > 0 {
      UnescapeEscape(s[1..]);
      EscapeIsPerCharacter(s[1..]);
      UnescapeEntity(s[0], EscapeEach(s[1..]));
      assert [s[0]] + s[1..] == s;
    }
  }
}
