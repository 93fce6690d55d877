/**
 * Session expiry as the store compares it. A session's `expires_at` is written as the ISO text
 * `YYYY-MM-DDTHH:MM:SS.sssZ`, and the session lookup and the clean-up compare it, as TEXT, with
 * SQLite's `datetime('now')`, whose text is `YYYY-MM-DD HH:MM:SS`. This module models both formats and
 * SQLite's binary text order, shows where that comparison departs from the time order, and proves
 * that comparing two texts of the same format does follow the time order.
 */
module Expiry {
  import opened Text

  /** A UTC calendar instant with millisecond precision, as `Date.prototype.toISOString` prints it. */
  datatype DateTime = DateTime(year: nat, month: nat, day: nat, hour: nat, minute: nat, second: nat, millis: nat)

  predicate ValidDateTime(d: DateTime) {
    d.year < 10000 && 1 <= d.month <= 12 && 1 <= d.day <= 31 &&
    d.hour < 24 && d.minute < 60 && d.second < 60 && d.millis < 1000
  }

  /** The time order: field by field, most significant first. */
  predicate Before(a: DateTime, b: DateTime) {
    a.year < b.year || (a.year == b.year &&
    (a.month < b.month || (a.month == b.month &&
    (a.day < b.day || (a.day == b.day &&
    (a.hour < b.hour || (a.hour == b.hour &&
    (a.minute < b.minute || (a.minute == b.minute &&
    (a.second < b.second || (a.second == b.second &&
    a.millis < b.millis)))))))))))
  }

  predicate SameDate(a: DateTime, b: DateTime) {
    a.year == b.year && a.month == b.month && a.day == b.day
  }

  function Pow10(w: nat): (p: nat)
    ensures p >= 1
  {
    if w == 0 then 1 else 10 * Pow10(w - 1)
  }

  /** `n` in exactly `w` decimal digits, zero-padded on the left. */
  function Pad(n: nat, w: nat): (s: string)
    ensures |s| == w
  {
    if w == 0 then [] else Pad(n / 10, w - 1) + [DigitChar(n % 10)]
  }

  /** SQLite's BINARY collation on ASCII text: char by char, and a proper prefix sorts first. */
  predicate LessText(a: string, b: string)
    decreases |a|
  {
    if |a| == 0 then |b| > 0
    else if |b| == 0 then false
    else if a[0] != b[0] then a[0] < b[0]
    else LessText(a[1..], b[1..])
  }

  /** One zero-padded field, its separator, then the rest of the text. */
  function Field(n: nat, w: nat, sep: char, rest: string): string {
    Pad(n, w) + ([sep] + rest)
  }

  /** `toISOString()`: `YYYY-MM-DDTHH:MM:SS.sssZ`. */
  function IsoText(d: DateTime): string {
    Field(d.year, 4, '-', Field(d.month, 2, '-', Field(d.day, 2, 'T',
      Field(d.hour, 2, ':', Field(d.minute, 2, ':', Field(d.second, 2, '.', Field(d.millis, 3, 'Z', "")))))))
  }

  /** SQLite's `datetime('now')`: `YYYY-MM-DD HH:MM:SS`. */
  function SqlText(d: DateTime): string {
    Field(d.year, 4, '-', Field(d.month, 2, '-', Field(d.day, 2, ' ',
      Field(d.hour, 2, ':', Field(d.minute, 2, ':', Pad(d.second, 2))))))
  }

  /** `expires_at > datetime('now')`, the live-session test as written. */
  predicate LiveAsWritten(expires: DateTime, now: DateTime) {
    LessText(SqlText(now), IsoText(expires))
  }

  /** `expires_at < datetime('now')`, the clean-up test as written. */
  predicate ExpiredAsWritten(expires: DateTime, now: DateTime) {
    LessText(IsoText(expires), SqlText(now))
  }

  /** The comparison with both sides in the stored ISO format. */
  predicate LiveCorrected(expires: DateTime, now: DateTime) {
    LessText(IsoText(now), IsoText(expires))
  }

  predicate ExpiredCorrected(expires: DateTime, now: DateTime) {
    LessText(IsoText(expires), IsoText(now))
  }

  // ------------------------------------------------------------------ the text order

  lemma {:induction false} LessTextIrreflexive(a: string)
    ensures !LessText(a, a)
    decreases |a|
  {
    if |a| > 0 {
      LessTextIrreflexive(a[1..]);
    }
  }

  /** Comparing two texts that start with blocks of the same length: the blocks decide unless equal. */
  lemma {:induction false} LessConcat(u1: string, v1: string, u2: string, v2: string)
    requires |u1| == |u2|
    ensures LessText(u1 + v1, u2 + v2) == (LessText(u1, u2) || (u1 == u2 && LessText(v1, v2)))
    decreases |u1|
  {
    if |u1| == 0 {
      assert u1 + v1 == v1 && u2 + v2 == v2;
    } else {
      assert (u1 + v1)[0] == u1[0] && (u2 + v2)[0] == u2[0];
      assert (u1 + v1)[1..] == u1[1..] + v1 && (u2 + v2)[1..] == u2[1..] + v2;
      if u1[0] == u2[0] {
        LessConcat(u1[1..], v1, u2[1..], v2);
        assert u1 == u2 <==> u1[1..] == u2[1..] by {
          assert u1 == [u1[0]] + u1[1..] && u2 == [u2[0]] + u2[1..];
        }
      } else {
        assert u1 != u2;
      }
    }
  }

  /** Zero-padded numbers of the same width compare as text exactly as they do as numbers. */
  lemma {:induction false} PadOrder(a: nat, b: nat, w: nat)
    requires a < Pow10(w) && b < Pow10(w)
    ensures LessText(Pad(a, w), Pad(b, w)) <==> a < b
    ensures Pad(a, w) == Pad(b, w) <==> a == b
    decreases w
  {
    if w == 0 {
    } else {
      PadOrder(a / 10, b / 10, w - 1);
      LessConcat(Pad(a / 10, w - 1), [DigitChar(a % 10)], Pad(b / 10, w - 1), [DigitChar(b % 10)]);
      assert a == 10 * (a / 10) + a % 10 && b == 10 * (b / 10) + b % 10;
      if Pad(a, w) == Pad(b, w) {
        assert Pad(a, w)[..w - 1] == Pad(a / 10, w - 1) && Pad(b, w)[..w - 1] == Pad(b / 10, w - 1);
        assert Pad(a, w)[w - 1] == DigitChar(a % 10) && Pad(b, w)[w - 1] == DigitChar(b % 10);
      }
    }
  }

  /** A field with the same width and separator on both sides. */
  lemma FieldOrder(a: nat, b: nat, w: nat, sep: char, ra: string, rb: string)
    requires a < Pow10(w) && b < Pow10(w)
    ensures LessText(Field(a, w, sep, ra), Field(b, w, sep, rb)) <==> a < b || (a == b && LessText(ra, rb))
    ensures Field(a, w, sep, ra) == Field(b, w, sep, rb) <==> a == b && ra == rb
  {
    PadOrder(a, b, w);
    LessConcat(Pad(a, w), [sep] + ra, Pad(b, w), [sep] + rb);
    LessConcat([sep], ra, [sep], rb);
    LessTextIrreflexive([sep]);
    if Field(a, w, sep, ra) == Field(b, w, sep, rb) {
      assert Field(a, w, sep, ra)[..w] == Pad(a, w) && Field(b, w, sep, rb)[..w] == Pad(b, w);
      assert Field(a, w, sep, ra)[w + 1..] == ra && Field(b, w, sep, rb)[w + 1..] == rb;
    }
  }

  /** Two ISO texts compare as text exactly as their instants compare in time. */
  lemma IsoOrder(a: DateTime, b: DateTime)
    requires ValidDateTime(a) && ValidDateTime(b)
    ensures LessText(IsoText(a), IsoText(b)) <==> Before(a, b)
  {
    assert Pow10(2) == 100 && Pow10(3) == 1000 && Pow10(4) == 10000;
    var ms := Field(a.millis, 3, 'Z', "");
    var mt := Field(b.millis, 3, 'Z', "");
    FieldOrder(a.millis, b.millis, 3, 'Z', "", "");
    var s1 := Field(a.second, 2, '.', ms);
    var s2 := Field(b.second, 2, '.', mt);
    FieldOrder(a.second, b.second, 2, '.', ms, mt);
    var n1 := Field(a.minute, 2, ':', s1);
    var n2 := Field(b.minute, 2, ':', s2);
    FieldOrder(a.minute, b.minute, 2, ':', s1, s2);
    var h1 := Field(a.hour, 2, ':', n1);
    var h2 := Field(b.hour, 2, ':', n2);
    FieldOrder(a.hour, b.hour, 2, ':', n1, n2);
    var d1 := Field(a.day, 2, 'T', h1);
    var d2 := Field(b.day, 2, 'T', h2);
    FieldOrder(a.day, b.day, 2, 'T', h1, h2);
    var m1 := Field(a.month, 2, '-', d1);
    var m2 := Field(b.month, 2, '-', d2);
    FieldOrder(a.month, b.month, 2, '-', d1, d2);
    FieldOrder(a.year, b.year, 4, '-', m1, m2);
  }

  // ------------------------------------------------------------------ the comparison as written

  /**
   * On the expiry date itself the test as written always says "live", whatever the times: after the
   * equal date the space of `datetime('now')` sorts below the `T` of the ISO text.
   */
  lemma SameDateAlwaysLive(expires: DateTime, now: DateTime)
    requires ValidDateTime(expires) && ValidDateTime(now) && SameDate(expires, now)
    ensures LiveAsWritten(expires, now)
    ensures !ExpiredAsWritten(expires, now)
  {
    assert Pow10(2) == 100 && Pow10(4) == 10000;
    var tn := Field(now.hour, 2, ':', Field(now.minute, 2, ':', Pad(now.second, 2)));
    var te := Field(expires.hour, 2, ':', Field(expires.minute, 2, ':', Field(expires.second, 2, '.', Field(expires.millis, 3, 'Z', ""))));
    LessConcat(Pad(now.day, 2), [' '] + tn, Pad(expires.day, 2), ['T'] + te);
    LessConcat(Pad(expires.day, 2), ['T'] + te, Pad(now.day, 2), [' '] + tn);
    PadOrder(now.day, expires.day, 2);
    var dn := Field(now.day, 2, ' ', tn);
    var de := Field(expires.day, 2, 'T', te);
    assert LessText(dn, de) && !LessText(de, dn);
    var mn := Field(now.month, 2, '-', dn);
    var me := Field(expires.month, 2, '-', de);
    FieldOrder(now.month, expires.month, 2, '-', dn, de);
    FieldOrder(expires.month, now.month, 2, '-', de, dn);
    FieldOrder(now.year, expires.year, 4, '-', mn, me);
    FieldOrder(expires.year, now.year, 4, '-', me, mn);
  }

  /** On any other date the test as written agrees with the time order. */
  lemma OtherDateAgrees(expires: DateTime, now: DateTime)
    requires ValidDateTime(expires) && ValidDateTime(now) && !SameDate(expires, now)
    ensures LiveAsWritten(expires, now) <==> Before(now, expires)
    ensures ExpiredAsWritten(expires, now) <==> Before(expires, now)
  {
    assert Pow10(2) == 100 && Pow10(4) == 10000;
    var tn := Field(now.hour, 2, ':', Field(now.minute, 2, ':', Pad(now.second, 2)));
    var te := Field(expires.hour, 2, ':', Field(expires.minute, 2, ':', Field(expires.second, 2, '.', Field(expires.millis, 3, 'Z', ""))));
    LessConcat(Pad(now.day, 2), [' '] + tn, Pad(expires.day, 2), ['T'] + te);
    LessConcat(Pad(expires.day, 2), ['T'] + te, Pad(now.day, 2), [' '] + tn);
    PadOrder(now.day, expires.day, 2);
    var dn := Field(now.day, 2, ' ', tn);
    var de := Field(expires.day, 2, 'T', te);
    assert dn[..2] == Pad(now.day, 2) && de[..2] == Pad(expires.day, 2);
    var mn := Field(now.month, 2, '-', dn);
    var me := Field(expires.month, 2, '-', de);
    FieldOrder(now.month, expires.month, 2, '-', dn, de);
    FieldOrder(expires.month, now.month, 2, '-', de, dn);
    FieldOrder(now.year, expires.year, 4, '-', mn, me);
    FieldOrder(expires.year, now.year, 4, '-', me, mn);
  }

  /** A session that expired at 10:00 is still live at 12:00 the same day. */
  lemma ExpiredSessionStillLive()
    ensures var expires := DateTime(2024, 1, 1, 10, 0, 0, 0);
      var now := DateTime(2024, 1, 1, 12, 0, 0, 0);
      Before(expires, now) && LiveAsWritten(expires, now) && !ExpiredAsWritten(expires, now)
  {
    SameDateAlwaysLive(DateTime(2024, 1, 1, 10, 0, 0, 0), DateTime(2024, 1, 1, 12, 0, 0, 0));
  }

  // ------------------------------------------------------------------ the corrected comparison

  /** With both sides in the ISO format the tests are exactly "now is before the expiry" and its mirror. */
  lemma CorrectedFollowsTime(expires: DateTime, now: DateTime)
    requires ValidDateTime(expires) && ValidDateTime(now)
    ensures LiveCorrected(expires, now) <==> Before(now, expires)
    ensures ExpiredCorrected(expires, now) <==> Before(expires, now)
  {
    IsoOrder(now, expires);
    IsoOrder(expires, now);
  }
}
