/**
 * `RateLimit`: a sliding-window limiter over the `rate_limits` table. A check drops the key's
 * entries older than the window, counts the rest, admits the request iff the count is under the
 * maximum and records it only then. A store error lets the request through.
 */
module RateLimit {
  import opened Wrappers
  import opened Text

  const DefaultWindowMs: int := 15 * 60 * 1000
  const DefaultMaxRequests: int := 5
  const DefaultKeyPrefix: string := "ratelimit"

  /** A row of `rate_limits`: the limited key and the instant of one admitted request, in milliseconds. */
  datatype Entry = Entry(key: string, timestamp: int)

  /** What the constructor is given; an absent field is None. */
  datatype Options = Options(windowMs: Option<int>, maxRequests: Option<int>, keyPrefix: Option<string>)

  datatype Config = Config(windowMs: int, maxRequests: int, keyPrefix: string)

  datatype CheckResult = CheckResult(allowed: bool, remaining: int, resetTime: int)

  /** `x || fallback` on a number: absence and 0 are falsy. */
  function OrNum(x: Option<int>, fallback: int): int {
    if x.Some? && x.value != 0 then x.value else fallback
  }

  /** The constructor's configuration: each falsy option falls back to its default. */
  function Configure(o: Options): (c: Config)
    ensures c.windowMs != 0 && c.maxRequests != 0 && c.keyPrefix != ""
    ensures o.windowMs.Some? && o.windowMs.value != 0 ==> c.windowMs == o.windowMs.value
    ensures o.maxRequests.Some? && o.maxRequests.value != 0 ==> c.maxRequests == o.maxRequests.value
    ensures Present(o.keyPrefix) ==> c.keyPrefix == o.keyPrefix.value
  {
    Config(OrNum(o.windowMs, DefaultWindowMs), OrNum(o.maxRequests, DefaultMaxRequests), Or(o.keyPrefix, DefaultKeyPrefix))
  }

  /** With nothing given the limiter admits 5 requests per 15 minutes under `ratelimit`; a full configuration is kept as it is. */
  lemma ConfigureDefaults(c: Config)
    requires c.windowMs != 0 && c.maxRequests != 0 && c.keyPrefix != ""
    ensures Configure(Options(None, None, None)) == Config(900000, 5, "ratelimit")
    ensures Configure(Options(Some(0), Some(0), Some(""))) == Config(900000, 5, "ratelimit")
    ensures Configure(Options(Some(c.windowMs), Some(c.maxRequests), Some(c.keyPrefix))) == c
  {
  }

  /** The key of an identifier: `prefix:identifier`. */
  function KeyOf(c: Config, identifier: string): string {
    c.keyPrefix + ":" + identifier
  }

  /**
   * Keys are separate: two identifiers share a key only when they are equal, and limiters whose
   * prefixes differ (and hold no `:`) never share a key, so login attempts never count against setup.
   */
  lemma KeysSeparate(c1: Config, c2: Config, a: string, b: string)
    requires ':' !in c1.keyPrefix && ':' !in c2.keyPrefix
    ensures KeyOf(c1, a) == KeyOf(c2, b) ==> c1.keyPrefix == c2.keyPrefix && a == b
  {
    var p1, p2 := c1.keyPrefix, c2.keyPrefix;
    var s1, s2 := KeyOf(c1, a), KeyOf(c2, b);
    if s1 == s2 {
      ColonAfter(p1, a);
      ColonAfter(p2, b);
      assert |p1| == |p2|;
      assert p1 == s1[..|p1|] && p2 == s2[..|p2|];
      assert a == s1[|p1| + 1..] && b == s2[|p2| + 1..];
    }
  }

  /** In a key the first `:` is the one right after a prefix that holds none. */
  lemma ColonAfter(p: string, a: string)
    requires ':' !in p
    ensures forall i :: 0 <= i < |p| ==> (p + ":" + a)[i] != ':'
    ensures (p + ":" + a)[|p|] == ':'
  {
    forall i | 0 <= i < |p|
      ensures (p + ":" + a)[i] != ':'
    {
      assert (p + ":" + a)[i] == p[i];
    }
  }

  // ------------------------------------------------------------------ the table

  /** The key's entries older than `before` removed; every other row kept, in order. */
  function Pruned(rows: seq<Entry>, key: string, before: int): (r: seq<Entry>)
    ensures |r| <= |rows|
    decreases |rows|
  {
    if |rows| == 0 then []
    else (if rows[0].key == key && rows[0].timestamp < before then [] else [rows[0]]) + Pruned(rows[1..], key, before)
  }

  /** Every entry of the key removed. */
  function Cleared(rows: seq<Entry>, key: string): (r: seq<Entry>)
    ensures |r| <= |rows|
    decreases |rows|
  {
    if |rows| == 0 then []
    else (if rows[0].key == key then [] else [rows[0]]) + Cleared(rows[1..], key)
  }

  /** Pruning keeps exactly the rows that are not stale entries of the key. */
  lemma {:induction false} PrunedMembers(rows: seq<Entry>, key: string, before: int)
    ensures forall e :: e in Pruned(rows, key, before) <==> e in rows && !(e.key == key && e.timestamp < before)
    decreases |rows|
  {
    if |rows| > 0 {
      PrunedMembers(rows[1..], key, before);
      assert rows == [rows[0]] + rows[1..];
    }
  }

  /** Clearing keeps exactly the rows of other keys. */
  lemma {:induction false} ClearedMembers(rows: seq<Entry>, key: string)
    ensures forall e :: e in Cleared(rows, key) <==> e in rows && e.key != key
    decreases |rows|
  {
    if |rows| > 0 {
      ClearedMembers(rows[1..], key);
      assert rows == [rows[0]] + rows[1..];
    }
  }

  predicate InWindow(e: Entry, key: string, since: int) {
    e.key == key && e.timestamp >= since
  }

  /** `SELECT COUNT(*) ... WHERE key = ? AND timestamp >= ?`. */
  function CountFrom(rows: seq<Entry>, key: string, since: int): nat
    decreases |rows|
  {
    if |rows| == 0 then 0
    else (if InWindow(rows[0], key, since) then 1 else 0) + CountFrom(rows[1..], key, since)
  }

  /** `SELECT MIN(timestamp) ... WHERE key = ? AND timestamp >= ?`: None when no row matches. */
  function OldestFrom(rows: seq<Entry>, key: string, since: int): (r: Option<int>)
    ensures r.None? <==> CountFrom(rows, key, since) == 0
    ensures r.None? ==> forall e :: e in rows ==> !InWindow(e, key, since)
    ensures r.Some? ==> Entry(key, r.value) in rows && r.value >= since
    ensures r.Some? ==> forall e :: e in rows && InWindow(e, key, since) ==> r.value <= e.timestamp
    decreases |rows|
  {
    if |rows| == 0 then None
    else
      assert rows == [rows[0]] + rows[1..];
      var rest := OldestFrom(rows[1..], key, since);
      if !InWindow(rows[0], key, since) then rest
      else if rest.None? || rows[0].timestamp <= rest.value then Some(rows[0].timestamp)
      else rest
  }

  lemma {:induction false} CountAppend(a: seq<Entry>, b: seq<Entry>, key: string, since: int)
    ensures CountFrom(a + b, key, since) == CountFrom(a, key, since) + CountFrom(b, key, since)
    decreases |a|
  {
    if |a| == 0 {
      assert a + b == b;
    } else {
      assert (a + b)[1..] == a[1..] + b;
      CountAppend(a[1..], b, key, since);
    }
  }

  /** Pruning entries older than the window start does not change the count inside the window. */
  lemma {:induction false} PrunedCount(rows: seq<Entry>, key: string, since: int)
    ensures CountFrom(Pruned(rows, key, since), key, since) == CountFrom(rows, key, since)
    decreases |rows|
  {
    if |rows| > 0 {
      var head := if rows[0].key == key && rows[0].timestamp < since then [] else [rows[0]];
      CountAppend(head, Pruned(rows[1..], key, since), key, since);
      PrunedCount(rows[1..], key, since);
      assert CountFrom(head, key, since) == (if InWindow(rows[0], key, since) then 1 else 0) by {
        if head != [] {
          assert head[1..] == [];
        }
      }
    }
  }

  /** A key with no entries counts nothing. */
  lemma {:induction false} ClearedCount(rows: seq<Entry>, key: string, since: int)
    ensures CountFrom(Cleared(rows, key), key, since) == 0
    decreases |rows|
  {
    if |rows| > 0 {
      var head := if rows[0].key == key then [] else [rows[0]];
      CountAppend(head, Cleared(rows[1..], key), key, since);
      ClearedCount(rows[1..], key, since);
      if head != [] {
        assert head[1..] == [];
      }
    }
  }

  /** The table and its fault budget: None is a healthy store, Some(k) lets k more writes through. */
  datatype Store = Store(rows: seq<Entry>, failAfter: Option<nat>)

  /** One statement that changes the table. */
  datatype Write = Prune(key: string, before: int) | Record(key: string, timestamp: int) | Clear(key: string)

  function Apply(rows: seq<Entry>, w: Write): seq<Entry> {
    match w
    case Prune(key, before) => Pruned(rows, key, before)
    case Record(key, ts) => rows + [Entry(key, ts)]
    case Clear(key) => Cleared(rows, key)
  }

  /** One write: the new store and whether it succeeded; a write that throws changes nothing. */
  function Step(s: Store, w: Write): (r: (Store, bool))
    ensures r.1 <==> s.failAfter != Some(0)
    ensures r.1 ==> r.0.rows == Apply(s.rows, w)
    ensures !r.1 ==> r.0 == s
  {
    if s.failAfter == Some(0) then (s, false)
    else (Store(Apply(s.rows, w), if s.failAfter.Some? then Some(s.failAfter.value - 1) else None), true)
  }

  /** What a failing check answers: admitted, the whole allowance left, reset one window from now. */
  function FailOpen(c: Config, now: int): CheckResult {
    CheckResult(true, c.maxRequests, now + c.windowMs)
  }

  /** `oldest ? oldest + window : now + window`: a window after the oldest entry, or after now. */
  function ResetTime(oldest: Option<int>, now: int, windowMs: int): int {
    if oldest.Some? && oldest.value != 0 then oldest.value + windowMs else now + windowMs
  }

  /** `check(identifier)` at instant `now`: the result and the table afterwards. */
  function Check(c: Config, s: Store, identifier: string, now: int): (CheckResult, Store) {
    var key := KeyOf(c, identifier);
    var windowStart := now - c.windowMs;
    var pruned := Step(s, Prune(key, windowStart));
    if !pruned.1 then (FailOpen(c, now), pruned.0)
    else Admit(c, pruned.0, key, windowStart, now)
  }

  /** The rest of a check once the stale entries are gone: count, decide, record an admitted request. */
  function Admit(c: Config, s: Store, key: string, windowStart: int, now: int): (CheckResult, Store) {
    var count := CountFrom(s.rows, key, windowStart);
    var remaining := if c.maxRequests - count > 0 then c.maxRequests - count else 0;
    if count >= c.maxRequests then
      (CheckResult(false, 0, ResetTime(OldestFrom(s.rows, key, windowStart), now, c.windowMs)), s)
    else
      var recorded := Step(s, Record(key, now));
      if !recorded.1 then (FailOpen(c, now), recorded.0)
      else (CheckResult(true, remaining - 1, ResetTime(OldestFrom(recorded.0.rows, key, windowStart), now, c.windowMs)), recorded.0)
  }

  /** `reset(identifier)`: the table and whether the delete succeeded (a failure is thrown to the caller). */
  function Reset(c: Config, s: Store, identifier: string): (Store, bool) {
    Step(s, Clear(KeyOf(c, identifier)))
  }

  /** The `rate_limits` table: the rows and the fault budget as fields; each write is one statement. */
  class LimitTable {
    var rows: seq<Entry>
    var failAfter: Option<nat>

    function State(): Store
      reads this
    {
      Store(rows, failAfter)
    }

    constructor(s: Store)
      ensures State() == s
    {
      rows, failAfter := s.rows, s.failAfter;
    }

    method Perform(w: Write) returns (ok: bool)
      modifies this
      ensures (State(), ok) == Step(old(State()), w)
    {
      if failAfter == Some(0) {
        return false;
      }
      rows := Apply(rows, w);
      if failAfter.Some? {
        failAfter := Some(failAfter.value - 1);
      }
      ok := true;
    }

    method Count(key: string, since: int) returns (n: nat)
      ensures n == CountFrom(rows, key, since)
    {
      n := CountFrom(rows, key, since);
    }

    method Oldest(key: string, since: int) returns (ts: Option<int>)
      ensures ts == OldestFrom(rows, key, since)
    {
      ts := OldestFrom(rows, key, since);
    }
  }

  /** `RateLimiter`: a configuration fixed at construction and the table it keeps its entries in. */
  class RateLimiter {
    const config: Config
    const table: LimitTable

    constructor(table: LimitTable, options: Options)
      ensures config == Configure(options) && this.table == table
    {
      config := Configure(options);
      this.table := table;
    }

    method CheckRequest(identifier: string, now: int) returns (r: CheckResult)
      modifies table
      ensures (r, table.State()) == Check(config, old(table.State()), identifier, now)
    {
      var key := config.keyPrefix + ":" + identifier;
      var windowStart := now - config.windowMs;
      assert key == KeyOf(config, identifier);
      var ok := table.Perform(Prune(key, windowStart));
      if !ok {
        return FailOpen(config, now);
      }
      r := AdmitRequest(key, windowStart, now);
    }

    /** The rest of `check` once the stale entries are deleted: count, decide, record an admitted request. */
    method AdmitRequest(key: string, windowStart: int, now: int) returns (r: CheckResult)
      modifies table
      ensures (r, table.State()) == Admit(config, old(table.State()), key, windowStart, now)
    {
      ghost var s1 := table.State();
      var currentCount := table.Count(key, windowStart);
      var remaining := if config.maxRequests - currentCount > 0 then config.maxRequests - currentCount else 0;
      var allowed := currentCount < config.maxRequests;
      if allowed {
        var ok := table.Perform(Record(key, now));
        if !ok {
          return FailOpen(config, now);
        }
      }
      assert table.rows == if allowed then Apply(s1.rows, Record(key, now)) else s1.rows;
      var oldest := table.Oldest(key, windowStart);
      var resetTime := if oldest.Some? && oldest.value != 0 then oldest.value + config.windowMs else now + config.windowMs;
      r := CheckResult(allowed, if allowed then remaining - 1 else 0, resetTime);
    }

    method ResetKey(identifier: string) returns (ok: bool)
      modifies table
      ensures (table.State(), ok) == Reset(config, old(table.State()), identifier)
    {
      ok := table.Perform(Clear(config.keyPrefix + ":" + identifier));
    }
  }

  // ------------------------------------------------------------------ properties of a check

  /**
   * On a healthy store the check prunes the key's stale entries, admits the request iff fewer than
   * the maximum remain in the window, records it only then, and reports what is left (never negative).
   */
  lemma CheckDecides(c: Config, s: Store, identifier: string, now: int)
    requires s.failAfter.None?
    ensures var key := KeyOf(c, identifier);
      var windowStart := now - c.windowMs;
      var count := CountFrom(s.rows, key, windowStart);
      var r := Check(c, s, identifier, now).0;
      var s1 := Check(c, s, identifier, now).1;
      (r.allowed <==> count < c.maxRequests) &&
      r.remaining >= 0 &&
      (r.allowed ==> r.remaining == c.maxRequests - count - 1) &&
      (!r.allowed ==> r.remaining == 0) &&
      s1.rows == Pruned(s.rows, key, windowStart) + (if r.allowed then [Entry(key, now)] else [])
  {
    PrunedCount(s.rows, KeyOf(c, identifier), now - c.windowMs);
  }

  /** No entry of the key older than the window survives a check, and other keys' entries are untouched. */
  lemma CheckPrunes(c: Config, s: Store, identifier: string, now: int)
    ensures var key := KeyOf(c, identifier);
      var s1 := Check(c, s, identifier, now).1;
      s.failAfter != Some(0) ==>
        (forall e :: e in s1.rows && e.key == key ==> e.timestamp >= now - c.windowMs || e.timestamp == now) &&
        (forall e: Entry :: e.key != key ==> (e in s1.rows <==> e in s.rows))
  {
    PrunedMembers(s.rows, KeyOf(c, identifier), now - c.windowMs);
  }

  /**
   * The window keeps its bound: with a positive window, an admitted request brings the window's
   * count to at most the maximum, and a refused one leaves the count as it was.
   */
  lemma CheckKeepsBound(c: Config, s: Store, identifier: string, now: int)
    requires s.failAfter.None? && c.windowMs > 0
    ensures var key := KeyOf(c, identifier);
      var windowStart := now - c.windowMs;
      var r := Check(c, s, identifier, now).0;
      var s1 := Check(c, s, identifier, now).1;
      CountFrom(s1.rows, key, windowStart) == CountFrom(s.rows, key, windowStart) + (if r.allowed then 1 else 0) &&
      (r.allowed ==> CountFrom(s1.rows, key, windowStart) <= c.maxRequests)
  {
    var key := KeyOf(c, identifier);
    var windowStart := now - c.windowMs;
    var pruned := Pruned(s.rows, key, windowStart);
    PrunedCount(s.rows, key, windowStart);
    assert Check(c, s, identifier, now) == Admit(c, Store(pruned, None), key, windowStart, now);
    AdmitCounts(c, pruned, key, windowStart, now);
  }

  /** Recording an admitted request inside the window adds exactly one to the window's count. */
  lemma AdmitCounts(c: Config, rows: seq<Entry>, key: string, windowStart: int, now: int)
    requires windowStart < now
    ensures var a := Admit(c, Store(rows, None), key, windowStart, now);
      CountFrom(a.1.rows, key, windowStart) == CountFrom(rows, key, windowStart) + (if a.0.allowed then 1 else 0)
  {
    if CountFrom(rows, key, windowStart) < c.maxRequests {
      var tail := [Entry(key, now)];
      assert Admit(c, Store(rows, None), key, windowStart, now).1.rows == rows + tail;
      CountAppend(rows, tail, key, windowStart);
      assert CountFrom(tail, key, windowStart) == 1 by {
        assert tail[1..] == [];
      }
    }
  }

  /** A key whose window is full is refused, whatever the identifier's history, and nothing is recorded. */
  lemma FullWindowRefused(c: Config, s: Store, identifier: string, now: int)
    requires s.failAfter.None?
    requires CountFrom(s.rows, KeyOf(c, identifier), now - c.windowMs) >= c.maxRequests
    ensures var r := Check(c, s, identifier, now).0;
      var s1 := Check(c, s, identifier, now).1;
      !r.allowed && r.remaining == 0 && s1.rows == Pruned(s.rows, KeyOf(c, identifier), now - c.windowMs)
  {
    CheckDecides(c, s, identifier, now);
  }

  /**
   * An admitted request on a healthy store with a positive window and positive instants resets
   * within one window: no earlier than now, no later than now plus the window.
   */
  lemma AdmittedResetTime(c: Config, s: Store, identifier: string, now: int)
    requires s.failAfter.None? && c.windowMs > 0 && now > 0
    requires Check(c, s, identifier, now).0.allowed
    ensures var r := Check(c, s, identifier, now).0;
      now <= r.resetTime <= now + c.windowMs
  {
    var key := KeyOf(c, identifier);
    var windowStart := now - c.windowMs;
    CheckDecides(c, s, identifier, now);
    var s1 := Check(c, s, identifier, now).1;
    assert Entry(key, now) in s1.rows;
    assert InWindow(Entry(key, now), key, windowStart);
  }

  /**
   * A refused request on a healthy store with a positive window, whose entries all lie no later
   * than now, also resets within one window.
   */
  lemma RefusedResetTime(c: Config, s: Store, identifier: string, now: int)
    requires s.failAfter.None? && c.windowMs > 0
    requires forall e :: e in s.rows ==> e.timestamp <= now
    requires !Check(c, s, identifier, now).0.allowed
    ensures var r := Check(c, s, identifier, now).0;
      now <= r.resetTime <= now + c.windowMs
  {
    var key := KeyOf(c, identifier);
    var windowStart := now - c.windowMs;
    var pruned := Pruned(s.rows, key, windowStart);
    PrunedMembers(s.rows, key, windowStart);
    var ps := Store(pruned, None);
    assert Step(s, Prune(key, windowStart)) == (ps, true);
    assert Check(c, s, identifier, now) == Admit(c, ps, key, windowStart, now);
  }

  /** On a healthy store the prune succeeds and the check is the admission over the pruned rows. */
  lemma CheckIsAdmit(c: Config, s: Store, identifier: string, now: int)
    requires s.failAfter.None?
    ensures var key := KeyOf(c, identifier);
      Check(c, s, identifier, now) == Admit(c, Store(Pruned(s.rows, key, now - c.windowMs), None), key, now - c.windowMs, now)
  {
  }

  /**
   * A check fails open: when the prune or the record throws, the request is admitted with the whole
   * allowance and a reset one window away; a failed prune leaves the table as it was.
   */
  lemma CheckFailsOpen(c: Config, s: Store, identifier: string, now: int)
    ensures s.failAfter == Some(0) ==> Check(c, s, identifier, now) == (FailOpen(c, now), s)
    ensures var key := KeyOf(c, identifier);
      var windowStart := now - c.windowMs;
      s.failAfter == Some(1) && CountFrom(s.rows, key, windowStart) < c.maxRequests ==>
        Check(c, s, identifier, now) == (FailOpen(c, now), Store(Pruned(s.rows, key, windowStart), Some(0)))
    ensures Check(c, s, identifier, now).0.allowed || Check(c, s, identifier, now).0.remaining == 0
  {
    PrunedCount(s.rows, KeyOf(c, identifier), now - c.windowMs);
  }

  /** `reset` removes every entry of the key and nothing else. */
  lemma ResetClears(c: Config, s: Store, identifier: string)
    ensures var s1 := Reset(c, s, identifier).0;
      Reset(c, s, identifier).1 ==>
        (forall e :: e in s1.rows <==> e in s.rows && e.key != KeyOf(c, identifier))
    ensures !Reset(c, s, identifier).1 ==> Reset(c, s, identifier).0 == s
  {
    ClearedMembers(s.rows, KeyOf(c, identifier));
  }

  /** After a successful reset, the next check on a healthy store is admitted with the allowance less one. */
  lemma CheckAfterReset(c: Config, s: Store, identifier: string, now: int)
    requires Reset(c, s, identifier).1 && Reset(c, s, identifier).0.failAfter.None?
    requires c.maxRequests > 0 && c.windowMs >= 0
    ensures Check(c, Reset(c, s, identifier).0, identifier, now).0 == CheckResult(true, c.maxRequests - 1, now + c.windowMs)
  {
    var key := KeyOf(c, identifier);
    var windowStart := now - c.windowMs;
    var s1 := Reset(c, s, identifier).0;
    assert s1.rows == Cleared(s.rows, key);
    ClearedCount(s.rows, key, windowStart);
    PrunedCount(s1.rows, key, windowStart);
    CheckIsAdmit(c, s1, identifier, now);
    AdmitFresh(c, Pruned(s1.rows, key, windowStart), key, windowStart, now);
  }

  /** On a healthy store with no entry in the window, the request is admitted and becomes the oldest. */
  lemma AdmitFresh(c: Config, rows: seq<Entry>, key: string, windowStart: int, now: int)
    requires CountFrom(rows, key, windowStart) == 0 && now >= windowStart && c.maxRequests > 0
    ensures Admit(c, Store(rows, None), key, windowStart, now)
      == (CheckResult(true, c.maxRequests - 1, now + c.windowMs), Store(rows + [Entry(key, now)], None))
  {
    var rec := Store(rows + [Entry(key, now)], None);
    assert Step(Store(rows, None), Record(key, now)) == (rec, true);
    OldestAfterClear(rows, key, windowStart, now);
    assert ResetTime(Some(now), now, c.windowMs) == now + c.windowMs;
  }

  /** With no entry in the window, recording one makes it the oldest. */
  lemma OldestAfterClear(rows: seq<Entry>, key: string, since: int, now: int)
    requires CountFrom(rows, key, since) == 0 && now >= since
    ensures OldestFrom(rows + [Entry(key, now)], key, since) == Some(now)
  {
    var all := rows + [Entry(key, now)];
    CountAppend(rows, [Entry(key, now)], key, since);
    var o := OldestFrom(all, key, since);
    assert [Entry(key, now)][1..] == [];
    assert o.Some?;
    assert Entry(key, now) in all;
    assert o.value <= now;
    assert Entry(key, o.value) in all;
    if o.value != now {
      assert Entry(key, o.value) in rows;
      InWindowCounts(rows, Entry(key, o.value), key, since);
    }
  }

  /** An entry inside the window is counted. */
  lemma {:induction false} InWindowCounts(rows: seq<Entry>, e: Entry, key: string, since: int)
    requires e in rows && InWindow(e, key, since)
    ensures CountFrom(rows, key, since) > 0
    decreases |rows|
  {
    if rows[0] != e {
      InWindowCounts(rows[1..], e, key, since);
    }
  }

  // ------------------------------------------------------------------ getClientIP

  /** The first comma-separated value of `x-forwarded-for`, trimmed. */
  function FirstForwarded(v: string): string {
    Trim(Split(v, ',')[0])
  }

  /**
   * `getClientIP`: `cf-connecting-ip`, then `x-real-ip`, then the first `x-forwarded-for` value,
   * each only when non-empty, and `unknown` when none is.
   */
  function ClientIP(connectingIp: Option<string>, realIp: Option<string>, forwardedFor: Option<string>): (ip: string)
    ensures ip != ""
    ensures Present(connectingIp) ==> ip == connectingIp.value
    ensures !Present(connectingIp) && Present(realIp) ==> ip == realIp.value
    ensures !Present(connectingIp) && !Present(realIp) && forwardedFor.Some? && FirstForwarded(forwardedFor.value) != "" ==>
      ip == FirstForwarded(forwardedFor.value)
    ensures !Present(connectingIp) && !Present(realIp) && (forwardedFor.None? || FirstForwarded(forwardedFor.value) == "") ==>
      ip == "unknown"
  {
    if Present(connectingIp) then connectingIp.value
    else if Present(realIp) then realIp.value
    else if forwardedFor.Some? && FirstForwarded(forwardedFor.value) != "" then FirstForwarded(forwardedFor.value)
    else "unknown"
  }

  /** The forwarded list yields its first hop: the text before the first comma, white space trimmed. */
  lemma ForwardedFirstHop(hop: string, rest: string)
    requires ',' !in hop
    ensures FirstForwarded(hop + "," + rest) == Trim(hop)
  {
    SplitAfterFirst(hop, rest, ',');
  }
}
