/**
 * The dashboard's emails store: the list of emails on screen, the email open in the reader,
 * the counters, a loading flag and the chosen view. Every action first awaits one API call;
 * the API's answers are parameters here, already decoded, and an `Err` is a call that threw.
 */
module EmailsStore {
  import opened Wrappers
  import opened Text
  import Json
  import Database
  import ApiClient
  import EmailsApi

  type Email = Database.Email
  type Failure = ApiClient.Failure

  datatype View = InboxView | SentView | StarredView

  /** `fetchEmails` always asks for this many emails. */
  const FetchLimit := 100

  const ZeroStats := Database.Stats(0, 0, 0, 0)

  datatype StoreState = StoreState(
    emails: seq<Email>,
    current: Option<Email>,
    stats: Database.Stats,
    isLoading: bool,
    view: View)

  /** The store as it is created: nothing listed, nothing open, zero counters, not loading, the inbox. */
  const Initial := StoreState([], None, ZeroStats, false, InboxView)

  // ------------------------------------------------------------------ the computed filters

  /** The emails that satisfy `p`, in their order in `es`. */
  function Keep(es: seq<Email>, p: Email -> bool): (r: seq<Email>)
    ensures |r| <= |es|
  {
    if |es| == 0 then [] else (if p(es[0]) then [es[0]] else []) + Keep(es[1..], p)
  }

  predicate IsReceived(e: Email) {
    e.kind == Database.Received
  }

  predicate IsSent(e: Email) {
    e.kind == Database.Sent
  }

  predicate IsStarred(e: Email) {
    e.isStarred == 1
  }

  /** The `inbox` view of the list. */
  function InboxOf(es: seq<Email>): seq<Email> {
    Keep(es, IsReceived)
  }

  /** The `sent` view of the list. */
  function SentOf(es: seq<Email>): seq<Email> {
    Keep(es, IsSent)
  }

  /** The `starred` view of the list. */
  function StarredOf(es: seq<Email>): seq<Email> {
    Keep(es, IsStarred)
  }

  /** A filter holds exactly the listed emails that satisfy its test. */
  lemma {:induction false} KeepMembers(es: seq<Email>, p: Email -> bool, e: Email)
    ensures e in Keep(es, p) <==> e in es && p(e)
    decreases |es|
  {
    if |es| > 0 {
      KeepMembers(es[1..], p, e);
      assert es == [es[0]] + es[1..];
    }
  }

  /** Filtering a list made of two parts filters each part and keeps them in order: the filters preserve order. */
  lemma {:induction false} KeepAppend(a: seq<Email>, b: seq<Email>, p: Email -> bool)
    ensures Keep(a + b, p) == Keep(a, p) + Keep(b, p)
    decreases |a|
  {
    if |a| == 0 {
      assert a + b == b;
    } else {
      var head := if p(a[0]) then [a[0]] else [];
      assert (a + b)[0] == a[0];
      assert (a + b)[1..] == a[1..] + b;
      assert Keep(a + b, p) == head + Keep(a[1..] + b, p);
      KeepAppend(a[1..], b, p);
      assert Keep(a, p) == head + Keep(a[1..], p);
    }
  }

  /** Every email is received or sent, so the inbox and the sent view split the list between them. */
  lemma {:induction false} InboxSentSplit(es: seq<Email>)
    ensures |InboxOf(es)| + |SentOf(es)| == |es|
    decreases |es|
  {
    if |es| > 0 {
      InboxSentSplit(es[1..]);
    }
  }

  /** The three views hold the listed emails of type received, of type sent, and with the star flag at 1. */
  lemma ViewMembers(es: seq<Email>, e: Email)
    ensures e in InboxOf(es) <==> e in es && e.kind == Database.Received
    ensures e in SentOf(es) <==> e in es && e.kind == Database.Sent
    ensures e in StarredOf(es) <==> e in es && e.isStarred == 1
  {
    KeepMembers(es, IsReceived, e);
    KeepMembers(es, IsSent, e);
    KeepMembers(es, IsStarred, e);
  }

  // ------------------------------------------------------------------ finding and changing one entry

  /** The first position from `k` on where the list holds an email with this id (`findIndex`, `find`). */
  function FirstFrom(es: seq<Email>, id: string, k: nat): (r: Option<nat>)
    requires k <= |es|
    ensures r.Some? ==> k <= r.value < |es|
    decreases |es| - k
  {
    if k == |es| then None
    else if es[k].id == id then Some(k)
    else FirstFrom(es, id, k + 1)
  }

  function FirstIndex(es: seq<Email>, id: string): (r: Option<nat>)
    ensures r.Some? ==> r.value < |es|
  {
    FirstFrom(es, id, 0)
  }

  lemma {:induction false} FirstFromFinds(es: seq<Email>, id: string, k: nat)
    requires k <= |es|
    ensures match FirstFrom(es, id, k)
      case Some(i) => k <= i < |es| && es[i].id == id && forall j :: k <= j < i ==> es[j].id != id
      case None => forall j :: k <= j < |es| ==> es[j].id != id
    decreases |es| - k
  {
    if k < |es| && es[k].id != id {
      FirstFromFinds(es, id, k + 1);
    }
  }

  /** `FirstIndex` finds the first email with the id, and finds nothing only when no email has it. */
  lemma FirstIndexFinds(es: seq<Email>, id: string)
    ensures match FirstIndex(es, id)
      case Some(i) => i < |es| && es[i].id == id && forall j :: 0 <= j < i ==> es[j].id != id
      case None => forall j :: 0 <= j < |es| ==> es[j].id != id
  {
    FirstFromFinds(es, id, 0);
  }

  /** The in-place changes the actions make to an email: set the read flag, or flip the star. */
  datatype Change = SetRead(flag: int) | FlipStar

  /** `is_starred === 1 ? 0 : 1`. */
  function Flip(x: int): int {
    if x == 1 then 0 else 1
  }

  function Changed(e: Email, c: Change): Email {
    match c
    case SetRead(v) => e.(isRead := v)
    case FlipStar => e.(isStarred := Flip(e.isStarred))
  }

  /** The list with the change made to its first email with the id, if there is one. */
  function ChangeFirst(es: seq<Email>, id: string, c: Change): seq<Email> {
    match FirstIndex(es, id)
    case None => es
    case Some(i) => es[i := Changed(es[i], c)]
  }

  /** The open email with the change made, when it is the one with the id. */
  function ChangeCurrent(current: Option<Email>, id: string, c: Change): Option<Email> {
    if current.Some? && current.value.id == id then Some(Changed(current.value, c)) else current
  }

  /** The list without any email with the id, in order (`filter(e => e.id !== id)`). */
  function Without(es: seq<Email>, id: string): (r: seq<Email>)
    ensures |r| <= |es|
  {
    if |es| == 0 then []
    else (if es[0].id != id then [es[0]] else []) + Without(es[1..], id)
  }

  /** Flipping twice gives the flag back exactly when it was 0 or 1; any other value comes back as 1. */
  lemma FlipTwice(x: int)
    ensures Flip(Flip(x)) == x <==> x == 0 || x == 1
    ensures Flip(x) == 0 || Flip(x) == 1
  {
  }

  /** A change keeps every id, so the email changed first is found first again. */
  lemma ChangeKeepsIds(es: seq<Email>, id: string, c: Change)
    ensures |ChangeFirst(es, id, c)| == |es|
    ensures forall j :: 0 <= j < |es| ==> ChangeFirst(es, id, c)[j].id == es[j].id
    ensures FirstIndex(ChangeFirst(es, id, c), id) == FirstIndex(es, id)
  {
    var r := ChangeFirst(es, id, c);
    assert forall j :: 0 <= j < |es| ==> r[j].id == es[j].id;
    SameIdsSameFirst(es, r, id, 0);
  }

  lemma {:induction false} SameIdsSameFirst(a: seq<Email>, b: seq<Email>, id: string, k: nat)
    requires |a| == |b| && k <= |a|
    requires forall j :: 0 <= j < |a| ==> a[j].id == b[j].id
    ensures FirstFrom(a, id, k) == FirstFrom(b, id, k)
    decreases |a| - k
  {
    if k < |a| {
      assert a[k].id == b[k].id;
      SameIdsSameFirst(a, b, id, k + 1);
    }
  }

  /**
   * Only the first email with the id changes, and only the flag of the change; with no such email
   * the list stays as it was.
   */
  lemma ChangeFirstOnly(es: seq<Email>, id: string, c: Change)
    ensures |ChangeFirst(es, id, c)| == |es|
    ensures FirstIndex(es, id).None? ==> ChangeFirst(es, id, c) == es
    ensures FirstIndex(es, id).Some? ==>
      var i := FirstIndex(es, id).value;
      && i < |es| && es[i].id == id
      && ChangeFirst(es, id, c)[i] == Changed(es[i], c)
      && forall j :: 0 <= j < |es| && j != i ==> ChangeFirst(es, id, c)[j] == es[j]
  {
    FirstIndexFinds(es, id);
  }

  /** Deleting keeps exactly the emails with other ids. */
  lemma {:induction false} WithoutMembers(es: seq<Email>, id: string, e: Email)
    ensures e in Without(es, id) <==> e in es && e.id != id
    decreases |es|
  {
    if |es| > 0 {
      WithoutMembers(es[1..], id, e);
      assert es == [es[0]] + es[1..];
    }
  }

  /** Deleting keeps the order of the others and drops nothing else. */
  lemma {:induction false} WithoutAppend(a: seq<Email>, b: seq<Email>, id: string)
    ensures Without(a + b, id) == Without(a, id) + Without(b, id)
    decreases |a|
  {
    if |a| == 0 {
      assert a + b == b;
    } else {
      var h := if a[0].id != id then [a[0]] else [];
      assert (a + b)[0] == a[0];
      assert (a + b)[1..] == a[1..] + b;
      assert Without(a + b, id) == h + Without(a[1..] + b, id);
      WithoutAppend(a[1..], b, id);
      assert Without(a, id) == h + Without(a[1..], id);
      assert h + (Without(a[1..], id) + Without(b, id)) == (h + Without(a[1..], id)) + Without(b, id);
    }
  }

  // ------------------------------------------------------------------ the actions on the store's state

  /** The error an action rethrows, if its call threw. */
  function Thrown<T>(answer: Result<T, Failure>): Option<Failure> {
    if answer.Err? then Some(answer.error) else None
  }

  /** `fetchStats`: the counters are replaced on success; a failure is logged and swallowed. */
  function AfterFetchStats(s: StoreState, answer: Result<Database.Stats, Failure>): StoreState {
    if answer.Ok? then s.(stats := answer.value) else s
  }

  /** The options `fetchEmails` hands to `getEmails`: the type if given, and a limit of 100. */
  function FetchOptions(kind: Option<Database.EmailType>): ApiClient.ListOptions {
    ApiClient.ListOptions(
      if kind.Some? then Some(Database.TypeName(kind.value)) else None,
      Some(FetchLimit), None, false, false)
  }

  /** `fetchEmails`: the list is replaced by the answer; the loading flag ends false either way. */
  function AfterFetchEmails(s: StoreState, answer: Result<seq<Email>, Failure>): StoreState {
    s.(emails := if answer.Ok? then answer.value else s.emails, isLoading := false)
  }

  /**
   * `fetchEmail`: the answer becomes the open email, the first listed email with the id is marked
   * read, and the counters are fetched; if the email cannot be fetched only the loading flag moves.
   */
  function AfterFetchEmail(s: StoreState, id: string, answer: Result<Email, Failure>,
                           statsAnswer: Result<Database.Stats, Failure>): StoreState
  {
    if answer.Err? then s.(isLoading := false)
    else
      AfterFetchStats(s.(current := Some(answer.value), emails := ChangeFirst(s.emails, id, SetRead(1))),
                      statsAnswer).(isLoading := false)
  }

  /**
   * `markAsRead`, `markAsUnread` and `toggleStar`: once the call has succeeded, the change is made to
   * the first listed email with the id and to the open email if it has the id, and the counters are
   * fetched; a call that throws changes nothing.
   */
  function AfterFlag(s: StoreState, id: string, c: Change, call: Result<Json.Json, Failure>,
                     statsAnswer: Result<Database.Stats, Failure>): StoreState
  {
    if call.Err? then s
    else AfterFetchStats(s.(emails := ChangeFirst(s.emails, id, c), current := ChangeCurrent(s.current, id, c)),
                         statsAnswer)
  }

  /** `deleteEmail`: once the call has succeeded, every email with the id leaves the list and the reader. */
  function AfterDelete(s: StoreState, id: string, call: Result<Json.Json, Failure>,
                       statsAnswer: Result<Database.Stats, Failure>): StoreState
  {
    if call.Err? then s
    else
      AfterFetchStats(
        s.(emails := Without(s.emails, id),
           current := if s.current.Some? && s.current.value.id == id then None else s.current),
        statsAnswer)
  }

  /** `sendEmail`: after the send the list is refetched as the sent emails, then the counters. */
  function AfterSend(s: StoreState, sent: Result<Json.Json, Failure>, list: Result<seq<Email>, Failure>,
                     statsAnswer: Result<Database.Stats, Failure>): StoreState
  {
    if sent.Err? then s
    else if list.Err? then AfterFetchEmails(s, list)
    else AfterFetchStats(AfterFetchEmails(s, list), statsAnswer)
  }

  /** What `sendEmail` returns or throws: the send's answer, unless the refetch of the list threw. */
  function SendOutcome(sent: Result<Json.Json, Failure>, list: Result<seq<Email>, Failure>): Result<Json.Json, Failure> {
    if sent.Ok? && list.Err? then Err(list.error) else sent
  }

  // ------------------------------------------------------------------ what the actions promise

  /** A fetched list replaces the old one; a failed fetch keeps it; loading is over either way. */
  lemma FetchEmailsReplaces(s: StoreState, answer: Result<seq<Email>, Failure>)
    ensures !AfterFetchEmails(s, answer).isLoading
    ensures answer.Ok? ==> AfterFetchEmails(s, answer).emails == answer.value
    ensures answer.Err? ==> AfterFetchEmails(s, answer).emails == s.emails
    ensures AfterFetchEmails(s, answer).current == s.current && AfterFetchEmails(s, answer).stats == s.stats
  {
  }

  /** The worker reads the request of `fetchEmails` as that type, if any, and a limit of 100. */
  lemma FetchAsksForHundred(kind: Option<Database.EmailType>)
    ensures var q := ApiClient.ServerView(ApiClient.ParseQuery(ApiClient.QueryString(ApiClient.QueryParams(FetchOptions(kind)))));
      && q.kind == (if kind.Some? then Some(Database.TypeName(kind.value)) else None)
      && q.offset.None? && q.unread.None? && q.starred.None?
      && q.limit == Some("100") && EmailsApi.ListLimit(q) == Some(100)
  {
    var o := FetchOptions(kind);
    if kind.Some? {
      var name := Database.TypeName(kind.value);
      forall i | 0 <= i < |name|
        ensures ApiClient.PlainChar(name[i])
      {
      }
    }
    ApiClient.WorkerReadsOptions(o);
    FetchLimitText();
  }

  /** The limit goes out as the text `100`. */
  lemma FetchLimitText()
    ensures IntToString(FetchLimit) == "100"
  {
    assert NatToString(1) == "1";
    assert NatToString(10) == "10";
  }

  /** Opening an email puts it in the reader and marks its first listed copy read, and nothing else in the list. */
  lemma FetchEmailMarksRead(s: StoreState, id: string, e: Email, statsAnswer: Result<Database.Stats, Failure>)
    ensures var t := AfterFetchEmail(s, id, Ok(e), statsAnswer);
      && t.current == Some(e)
      && !t.isLoading
      && |t.emails| == |s.emails|
      && (forall j :: 0 <= j < |s.emails| && s.emails[j].id != id ==> t.emails[j] == s.emails[j])
      && (FirstIndex(s.emails, id).Some? ==>
            t.emails[FirstIndex(s.emails, id).value] == s.emails[FirstIndex(s.emails, id).value].(isRead := 1))
      && t.stats == (if statsAnswer.Ok? then statsAnswer.value else s.stats)
  {
    ChangeFirstOnly(s.emails, id, SetRead(1));
  }

  /** A failed open leaves the list, the reader and the counters as they were. */
  lemma FetchEmailFails(s: StoreState, id: string, f: Failure, statsAnswer: Result<Database.Stats, Failure>)
    ensures AfterFetchEmail(s, id, Err(f), statsAnswer) == s.(isLoading := false)
  {
  }

  /**
   * After `markAsRead` (flag 1) or `markAsUnread` (flag 0) succeeds, the first listed email with the id
   * and the open email, when it has the id, carry that flag, and every other email is as it was.
   */
  lemma MarkSetsBoth(s: StoreState, id: string, flag: int, call: Json.Json, statsAnswer: Result<Database.Stats, Failure>)
    ensures var t := AfterFlag(s, id, SetRead(flag), Ok(call), statsAnswer);
      && |t.emails| == |s.emails|
      && (FirstIndex(s.emails, id).Some? ==>
            t.emails[FirstIndex(s.emails, id).value] == s.emails[FirstIndex(s.emails, id).value].(isRead := flag))
      && (forall j :: 0 <= j < |s.emails| && s.emails[j].id != id ==> t.emails[j] == s.emails[j])
      && (s.current.Some? && s.current.value.id == id ==> t.current == Some(s.current.value.(isRead := flag)))
      && (s.current.Some? && s.current.value.id != id ==> t.current == s.current)
      && (s.current.None? ==> t.current.None?)
  {
    ChangeFirstOnly(s.emails, id, SetRead(flag));
  }

  /** A failed flag call changes nothing at all. */
  lemma FlagCallFails(s: StoreState, id: string, c: Change, f: Failure, statsAnswer: Result<Database.Stats, Failure>)
    ensures AfterFlag(s, id, c, Err(f), statsAnswer) == s
  {
  }

  /**
   * Toggling the star twice gives back the list and the open email, exactly when the flags it
   * touches were 0 or 1.
   */
  lemma ToggleTwiceRestores(s: StoreState, id: string, call1: Json.Json, call2: Json.Json,
                            stats1: Result<Database.Stats, Failure>, stats2: Result<Database.Stats, Failure>)
    ensures var t := AfterFlag(AfterFlag(s, id, FlipStar, Ok(call1), stats1), id, FlipStar, Ok(call2), stats2);
      (t.emails == s.emails <==>
        FirstIndex(s.emails, id).None? ||
        (FirstIndex(s.emails, id).value < |s.emails| &&
         s.emails[FirstIndex(s.emails, id).value].isStarred in {0, 1}))
      && (t.current == s.current <==> s.current.None? || s.current.value.id != id || s.current.value.isStarred in {0, 1})
  {
    var once := AfterFlag(s, id, FlipStar, Ok(call1), stats1);
    var t := AfterFlag(once, id, FlipStar, Ok(call2), stats2);
    assert once.emails == ChangeFirst(s.emails, id, FlipStar);
    ChangeKeepsIds(s.emails, id, FlipStar);
    ChangeFirstOnly(s.emails, id, FlipStar);
    ChangeFirstOnly(once.emails, id, FlipStar);
    match FirstIndex(s.emails, id)
    case None =>
    case Some(i) =>
      FlipTwice(s.emails[i].isStarred);
      if t.emails == s.emails {
        assert t.emails[i] == s.emails[i];
      }
      if s.emails[i].isStarred in {0, 1} {
        assert forall j :: 0 <= j < |s.emails| ==> t.emails[j] == s.emails[j];
      }
    if s.current.Some? && s.current.value.id == id {
      FlipTwice(s.current.value.isStarred);
    }
  }

  /** After a successful delete no listed email has the id, the others keep their order, and the reader is cleared iff it showed that email. */
  lemma DeleteRemoves(s: StoreState, id: string, call: Json.Json, statsAnswer: Result<Database.Stats, Failure>, e: Email)
    ensures var t := AfterDelete(s, id, Ok(call), statsAnswer);
      && (e in t.emails <==> e in s.emails && e.id != id)
      && (t.current.None? <==> s.current.None? || s.current.value.id == id)
      && (t.current.Some? ==> t.current == s.current)
  {
    WithoutMembers(s.emails, id, e);
  }

  /** A successful send leaves the sent emails listed and the new counters shown. */
  lemma SendRefreshes(s: StoreState, sent: Json.Json, list: seq<Email>, stats: Database.Stats)
    ensures AfterSend(s, Ok(sent), Ok(list), Ok(stats)) == s.(emails := list, stats := stats, isLoading := false)
    ensures SendOutcome(Ok(sent), Ok(list)) == Ok(sent)
  {
  }

  /** A failed send changes nothing and is rethrown; a failed refetch is rethrown after the list is left alone. */
  lemma SendFailures(s: StoreState, sent: Result<Json.Json, Failure>, list: Result<seq<Email>, Failure>,
                     statsAnswer: Result<Database.Stats, Failure>)
    ensures sent.Err? ==> AfterSend(s, sent, list, statsAnswer) == s && SendOutcome(sent, list) == sent
    ensures sent.Ok? && list.Err? ==>
      AfterSend(s, sent, list, statsAnswer) == s.(isLoading := false) && SendOutcome(sent, list) == Err(list.error)
  {
  }

  // ------------------------------------------------------------------ the store

  class Store {
    var emails: seq<Email>
    var currentEmail: Option<Email>
    var stats: Database.Stats
    var isLoading: bool
    var currentView: View

    function State(): StoreState
      reads this
    {
      StoreState(emails, currentEmail, stats, isLoading, currentView)
    }

    constructor()
      ensures State() == Initial
    {
      emails := [];
      currentEmail := None;
      stats := ZeroStats;
      isLoading := false;
      currentView := InboxView;
    }

    /** `emails.findIndex(e => e.id === id)`, with `None` for -1. */
    method FindIndex(id: string) returns (index: Option<nat>)
      ensures index == FirstIndex(emails, id)
    {
      var k := 0;
      while k < |emails|
        invariant 0 <= k <= |emails|
        invariant FirstFrom(emails, id, k) == FirstIndex(emails, id)
        decreases |emails| - k
      {
        if emails[k].id == id {
          return Some(k);
        }
        k := k + 1;
      }
      index := None;
    }

    method FetchStats(answer: Result<Database.Stats, Failure>)
      modifies this
      ensures State() == AfterFetchStats(old(State()), answer)
    {
      if answer.Ok? {
        stats := answer.value;
      }
    }

    method FetchEmails(kind: Option<Database.EmailType>, answer: Result<seq<Email>, Failure>)
      returns (asked: ApiClient.ListOptions, thrown: Option<Failure>)
      modifies this
      ensures asked == FetchOptions(kind)
      ensures thrown == Thrown(answer)
      ensures State() == AfterFetchEmails(old(State()), answer)
    {
      isLoading := true;
      asked := ApiClient.ListOptions(
        if kind.Some? then Some(Database.TypeName(kind.value)) else None,
        Some(FetchLimit), None, false, false);
      thrown := None;
      if answer.Ok? {
        emails := answer.value;
      } else {
        thrown := Some(answer.error);
      }
      isLoading := false;
    }

    /** Make a change to the first listed email with the id, in place. */
    method ChangeListed(id: string, c: Change)
      modifies this
      ensures State() == old(State()).(emails := ChangeFirst(old(emails), id, c))
    {
      var index := FindIndex(id);
      if index.Some? {
        emails := emails[index.value := Changed(emails[index.value], c)];
      }
    }

    method FetchEmail(id: string, answer: Result<Email, Failure>, statsAnswer: Result<Database.Stats, Failure>)
      returns (thrown: Option<Failure>)
      modifies this
      ensures thrown == Thrown(answer)
      ensures State() == AfterFetchEmail(old(State()), id, answer, statsAnswer)
    {
      isLoading := true;
      if answer.Err? {
        isLoading := false;
        return Some(answer.error);
      }
      currentEmail := Some(answer.value);
      ChangeListed(id, SetRead(1));
      FetchStats(statsAnswer);
      isLoading := false;
      thrown := None;
    }

    /** The shared body of the three flag actions. */
    method Flag(id: string, c: Change, call: Result<Json.Json, Failure>, statsAnswer: Result<Database.Stats, Failure>)
      returns (thrown: Option<Failure>)
      modifies this
      ensures thrown == Thrown(call)
      ensures State() == AfterFlag(old(State()), id, c, call, statsAnswer)
    {
      if call.Err? {
        return Some(call.error);
      }
      ChangeListed(id, c);
      if currentEmail.Some? && currentEmail.value.id == id {
        currentEmail := Some(Changed(currentEmail.value, c));
      }
      FetchStats(statsAnswer);
      thrown := None;
    }

    method MarkAsRead(id: string, call: Result<Json.Json, Failure>, statsAnswer: Result<Database.Stats, Failure>)
      returns (thrown: Option<Failure>)
      modifies this
      ensures thrown == Thrown(call)
      ensures State() == AfterFlag(old(State()), id, SetRead(1), call, statsAnswer)
    {
      thrown := Flag(id, SetRead(1), call, statsAnswer);
    }

    method MarkAsUnread(id: string, call: Result<Json.Json, Failure>, statsAnswer: Result<Database.Stats, Failure>)
      returns (thrown: Option<Failure>)
      modifies this
      ensures thrown == Thrown(call)
      ensures State() == AfterFlag(old(State()), id, SetRead(0), call, statsAnswer)
    {
      thrown := Flag(id, SetRead(0), call, statsAnswer);
    }

    method ToggleStar(id: string, call: Result<Json.Json, Failure>, statsAnswer: Result<Database.Stats, Failure>)
      returns (thrown: Option<Failure>)
      modifies this
      ensures thrown == Thrown(call)
      ensures State() == AfterFlag(old(State()), id, FlipStar, call, statsAnswer)
    {
      thrown := Flag(id, FlipStar, call, statsAnswer);
    }

    method DeleteEmail(id: string, call: Result<Json.Json, Failure>, statsAnswer: Result<Database.Stats, Failure>)
      returns (thrown: Option<Failure>)
      modifies this
      ensures thrown == Thrown(call)
      ensures State() == AfterDelete(old(State()), id, call, statsAnswer)
    {
      if call.Err? {
        return Some(call.error);
      }
      emails := Without(emails, id);
      if currentEmail.Some? && currentEmail.value.id == id {
        currentEmail := None;
      }
      FetchStats(statsAnswer);
      thrown := None;
    }

    method SendEmail(sent: Result<Json.Json, Failure>, list: Result<seq<Email>, Failure>,
                     statsAnswer: Result<Database.Stats, Failure>)
      returns (r: Result<Json.Json, Failure>)
      modifies this
      ensures r == SendOutcome(sent, list)
      ensures State() == AfterSend(old(State()), sent, list, statsAnswer)
    {
      if sent.Err? {
        return sent;
      }
      var _, thrown := FetchEmails(Some(Database.Sent), list);
      if thrown.Some? {
        return Err(thrown.value);
      }
      FetchStats(statsAnswer);
      r := sent;
    }

    method SetView(view: View)
      modifies this
      ensures State() == old(State()).(view := view)
    {
      currentView := view;
    }

    method ClearCurrentEmail()
      modifies this
      ensures State() == old(State()).(current := None)
    {
      currentEmail := None;
    }
  }
}
