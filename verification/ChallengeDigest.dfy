/** When approval digests are sent to one user.  Times are integers in one unit, with
    `MINUTE` of them to a minute. */
module ChallengeDigest {
  import opened Counting
  import opened Wrappers

  const MINUTE: int := 60_000_000
  const RETRY_DELAY: int := 15 * MINUTE
  const HOUR: int := 60 * MINUTE
  const DAY: int := 24 * HOUR

  datatype Frequency = Immediate | Hourly | Daily | OtherFrequency

  /** The alert columns of the user row. */
  datatype User = User(frequency: Frequency, active: bool, lastAttempt: Option<int>, lastSent: Option<int>)

  /** What becomes of a claimed attempt: no digest went out; it went out and its time was
      recorded; or it went out and recording the time failed. */
  datatype SendResult = NotSent | SentAndStamped(at: int) | SentUnstamped

  datatype Call = Call(now: int, newestPending: int, result: SendResult)

  predicate BackingOff(u: User, now: int) {
    && u.lastAttempt.Some?
    && (u.lastSent.None? || u.lastAttempt.value > u.lastSent.value)
    && now - u.lastAttempt.value < RETRY_DELAY
  }

  predicate DigestDue(u: User, newestPending: int, now: int) {
    !BackingOff(u, now) &&
    match u.frequency
    case Hourly => u.lastSent.None? || now - u.lastSent.value >= HOUR
    case Daily => u.lastSent.None? || now - u.lastSent.value >= DAY
    case Immediate => u.lastSent.None? || newestPending > u.lastSent.value
    case OtherFrequency => false
  }

  /** The WHERE clause of the claim. */
  predicate ClaimGuard(u: User, now: int) {
    && u.active
    && (u.lastAttempt.None?
        || u.lastAttempt.value <= now - RETRY_DELAY
        || (u.lastSent.Some? && u.lastAttempt.value <= u.lastSent.value))
  }

  /** The claim in the database accepts exactly the users the back-off test lets through. */
  lemma ClaimGuardIsBackOff(u: User, now: int)
    ensures ClaimGuard(u, now) <==> u.active && !BackingOff(u, now)
  {
  }

  predicate Attempts(u: User, c: Call) {
    DigestDue(u, c.newestPending, c.now) && ClaimGuard(u, c.now)
  }

  function AfterCall(u: User, c: Call): User {
    if !Attempts(u, c) then u
    else
      match c.result
      case SentAndStamped(at) => u.(lastAttempt := Some(at), lastSent := Some(at))
      case _ => u.(lastAttempt := Some(c.now))
  }

  class AlertUser {
    const frequency: Frequency
    var active: bool
    var lastAttempt: Option<int>
    var lastSent: Option<int>

    constructor (frequency: Frequency)
      ensures this.frequency == frequency && active && lastAttempt == None && lastSent == None
    {
      this.frequency := frequency;
      active, lastAttempt, lastSent := true, None, None;
    }

    function Row(): User
      reads this
    {
      User(frequency, active, lastAttempt, lastSent)
    }

    method ClaimAttempt(now: int) returns (claimed: bool)
      modifies this`lastAttempt
      ensures claimed == ClaimGuard(old(Row()), now)
      ensures lastAttempt == if claimed then Some(now) else old(lastAttempt)
    {
      claimed := active && (lastAttempt.None? || lastAttempt.value <= now - RETRY_DELAY
                            || (lastSent.Some? && lastAttempt.value <= lastSent.value));
      if claimed {
        lastAttempt := Some(now);
      }
    }

    method SendChallengeOne(c: Call) returns (sent: bool)
      modifies this`lastAttempt, this`lastSent
      ensures Row() == AfterCall(old(Row()), c)
      ensures sent <==> Attempts(old(Row()), c) && c.result.SentAndStamped?
    {
      if !DigestDue(Row(), c.newestPending, c.now) {
        return false;
      }
      var claimed := ClaimAttempt(c.now);
      if !claimed || !c.result.SentAndStamped? {
        return false;
      }
      lastSent, lastAttempt := Some(c.result.at), Some(c.result.at);
      sent := true;
    }
  }

  // ---------- sequential runs ----------

  function Finished(c: Call): int {
    if c.result.SentAndStamped? then c.result.at else c.now
  }

  /** Calls follow each other on a clock that does not go back, and no pending message was
      received in the future. */
  predicate Timed(calls: seq<Call>, from: int)
    decreases |calls|
  {
    calls == [] ||
    (&& from <= calls[0].now <= Finished(calls[0])
     && calls[0].newestPending <= calls[0].now
     && Timed(calls[1..], Finished(calls[0])))
  }

  /** The calls of a run that claimed an attempt, in order. */
  function AttemptsOf(u: User, calls: seq<Call>): seq<Call>
    decreases |calls|
  {
    if calls == [] then []
    else (if Attempts(u, calls[0]) then [calls[0]] else []) + AttemptsOf(AfterCall(u, calls[0]), calls[1..])
  }

  /** The recorded times of the digests a run sent. */
  function StampsOf(u: User, calls: seq<Call>): seq<int>
    decreases |calls|
  {
    if calls == [] then []
    else
      (if Attempts(u, calls[0]) && calls[0].result.SentAndStamped? then [calls[0].result.at] else [])
      + StampsOf(AfterCall(u, calls[0]), calls[1..])
  }

  predicate Spaced(stamps: seq<int>, period: int) {
    forall i, j :: 0 <= i < j < |stamps| ==> stamps[i] + period <= stamps[j]
  }

  function Period(f: Frequency): int {
    if f == Hourly then HOUR else DAY
  }

  /** A digest is recorded no earlier than its call began. */
  predicate Finishing(calls: seq<Call>) {
    forall i :: 0 <= i < |calls| ==> calls[i].now <= Finished(calls[i])
  }

  /** Recorded digests are a period apart; the clock may step back between calls. */
  lemma {:induction false} StampsAreSpaced(u: User, calls: seq<Call>)
    requires Finishing(calls) && u.frequency in {Hourly, Daily}
    ensures Spaced(StampsOf(u, calls), Period(u.frequency))
    ensures u.lastSent.Some? ==>
              forall i :: 0 <= i < |StampsOf(u, calls)| ==> u.lastSent.value + Period(u.frequency) <= StampsOf(u, calls)[i]
    decreases |calls|
  {
    if calls != [] {
      StampsAreSpaced(AfterCall(u, calls[0]), calls[1..]);
    }
  }

  lemma DivStep(x: int, period: int)
    requires period > 0
    ensures (x - period) / period == x / period - 1
  {
    assert x - period == (x / period - 1) * period + x % period;
    DivUnique(x - period, period, x / period - 1, x % period);
  }

  lemma MulMonotone(a: int, b: int, period: int)
    requires period > 0
    ensures a <= b ==> a * period <= b * period
  {
    if a <= b {
      assert (b - a) * period >= 0;
    }
  }

  lemma DivUnique(x: int, period: int, q: int, r: int)
    requires period > 0 && x == q * period + r && 0 <= r < period
    ensures x / period == q
  {
    var d := x / period - q;
    assert d * period == r - x % period;
    MulMonotone(1, d, period);
    MulMonotone(d, -1, period);
  }

  lemma DivMonotone(x: int, y: int, period: int)
    requires period > 0 && x <= y
    ensures x / period <= y / period
  {
    MulMonotone(y / period + 1, x / period, period);
  }

  function InWindow(lo: int, hi: int): int -> bool {
    (t: int) => lo <= t <= hi
  }

  lemma {:induction false} NoneInWindow(stamps: seq<int>, lo: int, hi: int)
    requires forall i :: 0 <= i < |stamps| ==> hi < stamps[i]
    ensures Count(stamps, InWindow(lo, hi)) == 0
  {
    CountZero(stamps, InWindow(lo, hi));
  }

  lemma {:induction false} SpacedInWindow(stamps: seq<int>, period: int, lo: int, hi: int)
    requires period > 0 && Spaced(stamps, period) && lo <= hi
    ensures Count(stamps, InWindow(lo, hi)) <= 1 + (hi - lo) / period
    decreases |stamps|
  {
    DivMonotone(0, hi - lo, period);
    if stamps != [] {
      var first, rest := stamps[0], stamps[1..];
      SpacedInWindow(rest, period, lo, hi);
      if lo <= first <= hi {
        if hi < first + period {
          NoneInWindow(rest, lo, hi);
        } else {
          SpacedInWindow(rest, period, first + period, hi);
          SameCount(rest, lo, first + period, hi);
          DivMonotone(hi - first, hi - lo, period);
          DivStep(hi - first, period);
        }
      }
    }
  }

  lemma {:induction false} SameCount(stamps: seq<int>, lo: int, lo': int, hi: int)
    requires lo <= lo' && forall i :: 0 <= i < |stamps| ==> lo' <= stamps[i]
    ensures Count(stamps, InWindow(lo, hi)) == Count(stamps, InWindow(lo', hi))
  {
    if stamps != [] {
      SameCount(stamps[1..], lo, lo', hi);
    }
  }

  /** In any window of length L an hourly (daily) user gets at most 1 + L/hour (1 + L/day)
      recorded digests. */
  lemma DigestRateBound(u: User, calls: seq<Call>, start: int, length: nat)
    requires Finishing(calls) && u.frequency in {Hourly, Daily}
    ensures Count(StampsOf(u, calls), InWindow(start, start + length)) <= 1 + length / Period(u.frequency)
  {
    StampsAreSpaced(u, calls);
    SpacedInWindow(StampsOf(u, calls), Period(u.frequency), start, start + length);
  }

  lemma {:induction false} AttemptsWait(u: User, calls: seq<Call>, from: int)
    requires Timed(calls, from)
    requires u.lastAttempt.Some? && (u.lastSent.Some? ==> u.lastSent.value < u.lastAttempt.value)
    ensures forall i :: 0 <= i < |AttemptsOf(u, calls)| ==>
              u.lastAttempt.value + RETRY_DELAY <= AttemptsOf(u, calls)[i].now
    decreases |calls|
  {
    if calls != [] {
      if Attempts(u, calls[0]) {
        AttemptsAfter(AfterCall(u, calls[0]), calls[1..], Finished(calls[0]));
      } else {
        AttemptsWait(u, calls[1..], Finished(calls[0]));
      }
    }
  }

  lemma {:induction false} AttemptsAfter(u: User, calls: seq<Call>, from: int)
    requires Timed(calls, from)
    ensures forall i :: 0 <= i < |AttemptsOf(u, calls)| ==> from <= AttemptsOf(u, calls)[i].now
    decreases |calls|
  {
    if calls != [] {
      AttemptsAfter(AfterCall(u, calls[0]), calls[1..], Finished(calls[0]));
    }
  }

  /** Every earlier element is related to every later one. */
  ghost predicate Pairwise(calls: seq<Call>, rel: (Call, Call) -> bool) {
    forall i, j :: 0 <= i < j < |calls| ==> rel(calls[i], calls[j])
  }

  lemma PairwiseCons(c: Call, rest: seq<Call>, rel: (Call, Call) -> bool)
    requires Pairwise(rest, rel) && forall j :: 0 <= j < |rest| ==> rel(c, rest[j])
    ensures Pairwise([c] + rest, rel)
  {
    var all := [c] + rest;
    forall i, j | 0 <= i < j < |all| ensures rel(all[i], all[j]) {
      assert all[j] == rest[j - 1];
      assert i > 0 ==> all[i] == rest[i - 1];
    }
  }

  function FailureWaits(): (Call, Call) -> bool {
    (c: Call, d: Call) => !c.result.SentAndStamped? ==> c.now + RETRY_DELAY <= d.now
  }

  /** An attempt that did not end in a recorded digest keeps every later attempt at least
      fifteen minutes away. */
  lemma {:induction false} FailedAttemptsAreSpaced(u: User, calls: seq<Call>, from: int)
    requires Timed(calls, from)
    ensures Pairwise(AttemptsOf(u, calls), FailureWaits())
    decreases |calls|
  {
    if calls != [] {
      var u' := AfterCall(u, calls[0]);
      var rest := AttemptsOf(u', calls[1..]);
      FailedAttemptsAreSpaced(u', calls[1..], Finished(calls[0]));
      if Attempts(u, calls[0]) {
        if !calls[0].result.SentAndStamped? {
          AttemptsWait(u', calls[1..], Finished(calls[0]));
        }
        PairwiseCons(calls[0], rest, FailureWaits());
      } else {
        assert AttemptsOf(u, calls) == rest;
      }
    }
  }

  lemma {:induction false} OnlyNewerPending(u: User, calls: seq<Call>, from: int)
    requires Timed(calls, from) && u.frequency == Immediate
    requires u.lastSent.Some? && u.lastSent.value <= from
    ensures forall i :: 0 <= i < |AttemptsOf(u, calls)| ==> u.lastSent.value < AttemptsOf(u, calls)[i].newestPending
    decreases |calls|
  {
    if calls != [] {
      var u' := AfterCall(u, calls[0]);
      OnlyNewerPending(u', calls[1..], Finished(calls[0]));
    }
  }

  function DigestNeedsNews(): (Call, Call) -> bool {
    (c: Call, d: Call) => c.result.SentAndStamped? ==> c.newestPending <= c.result.at < d.newestPending
  }

  /** For a user on the immediate cadence one pending message triggers at most one recorded
      digest: after a digest only a message received later triggers the next attempt. */
  lemma {:induction false} OneDigestPerPendingMessage(u: User, calls: seq<Call>, from: int)
    requires Timed(calls, from) && u.frequency == Immediate
    ensures Pairwise(AttemptsOf(u, calls), DigestNeedsNews())
    decreases |calls|
  {
    if calls != [] {
      var u' := AfterCall(u, calls[0]);
      var rest := AttemptsOf(u', calls[1..]);
      OneDigestPerPendingMessage(u', calls[1..], Finished(calls[0]));
      if Attempts(u, calls[0]) {
        if calls[0].result.SentAndStamped? {
          OnlyNewerPending(u', calls[1..], Finished(calls[0]));
        }
        PairwiseCons(calls[0], rest, DigestNeedsNews());
      } else {
        assert AttemptsOf(u, calls) == rest;
      }
    }
  }

  // ---------- overlapping senders ----------

  /** The row, the copies of it that senders have loaded, the claim times of the sends in flight and
      the recorded sends. */
  datatype Shared = Shared(row: User, copies: seq<User>, flights: seq<int>, stamps: seq<int>)

  datatype Event =
    | Load
    | Claim(copy: nat, newestPending: int, now: int)
    | Land(flight: nat, stamp: Option<int>)

  /** A sender tests its copy, and the database tests the row. */
  predicate Claims(s: Shared, e: Event) {
    && e.Claim? && e.copy < |s.copies|
    && DigestDue(s.copies[e.copy], e.newestPending, e.now) && ClaimGuard(s.row, e.now)
  }

  function ApplyEvent(s: Shared, e: Event): Shared {
    match e
    case Load => s.(copies := s.copies + [s.row])
    case Claim(_, _, now) =>
      if Claims(s, e) then s.(row := s.row.(lastAttempt := Some(now)), flights := s.flights + [now]) else s
    case Land(i, stamp) =>
      if i < |s.flights| then
        Shared(if stamp.Some? then s.row.(lastAttempt := stamp, lastSent := stamp) else s.row,
               s.copies,
               s.flights[..i] + s.flights[i + 1..],
               if stamp.Some? then s.stamps + [stamp.value] else s.stamps)
      else s
  }

  function ExecEvents(s: Shared, events: seq<Event>): Shared
    decreases |events|
  {
    if events == [] then s else ExecEvents(ApplyEvent(s, events[0]), events[1..])
  }

  /** A claim is later than every recorded send, and every send still in flight was claimed
      less than fifteen minutes ago. */
  predicate Prompt(s: Shared, e: Event) {
    e.Claim? ==>
      && (s.row.lastSent.Some? ==> s.row.lastSent.value < e.now)
      && forall i :: 0 <= i < |s.flights| ==> e.now < s.flights[i] + RETRY_DELAY
  }

  predicate PromptRun(s: Shared, events: seq<Event>)
    decreases |events|
  {
    events == [] || (Prompt(s, events[0]) && PromptRun(ApplyEvent(s, events[0]), events[1..]))
  }

  predicate FlightInv(s: Shared) {
    s.flights == [] ||
    (&& |s.flights| == 1
     && s.row.lastAttempt == Some(s.flights[0])
     && (s.row.lastSent.Some? ==> s.row.lastSent.value < s.flights[0]))
  }

  lemma FlightStep(s: Shared, e: Event)
    requires FlightInv(s) && Prompt(s, e)
    ensures FlightInv(ApplyEvent(s, e))
  {
  }

  /** If every send finishes within fifteen minutes, no claim succeeds while one is in flight,
      even when the senders decided on stale copies of the row. */
  lemma {:induction false} OneSendInFlight(s: Shared, events: seq<Event>)
    requires FlightInv(s) && PromptRun(s, events)
    ensures FlightInv(ExecEvents(s, events)) && |ExecEvents(s, events).flights| <= 1
    decreases |events|
  {
    if events != [] {
      FlightStep(s, events[0]);
      OneSendInFlight(ApplyEvent(s, events[0]), events[1..]);
    }
  }

  /** While a send is in flight the guard refuses every claim of the next fifteen minutes, and none
      afterwards. */
  lemma FlightBlocksExactly(s: Shared, now: int)
    requires FlightInv(s) && s.flights != []
    ensures ClaimGuard(s.row, now) <==> s.row.active && s.flights[0] + RETRY_DELAY <= now
  {
  }

  /** A claim with nothing in flight keeps every other claim out for fifteen minutes exactly when its
      clock reading is later than the last recorded send. */
  lemma ClaimBlocksExactly(s: Shared, e: Event)
    requires s.flights == [] && Claims(s, e)
    ensures (forall t :: t < e.now + RETRY_DELAY ==> !ClaimGuard(ApplyEvent(s, e).row, t))
            <==> s.row.lastSent.None? || s.row.lastSent.value < e.now
  {
    var after := ApplyEvent(s, e).row;
    if s.row.lastSent.Some? && e.now <= s.row.lastSent.value {
      assert ClaimGuard(after, e.now);
    }
  }

  // ---------- spacing with overlapping senders ----------

  predicate SpacedInv(s: Shared) {
    && FlightInv(s)
    && s.row.frequency in {Hourly, Daily}
    && (forall i :: 0 <= i < |s.copies| ==> s.copies[i].frequency == s.row.frequency)
    && Spaced(s.stamps, Period(s.row.frequency))
    && (s.stamps != [] ==> s.row.lastSent == Some(s.stamps[|s.stamps| - 1]))
    && (s.flights != [] && s.stamps != [] ==> s.stamps[|s.stamps| - 1] + Period(s.row.frequency) <= s.flights[0])
  }

  /** The recorded sends after the claim lands at `at`. */
  function StampsAfter(s: Shared, e: Event, at: int): seq<int> {
    ApplyEvent(ApplyEvent(s, e), Land(0, Some(at))).stamps
  }

  /** A claim keeps the recorded digests a period apart, whenever its send lands, exactly when the row
      itself is due at the time of the claim; what the sender's copy says does not matter. */
  lemma ClaimKeepsSpacingExactly(s: Shared, e: Event)
    requires SpacedInv(s) && s.flights == [] && Claims(s, e)
    ensures (forall at :: at >= e.now ==> Spaced(StampsAfter(s, e, at), Period(s.row.frequency)))
            <==> s.stamps == [] || DigestDue(s.row, e.newestPending, e.now)
    ensures s.stamps != [] ==>
              (DigestDue(s.row, e.newestPending, e.now) <==>
               s.stamps[|s.stamps| - 1] + Period(s.row.frequency) <= e.now)
  {
    var period, n := Period(s.row.frequency), |s.stamps|;
    forall at ensures StampsAfter(s, e, at) == s.stamps + [at] {
      assert [e.now][..0] + [e.now][1..] == [];
    }
    if s.stamps == [] || s.stamps[n - 1] + period <= e.now {
      forall at | at >= e.now ensures Spaced(StampsAfter(s, e, at), period) {
        SpacedSnoc(s.stamps, at, period);
      }
    } else {
      var late := StampsAfter(s, e, e.now);
      assert late[n - 1] + period > late[n];
    }
  }

  lemma SpacedSnoc(stamps: seq<int>, at: int, period: int)
    requires Spaced(stamps, period) && period > 0
    requires stamps != [] ==> stamps[|stamps| - 1] + period <= at
    ensures Spaced(stamps + [at], period)
  {
    forall i | 0 <= i < |stamps| ensures stamps[i] + period <= at {
      assert i < |stamps| - 1 ==> stamps[i] + period <= stamps[|stamps| - 1];
    }
  }

  /** Every accepted claim finds the row due, and a send is recorded after its claim. */
  predicate RowDue(s: Shared, e: Event) {
    match e
    case Load => true
    case Claim(_, newestPending, now) => Claims(s, e) ==> DigestDue(s.row, newestPending, now)
    case Land(i, stamp) => i < |s.flights| && stamp.Some? ==> s.flights[i] <= stamp.value
  }

  predicate RowDueRun(s: Shared, events: seq<Event>)
    decreases |events|
  {
    events == [] || (RowDue(s, events[0]) && RowDueRun(ApplyEvent(s, events[0]), events[1..]))
  }

  /** Overlapping senders keep the recorded digests a period apart as long as every accepted claim
      finds the row due, however old the copies are. */
  lemma {:induction false} DueRowsAreSpaced(s: Shared, events: seq<Event>)
    requires SpacedInv(s) && PromptRun(s, events) && RowDueRun(s, events)
    ensures SpacedInv(ExecEvents(s, events))
    decreases |events|
  {
    if events != [] {
      FlightStep(s, events[0]);
      SpacedStep(s, events[0]);
      DueRowsAreSpaced(ApplyEvent(s, events[0]), events[1..]);
    }
  }

  lemma SpacedStep(s: Shared, e: Event)
    requires SpacedInv(s) && Prompt(s, e) && RowDue(s, e)
    ensures SpacedInv(ApplyEvent(s, e))
  {
    FlightStep(s, e);
    if e.Land? && e.flight < |s.flights| && e.stamp.Some? {
      SpacedSnoc(s.stamps, e.stamp.value, Period(s.row.frequency));
    }
  }

  /** The copy of a claim shows the last recorded send. */
  predicate Current(s: Shared, e: Event) {
    match e
    case Load => true
    case Claim(copy, _, _) => copy < |s.copies| ==> s.copies[copy].lastSent == s.row.lastSent
    case Land(i, stamp) => i < |s.flights| && stamp.Some? ==> s.flights[i] <= stamp.value
  }

  predicate CurrentRun(s: Shared, events: seq<Event>)
    decreases |events|
  {
    events == [] || (Current(s, events[0]) && CurrentRun(ApplyEvent(s, events[0]), events[1..]))
  }

  lemma CurrentIsDue(s: Shared, e: Event)
    requires SpacedInv(s) && Current(s, e)
    ensures RowDue(s, e)
  {
  }

  /** In particular copies that show the last recorded send are good enough. */
  lemma {:induction false} CurrentCopiesAreSpaced(s: Shared, events: seq<Event>)
    requires SpacedInv(s) && PromptRun(s, events) && CurrentRun(s, events)
    ensures SpacedInv(ExecEvents(s, events))
    decreases |events|
  {
    if events != [] {
      FlightStep(s, events[0]);
      CurrentIsDue(s, events[0]);
      SpacedStep(s, events[0]);
      CurrentCopiesAreSpaced(ApplyEvent(s, events[0]), events[1..]);
    }
  }

  // ---------- what overlapping senders tell an immediate user ----------

  predicate Sorted(stamps: seq<int>) {
    forall i, j :: 0 <= i < j < |stamps| ==> stamps[i] <= stamps[j]
  }

  predicate NewsInv(s: Shared) {
    && FlightInv(s) && s.row.frequency == Immediate && Sorted(s.stamps)
    && s.row.lastSent == if s.stamps == [] then None else Some(s.stamps[|s.stamps| - 1])
  }

  /** An accepted claim is about a message that came after every recorded digest. */
  predicate IsNews(s: Shared, e: Event) {
    Claims(s, e) ==> forall i :: 0 <= i < |s.stamps| ==> s.stamps[i] < e.newestPending
  }

  predicate NewsRun(s: Shared, events: seq<Event>)
    decreases |events|
  {
    events == [] || (IsNews(s, events[0]) && NewsRun(ApplyEvent(s, events[0]), events[1..]))
  }

  /** A send is recorded after its claim. */
  predicate LandsLater(s: Shared, e: Event) {
    e.Land? && e.flight < |s.flights| && e.stamp.Some? ==> s.flights[e.flight] <= e.stamp.value
  }

  predicate LandsLaterRun(s: Shared, events: seq<Event>)
    decreases |events|
  {
    events == [] || (LandsLater(s, events[0]) && LandsLaterRun(ApplyEvent(s, events[0]), events[1..]))
  }

  lemma NewsStep(s: Shared, e: Event)
    requires NewsInv(s) && Prompt(s, e) && LandsLater(s, e)
    ensures NewsInv(ApplyEvent(s, e))
    ensures IsNews(s, e) <==> RowDue(s, e)
  {
    FlightStep(s, e);
  }

  /** With overlapping senders and prompt sends, every accepted claim of an immediate user is about mail
      that came after all recorded digests exactly when every accepted claim finds the row due. */
  lemma {:induction false} NewsExactly(s: Shared, events: seq<Event>)
    requires NewsInv(s) && PromptRun(s, events) && LandsLaterRun(s, events)
    ensures NewsInv(ExecEvents(s, events))
    ensures NewsRun(s, events) <==> RowDueRun(s, events)
    decreases |events|
  {
    if events != [] {
      NewsStep(s, events[0]);
      NewsExactly(ApplyEvent(s, events[0]), events[1..]);
    }
  }

  lemma {:induction false} TraceEnds(states: seq<Shared>, events: seq<Event>)
    requires |states| == |events| + 1
    requires forall i :: 0 <= i < |events| ==> states[i + 1] == ApplyEvent(states[i], events[i])
    ensures ExecEvents(states[0], events) == states[|events|]
    decreases |events|
  {
    if events != [] {
      TraceEnds(states[1..], events[1..]);
    }
  }

  /** A claim made with a clock reading older than the last recorded send is accepted and does
      not block the next one: then two sends are in flight at once. */
  lemma StaleClockOverlaps(sent: int)
    ensures var row := User(Immediate, true, Some(sent), Some(sent));
            var events := [Load, Claim(0, sent + 1, sent - MINUTE), Claim(0, sent + 1, sent + MINUTE)];
            |ExecEvents(Shared(row, [], [], []), events).flights| == 2
  {
    var row := User(Immediate, true, Some(sent), Some(sent));
    var events := [Load, Claim(0, sent + 1, sent - MINUTE), Claim(0, sent + 1, sent + MINUTE)];
    var s0 := Shared(row, [], [], []);
    var s1 := s0.(copies := [row]);
    var s2 := s1.(row := row.(lastAttempt := Some(sent - MINUTE)), flights := [sent - MINUTE]);
    var s3 := s2.(row := row.(lastAttempt := Some(sent + MINUTE)), flights := [sent - MINUTE, sent + MINUTE]);
    TraceEnds([s0, s1, s2, s3], events);
  }

  /** No clock is wrong: the second sender only reads its clock before the first one's send is recorded,
      and claims afterwards. */
  lemma OldReadingOverlaps(now: int)
    ensures var s0 := Shared(User(Immediate, true, None, None), [], [], []);
            var events := [Load, Claim(0, now, now), Land(0, Some(now + 2)), Claim(0, now, now + 1), Claim(0, now, now + 3)];
            |ExecEvents(s0, events).flights| == 2
  {
    var u := User(Immediate, true, None, None);
    var s0 := Shared(u, [], [], []);
    var events := [Load, Claim(0, now, now), Land(0, Some(now + 2)), Claim(0, now, now + 1), Claim(0, now, now + 3)];
    var s1 := s0.(copies := [u]);
    var s2 := s1.(row := u.(lastAttempt := Some(now)), flights := [now]);
    var s3 := s2.(row := User(Immediate, true, Some(now + 2), Some(now + 2)), flights := [], stamps := [now + 2]);
    var s4 := s3.(row := User(Immediate, true, Some(now + 1), Some(now + 2)), flights := [now + 1]);
    var s5 := s4.(row := User(Immediate, true, Some(now + 3), Some(now + 2)), flights := [now + 1, now + 3]);
    TraceEnds([s0, s1, s2, s3, s4, s5], events);
  }

  lemma {:induction false} NewsTrace(states: seq<Shared>, events: seq<Event>, n: nat)
    requires |states| == |events| + 1 && n < |events|
    requires forall i :: 0 <= i < |events| ==> states[i + 1] == ApplyEvent(states[i], events[i])
    ensures !IsNews(states[n], events[n]) ==> !NewsRun(states[0], events)
    decreases |events|
  {
    if n > 0 {
      NewsTrace(states[1..], events[1..], n - 1);
    }
  }

  /** Two senders that loaded the row of an immediate user before either sent tell the user of one
      pending message twice, although every send is prompt and no two overlap. */
  lemma StaleRowTellsTwice(received: int, now: int)
    requires received <= now
    ensures var s0 := Shared(User(Immediate, true, None, None), [], [], []);
            var events := [Load, Load, Claim(0, received, now), Land(0, Some(now + 1)), Claim(1, received, now + 2), Land(0, Some(now + 3))];
            PromptRun(s0, events) && !NewsRun(s0, events) && ExecEvents(s0, events).stamps == [now + 1, now + 3]
  {
    var u := User(Immediate, true, None, None);
    var s0 := Shared(u, [], [], []);
    var events := [Load, Load, Claim(0, received, now), Land(0, Some(now + 1)), Claim(1, received, now + 2), Land(0, Some(now + 3))];
    var s1 := s0.(copies := [u]);
    var s2 := s1.(copies := [u, u]);
    var s3 := s2.(row := u.(lastAttempt := Some(now)), flights := [now]);
    var s4 := s3.(row := User(Immediate, true, Some(now + 1), Some(now + 1)), flights := [], stamps := [now + 1]);
    var s5 := s4.(row := User(Immediate, true, Some(now + 2), Some(now + 1)), flights := [now + 2]);
    var s6 := s5.(row := User(Immediate, true, Some(now + 3), Some(now + 3)), flights := [], stamps := [now + 1, now + 3]);
    var states := [s0, s1, s2, s3, s4, s5, s6];
    TraceEnds(states, events);
    PromptTrace(states, events);
    assert s4.stamps[0] >= events[4].newestPending;
    NewsTrace(states, events, 4);
  }

  /** Two senders load the row of an hourly user; the second is accepted right after the first one's
      digest was recorded, and two digests are recorded within the hour, although every send is
      prompt and no two overlap. */
  lemma StaleRowSendsTwice(now: int)
    ensures var s0 := Shared(User(Hourly, true, None, None), [], [], []);
            var events := [Load, Load, Claim(0, now, now), Land(0, Some(now + 1)), Claim(1, now, now + 2), Land(0, Some(now + 3))];
            PromptRun(s0, events) && ExecEvents(s0, events).stamps == [now + 1, now + 3]
  {
    var u := User(Hourly, true, None, None);
    var s0 := Shared(u, [], [], []);
    var events := [Load, Load, Claim(0, now, now), Land(0, Some(now + 1)), Claim(1, now, now + 2), Land(0, Some(now + 3))];
    var s1 := s0.(copies := [u]);
    var s2 := s1.(copies := [u, u]);
    var s3 := s2.(row := u.(lastAttempt := Some(now)), flights := [now]);
    var s4 := s3.(row := User(Hourly, true, Some(now + 1), Some(now + 1)), flights := [], stamps := [now + 1]);
    var s5 := s4.(row := User(Hourly, true, Some(now + 2), Some(now + 1)), flights := [now + 2]);
    var s6 := s5.(row := User(Hourly, true, Some(now + 3), Some(now + 3)), flights := [], stamps := [now + 1, now + 3]);
    var states := [s0, s1, s2, s3, s4, s5, s6];
    TraceEnds(states, events);
    PromptTrace(states, events);
  }

  lemma {:induction false} PromptTrace(states: seq<Shared>, events: seq<Event>)
    requires |states| == |events| + 1
    requires forall i :: 0 <= i < |events| ==> states[i + 1] == ApplyEvent(states[i], events[i]) && Prompt(states[i], events[i])
    ensures PromptRun(states[0], events)
    decreases |events|
  {
    if events != [] {
      PromptTrace(states[1..], events[1..]);
    }
  }
}
