/** Successive quarantine digests of one user, and what happens to one held or tagged message.
    A round reads the clock, later runs the query that lists the message's source, later sends
    the mail and later still stamps the user.  Times are in microseconds. */
module DigestRuns {
  import opened Wrappers

  const DAY: int := 86_400_000_000
  const LOOKBACK: int := 30 * DAY

  /** `others` tells whether the digest has anything but the message in question, `sent` whether
      the mail could be sent, `stamp` when the user was stamped, if that succeeded. */
  datatype Round = Round(now: int, query: int, others: bool, sent: bool, stamp: Option<int>)

  /** `first` is the time of the previous alert when the run starts. */
  datatype Run = Run(daily: bool, first: Option<int>, rounds: seq<Round>)

  function Cadence(daily: bool): int {
    if daily then DAY else 7 * DAY
  }

  predicate DueAt(daily: bool, lastSent: Option<int>, now: int) {
    lastSent.None? || now - lastSent.value >= Cadence(daily)
  }

  /** The start of the window when the lookback does not cut it. */
  function Opening(daily: bool, lastSent: Option<int>, now: int): int {
    if lastSent.Some? then lastSent.value else now - Cadence(daily)
  }

  function DigestSince(daily: bool, lastSent: Option<int>, now: int): int {
    var since := Opening(daily, lastSent, now);
    if since < now - LOOKBACK then now - LOOKBACK else since
  }

  predicate Mails(daily: bool, lastSent: Option<int>, r: Round, nonEmpty: bool) {
    DueAt(daily, lastSent, r.now) && nonEmpty && r.sent
  }

  function AfterRound(daily: bool, lastSent: Option<int>, r: Round, nonEmpty: bool): Option<int> {
    if Mails(daily, lastSent, r, nonEmpty) && r.stamp.Some? then r.stamp else lastSent
  }

  /** One user of the digest loop. */
  class DigestUser {
    const daily: bool
    var lastSent: Option<int>

    constructor (daily: bool)
      ensures this.daily == daily && lastSent == None
    {
      this.daily := daily;
      lastSent := None;
    }

    /** `totalSince` gives the number of messages the queries find after a given time. */
    method RunDigest(r: Round, totalSince: int -> nat) returns (sent: bool)
      modifies this`lastSent
      ensures var nonEmpty := totalSince(DigestSince(daily, old(lastSent), r.now)) > 0;
              && sent == Mails(daily, old(lastSent), r, nonEmpty)
              && lastSent == AfterRound(daily, old(lastSent), r, nonEmpty)
    {
      if !DueAt(daily, lastSent, r.now) {
        return false;
      }
      var total := totalSince(DigestSince(daily, lastSent, r.now));
      if total == 0 || !r.sent {
        return false;
      }
      if r.stamp.Some? {
        lastSent := r.stamp;
      }
      sent := true;
    }
  }

  // ---------- one message over a run ----------

  /** The stored time of the last alert before round `i`, for a message received at `received`. */
  function Stored(run: Run, received: int, i: nat): Option<int>
    requires i <= |run.rounds|
  {
    if i == 0 then run.first
    else
      var before := Stored(run, received, i - 1);
      var r := run.rounds[i - 1];
      AfterRound(run.daily, before, r,
                 r.others || DigestSince(run.daily, before, r.now) < received <= r.query)
  }

  function Since(run: Run, received: int, i: nat): int
    requires i < |run.rounds|
  {
    DigestSince(run.daily, Stored(run, received, i), run.rounds[i].now)
  }

  predicate InWindow(run: Run, received: int, i: nat)
    requires i < |run.rounds|
  {
    Since(run, received, i) < received <= run.rounds[i].query
  }

  predicate Mailed(run: Run, received: int, i: nat)
    requires i < |run.rounds|
  {
    Mails(run.daily, Stored(run, received, i), run.rounds[i], run.rounds[i].others || InWindow(run, received, i))
  }

  /** The digest of round `i` counts the message. */
  predicate Told(run: Run, received: int, i: nat)
    requires i < |run.rounds|
  {
    Mailed(run, received, i) && InWindow(run, received, i)
  }

  /** Round `i` is due, can be sent, and queries after the message was received. */
  predicate Reaches(run: Run, received: int, i: nat)
    requires i < |run.rounds|
  {
    DueAt(run.daily, Stored(run, received, i), run.rounds[i].now) && run.rounds[i].sent && received <= run.rounds[i].query
  }

  function End(r: Round): int {
    if r.stamp.Some? then r.stamp.value else r.query
  }

  /** Rounds follow each other; a round reads the clock, queries and stamps in this order. */
  predicate Chronological(run: Run) {
    && (forall i :: 0 <= i < |run.rounds| ==> run.rounds[i].now <= run.rounds[i].query <= End(run.rounds[i]))
    && (forall i, j :: 0 <= i < j < |run.rounds| ==> End(run.rounds[i]) <= run.rounds[j].now)
    && (run.first.Some? ==> forall i :: 0 <= i < |run.rounds| ==> run.first.value <= run.rounds[i].now)
  }

  /** Round `i` stamped the user. */
  predicate Stamps(run: Run, received: int, i: nat)
    requires i < |run.rounds|
  {
    Mailed(run, received, i) && run.rounds[i].stamp.Some?
  }

  /** The message came after the query of a digest and before its stamp. */
  predicate InGap(run: Run, received: int, k: nat)
    requires k <= |run.rounds|
  {
    exists i :: 0 <= i < k && Stamps(run, received, i) && run.rounds[i].query < received <= run.rounds[i].stamp.value
  }

  predicate NoStamp(run: Run, received: int, i: nat, j: nat)
    requires i <= j <= |run.rounds|
  {
    forall x :: i <= x < j ==> !Stamps(run, received, x)
  }

  lemma {:induction false} StoredIs(run: Run, received: int, i: nat, j: nat)
    requires i <= j <= |run.rounds|
    ensures NoStamp(run, received, i, j) ==> Stored(run, received, j) == Stored(run, received, i)
    ensures !NoStamp(run, received, i, j) ==>
              exists x :: i <= x < j && Stamps(run, received, x) && Stored(run, received, j) == run.rounds[x].stamp
  {
    if i < j {
      StoredIs(run, received, i, j - 1);
      if Stamps(run, received, j - 1) {
        assert Stored(run, received, j) == run.rounds[j - 1].stamp;
      } else {
        assert Stored(run, received, j) == Stored(run, received, j - 1);
      }
    }
  }

  /** A stamp recorded from round `i` on is later than the query of round `i`. */
  lemma StampIsLater(run: Run, received: int, i: nat, j: nat)
    requires Chronological(run) && i <= j < |run.rounds| && !NoStamp(run, received, i, j)
    ensures var stored := Stored(run, received, j);
            stored.Some? && run.rounds[i].query <= stored.value <= run.rounds[j].now
  {
    hide Stored, Mailed, AfterRound;
    StoredIs(run, received, i, j);
    var x :| i <= x < j && Stamps(run, received, x) && Stored(run, received, j) == run.rounds[x].stamp;
    assert End(run.rounds[x]) <= run.rounds[j].now;
    if i < x {
      assert End(run.rounds[i]) <= run.rounds[x].now;
    }
  }

  lemma StoredIsPast(run: Run, received: int, i: nat)
    requires Chronological(run) && i < |run.rounds|
    ensures var stored := Stored(run, received, i); stored.Some? ==> stored.value <= run.rounds[i].now
  {
    if NoStamp(run, received, 0, i) {
      StoredIs(run, received, 0, i);
    } else {
      StampIsLater(run, received, 0, i);
    }
  }

  lemma SinceGrows(run: Run, received: int, i: nat, j: nat)
    requires Chronological(run) && i <= j < |run.rounds|
    ensures Since(run, received, i) <= Since(run, received, j)
  {
    hide Stored, Mailed, AfterRound;
    StoredIsPast(run, received, i);
    if i < j {
      assert End(run.rounds[i]) <= run.rounds[j].now;
    }
    if NoStamp(run, received, i, j) {
      StoredIs(run, received, i, j);
    } else {
      StampIsLater(run, received, i, j);
    }
  }

  /** Which messages no digest tells the user about.  The first round that could tell decides: the
      message is lost exactly when it arrived between the query and the stamp of an earlier digest,
      or is older than the lookback, or than the window the run started with. */
  lemma LostExactly(run: Run, received: int, k: nat)
    requires Chronological(run) && k < |run.rounds| && Reaches(run, received, k)
    requires forall i :: 0 <= i < k ==> !Reaches(run, received, i)
    ensures var now := run.rounds[k].now;
            (forall i :: 0 <= i < |run.rounds| ==> !Told(run, received, i)) <==>
              || InGap(run, received, k)
              || received <= now - LOOKBACK
              || (NoStamp(run, received, 0, k) && received <= Opening(run.daily, run.first, now))
  {
    ToldOnlyWhenReached(run, received, k);
    FirstReachDecides(run, received, k);
  }

  lemma ToldOnlyWhenReached(run: Run, received: int, k: nat)
    requires Chronological(run) && k < |run.rounds| && Reaches(run, received, k)
    requires forall i :: 0 <= i < k ==> !Reaches(run, received, i)
    ensures (forall i :: 0 <= i < |run.rounds| ==> !Told(run, received, i)) <==> received <= Since(run, received, k)
  {
    if received <= Since(run, received, k) {
      forall i | 0 <= i < |run.rounds| ensures !Told(run, received, i) {
        if i < k {
          assert !Reaches(run, received, i);
        } else {
          SinceGrows(run, received, k, i);
        }
      }
    } else {
      assert Told(run, received, k);
    }
  }

  lemma FirstReachDecides(run: Run, received: int, k: nat)
    requires Chronological(run) && k < |run.rounds|
    requires forall i :: 0 <= i < k ==> !Reaches(run, received, i)
    ensures var now := run.rounds[k].now;
            received <= Since(run, received, k) <==>
              || InGap(run, received, k)
              || received <= now - LOOKBACK
              || (NoStamp(run, received, 0, k) && received <= Opening(run.daily, run.first, now))
  {
    StoredIs(run, received, 0, k);
    forall i | 0 <= i < k && Stamps(run, received, i) ensures run.rounds[i].query < received {
      assert !Reaches(run, received, i);
    }
    hide Stored, Mailed, AfterRound;
    if !NoStamp(run, received, 0, k) {
      var x :| 0 <= x < k && Stamps(run, received, x) && Stored(run, received, k) == run.rounds[x].stamp;
      if received <= run.rounds[x].stamp.value {
        assert InGap(run, received, k);
      }
      if InGap(run, received, k) {
        var i :| 0 <= i < k && Stamps(run, received, i) && run.rounds[i].query < received <= run.rounds[i].stamp.value;
        GapStaysBehind(run, received, i, k);
      }
    }
  }

  lemma GapStaysBehind(run: Run, received: int, i: nat, k: nat)
    requires Chronological(run) && i < k < |run.rounds| && Stamps(run, received, i)
    ensures Stored(run, received, k).Some? && run.rounds[i].stamp.value <= Stored(run, received, k).value
  {
    StoredIs(run, received, i + 1, k);
    assert Stored(run, received, i + 1) == run.rounds[i].stamp;
    if !NoStamp(run, received, i + 1, k) {
      var x :| i + 1 <= x < k && Stamps(run, received, x) && Stored(run, received, k) == run.rounds[x].stamp;
      assert End(run.rounds[i]) <= run.rounds[x].now;
    }
  }

  /** Which messages a user is told about twice: after a digest that counted the message, a later
      one counts it again exactly when no digest in between, the first included, was stamped, and
      the message still lies in the window. */
  lemma ToldAgainExactly(run: Run, received: int, i: nat, j: nat)
    requires Chronological(run) && i < j < |run.rounds| && Told(run, received, i)
    ensures var stored, now := Stored(run, received, i), run.rounds[j].now;
            Told(run, received, j) <==>
              && Reaches(run, received, j)
              && NoStamp(run, received, i, j)
              && now - LOOKBACK < received
              && (stored.None? ==> now - Cadence(run.daily) < received)
  {
    if NoStamp(run, received, i, j) {
      StoredIs(run, received, i, j);
    } else {
      StampIsLater(run, received, i, j);
    }
  }

  /** When every digest is stamped, every message is told at most once; and it is told exactly once
      if and only if a round reaches it and it was not lost. */
  lemma ToldOnceExactly(run: Run, received: int)
    requires Chronological(run) && forall i :: 0 <= i < |run.rounds| ==> run.rounds[i].stamp.Some?
    ensures forall i, j :: 0 <= i < j < |run.rounds| ==> !Told(run, received, i) || !Told(run, received, j)
    ensures (exists i :: 0 <= i < |run.rounds| && Told(run, received, i)) <==>
            exists k :: && 0 <= k < |run.rounds| && Reaches(run, received, k)
                        && (forall i :: 0 <= i < k ==> !Reaches(run, received, i))
                        && !InGap(run, received, k)
                        && run.rounds[k].now - LOOKBACK < received
                        && (NoStamp(run, received, 0, k) ==> Opening(run.daily, run.first, run.rounds[k].now) < received)
  {
    forall i, j | 0 <= i < j < |run.rounds| ensures !Told(run, received, i) || !Told(run, received, j) {
      if Told(run, received, i) {
        assert Stamps(run, received, i);
        ToldAgainExactly(run, received, i, j);
      }
    }
    if i :| 0 <= i < |run.rounds| && Told(run, received, i) {
      assert Reaches(run, received, i);
      var k := FirstReach(run, received, i);
      LostExactly(run, received, k);
    }
    if k :| && 0 <= k < |run.rounds| && Reaches(run, received, k)
            && (forall i :: 0 <= i < k ==> !Reaches(run, received, i))
            && !InGap(run, received, k)
            && run.rounds[k].now - LOOKBACK < received
            && (NoStamp(run, received, 0, k) ==> Opening(run.daily, run.first, run.rounds[k].now) < received)
    {
      LostExactly(run, received, k);
    }
  }

  lemma FirstReach(run: Run, received: int, i: nat) returns (k: nat)
    requires i < |run.rounds| && Reaches(run, received, i)
    ensures k <= i && Reaches(run, received, k) && forall x :: 0 <= x < k ==> !Reaches(run, received, x)
  {
    k := 0;
    while !Reaches(run, received, k)
      invariant k <= i && forall x :: 0 <= x < k ==> !Reaches(run, received, x)
      decreases i - k
    {
      k := k + 1;
    }
  }

  /** A message that arrives while the first digest is being sent is in none of two regular digests. */
  lemma GapLosesMessage(first: Round, second: Round)
    requires first == Round(0, 1, true, true, Some(3)) && second == Round(DAY + 3, DAY + 4, true, true, Some(DAY + 5))
    ensures var run := Run(true, None, [first, second]);
            Chronological(run) && Reaches(run, 2, 1) && !Told(run, 2, 0) && !Told(run, 2, 1)
  {
    var run := Run(true, None, [first, second]);
    assert Stored(run, 2, 0) == None;
    assert Stored(run, 2, 1) == Some(3);
  }
}
