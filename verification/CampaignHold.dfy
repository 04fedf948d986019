/** Campaigns whose copies are held for deep analysis.  Such copies count as high-confidence, so later
    copies are suppressed; a suppressed copy keeps its mail log with a pending hold, but gets neither
    a quarantine entry nor a scan job. */
module CampaignHold {
  import opened Wrappers
  import Campaign
  import opened DeepAnalysis
  import opened DeepAnalysisSafety
  import opened DeepAnalysisOutcome

  /** The hold of the mail log of copy `p` once the copy has been handled, before any scan job. */
  function HoldOf(s: Campaign.State, p: nat, deadline: Option<int>): State {
    State([], Pending, deadline, if Campaign.Owns(s.entries, p) then [EntryHeld] else [], [], [])
  }

  predicate TickPassed(deadline: Option<int>, steps: seq<Step>) {
    deadline.Some? && exists i :: 0 <= i < |steps| && steps[i].Tick? && deadline.value <= steps[i].now
  }

  lemma {:induction false} WithoutJobsNothingHappens(s: State, steps: seq<Step>)
    requires s.jobs == [] && s.procs == [] && s.hold in {Pending, Unavailable}
    requires forall i :: 0 <= i < |steps| ==> !steps[i].InsertJob?
    ensures Exec(s, steps) == s.(hold := if TickPassed(s.deadline, steps) then Unavailable else s.hold)
    decreases |steps|
  {
    if steps != [] {
      var t := Apply(s, steps[0]);
      assert t == s.(hold := if steps[0].Tick? && s.deadline.Some? && s.deadline.value <= steps[0].now then Unavailable else s.hold);
      WithoutJobsNothingHappens(t, steps[1..]);
      TickPassedStep(s.deadline, steps);
    }
  }

  lemma TickPassedStep(deadline: Option<int>, steps: seq<Step>)
    requires steps != []
    ensures TickPassed(deadline, steps) <==>
            (steps[0].Tick? && deadline.Some? && deadline.value <= steps[0].now) || TickPassed(deadline, steps[1..])
  {
    if TickPassed(deadline, steps) {
      var i :| 0 <= i < |steps| && steps[i].Tick? && deadline.value <= steps[i].now;
      if i > 0 {
        assert steps[1..][i - 1] == steps[i];
      }
    }
    if TickPassed(deadline, steps[1..]) {
      var i :| 0 <= i < |steps[1..]| && steps[1..][i].Tick? && deadline.value <= steps[1..][i].now;
      assert steps[i + 1] == steps[1..][i];
    }
  }

  /** A suppressed copy holds nothing, and its mail log is never delivered, whatever jobs sessions insert
      for it and whatever the jobs report. */
  lemma SuppressedCopyIsNeverDelivered(ingests: seq<Campaign.Step>, p: nat, deadline: Option<int>, steps: seq<Step>)
    requires var s := Campaign.Exec(Campaign.EMPTY, ingests); p < |s.copies| && s.copies[p].suppressed
    ensures var s := Campaign.Exec(Campaign.EMPTY, ingests);
            !Campaign.Owns(s.entries, p) && Exec(HoldOf(s, p, deadline), steps).sends == []
  {
    var s := Campaign.Exec(Campaign.EMPTY, ingests);
    Campaign.RunKeepsInv(Campaign.EMPTY, ingests);
    Campaign.OwnerIsKept(s, p);
    WithoutEntryNeverDelivered(s, p, deadline, steps);
  }

  lemma WithoutEntryNeverDelivered(s: Campaign.State, p: nat, deadline: Option<int>, steps: seq<Step>)
    requires !Campaign.Owns(s.entries, p)
    ensures Exec(HoldOf(s, p, deadline), steps).sends == []
  {
    ReleaseConservation(HoldOf(s, p, deadline), steps);
    assert HeldList([]) == [];
  }

  /** As long as no session inserts a job for it, it waits for its deadline and then goes to manual
      review. */
  lemma SuppressedCopyWaits(ingests: seq<Campaign.Step>, p: nat, deadline: Option<int>, steps: seq<Step>)
    requires var s := Campaign.Exec(Campaign.EMPTY, ingests); p < |s.copies| && s.copies[p].suppressed
    requires forall i :: 0 <= i < |steps| ==> !steps[i].InsertJob?
    ensures Exec(HoldOf(Campaign.Exec(Campaign.EMPTY, ingests), p, deadline), steps).hold
            == if TickPassed(deadline, steps) then Unavailable else Pending
  {
    WithoutJobsNothingHappens(HoldOf(Campaign.Exec(Campaign.EMPTY, ingests), p, deadline), steps);
  }

  // ---------- which copies can be delivered ----------

  ghost predicate CanBeDelivered(s: Campaign.State, p: nat, deadline: Option<int>) {
    exists steps :: Exec(HoldOf(s, p, deadline), steps).sends != []
  }

  const CLEAN_RELEASE: seq<Step> :=
    [InsertJob(Ai), PostDone(0, OtherVerdict), ReadHold(0), TakeCounts(0), Decide(0), ListHeld(0), Deliver(0, true)]

  lemma OwnerIsReleased(deadline: Option<int>)
    ensures Exec(State([], Pending, deadline, [EntryHeld], [], []), CLEAN_RELEASE).sends == [0]
  {
    var queued, done := Job(Ai, Queued, NoVerdict), Job(Ai, Done, OtherVerdict);
    OneJobCounts(done);
    assert HeldFrom([EntryHeld], 1) == [];
    assert HeldList([EntryHeld]) == [0];
    var s0 := State([], Pending, deadline, [EntryHeld], [], []);
    var s1 := s0.(jobs := [queued]);
    var s2 := s1.(jobs := [done], procs := [Posted]);
    var s3 := s2.(procs := [SawPending]);
    var s4 := s3.(procs := [Counted(Counts(1, 0, 1, false, false))]);
    var s5 := s4.(procs := [Claimed], hold := Releasing);
    var s6 := s5.(procs := [Sending([0], 0)]);
    var s7 := s6.(procs := [Sent([0], 0)], sends := [0]);
    TraceEnds([s0, s1, s2, s3, s4, s5, s6, s7], CLEAN_RELEASE);
  }

  /** A copy can be delivered by the analysis exactly when it owns a quarantine entry. */
  lemma DeliverableExactly(s: Campaign.State, p: nat, deadline: Option<int>)
    ensures CanBeDelivered(s, p, deadline) <==> Campaign.Owns(s.entries, p)
  {
    if Campaign.Owns(s.entries, p) {
      OwnerIsReleased(deadline);
      assert Exec(HoldOf(s, p, deadline), CLEAN_RELEASE).sends == [0];
    } else {
      forall steps ensures Exec(HoldOf(s, p, deadline), steps).sends == [] {
        WithoutEntryNeverDelivered(s, p, deadline, steps);
      }
    }
  }

  /** When every copy of a campaign is held for analysis and all have been handled, one copy at most
      is ever delivered: the analysis of the representative does not release the others. */
  lemma OnlyRepresentativeIsDelivered(ingests: seq<Campaign.Step>, p: nat, q: nat, deadline: Option<int>,
                                      a: seq<Step>, b: seq<Step>)
    requires forall i :: 0 <= i < |ingests| && ingests[i].Record? ==> ingests[i].quarantined && ingests[i].confident
    requires var s := Campaign.Exec(Campaign.EMPTY, ingests);
             && (forall c :: 0 <= c < |s.copies| ==> s.copies[c].phase == Campaign.Finished)
             && p < |s.copies| && q < |s.copies| && p != q
    ensures var s := Campaign.Exec(Campaign.EMPTY, ingests);
            Exec(HoldOf(s, p, deadline), a).sends == [] || Exec(HoldOf(s, q, deadline), b).sends == []
  {
    var s := Campaign.Exec(Campaign.EMPTY, ingests);
    OneIsSuppressed(ingests, p, q);
    if s.copies[p].suppressed {
      SuppressedCopyIsNeverDelivered(ingests, p, deadline, a);
    } else {
      SuppressedCopyIsNeverDelivered(ingests, q, deadline, b);
    }
  }

  lemma OneIsSuppressed(ingests: seq<Campaign.Step>, p: nat, q: nat)
    requires forall i :: 0 <= i < |ingests| && ingests[i].Record? ==> ingests[i].quarantined && ingests[i].confident
    requires var s := Campaign.Exec(Campaign.EMPTY, ingests);
             && (forall c :: 0 <= c < |s.copies| ==> s.copies[c].phase == Campaign.Finished)
             && p < |s.copies| && q < |s.copies| && p != q
    ensures var s := Campaign.Exec(Campaign.EMPTY, ingests);
            s.copies[p].suppressed || s.copies[q].suppressed
  {
    var s := Campaign.Exec(Campaign.EMPTY, ingests);
    Campaign.OneRepresentativeAtRest(ingests);
    Campaign.RunKeepsInv(Campaign.EMPTY, ingests);
    Campaign.ConfidentRun(Campaign.EMPTY, ingests);
    assert Campaign.CopyOk(s, p) && Campaign.CopyOk(s, q);
  }
}
