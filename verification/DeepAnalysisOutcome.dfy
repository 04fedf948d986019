/** What the hold means for the scan results, under the discipline the ingest path and the
    workers are supposed to keep: every job of the mail log is inserted before the first
    terminal callback and reaches its queue, and each job gets one terminal callback and nothing
    after it.  The
    guards of the SQL updates do not enforce either half; the last two lemmas give runs that
    break each half and what then goes wrong. */
module DeepAnalysisOutcome {
  import opened Counting
  import opened Wrappers
  import opened DeepAnalysis
  import opened DeepAnalysisSafety
  import opened DeepAnalysisWakeUp

  predicate Disciplined(s: State, step: Step) {
    match step
    case InsertJob(_) => s.procs == []
    case PostRunning(j) => j < |s.jobs| ==> !Terminal(s.jobs[j])
    case PostDone(j, _) => j < |s.jobs| ==> !Terminal(s.jobs[j])
    case PostFailed(j) => j < |s.jobs| ==> !Terminal(s.jobs[j])
    case FailQueued(_) => false
    case _ => true
  }

  predicate DisciplinedRun(s: State, steps: seq<Step>)
    decreases |steps|
  {
    steps == [] || (Disciplined(s, steps[0]) && DisciplinedRun(Apply(s, steps[0]), steps[1..]))
  }

  /** Reference definition: what the results of the jobs say the hold should become. */
  function Outcome(jobs: seq<Job>): HoldState {
    if HasThreat(jobs) then ThreatFound
    else if HasUnavailable(jobs) || !HasAi(jobs) then Unavailable
    else Released
  }

  predicate AllClean(jobs: seq<Job>) {
    AllTerminal(jobs) && HasAi(jobs) && !HasThreat(jobs) && !HasUnavailable(jobs)
  }

  /** A job has a verdict or a failure only once its terminal callback arrived. */
  predicate FreshUntilTerminal(jobs: seq<Job>) {
    forall j :: 0 <= j < |jobs| && !Terminal(jobs[j]) ==> jobs[j].verdict == NoVerdict
  }

  /** A snapshot never exaggerates: a threat it saw is there to stay, and a complete snapshot
      is the final one. */
  predicate HonestCounts(jobs: seq<Job>, proc: Proc) {
    proc.Counted? ==>
      && (proc.counts.hasThreat ==> HasThreat(jobs))
      && (proc.counts.incomplete == 0 ==> AllTerminal(jobs) && proc.counts == CountsOf(jobs))
  }

  predicate OutcomeInv(s: State) {
    && FreshUntilTerminal(s.jobs)
    && (s.procs == [] ==> forall j :: 0 <= j < |s.jobs| ==> !Terminal(s.jobs[j]))
    && (s.procs != [] ==> s.jobs != [])
    && (forall p :: 0 <= p < |s.procs| ==> HonestCounts(s.jobs, s.procs[p]))
    && (s.hold == ThreatFound ==> HasThreat(s.jobs))
    && (s.hold == Releasing || s.hold == Released ==> AllClean(s.jobs))
  }

  /** A disciplined change of the jobs: nothing terminal changes, nothing new appears once a
      callback was posted. */
  predicate JobsGrow(s: State, jobs: seq<Job>) {
    && |s.jobs| <= |jobs|
    && (s.procs != [] ==> |jobs| == |s.jobs|)
    && (forall j :: 0 <= j < |s.jobs| && Terminal(s.jobs[j]) ==> jobs[j] == s.jobs[j])
  }

  lemma EnvJobsGrow(s: State, step: Step)
    requires Disciplined(s, step) && IsEnvStep(step)
    ensures JobsGrow(s, EnvStep(s, step).jobs)
    ensures FreshUntilTerminal(s.jobs) ==> FreshUntilTerminal(EnvStep(s, step).jobs)
  {
  }

  /** What a snapshot or a settled hold relied on survives a disciplined change. */
  lemma GrowKeeps(s: State, jobs: seq<Job>)
    requires OutcomeInv(s) && JobsGrow(s, jobs)
    ensures HasThreat(s.jobs) ==> HasThreat(jobs)
    ensures s.procs != [] && AllTerminal(s.jobs) ==> jobs == s.jobs
    ensures s.hold == Releasing || s.hold == Released ==> jobs == s.jobs
  {
    if HasThreat(s.jobs) {
      var j :| 0 <= j < |s.jobs| && ThreatJob(s.jobs[j]);
      assert Terminal(s.jobs[j]);
      assert ThreatJob(jobs[j]);
    }
    if AllClean(s.jobs) {
      var j :| 0 <= j < |s.jobs| && s.jobs[j].kind == Ai;
      assert Terminal(s.jobs[j]);
    }
  }

  lemma OutcomeInvEnv(s: State, step: Step)
    requires OutcomeInv(s) && Disciplined(s, step) && IsEnvStep(step)
    ensures OutcomeInv(EnvStep(s, step))
  {
    var s' := EnvStep(s, step);
    EnvJobsGrow(s, step);
    GrowKeeps(s, s'.jobs);
    forall p | 0 <= p < |s'.procs| ensures HonestCounts(s'.jobs, s'.procs[p]) {
      if p < |s.procs| {
        assert s'.procs[p] == s.procs[p];
        assert HonestCounts(s.jobs, s.procs[p]);
      }
    }
  }

  lemma OutcomeInvProc(s: State, step: Step, p: nat)
    requires OutcomeInv(s) && p < |s.procs| && !IsEnvStep(step)
    ensures OutcomeInv(ProcStep(s, step, p))
  {
    var s' := ProcStep(s, step, p);
    assert HonestCounts(s.jobs, s.procs[p]);
    CountsMean(s.jobs);
    assert s'.jobs == s.jobs;
    forall q | 0 <= q < |s'.procs| ensures HonestCounts(s'.jobs, s'.procs[q]) {
      assert HonestCounts(s.jobs, s.procs[q]);
    }
  }

  lemma {:induction false} OutcomeInvRun(s: State, steps: seq<Step>)
    requires OutcomeInv(s) && DisciplinedRun(s, steps)
    ensures OutcomeInv(Exec(s, steps))
    decreases |steps|
  {
    if steps != [] {
      var step := steps[0];
      if IsEnvStep(step) {
        OutcomeInvEnv(s, step);
      } else if step.proc < |s.procs| {
        OutcomeInvProc(s, step, step.proc);
      }
      OutcomeInvRun(Apply(s, step), steps[1..]);
    }
  }

  lemma InitialOutcomeInv(s: State)
    requires Initial(s)
    ensures OutcomeInv(s)
  {
    if s.jobs != [] {
      assert !Terminal(s.jobs[0]);
    }
  }

  /** Nothing is released that any scan objected to: in a disciplined run the hold is claimed,
      or ends released, only while every job of the mail log is done, none failed or was
      inconclusive, none reported a threat, and at least one is an AI job. */
  lemma ClaimedMeansClean(s0: State, steps: seq<Step>)
    requires Initial(s0) && DisciplinedRun(s0, steps)
    ensures var s := Exec(s0, steps);
            && (s.hold == Releasing || s.hold == Released || s.sends != [] ==> AllClean(s.jobs))
            && (s.hold == ThreatFound ==> HasThreat(s.jobs) && s.sends == [])
  {
    InitialOutcomeInv(s0);
    OutcomeInvRun(s0, steps);
    ReleaseConservation(s0, steps);
    var s := Exec(s0, steps);
    if s.sends != [] && s.hold == Unavailable {
      SentMeansClean(s0, steps);
    } else if s.sends != [] && s.hold == NotRequired {
      NeverNotRequired(s0, steps);
    }
  }

  /** The same at the moment of the claim itself. */
  lemma ClaimOnlyWhenClean(s0: State, steps: seq<Step>, step: Step)
    requires Initial(s0) && DisciplinedRun(s0, steps)
    requires Claims(Exec(s0, steps), step)
    ensures AllClean(Exec(s0, steps).jobs)
  {
    var s := Exec(s0, steps);
    InitialOutcomeInv(s0);
    OutcomeInvRun(s0, steps);
    ClaimExactly(s, step);
    assert HonestCounts(s.jobs, s.procs[step.proc]);
    CountsMean(s.jobs);
  }

  lemma {:induction false} NeverNotRequired(s: State, steps: seq<Step>)
    requires s.hold != NotRequired
    ensures Exec(s, steps).hold != NotRequired
    decreases |steps|
  {
    if steps != [] {
      HoldStep(s, steps[0]);
      assert Apply(s, steps[0]).hold != NotRequired by {
        if !IsEnvStep(steps[0]) && steps[0].proc < |s.procs| {
          var proc := s.procs[steps[0].proc];
        }
      }
      NeverNotRequired(Apply(s, steps[0]), steps[1..]);
    }
  }

  lemma CleanNeedsCallbacks(s: State)
    requires OutcomeInv(s)
    ensures AllClean(s.jobs) ==> s.procs != []
  {
    if AllClean(s.jobs) {
      assert Terminal(s.jobs[0]);
    }
  }

  /** Once any copy was sent the jobs are clean, even if the hold was timed out afterwards. */
  predicate ReleasingIsClean(s: State) {
    (forall p :: 0 <= p < |s.procs| ==> !InRelease(s.procs[p]) || AllClean(s.jobs))
    && (s.sends != [] ==> AllClean(s.jobs))
  }

  lemma ReleasingIsCleanStep(s: State, step: Step)
    requires OutcomeInv(s) && ReleasingIsClean(s) && Disciplined(s, step)
    ensures ReleasingIsClean(Apply(s, step))
  {
    var s' := Apply(s, step);
    if IsEnvStep(step) {
      EnvJobsGrow(s, step);
      GrowKeeps(s, s'.jobs);
      CleanNeedsCallbacks(s);
    } else if step.proc < |s.procs| {
      assert HonestCounts(s.jobs, s.procs[step.proc]);
      CountsMean(s.jobs);
    }
  }

  lemma {:induction false} SentMeansCleanFrom(s: State, steps: seq<Step>)
    requires OutcomeInv(s) && ReleasingIsClean(s) && DisciplinedRun(s, steps)
    ensures ReleasingIsClean(Exec(s, steps))
    decreases |steps|
  {
    if steps != [] {
      ReleasingIsCleanStep(s, steps[0]);
      assert Exec(s, [steps[0]]) == Exec(Apply(s, steps[0]), [steps[0]][1..]);
      OutcomeInvRun(s, [steps[0]]);
      SentMeansCleanFrom(Apply(s, steps[0]), steps[1..]);
    }
  }

  lemma SentMeansClean(s0: State, steps: seq<Step>)
    requires Initial(s0) && DisciplinedRun(s0, steps)
    ensures ReleasingIsClean(Exec(s0, steps))
  {
    InitialOutcomeInv(s0);
    SentMeansCleanFrom(s0, steps);
  }

  // ---------- order independence ----------

  /** No delivery and no statement fails, and no tick finds the deadline passed. */
  predicate NoTrouble(step: Step, deadline: Option<int>) {
    match step
    case Deliver(_, ok) => ok
    case FileReport(_, ok) => ok
    case RecordFailure(_, ok) => ok
    case MarkReleased(_, ok) => ok
    case FinishRelease(_, ok) => ok
    case DbError(_) => false
    case Tick(now) => deadline.Some? ==> now < deadline.value
    case _ => true
  }

  predicate NoTroubleRun(steps: seq<Step>, deadline: Option<int>) {
    forall i :: 0 <= i < |steps| ==> NoTrouble(steps[i], deadline)
  }

  predicate HasReportable(jobs: seq<Job>) {
    exists j :: 0 <= j < |jobs| && jobs[j].state == Done && Reportable(jobs[j].verdict)
  }

  predicate SomeReporting(procs: seq<Proc>) {
    exists p :: 0 <= p < |procs| && procs[p].Reporting?
  }

  /** Whether a report has added its entry, given the entries at the start. */
  predicate ReportInv(s: State, entries: seq<EntryState>) {
    && (SomeReporting(s.procs) ==> HasReportable(s.jobs))
    && (HasReportable(s.jobs) ==>
          s.entries == WithReport(entries) || (SomeReporting(s.procs) && s.entries == entries))
    && (!HasReportable(s.jobs) ==> EntryBare !in s.entries && (AllClean(s.jobs) || s.entries == entries))
  }

  lemma ReportableIsThreat(jobs: seq<Job>)
    ensures HasReportable(jobs) ==> HasThreat(jobs)
  {
    if HasReportable(jobs) {
      var j :| 0 <= j < |jobs| && jobs[j].state == Done && Reportable(jobs[j].verdict);
      assert ThreatJob(jobs[j]);
    }
  }

  lemma ReportableStays(s: State, jobs: seq<Job>)
    requires JobsGrow(s, jobs) && HasReportable(s.jobs)
    ensures HasReportable(jobs)
  {
    var j :| 0 <= j < |s.jobs| && s.jobs[j].state == Done && Reportable(s.jobs[j].verdict);
    assert jobs[j] == s.jobs[j];
  }

  lemma ReportEnv(s: State, step: Step, entries: seq<EntryState>)
    requires OutcomeInv(s) && ReportInv(s, entries) && Disciplined(s, step) && IsEnvStep(step)
    ensures ReportInv(EnvStep(s, step), entries)
  {
    var s' := EnvStep(s, step);
    EnvJobsGrow(s, step);
    CleanStays(s, step);
    NewReports(s, step);
    hide EnvStep, AllClean, OutcomeInv, Disciplined, WithReport;
    if HasReportable(s.jobs) {
      ReportableStays(s, s'.jobs);
    }
  }

  /** Under the discipline clean jobs do not change any more. */
  lemma CleanStays(s: State, step: Step)
    requires OutcomeInv(s) && Disciplined(s, step) && IsEnvStep(step)
    ensures AllClean(s.jobs) ==> EnvStep(s, step).jobs == s.jobs
  {
    EnvJobsGrow(s, step);
    GrowKeeps(s, EnvStep(s, step).jobs);
    CleanNeedsCallbacks(s);
  }

  lemma NewReports(s: State, step: Step)
    requires Disciplined(s, step) && IsEnvStep(step)
    ensures var s' := EnvStep(s, step);
            && s'.entries == s.entries
            && (SomeReporting(s.procs) ==> SomeReporting(s'.procs))
            && (SomeReporting(s'.procs) && !SomeReporting(s.procs) ==> HasReportable(s'.jobs))
            && (HasReportable(s'.jobs) && !HasReportable(s.jobs) ==> SomeReporting(s'.procs) && s'.jobs != s.jobs)
  {
    var s' := EnvStep(s, step);
    if p :| 0 <= p < |s.procs| && s.procs[p].Reporting? {
      assert s'.procs[p].Reporting?;
    }
    if p :| 0 <= p < |s'.procs| && s'.procs[p].Reporting? {
      if p == |s.procs| {
        assert s'.jobs[step.job].state == Done;
      } else {
        assert s.procs[p].Reporting?;
      }
    }
    if j :| 0 <= j < |s'.jobs| && s'.jobs[j].state == Done && Reportable(s'.jobs[j].verdict) {
      if j < |s.jobs| && s.jobs[j] == s'.jobs[j] {
      } else {
        assert s'.procs[|s.procs|].Reporting?;
      }
    }
  }

  lemma ReportTwice(entries: seq<EntryState>)
    ensures WithReport(WithReport(entries)) == WithReport(entries)
  {
    if WithReport(entries) != entries {
      assert IsHeld(WithReport(entries)[|entries|]);
    }
  }

  lemma ReportProc(s: State, step: Step, p: nat, entries: seq<EntryState>)
    requires ReleasingIsClean(s) && ReportInv(s, entries) && NoTrouble(step, s.deadline)
    requires !IsEnvStep(step) && p < |s.procs|
    ensures ReportInv(ProcStep(s, step, p), entries)
  {
    var s' := ProcStep(s, step, p);
    ReportableIsThreat(s.jobs);
    ReportTwice(entries);
    assert s'.jobs == s.jobs;
    if step.FileReport? && s.procs[p].Reporting? {
      assert SomeReporting(s.procs);
    } else {
      SameReporting(s, step, p);
      if s'.entries != s.entries {
        assert InRelease(s.procs[p]);
      }
    }
  }

  lemma SameReporting(s: State, step: Step, p: nat)
    requires !IsEnvStep(step) && p < |s.procs| && !(step.FileReport? && s.procs[p].Reporting?)
    ensures SomeReporting(ProcStep(s, step, p).procs) == SomeReporting(s.procs)
  {
    var s' := ProcStep(s, step, p);
    if q :| 0 <= q < |s.procs| && s.procs[q].Reporting? {
      assert s'.procs[q].Reporting?;
    }
    if q :| 0 <= q < |s'.procs| && s'.procs[q].Reporting? {
      assert s.procs[q].Reporting?;
    }
  }

  ghost predicate SmoothInv(s: State) {
    && (s.hold == Unavailable ==> AllTerminal(s.jobs) && s.procs != [] && Outcome(s.jobs) == Unavailable)
    && (s.hold == Releasing ==> exists p :: 0 <= p < |s.procs| && InRelease(s.procs[p]))
    && (forall p :: 0 <= p < |s.procs| ==> s.procs[p] != Aborted && !s.procs[p].SendFailed?)
    && (forall p :: 0 <= p < |s.procs| && s.procs[p].Sending? ==> s.procs[p].next <= |s.procs[p].list|)
    && (forall p :: 0 <= p < |s.procs| && s.procs[p].Sent? ==> s.procs[p].next < |s.procs[p].list|)
  }

  lemma SmoothEnv(s: State, step: Step)
    requires OutcomeInv(s) && SmoothInv(s) && Disciplined(s, step) && NoTrouble(step, s.deadline) && IsEnvStep(step)
    ensures SmoothInv(EnvStep(s, step))
  {
    var s' := EnvStep(s, step);
    EnvJobsGrow(s, step);
    GrowKeeps(s, s'.jobs);
    if s.hold == Releasing {
      var p :| 0 <= p < |s.procs| && InRelease(s.procs[p]);
      assert s'.procs[p] == s.procs[p];
    }
  }

  lemma SmoothProc(s: State, step: Step, p: nat)
    requires OutcomeInv(s) && SmoothInv(s) && NoTrouble(step, s.deadline) && !IsEnvStep(step) && p < |s.procs|
    requires step.Deliver? && InRelease(s.procs[p]) ==> EntryBare !in s.entries
    ensures SmoothInv(ProcStep(s, step, p))
  {
    var s' := ProcStep(s, step, p);
    assert HonestCounts(s.jobs, s.procs[p]);
    CountsMean(s.jobs);
    if s'.hold == Releasing {
      if s.hold == Releasing && !InRelease(s.procs[p]) {
        var q :| 0 <= q < |s.procs| && InRelease(s.procs[q]);
        assert s'.procs[q] == s.procs[q];
      } else {
        assert InRelease(s'.procs[p]);
      }
    }
  }

  /** What a run without trouble keeps. */
  ghost predicate Smooth(s: State, entries: seq<EntryState>) {
    OutcomeInv(s) && ReleasingIsClean(s) && ReportInv(s, entries) && SmoothInv(s)
  }

  lemma SmoothStep(s: State, step: Step, entries: seq<EntryState>)
    requires Smooth(s, entries) && Disciplined(s, step) && NoTrouble(step, s.deadline)
    ensures Smooth(Apply(s, step), entries)
  {
    ReleasingIsCleanStep(s, step);
    if IsEnvStep(step) {
      OutcomeInvEnv(s, step);
      ReportEnv(s, step, entries);
      SmoothEnv(s, step);
    } else if step.proc < |s.procs| {
      OutcomeInvProc(s, step, step.proc);
      ReportProc(s, step, step.proc, entries);
      ReleasesNoBare(s, step.proc, entries);
      SmoothProc(s, step, step.proc);
    }
  }

  lemma ReleasesNoBare(s: State, p: nat, entries: seq<EntryState>)
    requires Smooth(s, entries) && p < |s.procs|
    ensures InRelease(s.procs[p]) ==> EntryBare !in s.entries
  {
    ReportableIsThreat(s.jobs);
  }

  lemma {:induction false} SmoothRun(s: State, steps: seq<Step>, entries: seq<EntryState>)
    requires Smooth(s, entries) && DisciplinedRun(s, steps) && NoTroubleRun(steps, s.deadline)
    ensures Smooth(Exec(s, steps), entries)
    decreases |steps|
  {
    hide Smooth, Apply, Disciplined, NoTrouble;
    if steps != [] {
      assert NoTrouble(steps[0], s.deadline);
      SmoothStep(s, steps[0], entries);
      assert Exec(s, [steps[0]]) == Exec(Apply(s, steps[0]), [steps[0]][1..]);
      DeadlineStays(s, [steps[0]]);
      assert NoTroubleRun(steps[1..], s.deadline) by {
        forall i | 0 <= i < |steps[1..]| ensures NoTrouble(steps[1..][i], s.deadline) {
          assert NoTrouble(steps[i + 1], s.deadline);
        }
      }
      SmoothRun(Apply(s, steps[0]), steps[1..], entries);
    }
  }

  lemma {:induction false} DisciplinedNeverSilent(s: State, steps: seq<Step>)
    requires DisciplinedRun(s, steps)
    ensures NeverSilent(s, steps)
    decreases |steps|
  {
    if steps != [] {
      DisciplinedNeverSilent(Apply(s, steps[0]), steps[1..]);
    }
  }

  /** The entries with every held one released. */
  function AllReleased(entries: seq<EntryState>): (r: seq<EntryState>)
    ensures |r| == |entries|
    ensures forall e :: 0 <= e < |entries| ==> r[e] == if entries[e] == EntryHeld then EntryReleased else entries[e]
  {
    seq(|entries|, e requires 0 <= e < |entries| => if entries[e] == EntryHeld then EntryReleased else entries[e])
  }

  /** The entries at the end: a released hold has released them all, and otherwise a threat report adds
      one when none was held. */
  function FinalEntries(jobs: seq<Job>, entries: seq<EntryState>): seq<EntryState> {
    if Outcome(jobs) == Released then AllReleased(entries)
    else if HasReportable(jobs) then WithReport(entries)
    else entries
  }

  lemma InitialSmooth(s0: State)
    requires Initial(s0)
    ensures Smooth(s0, s0.entries)
  {
    InitialOutcomeInv(s0);
  }

  lemma SmoothEnds(s0: State, steps: seq<Step>)
    requires Initial(s0) && DisciplinedRun(s0, steps) && NoTroubleRun(steps, s0.deadline)
    requires var s := Exec(s0, steps); s.jobs != [] && AllTerminal(s.jobs) && AllFinished(s.procs)
    ensures var s := Exec(s0, steps); Smooth(s, s0.entries) && s.hold == Outcome(s.jobs)
  {
    InitialSmooth(s0);
    SmoothRun(s0, steps, s0.entries);
    DisciplinedNeverSilent(s0, steps);
    NoLostWakeUp(s0, steps);
    NeverNotRequired(s0, steps);
  }

  lemma AddedIsBare(entries: seq<EntryState>, s: State)
    requires EntriesFollowSends(entries, s)
    ensures |s.entries| > |entries| ==> EntryBare in s.entries
  {
    if |s.entries| > |entries| {
      assert s.entries[|entries|] in s.entries;
    }
  }

  /** Order independence: without errors and before the deadline, once every job is terminal and every
      callback has returned, the hold, the deliveries and the entries are a function of the
      job results and of the entries at the start, whatever the interleaving was. */
  lemma FinalStateIsOutcome(s0: State, steps: seq<Step>)
    requires Initial(s0) && DisciplinedRun(s0, steps) && NoTroubleRun(steps, s0.deadline)
    requires var s := Exec(s0, steps); s.jobs != [] && AllTerminal(s.jobs) && AllFinished(s.procs)
    ensures var s := Exec(s0, steps);
            && s.hold == Outcome(s.jobs)
            && s.sends == (if s.hold == Released then HeldList(s0.entries) else [])
            && s.entries == FinalEntries(s.jobs, s0.entries)
  {
    var s := Exec(s0, steps);
    SmoothEnds(s0, steps);
    ReleaseConservation(s0, steps);
    ReportableIsThreat(s.jobs);
    hide OutcomeInv, SmoothInv, HeldList;
    if s.hold == Released {
      assert EntryBare !in s.entries;
      AddedIsBare(s0.entries, s);
      forall e | 0 <= e < |s.entries| ensures s.entries[e] == AllReleased(s0.entries)[e] {
        assert s.entries[e] in s.entries;
      }
    } else {
      assert !SomeReporting(s.procs);
      assert s.sends == [];
    }
  }

  lemma TwoInterleavingsAgree(s0: State, a: seq<Step>, b: seq<Step>)
    requires Initial(s0)
    requires DisciplinedRun(s0, a) && NoTroubleRun(a, s0.deadline)
    requires DisciplinedRun(s0, b) && NoTroubleRun(b, s0.deadline)
    requires var s := Exec(s0, a);
             s.jobs != [] && AllTerminal(s.jobs) && AllFinished(s.procs)
    requires AllFinished(Exec(s0, b).procs)
    requires Exec(s0, a).jobs == Exec(s0, b).jobs
    ensures Exec(s0, a).hold == Exec(s0, b).hold && Exec(s0, a).sends == Exec(s0, b).sends
    ensures Exec(s0, a).entries == Exec(s0, b).entries
  {
    FinalStateIsOutcome(s0, a);
    FinalStateIsOutcome(s0, b);
  }

  // ---------- the discipline is needed ----------

  lemma {:induction false} TraceEnds(states: seq<State>, steps: seq<Step>)
    requires |states| == |steps| + 1
    requires forall i :: 0 <= i < |steps| ==> states[i + 1] == Apply(states[i], steps[i])
    ensures Exec(states[0], steps) == states[|steps|]
    decreases |steps|
  {
    if steps != [] {
      TraceEnds(states[1..], steps[1..]);
    }
  }

  lemma OneJobCounts(job: Job)
    ensures CountsOf([job]) ==
            Counts(1, if Terminal(job) then 0 else 1, if job.kind == Ai then 1 else 0, ThreatJob(job), UnavailableJob(job))
  {
    var jobs := [job];
    CountOne(job, (job: Job) => !Terminal(job));
    CountOne(job, (job: Job) => job.kind == Ai);
    assert ThreatJob(job) ==> ThreatJob(jobs[0]);
    assert UnavailableJob(job) ==> UnavailableJob(jobs[0]);
  }

  const ONE_AI_JOB := State([Job(Ai, Queued, NoVerdict)], Pending, None, [EntryHeld], [], [])

  const AI_THEN_CLAIM: seq<Step> := [PostDone(0, OtherVerdict), ReadHold(0), TakeCounts(0), Decide(0), InsertJob(Sandbox)]

  const CLAIMED_WITH_SANDBOX :=
    State([Job(Ai, Done, OtherVerdict), Job(Sandbox, Queued, NoVerdict)], Releasing, None, [EntryHeld], [], [Claimed])

  const RELEASE: seq<Step> := [ListHeld(0), Deliver(0, true), MarkReleased(0, true), FinishRelease(0, true)]

  const THREAT: seq<Step> := [PostDone(1, Malware), FileReport(1, true)]

  lemma AiCallbackClaims()
    ensures Exec(ONE_AI_JOB, AI_THEN_CLAIM) == CLAIMED_WITH_SANDBOX
  {
    var done := Job(Ai, Done, OtherVerdict);
    OneJobCounts(done);
    var s1 := ONE_AI_JOB.(jobs := [done], procs := [Posted]);
    var s2 := s1.(procs := [SawPending]);
    var s3 := s2.(procs := [Counted(Counts(1, 0, 1, false, false))]);
    var s4 := s3.(procs := [Claimed], hold := Releasing);
    TraceEnds([ONE_AI_JOB, s1, s2, s3, s4, CLAIMED_WITH_SANDBOX], AI_THEN_CLAIM);
  }

  const RELEASED_EARLY := CLAIMED_WITH_SANDBOX.(hold := Released, entries := [EntryReleased], sends := [0], procs := [Finished])

  lemma ReleaseOvertakesSandbox()
    ensures Exec(CLAIMED_WITH_SANDBOX, RELEASE) == RELEASED_EARLY
  {
    var s0 := CLAIMED_WITH_SANDBOX;
    assert HeldFrom([EntryHeld], 1) == [];
    assert HeldList([EntryHeld]) == [0];
    var s1 := s0.(procs := [Sending([0], 0)]);
    var s2 := s1.(procs := [Sent([0], 0)], sends := [0]);
    var s3 := s2.(procs := [Sending([0], 1)], entries := [EntryReleased]);
    TraceEnds([s0, s1, s2, s3, RELEASED_EARLY], RELEASE);
  }

  lemma ThreatAfterRelease()
    ensures var s := Exec(RELEASED_EARLY, THREAT);
            s.hold == Released && s.sends == [0] && HasThreat(s.jobs) && s.entries == [EntryReleased, EntryBare]
  {
    var s0 := RELEASED_EARLY;
    var s1 := s0.(jobs := [s0.jobs[0], Job(Sandbox, Done, Malware)], procs := [Finished, Reporting]);
    var s2 := s1.(procs := [Finished, Posted], entries := [EntryReleased, EntryBare]);
    TraceEnds([s0, s1, s2], THREAT);
    assert ThreatJob(s2.jobs[1]);
  }

  /** The ingest path inserts jobs one at a time, the AI job first.  If the AI callback is
      handled before the sandbox job is inserted, the message is delivered although the
      sandbox then reports malware. */
  lemma LateInsertReleasesThreat()
    ensures Initial(ONE_AI_JOB)
    ensures var s := Exec(ONE_AI_JOB, AI_THEN_CLAIM + RELEASE + THREAT);
            s.hold == Released && s.sends == [0] && HasThreat(s.jobs) && s.entries == [EntryReleased, EntryBare]
  {
    hide Exec, Apply;
    AiCallbackClaims();
    ReleaseOvertakesSandbox();
    ThreatAfterRelease();
    ExecConcat(ONE_AI_JOB, AI_THEN_CLAIM, RELEASE);
    ExecConcat(ONE_AI_JOB, AI_THEN_CLAIM + RELEASE, THREAT);
  }

  const AI_AND_QR := State([Job(Ai, Queued, NoVerdict), Job(Qr, Queued, NoVerdict)], Pending, None, [EntryHeld], [], [])

  const AI_DONE: seq<Step> := [PostDone(0, OtherVerdict), ReadHold(0), TakeCounts(0), Decide(0)]

  const QR_OPEN :=
    State([Job(Ai, Done, OtherVerdict), Job(Qr, Queued, NoVerdict)], Pending, None, [EntryHeld], [], [Finished])

  lemma AiCallbackReturns()
    ensures Exec(AI_AND_QR, AI_DONE) == QR_OPEN
  {
    var s0, jobs := AI_AND_QR, QR_OPEN.jobs;
    CountsMean(jobs);
    assert !Terminal(jobs[1]);
    var s1 := s0.(jobs := jobs, procs := [Posted]);
    var s2 := s1.(procs := [SawPending]);
    var s3 := s2.(procs := [Counted(CountsOf(jobs))]);
    TraceEnds([s0, s1, s2, s3, QR_OPEN], AI_DONE);
  }

  /** A job whose push to the queue fails is set to failed, and nobody calls back: when it was the last
      open one, the hold stays pending although all jobs are terminal and all callbacks returned. */
  lemma QueueFailureLosesWakeUp()
    ensures Initial(AI_AND_QR)
    ensures var s := Exec(AI_AND_QR, AI_DONE + [FailQueued(1)]);
            AllTerminal(s.jobs) && AllFinished(s.procs) && s.hold == Pending
  {
    hide Exec;
    AiCallbackReturns();
    ExecSnoc(AI_AND_QR, AI_DONE, FailQueued(1));
  }

  function LateRunningState(deadline: Option<int>): State {
    State([Job(Ai, Running, OtherVerdict)], Pending, deadline, [EntryHeld], [], [Finished])
  }

  const LATE_RUNNING: seq<Step> := [PostDone(0, OtherVerdict), PostRunning(0), ReadHold(0), TakeCounts(0), Decide(0)]

  lemma LateRunningIsPending(deadline: Option<int>)
    ensures Exec(ONE_AI_JOB.(deadline := deadline), LATE_RUNNING) == LateRunningState(deadline)
  {
    var s0 := ONE_AI_JOB.(deadline := deadline);
    var back := Job(Ai, Running, OtherVerdict);
    OneJobCounts(back);
    var s1 := s0.(jobs := [Job(Ai, Done, OtherVerdict)], procs := [Posted]);
    var s2 := s1.(jobs := [back]);
    var s3 := s2.(procs := [SawPending]);
    var s4 := s3.(procs := [Counted(Counts(1, 1, 1, false, false))]);
    TraceEnds([s0, s1, s2, s3, s4, LateRunningState(deadline)], LATE_RUNNING);
  }

  /** The steps that remain once the only job has had its terminal callback: steps of returned
      callbacks, further `running` callbacks, and ticks before the deadline. */
  predicate NoFurtherResult(deadline: Option<int>, step: Step) {
    match step
    case PostDone(_, _) => false
    case PostFailed(_) => false
    case FailQueued(_) => false
    case InsertJob(_) => false
    case Tick(now) => deadline.Some? ==> now < deadline.value
    case _ => true
  }

  lemma {:induction false} LateRunningStays(deadline: Option<int>, more: seq<Step>)
    requires forall i :: 0 <= i < |more| ==> NoFurtherResult(deadline, more[i])
    ensures Exec(LateRunningState(deadline), more) == LateRunningState(deadline)
    decreases |more|
  {
    if more != [] {
      var s := LateRunningState(deadline);
      assert NoFurtherResult(deadline, more[0]);
      assert s.jobs[0 := Job(Ai, Running, OtherVerdict)] == s.jobs;
      assert Apply(s, more[0]) == s;
      LateRunningStays(deadline, more[1..]);
    }
  }

  /** A `running` callback that arrives after the job's terminal callback puts the job back
      to running.  The reconciler then counts it as incomplete and returns, and although the job
      had reported a clean result the hold stays pending whatever happens before the deadline. */
  lemma LateRunningLosesWakeUp(deadline: Option<int>, more: seq<Step>)
    requires forall i :: 0 <= i < |more| ==> NoFurtherResult(deadline, more[i])
    ensures var s0 := ONE_AI_JOB.(deadline := deadline);
            Initial(s0) && var s := Exec(s0, LATE_RUNNING + more); s.hold == Pending && s.sends == []
  {
    hide Apply, Exec;
    LateRunningIsPending(deadline);
    ExecConcat(ONE_AI_JOB.(deadline := deadline), LATE_RUNNING, more);
    LateRunningStays(deadline, more);
  }
}
