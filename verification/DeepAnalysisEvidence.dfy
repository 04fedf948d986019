/** What holds of the deep-analysis hold over every run, with no discipline of the ingest path or
    the workers at all: every release rests on a moment at which the scan results were clean, only
    late inserts and reposts can take that evidence back, and timeouts never cause a delivery. */
module DeepAnalysisEvidence {
  import opened DeepAnalysis
  import opened DeepAnalysisSafety
  import opened DeepAnalysisOutcome

  // ---------- snapshots are true of their moment ----------

  function JobsAt(s0: State, steps: seq<Step>, n: nat): seq<Job>
    requires n <= |steps|
  {
    Exec(s0, steps[..n]).jobs
  }

  predicate SomeSnapshot(s0: State, steps: seq<Step>, counts: Counts) {
    exists n :: 0 <= n <= |steps| && CountsOf(JobsAt(s0, steps, n)) == counts
  }

  lemma SnapshotGrows(s0: State, steps: seq<Step>, step: Step, counts: Counts)
    requires SomeSnapshot(s0, steps, counts)
    ensures SomeSnapshot(s0, steps + [step], counts)
  {
    var n :| 0 <= n <= |steps| && CountsOf(JobsAt(s0, steps, n)) == counts;
    assert (steps + [step])[..n] == steps[..n];
    assert CountsOf(JobsAt(s0, steps + [step], n)) == counts;
  }

  lemma NewCounts(s: State, step: Step, p: nat)
    requires p < |Apply(s, step).procs| && Apply(s, step).procs[p].Counted?
    ensures (p < |s.procs| && s.procs[p] == Apply(s, step).procs[p]) || Apply(s, step).procs[p].counts == CountsOf(s.jobs)
  {
  }

  lemma {:induction false} CountsAreSnapshots(s0: State, steps: seq<Step>, p: nat)
    requires s0.procs == []
    requires p < |Exec(s0, steps).procs| && Exec(s0, steps).procs[p].Counted?
    ensures SomeSnapshot(s0, steps, Exec(s0, steps).procs[p].counts)
    decreases |steps|
  {
    hide Apply, CountsOf;
    if steps != [] {
      var before, step := steps[..|steps| - 1], steps[|steps| - 1];
      assert steps == before + [step];
      ExecSnoc(s0, before, step);
      var s := Exec(s0, before);
      NewCounts(s, step, p);
      if p < |s.procs| && s.procs[p] == Exec(s0, steps).procs[p] {
        CountsAreSnapshots(s0, before, p);
        SnapshotGrows(s0, before, step, s.procs[p].counts);
      } else {
        assert steps[..|before|] == before;
        assert CountsOf(JobsAt(s0, steps, |before|)) == CountsOf(s.jobs);
      }
    }
  }

  lemma CleanCountsMean(jobs: seq<Job>)
    ensures CleanCounts(CountsOf(jobs)) <==> AllClean(jobs)
  {
    CountsMean(jobs);
  }

  /** At some earlier moment of the run every job that was then inserted was done, none had failed or
      was inconclusive, none reported a threat, and one was an AI job. */
  ghost predicate WasClean(s0: State, steps: seq<Step>) {
    exists n :: 0 <= n <= |steps| && AllClean(JobsAt(s0, steps, n))
  }

  /** Whoever wins the claim has seen clean jobs, in every run whatsoever. */
  lemma ClaimSawClean(s0: State, steps: seq<Step>, step: Step)
    requires Initial(s0) && Claims(Exec(s0, steps), step)
    ensures WasClean(s0, steps)
  {
    hide CleanCounts, AllClean, CountsOf;
    ClaimExactly(Exec(s0, steps), step);
    CountsAreSnapshots(s0, steps, step.proc);
    var counts := Exec(s0, steps).procs[step.proc].counts;
    var n :| 0 <= n <= |steps| && CountsOf(JobsAt(s0, steps, n)) == counts;
    CleanCountsMean(JobsAt(s0, steps, n));
  }

  // ---------- every release starts with a claim ----------

  predicate Started(s: State) {
    || s.hold == Releasing || s.hold == Released || s.sends != []
    || exists p :: 0 <= p < |s.procs| && InRelease(s.procs[p])
  }

  lemma OnlyClaimsStart(s: State, step: Step)
    requires !Started(s) && Started(Apply(s, step))
    ensures Claims(s, step)
  {
    var s' := Apply(s, step);
    HoldStep(s, step);
    if p :| 0 <= p < |s'.procs| && InRelease(s'.procs[p]) {
      assert p < |s.procs| ==> !InRelease(s.procs[p]);
    }
  }

  /** Nothing is ever claimed, sent or released unless all scan results were clean at some earlier
      moment of the run. */
  lemma {:induction false} ReleaseSawClean(s0: State, steps: seq<Step>)
    requires Initial(s0) && Started(Exec(s0, steps))
    ensures WasClean(s0, steps)
    decreases |steps|
  {
    hide Apply, Claims, AllClean, Started;
    InitialNotStarted(s0);
    if steps != [] {
      var before, step := steps[..|steps| - 1], steps[|steps| - 1];
      assert steps == before + [step];
      ExecSnoc(s0, before, step);
      if Started(Exec(s0, before)) {
        ReleaseSawClean(s0, before);
      } else {
        OnlyClaimsStart(Exec(s0, before), step);
        ClaimSawClean(s0, before, step);
      }
      var n :| 0 <= n <= |before| && AllClean(JobsAt(s0, before, n));
      assert steps[..n] == before[..n];
      assert AllClean(JobsAt(s0, steps, n));
    }
  }

  lemma InitialNotStarted(s0: State)
    requires Initial(s0)
    ensures !Started(s0)
  {
  }

  // ---------- what can take the evidence back ----------

  /** A job inserted after the scans looked complete, a job put back to running, or a repost that
      fails it or gives it another verdict. */
  predicate TakesBack(s: State, step: Step) {
    match step
    case InsertJob(_) => true
    case PostRunning(j) => j < |s.jobs|
    case PostFailed(j) => j < |s.jobs|
    case FailQueued(j) => j < |s.jobs|
    case PostDone(j, v) =>
      j < |s.jobs| && (ThreatJob(Job(Ai, Done, v)) || UnavailableJob(Job(Ai, Done, v)))
    case _ => false
  }

  /** Exactly these steps make clean jobs unclean. */
  lemma TakesBackExactly(s: State, step: Step)
    requires AllClean(s.jobs)
    ensures !AllClean(Apply(s, step).jobs) <==> TakesBack(s, step)
  {
    var jobs := Apply(s, step).jobs;
    if step.InsertJob? {
      assert !Terminal(jobs[|s.jobs|]);
    } else if (step.PostRunning? || step.PostFailed? || step.PostDone? || step.FailQueued?) && step.job < |s.jobs| {
      var j := step.job;
      if TakesBack(s, step) {
        assert !Terminal(jobs[j]) || UnavailableJob(jobs[j]) || ThreatJob(jobs[j]);
      } else {
        KeepsClean(s.jobs, j, jobs[j]);
      }
    }
  }

  lemma KeepsClean(jobs: seq<Job>, j: nat, job: Job)
    requires AllClean(jobs) && j < |jobs| && job.kind == jobs[j].kind
    requires Terminal(job) && !ThreatJob(job) && !UnavailableJob(job)
    ensures AllClean(jobs[j := job])
  {
    var a :| 0 <= a < |jobs| && jobs[a].kind == Ai;
    assert jobs[j := job][a].kind == Ai;
  }

  /** If a message was claimed, sent or released although its jobs are not clean now, then a late
      insert or a repost came after a moment at which they were: nothing else can cause it. */
  lemma UncleanReleaseHasLateStep(s0: State, steps: seq<Step>)
    requires Initial(s0) && Started(Exec(s0, steps)) && !AllClean(Exec(s0, steps).jobs)
    ensures exists i :: 0 <= i < |steps| && AllClean(JobsAt(s0, steps, i)) && TakesBack(Exec(s0, steps[..i]), steps[i])
  {
    hide Apply, AllClean, Started, TakesBack;
    ReleaseSawClean(s0, steps);
    var n :| 0 <= n <= |steps| && AllClean(JobsAt(s0, steps, n));
    assert steps[..|steps|] == steps;
    LastClean(s0, steps, n);
  }

  lemma {:induction false} LastClean(s0: State, steps: seq<Step>, n: nat)
    requires n <= |steps| && AllClean(JobsAt(s0, steps, n)) && !AllClean(JobsAt(s0, steps, |steps|))
    ensures exists i :: n <= i < |steps| && AllClean(JobsAt(s0, steps, i)) && TakesBack(Exec(s0, steps[..i]), steps[i])
    decreases |steps| - n
  {
    hide Apply, AllClean, TakesBack;
    assert steps[..n + 1] == steps[..n] + [steps[n]];
    ExecSnoc(s0, steps[..n], steps[n]);
    TakesBackExactly(Exec(s0, steps[..n]), steps[n]);
    if AllClean(JobsAt(s0, steps, n + 1)) {
      LastClean(s0, steps, n + 1);
    }
  }

  // ---------- timeouts ----------

  function WithoutTicks(steps: seq<Step>): seq<Step> {
    if steps == [] then []
    else WithoutTicks(steps[..|steps| - 1]) + if steps[|steps| - 1].Tick? then [] else [steps[|steps| - 1]]
  }

  /** Nothing is being released and nothing was; reports may have added bare entries. */
  predicate Quiet(s0: State, s: State) {
    NoneInRelease(s.procs) && s.sends == s0.sends && Extends(s0.entries, s.entries)
  }

  /** A run `a` with ticks beside the run `b` without them: they agree, or a tick expired the hold
      during the release and they agree but for the hold, or before it and nothing was released. */
  ghost predicate TickRelated(s0: State, a: State, b: State) {
    || a == b
    || (a.hold == Unavailable && b.hold != Pending && a == b.(hold := a.hold))
    || (a.hold == Unavailable && Quiet(s0, a))
  }

  lemma QuietStays(s0: State, s: State, step: Step)
    requires s.hold == Unavailable && Quiet(s0, s)
    ensures Apply(s, step).hold == Unavailable && Quiet(s0, Apply(s, step))
  {
    HoldStep(s, step);
    ReportKeepsExtends(s0.entries, s.entries);
    hide Extends, WithReport;
    assert step.FileReport? || Apply(s, step).entries == s.entries;
  }

  lemma ReportKeepsExtends(before: seq<EntryState>, now: seq<EntryState>)
    requires Extends(before, now)
    ensures Extends(before, WithReport(now))
  {
    assert WithReport(now)[..|before|] == now[..|before|];
  }

  lemma AgreeingStep(a: State, b: State, step: Step)
    requires a.hold == Unavailable && b.hold != Pending && a == b.(hold := a.hold) && !step.Tick?
    ensures var a', b' := Apply(a, step), Apply(b, step);
            a'.hold == Unavailable && b'.hold != Pending && a' == b'.(hold := a'.hold)
  {
    HoldStep(a, step);
    HoldStep(b, step);
  }

  lemma TickKeepsRelation(s0: State, a: State, b: State, now: int)
    requires TickRelated(s0, a, b)
    requires a.hold == Pending ==> Quiet(s0, a)
    ensures TickRelated(s0, Apply(a, Tick(now)), b)
  {
  }

  lemma StepKeepsRelation(s0: State, a: State, b: State, step: Step)
    requires TickRelated(s0, a, b) && !step.Tick?
    ensures TickRelated(s0, Apply(a, step), Apply(b, step))
  {
    hide Apply, Quiet;
    if a == b {
    } else if b.hold != Pending && a == b.(hold := a.hold) {
      AgreeingStep(a, b, step);
    } else {
      QuietStays(s0, a, step);
    }
  }

  lemma {:induction false} TickRelatedRun(s0: State, steps: seq<Step>)
    requires Initial(s0)
    ensures TickRelated(s0, Exec(s0, steps), Exec(s0, WithoutTicks(steps)))
    decreases |steps|
  {
    hide Apply, TickRelated;
    if steps == [] {
      SameIsRelated(s0, s0);
    } else {
      var before, step := steps[..|steps| - 1], steps[|steps| - 1];
      assert steps == before + [step];
      ExecSnoc(s0, before, step);
      TickRelatedRun(s0, before);
      if step.Tick? {
        PendingIsQuiet(s0, before);
        TickKeepsRelation(s0, Exec(s0, before), Exec(s0, WithoutTicks(before)), step.now);
        assert WithoutTicks(before) + [] == WithoutTicks(before);
      } else {
        ExecSnoc(s0, WithoutTicks(before), step);
        StepKeepsRelation(s0, Exec(s0, before), Exec(s0, WithoutTicks(before)), step);
      }
    }
  }

  lemma SameIsRelated(s0: State, a: State)
    ensures TickRelated(s0, a, a)
  {
  }

  lemma PendingIsQuiet(s0: State, steps: seq<Step>)
    requires Initial(s0)
    ensures var s := Exec(s0, steps);
            s.hold == Pending ==> Quiet(s0, s)
  {
    InitialReleaseInv(s0);
    ReleaseInvRun(s0, s0.entries, HeldList(s0.entries), steps);
  }

  /** Timeouts never deliver: compared with the same run without its ticks, a run with ticks has
      made the same deliveries and marks, or none at all. */
  lemma TicksNeverDeliver(s0: State, steps: seq<Step>)
    requires Initial(s0)
    ensures var s, t := Exec(s0, steps), Exec(s0, WithoutTicks(steps));
            || (s.sends == t.sends && s.entries == t.entries)
            || (s.sends == [] && Extends(s0.entries, s.entries))
    ensures var s, t := Exec(s0, steps), Exec(s0, WithoutTicks(steps));
            s.hold != t.hold ==> s.hold == Unavailable
  {
    TickRelatedRun(s0, steps);
  }
}
