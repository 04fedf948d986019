/** Whether a callback is left that resolves a pending hold, over every run: jobs may be inserted
    late, put back to running and reposted. */
module DeepAnalysisWakeUp {
  import opened Wrappers
  import opened DeepAnalysis
  import opened DeepAnalysisSafety

  // ---------- no lost wake-up ----------

  predicate ResolvingCounts(c: Counts) {
    c.hasThreat || c.incomplete == 0
  }

  /** A callback that will still look at the jobs or has already seen enough, or was cut off. */
  predicate CanResolve(proc: Proc) {
    proc.Reporting? || proc.Posted? || proc.SawPending? || proc.Aborted? || (proc.Counted? && ResolvingCounts(proc.counts))
  }

  predicate SomeCanResolve(procs: seq<Proc>) {
    exists p :: 0 <= p < |procs| && CanResolve(procs[p])
  }

  predicate WakeUpInv(s: State) {
    s.hold == Pending && s.jobs != [] && AllTerminal(s.jobs) ==> SomeCanResolve(s.procs)
  }

  /** A queue failure turns the last open job terminal, and no callback follows it. */
  predicate CompletesSilently(s: State, step: Step) {
    step.FailQueued? && !AllTerminal(s.jobs) && AllTerminal(Apply(s, step).jobs)
  }

  lemma WakeUpEnv(s: State, step: Step)
    requires WakeUpInv(s) && IsEnvStep(step) && !CompletesSilently(s, step)
    ensures WakeUpInv(EnvStep(s, step))
  {
    var s' := EnvStep(s, step);
    if s'.hold == Pending && s'.jobs != [] && AllTerminal(s'.jobs) {
      if |s'.procs| > |s.procs| {
        assert CanResolve(s'.procs[|s.procs|]);
      } else if !step.FailQueued? {
        UnpostedLeavesOpen(s, step);
      }
    }
  }

  lemma UnpostedLeavesOpen(s: State, step: Step)
    requires IsEnvStep(step) && !step.FailQueued? && EnvStep(s, step).procs == s.procs
    ensures EnvStep(s, step).jobs == s.jobs || !AllTerminal(EnvStep(s, step).jobs)
  {
    var s' := EnvStep(s, step);
    if step.InsertJob? {
      assert !Terminal(s'.jobs[|s.jobs|]);
    } else if step.PostRunning? && step.job < |s.jobs| {
      assert !Terminal(s'.jobs[step.job]);
    }
  }

  lemma WakeUpProc(s: State, step: Step, p: nat)
    requires WakeUpInv(s) && p < |s.procs| && !IsEnvStep(step)
    ensures WakeUpInv(ProcStep(s, step, p))
  {
    var s' := ProcStep(s, step, p);
    CountsMean(s.jobs);
    if s'.hold == Pending && s'.jobs != [] && AllTerminal(s'.jobs) && s' != s {
      HoldStep(s, step);
      var q :| 0 <= q < |s.procs| && CanResolve(s.procs[q]);
      assert q != p ==> s'.procs[q] == s.procs[q];
      assert CanResolve(s'.procs[q]);
    }
  }

  /** In this run the jobs never become complete by a queue failure. */
  predicate NeverSilent(s: State, steps: seq<Step>)
    decreases |steps|
  {
    steps == [] || (!CompletesSilently(s, steps[0]) && NeverSilent(Apply(s, steps[0]), steps[1..]))
  }

  lemma {:induction false} WakeUpRun(s: State, steps: seq<Step>)
    requires WakeUpInv(s) && NeverSilent(s, steps)
    ensures WakeUpInv(Exec(s, steps))
    decreases |steps|
  {
    hide WakeUpInv, EnvStep, ProcStep, CompletesSilently;
    if steps != [] {
      if IsEnvStep(steps[0]) {
        WakeUpEnv(s, steps[0]);
      } else if steps[0].proc < |s.procs| {
        WakeUpProc(s, steps[0], steps[0].proc);
      }
      WakeUpRun(Apply(s, steps[0]), steps[1..]);
    }
  }

  predicate AllFinished(procs: seq<Proc>) {
    forall p :: 0 <= p < |procs| ==> procs[p] == Finished
  }

  /** No lost wake-up, with late inserts, late running callbacks and reposts: when every job is
      terminal and every callback returned without an error, the hold is no longer pending, unless
      the last open job was failed by the queue, which calls nobody back. */
  lemma NoLostWakeUp(s0: State, steps: seq<Step>)
    requires Initial(s0) && NeverSilent(s0, steps)
    requires var s := Exec(s0, steps); s.jobs != [] && AllTerminal(s.jobs) && AllFinished(s.procs)
    ensures Exec(s0, steps).hold != Pending
  {
    if s0.jobs != [] {
      assert !Terminal(s0.jobs[0]);
    }
    WakeUpRun(s0, steps);
  }

  // ---------- exactly when a hold stays pending ----------

  /** A snapshot that reads a threat, or reads that every job is terminal. */
  predicate ReadsEnough(s: State, step: Step) {
    && step.TakeCounts? && step.proc < |s.procs| && s.procs[step.proc].SawPending?
    && (HasThreat(s.jobs) || AllTerminal(s.jobs))
  }

  predicate ReadEnoughBefore(s0: State, steps: seq<Step>) {
    exists i :: 0 <= i < |steps| && ReadsEnough(Exec(s0, steps[..i]), steps[i])
  }

  /** No tick finds the deadline passed. */
  predicate BeforeDeadline(deadline: Option<int>, steps: seq<Step>) {
    forall i :: 0 <= i < |steps| && steps[i].Tick? && deadline.Some? ==> steps[i].now < deadline.value
  }

  predicate Resolves(proc: Proc) {
    proc.Aborted? || (proc.Counted? && ResolvingCounts(proc.counts))
  }

  predicate SomeResolves(procs: seq<Proc>) {
    exists p :: 0 <= p < |procs| && Resolves(procs[p])
  }

  lemma ResolutionStays(s: State, step: Step)
    requires s.hold != Pending || SomeResolves(s.procs)
    ensures Apply(s, step).hold != Pending || SomeResolves(Apply(s, step).procs)
  {
    var s' := Apply(s, step);
    HoldStep(s, step);
    if s.hold == Pending && s'.hold == Pending {
      var p :| 0 <= p < |s.procs| && Resolves(s.procs[p]);
      assert Resolves(s'.procs[p]);
    }
  }

  lemma ReadingResolves(s: State, step: Step)
    requires ReadsEnough(s, step)
    ensures SomeResolves(Apply(s, step).procs)
  {
    CountsMean(s.jobs);
    assert Resolves(Apply(s, step).procs[step.proc]);
  }

  /** Nothing that could resolve the hold has been read. */
  predicate Unresolved(s: State) {
    && s.hold == Pending
    && forall p :: 0 <= p < |s.procs| ==> !InRelease(s.procs[p]) && !(s.procs[p].Counted? && ResolvingCounts(s.procs[p].counts))
  }

  lemma UnresolvedStays(s: State, step: Step)
    requires Unresolved(s) && !ReadsEnough(s, step)
    requires step.Tick? && s.deadline.Some? ==> step.now < s.deadline.value
    ensures Unresolved(Apply(s, step))
  {
    CountsMean(s.jobs);
  }

  lemma {:induction false} DeadlineStays(s: State, steps: seq<Step>)
    ensures Exec(s, steps).deadline == s.deadline
    decreases |steps|
  {
    if steps != [] {
      DeadlineStays(Apply(s, steps[0]), steps[1..]);
    }
  }

  lemma {:induction false} PendingFollowsReading(s0: State, steps: seq<Step>)
    requires Initial(s0)
    ensures ReadEnoughBefore(s0, steps) ==> Exec(s0, steps).hold != Pending || SomeResolves(Exec(s0, steps).procs)
    ensures !ReadEnoughBefore(s0, steps) && BeforeDeadline(s0.deadline, steps) ==> Unresolved(Exec(s0, steps))
    decreases |steps|
  {
    hide Apply, ReadsEnough, Unresolved, SomeResolves;
    if steps == [] {
      InitialUnresolved(s0);
    } else {
      var before, step := steps[..|steps| - 1], steps[|steps| - 1];
      ReadingGrows(s0, before, step);
      assert steps == before + [step];
      ExecSnoc(s0, before, step);
      PendingFollowsReading(s0, before);
      DeadlineStays(s0, before);
      var s := Exec(s0, before);
      if ReadEnoughBefore(s0, before) {
        ResolutionStays(s, step);
      } else if ReadsEnough(s, step) {
        ReadingResolves(s, step);
      } else if BeforeDeadline(s0.deadline, steps) {
        assert BeforeDeadline(s0.deadline, before);
        assert step.Tick? && s0.deadline.Some? ==> step.now < s0.deadline.value by {
          assert steps[|steps| - 1] == step;
        }
        UnresolvedStays(s, step);
      }
    }
  }

  lemma InitialUnresolved(s0: State)
    requires Initial(s0)
    ensures Unresolved(s0)
  {
  }

  lemma ReadingGrows(s0: State, before: seq<Step>, step: Step)
    ensures ReadEnoughBefore(s0, before + [step]) <==> ReadEnoughBefore(s0, before) || ReadsEnough(Exec(s0, before), step)
  {
    hide ReadsEnough;
    var steps := before + [step];
    assert forall i :: 0 <= i <= |before| ==> steps[..i] == before[..i];
    assert before[..|before|] == before && steps[|before|] == step;
    if ReadEnoughBefore(s0, before) {
      var i :| 0 <= i < |before| && ReadsEnough(Exec(s0, before[..i]), before[i]);
      assert ReadsEnough(Exec(s0, steps[..i]), steps[i]);
    }
    if ReadsEnough(Exec(s0, before), step) {
      assert ReadsEnough(Exec(s0, steps[..|before|]), steps[|before|]);
    }
  }

  /** Exactly when the wake-up is lost: once every callback has returned, and before the deadline, the
      hold is still pending if and only if no callback that found it pending read a threat or a
      complete set of jobs. */
  lemma StaysPendingExactly(s0: State, steps: seq<Step>)
    requires Initial(s0) && BeforeDeadline(s0.deadline, steps) && AllFinished(Exec(s0, steps).procs)
    ensures Exec(s0, steps).hold == Pending <==> !ReadEnoughBefore(s0, steps)
  {
    PendingFollowsReading(s0, steps);
  }

  // ---------- exactly when a hold stays releasing ----------

  /** The claimant is cut off without a word on the hold: its list, its mark, its last update or the
      record of a failed delivery fails. */
  predicate CutsOffRelease(s: State, step: Step) {
    !IsEnvStep(step) && step.proc < |s.procs| &&
    var proc := s.procs[step.proc];
    match step
    case DbError(_) => proc.Claimed?
    case MarkReleased(_, ok) => !ok && proc.Sent? && proc.next < |proc.list|
    case FinishRelease(_, ok) => !ok && proc.Sending? && proc.next == |proc.list|
    case RecordFailure(_, ok) => !ok && proc.SendFailed?
    case _ => false
  }

  predicate CutOffBefore(s0: State, steps: seq<Step>) {
    exists i :: 0 <= i < |steps| && CutsOffRelease(Exec(s0, steps[..i]), steps[i])
  }

  predicate SomeInRelease(procs: seq<Proc>) {
    exists p :: 0 <= p < |procs| && InRelease(procs[p])
  }

  /** Who is responsible for the hold: a claimant at work, or nobody any more. */
  predicate ReleasingInv(s: State, cutOff: bool) {
    && OneInRelease(s.procs)
    && (SomeInRelease(s.procs) ==> s.hold == Releasing && !cutOff)
    && (s.hold == Releasing <==> SomeInRelease(s.procs) || cutOff)
  }

  /** A step of the claimant: it goes on, ends the hold, or is cut off. */
  lemma ClaimantStep(s: State, step: Step, p: nat)
    requires ReleasingInv(s, false) && !IsEnvStep(step) && step.proc == p < |s.procs| && InRelease(s.procs[p])
    ensures ReleasingInv(ProcStep(s, step, p), CutsOffRelease(s, step))
  {
    var s' := ProcStep(s, step, p);
    assert SomeInRelease(s.procs);
    assert forall q :: 0 <= q < |s'.procs| && q != p ==> s'.procs[q] == s.procs[q] && !InRelease(s'.procs[q]);
    assert SomeInRelease(s'.procs) <==> InRelease(s'.procs[p]);
  }

  /** A step of another callback, which may be the claim. */
  lemma OtherStep(s: State, step: Step, p: nat, cutOff: bool)
    requires ReleasingInv(s, cutOff) && !IsEnvStep(step) && step.proc == p < |s.procs| && !InRelease(s.procs[p])
    ensures ReleasingInv(ProcStep(s, step, p), cutOff) && !CutsOffRelease(s, step)
  {
    var s' := ProcStep(s, step, p);
    assert forall q :: 0 <= q < |s'.procs| && q != p ==> s'.procs[q] == s.procs[q];
    if InRelease(s'.procs[p]) {
      assert s.hold == Pending && s'.hold == Releasing;
      assert forall q :: 0 <= q < |s.procs| ==> !InRelease(s.procs[q]);
      assert SomeInRelease(s'.procs);
    } else {
      SameInRelease(s, s', p);
    }
  }

  lemma ReleasingStep(s: State, step: Step, cutOff: bool)
    requires ReleasingInv(s, cutOff)
    requires step.Tick? && s.deadline.Some? ==> step.now < s.deadline.value
    ensures ReleasingInv(Apply(s, step), cutOff || CutsOffRelease(s, step))
  {
    if IsEnvStep(step) || step.proc >= |s.procs| {
      EnvSameInRelease(s, step);
    } else if InRelease(s.procs[step.proc]) {
      assert SomeInRelease(s.procs);
      ClaimantStep(s, step, step.proc);
    } else {
      OtherStep(s, step, step.proc, cutOff);
    }
  }

  lemma SameInRelease(s: State, s': State, p: nat)
    requires p < |s.procs| == |s'.procs| && !InRelease(s.procs[p]) && !InRelease(s'.procs[p])
    requires forall q :: 0 <= q < |s.procs| && q != p ==> s'.procs[q] == s.procs[q]
    ensures SomeInRelease(s'.procs) == SomeInRelease(s.procs)
  {
    if SomeInRelease(s.procs) {
      var q :| 0 <= q < |s.procs| && InRelease(s.procs[q]);
      assert InRelease(s'.procs[q]);
    }
    if SomeInRelease(s'.procs) {
      var q :| 0 <= q < |s'.procs| && InRelease(s'.procs[q]);
      assert InRelease(s.procs[q]);
    }
  }

  lemma EnvSameInRelease(s: State, step: Step)
    requires IsEnvStep(step) || step.proc >= |s.procs|
    ensures SomeInRelease(Apply(s, step).procs) == SomeInRelease(s.procs)
    ensures OneInRelease(s.procs) ==> OneInRelease(Apply(s, step).procs)
  {
    var s' := Apply(s, step);
    assert forall q :: 0 <= q < |s.procs| ==> s'.procs[q] == s.procs[q];
    if SomeInRelease(s.procs) {
      var q :| 0 <= q < |s.procs| && InRelease(s.procs[q]);
      assert InRelease(s'.procs[q]);
    }
    if SomeInRelease(s'.procs) {
      var q :| 0 <= q < |s'.procs| && InRelease(s'.procs[q]);
      assert InRelease(s.procs[q]);
    }
  }

  lemma CutOffGrows(s0: State, before: seq<Step>, step: Step)
    ensures CutOffBefore(s0, before + [step]) <==> CutOffBefore(s0, before) || CutsOffRelease(Exec(s0, before), step)
  {
    hide CutsOffRelease;
    var steps := before + [step];
    assert forall i :: 0 <= i <= |before| ==> steps[..i] == before[..i];
    assert before[..|before|] == before && steps[|before|] == step;
    if CutOffBefore(s0, before) {
      var i :| 0 <= i < |before| && CutsOffRelease(Exec(s0, before[..i]), before[i]);
      assert CutsOffRelease(Exec(s0, steps[..i]), steps[i]);
    }
    if CutsOffRelease(Exec(s0, before), step) {
      assert CutsOffRelease(Exec(s0, steps[..|before|]), steps[|before|]);
    }
  }

  lemma {:induction false} ReleasingRun(s0: State, steps: seq<Step>)
    requires Initial(s0) && BeforeDeadline(s0.deadline, steps)
    ensures ReleasingInv(Exec(s0, steps), CutOffBefore(s0, steps))
    decreases |steps|
  {
    hide Apply, CutsOffRelease, ReleasingInv;
    if steps == [] {
      InitialNotReleasing(s0);
    } else {
      var before, step := steps[..|steps| - 1], steps[|steps| - 1];
      assert BeforeDeadline(s0.deadline, before);
      assert step.Tick? && s0.deadline.Some? ==> step.now < s0.deadline.value by {
        assert steps[|steps| - 1] == step;
      }
      CutOffGrows(s0, before, step);
      assert steps == before + [step];
      ExecSnoc(s0, before, step);
      ReleasingRun(s0, before);
      DeadlineStays(s0, before);
      ReleasingStep(Exec(s0, before), step, CutOffBefore(s0, before));
    }
  }

  lemma InitialNotReleasing(s0: State)
    requires Initial(s0)
    ensures ReleasingInv(s0, false)
  {
  }

  predicate AllReturned(procs: seq<Proc>) {
    forall p :: 0 <= p < |procs| ==> procs[p] == Finished || procs[p] == Aborted
  }

  /** Exactly when a claimed hold is stuck: once every callback has returned, with or without an error,
      and before the deadline, the hold is releasing if and only if the claimant was cut off. */
  lemma StaysReleasingExactly(s0: State, steps: seq<Step>)
    requires Initial(s0) && BeforeDeadline(s0.deadline, steps) && AllReturned(Exec(s0, steps).procs)
    ensures Exec(s0, steps).hold == Releasing <==> CutOffBefore(s0, steps)
  {
    ReleasingRun(s0, steps);
  }
}
