/** The callback, reconcile, release and timeout code as it runs against the tables of one
    mail log when nothing interferes.  Every method also returns the protocol steps it took,
    so that each of its runs is a run of the state machine and inherits its safety. */
module DeepAnalysisStore {
  import opened Wrappers
  import opened DeepAnalysis
  import opened DeepAnalysisSafety

  /** What a worker reports, and what the callback answers. */
  datatype Report = ReportRunning | ReportDone(verdict: Verdict) | ReportFailed | ReportOther

  datatype Reply = NoContent | BadRequest | ServerError

  /** The statement of a reconcile that fails: the read of the hold, the counts, the guarded update,
      or the list of the held entries. */
  datatype Outage = NoOutage | AtRead | AtCounts | AtUpdate | AtList

  class MailLogHold {
    var jobs: seq<Job>
    var hold: HoldState
    var deadline: Option<int>
    var entries: seq<EntryState>
    var sends: seq<nat>
    ghost var procs: seq<Proc>

    ghost function Rows(): State
      reads this
    {
      State(jobs, hold, deadline, entries, sends, procs)
    }

    /** The rows after the loop failed at entry `i`: either the delivery failed, nothing more
        was sent and the hold went to manual review, or only the mark failed. */
    predicate LoopFailed(hold0: HoldState, sends0: seq<nat>, list: seq<nat>, i: nat,
                         sendOk: bool, markOk: bool, recordOk: bool)
      requires i < |list|
      reads this`hold, this`sends
    {
      if sendOk then
        !markOk && sends == sends0 + list[..i + 1] && hold == hold0
      else
        sends == sends0 + list[..i]
        && hold == if recordOk then CompareAndSet(hold0, Releasing, Unavailable) else hold0
    }

    method StartRelease(ghost p: nat, list: seq<nat>) returns (ghost trace: seq<Step>)
      requires p < |procs| && procs[p] == Claimed && list == HeldList(entries)
      modifies this`procs
      ensures Rows() == Exec(old(Rows()), trace)
      ensures procs == old(procs)[p := Sending(list, 0)]
    {
      ExecSnoc(Rows(), [], ListHeld(p));
      trace := [] + [ListHeld(p)];
      procs := procs[p := Sending(list, 0)];
    }

    /** One delivery of the release loop; an entry without a stored message cannot be delivered, and on
        failure the hold is sent to manual review. */
    method DeliverNext(ghost p: nat, list: seq<nat>, i: nat, sendOk: bool, recordOk: bool)
      returns (ok: bool, ghost steps: seq<Step>)
      requires p < |procs| && procs[p] == Sending(list, i) && i < |list|
      modifies this`hold, this`sends, this`procs
      ensures ok == (sendOk && !IsBare(entries, list[i]))
      ensures steps == if ok then [Deliver(p, true)] else [Deliver(p, sendOk), RecordFailure(p, recordOk)]
      ensures Rows() == Exec(old(Rows()), steps)
      ensures procs == old(procs)[p := if ok then Sent(list, i) else Aborted]
      ensures sends == if ok then old(sends) + [list[i]] else old(sends)
      ensures hold == if !ok && recordOk then CompareAndSet(old(hold), Releasing, Unavailable) else old(hold)
    {
      ghost var s0 := Rows();
      ok := sendOk && !IsBare(entries, list[i]);
      ExecSnoc(s0, [], Deliver(p, sendOk));
      assert [] + [Deliver(p, sendOk)] == [Deliver(p, sendOk)];
      steps := [Deliver(p, sendOk)];
      if ok {
        sends := sends + [list[i]];
        procs := procs[p := Sent(list, i)];
      } else {
        ExecSnoc(s0, steps, RecordFailure(p, recordOk));
        steps := steps + [RecordFailure(p, recordOk)];
        if recordOk && hold == Releasing {
          hold := Unavailable;
        }
        procs := procs[p := Aborted];
      }
    }

    /** The guarded update that marks the delivered entry. */
    method MarkNext(ghost p: nat, list: seq<nat>, i: nat, ok: bool)
      requires p < |procs| && procs[p] == Sent(list, i) && i < |list|
      modifies this`entries, this`procs
      ensures Rows() == Apply(old(Rows()), MarkReleased(p, ok))
      ensures procs == old(procs)[p := if ok then Sending(list, i + 1) else Aborted]
      ensures entries == if ok then MarkEntry(old(entries), list[i]) else old(entries)
    {
      if ok {
        if list[i] < |entries| && entries[list[i]] == EntryHeld {
          entries := entries[list[i] := EntryReleased];
        }
        procs := procs[p := Sending(list, i + 1)];
      } else {
        procs := procs[p := Aborted];
      }
    }

    /** One turn of the release loop: deliver, then mark. */
    method ReleaseOne(ghost p: nat, list: seq<nat>, i: nat, sendOk: bool, markOk: bool, recordOk: bool)
      returns (ok: bool, ghost steps: seq<Step>)
      requires p < |procs| && procs[p] == Sending(list, i) && i < |list|
      modifies this`hold, this`sends, this`entries, this`procs
      ensures Rows() == Exec(old(Rows()), steps)
      ensures var delivered := sendOk && !IsBare(old(entries), list[i]);
              && (ok <==> delivered && markOk)
              && sends == (if delivered then old(sends) + [list[i]] else old(sends))
              && hold == if !delivered && recordOk then CompareAndSet(old(hold), Releasing, Unavailable) else old(hold)
      ensures |procs| == old(|procs|) && (ok ==> procs[p] == Sending(list, i + 1))
      ensures entries == if ok then MarkEntry(old(entries), list[i]) else old(entries)
    {
      var delivered;
      delivered, steps := DeliverNext(p, list, i, sendOk, recordOk);
      if delivered {
        ExecSnoc(old(Rows()), steps, MarkReleased(p, markOk));
        steps := steps + [MarkReleased(p, markOk)];
        MarkNext(p, list, i, markOk);
      }
      ok := delivered && markOk;
    }

    /** The last, guarded update of the release loop. */
    method FinishHold(ghost p: nat, ghost list: seq<nat>, ok: bool)
      requires p < |procs| && procs[p] == Sending(list, |list|)
      modifies this`hold, this`procs
      ensures Rows() == Apply(old(Rows()), FinishRelease(p, ok))
      ensures |procs| == old(|procs|)
      ensures hold == if ok then CompareAndSet(old(hold), Releasing, Released) else old(hold)
    {
      if ok && hold == Releasing {
        hold := Released;
      }
      procs := procs[p := if ok then Finished else Aborted];
    }

    /** Delivers the held copies one by one.  `released` copies were delivered and marked; the
        outcome at the first failure, or at the end, is stated case by case. */
    method ReleaseDeepAnalysisHold(ghost p: nat, sendOk: nat -> bool, markOk: nat -> bool,
                                   recordOk: bool, finishOk: bool)
      returns (list: seq<nat>, released: nat, ok: bool, ghost trace: seq<Step>)
      requires p < |procs| && procs[p] == Claimed
      modifies this
      ensures Rows() == Exec(old(Rows()), trace)
      ensures |procs| == old(|procs|) && jobs == old(jobs) && deadline == old(deadline)
      ensures list == HeldList(old(entries)) && released <= |list|
      ensures entries == Marked(old(entries), list, released)
      ensures forall i :: 0 <= i < released ==> sendOk(i) && markOk(i) && !IsBare(old(entries), list[i])
      ensures ok <==> released == |list| && finishOk
      ensures released == |list| ==>
                && sends == old(sends) + list
                && hold == if finishOk then CompareAndSet(old(hold), Releasing, Released) else old(hold)
      ensures released < |list| ==> LoopFailed(old(hold), old(sends), list, released,
                                               sendOk(released) && !IsBare(old(entries), list[released]),
                                               markOk(released), recordOk)
    {
      hide Exec, Apply, HeldList, Marked, MarkEntry, CompareAndSet, IsBare;
      MarkedStart(entries, HeldList(entries));
      list := HeldList(entries);
      ghost var s0 := Rows();
      trace := StartRelease(p, list);
      released, ok := 0, true;
      while ok && released < |list|
        invariant released <= |list| && |procs| == old(|procs|)
        invariant jobs == old(jobs) && deadline == old(deadline)
        invariant entries == Marked(old(entries), list, released)
        invariant forall i :: 0 <= i < released ==> sendOk(i) && markOk(i) && !IsBare(old(entries), list[i])
        invariant Rows() == Exec(s0, trace)
        invariant ok ==> procs[p] == Sending(list, released) && hold == old(hold) && sends == old(sends) + list[..released]
        invariant !ok ==> released < |list| && LoopFailed(old(hold), old(sends), list, released,
                                                          sendOk(released) && !IsBare(old(entries), list[released]),
                                                          markOk(released), recordOk)
        decreases |list| - released, ok
      {
        ghost var steps;
        MarkedStep(old(entries), list, released);
        BareStays(old(entries), list, released, list[released]);
        ok, steps := ReleaseOne(p, list, released, sendOk(released), markOk(released), recordOk);
        ExecConcat(s0, trace, steps);
        trace := trace + steps;
        assert old(sends) + list[..released] + [list[released]] == old(sends) + list[..released + 1];
        if ok {
          released := released + 1;
        }
      }
      if ok {
        assert list[..|list|] == list;
        ExecSnoc(s0, trace, FinishRelease(p, finishOk));
        trace := trace + [FinishRelease(p, finishOk)];
        FinishHold(p, list, finishOk);
        ok := finishOk;
      }
    }

    /** The reconciler's verdict is a release. */
    predicate Ready(hold0: HoldState)
      reads this`jobs
    {
      hold0 == Pending && AllTerminal(jobs) && HasAi(jobs) && !HasThreat(jobs) && !HasUnavailable(jobs)
    }

    /** What a reconcile that is not cut off makes of the hold, short of releasing. */
    function Resolved(hold0: HoldState): HoldState
      reads this`jobs
    {
      if hold0 != Pending then hold0
      else if HasThreat(jobs) then ThreatFound
      else if !AllTerminal(jobs) then Pending
      else if !HasAi(jobs) || HasUnavailable(jobs) then Unavailable
      else Releasing
    }

    /** The callback was cut off by a failing statement. */
    ghost method CutOff(p: nat, s0: State, before: seq<Step>) returns (trace: seq<Step>)
      requires p < |procs| && Rows() == Exec(s0, before)
      requires procs[p].Posted? || procs[p].SawPending? || procs[p].Counted? || procs[p].Claimed?
      modifies this`procs
      ensures trace == before + [DbError(p)] && Rows() == Exec(s0, trace)
      ensures procs == old(procs)[p := Aborted]
    {
      ExecSnoc(s0, before, DbError(p));
      trace := before + [DbError(p)];
      procs := procs[p := Aborted];
    }

    /** The snapshot and the guarded update of a reconcile that found the hold pending. */
    method DecideHold(ghost p: nat, outage: Outage, ghost s0: State, ghost before: seq<Step>)
      returns (claimed: bool, ok: bool, ghost trace: seq<Step>)
      requires p < |procs| && procs[p] == SawPending && hold == Pending && Rows() == Exec(s0, before)
      modifies this`hold, this`procs
      ensures Rows() == Exec(s0, trace) && |procs| == old(|procs|)
      ensures claimed ==> procs[p] == Claimed
      ensures claimed <==> Ready(Pending) && outage !in {AtCounts, AtUpdate}
      ensures ok <==> outage != AtCounts && (outage == AtUpdate ==> Resolved(Pending) == Pending)
      ensures hold == if ok then Resolved(Pending) else Pending
    {
      if outage == AtCounts {
        trace := CutOff(p, s0, before);
        return false, false, trace;
      }
      var counts := CountsOf(jobs);
      CountsMean(jobs);
      procs := procs[p := Counted(counts)];
      ExecSnoc(s0, before, TakeCounts(p));
      trace := before + [TakeCounts(p)];
      if outage == AtUpdate && (counts.hasThreat || counts.incomplete == 0) {
        trace := CutOff(p, s0, trace);
        return false, false, trace;
      }
      ExecSnoc(s0, trace, Decide(p));
      trace := trace + [Decide(p)];
      if counts.hasThreat {
        hold := CompareAndSet(hold, Pending, ThreatFound);
        procs := procs[p := Finished];
        return false, true, trace;
      }
      if counts.incomplete > 0 {
        procs := procs[p := Finished];
        return false, true, trace;
      }
      if counts.total == 0 || counts.aiJobs == 0 || counts.hasUnavailable {
        hold := CompareAndSet(hold, Pending, Unavailable);
        procs := procs[p := Finished];
        return false, true, trace;
      }
      hold := Releasing;
      procs := procs[p := Claimed];
      claimed, ok := true, true;
    }

    /** One reconcile of callback `p` without interference; `outage` is the statement that fails, if one
        does.  It resolves the hold by the current jobs, delivers only when they are complete and
        clean, and leaves a claimed hold releasing when the held entries cannot be listed. */
    method ReconcileDeepAnalysis(ghost p: nat, outage: Outage, sendOk: nat -> bool, markOk: nat -> bool,
                                 recordOk: bool, finishOk: bool)
      returns (released: nat, ok: bool, ghost trace: seq<Step>)
      requires p < |procs| && procs[p] == Posted
      modifies this
      ensures Rows() == Exec(old(Rows()), trace)
      ensures |procs| == old(|procs|) && jobs == old(jobs) && deadline == old(deadline)
      ensures outage in {AtRead, AtCounts} ==> hold == old(hold)
      ensures outage == AtUpdate ==> hold == old(hold)
      ensures outage in {NoOutage, AtList} && !Ready(old(hold)) ==> hold == Resolved(old(hold)) && ok
      ensures outage == AtList && Ready(old(hold)) ==> hold == Releasing && !ok
      ensures !(Ready(old(hold)) && outage == NoOutage) ==> entries == old(entries) && sends == old(sends) && released == 0
      ensures Ready(old(hold)) && outage == NoOutage ==>
                var held := HeldList(old(entries));
                && released <= |held|
                && entries == Marked(old(entries), held, released)
                && (ok <==> released == |held| && finishOk)
                && (hold == Released <==> ok)
                && (hold == Released ==> sends == old(sends) + held)
    {
      released, ok := 0, true;
      ghost var s0 := Rows();
      trace := [];
      if outage == AtRead {
        trace := CutOff(p, s0, trace);
        ok := false;
        return;
      }
      procs := procs[p := if hold == Pending then SawPending else Finished];
      ExecSnoc(s0, [], ReadHold(p));
      trace := [] + [ReadHold(p)];
      if hold != Pending {
        return;
      }
      var claimed;
      claimed, ok, trace := DecideHold(p, outage, s0, trace);
      if !claimed {
        return;
      }
      if outage == AtList {
        trace := CutOff(p, s0, trace);
        ok := false;
        return;
      }
      ghost var tail;
      var list;
      list, released, ok, tail := ReleaseDeepAnalysisHold(p, sendOk, markOk, recordOk, finishOk);
      ExecConcat(s0, trace, tail);
      trace := trace + tail;
    }

    /** Marks an expired hold for manual review; it never delivers. */
    method ResolveExpiredDeepAnalysis(now: int) returns (affected: nat)
      modifies this`hold
      ensures Rows() == Exec(old(Rows()), [Tick(now)])
      ensures affected == (if hold == old(hold) then 0 else 1)
      ensures hold == (if old(hold) in {Pending, Releasing} && deadline.Some? && deadline.value <= now
                       then Unavailable else old(hold))
    {
      affected := 0;
      ExecSnoc(Rows(), [], Tick(now));
      assert [] + [Tick(now)] == [Tick(now)];
      if (hold == Pending || hold == Releasing) && deadline.Some? && deadline.value <= now {
        hold := Unavailable;
        affected := 1;
      }
    }

    /** The row of a job after a report. */
    function Reported(job: Job, report: Report): Job {
      match report
      case ReportRunning => job.(state := Running)
      case ReportDone(verdict) => job.(state := Done, verdict := verdict)
      case ReportFailed => job.(state := Failed)
      case ReportOther => job
    }

    /** The report is a finished scan that files a phishing report. */
    predicate Files(report: Report) {
      report.ReportDone? && Reportable(report.verdict)
    }

    /** The entries once the report was filed. */
    function Filed(report: Report, entries0: seq<EntryState>): seq<EntryState> {
      if Files(report) then WithReport(entries0) else entries0
    }

    /** Files the phishing report of a finished scan, if its verdict asks for one. */
    method FileScanReport(ghost p: nat, report: Report, filedOk: bool, ghost s0: State, ghost before: seq<Step>)
      returns (ok: bool, ghost trace: seq<Step>)
      requires p < |procs| && procs[p] == (if Files(report) then Reporting else Posted) && Rows() == Exec(s0, before)
      modifies this`entries, this`procs
      ensures Rows() == Exec(s0, trace) && |procs| == old(|procs|) && before <= trace
      ensures ok <==> !Files(report) || filedOk
      ensures ok ==> procs[p] == Posted
      ensures entries == if ok then Filed(report, old(entries)) else old(entries)
    {
      trace := before;
      ok := true;
      if Files(report) {
        ExecSnoc(s0, before, FileReport(p, filedOk));
        trace := before + [FileReport(p, filedOk)];
        procs := procs[p := if filedOk then Posted else Aborted];
        if filedOk {
          entries := WithReport(entries);
        }
        ok := filedOk;
      }
    }

    /** The callback of one worker.  `updateOk` tells whether the job could be updated and `filedOk`
        whether a phishing report could be filed. */
    method WorkerResult(job: nat, report: Report, updateOk: bool, filedOk: bool, outage: Outage,
                        sendOk: nat -> bool, markOk: nat -> bool, recordOk: bool, finishOk: bool)
      returns (reply: Reply, released: nat, ghost trace: seq<Step>)
      requires job < |jobs|
      modifies this
      ensures Rows() == Exec(old(Rows()), trace)
      ensures reply == BadRequest <==> report == ReportOther
      ensures jobs == if updateOk then old(jobs)[job := Reported(old(jobs)[job], report)] else old(jobs)
      ensures !updateOk && report != ReportOther ==> reply == ServerError
      ensures !updateOk || report in {ReportRunning, ReportOther} || (Files(report) && !filedOk) ==>
                hold == old(hold) && sends == old(sends) && entries == old(entries) && released == 0
      ensures updateOk && (report.ReportFailed? || (report.ReportDone? && (Files(report) ==> filedOk))) ==>
                var start := Filed(report, old(entries));
                && (outage in {AtRead, AtCounts, AtUpdate} ==> hold == old(hold))
                && (outage in {NoOutage, AtList} && !Ready(old(hold)) ==> hold == Resolved(old(hold)) && reply == NoContent)
                && (outage == AtList && Ready(old(hold)) ==> hold == Releasing && reply == ServerError)
                && (!(Ready(old(hold)) && outage == NoOutage) ==> entries == start && sends == old(sends) && released == 0)
                && (Ready(old(hold)) && outage == NoOutage ==>
                      var held := HeldList(start);
                      && released <= |held|
                      && entries == Marked(start, held, released)
                      && (reply == NoContent <==> released == |held| && finishOk)
                      && (hold == Released <==> reply == NoContent)
                      && (hold == Released ==> sends == old(sends) + held))
    {
      ghost var s0 := Rows();
      trace := [];
      released := 0;
      if report == ReportOther {
        return BadRequest, 0, trace;
      }
      if !updateOk {
        return ServerError, 0, trace;
      }
      ghost var post := match report
        case ReportRunning => PostRunning(job)
        case ReportDone(verdict) => PostDone(job, verdict)
        case _ => PostFailed(job);
      ExecSnoc(s0, [], post);
      trace := [] + [post];
      jobs := jobs[job := Reported(jobs[job], report)];
      if report == ReportRunning {
        return NoContent, 0, trace;
      }
      procs := procs + [if Files(report) then Reporting else Posted];
      ghost var p := |procs| - 1;
      var ok;
      ok, trace := FileScanReport(p, report, filedOk, s0, trace);
      if !ok {
        return ServerError, 0, trace;
      }
      ghost var tail;
      released, ok, tail := ReconcileDeepAnalysis(p, outage, sendOk, markOk, recordOk, finishOk);
      ExecConcat(s0, trace, tail);
      trace := trace + tail;
      reply := if ok then NoContent else ServerError;
    }
  }
}
