/** The deep-analysis hold of one mail log as a state machine.

    One state holds every row the protocol touches: the scan jobs of the mail log, the
    hold column of the mail log with its deadline, and the quarantine entries.  `sends` is
    the history of release deliveries and `procs` the callbacks that are still running.
    One step is one SQL statement or one delivery, so a `seq<Step>` is one interleaving of
    callbacks, reconcilers, release loops and timeout ticks.  A step that is not enabled
    changes nothing, which makes every `seq<Step>` a run. */
module DeepAnalysis {
  import opened Counting
  import opened Wrappers

  datatype JobKind = Ai | Qr | Sandbox | Outbound

  datatype JobState = Queued | Running | Done | Failed

  /** The verdict column after lower-casing; `NoVerdict` is SQL NULL or the empty text. */
  datatype Verdict =
    | NoVerdict
    | Suspicious | Malicious | Phishing | Malware
    | VerdictUnavailable | VerdictInconclusive | VerdictFailed
    | OtherVerdict

  datatype Job = Job(kind: JobKind, state: JobState, verdict: Verdict)

  datatype HoldState = NotRequired | Pending | Releasing | Released | ThreatFound | Unavailable

  /** `EntryBare` is a held entry that a threat report added; it has no stored message to deliver. */
  datatype EntryState = EntryHeld | EntryBare | EntryReleased | EntryDeleted | EntryExpired

  /** The aggregate row a reconciler reads in one statement. */
  datatype Counts = Counts(total: nat, incomplete: nat, aiJobs: nat, hasThreat: bool, hasUnavailable: bool)

  /** Where one callback stands after it wrote its job row. */
  datatype Proc =
    | Reporting
    | Posted
    | SawPending
    | Counted(counts: Counts)
    | Claimed
    | Sending(list: seq<nat>, next: nat)
    | Sent(list: seq<nat>, next: nat)
    | SendFailed(list: seq<nat>, next: nat)
    | Finished
    | Aborted

  datatype State = State(jobs: seq<Job>, hold: HoldState, deadline: Option<int>,
                         entries: seq<EntryState>, sends: seq<nat>, procs: seq<Proc>)

  datatype Step =
    | InsertJob(kind: JobKind)
    | PostRunning(job: nat)
    | PostDone(job: nat, verdict: Verdict)
    | PostFailed(job: nat)
    | FailQueued(job: nat)
    | FileReport(proc: nat, ok: bool)
    | ReadHold(proc: nat)
    | TakeCounts(proc: nat)
    | Decide(proc: nat)
    | ListHeld(proc: nat)
    | Deliver(proc: nat, ok: bool)
    | RecordFailure(proc: nat, ok: bool)
    | MarkReleased(proc: nat, ok: bool)
    | FinishRelease(proc: nat, ok: bool)
    | DbError(proc: nat)
    | Tick(now: int)

  // ---------- job predicates and the aggregate query ----------

  predicate Terminal(job: Job) {
    job.state == Done || job.state == Failed
  }

  predicate ThreatJob(job: Job) {
    job.verdict in {Suspicious, Malicious, Phishing, Malware}
  }

  /** A finished scan with such a verdict files a phishing report. */
  predicate Reportable(verdict: Verdict) {
    verdict in {Malicious, Phishing, Malware}
  }

  predicate UnavailableJob(job: Job) {
    job.state == Failed || job.verdict in {VerdictUnavailable, VerdictInconclusive, VerdictFailed}
  }

  predicate AllTerminal(jobs: seq<Job>) {
    forall j :: 0 <= j < |jobs| ==> Terminal(jobs[j])
  }

  predicate HasThreat(jobs: seq<Job>) {
    exists j :: 0 <= j < |jobs| && ThreatJob(jobs[j])
  }

  predicate HasUnavailable(jobs: seq<Job>) {
    exists j :: 0 <= j < |jobs| && UnavailableJob(jobs[j])
  }

  predicate HasAi(jobs: seq<Job>) {
    exists j :: 0 <= j < |jobs| && jobs[j].kind == Ai
  }

  function CountsOf(jobs: seq<Job>): Counts {
    Counts(|jobs|,
           Count(jobs, (job: Job) => !Terminal(job)),
           Count(jobs, (job: Job) => job.kind == Ai),
           HasThreat(jobs), HasUnavailable(jobs))
  }

  /** What the counters of the aggregate say about the jobs they were computed from. */
  lemma CountsMean(jobs: seq<Job>)
    ensures CountsOf(jobs).incomplete == 0 <==> AllTerminal(jobs)
    ensures CountsOf(jobs).aiJobs == 0 <==> !HasAi(jobs)
  {
    CountZero(jobs, (job: Job) => !Terminal(job));
    CountZero(jobs, (job: Job) => job.kind == Ai);
  }

  predicate IsHeld(entry: EntryState) {
    entry == EntryHeld || entry == EntryBare
  }

  /** The entries the release loop will work on, in the order of the query. */
  function HeldFrom(entries: seq<EntryState>, from: nat): seq<nat>
    requires from <= |entries|
    decreases |entries| - from
  {
    if from == |entries| then []
    else if IsHeld(entries[from]) then [from] + HeldFrom(entries, from + 1)
    else HeldFrom(entries, from + 1)
  }

  function HeldList(entries: seq<EntryState>): seq<nat> {
    HeldFrom(entries, 0)
  }

  predicate Increasing(list: seq<nat>) {
    forall i, j :: 0 <= i < j < |list| ==> list[i] < list[j]
  }

  /** `list` names exactly the held entries from `from` on, in order and once each. */
  predicate ListsHeld(entries: seq<EntryState>, from: nat, list: seq<nat>) {
    && Increasing(list)
    && (forall i :: 0 <= i < |list| ==> from <= list[i] < |entries| && IsHeld(entries[list[i]]))
    && (forall e :: from <= e < |entries| && IsHeld(entries[e]) ==> e in list)
  }

  lemma {:induction false} HeldFromLists(entries: seq<EntryState>, from: nat)
    requires from <= |entries|
    ensures ListsHeld(entries, from, HeldFrom(entries, from))
    decreases |entries| - from
  {
    if from < |entries| {
      HeldFromLists(entries, from + 1);
      var rest := HeldFrom(entries, from + 1);
      if IsHeld(entries[from]) {
        assert forall e :: e in rest ==> e in [from] + rest;
      }
    }
  }

  // ---------- steps ----------

  function SetProc(s: State, p: nat, proc: Proc): State
    requires p < |s.procs|
  {
    s.(procs := s.procs[p := proc])
  }

  /** `UPDATE mail_logs SET deep_analysis_state = to WHERE deep_analysis_state = from`. */
  function CompareAndSet(hold: HoldState, from: HoldState, to: HoldState): HoldState {
    if hold == from then to else hold
  }

  /** A terminal callback stores its result; a reportable one files its report first. */
  function PostJob(s: State, j: nat, job: Job): State
    requires j < |s.jobs|
  {
    s.(jobs := s.jobs[j := job],
       procs := s.procs + [if job.state == Done && Reportable(job.verdict) then Reporting else Posted])
  }

  /** The report of a threat adds a held entry when the log has none. */
  function WithReport(entries: seq<EntryState>): seq<EntryState> {
    if exists e :: 0 <= e < |entries| && IsHeld(entries[e]) then entries else entries + [EntryBare]
  }

  predicate IsBare(entries: seq<EntryState>, e: nat) {
    e < |entries| && entries[e] == EntryBare
  }

  function DecideStep(s: State, p: nat): State
    requires p < |s.procs| && s.procs[p].Counted?
  {
    var c := s.procs[p].counts;
    if c.hasThreat then
      SetProc(s, p, Finished).(hold := CompareAndSet(s.hold, Pending, ThreatFound))
    else if c.incomplete > 0 then
      SetProc(s, p, Finished)
    else if c.total == 0 || c.aiJobs == 0 || c.hasUnavailable then
      SetProc(s, p, Finished).(hold := CompareAndSet(s.hold, Pending, Unavailable))
    else if s.hold == Pending then
      SetProc(s, p, Claimed).(hold := Releasing)
    else
      SetProc(s, p, Finished)
  }

  function MarkEntry(entries: seq<EntryState>, e: nat): seq<EntryState> {
    if e < |entries| && entries[e] == EntryHeld then entries[e := EntryReleased] else entries
  }

  /** A step of the callback `p` itself. */
  function ProcStep(s: State, step: Step, p: nat): State
    requires p < |s.procs|
  {
    var proc := s.procs[p];
    match step
    case FileReport(_, ok) =>
      if proc.Reporting? then
        if ok then SetProc(s, p, Posted).(entries := WithReport(s.entries)) else SetProc(s, p, Aborted)
      else s
    case ReadHold(_) =>
      if proc.Posted? then SetProc(s, p, if s.hold == Pending then SawPending else Finished) else s
    case TakeCounts(_) =>
      if proc.SawPending? then SetProc(s, p, Counted(CountsOf(s.jobs))) else s
    case Decide(_) =>
      if proc.Counted? then DecideStep(s, p) else s
    case ListHeld(_) =>
      if proc.Claimed? then SetProc(s, p, Sending(HeldList(s.entries), 0)) else s
    case Deliver(_, ok) =>
      if proc.Sending? && proc.next < |proc.list| then
        if ok && !IsBare(s.entries, proc.list[proc.next]) then
          SetProc(s, p, Sent(proc.list, proc.next)).(sends := s.sends + [proc.list[proc.next]])
        else SetProc(s, p, SendFailed(proc.list, proc.next))
      else s
    case RecordFailure(_, ok) =>
      if proc.SendFailed? then
        SetProc(s, p, Aborted).(hold := if ok then CompareAndSet(s.hold, Releasing, Unavailable) else s.hold)
      else s
    case MarkReleased(_, ok) =>
      if proc.Sent? && proc.next < |proc.list| then
        if ok then SetProc(s, p, Sending(proc.list, proc.next + 1)).(entries := MarkEntry(s.entries, proc.list[proc.next]))
        else SetProc(s, p, Aborted)
      else s
    case FinishRelease(_, ok) =>
      if proc.Sending? && proc.next == |proc.list| then
        if ok then SetProc(s, p, Finished).(hold := CompareAndSet(s.hold, Releasing, Released))
        else SetProc(s, p, Aborted)
      else s
    case DbError(_) =>
      if proc.Posted? || proc.SawPending? || proc.Counted? || proc.Claimed? then SetProc(s, p, Aborted) else s
    case _ => s
  }

  /** A step of a worker, of the ingest path or a session that inserts jobs and may fail to queue
      them, or of the timeout loop. */
  function EnvStep(s: State, step: Step): State {
    match step
    case InsertJob(kind) => s.(jobs := s.jobs + [Job(kind, Queued, NoVerdict)])
    case PostRunning(j) =>
      if j < |s.jobs| then s.(jobs := s.jobs[j := s.jobs[j].(state := Running)]) else s
    case PostDone(j, v) =>
      if j < |s.jobs| then PostJob(s, j, s.jobs[j].(state := Done, verdict := v)) else s
    case PostFailed(j) =>
      if j < |s.jobs| then PostJob(s, j, s.jobs[j].(state := Failed)) else s
    case FailQueued(j) =>
      if j < |s.jobs| then s.(jobs := s.jobs[j := s.jobs[j].(state := Failed)]) else s
    case Tick(now) =>
      if (s.hold == Pending || s.hold == Releasing) && s.deadline.Some? && s.deadline.value <= now
      then s.(hold := Unavailable) else s
    case _ => s
  }

  predicate IsEnvStep(step: Step) {
    step.InsertJob? || step.PostRunning? || step.PostDone? || step.PostFailed? || step.FailQueued? || step.Tick?
  }

  function Apply(s: State, step: Step): State {
    if IsEnvStep(step) then EnvStep(s, step)
    else if step.proc < |s.procs| then ProcStep(s, step, step.proc)
    else s
  }

  function Exec(s: State, steps: seq<Step>): State
    decreases |steps|
  {
    if steps == [] then s else Exec(Apply(s, steps[0]), steps[1..])
  }

  lemma {:induction false} ExecConcat(s: State, a: seq<Step>, b: seq<Step>)
    ensures Exec(s, a + b) == Exec(Exec(s, a), b)
    decreases |a|
  {
    if a == [] {
      assert a + b == b;
    } else {
      assert (a + b)[1..] == a[1..] + b;
      ExecConcat(Apply(s, a[0]), a[1..], b);
    }
  }

  lemma ExecSnoc(s: State, steps: seq<Step>, step: Step)
    ensures Exec(s, steps + [step]) == Apply(Exec(s, steps), step)
  {
    ExecConcat(s, steps, [step]);
    var t := Exec(s, steps);
    assert Exec(t, [step]) == Exec(Apply(t, step), [step][1..]);
  }

  /** A freshly logged hold: nothing ran, nothing was sent, no job has a result. */
  predicate Initial(s: State) {
    && s.hold == Pending
    && s.procs == []
    && s.sends == []
    && EntryBare !in s.entries
    && forall j :: 0 <= j < |s.jobs| ==> s.jobs[j].state == Queued && s.jobs[j].verdict == NoVerdict
  }

  /** The step that wins the compare-and-set to releasing. */
  predicate Claims(s: State, step: Step) {
    s.hold == Pending && Apply(s, step).hold == Releasing
  }
}
