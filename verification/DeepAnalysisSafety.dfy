/** Safety of the deep-analysis hold over every run: whatever the callbacks, database errors,
    delivery failures and timeout ticks do, and in whatever order. */
module DeepAnalysisSafety {
  import opened DeepAnalysis

  // ---------- the hold column only moves forward ----------

  function Rank(hold: HoldState): nat {
    match hold
    case Pending => 0
    case Releasing => 1
    case _ => 2
  }

  predicate Settled(hold: HoldState) {
    Rank(hold) == 2
  }

  lemma HoldStep(s: State, step: Step)
    ensures Rank(s.hold) <= Rank(Apply(s, step).hold)
    ensures Settled(s.hold) ==> Apply(s, step).hold == s.hold
    ensures Apply(s, step).hold == Releasing ==> s.hold == Releasing || Claims(s, step)
  {
    if !IsEnvStep(step) && step.proc < |s.procs| {
      var proc := s.procs[step.proc];
      match step {
        case Decide(_) =>
        case RecordFailure(_, ok) =>
        case FinishRelease(_, ok) =>
        case _ =>
      }
    }
  }

  lemma {:induction false} HoldRun(s: State, steps: seq<Step>)
    ensures Rank(s.hold) <= Rank(Exec(s, steps).hold)
    ensures Settled(s.hold) ==> Exec(s, steps).hold == s.hold
    decreases |steps|
  {
    if steps != [] {
      HoldStep(s, steps[0]);
      HoldRun(Apply(s, steps[0]), steps[1..]);
    }
  }

  /** A settled hold (threat, unavailable, released, or never required) keeps its value through every run.  In
      particular a hold that timed out while it was being released never becomes released. */
  lemma SettledIsAbsorbing(s: State, before: seq<Step>, after: seq<Step>)
    requires Settled(Exec(s, before).hold)
    ensures Exec(s, before + after).hold == Exec(s, before).hold
  {
    ExecConcat(s, before, after);
    HoldRun(Exec(s, before), after);
  }

  /** In one run at most one step ever wins the claim. */
  lemma AtMostOneClaim(s: State, steps: seq<Step>, i: nat, j: nat)
    requires i < j < |steps|
    requires Claims(Exec(s, steps[..i]), steps[i])
    ensures !Claims(Exec(s, steps[..j]), steps[j])
  {
    var claimed := steps[..i] + [steps[i]];
    ExecSnoc(s, steps[..i], steps[i]);
    assert steps[..j] == claimed + steps[i + 1..j];
    ExecConcat(s, claimed, steps[i + 1..j]);
    HoldRun(Exec(s, claimed), steps[i + 1..j]);
  }

  /** The claim is won by exactly one kind of step: a reconciler whose snapshot shows a
      complete, clean set of jobs with an AI job, while the hold is still pending. */
  predicate CleanCounts(c: Counts) {
    !c.hasThreat && c.incomplete == 0 && c.total > 0 && c.aiJobs > 0 && !c.hasUnavailable
  }

  lemma ClaimExactly(s: State, step: Step)
    ensures Claims(s, step) <==>
              && s.hold == Pending
              && step.Decide?
              && step.proc < |s.procs|
              && s.procs[step.proc].Counted?
              && CleanCounts(s.procs[step.proc].counts)
  {
    if !IsEnvStep(step) && step.proc < |s.procs| {
      var proc := s.procs[step.proc];
    }
  }

  // ---------- what was sent and marked ----------

  predicate InRelease(proc: Proc) {
    proc.Claimed? || proc.Sending? || proc.Sent? || proc.SendFailed?
  }

  /** The entries once the first `n` of `list` were marked released. */
  function Marked(entries: seq<EntryState>, list: seq<nat>, n: nat): (r: seq<EntryState>)
    requires n <= |list|
    ensures |r| == |entries|
    decreases n
  {
    if n == 0 then entries else MarkEntry(Marked(entries, list, n - 1), list[n - 1])
  }

  lemma MarkedStart(entries: seq<EntryState>, list: seq<nat>)
    ensures Marked(entries, list, 0) == entries
  {
  }

  lemma MarkedStep(entries: seq<EntryState>, list: seq<nat>, n: nat)
    requires n < |list|
    ensures Marked(entries, list, n + 1) == MarkEntry(Marked(entries, list, n), list[n])
  {
  }

  /** Marking neither makes nor removes bare entries. */
  lemma {:induction false} BareStays(entries: seq<EntryState>, list: seq<nat>, n: nat, e: nat)
    requires n <= |list|
    ensures IsBare(Marked(entries, list, n), e) == IsBare(entries, e)
    decreases n
  {
    if n > 0 {
      BareStays(entries, list, n - 1, e);
    }
  }

  lemma {:induction false} MarkedAt(entries: seq<EntryState>, held: seq<nat>, n: nat, e: nat)
    requires ListsHeld(entries, 0, held) && EntryBare !in entries
    requires n <= |held| && e < |entries|
    ensures Marked(entries, held, n)[e] == if e in held[..n] then EntryReleased else entries[e]
    decreases n
  {
    if n > 0 {
      MarkedAt(entries, held, n - 1, e);
      assert held[..n] == held[..n - 1] + [held[n - 1]];
      assert held[n - 1] !in held[..n - 1];
      MarkedAt(entries, held, n - 1, held[n - 1]);
    }
  }

  /** `after` is `before` with bare entries added. */
  predicate Extends(before: seq<EntryState>, after: seq<EntryState>) {
    && |before| <= |after| && after[..|before|] == before
    && forall e :: |before| <= e < |after| ==> after[e] == EntryBare
  }

  /** The list a release works on: the entries held at the start, or, when there were none, only
      entries that were added since. */
  predicate Listing(s: State, entries: seq<EntryState>, held: seq<nat>, list: seq<nat>) {
    list == held || (held == [] && forall i :: 0 <= i < |list| ==> |entries| <= list[i] && IsBare(s.entries, list[i]))
  }

  predicate Marks(s: State, entries: seq<EntryState>, held: seq<nat>, n: nat)
    requires n <= |held|
  {
    Extends(Marked(entries, held, n), s.entries)
  }

  /** How far the release loop of `proc` has come, given the original entries. */
  predicate ReleaseAt(s: State, entries: seq<EntryState>, held: seq<nat>, proc: Proc) {
    match proc
    case Claimed => s.sends == [] && Extends(entries, s.entries)
    case Sending(list, i) =>
      Listing(s, entries, held, list) && i <= |held| && s.sends == held[..i] && Marks(s, entries, held, i)
    case SendFailed(list, i) =>
      Listing(s, entries, held, list) && i <= |held| && s.sends == held[..i] && Marks(s, entries, held, i)
    case Sent(list, i) =>
      list == held && i < |held| && s.sends == held[..i + 1] && Marks(s, entries, held, i)
    case _ => true
  }

  /** Sends are a prefix of the held list and at most one send ahead of the marks. */
  predicate SendsLeadMarks(s: State, entries: seq<EntryState>, held: seq<nat>, sent: nat, marked: nat) {
    && marked <= sent <= |held|
    && sent - marked <= 1
    && s.sends == held[..sent]
    && Marks(s, entries, held, marked)
  }

  predicate NoneInRelease(procs: seq<Proc>) {
    forall p :: 0 <= p < |procs| ==> !InRelease(procs[p])
  }

  predicate OneInRelease(procs: seq<Proc>) {
    forall p, q :: 0 <= p < q < |procs| ==> !InRelease(procs[p]) || !InRelease(procs[q])
  }

  ghost predicate ReleaseInv(s: State, entries: seq<EntryState>, held: seq<nat>) {
    && (exists sent: nat, marked: nat :: SendsLeadMarks(s, entries, held, sent, marked))
    && (forall p :: 0 <= p < |s.procs| ==> ReleaseAt(s, entries, held, s.procs[p]))
    && OneInRelease(s.procs)
    && (held != [] && s.sends == [] ==> |s.entries| == |entries|)
    && (s.hold == Pending || s.hold == ThreatFound ==>
          s.sends == [] && Extends(entries, s.entries) && NoneInRelease(s.procs))
    && (s.hold == Released ==>
          SendsLeadMarks(s, entries, held, |held|, |held|) && NoneInRelease(s.procs))
  }

  lemma ReleaseInvEnv(s: State, entries: seq<EntryState>, held: seq<nat>, step: Step)
    requires ReleaseInv(s, entries, held) && IsEnvStep(step)
    ensures ReleaseInv(EnvStep(s, step), entries, held)
  {
    hide Marks, Extends, Listing;
    var s' := EnvStep(s, step);
    SameEntriesMark(s, s', entries, held);
    var sent: nat, marked: nat :| SendsLeadMarks(s, entries, held, sent, marked);
    assert SendsLeadMarks(s', entries, held, sent, marked);
    forall p | 0 <= p < |s'.procs| ensures ReleaseAt(s', entries, held, s'.procs[p]) {
      if p < |s.procs| {
        assert ReleaseAt(s, entries, held, s.procs[p]);
        assert s'.procs[p] == s.procs[p];
      }
    }
  }

  lemma SameEntriesMark(s: State, s': State, entries: seq<EntryState>, held: seq<nat>)
    requires s'.entries == s.entries
    ensures forall n: nat :: n <= |held| ==> Marks(s', entries, held, n) == Marks(s, entries, held, n)
    ensures forall list :: Listing(s', entries, held, list) == Listing(s, entries, held, list)
  {
  }

  /** A change of one callback and of the hold that leaves entries and sends alone. */
  lemma ReleaseInvQuiet(s: State, entries: seq<EntryState>, held: seq<nat>, p: nat, proc: Proc, hold: HoldState)
    requires ReleaseInv(s, entries, held) && p < |s.procs|
    requires ReleaseAt(s, entries, held, proc)
    requires InRelease(proc) ==> hold != Pending && hold != ThreatFound && hold != Released
    requires InRelease(proc) ==> InRelease(s.procs[p]) || NoneInRelease(s.procs)
    requires hold in {Pending, ThreatFound} ==> s.hold in {Pending, ThreatFound}
    requires hold == Released ==>
               s.hold == Released
               || (InRelease(s.procs[p]) && SendsLeadMarks(s, entries, held, |held|, |held|))
    ensures ReleaseInv(SetProc(s, p, proc).(hold := hold), entries, held)
  {
    hide Marks, Extends, Listing;
    var s' := SetProc(s, p, proc).(hold := hold);
    SameEntriesMark(s, s', entries, held);
    var sent: nat, marked: nat :| SendsLeadMarks(s, entries, held, sent, marked);
    assert SendsLeadMarks(s', entries, held, sent, marked);
    forall q | 0 <= q < |s'.procs| ensures ReleaseAt(s', entries, held, s'.procs[q]) {
      assert ReleaseAt(s, entries, held, s.procs[q]);
    }
  }

  lemma NoneHeldAtStart(after: seq<EntryState>, entries: seq<EntryState>)
    requires HeldList(entries) == [] && Extends(entries, after)
    ensures forall e :: 0 <= e < |entries| ==> !IsHeld(after[e])
  {
    HeldFromLists(entries, 0);
    forall e | 0 <= e < |entries| ensures !IsHeld(after[e]) {
      assert after[e] == after[..|entries|][e] == entries[e];
    }
  }

  /** What the claimant lists. */
  lemma ListsHeldEntries(s: State, entries: seq<EntryState>, held: seq<nat>)
    requires held == HeldList(entries) && Extends(entries, s.entries)
    requires held != [] ==> |s.entries| == |entries|
    ensures Listing(s, entries, held, HeldList(s.entries))
  {
    HeldFromLists(entries, 0);
    HeldFromLists(s.entries, 0);
    if |s.entries| == |entries| {
      assert s.entries == entries;
    } else {
      var list := HeldList(s.entries);
      NoneHeldAtStart(s.entries, entries);
      forall i | 0 <= i < |list| ensures |entries| <= list[i] && IsBare(s.entries, list[i]) {
        assert IsHeld(s.entries[list[i]]);
      }
    }
  }

  lemma ReleaseInvList(s: State, entries: seq<EntryState>, held: seq<nat>, p: nat)
    requires ReleaseInv(s, entries, held) && held == HeldList(entries)
    requires p < |s.procs| && s.procs[p].Claimed?
    ensures ReleaseInv(ProcStep(s, ListHeld(p), p), entries, held)
  {
    assert ReleaseAt(s, entries, held, s.procs[p]);
    ListsHeldEntries(s, entries, held);
    assert held[..0] == [];
    var proc := Sending(HeldList(s.entries), 0);
    assert ReleaseAt(s, entries, held, proc);
    assert ProcStep(s, ListHeld(p), p) == SetProc(s, p, proc).(hold := s.hold);
    ReleaseInvQuiet(s, entries, held, p, proc, s.hold);
  }

  lemma ReleaseInvProc(s: State, entries: seq<EntryState>, held: seq<nat>, step: Step, p: nat)
    requires ReleaseInv(s, entries, held)
    requires p < |s.procs| && !step.Deliver? && !step.MarkReleased? && !step.FileReport? && !step.ListHeld?
    ensures ReleaseInv(ProcStep(s, step, p), entries, held)
  {
    hide Marks, Extends, HeldList;
    var s' := ProcStep(s, step, p);
    assert ReleaseAt(s, entries, held, s.procs[p]);
    if s' != s {
      assert s' == SetProc(s, p, s'.procs[p]).(hold := s'.hold);
      assert held[..|held|] == held && held[..0] == [];
      ReleaseInvQuiet(s, entries, held, p, s'.procs[p], s'.hold);
    }
  }

  lemma HeldUntilSent(s: State, entries: seq<EntryState>, held: seq<nat>)
    requires ReleaseInv(s, entries, held) && held == HeldList(entries)
    requires held != [] && s.sends == []
    ensures held[0] < |s.entries| && IsHeld(s.entries[held[0]])
  {
    HeldFromLists(entries, 0);
    var sent: nat, marked: nat :| SendsLeadMarks(s, entries, held, sent, marked);
    MarkedStart(entries, held);
    assert sent == 0;
    assert s.entries[held[0]] == s.entries[..|entries|][held[0]];
  }

  /** Filing a report adds a bare entry at most, and none while an entry of the start is held. */
  lemma ReleaseInvReport(s: State, entries: seq<EntryState>, held: seq<nat>, ok: bool, p: nat)
    requires ReleaseInv(s, entries, held) && held == HeldList(entries)
    requires p < |s.procs| && s.procs[p].Reporting?
    ensures ReleaseInv(ProcStep(s, FileReport(p, ok), p), entries, held)
  {
    var s' := ProcStep(s, FileReport(p, ok), p);
    var t := s.(entries := s'.entries);
    if held != [] && s.sends == [] {
      HeldUntilSent(s, entries, held);
    }
    ReportExtends(s, t, entries, held);
    assert s' == SetProc(t, p, s'.procs[p]).(hold := t.hold);
    ReleaseInvQuiet(t, entries, held, p, s'.procs[p], t.hold);
  }

  lemma ReportExtends(s: State, t: State, entries: seq<EntryState>, held: seq<nat>)
    requires ReleaseInv(s, entries, held)
    requires t == s.(entries := t.entries) && (t.entries == s.entries || t.entries == s.entries + [EntryBare])
    requires held != [] && s.sends == [] ==> t.entries == s.entries
    ensures ReleaseInv(t, entries, held)
  {
    forall n: nat | n <= |held| && Marks(s, entries, held, n) ensures Marks(t, entries, held, n) {
      assert t.entries[..|entries|] == s.entries[..|entries|];
    }
    forall list | Listing(s, entries, held, list) ensures Listing(t, entries, held, list) {
    }
    assert Extends(entries, s.entries) ==> Extends(entries, t.entries) by {
      if Extends(entries, s.entries) {
        assert t.entries[..|entries|] == s.entries[..|entries|];
      }
    }
    hide Marks, Extends, Listing;
    var sent: nat, marked: nat :| SendsLeadMarks(s, entries, held, sent, marked);
    assert SendsLeadMarks(t, entries, held, sent, marked);
    forall q | 0 <= q < |t.procs| ensures ReleaseAt(t, entries, held, t.procs[q]) {
      assert ReleaseAt(s, entries, held, s.procs[q]);
    }
  }

  lemma ReleaseInvDeliver(s: State, entries: seq<EntryState>, held: seq<nat>, ok: bool, p: nat)
    requires ReleaseInv(s, entries, held) && p < |s.procs|
    ensures ReleaseInv(ProcStep(s, Deliver(p, ok), p), entries, held)
  {
    var s' := ProcStep(s, Deliver(p, ok), p);
    if s' != s {
      assert ReleaseAt(s, entries, held, s.procs[p]);
      var i := s.procs[p].next;
      hide Marks, Extends;
      if s'.procs[p].SendFailed? {
        assert s' == SetProc(s, p, s'.procs[p]).(hold := s.hold);
        ReleaseInvQuiet(s, entries, held, p, s'.procs[p], s.hold);
      } else {
        assert s.procs[p].list == held;
        assert held[..i] + [held[i]] == held[..i + 1];
        SameEntriesMark(s, s', entries, held);
        assert SendsLeadMarks(s', entries, held, i + 1, i);
        forall q | 0 <= q < |s'.procs| ensures ReleaseAt(s', entries, held, s'.procs[q]) {
          assert q != p ==> !InRelease(s.procs[q]);
        }
      }
    }
  }

  lemma MarkExtends(s: State, entries: seq<EntryState>, held: seq<nat>, n: nat)
    requires n < |held| && held[n] < |entries| && Marks(s, entries, held, n)
    ensures Extends(Marked(entries, held, n + 1), MarkEntry(s.entries, held[n]))
  {
    MarkedStep(entries, held, n);
    var before := Marked(entries, held, n);
    assert s.entries[held[n]] == s.entries[..|before|][held[n]] == before[held[n]];
    var after := MarkEntry(s.entries, held[n]);
    assert after[..|before|] == MarkEntry(before, held[n]);
  }

  lemma ReleaseInvMark(s: State, entries: seq<EntryState>, held: seq<nat>, ok: bool, p: nat)
    requires ReleaseInv(s, entries, held) && held == HeldList(entries) && p < |s.procs|
    ensures ReleaseInv(ProcStep(s, MarkReleased(p, ok), p), entries, held)
  {
    var s' := ProcStep(s, MarkReleased(p, ok), p);
    if s' != s {
      assert ReleaseAt(s, entries, held, s.procs[p]);
      var i := s.procs[p].next;
      HeldFromLists(entries, 0);
      if ok {
        MarkExtends(s, entries, held, i);
      } else {
        SameEntriesMark(s, s', entries, held);
      }
      hide Marks, Extends, Listing, HeldList, MarkEntry;
      assert ok ==> Marks(s', entries, held, i + 1) by { MarksAre(s', entries, held, i + 1); }
      assert SendsLeadMarks(s', entries, held, i + 1, if ok then i + 1 else i);
      forall q | 0 <= q < |s'.procs| ensures ReleaseAt(s', entries, held, s'.procs[q]) {
        assert q != p ==> !InRelease(s.procs[q]);
      }
    }
  }

  lemma MarksAre(s: State, entries: seq<EntryState>, held: seq<nat>, n: nat)
    requires n <= |held|
    ensures Marks(s, entries, held, n) == Extends(Marked(entries, held, n), s.entries)
  {
  }

  lemma ReleaseInvStep(s: State, entries: seq<EntryState>, held: seq<nat>, step: Step)
    requires ReleaseInv(s, entries, held) && held == HeldList(entries)
    ensures ReleaseInv(Apply(s, step), entries, held)
  {
    hide ReleaseInv, EnvStep, ProcStep, HeldList;
    if IsEnvStep(step) {
      ReleaseInvEnv(s, entries, held, step);
    } else if step.proc < |s.procs| {
      var p := step.proc;
      match step {
        case Deliver(_, ok) => ReleaseInvDeliver(s, entries, held, ok, p);
        case MarkReleased(_, ok) => ReleaseInvMark(s, entries, held, ok, p);
        case FileReport(_, ok) =>
          if s.procs[p].Reporting? { ReleaseInvReport(s, entries, held, ok, p); } else { Unready(s, step, p); }
        case ListHeld(_) =>
          if s.procs[p].Claimed? { ReleaseInvList(s, entries, held, p); } else { Unready(s, step, p); }
        case _ => ReleaseInvProc(s, entries, held, step, p);
      }
    }
  }

  lemma Unready(s: State, step: Step, p: nat)
    requires p < |s.procs|
    requires step.FileReport? ==> !s.procs[p].Reporting?
    requires step.ListHeld? ==> !s.procs[p].Claimed?
    requires step.FileReport? || step.ListHeld?
    ensures ProcStep(s, step, p) == s
  {
  }

  lemma {:induction false} ReleaseInvRun(s: State, entries: seq<EntryState>, held: seq<nat>, steps: seq<Step>)
    requires ReleaseInv(s, entries, held) && held == HeldList(entries)
    ensures ReleaseInv(Exec(s, steps), entries, held)
    decreases |steps|
  {
    hide ReleaseInv, Apply, HeldList;
    if steps != [] {
      ReleaseInvStep(s, entries, held, steps[0]);
      ReleaseInvRun(Apply(s, steps[0]), entries, held, steps[1..]);
    }
  }

  lemma InitialReleaseInv(s0: State)
    requires Initial(s0)
    ensures ReleaseInv(s0, s0.entries, HeldList(s0.entries))
  {
    var held := HeldList(s0.entries);
    MarkedStart(s0.entries, held);
    assert s0.entries[..|s0.entries|] == s0.entries;
    assert SendsLeadMarks(s0, s0.entries, held, 0, 0);
  }

  /** The entries of the start change only from held to released, and only after their delivery; what
      was added since is bare. */
  predicate EntriesFollowSends(before: seq<EntryState>, s: State) {
    && |before| <= |s.entries|
    && (forall e :: 0 <= e < |before| ==>
         || s.entries[e] == before[e]
         || (before[e] == EntryHeld && s.entries[e] == EntryReleased && e in s.sends))
    && (forall e :: |before| <= e < |s.entries| ==> s.entries[e] == EntryBare)
  }

  /** Every delivery but possibly the last has its entry marked. */
  predicate MarksKeepUp(s: State) {
    forall i :: 0 <= i < |s.sends| - 1 ==>
      s.sends[i] < |s.entries| && s.entries[s.sends[i]] == EntryReleased
  }

  lemma MarkedFacts(before: seq<EntryState>, held: seq<nat>, s: State, sent: nat, marked: nat)
    requires ListsHeld(before, 0, held) && EntryBare !in before && SendsLeadMarks(s, before, held, sent, marked)
    ensures EntriesFollowSends(before, s) && MarksKeepUp(s)
    ensures marked == |held| ==> EntryHeld !in s.entries
  {
    var now := s.entries[..|before|];
    assert now == Marked(before, held, marked);
    forall e | 0 <= e < |before|
      ensures now[e] == s.entries[e] == if e in held[..marked] then EntryReleased else before[e]
      ensures e in held[..marked] ==> e in s.sends && before[e] == EntryHeld
    {
      MarkedAt(before, held, marked, e);
      assert e in held[..marked] ==> e in held[..sent];
    }
    forall i | 0 <= i < |s.sends| - 1 ensures s.sends[i] < |s.entries| && s.entries[s.sends[i]] == EntryReleased {
      assert s.sends[i] == held[..marked][i];
    }
    assert held[..|held|] == held;
  }

  /** Conservation over every run that starts from a fresh hold: deliveries are of the entries of the
      start, follow the query order and none is repeated; an entry changes only from held to
      released and only after its delivery; at most the last delivery lacks its mark; nothing at all
      was sent while the hold is pending or ended as a threat; a released hold has sent and marked
      every entry that was held; and entries that threat reports added are never sent. */
  lemma ReleaseConservation(s0: State, steps: seq<Step>)
    requires Initial(s0)
    ensures var s := Exec(s0, steps);
            && s.sends <= HeldList(s0.entries)
            && Increasing(s.sends)
            && EntriesFollowSends(s0.entries, s)
            && MarksKeepUp(s)
            && (s.hold == Pending || s.hold == ThreatFound ==> s.sends == [] && s.entries[..|s0.entries|] == s0.entries)
            && (s.hold == Released ==> s.sends == HeldList(s0.entries) && EntryHeld !in s.entries)
  {
    var held := HeldList(s0.entries);
    HeldFromLists(s0.entries, 0);
    InitialReleaseInv(s0);
    ReleaseInvRun(s0, s0.entries, held, steps);
    var s := Exec(s0, steps);
    var sent: nat, marked: nat :| SendsLeadMarks(s, s0.entries, held, sent, marked);
    MarkedFacts(s0.entries, held, s, sent, marked);
    if s.hold == Released {
      MarkedFacts(s0.entries, held, s, |held|, |held|);
      assert held[..|held|] == held;
    }
  }
}
