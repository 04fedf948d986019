/** Concurrent ingests of copies of one campaign (same organization, fingerprint and day).
    Each copy runs the statements of the ingest handler that touch the campaign row and the
    quarantine entries; a `seq<Step>` is one interleaving of any number of copies.  Two
    quarantine entries never share a campaign id, which a unique index enforces. */
module Campaign {
  import opened Counting
  import opened Wrappers

  datatype Action = Aggregate | RejectCopies | DiscardCopies

  datatype Phase =
    | Recorded                  // counted in the campaign row, handling decided
    | Filed                     // mail log written, representative log offered
    | Inserted(entry: nat)      // quarantine entry written
    | Checked                   // entry handled, suppression known
    | Finished

  /** `highConfidence` and `quarantined` are what the handler computed for this copy;
      `quarantined` is the disposition after the campaign override. */
  datatype Copy = Copy(highConfidence: bool, quarantined: bool, suppressed: bool, phase: Phase)

  /** `bound` entries carry the campaign id. */
  datatype Entry = Entry(copy: nat, bound: bool)

  datatype State = State(messageCount: nat, suppressedCount: nat,
                         representativeLog: Option<nat>, representative: Option<nat>,
                         entries: seq<Entry>, copies: seq<Copy>)

  const EMPTY := State(0, 0, None, None, [], [])

  datatype Step =
    | Record(quarantined: bool, confident: bool, threshold: Option<int>, action: Action)
    | File(copy: nat)
    | InsertEntry(copy: nat)
    | OfferRepresentative(copy: nat)
    | Finish(copy: nat)

  /** The tenant's threshold, or 25 when it is absent or out of range. */
  function CampaignThreshold(setting: Option<int>): (r: nat)
    ensures 2 <= r <= 10_000
    ensures setting.Some? && 2 <= setting.value <= 10_000 ==> r == setting.value
  {
    if setting.None? || setting.value < 2 || setting.value > 10_000 then 25 else setting.value
  }

  predicate HasBound(entries: seq<Entry>) {
    exists e :: 0 <= e < |entries| && entries[e].bound
  }

  /** The handler's decision for the copy that was counted as number `count`. */
  function NewCopy(count: nat, hasRepresentative: bool, step: Step): Copy
    requires step.Record?
  {
    var highConfidence := step.quarantined && step.confident;
    var suppress := highConfidence && count > 1 && hasRepresentative;
    if highConfidence && count >= CampaignThreshold(step.threshold) then
      match step.action
      case RejectCopies => Copy(highConfidence, false, true, Recorded)
      case DiscardCopies => Copy(highConfidence, step.quarantined, count > 1, Recorded)
      case Aggregate => Copy(highConfidence, step.quarantined, suppress, Recorded)
    else
      Copy(highConfidence, step.quarantined, suppress, Recorded)
  }

  function SetCopy(s: State, p: nat, copy: Copy): State
    requires p < |s.copies|
  {
    s.(copies := s.copies[p := copy])
  }

  function Coalesce(old_: Option<nat>, new_: nat): Option<nat> {
    if old_.Some? then old_ else Some(new_)
  }

  function InsertStep(s: State, p: nat): State
    requires p < |s.copies| && s.copies[p].phase == Filed
  {
    var c := s.copies[p];
    if !c.quarantined || c.suppressed then SetCopy(s, p, c.(phase := Checked))
    else if c.highConfidence && HasBound(s.entries) then SetCopy(s, p, c.(suppressed := true, phase := Checked))
    else SetCopy(s, p, c.(phase := Inserted(|s.entries|))).(entries := s.entries + [Entry(p, c.highConfidence)])
  }

  function Apply(s: State, step: Step): State {
    if step.Record? then
      var count := s.messageCount + 1;
      s.(messageCount := count, copies := s.copies + [NewCopy(count, s.representative.Some?, step)])
    else if step.copy >= |s.copies| then s
    else
      var p := step.copy;
      var c := s.copies[p];
      match step
      case File(_) =>
        if c.phase == Recorded
        then SetCopy(s, p, c.(phase := Filed)).(representativeLog := Coalesce(s.representativeLog, p)) else s
      case InsertEntry(_) =>
        if c.phase == Filed then InsertStep(s, p) else s
      case OfferRepresentative(_) =>
        if c.phase.Inserted?
        then SetCopy(s, p, c.(phase := Checked)).(representative := Coalesce(s.representative, c.phase.entry)) else s
      case Finish(_) =>
        if c.phase == Checked
        then SetCopy(s, p, c.(phase := Finished)).(suppressedCount := s.suppressedCount + Indicator(c.suppressed)) else s
      case _ => s
  }

  function Exec(s: State, steps: seq<Step>): State
    decreases |steps|
  {
    if steps == [] then s else Exec(Apply(s, steps[0]), steps[1..])
  }

  // ---------- invariant ----------

  predicate Suppressed(c: Copy) {
    c.phase == Finished && c.suppressed
  }

  predicate Kept(c: Copy) {
    c.phase == Finished && !c.suppressed
  }

  predicate InFlight(c: Copy) {
    c.phase != Finished
  }

  predicate Owns(entries: seq<Entry>, p: nat) {
    exists e :: 0 <= e < |entries| && entries[e].copy == p
  }

  predicate PastInsert(c: Copy) {
    c.phase.Inserted? || c.phase == Checked || c.phase == Finished
  }

  predicate EntryOk(s: State, entry: Entry) {
    entry.copy < |s.copies| &&
    var c := s.copies[entry.copy];
    PastInsert(c) && !c.suppressed && c.quarantined && entry.bound == c.highConfidence
  }

  predicate CopyOk(s: State, p: nat)
    requires p < |s.copies|
  {
    var c := s.copies[p];
    && (c.phase.Inserted? ==> c.phase.entry < |s.entries| && s.entries[c.phase.entry].copy == p)
    && (PastInsert(c) && c.quarantined && !c.suppressed ==> Owns(s.entries, p))
    && (c.highConfidence && !c.suppressed ==> c.quarantined)
    && (p == 0 && c.suppressed ==> HasBound(s.entries))
  }

  predicate OneBound(entries: seq<Entry>) {
    forall d, e :: 0 <= d < e < |entries| ==> !entries[d].bound || !entries[e].bound
  }

  ghost predicate Inv(s: State) {
    && s.messageCount == |s.copies|
    && s.suppressedCount == Count(s.copies, Suppressed)
    && (forall e :: 0 <= e < |s.entries| ==> EntryOk(s, s.entries[e]))
    && (forall p :: 0 <= p < |s.copies| ==> CopyOk(s, p))
    && OneBound(s.entries)
    && (s.representative.Some? ==> s.representative.value < |s.entries|)
  }

  lemma RecordKeepsInv(s: State, step: Step)
    requires Inv(s) && step.Record?
    ensures Inv(Apply(s, step))
  {
    var s' := Apply(s, step);
    var c := s'.copies[|s.copies|];
    CountAppend(s.copies, c, Suppressed);
    forall e | 0 <= e < |s'.entries| ensures EntryOk(s', s'.entries[e]) {
      assert EntryOk(s, s.entries[e]);
    }
    forall p | 0 <= p < |s'.copies| ensures CopyOk(s', p) {
      if p < |s.copies| {
        assert CopyOk(s, p);
      }
    }
  }

  /** Changing one copy without adding an entry. */
  lemma MoveKeepsInv(s: State, s': State, p: nat)
    requires Inv(s) && p < |s.copies|
    requires |s'.copies| == |s.copies| && s'.copies == s.copies[p := s'.copies[p]]
    requires s'.entries == s.entries && s'.messageCount == s.messageCount
    requires s'.suppressedCount + Indicator(Suppressed(s.copies[p])) == s.suppressedCount + Indicator(Suppressed(s'.copies[p]))
    requires s'.representative.Some? ==> s'.representative.value < |s.entries|
    requires CopyOk(s', p)
    requires PastInsert(s.copies[p]) ==>
               PastInsert(s'.copies[p]) && s'.copies[p].suppressed == s.copies[p].suppressed
               && s'.copies[p].quarantined == s.copies[p].quarantined
               && s'.copies[p].highConfidence == s.copies[p].highConfidence
    ensures Inv(s')
  {
    CountUpdate(s.copies, p, s'.copies[p], Suppressed);
    forall e | 0 <= e < |s'.entries| ensures EntryOk(s', s'.entries[e]) {
      assert EntryOk(s, s.entries[e]);
    }
    forall q | 0 <= q < |s'.copies| ensures CopyOk(s', q) {
      assert CopyOk(s, q);
    }
  }

  lemma InsertKeepsInv(s: State, p: nat)
    requires Inv(s) && p < |s.copies| && s.copies[p].phase == Filed
    ensures Inv(InsertStep(s, p))
  {
    var s' := InsertStep(s, p);
    assert CopyOk(s, p);
    if s'.entries == s.entries {
      MoveKeepsInv(s, s', p);
    } else {
      CountUpdate(s.copies, p, s'.copies[p], Suppressed);
      forall e | 0 <= e < |s'.entries| ensures EntryOk(s', s'.entries[e]) {
        if e < |s.entries| {
          assert EntryOk(s, s.entries[e]);
        }
      }
      assert s'.entries[|s.entries|] == Entry(p, s.copies[p].highConfidence);
      forall q | 0 <= q < |s'.copies| ensures CopyOk(s', q) {
        assert CopyOk(s, q);
        OwnsMonotone(s.entries, s'.entries[|s.entries|], q);
      }
    }
  }

  lemma OwnsMonotone(entries: seq<Entry>, entry: Entry, q: nat)
    ensures Owns(entries, q) ==> Owns(entries + [entry], q)
    ensures HasBound(entries) ==> HasBound(entries + [entry])
  {
    if Owns(entries, q) {
      var e :| 0 <= e < |entries| && entries[e].copy == q;
      assert (entries + [entry])[e].copy == q;
    }
    if HasBound(entries) {
      var e :| 0 <= e < |entries| && entries[e].bound;
      assert (entries + [entry])[e].bound;
    }
  }

  lemma StepKeepsInv(s: State, step: Step)
    requires Inv(s)
    ensures Inv(Apply(s, step))
  {
    var s' := Apply(s, step);
    if step.Record? {
      RecordKeepsInv(s, step);
    } else if s' != s {
      var p := step.copy;
      assert CopyOk(s, p);
      if step.InsertEntry? {
        InsertKeepsInv(s, p);
      } else {
        MoveKeepsInv(s, s', p);
      }
    }
  }

  lemma {:induction false} RunKeepsInv(s: State, steps: seq<Step>)
    requires Inv(s)
    ensures Inv(Exec(s, steps))
    decreases |steps|
  {
    if steps != [] {
      StepKeepsInv(s, steps[0]);
      RunKeepsInv(Apply(s, steps[0]), steps[1..]);
    }
  }

  // ---------- results ----------

  lemma {:induction false} CountPartition(copies: seq<Copy>)
    ensures |copies| == Count(copies, InFlight) + Count(copies, Suppressed) + Count(copies, Kept)
  {
    if copies != [] {
      CountPartition(copies[1..]);
    }
  }

  /** Every counted copy is still in flight, was suppressed, or was kept; and the suppression
      counter of the row is exact. */
  lemma CampaignConservation(steps: seq<Step>)
    ensures var s := Exec(EMPTY, steps);
            && s.messageCount == Count(s.copies, InFlight) + s.suppressedCount + Count(s.copies, Kept)
            && s.suppressedCount == Count(s.copies, Suppressed)
  {
    RunKeepsInv(EMPTY, steps);
    CountPartition(Exec(EMPTY, steps).copies);
  }

  lemma OwnerIsKept(s: State, p: nat)
    requires Inv(s) && p < |s.copies|
    ensures Owns(s.entries, p) ==> !s.copies[p].suppressed
  {
    if Owns(s.entries, p) {
      var e :| 0 <= e < |s.entries| && s.entries[e].copy == p;
      assert EntryOk(s, s.entries[e]);
    }
  }

  lemma BoundIsUnique(entries: seq<Entry>, d: nat, e: nat)
    requires OneBound(entries) && d < |entries| && e < |entries| && entries[d].bound && entries[e].bound
    ensures d == e
  {
  }

  /** When every copy is high-confidence and all have finished, exactly one entry is held and
      all other copies were suppressed, whatever the tenant's threshold and action. */
  lemma OneRepresentativeAtRest(steps: seq<Step>)
    requires forall i :: 0 <= i < |steps| && steps[i].Record? ==> steps[i].quarantined && steps[i].confident
    requires var s := Exec(EMPTY, steps);
             s.copies != [] && forall p :: 0 <= p < |s.copies| ==> s.copies[p].phase == Finished
    ensures var s := Exec(EMPTY, steps);
            && |s.entries| == 1
            && s.entries[0].bound
            && s.suppressedCount == s.messageCount - 1
  {
    RunKeepsInv(EMPTY, steps);
    ConfidentRun(EMPTY, steps);
    var s := Exec(EMPTY, steps);
    assert CopyOk(s, 0);
    if Owns(s.entries, 0) {
      var e :| 0 <= e < |s.entries| && s.entries[e].copy == 0;
      assert EntryOk(s, s.entries[e]);
    }
    assert HasBound(s.entries);
    var w :| 0 <= w < |s.entries| && s.entries[w].bound;
    assert EntryOk(s, s.entries[w]);
    forall e | 0 <= e < |s.entries| ensures s.entries[e].bound {
      assert EntryOk(s, s.entries[e]);
    }
    BoundIsUnique(s.entries, 0, w);
    BoundIsUnique(s.entries, |s.entries| - 1, w);
    var owner := s.entries[w].copy;
    forall p | 0 <= p < |s.copies| ensures Suppressed(s.copies[p]) || p == owner {
      assert CopyOk(s, p);
      if !s.copies[p].suppressed {
        var e :| 0 <= e < |s.entries| && s.entries[e].copy == p;
        BoundIsUnique(s.entries, e, w);
      }
    }
    CountAllButOne(s.copies, owner, Suppressed);
  }

  predicate AllConfident(copies: seq<Copy>) {
    forall p :: 0 <= p < |copies| ==> copies[p].highConfidence
  }

  lemma {:induction false} ConfidentRun(s: State, steps: seq<Step>)
    requires AllConfident(s.copies)
    requires forall i :: 0 <= i < |steps| && steps[i].Record? ==> steps[i].quarantined && steps[i].confident
    ensures AllConfident(Exec(s, steps).copies)
    decreases |steps|
  {
    if steps != [] {
      ConfidentRun(Apply(s, steps[0]), steps[1..]);
    }
  }

  /** A representative, once set, never changes. */
  lemma {:induction false} RepresentativeIsStable(s: State, steps: seq<Step>)
    ensures s.representative.Some? ==> Exec(s, steps).representative == s.representative
    ensures s.representativeLog.Some? ==> Exec(s, steps).representativeLog == s.representativeLog
    decreases |steps|
  {
    if steps != [] {
      RepresentativeIsStable(Apply(s, steps[0]), steps[1..]);
    }
  }

  predicate SuppressedHasEntry(s: State) {
    forall p :: 0 <= p < |s.copies| && s.copies[p].suppressed ==> s.entries != []
  }

  predicate SuppressionInv(s: State) {
    (s.representative.Some? ==> s.entries != []) && SuppressedHasEntry(s)
  }

  lemma {:induction false} SuppressionRun(s: State, steps: seq<Step>)
    requires Inv(s) && SuppressionInv(s)
    requires forall i :: 0 <= i < |steps| && steps[i].Record? ==> steps[i].action == Aggregate
    ensures SuppressionInv(Exec(s, steps))
    decreases |steps|
  {
    if steps != [] {
      StepKeepsInv(s, steps[0]);
      SuppressionRun(Apply(s, steps[0]), steps[1..]);
    }
  }

  /** Under the aggregate action a copy is suppressed only when an entry already holds the mail. */
  lemma AggregateSuppressesOnlyCopies(steps: seq<Step>, p: nat)
    requires forall i :: 0 <= i < |steps| && steps[i].Record? ==> steps[i].action == Aggregate
    requires p < |Exec(EMPTY, steps).copies| && Exec(EMPTY, steps).copies[p].suppressed
    ensures Exec(EMPTY, steps).entries != []
  {
    SuppressionRun(EMPTY, steps);
  }

  // ---------- which policies suppress only copies ----------

  /** All ingests of the run apply one tenant policy. */
  predicate UnderPolicy(steps: seq<Step>, threshold: Option<int>, action: Action) {
    forall i :: 0 <= i < |steps| && steps[i].Record? ==> steps[i].threshold == threshold && steps[i].action == action
  }

  /** In no interleaving a copy is suppressed while nothing is held. */
  ghost predicate NeverSuppressesEarly(threshold: Option<int>, action: Action) {
    forall steps :: UnderPolicy(steps, threshold, action) ==> SuppressedHasEntry(Exec(EMPTY, steps))
  }

  function Repeat(step: Step, n: nat): (steps: seq<Step>)
    ensures |steps| == n && forall i :: 0 <= i < n ==> steps[i] == step
  {
    if n == 0 then [] else [step] + Repeat(step, n - 1)
  }

  /** Counting `n` copies before any of them is filed. */
  lemma {:induction false} OnlyCounted(s: State, step: Step, n: nat)
    requires step.Record? && n > 0
    ensures var t := Exec(s, Repeat(step, n));
            && t.entries == s.entries && t.representative == s.representative
            && |t.copies| == |s.copies| + n
            && t.copies[|t.copies| - 1] == NewCopy(s.messageCount + n, s.representative.Some?, step)
    decreases n
  {
    var steps := Repeat(step, n);
    assert steps[1..] == Repeat(step, n - 1);
    if n == 1 {
      assert Exec(Apply(s, step), steps[1..]) == Apply(s, step);
    } else {
      OnlyCounted(Apply(s, step), step, n - 1);
    }
  }

  /** Under the reject and the discard action, whatever the threshold, the copy that reaches it
      is suppressed even if it overtakes all earlier copies and nothing is held yet. */
  lemma SuppressesEarly(threshold: Option<int>, action: Action)
    requires action != Aggregate
    ensures var steps := Repeat(Record(true, true, threshold, action), CampaignThreshold(threshold));
            && UnderPolicy(steps, threshold, action)
            && var s := Exec(EMPTY, steps);
               s.copies != [] && s.copies[|s.copies| - 1].suppressed && s.entries == []
  {
    OnlyCounted(EMPTY, Record(true, true, threshold, action), CampaignThreshold(threshold));
  }

  /** A suppressed copy always implies a held one exactly under the aggregate action. */
  lemma SuppressesOnlyCopiesExactly(threshold: Option<int>, action: Action)
    ensures NeverSuppressesEarly(threshold, action) <==> action == Aggregate
  {
    if action == Aggregate {
      forall steps | UnderPolicy(steps, threshold, action) ensures SuppressedHasEntry(Exec(EMPTY, steps)) {
        SuppressionRun(EMPTY, steps);
      }
    } else {
      SuppressesEarly(threshold, action);
      var steps := Repeat(Record(true, true, threshold, action), CampaignThreshold(threshold));
      assert !SuppressedHasEntry(Exec(EMPTY, steps));
    }
  }
}
