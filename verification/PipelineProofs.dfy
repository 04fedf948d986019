/** Properties of the whole ingest decision: which holds survive every later stage, when mail is
    rejected or let through, and how the outcome depends on the score. */
module PipelineProofs {
  import opened Wrappers
  import opened Pipeline

  const AFTER_AUTH: nat := 2
  const AT_CHALLENGE: nat := 10
  const AT_LEARNED: nat := 11

  // ---------- hard gates ----------

  /** Before the learned verdict a hold must be hard to last; afterwards an allow-blocked reason is enough. */
  predicate Locked(r: Ruling, learnedDone: bool) {
    Held(r) && if learnedDone then AllowBlocked(r.reason) else HardGate(r.reason)
  }

  lemma LockedStage(stage: Stage, m: Mail, score: real, r: Ruling, learnedDone: bool)
    requires Locked(r, learnedDone)
    requires stage == Dsn ==> !IsDsn(m.event)
    requires stage == LearnedVerdict ==> !learnedDone
    ensures Locked(ApplyStage(stage, m, score, r), learnedDone || stage == LearnedVerdict)
  {
    match stage {
      case Challenge =>
      case LearnedVerdict =>
      case _ =>
    }
  }

  lemma {:induction false} LockedUntil(m: Mail, score: real, i: nat, j: nat)
    requires 1 <= i <= j <= |ORDER|
    requires Locked(After(m, score, i), i > AT_LEARNED)
    ensures Locked(After(m, score, j), j > AT_LEARNED)
    decreases j
  {
    if i < j {
      LockedUntil(m, score, i, j - 1);
      LockedStage(ORDER[j - 1], m, score, After(m, score, j - 1), j - 1 > AT_LEARNED);
    }
  }

  /** From the authentication stage on, a message held for a hard-gate reason stays held. */
  lemma HardGateSurvives(m: Mail, score: real, i: nat, j: nat)
    requires AFTER_AUTH <= i <= j <= |ORDER|
    requires Held(After(m, score, i)) && HardGate(After(m, score, i).reason)
    ensures Held(After(m, score, j))
  {
    LockedUntil(m, score, i, j);
  }

  /** Mail that is not outbound, is no delivery notification and passed none of SPF, DKIM and
      DMARC is always held in the end. */
  lemma UnauthenticatedIsHeld(m: Mail, score: real)
    requires m.event.direction != Outbound && !IsDsn(m.event) && !AuthPass(m.event.auth)
    ensures Held(Final(m, score))
  {
    var r1 := After(m, score, 1);
    AfterNext(m, score, 0);
    AfterNext(m, score, 1);
    assert r1 == Decide(m.policy, score);
    HardGateSurvives(m, score, AFTER_AUTH, |ORDER|);
  }

  // ---------- rejection ----------

  predicate Blacklisted(m: Mail) {
    (m.lookups.listAction == BlockSender && BlacklistOn(m)) || m.event.blacklistSymbol
  }

  const BLACKLIST_RULING := Ruling(Rejected, BlacklistMatch)

  lemma BlacklistStage(stage: Stage, m: Mail, score: real, r: Ruling)
    requires r.reason == BlacklistMatch ==> r == BLACKLIST_RULING && Blacklisted(m)
    ensures var r' := ApplyStage(stage, m, score, r);
            && (r'.reason == BlacklistMatch ==> r' == BLACKLIST_RULING && Blacklisted(m))
            && (r == BLACKLIST_RULING ==> r' == r)
  {
  }

  lemma {:induction false} BlacklistUntil(m: Mail, score: real, n: nat)
    requires n <= |ORDER|
    ensures After(m, score, n).reason == BlacklistMatch ==> After(m, score, n) == BLACKLIST_RULING && Blacklisted(m)
    ensures n >= 4 && Blacklisted(m) ==> After(m, score, n) == BLACKLIST_RULING
    decreases n
  {
    if n > 0 {
      BlacklistUntil(m, score, n - 1);
      BlacklistStage(ORDER[n - 1], m, score, After(m, score, n - 1));
      if n == 4 {
        AfterNext(m, score, 2);
        BlacklistUntil(m, score, 2);
      }
    }
  }

  /** Inbound mail is rejected exactly when a blacklist matched the sender, and the reason says so. */
  lemma InboundRejectedIffBlacklisted(m: Mail, score: real)
    requires m.event.direction == Inbound
    ensures Final(m, score).disposition == Rejected <==> Blacklisted(m)
    ensures Final(m, score).disposition == Rejected <==> Final(m, score) == BLACKLIST_RULING
  {
    BlacklistUntil(m, score, 13);
    BlacklistUntil(m, score, |ORDER|);
    AfterNext(m, score, 13);
    AfterNext(m, score, 14);
  }

  // ---------- challenge hold ----------

  lemma AfterChallenge(m: Mail, score: real)
    ensures var r := After(m, score, AT_CHALLENGE);
            Final(m, score) ==
            DeepHoldStage(m, score, QuarantineFirstStage(m, ListStage(m, LearnedStage(m, ChallengeStage(m, score, r)))))
  {
    AfterNext(m, score, 10);
    AfterNext(m, score, 11);
    AfterNext(m, score, 12);
    AfterNext(m, score, 13);
    AfterNext(m, score, 14);
  }

  predicate ChallengeApplies(m: Mail) {
    m.lookups.challenge && m.event.direction == Inbound && !IsDsn(m.event)
  }

  /** With challenge-response on, inbound mail from a sender that is not allowlisted gets
      through in exactly one case: a detector held it for a soft reason, so that no approval
      was requested, and a learned not-spam verdict then lifted that hold. */
  lemma ChallengeHolds(m: Mail, score: real)
    requires ChallengeApplies(m) && m.lookups.listAction != AllowSender
    ensures var r := After(m, score, AT_CHALLENGE);
            Held(Final(m, score)) <==>
            !(r.disposition == Quarantined && !HardGate(r.reason) && m.lookups.learned == Some(NotSpam))
  {
    AfterChallenge(m, score);
    BlacklistUntil(m, score, AT_CHALLENGE);
  }

  /** In particular without a learned not-spam verdict it is always held. */
  lemma ChallengeHoldsUnknownSender(m: Mail, score: real)
    requires ChallengeApplies(m) && m.lookups.listAction != AllowSender
    requires m.lookups.learned != Some(NotSpam)
    ensures Held(Final(m, score))
  {
    ChallengeHolds(m, score);
  }

  /** An allowlisted sender whose source is not verified is held when the policy requires
      verification, even with a learned not-spam verdict. */
  lemma ChallengeHoldsUnverifiedSource(m: Mail, score: real)
    requires ChallengeApplies(m) && m.lookups.listAction == AllowSender
    requires m.policy.requireVerified && !SourceVerified(m.event)
    ensures Held(Final(m, score))
  {
    AfterNext(m, score, 9);
    var r := After(m, score, AT_CHALLENGE);
    assert r == ListStage(m, After(m, score, 9));
    SoftReasonsBeforeLearned(m, score, 9);
    assert r.disposition == Quarantined ==> HardGate(r.reason);
    var c := ChallengeStage(m, score, r);
    assert Held(c);
    AfterChallenge(m, score);
    if c.disposition == Quarantined {
      assert HardGate(c.reason);
      assert LearnedStage(m, c).disposition == Quarantined && AllowBlocked(LearnedStage(m, c).reason);
    } else {
      assert LearnedStage(m, c) == c;
    }
  }

  /** Learned reasons appear only at the learned stage. */
  lemma {:induction false} SoftReasonsBeforeLearned(m: Mail, score: real, n: nat)
    requires n <= AT_LEARNED
    ensures var reason := After(m, score, n).reason;
            AllowBlocked(reason) <==> HardGate(reason)
    decreases n
  {
    if n > 0 {
      SoftReasonsBeforeLearned(m, score, n - 1);
      assert ORDER[n - 1] != LearnedVerdict;
    }
  }

  // ---------- score monotonicity ----------

  /** The reasons of mail that is not held. */
  predicate OpenReason(reason: Reason) {
    reason in {NoReason, ScoreQuarantine, ScoreSpam, DeliveryStatus, AllowlistMatch, PhishingSignal, LearnedNotSpam}
  }

  predicate OpenBelow(a: Ruling, b: Ruling) {
    && !Held(a) && !Held(b)
    && OpenReason(a.reason) && OpenReason(b.reason)
    && (a.disposition == Tagged && a.reason == ScoreQuarantine ==> b == a)
  }

  /** The lower-score run `a` against the higher-score run `b` of the same mail. */
  predicate Below(a: Ruling, b: Ruling, learnedDone: bool) {
    && Severity(a.disposition) <= Severity(b.disposition)
    && (a == BLACKLIST_RULING ==> b == BLACKLIST_RULING)
    && (a.reason == BlacklistMatch ==> a == BLACKLIST_RULING)
    && (b.reason == BlacklistMatch ==> b == BLACKLIST_RULING)
    && (a == b || Locked(b, learnedDone) || OpenBelow(a, b))
    && (!Held(a) ==> OpenReason(a.reason))
    && (!Held(b) ==> OpenReason(b.reason))
  }

  /** A policy whose quarantine band does not deliver what its spam band, below it, tags. */
  predicate MonotonePolicy(pol: Policy) {
    pol.action != ActDeliver || pol.spam >= pol.quarantine || pol.quarantine >= pol.reject
  }

  lemma DecideBelow(pol: Policy, lo: real, hi: real)
    requires lo <= hi && MonotonePolicy(pol)
    ensures Below(Decide(pol, lo), Decide(pol, hi), false)
  {
  }

  /** The score matters to the classifier only for the spam class, which no stage acts on. */
  lemma ClassIgnoresScore(symbols: seq<Symbol>, ev: Event, scamAllowed: bool, brand: bool, lo: real, hi: real)
    ensures var a, b := ClassifyThreat(symbols, ev, scamAllowed, brand, lo), ClassifyThreat(symbols, ev, scamAllowed, brand, hi);
            a == b || {a, b} <= {SpamClass, NoThreat}
  {
  }

  predicate DetectorStage(stage: Stage) {
    stage in {Authentication, BlacklistSymbol, Reputation, CachedIntelligence, CommonScam, BrandImpersonation}
  }

  lemma BelowDetector(stage: Stage, m: Mail, lo: real, hi: real, a: Ruling, b: Ruling, learnedDone: bool)
    requires DetectorStage(stage) && Below(a, b, learnedDone)
    ensures Below(ApplyStage(stage, m, lo, a), ApplyStage(stage, m, hi, b), learnedDone)
  {
    match stage {
      case Authentication =>
      case _ =>
    }
  }

  lemma BelowThreatSignal(m: Mail, lo: real, hi: real, a: Ruling, b: Ruling, learnedDone: bool)
    requires Below(a, b, learnedDone)
    ensures Below(ThreatSignalStage(m, lo, a), ThreatSignalStage(m, hi, b), learnedDone)
  {
    ClassIgnoresScore(m.event.signalOrder, m.event, ScamAllowed(m.policy, m.event.scam), m.event.brandThreat, lo, hi);
  }

  lemma BelowChallenge(m: Mail, lo: real, hi: real, a: Ruling, b: Ruling, learnedDone: bool)
    requires Below(a, b, learnedDone)
    ensures Below(ChallengeStage(m, lo, a), ChallengeStage(m, hi, b), learnedDone)
  {
    ClassIgnoresScore(m.event.approvalOrder, m.event, CategoryOf(m.event.scam).Some?, m.event.brandThreatDefault, lo, hi);
  }

  lemma BelowLookups(stage: Stage, m: Mail, lo: real, hi: real, a: Ruling, b: Ruling, learnedDone: bool)
    requires stage in {SenderList, LearnedVerdict, QuarantineFirst}
    requires stage == LearnedVerdict ==> !learnedDone
    requires Below(a, b, learnedDone)
    ensures Below(ApplyStage(stage, m, lo, a), ApplyStage(stage, m, hi, b), learnedDone || stage == LearnedVerdict)
  {
    match stage {
      case SenderList =>
      case LearnedVerdict =>
      case QuarantineFirst =>
    }
  }

  lemma BelowStage(stage: Stage, m: Mail, lo: real, hi: real, a: Ruling, b: Ruling, learnedDone: bool)
    requires stage != Dsn && stage != DeepHold
    requires stage == LearnedVerdict ==> !learnedDone
    requires Below(a, b, learnedDone)
    ensures Below(ApplyStage(stage, m, lo, a), ApplyStage(stage, m, hi, b), learnedDone || stage == LearnedVerdict)
  {
    if DetectorStage(stage) {
      BelowDetector(stage, m, lo, hi, a, b, learnedDone);
    } else if stage == ThreatSignal {
      BelowThreatSignal(m, lo, hi, a, b, learnedDone);
    } else if stage == Challenge {
      BelowChallenge(m, lo, hi, a, b, learnedDone);
    } else {
      BelowLookups(stage, m, lo, hi, a, b, learnedDone);
    }
  }

  lemma BelowAfterDsn(m: Mail, lo: real, hi: real)
    requires lo <= hi && MonotonePolicy(m.policy)
    ensures Below(DsnStage(m, Decide(m.policy, lo)), DsnStage(m, Decide(m.policy, hi)), false)
  {
    DecideBelow(m.policy, lo, hi);
  }

  lemma MiddleStages(n: nat)
    requires 1 <= n < 14
    ensures ORDER[n] != Dsn && ORDER[n] != DeepHold
    ensures ORDER[n] == LearnedVerdict <==> n == AT_LEARNED
  {
  }

  lemma {:induction false} BelowUntil(m: Mail, lo: real, hi: real, n: nat)
    requires lo <= hi && MonotonePolicy(m.policy)
    requires n < 14
    ensures Below(After(m, lo, n + 1), After(m, hi, n + 1), n >= AT_LEARNED)
    decreases n
  {
    AfterNext(m, lo, n);
    AfterNext(m, hi, n);
    if n == 0 {
      BelowAfterDsn(m, lo, hi);
    } else {
      BelowUntil(m, lo, hi, n - 1);
      MiddleStages(n);
      BelowStage(ORDER[n], m, lo, hi, After(m, lo, n), After(m, hi, n), n > AT_LEARNED);
    }
  }

  /** Two runs of the same mail that differ only in the score: under a monotone policy the
      higher score never gets the milder disposition. */
  lemma ScoreMonotone(m: Mail, lo: real, hi: real)
    requires lo <= hi && MonotonePolicy(m.policy)
    ensures Severity(Final(m, lo).disposition) <= Severity(Final(m, hi).disposition)
  {
    BelowUntil(m, lo, hi, 13);
    AfterNext(m, lo, 14);
    AfterNext(m, hi, 14);
  }

  // ---------- the conditions are needed ----------

  const PLAIN_EVENT :=
    Event(Inbound, true, false, Auth(true, false, false, true, true, true, false, false, false), false,
          NoScam, false, None, false, false, true, [], [])

  const NO_LOOKUPS := Lookups(NoListAction, false, None, None, false, 0.0, false)

  /** Authenticated mail that no detector and no list knows. */
  function PlainMail(pol: Policy): Mail {
    Mail(pol, PLAIN_EVENT, NO_LOOKUPS)
  }

  lemma PlainMailIsDecidedByScore(pol: Policy, score: real)
    requires pol.action == ActDeliver
    ensures Final(PlainMail(pol), score).disposition ==
              (var d := Decide(pol, score).disposition; if d == Rejected then Quarantined else d)
  {
    var m := PlainMail(pol);
    FinalUnfolds(m, score);
    var c := ClassifyThreat([], PLAIN_EVENT, ScamAllowed(pol, NoScam), false, score);
    assert c == NoThreat || c == SpamClass;
  }

  /** The condition on the policy is exact: every other policy has a mail and two scores for
      which the higher score is delivered and the lower one only tagged. */
  lemma NonMonotonePolicyHasWitness(pol: Policy)
    requires !MonotonePolicy(pol)
    ensures Final(PlainMail(pol), pol.spam).disposition == Tagged
    ensures pol.spam <= pol.quarantine && Final(PlainMail(pol), pol.quarantine).disposition == Delivered
  {
    PlainMailIsDecidedByScore(pol, pol.spam);
    PlainMailIsDecidedByScore(pol, pol.quarantine);
  }

  lemma MonotoneExactly(pol: Policy)
    ensures MonotonePolicy(pol) <==>
            forall m: Mail, lo: real, hi: real :: m.policy == pol && lo <= hi ==>
              Severity(Final(m, lo).disposition) <= Severity(Final(m, hi).disposition)
  {
    if MonotonePolicy(pol) {
      forall m: Mail, lo: real, hi: real | m.policy == pol && lo <= hi
        ensures Severity(Final(m, lo).disposition) <= Severity(Final(m, hi).disposition)
      {
        ScoreMonotone(m, lo, hi);
      }
    } else {
      NonMonotonePolicyHasWitness(pol);
    }
  }

  const PHISH_SYMBOL := Symbol(true, false, false, false, false, true)
  const VIRUS_SYMBOL := Symbol(false, false, true, false, false, true)

  /** The classifier returns the first decisive symbol it meets in map order, so the same
      event with the same symbols can end tagged or quarantined. */
  lemma SymbolOrderMatters(pol: Policy)
    requires pol.reject > pol.quarantine > pol.spam > 0.0
    ensures var a := PlainMail(pol).(event := PLAIN_EVENT.(signalOrder := [PHISH_SYMBOL, VIRUS_SYMBOL]));
            var b := PlainMail(pol).(event := PLAIN_EVENT.(signalOrder := [VIRUS_SYMBOL, PHISH_SYMBOL]));
            && multiset(a.event.signalOrder) == multiset(b.event.signalOrder)
            && Final(a, 0.0) == Ruling(Tagged, PhishingSignal)
            && Final(b, 0.0) == Ruling(Quarantined, MalwareSignal)
  {
    var a := PlainMail(pol).(event := PLAIN_EVENT.(signalOrder := [PHISH_SYMBOL, VIRUS_SYMBOL]));
    var b := PlainMail(pol).(event := PLAIN_EVENT.(signalOrder := [VIRUS_SYMBOL, PHISH_SYMBOL]));
    assert a.event.signalOrder == [b.event.signalOrder[1]] + [b.event.signalOrder[0]];
    assert b.event.signalOrder == [b.event.signalOrder[0]] + [b.event.signalOrder[1]];
    assert ClassifyThreat(a.event.signalOrder, a.event, ScamAllowed(pol, NoScam), false, 0.0) == PhishingClass;
    assert ClassifyThreat(b.event.signalOrder, b.event, ScamAllowed(pol, NoScam), false, 0.0) == VirusClass;
    FinalUnfolds(a, 0.0);
    FinalUnfolds(b, 0.0);
  }
}
