/** The classifier takes the first decisive symbol in the order in which a map is iterated.  When
    that order matters, and when it does not. */
module SymbolOrder {
  import opened Wrappers
  import opened Pipeline
  import opened PipelineProofs

  /** The class that a symbol decides on its own. */
  function Decisive(s: Symbol, trustedBrand: bool): Option<ThreatClass> {
    if s.phish && s.positive then (if trustedBrand && s.generic then None else Some(PhishingClass))
    else if s.virus && s.positive then Some(VirusClass)
    else if s.reputation && s.positive then Some(ReputationClass)
    else None
  }

  /** All symbols that decide anything decide the same. */
  predicate Agree(symbols: seq<Symbol>, trustedBrand: bool) {
    forall s, t :: s in symbols && t in symbols && Decisive(s, trustedBrand).Some? && Decisive(t, trustedBrand).Some? ==>
      Decisive(s, trustedBrand) == Decisive(t, trustedBrand)
  }

  lemma {:induction false} FirstDecisive(symbols: seq<Symbol>, trustedBrand: bool)
    ensures var c := SymbolThreat(symbols, trustedBrand);
            && (c.Some? ==> exists s :: s in symbols && Decisive(s, trustedBrand) == c)
            && (c.None? ==> forall s :: s in symbols ==> Decisive(s, trustedBrand).None?)
  {
    if symbols != [] {
      assert symbols[0] in symbols;
      FirstDecisive(symbols[1..], trustedBrand);
      assert forall s :: s in symbols <==> s == symbols[0] || s in symbols[1..];
    }
  }

  lemma AgreementFixesThreat(a: seq<Symbol>, b: seq<Symbol>, trustedBrand: bool)
    requires multiset(a) == multiset(b) && Agree(a, trustedBrand)
    ensures SymbolThreat(a, trustedBrand) == SymbolThreat(b, trustedBrand)
  {
    FirstDecisive(a, trustedBrand);
    FirstDecisive(b, trustedBrand);
    assert forall s :: s in a <==> s in multiset(a);
    assert forall s :: s in b <==> s in multiset(b);
  }

  /** The symbols with `s` first. */
  lemma MoveToFront(symbols: seq<Symbol>, s: Symbol) returns (order: seq<Symbol>)
    requires s in symbols
    ensures multiset(order) == multiset(symbols) && order != [] && order[0] == s
  {
    var i :| 0 <= i < |symbols| && symbols[i] == s;
    order := [s] + symbols[..i] + symbols[i + 1..];
    assert symbols == symbols[..i] + [s] + symbols[i + 1..];
  }

  ghost predicate ThreatIgnoresOrder(symbols: seq<Symbol>, trustedBrand: bool) {
    forall a, b :: multiset(a) == multiset(symbols) && multiset(b) == multiset(symbols) ==>
      SymbolThreat(a, trustedBrand) == SymbolThreat(b, trustedBrand)
  }

  /** The classifier's answer is independent of the order exactly when the decisive symbols agree. */
  lemma ThreatIgnoresOrderExactly(symbols: seq<Symbol>, trustedBrand: bool)
    ensures ThreatIgnoresOrder(symbols, trustedBrand) <==> Agree(symbols, trustedBrand)
  {
    if Agree(symbols, trustedBrand) {
      forall a, b | multiset(a) == multiset(symbols) && multiset(b) == multiset(symbols)
        ensures SymbolThreat(a, trustedBrand) == SymbolThreat(b, trustedBrand)
      {
        AgreementFixesThreat(symbols, a, trustedBrand);
        AgreementFixesThreat(symbols, b, trustedBrand);
      }
    } else {
      var s, t :| s in symbols && t in symbols && Decisive(s, trustedBrand).Some? && Decisive(t, trustedBrand).Some?
                  && Decisive(s, trustedBrand) != Decisive(t, trustedBrand);
      var a := MoveToFront(symbols, s);
      var b := MoveToFront(symbols, t);
      assert SymbolThreat(a, trustedBrand) != SymbolThreat(b, trustedBrand);
    }
  }

  // ---------- the whole decision ----------

  /** The same mail, with its symbols iterated in other orders on the two calls. */
  predicate Reordered(m: Mail, m': Mail) {
    && m' == m.(event := m.event.(signalOrder := m'.event.signalOrder, approvalOrder := m'.event.approvalOrder))
    && multiset(m'.event.signalOrder) == multiset(m.event.signalOrder)
    && multiset(m'.event.approvalOrder) == multiset(m.event.approvalOrder)
  }

  predicate Carries(m: Mail, symbols: seq<Symbol>, trustedBrand: bool) {
    && m.event.trustedBrand == trustedBrand
    && multiset(m.event.signalOrder) == multiset(symbols)
    && multiset(m.event.approvalOrder) == multiset(symbols)
  }

  lemma ListingIgnoresOrder(a: seq<Symbol>, b: seq<Symbol>)
    requires multiset(a) == multiset(b)
    ensures ReputationListed(a) == ReputationListed(b)
  {
    assert forall s :: s in a <==> s in multiset(a);
    assert forall s :: s in b <==> s in multiset(b);
  }

  predicate ReadsOrder(stage: Stage) {
    stage == ThreatSignal || stage == Challenge
  }

  predicate SameThreats(m: Mail, m': Mail) {
    var trusted := m.event.trustedBrand;
    && SymbolThreat(m.event.signalOrder, trusted) == SymbolThreat(m'.event.signalOrder, trusted)
    && SymbolThreat(m.event.approvalOrder, trusted) == SymbolThreat(m'.event.approvalOrder, trusted)
  }

  lemma ClassIgnoresOrder(m: Mail, m': Mail, scamAllowed: bool, brand: bool, score: real)
    requires Reordered(m, m') && SameThreats(m, m')
    ensures ClassifyThreat(m.event.signalOrder, m.event, scamAllowed, brand, score)
            == ClassifyThreat(m'.event.signalOrder, m'.event, scamAllowed, brand, score)
    ensures ClassifyThreat(m.event.approvalOrder, m.event, scamAllowed, brand, score)
            == ClassifyThreat(m'.event.approvalOrder, m'.event, scamAllowed, brand, score)
  {
    hide SymbolThreat, ScamThreat;
  }

  lemma StageIgnoresOrder(stage: Stage, m: Mail, m': Mail, score: real, r: Ruling)
    requires Reordered(m, m') && (ReadsOrder(stage) ==> SameThreats(m, m'))
    ensures ApplyStage(stage, m, score, r) == ApplyStage(stage, m', score, r)
  {
    hide ClassifyThreat, ReputationListed, SameThreats;
    if stage == ThreatSignal {
      ClassIgnoresOrder(m, m', ScamAllowed(m.policy, m.event.scam), m.event.brandThreat, score);
    } else if stage == Challenge {
      ClassIgnoresOrder(m, m', CategoryOf(m.event.scam).Some?, m.event.brandThreatDefault, score);
    } else {
      ListingIgnoresOrder(m.event.signalOrder, m'.event.signalOrder);
    }
  }

  lemma {:induction false} StagesIgnoreOrder(m: Mail, m': Mail, score: real, n: nat)
    requires n <= |ORDER| && Reordered(m, m')
    requires n > 8 ==> SameThreats(m, m')
    ensures After(m, score, n) == After(m', score, n)
  {
    if n > 0 {
      StagesIgnoreOrder(m, m', score, n - 1);
      StageIgnoresOrder(ORDER[n - 1], m, m', score, After(m, score, n - 1));
    }
  }

  // ---------- mail that a blocklist holds ----------

  lemma {:induction false} EarlyHoldsAreHard(m: Mail, score: real, n: nat)
    requires n <= 6 && Held(After(m, score, n))
    ensures HardGate(After(m, score, n).reason)
  {
    if n > 0 {
      AfterNext(m, score, n - 1);
      if Held(After(m, score, n - 1)) {
        EarlyHoldsAreHard(m, score, n - 1);
      }
    }
  }

  lemma ListedIsLocked(m: Mail, score: real)
    requires ReputationListed(m.event.signalOrder)
    ensures Locked(After(m, score, 5), false) && Locked(After(m, score, 8), false)
  {
    AfterNext(m, score, 4);
    assert Held(After(m, score, 5));
    EarlyHoldsAreHard(m, score, 5);
    LockedUntil(m, score, 5, 8);
  }

  /** The same ruling, or two holds that no later stage lifts. */
  predicate SameHold(a: Ruling, b: Ruling, learnedDone: bool) {
    a == b || (a.disposition == Quarantined && b.disposition == Quarantined && Locked(a, learnedDone) && Locked(b, learnedDone))
  }

  lemma SameHoldStage(stage: Stage, m: Mail, m': Mail, score: real, a: Ruling, b: Ruling, learnedDone: bool)
    requires Reordered(m, m') && stage in {SenderList, Challenge, LearnedVerdict, QuarantineFirst, DeepHold}
    requires stage == LearnedVerdict ==> !learnedDone
    requires SameHold(a, b, learnedDone) && Locked(a, learnedDone)
    ensures SameHold(ApplyStage(stage, m, score, a), ApplyStage(stage, m', score, b), learnedDone || stage == LearnedVerdict)
    ensures Locked(ApplyStage(stage, m, score, a), learnedDone || stage == LearnedVerdict)
  {
    LockedStage(stage, m, score, a, learnedDone);
    hide SymbolThreat, ScamThreat, ReputationListed;
  }

  lemma {:induction false} SameHoldUntil(m: Mail, m': Mail, score: real, n: nat)
    requires Reordered(m, m') && ReputationListed(m.event.signalOrder)
    requires 9 <= n <= |ORDER|
    ensures SameHold(After(m, score, n), After(m', score, n), n > AT_LEARNED)
    ensures Locked(After(m, score, n), n > AT_LEARNED)
  {
    AfterNext(m, score, n - 1);
    AfterNext(m', score, n - 1);
    if n == 9 {
      StagesIgnoreOrder(m, m', score, 8);
      ListedIsLocked(m, score);
    } else {
      SameHoldUntil(m, m', score, n - 1);
      LateStage(n - 1);
      SameHoldStage(ORDER[n - 1], m, m', score, After(m, score, n - 1), After(m', score, n - 1), n - 1 > AT_LEARNED);
    }
  }

  lemma LateStage(n: nat)
    requires 9 <= n < |ORDER|
    ensures ORDER[n] in {SenderList, Challenge, LearnedVerdict, QuarantineFirst, DeepHold}
    ensures ORDER[n] == LearnedVerdict <==> n == AT_LEARNED
  {
  }

  // ---------- exactly when the order matters ----------

  ghost predicate OrderIsIrrelevant(symbols: seq<Symbol>, trustedBrand: bool) {
    forall m: Mail, m': Mail, score: real :: Carries(m, symbols, trustedBrand) && Reordered(m, m') ==>
      Final(m, score).disposition == Final(m', score).disposition
  }

  const STRICT := Policy(5.0, 10.0, 15.0, ActQuarantine, false, false, false, false, {})

  /** Authenticated mail whose only evidence are its symbols. */
  function SymbolMail(order: seq<Symbol>, trustedBrand: bool): Mail {
    Mail(STRICT, PLAIN_EVENT.(trustedBrand := trustedBrand, signalOrder := order, approvalOrder := order), NO_LOOKUPS)
  }

  lemma SymbolMailIsDecidedByFirst(order: seq<Symbol>, trustedBrand: bool)
    requires order != [] && Decisive(order[0], trustedBrand).Some? && !ReputationListed(order)
    ensures Final(SymbolMail(order, trustedBrand), 0.0).disposition ==
              match Decisive(order[0], trustedBrand).value
              case PhishingClass => Tagged
              case VirusClass => Quarantined
              case _ => Delivered
  {
    hide ReputationListed;
    var m := SymbolMail(order, trustedBrand);
    FinalUnfolds(m, 0.0);
    assert ClassifyThreat(order, m.event, ScamAllowed(STRICT, NoScam), false, 0.0) == Decisive(order[0], trustedBrand).value;
  }

  /** For mail with given symbols the disposition is independent of the iteration order, whatever
      the policy, the lists, the other detectors and the score are, exactly when a blocklist holds
      the mail before the order is read, or the decisive symbols agree. */
  lemma OrderIrrelevantExactly(symbols: seq<Symbol>, trustedBrand: bool)
    ensures OrderIsIrrelevant(symbols, trustedBrand) <==> ReputationListed(symbols) || Agree(symbols, trustedBrand)
  {
    hide Final, After, ReputationListed, Agree;
    if ReputationListed(symbols) || Agree(symbols, trustedBrand) {
      forall m: Mail, m': Mail, score: real | Carries(m, symbols, trustedBrand) && Reordered(m, m')
        ensures Final(m, score).disposition == Final(m', score).disposition
      {
        if Agree(symbols, trustedBrand) {
          AgreementFinal(m, m', score, symbols, trustedBrand);
        } else {
          ListedFinal(m, m', score, symbols);
        }
      }
    } else {
      DisagreementMatters(symbols, trustedBrand);
    }
  }

  lemma DisagreementMatters(symbols: seq<Symbol>, trustedBrand: bool)
    requires !ReputationListed(symbols) && !Agree(symbols, trustedBrand)
    ensures !OrderIsIrrelevant(symbols, trustedBrand)
  {
    hide Final, After, ReputationListed;
    var s, t :| s in symbols && t in symbols && Decisive(s, trustedBrand).Some? && Decisive(t, trustedBrand).Some?
                && Decisive(s, trustedBrand) != Decisive(t, trustedBrand);
    var a := MoveToFront(symbols, s);
    var b := MoveToFront(symbols, t);
    ListingIgnoresOrder(a, symbols);
    ListingIgnoresOrder(b, symbols);
    SymbolMailIsDecidedByFirst(a, trustedBrand);
    SymbolMailIsDecidedByFirst(b, trustedBrand);
    assert Carries(SymbolMail(a, trustedBrand), symbols, trustedBrand);
    assert Reordered(SymbolMail(a, trustedBrand), SymbolMail(b, trustedBrand));
  }

  lemma ListedFinal(m: Mail, m': Mail, score: real, symbols: seq<Symbol>)
    requires ReputationListed(symbols) && multiset(m.event.signalOrder) == multiset(symbols) && Reordered(m, m')
    ensures Final(m, score).disposition == Final(m', score).disposition
  {
    ListingIgnoresOrder(m.event.signalOrder, symbols);
    SameHoldUntil(m, m', score, |ORDER|);
  }

  lemma AgreementFinal(m: Mail, m': Mail, score: real, symbols: seq<Symbol>, trustedBrand: bool)
    requires Agree(symbols, trustedBrand) && Carries(m, symbols, trustedBrand) && Reordered(m, m')
    ensures Final(m, score) == Final(m', score)
  {
    AgreementFixesThreat(symbols, m.event.signalOrder, trustedBrand);
    AgreementFixesThreat(symbols, m'.event.signalOrder, trustedBrand);
    AgreementFixesThreat(symbols, m.event.approvalOrder, trustedBrand);
    AgreementFixesThreat(symbols, m'.event.approvalOrder, trustedBrand);
    StagesIgnoreOrder(m, m', score, |ORDER|);
  }
}
