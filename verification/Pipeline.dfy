/** The ingest decision: the stages that turn a policy, an event and a few lookups into a
    disposition and a reason, in the order in which the ingest handler applies them. */
module Pipeline {
  import opened Wrappers

  datatype Disposition = Delivered | Tagged | Quarantined | Rejected

  /** One constructor per reason text the stages can write. */
  datatype Reason =
    | NoReason
    | ScoreReject | ScoreQuarantine | ScoreSpam
    | DeliveryStatus
    | AuthMissing | DmarcReject | DmarcQuarantine | AuthFailed
    | BlacklistMatch | AllowlistMatch
    | ReputationHit
    | CachedThreat(source: string)
    | DetectedScam(scam: Scam)
    | BrandClaim(signals: string)
    | PhishingSignal | MalwareSignal
    | PendingApproval
    | LearnedNotSpam | LearnedSpam | LearnedPhishing | LearnedMalware
    | PendingDeepAnalysis
    | CampaignRejected | CampaignDiscarded

  datatype Ruling = Ruling(disposition: Disposition, reason: Reason)

  datatype Direction = Inbound | Outbound | OtherDirection

  datatype ListAction = NoListAction | AllowSender | BlockSender

  datatype Learned = NotSpam | Spam | Phishing | Malware | OtherLearned

  datatype PolicyAction = ActDeliver | ActTag | ActQuarantine | ActReject

  datatype Scam =
    | NoScam
    | CredentialPhishing | WalletAccess | PaymentSupport | TaxDocument | MalwareLure
    | MedicalMiracle | HealthMiracle | HealthLeadGen | HomeServices
    | OtherScam

  datatype ScamCategory = CredentialCategory | PaymentCategory | TaxCategory | MalwareCategory | HealthCategory | HomeCategory

  datatype ThreatClass = NoThreat | PhishingClass | VirusClass | ReputationClass | MalwareClass | SpamClass

  /** What the classifier asks about one rspamd symbol. */
  datatype Symbol = Symbol(phish: bool, generic: bool, virus: bool, reputation: bool, allow: bool, positive: bool)

  datatype Auth = Auth(hasSignal: bool, dmarcReject: bool, dmarcQuarantine: bool,
                       dmarcPass: bool, spfPass: bool, dkimPass: bool,
                       spfFail: bool, dkimFail: bool, spfSoftFail: bool)

  datatype Policy = Policy(spam: real, quarantine: real, reject: real, action: PolicyAction,
                           blacklist: bool, requireVerified: bool, brandDetection: bool,
                           scamDetection: bool, scamCategories: set<ScamCategory>)

  /** The answers the detectors give for one event.  The two symbol orders are the orders in
      which the classifier happens to iterate the symbol map on its two calls. */
  datatype Event = Event(direction: Direction, singleRecipient: bool, dsnEvidence: bool, auth: Auth,
                         blacklistSymbol: bool,
                         scam: Scam, trustedBrand: bool,
                         brandClaim: Option<string>, brandThreat: bool, brandThreatDefault: bool,
                         hostUsable: bool,
                         signalOrder: seq<Symbol>, approvalOrder: seq<Symbol>)

  /** The results of the lookups made while the event is handled. */
  datatype Lookups = Lookups(listAction: ListAction, challenge: bool, cachedThreat: Option<string>,
                             learned: Option<Learned>, deepEnabled: bool, deepMinScore: real, aiReady: bool)

  datatype Mail = Mail(policy: Policy, event: Event, lookups: Lookups)

  // ---------- predicates of the handler ----------

  predicate Held(r: Ruling) {
    r.disposition == Quarantined || r.disposition == Rejected
  }

  function Severity(d: Disposition): nat {
    match d
    case Delivered => 0
    case Tagged => 1
    case Quarantined => 2
    case Rejected => 3
  }

  /** Reasons a learned not-spam verdict must not lift. */
  predicate HardGate(reason: Reason) {
    match reason
    case AuthMissing | ScoreQuarantine | ScoreReject | CachedThreat(_) | DmarcReject | DmarcQuarantine
       | AuthFailed | MalwareSignal | BlacklistMatch | ReputationHit | PendingApproval => true
    case _ => false
  }

  /** Reasons an allowlist match must not lift. */
  predicate AllowBlocked(reason: Reason) {
    match reason
    case AuthMissing | ScoreQuarantine | ScoreReject | CachedThreat(_) | DmarcReject | DmarcQuarantine
       | AuthFailed | MalwareSignal | BlacklistMatch | ReputationHit | PendingApproval => true
    case LearnedSpam | LearnedPhishing | LearnedMalware => true
    case _ => false
  }

  predicate IsDsn(ev: Event) {
    ev.direction != Outbound && ev.dsnEvidence
  }

  predicate AuthPass(auth: Auth) {
    auth.dmarcPass || auth.spfPass || auth.dkimPass
  }

  predicate SourceVerified(ev: Event) {
    ev.auth.dmarcPass && (ev.auth.spfPass || ev.auth.dkimPass) && ev.hostUsable
  }

  predicate BlacklistOn(m: Mail) {
    m.policy.blacklist || m.lookups.challenge
  }

  function CategoryOf(scam: Scam): Option<ScamCategory> {
    match scam
    case CredentialPhishing | WalletAccess => Some(CredentialCategory)
    case PaymentSupport => Some(PaymentCategory)
    case TaxDocument => Some(TaxCategory)
    case MalwareLure => Some(MalwareCategory)
    case MedicalMiracle | HealthMiracle | HealthLeadGen => Some(HealthCategory)
    case HomeServices => Some(HomeCategory)
    case _ => None
  }

  predicate ScamAllowed(pol: Policy, scam: Scam) {
    pol.scamDetection && CategoryOf(scam).Some? && CategoryOf(scam).value in pol.scamCategories
  }

  /** The first symbol that decides, in iteration order. */
  function SymbolThreat(symbols: seq<Symbol>, trustedBrand: bool): Option<ThreatClass> {
    if symbols == [] then None
    else
      var s := symbols[0];
      if s.phish && s.positive then
        if trustedBrand && s.generic then SymbolThreat(symbols[1..], trustedBrand) else Some(PhishingClass)
      else if s.virus && s.positive then Some(VirusClass)
      else if s.reputation && s.positive then Some(ReputationClass)
      else SymbolThreat(symbols[1..], trustedBrand)
  }

  function ScamThreat(scam: Scam, trustedBrand: bool): Option<ThreatClass> {
    match scam
    case CredentialPhishing => if trustedBrand then None else Some(PhishingClass)
    case WalletAccess | PaymentSupport | TaxDocument | MedicalMiracle => Some(PhishingClass)
    case MalwareLure => Some(MalwareClass)
    case HealthMiracle | HealthLeadGen | HomeServices => Some(SpamClass)
    case _ => None
  }

  function ClassifyThreat(symbols: seq<Symbol>, ev: Event, scamAllowed: bool, brand: bool, score: real): ThreatClass {
    var bySymbol := SymbolThreat(symbols, ev.trustedBrand);
    var byScam := if scamAllowed then ScamThreat(ev.scam, ev.trustedBrand) else None;
    if bySymbol.Some? then bySymbol.value
    else if byScam.Some? then byScam.value
    else if brand then PhishingClass
    else if score >= 10.0 then SpamClass
    else NoThreat
  }

  /** Some reputation symbol with a positive score, and no reputation allowlist symbol. */
  predicate ReputationListed(symbols: seq<Symbol>) {
    (forall s :: s in symbols ==> !s.allow) && exists s :: s in symbols && s.reputation && s.positive
  }

  // ---------- stages ----------

  function Decide(pol: Policy, score: real): Ruling {
    if score >= pol.reject then Ruling(Rejected, ScoreReject)
    else if score >= pol.quarantine then
      Ruling(match pol.action
             case ActDeliver => Delivered
             case ActTag => Tagged
             case ActReject => Rejected
             case ActQuarantine => Quarantined, ScoreQuarantine)
    else if score >= pol.spam then Ruling(Tagged, ScoreSpam)
    else Ruling(Delivered, NoReason)
  }

  function DsnStage(m: Mail, r: Ruling): Ruling {
    if IsDsn(m.event) && r.reason in {NoReason, ScoreReject, ScoreQuarantine, ScoreSpam}
    then Ruling(Delivered, DeliveryStatus) else r
  }

  function AuthStage(m: Mail, r: Ruling): Ruling {
    var auth := m.event.auth;
    if Held(r) || m.event.direction == Outbound || IsDsn(m.event) then r
    else if !auth.hasSignal then Ruling(Quarantined, AuthMissing)
    else if auth.dmarcReject then Ruling(Quarantined, DmarcReject)
    else if auth.dmarcQuarantine then Ruling(Quarantined, DmarcQuarantine)
    else if AuthPass(auth) then r
    else if auth.spfFail || auth.dkimFail || auth.spfSoftFail then Ruling(Quarantined, AuthFailed)
    else Ruling(Quarantined, AuthMissing)
  }

  function ListStage(m: Mail, r: Ruling): Ruling {
    if m.lookups.listAction == BlockSender && BlacklistOn(m) then Ruling(Rejected, BlacklistMatch)
    else if m.lookups.listAction == AllowSender && !AllowBlocked(r.reason)
            && (r.disposition == Tagged || r.disposition == Quarantined)
    then Ruling(Delivered, AllowlistMatch)
    else r
  }

  function BlacklistSymbolStage(m: Mail, r: Ruling): Ruling {
    if m.event.blacklistSymbol then Ruling(Rejected, BlacklistMatch) else r
  }

  function ReputationStage(m: Mail, r: Ruling): Ruling {
    if !Held(r) && ReputationListed(m.event.signalOrder) then Ruling(Quarantined, ReputationHit) else r
  }

  function CachedThreatStage(m: Mail, r: Ruling): Ruling {
    if !Held(r) && m.lookups.cachedThreat.Some?
    then Ruling(Quarantined, CachedThreat(m.lookups.cachedThreat.value)) else r
  }

  function ScamStage(m: Mail, r: Ruling): Ruling {
    if Held(r) || !ScamAllowed(m.policy, m.event.scam) then r
    else if m.event.scam == CredentialPhishing && m.event.trustedBrand then r
    else Ruling(Quarantined, DetectedScam(m.event.scam))
  }

  function BrandStage(m: Mail, r: Ruling): Ruling {
    if Held(r) || !m.policy.brandDetection || m.lookups.listAction == AllowSender || m.event.direction == Outbound then r
    else if m.event.brandClaim.Some? then Ruling(Quarantined, BrandClaim(m.event.brandClaim.value))
    else r
  }

  function ThreatSignalStage(m: Mail, score: real, r: Ruling): Ruling {
    if Held(r) then r
    else
      match ClassifyThreat(m.event.signalOrder, m.event, ScamAllowed(m.policy, m.event.scam), m.event.brandThreat, score)
      case PhishingClass =>
        if r.disposition == Delivered then Ruling(Tagged, PhishingSignal)
        else if r.reason == NoReason then Ruling(Tagged, PhishingSignal)
        else r
      case VirusClass | MalwareClass => Ruling(Quarantined, MalwareSignal)
      case _ => r
  }

  /** A held message may become an approval request only when authentication alone held it. */
  predicate CanRequestApproval(m: Mail, score: real, reason: Reason) {
    && reason in {AuthMissing, DmarcReject, DmarcQuarantine, AuthFailed}
    && !(ClassifyThreat(m.event.approvalOrder, m.event, CategoryOf(m.event.scam).Some?, m.event.brandThreatDefault, score)
         in {PhishingClass, VirusClass, MalwareClass})
    && (m.event.scam == NoScam || !ScamAllowed(m.policy, m.event.scam))
  }

  function ChallengeStage(m: Mail, score: real, r: Ruling): Ruling {
    if r.disposition == Rejected || !m.lookups.challenge then r
    else if m.event.direction != Inbound || IsDsn(m.event) then r
    else if r.disposition == Quarantined && !CanRequestApproval(m, score, r.reason) then r
    else if m.lookups.listAction == AllowSender && (!m.policy.requireVerified || SourceVerified(m.event)) then r
    else Ruling(Quarantined, PendingApproval)
  }

  function LearnedStage(m: Mail, r: Ruling): Ruling {
    if m.lookups.learned.None? then r
    else
      match m.lookups.learned.value
      case NotSpam =>
        if !HardGate(r.reason) && (r.disposition == Quarantined || r.disposition == Tagged)
        then Ruling(Delivered, LearnedNotSpam) else r
      case Spam => if Held(r) then r else Ruling(Quarantined, LearnedSpam)
      case Phishing => if r.disposition == Rejected then r else Ruling(Quarantined, LearnedPhishing)
      case Malware => if r.disposition == Rejected then r else Ruling(Quarantined, LearnedMalware)
      case OtherLearned => r
  }

  function QuarantineFirstStage(m: Mail, r: Ruling): Ruling {
    if r.disposition == Rejected && r.reason != BlacklistMatch && m.event.direction == Inbound
    then Ruling(Quarantined, r.reason) else r
  }

  function DeepHoldStage(m: Mail, score: real, r: Ruling): Ruling {
    if r.disposition == Tagged && m.event.direction == Inbound && m.event.singleRecipient
       && m.lookups.deepEnabled && score >= m.lookups.deepMinScore && m.lookups.aiReady
    then Ruling(Quarantined, PendingDeepAnalysis) else r
  }

  datatype Stage =
    | Dsn | Authentication | SenderList | BlacklistSymbol | Reputation | CachedIntelligence
    | CommonScam | BrandImpersonation | ThreatSignal | Challenge | LearnedVerdict | QuarantineFirst | DeepHold

  /** The order of the calls in the handler; the sender list is consulted three times. */
  const ORDER: seq<Stage> :=
    [Dsn, Authentication, SenderList, BlacklistSymbol, Reputation, CachedIntelligence, CommonScam, BrandImpersonation,
     ThreatSignal, SenderList, Challenge, LearnedVerdict, SenderList, QuarantineFirst, DeepHold]

  function ApplyStage(stage: Stage, m: Mail, score: real, r: Ruling): Ruling {
    match stage
    case Dsn => DsnStage(m, r)
    case Authentication => AuthStage(m, r)
    case SenderList => ListStage(m, r)
    case BlacklistSymbol => BlacklistSymbolStage(m, r)
    case Reputation => ReputationStage(m, r)
    case CachedIntelligence => CachedThreatStage(m, r)
    case CommonScam => ScamStage(m, r)
    case BrandImpersonation => BrandStage(m, r)
    case ThreatSignal => ThreatSignalStage(m, score, r)
    case Challenge => ChallengeStage(m, score, r)
    case LearnedVerdict => LearnedStage(m, r)
    case QuarantineFirst => QuarantineFirstStage(m, r)
    case DeepHold => DeepHoldStage(m, score, r)
  }

  /** The ruling after the first `n` stages. */
  function After(m: Mail, score: real, n: nat): Ruling
    requires n <= |ORDER|
  {
    if n == 0 then Decide(m.policy, score) else ApplyStage(ORDER[n - 1], m, score, After(m, score, n - 1))
  }

  /** The ruling before the campaign override. */
  function Final(m: Mail, score: real): Ruling {
    After(m, score, |ORDER|)
  }

  lemma AfterNext(m: Mail, score: real, n: nat)
    requires n < |ORDER|
    ensures After(m, score, n + 1) == ApplyStage(ORDER[n], m, score, After(m, score, n))
  {
  }

  /** The stages written out one after the other. */
  lemma FinalUnfolds(m: Mail, score: real)
    ensures var r3 := ListStage(m, AuthStage(m, DsnStage(m, Decide(m.policy, score))));
            var r6 := CachedThreatStage(m, ReputationStage(m, BlacklistSymbolStage(m, r3)));
            var r9 := ThreatSignalStage(m, score, BrandStage(m, ScamStage(m, r6)));
            var r12 := LearnedStage(m, ChallengeStage(m, score, ListStage(m, r9)));
            Final(m, score) == DeepHoldStage(m, score, QuarantineFirstStage(m, ListStage(m, r12)))
  {
    hide Decide, DsnStage, AuthStage, ListStage, BlacklistSymbolStage, ReputationStage, CachedThreatStage, ScamStage,
         BrandStage, ThreatSignalStage, ChallengeStage, LearnedStage, QuarantineFirstStage, DeepHoldStage, After;
    UnfoldsTo6(m, score);
    UnfoldsTo12(m, score);
    UnfoldsTo15(m, score);
  }

  lemma UnfoldsTo6(m: Mail, score: real)
    ensures var r3 := ListStage(m, AuthStage(m, DsnStage(m, Decide(m.policy, score))));
            After(m, score, 6) == CachedThreatStage(m, ReputationStage(m, BlacklistSymbolStage(m, r3)))
  {
    hide Decide, DsnStage, AuthStage, ListStage, BlacklistSymbolStage, ReputationStage, CachedThreatStage;
    assert After(m, score, 0) == Decide(m.policy, score);
    AfterNext(m, score, 0);
    AfterNext(m, score, 1);
    AfterNext(m, score, 2);
    AfterNext(m, score, 3);
    AfterNext(m, score, 4);
    AfterNext(m, score, 5);
  }

  lemma UnfoldsTo12(m: Mail, score: real)
    ensures var r9 := ThreatSignalStage(m, score, BrandStage(m, ScamStage(m, After(m, score, 6))));
            After(m, score, 12) == LearnedStage(m, ChallengeStage(m, score, ListStage(m, r9)))
  {
    hide ListStage, ScamStage, BrandStage, ThreatSignalStage, ChallengeStage, LearnedStage, After;
    AfterNext(m, score, 6);
    AfterNext(m, score, 7);
    AfterNext(m, score, 8);
    AfterNext(m, score, 9);
    AfterNext(m, score, 10);
    AfterNext(m, score, 11);
  }

  lemma UnfoldsTo15(m: Mail, score: real)
    ensures Final(m, score)
            == DeepHoldStage(m, score, QuarantineFirstStage(m, ListStage(m, After(m, score, 12))))
  {
    hide ListStage, QuarantineFirstStage, DeepHoldStage, After;
    AfterNext(m, score, 12);
    AfterNext(m, score, 13);
    AfterNext(m, score, 14);
  }

  /** The handler itself: one assignment per stage. */
  method DecideDisposition(m: Mail, score: real) returns (r: Ruling)
    ensures r == Final(m, score)
  {
    r := Decide(m.policy, score);
    r := DsnStage(m, r);
    r := AuthStage(m, r);
    r := ListStage(m, r);
    r := BlacklistSymbolStage(m, r);
    r := ReputationStage(m, r);
    r := CachedThreatStage(m, r);
    r := ScamStage(m, r);
    r := BrandStage(m, r);
    r := ThreatSignalStage(m, score, r);
    r := ListStage(m, r);
    r := ChallengeStage(m, score, r);
    r := LearnedStage(m, r);
    r := ListStage(m, r);
    r := QuarantineFirstStage(m, r);
    r := DeepHoldStage(m, score, r);
    FinalUnfolds(m, score);
  }
}
