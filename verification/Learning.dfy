/** The table of recipient feedback: exact rows per sender and subject, sender-level rows and
    domain-level rows, learned from verdicts and consulted in three steps.  Addresses are in
    the normal form (trimmed, lower case) every use in the program puts them in first. */
module Learning {
  import opened Text
  import opened Wrappers

  datatype Verdict = Unreviewed | NotSpam | Spam | Phishing | Malware | Other

  datatype Key = Key(user: string, from: string, fingerprint: string)

  datatype Row = Row(verdict: Verdict, samples: nat)

  datatype Match = Match(verdict: Verdict, samples: nat)

  datatype Observation = Observation(user: string, from: string, fingerprint: string, verdict: Verdict)

  type Rows = map<Key, Row>

  predicate Threat(v: Verdict) {
    v == Spam || v == Phishing || v == Malware
  }

  /** The wildcard key of a sender's domain, or the empty string. */
  function DomainKey(from: string): string {
    var at := LastIndex(from, '@');
    if at < 1 || at == |from| - 1 then ""
    else
      var tail := from[at + 1..];
      var domain := if tail[|tail| - 1] == '.' then tail[..|tail| - 1] else tail;
      if domain == "" || '.' !in domain then "" else "*@" + domain
  }

  function UpsertRow(rows: Rows, key: Key, verdict: Verdict): Rows {
    rows[key := Row(verdict, (if key in rows then rows[key].samples else 0) + 1)]
  }

  predicate SenderLevel(obs: Observation) {
    Threat(obs.verdict) && obs.fingerprint != "" && obs.from != ""
  }

  function LearnRows(rows: Rows, obs: Observation): Rows {
    if obs.verdict == Unreviewed then rows
    else
      var exact := UpsertRow(rows, Key(obs.user, obs.from, obs.fingerprint), obs.verdict);
      if obs.verdict == NotSpam then
        exact - {Key(obs.user, obs.from, ""), Key(obs.user, DomainKey(obs.from), "")}
      else if SenderLevel(obs) then
        var sender := UpsertRow(exact, Key(obs.user, obs.from, ""), obs.verdict);
        if DomainKey(obs.from) == "" then sender
        else UpsertRow(sender, Key(obs.user, DomainKey(obs.from), ""), obs.verdict)
      else exact
  }

  function Select(rows: Rows, key: Key, threatOnly: bool, atLeast: nat): Option<Match> {
    if key in rows && (!threatOnly || Threat(rows[key].verdict)) && rows[key].samples >= atLeast
    then Some(Match(rows[key].verdict, rows[key].samples))
    else None
  }

  function LookupRows(rows: Rows, user: string, from: string, fingerprint: string): Option<Match> {
    var exact := Select(rows, Key(user, from, fingerprint), false, 0);
    if exact.Some? then exact
    else
      var sender := if fingerprint != "" then Select(rows, Key(user, from, ""), true, 0) else None;
      if sender.Some? then sender
      else if DomainKey(from) != "" then Select(rows, Key(user, DomainKey(from), ""), true, 2)
      else None
  }

  /** The table itself. */
  class Classifications {
    var rows: Rows

    constructor ()
      ensures rows == map[]
    {
      rows := map[];
    }

    method Upsert(key: Key, verdict: Verdict)
      modifies this
      ensures rows == UpsertRow(old(rows), key, verdict)
    {
      if key in rows {
        rows := rows[key := Row(verdict, rows[key].samples + 1)];
      } else {
        rows := rows[key := Row(verdict, 1)];
      }
    }

    method Learn(obs: Observation)
      modifies this
      ensures rows == LearnRows(old(rows), obs)
    {
      if obs.verdict == Unreviewed {
        return;
      }
      Upsert(Key(obs.user, obs.from, obs.fingerprint), obs.verdict);
      if obs.verdict == NotSpam {
        rows := rows - {Key(obs.user, obs.from, ""), Key(obs.user, DomainKey(obs.from), "")};
        return;
      }
      if SenderLevel(obs) {
        Upsert(Key(obs.user, obs.from, ""), obs.verdict);
        var domain := DomainKey(obs.from);
        if domain != "" {
          Upsert(Key(obs.user, domain, ""), obs.verdict);
        }
      }
    }

    method Lookup(user: string, from: string, fingerprint: string) returns (m: Option<Match>)
      ensures m == LookupRows(rows, user, from, fingerprint)
    {
      m := Select(rows, Key(user, from, fingerprint), false, 0);
      if m.Some? {
        return;
      }
      if fingerprint != "" {
        m := Select(rows, Key(user, from, ""), true, 0);
        if m.Some? {
          return;
        }
      }
      if DomainKey(from) != "" {
        m := Select(rows, Key(user, DomainKey(from), ""), true, 2);
      }
    }
  }

  // ---------- reading one's own writes ----------

  /** The verdict a user just gave decides the next lookup for that sender and subject,
      whatever else the table holds: a threat is found again, and a not-spam verdict is never
      overruled by an older threat of the sender or of the domain. */
  lemma LookupReadsOwnWrite(rows: Rows, obs: Observation)
    requires obs.verdict != Unreviewed
    ensures var m := LookupRows(LearnRows(rows, obs), obs.user, obs.from, obs.fingerprint);
            && (obs.verdict != NotSpam ==> m.Some? && m.value.verdict == obs.verdict)
            && (obs.verdict == NotSpam && obs.fingerprint != "" ==> m.Some? && m.value.verdict == NotSpam)
            && (obs.verdict == NotSpam && obs.fingerprint == "" ==> m.None?)
  {
    hide DomainKey;
    if SenderLevel(obs) {
      assert Key(obs.user, obs.from, obs.fingerprint) != Key(obs.user, obs.from, "");
      assert Key(obs.user, obs.from, obs.fingerprint) != Key(obs.user, DomainKey(obs.from), "");
    }
  }

  // ---------- runs ----------

  function LearnAll(log: seq<Observation>): Rows {
    if log == [] then map[] else LearnRows(LearnAll(log[..|log| - 1]), log[|log| - 1])
  }

  /** A not-spam verdict that clears the row of `key`: on its domain, or on a sender spelled like it. */
  predicate Clears(obs: Observation, user: string, key: string) {
    obs.user == user && obs.verdict == NotSpam && (obs.from == key || DomainKey(obs.from) == key)
  }

  predicate Counted(obs: Observation, user: string) {
    obs.user == user && obs.verdict != Unreviewed && obs.verdict != NotSpam
  }

  /** A report that adds to the row of `key` because its sender is spelled like the key. */
  predicate LiteralReport(obs: Observation, user: string, key: string) {
    Counted(obs, user) && obs.from == key && (obs.fingerprint == "" || SenderLevel(obs))
  }

  /** A threat with a subject from the domain of `key`. */
  predicate DomainThreat(obs: Observation, user: string, key: string) {
    Counted(obs, user) && SenderLevel(obs) && DomainKey(obs.from) == key
  }

  /** The verdicts that stand in the row of `key`: one for every report of a sender spelled like the
      key, and one for every threat of its domain, since the last verdict that cleared the row. */
  function Standing(log: seq<Observation>, user: string, key: string): seq<Verdict> {
    if log == [] then []
    else
      var last := log[|log| - 1];
      if Clears(last, user, key) then []
      else
        Standing(log[..|log| - 1], user, key)
        + (if LiteralReport(last, user, key) then [last.verdict] else [])
        + (if DomainThreat(last, user, key) then [last.verdict] else [])
  }

  /** Threats with a subject seen by `user` from the domain `key` since the row was last cleared. */
  function ThreatsSince(log: seq<Observation>, user: string, key: string): nat {
    if log == [] then 0
    else
      var last := log[|log| - 1];
      if Clears(last, user, key) then 0
      else ThreatsSince(log[..|log| - 1], user, key) + if DomainThreat(last, user, key) then 1 else 0
  }

  /** A report of a sender spelled like the key that was not cleared afterwards. */
  predicate LiteralStands(log: seq<Observation>, user: string, key: string) {
    exists i :: 0 <= i < |log| && LiteralReport(log[i], user, key) && forall j :: i < j < |log| ==> !Clears(log[j], user, key)
  }

  /** An address that is spelled like a domain key. */
  predicate LiteralPattern(from: string) {
    "*@" <= from
  }

  lemma DomainKeyIsPattern(from: string)
    ensures DomainKey(from) != "" ==> LiteralPattern(DomainKey(from)) && from != ""
  {
  }

  function RowOf(standing: seq<Verdict>): Option<Match> {
    if standing == [] then None else Some(Match(standing[|standing| - 1], |standing|))
  }

  /** What one observation does to the row of a key. */
  lemma DomainRowStep(rows: Rows, obs: Observation, user: string, key: string, standing: seq<Verdict>)
    requires key != "" && Select(rows, Key(user, key, ""), false, 0) == RowOf(standing)
    ensures var after := Select(LearnRows(rows, obs), Key(user, key, ""), false, 0);
            after == if Clears(obs, user, key) then None
                     else RowOf(standing
                                + (if LiteralReport(obs, user, key) then [obs.verdict] else [])
                                + (if DomainThreat(obs, user, key) then [obs.verdict] else []))
  {
    DomainKeyIsPattern(obs.from);
    hide DomainKey;
  }

  /** For every log and every key the row holds exactly the standing verdicts: as many samples, the
      last one as its verdict, and no row when there are none. */
  lemma {:induction false} DomainRowIsStanding(log: seq<Observation>, user: string, key: string)
    requires key != ""
    ensures Select(LearnAll(log), Key(user, key, ""), false, 0) == RowOf(Standing(log, user, key))
    decreases |log|
  {
    hide DomainKey, LearnRows, Clears, LiteralReport, DomainThreat;
    if log != [] {
      DomainRowIsStanding(log[..|log| - 1], user, key);
      DomainRowStep(LearnAll(log[..|log| - 1]), log[|log| - 1], user, key, Standing(log[..|log| - 1], user, key));
    }
  }

  lemma {:induction false} StandingCounts(log: seq<Observation>, user: string, key: string)
    ensures |Standing(log, user, key)| >= ThreatsSince(log, user, key)
    ensures |Standing(log, user, key)| == ThreatsSince(log, user, key) <==> !LiteralStands(log, user, key)
    decreases |log|
  {
    hide Clears, LiteralReport, DomainThreat;
    if log != [] {
      StandingCounts(log[..|log| - 1], user, key);
      LiteralStandsLast(log, user, key);
      hide LiteralStands;
    }
  }

  lemma {:induction false} StandingAreThreats(log: seq<Observation>, user: string, key: string)
    requires !LiteralStands(log, user, key)
    ensures forall v :: v in Standing(log, user, key) ==> Threat(v)
    decreases |log|
  {
    hide Clears, LiteralReport;
    if log != [] {
      LiteralStandsLast(log, user, key);
      hide LiteralStands;
      if !Clears(log[|log| - 1], user, key) {
        StandingAreThreats(log[..|log| - 1], user, key);
      }
    }
  }

  lemma LiteralStandsLast(log: seq<Observation>, user: string, key: string)
    requires log != []
    ensures var before, last := log[..|log| - 1], log[|log| - 1];
            LiteralStands(log, user, key) <==>
            !Clears(last, user, key) && (LiteralReport(last, user, key) || LiteralStands(before, user, key))
  {
    hide Clears, LiteralReport, LiteralStands;
    var before, last := log[..|log| - 1], log[|log| - 1];
    LiteralStandsStep(before, last, user, key);
    assert log == before + [last];
  }

  lemma LiteralStandsStep(before: seq<Observation>, last: Observation, user: string, key: string)
    ensures LiteralStands(before + [last], user, key) <==>
            !Clears(last, user, key) && (LiteralReport(last, user, key) || LiteralStands(before, user, key))
  {
    var log := before + [last];
    assert log[|before|] == last;
    assert LiteralReport(last, user, key) ==> !Clears(last, user, key);
    hide Clears, LiteralReport;
    if LiteralStands(before, user, key) && !Clears(last, user, key) {
      var i :| 0 <= i < |before| && LiteralReport(before[i], user, key)
               && forall j :: i < j < |before| ==> !Clears(before[j], user, key);
      assert log[i] == before[i];
      assert forall j :: i < j < |log| ==> !Clears(log[j], user, key);
    }
    if LiteralStands(log, user, key) {
      var i :| 0 <= i < |log| && LiteralReport(log[i], user, key) && forall j :: i < j < |log| ==> !Clears(log[j], user, key);
      if i < |before| {
        assert log[i] == before[i];
        assert forall j :: i < j < |before| ==> log[j] == before[j];
      }
    }
  }

  /** A row counts the threats of its domain exactly when no report of a sender that is spelled like
      the domain key stands; otherwise it counts more. */
  lemma RowCountsThreatsExactly(log: seq<Observation>, user: string, key: string)
    requires key != ""
    ensures var row := Select(LearnAll(log), Key(user, key, ""), false, 0);
            var samples := if row.Some? then row.value.samples else 0;
            && samples >= ThreatsSince(log, user, key)
            && (samples == ThreatsSince(log, user, key) <==> !LiteralStands(log, user, key))
            && (!LiteralStands(log, user, key) && row.Some? ==> Threat(row.value.verdict))
  {
    DomainRowIsStanding(log, user, key);
    StandingCounts(log, user, key);
    if !LiteralStands(log, user, key) {
      StandingAreThreats(log, user, key);
    }
  }

  predicate Unseen(log: seq<Observation>, user: string, from: string) {
    forall i :: 0 <= i < |log| ==> log[i].user != user || log[i].from != from
  }

  /** Who is flagged among the senders of whom the user has reported nothing, for every log: one
      whose address is itself the key of a reported domain, and one whose domain row has two
      samples and a threat as its last verdict. */
  lemma UnseenSenderFlaggedExactly(log: seq<Observation>, user: string, from: string, fingerprint: string)
    requires Unseen(log, user, from) && from != ""
    ensures var domain := if DomainKey(from) == "" then [] else Standing(log, user, DomainKey(from));
            LookupRows(LearnAll(log), user, from, fingerprint)
            == if ThreatsSince(log, user, from) > 0 then RowOf(Standing(log, user, from))
               else if |domain| >= 2 && Threat(domain[|domain| - 1]) then RowOf(domain)
               else None
  {
    hide DomainKey, LearnAll, Standing, ThreatsSince;
    UnseenStanding(log, user, from);
    DomainRowIsStanding(log, user, from);
    if DomainKey(from) != "" {
      DomainRowIsStanding(log, user, DomainKey(from));
    }
    if fingerprint != "" {
      UnseenHasNoRow(log, user, from, fingerprint);
    }
  }

  lemma {:induction false} UnseenStanding(log: seq<Observation>, user: string, from: string)
    requires Unseen(log, user, from)
    ensures |Standing(log, user, from)| == ThreatsSince(log, user, from)
    ensures forall v :: v in Standing(log, user, from) ==> Threat(v)
  {
    assert !LiteralStands(log, user, from);
    StandingCounts(log, user, from);
    StandingAreThreats(log, user, from);
  }

  lemma {:induction false} UnseenHasNoRow(log: seq<Observation>, user: string, from: string, fingerprint: string)
    requires Unseen(log, user, from) && fingerprint != ""
    ensures Key(user, from, fingerprint) !in LearnAll(log)
    decreases |log|
  {
    hide DomainKey;
    if log != [] {
      UnseenHasNoRow(log[..|log| - 1], user, from, fingerprint);
    }
  }

  /** An ordinary sender of whom the user has reported nothing is flagged exactly when the user has
      reported its domain twice since the last verdict that cleared it, unless a report of a sender
      spelled like the domain key stands. */
  lemma UnseenSenderFlaggedIffTwoThreats(log: seq<Observation>, user: string, from: string, fingerprint: string)
    requires Unseen(log, user, from) && !LiteralPattern(from)
    requires DomainKey(from) != "" && !LiteralStands(log, user, DomainKey(from))
    ensures var m, n := LookupRows(LearnAll(log), user, from, fingerprint), ThreatsSince(log, user, DomainKey(from));
            && (m.Some? <==> n >= 2)
            && (m.Some? ==> Threat(m.value.verdict) && m.value.samples == n)
  {
    DomainKeyIsPattern(from);
    hide DomainKey, LearnAll, Standing, ThreatsSince;
    UnseenSenderFlaggedExactly(log, user, from, fingerprint);
    StandingCounts(log, user, DomainKey(from));
    StandingAreThreats(log, user, DomainKey(from));
    PlainSenderIsNoKey(log, user, from);
  }

  lemma {:induction false} PlainSenderIsNoKey(log: seq<Observation>, user: string, from: string)
    requires !LiteralPattern(from)
    ensures from != "" ==> ThreatsSince(log, user, from) == 0
    decreases |log|
  {
    if log != [] {
      PlainSenderIsNoKey(log[..|log| - 1], user, from);
      DomainKeyIsPattern(log[|log| - 1].from);
      hide DomainKey, LiteralPattern;
    }
  }

  const LITERAL_SENDER := "*@example.com"

  lemma LiteralSenderIsItsOwnKey()
    ensures DomainKey(LITERAL_SENDER) == LITERAL_SENDER
  {
    var from := LITERAL_SENDER;
    assert from[1] == '@';
    assert LastIndex(from, '@') == 1;
    assert from[2..] == "example.com";
    assert "example.com"[7] == '.';
  }

  /** Without the assumption on senders the count is wrong: one report of a sender that is its
      own domain key counts twice, so one report already flags the whole domain. */
  lemma LiteralSenderCountsTwice(user: string, from: string, fingerprint: string)
    requires DomainKey(from) == from && from != "" && fingerprint != ""
    ensures var log := [Observation(user, from, fingerprint, Spam)];
            && ThreatsSince(log, user, from) == 1
            && Select(LearnAll(log), Key(user, from, ""), true, 2) == Some(Match(Spam, 2))
  {
    hide DomainKey;
    var obs := Observation(user, from, fingerprint, Spam);
    assert [obs][..0] == [];
    assert LearnAll([obs]) == LearnRows(LearnAll([]), obs);
    assert ThreatsSince([obs], user, from) == ThreatsSince([], user, from) + 1;
  }
}
