/** The threat-intelligence registry and its shared cache.  Times are in seconds. */
module ThreatCache {
  import opened Text
  import opened Wrappers

  const HIT_TTL: int := 6 * 3600
  const MISS_TTL: int := 15 * 60

  datatype Kind = Ip | Domain | Url | Hash | Brand

  datatype Feed = Feed(name: string, kind: Kind)

  datatype Result = Miss | Hit(source: string)

  /** What one feed does when it is asked. */
  datatype Answer = Fails | Finds(result: Result)

  /** What the loop makes of one feed. */
  datatype Response = OtherKind | Disabled | Failed | NoHit | FoundHit(source: string)

  /** The cache key hashes the kind and the normalized value; the hash is taken to be injective. */
  datatype Key = Key(kind: Kind, value: string)

  datatype Entry = Entry(text: string, storedAt: int, ttl: int)

  // ---------- values and their spellings ----------

  function TrimDot(s: string): string {
    if s != [] && s[|s| - 1] == '.' then s[..|s| - 1] else s
  }

  function Normalize(kind: Kind, value: string): string {
    var trimmed := TrimSpace(value);
    if kind == Domain then TrimDot(Lower(trimmed)) else trimmed
  }

  lemma LowerTwice(s: string)
    ensures Lower(Lower(s)) == Lower(s)
  {
  }

  lemma FixedByTrim(s: string)
    ensures TrimSpace(s) == s <==> Trimmed(s, Space)
  {
    TrimTrims(s, Space);
  }

  /** Normalizing again changes nothing, except for a domain that still ends in a dot or a space
      once its final dot is cut, such as `example.org..`: that one moves to another key. */
  lemma NormalizeAgainExactly(kind: Kind, value: string)
    ensures var n := Normalize(kind, value);
            Normalize(kind, n) == n <==> kind != Domain || n == "" || (n[|n| - 1] != '.' && !Space(n[|n| - 1]))
  {
    hide TrimSpace;
    var trimmed := TrimSpace(value);
    TrimSpaceTrims(value);
    FixedByTrim(trimmed);
    FixedByTrim("");
    if kind == Domain && TrimDot(Lower(trimmed)) != "" {
      NormalDomainAgain(trimmed);
    }
  }

  lemma LowerDot(s: string)
    requires Trimmed(s, Space)
    ensures var n := TrimDot(Lower(s)); Lower(n) == n && (n != "" ==> !Space(n[0]))
  {
    LowerTwice(s);
  }

  lemma NormalDomainAgain(trimmed: string)
    requires Trimmed(trimmed, Space) && TrimDot(Lower(trimmed)) != ""
    ensures var n := TrimDot(Lower(trimmed));
            TrimDot(Lower(TrimSpace(n))) == n <==> n[|n| - 1] != '.' && !Space(n[|n| - 1])
  {
    hide TrimSpace, Lower;
    var n := TrimDot(Lower(trimmed));
    LowerDot(trimmed);
    FixedByTrim(n);
    if Space(n[|n| - 1]) {
      TrimShortens(n);
    }
  }

  lemma TrimSpaceTrims(s: string)
    ensures Trimmed(TrimSpace(s), Space)
  {
    TrimTrims(s, Space);
  }

  lemma TrimShortens(s: string)
    requires s != "" && Space(s[|s| - 1])
    ensures |TrimSpace(s)| < |s|
  {
    TrimLeftEnds(s, Space);
    TrimRightEnds(TrimLeft(s, Space), Space);
    FixedByTrim(s);
  }

  /** A domain with and without its final dot, in any letter case, has one key. */
  lemma SpellingsShareAKey(a: string, b: string)
    requires a != "" && Trimmed(a, Space) && Trimmed(b, Space) && a[|a| - 1] != '.'
    requires Lower(b) == Lower(a) || Lower(b) == Lower(a + ".")
    ensures Normalize(Domain, a) == Normalize(Domain, b) == Lower(a)
  {
    hide TrimSpace, Lower;
    FixedByTrim(a);
    FixedByTrim(b);
    LowerEnd(a);
    if Lower(b) != Lower(a) {
      LowerAppend(a, '.');
    }
  }

  lemma LowerEnd(s: string)
    requires s != ""
    ensures Lower(s)[|s| - 1] == '.' <==> s[|s| - 1] == '.'
  {
  }

  lemma LowerAppend(s: string, c: char)
    ensures Lower(s + [c]) == Lower(s) + [LowerChar(c)]
  {
  }

  // ---------- the encoding ----------

  const MISS_TEXT := "miss"
  const HIT_PREFIX := "hit:"

  function Encode(r: Result): string {
    if r.Hit? then HIT_PREFIX + r.source else MISS_TEXT
  }

  function Decode(text: string): Option<Result> {
    if text == "" then None
    else if text == MISS_TEXT then Some(Miss)
    else if !(HIT_PREFIX <= text) then None
    else Some(Hit(text[|HIT_PREFIX|..]))
  }

  lemma DecodeUndoesEncode(r: Result)
    ensures Decode(Encode(r)) == Some(r)
  {
    if r.Hit? {
      var text := HIT_PREFIX + r.source;
      assert text[0] == 'h' && MISS_TEXT[0] == 'm';
      assert text[|HIT_PREFIX|..] == r.source;
    }
  }

  /** No two cache texts mean the same result. */
  lemma EncodeUndoesDecode(text: string)
    requires Decode(text).Some?
    ensures Encode(Decode(text).value) == text
  {
  }

  function Ttl(r: Result): int {
    if r.Hit? then HIT_TTL else MISS_TTL
  }

  // ---------- reading ----------

  predicate Live(e: Entry, now: int) {
    now < e.storedAt + e.ttl
  }

  /** `got` tells whether the cache server answered. */
  function CacheLookup(cache: map<Key, Entry>, key: Key, got: bool, now: int): Option<Result> {
    if !got || key !in cache || !Live(cache[key], now) then None else Decode(cache[key].text)
  }

  function KeyFor(kind: Kind, raw: string): Key {
    Key(kind, Normalize(kind, raw))
  }

  /** The read that the SMTP decision path uses. */
  function LookupCached(cache: map<Key, Entry>, kind: Kind, raw: string, got: bool, now: int): Option<Result> {
    if Normalize(kind, raw) == "" then None else CacheLookup(cache, KeyFor(kind, raw), got, now)
  }

  // ---------- lookups running side by side ----------

  /** A lookup in flight: its key, what each feed so far came to, and when the last one did. */
  datatype Proc = Idle | Asking(key: Key, responses: seq<Response>, last: int)

  /** A finished lookup. */
  datatype Outcome = Outcome(key: Key, responses: seq<Response>, at: int)

  datatype State = State(cache: map<Key, Entry>, procs: seq<Proc>, finished: seq<Outcome>)

  datatype Event =
    | Begin(kind: Kind, raw: string, got: bool)
    | Ask(enabled: bool, answer: Answer)
    | Store(applied: bool)

  datatype Step = Step(at: int, p: nat, event: Event)

  function Respond(feed: Feed, kind: Kind, enabled: bool, answer: Answer): Response {
    if feed.kind != kind then OtherKind
    else if !enabled then Disabled
    else if answer.Fails? then Failed
    else if answer.result.Hit? then FoundHit(answer.result.source)
    else NoHit
  }

  function Verdict(responses: seq<Response>): Result {
    if responses != [] && responses[|responses| - 1].FoundHit? then Hit(responses[|responses| - 1].source) else Miss
  }

  predicate Done(feeds: seq<Feed>, responses: seq<Response>) {
    Verdict(responses).Hit? || |responses| >= |feeds|
  }

  function Apply(feeds: seq<Feed>, s: State, step: Step): State {
    if step.p >= |s.procs| then s
    else
      var proc := s.procs[step.p];
      match step.event
      case Begin(kind, raw, got) =>
        if proc != Idle || Normalize(kind, raw) == "" || CacheLookup(s.cache, KeyFor(kind, raw), got, step.at).Some? then s
        else s.(procs := s.procs[step.p := Asking(KeyFor(kind, raw), [], step.at)])
      case Ask(enabled, answer) =>
        if proc == Idle || Done(feeds, proc.responses) then s
        else
          var r := Respond(feeds[|proc.responses|], proc.key.kind, enabled, answer);
          s.(procs := s.procs[step.p := Asking(proc.key, proc.responses + [r], step.at)])
      case Store(applied) =>
        if proc == Idle || !Done(feeds, proc.responses) then s
        else
          var r := Verdict(proc.responses);
          State(if applied then s.cache[proc.key := Entry(Encode(r), step.at, Ttl(r))] else s.cache,
                s.procs[step.p := Idle],
                s.finished + [Outcome(proc.key, proc.responses, proc.last)])
  }

  function Exec(feeds: seq<Feed>, s: State, run: seq<Step>): State {
    if run == [] then s else Apply(feeds, Exec(feeds, s, run[..|run| - 1]), run[|run| - 1])
  }

  function Clock(run: seq<Step>, start: int): int {
    if run == [] then start else run[|run| - 1].at
  }

  /** The clock does not go back, and a lookup stores at most `lag` after its last answer. */
  predicate Prompt(feeds: seq<Feed>, s: State, run: seq<Step>, start: int, lag: int)
    decreases |run|
  {
    run == [] ||
    var before, step := run[..|run| - 1], run[|run| - 1];
    var t := Exec(feeds, s, before);
    && Prompt(feeds, s, before, start, lag)
    && Clock(before, start) <= step.at
    && (step.event.Store? && step.p < |t.procs| && t.procs[step.p].Asking? ==> step.at <= t.procs[step.p].last + lag)
  }

  // ---------- soundness over runs ----------

  /** The feeds are asked in order, each of another kind is passed over, and the first hit ends it. */
  predicate InOrder(feeds: seq<Feed>, key: Key, responses: seq<Response>) {
    && |responses| <= |feeds|
    && (forall i :: 0 <= i < |responses| ==> (responses[i].OtherKind? <==> feeds[i].kind != key.kind))
    && (forall i :: 0 <= i < |responses| - 1 ==> !responses[i].FoundHit?)
  }

  predicate Backs(feeds: seq<Feed>, o: Outcome, key: Key, e: Entry, lag: int) {
    && o.key == key && InOrder(feeds, key, o.responses) && Done(feeds, o.responses)
    && e.text == Encode(Verdict(o.responses)) && e.ttl == Ttl(Verdict(o.responses))
    && o.at <= e.storedAt <= o.at + lag
  }

  ghost predicate Backed(feeds: seq<Feed>, finished: seq<Outcome>, key: Key, e: Entry, lag: int) {
    exists o :: o in finished && Backs(feeds, o, key, e, lag)
  }

  ghost predicate Sound(feeds: seq<Feed>, s: State, now: int, lag: int) {
    && (forall p :: 0 <= p < |s.procs| && s.procs[p].Asking? ==>
          InOrder(feeds, s.procs[p].key, s.procs[p].responses) && s.procs[p].last <= now)
    && (forall key :: key in s.cache ==> Backed(feeds, s.finished, key, s.cache[key], lag) && s.cache[key].storedAt <= now)
  }

  lemma BackedGrows(feeds: seq<Feed>, finished: seq<Outcome>, o: Outcome, key: Key, e: Entry, lag: int)
    requires Backed(feeds, finished, key, e, lag)
    ensures Backed(feeds, finished + [o], key, e, lag)
  {
    var w :| w in finished && Backs(feeds, w, key, e, lag);
    assert w in finished + [o];
  }

  lemma StoreKeepsSound(feeds: seq<Feed>, s: State, step: Step, now: int, lag: int)
    requires Sound(feeds, s, now, lag) && now <= step.at && step.event.Store?
    requires step.p < |s.procs| && s.procs[step.p].Asking? && Done(feeds, s.procs[step.p].responses)
    requires step.at <= s.procs[step.p].last + lag
    ensures Sound(feeds, Apply(feeds, s, step), step.at, lag)
  {
    var proc := s.procs[step.p];
    var o := Outcome(proc.key, proc.responses, proc.last);
    var r := Verdict(proc.responses);
    var after := Apply(feeds, s, step);
    assert after.finished == s.finished + [o];
    hide InOrder, Done, Verdict, Encode, Ttl;
    forall key | key in after.cache
      ensures Backed(feeds, after.finished, key, after.cache[key], lag) && after.cache[key].storedAt <= step.at
    {
      if key == proc.key && step.event.applied {
        assert o in after.finished;
        assert Backs(feeds, o, key, Entry(Encode(r), step.at, Ttl(r)), lag);
      } else {
        BackedGrows(feeds, s.finished, o, key, s.cache[key], lag);
      }
    }
  }

  lemma AskKeepsOrder(feeds: seq<Feed>, key: Key, responses: seq<Response>, enabled: bool, answer: Answer)
    requires InOrder(feeds, key, responses) && !Done(feeds, responses)
    ensures InOrder(feeds, key, responses + [Respond(feeds[|responses|], key.kind, enabled, answer)])
  {
  }

  lemma StepKeepsSound(feeds: seq<Feed>, s: State, step: Step, now: int, lag: int)
    requires Sound(feeds, s, now, lag) && now <= step.at
    requires step.event.Store? && step.p < |s.procs| && s.procs[step.p].Asking? ==> step.at <= s.procs[step.p].last + lag
    ensures Sound(feeds, Apply(feeds, s, step), step.at, lag)
  {
    hide Backed, Verdict, Encode, Normalize, CacheLookup;
    if step.p < |s.procs| {
      var proc := s.procs[step.p];
      match step.event
      case Begin(_, _, _) =>
      case Ask(enabled, answer) =>
        if proc.Asking? && !Done(feeds, proc.responses) {
          AskKeepsOrder(feeds, proc.key, proc.responses, enabled, answer);
        }
      case Store(_) =>
        if proc.Asking? && Done(feeds, proc.responses) {
          StoreKeepsSound(feeds, s, step, now, lag);
        }
    }
  }

  lemma {:induction false} RunKeepsSound(feeds: seq<Feed>, s: State, run: seq<Step>, start: int, lag: int)
    requires Sound(feeds, s, start, lag) && Prompt(feeds, s, run, start, lag)
    ensures Sound(feeds, Exec(feeds, s, run), Clock(run, start), lag)
    decreases |run|
  {
    hide Sound, Apply;
    if run != [] {
      RunKeepsSound(feeds, s, run[..|run| - 1], start, lag);
      StepKeepsSound(feeds, Exec(feeds, s, run[..|run| - 1]), run[|run| - 1], Clock(run[..|run| - 1], start), lag);
    }
  }

  predicate Fresh(s: State) {
    s.cache == map[] && s.finished == [] && forall p :: 0 <= p < |s.procs| ==> s.procs[p] == Idle
  }

  /** A hit read from the cache was answered by an enabled feed of that kind, for the same
      normalized value, in a lookup that no earlier feed had settled, less than six hours ago
      (give or take the time between the answer and the store). */
  lemma CachedHitIsBacked(feeds: seq<Feed>, s: State, run: seq<Step>, start: int, lag: int,
                          kind: Kind, raw: string, got: bool, now: int, source: string)
    requires Fresh(s) && Prompt(feeds, s, run, start, lag) && Clock(run, start) <= now
    requires LookupCached(Exec(feeds, s, run).cache, kind, raw, got, now) == Some(Hit(source))
    ensures exists o :: o in Exec(feeds, s, run).finished
              && o.key == KeyFor(kind, raw) && InOrder(feeds, o.key, o.responses) && o.responses != []
              && o.responses[|o.responses| - 1] == FoundHit(source)
              && feeds[|o.responses| - 1].kind == kind
              && now - HIT_TTL - lag < o.at <= now
  {
    var o := BackingOf(feeds, s, run, start, lag, kind, raw, got, now, Hit(source));
    assert o.responses[|o.responses| - 1] == FoundHit(source);
  }

  /** A miss read from the cache ends a lookup, less than fifteen minutes ago, in which every
      feed of that kind was disabled, failed or found nothing. */
  lemma CachedMissIsBacked(feeds: seq<Feed>, s: State, run: seq<Step>, start: int, lag: int,
                           kind: Kind, raw: string, got: bool, now: int)
    requires Fresh(s) && Prompt(feeds, s, run, start, lag) && Clock(run, start) <= now
    requires LookupCached(Exec(feeds, s, run).cache, kind, raw, got, now) == Some(Miss)
    ensures exists o :: o in Exec(feeds, s, run).finished
              && o.key == KeyFor(kind, raw) && |o.responses| == |feeds|
              && (forall i :: 0 <= i < |feeds| && feeds[i].kind == kind ==> o.responses[i] in [Disabled, Failed, NoHit])
              && now - MISS_TTL - lag < o.at <= now
  {
    var o := BackingOf(feeds, s, run, start, lag, kind, raw, got, now, Miss);
    forall i | 0 <= i < |feeds| && feeds[i].kind == kind ensures o.responses[i] in [Disabled, Failed, NoHit] {
      assert !o.responses[i].FoundHit? && !o.responses[i].OtherKind?;
    }
  }

  lemma BackingOf(feeds: seq<Feed>, s: State, run: seq<Step>, start: int, lag: int,
                  kind: Kind, raw: string, got: bool, now: int, result: Result) returns (o: Outcome)
    requires Fresh(s) && Prompt(feeds, s, run, start, lag) && Clock(run, start) <= now
    requires LookupCached(Exec(feeds, s, run).cache, kind, raw, got, now) == Some(result)
    ensures o in Exec(feeds, s, run).finished && o.key == KeyFor(kind, raw)
    ensures InOrder(feeds, o.key, o.responses) && Done(feeds, o.responses) && Verdict(o.responses) == result
    ensures now - Ttl(result) - lag < o.at <= now
  {
    hide InOrder, Verdict, Encode, Decode, Normalize, Done;
    RunKeepsSound(feeds, s, run, start, lag);
    var key, after := KeyFor(kind, raw), Exec(feeds, s, run);
    var e := after.cache[key];
    assert Backed(feeds, after.finished, key, e, lag);
    o :| o in after.finished && Backs(feeds, o, key, e, lag);
    DecodeUndoesEncode(Verdict(o.responses));
  }

  // ---------- how long a stored result is found ----------

  predicate Stores(feeds: seq<Feed>, s: State, step: Step, key: Key) {
    && step.event.Store? && step.event.applied && step.p < |s.procs| && s.procs[step.p].Asking?
    && Done(feeds, s.procs[step.p].responses) && s.procs[step.p].key == key
  }

  /** The steps of the run happen from `from` on and before `until`, in order, and every read of the
      cache answers. */
  predicate Within(run: seq<Step>, from: int, until: int) {
    && (forall i :: 0 <= i < |run| ==> from <= run[i].at < until && (run[i].event.Begin? ==> run[i].event.got))
    && (forall i, j :: 0 <= i < j < |run| ==> run[i].at <= run[j].at)
  }

  /** A lookup in flight that can only end with this result: it already has it, or only feeds of
      other kinds are left and the result is a miss. */
  predicate MustEnd(feeds: seq<Feed>, proc: Proc, result: Result)
    requires proc.Asking?
  {
    if Done(feeds, proc.responses) then Verdict(proc.responses) == result
    else result == Miss && forall i :: |proc.responses| <= i < |feeds| ==> feeds[i].kind != proc.key.kind
  }

  predicate InFlight(s: State, q: nat, key: Key) {
    q < |s.procs| && s.procs[q].Asking? && s.procs[q].key == key
  }

  /** Every lookup of the key in flight must end with this result. */
  predicate AllMustEnd(feeds: seq<Feed>, s: State, key: Key, result: Result) {
    forall q :: 0 <= q < |s.procs| && InFlight(s, q, key) ==> MustEnd(feeds, s.procs[q], result)
  }

  predicate EntryMeans(s: State, key: Key, result: Result, from: int) {
    && key in s.cache && s.cache[key].text == Encode(result) && s.cache[key].ttl == Ttl(result)
    && s.cache[key].storedAt >= from
  }

  lemma MustEndStep(feeds: seq<Feed>, proc: Proc, result: Result, enabled: bool, answer: Answer, at: int)
    requires proc.Asking? && !Done(feeds, proc.responses) && MustEnd(feeds, proc, result)
    ensures var r := Respond(feeds[|proc.responses|], proc.key.kind, enabled, answer);
            MustEnd(feeds, Asking(proc.key, proc.responses + [r], at), result)
  {
  }

  lemma LiveMeans(cache: map<Key, Entry>, key: Key, result: Result, from: int, now: int)
    requires key in cache && cache[key].text == Encode(result) && cache[key].ttl == Ttl(result) && cache[key].storedAt >= from
    requires now < from + Ttl(result)
    ensures CacheLookup(cache, key, true, now) == Some(result)
  {
    hide Encode, Decode;
    DecodeUndoesEncode(result);
  }

  lemma StepKeepsMeaning(feeds: seq<Feed>, s: State, step: Step, key: Key, result: Result, from: int)
    requires EntryMeans(s, key, result, from) && AllMustEnd(feeds, s, key, result)
    requires from <= step.at < from + Ttl(result) && (step.event.Begin? ==> step.event.got)
    ensures EntryMeans(Apply(feeds, s, step), key, result, from) && AllMustEnd(feeds, Apply(feeds, s, step), key, result)
  {
    hide Encode, Decode, Normalize, Verdict, Ttl, CacheLookup;
    var s' := Apply(feeds, s, step);
    if step.p < |s.procs| {
      var proc := s.procs[step.p];
      match step.event {
        case Begin(kind, raw, _) =>
          LiveMeans(s.cache, key, result, from, step.at);
        case Ask(enabled, answer) =>
          if proc.Asking? && !Done(feeds, proc.responses) && proc.key == key {
            assert InFlight(s, step.p, key);
            MustEndStep(feeds, proc, result, enabled, answer, step.at);
          }
        case Store(_) =>
          if proc.Asking? && Done(feeds, proc.responses) && proc.key == key {
            assert InFlight(s, step.p, key);
          }
      }
      hide Done, MustEnd;
      forall q | 0 <= q < |s'.procs| && InFlight(s', q, key) ensures MustEnd(feeds, s'.procs[q], result) {
        if q != step.p || s'.procs[q] == s.procs[q] {
          assert InFlight(s, q, key);
        }
      }
    }
  }

  lemma {:induction false} RunKeepsMeaning(feeds: seq<Feed>, s: State, run: seq<Step>, key: Key, result: Result, from: int)
    requires EntryMeans(s, key, result, from) && AllMustEnd(feeds, s, key, result)
    requires Within(run, from, from + Ttl(result))
    ensures EntryMeans(Exec(feeds, s, run), key, result, from)
    ensures AllMustEnd(feeds, Exec(feeds, s, run), key, result)
    decreases |run|
  {
    hide EntryMeans, AllMustEnd, Apply, Ttl;
    if run != [] {
      RunKeepsMeaning(feeds, s, run[..|run| - 1], key, result, from);
      StepKeepsMeaning(feeds, Exec(feeds, s, run[..|run| - 1]), run[|run| - 1], key, result, from);
    }
  }

  /** Whatever lookups do until the result expires, the decision path finds it. */
  ghost predicate AlwaysFound(feeds: seq<Feed>, s: State, kind: Kind, raw: string, result: Result, from: int) {
    forall run, now :: Within(run, from, from + Ttl(result)) && Clock(run, from) <= now < from + Ttl(result) ==>
      LookupCached(Exec(feeds, s, run).cache, kind, raw, true, now) == Some(result)
  }

  // ---------- how another lookup overwrites it ----------

  function Repeat(step: Step, n: nat): (run: seq<Step>)
    ensures |run| == n && forall i :: 0 <= i < n ==> run[i] == step
  {
    if n == 0 then [] else Repeat(step, n - 1) + [step]
  }

  lemma ExecLast(feeds: seq<Feed>, s: State, run: seq<Step>, step: Step)
    ensures Exec(feeds, s, run + [step]) == Apply(feeds, Exec(feeds, s, run), step)
  {
    assert (run + [step])[..|run|] == run;
  }

  lemma AskStep(feeds: seq<Feed>, s: State, p: nat, enabled: bool, answer: Answer, at: int)
    requires p < |s.procs| && s.procs[p].Asking?
    ensures var after := Apply(feeds, s, Step(at, p, Ask(enabled, answer)));
            var rs := s.procs[p].responses;
            && after.cache == s.cache && |after.procs| == |s.procs| && after.procs[p].Asking?
            && after.procs[p].key == s.procs[p].key
            && after.procs[p].responses
               == if Done(feeds, rs) then rs else rs + [Respond(feeds[|rs|], s.procs[p].key.kind, enabled, answer)]
  {
  }

  /** The lookup had the responses `before` and got the answer from up to `n` feeds since. */
  predicate AskedOn(feeds: seq<Feed>, key: Key, before: seq<Response>, proc: Proc, answer: Answer, n: nat) {
    && proc.Asking? && proc.key == key
    && (Done(feeds, proc.responses) || |proc.responses| == |before| + n)
    && |before| <= |proc.responses| <= |feeds|
    && (answer == Fails ==> Verdict(proc.responses) == Miss)
    && (Verdict(proc.responses) == Miss && answer.Finds? && answer.result.Hit? ==>
          forall i :: |before| <= i < |proc.responses| ==> feeds[i].kind != key.kind)
  }

  lemma AskedOnStep(feeds: seq<Feed>, key: Key, before: seq<Response>, s: State, q: nat, answer: Answer, at: int, n: nat)
    requires q < |s.procs| && AskedOn(feeds, key, before, s.procs[q], answer, n)
    ensures var after := Apply(feeds, s, Step(at, q, Ask(true, answer)));
            |after.procs| == |s.procs| && AskedOn(feeds, key, before, after.procs[q], answer, n + 1)
  {
    AskStep(feeds, s, q, true, answer, at);
    hide Apply;
  }

  /** `q` asks the feeds that are left, and all of them give the same answer. */
  lemma {:induction false} AskRest(feeds: seq<Feed>, s: State, q: nat, answer: Answer, at: int, n: nat)
    requires q < |s.procs| && s.procs[q].Asking? && !Done(feeds, s.procs[q].responses)
    ensures var t := Exec(feeds, s, Repeat(Step(at, q, Ask(true, answer)), n));
            |t.procs| == |s.procs| && AskedOn(feeds, s.procs[q].key, s.procs[q].responses, t.procs[q], answer, n)
  {
    var key, before := s.procs[q].key, s.procs[q].responses;
    assert AskedOn(feeds, key, before, s.procs[q], answer, 0);
    if n > 0 {
      hide Apply, AskedOn, Done;
      AskRest(feeds, s, q, answer, at, n - 1);
      ExecLast(feeds, s, Repeat(Step(at, q, Ask(true, answer)), n - 1), Step(at, q, Ask(true, answer)));
      AskedOnStep(feeds, key, before, Exec(feeds, s, Repeat(Step(at, q, Ask(true, answer)), n - 1)), q, answer, at, n - 1);
    }
  }

  /** A lookup in flight that need not end with the result can end with another one. */
  lemma EndsOtherwise(feeds: seq<Feed>, s: State, q: nat, key: Key, result: Result, at: int) returns (asks: seq<Step>)
    requires InFlight(s, q, key) && !MustEnd(feeds, s.procs[q], result)
    ensures forall i :: 0 <= i < |asks| ==> asks[i].at == at && !asks[i].event.Begin?
    ensures var t := Exec(feeds, s, asks);
            InFlight(t, q, key) && Done(feeds, t.procs[q].responses) && Verdict(t.procs[q].responses) != result
  {
    if Done(feeds, s.procs[q].responses) {
      asks := [];
    } else {
      var answer := if result.Hit? then Fails else Finds(Hit(""));
      asks := Repeat(Step(at, q, Ask(true, answer)), |feeds|);
      AskRest(feeds, s, q, answer, at, |feeds|);
    }
  }

  lemma OneRunDecides(feeds: seq<Feed>, s: State, kind: Kind, raw: string, result: Result, from: int, run: seq<Step>)
    requires Within(run, from, from + Ttl(result)) && Clock(run, from) < from + Ttl(result)
    requires LookupCached(Exec(feeds, s, run).cache, kind, raw, true, Clock(run, from)) != Some(result)
    ensures !AlwaysFound(feeds, s, kind, raw, result, from)
  {
    hide LookupCached, Exec, Ttl, Within, Clock;
  }

  /** And it can replace it. */
  lemma OtherResultOverwrites(feeds: seq<Feed>, s: State, q: nat, kind: Kind, raw: string, result: Result, from: int)
    requires Normalize(kind, raw) != "" && InFlight(s, q, KeyFor(kind, raw)) && !MustEnd(feeds, s.procs[q], result)
    ensures !AlwaysFound(feeds, s, kind, raw, result, from)
  {
    hide Normalize, Encode, Decode, Verdict, Done, MustEnd, Apply, LookupCached, Stores, Exec, AlwaysFound, EntryMeans;
    var asks := EndsOtherwise(feeds, s, q, KeyFor(kind, raw), result, from);
    var store := Step(from, q, Store(true));
    var t := Exec(feeds, s, asks);
    StoresWhenDone(feeds, t, store, KeyFor(kind, raw));
    StoreIsFound(feeds, t, store, kind, raw);
    ExecLast(feeds, s, asks, store);
    OneRunDecides(feeds, s, kind, raw, result, from, asks + [store]);
  }

  lemma StoresWhenDone(feeds: seq<Feed>, s: State, step: Step, key: Key)
    requires InFlight(s, step.p, key) && Done(feeds, s.procs[step.p].responses) && step.event == Store(true)
    ensures Stores(feeds, s, step, key)
  {
  }

  lemma StoreIsFound(feeds: seq<Feed>, s: State, step: Step, kind: Kind, raw: string)
    requires Normalize(kind, raw) != "" && Stores(feeds, s, step, KeyFor(kind, raw))
    ensures var result := Verdict(s.procs[step.p].responses);
            && EntryMeans(Apply(feeds, s, step), KeyFor(kind, raw), result, step.at)
            && LookupCached(Apply(feeds, s, step).cache, kind, raw, true, step.at) == Some(result)
  {
    hide Normalize, Encode, Decode, Verdict, Done;
    DecodeUndoesEncode(Verdict(s.procs[step.p].responses));
  }

  /** What a lookup stored is found by the decision path until it expires, under any spelling with the
      same normalized value and in every run of overlapping lookups, exactly when each lookup of the
      key that is in flight at the store must end with the same result. */
  lemma StoredIsFoundExactly(feeds: seq<Feed>, s: State, step: Step, kind: Kind, raw: string)
    requires Normalize(kind, raw) != "" && Stores(feeds, s, step, KeyFor(kind, raw))
    ensures var result, after := Verdict(s.procs[step.p].responses), Apply(feeds, s, step);
            AlwaysFound(feeds, after, kind, raw, result, step.at) <==> AllMustEnd(feeds, after, KeyFor(kind, raw), result)
  {
    var result, after, key := Verdict(s.procs[step.p].responses), Apply(feeds, s, step), KeyFor(kind, raw);
    StoreIsFound(feeds, s, step, kind, raw);
    hide Normalize, Verdict, Done, Stores, Apply, Ttl, MustEnd;
    if AllMustEnd(feeds, after, key, result) {
      forall run, now | Within(run, step.at, step.at + Ttl(result)) && Clock(run, step.at) <= now < step.at + Ttl(result)
        ensures LookupCached(Exec(feeds, after, run).cache, kind, raw, true, now) == Some(result)
      {
        RunKeepsMeaning(feeds, after, run, key, result, step.at);
        LiveMeans(Exec(feeds, after, run).cache, key, result, step.at, now);
      }
    } else {
      var q :| 0 <= q < |after.procs| && InFlight(after, q, key) && !MustEnd(feeds, after.procs[q], result);
      OtherResultOverwrites(feeds, after, q, kind, raw, result, step.at);
    }
  }

  /** In particular a result stored while no other lookup of the key is in flight is found in every
      run until it expires, and not afterwards unless something is stored again. */
  lemma WarmedUntilExpiry(feeds: seq<Feed>, s: State, step: Step, run: seq<Step>, kind: Kind, raw: string, now: int)
    requires Normalize(kind, raw) != "" && Stores(feeds, s, step, KeyFor(kind, raw))
    requires forall q :: 0 <= q < |s.procs| && q != step.p ==> !InFlight(s, q, KeyFor(kind, raw))
    requires Within(run, step.at, step.at + Ttl(Verdict(s.procs[step.p].responses)))
    ensures var result := Verdict(s.procs[step.p].responses);
            LookupCached(Exec(feeds, Apply(feeds, s, step), run).cache, kind, raw, true, now)
            == if now < step.at + Ttl(result) then Some(result) else None
  {
    var result, after, key := Verdict(s.procs[step.p].responses), Apply(feeds, s, step), KeyFor(kind, raw);
    StoreIsFound(feeds, s, step, kind, raw);
    NoneInFlightAfter(feeds, s, step, key);
    hide Normalize, Verdict, Done, Ttl, Encode, Decode;
    EntryStays(feeds, after, run, key, result, step.at);
    DecodeUndoesEncode(result);
  }

  predicate NoneInFlight(s: State, key: Key) {
    forall q :: 0 <= q < |s.procs| ==> !InFlight(s, q, key)
  }

  lemma NoneInFlightAfter(feeds: seq<Feed>, s: State, step: Step, key: Key)
    requires Stores(feeds, s, step, key) && forall q :: 0 <= q < |s.procs| && q != step.p ==> !InFlight(s, q, key)
    ensures NoneInFlight(Apply(feeds, s, step), key)
  {
    var after := Apply(feeds, s, step);
    forall q | 0 <= q < |after.procs| ensures !InFlight(after, q, key) {
      if q != step.p {
        assert !InFlight(s, q, key);
      }
    }
  }

  lemma {:induction false} EntryStays(feeds: seq<Feed>, s: State, run: seq<Step>, key: Key, result: Result, from: int)
    requires EntryMeans(s, key, result, from) && NoneInFlight(s, key) && s.cache[key].storedAt == from
    requires Within(run, from, from + Ttl(result))
    ensures var t := Exec(feeds, s, run);
            NoneInFlight(t, key) && key in t.cache && t.cache[key] == s.cache[key]
    decreases |run|
  {
    if run != [] {
      var before, step := run[..|run| - 1], run[|run| - 1];
      EntryStays(feeds, s, before, key, result, from);
      var t := Exec(feeds, s, before);
      EntryStep(feeds, t, step, key, result, from);
    }
  }

  lemma EntryStep(feeds: seq<Feed>, s: State, step: Step, key: Key, result: Result, from: int)
    requires EntryMeans(s, key, result, from) && NoneInFlight(s, key)
    requires from <= step.at < from + Ttl(result) && (step.event.Begin? ==> step.event.got)
    ensures var t := Apply(feeds, s, step);
            NoneInFlight(t, key) && key in t.cache && t.cache[key] == s.cache[key]
  {
    hide Encode, Decode, Normalize, Verdict, Ttl, CacheLookup, Done;
    LiveMeans(s.cache, key, result, from, step.at);
    var t := Apply(feeds, s, step);
    if step.p < |s.procs| {
      assert !InFlight(s, step.p, key);
      forall q | 0 <= q < |t.procs| ensures !InFlight(t, q, key) {
        if q != step.p {
          assert !InFlight(s, q, key);
        }
      }
    }
  }

  const ONE_FEED := [Feed("feed", Url)]

  /** Both lookups begin, and the first one stores a hit. */
  function HitRun(raw: string, source: string): seq<Step> {
    [Step(0, 0, Begin(Url, raw, true)), Step(0, 1, Begin(Url, raw, true)),
     Step(1, 0, Ask(true, Finds(Hit(source)))), Step(2, 0, Store(true))]
  }

  function AfterHit(raw: string, source: string): State {
    var key := KeyFor(Url, raw);
    State(map[key := Entry(Encode(Hit(source)), 2, Ttl(Hit(source)))], [Idle, Asking(key, [], 0)],
          [Outcome(key, [FoundHit(source)], 1)])
  }

  lemma HitIsStored(raw: string, source: string)
    requires Normalize(Url, raw) != ""
    ensures Exec(ONE_FEED, State(map[], [Idle, Idle], []), HitRun(raw, source)) == AfterHit(raw, source)
  {
    hide Normalize, Encode, Decode;
    var key, run := KeyFor(Url, raw), HitRun(raw, source);
    var s0 := State(map[], [Idle, Idle], []);
    var s1 := s0.(procs := [Asking(key, [], 0), Idle]);
    var s2 := s1.(procs := [Asking(key, [], 0), Asking(key, [], 0)]);
    var s3 := s2.(procs := [Asking(key, [FoundHit(source)], 1), Asking(key, [], 0)]);
    var none: seq<Response> := [];
    assert none + [FoundHit(source)] == [FoundHit(source)];
    assert s2.procs[0 := Asking(key, [FoundHit(source)], 1)] == s3.procs;
    assert Apply(ONE_FEED, s2, run[2]) == s3;
    assert Apply(ONE_FEED, s3, run[3]) == AfterHit(raw, source);
    TraceEnds(ONE_FEED, [s0, s1, s2, s3, AfterHit(raw, source)], run);
  }

  /** Two messages with one URL: both lookups begin before either stores.  The first stores a hit, and the
      second, whose feed failed, replaces it with a miss. */
  lemma OverlapHidesHit(raw: string, source: string)
    requires Normalize(Url, raw) != ""
    ensures LookupCached(Exec(ONE_FEED, State(map[], [Idle, Idle], []), HitRun(raw, source)).cache, Url, raw, true, 3)
            == Some(Hit(source))
    ensures var run := HitRun(raw, source) + [Step(2, 1, Ask(true, Fails))] + [Step(3, 1, Store(true))];
            LookupCached(Exec(ONE_FEED, State(map[], [Idle, Idle], []), run).cache, Url, raw, true, 4) == Some(Miss)
  {
    HitIsStored(raw, source);
    hide Normalize, Encode, Decode, Exec, HitRun;
    var start, before := State(map[], [Idle, Idle], []), HitRun(raw, source);
    ExecLast(ONE_FEED, start, before, Step(2, 1, Ask(true, Fails)));
    ExecLast(ONE_FEED, start, before + [Step(2, 1, Ask(true, Fails))], Step(3, 1, Store(true)));
    var none: seq<Response> := [];
    assert none + [Failed] == [Failed];
    DecodeUndoesEncode(Hit(source));
    DecodeUndoesEncode(Miss);
  }

  lemma {:induction false} TraceEnds(feeds: seq<Feed>, states: seq<State>, run: seq<Step>)
    requires |states| == |run| + 1
    requires forall i :: 0 <= i < |run| ==> states[i + 1] == Apply(feeds, states[i], run[i])
    ensures Exec(feeds, states[0], run) == states[|run|]
    decreases |run|
  {
    if run != [] {
      TraceEnds(feeds, states[..|run|], run[..|run| - 1]);
    }
  }

  // ---------- one lookup ----------

  /** The responses of the first `n` feeds, up to the first hit. */
  function Responses(feeds: seq<Feed>, kind: Kind, enabled: seq<bool>, answers: seq<Answer>, n: nat): seq<Response>
    requires n <= |feeds| == |enabled| == |answers|
  {
    if n == 0 then []
    else
      var before := Responses(feeds, kind, enabled, answers, n - 1);
      if Verdict(before).Hit? then before else before + [Respond(feeds[n - 1], kind, enabled[n - 1], answers[n - 1])]
  }

  predicate Finding(feeds: seq<Feed>, kind: Kind, enabled: seq<bool>, answers: seq<Answer>, i: nat)
    requires i < |feeds| == |enabled| == |answers|
  {
    feeds[i].kind == kind && enabled[i] && answers[i].Finds? && answers[i].result.Hit?
  }

  /** The verdict is the hit of the first enabled feed of that kind that has one; feeds that fail
      count for nothing. */
  lemma {:induction false} VerdictIsFirstHit(feeds: seq<Feed>, kind: Kind, enabled: seq<bool>, answers: seq<Answer>, n: nat)
    requires n <= |feeds| == |enabled| == |answers|
    ensures var v := Verdict(Responses(feeds, kind, enabled, answers, n));
            && (v == Miss <==> forall i :: 0 <= i < n ==> !Finding(feeds, kind, enabled, answers, i))
            && (v.Hit? ==>
                  exists i :: (&& 0 <= i < n && Finding(feeds, kind, enabled, answers, i) && answers[i].result == v
                               && forall j :: 0 <= j < i ==> !Finding(feeds, kind, enabled, answers, j)))
  {
    if n > 0 {
      VerdictIsFirstHit(feeds, kind, enabled, answers, n - 1);
      var v := Verdict(Responses(feeds, kind, enabled, answers, n));
      if v.Hit? && Verdict(Responses(feeds, kind, enabled, answers, n - 1)) == Miss {
        assert Finding(feeds, kind, enabled, answers, n - 1) && answers[n - 1].result == v;
      }
    }
  }

  lemma VerdictStep(feeds: seq<Feed>, kind: Kind, enabled: seq<bool>, answers: seq<Answer>, i: nat)
    requires i < |feeds| == |enabled| == |answers|
    requires Verdict(Responses(feeds, kind, enabled, answers, i)) == Miss
    ensures Verdict(Responses(feeds, kind, enabled, answers, i + 1))
            == if Finding(feeds, kind, enabled, answers, i) then answers[i].result else Miss
  {
  }

  lemma NoResponses(feeds: seq<Feed>, kind: Kind, enabled: seq<bool>, answers: seq<Answer>)
    requires |feeds| == |enabled| == |answers|
    ensures Verdict([]) == Miss && Responses(feeds, kind, enabled, answers, 0) == []
  {
  }

  class Registry {
    const feeds: seq<Feed>
    var cache: map<Key, Entry>

    constructor (feeds: seq<Feed>)
      ensures this.feeds == feeds && cache == map[]
    {
      this.feeds := feeds;
      cache := map[];
    }

    method CacheStore(key: Key, result: Result, applied: bool, now: int)
      modifies this`cache
      ensures cache == if applied then old(cache)[key := Entry(Encode(result), now, Ttl(result))] else old(cache)
    {
      var text := "miss";
      if result.Hit? {
        text := "hit:" + result.source;
      }
      if applied {
        cache := cache[key := Entry(text, now, Ttl(result))];
      }
    }

    /** `None` is the error for an empty value.  `enabled` and `answers` are what the configuration
        and the feeds say during this call. */
    method Lookup(kind: Kind, raw: string, got: bool, now: int, enabled: seq<bool>, answers: seq<Answer>,
                  applied: bool, storeAt: int)
      returns (result: Option<Result>)
      requires |enabled| == |answers| == |feeds|
      modifies this`cache
      ensures Normalize(kind, raw) == "" ==> result == None && cache == old(cache)
      ensures Normalize(kind, raw) != "" ==>
                var cached := CacheLookup(old(cache), KeyFor(kind, raw), got, now);
                var found := Verdict(Responses(feeds, kind, enabled, answers, |feeds|));
                && result == (if cached.Some? then cached else Some(found))
                && cache == if cached.None? && applied
                            then old(cache)[KeyFor(kind, raw) := Entry(Encode(found), storeAt, Ttl(found))]
                            else old(cache)
    {
      hide Normalize, Encode, Decode, Verdict, Responses;
      assert Verdict([]) == Miss && Responses(feeds, kind, enabled, answers, 0) == [] by {
        NoResponses(feeds, kind, enabled, answers);
      }
      var value := Normalize(kind, raw);
      if value == "" {
        return None;
      }
      var key := Key(kind, value);
      var cached := CacheLookup(cache, key, got, now);
      if cached.Some? {
        return cached;
      }
      for i := 0 to |feeds|
        invariant cache == old(cache)
        invariant Verdict(Responses(feeds, kind, enabled, answers, i)) == Miss
      {
        VerdictStep(feeds, kind, enabled, answers, i);
        if feeds[i].kind != kind || !enabled[i] || answers[i].Fails? {
          continue;
        }
        if answers[i].result.Hit? {
          result := Some(answers[i].result);
          SettledEarly(feeds, kind, enabled, answers, i + 1, |feeds|);
          CacheStore(key, answers[i].result, applied, storeAt);
          return;
        }
      }
      CacheStore(key, Miss, applied, storeAt);
      result := Some(Miss);
    }

    /** Resolving a value ahead of time. */
    method Warm(kind: Kind, raw: string, got: bool, now: int, enabled: seq<bool>, answers: seq<Answer>,
                applied: bool, storeAt: int)
      requires |enabled| == |answers| == |feeds|
      modifies this`cache
      ensures var found := Verdict(Responses(feeds, kind, enabled, answers, |feeds|));
              got && applied && Normalize(kind, raw) != "" && CacheLookup(old(cache), KeyFor(kind, raw), true, now).None? ==>
                forall t :: LookupCached(cache, kind, raw, true, t) == if t < storeAt + Ttl(found) then Some(found) else None
    {
      hide Normalize, Encode, Decode, Responses, Verdict;
      DecodeUndoesEncode(Verdict(Responses(feeds, kind, enabled, answers, |feeds|)));
      var _ := Lookup(kind, raw, got, now, enabled, answers, applied, storeAt);
    }
  }

  lemma {:induction false} SettledEarly(feeds: seq<Feed>, kind: Kind, enabled: seq<bool>, answers: seq<Answer>, n: nat, m: nat)
    requires n <= m <= |feeds| == |enabled| == |answers|
    requires Verdict(Responses(feeds, kind, enabled, answers, n)).Hit?
    ensures Responses(feeds, kind, enabled, answers, m) == Responses(feeds, kind, enabled, answers, n)
  {
    if n < m {
      SettledEarly(feeds, kind, enabled, answers, n, m - 1);
    }
  }

  // ---------- a lookup as steps ----------

  /** The steps of one lookup by process `p` that the cache does not answer: ask every feed that
      is left, then store. */
  function Asks(p: nat, enabled: seq<bool>, answers: seq<Answer>, at: int, n: nat): seq<Step>
    requires n <= |enabled| == |answers|
  {
    if n == 0 then [] else Asks(p, enabled, answers, at, n - 1) + [Step(at, p, Ask(enabled[n - 1], answers[n - 1]))]
  }

  lemma {:induction false} AsksCollect(feeds: seq<Feed>, s: State, p: nat, key: Key, enabled: seq<bool>, answers: seq<Answer>,
                                       start: int, at: int, n: nat)
    requires n <= |feeds| == |enabled| == |answers|
    requires p < |s.procs| && s.procs[p] == Asking(key, [], start)
    ensures var after := Exec(feeds, s, Asks(p, enabled, answers, at, n));
            && after.cache == s.cache && |after.procs| == |s.procs| && after.procs[p].Asking? && after.procs[p].key == key
            && after.procs[p].responses == Responses(feeds, key.kind, enabled, answers, n)
    ensures Verdict(Responses(feeds, key.kind, enabled, answers, n)) == Miss ==>
              |Responses(feeds, key.kind, enabled, answers, n)| == n
  {
    if n > 0 {
      AsksCollect(feeds, s, p, key, enabled, answers, start, at, n - 1);
      var before := Asks(p, enabled, answers, at, n - 1);
      ExecLast(feeds, s, before, Step(at, p, Ask(enabled[n - 1], answers[n - 1])));
      hide Apply, Respond, Exec;
      AskStep(feeds, Exec(feeds, s, before), p, enabled[n - 1], answers[n - 1], at);
    }
  }

  /** The method's effect on the cache is that of its steps, so what holds of every run of steps
      holds of every way lookups can overlap. */
  lemma LookupIsRun(feeds: seq<Feed>, s: State, p: nat, kind: Kind, raw: string, got: bool, now: int,
                    enabled: seq<bool>, answers: seq<Answer>, at: int, applied: bool, storeAt: int)
    requires |enabled| == |answers| == |feeds|
    requires p < |s.procs| && s.procs[p] == Idle && Normalize(kind, raw) != ""
    ensures var cached := CacheLookup(s.cache, KeyFor(kind, raw), got, now);
            var found := Verdict(Responses(feeds, kind, enabled, answers, |feeds|));
            var begun := Apply(feeds, s, Step(now, p, Begin(kind, raw, got)));
            var asked := Exec(feeds, begun, Asks(p, enabled, answers, at, |feeds|));
            Apply(feeds, asked, Step(storeAt, p, Store(applied))).cache
            == if cached.None? && applied
               then s.cache[KeyFor(kind, raw) := Entry(Encode(found), storeAt, Ttl(found))]
               else s.cache
  {
    hide Normalize, Encode, Decode;
    var begun := Apply(feeds, s, Step(now, p, Begin(kind, raw, got)));
    if CacheLookup(s.cache, KeyFor(kind, raw), got, now).None? {
      AsksCollect(feeds, begun, p, KeyFor(kind, raw), enabled, answers, now, at, |feeds|);
    } else {
      IdleIgnores(feeds, s, p, enabled, answers, at, |feeds|);
    }
  }

  lemma {:induction false} IdleIgnores(feeds: seq<Feed>, s: State, p: nat, enabled: seq<bool>, answers: seq<Answer>,
                                       at: int, n: nat)
    requires n <= |enabled| == |answers|
    requires p < |s.procs| && s.procs[p] == Idle
    ensures Exec(feeds, s, Asks(p, enabled, answers, at, n)) == s
  {
    if n > 0 {
      IdleIgnores(feeds, s, p, enabled, answers, at, n - 1);
      var run := Asks(p, enabled, answers, at, n);
      assert run[..|run| - 1] == Asks(p, enabled, answers, at, n - 1);
    }
  }
}
