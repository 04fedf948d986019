/** Sender allow and block rules: how decisions are recorded and how a message is looked up. */
module SenderLists {
  import opened Text
  import opened Wrappers

  datatype Scope = System | Org | Domain | User

  datatype Kind = EmailRule | DomainRule | IpRule

  datatype Action = Allow | Block

  /** A row of the rule table; patterns are stored in lower case. */
  datatype Rule = Rule(org: Option<nat>, domain: Option<nat>, user: Option<nat>, scope: Scope, kind: Kind,
                       pattern: string, action: Action, created: int)

  /** The recipient of a lookup; `user` is the account with the recipient's address, if any. */
  datatype Recipient = Recipient(org: nat, domain: Option<nat>, user: Option<nat>)

  // ---------- visibility ----------

  predicate ForOrgAndUser(r: Rule, who: Recipient) {
    && (r.org.None? || r.org == Some(who.org))
    && (r.user.None? || r.user == who.user)
  }

  predicate AddressVisible(r: Rule, who: Recipient) {
    && ForOrgAndUser(r, who)
    && r.kind in {EmailRule, DomainRule}
    && (r.org.None? || r.domain.None? || r.domain == who.domain)
  }

  predicate IpVisible(r: Rule, who: Recipient) {
    && ForOrgAndUser(r, who)
    && r.kind == IpRule && r.action == Block
    && (r.domain.None? || r.domain == who.domain)
  }

  // ---------- the two queries ----------

  /** The order of the address query: blocks first, then the narrower rule, then the more
      specific pattern, then the newer row. */
  function Tier(r: Rule, who: Recipient): nat {
    if r.user.Some? then 0
    else if r.domain.Some? && r.domain == who.domain then 1
    else if r.org.Some? then 2
    else if r.domain.Some? then 3
    else 4
  }

  function Position(patterns: seq<string>, pattern: string): nat {
    if patterns == [] || patterns[0] == pattern then 0 else 1 + Position(patterns[1..], pattern)
  }

  predicate Precedes(a: Rule, b: Rule, who: Recipient, patterns: seq<string>) {
    if a.action != b.action then a.action == Block
    else if Tier(a, who) != Tier(b, who) then Tier(a, who) < Tier(b, who)
    else if Position(patterns, a.pattern) != Position(patterns, b.pattern) then
      Position(patterns, a.pattern) < Position(patterns, b.pattern)
    else a.created > b.created
  }

  predicate AddressMatch(r: Rule, who: Recipient, patterns: seq<string>) {
    AddressVisible(r, who) && r.pattern in patterns
  }

  /** The first row of the address query. */
  function FirstAddressRule(rules: seq<Rule>, who: Recipient, patterns: seq<string>): Option<Rule> {
    if rules == [] then None
    else
      var best := FirstAddressRule(rules[..|rules| - 1], who, patterns);
      var last := rules[|rules| - 1];
      if AddressMatch(last, who, patterns) && (best.None? || Precedes(last, best.value, who, patterns)) then Some(last) else best
  }

  function FirstIpRule(rules: seq<Rule>, who: Recipient, ipMatch: Rule -> bool): Option<Rule> {
    if rules == [] then None
    else if IpVisible(rules[0], who) && ipMatch(rules[0]) then Some(rules[0])
    else FirstIpRule(rules[1..], who, ipMatch)
  }

  // ---------- the declarative match ----------

  predicate AddressHit(rules: seq<Rule>, who: Recipient, patterns: seq<string>, action: Action) {
    exists i :: 0 <= i < |rules| && AddressMatch(rules[i], who, patterns) && rules[i].action == action
  }

  predicate IpHit(rules: seq<Rule>, who: Recipient, ipMatch: Rule -> bool) {
    exists i :: 0 <= i < |rules| && IpVisible(rules[i], who) && ipMatch(rules[i])
  }

  predicate AnyAddressHit(rules: seq<Rule>, who: Recipient, addresses: seq<string>, patternsOf: string -> seq<string>,
                          action: Action) {
    exists a :: a in addresses && AddressHit(rules, who, patternsOf(a), action)
  }

  /** Block when some visible block rule matches the client address or any sender address;
      otherwise allow when some visible allow rule matches a sender address. */
  function Declared(rules: seq<Rule>, who: Recipient, clientIp: bool, ipMatch: Rule -> bool,
                    addresses: seq<string>, patternsOf: string -> seq<string>): Option<Action> {
    if (clientIp && IpHit(rules, who, ipMatch)) || AnyAddressHit(rules, who, addresses, patternsOf, Block) then Some(Block)
    else if AnyAddressHit(rules, who, addresses, patternsOf, Allow) then Some(Allow)
    else None
  }

  /** The address query answers block before allow, whatever the order of the rows. */
  lemma {:induction false} FirstAddressRuleDecides(rules: seq<Rule>, who: Recipient, patterns: seq<string>)
    ensures var best := FirstAddressRule(rules, who, patterns);
            && (best.None? <==> !AddressHit(rules, who, patterns, Block) && !AddressHit(rules, who, patterns, Allow))
            && (best.Some? ==> (best.value.action == Block <==> AddressHit(rules, who, patterns, Block)))
            && (best.Some? && best.value.action == Allow ==> AddressHit(rules, who, patterns, Allow))
    decreases |rules|
  {
    if rules != [] {
      var rest, last := rules[..|rules| - 1], rules[|rules| - 1];
      FirstAddressRuleDecides(rest, who, patterns);
      HitSnoc(rest, last, who, patterns, Block);
      HitSnoc(rest, last, who, patterns, Allow);
      assert rules == rest + [last];
    }
  }

  lemma PrecedesIsWeakOrder(a: Rule, b: Rule, c: Rule, who: Recipient, patterns: seq<string>)
    ensures !Precedes(a, a, who, patterns)
    ensures Precedes(a, b, who, patterns) && !Precedes(c, b, who, patterns) ==> !Precedes(c, a, who, patterns)
  {
  }

  /** The row that answers, and with it the reported scope, is a first one in the query's order. */
  lemma {:induction false} FirstAddressRuleIsFirst(rules: seq<Rule>, who: Recipient, patterns: seq<string>)
    ensures var best := FirstAddressRule(rules, who, patterns);
            best.Some? ==>
              && best.value in rules && AddressMatch(best.value, who, patterns)
              && forall r :: r in rules && AddressMatch(r, who, patterns) ==> !Precedes(r, best.value, who, patterns)
    decreases |rules|
  {
    if rules != [] {
      var rest, last := rules[..|rules| - 1], rules[|rules| - 1];
      FirstAddressRuleIsFirst(rest, who, patterns);
      FirstAddressRuleDecides(rest, who, patterns);
      assert rules == rest + [last];
      var best, before := FirstAddressRule(rules, who, patterns), FirstAddressRule(rest, who, patterns);
      if best.Some? {
        forall r | r in rules && AddressMatch(r, who, patterns) ensures !Precedes(r, best.value, who, patterns) {
          if r in rest {
            assert AddressHit(rest, who, patterns, r.action);
            PrecedesIsWeakOrder(best.value, before.value, r, who, patterns);
          } else {
            PrecedesIsWeakOrder(r, r, r, who, patterns);
          }
        }
      }
    }
  }

  lemma HitSnoc(rest: seq<Rule>, last: Rule, who: Recipient, patterns: seq<string>, action: Action)
    ensures AddressHit(rest + [last], who, patterns, action) <==>
            AddressHit(rest, who, patterns, action) || (AddressMatch(last, who, patterns) && last.action == action)
  {
    var all := rest + [last];
    if AddressHit(rest, who, patterns, action) {
      var i :| 0 <= i < |rest| && AddressMatch(rest[i], who, patterns) && rest[i].action == action;
      assert all[i] == rest[i];
    }
    assert all[|rest|] == last;
  }

  lemma {:induction false} FirstIpRuleDecides(rules: seq<Rule>, who: Recipient, ipMatch: Rule -> bool)
    ensures FirstIpRule(rules, who, ipMatch).Some? <==> IpHit(rules, who, ipMatch)
    ensures FirstIpRule(rules, who, ipMatch).Some? ==> FirstIpRule(rules, who, ipMatch).value.action == Block
  {
    if rules != [] && !(IpVisible(rules[0], who) && ipMatch(rules[0])) {
      FirstIpRuleDecides(rules[1..], who, ipMatch);
      if IpHit(rules, who, ipMatch) {
        var i :| 0 <= i < |rules| && IpVisible(rules[i], who) && ipMatch(rules[i]);
        assert rules[1..][i - 1] == rules[i];
      }
    }
  }

  function Flatten(values: seq<string>, parseList: string -> seq<string>): seq<string> {
    if values == [] then [] else Flatten(values[..|values| - 1], parseList) + parseList(values[|values| - 1])
  }

  /** The addresses of the From and Reply-To values, each once. */
  method LookupAddresses(values: seq<string>, parseList: string -> seq<string>) returns (out: seq<string>)
    ensures out == UniqueLower(Flatten(values, parseList))
  {
    var parsed: seq<string> := [];
    for k := 0 to |values|
      invariant parsed == Flatten(values[..k], parseList)
    {
      assert values[..k + 1][..k] == values[..k];
      parsed := parsed + parseList(values[k]);
    }
    assert values[..|values|] == values;
    out := UniqueLowerStrings(parsed);
  }

  /** The rule table and the code that writes and reads it. */
  class SenderRules {
    var rules: seq<Rule>

    constructor ()
      ensures rules == []
    {
      rules := [];
    }

    /** The lookup of the handler, over the client address and then each sender address, agrees
        with the declarative match. */
    method LookupWithIp(who: Recipient, clientIp: bool, ipMatch: Rule -> bool, values: seq<string>,
                        parseList: string -> seq<string>, patternsOf: string -> seq<string>)
      returns (action: Option<Action>)
      ensures action == Declared(rules, who, clientIp, ipMatch, UniqueLower(Flatten(values, parseList)), patternsOf)
    {
      if clientIp {
        FirstIpRuleDecides(rules, who, ipMatch);
        var byIp := FirstIpRule(rules, who, ipMatch);
        if byIp.Some? && byIp.value.action == Block {
          return Some(Block);
        }
      }
      var addresses := LookupAddresses(values, parseList);
      var allowed := false;
      for k := 0 to |addresses|
        invariant forall i :: 0 <= i < k ==> !AddressHit(rules, who, patternsOf(addresses[i]), Block)
        invariant allowed <==> exists i :: 0 <= i < k && AddressHit(rules, who, patternsOf(addresses[i]), Allow)
      {
        FirstAddressRuleDecides(rules, who, patternsOf(addresses[k]));
        var best := FirstAddressRule(rules, who, patternsOf(addresses[k]));
        if best.Some? && best.value.action == Block {
          assert addresses[k] in addresses;
          return Some(Block);
        }
        if best.Some? && best.value.action == Allow {
          allowed := true;
        }
      }
      if allowed {
        var i :| 0 <= i < |addresses| && AddressHit(rules, who, patternsOf(addresses[i]), Allow);
        assert addresses[i] in addresses;
        return Some(Allow);
      }
      action := None;
    }

    /** Records an administrator's decision; `pattern` is the normalized value, if it is valid,
        and `isProtected` tells whether it names a configured protected domain. */
    method UpsertDecision(org: Option<nat>, domain: Option<nat>, user: Option<nat>, scope: Scope, kind: Kind,
                          action: Action, pattern: Option<string>, isProtected: bool, now: int)
      returns (ok: bool)
      modifies this
      ensures ok <==>
                && (kind == IpRule ==> action == Block)
                && (scope != System ==> org.Some?)
                && (scope == Domain ==> domain.Some?)
                && (scope == User ==> user.Some?)
                && pattern.Some?
                && !(action == Block && kind == DomainRule && isProtected)
      ensures !ok ==> rules == old(rules)
      ensures ok ==>
                rules == Replace(old(rules),
                                 Rule(if scope == System then None else org, if scope == Domain then domain else None,
                                      if scope == User then user else None, scope, kind, pattern.value, action, now))
    {
      if (kind == IpRule && action != Block) || (scope != System && org.None?)
         || (scope == Domain && domain.None?) || (scope == User && user.None?) || pattern.None? {
        return false;
      }
      if action == Block && kind == DomainRule && isProtected {
        return false;
      }
      var rule := Rule(if scope == System then None else org, if scope == Domain then domain else None,
                       if scope == User then user else None, scope, kind, pattern.value, action, now);
      rules := Without(rules, KeyOf(rule));
      rules := rules + [rule];
      ok := true;
    }

    /** Records a recipient's own decision about a sender address. */
    method UpsertUserDecision(org: nat, domain: Option<nat>, user: nat, known: bool, sender: string,
                              action: Action, now: int)
      returns (ok: bool)
      modifies this
      ensures ok <==> sender != "" && known
      ensures rules == if ok
                       then Replace(old(rules), Rule(Some(org), domain, Some(user), User, EmailRule, sender, action, now))
                       else old(rules)
    {
      if sender == "" || !known {
        return false;
      }
      var rule := Rule(Some(org), domain, Some(user), User, EmailRule, sender, action, now);
      rules := Without(rules, KeyOf(rule));
      rules := rules + [rule];
      ok := true;
    }
  }

  // ---------- one row per key ----------

  datatype Key = Key(org: Option<nat>, domain: Option<nat>, user: Option<nat>, scope: Scope, kind: Kind, pattern: string)

  function KeyOf(r: Rule): Key {
    Key(r.org, r.domain, r.user, r.scope, r.kind, r.pattern)
  }

  function Without(rules: seq<Rule>, key: Key): seq<Rule> {
    if rules == [] then []
    else (if KeyOf(rules[0]) == key then [] else [rules[0]]) + Without(rules[1..], key)
  }

  /** Delete the rows with the key of the new rule, then insert it. */
  function Replace(rules: seq<Rule>, rule: Rule): seq<Rule> {
    Without(rules, KeyOf(rule)) + [rule]
  }

  predicate UniqueKeys(rules: seq<Rule>) {
    forall i, j :: 0 <= i < j < |rules| ==> KeyOf(rules[i]) != KeyOf(rules[j])
  }

  lemma {:induction false} WithoutKeeps(rules: seq<Rule>, key: Key)
    ensures forall r :: r in Without(rules, key) <==> r in rules && KeyOf(r) != key
    ensures UniqueKeys(rules) ==> UniqueKeys(Without(rules, key))
  {
    if rules != [] {
      WithoutKeeps(rules[1..], key);
      var rest := Without(rules[1..], key);
      if UniqueKeys(rules) {
        forall i | 0 <= i < |rest| ensures KeyOf(rest[i]) != KeyOf(rules[0]) {
          assert rest[i] in rest;
          var j :| 0 <= j < |rules[1..]| && rules[1..][j] == rest[i];
          assert rules[j + 1] == rest[i];
        }
      }
      assert forall r :: r in rules <==> r == rules[0] || r in rules[1..];
    }
  }

  /** A recorded decision leaves exactly one row with its key, namely itself, touches no row
      with another key, and keeps a table with unique keys that way. */
  lemma ReplaceIsLastWrite(rules: seq<Rule>, rule: Rule)
    ensures var after := Replace(rules, rule);
            && (forall r :: r in after && KeyOf(r) == KeyOf(rule) <==> r == rule)
            && (forall r :: KeyOf(r) != KeyOf(rule) ==> (r in after <==> r in rules))
            && (UniqueKeys(rules) ==> UniqueKeys(after))
            && after[|after| - 1] == rule && rule !in after[..|after| - 1]
  {
    WithoutKeeps(rules, KeyOf(rule));
    var kept := Without(rules, KeyOf(rule));
    var after := Replace(rules, rule);
    assert after[..|after| - 1] == kept;
    assert forall r :: r in after <==> r in kept || r == rule;
    forall i | 0 <= i < |kept| ensures KeyOf(kept[i]) != KeyOf(rule) {
      assert kept[i] in kept;
    }
  }

  /** A decision takes effect at once: mail whose sender it matches is blocked after a block,
      and after an allow it is allowed unless another visible rule or the client address blocks it. */
  lemma DecisionTakesEffect(rules: seq<Rule>, rule: Rule, who: Recipient, clientIp: bool, ipMatch: Rule -> bool,
                            addresses: seq<string>, patternsOf: string -> seq<string>, sender: string)
    requires sender in addresses && AddressMatch(rule, who, patternsOf(sender))
    ensures var after := Replace(rules, rule);
            var answer := Declared(after, who, clientIp, ipMatch, addresses, patternsOf);
            && (rule.action == Block ==> answer == Some(Block))
            && (rule.action == Allow ==>
                  (answer == Some(Allow) <==>
                   !(clientIp && IpHit(rules, who, ipMatch))
                   && forall r, a :: r in rules && KeyOf(r) != KeyOf(rule) && r.action == Block && a in addresses ==>
                        !AddressMatch(r, who, patternsOf(a))))
  {
    var after := Replace(rules, rule);
    ReplaceIsLastWrite(rules, rule);
    assert AddressHit(after, who, patternsOf(sender), rule.action) by {
      assert after[|after| - 1] == rule;
    }
    if rule.action == Allow {
      forall a | a in addresses
        ensures AddressHit(after, who, patternsOf(a), Block) <==>
                exists r :: r in rules && KeyOf(r) != KeyOf(rule) && r.action == Block && AddressMatch(r, who, patternsOf(a))
      {
        HitIsMember(after, who, patternsOf(a), Block);
      }
      IpHitIsMember(after, who, ipMatch);
      IpHitIsMember(rules, who, ipMatch);
      assert rule.kind != IpRule;
    }
  }

  lemma HitIsMember(rules: seq<Rule>, who: Recipient, patterns: seq<string>, action: Action)
    ensures AddressHit(rules, who, patterns, action) <==>
            exists r :: r in rules && AddressMatch(r, who, patterns) && r.action == action
  {
    if AddressHit(rules, who, patterns, action) {
      var i :| 0 <= i < |rules| && AddressMatch(rules[i], who, patterns) && rules[i].action == action;
      assert rules[i] in rules;
    }
  }

  lemma IpHitIsMember(rules: seq<Rule>, who: Recipient, ipMatch: Rule -> bool)
    ensures IpHit(rules, who, ipMatch) <==> exists r :: r in rules && IpVisible(r, who) && ipMatch(r)
  {
    if IpHit(rules, who, ipMatch) {
      var i :| 0 <= i < |rules| && IpVisible(rules[i], who) && ipMatch(rules[i]);
      assert rules[i] in rules;
    }
  }

  // ---------- overlapping writers ----------

  /** A writer deletes the rows with its key and then inserts its row; nothing ties the two together. */
  datatype Statement = DeleteKey(key: Key) | InsertRow(rule: Rule)

  function Execute(rules: seq<Rule>, statements: seq<Statement>): seq<Rule> {
    if statements == [] then rules
    else
      var before := Execute(rules, statements[..|statements| - 1]);
      match statements[|statements| - 1]
      case DeleteKey(key) => Without(before, key)
      case InsertRow(rule) => before + [rule]
  }

  function WithKey(rules: seq<Rule>, key: Key): seq<Rule> {
    if rules == [] then [] else (if KeyOf(rules[0]) == key then [rules[0]] else []) + WithKey(rules[1..], key)
  }

  /** The rows written with the key since its last delete. */
  function Surviving(rules: seq<Rule>, statements: seq<Statement>, key: Key): seq<Rule> {
    if statements == [] then WithKey(rules, key)
    else
      var before := Surviving(rules, statements[..|statements| - 1], key);
      match statements[|statements| - 1]
      case DeleteKey(k) => if k == key then [] else before
      case InsertRow(rule) => if KeyOf(rule) == key then before + [rule] else before
  }

  lemma {:induction false} WithKeySnoc(rules: seq<Rule>, rule: Rule, key: Key)
    ensures WithKey(rules + [rule], key) == WithKey(rules, key) + if KeyOf(rule) == key then [rule] else []
  {
    if rules == [] {
      assert [] + [rule] == [rule] && [rule][1..] == [];
    } else {
      assert (rules + [rule])[1..] == rules[1..] + [rule];
      WithKeySnoc(rules[1..], rule, key);
    }
  }

  lemma {:induction false} WithoutThenWith(rules: seq<Rule>, removed: Key, key: Key)
    ensures WithKey(Without(rules, removed), key) == if removed == key then [] else WithKey(rules, key)
  {
    if rules != [] {
      WithoutThenWith(rules[1..], removed, key);
      var rest := Without(rules[1..], removed);
      if KeyOf(rules[0]) == removed {
        assert Without(rules, removed) == rest;
      } else {
        assert Without(rules, removed) == [rules[0]] + rest;
        assert ([rules[0]] + rest)[1..] == rest;
      }
    }
  }

  /** However the statements of any number of writers interleave, the rows with a key are those
      inserted since its last delete: the key is unique exactly when at most one insert stands. */
  lemma {:induction false} InterleavedRows(rules: seq<Rule>, statements: seq<Statement>, key: Key)
    ensures WithKey(Execute(rules, statements), key) == Surviving(rules, statements, key)
    decreases |statements|
  {
    if statements != [] {
      var before, last := statements[..|statements| - 1], statements[|statements| - 1];
      InterleavedRows(rules, before, key);
      match last
      case DeleteKey(k) => WithoutThenWith(Execute(rules, before), k, key);
      case InsertRow(rule) =>
        WithKeySnoc(Execute(rules, before), rule, key);
    }
  }

  /** One writer alone is a replacement. */
  lemma AloneIsReplace(rules: seq<Rule>, rule: Rule)
    ensures Execute(rules, [DeleteKey(KeyOf(rule)), InsertRow(rule)]) == Replace(rules, rule)
  {
    var both := [DeleteKey(KeyOf(rule)), InsertRow(rule)];
    assert both[..1] == [DeleteKey(KeyOf(rule))] && both[..1][..0] == [];
    assert Execute(rules, both[..1]) == Without(Execute(rules, both[..1][..0]), KeyOf(rule));
    assert Execute(rules, both) == Execute(rules, both[..1]) + [rule];
  }

  /** The statements of writers that follow each other. */
  function InTurn(written: seq<Rule>): seq<Statement> {
    if written == [] then []
    else
      var last := written[|written| - 1];
      InTurn(written[..|written| - 1]) + [DeleteKey(KeyOf(last)), InsertRow(last)]
  }

  lemma {:induction false} ExecuteConcat(rules: seq<Rule>, a: seq<Statement>, b: seq<Statement>)
    ensures Execute(rules, a + b) == Execute(Execute(rules, a), b)
    decreases |b|
  {
    if b == [] {
      assert a + b == a;
    } else {
      assert (a + b)[..|a + b| - 1] == a + b[..|b| - 1];
      ExecuteConcat(rules, a, b[..|b| - 1]);
    }
  }

  /** Writers that follow each other keep the keys unique. */
  lemma {:induction false} InTurnKeepsUnique(rules: seq<Rule>, written: seq<Rule>)
    requires UniqueKeys(rules)
    ensures UniqueKeys(Execute(rules, InTurn(written)))
    decreases |written|
  {
    if written != [] {
      var before, last := InTurn(written[..|written| - 1]), written[|written| - 1];
      InTurnKeepsUnique(rules, written[..|written| - 1]);
      ExecuteConcat(rules, before, [DeleteKey(KeyOf(last)), InsertRow(last)]);
      AloneIsReplace(Execute(rules, before), last);
      ReplaceIsLastWrite(Execute(rules, before), last);
    }
  }

  lemma {:induction false} WithKeyMembers(rules: seq<Rule>, key: Key)
    ensures (exists i :: 0 <= i < |rules| && KeyOf(rules[i]) == key) <==> WithKey(rules, key) != []
  {
    if rules != [] {
      WithKeyMembers(rules[1..], key);
      if i :| 0 <= i < |rules| && KeyOf(rules[i]) == key && i > 0 {
        assert rules[1..][i - 1] == rules[i];
      }
    }
  }

  predicate HasOnce(rules: seq<Rule>, key: Key) {
    |WithKey(rules, key)| <= 1
  }

  lemma {:induction false} UniqueKeysCount(rules: seq<Rule>)
    ensures UniqueKeys(rules) <==> forall key :: HasOnce(rules, key)
  {
    if rules != [] {
      var first, rest := KeyOf(rules[0]), rules[1..];
      UniqueKeysCount(rest);
      WithKeyMembers(rest, first);
      UniqueKeysFirst(rules);
      assert |WithKey(rules, first)| == 1 + |WithKey(rest, first)|;
      assert forall key :: key != first ==> WithKey(rules, key) == WithKey(rest, key);
      if UniqueKeys(rules) {
        assert forall key :: HasOnce(rest, key) ==> HasOnce(rules, key);
      } else if forall key :: HasOnce(rules, key) {
        assert HasOnce(rules, first);
        assert forall key :: HasOnce(rules, key) ==> HasOnce(rest, key);
      }
    }
  }

  lemma UniqueKeysFirst(rules: seq<Rule>)
    requires rules != []
    ensures UniqueKeys(rules) <==>
            UniqueKeys(rules[1..]) && !exists i :: 0 <= i < |rules[1..]| && KeyOf(rules[1..][i]) == KeyOf(rules[0])
  {
    var rest := rules[1..];
    assert forall i :: 0 < i < |rules| ==> rules[i] == rest[i - 1];
    assert forall i :: 0 <= i < |rest| ==> rest[i] == rules[i + 1];
  }

  /** At most one row was written with the key since its last delete. */
  predicate InsertsOnce(rules: seq<Rule>, statements: seq<Statement>, key: Key) {
    |Surviving(rules, statements, key)| <= 1
  }

  /** Exactly when overlapping writers leave every key unique. */
  lemma KeysUniqueExactly(rules: seq<Rule>, statements: seq<Statement>)
    ensures UniqueKeys(Execute(rules, statements)) <==> forall key :: InsertsOnce(rules, statements, key)
  {
    var after := Execute(rules, statements);
    UniqueKeysCount(after);
    forall key ensures HasOnce(after, key) <==> InsertsOnce(rules, statements, key) {
      InterleavedRows(rules, statements, key);
    }
  }

  /** Two writers that both delete before either inserts leave two rows with one key, which may even
      disagree on the action. */
  lemma OverlapLeavesTwoRows(rules: seq<Rule>, a: Rule, b: Rule)
    requires KeyOf(a) == KeyOf(b)
    ensures WithKey(Execute(rules, [DeleteKey(KeyOf(a)), DeleteKey(KeyOf(b)), InsertRow(a), InsertRow(b)]), KeyOf(a)) == [a, b]
  {
    var all := [DeleteKey(KeyOf(a)), DeleteKey(KeyOf(b)), InsertRow(a), InsertRow(b)];
    InterleavedRows(rules, all, KeyOf(a));
    assert all[..3] == [DeleteKey(KeyOf(a)), DeleteKey(KeyOf(b)), InsertRow(a)];
    assert all[..3][..2] == [DeleteKey(KeyOf(a)), DeleteKey(KeyOf(b))];
    assert Surviving(rules, all[..3][..2], KeyOf(a)) == [];
    assert Surviving(rules, all[..3], KeyOf(a)) == [a];
  }
}
