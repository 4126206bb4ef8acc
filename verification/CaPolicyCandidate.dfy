/** The payload of the filesystem CA policy migration: which bytes a config file is rewritten
    to. Models `_candidate` of ca_policy_migration.py. */
module CaPolicyCandidate {
  import opened PyText
  import opened PyJson

  const RULE_PREFIX := "filesystem-ca-"

  datatype Error = InvalidConfig | UnsupportedPolicy | DuplicateRuleId | RuleIdConflict | InvalidUpdate

  /** What `_candidate` takes from elsewhere: the strict JSON reader (which refuses duplicate
      keys), the JSON writer with its final newline, the part of `ProxyConfig.from_dict` that does not
      concern the shape of the policy block, and the rules of the built-in filesystem pack. */
  datatype Env = Env(
    loads: Bytes -> Option<Json>,
    dumps: Json -> Bytes,
    otherChecks: Json -> bool,
    builtinRules: seq<Json>)

  datatype Plan = Plan(bytes: Bytes, added: seq<string>)

  predicate IsRule(j: Json)
  {
    j.Obj? && "id" in j.fields && j.fields["id"].Str? && j.fields["id"].s != ""
  }

  predicate AreRules(rules: seq<Json>)
  {
    forall i :: 0 <= i < |rules| ==> IsRule(rules[i])
  }

  function RuleId(rule: Json): string
  {
    if IsRule(rule) then rule.fields["id"].s else ""
  }

  function Ids(rules: seq<Json>): (ids: seq<string>)
    ensures |ids| == |rules| && forall i :: 0 <= i < |rules| ==> ids[i] == RuleId(rules[i])
  {
    if rules == [] then [] else [RuleId(rules[0])] + Ids(rules[1..])
  }

  /** The built-in policy's rules whose id carries the CA prefix, in their order. */
  function Desired(builtin: seq<Json>): (desired: seq<Json>)
  {
    if builtin == [] then []
    else
      (if StartsWith(RuleId(builtin[0]), RULE_PREFIX) then [builtin[0]] else []) + Desired(builtin[1..])
  }

  lemma {:induction false} DesiredMembers(builtin: seq<Json>, d: Json)
    ensures d in Desired(builtin) <==> d in builtin && StartsWith(RuleId(d), RULE_PREFIX)
  {
    if builtin != [] {
      DesiredMembers(builtin[1..], d);
    }
  }

  lemma IdsConcat(a: seq<Json>, b: seq<Json>)
    ensures Ids(a + b) == Ids(a) + Ids(b)
  {
  }

  lemma IdIn(rules: seq<Json>, id: string)
    ensures id in Ids(rules) <==> exists r :: r in rules && RuleId(r) == id
  {
    if id in Ids(rules) {
      var i :| 0 <= i < |rules| && Ids(rules)[i] == id;
      assert rules[i] in rules && RuleId(rules[i]) == id;
    }
    if r :| r in rules && RuleId(r) == id {
      var i :| 0 <= i < |rules| && rules[i] == r;
      assert Ids(rules)[i] == id;
    }
  }

  lemma {:induction false} DesiredDistinct(builtin: seq<Json>)
    requires Distinct(Ids(builtin))
    ensures Distinct(Ids(Desired(builtin)))
  {
    if builtin != [] {
      DesiredDistinct(builtin[1..]);
      forall d | d in Desired(builtin[1..]) ensures d in builtin[1..] {
        DesiredMembers(builtin[1..], d);
      }
      KeptDistinct(builtin[0], builtin[1..], Desired(builtin[1..]));
    }
  }

  lemma KeptDistinct(rule: Json, rest: seq<Json>, kept: seq<Json>)
    requires RuleId(rule) !in Ids(rest) && Distinct(Ids(kept))
    requires forall r :: r in kept ==> r in rest
    ensures Distinct(Ids([rule] + kept)) && [] + kept == kept
  {
    IdIn(rest, RuleId(rule));
    IdIn(kept, RuleId(rule));
    assert ([rule] + kept)[1..] == kept;
    assert Ids([rule] + kept)[1..] == Ids(kept);
  }

  ghost predicate Sound(env: Env)
  {
    && (forall j :: env.loads(env.dumps(j)) == Some(j))
    && AreRules(env.builtinRules)
    && Distinct(Ids(env.builtinRules))
  }

  /** `data or {}` for the policy block. */
  function PolicyFields(config: Json): map<string, Json>
    requires config.Obj?
  {
    var p := Get(config.fields, "policy");
    if p.Obj? then p.fields else map[]
  }

  /** The checks of `ProxyConfig.from_dict`: those on the policy block's shape are spelled out. */
  predicate Accepts(env: Env, config: Json)
  {
    && config.Obj?
    && var p := Get(config.fields, "policy");
    && (Truthy(p) ==> p.Obj?)
    && var rules := GetOr(PolicyFields(config), "rules", Arr([]));
    && rules.Arr?
    && AreRules(rules.items)
    && env.otherChecks(config)
  }

  function Rules(config: Json): seq<Json>
    requires config.Obj?
  {
    var rules := GetOr(PolicyFields(config), "rules", Arr([]));
    if rules.Arr? then rules.items else []
  }

  function WithRules(config: Json, rules: seq<Json>): Json
    requires config.Obj?
  {
    Obj(config.fields["policy" := Obj(PolicyFields(config)["rules" := Arr(rules)])])
  }

  predicate Supported(config: Json)
    requires config.Obj?
  {
    && GetOr(PolicyFields(config), "id", Str("default")) == Str("filesystem")
    && GetOr(PolicyFields(config), "default_decision", Str("ask_backend")) == Str("ask_backend")
  }

  /** The rule's id is already taken by a different rule. */
  predicate Clashes(rules: seq<Json>, rule: Json)
  {
    exists i :: 0 <= i < |rules| && RuleId(rules[i]) == RuleId(rule) && !PyEq(rules[i], rule)
  }

  predicate Conflicts(rules: seq<Json>, desired: seq<Json>)
  {
    exists j :: 0 <= j < |desired| && Clashes(rules, desired[j])
  }

  /** The desired rules whose ids are not taken, in desired order. */
  function Missing(ids: seq<string>, desired: seq<Json>): (missing: seq<Json>)
  {
    if desired == [] then []
    else (if RuleId(desired[0]) in ids then [] else [desired[0]]) + Missing(ids, desired[1..])
  }

  function Candidate(env: Env, raw: Bytes): Result<Plan, Error>
  {
    match env.loads(raw)
    case None => Err(InvalidConfig)
    case Some(original) =>
      if !Accepts(env, original) then Err(InvalidConfig)
      else if !Supported(original) then Err(UnsupportedPolicy)
      else
        var rules, desired := Rules(original), Desired(env.builtinRules);
        if !Distinct(Ids(rules)) then Err(DuplicateRuleId)
        else if Conflicts(rules, desired) then Err(RuleIdConflict)
        else
          var missing := Missing(Ids(rules), desired);
          var updated := WithRules(original, rules + missing);
          if !Accepts(env, updated) then Err(InvalidUpdate)
          else Ok(Plan(if missing != [] then env.dumps(updated) else raw, Ids(missing)))
  }

  lemma {:induction false} MissingMembers(ids: seq<string>, desired: seq<Json>, d: Json)
    ensures d in Missing(ids, desired) <==> d in desired && RuleId(d) !in ids
  {
    if desired != [] {
      MissingMembers(ids, desired[1..], d);
    }
  }

  /** The first position of an id, as `list.index` finds it. */
  method IndexOf(ids: seq<string>, id: string) returns (k: nat)
    requires id in ids
    ensures k < |ids| && ids[k] == id && id !in ids[..k]
  {
    k := 0;
    while ids[k] != id
      invariant k < |ids| && id in ids[k..] && id !in ids[..k]
      decreases |ids| - k
    {
      k := k + 1;
    }
  }

  lemma OnlyOne(rules: seq<Json>, i: nat, k: nat)
    requires Distinct(Ids(rules))
    requires i < |rules| && k < |rules| && RuleId(rules[i]) == RuleId(rules[k])
    ensures i == k
  {
    hide Distinct, RuleId, Ids;
    if i < k {
      DistinctAt(Ids(rules), i, k);
    } else if k < i {
      DistinctAt(Ids(rules), k, i);
    }
  }

  /** With unique ids, the first rule that has the id decides whether there is a clash. */
  lemma ClashAt(rules: seq<Json>, k: nat, rule: Json)
    requires Distinct(Ids(rules))
    requires k < |rules| && RuleId(rules[k]) == RuleId(rule)
    ensures Clashes(rules, rule) <==> !PyEq(rules[k], rule)
  {
    hide Distinct, RuleId, Ids, PyEq;
    forall i | 0 <= i < |rules| && RuleId(rules[i]) == RuleId(rule) ensures i == k {
      OnlyOne(rules, i, k);
    }
  }

  lemma NoClash(rules: seq<Json>, rule: Json)
    requires RuleId(rule) !in Ids(rules)
    ensures !Clashes(rules, rule)
  {
    IdIn(rules, RuleId(rule));
  }

  /** What one turn of the loop takes from the rules still to be considered. */
  lemma MissingStep(ids: seq<string>, desired: seq<Json>, n: nat, got: seq<Json>)
    requires n < |desired|
    ensures var todo, next := Missing(ids, desired[n..]), Missing(ids, desired[n + 1..]);
            if RuleId(desired[n]) in ids then got + todo == got + next
            else got + todo == (got + [desired[n]]) + next && Ids(got + [desired[n]]) == Ids(got) + [RuleId(desired[n])]
  {
    assert desired[n..][1..] == desired[n + 1..];
    IdsConcat(got, [desired[n]]);
  }

  lemma MissingOfNone(ids: seq<string>, none: seq<Json>)
    requires none == []
    ensures Missing(ids, none) == []
  {
  }

  /** The loop of `_candidate` over the desired rules. */
  method MergeRules(rules: seq<Json>, desired: seq<Json>)
    returns (merged: seq<Json>, added: seq<string>, conflict: bool)
    requires Distinct(Ids(rules))
    ensures conflict <==> Conflicts(rules, desired)
    ensures !conflict ==> merged == rules + Missing(Ids(rules), desired)
    ensures !conflict ==> added == Ids(Missing(Ids(rules), desired))
  {
    hide Clashes, PyEq, Distinct, Missing, Ids;
    var ids := Ids(rules);
    merged, added, conflict := rules, [], false;
    ghost var got: seq<Json> := [];
    assert desired[0..] == desired;
    for n := 0 to |desired|
      invariant forall j :: 0 <= j < n ==> !Clashes(rules, desired[j])
      invariant got + Missing(ids, desired[n..]) == Missing(ids, desired)
      invariant merged == rules + got
      invariant added == Ids(got)
    {
      var rule := desired[n];
      MissingStep(ids, desired, n, got);
      if RuleId(rule) in ids {
        var k := IndexOf(ids, RuleId(rule));
        ClashAt(rules, k, rule);
        if !PyEq(merged[k], rule) {
          conflict := true;
          return;
        }
      } else {
        NoClash(rules, rule);
        merged := merged + [rule];
        added := added + [RuleId(rule)];
        got := got + [rule];
      }
    }
    MissingOfNone(ids, desired[|desired|..]);
  }

  /** `_candidate`, step by step. */
  method ComputeCandidate(env: Env, raw: Bytes) returns (r: Result<Plan, Error>)
    ensures r == Candidate(env, raw)
  {
    var parsed := env.loads(raw);
    if parsed.None? || !Accepts(env, parsed.value) {
      return Err(InvalidConfig);
    }
    var original := parsed.value;
    if !Supported(original) {
      return Err(UnsupportedPolicy);
    }
    var rules := Rules(original);
    if !Distinct(Ids(rules)) {
      return Err(DuplicateRuleId);
    }
    var merged, added, conflict := MergeRules(rules, Desired(env.builtinRules));
    if conflict {
      return Err(RuleIdConflict);
    }
    var updated := WithRules(original, merged);
    if !Accepts(env, updated) {
      return Err(InvalidUpdate);
    }
    assert added != [] <==> Missing(Ids(rules), Desired(env.builtinRules)) != [];
    return Ok(Plan(if added != [] then env.dumps(updated) else raw, added));
  }

  lemma {:induction false} MissingDistinct(ids: seq<string>, desired: seq<Json>)
    requires Distinct(Ids(desired))
    ensures Distinct(Ids(Missing(ids, desired)))
  {
    if desired != [] {
      MissingDistinct(ids, desired[1..]);
      forall d | d in Missing(ids, desired[1..]) ensures d in desired[1..] {
        MissingMembers(ids, desired[1..], d);
      }
      KeptDistinct(desired[0], desired[1..], Missing(ids, desired[1..]));
    }
  }

  lemma MergedDistinct(rules: seq<Json>, desired: seq<Json>)
    requires Distinct(Ids(rules)) && Distinct(Ids(desired))
    ensures Distinct(Ids(rules + Missing(Ids(rules), desired)))
  {
    var missing := Missing(Ids(rules), desired);
    MissingDistinct(Ids(rules), desired);
    IdsConcat(rules, missing);
    forall id | id in Ids(rules) ensures id !in Ids(missing) {
      IdIn(missing, id);
      forall d | d in missing ensures RuleId(d) != id {
        MissingMembers(Ids(rules), desired, d);
      }
    }
    DistinctConcat(Ids(rules), Ids(missing));
  }

  /** The two configs agree on everything outside the rule list. */
  ghost predicate SameOutsideRules(before: Json, after: Json)
    requires before.Obj? && after.Obj?
  {
    && after.fields - {"policy"} == before.fields - {"policy"}
    && PolicyFields(after) - {"rules"} == PolicyFields(before) - {"rules"}
  }

  lemma WithRulesFrame(config: Json, rules: seq<Json>)
    requires config.Obj?
    ensures SameOutsideRules(config, WithRules(config, rules))
    ensures Rules(WithRules(config, rules)) == rules
  {
  }

  ghost predicate Covers(rules: seq<Json>, desired: seq<Json>)
  {
    forall d :: d in desired ==> exists i :: 0 <= i < |rules| && RuleId(rules[i]) == RuleId(d) && PyEq(rules[i], d)
  }

  lemma MergedCovers(rules: seq<Json>, desired: seq<Json>)
    requires !Conflicts(rules, desired)
    ensures Covers(rules + Missing(Ids(rules), desired), desired)
  {
    var missing := Missing(Ids(rules), desired);
    var all := rules + missing;
    forall d | d in desired
      ensures exists i :: 0 <= i < |all| && RuleId(all[i]) == RuleId(d) && PyEq(all[i], d)
    {
      if RuleId(d) in Ids(rules) {
        var i :| 0 <= i < |rules| && Ids(rules)[i] == RuleId(d);
        assert !Clashes(rules, d);
        assert all[i] == rules[i] && PyEq(rules[i], d);
      } else {
        MissingMembers(Ids(rules), desired, d);
        var i :| 0 <= i < |missing| && missing[i] == d;
        assert all[|rules| + i] == d;
      }
    }
  }

  /** A rewrite keeps every rule in place, appends exactly the desired rules that were missing, in desired order,
      reports them, leaves every id unique, covers every desired rule, and touches nothing else in the config. */
  lemma CandidatePreserves(env: Env, raw: Bytes)
    requires Sound(env)
    requires Candidate(env, raw).Ok? && Candidate(env, raw).value.added != []
    ensures var plan := Candidate(env, raw).value;
            && env.loads(raw).Some? && env.loads(plan.bytes).Some?
            && var before, after := env.loads(raw).value, env.loads(plan.bytes).value;
            && before.Obj? && after.Obj?
            && SameOutsideRules(before, after)
            && Rules(before) < Rules(after)
            && AreRules(Rules(after)) && Distinct(Ids(Rules(after)))
            && Rules(after)[|Rules(before)|..] == Missing(Ids(Rules(before)), Desired(env.builtinRules))
            && plan.added == Ids(Rules(after)[|Rules(before)|..])
            && Covers(Rules(after), Desired(env.builtinRules))
  {
    var before := env.loads(raw).value;
    var rules, desired := Rules(before), Desired(env.builtinRules);
    var missing := Missing(Ids(rules), desired);
    var after := WithRules(before, rules + missing);
    assert env.loads(env.dumps(after)) == Some(after);
    WithRulesFrame(before, rules + missing);
    DesiredDistinct(env.builtinRules);
    MergedDistinct(rules, desired);
    MergedCovers(rules, desired);
    assert (rules + missing)[|rules|..] == missing;
  }

  /** Migrating what a migration wrote adds nothing and returns the same bytes. */
  lemma CandidateIdempotent(env: Env, raw: Bytes)
    requires Sound(env)
    requires Candidate(env, raw).Ok?
    ensures var plan := Candidate(env, raw).value;
            Candidate(env, plan.bytes) == Ok(Plan(plan.bytes, []))
    ensures Candidate(env, raw).value.added != [] ==> Candidate(env, raw).value.bytes != raw
  {
    var plan := Candidate(env, raw).value;
    if plan.added != [] {
      var before := env.loads(raw).value;
      var rules, desired := Rules(before), Desired(env.builtinRules);
      var missing := Missing(Ids(rules), desired);
      var all := rules + missing;
      var after := WithRules(before, all);
      assert env.loads(plan.bytes) == Some(after);
      assert Rules(after) == all;
      WithRulesTwice(before, all);
      DesiredDistinct(env.builtinRules);
      MergedDistinct(rules, desired);
      NoConflictAfter(rules, desired);
      NothingMissing(Ids(all), desired);
      assert Missing(Ids(all), desired) == [];
      assert all + [] == all;
      assert |Rules(after)| > |rules|;
    }
  }

  lemma WithRulesTwice(config: Json, rules: seq<Json>)
    requires config.Obj?
    ensures WithRules(WithRules(config, rules), rules) == WithRules(config, rules)
  {
    var once := WithRules(config, rules);
    assert PolicyFields(once)["rules" := Arr(rules)] == PolicyFields(once);
    assert once.fields["policy" := Obj(PolicyFields(once))] == once.fields;
  }

  lemma NoConflictAfter(rules: seq<Json>, desired: seq<Json>)
    requires Distinct(Ids(rules)) && Distinct(Ids(desired))
    requires !Conflicts(rules, desired)
    ensures !Conflicts(rules + Missing(Ids(rules), desired), desired)
    ensures forall d :: d in desired ==> RuleId(d) in Ids(rules + Missing(Ids(rules), desired))
  {
    var all := rules + Missing(Ids(rules), desired);
    MergedDistinct(rules, desired);
    MergedCovers(rules, desired);
    forall d | d in desired ensures !Clashes(all, d) && RuleId(d) in Ids(all) {
      var i :| 0 <= i < |all| && RuleId(all[i]) == RuleId(d) && PyEq(all[i], d);
      ClashAt(all, i, d);
      assert Ids(all)[i] == RuleId(d);
    }
  }

  lemma {:induction false} NothingMissing(ids: seq<string>, desired: seq<Json>)
    requires forall d :: d in desired ==> RuleId(d) in ids
    ensures Missing(ids, desired) == []
  {
    if desired != [] {
      NothingMissing(ids, desired[1..]);
    }
  }
}
