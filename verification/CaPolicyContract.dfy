/** The contract of `_candidate`, read off the JSON alone: when there is a candidate, when it is refused and why, and
    which bytes it is. Stated with literal names and without the functions that compute it. About
    ca_policy_migration.py, lines 34 to 60. */
module CaPolicyContract {
  import opened PyText
  import opened PyJson
  import opened CaPolicyCandidate

  /** The policy block; `data or {}` makes a missing or falsy one empty. */
  function Policy(config: map<string, Json>): map<string, Json>
  {
    if "policy" in config && config["policy"].Obj? then config["policy"].fields else map[]
  }

  predicate HasId(rule: Json)
  {
    rule.Obj? && "id" in rule.fields && rule.fields["id"].Str? && |rule.fields["id"].s| > 0
  }

  function IdOf(rule: Json): string
  {
    if HasId(rule) then rule.fields["id"].s else ""
  }

  function RulesIn(config: map<string, Json>): seq<Json>
  {
    if "rules" in Policy(config) && Policy(config)["rules"].Arr? then Policy(config)["rules"].items else []
  }

  /** What the config has to look like, apart from the checks that are not about the policy block. */
  predicate WellFormed(j: Json)
  {
    && j.Obj?
    && ("policy" in j.fields ==> j.fields["policy"].Obj? || !Truthy(j.fields["policy"]))
    && ("rules" in Policy(j.fields) ==> Policy(j.fields)["rules"].Arr?)
    && forall i :: 0 <= i < |RulesIn(j.fields)| ==> HasId(RulesIn(j.fields)[i])
  }

  predicate BuiltinsAreRules(env: Env)
  {
    forall i :: 0 <= i < |env.builtinRules| ==> HasId(env.builtinRules[i])
  }

  predicate IsFilesystemPolicy(policy: map<string, Json>)
  {
    && "id" in policy && policy["id"] == Str("filesystem")
    && ("default_decision" in policy ==> policy["default_decision"] == Str("ask_backend"))
  }

  predicate IdRepeated(rules: seq<Json>)
  {
    exists i, j :: 0 <= i < j < |rules| && IdOf(rules[i]) == IdOf(rules[j])
  }

  predicate IsCaRule(rule: Json)
  {
    StartsWith(IdOf(rule), "filesystem-ca-")
  }

  /** A CA rule's id belongs to a rule that is not equal to it. */
  predicate IdTaken(rules: seq<Json>, builtin: seq<Json>)
  {
    exists i, k ::
      && 0 <= i < |rules| && 0 <= k < |builtin| && IsCaRule(builtin[k])
      && IdOf(rules[i]) == IdOf(builtin[k]) && !PyEq(rules[i], builtin[k])
  }

  predicate HasRuleWithId(rules: seq<Json>, id: string)
  {
    exists i :: 0 <= i < |rules| && IdOf(rules[i]) == id
  }

  /** The CA rules of the pack that the config lacks, in the pack's order. */
  function Additions(rules: seq<Json>, builtin: seq<Json>): seq<Json>
  {
    if builtin == [] then []
    else
      var last := builtin[|builtin| - 1];
      Additions(rules, builtin[..|builtin| - 1])
      + (if IsCaRule(last) && !HasRuleWithId(rules, IdOf(last)) then [last] else [])
  }

  function WithAdditions(config: map<string, Json>, builtin: seq<Json>): Json
  {
    var rules := RulesIn(config);
    Obj(config["policy" := Obj(Policy(config)["rules" := Arr(rules + Additions(rules, builtin))])])
  }

  lemma SameIds(rule: Json)
    ensures IsRule(rule) == HasId(rule) && RuleId(rule) == IdOf(rule)
  {
  }

  lemma SameShape(env: Env, j: Json)
    ensures Accepts(env, j) <==> WellFormed(j) && env.otherChecks(j)
    ensures j.Obj? ==> Rules(j) == RulesIn(j.fields) && (Supported(j) <==> IsFilesystemPolicy(Policy(j.fields)))
  {
    hide Truthy, AreRules, HasId;
    if j.Obj? {
      SamePolicy(j.fields);
      var policy := Policy(j.fields);
      assert PolicyFields(j) == policy;
      SameRules(RulesIn(j.fields));
      if "rules" in policy {
        assert GetOr(policy, "rules", Arr([])) == policy["rules"];
      } else {
        assert GetOr(policy, "rules", Arr([])) == Arr([]) && RulesIn(j.fields) == [];
      }
    }
  }

  lemma SameRules(rules: seq<Json>)
    ensures AreRules(rules) <==> forall i :: 0 <= i < |rules| ==> HasId(rules[i])
  {
    forall i | 0 <= i < |rules| ensures IsRule(rules[i]) == HasId(rules[i]) {
      SameIds(rules[i]);
    }
  }

  lemma SamePolicy(config: map<string, Json>)
    ensures PolicyFields(Obj(config)) == Policy(config)
    ensures (Truthy(Get(config, "policy")) ==> Get(config, "policy").Obj?)
        <==> ("policy" in config ==> config["policy"].Obj? || !Truthy(config["policy"]))
  {
  }

  lemma {:induction false} NotDistinct(xs: seq<string>)
    ensures Distinct(xs) <==> forall i, j :: 0 <= i < j < |xs| ==> xs[i] != xs[j]
  {
    if xs != [] {
      NotDistinct(xs[1..]);
      if Distinct(xs) {
        forall i, j | 0 <= i < j < |xs| ensures xs[i] != xs[j] {
          DistinctAt(xs, i, j);
        }
      } else if xs[0] in xs[1..] {
        var j :| 0 <= j < |xs[1..]| && xs[1..][j] == xs[0];
        assert xs[0] == xs[j + 1];
      } else {
        var i, j :| 0 <= i < j < |xs[1..]| && xs[1..][i] == xs[1..][j];
        assert xs[i + 1] == xs[j + 1];
      }
    }
  }

  lemma SameRepetition(rules: seq<Json>)
    ensures Distinct(Ids(rules)) <==> !IdRepeated(rules)
  {
    NotDistinct(Ids(rules));
    forall i | 0 <= i < |rules| ensures Ids(rules)[i] == IdOf(rules[i]) {
      SameIds(rules[i]);
    }
    hide Distinct, RuleId, IdOf;
  }

  lemma SameConflict(rules: seq<Json>, builtin: seq<Json>)
    ensures Conflicts(rules, Desired(builtin)) <==> IdTaken(rules, builtin)
  {
    hide PyEq, RuleId, IdOf, StartsWith;
    var desired := Desired(builtin);
    if Conflicts(rules, desired) {
      var j :| 0 <= j < |desired| && Clashes(rules, desired[j]);
      var i :| 0 <= i < |rules| && RuleId(rules[i]) == RuleId(desired[j]) && !PyEq(rules[i], desired[j]);
      DesiredMembers(builtin, desired[j]);
      var k :| 0 <= k < |builtin| && builtin[k] == desired[j];
      SameIds(rules[i]);
      SameIds(builtin[k]);
      assert IsCaRule(builtin[k]);
    }
    if IdTaken(rules, builtin) {
      var i, k :| 0 <= i < |rules| && 0 <= k < |builtin| && IsCaRule(builtin[k])
                  && IdOf(rules[i]) == IdOf(builtin[k]) && !PyEq(rules[i], builtin[k]);
      SameIds(rules[i]);
      SameIds(builtin[k]);
      DesiredMembers(builtin, builtin[k]);
      var j :| 0 <= j < |desired| && desired[j] == builtin[k];
      assert Clashes(rules, desired[j]);
    }
  }

  lemma {:induction false} MissingConcat(ids: seq<string>, a: seq<Json>, b: seq<Json>)
    ensures Missing(ids, a + b) == Missing(ids, a) + Missing(ids, b)
  {
    if a == [] {
      assert a + b == b;
    } else {
      assert (a + b)[1..] == a[1..] + b;
      MissingConcat(ids, a[1..], b);
    }
  }

  lemma {:induction false} DesiredConcat(a: seq<Json>, b: seq<Json>)
    ensures Desired(a + b) == Desired(a) + Desired(b)
  {
    hide StartsWith, RuleId;
    if a == [] {
      assert a + b == b;
    } else {
      assert (a + b)[1..] == a[1..] + b;
      DesiredConcat(a[1..], b);
    }
  }

  lemma OneMissing(rules: seq<Json>, rule: Json)
    ensures Missing(Ids(rules), Desired([rule]))
         == if IsCaRule(rule) && !HasRuleWithId(rules, IdOf(rule)) then [rule] else []
  {
    SameIds(rule);
    assert [rule][1..] == [];
    var ids := Ids(rules);
    forall i | 0 <= i < |rules| ensures ids[i] == IdOf(rules[i]) {
      SameIds(rules[i]);
    }
    assert RuleId(rule) in ids <==> HasRuleWithId(rules, IdOf(rule)) by {
      if RuleId(rule) in ids {
        var i :| 0 <= i < |ids| && ids[i] == RuleId(rule);
        assert IdOf(rules[i]) == IdOf(rule);
      }
      if HasRuleWithId(rules, IdOf(rule)) {
        var i :| 0 <= i < |rules| && IdOf(rules[i]) == IdOf(rule);
        assert ids[i] in ids;
      }
    }
    hide RuleId, IdOf, StartsWith;
  }

  lemma {:induction false} SameAdditions(rules: seq<Json>, builtin: seq<Json>)
    ensures Missing(Ids(rules), Desired(builtin)) == Additions(rules, builtin)
  {
    if builtin != [] {
      var front, last := builtin[..|builtin| - 1], builtin[|builtin| - 1];
      assert builtin == front + [last];
      SameAdditions(rules, front);
      DesiredConcat(front, [last]);
      MissingConcat(Ids(rules), Desired(front), Desired([last]));
      OneMissing(rules, last);
      hide Missing, Desired, IsCaRule, HasRuleWithId, Ids;
    }
  }

  lemma {:induction false} AdditionsAreRules(rules: seq<Json>, builtin: seq<Json>)
    requires forall i :: 0 <= i < |builtin| ==> HasId(builtin[i])
    ensures forall i :: 0 <= i < |Additions(rules, builtin)| ==> HasId(Additions(rules, builtin)[i])
  {
    if builtin != [] {
      var front := builtin[..|builtin| - 1];
      AdditionsAreRules(rules, front);
      SameIds(builtin[|builtin| - 1]);
      hide HasId, IsRule, IsCaRule, HasRuleWithId;
    }
  }

  lemma SameUpdate(env: Env, config: map<string, Json>)
    requires BuiltinsAreRules(env) && WellFormed(Obj(config))
    ensures var rules := RulesIn(config);
            var updated := WithRules(Obj(config), rules + Missing(Ids(rules), Desired(env.builtinRules)));
            updated == WithAdditions(config, env.builtinRules) && (Accepts(env, updated) <==> env.otherChecks(updated))
  {
    var rules := RulesIn(config);
    SameAdditions(rules, env.builtinRules);
    AdditionsAreRules(rules, env.builtinRules);
    var updated := WithAdditions(config, env.builtinRules);
    SameShape(env, updated);
    assert RulesIn(updated.fields) == rules + Additions(rules, env.builtinRules);
    hide Additions, HasId, Ids, Missing, Desired;
  }

  /** When `_candidate` succeeds, which of its five errors it raises otherwise, and what it returns. */
  lemma CandidateExactly(env: Env, raw: Bytes)
    requires BuiltinsAreRules(env)
    ensures var r := Candidate(env, raw);
            match env.loads(raw)
            case None => r == Err(InvalidConfig)
            case Some(j) =>
              if !WellFormed(j) || !env.otherChecks(j) then r == Err(InvalidConfig)
              else
                var config, rules := j.fields, RulesIn(j.fields);
                var updated, added := WithAdditions(config, env.builtinRules), Additions(rules, env.builtinRules);
                && (r == Err(UnsupportedPolicy) <==> !IsFilesystemPolicy(Policy(config)))
                && (r == Err(DuplicateRuleId) <==> IsFilesystemPolicy(Policy(config)) && IdRepeated(rules))
                && (r == Err(RuleIdConflict) <==>
                      && IsFilesystemPolicy(Policy(config)) && !IdRepeated(rules) && IdTaken(rules, env.builtinRules))
                && (r == Err(InvalidUpdate) <==>
                      && IsFilesystemPolicy(Policy(config)) && !IdRepeated(rules) && !IdTaken(rules, env.builtinRules)
                      && !env.otherChecks(updated))
                && (r.Ok? <==>
                      && IsFilesystemPolicy(Policy(config)) && !IdRepeated(rules) && !IdTaken(rules, env.builtinRules)
                      && env.otherChecks(updated))
                && (r.Ok? ==>
                      && r.value.bytes == (if added == [] then raw else env.dumps(updated))
                      && |r.value.added| == |added|
                      && forall i :: 0 <= i < |added| ==> r.value.added[i] == IdOf(added[i]))
  {
    if env.loads(raw).Some? {
      var j := env.loads(raw).value;
      SameShape(env, j);
      if WellFormed(j) && env.otherChecks(j) {
        var rules := RulesIn(j.fields);
        SameRepetition(rules);
        SameConflict(rules, env.builtinRules);
        SameUpdate(env, j.fields);
        SameAdditions(rules, env.builtinRules);
        AddedIds(Additions(rules, env.builtinRules));
      }
    }
    hide WellFormed, Accepts, Supported, IsFilesystemPolicy, Conflicts, IdTaken, IdRepeated, Distinct, Additions,
      Missing, Ids, WithRules, WithAdditions, Rules, RulesIn, IdOf;
  }

  lemma AddedIds(added: seq<Json>)
    ensures |Ids(added)| == |added| && forall i :: 0 <= i < |added| ==> Ids(added)[i] == IdOf(added[i])
  {
    forall i | 0 <= i < |added| ensures Ids(added)[i] == IdOf(added[i]) {
      SameIds(added[i]);
    }
  }
}
