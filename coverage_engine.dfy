/** `backend/services/coverage_engine.py`: the traceability matrix and the
    coverage report computed from the rules and the generated test cases. */
module Coverage {
  import opened Common
  import opened Schemas

  /** `[tc.tc_id for tc in test_cases if tc.rule_id == rule_id]` */
  function RelatedTcs(tcs: seq<TestCase>, ruleId: string): (r: seq<string>)
    ensures |r| <= |tcs|
  {
    if tcs == [] then []
    else (if tcs[0].ruleId == ruleId then [tcs[0].tcId] else []) + RelatedTcs(tcs[1..], ruleId)
  }

  /** The related list of a concatenation is the concatenation of the related
      lists: ids appear in test-case order. */
  lemma {:induction false} RelatedTcsAppend(a: seq<TestCase>, b: seq<TestCase>, ruleId: string)
    ensures RelatedTcs(a + b, ruleId) == RelatedTcs(a, ruleId) + RelatedTcs(b, ruleId)
  {
    if a != [] {
      assert (a + b)[1..] == a[1..] + b;
      RelatedTcsAppend(a[1..], b, ruleId);
    } else {
      assert a + b == b;
    }
  }

  /** An id is listed for a rule exactly when some test case with that id
      names the rule in its `rule_id`. */
  lemma {:induction false} RelatedTcsMembers(tcs: seq<TestCase>, ruleId: string, x: string)
    ensures x in RelatedTcs(tcs, ruleId) <==>
            exists i :: 0 <= i < |tcs| && tcs[i].ruleId == ruleId && tcs[i].tcId == x
  {
    if tcs != [] {
      RelatedTcsMembers(tcs[1..], ruleId, x);
      if x in RelatedTcs(tcs[1..], ruleId) {
        var i :| 0 <= i < |tcs[1..]| && tcs[1..][i].ruleId == ruleId && tcs[1..][i].tcId == x;
        assert tcs[i + 1].ruleId == ruleId && tcs[i + 1].tcId == x;
      }
      if exists i :: 0 <= i < |tcs| && tcs[i].ruleId == ruleId && tcs[i].tcId == x {
        var i :| 0 <= i < |tcs| && tcs[i].ruleId == ruleId && tcs[i].tcId == x;
        if i > 0 {
          assert tcs[1..][i - 1] == tcs[i];
        }
      }
    }
  }

  /** The number of test cases a rule id collects. */
  function CountRule(tcs: seq<TestCase>, ruleId: string): nat
  {
    if tcs == [] then 0 else (if tcs[0].ruleId == ruleId then 1 else 0) + CountRule(tcs[1..], ruleId)
  }

  lemma {:induction false} RelatedTcsLength(tcs: seq<TestCase>, ruleId: string)
    ensures |RelatedTcs(tcs, ruleId)| == CountRule(tcs, ruleId)
  {
    if tcs != [] {
      RelatedTcsLength(tcs[1..], ruleId);
    }
  }

  function RuleIds(rules: seq<Rule>): (r: seq<string>)
    ensures |r| == |rules|
    ensures forall i :: 0 <= i < |rules| ==> r[i] == rules[i].ruleId
  {
    seq(|rules|, i requires 0 <= i < |rules| => rules[i].ruleId)
  }

  /** The distinct elements of a list in order of first appearance: the key
      order a Python dict gets when the list's elements are assigned in turn. */
  function DistinctIds(ids: seq<string>): (r: seq<string>)
  {
    if ids == [] then []
    else
      var d := DistinctIds(ids[..|ids| - 1]);
      if ids[|ids| - 1] in d then d else d + [ids[|ids| - 1]]
  }

  /** First-appearance order holds every element once and nothing else. */
  lemma {:induction false} DistinctIdsSpec(ids: seq<string>)
    ensures NoDuplicates(DistinctIds(ids))
    ensures forall x :: x in DistinctIds(ids) <==> x in ids
  {
    if ids != [] {
      var init := ids[..|ids| - 1];
      DistinctIdsSpec(init);
      assert ids == init + [ids[|ids| - 1]];
    }
  }

  lemma {:induction false} DistinctIdsLength(ids: seq<string>)
    ensures |DistinctIds(ids)| <= |ids|
  {
    if ids != [] {
      DistinctIdsLength(ids[..|ids| - 1]);
    }
  }

  function EntryKeys(e: seq<(string, seq<string>)>): (r: seq<string>)
    ensures |r| == |e|
    ensures forall i :: 0 <= i < |e| ==> r[i] == e[i].0
  {
    seq(|e|, i requires 0 <= i < |e| => e[i].0)
  }

  /** `rule_coverage.get(key)` on the ordered entry list. */
  function Lookup(e: seq<(string, seq<string>)>, key: string): Option<seq<string>>
  {
    if e == [] then None else if e[0].0 == key then Some(e[0].1) else Lookup(e[1..], key)
  }

  /** The position of `key` among the entries, or `|e|` when absent. */
  function FindKey(e: seq<(string, seq<string>)>, key: string): (r: nat)
    ensures r <= |e|
    ensures r < |e| ==> e[r].0 == key
    ensures forall j :: 0 <= j < r ==> e[j].0 != key
  {
    if e == [] then 0 else if e[0].0 == key then 0 else 1 + FindKey(e[1..], key)
  }

  /** `generate_traceability_matrix`: one entry per distinct rule id, in the
      order the rules first name it, holding the ids of the test cases whose
      `rule_id` is that id; rules without tests map to `[]`. */
  method GenerateTraceabilityMatrix(rules: seq<Rule>, tcs: seq<TestCase>) returns (m: TraceabilityMatrix)
    ensures EntryKeys(m.ruleCoverage) == DistinctIds(RuleIds(rules))
    ensures forall k :: 0 <= k < |m.ruleCoverage| ==>
              m.ruleCoverage[k].1 == RelatedTcs(tcs, m.ruleCoverage[k].0)
    ensures m.requirementId == if tcs == [] then "UNKNOWN" else tcs[0].traceability.requirement
  {
    var cov: seq<(string, seq<string>)> := [];
    var i := 0;
    while i < |rules|
      invariant 0 <= i <= |rules|
      invariant EntryKeys(cov) == DistinctIds(RuleIds(rules[..i]))
      invariant forall k :: 0 <= k < |cov| ==> cov[k].1 == RelatedTcs(tcs, cov[k].0)
    {
      var rid := rules[i].ruleId;
      var related := RelatedTcs(tcs, rid);
      var idx := FindKey(cov, rid);
      MatrixStep(rules, tcs, i, cov);
      if idx < |cov| {
        cov := cov[idx := (rid, related)];
      } else {
        cov := cov + [(rid, related)];
      }
      i := i + 1;
    }
    assert rules[..i] == rules;
    var reqId := if tcs != [] then tcs[0].traceability.requirement else "UNKNOWN";
    m := TraceabilityMatrix(reqId, cov);
  }

  /** The loop body keeps the matrix invariants: assigning the next rule's
      related ids replaces its entry, or appends one for a new id. */
  lemma MatrixStep(rules: seq<Rule>, tcs: seq<TestCase>, i: nat, cov: seq<(string, seq<string>)>)
    requires i < |rules|
    requires EntryKeys(cov) == DistinctIds(RuleIds(rules[..i]))
    requires forall k :: 0 <= k < |cov| ==> cov[k].1 == RelatedTcs(tcs, cov[k].0)
    ensures var rid := rules[i].ruleId;
      var idx := FindKey(cov, rid);
      var next := if idx < |cov| then cov[idx := (rid, RelatedTcs(tcs, rid))] else cov + [(rid, RelatedTcs(tcs, rid))];
      && EntryKeys(next) == DistinctIds(RuleIds(rules[..i + 1]))
      && forall k :: 0 <= k < |next| ==> next[k].1 == RelatedTcs(tcs, next[k].0)
  {
    var rid := rules[i].ruleId;
    var entry := (rid, RelatedTcs(tcs, rid));
    var idx := FindKey(cov, rid);
    MatrixKeysStep(rules, i);
    if idx < |cov| {
      assert EntryKeys(cov)[idx] == rid;
      EntryKeysUpdate(cov, idx, entry);
    } else {
      assert rid !in EntryKeys(cov);
      EntryKeysSnoc(cov, entry);
    }
  }

  /** One more rule adds its id at the end of the distinct ids, unless the
      id is already among them. */
  lemma MatrixKeysStep(rules: seq<Rule>, i: nat)
    requires i < |rules|
    ensures var d := DistinctIds(RuleIds(rules[..i]));
      DistinctIds(RuleIds(rules[..i + 1])) == if rules[i].ruleId in d then d else d + [rules[i].ruleId]
  {
    var ids := RuleIds(rules[..i + 1]);
    assert ids[..|ids| - 1] == RuleIds(rules[..i]);
    assert ids[|ids| - 1] == rules[i].ruleId;
  }

  lemma EntryKeysUpdate(e: seq<(string, seq<string>)>, idx: nat, entry: (string, seq<string>))
    requires idx < |e| && e[idx].0 == entry.0
    ensures EntryKeys(e[idx := entry]) == EntryKeys(e)
  {
  }

  lemma EntryKeysSnoc(e: seq<(string, seq<string>)>, entry: (string, seq<string>))
    ensures EntryKeys(e + [entry]) == EntryKeys(e) + [entry.0]
  {
  }

  /** Every rule's id is a key of the matrix and maps to its related ids;
      nothing else is a key, and no key is repeated. */
  lemma MatrixCoversRules(rules: seq<Rule>, tcs: seq<TestCase>, cov: seq<(string, seq<string>)>)
    requires EntryKeys(cov) == DistinctIds(RuleIds(rules))
    requires forall k :: 0 <= k < |cov| ==> cov[k].1 == RelatedTcs(tcs, cov[k].0)
    ensures NoDuplicates(EntryKeys(cov))
    ensures forall r :: r in rules ==> Lookup(cov, r.ruleId) == Some(RelatedTcs(tcs, r.ruleId))
    ensures forall k :: 0 <= k < |cov| ==> exists r :: r in rules && r.ruleId == cov[k].0
  {
    DistinctIdsSpec(RuleIds(rules));
    forall r | r in rules
      ensures Lookup(cov, r.ruleId) == Some(RelatedTcs(tcs, r.ruleId))
    {
      var i :| 0 <= i < |rules| && rules[i] == r;
      assert r.ruleId in RuleIds(rules);
      assert r.ruleId in EntryKeys(cov);
      LookupFinds(cov, r.ruleId);
    }
    forall k | 0 <= k < |cov|
      ensures exists r :: r in rules && r.ruleId == cov[k].0
    {
      assert cov[k].0 in EntryKeys(cov);
      var i :| 0 <= i < |rules| && RuleIds(rules)[i] == cov[k].0;
      assert rules[i] in rules;
    }
  }

  lemma {:induction false} LookupFinds(e: seq<(string, seq<string>)>, key: string)
    requires key in EntryKeys(e)
    ensures exists k :: 0 <= k < |e| && e[k].0 == key && Lookup(e, key) == Some(e[k].1)
  {
    if e[0].0 != key {
      assert key in EntryKeys(e[1..]) by {
        var k :| 0 <= k < |e| && EntryKeys(e)[k] == key;
        assert k > 0 && EntryKeys(e[1..])[k - 1] == key;
      }
      LookupFinds(e[1..], key);
      var k :| 0 <= k < |e[1..]| && e[1..][k].0 == key && Lookup(e[1..], key) == Some(e[1..][k].1);
      assert e[k + 1] == e[1..][k];
    }
  }

  /** `sum(1 for tc in test_cases if tc.validity.value == v)` */
  function CountValidity(tcs: seq<TestCase>, v: Validity): nat
  {
    if tcs == [] then 0 else (if tcs[0].validity == v then 1 else 0) + CountValidity(tcs[1..], v)
  }

  /** The valid and invalid counts partition the list. */
  lemma {:induction false} ValidityPartition(tcs: seq<TestCase>)
    ensures CountValidity(tcs, VALID) + CountValidity(tcs, INVALID) == |tcs|
  {
    if tcs != [] {
      ValidityPartition(tcs[1..]);
    }
  }

  function TestTypes(tcs: seq<TestCase>): (r: seq<string>)
    ensures |r| == |tcs|
    ensures forall i :: 0 <= i < |tcs| ==> r[i] == tcs[i].testType
  {
    seq(|tcs|, i requires 0 <= i < |tcs| => tcs[i].testType)
  }

  /** The set of rule ids named by test cases (`covered_rules`). */
  function CoveredRuleIds(tcs: seq<TestCase>): set<string>
  {
    set i | 0 <= i < |tcs| :: tcs[i].ruleId
  }

  /** `rules_covered / total_rules * 100` before rounding, or 0 without rules. */
  function Percentage(covered: nat, total: nat): real
  {
    if total > 0 then covered as real / total as real * 100.0 else 0.0
  }

  /** `generate_coverage_report`. */
  method GenerateCoverageReport(rules: seq<Rule>, tcs: seq<TestCase>, requirementId: string)
    returns (rep: CoverageReport)
    ensures rep.requirementId == requirementId
    ensures rep.totalRules == |rules|
    ensures rep.rulesCovered == |CoveredRuleIds(tcs)|
    ensures rep.coveragePercentage == Percentage(rep.rulesCovered, rep.totalRules)
    ensures rep.validTestCount == CountValidity(tcs, VALID)
    ensures rep.invalidTestCount == CountValidity(tcs, INVALID)
    ensures rep.validTestCount + rep.invalidTestCount == rep.totalTestCount == |tcs|
    ensures NoDuplicates(rep.techniquesUsed)
    ensures forall t :: t in rep.techniquesUsed <==> exists i :: 0 <= i < |tcs| && tcs[i].testType == t
  {
    var covered: set<string> := {};
    var i := 0;
    while i < |tcs|
      invariant 0 <= i <= |tcs|
      invariant covered == set j | 0 <= j < i :: tcs[j].ruleId
    {
      covered := covered + {tcs[i].ruleId};
      i := i + 1;
    }
    var rulesCovered := |covered|;
    var techniques := DistinctIds(TestTypes(tcs));
    DistinctIdsSpec(TestTypes(tcs));
    ValidityPartition(tcs);
    rep := CoverageReport(
      requirementId, |rules|, rulesCovered, Percentage(rulesCovered, |rules|), techniques,
      CountValidity(tcs, VALID), CountValidity(tcs, INVALID), |tcs|);
  }

  lemma {:induction false} RuleIdSetSize(rules: seq<Rule>)
    ensures |set i | 0 <= i < |rules| :: rules[i].ruleId| <= |rules|
  {
    if rules != [] {
      var init := rules[..|rules| - 1];
      RuleIdSetSize(init);
      var a := set i | 0 <= i < |init| :: init[i].ruleId;
      var b := set i | 0 <= i < |rules| :: rules[i].ruleId;
      assert b == a + {rules[|rules| - 1].ruleId} by {
        forall x | x in b ensures x in a + {rules[|rules| - 1].ruleId} {
          var i :| 0 <= i < |rules| && rules[i].ruleId == x;
          if i < |init| { assert init[i] == rules[i]; }
        }
        forall x | x in a ensures x in b {
          var i :| 0 <= i < |init| && init[i].ruleId == x;
          assert rules[i] == init[i];
        }
      }
    }
  }

  lemma SubsetCard(a: set<string>, b: set<string>)
    requires a <= b
    ensures |a| <= |b|
  {
    assert b == a + (b - a);
  }

  /** The percentage stays within 100 whenever every test case names one of
      the rules; the code itself does not restrict `covered_rules` to them. */
  lemma PercentageAtMost100(rules: seq<Rule>, tcs: seq<TestCase>)
    requires forall i :: 0 <= i < |tcs| ==> exists r :: r in rules && r.ruleId == tcs[i].ruleId
    ensures 0.0 <= Percentage(|CoveredRuleIds(tcs)|, |rules|) <= 100.0
  {
    var ids := set i | 0 <= i < |rules| :: rules[i].ruleId;
    forall x | x in CoveredRuleIds(tcs) ensures x in ids {
      var i :| 0 <= i < |tcs| && tcs[i].ruleId == x;
      var r :| r in rules && r.ruleId == tcs[i].ruleId;
      var j :| 0 <= j < |rules| && rules[j] == r;
    }
    SubsetCard(CoveredRuleIds(tcs), ids);
    RuleIdSetSize(rules);
    var c, t := |CoveredRuleIds(tcs)|, |rules|;
    if t > 0 {
      assert c as real <= t as real;
      assert c as real / t as real <= 1.0;
    }
  }

  /** With distinct rule ids, every rule covered and every test case naming a
      rule, coverage is exactly 100. */
  lemma FullCoverageIs100(rules: seq<Rule>, tcs: seq<TestCase>)
    requires |rules| > 0
    requires forall i, j :: 0 <= i < j < |rules| ==> rules[i].ruleId != rules[j].ruleId
    requires forall r :: r in rules ==> exists i :: 0 <= i < |tcs| && tcs[i].ruleId == r.ruleId
    requires forall i :: 0 <= i < |tcs| ==> exists r :: r in rules && r.ruleId == tcs[i].ruleId
    ensures Percentage(|CoveredRuleIds(tcs)|, |rules|) == 100.0
  {
    var ids := set i | 0 <= i < |rules| :: rules[i].ruleId;
    assert CoveredRuleIds(tcs) == ids by {
      forall x | x in CoveredRuleIds(tcs) ensures x in ids {
        var i :| 0 <= i < |tcs| && tcs[i].ruleId == x;
        var r :| r in rules && r.ruleId == tcs[i].ruleId;
        var j :| 0 <= j < |rules| && rules[j] == r;
      }
      forall x | x in ids ensures x in CoveredRuleIds(tcs) {
        var j :| 0 <= j < |rules| && rules[j].ruleId == x;
        assert rules[j] in rules;
      }
    }
    DistinctRuleIdsCard(rules);
    var n := |rules| as real;
    assert n / n == 1.0;
  }

  lemma {:induction false} DistinctRuleIdsCard(rules: seq<Rule>)
    requires forall i, j :: 0 <= i < j < |rules| ==> rules[i].ruleId != rules[j].ruleId
    ensures |set i | 0 <= i < |rules| :: rules[i].ruleId| == |rules|
  {
    if rules != [] {
      var init := rules[..|rules| - 1];
      DistinctRuleIdsCard(init);
      var a := set i | 0 <= i < |init| :: init[i].ruleId;
      var last := rules[|rules| - 1].ruleId;
      assert (set i | 0 <= i < |rules| :: rules[i].ruleId) == a + {last} by {
        forall x | x in (set i | 0 <= i < |rules| :: rules[i].ruleId) ensures x in a + {last} {
          var i :| 0 <= i < |rules| && rules[i].ruleId == x;
          if i < |init| { assert init[i] == rules[i]; }
        }
        forall x | x in a ensures x in (set i | 0 <= i < |rules| :: rules[i].ruleId) {
          var i :| 0 <= i < |init| && init[i].ruleId == x;
          assert rules[i] == init[i];
        }
      }
      forall i | 0 <= i < |init| ensures init[i].ruleId != last {
        assert init[i] == rules[i];
      }
    }
  }

  /** Coverage is not restricted to the listed rules: one rule and test cases
      naming two ids report 200 percent. */
  lemma CoverageCanExceed100()
    ensures var t1 := TestCase("TC_1", "R1", "EP", "", map[], map[], MEDIUM, VALID, Traceability("REQ", "R1"));
            var t2 := TestCase("TC_2", "R2", "EP", "", map[], map[], MEDIUM, VALID, Traceability("REQ", "R2"));
            Percentage(|CoveredRuleIds([t1, t2])|, |[Rule("R1", "", "")]|) == 200.0
  {
    var t1 := TestCase("TC_1", "R1", "EP", "", map[], map[], MEDIUM, VALID, Traceability("REQ", "R1"));
    var t2 := TestCase("TC_2", "R2", "EP", "", map[], map[], MEDIUM, VALID, Traceability("REQ", "R2"));
    assert CoveredRuleIds([t1, t2]) == {"R1", "R2"} by {
      assert [t1, t2][0].ruleId == "R1" && [t1, t2][1].ruleId == "R2";
    }
    assert "R1" != "R2";
  }
}
