/** The `tc_counter` dict the builders share, and the `TC_<req>_<n>` ids it
    stamps (`backend/services/test_case_builder.py`, `mcdc_engine.py`,
    `state_test_engine.py`). */
module Numbering {
  import opened Common
  import opened Schemas

  /** `f"TC_{requirement_id}_{tc_counter['count']}"` */
  function TcId(req: string, n: nat): string
  {
    "TC_" + req + "_" + NatToString(n)
  }

  /** Two ids of the same requirement are equal only for the same number. */
  lemma TcIdInjective(req: string, a: nat, b: nat)
    requires TcId(req, a) == TcId(req, b)
    ensures a == b
  {
    var prefix := "TC_" + req + "_";
    assert TcId(req, a)[|prefix|..] == NatToString(a);
    assert TcId(req, b)[|prefix|..] == NatToString(b);
    NatToStringInjective(a, b);
  }

  /** The mutable counter: `count` is the number the next case receives. */
  class TcCounter {
    var count: nat

    constructor(start: nat)
      ensures count == start
    {
      count := start;
    }

    /** Read the id for the current number and advance the counter. */
    method Next(req: string) returns (id: string)
      modifies this
      ensures id == TcId(req, old(count))
      ensures count == old(count) + 1
    {
      id := TcId(req, count);
      count := count + 1;
    }
  }

  /** The cases carry consecutive ids starting at `start`. */
  predicate NumberedFrom(cases: seq<TestCase>, req: string, start: nat)
  {
    forall i :: 0 <= i < |cases| ==> cases[i].tcId == TcId(req, start + i)
  }

  /** Every case belongs to `ruleId` and traces to `(req, ruleId)`. */
  predicate TracesTo(cases: seq<TestCase>, req: string, ruleId: string)
  {
    forall i :: 0 <= i < |cases| ==>
      cases[i].ruleId == ruleId && cases[i].traceability == Traceability(req, ruleId)
  }

  /** Consecutive blocks concatenate into a consecutive block. */
  lemma NumberedAppend(a: seq<TestCase>, b: seq<TestCase>, req: string, start: nat)
    requires NumberedFrom(a, req, start) && NumberedFrom(b, req, start + |a|)
    ensures NumberedFrom(a + b, req, start)
  {
    forall i | |a| <= i < |a + b|
      ensures (a + b)[i].tcId == TcId(req, start + i)
    {
      assert (a + b)[i] == b[i - |a|];
    }
  }

  /** Blocks of one rule concatenate into a block of that rule. */
  lemma TracesAppend(a: seq<TestCase>, b: seq<TestCase>, req: string, ruleId: string)
    requires TracesTo(a, req, ruleId) && TracesTo(b, req, ruleId)
    ensures TracesTo(a + b, req, ruleId)
  {
    forall i | |a| <= i < |a + b|
      ensures (a + b)[i].ruleId == ruleId && (a + b)[i].traceability == Traceability(req, ruleId)
    {
      assert (a + b)[i] == b[i - |a|];
    }
  }

  /** A block of one rule followed by one more case of that rule, numbered next. */
  lemma SnocWellNumbered(a: seq<TestCase>, c: TestCase, req: string, ruleId: string, start: nat)
    requires NumberedFrom(a, req, start) && TracesTo(a, req, ruleId)
    requires c.tcId == TcId(req, start + |a|) && c.ruleId == ruleId && c.traceability == Traceability(req, ruleId)
    ensures NumberedFrom(a + [c], req, start) && TracesTo(a + [c], req, ruleId)
  {
    NumberedAppend(a, [c], req, start);
    TracesAppend(a, [c], req, ruleId);
  }

  /** Consecutive numbering gives pairwise distinct ids. */
  lemma NumberedDistinct(cases: seq<TestCase>, req: string, start: nat)
    requires NumberedFrom(cases, req, start)
    ensures forall i, j :: 0 <= i < j < |cases| ==> cases[i].tcId != cases[j].tcId
  {
    forall i, j | 0 <= i < j < |cases|
      ensures cases[i].tcId != cases[j].tcId
    {
      if cases[i].tcId == cases[j].tcId {
        TcIdInjective(req, start + i, start + j);
      }
    }
  }

  /** The shared counter threaded through a list of generators: the block of
      `xs[i]` is numbered from where the blocks before it stopped. */
  function Chain<T>(xs: seq<T>, block: (T, nat) -> seq<TestCase>, n: nat): seq<TestCase>
  {
    if xs == [] then []
    else
      var k := |xs| - 1;
      var a := Chain(xs[..k], block, n);
      a + block(xs[k], n + |a|)
  }

  /** Running one more generator appends its block. */
  lemma ChainStep<T>(xs: seq<T>, block: (T, nat) -> seq<TestCase>, n: nat, i: nat, a: seq<TestCase>, b: seq<TestCase>)
    requires i < |xs| && a == Chain(xs[..i], block, n) && b == block(xs[i], n + |a|)
    ensures Chain(xs[..i + 1], block, n) == a + b
  {
    assert xs[..i + 1][..i] == xs[..i];
  }

  /** `ChainStep` with the next block's start number named: the step a
      loop takes once it has read the counter. */
  lemma ChainStepAt<T>(xs: seq<T>, block: (T, nat) -> seq<TestCase>, n: nat, i: nat, a: seq<TestCase>, m: nat, b: seq<TestCase>)
    requires i < |xs| && a == Chain(xs[..i], block, n) && m == n + |a| && b == block(xs[i], m)
    ensures Chain(xs[..i + 1], block, n) == a + b
  {
    ChainStep(xs, block, n, i, a, b);
  }

  /** Generators that each number their block from where they start yield
      one consecutively numbered list. */
  lemma {:induction false} ChainNumbered<T>(xs: seq<T>, block: (T, nat) -> seq<TestCase>, req: string, n: nat)
    requires forall x, m: nat :: x in xs ==> NumberedFrom(block(x, m), req, m)
    ensures NumberedFrom(Chain(xs, block, n), req, n)
  {
    if xs != [] {
      var k := |xs| - 1;
      var a := Chain(xs[..k], block, n);
      ChainNumbered(xs[..k], block, req, n);
      NumberedAppend(a, block(xs[k], n + |a|), req, n);
    }
  }

  /** Every case satisfies `q`. */
  ghost predicate Every(cases: seq<TestCase>, q: TestCase -> bool)
  {
    forall i :: 0 <= i < |cases| ==> q(cases[i])
  }

  /** A property every block has, the chained list has. */
  lemma {:induction false} ChainEvery<T>(xs: seq<T>, block: (T, nat) -> seq<TestCase>, q: TestCase -> bool, n: nat)
    requires forall x, m: nat :: x in xs ==> Every(block(x, m), q)
    ensures Every(Chain(xs, block, n), q)
  {
    if xs != [] {
      var k := |xs| - 1;
      var a := Chain(xs[..k], block, n);
      var b := block(xs[k], n + |a|);
      ChainEvery(xs[..k], block, q, n);
      forall i | |a| <= i < |a + b|
        ensures q((a + b)[i])
      {
        assert (a + b)[i] == b[i - |a|];
      }
    }
  }
}
