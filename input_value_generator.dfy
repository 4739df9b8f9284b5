/** `backend/services/input_value_generator.py`: range inference from names,
    units and types, and the value lists of boundary-value analysis,
    equivalence partitioning, negative testing and MC/DC combinations. */
module InputValues {
  import opened Common
  import opened Schemas

  /** One generated value with its description and validity label. */
  datatype Candidate = Candidate(value: Value, description: string, validity: Validity)

  /** `DOMAIN_DEFAULTS` in dict order; the bare string-length limits `n`
      already appear as the range `(0, n)` they are turned into. */
  const DomainDefaults: seq<(string, (int, int))> := [
    ("age", (0, 120)),
    ("temperature", (-273, 5000)),
    ("altitude", (0, 100000)),
    ("speed", (0, 500)),
    ("pressure", (0, 10000)),
    ("distance", (0, 1000000)),
    ("weight", (0, 100000)),
    ("height", (0, 300)),
    ("percentage", (0, 100)),
    ("count", (0, 1000000)),
    ("index", (0, 10000)),
    ("time", (0, 86400)),
    ("duration", (0, 3600)),
    ("latitude", (-90, 90)),
    ("longitude", (-180, 180)),
    ("name", (0, 100)),
    ("email", (0, 255)),
    ("password", (0, 128)),
    ("username", (0, 50)),
    ("address", (0, 500)),
    ("description", (0, 1000)),
    ("message", (0, 5000)),
    ("url", (0, 2048)),
    ("phone", (0, 20)),
    ("code", (0, 50))]

  const NumericTypes: seq<string> := ["int", "integer", "float", "double", "number"]

  predicate IsIntegerType(dataType: string)
  {
    Lower(dataType) in ["int", "integer"]
  }

  predicate IsNumericType(dataType: string)
  {
    Lower(dataType) in NumericTypes
  }

  predicate IsStringType(dataType: string)
  {
    Lower(dataType) in ["string", "str"]
  }

  predicate Integral(x: real)
  {
    x.Floor as real == x
  }

  predicate ProperRange(r: (real, real))
  {
    r.0 < r.1 && Integral(r.0) && Integral(r.1)
  }

  /** Index of the first domain key, from `k` on, that occurs in `name`. */
  function FirstDomainHit(name: string, k: nat): (r: nat)
    requires k <= |DomainDefaults|
    ensures k <= r <= |DomainDefaults|
    ensures r < |DomainDefaults| ==> Contains(name, DomainDefaults[r].0)
    ensures forall j :: k <= j < r ==> !Contains(name, DomainDefaults[j].0)
  {
    FirstKeyIn(name, DomainDefaults, k)
  }

  /** The first index from `k` on whose key occurs in `name`, or `|table|`. */
  function FirstKeyIn(name: string, table: seq<(string, (int, int))>, k: nat): (r: nat)
    requires k <= |table|
    ensures k <= r <= |table|
    ensures r < |table| ==> Contains(name, table[r].0)
    ensures forall j :: k <= j < r ==> !Contains(name, table[j].0)
    decreases |table| - k
  {
    if k == |table| then k
    else if Contains(name, table[k].0) then k
    else FirstKeyIn(name, table, k + 1)
  }

  function AsRange(p: (int, int)): (real, real)
  {
    (p.0 as real, p.1 as real)
  }

  /** Every domain default is a proper interval. */
  lemma DomainDefaultsOrdered(i: nat)
    requires i < |DomainDefaults|
    ensures ProperRange(AsRange(DomainDefaults[i].1))
  {
    var p := DomainDefaults[i].1;
    assert p.0 < p.1 by {
      assert forall j :: 0 <= j < |DomainDefaults| ==> DomainDefaults[j].1.0 < DomainDefaults[j].1.1;
    }
  }

  /** The hint a unit gives, when it gives one. */
  function UnitRange(unit: string, name: string): (r: Option<(real, real)>)
    ensures r.Some? ==> ProperRange(r.value)
  {
    if Contains(unit, "feet") || Contains(unit, "ft") then
      if Contains(name, "alt") then Some((0.0, 100000.0)) else Some((0.0, 10000.0))
    else if Contains(unit, "meter") || unit == "m" then Some((0.0, 10000.0))
    else if Contains(unit, "celsius") || Contains(unit, "°c") then Some((-273.0, 5000.0))
    else if Contains(unit, "fahrenheit") || Contains(unit, "°f") then Some((-459.0, 9000.0))
    else if Contains(unit, "mph") || Contains(unit, "km/h") then Some((0.0, 500.0))
    else if Contains(unit, "kg") || Contains(unit, "lb") then Some((0.0, 10000.0))
    else if Contains(unit, "%") || Contains(unit, "percent") then Some((0.0, 100.0))
    else None
  }

  /** The defaults by data type, the last step of inference. */
  function TypeRange(dataType: string, name: string): (r: (real, real))
    ensures ProperRange(r)
  {
    if dataType in ["int", "integer"] then
      if Contains(name, "id") then (1.0, 1000000.0)
      else if Contains(name, "year") then (1900.0, 2100.0)
      else if Contains(name, "month") then (1.0, 12.0)
      else if Contains(name, "day") then (1.0, 31.0)
      else if Contains(name, "hour") then (0.0, 23.0)
      else if Contains(name, "minute") || Contains(name, "second") then (0.0, 59.0)
      else (0.0, 1000.0)
    else if dataType in ["float", "double", "decimal"] then (0.0, 1000.0)
    else if dataType in ["string", "str", "text"] then (0.0, 255.0)
    else (0.0, 100.0)
  }

  /** `infer_range`: explicit bounds when both are set, else the first domain
      key found in the name, else a unit hint, else the type default. It
      always yields two numbers; every inferred range is a proper interval
      with whole-number ends. */
  function InferRange(d: InputDef): (r: (real, real))
    ensures d.rangeMin.Some? && d.rangeMax.Some? ==> r == (d.rangeMin.value, d.rangeMax.value)
    ensures !(d.rangeMin.Some? && d.rangeMax.Some?) ==> ProperRange(r)
    ensures !(d.rangeMin.Some? && d.rangeMax.Some?) && FirstDomainHit(Lower(d.name), 0) < |DomainDefaults| ==>
              r == AsRange(DomainDefaults[FirstDomainHit(Lower(d.name), 0)].1)
  {
    if d.rangeMin.Some? && d.rangeMax.Some? then (d.rangeMin.value, d.rangeMax.value)
    else
      var name := Lower(d.name);
      var hit := FirstDomainHit(name, 0);
      if hit < |DomainDefaults| then
        DomainDefaultsOrdered(hit);
        AsRange(DomainDefaults[hit].1)
      else if Filled(d.unit) && UnitRange(Lower(d.unit.value), name).Some? then
        UnitRange(Lower(d.unit.value), name).value
      else TypeRange(Lower(d.dataType), name)
  }

  /** The `username` default can never be chosen: any name containing
      "username" contains "name", which comes first. */
  lemma UsernameDefaultUnreachable(name: string)
    ensures DomainDefaults[18].0 == "username"
    ensures FirstDomainHit(name, 0) != 18
  {
    assert DomainDefaults[15].0 == "name" && DomainDefaults[18].0 == "username";
    UsernameContainsName(name);
  }

  lemma UsernameContainsName(name: string)
    ensures Contains(name, "username") ==> Contains(name, "name")
  {
    if Contains(name, "username") {
      assert "username" == "user" + "name";
      ContainsSuffix(name, "user", "name");
    }
  }

  function Increment(d: InputDef): real
  {
    if IsIntegerType(d.dataType) then 1.0 else 0.1
  }

  /** Python `int(...)` applied to the midpoint of an integer input. */
  function Nominal(d: InputDef, lo: real, hi: real): real
  {
    if IsIntegerType(d.dataType) then Trunc((lo + hi) / 2.0) as real else (lo + hi) / 2.0
  }

  /** The nominal value of an ordered range lies within it when an
      integer input's bounds are whole numbers. */
  lemma NominalBetween(d: InputDef, lo: real, hi: real)
    requires lo <= hi && (IsIntegerType(d.dataType) ==> Integral(lo) && Integral(hi))
    ensures lo <= Nominal(d, lo, hi) <= hi
  {
    if IsIntegerType(d.dataType) {
      TruncMidpointInRange(lo, hi);
    }
  }

  /** Truncating the midpoint of whole-number bounds stays within them. */
  lemma TruncMidpointInRange(lo: real, hi: real)
    requires Integral(lo) && Integral(hi) && lo <= hi
    ensures lo <= Trunc((lo + hi) / 2.0) as real <= hi
  {
    var mid := (lo + hi) / 2.0;
    var t := Trunc(mid);
    var a, b := lo.Floor, hi.Floor;
    assert lo <= mid <= hi;
    if mid >= 0.0 {
      assert (a as real) < (t + 1) as real;
      assert a <= t;
    } else {
      assert ((t - 1) as real) < b as real;
      assert t <= b;
    }
  }

  predicate InRange(v: Value, lo: real, hi: real)
  {
    v.VNum? && lo <= v.n <= hi
  }

  /** `generate_bva_values`: min, min+inc (if it fits), the midpoint
      (truncated for integers), max-inc (if it fits), max; then the two
      invalid values just outside. */
  function BvaValues(d: InputDef): (r: seq<Candidate>)
    ensures var lo, hi, inc := InferRange(d).0, InferRange(d).1, Increment(d);
      && |r| == 5 + (if lo + inc <= hi then 1 else 0) + (if hi - inc >= lo then 1 else 0)
      && r[0] == Candidate(VNum(lo), "Minimum boundary", VALID)
      && r[|r| - 3] == Candidate(VNum(hi), "Maximum boundary", VALID)
      && r[|r| - 2] == Candidate(VNum(lo - inc), "Below minimum (invalid)", INVALID)
      && r[|r| - 1] == Candidate(VNum(hi + inc), "Above maximum (invalid)", INVALID)
      && (forall i :: 0 <= i < |r| - 2 ==> r[i].validity == VALID)
      && (forall i :: |r| - 2 <= i < |r| ==> r[i].value.VNum? && !InRange(r[i].value, lo, hi))
  {
    var rg := InferRange(d);
    Boundaries(rg.0, rg.1, Increment(d), Nominal(d, rg.0, rg.1))
  }

  /** The boundary list of `generate_bva_values` for range `lo..hi`, step
      `inc` and midpoint `mid`. */
  function Boundaries(lo: real, hi: real, inc: real, mid: real): (r: seq<Candidate>)
    requires inc > 0.0
    ensures |r| == 5 + (if lo + inc <= hi then 1 else 0) + (if hi - inc >= lo then 1 else 0)
    ensures r[0] == Candidate(VNum(lo), "Minimum boundary", VALID)
    ensures r[|r| - 3] == Candidate(VNum(hi), "Maximum boundary", VALID)
    ensures r[|r| - 2] == Candidate(VNum(lo - inc), "Below minimum (invalid)", INVALID)
    ensures r[|r| - 1] == Candidate(VNum(hi + inc), "Above maximum (invalid)", INVALID)
    ensures forall i :: 0 <= i < |r| - 2 ==> r[i].validity == VALID
    ensures forall i :: |r| - 2 <= i < |r| ==> r[i].value.VNum? && !InRange(r[i].value, lo, hi)
  {
    var valid :=
      [Candidate(VNum(lo), "Minimum boundary", VALID)] +
      (if lo + inc <= hi then [Candidate(VNum(lo + inc), "Just above minimum", VALID)] else []) +
      [Candidate(VNum(mid), "Nominal value", VALID)] +
      (if hi - inc >= lo then [Candidate(VNum(hi - inc), "Just below maximum", VALID)] else []) +
      [Candidate(VNum(hi), "Maximum boundary", VALID)];
    assert forall i :: 0 <= i < |valid| ==> valid[i].validity == VALID;
    valid +
    [Candidate(VNum(lo - inc), "Below minimum (invalid)", INVALID),
     Candidate(VNum(hi + inc), "Above maximum (invalid)", INVALID)]
  }

  /** Every VALID boundary value lies inside the range whenever the range is
      non-empty and, for integer inputs, has whole-number ends (always so for
      an inferred range). */
  lemma BvaValidInRange(d: InputDef)
    requires InferRange(d).0 <= InferRange(d).1
    requires IsIntegerType(d.dataType) ==> Integral(InferRange(d).0) && Integral(InferRange(d).1)
    ensures forall c :: c in BvaValues(d) && c.validity == VALID ==> InRange(c.value, InferRange(d).0, InferRange(d).1)
  {
    var rg := InferRange(d);
    NominalBetween(d, rg.0, rg.1);
    BoundariesInRange(rg.0, rg.1, Increment(d), Nominal(d, rg.0, rg.1));
  }

  lemma BoundariesInRange(lo: real, hi: real, inc: real, mid: real)
    requires inc > 0.0 && lo <= mid <= hi
    ensures forall c :: c in Boundaries(lo, hi, inc, mid) && c.validity == VALID ==> InRange(c.value, lo, hi)
  {
    var r := Boundaries(lo, hi, inc, mid);
    forall c | c in r && c.validity == VALID
      ensures InRange(c.value, lo, hi)
    {
      var i :| 0 <= i < |r| && r[i] == c;
      assert i < |r| - 2;
    }
  }

  /** Exactly the last two boundary values are INVALID. */
  lemma BvaInvalidCount(d: InputDef)
    ensures |set i | 0 <= i < |BvaValues(d)| && BvaValues(d)[i].validity == INVALID| == 2
  {
    InvalidPair(BvaValues(d));
  }

  /** A list whose last two entries, and only those, are INVALID has
      exactly two INVALID positions. */
  lemma InvalidPair(r: seq<Candidate>)
    requires |r| >= 2
    requires forall i :: 0 <= i < |r| - 2 ==> r[i].validity == VALID
    requires r[|r| - 2].validity == INVALID && r[|r| - 1].validity == INVALID
    ensures |set i | 0 <= i < |r| && r[i].validity == INVALID| == 2
  {
    var n := |r|;
    var invalid := set i | 0 <= i < n && r[i].validity == INVALID;
    forall i | 0 <= i < n
      ensures i in invalid <==> i == n - 2 || i == n - 1
    {
      if i < n - 2 {
        assert r[i].validity == VALID;
      }
    }
    assert invalid == {n - 2, n - 1};
  }

  /** `generate_ep_values` as a value. */
  function EpValues(d: InputDef): (r: seq<Candidate>)
    ensures NonEmpty(d.allowedValues) ==>
      && |r| == |d.allowedValues.value| + 1
      && (forall i :: 0 <= i < |d.allowedValues.value| ==>
            r[i] == Candidate(VStr(d.allowedValues.value[i]), "Valid partition: " + d.allowedValues.value[i], VALID))
      && r[|r| - 1] == Candidate(VStr("INVALID_VALUE"), "Invalid partition (not in allowed values)", INVALID)
    ensures !NonEmpty(d.allowedValues) ==>
      var lo, hi := InferRange(d).0, InferRange(d).1;
      && |r| == 3
      && r[0] == Candidate(VNum((lo + hi) / 2.0), "Valid partition (within range)", VALID)
      && r[1] == Candidate(VNum(lo - 10.0), "Invalid partition (below range)", INVALID)
      && r[2] == Candidate(VNum(hi + 10.0), "Invalid partition (above range)", INVALID)
  {
    if NonEmpty(d.allowedValues) then AllowedThenSentinel(d.allowedValues.value)
    else RangePartitions(InferRange(d).0, InferRange(d).1)
  }

  /** One VALID partition per allowed value, then the INVALID sentinel. */
  function AllowedThenSentinel(vals: seq<string>): (r: seq<Candidate>)
    ensures |r| == |vals| + 1
    ensures forall i :: 0 <= i < |vals| ==> r[i] == Candidate(VStr(vals[i]), "Valid partition: " + vals[i], VALID)
    ensures r[|r| - 1] == Candidate(VStr("INVALID_VALUE"), "Invalid partition (not in allowed values)", INVALID)
  {
    AllowedPartitions(vals) + [Candidate(VStr("INVALID_VALUE"), "Invalid partition (not in allowed values)", INVALID)]
  }

  /** The midpoint and the two values ten outside the range. */
  function RangePartitions(lo: real, hi: real): seq<Candidate>
  {
    [Candidate(VNum((lo + hi) / 2.0), "Valid partition (within range)", VALID),
     Candidate(VNum(lo - 10.0), "Invalid partition (below range)", INVALID),
     Candidate(VNum(hi + 10.0), "Invalid partition (above range)", INVALID)]
  }

  function AllowedPartitions(vals: seq<string>): (r: seq<Candidate>)
    ensures |r| == |vals|
    ensures forall i :: 0 <= i < |vals| ==> r[i] == Candidate(VStr(vals[i]), "Valid partition: " + vals[i], VALID)
  {
    if vals == [] then []
    else AllowedPartitions(vals[..|vals| - 1]) + [Candidate(VStr(vals[|vals| - 1]), "Valid partition: " + vals[|vals| - 1], VALID)]
  }

  /** The EP partitions are labelled as their values promise: with allowed
      values, a VALID value is one of them and the INVALID one is the
      sentinel; with a range, VALID exactly when inside it. */
  lemma EpLabelsAgree(d: InputDef)
    requires InferRange(d).0 <= InferRange(d).1
    ensures NonEmpty(d.allowedValues) ==> forall c :: c in EpValues(d) ==>
              (c.validity == VALID ==> c.value.VStr? && c.value.s in d.allowedValues.value) &&
              (c.validity == INVALID ==> c.value == VStr("INVALID_VALUE"))
    ensures !NonEmpty(d.allowedValues) ==> forall c :: c in EpValues(d) ==>
              (c.validity == VALID <==> InRange(c.value, InferRange(d).0, InferRange(d).1))
  {
    if NonEmpty(d.allowedValues) {
      AllowedLabels(d.allowedValues.value);
    } else {
      RangeLabels(InferRange(d).0, InferRange(d).1);
    }
  }

  lemma AllowedLabels(vals: seq<string>)
    ensures forall c :: c in AllowedThenSentinel(vals) ==>
              (c.validity == VALID ==> c.value.VStr? && c.value.s in vals) &&
              (c.validity == INVALID ==> c.value == VStr("INVALID_VALUE"))
  {
    var r := AllowedThenSentinel(vals);
    forall c | c in r
      ensures (c.validity == VALID ==> c.value.VStr? && c.value.s in vals) &&
              (c.validity == INVALID ==> c.value == VStr("INVALID_VALUE"))
    {
      var i :| 0 <= i < |r| && r[i] == c;
      if i < |vals| {
        assert c.value.s == vals[i];
      }
    }
  }

  lemma RangeLabels(lo: real, hi: real)
    requires lo <= hi
    ensures forall c :: c in RangePartitions(lo, hi) ==> (c.validity == VALID <==> InRange(c.value, lo, hi))
  {
  }

  /** `generate_ep_values`, appending one partition per allowed value. */
  method GenerateEpValues(d: InputDef) returns (values: seq<Candidate>)
    ensures values == EpValues(d)
  {
    values := [];
    if NonEmpty(d.allowedValues) {
      var vals := d.allowedValues.value;
      var i := 0;
      while i < |vals|
        invariant 0 <= i <= |vals|
        invariant values == AllowedPartitions(vals[..i])
      {
        assert vals[..i + 1][..i] == vals[..i];
        values := values + [Candidate(VStr(vals[i]), "Valid partition: " + vals[i], VALID)];
        i := i + 1;
      }
      assert vals[..i] == vals;
      values := values + [Candidate(VStr("INVALID_VALUE"), "Invalid partition (not in allowed values)", INVALID)];
    } else {
      var rg := InferRange(d);
      values := [Candidate(VNum((rg.0 + rg.1) / 2.0), "Valid partition (within range)", VALID),
                 Candidate(VNum(rg.0 - 10.0), "Invalid partition (below range)", INVALID),
                 Candidate(VNum(rg.1 + 10.0), "Invalid partition (above range)", INVALID)];
    }
  }

  /** `generate_negative_values`: None first, then a value of the wrong type,
      then the empty string for string inputs; all INVALID. */
  function NegativeValues(d: InputDef): (r: seq<Candidate>)
    ensures |r| >= 1 && r[0].value == VNull
    ensures forall i :: 0 <= i < |r| ==> r[i].validity == INVALID
    ensures IsNumericType(d.dataType) ==> |r| == 2 && r[1].value == VStr("NOT_A_NUMBER")
    ensures IsStringType(d.dataType) ==> |r| == 3 && r[1].value == VNum(12345.0) && r[2].value == VStr("")
    ensures !IsNumericType(d.dataType) && !IsStringType(d.dataType) ==> |r| == 1
  {
    [Candidate(VNull, "Null/None input", INVALID)] +
    (if IsNumericType(d.dataType) then
       [Candidate(VStr("NOT_A_NUMBER"), "Wrong type (string instead of number)", INVALID)]
     else if IsStringType(d.dataType) then
       [Candidate(VNum(12345.0), "Wrong type (number instead of string)", INVALID)]
     else []) +
    (if IsStringType(d.dataType) then [Candidate(VStr(""), "Empty string", INVALID)] else [])
  }

  /** One MC/DC row: a truth value per condition variable, and its description. */
  datatype Combination = Combination(assignment: map<string, bool>, description: string)

  function Pow2(k: nat): (r: nat)
    ensures r >= 1
  {
    if k == 0 then 1 else 2 * Pow2(k - 1)
  }

  /** `itertools.product([True, False], repeat=k)`: the first position varies
      slowest and True comes before False. */
  function BoolProduct(k: nat): (r: seq<seq<bool>>)
    ensures |r| == Pow2(k)
    ensures forall i :: 0 <= i < |r| ==> |r[i]| == k
  {
    if k == 0 then [[]]
    else
      var p := BoolProduct(k - 1);
      Prefixed(true, p) + Prefixed(false, p)
  }

  /** Each row of `p` with `b` put in front. */
  function Prefixed(b: bool, p: seq<seq<bool>>): (r: seq<seq<bool>>)
    ensures |r| == |p|
    ensures forall i :: 0 <= i < |p| ==> r[i] == [b] + p[i]
  {
    if p == [] then [] else Prefixed(b, p[..|p| - 1]) + [[b] + p[|p| - 1]]
  }

  /** Every assignment of k truth values occurs in the product... */
  lemma BoolProductComplete(k: nat, v: seq<bool>)
    requires |v| == k
    ensures v in BoolProduct(k)
  {
    var i := BoolProductIndex(k, v);
  }

  /** The position of an assignment in the product. */
  lemma {:induction false} BoolProductIndex(k: nat, v: seq<bool>) returns (i: nat)
    requires |v| == k
    ensures i < |BoolProduct(k)| && BoolProduct(k)[i] == v
  {
    if k == 0 {
      i := 0;
    } else {
      var p := BoolProduct(k - 1);
      var j := BoolProductIndex(k - 1, v[1..]);
      i := PrefixedPick(p, j, v);
    }
  }

  /** Where `v` lands once the row holding its tail is prefixed both ways. */
  lemma PrefixedPick(p: seq<seq<bool>>, j: nat, v: seq<bool>) returns (i: nat)
    requires |v| > 0 && j < |p| && p[j] == v[1..]
    ensures i < 2 * |p| && (Prefixed(true, p) + Prefixed(false, p))[i] == v
  {
    assert [v[0]] + v[1..] == v;
    if v[0] {
      i := j;
      assert Prefixed(true, p)[j] == v;
    } else {
      i := |p| + j;
      assert Prefixed(false, p)[j] == v;
    }
  }

  /** ...exactly once... */
  lemma {:induction false} BoolProductDistinct(k: nat)
    ensures forall i, j :: 0 <= i < j < |BoolProduct(k)| ==> BoolProduct(k)[i] != BoolProduct(k)[j]
  {
    if k > 0 {
      var p := BoolProduct(k - 1);
      BoolProductDistinct(k - 1);
      var r := BoolProduct(k);
      forall i, j | 0 <= i < j < |r|
        ensures r[i] != r[j]
      {
        if j < |p| || |p| <= i {
          var i', j' := if i < |p| then i else i - |p|, if j < |p| then j else j - |p|;
          assert r[i][1..] == p[i'] && r[j][1..] == p[j'];
        } else {
          assert r[i][0] != r[j][0];
        }
      }
    }
  }

  /** ...and the all-True assignment comes first. */
  lemma {:induction false} BoolProductAllTrueFirst(k: nat)
    ensures forall i :: 0 <= i < k ==> BoolProduct(k)[0][i]
  {
    if k > 0 {
      BoolProductAllTrueFirst(k - 1);
      var p := BoolProduct(k - 1);
      assert BoolProduct(k)[0] == [true] + p[0];
    }
  }

  /** The inputs whose name is a condition variable, in input order. */
  function Relevant(inputs: seq<InputDef>, vars: set<string>): (r: seq<InputDef>)
    ensures |r| <= |inputs|
    ensures forall x :: x in r <==> x in inputs && x.name in vars
  {
    if inputs == [] then []
    else
      var last := inputs[|inputs| - 1];
      Relevant(inputs[..|inputs| - 1], vars) + (if last.name in vars then [last] else [])
  }

  function Names(rel: seq<InputDef>): set<string>
  {
    set i | 0 <= i < |rel| :: rel[i].name
  }

  /** `{i.name: True for i in relevant_inputs}` */
  function AllTrue(rel: seq<InputDef>): (m: map<string, bool>)
    ensures m.Keys == Names(rel)
    ensures forall x :: x in m ==> m[x]
  {
    map x | x in Names(rel) :: true
  }

  lemma NamesSnoc(rel: seq<InputDef>)
    requires rel != []
    ensures Names(rel) == Names(rel[..|rel| - 1]) + {rel[|rel| - 1].name}
  {
    var n := |rel| - 1;
    forall x | x in Names(rel) ensures x in Names(rel[..n]) + {rel[n].name} {
      var i :| 0 <= i < |rel| && rel[i].name == x;
      if i < n { assert rel[..n][i] == rel[i]; }
    }
    forall x | x in Names(rel[..n]) ensures x in Names(rel) {
      var i :| 0 <= i < n && rel[..n][i].name == x;
      assert rel[i].name == x;
    }
  }

  /** `{relevant_inputs[i].name: values[i] ...}`: a later duplicate name wins. */
  function Assign(rel: seq<InputDef>, values: seq<bool>): (m: map<string, bool>)
    requires |values| == |rel|
    ensures m.Keys == Names(rel)
  {
    if rel == [] then map[]
    else
      var n := |rel| - 1;
      NamesSnoc(rel);
      Assign(rel[..n], values[..n])[rel[n].name := values[n]]
  }

  /** The keys of that dict in insertion order: each relevant name once,
      where it first appears. */
  function DictNames(rel: seq<InputDef>): seq<string>
  {
    if rel == [] then []
    else
      var n := |rel| - 1;
      var d := DictNames(rel[..n]);
      if rel[n].name in d then d else d + [rel[n].name]
  }

  /** The dict's keys are the relevant names, each once. */
  lemma {:induction false} DictNamesSpec(rel: seq<InputDef>)
    ensures NoDuplicates(DictNames(rel))
    ensures forall x :: x in DictNames(rel) <==> x in Names(rel)
  {
    if rel != [] {
      var n := |rel| - 1;
      DictNamesSpec(rel[..n]);
      NamesSnoc(rel);
    }
  }

  function BoolText(b: bool): string
  {
    if b then "True" else "False"
  }

  /** One `f"{k}={v}"` per key of `ks`, showing the value `m` holds for it. */
  function Items(ks: seq<string>, m: map<string, bool>): (r: seq<string>)
    requires forall k :: k in ks ==> k in m
    ensures |r| == |ks|
  {
    if ks == [] then [] else [ks[0] + "=" + BoolText(m[ks[0]])] + Items(ks[1..], m)
  }

  /** The i-th item shows the i-th key and its value. */
  lemma {:induction false} ItemsAt(ks: seq<string>, m: map<string, bool>, i: nat)
    requires forall k :: k in ks ==> k in m
    requires i < |ks|
    ensures Items(ks, m)[i] == ks[i] + "=" + BoolText(m[ks[i]])
  {
    if i > 0 {
      ItemsAt(ks[1..], m, i - 1);
    }
  }

  /** `", ".join(f"{k}={v}" for k, v in combo.items())`: the dict's keys in
      insertion order, each with the value it ended with. */
  function Describe(rel: seq<InputDef>, values: seq<bool>): string
    requires |values| == |rel|
  {
    DictNamesSpec(rel);
    Join(Items(DictNames(rel), Assign(rel, values)), ", ")
  }

  /** The description holds one item per distinct relevant name, in
      first-appearance order, showing the value the assignment gives it. */
  lemma DescribeItems(rel: seq<InputDef>, values: seq<bool>, i: nat)
    requires |values| == |rel|
    requires i < |DictNames(rel)|
    ensures forall k :: k in DictNames(rel) <==> k in Assign(rel, values)
    ensures Items(DictNames(rel), Assign(rel, values))[i]
         == DictNames(rel)[i] + "=" + BoolText(Assign(rel, values)[DictNames(rel)[i]])
  {
    DictNamesSpec(rel);
    ItemsAt(DictNames(rel), Assign(rel, values), i);
  }

  /** With distinct names, the dict's keys are the names in input order... */
  lemma {:induction false} DictNamesDistinct(rel: seq<InputDef>)
    requires forall i, j :: 0 <= i < j < |rel| ==> rel[i].name != rel[j].name
    ensures |DictNames(rel)| == |rel|
    ensures forall i :: 0 <= i < |rel| ==> DictNames(rel)[i] == rel[i].name
  {
    if rel != [] {
      var n := |rel| - 1;
      var d := DictNames(rel[..n]);
      DictNamesDistinct(rel[..n]);
      forall i | 0 <= i < n
        ensures d[i] != rel[n].name
      {
        assert rel[..n][i] == rel[i];
      }
      assert rel[n].name !in d;
    }
  }

  /** ...and each name holds its own value. */
  lemma {:induction false} AssignDistinct(rel: seq<InputDef>, values: seq<bool>, i: nat)
    requires |values| == |rel|
    requires forall i, j :: 0 <= i < j < |rel| ==> rel[i].name != rel[j].name
    requires i < |rel|
    ensures Assign(rel, values)[rel[i].name] == values[i]
  {
    var n := |rel| - 1;
    if i < n {
      AssignDistinct(rel[..n], values[..n], i);
      assert rel[..n][i] == rel[i];
      assert values[..n][i] == values[i];
    }
  }

  /** A name shared by two relevant inputs is described once, with the
      value of its later occurrence. */
  lemma DescribeRepeatedName(d: InputDef)
    requires d.name == "x"
    ensures Assign([d, d], [true, false]) == map["x" := false]
    ensures Describe([d, d], [true, false]) == "x=False"
  {
    var rel := [d, d];
    assert rel[..1] == [d];
    assert [d][..0] == [];
    assert DictNames([d]) == ["x"];
    assert DictNames(rel) == ["x"];
    assert [true, false][..1] == [true];
    assert [true][..0] == [];
    assert Assign([d], [true]) == map["x" := true];
    var m := Assign(rel, [true, false]);
    assert m == map["x" := false];
    assert ["x"][1..] == [];
    assert "x" + "=" + BoolText(false) == "x=False";
    assert Items(["x"], m) == ["x=False"];
  }

  function AllTrueRow(rel: seq<InputDef>): Combination
  {
    Combination(AllTrue(rel), "All conditions true")
  }

  function OneFalseRow(rel: seq<InputDef>, name: string): Combination
  {
    Combination(AllTrue(rel)[name := false], name + " false, others true")
  }

  /** `generate_mcdc_combinations` as a value. */
  function McdcCombinations(inputs: seq<InputDef>, vars: set<string>): (r: seq<Combination>)
    ensures var rel := Relevant(inputs, vars);
      |rel| > 3 ==> (|r| == 2 * |rel| &&
        forall i :: 0 <= i < |rel| ==> r[2 * i] == AllTrueRow(rel) && r[2 * i + 1] == OneFalseRow(rel, rel[i].name))
    ensures var rel := Relevant(inputs, vars);
      |rel| <= 3 ==> (|r| == Pow2(|rel|) &&
        forall j :: 0 <= j < |r| ==> r[j] == Combination(Assign(rel, BoolProduct(|rel|)[j]), Describe(rel, BoolProduct(|rel|)[j])))
  {
    var rel := Relevant(inputs, vars);
    if |rel| > 3 then PairRows(rel, rel) else ProductRows(rel)
  }

  /** The all-true / one-false pairs for the variables in `vars`, in order. */
  function PairRows(rel: seq<InputDef>, vars: seq<InputDef>): (r: seq<Combination>)
    ensures |r| == 2 * |vars|
    ensures forall i :: 0 <= i < |vars| ==> r[2 * i] == AllTrueRow(rel) && r[2 * i + 1] == OneFalseRow(rel, vars[i].name)
  {
    if vars == [] then []
    else
      var n := |vars| - 1;
      PairRows(rel, vars[..n]) + [AllTrueRow(rel), OneFalseRow(rel, vars[n].name)]
  }

  /** Each one-false row of the simplified path differs from the all-true row
      at its own variable only. */
  lemma OneFalseDiffersOnce(rel: seq<InputDef>, name: string)
    requires name in Names(rel)
    ensures OneFalseRow(rel, name).assignment.Keys == AllTrueRow(rel).assignment.Keys
    ensures !OneFalseRow(rel, name).assignment[name]
    ensures forall x :: x in Names(rel) && x != name ==> OneFalseRow(rel, name).assignment[x]
  {
  }

  /** The rows of the full combinatorial path. */
  function ProductRows(rel: seq<InputDef>): (r: seq<Combination>)
    requires |rel| <= 3
  {
    RowsOf(rel, BoolProduct(|rel|))
  }

  /** One row per truth assignment of `p`, in order. */
  function RowsOf(rel: seq<InputDef>, p: seq<seq<bool>>): (r: seq<Combination>)
    requires forall i :: 0 <= i < |p| ==> |p[i]| == |rel|
    ensures |r| == |p|
    ensures forall j :: 0 <= j < |p| ==> r[j] == ProductRow(rel, p[j])
  {
    if p == [] then []
    else
      var init := p[..|p| - 1];
      assert forall j :: 0 <= j < |init| ==> init[j] == p[j];
      RowsOf(rel, init) + [ProductRow(rel, p[|p| - 1])]
  }

  /** The row of one truth assignment. */
  function ProductRow(rel: seq<InputDef>, values: seq<bool>): Combination
    requires |values| == |rel|
  {
    Combination(Assign(rel, values), Describe(rel, values))
  }

  /** `generate_mcdc_combinations`: filter the relevant inputs, then append
      the rows. */
  method GenerateMcdcCombinations(inputs: seq<InputDef>, vars: set<string>) returns (combinations: seq<Combination>)
    ensures combinations == McdcCombinations(inputs, vars)
  {
    var rel := RelevantInputs(inputs, vars);
    if |rel| > 3 {
      combinations := AppendPairs(rel);
    } else {
      combinations := AppendProduct(rel);
    }
  }

  method AppendPairs(rel: seq<InputDef>) returns (combinations: seq<Combination>)
    ensures combinations == PairRows(rel, rel)
  {
    combinations := [];
    var k := 0;
    while k < |rel|
      invariant 0 <= k <= |rel|
      invariant combinations == PairRows(rel, rel[..k])
    {
      assert rel[..k + 1][..k] == rel[..k];
      combinations := combinations + [AllTrueRow(rel), OneFalseRow(rel, rel[k].name)];
      k := k + 1;
    }
    assert rel[..k] == rel;
  }

  method AppendProduct(rel: seq<InputDef>) returns (combinations: seq<Combination>)
    requires |rel| <= 3
    ensures combinations == ProductRows(rel)
  {
    var p := BoolProduct(|rel|);
    combinations := [];
    var j := 0;
    while j < |p|
      invariant 0 <= j <= |p|
      invariant combinations == RowsOf(rel, p[..j])
    {
      RowsOfSnoc(rel, p, j);
      combinations := combinations + [ProductRow(rel, p[j])];
      j := j + 1;
    }
    assert p[..j] == p;
  }

  lemma RowsOfSnoc(rel: seq<InputDef>, p: seq<seq<bool>>, j: nat)
    requires forall i :: 0 <= i < |p| ==> |p[i]| == |rel|
    requires j < |p|
    ensures RowsOf(rel, p[..j + 1]) == RowsOf(rel, p[..j]) + [ProductRow(rel, p[j])]
  {
    assert p[..j + 1][..j] == p[..j];
  }

  /** `[inp for inp in inputs if inp.name in condition_variables]` */
  method RelevantInputs(inputs: seq<InputDef>, vars: set<string>) returns (rel: seq<InputDef>)
    ensures rel == Relevant(inputs, vars)
  {
    rel := [];
    var i := 0;
    while i < |inputs|
      invariant 0 <= i <= |inputs|
      invariant rel == Relevant(inputs[..i], vars)
    {
      assert inputs[..i + 1][..i] == inputs[..i];
      if inputs[i].name in vars {
        rel := rel + [inputs[i]];
      }
      i := i + 1;
    }
    assert inputs[..i] == inputs;
  }
}
