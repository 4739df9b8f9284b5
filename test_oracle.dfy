/** `backend/services/test_oracle.py`: the expected output of a generated
    test case, found in four steps (a discrete output value, a boolean
    comparison, an arithmetic formula, common-sense defaults), never empty. */
module Oracle {
  import opened Common
  import opened Schemas
  import InputValues

  // ---------------------------------------------------------------------
  // The first number in a text: `re.findall(r'\d+(?:\.\d+)?', t)[0]`.
  // ---------------------------------------------------------------------

  function Pow10(k: nat): (r: nat)
    ensures r >= 1
  {
    if k == 0 then 1 else 10 * Pow10(k - 1)
  }

  /** The length of the digit run that starts at `i`. */
  function DigitRun(s: string, i: nat): (n: nat)
    requires i <= |s|
    ensures i + n <= |s|
    ensures AllDigits(s[i..i + n])
    ensures i + n == |s| || !IsDigit(s[i + n])
    decreases |s| - i
  {
    if i == |s| || !IsDigit(s[i]) then 0
    else
      var n := DigitRun(s, i + 1);
      assert s[i..i + 1 + n] == [s[i]] + s[i + 1..i + 1 + n];
      1 + n
  }

  /** The first position from `i` on that holds a digit, or `|s|`. */
  function FirstDigitFrom(s: string, i: nat): (r: nat)
    requires i <= |s|
    ensures i <= r <= |s|
    ensures r < |s| ==> IsDigit(s[r])
    ensures forall j :: i <= j < r ==> !IsDigit(s[j])
    decreases |s| - i
  {
    if i == |s| || IsDigit(s[i]) then i else FirstDigitFrom(s, i + 1)
  }

  /** `float(numbers[0])` when the text holds a number: the leftmost digit
      run, extended by a fraction when a point and a digit follow it. */
  function FirstNumber(s: string): (r: Option<real>)
    ensures r.None? <==> forall j :: 0 <= j < |s| ==> !IsDigit(s[j])
    ensures r.Some? ==> r.value >= 0.0
  {
    var i := FirstDigitFrom(s, 0);
    if i == |s| then None else Some(NumberAt(s, i))
  }

  /** The number whose digit run starts at `i`. */
  function NumberAt(s: string, i: nat): (r: real)
    requires i <= |s|
    ensures r >= 0.0
  {
    var n := DigitRun(s, i);
    var whole := DigitsValue(s[i..i + n]) as real;
    var e := i + n;
    if e + 1 < |s| && s[e] == '.' && IsDigit(s[e + 1]) then
      var m := DigitRun(s, e + 1);
      whole + Fraction(s[e + 1..e + 1 + m])
    else whole
  }

  /** The value of the digits after a decimal point. */
  function Fraction(d: string): (r: real)
    requires AllDigits(d)
    ensures 0.0 <= r
  {
    var num := DigitsValue(d) as real;
    var den := Pow10(|d|) as real;
    assert den > 0.0;
    num / den
  }

  /** A digit run reads back as the number it spells. */
  lemma {:induction false} DigitsOfNat(n: nat)
    ensures AllDigits(NatToString(n))
    ensures DigitsValue(NatToString(n)) == n
  {
    var s := NatToString(n);
    if n >= 10 {
      DigitsOfNat(n / 10);
      assert s == NatToString(n / 10) + [DigitChar(n % 10)];
      assert s[..|s| - 1] == NatToString(n / 10);
    } else {
      assert s == [DigitChar(n)];
    }
  }

  /** A text that mentions a whole number after some digit-free words yields
      exactly that number as its threshold. */
  lemma NumberAfterWords(words: string, n: nat)
    requires forall j :: 0 <= j < |words| ==> !IsDigit(words[j])
    ensures FirstNumber(words + NatToString(n)) == Some(n as real)
  {
    DigitsOfNat(n);
    AppendedDigits(words, NatToString(n));
  }

  /** After digit-free words, the first digit run is the appended digits. */
  lemma AppendedDigits(words: string, d: string)
    requires forall j :: 0 <= j < |words| ==> !IsDigit(words[j])
    requires |d| > 0 && AllDigits(d)
    ensures FirstNumber(words + d) == Some(DigitsValue(d) as real)
  {
    var s := words + d;
    var w := |words|;
    forall j | 0 <= j < w
      ensures !IsDigit(s[j])
    {
      assert s[j] == words[j];
    }
    forall j | w <= j < |s|
      ensures IsDigit(s[j])
    {
      assert s[j] == d[j - w];
    }
    FirstDigitAt(s, w, 0);
    DigitRunToEnd(s, w);
    NumberRunsToEnd(s, w);
    assert s[w..] == d;
  }

  /** A number whose digit run ends the text has no fraction. */
  lemma NumberRunsToEnd(s: string, i: nat)
    requires i < |s| && FirstDigitFrom(s, 0) == i && DigitRun(s, i) == |s| - i
    ensures FirstNumber(s) == Some(DigitsValue(s[i..]) as real)
  {
    NumberAtWhole(s, i);
    assert s[i..i + DigitRun(s, i)] == s[i..];
  }

  /** A digit run that ends the text is read without a fraction. */
  lemma NumberAtWhole(s: string, i: nat)
    requires i <= |s| && i + DigitRun(s, i) == |s|
    ensures NumberAt(s, i) == DigitsValue(s[i..i + DigitRun(s, i)]) as real
  {
  }

  lemma {:induction false} FirstDigitAt(s: string, i: nat, k: nat)
    requires k <= i < |s| && IsDigit(s[i])
    requires forall j :: k <= j < i ==> !IsDigit(s[j])
    ensures FirstDigitFrom(s, k) == i
    decreases i - k
  {
    if k < i {
      FirstDigitAt(s, i, k + 1);
    }
  }

  lemma {:induction false} DigitRunToEnd(s: string, i: nat)
    requires i <= |s| && forall j :: i <= j < |s| ==> IsDigit(s[j])
    ensures DigitRun(s, i) == |s| - i
    decreases |s| - i
  {
    if i < |s| {
      DigitRunToEnd(s, i + 1);
    }
  }

  // ---------------------------------------------------------------------
  // Step 1: `_compute_discrete_output`.
  // ---------------------------------------------------------------------

  /** The words that make a possible value look like acceptance. */
  const SuccessWords: seq<string> := ["accept", "ok", "valid", "pass", "success"]

  predicate SuccessLike(v: string)
  {
    ContainsAny(Lower(v), SuccessWords)
  }

  /** The first success-like value of `pv[j..]`. */
  function FirstSuccess(pv: seq<string>, j: nat): (r: Option<string>)
    requires j <= |pv|
    ensures r.Some? ==> r.value in pv && SuccessLike(r.value)
    ensures r.None? ==> forall i :: j <= i < |pv| ==> !SuccessLike(pv[i])
    decreases |pv| - j
  {
    if j == |pv| then None
    else if SuccessLike(pv[j]) then Some(pv[j])
    else FirstSuccess(pv, j + 1)
  }

  /** Which way a threshold rule points. */
  datatype Direction = Above | Below | Neither

  function DirectionOf(text: string): Direction
  {
    if Contains(text, ">") || Contains(text, "exceed") || Contains(text, "above") then Above
    else if Contains(text, "<") || Contains(text, "below") then Below
    else Neither
  }

  /** The value is a number on the named side of the threshold. */
  predicate Crosses(v: Value, threshold: real, dir: Direction)
  {
    match NumericOf(v)
    case None => false
    case Some(x) => (dir == Above && x > threshold) || (dir == Below && x < threshold)
  }

  /** The inner loop over `pv[j..]`: the first value the rule text mentions,
      provided the text has a number and `v` crosses it. */
  function PossibleValueHit(text: string, v: Value, pv: seq<string>, j: nat): (r: Option<string>)
    requires j <= |pv|
    ensures r.Some? ==> r.value in pv && Contains(text, Lower(r.value))
    ensures r.Some? ==> FirstNumber(text).Some? && Crosses(v, FirstNumber(text).value, DirectionOf(text))
    decreases |pv| - j
  {
    if j == |pv| then None
    else if Contains(text, Lower(pv[j])) && FirstNumber(text).Some? && Crosses(v, FirstNumber(text).value, DirectionOf(text))
    then Some(pv[j])
    else PossibleValueHit(text, v, pv, j + 1)
  }

  /** The outer loop over `inputs[k..]` that have a test value. */
  function ThresholdHit(text: string, testInputs: Entries, inputs: seq<InputDef>, pv: seq<string>, k: nat): (r: Option<string>)
    requires k <= |inputs|
    ensures r.Some? ==> r.value in pv && Contains(text, Lower(r.value))
    ensures r.Some? ==> FirstNumber(text).Some? && DirectionOf(text) != Neither
    decreases |inputs| - k
  {
    if k == |inputs| then None
    else match Lookup(testInputs, inputs[k].name)
      case None => ThresholdHit(text, testInputs, inputs, pv, k + 1)
      case Some(v) =>
        match PossibleValueHit(text, v, pv, 0)
        case Some(x) => Some(x)
        case None => ThresholdHit(text, testInputs, inputs, pv, k + 1)
  }

  /** `_compute_discrete_output`: a threshold hit, else the first
      success-like value, else the first value; None without values. */
  function DiscreteOutput(rule: Rule, testInputs: Entries, inputs: seq<InputDef>, o: OutputDef): (r: Option<string>)
    ensures r.None? <==> !NonEmpty(o.possibleValues)
    ensures r.Some? ==> r.value in o.possibleValues.value
  {
    if !NonEmpty(o.possibleValues) then None
    else
      var pv := o.possibleValues.value;
      match ThresholdHit(RuleText(rule), testInputs, inputs, pv, 0)
      case Some(x) => Some(x)
      case None =>
        match FirstSuccess(pv, 0)
        case Some(x) => Some(x)
        case None => Some(pv[0])
  }

  /** Without a number in the rule text no threshold applies: the value is
      the first success-like one, or the first one when none looks like
      success. */
  lemma DiscreteWithoutNumber(rule: Rule, testInputs: Entries, inputs: seq<InputDef>, o: OutputDef)
    requires NonEmpty(o.possibleValues)
    requires FirstNumber(RuleText(rule)).None?
    ensures var pv := o.possibleValues.value;
      var r := DiscreteOutput(rule, testInputs, inputs, o).value;
      (exists i :: 0 <= i < |pv| && SuccessLike(pv[i])) ==> SuccessLike(r) && r in pv
    ensures var pv := o.possibleValues.value;
      (forall i :: 0 <= i < |pv| ==> !SuccessLike(pv[i])) ==> DiscreteOutput(rule, testInputs, inputs, o).value == pv[0]
  {
    var pv := o.possibleValues.value;
    assert ThresholdHit(RuleText(rule), testInputs, inputs, pv, 0).None?;
    if exists i :: 0 <= i < |pv| && SuccessLike(pv[i]) {
      assert FirstSuccess(pv, 0).Some?;
    }
  }

  /** "invalid" contains "valid", so a value named INVALID counts as an
      acceptance value. */
  lemma InvalidLooksLikeSuccess()
    ensures SuccessLike("INVALID")
  {
    assert Lower("INVALID") == "invalid";
    assert "valid" <= "invalid"[2..];
    assert Contains("invalid"[2..], "valid");
    ContainsDrop("invalid", 2, "valid");
    assert Contains(Lower("INVALID"), SuccessWords[2]);
  }

  // ---------------------------------------------------------------------
  // Step 2: `_compute_boolean_output`.
  // ---------------------------------------------------------------------

  /** The comparison the rule text names, applied to `x` and the threshold. */
  function Compare(text: string, x: real, threshold: real): Option<bool>
  {
    if Contains(text, ">=") || Contains(text, "at least") then Some(x >= threshold)
    else if Contains(text, ">") || Contains(text, "greater") || Contains(text, "exceed") then Some(x > threshold)
    else if Contains(text, "<=") || Contains(text, "at most") then Some(x <= threshold)
    else if Contains(text, "<") || Contains(text, "less") || Contains(text, "below") then Some(x < threshold)
    else if Contains(text, "==") || Contains(text, "equal") then Some(x == threshold)
    else None
  }

  /** The input loop: the first input named in the rule text whose test value
      is a number decides, when the text has a number and a comparison. */
  function ComparisonHit(text: string, testInputs: Entries, inputs: seq<InputDef>, k: nat): (r: Option<bool>)
    requires k <= |inputs|
    ensures r.Some? ==> FirstNumber(text).Some?
    decreases |inputs| - k
  {
    if k == |inputs| then None
    else
      var d := inputs[k];
      var v := Lookup(testInputs, d.name);
      if Contains(text, Lower(d.name)) && v.Some? && NumericOf(v.value).Some? && FirstNumber(text).Some?
         && Compare(text, NumericOf(v.value).value, FirstNumber(text).value).Some?
      then Compare(text, NumericOf(v.value).value, FirstNumber(text).value)
      else ComparisonHit(text, testInputs, inputs, k + 1)
  }

  const AlarmWords: seq<string> := ["alarm", "warning", "alert", "error"]

  /** `_compute_boolean_output`: the comparison, else False for alarm-like
      names and True otherwise. The source's `Optional[bool]` is never None. */
  function BooleanOutput(rule: Rule, testInputs: Entries, inputs: seq<InputDef>, o: OutputDef): (r: bool)
    ensures ComparisonHit(RuleText(rule), testInputs, inputs, 0).None? ==> (r <==> !ContainsAny(Lower(o.name), AlarmWords))
    ensures FirstNumber(RuleText(rule)).None? ==> (r <==> !ContainsAny(Lower(o.name), AlarmWords))
  {
    match ComparisonHit(RuleText(rule), testInputs, inputs, 0)
    case Some(b) => b
    case None => !ContainsAny(Lower(o.name), AlarmWords)
  }

  // ---------------------------------------------------------------------
  // Step 3: `_compute_arithmetic_output`.
  // ---------------------------------------------------------------------

  /** `data_type.lower() in ['int', 'integer', 'float', 'double']` */
  predicate IsArithmeticType(dataType: string)
  {
    Lower(dataType) in ["int", "integer", "float", "double"]
  }

  /** The numeric test values, in dict order (`numeric_inputs.values()`). */
  function NumericValues(e: Entries): (r: seq<real>)
    ensures |r| <= |e|
    ensures r == [] <==> forall i :: 0 <= i < |e| ==> NumericOf(e[i].1).None?
  {
    if e == [] then []
    else
      assert forall i :: 1 <= i < |e| ==> e[i] == e[1..][i - 1];
      match NumericOf(e[0].1)
      case Some(x) => [x] + NumericValues(e[1..])
      case None => NumericValues(e[1..])
  }

  function Sum(xs: seq<real>): real
  {
    if xs == [] then 0.0 else xs[0] + Sum(xs[1..])
  }

  function Product(xs: seq<real>): real
  {
    if xs == [] then 1.0 else xs[0] * Product(xs[1..])
  }

  /** `int(x)` for an integer output, `x` otherwise. */
  function AsOutputType(o: OutputDef, x: real): real
  {
    if InputValues.IsIntegerType(o.dataType) then Trunc(x) as real else x
  }

  /** `_compute_arithmetic_output`: the formula the expected behavior names,
      over the numeric test values; None without numeric values, without a
      formula word, or for a difference of fewer than two values. */
  function ArithmeticOutput(rule: Rule, testInputs: Entries, o: OutputDef): (r: Option<real>)
    ensures NumericValues(testInputs) == [] ==> r.None?
  {
    var text := Lower(rule.expectedBehavior);
    var xs := NumericValues(testInputs);
    if xs == [] then None
    else if Contains(text, "sum") || Contains(text, "+") || Contains(text, "add") then Some(AsOutputType(o, Sum(xs)))
    else if Contains(text, "product") || Contains(text, "*") || Contains(text, "multiply") then Some(AsOutputType(o, Product(xs)))
    else if Contains(text, "difference") || Contains(text, "-") || Contains(text, "subtract") then
      if |xs| >= 2 then Some(AsOutputType(o, xs[0] - xs[1])) else None
    else if Contains(text, "average") || Contains(text, "mean") then Some(AsOutputType(o, Sum(xs) / |xs| as real))
    else None
  }

  /** An average lies between the smallest and the largest value. */
  lemma {:induction false} SumBounds(xs: seq<real>, lo: real, hi: real)
    requires forall i :: 0 <= i < |xs| ==> lo <= xs[i] <= hi
    ensures |xs| as real * lo <= Sum(xs) <= |xs| as real * hi
  {
    if xs != [] {
      assert forall i :: 0 <= i < |xs| - 1 ==> xs[1..][i] == xs[i + 1];
      SumBounds(xs[1..], lo, hi);
    }
  }

  // ---------------------------------------------------------------------
  // Step 4: `_infer_common_sense_output`.
  // ---------------------------------------------------------------------

  /** A numeric test value outside its input's (inferred) range. */
  predicate Violates(d: InputDef, testInputs: Entries)
  {
    var v := Lookup(testInputs, d.name);
    var range := InputValues.InferRange(d);
    v.Some? && NumericOf(v.value).Some? &&
    (NumericOf(v.value).value < range.0 || NumericOf(v.value).value > range.1)
  }

  /** Some input's test value violates its range. */
  predicate HasViolation(inputs: seq<InputDef>, testInputs: Entries)
  {
    exists i :: 0 <= i < |inputs| && Violates(inputs[i], testInputs)
  }

  const FlagWords: seq<string> := ["alarm", "warning", "alert", "error", "flag"]

  /** The value a result-named output defaults to. */
  function ResultDefault(o: OutputDef): Value
  {
    if NonEmpty(o.possibleValues) then VStr(o.possibleValues.value[0])
    else if IsBoolType(o.dataType) then VBool(true)
    else if InputValues.IsIntegerType(o.dataType) then VNum(1.0)
    else if Lower(o.dataType) in ["float", "double"] then VNum(1.0)
    else VStr("SUCCESS")
  }

  /** A status output whose values hold nothing success-like. */
  predicate PlainStatus(o: OutputDef)
  {
    Contains(Lower(o.name), "status") && NonEmpty(o.possibleValues) && FirstSuccess(o.possibleValues.value, 0).None?
  }

  /** The value the common-sense step gives output `o`, except that a
      `PlainStatus` output leaves an earlier value of the same name alone. */
  function CommonSenseValue(o: OutputDef, violation: bool): Value
  {
    var name := Lower(o.name);
    if Contains(name, "status") then
      if NonEmpty(o.possibleValues) then
        match FirstSuccess(o.possibleValues.value, 0)
        case Some(x) => VStr(x)
        case None => VStr(o.possibleValues.value[0])
      else VStr("ACCEPTED")
    else if Contains(name, "result") then ResultDefault(o)
    else if IsBoolType(o.dataType) then
      VBool(if ContainsAny(name, FlagWords) then violation else !violation)
    else if IsArithmeticType(o.dataType) then VNum(0.0)
    else if NonEmpty(o.possibleValues) then VStr(o.possibleValues.value[0])
    else VStr("OK")
  }

  /** One pass of the output loop over `result`. */
  function CommonSenseStep(result: map<string, Value>, o: OutputDef, violation: bool): (r: map<string, Value>)
    ensures o.name in r
    ensures forall k :: k != o.name ==> (k in r <==> k in result) && (k in r ==> r[k] == result[k])
  {
    if PlainStatus(o) && o.name in result then result
    else result[o.name := CommonSenseValue(o, violation)]
  }

  /** The output loop over `outputs`, in order. */
  function CommonSenseFold(outputs: seq<OutputDef>, violation: bool): map<string, Value>
  {
    if outputs == [] then map[]
    else CommonSenseStep(CommonSenseFold(outputs[..|outputs| - 1], violation), outputs[|outputs| - 1], violation)
  }

  /** `_infer_common_sense_output` as a value. */
  function CommonSenseOutput(inputs: seq<InputDef>, testInputs: Entries, outputs: seq<OutputDef>): map<string, Value>
  {
    var m := CommonSenseFold(outputs, HasViolation(inputs, testInputs));
    if m == map[] then map["status" := VStr("ACCEPTED")] else m
  }

  /** Every output name becomes a key, and nothing else does; without
      outputs the result is the generic acceptance. */
  lemma {:induction false} CommonSenseFoldKeys(outputs: seq<OutputDef>, violation: bool)
    ensures forall k :: k in CommonSenseFold(outputs, violation) <==> exists i :: 0 <= i < |outputs| && outputs[i].name == k
  {
    if outputs != [] {
      var n := |outputs| - 1;
      CommonSenseFoldKeys(outputs[..n], violation);
      assert forall i :: 0 <= i < n ==> outputs[..n][i] == outputs[i];
    }
  }

  lemma CommonSenseKeys(inputs: seq<InputDef>, testInputs: Entries, outputs: seq<OutputDef>)
    ensures outputs == [] ==> CommonSenseOutput(inputs, testInputs, outputs) == map["status" := VStr("ACCEPTED")]
    ensures outputs != [] ==> forall k :: k in CommonSenseOutput(inputs, testInputs, outputs) <==>
              exists i :: 0 <= i < |outputs| && outputs[i].name == k
  {
    var violation := HasViolation(inputs, testInputs);
    CommonSenseFoldKeys(outputs, violation);
    if outputs != [] {
      assert outputs[0].name in CommonSenseFold(outputs, violation);
    }
  }

  /** The last output of a name decides its value, unless it is a
      `PlainStatus` output following an earlier one of that name. */
  lemma {:induction false} CommonSenseLastWins(outputs: seq<OutputDef>, violation: bool, i: nat)
    requires i < |outputs|
    requires forall j :: i < j < |outputs| ==> outputs[j].name != outputs[i].name
    requires !PlainStatus(outputs[i]) || forall j :: 0 <= j < i ==> outputs[j].name != outputs[i].name
    ensures outputs[i].name in CommonSenseFold(outputs, violation)
    ensures CommonSenseFold(outputs, violation)[outputs[i].name] == CommonSenseValue(outputs[i], violation)
  {
    var n := |outputs| - 1;
    var init := outputs[..n];
    if i < n {
      assert init[i] == outputs[i];
      CommonSenseLastWins(init, violation, i);
    } else if PlainStatus(outputs[i]) {
      CommonSenseFoldKeys(init, violation);
      assert forall j :: 0 <= j < n ==> init[j] == outputs[j];
    }
  }

  /** An alarm-like boolean output is true exactly when some input value
      violates its range; any other boolean output is its negation. */
  lemma AlarmMeansViolation(inputs: seq<InputDef>, testInputs: Entries, outputs: seq<OutputDef>, i: nat)
    requires i < |outputs| && forall j :: i < j < |outputs| ==> outputs[j].name != outputs[i].name
    requires IsBoolType(outputs[i].dataType)
    requires !Contains(Lower(outputs[i].name), "status") && !Contains(Lower(outputs[i].name), "result")
    ensures var r := CommonSenseOutput(inputs, testInputs, outputs);
      outputs[i].name in r &&
      r[outputs[i].name] == VBool(if ContainsAny(Lower(outputs[i].name), FlagWords)
                                  then HasViolation(inputs, testInputs)
                                  else !HasViolation(inputs, testInputs))
  {
    var violation := HasViolation(inputs, testInputs);
    CommonSenseFoldKeys(outputs, violation);
    assert outputs[i].name in CommonSenseFold(outputs, violation);
    CommonSenseLastWins(outputs, violation, i);
  }

  /** A status output whose values hold nothing success-like keeps the value
      an earlier output of the same name set, where every other output
      overwrites it. */
  lemma PlainStatusKeepsEarlier(first: OutputDef, second: OutputDef, violation: bool)
    requires first.name == second.name && PlainStatus(second)
    ensures CommonSenseFold([first, second], violation) == map[first.name := CommonSenseValue(first, violation)]
  {
    assert [first, second][..1] == [first];
    assert [first][..0] == [];
    var m := CommonSenseFold([first], violation);
    assert CommonSenseFold([first][..0], violation) == map[];
    assert m == CommonSenseStep(CommonSenseFold([first][..0], violation), first, violation);
    assert m == map[first.name := CommonSenseValue(first, violation)];
    assert CommonSenseFold([first, second], violation) == CommonSenseStep(m, second, violation);
  }

  /** The range check of one input (the body of the `has_violation` loop). */
  method CheckInput(d: InputDef, testInputs: Entries) returns (violated: bool)
    ensures violated == Violates(d, testInputs)
  {
    violated := false;
    var v := Lookup(testInputs, d.name);
    if v.Some? {
      var x := NumericOf(v.value);
      if x.Some? {
        var range := InputValues.InferRange(d);
        if x.value < range.0 {
          violated := true;
        }
        if x.value > range.1 {
          violated := true;
        }
      }
    }
  }

  /** The `has_violation` loop over the inputs. */
  method FindViolation(inputs: seq<InputDef>, testInputs: Entries) returns (hasViolation: bool)
    ensures hasViolation == HasViolation(inputs, testInputs)
  {
    hasViolation := false;
    var k := 0;
    while k < |inputs|
      invariant 0 <= k <= |inputs|
      invariant hasViolation <==> exists i :: 0 <= i < k && Violates(inputs[i], testInputs)
    {
      var violated := CheckInput(inputs[k], testInputs);
      if violated {
        hasViolation := true;
      }
      k := k + 1;
    }
  }

  /** `_infer_common_sense_output`: fill `result` output by output, then fall
      back to the generic acceptance when it stayed empty. */
  method InferCommonSenseOutput(inputs: seq<InputDef>, testInputs: Entries, outputs: seq<OutputDef>)
    returns (result: map<string, Value>)
    ensures result == CommonSenseOutput(inputs, testInputs, outputs)
  {
    var violation := FindViolation(inputs, testInputs);
    result := map[];
    var k := 0;
    while k < |outputs|
      invariant 0 <= k <= |outputs|
      invariant result == CommonSenseFold(outputs[..k], violation)
    {
      assert outputs[..k + 1][..k] == outputs[..k];
      result := ApplyOutput(result, outputs[k], violation);
      k := k + 1;
    }
    assert outputs[..k] == outputs;
    if result == map[] {
      result := map["status" := VStr("ACCEPTED")];
    }
  }

  /** The body of the output loop for one output. */
  method ApplyOutput(result: map<string, Value>, o: OutputDef, violation: bool) returns (r: map<string, Value>)
    ensures r == CommonSenseStep(result, o, violation)
  {
    var name := Lower(o.name);
    r := result;
    if Contains(name, "status") {
      if NonEmpty(o.possibleValues) {
        var pv := o.possibleValues.value;
        var j := 0;
        var found := false;
        while j < |pv| && !found
          invariant 0 <= j <= |pv|
          invariant !found ==> r == result && FirstSuccess(pv, 0) == FirstSuccess(pv, j)
          invariant found ==> FirstSuccess(pv, 0).Some? && r == result[o.name := VStr(FirstSuccess(pv, 0).value)]
          decreases |pv| - j, !found
        {
          if SuccessLike(pv[j]) {
            r := result[o.name := VStr(pv[j])];
            found := true;
          } else {
            j := j + 1;
          }
        }
        if o.name !in r {
          r := r[o.name := VStr(pv[0])];
        }
      } else {
        r := result[o.name := VStr("ACCEPTED")];
      }
    } else {
      r := result[o.name := CommonSenseValue(o, violation)];
    }
  }

  // ---------------------------------------------------------------------
  // `compute_expected_output`
  // ---------------------------------------------------------------------

  /** The first output, from `k` on, with possible values, and its value. */
  function DiscreteStep(rule: Rule, testInputs: Entries, inputs: seq<InputDef>, outputs: seq<OutputDef>, k: nat): (r: Option<(string, string)>)
    requires k <= |outputs|
    ensures r.None? <==> forall i :: k <= i < |outputs| ==> !NonEmpty(outputs[i].possibleValues)
    decreases |outputs| - k
  {
    if k == |outputs| then None
    else match DiscreteOutput(rule, testInputs, inputs, outputs[k])
      case Some(x) => Some((outputs[k].name, x))
      case None => DiscreteStep(rule, testInputs, inputs, outputs, k + 1)
  }

  /** The first boolean output, from `k` on, and its value. */
  function BooleanStep(rule: Rule, testInputs: Entries, inputs: seq<InputDef>, outputs: seq<OutputDef>, k: nat): (r: Option<(string, bool)>)
    requires k <= |outputs|
    ensures r.None? <==> forall i :: k <= i < |outputs| ==> !IsBoolType(outputs[i].dataType)
    decreases |outputs| - k
  {
    if k == |outputs| then None
    else if IsBoolType(outputs[k].dataType) then Some((outputs[k].name, BooleanOutput(rule, testInputs, inputs, outputs[k])))
    else BooleanStep(rule, testInputs, inputs, outputs, k + 1)
  }

  /** The first numeric output, from `k` on, with an arithmetic value. */
  function ArithmeticStep(rule: Rule, testInputs: Entries, outputs: seq<OutputDef>, k: nat): (r: Option<(string, real)>)
    requires k <= |outputs|
    ensures NumericValues(testInputs) == [] ==> r.None?
    decreases |outputs| - k
  {
    if k == |outputs| then None
    else if IsArithmeticType(outputs[k].dataType) && ArithmeticOutput(rule, testInputs, outputs[k]).Some? then
      Some((outputs[k].name, ArithmeticOutput(rule, testInputs, outputs[k]).value))
    else ArithmeticStep(rule, testInputs, outputs, k + 1)
  }

  /** `compute_expected_output`: REJECTED for invalid input; otherwise the
      first of the four steps that gives a value. The result is never empty. */
  function ComputeExpectedOutput(rule: Rule, testInputs: Entries, inputs: seq<InputDef>, outputs: seq<OutputDef>, isValid: bool)
    : (r: map<string, Value>)
    ensures !isValid ==> r == map["status" := VStr("REJECTED")]
    ensures exists k :: k in r
  {
    if !isValid then
      assert "status" in map["status" := VStr("REJECTED")];
      map["status" := VStr("REJECTED")]
    else match DiscreteStep(rule, testInputs, inputs, outputs, 0)
      case Some(p) =>
        assert p.0 in map[p.0 := VStr(p.1)];
        map[p.0 := VStr(p.1)]
      case None =>
        match BooleanStep(rule, testInputs, inputs, outputs, 0)
        case Some(p) =>
          assert p.0 in map[p.0 := VBool(p.1)];
          map[p.0 := VBool(p.1)]
        case None =>
          match ArithmeticStep(rule, testInputs, outputs, 0)
          case Some(p) =>
            assert p.0 in map[p.0 := VNum(p.1)];
            map[p.0 := VNum(p.1)]
          case None =>
            CommonSenseNonEmpty(inputs, testInputs, outputs);
            CommonSenseOutput(inputs, testInputs, outputs)
  }

  /** The common-sense step never answers with an empty dict. */
  lemma CommonSenseNonEmpty(inputs: seq<InputDef>, testInputs: Entries, outputs: seq<OutputDef>)
    ensures exists k :: k in CommonSenseOutput(inputs, testInputs, outputs)
  {
    var violation := HasViolation(inputs, testInputs);
    if outputs == [] {
      assert "status" in CommonSenseOutput(inputs, testInputs, outputs);
    } else {
      CommonSenseFoldKeys(outputs, violation);
      var m := CommonSenseFold(outputs, violation);
      assert outputs[0].name in m;
      assert m != map[];
      assert CommonSenseOutput(inputs, testInputs, outputs) == m;
    }
  }

  /** For valid input, the first output with possible values decides alone,
      with one of its own values. */
  lemma {:induction false} DiscreteDecides(rule: Rule, testInputs: Entries, inputs: seq<InputDef>, outputs: seq<OutputDef>, i: nat, k: nat)
    requires k <= i < |outputs| && NonEmpty(outputs[i].possibleValues)
    requires forall j :: k <= j < i ==> !NonEmpty(outputs[j].possibleValues)
    ensures var r := DiscreteStep(rule, testInputs, inputs, outputs, k);
      r.Some? && r.value.0 == outputs[i].name && r.value.1 in outputs[i].possibleValues.value
    decreases i - k
  {
    if k < i {
      DiscreteDecides(rule, testInputs, inputs, outputs, i, k + 1);
    }
  }

  lemma ExpectedOutputDiscrete(rule: Rule, testInputs: Entries, inputs: seq<InputDef>, outputs: seq<OutputDef>, i: nat)
    requires i < |outputs| && NonEmpty(outputs[i].possibleValues)
    requires forall j :: 0 <= j < i ==> !NonEmpty(outputs[j].possibleValues)
    ensures var r := ComputeExpectedOutput(rule, testInputs, inputs, outputs, true);
      r.Keys == {outputs[i].name} && r[outputs[i].name].VStr? &&
      r[outputs[i].name].s in outputs[i].possibleValues.value
  {
    DiscreteDecides(rule, testInputs, inputs, outputs, i, 0);
  }

  /** Without possible values anywhere, the first boolean output decides
      alone, and the arithmetic step is never reached. */
  lemma {:induction false} BooleanDecides(rule: Rule, testInputs: Entries, inputs: seq<InputDef>, outputs: seq<OutputDef>, i: nat, k: nat)
    requires k <= i < |outputs| && IsBoolType(outputs[i].dataType)
    requires forall j :: k <= j < i ==> !IsBoolType(outputs[j].dataType)
    ensures var r := BooleanStep(rule, testInputs, inputs, outputs, k);
      r.Some? && r.value.0 == outputs[i].name
    decreases i - k
  {
    if k < i {
      BooleanDecides(rule, testInputs, inputs, outputs, i, k + 1);
    }
  }

  lemma ExpectedOutputBoolean(rule: Rule, testInputs: Entries, inputs: seq<InputDef>, outputs: seq<OutputDef>, i: nat)
    requires forall j :: 0 <= j < |outputs| ==> !NonEmpty(outputs[j].possibleValues)
    requires i < |outputs| && IsBoolType(outputs[i].dataType)
    requires forall j :: 0 <= j < i ==> !IsBoolType(outputs[j].dataType)
    ensures var r := ComputeExpectedOutput(rule, testInputs, inputs, outputs, true);
      r.Keys == {outputs[i].name} && r[outputs[i].name].VBool?
  {
    BooleanDecides(rule, testInputs, inputs, outputs, i, 0);
  }

  /** When the common-sense step is reached, no output has possible values
      or a boolean type, so the range-violation branch never contributes:
      no value of the result is a boolean. */
  lemma {:induction false} FoldWithoutBooleans(outputs: seq<OutputDef>, violation: bool)
    requires forall j :: 0 <= j < |outputs| ==> !NonEmpty(outputs[j].possibleValues) && !IsBoolType(outputs[j].dataType)
    ensures forall k :: k in CommonSenseFold(outputs, violation) ==> !CommonSenseFold(outputs, violation)[k].VBool?
  {
    if outputs != [] {
      var n := |outputs| - 1;
      assert forall j :: 0 <= j < n ==> outputs[..n][j] == outputs[j];
      FoldWithoutBooleans(outputs[..n], violation);
    }
  }

  lemma CommonSenseReachedWithoutBooleans(rule: Rule, testInputs: Entries, inputs: seq<InputDef>, outputs: seq<OutputDef>)
    requires DiscreteStep(rule, testInputs, inputs, outputs, 0).None?
    requires BooleanStep(rule, testInputs, inputs, outputs, 0).None?
    requires ArithmeticStep(rule, testInputs, outputs, 0).None?
    ensures var r := ComputeExpectedOutput(rule, testInputs, inputs, outputs, true);
      r == CommonSenseOutput(inputs, testInputs, outputs) && forall k :: k in r ==> !r[k].VBool?
  {
    FoldWithoutBooleans(outputs, HasViolation(inputs, testInputs));
  }
}
