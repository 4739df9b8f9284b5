/** `frontend/src/utils/excelExporter.js`: what goes into the three
    spreadsheets. The spreadsheet library is not modelled: a sheet is the list
    of records (`json_to_sheet`) or of rows (`aoa_to_sheet`) it is built from,
    a workbook is its named sheets in the order they are appended, and writing
    the file is the `Written` outcome. The date in the default file names is a
    parameter. */
module ExcelExport {
  import opened Common
  import opened Schemas
  import Coverage

  /** A cell of an array-of-arrays sheet: a string, or a count kept as a number. */
  datatype Cell = Text(text: string) | Number(n: int)

  datatype Sheet =
    | Records(records: seq<seq<(string, string)>>)
    | Rows(rows: seq<seq<Cell>>)

  type Workbook = seq<(string, Sheet)>

  /** How an export call ends: an alert and nothing written, an exception out
      of the click handler, or a workbook written under a file name. */
  datatype Export =
    | Alerted(message: string)
    | Thrown(error: string)
    | Written(fileName: string, workbook: Workbook)

  /** `JSON.stringify(value, null, 2)` of a test case's inputs or expected output. */
  type Stringify = map<string, Value> -> string

  /** The template-literal rendering of the coverage percentage. */
  type ShowNumber = real -> string

  // ---------------------------------------------------------------------
  // File names
  // ---------------------------------------------------------------------

  /** `filename || fallback`: an absent or empty name falls back. */
  function FileNameOr(fileName: Option<string>, fallback: string): (r: string)
    ensures fileName.Some? && fileName.value != "" ==> r == fileName.value
    ensures fileName.None? || fileName.value == "" ==> r == fallback
  {
    if fileName.Some? && fileName.value != "" then fileName.value else fallback
  }

  function TestCasesFileName(requirementId: string, today: string): string
  {
    "test_cases_" + requirementId + "_" + today + ".xlsx"
  }

  function SelectedFileName(requirementId: string, today: string): string
  {
    "selected_test_cases_" + requirementId + "_" + today + ".xlsx"
  }

  function CoverageFileName(requirementId: string, today: string): string
  {
    "coverage_report_" + requirementId + "_" + today + ".xlsx"
  }

  // ---------------------------------------------------------------------
  // Rows of a test-case sheet
  // ---------------------------------------------------------------------

  /** The ten column headers, in the order the record literal lists them. */
  const Columns: seq<string> := ["Test Case ID", "Rule ID", "Test Type", "Scenario", "Inputs",
                                 "Expected Output", "Priority", "Validity", "Requirement", "Rule"]

  /** The record one test case becomes. */
  function Row(tc: TestCase, stringify: Stringify): (r: seq<(string, string)>)
    ensures |r| == |Columns|
    ensures forall i :: 0 <= i < |r| ==> r[i].0 == Columns[i]
  {
    [("Test Case ID", tc.tcId),
     ("Rule ID", tc.ruleId),
     ("Test Type", tc.testType),
     ("Scenario", tc.scenario),
     ("Inputs", stringify(tc.inputs)),
     ("Expected Output", stringify(tc.expectedOutput)),
     ("Priority", PriorityName(tc.priority)),
     ("Validity", ValidityName(tc.validity)),
     ("Requirement", tc.traceability.requirement),
     ("Rule", tc.traceability.rule)]
  }

  /** The value a record holds under a header (the first entry with it). */
  function Field(record: seq<(string, string)>, header: string): Option<string>
  {
    if record == [] then None
    else if record[0].0 == header then Some(record[0].1)
    else Field(record[1..], header)
  }

  /** The headers are distinct, and each column reads back the test-case
      field it is named after. */
  lemma RowReadsBack(tc: TestCase, stringify: Stringify)
    ensures NoDuplicates(Columns)
    ensures var r := Row(tc, stringify);
      && Field(r, "Test Case ID") == Some(tc.tcId)
      && Field(r, "Rule ID") == Some(tc.ruleId)
      && Field(r, "Test Type") == Some(tc.testType)
      && Field(r, "Scenario") == Some(tc.scenario)
      && Field(r, "Inputs") == Some(stringify(tc.inputs))
      && Field(r, "Expected Output") == Some(stringify(tc.expectedOutput))
      && Field(r, "Priority") == Some(PriorityName(tc.priority))
      && Field(r, "Validity") == Some(ValidityName(tc.validity))
      && Field(r, "Requirement") == Some(tc.traceability.requirement)
      && Field(r, "Rule") == Some(tc.traceability.rule)
      && (forall h :: h !in Columns ==> Field(r, h) == None)
  {
    var r := Row(tc, stringify);
    ColumnsDistinct();
    FieldFinds(r, 0); FieldFinds(r, 1); FieldFinds(r, 2); FieldFinds(r, 3); FieldFinds(r, 4);
    FieldFinds(r, 5); FieldFinds(r, 6); FieldFinds(r, 7); FieldFinds(r, 8); FieldFinds(r, 9);
    forall h | h !in Columns
      ensures Field(r, h) == None
    {
      FieldAbsent(r, h);
    }
  }

  lemma ColumnsDistinct()
    ensures NoDuplicates(Columns)
  {
    forall i, j | 0 <= i < j < |Columns|
      ensures Columns[i] != Columns[j]
    {
      if |Columns[i]| == |Columns[j]| {
        assert Columns[i][0] != Columns[j][0];
      }
    }
  }

  lemma {:induction false} FieldFinds(record: seq<(string, string)>, i: nat)
    requires i < |record|
    requires forall j :: 0 <= j < i ==> record[j].0 != record[i].0
    ensures Field(record, record[i].0) == Some(record[i].1)
  {
    if i > 0 {
      FieldFinds(record[1..], i - 1);
    }
  }

  lemma {:induction false} FieldAbsent(record: seq<(string, string)>, header: string)
    requires forall i :: 0 <= i < |record| ==> record[i].0 != header
    ensures Field(record, header) == None
  {
    if record != [] {
      FieldAbsent(record[1..], header);
    }
  }

  /** `cases.map(tc => ({...}))` */
  function RowsOf(cases: seq<TestCase>, stringify: Stringify): (r: seq<seq<(string, string)>>)
    ensures |r| == |cases|
    ensures forall n :: 0 <= n < |cases| ==> r[n] == Row(cases[n], stringify)
  {
    seq(|cases|, n requires 0 <= n < |cases| => Row(cases[n], stringify))
  }

  /** `reqId.substring(0, 31)` */
  function SheetName(reqId: string): (r: string)
    ensures |r| <= 31 && r <= reqId
    ensures |reqId| <= 31 ==> r == reqId
  {
    if |reqId| <= 31 then reqId else reqId[..31]
  }

  /** Two requirement ids that agree on their first 31 characters name their
      sheets alike, so the workbook gets two sheets of the same name. */
  lemma SheetNamesCollide(a: string, b: string)
    requires |a| >= 31 && |b| >= 31 && a[..31] == b[..31]
    ensures SheetName(a) == SheetName(b)
  {
  }

  // ---------------------------------------------------------------------
  // Grouping by requirement
  // ---------------------------------------------------------------------

  /** `tc.traceability.requirement` of each test case, in list order. */
  function Requirements(tcs: seq<TestCase>): (r: seq<string>)
    ensures |r| == |tcs|
    ensures forall i :: 0 <= i < |tcs| ==> r[i] == tcs[i].traceability.requirement
  {
    seq(|tcs|, i requires 0 <= i < |tcs| => tcs[i].traceability.requirement)
  }

  /** The test cases of one requirement, in list order: what `reduce` pushes
      into that requirement's array. */
  function GroupOf(tcs: seq<TestCase>, reqId: string): seq<TestCase>
  {
    if tcs == [] then []
    else
      var last := tcs[|tcs| - 1];
      GroupOf(tcs[..|tcs| - 1], reqId) + (if last.traceability.requirement == reqId then [last] else [])
  }

  /** The groups of a list of keys, in key order. */
  function GroupsFor(tcs: seq<TestCase>, keys: seq<string>): (r: seq<(string, seq<TestCase>)>)
    ensures |r| == |keys|
    ensures forall j :: 0 <= j < |keys| ==> r[j] == (keys[j], GroupOf(tcs, keys[j]))
  {
    seq(|keys|, j requires 0 <= j < |keys| => (keys[j], GroupOf(tcs, keys[j])))
  }

  /** `groupedByReq` with its keys in insertion order: one entry per distinct
      requirement id, in order of first appearance. */
  function Grouped(tcs: seq<TestCase>): seq<(string, seq<TestCase>)>
  {
    GroupsFor(tcs, Coverage.DistinctIds(Requirements(tcs)))
  }

  /** The keys of a list of groups. */
  function GroupKeys(groups: seq<(string, seq<TestCase>)>): (r: seq<string>)
    ensures |r| == |groups|
    ensures forall j :: 0 <= j < |groups| ==> r[j] == groups[j].0
  {
    seq(|groups|, j requires 0 <= j < |groups| => groups[j].0)
  }

  /** The number of test cases held by a list of groups. */
  function TotalSize(groups: seq<(string, seq<TestCase>)>): nat
  {
    if groups == [] then 0 else TotalSize(groups[..|groups| - 1]) + |groups[|groups| - 1].1|
  }

  lemma RequirementsSnoc(init: seq<TestCase>, tc: TestCase)
    ensures Requirements(init + [tc]) == Requirements(init) + [tc.traceability.requirement]
  {
  }

  lemma GroupOfSnoc(init: seq<TestCase>, tc: TestCase, reqId: string)
    ensures tc.traceability.requirement == reqId ==> GroupOf(init + [tc], reqId) == GroupOf(init, reqId) + [tc]
    ensures tc.traceability.requirement != reqId ==> GroupOf(init + [tc], reqId) == GroupOf(init, reqId)
  {
    assert (init + [tc])[..|init|] == init;
    assert GroupOf(init, reqId) + [] == GroupOf(init, reqId);
  }

  /** A group holds exactly the test cases of its requirement. */
  lemma {:induction false} GroupOfMembers(tcs: seq<TestCase>, reqId: string)
    ensures forall tc :: tc in GroupOf(tcs, reqId) <==> tc in tcs && tc.traceability.requirement == reqId
  {
    if tcs != [] {
      var init := tcs[..|tcs| - 1];
      GroupOfMembers(init, reqId);
      assert tcs == init + [tcs[|tcs| - 1]];
    }
  }

  /** Grouping keeps the order of the list: the group of a concatenation is
      the concatenation of the groups. */
  lemma {:induction false} GroupOfAppend(a: seq<TestCase>, b: seq<TestCase>, reqId: string)
    ensures GroupOf(a + b, reqId) == GroupOf(a, reqId) + GroupOf(b, reqId)
    decreases |b|
  {
    if b == [] {
      assert a + b == a;
    } else {
      var init := b[..|b| - 1];
      var last := b[|b| - 1];
      assert b == init + [last];
      assert a + b == (a + init) + [last];
      GroupOfAppend(a, init, reqId);
      GroupOfSnoc(a + init, last, reqId);
      GroupOfSnoc(init, last, reqId);
    }
  }

  lemma {:induction false} GroupOfUnlisted(tcs: seq<TestCase>, reqId: string)
    requires reqId !in Requirements(tcs)
    ensures GroupOf(tcs, reqId) == []
  {
    if tcs != [] {
      var init := tcs[..|tcs| - 1];
      assert Requirements(init) == Requirements(tcs)[..|tcs| - 1];
      GroupOfUnlisted(init, reqId);
      assert Requirements(tcs)[|tcs| - 1] == tcs[|tcs| - 1].traceability.requirement;
    }
  }

  /** Adding one test case adds one to the total of the groups of distinct
      keys when its requirement is one of them, and nothing otherwise. */
  lemma {:induction false} TotalSizeSnoc(init: seq<TestCase>, tc: TestCase, keys: seq<string>)
    requires NoDuplicates(keys)
    ensures TotalSize(GroupsFor(init + [tc], keys))
         == TotalSize(GroupsFor(init, keys)) + (if tc.traceability.requirement in keys then 1 else 0)
  {
    if keys != [] {
      var ks := keys[..|keys| - 1];
      var k := keys[|keys| - 1];
      assert keys == ks + [k];
      assert GroupsFor(init + [tc], keys)[..|ks|] == GroupsFor(init + [tc], ks);
      assert GroupsFor(init, keys)[..|ks|] == GroupsFor(init, ks);
      TotalSizeSnoc(init, tc, ks);
      GroupOfSnoc(init, tc, k);
      assert k !in ks;
    }
  }

  lemma TotalSizeNewKey(tcs: seq<TestCase>, keys: seq<string>, k: string)
    ensures TotalSize(GroupsFor(tcs, keys + [k])) == TotalSize(GroupsFor(tcs, keys)) + |GroupOf(tcs, k)|
  {
    var g := GroupsFor(tcs, keys + [k]);
    assert g[..|keys|] == GroupsFor(tcs, keys);
    assert g[|keys|] == (k, GroupOf(tcs, k));
  }

  /** The groups together hold every test case exactly once. */
  lemma {:induction false} GroupedTotal(tcs: seq<TestCase>)
    ensures TotalSize(Grouped(tcs)) == |tcs|
  {
    if tcs != [] {
      var init := tcs[..|tcs| - 1];
      var tc := tcs[|tcs| - 1];
      var r := tc.traceability.requirement;
      assert tcs == init + [tc];
      GroupedTotal(init);
      var keys := Coverage.DistinctIds(Requirements(init));
      Coverage.DistinctIdsSpec(Requirements(init));
      RequirementsSnoc(init, tc);
      assert Requirements(tcs)[..|tcs| - 1] == Requirements(init);
      TotalSizeSnoc(init, tc, keys);
      if r !in keys {
        assert Coverage.DistinctIds(Requirements(tcs)) == keys + [r];
        TotalSizeNewKey(tcs, keys, r);
        GroupOfUnlisted(init, r);
        GroupOfSnoc(init, tc, r);
      } else {
        assert Coverage.DistinctIds(Requirements(tcs)) == keys;
      }
    }
  }

  /** Every test case lies in exactly one group: the one of its own
      requirement, whose key occurs once; no group is empty; and the groups
      together hold as many test cases as the list. */
  lemma EveryCaseInOneGroup(tcs: seq<TestCase>)
    ensures var g := Grouped(tcs);
      && NoDuplicates(GroupKeys(g))
      && (forall x :: x in GroupKeys(g) <==> x in Requirements(tcs))
      && (forall j :: 0 <= j < |g| ==> |g[j].1| > 0)
      && (forall j, tc :: 0 <= j < |g| && tc in g[j].1 ==> tc in tcs && tc.traceability.requirement == g[j].0)
      && (forall tc :: tc in tcs ==>
            exists j :: 0 <= j < |g| && g[j].0 == tc.traceability.requirement && tc in g[j].1)
      && TotalSize(g) == |tcs|
  {
    var g := Grouped(tcs);
    var keys := Coverage.DistinctIds(Requirements(tcs));
    Coverage.DistinctIdsSpec(Requirements(tcs));
    assert GroupKeys(g) == keys;
    forall j | 0 <= j < |g|
      ensures |g[j].1| > 0
      ensures forall tc :: tc in g[j].1 ==> tc in tcs && tc.traceability.requirement == g[j].0
    {
      GroupOfMembers(tcs, keys[j]);
      assert keys[j] in Requirements(tcs);
      var i :| 0 <= i < |Requirements(tcs)| && Requirements(tcs)[i] == keys[j];
      assert tcs[i] in g[j].1;
    }
    forall tc | tc in tcs
      ensures exists j :: 0 <= j < |g| && g[j].0 == tc.traceability.requirement && tc in g[j].1
    {
      var i :| 0 <= i < |tcs| && tcs[i] == tc;
      assert Requirements(tcs)[i] == tc.traceability.requirement;
      assert tc.traceability.requirement in Requirements(tcs);
      assert tc.traceability.requirement in keys;
      var j :| 0 <= j < |keys| && keys[j] == tc.traceability.requirement;
      GroupOfMembers(tcs, keys[j]);
    }
    GroupedTotal(tcs);
  }

  /** One more test case: its requirement's group grows by it, or, for a new
      requirement, a group of it alone is appended. */
  lemma GroupedSnoc(init: seq<TestCase>, tc: TestCase)
    ensures var g := Grouped(init);
      var r := tc.traceability.requirement;
      && ((forall k :: 0 <= k < |g| ==> g[k].0 != r) ==> Grouped(init + [tc]) == g + [(r, [tc])])
      && (forall k :: 0 <= k < |g| && g[k].0 == r ==> Grouped(init + [tc]) == g[k := (r, g[k].1 + [tc])])
  {
    var g := Grouped(init);
    var g' := Grouped(init + [tc]);
    var r := tc.traceability.requirement;
    var keys := Coverage.DistinctIds(Requirements(init));
    Coverage.DistinctIdsSpec(Requirements(init));
    RequirementsSnoc(init, tc);
    assert (Requirements(init) + [r])[..|init|] == Requirements(init);
    if r !in keys {
      assert Coverage.DistinctIds(Requirements(init + [tc])) == keys + [r];
      assert g' == GroupsFor(init + [tc], keys + [r]);
      assert g == GroupsFor(init, keys);
      GroupOfUnlisted(init, r);
      GroupOfSnoc(init, tc, r);
      assert GroupOf(init, r) + [tc] == [tc];
      assert g'[|keys|] == (r, [tc]);
      forall j | 0 <= j < |keys|
        ensures g'[j] == g[j]
      {
        assert g'[j] == ((keys + [r])[j], GroupOf(init + [tc], (keys + [r])[j]));
        assert (keys + [r])[j] == keys[j] && keys[j] != r;
        GroupOfSnoc(init, tc, keys[j]);
      }
      assert g' == g + [(r, [tc])];
    } else {
      assert Coverage.DistinctIds(Requirements(init + [tc])) == keys;
      assert g' == GroupsFor(init + [tc], keys);
      assert g == GroupsFor(init, keys);
      forall k | 0 <= k < |g| && g[k].0 == r
        ensures g' == g[k := (r, g[k].1 + [tc])]
      {
        forall j | 0 <= j < |keys|
          ensures g'[j] == g[k := (r, g[k].1 + [tc])][j]
        {
          GroupOfSnoc(init, tc, keys[j]);
          if j != k {
            assert keys[j] != keys[k];
          }
        }
      }
    }
  }

  /** `groupedByReq[reqId]`: the group stored under a key. */
  function GroupAt(groups: seq<(string, seq<TestCase>)>, key: string): seq<TestCase>
  {
    if groups == [] then []
    else if groups[0].0 == key then groups[0].1
    else GroupAt(groups[1..], key)
  }

  lemma {:induction false} GroupAtFinds(groups: seq<(string, seq<TestCase>)>, j: nat)
    requires j < |groups| && NoDuplicates(GroupKeys(groups))
    ensures GroupAt(groups, groups[j].0) == groups[j].1
  {
    if j > 0 {
      assert GroupKeys(groups)[0] != GroupKeys(groups)[j];
      assert GroupKeys(groups[1..]) == GroupKeys(groups)[1..];
      GroupAtFinds(groups[1..], j - 1);
    }
  }

  /** The reduce: for each test case in turn, find its requirement's array
      and push onto it, or start a new one. Inherited property names are not
      looked up here (see `TestCaseExportAsWritten`). */
  method GroupByRequirement(tcs: seq<TestCase>) returns (groups: seq<(string, seq<TestCase>)>)
    ensures groups == Grouped(tcs)
  {
    groups := [];
    for i := 0 to |tcs|
      invariant groups == Grouped(tcs[..i])
    {
      var reqId := tcs[i].traceability.requirement;
      var k := 0;
      while k < |groups| && groups[k].0 != reqId
        invariant 0 <= k <= |groups|
        invariant forall j :: 0 <= j < k ==> groups[j].0 != reqId
      {
        k := k + 1;
      }
      GroupedSnoc(tcs[..i], tcs[i]);
      assert tcs[..i + 1] == tcs[..i] + [tcs[i]];
      if k == |groups| {
        groups := groups + [(reqId, [tcs[i]])];
      } else {
        groups := groups[k := (reqId, groups[k].1 + [tcs[i]])];
      }
    }
    assert tcs[..|tcs|] == tcs;
  }

  // ---------------------------------------------------------------------
  // JavaScript's property order
  // ---------------------------------------------------------------------

  /** A canonical array index ("0", "7", "42", but not "007" or "4294967295"):
      the property names `Object.keys` lists first. */
  predicate IsArrayIndex(k: string)
  {
    k != "" && AllDigits(k) && (k[0] != '0' || |k| == 1) && DigitsValue(k) < 0xFFFF_FFFF
  }

  function IndexValue(k: string): nat
  {
    if AllDigits(k) then DigitsValue(k) else 0
  }

  /** Array indices first, in ascending numeric order; every other key after them. */
  predicate IndicesFirst(s: seq<string>)
  {
    forall i, j :: 0 <= i < j < |s| && IsArrayIndex(s[j]) ==>
      IsArrayIndex(s[i]) && IndexValue(s[i]) <= IndexValue(s[j])
  }

  /** Places an array index among the leading indices, before the first key
      that is not an index or has a larger value. */
  function InsertIndex(k: string, s: seq<string>): (r: seq<string>)
    ensures |r| == |s| + 1
  {
    if s == [] || !IsArrayIndex(s[0]) || IndexValue(k) <= IndexValue(s[0]) then [k] + s
    else [s[0]] + InsertIndex(k, s[1..])
  }

  /** The order of an object's own string keys after each key of `keys` is
      assigned in turn: an array index goes among the leading indices by
      value, any other key goes last. It is the order `Object.keys` and
      `Object.entries` report. */
  function KeyOrder(keys: seq<string>): (r: seq<string>)
    ensures |r| == |keys|
  {
    if keys == [] then []
    else
      var rest := KeyOrder(keys[..|keys| - 1]);
      var k := keys[|keys| - 1];
      if IsArrayIndex(k) then InsertIndex(k, rest) else rest + [k]
  }

  lemma IndicesFirstCons(x: string, s: seq<string>)
    requires IndicesFirst(s)
    requires forall y :: y in s && IsArrayIndex(y) ==> IsArrayIndex(x) && IndexValue(x) <= IndexValue(y)
    ensures IndicesFirst([x] + s)
  {
    forall i, j | 0 <= i < j < |[x] + s| && IsArrayIndex(([x] + s)[j])
      ensures IsArrayIndex(([x] + s)[i]) && IndexValue(([x] + s)[i]) <= IndexValue(([x] + s)[j])
    {
      assert ([x] + s)[j] == s[j - 1];
      if i == 0 {
        assert s[j - 1] in s;
      } else {
        assert ([x] + s)[i] == s[i - 1];
      }
    }
  }

  lemma DistinctCons(x: string, s: seq<string>)
    requires NoDuplicates(s) && x !in s
    ensures NoDuplicates([x] + s)
  {
    forall i, j | 0 <= i < j < |[x] + s|
      ensures ([x] + s)[i] != ([x] + s)[j]
    {
      assert ([x] + s)[j] == s[j - 1];
      if i > 0 {
        assert ([x] + s)[i] == s[i - 1];
      }
    }
  }

  /** Placing an index keeps the shape, adds the key and nothing else, and
      repeats nothing when the key was new. */
  lemma {:induction false} InsertIndexSpec(k: string, s: seq<string>)
    requires IsArrayIndex(k) && IndicesFirst(s)
    ensures var r := InsertIndex(k, s);
      && IndicesFirst(r)
      && (forall x :: x in r <==> x == k || x in s)
      && (k !in s && NoDuplicates(s) ==> NoDuplicates(r))
  {
    if s == [] || !IsArrayIndex(s[0]) || IndexValue(k) <= IndexValue(s[0]) {
      forall y | y in s && IsArrayIndex(y)
        ensures IndexValue(k) <= IndexValue(y)
      {
        var j :| 0 <= j < |s| && s[j] == y;
        if j > 0 {
          assert IsArrayIndex(s[0]) && IndexValue(s[0]) <= IndexValue(s[j]);
        }
      }
      IndicesFirstCons(k, s);
      if k !in s && NoDuplicates(s) {
        DistinctCons(k, s);
      }
    } else {
      var rest := InsertIndex(k, s[1..]);
      assert IndicesFirst(s[1..]) by {
        forall i, j | 0 <= i < j < |s[1..]| && IsArrayIndex(s[1..][j])
          ensures IsArrayIndex(s[1..][i]) && IndexValue(s[1..][i]) <= IndexValue(s[1..][j])
        {
          assert s[1..][i] == s[i + 1] && s[1..][j] == s[j + 1];
        }
      }
      InsertIndexSpec(k, s[1..]);
      forall y | y in rest && IsArrayIndex(y)
        ensures IndexValue(s[0]) <= IndexValue(y)
      {
        if y != k {
          var j :| 0 <= j < |s[1..]| && s[1..][j] == y;
          assert s[j + 1] == y;
        }
      }
      IndicesFirstCons(s[0], rest);
      if k !in s && NoDuplicates(s) {
        assert s[0] !in s[1..];
        assert NoDuplicates(s[1..]);
        DistinctCons(s[0], rest);
      }
    }
  }

  /** The key order lists the same keys, as many, each once when they were
      distinct, with the array indices first and ascending. */
  lemma {:induction false} KeyOrderPermutes(keys: seq<string>)
    ensures forall x :: x in KeyOrder(keys) <==> x in keys
    ensures NoDuplicates(keys) ==> NoDuplicates(KeyOrder(keys))
    ensures IndicesFirst(KeyOrder(keys))
  {
    if keys != [] {
      var init := keys[..|keys| - 1];
      var k := keys[|keys| - 1];
      var rest := KeyOrder(init);
      KeyOrderPermutes(init);
      assert keys == init + [k];
      if NoDuplicates(keys) {
        assert NoDuplicates(init);
        assert k !in init;
      }
      if IsArrayIndex(k) {
        InsertIndexSpec(k, rest);
      } else {
        var r := rest + [k];
        forall i, j | 0 <= i < j < |r| && IsArrayIndex(r[j])
          ensures IsArrayIndex(r[i]) && IndexValue(r[i]) <= IndexValue(r[j])
        {
          assert r[i] == rest[i] && r[j] == rest[j];
        }
        if NoDuplicates(keys) {
          forall i, j | 0 <= i < j < |r|
            ensures r[i] != r[j]
          {
            assert r[i] == rest[i];
            if j == |rest| {
              assert r[i] in rest;
            }
          }
        }
      }
    }
  }

  /** Without array-index keys the order is the insertion order, so groups
      come in order of first appearance. */
  lemma {:induction false} KeyOrderPlain(keys: seq<string>)
    requires forall k :: k in keys ==> !IsArrayIndex(k)
    ensures KeyOrder(keys) == keys
  {
    if keys != [] {
      var init := keys[..|keys| - 1];
      assert forall k :: k in init ==> k in keys;
      KeyOrderPlain(init);
      assert keys == init + [keys[|keys| - 1]];
    }
  }

  /** Integer-like ids jump ahead: "2" and "10" come before "REQ-1" although
      they were inserted after it, and "2" before "10". */
  lemma KeyOrderExample()
    ensures KeyOrder(["REQ-1", "10", "2"]) == ["2", "10", "REQ-1"]
  {
    ExampleKeys();
    var keys := ["REQ-1", "10", "2"];
    assert keys[..2] == ["REQ-1", "10"];
    assert KeyOrder(["REQ-1"]) == ["REQ-1"] by {
      assert ["REQ-1"][..0] == [];
    }
    assert KeyOrder(["REQ-1", "10"]) == ["10", "REQ-1"] by {
      assert ["REQ-1", "10"][..1] == ["REQ-1"];
    }
    assert InsertIndex("2", ["10", "REQ-1"]) == ["2", "10", "REQ-1"];
  }

  /** "10" and "2" are array indices of those values; "REQ-1" is not one. */
  lemma ExampleKeys()
    ensures IsArrayIndex("10") && IsArrayIndex("2") && !IsArrayIndex("REQ-1")
    ensures IndexValue("10") == 10 && IndexValue("2") == 2
  {
    assert !IsDigit("REQ-1"[0]);
    assert DigitsValue("10") == 10 by {
      assert "10"[..1] == "1";
      assert "1"[..0] == "";
    }
    assert DigitsValue("2") == 2 by {
      assert "2"[..0] == "";
    }
  }

  // ---------------------------------------------------------------------
  // exportTestCasesToExcel / exportSelectedTestCases
  // ---------------------------------------------------------------------

  /** One sheet per key of `order`, named by the first 31 characters of the
      id and holding the records of its group. */
  function SheetsFor(tcs: seq<TestCase>, order: seq<string>, stringify: Stringify): (wb: Workbook)
    ensures |wb| == |order|
    ensures forall j :: 0 <= j < |order| ==>
      wb[j] == (SheetName(order[j]), Records(RowsOf(GroupOf(tcs, order[j]), stringify)))
  {
    seq(|order|, j requires 0 <= j < |order| =>
      (SheetName(order[j]), Records(RowsOf(GroupOf(tcs, order[j]), stringify))))
  }

  /** The sheets in `Object.keys(groupedByReq)` order. */
  function TestCaseSheets(tcs: seq<TestCase>, stringify: Stringify): Workbook
  {
    SheetsFor(tcs, KeyOrder(GroupKeys(Grouped(tcs))), stringify)
  }

  /** `exportTestCasesToExcel`, with any requirement id grouped under its
      own name. */
  function TestCaseExport(testCases: Option<seq<TestCase>>, requirementId: string,
                          fileName: Option<string>, today: string, stringify: Stringify): (r: Export)
    ensures r.Alerted? <==> testCases.None? || |testCases.value| == 0
    ensures r.Alerted? ==> r.message == "No test cases to export"
    ensures !r.Thrown?
  {
    if testCases.None? || |testCases.value| == 0 then Alerted("No test cases to export")
    else Written(FileNameOr(fileName, TestCasesFileName(requirementId, today)), TestCaseSheets(testCases.value, stringify))
  }

  /** The sheet a group becomes. */
  function SheetOf(group: (string, seq<TestCase>), stringify: Stringify): (string, Sheet)
  {
    (SheetName(group.0), Records(RowsOf(group.1, stringify)))
  }

  function SheetsOf(groups: seq<(string, seq<TestCase>)>, stringify: Stringify): (r: Workbook)
    ensures |r| == |groups|
    ensures forall k :: 0 <= k < |groups| ==> r[k] == SheetOf(groups[k], stringify)
  {
    seq(|groups|, k requires 0 <= k < |groups| => SheetOf(groups[k], stringify))
  }

  /** The sheets are the groups, reordered: as many, each sheet one group's
      records under its shortened id and each group's sheet present; with no
      integer-like requirement id they come in order of first appearance. */
  lemma SheetsAreGroups(tcs: seq<TestCase>, stringify: Stringify)
    ensures |TestCaseSheets(tcs, stringify)| == |Grouped(tcs)|
    ensures forall s :: s in TestCaseSheets(tcs, stringify) <==> s in SheetsOf(Grouped(tcs), stringify)
    ensures (forall tc :: tc in tcs ==> !IsArrayIndex(tc.traceability.requirement)) ==>
      TestCaseSheets(tcs, stringify) == SheetsOf(Grouped(tcs), stringify)
  {
    var keys := GroupKeys(Grouped(tcs));
    Coverage.DistinctIdsSpec(Requirements(tcs));
    assert keys == Coverage.DistinctIds(Requirements(tcs));
    KeyOrderPermutes(keys);
    ReorderedSheets(tcs, keys, KeyOrder(keys), stringify);
    if forall tc :: tc in tcs ==> !IsArrayIndex(tc.traceability.requirement) {
      forall x | x in keys
        ensures !IsArrayIndex(x)
      {
        assert x in Requirements(tcs);
        var i :| 0 <= i < |Requirements(tcs)| && Requirements(tcs)[i] == x;
        assert tcs[i] in tcs;
      }
      KeyOrderPlain(keys);
      assert SheetsFor(tcs, keys, stringify) == SheetsOf(Grouped(tcs), stringify);
    }
  }

  /** Sheets in any order of the group keys are the groups' sheets. */
  lemma ReorderedSheets(tcs: seq<TestCase>, keys: seq<string>, order: seq<string>, stringify: Stringify)
    requires keys == GroupKeys(Grouped(tcs))
    requires |order| == |keys|
    requires forall x :: x in order <==> x in keys
    ensures |SheetsFor(tcs, order, stringify)| == |Grouped(tcs)|
    ensures forall s :: s in SheetsFor(tcs, order, stringify) <==> s in SheetsOf(Grouped(tcs), stringify)
  {
    var wb := SheetsFor(tcs, order, stringify);
    var g := Grouped(tcs);
    var gs := SheetsOf(g, stringify);
    forall s | s in wb
      ensures s in gs
    {
      var j :| 0 <= j < |wb| && wb[j] == s;
      assert order[j] in keys;
      var k :| 0 <= k < |keys| && keys[k] == order[j];
      assert g[k] == (keys[k], GroupOf(tcs, keys[k]));
      assert gs[k] == s;
    }
    forall s | s in gs
      ensures s in wb
    {
      var k :| 0 <= k < |gs| && gs[k] == s;
      assert keys[k] in order;
      var j :| 0 <= j < |order| && order[j] == keys[k];
      assert g[k] == (keys[k], GroupOf(tcs, keys[k]));
      assert wb[j] == s;
    }
  }

  /** The `j`th key of the sheet order, looked up among the groups, gives
      the `j`th sheet. */
  lemma SheetStep(tcs: seq<TestCase>, order: seq<string>, j: nat, stringify: Stringify)
    requires order == KeyOrder(GroupKeys(Grouped(tcs))) && j < |order|
    ensures (SheetName(order[j]), Records(RowsOf(GroupAt(Grouped(tcs), order[j]), stringify)))
         == TestCaseSheets(tcs, stringify)[j]
  {
    var g := Grouped(tcs);
    EveryCaseInOneGroup(tcs);
    KeyOrderPermutes(GroupKeys(g));
    assert order[j] in GroupKeys(g);
    var k :| 0 <= k < |g| && GroupKeys(g)[k] == order[j];
    GroupAtFinds(g, k);
  }

  /** `exportTestCasesToExcel`: nothing but an alert for a missing or empty
      list; otherwise the grouping, then one sheet appended per key. */
  method ExportTestCasesToExcel(testCases: Option<seq<TestCase>>, requirementId: string,
                                fileName: Option<string>, today: string, stringify: Stringify)
    returns (r: Export)
    ensures r == TestCaseExport(testCases, requirementId, fileName, today, stringify)
  {
    if testCases.None? || |testCases.value| == 0 {
      return Alerted("No test cases to export");
    }
    var tcs := testCases.value;
    var groupedByReq := GroupByRequirement(tcs);
    var order := KeyOrder(GroupKeys(groupedByReq));
    ghost var spec := TestCaseSheets(tcs, stringify);
    var workbook: Workbook := [];
    for j := 0 to |order|
      invariant workbook == spec[..j]
    {
      var reqId := order[j];
      SheetStep(tcs, order, j, stringify);
      var cases := GroupAt(groupedByReq, reqId);
      workbook := workbook + [(SheetName(reqId), Records(RowsOf(cases, stringify)))];
    }
    assert spec[..|order|] == spec;
    r := Written(FileNameOr(fileName, TestCasesFileName(requirementId, today)), workbook);
  }

  /** `exportSelectedTestCases`: an empty list alerts; any other list is
      exported as it is, under the "selected" file name. */
  function SelectedExport(selected: seq<TestCase>, requirementId: string, today: string,
                          stringify: Stringify): (r: Export)
    ensures selected == [] <==> r == Alerted("Please select test cases to export")
    ensures selected != [] ==>
      r == Written(SelectedFileName(requirementId, today), TestCaseSheets(selected, stringify))
  {
    if |selected| == 0 then Alerted("Please select test cases to export")
    else TestCaseExport(Some(selected), requirementId, Some(SelectedFileName(requirementId, today)), today, stringify)
  }

  // ---------------------------------------------------------------------
  // The inherited-name defect of the reduce
  // ---------------------------------------------------------------------

  /** The names an empty object literal inherits from `Object.prototype`;
      looking any of them up on `{}` gives a truthy value that is not an array. */
  const InheritedNames: set<string> :=
    {"constructor", "__proto__", "hasOwnProperty", "isPrototypeOf", "propertyIsEnumerable",
     "toLocaleString", "toString", "valueOf",
     "__defineGetter__", "__defineSetter__", "__lookupGetter__", "__lookupSetter__"}

  /** `exportTestCasesToExcel` as written: `acc[reqId]` on the `{}`
      accumulator finds the inherited member for such an id, skips the
      initialisation, and `acc[reqId].push` throws a TypeError, so nothing is
      written. */
  function TestCaseExportAsWritten(testCases: Option<seq<TestCase>>, requirementId: string,
                                   fileName: Option<string>, today: string, stringify: Stringify): (r: Export)
    ensures (testCases.Some? && exists tc :: tc in testCases.value && tc.traceability.requirement in InheritedNames)
            <==> r.Thrown?
    ensures !r.Thrown? ==> r == TestCaseExport(testCases, requirementId, fileName, today, stringify)
  {
    if testCases.None? || |testCases.value| == 0 then Alerted("No test cases to export")
    else if exists tc :: tc in testCases.value && tc.traceability.requirement in InheritedNames
    then Thrown("acc[reqId].push is not a function")
    else TestCaseExport(testCases, requirementId, fileName, today, stringify)
  }

  /** `exportSelectedTestCases` as written: the same alert for an empty
      list, then `exportTestCasesToExcel` as written under the "selected"
      file name. */
  function SelectedExportAsWritten(selected: seq<TestCase>, requirementId: string, today: string,
                                   stringify: Stringify): (r: Export)
    ensures selected == [] <==> r == Alerted("Please select test cases to export")
    ensures r.Thrown? <==> exists tc :: tc in selected && tc.traceability.requirement in InheritedNames
    ensures !r.Thrown? ==> r == SelectedExport(selected, requirementId, today, stringify)
  {
    if |selected| == 0 then Alerted("Please select test cases to export")
    else TestCaseExportAsWritten(Some(selected), requirementId, Some(SelectedFileName(requirementId, today)), today, stringify)
  }

  /** A single test case of requirement "constructor": the code as written
      throws and writes nothing, where the intended export writes one sheet
      named "constructor" holding that test case. */
  lemma InheritedNameBreaksExport(tc: TestCase, requirementId: string, today: string, stringify: Stringify)
    requires tc.traceability.requirement == "constructor"
    ensures TestCaseExportAsWritten(Some([tc]), requirementId, None, today, stringify).Thrown?
    ensures TestCaseExport(Some([tc]), requirementId, None, today, stringify)
         == Written(TestCasesFileName(requirementId, today), [("constructor", Records([Row(tc, stringify)]))])
  {
    var tcs := [tc];
    assert tc in tcs;
    assert Requirements(tcs) == ["constructor"];
    assert Coverage.DistinctIds(["constructor"]) == ["constructor"] by {
      assert ["constructor"][..0] == [];
    }
    assert GroupOf(tcs, "constructor") == [tc] by {
      assert tcs[..0] == [];
    }
    assert Grouped(tcs) == [("constructor", [tc])];
    assert !IsArrayIndex("constructor") by {
      assert !IsDigit("constructor"[0]);
    }
    SheetsAreGroups(tcs, stringify);
    assert RowsOf([tc], stringify) == [Row(tc, stringify)];
    assert SheetsOf(Grouped(tcs), stringify) == [("constructor", Records([Row(tc, stringify)]))];
  }

  // ---------------------------------------------------------------------
  // exportCoverageReport
  // ---------------------------------------------------------------------

  /** The metric labels of the summary sheet, after its header row. */
  const Metrics: seq<string> := ["Requirement ID", "Total Rules", "Rules Covered", "Coverage Percentage",
                                 "Total Test Cases", "Valid Test Cases", "Invalid Test Cases", "Techniques Used"]

  /** The "Coverage Summary" rows. */
  function SummaryRows(report: CoverageReport, show: ShowNumber): (r: seq<seq<Cell>>)
    ensures |r| == 1 + |Metrics| == 9
    ensures r[0] == [Text("Metric"), Text("Value")]
    ensures forall i :: 1 <= i < |r| ==> |r[i]| == 2 && r[i][0] == Text(Metrics[i - 1])
    ensures r[4][1] == Text(show(report.coveragePercentage) + "%")
    ensures r[8][1] == Text(Join(report.techniquesUsed, ", "))
  {
    [[Text("Metric"), Text("Value")],
     [Text("Requirement ID"), Text(report.requirementId)],
     [Text("Total Rules"), Number(report.totalRules)],
     [Text("Rules Covered"), Number(report.rulesCovered)],
     [Text("Coverage Percentage"), Text(show(report.coveragePercentage) + "%")],
     [Text("Total Test Cases"), Number(report.totalTestCount)],
     [Text("Valid Test Cases"), Number(report.validTestCount)],
     [Text("Invalid Test Cases"), Number(report.invalidTestCount)],
     [Text("Techniques Used"), Text(Join(report.techniquesUsed, ", "))]]
  }

  /** The row of one `rule_coverage` entry. */
  function TraceRow(ruleCoverage: seq<(string, seq<string>)>, ruleId: string): seq<Cell>
  {
    var ids := Coverage.Lookup(ruleCoverage, ruleId);
    [Text(ruleId), Text(Join(if ids.Some? then ids.value else [], ", "))]
  }

  /** The row of each entry, in entry order. */
  function EntryRows(ruleCoverage: seq<(string, seq<string>)>): (r: seq<seq<Cell>>)
    ensures |r| == |ruleCoverage|
    ensures forall k :: 0 <= k < |ruleCoverage| ==>
      r[k] == [Text(ruleCoverage[k].0), Text(Join(ruleCoverage[k].1, ", "))]
  {
    seq(|ruleCoverage|, k requires 0 <= k < |ruleCoverage| =>
      [Text(ruleCoverage[k].0), Text(Join(ruleCoverage[k].1, ", "))])
  }

  /** The rows of the rule ids of `order`, in that order. */
  function TraceRowsFor(ruleCoverage: seq<(string, seq<string>)>, order: seq<string>): (r: seq<seq<Cell>>)
    ensures |r| == |order|
    ensures forall j :: 0 <= j < |order| ==> r[j] == TraceRow(ruleCoverage, order[j])
  {
    seq(|order|, j requires 0 <= j < |order| => TraceRow(ruleCoverage, order[j]))
  }

  /** The "Traceability" rows: the header, then the entries in
      `Object.entries` order. */
  function TraceRows(ruleCoverage: seq<(string, seq<string>)>): (r: seq<seq<Cell>>)
    ensures |r| == 1 + |ruleCoverage|
    ensures r[0] == [Text("Rule ID"), Text("Test Case IDs")]
  {
    [[Text("Rule ID"), Text("Test Case IDs")]] + TraceRowsFor(ruleCoverage, KeyOrder(Coverage.EntryKeys(ruleCoverage)))
  }

  /** With distinct keys, as the backend's matrix has, the rows after the
      header are the entries' rows, ids joined by ", ", each rule on one row. */
  lemma TraceRowsListEntries(ruleCoverage: seq<(string, seq<string>)>)
    requires NoDuplicates(Coverage.EntryKeys(ruleCoverage))
    ensures forall row :: row in TraceRows(ruleCoverage)[1..] <==> row in EntryRows(ruleCoverage)
    ensures forall j1, j2 :: 1 <= j1 < j2 < |TraceRows(ruleCoverage)| ==>
      TraceRows(ruleCoverage)[j1][0] != TraceRows(ruleCoverage)[j2][0]
  {
    var keys := Coverage.EntryKeys(ruleCoverage);
    KeyOrderPermutes(keys);
    ReorderedRows(ruleCoverage, KeyOrder(keys));
    var r := TraceRows(ruleCoverage);
    assert r[1..] == TraceRowsFor(ruleCoverage, KeyOrder(keys));
  }

  /** Rows in any duplicate-free order of the distinct keys are the entries'
      rows, with no rule id twice. */
  lemma ReorderedRows(ruleCoverage: seq<(string, seq<string>)>, order: seq<string>)
    requires NoDuplicates(Coverage.EntryKeys(ruleCoverage)) && NoDuplicates(order)
    requires |order| == |ruleCoverage|
    requires forall x :: x in order <==> x in Coverage.EntryKeys(ruleCoverage)
    ensures forall row :: row in TraceRowsFor(ruleCoverage, order) <==> row in EntryRows(ruleCoverage)
    ensures forall j1, j2 :: 0 <= j1 < j2 < |order| ==>
      TraceRowsFor(ruleCoverage, order)[j1][0] != TraceRowsFor(ruleCoverage, order)[j2][0]
  {
    var keys := Coverage.EntryKeys(ruleCoverage);
    var rows := TraceRowsFor(ruleCoverage, order);
    var er := EntryRows(ruleCoverage);
    forall k | 0 <= k < |ruleCoverage|
      ensures TraceRow(ruleCoverage, keys[k]) == er[k]
    {
      FirstKeyFound(ruleCoverage, k);
    }
    forall row | row in rows
      ensures row in er
    {
      var j :| 0 <= j < |rows| && rows[j] == row;
      assert order[j] in keys;
      var k :| 0 <= k < |keys| && keys[k] == order[j];
      assert er[k] == row;
    }
    forall row | row in er
      ensures row in rows
    {
      var k :| 0 <= k < |er| && er[k] == row;
      assert keys[k] in order;
      var j :| 0 <= j < |order| && order[j] == keys[k];
      assert rows[j] == row;
    }
    forall j1, j2 | 0 <= j1 < j2 < |order|
      ensures rows[j1][0] != rows[j2][0]
    {
      assert rows[j1][0] == Text(order[j1]) && rows[j2][0] == Text(order[j2]);
    }
  }

  /** With distinct keys, the lookup of an entry's key finds that entry. */
  lemma {:induction false} FirstKeyFound(ruleCoverage: seq<(string, seq<string>)>, k: nat)
    requires k < |ruleCoverage| && NoDuplicates(Coverage.EntryKeys(ruleCoverage))
    ensures Coverage.Lookup(ruleCoverage, ruleCoverage[k].0) == Some(ruleCoverage[k].1)
  {
    if k > 0 {
      var keys := Coverage.EntryKeys(ruleCoverage);
      var tail := ruleCoverage[1..];
      assert keys[0] != keys[k];
      forall i, j | 0 <= i < j < |tail|
        ensures Coverage.EntryKeys(tail)[i] != Coverage.EntryKeys(tail)[j]
      {
        assert keys[i + 1] != keys[j + 1];
      }
      FirstKeyFound(tail, k - 1);
      assert tail[k - 1] == ruleCoverage[k];
    }
  }

  /** `exportCoverageReport`: the summary sheet, then the traceability sheet. */
  function CoverageExport(report: CoverageReport, matrix: TraceabilityMatrix, requirementId: string,
                          today: string, show: ShowNumber): (r: Export)
    ensures r.Written? && |r.workbook| == 2
    ensures r.workbook[0].0 == "Coverage Summary" && r.workbook[1].0 == "Traceability"
  {
    Written(CoverageFileName(requirementId, today),
            [("Coverage Summary", Rows(SummaryRows(report, show))),
             ("Traceability", Rows(TraceRows(matrix.ruleCoverage)))])
  }

  /** `exportCoverageReport`, with the `traceData.push` loop over the entries. */
  method ExportCoverageReport(report: CoverageReport, matrix: TraceabilityMatrix, requirementId: string,
                              today: string, show: ShowNumber)
    returns (r: Export)
    ensures r == CoverageExport(report, matrix, requirementId, today, show)
  {
    var traceData: seq<seq<Cell>> := [[Text("Rule ID"), Text("Test Case IDs")]];
    var entries := KeyOrder(Coverage.EntryKeys(matrix.ruleCoverage));
    ghost var spec := TraceRows(matrix.ruleCoverage);
    for j := 0 to |entries|
      invariant traceData == spec[..j + 1]
    {
      var ruleId := entries[j];
      var tcIds := Coverage.Lookup(matrix.ruleCoverage, ruleId);
      traceData := traceData + [[Text(ruleId), Text(Join(if tcIds.Some? then tcIds.value else [], ", "))]];
    }
    assert spec[..|entries| + 1] == spec;
    r := Written(CoverageFileName(requirementId, today),
                 [("Coverage Summary", Rows(SummaryRows(report, show))),
                  ("Traceability", Rows(traceData))]);
  }
}
