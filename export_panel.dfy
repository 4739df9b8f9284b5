/** `frontend/src/components/ExportPanel.jsx`: what the three export buttons
    and the JSON button hand on. The handlers are values computed from the
    panel's props; the exports are the ones of `ExcelExport`, and the
    clipboard is left out. */
module ExportPanel {
  import opened Common
  import opened Schemas
  import ExcelExport
  import Selection

  /** `testCases.filter(tc => selectedTestCases.includes(tc.tc_id))` */
  function SelectedCases(tcs: seq<TestCase>, sel: seq<string>): (r: seq<TestCase>)
    ensures forall tc :: tc in r <==> tc in tcs && tc.tcId in sel
    ensures |r| <= |tcs|
  {
    if tcs == [] then []
    else (if tcs[0].tcId in sel then [tcs[0]] else []) + SelectedCases(tcs[1..], sel)
  }

  /** `a` is `b` with some elements left out, the rest in their order. */
  predicate IsSubsequence<T(==)>(a: seq<T>, b: seq<T>)
    decreases |b|
  {
    if a == [] then true
    else if b == [] then false
    else if a[0] == b[0] then IsSubsequence(a[1..], b[1..])
    else IsSubsequence(a, b[1..])
  }

  /** The selected test cases keep the table's order. */
  lemma {:induction false} SelectedKeepsOrder(tcs: seq<TestCase>, sel: seq<string>)
    ensures IsSubsequence(SelectedCases(tcs, sel), tcs)
  {
    if tcs != [] {
      SelectedKeepsOrder(tcs[1..], sel);
      var rest := SelectedCases(tcs[1..], sel);
      if tcs[0].tcId in sel {
        assert SelectedCases(tcs, sel) == [tcs[0]] + rest;
        assert ([tcs[0]] + rest)[1..] == rest;
      } else {
        assert SelectedCases(tcs, sel) == rest;
        if rest != [] {
          SkipHead(rest, tcs);
        }
      }
    }
  }

  /** A subsequence of the tail that does not start with the head is a
      subsequence of the whole list. */
  lemma SkipHead<T>(a: seq<T>, b: seq<T>)
    requires b != [] && a != [] && IsSubsequence(a, b[1..])
    requires a[0] != b[0]
    ensures IsSubsequence(a, b)
  {
  }

  /** Selecting every id exports the whole table. */
  lemma {:induction false} SelectedAll(tcs: seq<TestCase>, sel: seq<string>)
    requires forall tc :: tc in tcs ==> tc.tcId in sel
    ensures SelectedCases(tcs, sel) == tcs
  {
    if tcs != [] {
      assert forall tc :: tc in tcs[1..] ==> tc in tcs;
      SelectedAll(tcs[1..], sel);
      assert [tcs[0]] + tcs[1..] == tcs;
    }
  }

  /** Each id of a duplicate-free table is exported at most once. */
  lemma {:induction false} SelectedIdsDistinct(tcs: seq<TestCase>, sel: seq<string>)
    requires NoDuplicates(TcIds(tcs))
    ensures NoDuplicates(TcIds(SelectedCases(tcs, sel)))
  {
    if tcs != [] {
      var rest := SelectedCases(tcs[1..], sel);
      TailIdsDistinct(tcs);
      SelectedIdsDistinct(tcs[1..], sel);
      if tcs[0].tcId in sel {
        HeadIdNotSelectedAgain(tcs, sel);
        IdsCons(tcs[0], rest);
      } else {
        assert SelectedCases(tcs, sel) == rest;
      }
    }
  }

  lemma TailIdsDistinct(tcs: seq<TestCase>)
    requires tcs != [] && NoDuplicates(TcIds(tcs))
    ensures NoDuplicates(TcIds(tcs[1..]))
  {
    var tail := tcs[1..];
    forall i, j | 0 <= i < j < |tail|
      ensures TcIds(tail)[i] != TcIds(tail)[j]
    {
      assert TcIds(tcs)[i + 1] != TcIds(tcs)[j + 1];
    }
  }

  /** The first test case's id is not among those selected from the rest. */
  lemma HeadIdNotSelectedAgain(tcs: seq<TestCase>, sel: seq<string>)
    requires tcs != [] && NoDuplicates(TcIds(tcs))
    ensures tcs[0].tcId !in TcIds(SelectedCases(tcs[1..], sel))
  {
    var tail := tcs[1..];
    var rest := SelectedCases(tail, sel);
    forall k | 0 <= k < |rest|
      ensures TcIds(rest)[k] != tcs[0].tcId
    {
      assert rest[k] in rest;
      var m :| 0 <= m < |tail| && tail[m] == rest[k];
      assert TcIds(tcs)[0] != TcIds(tcs)[m + 1];
    }
  }

  lemma IdsCons(tc: TestCase, rest: seq<TestCase>)
    requires NoDuplicates(TcIds(rest)) && tc.tcId !in TcIds(rest)
    ensures NoDuplicates(TcIds([tc] + rest))
  {
    var ids := TcIds([tc] + rest);
    forall a, b | 0 <= a < b < |ids|
      ensures ids[a] != ids[b]
    {
      assert ids[b] == TcIds(rest)[b - 1];
      if a > 0 {
        assert ids[a] == TcIds(rest)[a - 1];
      }
    }
  }

  /** For a selection of listed ids without duplicates in a table without
      duplicate ids, "Export Selected (n)" exports exactly n test cases. */
  lemma SelectedCount(tcs: seq<TestCase>, sel: seq<string>)
    requires NoDuplicates(TcIds(tcs)) && NoDuplicates(sel)
    requires forall x :: x in sel ==> x in TcIds(tcs)
    ensures |SelectedCases(tcs, sel)| == |sel|
  {
    var r := SelectedCases(tcs, sel);
    SelectedIdsDistinct(tcs, sel);
    Selection.DistinctCard(TcIds(r));
    Selection.DistinctCard(sel);
    forall x | x in sel
      ensures x in TcIds(r)
    {
      var i :| 0 <= i < |TcIds(tcs)| && TcIds(tcs)[i] == x;
      assert tcs[i] in r;
      var j :| 0 <= j < |r| && r[j] == tcs[i];
      assert TcIds(r)[j] == x;
    }
    forall x | x in TcIds(r)
      ensures x in sel
    {
      var j :| 0 <= j < |TcIds(r)| && TcIds(r)[j] == x;
      assert r[j] in r;
    }
    assert (set x | x in TcIds(r)) == (set x | x in sel);
  }

  /** A non-empty selection of listed ids selects at least one test case. */
  lemma SelectedNonEmpty(tcs: seq<TestCase>, sel: seq<string>)
    requires sel != [] && forall x :: x in sel ==> x in TcIds(tcs)
    ensures SelectedCases(tcs, sel) != []
  {
    assert sel[0] in sel;
    var i :| 0 <= i < |TcIds(tcs)| && TcIds(tcs)[i] == sel[0];
    assert tcs[i] in tcs;
  }

  // ---------------------------------------------------------------------
  // The buttons
  // ---------------------------------------------------------------------

  /** "Export All Test Cases" is disabled without test cases. */
  predicate ExportAllEnabled(tcs: seq<TestCase>)
  {
    |tcs| != 0
  }

  /** "Export Selected" is disabled without a selection. */
  predicate ExportSelectedEnabled(sel: seq<string>)
  {
    |sel| != 0
  }

  /** `handleExportAll`: the whole list, under the default file name, through
      `exportTestCasesToExcel` as written, which throws on a requirement id
      that every object inherits. */
  function HandleExportAll(tcs: seq<TestCase>, requirementId: string, today: string,
                           stringify: ExcelExport.Stringify): (r: ExcelExport.Export)
    ensures tcs == [] <==> r.Alerted?
    ensures r.Thrown? <==> exists tc :: tc in tcs && tc.traceability.requirement in ExcelExport.InheritedNames
    ensures r.Written? ==>
      r == ExcelExport.Written(ExcelExport.TestCasesFileName(requirementId, today),
                               ExcelExport.TestCaseSheets(tcs, stringify))
  {
    ExcelExport.TestCaseExportAsWritten(Some(tcs), requirementId, None, today, stringify)
  }

  /** `handleExportSelected`: the selected test cases in table order, under
      the "selected" file name, through `exportSelectedTestCases` as written. */
  function HandleExportSelected(tcs: seq<TestCase>, sel: seq<string>, requirementId: string,
                                today: string, stringify: ExcelExport.Stringify): (r: ExcelExport.Export)
    ensures r.Alerted? <==> SelectedCases(tcs, sel) == []
    ensures r.Thrown? <==>
      exists tc :: tc in SelectedCases(tcs, sel) && tc.traceability.requirement in ExcelExport.InheritedNames
    ensures r.Written? ==>
      r.fileName == ExcelExport.SelectedFileName(requirementId, today)
      && r.workbook == ExcelExport.TestCaseSheets(SelectedCases(tcs, sel), stringify)
  {
    ExcelExport.SelectedExportAsWritten(SelectedCases(tcs, sel), requirementId, today, stringify)
  }

  /** `handleExportCoverage`: the report and matrix as the page holds them. */
  function HandleExportCoverage(report: CoverageReport, matrix: TraceabilityMatrix, requirementId: string,
                                today: string, show: ExcelExport.ShowNumber): (r: ExcelExport.Export)
    ensures r.Written? && r.fileName == ExcelExport.CoverageFileName(requirementId, today)
    ensures r.workbook == [("Coverage Summary", ExcelExport.Rows(ExcelExport.SummaryRows(report, show))),
                           ("Traceability", ExcelExport.Rows(ExcelExport.TraceRows(matrix.ruleCoverage)))]
  {
    ExcelExport.CoverageExport(report, matrix, requirementId, today, show)
  }

  /** An enabled button never only alerts: it writes a workbook, or throws
      exactly when an exported test case names an inherited requirement id.
      The alerts behind the disabled buttons are reached only by a selection
      of unlisted ids. */
  lemma EnabledButtonsWrite(tcs: seq<TestCase>, sel: seq<string>, requirementId: string,
                            today: string, stringify: ExcelExport.Stringify)
    requires forall x :: x in sel ==> x in TcIds(tcs)
    ensures ExportAllEnabled(tcs) ==> !HandleExportAll(tcs, requirementId, today, stringify).Alerted?
    ensures ExportAllEnabled(tcs) && (forall tc :: tc in tcs ==> tc.traceability.requirement !in ExcelExport.InheritedNames)
            ==> HandleExportAll(tcs, requirementId, today, stringify).Written?
    ensures ExportSelectedEnabled(sel) ==> !HandleExportSelected(tcs, sel, requirementId, today, stringify).Alerted?
    ensures ExportSelectedEnabled(sel) &&
            (forall tc :: tc in SelectedCases(tcs, sel) ==> tc.traceability.requirement !in ExcelExport.InheritedNames)
            ==> HandleExportSelected(tcs, sel, requirementId, today, stringify).Written?
  {
    if sel != [] {
      SelectedNonEmpty(tcs, sel);
    }
  }

  // ---------------------------------------------------------------------
  // Raw JSON
  // ---------------------------------------------------------------------

  /** A value of the raw JSON object. */
  datatype Payload =
    | Cases(testCases: seq<TestCase>)
    | Report(coverageReport: CoverageReport)
    | Matrix(traceabilityMatrix: TraceabilityMatrix)

  /** The object the JSON button serialises, as its entries in literal order. */
  function RawExport(tcs: seq<TestCase>, report: CoverageReport, matrix: TraceabilityMatrix): (r: seq<(string, Payload)>)
    ensures |r| == 3
  {
    [("test_cases", Cases(tcs)), ("coverage_report", Report(report)), ("traceability_matrix", Matrix(matrix))]
  }

  function Member(obj: seq<(string, Payload)>, key: string): Option<Payload>
  {
    if obj == [] then None
    else if obj[0].0 == key then Some(obj[0].1)
    else Member(obj[1..], key)
  }

  /** The object has exactly the three keys, each holding the prop unchanged. */
  lemma RawExportReadsBack(tcs: seq<TestCase>, report: CoverageReport, matrix: TraceabilityMatrix)
    ensures var obj := RawExport(tcs, report, matrix);
      && Member(obj, "test_cases") == Some(Cases(tcs))
      && Member(obj, "coverage_report") == Some(Report(report))
      && Member(obj, "traceability_matrix") == Some(Matrix(matrix))
      && forall key :: key !in {"test_cases", "coverage_report", "traceability_matrix"} ==> Member(obj, key) == None
  {
    var obj := RawExport(tcs, report, matrix);
    assert |"test_cases"| != |"coverage_report"| && |"coverage_report"| != |"traceability_matrix"|;
    assert |"test_cases"| != |"traceability_matrix"|;
    forall key
      ensures Member(obj, key) == Member(obj[1..], key) || key == "test_cases"
      ensures Member(obj[1..], key) == Member(obj[2..], key) || key == "coverage_report"
      ensures Member(obj[2..], key) == None || key == "traceability_matrix"
    {
      assert obj[1..][1..] == obj[2..] && obj[2..][1..] == [];
    }
    assert obj[1..][1..] == obj[2..];
  }
}
