/** `frontend/src/components/TestCaseTable.jsx`: the next selection of test
    case ids, computed from the current selection and written back through
    the page's `setSelectedTestCases`. */
module Selection {
  import opened Common
  import opened Schemas

  /** `selected.filter(id => id !== tcId)`: every occurrence of `id` goes,
      the rest keeps its order. */
  function Without(sel: seq<string>, id: string): (r: seq<string>)
    ensures forall x :: x in r <==> x in sel && x != id
    ensures |r| <= |sel|
  {
    if sel == [] then []
    else if sel[0] == id then Without(sel[1..], id)
    else [sel[0]] + Without(sel[1..], id)
  }

  /** `toggleTestCase`: an id already selected is dropped, any other id is
      appended at the end. */
  function Toggle(sel: seq<string>, id: string): (r: seq<string>)
    ensures forall x :: x in r <==> if x == id then id !in sel else x in sel
  {
    if id in sel then Without(sel, id) else sel + [id]
  }

  /** `toggleAll`: compares only the NUMBER of selected ids with the number
      of test cases; equal counts clear the selection, any other count
      selects every test case in table order. */
  function ToggleAll(sel: seq<string>, tcs: seq<TestCase>): (r: seq<string>)
    ensures r == [] || r == TcIds(tcs)
    ensures |sel| != |tcs| ==> forall tc :: tc in tcs ==> tc.tcId in r
    ensures |sel| == |tcs| ==> |r| == 0
  {
    if |sel| == |tcs| then [] else TcIds(tcs)
  }

  /** The header checkbox: ticked when the counts agree and the table is not
      empty. The button beside it reads "Deselect All" on the count alone. */
  predicate HeaderChecked(sel: seq<string>, tcs: seq<TestCase>)
  {
    |sel| == |tcs| && |tcs| > 0
  }

  function SelectAllLabel(sel: seq<string>, tcs: seq<TestCase>): (r: string)
    ensures r == "Deselect All" <==> |sel| == |tcs|
  {
    if |sel| == |tcs| then "Deselect All" else "Select All"
  }

  // ---------------------------------------------------------------------
  // Properties of the toggles
  // ---------------------------------------------------------------------

  lemma {:induction false} WithoutAbsent(sel: seq<string>, id: string)
    requires id !in sel
    ensures Without(sel, id) == sel
  {
    if sel != [] {
      WithoutAbsent(sel[1..], id);
      assert sel == [sel[0]] + sel[1..];
    }
  }

  lemma {:induction false} WithoutAppend(a: seq<string>, b: seq<string>, id: string)
    ensures Without(a + b, id) == Without(a, id) + Without(b, id)
  {
    if a != [] {
      assert (a + b)[1..] == a[1..] + b;
      WithoutAppend(a[1..], b, id);
    } else {
      assert a + b == b;
    }
  }

  lemma {:induction false} WithoutKeepsDistinct(sel: seq<string>, id: string)
    requires NoDuplicates(sel)
    ensures NoDuplicates(Without(sel, id))
  {
    if sel != [] {
      WithoutKeepsDistinct(sel[1..], id);
      assert sel[0] !in sel[1..];
    }
  }

  /** Toggling an unselected id twice gives back exactly the old selection. */
  lemma ToggleTwiceUnselected(sel: seq<string>, id: string)
    requires id !in sel
    ensures Toggle(Toggle(sel, id), id) == sel
  {
    WithoutAppend(sel, [id], id);
    WithoutAbsent(sel, id);
  }

  /** Toggling a selected id twice keeps the same ids selected, but removes
      its duplicates and moves it to the end. */
  lemma ToggleTwiceSelected(sel: seq<string>, id: string)
    requires id in sel
    ensures Toggle(Toggle(sel, id), id) == Without(sel, id) + [id]
    ensures forall x :: x in Toggle(Toggle(sel, id), id) <==> x in sel
  {
  }

  /** A selection without duplicates stays without duplicates. */
  lemma ToggleKeepsDistinct(sel: seq<string>, id: string)
    requires NoDuplicates(sel)
    ensures NoDuplicates(Toggle(sel, id))
  {
    if id in sel {
      WithoutKeepsDistinct(sel, id);
    }
  }

  /** Toggling a listed id keeps the selection among the listed ids; so does
      toggling all. */
  lemma TogglesStayListed(sel: seq<string>, id: string, tcs: seq<TestCase>)
    requires forall x :: x in sel ==> x in TcIds(tcs)
    requires id in TcIds(tcs)
    ensures forall x :: x in Toggle(sel, id) ==> x in TcIds(tcs)
    ensures forall x :: x in ToggleAll(sel, tcs) ==> x in TcIds(tcs)
  {
  }

  /** "Toggle all" is not its own inverse: from a selection that is neither
      empty nor of full length, two clicks clear it. */
  lemma ToggleAllTwiceClears(sel: seq<string>, tcs: seq<TestCase>)
    requires sel != [] && |sel| != |tcs|
    ensures ToggleAll(ToggleAll(sel, tcs), tcs) == []
    ensures ToggleAll(ToggleAll(sel, tcs), tcs) != sel
  {
  }

  /** Because only counts are compared, a selection holding one id twice
      ticks the header of a two-row table whose second row is unselected,
      and "toggle all" then clears it. */
  lemma HeaderCountsOnly(tcs: seq<TestCase>)
    requires |tcs| == 2 && tcs[0].tcId != tcs[1].tcId
    ensures var sel := [tcs[0].tcId, tcs[0].tcId];
      && HeaderChecked(sel, tcs)
      && tcs[1].tcId !in sel
      && ToggleAll(sel, tcs) == []
  {
  }

  lemma {:induction false} DistinctCard(s: seq<string>)
    requires NoDuplicates(s)
    ensures |set x | x in s| == |s|
  {
    if s != [] {
      DistinctCard(s[1..]);
      assert (set x | x in s) == {s[0]} + (set x | x in s[1..]);
      assert s[0] !in s[1..];
    }
  }

  lemma SubsetSameCard(a: set<string>, b: set<string>)
    requires a <= b && |a| == |b|
    ensures a == b
  {
    var d := b - a;
    assert b == a + d;
    assert a * d == {};
    assert |d| == 0;
  }

  /** Two duplicate-free lists, the first drawn from the second, have the
      same length exactly when the first holds everything in the second. */
  lemma CountMatchesAll(sel: seq<string>, ids: seq<string>)
    requires NoDuplicates(sel) && NoDuplicates(ids)
    requires forall x :: x in sel ==> x in ids
    ensures |sel| == |ids| <==> forall x :: x in ids ==> x in sel
  {
    var a := set x | x in sel;
    var b := set x | x in ids;
    DistinctCard(sel);
    DistinctCard(ids);
    if |sel| == |ids| {
      SubsetSameCard(a, b);
      forall x | x in ids ensures x in sel {
        assert x in b;
      }
    }
    if forall x :: x in ids ==> x in sel {
      assert a == b;
    }
  }

  /** With no duplicates on either side and nothing unlisted selected, the
      count comparison is exact: the counts agree exactly when every test
      case is selected. */
  lemma HeaderMeansAllSelected(sel: seq<string>, tcs: seq<TestCase>)
    requires NoDuplicates(sel) && NoDuplicates(TcIds(tcs))
    requires forall x :: x in sel ==> x in TcIds(tcs)
    ensures |sel| == |tcs| <==> forall x :: x in TcIds(tcs) ==> x in sel
  {
    CountMatchesAll(sel, TcIds(tcs));
  }
}
