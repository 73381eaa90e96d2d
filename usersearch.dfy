/**
 * The live filter of the user table.  On every input event the query is
 * case-folded and trimmed; each row with more than one cell is shown
 * exactly when the query occurs in its folded username, email or name
 * cell, and a single "no results" row is added or removed according to
 * the number of rows shown.  The rows are those captured when the page
 * loaded; the "no results" row is inserted after them and is not among
 * them.  `toLowerCase` is a given function.
 */
module UserSearch {
  import opened Wrappers
  import opened Seqs
  import opened Text

  /** A captured table row: the text of its cells and whether `display` is `none`. */
  datatype Row = Row(cells: seq<string>, hidden: bool)

  /** How one input event ends: normally with the count, or by an exception at a two-cell row. */
  datatype SearchOutcome = Completed(visibleRows: nat) | Failed(atRow: nat)

  /** `this.value.toLowerCase().trim()`. */
  function SearchTerm(value: string, fold: string -> string): (term: string)
    ensures |term| <= |fold(value)|
  {
    Trim(fold(value))
  }

  /** The row with `cells` is a hit: the term occurs in cell 0, 1 or 2, each folded. */
  predicate Matches(cells: seq<string>, term: string, fold: string -> string)
    requires |cells| >= 3
  {
    Includes(fold(cells[0]), term) || Includes(fold(cells[1]), term) || Includes(fold(cells[2]), term)
  }

  /** A row of exactly two cells makes the handler read a third cell that does not exist. */
  predicate Throws(r: Row) {
    |r.cells| == 2
  }

  /** A row the filter counts: three cells or more. */
  predicate IsDataRow(r: Row) {
    |r.cells| >= 3
  }

  /** One row after the filter: rows with at most one cell, and the throwing row, are untouched. */
  function FilterRow(r: Row, term: string, fold: string -> string): (r': Row)
    ensures r'.cells == r.cells
    ensures !IsDataRow(r) ==> r' == r
    ensures IsDataRow(r) ==> (!r'.hidden <==> Matches(r.cells, term, fold))
  {
    if |r.cells| <= 2 then r else r.(hidden := !Matches(r.cells, term, fold))
  }

  /** The rows after the filter has processed the first n of them. */
  function FilterUpTo(rows: seq<Row>, n: nat, term: string, fold: string -> string): (r: seq<Row>)
    ensures |r| == |rows|
    ensures forall j :: 0 <= j < |rows| ==> r[j] == if j < n then FilterRow(rows[j], term, fold) else rows[j]
  {
    seq(|rows|, j requires 0 <= j < |rows| => if j < n then FilterRow(rows[j], term, fold) else rows[j])
  }

  /** The number of hits among the data rows: the final value of `visibleRows`. */
  function VisibleCount(rows: seq<Row>, term: string, fold: string -> string): (n: nat)
    ensures n <= |rows|
    decreases |rows|
  {
    if |rows| == 0 then 0
    else
      var last := rows[|rows| - 1];
      VisibleCount(rows[..|rows| - 1], term, fold) + (if IsDataRow(last) && Matches(last.cells, term, fold) then 1 else 0)
  }

  /** The number of data rows on display. */
  function ShownDataRows(rows: seq<Row>): (n: nat)
    ensures n <= |rows|
    decreases |rows|
  {
    if |rows| == 0 then 0
    else
      var last := rows[|rows| - 1];
      ShownDataRows(rows[..|rows| - 1]) + (if IsDataRow(last) && !last.hidden then 1 else 0)
  }

  /** The number of data rows. */
  function DataRows(rows: seq<Row>): (n: nat)
    ensures n <= |rows|
    decreases |rows|
  {
    if |rows| == 0 then 0
    else DataRows(rows[..|rows| - 1]) + (if IsDataRow(rows[|rows| - 1]) then 1 else 0)
  }

  function ThrowFlags(rows: seq<Row>): (flags: seq<bool>)
    ensures |flags| == |rows|
    ensures forall j :: 0 <= j < |rows| ==> flags[j] == Throws(rows[j])
  {
    seq(|rows|, j requires 0 <= j < |rows| => Throws(rows[j]))
  }

  /** The position of the first two-cell row, where the handler throws. */
  function FirstThrowing(rows: seq<Row>): (r: Option<nat>)
    ensures r.None? <==> forall j :: 0 <= j < |rows| ==> !Throws(rows[j])
    ensures r.Some? ==> r.value < |rows| && Throws(rows[r.value])
    ensures r.Some? ==> forall j :: 0 <= j < r.value ==> !Throws(rows[j])
  {
    var flags := ThrowFlags(rows);
    var r := FirstTrue(flags);
    assert r.Some? ==> forall j :: 0 <= j < r.value ==> !flags[j];
    r
  }

  /** The message of the "no results" row; the raw input, not the folded term, is shown. */
  function NoResultsMessage(value: string): string {
    "'" + value + "'에 대한 검색 결과가 없습니다."
  }

  /**
   * The "no results" rows after the event: one is appended when nothing is
   * shown for a non-empty term and none exists; the first is removed when
   * something is shown or the term is empty.
   */
  function NoResultsAfter(existing: seq<string>, visible: nat, term: string, value: string): (r: seq<string>)
    ensures visible == 0 && term != "" ==> |r| >= 1
    ensures visible == 0 && term != "" && |existing| > 0 ==> r == existing
    ensures visible == 0 && term != "" && |existing| == 0 ==> r == [NoResultsMessage(value)]
    ensures visible > 0 || term == "" ==> r == if |existing| > 0 then existing[1..] else []
  {
    if visible == 0 && term != "" && |existing| == 0 then [NoResultsMessage(value)]
    else if (visible > 0 || term == "") && |existing| > 0 then existing[1..]
    else existing
  }

  /**
   * Starting from at most one "no results" row there is again at most one,
   * and there is one exactly when nothing is shown for a non-empty term.
   */
  lemma NoResultsAtMostOne(existing: seq<string>, visible: nat, term: string, value: string)
    requires |existing| <= 1
    ensures |NoResultsAfter(existing, visible, term, value)| <= 1
    ensures |NoResultsAfter(existing, visible, term, value)| == 1 <==> visible == 0 && term != ""
  {
  }

  /**
   * An existing "no results" row is kept as it is when the next query
   * finds nothing either: its message still names the earlier query.
   */
  lemma NoResultsMessageIsNotRefreshed(old_value: string, value: string, term: string)
    requires term != ""
    ensures NoResultsAfter([NoResultsMessage(old_value)], 0, term, value) == [NoResultsMessage(old_value)]
  {
  }

  lemma {:induction false} ShownPrefix(rows: seq<Row>, term: string, fold: string -> string)
    requires |rows| > 0
    ensures FilterUpTo(rows, |rows|, term, fold)[..|rows| - 1] == FilterUpTo(rows[..|rows| - 1], |rows| - 1, term, fold)
  {
  }

  /**
   * When no row throws, the count the handler keeps equals the number of
   * data rows it leaves on display.
   */
  lemma {:induction false} VisibleCountIsShownCount(rows: seq<Row>, term: string, fold: string -> string)
    ensures ShownDataRows(FilterUpTo(rows, |rows|, term, fold)) == VisibleCount(rows, term, fold)
    decreases |rows|
  {
    if |rows| > 0 {
      var n := |rows|;
      var f := FilterUpTo(rows, n, term, fold);
      ShownPrefix(rows, term, fold);
      VisibleCountIsShownCount(rows[..n - 1], term, fold);
      assert f[n - 1] == FilterRow(rows[n - 1], term, fold);
    }
  }

  lemma IncludesEmpty(s: string)
    ensures Includes(s, "")
  {
    assert StartsWith(s, "");
  }

  lemma {:induction false} EmptyTermCountsEveryDataRow(rows: seq<Row>, fold: string -> string)
    ensures VisibleCount(rows, "", fold) == DataRows(rows)
    decreases |rows|
  {
    if |rows| > 0 {
      EmptyTermCountsEveryDataRow(rows[..|rows| - 1], fold);
      if IsDataRow(rows[|rows| - 1]) {
        IncludesEmpty(fold(rows[|rows| - 1].cells[0]));
      }
    }
  }

  /**
   * An empty query (after trimming) shows every data row, counts them all
   * and removes an existing "no results" row.
   */
  lemma EmptyQueryShowsAll(rows: seq<Row>, fold: string -> string, existing: seq<string>, value: string)
    ensures forall j :: 0 <= j < |rows| && IsDataRow(rows[j]) ==> !FilterUpTo(rows, |rows|, "", fold)[j].hidden
    ensures VisibleCount(rows, "", fold) == DataRows(rows)
    ensures |existing| <= 1 ==> NoResultsAfter(existing, DataRows(rows), "", value) == []
  {
    forall j | 0 <= j < |rows| && IsDataRow(rows[j])
      ensures !FilterUpTo(rows, |rows|, "", fold)[j].hidden
    {
      IncludesEmpty(fold(rows[j].cells[0]));
    }
    EmptyTermCountsEveryDataRow(rows, fold);
  }

  /** Counting one more row adds one exactly when it is a data row that matches. */
  lemma VisibleCountStep(rows: seq<Row>, i: nat, term: string, fold: string -> string)
    requires i < |rows|
    ensures VisibleCount(rows[..i + 1], term, fold)
            == VisibleCount(rows[..i], term, fold) + (if IsDataRow(rows[i]) && Matches(rows[i].cells, term, fold) then 1 else 0)
  {
    assert rows[..i + 1][..i] == rows[..i];
  }

  /** One more step of the filter rewrites row i alone; a row with at most one cell stays as it is. */
  lemma FilterUpToStep(rows: seq<Row>, i: nat, term: string, fold: string -> string)
    requires i < |rows|
    ensures FilterUpTo(rows, i + 1, term, fold) == FilterUpTo(rows, i, term, fold)[i := FilterRow(rows[i], term, fold)]
    ensures |rows[i].cells| <= 1 ==> FilterUpTo(rows, i + 1, term, fold) == FilterUpTo(rows, i, term, fold)
  {
    var a := FilterUpTo(rows, i, term, fold);
    var b := FilterUpTo(rows, i + 1, term, fold);
    assert forall j :: 0 <= j < |rows| ==> b[j] == a[i := FilterRow(rows[i], term, fold)][j];
  }

  class UserTable {
    var rows: array<Row>
    var noResults: seq<string>

    constructor (captured: seq<Row>)
      ensures rows[..] == captured && noResults == [] && fresh(rows)
    {
      rows := new Row[|captured|](i requires 0 <= i < |captured| => captured[i]);
      noResults := [];
    }

    /** The body of the `forEach` for a data row i: show it iff one of its three cells holds the term. */
    method ShowIfMatching(i: nat, searchTerm: string, fold: string -> string) returns (shown: bool)
      requires i < rows.Length && IsDataRow(rows[i])
      modifies rows
      ensures shown == Matches(old(rows[i]).cells, searchTerm, fold)
      ensures rows[..] == old(rows[..])[i := FilterRow(old(rows[i]), searchTerm, fold)]
    {
      var row := rows[i];
      var username := fold(row.cells[0]);
      var email := fold(row.cells[1]);
      var name := fold(row.cells[2]);
      if Includes(username, searchTerm) || Includes(email, searchTerm) || Includes(name, searchTerm) {
        rows[i] := row.(hidden := false);
        shown := true;
      } else {
        rows[i] := row.(hidden := true);
        shown := false;
      }
    }

    /**
     * The `forEach` over the captured rows for the term `searchTerm`: it
     * returns the count, or the row at which it threw.
     */
    method FilterRows(searchTerm: string, fold: string -> string) returns (outcome: SearchOutcome)
      modifies rows
      ensures var stop := FirstThrowing(old(rows[..]));
              rows[..] == FilterUpTo(old(rows[..]), stop.GetOr(rows.Length), searchTerm, fold)
      ensures FirstThrowing(old(rows[..])).None? ==> outcome == Completed(VisibleCount(old(rows[..]), searchTerm, fold))
      ensures FirstThrowing(old(rows[..])).Some? ==> outcome == Failed(FirstThrowing(old(rows[..])).value)
    {
      ghost var before := rows[..];
      var visibleRows := 0;
      var i := 0;
      while i < rows.Length
        invariant 0 <= i <= rows.Length
        invariant forall j :: 0 <= j < i ==> !Throws(before[j])
        invariant rows[..] == FilterUpTo(before, i, searchTerm, fold)
        invariant visibleRows == VisibleCount(before[..i], searchTerm, fold)
      {
        var row := rows[i];
        VisibleCountStep(before, i, searchTerm, fold);
        FilterUpToStep(before, i, searchTerm, fold);
        if |row.cells| <= 1 {
          i := i + 1;
          continue;
        }
        if |row.cells| == 2 {
          // `row.cells[2]` is undefined: reading its text content throws
          outcome := Failed(i);
          ghost var stop := FirstThrowing(before);
          assert !(stop.value < i) && !(i < stop.value);
          return;
        }
        var shown := ShowIfMatching(i, searchTerm, fold);
        if shown {
          visibleRows := visibleRows + 1;
        }
        i := i + 1;
      }
      assert before[..i] == before;
      outcome := Completed(visibleRows);
    }

    /** The `input` handler of the search box, with `value` the box's contents. */
    method Search(value: string, fold: string -> string) returns (outcome: SearchOutcome)
      modifies this, rows
      ensures rows == old(rows)
      ensures var stop := FirstThrowing(old(rows[..]));
              rows[..] == FilterUpTo(old(rows[..]), stop.GetOr(rows.Length), SearchTerm(value, fold), fold)
      ensures FirstThrowing(old(rows[..])).None? ==>
                && outcome == Completed(VisibleCount(old(rows[..]), SearchTerm(value, fold), fold))
                && noResults == NoResultsAfter(old(noResults), outcome.visibleRows, SearchTerm(value, fold), value)
      ensures FirstThrowing(old(rows[..])).Some? ==>
                outcome == Failed(FirstThrowing(old(rows[..])).value) && noResults == old(noResults)
    {
      var searchTerm := Trim(fold(value));
      outcome := FilterRows(searchTerm, fold);
      if outcome.Failed? {
        return;
      }
      var visibleRows := outcome.visibleRows;
      if visibleRows == 0 && searchTerm != "" && |noResults| == 0 {
        noResults := noResults + [NoResultsMessage(value)];
      } else if (visibleRows > 0 || searchTerm == "") && |noResults| > 0 {
        noResults := noResults[1..];
      }
    }
  }
}
