/** The surrogate row id a table is given (duckdb_engine.rs), which views address rows by. */
module Rowids {

  import opened Transform
  import opened SqlAst
  import opened Counting
  import ViewMeaning

  /** Where a colliding column of the user's goes. */
  const MOVED_COL: string := "__dat0_rowid__src"

  const SURROGATE: string := "dat0:surrogate"

  /** A row, at DuckDB's own number for it. */
  datatype Stored = Stored(place: int, row: Row)

  ghost predicate DistinctPlaces(rows: seq<Stored>)
  {
    forall i, j :: 0 <= i < j < |rows| ==> rows[i].place != rows[j].place
  }

  /** `row_number() OVER (ORDER BY rowid) - 1`: how many rows come before this place. */
  function Before(rows: seq<Stored>, place: int): nat
  {
    if rows == [] then 0 else Before(rows[..|rows| - 1], place) + (if rows[|rows| - 1].place < place then 1 else 0)
  }

  /** A row under the new name of the column renamed. */
  function Moved(row: Row): Row { if ROWID_COL in row then (row - {ROWID_COL})[MOVED_COL := row[ROWID_COL]] else row }

  function AllMoved(rows: seq<Stored>): seq<Stored>
  {
    seq(|rows|, i requires 0 <= i < |rows| => Stored(rows[i].place, Moved(rows[i].row)))
  }

  function Numbered(rows: seq<Stored>): seq<Stored>
  {
    seq(|rows|, i requires 0 <= i < |rows| =>
          Stored(rows[i].place, rows[i].row[ROWID_COL := Int(Before(rows, rows[i].place))]))
  }

  /** The rows are where they were, each numbered by how many come before it, with every value it
      had; one called as the number is has its value under the other name. */
  ghost predicate Keeps(before: seq<Stored>, after: seq<Stored>)
  {
    && |after| == |before|
    && (forall i :: 0 <= i < |before| ==> after[i].place == before[i].place && KeepsValues(before[i].row, after[i].row))
    && forall i :: 0 <= i < |before| ==>
         after[i].row[ROWID_COL] == Int(|set j | 0 <= j < |before| && before[j].place < before[i].place|)
  }

  ghost predicate KeepsValues(before: Row, after: Row)
  {
    && ROWID_COL in after
    && (forall c <- before :: c != ROWID_COL ==> c in after && after[c] == before[c])
    && (ROWID_COL in before ==> MOVED_COL in after && after[MOVED_COL] == before[ROWID_COL])
  }

  class StoredTable {
    var columns: set<string>
    var comments: map<string, string>
    var rows: seq<Stored>

    ghost predicate Valid()
      reads this
    {
      DistinctPlaces(rows) && comments.Keys <= columns && forall r <- rows :: r.row.Keys == columns
    }

    predicate Marked()
      reads this
    {
      ROWID_COL in columns && ROWID_COL in comments && comments[ROWID_COL] == SURROGATE
    }

    constructor (columns: set<string>, rows: seq<Stored>)
      requires DistinctPlaces(rows) && forall r <- rows :: r.row.Keys == columns
      ensures Valid() && this.columns == columns && this.rows == rows && comments == map[]
    {
      this.columns, this.rows, this.comments := columns, rows, map[];
    }

    /** ALTER TABLE … RENAME COLUMN: the column, its comment and its values. */
    method MoveAside() returns (ok: bool)
      requires Valid() && ROWID_COL in columns
      modifies this
      ensures ok <==> MOVED_COL !in old(columns)
      ensures !ok ==> columns == old(columns) && comments == old(comments) && rows == old(rows)
      ensures ok ==> Valid() && columns == old(columns) - {ROWID_COL} + {MOVED_COL} && rows == AllMoved(old(rows))
      ensures ok ==> ROWID_COL !in comments
      ensures ok && ROWID_COL in old(comments)
              ==> MOVED_COL in comments && comments[MOVED_COL] == old(comments)[ROWID_COL]
      ensures ok ==> forall c <- old(comments) :: c != ROWID_COL ==> c in comments && comments[c] == old(comments)[c]
    {
      ok := MOVED_COL !in columns;
      if ok {
        columns := columns - {ROWID_COL} + {MOVED_COL};
        comments := if ROWID_COL in comments then (comments - {ROWID_COL})[MOVED_COL := comments[ROWID_COL]]
                    else comments;
        rows := AllMoved(rows);
      }
    }

    /** Nothing, on a table numbered before (`numbered`, which its comment says); else a column of
        numbers, the user's own such column moved aside with its values and its comment; or an
        error when there is no room for that, and nothing done. */
    method EnsureRowid() returns (ok: bool, ghost numbered: bool)
      requires Valid()
      modifies this
      ensures Valid()
      ensures numbered <==>
                old(ROWID_COL in columns && ROWID_COL in comments && comments[ROWID_COL] == SURROGATE)
      ensures ok <==> numbered || ROWID_COL !in old(columns) || MOVED_COL !in old(columns)
      ensures !ok || numbered ==> columns == old(columns) && comments == old(comments) && rows == old(rows)
      ensures ok ==> ROWID_COL in columns && ROWID_COL in comments && comments[ROWID_COL] == SURROGATE
      ensures ok && !numbered ==> Keeps(old(rows), rows) && rows == Numbered(AllMoved(old(rows)))
      ensures ok && !numbered ==>
                columns == old(columns) + {ROWID_COL} + if ROWID_COL in old(columns) then {MOVED_COL} else {}
      ensures ok && !numbered ==>
                && (forall c <- old(comments) :: c != ROWID_COL ==> c in comments && comments[c] == old(comments)[c])
                && (ROWID_COL in old(comments) ==>
                      MOVED_COL in comments && comments[MOVED_COL] == old(comments)[ROWID_COL])
    {
      numbered := Marked();
      NumberedKeeps(columns, rows);
      if ROWID_COL in columns {
        if Marked() {
          ok := true;
          return;
        }
        ok := MoveAside();
        if !ok {
          return;
        }
      } else {
        NothingToMove(rows);
      }
      rows := Numbered(rows);
      columns := columns + {ROWID_COL};
      comments := comments[ROWID_COL := SURROGATE];
      ok := true;
    }
  }

  lemma {:induction false} BeforeCounts(rows: seq<Stored>, place: int)
    ensures Before(rows, place) == |set j | 0 <= j < |rows| && rows[j].place < place|
  {
    if rows != [] {
      var init := rows[..|rows| - 1];
      BeforeCounts(init, place);
      var few := set j | 0 <= j < |init| && init[j].place < place;
      assert (set j | 0 <= j < |rows| && rows[j].place < place)
           == few + if rows[|rows| - 1].place < place then {|rows| - 1} else {};
    }
  }

  lemma MovedPlaces(rows: seq<Stored>, place: int)
    ensures Before(AllMoved(rows), place) == |set j | 0 <= j < |rows| && rows[j].place < place|
  {
    BeforeCounts(AllMoved(rows), place);
    assert (set j | 0 <= j < |rows| && AllMoved(rows)[j].place < place)
        == set j | 0 <= j < |rows| && rows[j].place < place;
  }

  lemma NumberedKeeps(columns: set<string>, rows: seq<Stored>)
    requires forall r <- rows :: r.row.Keys == columns
    ensures ROWID_COL !in columns || MOVED_COL !in columns ==> Keeps(rows, Numbered(AllMoved(rows)))
  {
    var after := Numbered(AllMoved(rows));
    forall i | 0 <= i < |rows|
      ensures after[i].row[ROWID_COL] == Int(|set j | 0 <= j < |rows| && rows[j].place < rows[i].place|)
    {
      MovedPlaces(rows, rows[i].place);
    }
    forall i | 0 <= i < |rows| && (ROWID_COL !in columns || MOVED_COL !in columns)
      ensures KeepsValues(rows[i].row, after[i].row)
    {
      assert rows[i] in rows;
      MovedKeeps(rows[i].row, Before(AllMoved(rows), rows[i].place));
    }
  }

  lemma MovedKeeps(row: Row, n: nat)
    requires ROWID_COL !in row || MOVED_COL !in row
    ensures KeepsValues(row, Moved(row)[ROWID_COL := Int(n)])
  {
  }

  lemma NothingToMove(rows: seq<Stored>)
    requires forall r <- rows :: ROWID_COL !in r.row
    ensures AllMoved(rows) == rows
  {
  }

  lemma {:induction false} BeforeGrows(rows: seq<Stored>, a: int, b: int)
    requires a <= b
    ensures Before(rows, a) <= Before(rows, b) <= |rows|
    ensures a < b && (exists r <- rows :: r.place == a) ==> Before(rows, a) < Before(rows, b)
    ensures (exists r <- rows :: r.place == b) ==> Before(rows, b) < |rows|
  {
    if rows != [] {
      assert rows == rows[..|rows| - 1] + [rows[|rows| - 1]];
      BeforeGrows(rows[..|rows| - 1], a, b);
    }
  }

  function Values(numbers: seq<nat>): set<nat> { set i | 0 <= i < |numbers| :: numbers[i] }

  /** Distinct numbers below their count are all the numbers there are. */
  lemma NoGaps(numbers: seq<nat>, k: nat)
    requires forall i, j :: 0 <= i < j < |numbers| ==> numbers[i] != numbers[j]
    requires forall i :: 0 <= i < |numbers| ==> numbers[i] < |numbers|
    requires k < |numbers|
    ensures k in numbers
  {
    var all, used := Below(|numbers|), Values(numbers);
    BelowHas(|numbers|, k);
    CountDistinct(numbers);
    forall n <- used
      ensures n in all
    {
      BelowHas(|numbers|, n);
    }
    SubsetCount(used, all);
  }

  lemma {:induction false} CountDistinct(numbers: seq<nat>)
    requires forall i, j :: 0 <= i < j < |numbers| ==> numbers[i] != numbers[j]
    ensures |Values(numbers)| == |numbers|
  {
    if numbers != [] {
      var init, last := numbers[..|numbers| - 1], numbers[|numbers| - 1];
      CountDistinct(init);
      assert numbers == init + [last];
      assert Values(numbers) == Values(init) + {last};
    }
  }

  function Numbers(rows: seq<Stored>): seq<nat>
  {
    seq(|rows|, i requires 0 <= i < |rows| => Before(rows, rows[i].place))
  }

  function Number(r: Stored): int { match Cell(r.row, ROWID_COL) case Int(i) => i case _ => -1 }

  /** The numbers are 0 to n-1, each once, in the order the rows are stored in. */
  lemma NumberedIs(rows: seq<Stored>)
    requires DistinctPlaces(rows)
    ensures var out := Numbered(rows);
            && (forall r <- out :: Cell(r.row, ROWID_COL).Int? && 0 <= Number(r) < |rows|)
            && (forall i, j :: 0 <= i < |rows| && 0 <= j < |rows| ==>
                  (out[i].place < out[j].place ==> Number(out[i]) < Number(out[j])))
            && (forall k :: 0 <= k < |rows| ==> k in Numbers(rows))
            && (forall i :: 0 <= i < |rows| ==> Number(out[i]) == Numbers(rows)[i])
            && (forall i :: 0 <= i < |rows| ==> out[i].row - {ROWID_COL} == rows[i].row - {ROWID_COL})
  {
    var out := Numbered(rows);
    forall i | 0 <= i < |rows|
      ensures Number(out[i]) == Before(rows, rows[i].place) < |rows|
    {
      assert rows[i] in rows;
      BeforeGrows(rows, rows[i].place, rows[i].place);
    }
    forall i, j | 0 <= i < |rows| && 0 <= j < |rows| && out[i].place < out[j].place
      ensures Number(out[i]) < Number(out[j])
    {
      assert rows[i] in rows;
      BeforeGrows(rows, rows[i].place, rows[j].place);
    }
    forall i, j | 0 <= i < j < |rows|
      ensures Numbers(rows)[i] != Numbers(rows)[j]
    {
      assert out[i].place != out[j].place;
      assert Number(out[i]) == Numbers(rows)[i] && Number(out[j]) == Numbers(rows)[j];
    }
    forall k | 0 <= k < |rows|
      ensures k in Numbers(rows)
    {
      NoGaps(Numbers(rows), k);
    }
  }

  function Contents(columns: set<string>, rows: seq<Stored>): Table
  {
    Table(columns, seq(|rows|, i requires 0 <= i < |rows| => rows[i].row))
  }

  /** A numbered table is one a view may edit and delete rows of. */
  lemma NumberedIsKeyed(columns: set<string>, rows: seq<Stored>)
    requires forall r <- rows :: r.row.Keys == columns
    ensures ViewMeaning.Keyed(Contents(columns + {ROWID_COL}, Numbered(rows)))
  {
    var t := Contents(columns + {ROWID_COL}, Numbered(rows));
    forall row <- t.rows
      ensures row.Keys == t.columns && row[ROWID_COL].Int?
    {
      var i :| 0 <= i < |rows| && row == Numbered(rows)[i].row;
      assert rows[i] in rows;
    }
  }
}
