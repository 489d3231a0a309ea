/** The typed operation stack of a view (transform.rs). Row ids and integer scalars are
    unbounded here, so every statement covers the source's 64-bit ones. A float carries the
    text the source prints for it. */
module Transform {

  import opened Wrappers
  import opened Decimal

  const ROWID_COL: string := "__dat0_rowid"

  /** The text of a finite float: a digit or a minus sign first, and a point or an exponent. */
  predicate IsFiniteText(s: string)
  {
    && s != ""
    && (Digit(s[0]) || s[0] == '-')
    && (forall c <- s :: Digit(c) || c in ".e-")
    && ('.' in s || 'e' in s)
  }

  /** The texts of the floats that are not finite. */
  const NOT_FINITE: seq<string> := ["inf", "-inf", "NaN"]

  type FloatText = s: string | IsFiniteText(s) || s in NOT_FINITE witness "0.0"

  datatype Scalar =
    | Null
    | Bool(b: bool)
    | Int(i: int)
    | Float(text: FloatText)
    | Str(s: string)
    | Date(day: string)
    | Timestamp(instant: string)

  datatype FilterOp =
    | Eq | Neq | Lt | Lte | Gt | Gte | Between
    | Contains | NotContains | StartsWith | EndsWith
    | In | Regex | IsEmpty | IsNotEmpty | IsTrue | IsFalse

  datatype FilterValue =
    | One(value: Scalar)
    | Range(lo: Scalar, hi: Scalar, inclusive: bool)
    | Many(values: seq<Scalar>)
    | Nothing

  datatype SortDirection = Asc | Desc

  datatype SortKey = SortKey(column: string, direction: SortDirection)

  datatype CellEdit = CellEdit(row: int, column: string, value: Scalar)

  datatype Transformation =
    | Filter(column: string, op: FilterOp, value: FilterValue)
    | Sort(keys: seq<SortKey>)
    | Edit(cells: seq<CellEdit>)
    | RowDelete(rows: seq<int>)
    | Reorder(columns: seq<string>)
    | Rename(source: string, to: string)
    | DeleteColumn(hidden: seq<string>)

  datatype ReplaySplit = ReplaySplit(replayable: seq<Transformation>, droppedEdits: nat, droppedDeletes: nat)

  /** The operations of `ops` that satisfy `keep`, in order. */
  function Kept(ops: seq<Transformation>, keep: Transformation -> bool): seq<Transformation>
  {
    if ops == [] then []
    else Kept(ops[..|ops| - 1], keep) + (if keep(ops[|ops| - 1]) then [ops[|ops| - 1]] else [])
  }

  predicate IsFilter(op: Transformation) { op.Filter? }

  predicate IsEdit(op: Transformation) { op.Edit? }

  predicate IsDelete(op: Transformation) { op.RowDelete? }

  /** Keyed by column names rather than row ids: survives a re-import. */
  predicate IsColumnKeyed(op: Transformation) { !op.Edit? && !op.RowDelete? }

  /** The keys of the last sort of the stack, if it has one. */
  function LastSort(ops: seq<Transformation>): Option<seq<SortKey>>
  {
    if ops == [] then None
    else if ops[|ops| - 1].Sort? then Some(ops[|ops| - 1].keys)
    else LastSort(ops[..|ops| - 1])
  }

  /** It is the last sort of the stack, wherever it is; or there is none. */
  lemma {:induction false} LastSortIs(ops: seq<Transformation>)
    ensures match LastSort(ops) case None => forall op <- ops :: !op.Sort? case Some(keys) => SortsLast(ops, keys)
  {
    if ops != [] {
      var init, last := ops[..|ops| - 1], ops[|ops| - 1];
      assert ops == init + [last];
      LastSortIs(init);
      SortsLastNext(init, last);
    }
  }

  ghost predicate SortsLast(ops: seq<Transformation>, keys: seq<SortKey>)
  {
    exists i :: 0 <= i < |ops| && ops[i] == Sort(keys) && forall j :: i < j < |ops| ==> !ops[j].Sort?
  }

  lemma SortsLastNext(ops: seq<Transformation>, last: Transformation)
    ensures last.Sort? ==> SortsLast(ops + [last], last.keys)
    ensures !last.Sort? ==> forall keys :: SortsLast(ops, keys) ==> SortsLast(ops + [last], keys)
  {
    var more := ops + [last];
    assert more[|ops|] == last && forall j :: 0 <= j < |ops| ==> more[j] == ops[j];
    if !last.Sort? {
      forall keys | SortsLast(ops, keys)
        ensures SortsLast(more, keys)
      {
        var i :| 0 <= i < |ops| && ops[i] == Sort(keys) && forall j :: i < j < |ops| ==> !ops[j].Sort?;
        assert more[i] == Sort(keys) && forall j :: i < j < |more| ==> !more[j].Sort?;
      }
    }
  }

  /** The operations that are neither edits nor deletes, by where they stand in the stack. */
  ghost predicate AreKept(ops: seq<Transformation>, kept: seq<Transformation>, places: seq<nat>)
  {
    && |kept| == |places|
    && (forall k :: 0 <= k < |places| ==> places[k] < |ops| && kept[k] == ops[places[k]])
    && (forall j, k :: 0 <= j < k < |places| ==> places[j] < places[k])
    && (forall i :: 0 <= i < |ops| ==> (i in places <==> !ops[i].Edit? && !ops[i].RowDelete?))
  }

  lemma AreKeptNext(ops: seq<Transformation>, kept: seq<Transformation>, places: seq<nat>, op: Transformation)
    requires AreKept(ops, kept, places)
    ensures if op.Edit? || op.RowDelete? then AreKept(ops + [op], kept, places)
            else AreKept(ops + [op], kept + [op], places + [|ops|])
  {
    var more := ops + [op];
    assert forall i :: 0 <= i < |more| ==> more[i] == if i < |ops| then ops[i] else op;
    forall i | 0 <= i < |more|
      ensures i in places + [|ops|] <==> i in places || i == |ops|
    {
    }
    assert |ops| !in places;
  }

  lemma {:induction false} EditCount(ops: seq<Transformation>)
    ensures |Kept(ops, IsEdit)| == |set i | 0 <= i < |ops| && ops[i].Edit?|
  {
    if ops != [] {
      var init, last := ops[..|ops| - 1], ops[|ops| - 1];
      EditCount(init);
      var few := set i | 0 <= i < |init| && init[i].Edit?;
      assert (set i | 0 <= i < |ops| && ops[i].Edit?) == if last.Edit? then few + {|init|} else few;
    }
  }

  lemma {:induction false} DeleteCount(ops: seq<Transformation>)
    ensures |Kept(ops, IsDelete)| == |set i | 0 <= i < |ops| && ops[i].RowDelete?|
  {
    if ops != [] {
      var init, last := ops[..|ops| - 1], ops[|ops| - 1];
      DeleteCount(init);
      var few := set i | 0 <= i < |init| && init[i].RowDelete?;
      assert (set i | 0 <= i < |ops| && ops[i].RowDelete?) == if last.RowDelete? then few + {|init|} else few;
    }
  }

  lemma {:induction false} KeptPlaces(ops: seq<Transformation>) returns (places: seq<nat>)
    ensures AreKept(ops, Kept(ops, IsColumnKeyed), places)
  {
    if ops == [] {
      places := [];
    } else {
      var init, last := ops[..|ops| - 1], ops[|ops| - 1];
      places := KeptPlaces(init);
      AreKeptNext(init, Kept(init, IsColumnKeyed), places, last);
      assert ops == init + [last] && Kept(init, IsColumnKeyed) + [] == Kept(init, IsColumnKeyed);
      if !last.Edit? && !last.RowDelete? {
        places := places + [|init|];
      }
    }
  }

  lemma {:induction false} KeptAddUp(ops: seq<Transformation>)
    ensures |Kept(ops, IsColumnKeyed)| + |Kept(ops, IsEdit)| + |Kept(ops, IsDelete)| == |ops|
  {
    if ops != [] {
      KeptAddUp(ops[..|ops| - 1]);
    }
  }

  /** What a replay can keep of a stack, with how many edits and deletes it cannot: `places` is
      where the kept operations stood. */
  method SplitReplayable(ops: seq<Transformation>) returns (split: ReplaySplit, ghost places: seq<nat>)
    ensures AreKept(ops, split.replayable, places) && split.replayable == Kept(ops, IsColumnKeyed)
    ensures split.droppedEdits == |set i | 0 <= i < |ops| && ops[i].Edit?|
    ensures split.droppedDeletes == |set i | 0 <= i < |ops| && ops[i].RowDelete?|
    ensures |split.replayable| + split.droppedEdits + split.droppedDeletes == |ops|
  {
    var replayable, edits, deletes := [], 0, 0;
    for k := 0 to |ops|
      invariant replayable == Kept(ops[..k], IsColumnKeyed)
      invariant edits == |Kept(ops[..k], IsEdit)| && deletes == |Kept(ops[..k], IsDelete)|
    {
      assert ops[..k + 1][..k] == ops[..k];
      match ops[k] {
        case Edit(_) => edits := edits + 1;
        case RowDelete(_) => deletes := deletes + 1;
        case _ => replayable := replayable + [ops[k]];
      }
    }
    assert ops[..|ops|] == ops;
    EditCount(ops);
    DeleteCount(ops);
    KeptAddUp(ops);
    places := KeptPlaces(ops);
    split := ReplaySplit(replayable, edits, deletes);
  }

  /** Dropping operations that are no sorts leaves the last sort as it was. */
  lemma {:induction false} LastSortKept(ops: seq<Transformation>, keep: Transformation -> bool)
    requires forall op: Transformation :: op.Sort? ==> keep(op)
    ensures LastSort(Kept(ops, keep)) == LastSort(ops)
  {
    if ops != [] {
      var init, last := ops[..|ops| - 1], ops[|ops| - 1];
      LastSortKept(init, keep);
      if keep(last) {
        assert (Kept(init, keep) + [last])[..|Kept(init, keep)|] == Kept(init, keep);
      } else {
        assert Kept(init, keep) + [] == Kept(init, keep);
      }
    }
  }
}
