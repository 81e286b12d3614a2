// The rows of a list that a filter keeps, named by their positions in order.
module Picking {
  /** The positions of the rows to keep, in order. */
  ghost predicate Picks<T(!new)>(at: seq<nat>, rows: seq<T>, keep: T -> bool) {
    Rising(at, rows, keep) && forall i :: 0 <= i < |rows| && keep(rows[i]) ==> i in at
  }

  ghost predicate Rising<T(!new)>(at: seq<nat>, rows: seq<T>, keep: T -> bool) {
    && (forall k :: 0 <= k < |at| ==> at[k] < |rows| && keep(rows[at[k]]))
    && forall j, k :: 0 <= j < k < |at| ==> at[j] < at[k]
  }

  function Shifted(at: seq<nat>): (r: seq<nat>)
    ensures |r| == |at| && forall k :: 0 <= k < |at| ==> r[k] == at[k] + 1
  {
    seq(|at|, k requires 0 <= k < |at| => at[k] + 1)
  }

  lemma RisingMore<T(!new)>(before: seq<nat>, rows: seq<T>, keep: T -> bool)
    requires rows != [] && Rising(before, rows[1..], keep)
    ensures Rising((if keep(rows[0]) then [0] else []) + Shifted(before), rows, keep)
  {
    var first: seq<nat> := if keep(rows[0]) then [0] else [];
    var at := first + Shifted(before);
    forall k | 0 <= k < |at| ensures at[k] < |rows| && keep(rows[at[k]]) {
      if k >= |first| { assert at[k] == before[k - |first|] + 1 && rows[1..][before[k - |first|]] == rows[at[k]]; }
    }
    forall j, k | 0 <= j < k < |at| ensures at[j] < at[k] {
      assert at[k] == before[k - |first|] + 1;
      if j >= |first| { assert at[j] == before[j - |first|] + 1; }
    }
  }

  /** From the picks of the rest of a list to those of the list. */
  lemma PicksMore<T(!new)>(before: seq<nat>, rows: seq<T>, keep: T -> bool)
    requires rows != [] && Picks(before, rows[1..], keep)
    ensures Picks((if keep(rows[0]) then [0] else []) + Shifted(before), rows, keep)
  {
    RisingMore(before, rows, keep);
    hide Rising;
    var first: seq<nat> := if keep(rows[0]) then [0] else [];
    var at := first + Shifted(before);
    forall i | 0 <= i < |rows| && keep(rows[i]) ensures i in at {
      if i == 0 {
        assert at[0] == 0;
      } else {
        assert rows[1..][i - 1] == rows[i];
        assert i - 1 in before;
        var k :| 0 <= k < |before| && before[k] == i - 1;
        assert at[|first| + k] == i;
      }
    }
  }

  /** What a filter leaves: the picked rows, in order. */
  ghost predicate Leaves<T(!new)>(left: seq<T>, rows: seq<T>, keep: T -> bool, at: seq<nat>) {
    Picks(at, rows, keep) && Same(left, rows, at)
  }

  ghost predicate Same<T(!new)>(left: seq<T>, rows: seq<T>, at: seq<nat>) {
    |left| == |at| && forall k :: 0 <= k < |at| ==> at[k] < |rows| && left[k] == rows[at[k]]
  }

  /** From what a filter leaves of the rest of a list to what it leaves of the list. */
  lemma LeavesMore<T(!new)>(rest: seq<T>, rows: seq<T>, keep: T -> bool, before: seq<nat>)
    requires rows != [] && Leaves(rest, rows[1..], keep, before)
    ensures Leaves((if keep(rows[0]) then [rows[0]] else []) + rest, rows, keep, (if keep(rows[0]) then [0] else []) + Shifted(before))
  {
    hide Picks;
    PicksMore(before, rows, keep);
    assert forall k :: 0 <= k < |before| ==> rows[1..][before[k]] == rows[before[k] + 1];
  }

  lemma LeavesNothing<T(!new)>(keep: T -> bool)
    ensures Leaves([], [], keep, [])
  {
  }

  /** A filter leaves nothing exactly if there is nothing to keep. */
  lemma LeavesSome<T(!new)>(left: seq<T>, rows: seq<T>, keep: T -> bool, at: seq<nat>)
    requires Leaves(left, rows, keep, at)
    ensures left != [] <==> exists row :: row in rows && keep(row)
  {
    if row :| row in rows && keep(row) {
      var i: nat :| i < |rows| && rows[i] == row;
      assert i in at;
    }
    if left != [] { assert keep(rows[at[0]]) && rows[at[0]] in rows; }
  }

  /** From what a filter leaves of the list without its last row to what it leaves of the list. */
  lemma LeavesLast<T(!new)>(init: seq<T>, rows: seq<T>, keep: T -> bool, before: seq<nat>)
    requires rows != [] && Leaves(init, rows[..|rows| - 1], keep, before)
    ensures var n := |rows| - 1;
      Leaves(init + (if keep(rows[n]) then [rows[n]] else []), rows, keep, before + if keep(rows[n]) then [n] else [])
  {
    var n := |rows| - 1;
    var at := before + if keep(rows[n]) then [n] else [];
    assert forall i :: 0 <= i < n ==> rows[..n][i] == rows[i];
    forall i | 0 <= i < |rows| && keep(rows[i]) ensures i in at {
      if i == n { assert at[|before|] == n; } else { assert i in before; }
    }
  }

  /** What is made of each picked row, in order. */
  ghost predicate Makes<T(!new), U(!new)>(made: seq<U>, rows: seq<T>, at: seq<nat>, of: (T, U) -> bool) {
    |made| == |at| && forall k :: 0 <= k < |at| ==> at[k] < |rows| && of(rows[at[k]], made[k])
  }

  /** From what is made of the rest of a list to what is made of the list. */
  lemma MakesMore<T(!new), U(!new)>(first: seq<U>, rest: seq<U>, rows: seq<T>, before: seq<nat>, of: (T, U) -> bool)
    requires rows != [] && Makes(rest, rows[1..], before, of) && |first| <= 1 && (first != [] ==> of(rows[0], first[0]))
    ensures Makes(first + rest, rows, (if first != [] then [0] else []) + Shifted(before), of)
  {
    var at := (if first != [] then [0] else []) + Shifted(before);
    forall k | 0 <= k < |at| ensures at[k] < |rows| && of(rows[at[k]], (first + rest)[k]) {
      if k >= |first| { assert at[k] == before[k - |first|] + 1 && rows[1..][before[k - |first|]] == rows[at[k]]; }
    }
  }
}
