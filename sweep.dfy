/** What the two k-sweep classifiers (v0.1/analyzing/KNN.py, v0.1/analyzing/WeightedKNN.py)
    share: the CSV row they write and read back, the selection of samples or rows by a 1-based
    inclusive range (`start = start - 1`, then `continue` below start, `break` above end), and
    read_k_file, which adds up the rows of the correct-count file column by column and picks
    the k with the most correct answers. */
module Sweep {
  import opened Wrappers
  import Text
  import Seqs

  /** One CSV row of a k-sweep file: the label cell, then one integer per k. */
  datatype ResultRow = ResultRow(details: string, values: seq<int>)

  /** The label `f"Samples {start}-{end} Inclusive"`. */
  function RangeLabel(start: int, end: int): string
  {
    "Samples " + Text.IntString(start) + "-" + Text.IntString(end) + " Inclusive"
  }

  /** The elements of xs whose 0-based index i has lo <= i <= hi, in order. */
  function Picked<T>(xs: seq<T>, lo: int, hi: int): (r: seq<T>)
    ensures |r| <= |xs|
    decreases |xs|
  {
    if xs == [] then []
    else
      var n := |xs| - 1;
      Picked(xs[..n], lo, hi) + (if lo <= n <= hi then [xs[n]] else [])
  }

  function Bound(i: int, n: nat): (r: nat)
    ensures r <= n
  {
    if i < 0 then 0 else if i > n then n else i
  }

  /** The picked elements are the slice between the two bounds, clipped to xs. */
  lemma {:induction false} PickedIsSlice<T>(xs: seq<T>, lo: int, hi: int)
    ensures Bound(lo, |xs|) <= Bound(hi + 1, |xs|) ==>
      Picked(xs, lo, hi) == xs[Bound(lo, |xs|)..Bound(hi + 1, |xs|)]
    ensures Bound(lo, |xs|) > Bound(hi + 1, |xs|) ==> Picked(xs, lo, hi) == []
    decreases |xs|
  {
    if xs != [] {
      var n := |xs| - 1;
      PickedIsSlice(xs[..n], lo, hi);
      var a, b := Bound(lo, n), Bound(hi + 1, n);
      var a', b' := Bound(lo, |xs|), Bound(hi + 1, |xs|);
      if lo <= n <= hi {
        assert a == a' && b' == n + 1;
        if a <= b {
          assert b == n;
          assert xs[..n][a..b] + [xs[n]] == xs[a'..b'];
        }
      } else if n < lo {
        assert a' > b' || (a' == b' && a == b);
      } else {
        assert a == a' && b == b';
        if a <= b {
          assert xs[..n][a..b] == xs[a'..b'];
        }
      }
    }
  }

  /** One round of a loop over enumerate(xs). */
  lemma PickedStep<T>(xs: seq<T>, lo: int, hi: int, i: nat)
    requires i < |xs|
    ensures Picked(xs[..i + 1], lo, hi) == Picked(xs[..i], lo, hi) + (if lo <= i <= hi then [xs[i]] else [])
  {
    assert xs[..i + 1][..i] == xs[..i];
  }

  /** Once the index passes hi (the `break`), or the list is exhausted, the rest adds nothing. */
  lemma {:induction false} PickedDone<T>(xs: seq<T>, lo: int, hi: int, i: nat)
    requires i <= |xs| && (i == |xs| || i > hi)
    ensures Picked(xs, lo, hi) == Picked(xs[..i], lo, hi)
    decreases |xs| - i
  {
    if i == |xs| {
      assert xs[..i] == xs;
    } else {
      var n := |xs| - 1;
      PickedDone(xs[..n], lo, hi, i);
      assert xs[..n][..i] == xs[..i];
    }
  }

  /** acc with vs added to its first |vs| entries (entries past |acc| are dropped). */
  function AddVec(acc: seq<int>, vs: seq<int>): (r: seq<int>)
    ensures |r| == |acc|
  {
    seq(|acc|, i requires 0 <= i < |acc| => acc[i] + (if i < |vs| then vs[i] else 0))
  }

  function Zeros(n: nat): (r: seq<int>)
    ensures |r| == n && forall i :: 0 <= i < n ==> r[i] == 0
  {
    seq(n, i => 0)
  }

  /** Adds vs into the first |vs| entries of acc, in place. */
  method Accumulate(acc: array<int>, vs: seq<int>)
    requires |vs| <= acc.Length
    modifies acc
    ensures acc[..] == AddVec(old(acc[..]), vs)
  {
    for j := 0 to |vs|
      invariant forall t :: 0 <= t < acc.Length ==> acc[t] == old(acc[t]) + (if t < j then vs[t] else 0)
    {
      acc[j] := acc[j] + vs[j];
    }
    assert acc[..] == AddVec(old(acc[..]), vs);
  }

  /** `totals` once read_k_file has added up the given rows: a row with more values than
      totals has entries raises IndexError. */
  function Totals(rows: seq<ResultRow>, width: nat): (r: Result<seq<int>>)
    ensures r.Ok? ==> |r.value| == width
    decreases |rows|
  {
    if rows == [] then Ok(Zeros(width))
    else
      var n := |rows| - 1;
      match Totals(rows[..n], width)
      case Err(f) => Err(f)
      case Ok(t) => if |rows[n].values| > width then Err(IndexError) else Ok(AddVec(t, rows[n].values))
  }

  /** Column j of the rows, a row too short for column j counting 0. */
  function ColumnSum(rows: seq<ResultRow>, j: nat): int
    decreases |rows|
  {
    if rows == [] then 0
    else
      var n := |rows| - 1;
      ColumnSum(rows[..n], j) + (if j < |rows[n].values| then rows[n].values[j] else 0)
  }

  predicate Narrow(rows: seq<ResultRow>, width: nat)
  {
    forall i :: 0 <= i < |rows| ==> |rows[i].values| <= width
  }

  /** The totals exist exactly when no row is wider than totals, and then they are the column
      sums. */
  lemma {:induction false} TotalsAreColumnSums(rows: seq<ResultRow>, width: nat)
    ensures Totals(rows, width).Ok? <==> Narrow(rows, width)
    ensures Totals(rows, width).Ok? ==>
      forall j :: 0 <= j < width ==> Totals(rows, width).value[j] == ColumnSum(rows, j)
    decreases |rows|
  {
    if rows != [] {
      var n := |rows| - 1;
      TotalsAreColumnSums(rows[..n], width);
      assert Narrow(rows, width) <==> Narrow(rows[..n], width) && |rows[n].values| <= width;
    }
  }

  /** max(xs). */
  function MaxOf(xs: seq<int>): (m: int)
    requires |xs| > 0
    ensures m in xs && forall i :: 0 <= i < |xs| ==> xs[i] <= m
    decreases |xs|
  {
    if |xs| == 1 then xs[0]
    else
      var m := MaxOf(xs[..|xs| - 1]);
      assert xs[..|xs| - 1][0] == xs[0];
      if xs[|xs| - 1] > m then xs[|xs| - 1] else m
  }

  /** xs.index(x): the first position of x. */
  function IndexOf(xs: seq<int>, x: int): (i: nat)
    requires x in xs
    ensures i < |xs| && xs[i] == x && forall j :: 0 <= j < i ==> xs[j] != x
    decreases |xs|
  {
    if xs[0] == x then 0 else 1 + IndexOf(xs[1..], x)
  }

  /** What read_k_file prints: the best k (1-based) and its correct count. */
  datatype Choice = Choice(bestK: int, mostCorrect: int)

  /** The chosen k is the first column whose total is largest; a row wider than the totals
      raises IndexError. */
  function KChoice(rows: seq<ResultRow>, start: int, end: int, width: nat): (r: Result<Choice>)
    requires width > 0
    ensures r.Err? <==> Totals(Picked(rows, start - 1, end - 1), width).Err?
    ensures r.Ok? ==> var t := Totals(Picked(rows, start - 1, end - 1), width).value;
      1 <= r.value.bestK <= width && t[r.value.bestK - 1] == r.value.mostCorrect &&
      (forall j :: 0 <= j < width ==> t[j] <= r.value.mostCorrect) &&
      (forall j :: 0 <= j < r.value.bestK - 1 ==> t[j] < r.value.mostCorrect)
  {
    match Totals(Picked(rows, start - 1, end - 1), width)
    case Err(f) => Err(f)
    case Ok(t) =>
      var m := MaxOf(t);
      Ok(Choice(IndexOf(t, m) + 1, m))
  }

  /** read_k_file(start, end) on the rows of the correct-count file, for `totals = [0]*width`. */
  method ReadKFile(rows: seq<ResultRow>, start: int, end: int, width: nat) returns (r: Result<Choice>)
    requires width > 0
    ensures r == KChoice(rows, start, end, width)
  {
    var lo, hi := start - 1, end - 1;
    var totals := new int[width](_ => 0);
    assert totals[..] == Zeros(width);
    var i := 0;
    while i < |rows|
      invariant 0 <= i <= |rows|
      invariant Totals(Picked(rows[..i], lo, hi), width) == Ok(totals[..])
    {
      if i < lo {
        Advance(rows, lo, hi, i, width, totals[..]);
        i := i + 1;
        continue;
      }
      if i > hi {
        break;
      }
      Advance(rows, lo, hi, i, width, totals[..]);
      var values := rows[i].values;
      if |values| > width {
        ErrPersists(rows, lo, hi, i + 1, |rows|, width);
        ChoiceOfErr(rows, start, end, width);
        return Err(IndexError);
      }
      Accumulate(totals, values);
      i := i + 1;
    }
    PickedDone(rows, lo, hi, i);
    ChoiceOf(rows, start, end, width, totals[..]);
    var most := MaxOf(totals[..]);
    var best := IndexOf(totals[..], most) + 1;
    return Ok(Choice(best, most));
  }

  lemma ChoiceOf(rows: seq<ResultRow>, start: int, end: int, width: nat, t: seq<int>)
    requires width > 0 && Totals(Picked(rows, start - 1, end - 1), width) == Ok(t)
    ensures KChoice(rows, start, end, width) == Ok(Choice(IndexOf(t, MaxOf(t)) + 1, MaxOf(t)))
  {
  }

  lemma ChoiceOfErr(rows: seq<ResultRow>, start: int, end: int, width: nat)
    requires width > 0 && Totals(Picked(rows[..|rows|], start - 1, end - 1), width) == Err(IndexError)
    ensures KChoice(rows, start, end, width) == Err(IndexError)
  {
    assert rows[..|rows|] == rows;
  }

  lemma TotalsSnoc(rows: seq<ResultRow>, row: ResultRow, width: nat)
    ensures Totals(rows + [row], width) ==
      match Totals(rows, width)
      case Err(f) => Err(f)
      case Ok(t) => if |row.values| > width then Err(IndexError) else Ok(AddVec(t, row.values))
  {
    assert (rows + [row])[..|rows|] == rows;
  }

  /** One round of read_k_file's loop: a row outside the range leaves the totals alone, a row
      inside adds its values or raises IndexError. */
  lemma Advance(rows: seq<ResultRow>, lo: int, hi: int, i: nat, width: nat, t: seq<int>)
    requires i < |rows| && Totals(Picked(rows[..i], lo, hi), width) == Ok(t)
    ensures !(lo <= i <= hi) ==> Totals(Picked(rows[..i + 1], lo, hi), width) == Ok(t)
    ensures lo <= i <= hi && |rows[i].values| <= width ==>
      Totals(Picked(rows[..i + 1], lo, hi), width) == Ok(AddVec(t, rows[i].values))
    ensures lo <= i <= hi && |rows[i].values| > width ==>
      Totals(Picked(rows[..i + 1], lo, hi), width) == Err(IndexError)
  {
    var p := Picked(rows[..i], lo, hi);
    PickedStep(rows, lo, hi, i);
    Seqs.AppendEmpty(p);
    TotalsSnoc(p, rows[i], width);
  }

  /** Once a row has raised IndexError, later rows do not matter. */
  lemma {:induction false} ErrPersists(rows: seq<ResultRow>, lo: int, hi: int, j: nat, m: nat, width: nat)
    requires j <= m <= |rows| && Totals(Picked(rows[..j], lo, hi), width).Err?
    ensures Totals(Picked(rows[..m], lo, hi), width) == Totals(Picked(rows[..j], lo, hi), width)
    decreases m - j
  {
    if m > j {
      ErrPersists(rows, lo, hi, j, m - 1, width);
      ErrStep(rows, lo, hi, m - 1, width);
    }
  }

  lemma ErrStep(rows: seq<ResultRow>, lo: int, hi: int, i: nat, width: nat)
    requires i < |rows| && Totals(Picked(rows[..i], lo, hi), width).Err?
    ensures Totals(Picked(rows[..i + 1], lo, hi), width) == Totals(Picked(rows[..i], lo, hi), width)
  {
    var p := Picked(rows[..i], lo, hi);
    PickedStep(rows, lo, hi, i);
    if lo <= i <= hi {
      TotalsSnocErr(p, rows[i], width);
    } else {
      Seqs.AppendEmpty(p);
    }
  }

  lemma TotalsSnocErr(rows: seq<ResultRow>, row: ResultRow, width: nat)
    requires Totals(rows, width).Err?
    ensures Totals(rows + [row], width) == Totals(rows, width)
  {
    TotalsSnoc(rows, row, width);
  }
}
