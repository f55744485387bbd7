/** Distance and neighbour ranking, written identically in v0.1/analyzing/KNN.py and
    v0.1/analyzing/WeightedKNN.py.

    A row is a CSV line of floats `[label, model, feature...]`. `distance(a, b)` sums the
    squared differences of columns 2, 3, ... of a (so the label and the model never count)
    and takes the square root, which is a parameter here. `get_nn` appends each training row
    with its distance to a list and re-sorts that list by distance after every append; since
    Python's sort is stable, ties keep dataset order. It then takes the first k entries. */
module Neighbours {
  import opened Wrappers
  import Seqs

  type Row = seq<real>

  /** The square root applied to the summed squares. */
  type Root = real -> real

  /** A training row with its distance to the query. */
  datatype Neighbour = Neighbour(row: Row, dist: real)

  /** Every row has a label column (file_to_dataset reads column 0 of every row). */
  predicate Labelled(rows: seq<Row>)
  {
    forall i :: 0 <= i < |rows| ==> |rows[i]| > 0
  }

  /** `(a - b)**2` for one column. */
  function Square(x: real): (y: real)
    ensures y >= 0.0
  {
    x * x
  }

  /** Whether `distance(q, row)` finds every column of q it reads in row as well. */
  predicate Fits(q: Row, row: Row)
  {
    |q| <= 2 || |q| <= |row|
  }

  /** The sum of the squared differences of columns 2 .. n-1. */
  function SqDistTo(a: Row, b: Row, n: nat): (r: real)
    requires n <= 2 || (n <= |a| && n <= |b|)
    ensures r >= 0.0
    decreases n
  {
    if n <= 2 then 0.0 else SqDistTo(a, b, n - 1) + Square(a[n - 1] - b[n - 1])
  }

  /** The squared distance of `distance(a, b)`, over the columns of a from 2 on. */
  function SqDist(a: Row, b: Row): real
    requires Fits(a, b)
  {
    SqDistTo(a, b, |a|)
  }

  lemma {:induction false} SqDistToSymmetric(a: Row, b: Row, n: nat)
    requires n <= 2 || (n <= |a| && n <= |b|)
    ensures SqDistTo(a, b, n) == SqDistTo(b, a, n)
    decreases n
  {
    if n > 2 {
      SqDistToSymmetric(a, b, n - 1);
      assert Square(a[n - 1] - b[n - 1]) == Square(b[n - 1] - a[n - 1]);
    }
  }

  /** Distance is symmetric between rows of equal width. */
  lemma SqDistSymmetric(a: Row, b: Row)
    requires |a| == |b|
    ensures SqDist(a, b) == SqDist(b, a)
  {
    SqDistToSymmetric(a, b, |a|);
  }

  lemma {:induction false} SqDistToZero(a: Row, b: Row, n: nat)
    requires n <= 2 || (n <= |a| && n <= |b|)
    requires forall j :: 2 <= j < n ==> a[j] == b[j]
    ensures SqDistTo(a, b, n) == 0.0
    decreases n
  {
    if n > 2 {
      SqDistToZero(a, b, n - 1);
      assert a[n - 1] - b[n - 1] == 0.0;
    }
  }

  /** The distance is zero when the rows agree on every feature column, whatever their
      labels and models. */
  lemma SqDistZero(a: Row, b: Row)
    requires Fits(a, b)
    requires forall j :: 2 <= j < |a| ==> a[j] == b[j]
    ensures SqDist(a, b) == 0.0
  {
    SqDistToZero(a, b, |a|);
  }

  /** A row is at distance zero from itself. */
  lemma SqDistSelf(a: Row)
    ensures SqDist(a, a) == 0.0
  {
    SqDistZero(a, a);
  }

  lemma {:induction false} SqDistToColumns(a: Row, a': Row, b: Row, b': Row, n: nat)
    requires n <= 2 || (n <= |a| && n <= |b| && n <= |a'| && n <= |b'|)
    requires forall j :: 2 <= j < n ==> a[j] == a'[j] && b[j] == b'[j]
    ensures SqDistTo(a, b, n) == SqDistTo(a', b', n)
    decreases n
  {
    if n > 2 {
      SqDistToColumns(a, a', b, b', n - 1);
    }
  }

  /** The label and model columns (0 and 1) never affect the distance. */
  lemma SqDistIgnoresLabelAndModel(a: Row, a': Row, b: Row, b': Row)
    requires |a| == |a'| && Fits(a, b) && Fits(a', b')
    requires forall j :: 2 <= j < |a| ==> a[j] == a'[j] && b[j] == b'[j]
    ensures SqDist(a, b) == SqDist(a', b')
  {
    SqDistToColumns(a, a', b, b', |a|);
  }

  /** `distance(a, b)`: the while loop over columns 2 .. |a|-1. Reading b past its end raises
      IndexError, which happens exactly when b is shorter than a and a has a feature column. */
  method Distance(root: Root, a: Row, b: Row) returns (r: Result<real>)
    ensures r == if Fits(a, b) then Ok(root(SqDist(a, b))) else Err(IndexError)
  {
    var sum := 0.0;
    var i := 2;
    while i < |a|
      invariant 2 <= i && (i == 2 || (i <= |a| && i <= |b|))
      invariant sum == SqDistTo(a, b, i)
    {
      if i >= |b| {
        return Err(IndexError);
      }
      sum := sum + (a[i] - b[i]) * (a[i] - b[i]);
      i := i + 1;
    }
    return Ok(root(sum));
  }

  /** Each neighbour is no farther than the next one. */
  predicate Ascending(ns: seq<Neighbour>)
    decreases |ns|
  {
    |ns| <= 1 || (ns[0].dist <= ns[1].dist && Ascending(ns[1..]))
  }

  /** In an ascending list every neighbour is no farther than every later one. */
  lemma {:induction false} AscendingPairs(ns: seq<Neighbour>)
    requires Ascending(ns)
    ensures forall i, j :: 0 <= i < j < |ns| ==> ns[i].dist <= ns[j].dist
    decreases |ns|
  {
    if |ns| > 1 {
      AscendingPairs(ns[1..]);
      forall i, j | 0 <= i < j < |ns| ensures ns[i].dist <= ns[j].dist {
        if i > 0 {
          assert ns[i] == ns[1..][i - 1] && ns[j] == ns[1..][j - 1];
        } else if j > 1 {
          assert ns[1] == ns[1..][0] && ns[j] == ns[1..][j - 1];
        }
      }
    }
  }

  lemma {:induction false} AscendingInit(ns: seq<Neighbour>)
    requires Ascending(ns) && ns != []
    ensures Ascending(ns[..|ns| - 1])
    ensures ns[0].dist <= ns[|ns| - 1].dist
    decreases |ns|
  {
    if |ns| > 1 {
      AscendingInit(ns[1..]);
      assert ns[..|ns| - 1][1..] == ns[1..][..|ns| - 2];
    }
  }

  lemma {:induction false} AscendingPrefix(ns: seq<Neighbour>, k: nat)
    requires Ascending(ns) && k <= |ns|
    ensures Ascending(ns[..k])
    decreases k
  {
    if k > 1 {
      AscendingPrefix(ns[1..], k - 1);
      assert ns[..k][1..] == ns[1..][..k - 1];
    }
  }

  /** Inserts x into an ascending list after every neighbour that is not farther than x:
      where a stable sort of `ns + [x]` puts it. */
  function Place(ns: seq<Neighbour>, x: Neighbour): (r: seq<Neighbour>)
    requires Ascending(ns)
    ensures Ascending(r)
    ensures multiset(r) == multiset(ns) + multiset{x}
    ensures |r| == |ns| + 1 && r[0] == if ns != [] && ns[0].dist <= x.dist then ns[0] else x
    decreases |ns|
  {
    if ns == [] then [x]
    else if x.dist < ns[0].dist then
      assert ([x] + ns)[1..] == ns;
      [x] + ns
    else
      var rest := Place(ns[1..], x);
      assert ([ns[0]] + rest)[1..] == rest;
      assert ns == [ns[0]] + ns[1..];
      [ns[0]] + rest
  }

  /** Python's stable `list.sort(key=distance)`, as insertion of each element in turn. */
  function StableSort(ns: seq<Neighbour>): (r: seq<Neighbour>)
    ensures Ascending(r)
    ensures multiset(r) == multiset(ns) && |r| == |ns|
    decreases |ns|
  {
    if ns == [] then []
    else
      assert ns == ns[..|ns| - 1] + [ns[|ns| - 1]];
      Place(StableSort(ns[..|ns| - 1]), ns[|ns| - 1])
  }

  function Tie(n: Neighbour, d: real): seq<Neighbour>
  {
    if n.dist == d then [n] else []
  }

  /** The neighbours at distance d, in list order. */
  function Ties(ns: seq<Neighbour>, d: real): seq<Neighbour>
    decreases |ns|
  {
    if ns == [] then [] else Tie(ns[0], d) + Ties(ns[1..], d)
  }

  lemma {:induction false} TiesAppend(xs: seq<Neighbour>, ys: seq<Neighbour>, d: real)
    ensures Ties(xs + ys, d) == Ties(xs, d) + Ties(ys, d)
    decreases |xs|
  {
    if xs == [] {
      assert xs + ys == ys;
    } else {
      assert (xs + ys)[1..] == xs[1..] + ys;
      TiesAppend(xs[1..], ys, d);
    }
  }

  lemma {:induction false} TiesBeyond(ns: seq<Neighbour>, d: real)
    requires Ascending(ns) && (ns != [] ==> ns[0].dist > d)
    ensures Ties(ns, d) == []
    decreases |ns|
  {
    if ns != [] {
      TiesBeyond(ns[1..], d);
    }
  }

  lemma {:induction false} PlaceTies(ns: seq<Neighbour>, x: Neighbour, d: real)
    requires Ascending(ns)
    ensures Ties(Place(ns, x), d) == Ties(ns, d) + Tie(x, d)
    decreases |ns|
  {
    if ns == [] {
      Seqs.ConsParts(x, ns);
      Seqs.AppendEmpty(Tie(x, d));
    } else if x.dist < ns[0].dist {
      Seqs.ConsParts(x, ns);
      assert Place(ns, x) == [x] + ns;
      assert Ties(Place(ns, x), d) == Tie(x, d) + Ties(ns, d);
      if x.dist == d {
        TiesBeyond(ns, d);
      }
      Seqs.AppendEmpty(Tie(x, d));
      Seqs.AppendEmpty(Ties(ns, d));
    } else {
      var rest := Place(ns[1..], x);
      Seqs.ConsParts(ns[0], rest);
      assert Place(ns, x) == [ns[0]] + rest;
      assert Ties(Place(ns, x), d) == Tie(ns[0], d) + Ties(rest, d);
      PlaceTies(ns[1..], x, d);
      Seqs.AppendAssoc(Tie(ns[0], d), Ties(ns[1..], d), Tie(x, d));
    }
  }

  /** Stability: the neighbours at any one distance keep their original order. */
  lemma {:induction false} StableSortTies(ns: seq<Neighbour>, d: real)
    ensures Ties(StableSort(ns), d) == Ties(ns, d)
    decreases |ns|
  {
    if ns != [] {
      var init, last := ns[..|ns| - 1], ns[|ns| - 1];
      assert init + [last] == ns;
      assert StableSort(ns) == Place(StableSort(init), last);
      StableSortTies(init, d);
      PlaceTies(StableSort(init), last, d);
      TiesAppend(init, [last], d);
      assert Ties([last], d) == Tie(last, d) + Ties([], d);
      Seqs.AppendEmpty(Tie(last, d));
    }
  }

  lemma {:induction false} PlaceLast(ns: seq<Neighbour>, x: Neighbour)
    requires Ascending(ns) && (ns != [] ==> ns[|ns| - 1].dist <= x.dist)
    ensures Place(ns, x) == ns + [x]
    decreases |ns|
  {
    if ns != [] {
      AscendingInit(ns);
      if |ns| > 1 {
        assert ns[1..][|ns| - 2] == ns[|ns| - 1];
      }
      PlaceLast(ns[1..], x);
      Seqs.ConsAppend(ns, [x]);
    }
  }

  /** Sorting a list that is already ascending leaves it as it is. */
  lemma {:induction false} StableSortSorted(ns: seq<Neighbour>)
    requires Ascending(ns)
    ensures StableSort(ns) == ns
    decreases |ns|
  {
    if ns != [] {
      var init, last := ns[..|ns| - 1], ns[|ns| - 1];
      assert init + [last] == ns;
      assert StableSort(ns) == Place(StableSort(init), last);
      AscendingInit(ns);
      StableSortSorted(init);
      if |ns| > 1 {
        AscendingInit(init);
        AscendingPairs(ns);
      }
      PlaceLast(init, last);
    }
  }

  /** Appending one entry to the sorted list and re-sorting, as get_nn does after each
      append, gives the stable sort of the whole list so far. */
  lemma ResortStep(ns: seq<Neighbour>, x: Neighbour)
    ensures StableSort(StableSort(ns) + [x]) == StableSort(ns + [x])
  {
    var ys := StableSort(ns) + [x];
    assert ys[..|ys| - 1] == StableSort(ns) && ys[|ys| - 1] == x;
    StableSortSorted(StableSort(ns));
    var zs := ns + [x];
    assert zs[..|zs| - 1] == ns && zs[|zs| - 1] == x;
  }

  predicate AllFit(q: Row, rows: seq<Row>)
  {
    forall i :: 0 <= i < |rows| ==> Fits(q, rows[i])
  }

  /** The (row, distance) pairs in dataset order. */
  function Pairs(root: Root, q: Row, rows: seq<Row>): (ps: seq<Neighbour>)
    requires AllFit(q, rows)
    ensures |ps| == |rows|
    decreases |rows|
  {
    if rows == [] then []
    else
      var n := |rows| - 1;
      Pairs(root, q, rows[..n]) + [Neighbour(rows[n], root(SqDist(q, rows[n])))]
  }

  lemma {:induction false} PairsAt(root: Root, q: Row, rows: seq<Row>, i: nat)
    requires AllFit(q, rows) && i < |rows|
    ensures Pairs(root, q, rows)[i] == Neighbour(rows[i], root(SqDist(q, rows[i])))
    decreases |rows|
  {
    if i < |rows| - 1 {
      PairsAt(root, q, rows[..|rows| - 1], i);
    }
  }

  /** The list `distances` once get_nn's loop over the dataset has finished. */
  function Ranking(root: Root, dataset: seq<Row>, q: Row): Result<seq<Neighbour>>
  {
    if AllFit(q, dataset) then Ok(StableSort(Pairs(root, q, dataset))) else Err(IndexError)
  }


  /** get_nn(q, k) as (row, distance) pairs: the first k entries of the ranking. `nn` is only
      bound inside the loop over the dataset, so an empty dataset raises UnboundLocalError;
      more neighbours than rows raise IndexError. */
  function Nearest(root: Root, dataset: seq<Row>, q: Row, k: int): (r: Result<seq<Neighbour>>)
    ensures r.Ok? <==> AllFit(q, dataset) && dataset != [] && k <= |dataset|
    ensures r == Err(UnboundLocalError) <==> AllFit(q, dataset) && dataset == []
    ensures r.Ok? ==> r.value == StableSort(Pairs(root, q, dataset))[..Seqs.Clamp(k)]
    ensures r.Ok? ==> |r.value| == Seqs.Clamp(k) && Ascending(r.value)
  {
    match Ranking(root, dataset, q)
    case Err(f) => Err(f)
    case Ok(all) =>
      if dataset == [] then Err(UnboundLocalError)
      else if k > |all| then Err(IndexError)
      else
        AscendingPrefix(all, Seqs.Clamp(k));
        Ok(all[..Seqs.Clamp(k)])
  }

  /** Every neighbour is a training row at its distance from the query. */
  lemma NearestMembers(root: Root, dataset: seq<Row>, q: Row, k: int)
    requires Nearest(root, dataset, q, k).Ok?
    ensures var nn := Nearest(root, dataset, q, k).value;
      forall i :: 0 <= i < |nn| ==> nn[i].row in dataset && nn[i].dist == root(SqDist(q, nn[i].row))
  {
    var ps := Pairs(root, q, dataset);
    var all := StableSort(ps);
    forall i | 0 <= i < Seqs.Clamp(k)
      ensures all[i].row in dataset && all[i].dist == root(SqDist(q, all[i].row))
    {
      assert all[i] in multiset(all);
      assert all[i] in multiset(ps);
      var j :| 0 <= j < |ps| && ps[j] == all[i];
      PairsAt(root, q, dataset, j);
    }
  }

  /** Every neighbour comes from a labelled dataset, so it has a label. */
  lemma NearestLabelled(root: Root, dataset: seq<Row>, q: Row, k: int)
    requires Labelled(dataset) && Nearest(root, dataset, q, k).Ok?
    ensures forall i :: 0 <= i < |Nearest(root, dataset, q, k).value| ==>
      |Nearest(root, dataset, q, k).value[i].row| > 0
  {
    NearestMembers(root, dataset, q, k);
  }

  /** The neighbours for a smaller k are a prefix of those for a larger one. */
  lemma NearestPrefix(root: Root, dataset: seq<Row>, q: Row, k: nat, m: nat)
    requires k <= m && Nearest(root, dataset, q, m).Ok?
    ensures Nearest(root, dataset, q, k) == Ok(Nearest(root, dataset, q, m).value[..k])
  {
    var all := StableSort(Pairs(root, q, dataset));
    assert all[..m][..k] == all[..k];
  }

  /** Each chosen neighbour is no farther than any training row left out. */
  lemma NearestAreClosest(root: Root, dataset: seq<Row>, q: Row, k: int)
    requires Nearest(root, dataset, q, k).Ok?
    ensures var all := Ranking(root, dataset, q).value;
      forall i, j :: 0 <= i < Seqs.Clamp(k) <= j < |all| ==> all[i].dist <= all[j].dist
  {
    AscendingPairs(Ranking(root, dataset, q).value);
  }

  /** One round of get_nn's first loop keeps `distances` the stable sort of the pairs so far. */
  lemma RankStep(root: Root, q: Row, rows: seq<Row>, i: nat, distances: seq<Neighbour>)
    requires i < |rows| && forall j :: 0 <= j <= i ==> Fits(q, rows[j])
    requires AllFit(q, rows[..i]) && distances == StableSort(Pairs(root, q, rows[..i]))
    ensures AllFit(q, rows[..i + 1])
    ensures StableSort(distances + [Neighbour(rows[i], root(SqDist(q, rows[i])))])
      == StableSort(Pairs(root, q, rows[..i + 1]))
  {
    PairsStep(root, q, rows, i);
    ResortStep(Pairs(root, q, rows[..i]), Neighbour(rows[i], root(SqDist(q, rows[i]))));
  }

  lemma PairsStep(root: Root, q: Row, rows: seq<Row>, i: nat)
    requires i < |rows| && forall j :: 0 <= j <= i ==> Fits(q, rows[j])
    ensures AllFit(q, rows[..i]) && AllFit(q, rows[..i + 1])
    ensures Pairs(root, q, rows[..i + 1])
      == Pairs(root, q, rows[..i]) + [Neighbour(rows[i], root(SqDist(q, rows[i])))]
  {
    assert rows[..i + 1][..i] == rows[..i];
  }

  /** get_nn's first loop: every training row is appended with its distance and the list is
      re-sorted. A row that is too short for the query raises IndexError. */
  method RankAll(root: Root, dataset: seq<Row>, q: Row) returns (r: Result<seq<Neighbour>>)
    ensures r == Ranking(root, dataset, q)
  {
    var distances: seq<Neighbour> := [];
    for i := 0 to |dataset|
      invariant forall j :: 0 <= j < i ==> Fits(q, dataset[j])
      invariant AllFit(q, dataset[..i]) && distances == StableSort(Pairs(root, q, dataset[..i]))
    {
      var d := Distance(root, q, dataset[i]);
      if d.Err? {
        return Err(IndexError);
      }
      RankStep(root, q, dataset, i, distances);
      distances := StableSort(distances + [Neighbour(dataset[i], d.value)]);
    }
    assert dataset[..|dataset|] == dataset;
    return Ok(distances);
  }

  /** get_nn(q, k) of v0.1/analyzing/WeightedKNN.py: rank the dataset, then append the first k
      (row, distance) pairs. Reading past the ranking raises IndexError; `nn` is unbound when
      the dataset was empty. */
  method GetNN(root: Root, dataset: seq<Row>, q: Row, k: int) returns (r: Result<seq<Neighbour>>)
    ensures r == Nearest(root, dataset, q, k)
  {
    var ranking := RankAll(root, dataset, q);
    if ranking.Err? {
      return Err(ranking.fault);
    }
    if dataset == [] {
      return Err(UnboundLocalError);
    }
    var distances := ranking.value;
    var nn := [];
    for i := 0 to Seqs.Clamp(k)
      invariant i <= |distances| && nn == distances[..i]
    {
      if i >= |distances| {
        return Err(IndexError);
      }
      nn := nn + [distances[i]];
    }
    return Ok(nn);
  }
}
