/** The v0.2 grabber (v0.2/analyzing/Grabber.py): it keeps the switches worth scanning, scans
    each one's event days for labelled windows, drops a failing window when its site already
    failed on that day, turns each accepted window into a Sample while widening the running
    limits, and finally splits the two pools into a balanced training set and a skewed
    validation set by popping samples at arbitrary positions.

    The value-level part of this module (`Visit`, `ProcessFrom`, `ScanFiles`) says what the
    scan produces; the `Grabber` class does it in place and is proved to agree with it. */
module GrabberV2 {
  import opened Wrappers
  import opened Values
  import opened Seqs
  import opened Stats
  import opened Extract
  import opened Telemetry
  import opened Scan
  import opened Limits
  import opened SampleV2

  /** The last day of observation in this generation's data. */
  const Horizon := 579

  /** Distances whose windows are set aside as a gap before events; none are. */
  const Skip: seq<nat> := []

  // ------------------------------------------------------------ the scan on the value level

  /** What a Sample holds besides its label; the label is the pool the sample sits in. */
  datatype Rec = Rec(name: string, model: Option<int>, features: Features)

  /** The grabber state the scan changes: both pools, both limit tables and the sites'
      failure days. */
  datatype Book = Book(healthy: seq<Rec>, failing: seq<Rec>,
                       upper: map<Stat, Extended>, lower: map<Stat, Extended>,
                       claimed: map<string, set<int>>)

  /** The days on which a site already produced a failing sample. */
  function Claimed(claimed: map<string, set<int>>, site: string): set<int>
  {
    if site in claimed then claimed[site] else {}
  }

  /** `update_limits`: each upper limit rises to the value if the value exceeds it, each lower
      limit drops to it if the value is below it. */
  function RaiseAll(lim: map<Stat, Extended>, f: Features): map<Stat, Extended>
  {
    map s | s in lim :: Raise(lim[s], f.Get(s))
  }

  function LowerAll(lim: map<Stat, Extended>, f: Features): map<Stat, Extended>
  {
    map s | s in lim :: Lower(lim[s], f.Get(s))
  }

  /** After recording a feature vector, the limits still cover every statistic, enclose the
      new vector, and have only widened. */
  lemma WidenEncloses(upper: map<Stat, Extended>, lower: map<Stat, Extended>, f: Features)
    requires Covers(upper, lower)
    ensures Covers(RaiseAll(upper, f), LowerAll(lower, f))
    ensures Bounds(RaiseAll(upper, f), LowerAll(lower, f), f)
    ensures forall s: Stat :: Le(upper[s], RaiseAll(upper, f)[s]) && Le(LowerAll(lower, f)[s], lower[s])
  {
  }

  /** The upper table once the first i statistics of `StatsFull` have risen to f. */
  ghost function RaisedTo(upper: map<Stat, Extended>, f: Features, i: nat): (r: map<Stat, Extended>)
    ensures r.Keys == upper.Keys
  {
    map s | s in upper :: if Index(s) < i then Raise(upper[s], f.Get(s)) else upper[s]
  }

  /** The lower table once the first i statistics of `StatsFull` have dropped to f. */
  ghost function LoweredTo(lower: map<Stat, Extended>, f: Features, i: nat): (r: map<Stat, Extended>)
    ensures r.Keys == lower.Keys
  {
    map s | s in lower :: if Index(s) < i then Lower(lower[s], f.Get(s)) else lower[s]
  }

  /** Nothing has risen before the first statistic, everything after the last. */
  lemma RaisedToEnds(upper: map<Stat, Extended>, f: Features)
    ensures RaisedTo(upper, f, 0) == upper
    ensures RaisedTo(upper, f, |StatsFull|) == RaiseAll(upper, f)
  {
  }

  lemma LoweredToEnds(lower: map<Stat, Extended>, f: Features)
    ensures LoweredTo(lower, f, 0) == lower
    ensures LoweredTo(lower, f, |StatsFull|) == LowerAll(lower, f)
  {
  }

  /** Statistic i is still untouched before its step, and its step is the test of
      `update_limits` on that entry alone. */
  lemma RaisedToStep(upper: map<Stat, Extended>, f: Features, i: nat)
    requires (forall t: Stat :: t in upper) && i < |StatsFull|
    ensures var s := StatsFull[i];
            && RaisedTo(upper, f, i)[s] == upper[s]
            && RaisedTo(upper, f, i + 1) == if !Le(Finite(f.Get(s)), upper[s])
                                            then RaisedTo(upper, f, i)[s := Finite(f.Get(s))]
                                            else RaisedTo(upper, f, i)
  {
    StatsFullIsEnumeration();
    assert Index(StatsFull[i]) == i;
  }

  lemma LoweredToStep(lower: map<Stat, Extended>, f: Features, i: nat)
    requires (forall t: Stat :: t in lower) && i < |StatsFull|
    ensures var s := StatsFull[i];
            && LoweredTo(lower, f, i)[s] == lower[s]
            && LoweredTo(lower, f, i + 1) == if !Le(lower[s], Finite(f.Get(s)))
                                             then LoweredTo(lower, f, i)[s := Finite(f.Get(s))]
                                             else LoweredTo(lower, f, i)
  {
    StatsFullIsEnumeration();
    assert Index(StatsFull[i]) == i;
  }

  /** The first loop of `update_limits`: each upper limit rises to a value above it. */
  method RaiseLimits(upper: map<Stat, Extended>, f: Features) returns (r: map<Stat, Extended>)
    requires forall t: Stat :: t in upper
    ensures r == RaiseAll(upper, f)
  {
    RaisedToEnds(upper, f);
    r := upper;
    for i := 0 to |StatsFull|
      invariant r == RaisedTo(upper, f, i)
    {
      var stat := StatsFull[i];
      RaisedToStep(upper, f, i);
      var value := f.Get(stat);
      if !Le(Finite(value), r[stat]) {
        r := r[stat := Finite(value)];
      }
    }
  }

  /** The second loop of `update_limits`: each lower limit drops to a value below it. */
  method LowerLimits(lower: map<Stat, Extended>, f: Features) returns (r: map<Stat, Extended>)
    requires forall t: Stat :: t in lower
    ensures r == LowerAll(lower, f)
  {
    LoweredToEnds(lower, f);
    r := lower;
    for i := 0 to |StatsFull|
      invariant r == LoweredTo(lower, f, i)
    {
      var stat := StatsFull[i];
      LoweredToStep(lower, f, i);
      var value := f.Get(stat);
      if !Le(r[stat], Finite(value)) {
        r := r[stat := Finite(value)];
      }
    }
  }

  /** `make_sample`: reading the switch name (a KeyError when absent), building the sample,
      widening the limits and appending it to the pool its label selects. */
  function Record(b: Book, sw: Switch, day: int, failing: bool, len: nat, std: seq<real> -> real): Result<Book>
    requires len > 0 && WindowComplete(sw, day, len)
  {
    if sw.name.None? then Err(KeyError)
    else Ok(Admit(b, Rec(sw.name.value, ModelCode(sw.model), WindowFeatures(sw, day, len, std)), failing))
  }

  /** The end of `make_sample` for a built sample: the limits widen to its statistics and it
      joins the pool its label selects. */
  function Admit(b: Book, r: Rec, failing: bool): Book
  {
    Join(Widen(b, r.features), r, failing)
  }

  /** `update_limits`: both limit tables widen to one more feature vector. */
  function Widen(b: Book, f: Features): Book
  {
    b.(upper := RaiseAll(b.upper, f), lower := LowerAll(b.lower, f))
  }

  /** The append at the end of `make_sample`: the record joins the pool its label selects. */
  function Join(b: Book, r: Rec, failing: bool): Book
  {
    if failing then b.(failing := b.failing + [r]) else b.(healthy := b.healthy + [r])
  }

  /** One candidate window: skipped distances and incomplete windows are ignored; a failing
      window needs the site code (a KeyError when absent) and is dropped when its site
      already failed that day, otherwise the day is claimed for the site; then the sample is
      made. */
  function Visit(b: Book, sw: Switch, w: Window, len: nat, std: seq<real> -> real): Result<Book>
    requires len > 0
  {
    if w.dist in Skip || !WindowComplete(sw, w.end, len) then Ok(b)
    else if !FailingLabel(sw.events, Horizon, w) then Record(b, sw, w.end, false, len, std)
    else if sw.site.None? then Err(KeyError)
    else if w.end in Claimed(b.claimed, sw.site.value) then Ok(b)
    else
      var site := sw.site.value;
      Record(b.(claimed := b.claimed[site := Claimed(b.claimed, site) + {w.end}]), sw, w.end, true, len, std)
  }

  /** Visiting windows in order; an exception ends the scan. */
  function VisitAll(r: Result<Book>, sw: Switch, ws: seq<Window>, len: nat, std: seq<real> -> real): Result<Book>
    requires len > 0
    decreases |ws|
  {
    if ws == [] || r.Err? then r
    else VisitAll(Visit(r.value, sw, ws[0], len, std), sw, ws[1..], len, std)
  }

  /** `switches_to_samples` on one switch: all its candidate windows. */
  function ProcessSwitch(r: Result<Book>, sw: Switch, len: nat, std: seq<real> -> real): Result<Book>
    requires len > 0
  {
    VisitAll(r, sw, Candidates(EventDays(sw.events, Horizon), sw.events, Horizon, len), len, std)
  }

  /** `switches_to_samples` on a database: its switches in order. */
  function ProcessFrom(r: Result<Book>, switches: seq<Entry>, len: nat, std: seq<real> -> real): Result<Book>
    requires len > 0
    decreases |switches|
  {
    if switches == [] then r
    else ProcessFrom(ProcessSwitch(r, switches[0].switch, len, std), switches[1..], len, std)
  }

  /** The constructor's file loop: each database filtered, then scanned. */
  function ScanFiles(r: Result<Book>, dbs: seq<seq<Entry>>, len: nat, std: seq<real> -> real): Result<Book>
    requires len > 0
    decreases |dbs|
  {
    if dbs == [] then r
    else ScanFiles(ProcessFrom(r, Survivors(dbs[0], len), len, std), dbs[1..], len, std)
  }

  lemma {:induction false} VisitAllErr(f: Fault, sw: Switch, ws: seq<Window>, len: nat, std: seq<real> -> real)
    requires len > 0
    ensures VisitAll(Err(f), sw, ws, len, std) == Err(f)
  {
  }

  lemma {:induction false} ProcessFromErr(f: Fault, switches: seq<Entry>, len: nat, std: seq<real> -> real)
    requires len > 0
    ensures ProcessFrom(Err(f), switches, len, std) == Err(f)
    decreases |switches|
  {
    if switches != [] {
      VisitAllErr(f, switches[0].switch, Candidates(EventDays(switches[0].switch.events, Horizon),
                  switches[0].switch.events, Horizon, len), len, std);
      ProcessFromErr(f, switches[1..], len, std);
    }
  }

  lemma {:induction false} ScanFilesErr(f: Fault, dbs: seq<seq<Entry>>, len: nat, std: seq<real> -> real)
    requires len > 0
    ensures ScanFiles(Err(f), dbs, len, std) == Err(f)
    decreases |dbs|
  {
    if dbs != [] {
      ProcessFromErr(f, Survivors(dbs[0], len), len, std);
      ScanFilesErr(f, dbs[1..], len, std);
    }
  }

  lemma {:induction false} VisitAllAppend(r: Result<Book>, sw: Switch, a: seq<Window>, b: seq<Window>, len: nat, std: seq<real> -> real)
    requires len > 0
    ensures VisitAll(r, sw, a + b, len, std) == VisitAll(VisitAll(r, sw, a, len, std), sw, b, len, std)
    decreases |a|
  {
    if a == [] {
      assert a + b == b;
    } else if r.Err? {
      VisitAllErr(r.fault, sw, b, len, std);
    } else {
      assert (a + b)[0] == a[0] && (a + b)[1..] == a[1..] + b;
      VisitAllAppend(Visit(r.value, sw, a[0], len, std), sw, a[1..], b, len, std);
    }
  }

  /** The scan of the remaining event days of one switch above a floor: the windows of the
      first day, then the rest above the floor that day leaves; an exception ends it. */
  function Rest(r: Result<Book>, sw: Switch, days: seq<int>, floor: int, len: nat, std: seq<real> -> real): Result<Book>
    requires len > 0
    decreases |days|
  {
    if days == [] || r.Err? then r
    else Rest(VisitAll(r, sw, DayWindows(sw.events, Horizon, len, floor, days[0]), len, std),
              sw, days[1..], NextFloor(sw.events, Horizon, len, floor, days[0]), len, std)
  }

  /** Scanning day by day visits exactly the candidate windows, in order. */
  lemma {:induction false} RestVisitsCandidates(r: Result<Book>, sw: Switch, days: seq<int>, floor: int, len: nat, std: seq<real> -> real)
    requires len > 0
    ensures Rest(r, sw, days, floor, len, std) == VisitAll(r, sw, CandidatesFrom(days, sw.events, Horizon, len, floor), len, std)
    decreases |days|
  {
    if days != [] {
      var here := DayWindows(sw.events, Horizon, len, floor, days[0]);
      var next := NextFloor(sw.events, Horizon, len, floor, days[0]);
      if r.Err? {
        VisitAllErr(r.fault, sw, CandidatesFrom(days, sw.events, Horizon, len, floor), len, std);
      } else {
        VisitAllAppend(r, sw, here, CandidatesFrom(days[1..], sw.events, Horizon, len, next), len, std);
        RestVisitsCandidates(VisitAll(r, sw, here, len, std), sw, days[1..], next, len, std);
      }
    }
  }

  /** One step of the cursor loop: the window at the cursor, then the rest of the period. */
  lemma VisitNext(b: Book, sw: Switch, cursor: int, floor: int, dist: nat, len: nat, std: seq<real> -> real)
    requires len > 0 && cursor - floor >= len
    ensures VisitAll(Ok(b), sw, Period(cursor, floor, len, dist), len, std)
            == VisitAll(Visit(b, sw, Window(cursor, dist), len, std), sw, Period(cursor - len, floor, len, dist + 1), len, std)
  {
    var p := Period(cursor - len, floor, len, dist + 1);
    assert ([Window(cursor, dist)] + p)[1..] == p;
  }

  // ------------------------------------------------------------ properties of the scan

  /** What every reachable book satisfies: both limit tables cover every statistic and
      enclose every recorded sample. */
  ghost predicate Sound(b: Book)
  {
    && Covers(b.upper, b.lower)
    && (forall r :: r in b.healthy ==> Bounds(b.upper, b.lower, r.features))
    && (forall r :: r in b.failing ==> Bounds(b.upper, b.lower, r.features))
  }

  /** The shape of a book change: the pools stay or one of them grows by one sample at its
      end, and the limits only widen. */
  ghost predicate Grows(b: Book, b': Book)
  {
    && (forall s: Stat :: s in b.upper && s in b'.upper && s in b.lower && s in b'.lower &&
                          Le(b.upper[s], b'.upper[s]) && Le(b'.lower[s], b.lower[s]))
    && (|| (b'.healthy == b.healthy && b'.failing == b.failing)
        || (b'.healthy == b.healthy && |b'.failing| == |b.failing| + 1 && b'.failing[..|b.failing|] == b.failing)
        || (b'.failing == b.failing && |b'.healthy| == |b.healthy| + 1 && b'.healthy[..|b.healthy|] == b.healthy))
  }

  /** The limits enclose every sample of xs. */
  ghost predicate Enclosed(xs: seq<Sample>, upper: map<Stat, Extended>, lower: map<Stat, Extended>)
  {
    forall y :: y in xs ==> Bounds(upper, lower, y.features)
  }

  /** Widening the limits to one more sample keeps every sample they enclosed enclosed. */
  lemma SamplesWiden(xs: seq<Sample>, upper: map<Stat, Extended>, lower: map<Stat, Extended>, f: Features)
    requires Covers(upper, lower) && Enclosed(xs, upper, lower)
    ensures Enclosed(xs, RaiseAll(upper, f), LowerAll(lower, f))
  {
    WidenEncloses(upper, lower, f);
    forall y | y in xs ensures Bounds(RaiseAll(upper, f), LowerAll(lower, f), y.features) {
      BoundsWiden(upper, lower, RaiseAll(upper, f), LowerAll(lower, f), y.features);
    }
  }

  /** Widening keeps a sound book sound and encloses the new feature vector. */
  lemma WidenSound(b: Book, f: Features)
    requires Sound(b)
    ensures Sound(Widen(b, f))
    ensures Bounds(Widen(b, f).upper, Widen(b, f).lower, f)
  {
    var b' := Widen(b, f);
    WidenEncloses(b.upper, b.lower, f);
    forall r | r in b.healthy || r in b.failing ensures Bounds(b'.upper, b'.lower, r.features) {
      BoundsWiden(b.upper, b.lower, b'.upper, b'.lower, r.features);
    }
  }

  /** A record the limits already enclose can join either pool. */
  lemma JoinSound(b: Book, r: Rec, failing: bool)
    requires Sound(b) && Bounds(b.upper, b.lower, r.features)
    ensures Sound(Join(b, r, failing))
  {
  }

  /** Admitting a sample appends it to the pool its label selects and keeps the book sound. */
  lemma AdmitSound(b: Book, r: Rec, failing: bool)
    requires Sound(b)
    ensures var b' := Admit(b, r, failing);
            && Sound(b') && Grows(b, b')
            && (failing ==> b'.failing == b.failing + [r] && b'.healthy == b.healthy)
            && (!failing ==> b'.healthy == b.healthy + [r] && b'.failing == b.failing)
  {
    var b' := Admit(b, r, failing);
    WidenSound(b, r.features);
    JoinSound(Widen(b, r.features), r, failing);
    WidenEncloses(b.upper, b.lower, r.features);
    if failing {
      assert b'.failing[..|b.failing|] == b.failing;
    } else {
      assert b'.healthy[..|b.healthy|] == b.healthy;
    }
  }

  /** A window adds at most one sample, to the pool its label selects, and keeps the book
      sound. */
  lemma VisitAddsAtMostOne(b: Book, sw: Switch, w: Window, len: nat, std: seq<real> -> real)
    requires len > 0 && Sound(b)
    requires Visit(b, sw, w, len, std).Ok?
    ensures Sound(Visit(b, sw, w, len, std).value)
    ensures Grows(b, Visit(b, sw, w, len, std).value)
  {
    if w.dist in Skip || !WindowComplete(sw, w.end, len) {
    } else if !FailingLabel(sw.events, Horizon, w) {
      AdmitSound(b, Rec(sw.name.value, ModelCode(sw.model), WindowFeatures(sw, w.end, len, std)), false);
    } else if w.end in Claimed(b.claimed, sw.site.value) {
    } else {
      var site := sw.site.value;
      AdmitSound(b.(claimed := b.claimed[site := Claimed(b.claimed, site) + {w.end}]),
                 Rec(sw.name.value, ModelCode(sw.model), WindowFeatures(sw, w.end, len, std)), true);
    }
  }

  /** Every book the scan reaches from a sound one is sound. */
  lemma {:induction false} VisitAllSound(b: Book, sw: Switch, ws: seq<Window>, len: nat, std: seq<real> -> real)
    requires len > 0 && Sound(b)
    ensures VisitAll(Ok(b), sw, ws, len, std).Ok? ==> Sound(VisitAll(Ok(b), sw, ws, len, std).value)
    decreases |ws|
  {
    if ws != [] {
      var n := Visit(b, sw, ws[0], len, std);
      if n.Ok? {
        VisitAddsAtMostOne(b, sw, ws[0], len, std);
        VisitAllSound(n.value, sw, ws[1..], len, std);
      } else {
        VisitAllErr(n.fault, sw, ws[1..], len, std);
      }
    }
  }

  lemma {:induction false} ProcessFromSound(b: Book, switches: seq<Entry>, len: nat, std: seq<real> -> real)
    requires len > 0 && Sound(b)
    ensures ProcessFrom(Ok(b), switches, len, std).Ok? ==> Sound(ProcessFrom(Ok(b), switches, len, std).value)
    decreases |switches|
  {
    if switches != [] {
      var sw := switches[0].switch;
      var n := ProcessSwitch(Ok(b), sw, len, std);
      VisitAllSound(b, sw, Candidates(EventDays(sw.events, Horizon), sw.events, Horizon, len), len, std);
      if n.Ok? {
        ProcessFromSound(n.value, switches[1..], len, std);
      } else {
        ProcessFromErr(n.fault, switches[1..], len, std);
      }
    }
  }

  /** A failing sample is never made twice for the same site and day: a failing window whose
      day is already claimed for its site leaves the book as it was, and otherwise the day
      ends up claimed. */
  lemma ClaimOnce(b: Book, sw: Switch, w: Window, len: nat, std: seq<real> -> real)
    requires len > 0 && sw.site.Some?
    requires w.dist !in Skip && WindowComplete(sw, w.end, len) && FailingLabel(sw.events, Horizon, w)
    ensures w.end in Claimed(b.claimed, sw.site.value) ==> Visit(b, sw, w, len, std) == Ok(b)
    ensures Visit(b, sw, w, len, std).Ok? ==> w.end in Claimed(Visit(b, sw, w, len, std).value.claimed, sw.site.value)
  {
  }

  // ------------------------------------------------------------ the balanced split

  /** The number of iterations of `equal_set` once the training set holds t samples, with n
      failing samples at the start: pairs are moved while the training set is smaller than
      twice the quota 0.9 * n, that is while 10 * t < 18 * n, so this is the least m with
      10 * (t + 2 * m) >= 18 * n. */
  function Pairs(t: nat, n: nat): (m: nat)
    ensures 10 * t < 18 * n ==> 10 * (t + 2 * (m - 1)) < 18 * n
    ensures 10 * (t + 2 * m) >= 18 * n
  {
    if 10 * t < 18 * n then (18 * n - 10 * t + 19) / 20 else 0
  }

  /** The loop of `equal_set`, one round at a time: a round is run exactly when the training
      set is still short, and it leaves one pair fewer to move. */
  lemma PairsStep(t: nat, n: nat)
    ensures Pairs(t, n) == if 10 * t < 18 * n then 1 + Pairs(t + 2, n) else 0
  {
  }

  /** From an empty training set the split moves ceil(0.9 * n) pairs, never more than the
      failing pool holds. */
  lemma PairsFromEmpty(n: nat)
    ensures Pairs(0, n) == (9 * n + 9) / 10
    ensures Pairs(0, n) <= n
    ensures 10 * Pairs(0, n) >= 9 * n && 10 * (Pairs(0, n) - 1) < 9 * n
  {
  }

  /** The number of healthy samples `validation_set` draws per failing one: the count of
      i = 0, 1, ... with i < ratio, that is ceil(ratio) for a positive ratio and 0 otherwise. */
  function Draws(ratio: real): (c: nat)
    ensures ratio <= c as real
    ensures c > 0 ==> ((c - 1) as real) < ratio
  {
    if ratio <= 0.0 then 0
    else
      var f := ratio.Floor;
      assert f as real <= ratio < f as real + 1.0;
      if f as real == ratio then f else f + 1
  }

  /** Whether both splits go through, starting from t training samples and pools of f
      failing and h healthy samples, with c healthy draws per failing sample: the balanced
      split must find its m pairs, and the healthy samples it leaves must feed c draws for
      each of the f - m failing samples left. */
  predicate SplitFits(t: nat, f: nat, h: nat, c: nat)
  {
    var m := Pairs(t, f);
    m <= f && m <= h && (f - m) * c <= h - m
  }

  /** The pool sizes the balanced split leaves: its m pairs take m samples from each pool. */
  lemma PairsSizes(pairs: seq<Sample>, m: nat, f0: seq<Sample>, f1: seq<Sample>, h0: seq<Sample>, h1: seq<Sample>)
    requires |pairs| == 2 * m
    requires multiset(Heads(pairs, 2)) + multiset(f1) == multiset(f0)
    requires multiset(Rests(pairs, 2)) + multiset(h1) == multiset(h0)
    ensures m <= |f0| && m <= |h0| && |f1| == |f0| - m && |h1| == |h0| - m
  {
    TimesIsProduct(m, 2);
    TimesIsProduct(m, 1);
    HeadsRestsSizes(pairs, 2, m);
    assert |multiset(Heads(pairs, 2))| == m && |multiset(Rests(pairs, 2))| == m;
  }

  /** The arithmetic of the two splits: the balanced split leaves f - m and h - m samples,
      validation then succeeds exactly when c draws per failing sample fit, and on success
      its blocks and the healthy samples left account for every sample it started from. */
  lemma SplitArith(t0: nat, f: nat, h: nat, c: nat, f1: nat, h1: nat, b: nat, h2: nat, ok: bool)
    requires var m := Pairs(t0, f); m <= f && m <= h && f1 == f - m && h1 == h - m
    requires ok <==> f1 * c <= h1
    requires ok ==> b == f1 * (c + 1) && b + h2 == f1 + h1
    ensures ok <==> SplitFits(t0, f, h, c)
    ensures ok ==> b == (f - Pairs(t0, f)) * (c + 1) && 2 * Pairs(t0, f) + b + h2 == f + h
  {
  }

  /** Samples moved between lists, as multisets, keep their total count. */
  lemma CountsKept(a: seq<Sample>, b: seq<Sample>, c: seq<Sample>, d: seq<Sample>, e: seq<Sample>)
    requires multiset(a) + multiset(b) + multiset(c) == multiset(d) + multiset(e)
    ensures |a| + |b| + |c| == |d| + |e|
  {
    assert |multiset(a) + multiset(b) + multiset(c)| == |multiset(d) + multiset(e)|;
  }

  /** The split can run dry: with 100 failing and 101 healthy samples, the balanced split
      takes 90 of each, and validation then needs ceil(101 / 100) = 2 healthy samples for
      each of the 10 failing ones left, but only 11 remain. */
  lemma ValidationShortfall()
    ensures Pairs(0, 100) == 90
    ensures Draws(101.0 / 100.0) == 2
    ensures (100 - Pairs(0, 100)) * Draws(101.0 / 100.0) > 101 - Pairs(0, 100)
  {
    PairsFromEmpty(100);
    assert 1.0 < 101.0 / 100.0 <= 2.0;
  }

  /** A healthy pool that runs dry during block k < f, after i < c draws, held fewer than
      f * c samples. */
  lemma ShortfallBound(k: nat, i: nat, c: nat, f: nat)
    requires k < f && i < c
    ensures Times(k, c) + i < Times(f, c)
  {
    TimesIsProduct(k, c);
    TimesIsProduct(f, c);
    var d := f - (k + 1);
    assert f * c == (k + 1) * c + d * c;
  }

  /** One round of `equal_set`: the failing sample and the healthy one appended to the
      training set extend its heads and its rests, and leave their pools. */
  lemma PairStep<T>(added: seq<T>, k: nat, a: T, b: T, fk: seq<T>, i: nat, hk: seq<T>, j: nat,
                    f0: multiset<T>, h0: multiset<T>)
    requires |added| == 2 * k
    requires i < |fk| && fk[i] == a && j < |hk| && hk[j] == b
    requires multiset(Heads(added, 2)) + multiset(fk) == f0
    requires multiset(Rests(added, 2)) + multiset(hk) == h0
    ensures multiset(Heads(added + [a, b], 2)) + multiset(Pop(fk, i)) == f0
    ensures multiset(Rests(added + [a, b], 2)) + multiset(Pop(hk, j)) == h0
  {
    TimesIsProduct(k, 2);
    HeadsRestsBlock(added, [a, b], 2, k);
  }

  lemma SplitSizes<T>(xs: seq<T>, ys: seq<T>, zs: seq<T>)
    requires multiset(xs) + multiset(ys) == multiset(zs)
    ensures |xs| + |ys| == |zs|
  {
    assert |multiset(xs)| == |xs| && |multiset(ys)| == |ys| && |multiset(zs)| == |zs|;
  }

  /** A complete round of `validation_set`, with c healthy draws, is the next block of c + 1
      entries: its failing sample joins the heads and the healthy ones join the rests. */
  lemma BlockExtends<T>(added: seq<T>, k: nat, c: nat, blk: seq<T>, fk: seq<T>, i: nat,
                        hk: seq<T>, hs: seq<T>, f0: multiset<T>, h0: multiset<T>)
    requires |added| == Times(k, c + 1)
    requires i < |fk| && |blk| == c + 1 && blk[0] == fk[i]
    requires multiset(blk[1..]) + multiset(hs) == multiset(hk)
    requires multiset(Heads(added, c + 1)) + multiset(fk) == f0
    requires multiset(Rests(added, c + 1)) + multiset(hk) == h0
    ensures |added + blk| == Times(k + 1, c + 1) && |hs| + c == |hk|
    ensures multiset(Heads(added + blk, c + 1)) + multiset(Pop(fk, i)) == f0
    ensures multiset(Rests(added + blk, c + 1)) + multiset(hs) == h0
  {
    HeadsRestsBlock(added, blk, c + 1, k);
    SplitSizes(blk[1..], hs, hk);
  }

  /** A round of `validation_set` that runs out of healthy samples still loses nothing: every
      sample taken from a pool is in the validation set. */
  lemma RunDry<T>(added: seq<T>, c: nat, blk: seq<T>, fk: seq<T>, i: nat,
                  hk: seq<T>, hs: seq<T>, f0: multiset<T>, h0: multiset<T>)
    requires i < |fk| && |blk| > 0 && blk[0] == fk[i]
    requires multiset(blk[1..]) + multiset(hs) == multiset(hk)
    requires multiset(Heads(added, c + 1)) + multiset(fk) == f0
    requires multiset(Rests(added, c + 1)) + multiset(hk) == h0
    ensures multiset(added + blk) + multiset(Pop(fk, i)) + multiset(hs) == f0 + h0
  {
    assert blk == [blk[0]] + blk[1..];
    HeadsRestsPartition(added, c + 1);
  }

  /** A round of `validation_set` that runs dry loses no sample, and shows that the healthy
      pool was short of c draws for each failing sample. */
  lemma RoundDry<T>(added: seq<T>, f0: seq<T>, h0: seq<T>, k: nat, c: nat,
                    blk: seq<T>, fk: seq<T>, hk: seq<T>, i: nat, hs: seq<T>)
    requires |fk| + k == |f0| && |hk| + Times(k, c) == |h0| && |hk| < c
    requires multiset(Heads(added, c + 1)) + multiset(fk) == multiset(f0)
    requires multiset(Rests(added, c + 1)) + multiset(hk) == multiset(h0)
    requires i < |fk| && |blk| > 0 && blk[0] == fk[i]
    requires multiset(blk[1..]) + multiset(hs) == multiset(hk)
    ensures !(Times(|f0|, c) <= |h0|)
    ensures multiset(added + blk) + multiset(Pop(fk, i)) + multiset(hs) == multiset(f0) + multiset(h0)
  {
    RunDry(added, c, blk, fk, i, hk, hs, multiset(f0), multiset(h0));
    ShortfallBound(k, |hk|, c, |f0|);
  }

  /** When `validation_set` ends, every failing sample heads a block of c + 1 entries. */
  lemma AllBlocks<T>(added: seq<T>, c: nat, f0: seq<T>, h0: seq<T>, hs: seq<T>)
    requires |added| == Times(|f0|, c + 1) && |hs| + Times(|f0|, c) == |h0|
    requires multiset(Heads(added, c + 1)) == multiset(f0)
    requires multiset(Rests(added, c + 1)) + multiset(hs) == multiset(h0)
    ensures multiset(added) + multiset(hs) == multiset(f0) + multiset(h0)
  {
    HeadsRestsPartition(added, c + 1);
  }

  // ------------------------------------------------------------------- the grabber object

  ghost function RecOf(x: Sample): Rec
  {
    Rec(x.name, x.model, x.features)
  }

  ghost function Recs(xs: seq<Sample>): (rs: seq<Rec>)
    ensures |rs| == |xs|
  {
    if xs == [] then [] else Recs(xs[..|xs| - 1]) + [RecOf(xs[|xs| - 1])]
  }

  lemma RecsAppend(xs: seq<Sample>, x: Sample)
    ensures Recs(xs + [x]) == Recs(xs) + [RecOf(x)]
  {
    assert (xs + [x])[..|xs|] == xs;
  }

  /** The records are the samples' records, position by position. */
  lemma {:induction false} RecsAt(xs: seq<Sample>)
    ensures forall i :: 0 <= i < |xs| ==> Recs(xs)[i] == RecOf(xs[i])
    decreases |xs|
  {
    if xs != [] {
      RecsAt(xs[..|xs| - 1]);
    }
  }

  /** The records of enclosed samples are enclosed. */
  lemma EnclosedRecs(xs: seq<Sample>, upper: map<Stat, Extended>, lower: map<Stat, Extended>)
    requires Enclosed(xs, upper, lower)
    ensures forall r :: r in Recs(xs) ==> Bounds(upper, lower, r.features)
  {
    RecsAt(xs);
    forall r | r in Recs(xs) ensures Bounds(upper, lower, r.features) {
      var j :| 0 <= j < |xs| && Recs(xs)[j] == r;
      assert xs[j] in xs;
    }
  }

  /** Samples redistributed from two enclosed lists are enclosed wherever they end up. */
  lemma Redistributed(a: seq<Sample>, b: seq<Sample>, xs: seq<Sample>, ys: seq<Sample>, zs: seq<Sample>,
                      upper: map<Stat, Extended>, lower: map<Stat, Extended>)
    requires Enclosed(a, upper, lower) && Enclosed(b, upper, lower)
    requires multiset(xs) + multiset(ys) + multiset(zs) == multiset(a) + multiset(b)
    ensures Enclosed(xs, upper, lower) && Enclosed(ys, upper, lower) && Enclosed(zs, upper, lower)
  {
    forall y | y in xs || y in ys || y in zs ensures y in a || y in b {
      assert y in multiset(xs) + multiset(ys) + multiset(zs);
    }
  }

  // ------------------------------------------------------------------ normalization

  /** Both limit tables hold a finite value for every statistic. */
  ghost predicate FiniteLimits(upper: map<Stat, Extended>, lower: map<Stat, Extended>)
  {
    forall s: Stat :: s in upper && s in lower && upper[s].Finite? && lower[s].Finite?
  }

  /** The scaled statistics of f in the order of `stats`: the first statistic whose limits
      coincide is a ZeroDivisionError; otherwise each value v becomes (v - bot) / (top - bot). */
  function ScaledStats(f: Features, upper: map<Stat, Extended>, lower: map<Stat, Extended>, stats: seq<Stat>)
    : (r: Result<seq<Cell>>)
    requires FiniteLimits(upper, lower)
    ensures r.Err? <==> exists i :: 0 <= i < |stats| && upper[stats[i]].v == lower[stats[i]].v
    ensures r.Err? ==> r.fault == ZeroDivisionError
    ensures r.Ok? ==> |r.value| == |stats|
    ensures r.Ok? ==> forall i :: 0 <= i < |stats| ==>
                        var top, bot := upper[stats[i]].v, lower[stats[i]].v;
                        r.value[i].RealCell? && r.value[i].r * (top - bot) == f.Get(stats[i]) - bot
  {
    if stats == [] then Ok([])
    else
      var init := ScaledStats(f, upper, lower, stats[..|stats| - 1]);
      var s := stats[|stats| - 1];
      if init.Err? then init
      else match Scale(f.Get(s), lower[s].v, upper[s].v)
        case Err(e) => Err(e)
        case Ok(v) => Ok(init.value + [RealCell(v)])
  }

  /** Once a prefix of the statistics fails to scale, so does the whole row. */
  lemma {:induction false} ScaledStatsStops(f: Features, upper: map<Stat, Extended>, lower: map<Stat, Extended>, stats: seq<Stat>, n: nat)
    requires FiniteLimits(upper, lower) && n <= |stats|
    requires ScaledStats(f, upper, lower, stats[..n]).Err?
    ensures ScaledStats(f, upper, lower, stats) == ScaledStats(f, upper, lower, stats[..n])
    decreases |stats| - n
  {
    if n < |stats| {
      var init := stats[..|stats| - 1];
      assert init[..n] == stats[..n];
      ScaledStatsStops(f, upper, lower, init, n);
    } else {
      assert stats[..n] == stats;
    }
  }

  /** One more statistic that scales appends its cell. */
  lemma ScaledStatsNext(f: Features, upper: map<Stat, Extended>, lower: map<Stat, Extended>, stats: seq<Stat>,
                        n: nat, cells: seq<Cell>, v: real)
    requires FiniteLimits(upper, lower) && n < |stats|
    requires ScaledStats(f, upper, lower, stats[..n]) == Ok(cells)
    requires Scale(f.Get(stats[n]), lower[stats[n]].v, upper[stats[n]].v) == Ok(v)
    ensures ScaledStats(f, upper, lower, stats[..n + 1]) == Ok(cells + [RealCell(v)])
  {
    assert stats[..n + 1][..n] == stats[..n];
  }

  /** The first statistic whose limits coincide ends the row with a ZeroDivisionError. */
  lemma ScaledStatsFails(f: Features, upper: map<Stat, Extended>, lower: map<Stat, Extended>, stats: seq<Stat>, n: nat)
    requires FiniteLimits(upper, lower) && n < |stats|
    requires ScaledStats(f, upper, lower, stats[..n]).Ok?
    requires upper[stats[n]].v == lower[stats[n]].v
    ensures ScaledStats(f, upper, lower, stats) == Err(ZeroDivisionError)
  {
    assert stats[..n + 1][..n] == stats[..n];
    ScaledStatsStops(f, upper, lower, stats, n + 1);
  }

  /** `normalize_sample`: the label as 1 or 0, the model code (an AttributeError when the
      sample never set it), the eighteen scaled statistics in `stats_full` order (a
      ZeroDivisionError when a statistic's limits coincide), then the name. */
  function Normalized(failing: Flag, model: Option<int>, name: string, f: Features,
                      upper: map<Stat, Extended>, lower: map<Stat, Extended>): (r: Result<seq<Cell>>)
    requires FiniteLimits(upper, lower)
    ensures model.None? ==> r == Err(AttributeError)
    ensures model.Some? ==> (r.Err? <==> exists s: Stat :: upper[s].v == lower[s].v)
    ensures model.Some? && r.Err? ==> r.fault == ZeroDivisionError
    ensures r.Ok? ==> && |r.value| == 21
                      && r.value[0] == IntCell(if failing.Truthy() then 1 else 0)
                      && r.value[1] == IntCell(model.value)
                      && r.value[2..20] == ScaledStats(f, upper, lower, StatsFull).value
                      && r.value[20] == TextCell(name)
  {
    StatsFullIsEnumeration();
    if model.None? then Err(AttributeError)
    else
      var cells := ScaledStats(f, upper, lower, StatsFull);
      if cells.Err? then
        assert exists s: Stat :: upper[s].v == lower[s].v;
        Err(cells.fault)
      else
        forall s: Stat ensures upper[s].v != lower[s].v {
          var i := Index(s);
        }
        var row := [IntCell(if failing.Truthy() then 1 else 0), IntCell(model.value)] + cells.value + [TextCell(name)];
        assert row[2..20] == cells.value;
        Ok(row)
  }

  /** Limits that cover every statistic and enclose f are finite and scale every statistic
      of f into [0, 1]. */
  lemma NormalizedRange(failing: Flag, model: Option<int>, name: string, f: Features,
                        upper: map<Stat, Extended>, lower: map<Stat, Extended>)
    requires Covers(upper, lower) && Bounds(upper, lower, f)
    ensures FiniteLimits(upper, lower)
    ensures var r := Normalized(failing, model, name, f, upper, lower);
            r.Ok? ==> forall i :: 2 <= i < 20 ==> r.value[i].RealCell? && 0.0 <= r.value[i].r <= 1.0
  {
    assert FiniteLimits(upper, lower);
    var r := Normalized(failing, model, name, f, upper, lower);
    if r.Ok? {
      ScaledRange(f, upper, lower, StatsFull);
      assert forall i :: 2 <= i < 20 ==> r.value[i] == r.value[2..20][i - 2];
    }
  }

  /** Every statistic of f scaled against limits that enclose f lies in [0, 1]. */
  lemma {:induction false} ScaledRange(f: Features, upper: map<Stat, Extended>, lower: map<Stat, Extended>, stats: seq<Stat>)
    requires Covers(upper, lower) && Bounds(upper, lower, f)
    ensures FiniteLimits(upper, lower)
    ensures var r := ScaledStats(f, upper, lower, stats);
            r.Ok? ==> forall i :: 0 <= i < |stats| ==> r.value[i].RealCell? && 0.0 <= r.value[i].r <= 1.0
    decreases |stats|
  {
    assert FiniteLimits(upper, lower);
    var r := ScaledStats(f, upper, lower, stats);
    if stats != [] && r.Ok? {
      var init := stats[..|stats| - 1];
      ScaledRange(f, upper, lower, init);
      var s := stats[|stats| - 1];
      var top, bot, v := upper[s].v, lower[s].v, f.Get(s);
      assert Le(lower[s], Finite(v)) && Le(Finite(v), upper[s]);
      var scaled := Scale(v, bot, top);
      assert scaled.Ok? && r.value[|init|] == RealCell(scaled.value);
      ScaleRange(v, bot, top);
    }
  }

  class Grabber {
    const sampleLen: nat
    /** np.std, left abstract. */
    const std: seq<real> -> real

    var healthySamples: seq<Sample>
    var failingSamples: seq<Sample>
    var training: seq<Sample>
    var validation: seq<Sample>
    var upperLimits: map<Stat, Extended>
    var lowerLimits: map<Stat, Extended>
    /** For each site, the days on which it already produced a failing sample. */
    var multipleFailureDays: map<string, set<int>>
    var healthyRatio: real

    /** Every sample the grabber holds, wherever it currently is. */
    function Pools(): seq<Sample>
      reads this
    {
      healthySamples + failingSamples + training + validation
    }

    /** The limit tables cover all eighteen statistics and enclose every held sample. */
    ghost predicate Valid()
      reads this
    {
      && Covers(upperLimits, lowerLimits)
      && Enclosed(healthySamples, upperLimits, lowerLimits)
      && Enclosed(failingSamples, upperLimits, lowerLimits)
      && Enclosed(training, upperLimits, lowerLimits)
      && Enclosed(validation, upperLimits, lowerLimits)
    }

    /** A valid grabber's scan state is sound. */
    lemma ValidSound()
      requires Valid()
      ensures Sound(State())
    {
      EnclosedRecs(healthySamples, upperLimits, lowerLimits);
      EnclosedRecs(failingSamples, upperLimits, lowerLimits);
    }

    /** What a method's result says about the state: on success the state it left, otherwise
        its fault. */
    ghost function Outcome(r: Result<()>): Result<Book>
      reads this
    {
      if r.Ok? then Ok(State()) else Err(r.fault)
    }

    /** The state the scan works on, read back from the objects. */
    ghost function State(): Book
      reads this
    {
      Book(Recs(healthySamples), Recs(failingSamples), upperLimits, lowerLimits, multipleFailureDays)
    }

    /** The fields `__init__` sets before it reads any file: empty lists, limits at minus and
        plus infinity for all eighteen statistics, no failure days. */
    constructor (sampleLen: nat, std: seq<real> -> real)
      ensures this.sampleLen == sampleLen && this.std == std
      ensures healthySamples == [] && failingSamples == [] && training == [] && validation == []
      ensures forall s: Stat :: s in upperLimits && upperLimits[s] == NegInf
      ensures forall s: Stat :: s in lowerLimits && lowerLimits[s] == PosInf
      ensures multipleFailureDays == map[]
      ensures Valid()
    {
      this.sampleLen := sampleLen;
      this.std := std;
      healthySamples, failingSamples, training, validation := [], [], [], [];
      upperLimits := map s | s in StatsFull :: NegInf;
      lowerLimits := map s | s in StatsFull :: PosInf;
      multipleFailureDays := map[];
      healthyRatio := 0.0;
      new;
      StatsFullIsEnumeration();
    }

    /** The file loop of `__init__`: each database is filtered by `grab_switches` and
        scanned by `switches_to_samples`, in order; the first fault ends the loop. */
    method ReadFiles(dbs: seq<seq<Entry>>) returns (r: Result<()>)
      requires sampleLen > 0 && Valid()
      modifies this`healthySamples, this`failingSamples, this`upperLimits, this`lowerLimits, this`multipleFailureDays
      ensures Valid()
      ensures ScanFiles(Ok(old(State())), dbs, sampleLen, std) == Outcome(r)
    {
      ghost var spec := ScanFiles(Ok(State()), dbs, sampleLen, std);
      for i := 0 to |dbs|
        invariant Valid()
        invariant spec == ScanFiles(Ok(State()), dbs[i..], sampleLen, std)
      {
        assert dbs[i..][1..] == dbs[i + 1..];
        var switches := GrabSwitches(dbs[i]);
        var res := SwitchesToSamples(switches);
        if res.Err? {
          ScanFilesErr(res.fault, dbs[i + 1..], sampleLen, std);
          return res;
        }
      }
      assert dbs[|dbs|..] == [];
      return Ok(());
    }

    /** The rest of `__init__` after the fields are set: the files are read, the healthy
        ratio is taken (a ZeroDivisionError without failing samples), then the balanced
        split and the validation split run. On success every failing sample has been placed
        and no sample is lost. */
    method Load(dbs: seq<seq<Entry>>) returns (r: Result<()>)
      requires sampleLen > 0 && Valid()
      modifies this
      ensures Valid()
      ensures Loaded(ScanFiles(Ok(old(State())), dbs, sampleLen, std), |old(training)|, |old(validation)|, r) == true
    {
      r := ReadFiles(dbs);
      if r.Err? {
        return;
      }
      if |failingSamples| == 0 {
        return Err(ZeroDivisionError);
      }
      healthyRatio := |healthySamples| as real / |failingSamples| as real;
      r := Split();
    }

    /** The outcome of `__init__` after its files were scanned to scan, with t0 training
        and v0 validation samples before: the scan's fault; a ZeroDivisionError without
        failing samples; otherwise the ratio of the scanned pools, the scanned limits, and
        the verdict and sizes of the two splits.
        Contracts compare it with true so that the verifier carries it as one fact rather
        than as its separate conjuncts. */
    ghost predicate Loaded(scan: Result<Book>, t0: nat, v0: nat, r: Result<()>)
      reads this
    {
      && (scan.Err? ==> r == Err(scan.fault))
      && (scan.Ok? && |scan.value.failing| == 0 ==> r == Err(ZeroDivisionError))
      && (scan.Ok? && |scan.value.failing| > 0 ==>
            var f, h := |scan.value.failing|, |scan.value.healthy|;
            var m, c := Pairs(t0, f), Draws(healthyRatio);
            && healthyRatio == h as real / f as real
            && upperLimits == scan.value.upper && lowerLimits == scan.value.lower
            && (r.Ok? <==> SplitFits(t0, f, h, c))
            && (r.Err? ==> r.fault == ValueError)
            && (r.Ok? ==> && failingSamples == []
                          && |training| == t0 + 2 * m
                          && |validation| == v0 + (f - m) * (c + 1)
                          && |training| + |validation| + |healthySamples| == t0 + v0 + f + h))
    }

    /** The last two lines of `__init__`: `equal_set`, then `validation_set`, the first
        error ending the construction. Both splits go through exactly when the pools fit
        them, and then every failing sample has been placed and no sample is lost. */
    method Split() returns (r: Result<()>)
      requires Valid()
      modifies this`training, this`validation, this`failingSamples, this`healthySamples
      ensures Valid()
      ensures r.Ok? <==> SplitFits(|old(training)|, |old(failingSamples)|, |old(healthySamples)|, Draws(healthyRatio))
      ensures r.Err? ==> r.fault == ValueError
      ensures r.Ok? ==> var f, h := |old(failingSamples)|, |old(healthySamples)|;
                        var m := Pairs(|old(training)|, f);
                        && failingSamples == []
                        && |training| == |old(training)| + 2 * m
                        && |validation| == |old(validation)| + (f - m) * (Draws(healthyRatio) + 1)
                        && |training| + |validation| + |healthySamples| == |old(training)| + |old(validation)| + f + h
    {
      ghost var t0, f0, h0 := training, failingSamples, healthySamples;
      ghost var pairs;
      r, pairs := EqualSet();
      if r.Err? {
        return;
      }
      PairsSizes(pairs, Pairs(|t0|, |f0|), f0, failingSamples, h0, healthySamples);
      ghost var f1, h1 := failingSamples, healthySamples;
      ghost var blocks;
      r, blocks := ValidationSet();
      ghost var ok := r.Ok?;
      if ok {
        CountsKept(blocks, failingSamples, healthySamples, f1, h1);
      }
      SplitArith(|t0|, |f0|, |h0|, Draws(healthyRatio), |f1|, |h1|, |blocks|, |healthySamples|, ok);
    }

    /** `grab_switches`: drops the juniper switches and those with too few readings; the
        others stay, in order. */
    method GrabSwitches(database: seq<Entry>) returns (kept: seq<Entry>)
      ensures kept == Survivors(database, sampleLen)
    {
      kept := [];
      var i := |database|;
      while i > 0
        invariant 0 <= i <= |database|
        invariant kept == Survivors(database[i..], sampleLen)
      {
        i := i - 1;
        assert database[i..][1..] == database[i + 1..];
        if Keeps(database[i], sampleLen) {
          kept := [database[i]] + kept;
        }
      }
    }

    /** `is_multiple_failure`: a healthy sample is never a duplicate; a failing one is a
        duplicate exactly when its site already failed that day, and afterwards the day is
        recorded for the site. Reading a missing site code is a KeyError. */
    method IsMultipleFailure(sw: Switch, day: int, failing: bool) returns (r: Result<bool>)
      modifies this`multipleFailureDays
      ensures !failing ==> r == Ok(false) && multipleFailureDays == old(multipleFailureDays)
      ensures failing && sw.site.None? ==> r == Err(KeyError) && multipleFailureDays == old(multipleFailureDays)
      ensures failing && sw.site.Some? && day in Claimed(old(multipleFailureDays), sw.site.value) ==>
                r == Ok(true) && multipleFailureDays == old(multipleFailureDays)
      ensures failing && sw.site.Some? && day !in Claimed(old(multipleFailureDays), sw.site.value) ==>
                r == Ok(false) &&
                multipleFailureDays == old(multipleFailureDays)[sw.site.value := Claimed(old(multipleFailureDays), sw.site.value) + {day}]
      ensures sw.site.Some? && r.Ok? ==> (failing <==> day in Claimed(multipleFailureDays, sw.site.value))
                                         || (!failing && multipleFailureDays == old(multipleFailureDays))
    {
      if failing {
        if sw.site.None? {
          return Err(KeyError);
        }
        var site := sw.site.value;
        if site in multipleFailureDays {
          if day in multipleFailureDays[site] {
            return Ok(true);
          } else {
            multipleFailureDays := multipleFailureDays[site := multipleFailureDays[site] + {day}];
            return Ok(false);
          }
        } else {
          assert Claimed(multipleFailureDays, site) + {day} == {day};
          multipleFailureDays := multipleFailureDays[site := {day}];
          return Ok(false);
        }
      } else {
        return Ok(false);
      }
    }

    /** `update_limits`: both loops over the eighteen statistics, in `stats_full` order. */
    method UpdateLimits(x: Sample)
      requires Valid()
      modifies this`upperLimits, this`lowerLimits
      ensures upperLimits == RaiseAll(old(upperLimits), x.features)
      ensures lowerLimits == LowerAll(old(lowerLimits), x.features)
      ensures State() == Widen(old(State()), x.features)
      ensures Valid() && Bounds(upperLimits, lowerLimits, x.features)
    {
      var upper := RaiseLimits(upperLimits, x.features);
      var lower := LowerLimits(lowerLimits, x.features);
      SetLimits(x.features, upper, lower);
    }

    /** The widened tables of `update_limits` replace the old ones. */
    method SetLimits(f: Features, upper: map<Stat, Extended>, lower: map<Stat, Extended>)
      requires Valid() && upper == RaiseAll(upperLimits, f) && lower == LowerAll(lowerLimits, f)
      modifies this`upperLimits, this`lowerLimits
      ensures upperLimits == upper && lowerLimits == lower
      ensures State() == Widen(old(State()), f)
      ensures Valid() && Bounds(upperLimits, lowerLimits, f)
    {
      WidenValid(f);
      upperLimits, lowerLimits := upper, lower;
    }

    /** Limits widened to f still cover every statistic and enclose every held sample, and f. */
    lemma WidenValid(f: Features)
      requires Valid()
      ensures var up, lo := RaiseAll(upperLimits, f), LowerAll(lowerLimits, f);
              && Covers(up, lo) && Bounds(up, lo, f)
              && Enclosed(healthySamples, up, lo) && Enclosed(failingSamples, up, lo)
              && Enclosed(training, up, lo) && Enclosed(validation, up, lo)
    {
      WidenEncloses(upperLimits, lowerLimits, f);
      SamplesWiden(healthySamples, upperLimits, lowerLimits, f);
      SamplesWiden(failingSamples, upperLimits, lowerLimits, f);
      SamplesWiden(training, upperLimits, lowerLimits, f);
      SamplesWiden(validation, upperLimits, lowerLimits, f);
    }

    /** `normalize_sample`: the row of x against the current limits, built cell by cell. */
    method NormalizeSample(x: Sample) returns (r: Result<seq<Cell>>)
      requires FiniteLimits(upperLimits, lowerLimits)
      ensures r == Normalized(x.failing, x.model, x.name, x.features, upperLimits, lowerLimits)
    {
      var bit := if x.failing.Truthy() then 1 else 0;
      if x.model.None? {
        return Err(AttributeError);
      }
      var cells: seq<Cell> := [];
      for i := 0 to |StatsFull|
        invariant ScaledStats(x.features, upperLimits, lowerLimits, StatsFull[..i]) == Ok(cells)
      {
        var stat := StatsFull[i];
        var top, bot := upperLimits[stat].v, lowerLimits[stat].v;
        if top == bot {
          ScaledStatsFails(x.features, upperLimits, lowerLimits, StatsFull, i);
          return Err(ZeroDivisionError);
        }
        var scaled := (x.features.Get(stat) - bot) / (top - bot);
        ScaledStatsNext(x.features, upperLimits, lowerLimits, StatsFull, i, cells, scaled);
        cells := cells + [RealCell(scaled)];
      }
      assert StatsFull[..|StatsFull|] == StatsFull;
      return Ok([IntCell(bit), IntCell(x.model.value)] + cells + [TextCell(x.name)]);
    }

    /** Every sample a valid grabber holds can be normalized against its limits, and its
        scaled statistics lie in [0, 1]. */
    lemma HeldNormalizes(x: Sample)
      requires Valid() && x in Pools()
      ensures FiniteLimits(upperLimits, lowerLimits)
      ensures var r := Normalized(x.failing, x.model, x.name, x.features, upperLimits, lowerLimits);
              r.Ok? ==> forall i :: 2 <= i < 20 ==> r.value[i].RealCell? && 0.0 <= r.value[i].r <= 1.0
    {
      assert Bounds(upperLimits, lowerLimits, x.features);
      NormalizedRange(x.failing, x.model, x.name, x.features, upperLimits, lowerLimits);
    }

    /** `make_sample`: reads the name, the model and the six series over [day - len, day),
        builds the sample, widens the limits and appends the sample to the pool its label
        selects. */
    method MakeSample(sw: Switch, day: int, failing: bool) returns (r: Result<()>)
      requires sampleLen > 0 && WindowComplete(sw, day, sampleLen) && Valid()
      modifies this`healthySamples, this`failingSamples, this`upperLimits, this`lowerLimits
      ensures Valid()
      ensures Record(old(State()), sw, day, failing, sampleLen, std) == Outcome(r)
      ensures r.Err? ==> r.fault == KeyError
    {
      if sw.name.None? {
        return Err(KeyError);
      }
      ghost var before := State();
      var x := BuildSample(sw, day, failing);
      AdmitSample(x, failing);
      return Ok(());
    }

    /** The second half of `make_sample`: `update_limits`, then the sample goes to the pool
        its label selects. */
    method AdmitSample(x: Sample, failing: bool)
      requires Valid()
      modifies this`healthySamples, this`failingSamples, this`upperLimits, this`lowerLimits
      ensures Valid()
      ensures State() == Admit(old(State()), RecOf(x), failing)
    {
      UpdateLimits(x);
      AddToPool(x, failing);
    }

    /** The last step of `make_sample`: the sample goes to the pool its label selects. */
    method AddToPool(x: Sample, failing: bool)
      requires Valid() && Bounds(upperLimits, lowerLimits, x.features)
      modifies this`healthySamples, this`failingSamples
      ensures healthySamples == if failing then old(healthySamples) else old(healthySamples) + [x]
      ensures failingSamples == if failing then old(failingSamples) + [x] else old(failingSamples)
      ensures State() == Join(old(State()), RecOf(x), failing)
      ensures Valid()
    {
      if failing {
        RecsAppend(failingSamples, x);
        failingSamples := failingSamples + [x];
      } else {
        RecsAppend(healthySamples, x);
        healthySamples := healthySamples + [x];
      }
    }

    /** The first half of `make_sample`: the six windows read from the switch and the new
        Sample built from them. */
    method BuildSample(sw: Switch, day: int, failing: bool) returns (x: Sample)
      requires sampleLen > 0 && WindowComplete(sw, day, sampleLen) && sw.name.Some?
      ensures fresh(x) && x.failing == BoolFlag(failing)
      ensures RecOf(x) == Rec(sw.name.value, ModelCode(sw.model), WindowFeatures(sw, day, sampleLen, std))
    {
      var name := sw.name.value;
      var tempAvg := MetricWindow(sw, TempAvg, day, sampleLen);
      var tempMax := MetricWindow(sw, TempMax, day, sampleLen);
      var cpuAvg := MetricWindow(sw, CpuAvg, day, sampleLen);
      var cpuMax := MetricWindow(sw, CpuMax, day, sampleLen);
      var latencyAvg := MetricWindow(sw, LatencyAvg, day, sampleLen);
      var latencyMax := MetricWindow(sw, LatencyMax, day, sampleLen);
      x := new Sample(failing, name, sw.model, tempAvg, tempMax, cpuAvg, cpuMax, latencyAvg, latencyMax, std);
    }

    /** The body of the cursor loop of `switches_to_samples` for the window ending at
        `endDay`: skip check, `is_valid_sample`, the label, `is_multiple_failure` and
        `make_sample`. */
    method ConsiderWindow(sw: Switch, endDay: int, dist: nat) returns (r: Result<()>)
      requires sampleLen > 0 && Valid()
      modifies this`healthySamples, this`failingSamples, this`upperLimits, this`lowerLimits, this`multipleFailureDays
      ensures Valid()
      ensures Visit(old(State()), sw, Window(endDay, dist), sampleLen, std) == Outcome(r)
    {
      if dist in Skip {
        return Ok(());
      }
      var valid := IsValidSample(sw, endDay, sampleLen);
      if !valid {
        return Ok(());
      }
      var failing: bool;
      if endDay == Horizon {
        failing := StatusOf(sw.events, endDay).Some?;
      } else if dist < 1 {
        failing := true;
      } else {
        failing := false;
      }
      assert failing == FailingLabel(sw.events, Horizon, Window(endDay, dist));
      var dup := IsMultipleFailure(sw, endDay, failing);
      if dup.Err? {
        return Err(dup.fault);
      }
      if !dup.value {
        r := MakeSample(sw, endDay, failing);
      } else {
        r := Ok(());
      }
    }

    /** `switches_to_samples`: the switches in order; the scan stops at the first error. The
        result is the value-level scan of the switches. */
    method SwitchesToSamples(switches: seq<Entry>) returns (r: Result<()>)
      requires sampleLen > 0 && Valid()
      modifies this`healthySamples, this`failingSamples, this`upperLimits, this`lowerLimits, this`multipleFailureDays
      ensures Valid()
      ensures ProcessFrom(Ok(old(State())), switches, sampleLen, std) == Outcome(r)
    {
      ghost var spec := ProcessFrom(Ok(State()), switches, sampleLen, std);
      for si := 0 to |switches|
        invariant Valid()
        invariant spec == ProcessFrom(Ok(State()), switches[si..], sampleLen, std)
      {
        assert switches[si..][1..] == switches[si + 1..];
        ghost var b := State();
        ghost var step := ProcessSwitch(Ok(b), switches[si].switch, sampleLen, std);
        assert spec == ProcessFrom(step, switches[si + 1..], sampleLen, std);
        var res := ScanSwitch(switches[si].switch);
        if res.Err? {
          assert step == Err(res.fault);
          ProcessFromErr(res.fault, switches[si + 1..], sampleLen, std);
          return Err(res.fault);
        }
        assert step == Ok(State());
      }
      assert switches[|switches|..] == [];
      return Ok(());
    }

    /** One switch of `switches_to_samples`: its event days, then the scan over them. */
    method ScanSwitch(sw: Switch) returns (r: Result<()>)
      requires sampleLen > 0 && Valid()
      modifies this`healthySamples, this`failingSamples, this`upperLimits, this`lowerLimits, this`multipleFailureDays
      ensures Valid()
      ensures ProcessSwitch(Ok(old(State())), sw, sampleLen, std) == Outcome(r)
    {
      var days := EventDays(sw.events, Horizon);
      RestVisitsCandidates(Ok(State()), sw, days, 0, sampleLen, std);
      r := ScanDays(sw, days);
    }

    /** The event-day loop of `switches_to_samples`, with `last_event_day` starting at 0:
        each day considered in increasing order; the first fault ends the loop. */
    method ScanDays(sw: Switch, days: seq<int>) returns (r: Result<()>)
      requires sampleLen > 0 && Valid()
      modifies this`healthySamples, this`failingSamples, this`upperLimits, this`lowerLimits, this`multipleFailureDays
      ensures Valid()
      ensures Rest(Ok(old(State())), sw, days, 0, sampleLen, std) == Outcome(r)
    {
      var lastEventDay := 0;
      ghost var spec := Rest(Ok(State()), sw, days, 0, sampleLen, std);
      assert days[0..] == days;
      for j := 0 to |days|
        invariant Valid()
        invariant spec == Rest(Ok(State()), sw, days[j..], lastEventDay, sampleLen, std)
      {
        assert days[j..][1..] == days[j + 1..];
        var res;
        res, lastEventDay := ScanEventDay(sw, days[j], lastEventDay);
        if res.Err? {
          return Err(res.fault);
        }
      }
      assert days[|days|..] == [];
      return Ok(());
    }

    /** One event day of `switches_to_samples`: for the horizon and for a "down" event the
        cursor loop, which considers the window ending at the cursor and steps back by
        `sample_len` while the cursor is at least `sample_len` above the floor; the floor
        then moves to the leftover cursor, or, for any other event, to the event day. */
    method ScanEventDay(sw: Switch, eventDay: int, lastEventDay: int) returns (r: Result<()>, next: int)
      requires sampleLen > 0 && Valid()
      modifies this`healthySamples, this`failingSamples, this`upperLimits, this`lowerLimits, this`multipleFailureDays
      ensures Valid()
      ensures next == NextFloor(sw.events, Horizon, sampleLen, lastEventDay, eventDay)
      ensures VisitAll(Ok(old(State())), sw, DayWindows(sw.events, Horizon, sampleLen, lastEventDay, eventDay), sampleLen, std)
              == Outcome(r)
    {
      if eventDay == Horizon || StatusOf(sw.events, eventDay) == Some("down") {
        r, next := CursorLoop(sw, eventDay, lastEventDay);
      } else {
        r, next := Ok(()), eventDay;
      }
    }

    /** The cursor loop of a scanned event day, from the event day down to the floor; a
        fault ends it. */
    method CursorLoop(sw: Switch, eventDay: int, lastEventDay: int) returns (r: Result<()>, endDay: int)
      requires sampleLen > 0 && Valid()
      modifies this`healthySamples, this`failingSamples, this`upperLimits, this`lowerLimits, this`multipleFailureDays
      ensures Valid()
      ensures endDay == Leftover(eventDay, lastEventDay, sampleLen)
      ensures VisitAll(Ok(old(State())), sw, Period(eventDay, lastEventDay, sampleLen, 0), sampleLen, std) == Outcome(r)
    {
      endDay := eventDay;
      var dist := 0;
      ghost var spec := VisitAll(Ok(State()), sw, Period(eventDay, lastEventDay, sampleLen, 0), sampleLen, std);
      while endDay - lastEventDay >= sampleLen
        invariant Valid()
        invariant Leftover(endDay, lastEventDay, sampleLen) == Leftover(eventDay, lastEventDay, sampleLen)
        invariant spec == VisitAll(Ok(State()), sw, Period(endDay, lastEventDay, sampleLen, dist), sampleLen, std)
        decreases endDay - lastEventDay
      {
        var res;
        res, endDay, dist := ScanStep(sw, endDay, lastEventDay, dist, spec);
        if res.Err? {
          return Err(res.fault), Leftover(eventDay, lastEventDay, sampleLen);
        }
      }
      assert Period(endDay, lastEventDay, sampleLen, dist) == [];
      return Ok(()), endDay;
    }

    /** One pass of the cursor loop: the window that ends at `endDay`. */
    method ScanStep(sw: Switch, endDay: int, lastEventDay: int, dist: nat, ghost spec: Result<Book>)
      returns (r: Result<()>, nextDay: int, nextDist: nat)
      requires sampleLen > 0 && Valid() && endDay - lastEventDay >= sampleLen
      requires spec == VisitAll(Ok(State()), sw, Period(endDay, lastEventDay, sampleLen, dist), sampleLen, std)
      modifies this`healthySamples, this`failingSamples, this`upperLimits, this`lowerLimits, this`multipleFailureDays
      ensures Valid()
      ensures nextDay == endDay - sampleLen && nextDist == dist + 1
      ensures Leftover(nextDay, lastEventDay, sampleLen) == Leftover(endDay, lastEventDay, sampleLen)
      ensures r.Ok? ==> spec == VisitAll(Ok(State()), sw, Period(nextDay, lastEventDay, sampleLen, nextDist), sampleLen, std)
      ensures r.Err? ==> spec == Err(r.fault)
    {
      nextDay, nextDist := endDay - sampleLen, dist + 1;
      VisitNext(State(), sw, endDay, lastEventDay, dist, sampleLen, std);
      r := ConsiderWindow(sw, endDay, dist);
      if r.Err? {
        VisitAllErr(r.fault, sw, Period(endDay - sampleLen, lastEventDay, sampleLen, dist + 1), sampleLen, std);
      }
    }

    /** `training.append(pool.pop(i))`. */
    method MoveToTraining(fromFailing: bool, i: nat) returns (x: Sample)
      requires i < |if fromFailing then failingSamples else healthySamples|
      modifies this`failingSamples, this`healthySamples, this`training
      ensures x == (if fromFailing then old(failingSamples) else old(healthySamples))[i]
      ensures failingSamples == if fromFailing then Pop(old(failingSamples), i) else old(failingSamples)
      ensures healthySamples == if fromFailing then old(healthySamples) else Pop(old(healthySamples), i)
      ensures training == old(training) + [x]
    {
      x := TakeFrom(fromFailing, i);
      training := training + [x];
    }

    /** `validation.append(pool.pop(i))`. */
    method MoveToValidation(fromFailing: bool, i: nat) returns (x: Sample)
      requires i < |if fromFailing then failingSamples else healthySamples|
      modifies this`failingSamples, this`healthySamples, this`validation
      ensures x == (if fromFailing then old(failingSamples) else old(healthySamples))[i]
      ensures failingSamples == if fromFailing then Pop(old(failingSamples), i) else old(failingSamples)
      ensures healthySamples == if fromFailing then old(healthySamples) else Pop(old(healthySamples), i)
      ensures validation == old(validation) + [x]
    {
      x := TakeFrom(fromFailing, i);
      validation := validation + [x];
    }

    /** `pool.pop(i)`. */
    method TakeFrom(fromFailing: bool, i: nat) returns (x: Sample)
      requires i < |if fromFailing then failingSamples else healthySamples|
      modifies this`failingSamples, this`healthySamples
      ensures x == (if fromFailing then old(failingSamples) else old(healthySamples))[i]
      ensures failingSamples == if fromFailing then Pop(old(failingSamples), i) else old(failingSamples)
      ensures healthySamples == if fromFailing then old(healthySamples) else Pop(old(healthySamples), i)
    {
      var pool := if fromFailing then failingSamples else healthySamples;
      x := pool[i];
      if fromFailing {
        failingSamples := Pop(failingSamples, i);
      } else {
        healthySamples := Pop(healthySamples, i);
      }
    }

    /** `equal_set`: while the training set is shorter than 2 * (0.9 * the failing count at
        the start), draw a failing and a healthy index (a ValueError when either pool is
        empty) and move both samples to the training set, failing first. So the new training
        entries alternate failing, healthy, and the number of pairs is `Pairs`. */
    method EqualSet() returns (r: Result<()>, ghost added: seq<Sample>)
      requires Valid()
      modifies this`training, this`failingSamples, this`healthySamples
      ensures Valid() && training == old(training) + added
      ensures var m := Pairs(|old(training)|, |old(failingSamples)|);
              r.Ok? <==> m <= |old(failingSamples)| && m <= |old(healthySamples)|
      ensures r.Err? ==> r.fault == ValueError
      ensures r.Ok? ==> |added| == 2 * Pairs(|old(training)|, |old(failingSamples)|)
      ensures multiset(Heads(added, 2)) + multiset(failingSamples) == multiset(old(failingSamples))
      ensures multiset(Rests(added, 2)) + multiset(healthySamples) == multiset(old(healthySamples))
    {
      ghost var t0, f0, h0 := training, failingSamples, healthySamples;
      r, added := EqualPairs();
      TrainingValid(t0, f0, h0, added);
    }

    /** The outcome of `equal_set` on a training set of t0 samples and pools f0 and h0:
        the Ok/Err verdict and how the pairs added split between the two pools.
        Contracts compare it with true so that the verifier carries it as one fact rather
        than as its separate conjuncts. */
    ghost predicate Paired(r: Result<()>, added: seq<Sample>, t0: nat, f0: seq<Sample>, h0: seq<Sample>)
      reads this
    {
      var m := Pairs(t0, |f0|);
      && (r.Ok? <==> m <= |f0| && m <= |h0|)
      && (r.Err? ==> r.fault == ValueError)
      && (r.Ok? ==> |added| == 2 * m)
      && multiset(Heads(added, 2)) + multiset(failingSamples) == multiset(f0)
      && multiset(Rests(added, 2)) + multiset(healthySamples) == multiset(h0)
    }

    /** The loop of `equal_set`. */
    method EqualPairs() returns (r: Result<()>, ghost added: seq<Sample>)
      modifies this`training, this`failingSamples, this`healthySamples
      ensures training == old(training) + added
      ensures Paired(r, added, |old(training)|, old(failingSamples), old(healthySamples)) == true
    {
      ghost var t0 := training;
      ghost var f0 := failingSamples;
      ghost var h0 := healthySamples;
      ghost var k: nat := 0;
      added := [];
      // the quota 0.9 * |failingSamples|, counted in tenths of a sample
      var quota := 9 * |failingSamples|;
      while 10 * |training| < quota * 2
        invariant quota == 9 * |f0|
        invariant training == t0 + added && |training| == |t0| + 2 * k && |failingSamples| + k == |f0|
        invariant k == 0 || 10 * (|t0| + 2 * (k - 1)) < 2 * quota
        invariant InTraining(added, f0, h0, k) == true
        decreases |failingSamples|
      {
        if |failingSamples| == 0 || |healthySamples| == 0 {
          PairsDry(added, t0, f0, h0, k);
          return Err(ValueError), added;
        }
        ghost var pair := EqualRound(t0, added, f0, h0, k);
        added := added + pair;
        k := k + 1;
      }
      PairsDone(added, t0, f0, h0, k);
      return Ok(()), added;
    }

    /** A pool that runs dry before the quota is met fails `equal_set`. */
    lemma PairsDry(added: seq<Sample>, t0: seq<Sample>, f0: seq<Sample>, h0: seq<Sample>, k: nat)
      requires InTraining(added, f0, h0, k) == true
      requires 10 * (|t0| + 2 * k) < 18 * |f0|
      requires |failingSamples| == 0 || |healthySamples| == 0
      ensures Paired(Err(ValueError), added, |t0|, f0, h0) == true
    {
    }

    /** Meeting the quota completes `equal_set` with exactly `Pairs` pairs. */
    lemma PairsDone(added: seq<Sample>, t0: seq<Sample>, f0: seq<Sample>, h0: seq<Sample>, k: nat)
      requires InTraining(added, f0, h0, k) == true
      requires k == 0 || 10 * (|t0| + 2 * (k - 1)) < 18 * |f0|
      requires 10 * (|t0| + 2 * k) >= 18 * |f0|
      ensures Paired(Ok(()), added, |t0|, f0, h0) == true
    {
    }

    /** The training set and the pools after rounds of `equal_set` hold the samples the
        training set and the pools held before, so the limits still enclose them all. */
    lemma TrainingValid(t0: seq<Sample>, f0: seq<Sample>, h0: seq<Sample>, added: seq<Sample>)
      requires Covers(upperLimits, lowerLimits) && Enclosed(validation, upperLimits, lowerLimits)
      requires Enclosed(t0, upperLimits, lowerLimits)
      requires Enclosed(f0, upperLimits, lowerLimits) && Enclosed(h0, upperLimits, lowerLimits)
      requires training == t0 + added
      requires multiset(Heads(added, 2)) + multiset(failingSamples) == multiset(f0)
      requires multiset(Rests(added, 2)) + multiset(healthySamples) == multiset(h0)
      ensures Valid()
    {
      HeadsRestsPartition(added, 2);
      Redistributed(f0, h0, added, failingSamples, healthySamples, upperLimits, lowerLimits);
    }

    /** After k rounds of `equal_set` from pools f0 and h0, the samples added to the
        training set are k pairs whose heads are the failing samples taken and whose rests
        are the healthy ones taken.
        Contracts compare it with true so that the verifier carries it as one fact rather
        than as its separate conjuncts. */
    ghost predicate InTraining(added: seq<Sample>, f0: seq<Sample>, h0: seq<Sample>, k: nat)
      reads this
    {
      && |added| == 2 * k
      && |failingSamples| + k == |f0| && |healthySamples| + k == |h0|
      && multiset(Heads(added, 2)) + multiset(failingSamples) == multiset(f0)
      && multiset(Rests(added, 2)) + multiset(healthySamples) == multiset(h0)
    }

    /** One pass of the loop of `equal_set`: a random failing sample, then a random healthy
        one, moved to the training set. */
    method EqualRound(ghost t0: seq<Sample>, ghost added: seq<Sample>, ghost f0: seq<Sample>, ghost h0: seq<Sample>, ghost k: nat)
      returns (ghost pair: seq<Sample>)
      requires |failingSamples| > 0 && |healthySamples| > 0 && InTraining(added, f0, h0, k) == true
      requires training == t0 + added
      modifies this`training, this`failingSamples, this`healthySamples
      ensures training == t0 + (added + pair) && |training| == |old(training)| + 2
      ensures |failingSamples| + 1 == |old(failingSamples)|
      ensures InTraining(added + pair, f0, h0, k + 1) == true
    {
      var index1 :| 0 <= index1 < |failingSamples|;
      var index2 :| 0 <= index2 < |healthySamples|;
      ghost var fk := failingSamples;
      ghost var hk := healthySamples;
      var a := MoveToTraining(true, index1);
      var b := MoveToTraining(false, index2);
      PairStep(added, k, a, b, fk, index1, hk, index2, multiset(f0), multiset(h0));
      pair := [a, b];
      AppendAssoc(t0, added, pair);
    }

    /** `validation_set`: while failing samples remain, move a random one to the validation
        set, then draw the healthy ones that go with it. The validation set grows by blocks
        of one failing sample and `Draws(healthy_ratio)` healthy ones. */
    method ValidationSet() returns (r: Result<()>, ghost added: seq<Sample>)
      requires Valid()
      modifies this`validation, this`failingSamples, this`healthySamples
      ensures Valid() && validation == old(validation) + added
      ensures var c := Draws(healthyRatio);
              r.Ok? <==> |old(failingSamples)| * c <= |old(healthySamples)|
      ensures r.Err? ==> r.fault == ValueError
      ensures multiset(added) + multiset(failingSamples) + multiset(healthySamples)
              == multiset(old(failingSamples)) + multiset(old(healthySamples))
      ensures var c := Draws(healthyRatio);
              r.Ok? ==> && failingSamples == []
                        && |added| == |old(failingSamples)| * (c + 1)
                        && multiset(Heads(added, c + 1)) == multiset(old(failingSamples))
                        && multiset(Rests(added, c + 1)) + multiset(healthySamples) == multiset(old(healthySamples))
    {
      ghost var v0, f0, h0 := validation, failingSamples, healthySamples;
      r, added := ValidationBlocks();
      ValidationValid(v0, f0, h0, added);
      TimesIsProduct(|f0|, Draws(healthyRatio));
      TimesIsProduct(|f0|, Draws(healthyRatio) + 1);
    }

    /** The outcome of `validation_set` on pools f0 and h0 with c healthy draws per
        failing sample: the Ok/Err verdict and how the blocks added split between the two
        pools.
        Contracts compare it with true so that the verifier carries it as one fact rather
        than as its separate conjuncts. */
    ghost predicate Drawn(r: Result<()>, added: seq<Sample>, f0: seq<Sample>, h0: seq<Sample>, c: nat)
      reads this
    {
      && (r.Ok? <==> Times(|f0|, c) <= |h0|)
      && (r.Err? ==> r.fault == ValueError)
      && multiset(added) + multiset(failingSamples) + multiset(healthySamples) == multiset(f0) + multiset(h0)
      && (r.Ok? ==> && failingSamples == []
                    && |added| == Times(|f0|, c + 1)
                    && multiset(Heads(added, c + 1)) == multiset(f0)
                    && multiset(Rests(added, c + 1)) + multiset(healthySamples) == multiset(h0))
    }

    /** The loop of `validation_set`. */
    method ValidationBlocks() returns (r: Result<()>, ghost added: seq<Sample>)
      modifies this`validation, this`failingSamples, this`healthySamples
      ensures validation == old(validation) + added
      ensures Drawn(r, added, old(failingSamples), old(healthySamples), Draws(healthyRatio)) == true
    {
      ghost var v0 := validation;
      ghost var f0 := failingSamples;
      ghost var h0 := healthySamples;
      ghost var k: nat := 0;
      ghost var c := Draws(healthyRatio);
      added := [];
      while |failingSamples| > 0
        invariant validation == v0 + added
        invariant InValidation(added, f0, h0, k, c) == true
        decreases |failingSamples|
      {
        ghost var blk;
        r, blk := ValidationRound(v0, added, f0, h0, k, c);
        added := added + blk;
        if r.Err? {
          return;
        }
        k := k + 1;
      }
      ValidationDone(added, f0, h0, k, c);
      return Ok(()), added;
    }

    /** The validation set and the pools after rounds of `validation_set` hold the samples
        the validation set and the pools held before, so the limits still enclose them all. */
    lemma ValidationValid(v0: seq<Sample>, f0: seq<Sample>, h0: seq<Sample>, added: seq<Sample>)
      requires Covers(upperLimits, lowerLimits) && Enclosed(training, upperLimits, lowerLimits)
      requires Enclosed(v0, upperLimits, lowerLimits)
      requires Enclosed(f0, upperLimits, lowerLimits) && Enclosed(h0, upperLimits, lowerLimits)
      requires validation == v0 + added
      requires multiset(added) + multiset(failingSamples) + multiset(healthySamples) == multiset(f0) + multiset(h0)
      ensures Valid()
    {
      Redistributed(f0, h0, added, failingSamples, healthySamples, upperLimits, lowerLimits);
    }

    /** When no failing sample is left, the blocks account for both pools. */
    lemma ValidationDone(added: seq<Sample>, f0: seq<Sample>, h0: seq<Sample>, k: nat, c: nat)
      requires InValidation(added, f0, h0, k, c) == true && |failingSamples| == 0
      ensures Drawn(Ok(()), added, f0, h0, c) == true
    {
      assert k == |f0| && multiset(failingSamples) == multiset{};
      assert multiset(Heads(added, c + 1)) == multiset(f0);
      AllBlocks(added, c, f0, h0, healthySamples);
    }

    /** After k rounds of `validation_set` from pools f0 and h0, the samples added to the
        validation set form k blocks whose heads are the failing samples taken and whose
        rests are the healthy ones taken.
        Contracts compare it with true so that the verifier carries it as one fact rather
        than as its separate conjuncts. */
    ghost predicate InValidation(added: seq<Sample>, f0: seq<Sample>, h0: seq<Sample>, k: nat, c: nat)
      reads this
    {
      && |added| == Times(k, c + 1)
      && |failingSamples| + k == |f0| && |healthySamples| + Times(k, c) == |h0|
      && multiset(Heads(added, c + 1)) + multiset(failingSamples) == multiset(f0)
      && multiset(Rests(added, c + 1)) + multiset(healthySamples) == multiset(h0)
    }

    /** One pass of the outer loop of `validation_set`: appends the block blk. */
    method ValidationRound(ghost v0: seq<Sample>, ghost added: seq<Sample>, ghost f0: seq<Sample>, ghost h0: seq<Sample>,
                           ghost k: nat, ghost c: nat)
      returns (r: Result<()>, ghost blk: seq<Sample>)
      requires c == Draws(healthyRatio)
      requires |failingSamples| > 0 && InValidation(added, f0, h0, k, c) == true
      requires validation == v0 + added
      modifies this`validation, this`failingSamples, this`healthySamples
      ensures validation == v0 + (added + blk)
      ensures |failingSamples| < |old(failingSamples)|
      ensures r.Ok? ==> InValidation(added + blk, f0, h0, k + 1, c) == true
      ensures r.Err? ==> Drawn(r, added + blk, f0, h0, c) == true
    {
      ghost var fk := failingSamples;
      ghost var hk := healthySamples;
      var res;
      ghost var index1;
      res, index1, blk := MoveBlock();
      AppendAssoc(v0, added, blk);
      if res.Err? {
        RoundDrawn(added, f0, h0, k, c, blk, fk, hk, index1);
        return Err(ValueError), blk;
      }
      RoundExtends(added, f0, h0, k, c, blk, fk, hk, index1);
      return Ok(()), blk;
    }

    /** A complete round extends the blocks by one. */
    lemma RoundExtends(added: seq<Sample>, f0: seq<Sample>, h0: seq<Sample>, k: nat, c: nat,
                       blk: seq<Sample>, fk: seq<Sample>, hk: seq<Sample>, i: nat)
      requires && |added| == Times(k, c + 1) && |fk| + k == |f0| && |hk| + Times(k, c) == |h0|
               && multiset(Heads(added, c + 1)) + multiset(fk) == multiset(f0)
               && multiset(Rests(added, c + 1)) + multiset(hk) == multiset(h0)
               && i < |fk| && failingSamples == Pop(fk, i) && |blk| == 1 + c && blk[0] == fk[i]
               && multiset(blk[1..]) + multiset(healthySamples) == multiset(hk)
      ensures InValidation(added + blk, f0, h0, k + 1, c) == true
    {
      BlockExtends(added, k, c, blk, fk, i, hk, healthySamples, multiset(f0), multiset(h0));
    }

    /** A round that runs dry ends `validation_set` with its ValueError. */
    lemma RoundDrawn(added: seq<Sample>, f0: seq<Sample>, h0: seq<Sample>, k: nat, c: nat,
                     blk: seq<Sample>, fk: seq<Sample>, hk: seq<Sample>, i: nat)
      requires && |fk| + k == |f0| && |hk| + Times(k, c) == |h0| && |hk| < c
               && multiset(Heads(added, c + 1)) + multiset(fk) == multiset(f0)
               && multiset(Rests(added, c + 1)) + multiset(hk) == multiset(h0)
               && i < |fk| && failingSamples == Pop(fk, i) && |blk| > 0 && blk[0] == fk[i]
               && multiset(blk[1..]) + multiset(healthySamples) == multiset(hk)
      ensures Drawn(Err(ValueError), added + blk, f0, h0, c) == true
    {
      RoundDry(added, f0, h0, k, c, blk, fk, hk, i, healthySamples);
    }

    /** One round of `validation_set`: a random failing sample, then the healthy ones drawn
        for it. */
    method MoveBlock() returns (r: Result<()>, ghost i: nat, ghost blk: seq<Sample>)
      requires |failingSamples| > 0
      modifies this`validation, this`failingSamples, this`healthySamples
      ensures i < |old(failingSamples)| && failingSamples == Pop(old(failingSamples), i)
      ensures validation == old(validation) + blk && |blk| > 0 && blk[0] == old(failingSamples)[i]
      ensures multiset(blk[1..]) + multiset(healthySamples) == multiset(old(healthySamples))
      ensures var c := Draws(healthyRatio);
              && (r.Ok? <==> c <= |old(healthySamples)|)
              && (r.Ok? ==> |blk| == 1 + c)
              && (r.Err? ==> r.fault == ValueError && |old(healthySamples)| < c)
    {
      var index1 :| 0 <= index1 < |failingSamples|;
      i := index1;
      var f := MoveToValidation(true, index1);
      ghost var drawn;
      r, drawn := DrawHealthy();
      blk := [f] + drawn;
      assert blk[1..] == drawn;
    }

    /** The inner loop of `validation_set`: one healthy sample moved to the validation set
        for each i = 0, 1, ... with i < healthy_ratio, a ValueError once the pool is empty. */
    method DrawHealthy() returns (r: Result<()>, ghost drawn: seq<Sample>)
      modifies this`validation, this`healthySamples, this`failingSamples
      ensures failingSamples == old(failingSamples)
      ensures validation == old(validation) + drawn
      ensures multiset(drawn) + multiset(healthySamples) == multiset(old(healthySamples))
      ensures var c := Draws(healthyRatio);
              && (r.Ok? <==> c <= |old(healthySamples)|)
              && (r.Err? ==> r.fault == ValueError)
              && |drawn| == (if r.Ok? then c else |old(healthySamples)|)
    {
      ghost var v0 := validation;
      ghost var h0 := healthySamples;
      ghost var c := Draws(healthyRatio);
      drawn := [];
      var i := 0;
      while (i as real) < healthyRatio
        invariant 0 <= i <= c
        invariant validation == v0 + drawn && |drawn| == i
        invariant |healthySamples| + i == |h0| && failingSamples == old(failingSamples)
        invariant multiset(drawn) + multiset(healthySamples) == multiset(h0)
      {
        if |healthySamples| == 0 {
          return Err(ValueError), drawn;
        }
        var index2 :| 0 <= index2 < |healthySamples|;
        var h := MoveToValidation(false, index2);
        drawn := drawn + [h];
        i := i + 1;
      }
      return Ok(()), drawn;
    }
  }
}
