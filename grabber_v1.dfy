/** The original grabber (analyzing/Grabber.py): it keeps the switches worth scanning, with
    their name and site code deleted (a KeyError when either is missing), scans each one's
    event days with the same cursor loop as the v0.2 grabber (horizon 346), labels each
    complete window with a `healthy` flag, turns it into a Sample while widening the running
    limits, and files the sample by its end day: the windows ending on the horizon go to the
    validation set, all others to the training set.
    `small_set` then draws a balanced subset of the training set.

    The limit tables are dictionaries keyed "<stat>_top" and "<stat>_bot" whose entries start
    as None; `update_limits` recovers the statistic of a key with a regex. */
module GrabberV1 {
  import opened Wrappers
  import opened Values
  import opened Seqs
  import opened Stats
  import opened Telemetry
  import opened Scan
  import opened Limits
  import opened SampleV1

  /** The last day of observation in this generation's data. */
  const Horizon := 346

  /** Distances whose windows are set aside as a gap before events; none are. */
  const Skip: seq<nat> := []

  /** The per-class size of the subset `small_set` draws. */
  const Quota := 5000

  // ------------------------------------------------------------------ switch selection

  /** A switch record that still has both fields `grab_switches` deletes. */
  predicate Named(e: Entry)
  {
    e.switch.name.Some? && e.switch.site.Some?
  }

  /** `del database[key]["switch_name"]` and `del database[key]["site_code"]`: a KeyError
      when either field is missing, otherwise the record without those two fields. */
  function Strip(e: Entry): (r: Result<Entry>)
    ensures r.Err? <==> !Named(e)
    ensures r.Err? ==> r.fault == KeyError
    ensures r.Ok? ==> r.value.key == e.key && r.value.switch.name.None? && r.value.switch.site.None?
    ensures r.Ok? ==> r.value.switch == e.switch.(name := None, site := None)
  {
    if e.switch.name.None? then Err(KeyError)
    else if e.switch.site.None? then Err(KeyError)
    else Ok(Entry(e.key, e.switch.(name := None, site := None)))
  }

  /** The records kept so far in front of the rest of the loop's outcome. */
  function Prepend(kept: seq<Entry>, r: Result<seq<Entry>>): Result<seq<Entry>>
  {
    if r.Ok? then Ok(kept + r.value) else r
  }

  /** `grab_switches`: the switches `Keeps` selects, in database order, stripped; the first
      kept switch without a name or a site code ends the loop with a KeyError. */
  function Stripped(db: seq<Entry>, len: nat): (r: Result<seq<Entry>>)
    ensures r.Err? <==> exists e :: e in db && Keeps(e, len) && !Named(e)
    ensures r.Err? ==> r.fault == KeyError
    ensures r.Ok? ==> |r.value| == |Survivors(db, len)|
    ensures r.Ok? ==> forall i :: 0 <= i < |r.value| ==> Strip(Survivors(db, len)[i]) == Ok(r.value[i])
  {
    if db == [] then Ok([])
    else if !Keeps(db[0], len) then Stripped(db[1..], len)
    else if Strip(db[0]).Err? then Err(KeyError)
    else Prepend([Strip(db[0]).value], Stripped(db[1..], len))
  }

  /** When `grab_switches` returns, a switch is kept exactly when `Keeps` holds, and then only
      its name and site code are gone; a kept switch missing either field makes it raise. */
  lemma StrippedKeeps(db: seq<Entry>, len: nat, d: Entry)
    requires d in db
    ensures Keeps(d, len) && !Named(d) ==> Stripped(db, len).Err?
    ensures Stripped(db, len).Ok? ==>
              (Keeps(d, len) <==> Strip(d).Ok? && Strip(d).value in Stripped(db, len).value)
  {
    var r := Stripped(db, len);
    if r.Ok? {
      if Keeps(d, len) {
        var i :| 0 <= i < |Survivors(db, len)| && Survivors(db, len)[i] == d;
        assert Strip(d) == Ok(r.value[i]);
      } else {
        assert forall i :: 0 <= i < |r.value| ==> Keeps(Survivors(db, len)[i], len);
      }
    }
  }

  // ------------------------------------------------------------------ the limit keys

  /** `getattr(sample, name)` for a statistic attribute: the statistic called `name`, found
      by walking `stats_full` from position i; None when no statistic has that name. */
  function FindStat(name: string, i: nat): (r: Option<Stat>)
    requires i <= |StatsFull|
    ensures r.Some? ==> StatName(r.value) == name
    ensures r.None? ==> forall j :: i <= j < |StatsFull| ==> StatName(StatsFull[j]) != name
    decreases |StatsFull| - i
  {
    if i == |StatsFull| then None
    else if StatName(StatsFull[i]) == name then Some(StatsFull[i])
    else FindStat(name, i + 1)
  }

  /** The statistic a limit key stands for: the regex group of the key, read as an attribute
      name. */
  function KeyStat(key: string): (r: Option<Stat>)
    ensures r.None? ==> GreedyGroup(key).None? || forall s: Stat :: StatName(s) != GreedyGroup(key).value
    ensures r.Some? ==> GreedyGroup(key) == Some(StatName(r.value))
  {
    match GreedyGroup(key)
    case None => None
    case Some(name) =>
      var r := FindStat(name, 0);
      assert r.None? ==> forall s: Stat :: StatName(s) != name by {
        if r.None? {
          forall s: Stat ensures StatName(s) != name {
            assert StatsFull[Index(s)] == s;
          }
        }
      }
      r
  }

  /** The regex and `getattr` recover each statistic from both of its keys, so the two
      tables hold exactly one entry per statistic. */
  lemma KeyStatOfKeys(s: Stat)
    ensures KeyStat(TopKey(s)) == Some(s)
    ensures KeyStat(BotKey(s)) == Some(s)
  {
    KeyGroups(s);
    var t, b := KeyStat(TopKey(s)), KeyStat(BotKey(s));
    assert t.Some? && b.Some?;
    StatNameInjective(t.value, s);
    StatNameInjective(b.value, s);
  }

  /** `re.search(r"^(.+)_", key).group(1)` read with `getattr`, for a key of the tables. */
  function StatOfKey(key: string): (s: Stat)
    requires KeyStat(key).Some?
    ensures GreedyGroup(key) == Some(StatName(s))
  {
    KeyStat(key).value
  }

  /** A limit table, indexed by the statistic that its key "<stat>_top" or "<stat>_bot"
      stands for (`KeyStatOfKeys`). */
  type Table = map<Stat, Option<real>>

  /** A table holds an entry for every statistic. */
  ghost predicate Full(t: Table)
  {
    forall s: Stat :: s in t
  }

  /** The limits enclose a feature vector: both limits of every statistic are set and the
      value lies between them. */
  ghost predicate Encloses(upper: Table, lower: Table, f: Features)
  {
    forall s: Stat :: && s in upper && s in lower && upper[s].Some? && lower[s].Some?
                      && lower[s].value <= f.Get(s) <= upper[s].value
  }

  /** `update_limits` with the `limit is None` test: every upper entry becomes the larger of
      the entry and its statistic's value, every lower entry the smaller. */
  function RaiseAll(upper: Table, f: Features): (r: Table)
    ensures r.Keys == upper.Keys
    ensures forall s :: s in r ==> r[s] == Some(Top(upper[s], f.Get(s)))
  {
    map s | s in upper :: Some(Top(upper[s], f.Get(s)))
  }

  function LowerAll(lower: Table, f: Features): (r: Table)
    ensures r.Keys == lower.Keys
    ensures forall s :: s in r ==> r[s] == Some(Bot(lower[s], f.Get(s)))
  {
    map s | s in lower :: Some(Bot(lower[s], f.Get(s)))
  }

  /** Widening full tables keeps every enclosed vector enclosed and encloses the new one. */
  lemma WidenEncloses(upper: Table, lower: Table, f: Features, g: Features)
    requires Full(upper) && Full(lower)
    ensures Encloses(RaiseAll(upper, f), LowerAll(lower, f), f)
    ensures Encloses(upper, lower, g) ==> Encloses(RaiseAll(upper, f), LowerAll(lower, f), g)
  {
  }

  // ------------------------------------------------------------ the scan on the value level

  /** What a Sample holds: its flag, its model code and its statistics. */
  datatype Rec = Rec(healthy: Flag, model: Option<int>, features: Features)

  /** The grabber state the scan changes: both sets and both limit tables. */
  datatype Book = Book(training: seq<Rec>, validation: seq<Rec>, upper: Table, lower: Table)

  /** `make_sample`: the limits widen to the sample, which joins the validation set when it
      ends on the horizon and the training set otherwise, whatever its flag. */
  function Admit(b: Book, r: Rec, day: int): (b': Book)
    ensures b'.upper == RaiseAll(b.upper, r.features) && b'.lower == LowerAll(b.lower, r.features)
    ensures day == Horizon ==> b'.validation == b.validation + [r] && b'.training == b.training
    ensures day != Horizon ==> b'.training == b.training + [r] && b'.validation == b.validation
  {
    var w := b.(upper := RaiseAll(b.upper, r.features), lower := LowerAll(b.lower, r.features));
    if day == Horizon then w.(validation := w.validation + [r]) else w.(training := w.training + [r])
  }

  /** The flag `switches_to_samples` gives a window: the negation of the failing label. */
  predicate HealthyLabel(events: seq<Event>, w: Window)
  {
    !FailingLabel(events, Horizon, w)
  }

  /** One candidate window: skipped distances and incomplete windows are ignored; any other
      window becomes a sample with its label. */
  function Visit(b: Book, sw: Switch, w: Window, len: nat, std: seq<real> -> real): (b': Book)
    requires len > 0
  {
    if w.dist in Skip || !WindowComplete(sw, w.end, len) then b
    else Admit(b, Rec(BoolFlag(HealthyLabel(sw.events, w)), ModelCode(sw.model), WindowFeatures(sw, w.end, len, std)), w.end)
  }

  function VisitAll(b: Book, sw: Switch, ws: seq<Window>, len: nat, std: seq<real> -> real): (b': Book)
    requires len > 0
    decreases |ws|
  {
    if ws == [] then b else VisitAll(Visit(b, sw, ws[0], len, std), sw, ws[1..], len, std)
  }

  /** `switches_to_samples` on one switch: all its candidate windows. */
  function ProcessSwitch(b: Book, sw: Switch, len: nat, std: seq<real> -> real): (b': Book)
    requires len > 0
  {
    VisitAll(b, sw, Candidates(EventDays(sw.events, Horizon), sw.events, Horizon, len), len, std)
  }

  /** `switches_to_samples` on a database: its switches in order. */
  function ProcessFrom(b: Book, switches: seq<Entry>, len: nat, std: seq<real> -> real): (b': Book)
    requires len > 0
    decreases |switches|
  {
    if switches == [] then b
    else ProcessFrom(ProcessSwitch(b, switches[0].switch, len, std), switches[1..], len, std)
  }

  /** The constructor's file loop: each database filtered, then scanned. */
  function ScanFiles(b: Book, dbs: seq<seq<Entry>>, len: nat, std: seq<real> -> real): Result<Book>
    requires len > 0
    decreases |dbs|
  {
    if dbs == [] then Ok(b)
    else if Stripped(dbs[0], len).Err? then Err(Stripped(dbs[0], len).fault)
    else ScanFiles(ProcessFrom(b, Stripped(dbs[0], len).value, len, std), dbs[1..], len, std)
  }

  /** The scan of the remaining event days of one switch above a floor: the windows of the
      first day, then the rest above the floor that day leaves. */
  function Rest(b: Book, sw: Switch, days: seq<int>, floor: int, len: nat, std: seq<real> -> real): (b': Book)
    requires len > 0
    decreases |days|
  {
    if days == [] then b
    else Rest(VisitAll(b, sw, DayWindows(sw.events, Horizon, len, floor, days[0]), len, std),
              sw, days[1..], NextFloor(sw.events, Horizon, len, floor, days[0]), len, std)
  }

  /** Scanning day by day visits exactly the candidate windows, in order. */
  lemma {:induction false} RestVisitsCandidates(b: Book, sw: Switch, days: seq<int>, floor: int, len: nat, std: seq<real> -> real)
    requires len > 0
    ensures Rest(b, sw, days, floor, len, std) == VisitAll(b, sw, CandidatesFrom(days, sw.events, Horizon, len, floor), len, std)
    decreases |days|
  {
    if days != [] {
      var here := DayWindows(sw.events, Horizon, len, floor, days[0]);
      var next := NextFloor(sw.events, Horizon, len, floor, days[0]);
      VisitAllAppend(b, sw, here, CandidatesFrom(days[1..], sw.events, Horizon, len, next), len, std);
      RestVisitsCandidates(VisitAll(b, sw, here, len, std), sw, days[1..], next, len, std);
    }
  }

  lemma {:induction false} VisitAllAppend(b: Book, sw: Switch, a: seq<Window>, c: seq<Window>, len: nat, std: seq<real> -> real)
    requires len > 0
    ensures VisitAll(b, sw, a + c, len, std) == VisitAll(VisitAll(b, sw, a, len, std), sw, c, len, std)
    decreases |a|
  {
    if a == [] {
      assert a + c == c;
    } else {
      assert (a + c)[0] == a[0] && (a + c)[1..] == a[1..] + c;
      VisitAllAppend(Visit(b, sw, a[0], len, std), sw, a[1..], c, len, std);
    }
  }

  /** One step of the cursor loop: the window at the cursor, then the rest of the period. */
  lemma VisitNext(b: Book, sw: Switch, cursor: int, floor: int, dist: nat, len: nat, std: seq<real> -> real)
    requires len > 0 && cursor - floor >= len
    ensures VisitAll(b, sw, Period(cursor, floor, len, dist), len, std)
            == VisitAll(Visit(b, sw, Window(cursor, dist), len, std), sw, Period(cursor - len, floor, len, dist + 1), len, std)
  {
    var p := Period(cursor - len, floor, len, dist + 1);
    assert ([Window(cursor, dist)] + p)[1..] == p;
  }

  // ------------------------------------------------------------ what the scan adds

  /** The windows of ws that become samples and end on the horizon, and those that become
      samples and end before it. */
  function OnHorizon(sw: Switch, ws: seq<Window>, len: nat): nat
  {
    if ws == [] then 0
    else (if ws[0].dist !in Skip && WindowComplete(sw, ws[0].end, len) && ws[0].end == Horizon then 1 else 0)
         + OnHorizon(sw, ws[1..], len)
  }

  function OffHorizon(sw: Switch, ws: seq<Window>, len: nat): nat
  {
    if ws == [] then 0
    else (if ws[0].dist !in Skip && WindowComplete(sw, ws[0].end, len) && ws[0].end != Horizon then 1 else 0)
         + OffHorizon(sw, ws[1..], len)
  }

  /** One window appends at most one sample: to the validation set when it is complete and
      ends on the horizon, to the training set when it is complete and ends before it. */
  lemma VisitRoutes(b: Book, sw: Switch, w: Window, len: nat, std: seq<real> -> real)
    requires len > 0
    ensures var b' := Visit(b, sw, w, len, std);
            var made := w.dist !in Skip && WindowComplete(sw, w.end, len);
            && |b'.validation| == |b.validation| + (if made && w.end == Horizon then 1 else 0)
            && |b'.training| == |b.training| + (if made && w.end != Horizon then 1 else 0)
            && b.validation <= b'.validation && b.training <= b'.training
  {
  }

  /** Visiting windows only appends: one sample per complete window, to the validation set
      exactly for the windows ending on the horizon, and to the training set for the others. */
  lemma {:induction false} VisitAllRoutes(b: Book, sw: Switch, ws: seq<Window>, len: nat, std: seq<real> -> real)
    requires len > 0
    ensures var b' := VisitAll(b, sw, ws, len, std);
            && |b'.validation| == |b.validation| + OnHorizon(sw, ws, len)
            && |b'.training| == |b.training| + OffHorizon(sw, ws, len)
            && b.validation <= b'.validation && b.training <= b'.training
    decreases |ws|
  {
    if ws != [] {
      var n := Visit(b, sw, ws[0], len, std);
      VisitRoutes(b, sw, ws[0], len, std);
      VisitAllRoutes(n, sw, ws[1..], len, std);
    }
  }

  /** A horizon window is labelled healthy exactly when the horizon day has no real event,
      any earlier one exactly when it is not the first window before its event. */
  lemma HealthyLabelRule(events: seq<Event>, w: Window)
    ensures w.end == Horizon ==> (HealthyLabel(events, w) <==> StatusOf(events, Horizon).None?)
    ensures w.end != Horizon ==> (HealthyLabel(events, w) <==> w.dist >= 1)
  {
  }

  // ------------------------------------------------------------------ normalization

  /** `(val - bot) / (top - bot)` with limits that may be None: a TypeError when either is,
      a ZeroDivisionError when they coincide. */
  function ScaleSet(v: real, top: Option<real>, bot: Option<real>): (r: Result<real>)
    ensures r.Err? <==> top.None? || bot.None? || top.value == bot.value
    ensures r.Err? ==> r.fault == if top.None? || bot.None? then TypeError else ZeroDivisionError
    ensures r.Ok? ==> r.value * (top.value - bot.value) == v - bot.value
  {
    if bot.None? || top.None? then Err(TypeError) else Scale(v, bot.value, top.value)
  }

  /** The loop of `normalize_sample` over the given statistics; the first statistic that
      cannot be scaled raises its fault. */
  function ScaledStats(f: Features, upper: Table, lower: Table,
                       stats: seq<Stat>): (r: Result<seq<Cell>>)
    requires Full(upper) && Full(lower)
    ensures r.Err? <==> exists i :: 0 <= i < |stats| && ScaleSet(f.Get(stats[i]), upper[stats[i]], lower[stats[i]]).Err?
    ensures r.Err? ==> r.fault == TypeError || r.fault == ZeroDivisionError
    ensures r.Ok? ==> |r.value| == |stats|
    ensures r.Ok? ==> forall i :: 0 <= i < |stats| ==>
                        var top, bot := upper[stats[i]].value, lower[stats[i]].value;
                        r.value[i].RealCell? && r.value[i].r * (top - bot) == f.Get(stats[i]) - bot
  {
    if stats == [] then Ok([])
    else
      var prefix := stats[..|stats| - 1];
      var init := ScaledStats(f, upper, lower, prefix);
      var s := stats[|stats| - 1];
      assert forall i :: 0 <= i < |prefix| ==> prefix[i] == stats[i];
      if init.Err? then init
      else match ScaleSet(f.Get(s), upper[s], lower[s])
        case Err(e) => Err(e)
        case Ok(v) =>
          var row := init.value + [RealCell(v)];
          assert forall i :: 0 <= i < |prefix| ==> row[i] == init.value[i];
          Ok(row)
  }

  /** The first statistic that cannot be scaled decides the fault: once a prefix of the
      statistics fails, the whole sequence fails the same way. */
  lemma {:induction false} ScaledStatsStops(f: Features, upper: Table, lower: Table, stats: seq<Stat>, n: nat)
    requires Full(upper) && Full(lower) && n <= |stats|
    requires ScaledStats(f, upper, lower, stats[..n]).Err?
    ensures ScaledStats(f, upper, lower, stats) == ScaledStats(f, upper, lower, stats[..n])
    decreases |stats| - n
  {
    if n < |stats| {
      var init := stats[..|stats| - 1];
      assert init[..n] == stats[..n];
      ScaledStatsStops(f, upper, lower, init, n);
    } else {
      assert stats[..n] == stats;
    }
  }

  /** One more statistic that scales appends its cell. */
  lemma ScaledStatsNext(f: Features, upper: Table, lower: Table, stats: seq<Stat>, n: nat, cells: seq<Cell>, v: real)
    requires Full(upper) && Full(lower) && n < |stats|
    requires ScaledStats(f, upper, lower, stats[..n]) == Ok(cells)
    requires ScaleSet(f.Get(stats[n]), upper[stats[n]], lower[stats[n]]) == Ok(v)
    ensures ScaledStats(f, upper, lower, stats[..n + 1]) == Ok(cells + [RealCell(v)])
  {
    assert stats[..n + 1][..n] == stats[..n];
  }

  /** The first statistic that does not scale ends the row with its fault. */
  lemma ScaledStatsFails(f: Features, upper: Table, lower: Table, stats: seq<Stat>, n: nat)
    requires Full(upper) && Full(lower) && n < |stats|
    requires ScaledStats(f, upper, lower, stats[..n]).Ok?
    requires ScaleSet(f.Get(stats[n]), upper[stats[n]], lower[stats[n]]).Err?
    ensures ScaledStats(f, upper, lower, stats) == Err(ScaleSet(f.Get(stats[n]), upper[stats[n]], lower[stats[n]]).fault)
  {
    assert stats[..n + 1][..n] == stats[..n];
    ScaledStatsStops(f, upper, lower, stats, n + 1);
  }

  /** `normalize_sample`: the flag as 1 or 0, the model code (an AttributeError when the
      sample never set it), then the eighteen scaled statistics in `stats_full` order. */
  function Normalized(healthy: Flag, model: Option<int>, f: Features,
                      upper: Table, lower: Table): (r: Result<seq<Cell>>)
    requires Full(upper) && Full(lower)
    ensures model.None? ==> r == Err(AttributeError)
    ensures model.Some? ==> (r.Err? <==> exists s: Stat :: ScaleSet(f.Get(s), upper[s], lower[s]).Err?)
    ensures model.Some? && r.Err? ==> r.fault == TypeError || r.fault == ZeroDivisionError
    ensures r.Ok? ==> && |r.value| == 20
                      && r.value[0] == IntCell(if healthy.Truthy() then 1 else 0)
                      && r.value[1] == IntCell(model.value)
                      && r.value[2..] == ScaledStats(f, upper, lower, StatsFull).value
  {
    StatsFullIsEnumeration();
    if model.None? then Err(AttributeError)
    else
      var cells := ScaledStats(f, upper, lower, StatsFull);
      if cells.Err? then
        assert exists s: Stat :: ScaleSet(f.Get(s), upper[s], lower[s]).Err?;
        Err(cells.fault)
      else
        forall s: Stat ensures ScaleSet(f.Get(s), upper[s], lower[s]).Ok? {
          var i := Index(s);
        }
        var row := [IntCell(if healthy.Truthy() then 1 else 0), IntCell(model.value)] + cells.value;
        assert row[2..] == cells.value;
        Ok(row)
  }

  /** Limits that enclose f scale every statistic of f into [0, 1]; nothing is None, so
      the only fault left is a ZeroDivisionError. */
  lemma {:induction false} ScaledRange(f: Features, upper: Table, lower: Table, stats: seq<Stat>)
    requires Full(upper) && Full(lower) && Encloses(upper, lower, f)
    ensures var r := ScaledStats(f, upper, lower, stats);
            && (r.Err? ==> r.fault == ZeroDivisionError)
            && (r.Ok? ==> forall i :: 0 <= i < |stats| ==> r.value[i].RealCell? && 0.0 <= r.value[i].r <= 1.0)
    decreases |stats|
  {
    var r := ScaledStats(f, upper, lower, stats);
    if stats != [] {
      var init := stats[..|stats| - 1];
      ScaledRange(f, upper, lower, init);
      var s := stats[|stats| - 1];
      var top, bot, v := upper[s].value, lower[s].value, f.Get(s);
      if r.Ok? {
        var scaled := Scale(v, bot, top);
        assert scaled.Ok? && r.value[|init|] == RealCell(scaled.value);
        ScaleRange(v, bot, top);
      }
    }
  }

  lemma NormalizedRange(healthy: Flag, model: Option<int>, f: Features,
                        upper: Table, lower: Table)
    requires Full(upper) && Full(lower) && Encloses(upper, lower, f)
    ensures var r := Normalized(healthy, model, f, upper, lower);
            && (r.Err? ==> r.fault == AttributeError || r.fault == ZeroDivisionError)
            && (r.Ok? ==> forall i :: 2 <= i < 20 ==> r.value[i].RealCell? && 0.0 <= r.value[i].r <= 1.0)
  {
    var r := Normalized(healthy, model, f, upper, lower);
    ScaledRange(f, upper, lower, StatsFull);
    if r.Ok? {
      assert forall i :: 2 <= i < 20 ==> r.value[i] == r.value[2..][i - 2];
    }
  }

  // ------------------------------------------------------------------ the grabber

  ghost function RecOf(x: Sample): Rec
    reads x
  {
    Rec(x.healthy, x.model, x.features)
  }

  ghost function Recs(xs: seq<Sample>): (rs: seq<Rec>)
    reads xs
    ensures |rs| == |xs|
  {
    if xs == [] then [] else Recs(xs[..|xs| - 1]) + [RecOf(xs[|xs| - 1])]
  }

  lemma RecsAppend(xs: seq<Sample>, x: Sample)
    ensures Recs(xs + [x]) == Recs(xs) + [RecOf(x)]
  {
    assert (xs + [x])[..|xs|] == xs;
  }

  /** The limits enclose every sample of xs. */
  ghost predicate Held(xs: seq<Sample>, upper: Table, lower: Table)
  {
    forall y :: y in xs ==> Encloses(upper, lower, y.features)
  }

  lemma HeldAppend(xs: seq<Sample>, x: Sample, upper: Table, lower: Table)
    requires Held(xs, upper, lower) && Encloses(upper, lower, x.features)
    ensures Held(xs + [x], upper, lower) == true
  {
  }

  lemma HeldPop(xs: seq<Sample>, i: nat, upper: Table, lower: Table)
    requires i < |xs| && Held(xs, upper, lower)
    ensures Held(Pop(xs, i), upper, lower) == true
    ensures Encloses(upper, lower, xs[i].features) == true
  {
  }

  /** How many samples of xs `small_set` counts as healthy (`temp.healthy == 1`). */
  ghost function HealthyCount(xs: seq<Sample>): (n: nat)
    reads xs
    ensures n <= |xs|
  {
    if xs == [] then 0 else HealthyCount(xs[..|xs| - 1]) + (if xs[|xs| - 1].healthy.IsOne() then 1 else 0)
  }

  lemma {:induction false} HealthyCountConcat(xs: seq<Sample>, ys: seq<Sample>)
    ensures HealthyCount(xs + ys) == HealthyCount(xs) + HealthyCount(ys)
    decreases |ys|
  {
    if ys == [] {
      assert xs + ys == xs;
    } else {
      var init := ys[..|ys| - 1];
      assert (xs + ys)[..|xs + ys| - 1] == xs + init;
      HealthyCountConcat(xs, init);
    }
  }

  /** One pass of the `small_set` loop over the training set t0, drawing the sample at
      `index` whose healthy test is `healthy`: t is the new training set, took what joins
      `small`, and hq, uq the quotas left. Contracts compare it with true so that the
      verifier carries it as one fact rather than as its separate conjuncts. */
  ghost predicate Drawn(t0: seq<Sample>, index: nat, healthy: bool, hq0: nat, uq0: nat,
                        t: seq<Sample>, took: seq<Sample>, hq: nat, uq: nat)
    requires index < |t0|
  {
    var x, rest := t0[index], Pop(t0, index);
    var room := if healthy then hq0 > 0 else uq0 > 0;
    && took == (if room then [x] else [])
    && t == (if room then rest else rest + [x])
    && hq == (if room && healthy then hq0 - 1 else hq0)
    && uq == (if room && !healthy then uq0 - 1 else uq0)
  }

  /** What the `small_set` loop keeps, from the training set t0 and the small set s0: the
      samples taken so far (`added`) are neither lost nor duplicated, t and sm are the
      training and small sets now, and hq, uq are what is left of the healthy and the other
      quota. Contracts compare it with true, as for Drawn. */
  ghost predicate Drawing(t0: seq<Sample>, s0: seq<Sample>, added: seq<Sample>,
                          t: seq<Sample>, sm: seq<Sample>, hq: nat, uq: nat)
    reads added
  {
    && |t| + |added| == |t0| && sm == s0 + added
    && multiset(added) + multiset(t) == multiset(t0)
    && hq <= Quota && uq <= Quota
    && HealthyCount(added) == Quota - hq && |added| - HealthyCount(added) == Quota - uq
  }

  /** One pass keeps Drawing: a drawn sample leaves the training set exactly when it
      joins the small set, and the quota of its class shrinks by one just then. */
  lemma DrawingStep(t0: seq<Sample>, s0: seq<Sample>, added: seq<Sample>, t: seq<Sample>,
                    sm: seq<Sample>, index: nat, hq0: nat, uq0: nat,
                    t': seq<Sample>, took: seq<Sample>, hq: nat, uq: nat)
    requires index < |t| && Drawing(t0, s0, added, t, sm, hq0, uq0)
    requires Drawn(t, index, t[index].healthy.IsOne(), hq0, uq0, t', took, hq, uq)
    ensures Drawing(t0, s0, added + took, t', sm + took, hq, uq) == true
  {
    var x := t[index];
    HealthyCountConcat(added, took);
    AppendAssoc(s0, added, took);
    if took == [] {
      assert added + took == added;
      assert multiset(t') == multiset(Pop(t, index)) + multiset{x};
    } else {
      assert HealthyCount(took) == if x.healthy.IsOne() then 1 else 0;
      assert multiset(added + took) == multiset(added) + multiset{x};
    }
  }

  /** The upper table once the first i statistics of `StatsFull` have risen to f. */
  ghost function RaisedTo(upper: Table, f: Features, i: nat): (r: Table)
    ensures r.Keys == upper.Keys
  {
    map s | s in upper :: if Index(s) < i then Some(Top(upper[s], f.Get(s))) else upper[s]
  }

  /** The lower table once the first i statistics of `StatsFull` have dropped to f. */
  ghost function LoweredTo(lower: Table, f: Features, i: nat): (r: Table)
    ensures r.Keys == lower.Keys
  {
    map s | s in lower :: if Index(s) < i then Some(Bot(lower[s], f.Get(s))) else lower[s]
  }

  /** Nothing has risen before the first statistic, everything after the last. */
  lemma RaisedToEnds(upper: Table, f: Features)
    ensures RaisedTo(upper, f, 0) == upper
    ensures RaisedTo(upper, f, |StatsFull|) == RaiseAll(upper, f)
  {
  }

  lemma LoweredToEnds(lower: Table, f: Features)
    ensures LoweredTo(lower, f, 0) == lower
    ensures LoweredTo(lower, f, |StatsFull|) == LowerAll(lower, f)
  {
  }

  /** Statistic i is still untouched before its step, and its step is the test of
      `update_limits` on that entry alone. */
  lemma RaisedToStep(upper: Table, f: Features, i: nat)
    requires Full(upper) && i < |StatsFull|
    ensures var s := StatsFull[i];
            && RaisedTo(upper, f, i)[s] == upper[s]
            && RaisedTo(upper, f, i + 1) == if upper[s].None? || f.Get(s) > upper[s].value
                                            then RaisedTo(upper, f, i)[s := Some(f.Get(s))]
                                            else RaisedTo(upper, f, i)
  {
    StatsFullIsEnumeration();
    assert Index(StatsFull[i]) == i;
  }

  lemma LoweredToStep(lower: Table, f: Features, i: nat)
    requires Full(lower) && i < |StatsFull|
    ensures var s := StatsFull[i];
            && LoweredTo(lower, f, i)[s] == lower[s]
            && LoweredTo(lower, f, i + 1) == if lower[s].None? || f.Get(s) < lower[s].value
                                             then LoweredTo(lower, f, i)[s := Some(f.Get(s))]
                                             else LoweredTo(lower, f, i)
  {
    StatsFullIsEnumeration();
    assert Index(StatsFull[i]) == i;
  }

  /** The first loop of `update_limits`: for the key "<stat>_top" of each statistic, the
      regex and `getattr` give the statistic back, and its entry rises to its value. */
  method RaiseLimits(upper: Table, f: Features) returns (r: Table)
    requires Full(upper)
    ensures r == RaiseAll(upper, f)
  {
    RaisedToEnds(upper, f);
    r := upper;
    for i := 0 to |StatsFull|
      invariant r == RaisedTo(upper, f, i)
    {
      KeyStatOfKeys(StatsFull[i]);
      var stat := StatOfKey(TopKey(StatsFull[i]));
      RaisedToStep(upper, f, i);
      var limit := r[stat];
      var value := f.Get(stat);
      if limit.None? || value > limit.value {
        r := r[stat := Some(value)];
      }
    }
  }

  /** The second loop of `update_limits`, over the keys "<stat>_bot". */
  method LowerLimits(lower: Table, f: Features) returns (r: Table)
    requires Full(lower)
    ensures r == LowerAll(lower, f)
  {
    LoweredToEnds(lower, f);
    r := lower;
    for i := 0 to |StatsFull|
      invariant r == LoweredTo(lower, f, i)
    {
      KeyStatOfKeys(StatsFull[i]);
      var stat := StatOfKey(BotKey(StatsFull[i]));
      LoweredToStep(lower, f, i);
      var limit := r[stat];
      var value := f.Get(stat);
      if limit.None? || value < limit.value {
        r := r[stat := Some(value)];
      }
    }
  }

  class Grabber {
    const sampleLen: nat
    /** np.std, left abstract. */
    const std: seq<real> -> real

    var training: seq<Sample>
    var validation: seq<Sample>
    var small: seq<Sample>
    var upperLimits: Table
    var lowerLimits: Table

    /** The tables keep their keys and enclose every held sample. */
    ghost predicate Valid()
      reads this
    {
      && Full(upperLimits) && Full(lowerLimits)
      && Held(training, upperLimits, lowerLimits)
      && Held(validation, upperLimits, lowerLimits)
      && Held(small, upperLimits, lowerLimits)
    }

    /** The state the scan works on, read back from the objects. */
    ghost function State(): Book
      reads this, training, validation
    {
      Book(Recs(training), Recs(validation), upperLimits, lowerLimits)
    }

    /** The fields `__init__` sets before it reads any file: empty sets and a None entry
        under every key. */
    constructor (sampleLen: nat, std: seq<real> -> real)
      ensures this.sampleLen == sampleLen && this.std == std
      ensures training == [] && validation == [] && small == []
      ensures forall s: Stat :: s in upperLimits && upperLimits[s].None?
      ensures forall s: Stat :: s in lowerLimits && lowerLimits[s].None?
      ensures Valid()
    {
      this.sampleLen := sampleLen;
      this.std := std;
      training, validation, small := [], [], [];
      upperLimits := map s | s in StatsFull :: None;
      lowerLimits := map s | s in StatsFull :: None;
      new;
      StatsFullIsEnumeration();
    }

    /** The file loop of `__init__`: each database is filtered by `grab_switches` and
        scanned by `switches_to_samples`, in order; a KeyError from `grab_switches` ends it. */
    method ReadFiles(dbs: seq<seq<Entry>>) returns (r: Result<()>)
      requires sampleLen > 0 && Valid()
      modifies this`training, this`validation, this`upperLimits, this`lowerLimits
      ensures Valid()
      ensures r.Ok? ==> ScanFiles(old(State()), dbs, sampleLen, std) == Ok(State())
      ensures r.Err? ==> ScanFiles(old(State()), dbs, sampleLen, std) == Err(r.fault)
    {
      ghost var spec := ScanFiles(State(), dbs, sampleLen, std);
      for i := 0 to |dbs|
        invariant Valid()
        invariant spec == ScanFiles(State(), dbs[i..], sampleLen, std)
      {
        assert dbs[i..][1..] == dbs[i + 1..];
        var switches := GrabSwitches(dbs[i]);
        if switches.Err? {
          return Err(switches.fault);
        }
        SwitchesToSamples(switches.value);
      }
      assert dbs[|dbs|..] == [];
      return Ok(());
    }

    /** `grab_switches`: walks the database in order, drops the juniper switches and those
        with too few readings, and deletes the name and then the site code of the others,
        raising a KeyError at the first one that lacks either. */
    method GrabSwitches(database: seq<Entry>) returns (r: Result<seq<Entry>>)
      ensures r == Stripped(database, sampleLen)
    {
      var kept: seq<Entry> := [];
      assert database[0..] == database;
      assert Stripped(database, sampleLen).Ok? ==> [] + Stripped(database, sampleLen).value == Stripped(database, sampleLen).value;
      for i := 0 to |database|
        invariant Stripped(database, sampleLen) == Prepend(kept, Stripped(database[i..], sampleLen))
      {
        assert database[i..][1..] == database[i + 1..];
        var e := database[i];
        if Keeps(e, sampleLen) {
          if e.switch.name.None? {
            return Err(KeyError);
          }
          if e.switch.site.None? {
            return Err(KeyError);
          }
          var rest := Stripped(database[i + 1..], sampleLen);
          assert rest.Ok? ==> kept + ([Strip(e).value] + rest.value) == (kept + [Strip(e).value]) + rest.value;
          kept := kept + [Entry(e.key, e.switch.(name := None, site := None))];
        }
      }
      assert database[|database|..] == [];
      assert kept + [] == kept;
      return Ok(kept);
    }

    /** `switches_to_samples`: the switches in order. */
    method SwitchesToSamples(switches: seq<Entry>)
      requires sampleLen > 0 && Valid()
      modifies this`training, this`validation, this`upperLimits, this`lowerLimits
      ensures Valid()
      ensures State() == ProcessFrom(old(State()), switches, sampleLen, std)
    {
      ghost var spec := ProcessFrom(State(), switches, sampleLen, std);
      for si := 0 to |switches|
        invariant Valid()
        invariant spec == ProcessFrom(State(), switches[si..], sampleLen, std)
      {
        assert switches[si..][1..] == switches[si + 1..];
        ScanSwitch(switches[si].switch);
      }
      assert switches[|switches|..] == [];
    }

    /** One switch of `switches_to_samples`: its event days, then the scan over them. */
    method ScanSwitch(sw: Switch)
      requires sampleLen > 0 && Valid()
      modifies this`training, this`validation, this`upperLimits, this`lowerLimits
      ensures Valid()
      ensures State() == ProcessSwitch(old(State()), sw, sampleLen, std)
    {
      var days := EventDays(sw.events, Horizon);
      RestVisitsCandidates(State(), sw, days, 0, sampleLen, std);
      ScanDays(sw, days);
    }

    /** The event-day loop of `switches_to_samples`, with `last_event_day` starting at 0:
        each day considered in increasing order. */
    method ScanDays(sw: Switch, days: seq<int>)
      requires sampleLen > 0 && Valid()
      modifies this`training, this`validation, this`upperLimits, this`lowerLimits
      ensures Valid()
      ensures State() == Rest(old(State()), sw, days, 0, sampleLen, std)
    {
      var lastEventDay := 0;
      ghost var spec := Rest(State(), sw, days, 0, sampleLen, std);
      assert days[0..] == days;
      for j := 0 to |days|
        invariant Valid()
        invariant spec == Rest(State(), sw, days[j..], lastEventDay, sampleLen, std)
      {
        assert days[j..][1..] == days[j + 1..];
        lastEventDay := ScanEventDay(sw, days[j], lastEventDay);
      }
      assert days[|days|..] == [];
    }

    /** One event day of `switches_to_samples`: for the horizon and for a "down" event the
        cursor loop steps back from the event by `sample_len` while the cursor is at least
        `sample_len` above the floor; the floor then moves to the leftover cursor, or, for any
        other event, to the event day. */
    method ScanEventDay(sw: Switch, eventDay: int, lastEventDay: int) returns (next: int)
      requires sampleLen > 0 && Valid()
      modifies this`training, this`validation, this`upperLimits, this`lowerLimits
      ensures Valid()
      ensures next == NextFloor(sw.events, Horizon, sampleLen, lastEventDay, eventDay)
      ensures State() == VisitAll(old(State()), sw, DayWindows(sw.events, Horizon, sampleLen, lastEventDay, eventDay), sampleLen, std)
    {
      if eventDay == Horizon || StatusOf(sw.events, eventDay) == Some("down") {
        next := CursorLoop(sw, eventDay, lastEventDay);
      } else {
        next := eventDay;
      }
    }

    /** The cursor loop of a scanned event day, from the event day down to the floor. */
    method CursorLoop(sw: Switch, eventDay: int, lastEventDay: int) returns (endDay: int)
      requires sampleLen > 0 && Valid()
      modifies this`training, this`validation, this`upperLimits, this`lowerLimits
      ensures Valid()
      ensures endDay == Leftover(eventDay, lastEventDay, sampleLen)
      ensures State() == VisitAll(old(State()), sw, Period(eventDay, lastEventDay, sampleLen, 0), sampleLen, std)
    {
      endDay := eventDay;
      var dist := 0;
      ghost var spec := VisitAll(State(), sw, Period(eventDay, lastEventDay, sampleLen, 0), sampleLen, std);
      while endDay - lastEventDay >= sampleLen
        invariant Valid()
        invariant Leftover(endDay, lastEventDay, sampleLen) == Leftover(eventDay, lastEventDay, sampleLen)
        invariant spec == VisitAll(State(), sw, Period(endDay, lastEventDay, sampleLen, dist), sampleLen, std)
        decreases endDay - lastEventDay
      {
        endDay, dist := ScanStep(sw, endDay, lastEventDay, dist, spec);
      }
      assert Period(endDay, lastEventDay, sampleLen, dist) == [];
    }

    /** One pass of the cursor loop: the window that ends at `endDay`. */
    method ScanStep(sw: Switch, endDay: int, lastEventDay: int, dist: nat, ghost spec: Book)
      returns (nextDay: int, nextDist: nat)
      requires sampleLen > 0 && Valid() && endDay - lastEventDay >= sampleLen
      requires spec == VisitAll(State(), sw, Period(endDay, lastEventDay, sampleLen, dist), sampleLen, std)
      modifies this`training, this`validation, this`upperLimits, this`lowerLimits
      ensures Valid()
      ensures nextDay == endDay - sampleLen && nextDist == dist + 1
      ensures Leftover(nextDay, lastEventDay, sampleLen) == Leftover(endDay, lastEventDay, sampleLen)
      ensures spec == VisitAll(State(), sw, Period(nextDay, lastEventDay, sampleLen, nextDist), sampleLen, std)
    {
      VisitNext(State(), sw, endDay, lastEventDay, dist, sampleLen, std);
      ConsiderWindow(sw, endDay, dist);
      nextDay, nextDist := endDay - sampleLen, dist + 1;
    }

    /** The body of the cursor loop for the window ending at `endDay`: skip check,
        `is_valid_sample`, the label and `make_sample`. */
    method ConsiderWindow(sw: Switch, endDay: int, dist: nat)
      requires sampleLen > 0 && Valid()
      modifies this`training, this`validation, this`upperLimits, this`lowerLimits
      ensures Valid()
      ensures State() == Visit(old(State()), sw, Window(endDay, dist), sampleLen, std)
    {
      if dist in Skip {
        return;
      }
      var valid := IsValidSample(sw, endDay, sampleLen);
      if !valid {
        return;
      }
      var healthy: bool;
      if endDay == Horizon {
        healthy := StatusOf(sw.events, endDay).None?;
      } else if dist < 1 {
        healthy := false;
      } else {
        healthy := true;
      }
      assert healthy == HealthyLabel(sw.events, Window(endDay, dist));
      MakeSample(sw, endDay, healthy);
    }

    /** `make_sample`: reads the model and the six series over [day - len, day), builds
        the sample, widens the limits and files the sample by its end day. */
    method MakeSample(sw: Switch, day: int, healthy: bool)
      requires sampleLen > 0 && WindowComplete(sw, day, sampleLen) && Valid()
      modifies this`training, this`validation, this`upperLimits, this`lowerLimits
      ensures Valid()
      ensures State() == Admit(old(State()), Rec(BoolFlag(healthy), ModelCode(sw.model), WindowFeatures(sw, day, sampleLen, std)), day)
    {
      var tempAvg := MetricWindow(sw, TempAvg, day, sampleLen);
      var tempMax := MetricWindow(sw, TempMax, day, sampleLen);
      var cpuAvg := MetricWindow(sw, CpuAvg, day, sampleLen);
      var cpuMax := MetricWindow(sw, CpuMax, day, sampleLen);
      var latencyAvg := MetricWindow(sw, LatencyAvg, day, sampleLen);
      var latencyMax := MetricWindow(sw, LatencyMax, day, sampleLen);
      var x := new Sample(healthy, sw.model, tempAvg, tempMax, cpuAvg, cpuMax, latencyAvg, latencyMax, std);
      File(x, day);
    }

    /** The filing half of `make_sample`: the limits widen to x, then x joins the validation
        set when its window ends on the horizon and the training set otherwise. */
    method File(x: Sample, day: int)
      requires Valid()
      modifies this`training, this`validation, this`upperLimits, this`lowerLimits
      ensures Valid()
      ensures State() == Admit(old(State()), RecOf(x), day)
    {
      UpdateLimits(x);
      Route(x, day);
    }

    /** Files x, which the limits already enclose, by the day its window ends. */
    method Route(x: Sample, day: int)
      requires Valid() && Encloses(upperLimits, lowerLimits, x.features)
      modifies this`training, this`validation
      ensures Valid()
      ensures day == Horizon ==> Recs(validation) == old(Recs(validation)) + [RecOf(x)] && Recs(training) == old(Recs(training))
      ensures day != Horizon ==> Recs(training) == old(Recs(training)) + [RecOf(x)] && Recs(validation) == old(Recs(validation))
      ensures RecOf(x) == old(RecOf(x))
    {
      ghost var t0, v0 := training, validation;
      if day == Horizon {
        HeldAppend(validation, x, upperLimits, lowerLimits);
        validation := validation + [x];
      } else {
        HeldAppend(training, x, upperLimits, lowerLimits);
        training := training + [x];
      }
      RecsAppend(t0, x);
      RecsAppend(v0, x);
    }

    /** `update_limits`, with the `limit is None` test: both loops over the keys, each the
        max (upper) or min (lower) of its entry and the value of its statistic. */
    method UpdateLimits(x: Sample)
      requires Valid()
      modifies this`upperLimits, this`lowerLimits
      ensures upperLimits == RaiseAll(old(upperLimits), x.features)
      ensures lowerLimits == LowerAll(old(lowerLimits), x.features)
      ensures Valid() && Encloses(upperLimits, lowerLimits, x.features)
      ensures Recs(training) == old(Recs(training)) && Recs(validation) == old(Recs(validation))
      ensures RecOf(x) == old(RecOf(x))
    {
      var upper := RaiseLimits(upperLimits, x.features);
      var lower := LowerLimits(lowerLimits, x.features);
      SetLimits(x, upper, lower);
    }

    /** The new tables of `update_limits` replace the old ones. */
    method SetLimits(x: Sample, upper: Table, lower: Table)
      requires Valid()
      requires upper == RaiseAll(upperLimits, x.features) && lower == LowerAll(lowerLimits, x.features)
      modifies this`upperLimits, this`lowerLimits
      ensures upperLimits == upper && lowerLimits == lower
      ensures Valid() && Encloses(upperLimits, lowerLimits, x.features)
      ensures Recs(training) == old(Recs(training)) && Recs(validation) == old(Recs(validation))
      ensures RecOf(x) == old(RecOf(x))
    {
      ghost var up0, low0 := upperLimits, lowerLimits;
      upperLimits, lowerLimits := upper, lower;
      WidenEncloses(up0, low0, x.features, x.features);
      forall y | y in training + validation + small
        ensures Encloses(upperLimits, lowerLimits, y.features)
      {
        WidenEncloses(up0, low0, x.features, y.features);
      }
    }

    /** `normalize_sample`: the row of x against the current limits, built cell by cell. */
    method NormalizeSample(x: Sample) returns (r: Result<seq<Cell>>)
      requires Full(upperLimits) && Full(lowerLimits)
      ensures r == Normalized(x.healthy, x.model, x.features, upperLimits, lowerLimits)
    {
      var bit := if x.healthy.Truthy() then 1 else 0;
      if x.model.None? {
        return Err(AttributeError);
      }
      var cells: seq<Cell> := [];
      for i := 0 to |StatsFull|
        invariant ScaledStats(x.features, upperLimits, lowerLimits, StatsFull[..i]) == Ok(cells)
      {
        var stat := StatsFull[i];
        var top, bot := upperLimits[stat], lowerLimits[stat];
        if bot.None? || top.None? {
          ScaledStatsFails(x.features, upperLimits, lowerLimits, StatsFull, i);
          return Err(TypeError);
        }
        if top.value == bot.value {
          ScaledStatsFails(x.features, upperLimits, lowerLimits, StatsFull, i);
          return Err(ZeroDivisionError);
        }
        var scaled := (x.features.Get(stat) - bot.value) / (top.value - bot.value);
        ScaledStatsNext(x.features, upperLimits, lowerLimits, StatsFull, i, cells, scaled);
        cells := cells + [RealCell(scaled)];
      }
      assert StatsFull[..|StatsFull|] == StatsFull;
      return Ok([IntCell(bit), IntCell(x.model.value)] + cells);
    }

    /** Every sample a valid grabber holds normalizes without a TypeError, and its scaled
        statistics lie in [0, 1]. */
    lemma HeldNormalizes(x: Sample)
      requires Valid() && x in training + validation + small
      ensures var r := Normalized(x.healthy, x.model, x.features, upperLimits, lowerLimits);
              && (r.Err? ==> r.fault == AttributeError || r.fault == ZeroDivisionError)
              && (r.Ok? ==> forall i :: 2 <= i < 20 ==> r.value[i].RealCell? && 0.0 <= r.value[i].r <= 1.0)
    {
      NormalizedRange(x.healthy, x.model, x.features, upperLimits, lowerLimits);
    }

    /** One pass of the `small_set` loop: the sample at `index` is popped; it joins `small`
        when its quota (healthy or not) is left, which uses one unit of that quota, and goes
        back to the end of the training set otherwise. */
    method Draw(index: nat, healthyQuota: nat, unhealthyQuota: nat,
                ghost t0: seq<Sample>, ghost s0: seq<Sample>, ghost added: seq<Sample>)
      returns (hq: nat, uq: nat, ghost took: seq<Sample>)
      requires Valid() && index < |training|
      requires Drawing(t0, s0, added, training, small, healthyQuota, unhealthyQuota)
      modifies this`training, this`small
      ensures Valid()
      ensures small == old(small) + took
      ensures Drawn(old(training), index, old(training)[index].healthy.IsOne(), healthyQuota, unhealthyQuota,
                    training, took, hq, uq) == true
      ensures Drawing(t0, s0, added + took, training, small, hq, uq) == true
    {
      var temp := training[index];
      HeldPop(training, index, upperLimits, lowerLimits);
      var rest := Pop(training, index);
      hq, uq := healthyQuota, unhealthyQuota;
      if temp.healthy.IsOne() {
        if healthyQuota > 0 {
          HeldAppend(small, temp, upperLimits, lowerLimits);
          training, small, took := rest, small + [temp], [temp];
          hq := healthyQuota - 1;
        } else {
          HeldAppend(rest, temp, upperLimits, lowerLimits);
          training, took := rest + [temp], [];
        }
      } else {
        if unhealthyQuota > 0 {
          HeldAppend(small, temp, upperLimits, lowerLimits);
          training, small, took := rest, small + [temp], [temp];
          uq := unhealthyQuota - 1;
        } else {
          HeldAppend(rest, temp, upperLimits, lowerLimits);
          training, took := rest + [temp], [];
        }
      }
      DrawingStep(t0, s0, added, old(training), old(small), index, healthyQuota, unhealthyQuota,
                  training, took, hq, uq);
    }

    /** `small_set`: pops training samples at arbitrary positions below `size`, which starts
        at one less than the training count and drops by one per pop (randrange over an
        empty range is a ValueError); a healthy one joins `small` while the healthy quota
        lasts and any other while the other quota lasts, and a sample whose quota is spent
        goes back to the end of the training set. The loop ends when both quotas are spent.
        No sample is lost or duplicated, and `small` gains at most 5000 of each class,
        exactly 5000 of each on success, which needs more than 10000 training samples. */
    method SmallSet() returns (r: Result<()>, ghost added: seq<Sample>)
      requires Valid()
      modifies this`training, this`small
      ensures Valid()
      ensures small == old(small) + added
      ensures multiset(added) + multiset(training) == multiset(old(training))
      ensures HealthyCount(added) <= Quota && |added| - HealthyCount(added) <= Quota
      ensures r.Err? ==> r.fault == ValueError
      ensures r.Ok? ==> HealthyCount(added) == Quota && |added| == 2 * Quota
      ensures r.Ok? ==> |old(training)| > 2 * Quota
    {
      ghost var t0, s0 := training, small;
      var size: int := |training| - 1;
      var healthyQuota, unhealthyQuota := Quota, Quota;
      added := [];
      ghost var pops: nat := 0;
      while healthyQuota > 0 || unhealthyQuota > 0
        invariant 0 <= healthyQuota <= Quota && 0 <= unhealthyQuota <= Quota
        invariant size == |t0| - 1 - pops && |added| <= pops && (pops > 0 ==> size >= 0)
        invariant Drawing(t0, s0, added, training, small, healthyQuota, unhealthyQuota) == true
        invariant Valid()
        decreases size
      {
        if size <= 0 {
          return Err(ValueError), added;
        }
        var index :| 0 <= index < size;
        ghost var took;
        healthyQuota, unhealthyQuota, took := Draw(index, healthyQuota, unhealthyQuota, t0, s0, added);
        added := added + took;
        size, pops := size - 1, pops + 1;
      }
      return Ok(()), added;
    }
  }
}
