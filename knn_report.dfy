/** The result file of the k-sweep in v0.1/analyzing/KNN.py and what is computed from it.

    pick_k hands its four confusion vectors to results_to_file. That function appends four rows
    labelled `"Samples {start}-{end} Inclusive: TP"` (then TN, FP and FN), each followed by one
    count per k. read_results reads such a file back. It parses the sample range out of every
    label with the regular expressions `(\d+)-` and `-(\d+)`. It adds each row's first k_range
    values into the vector that the tag in the label names, and it adds `end - start + 1` to the
    sample total once per TP row. calculate_performance turns the vectors into accuracy,
    precision, recall and F1 per k, and keeps the first k that reaches the best value of each. */
module KnnReport {
  import opened Wrappers
  import Sweep
  import Text
  import Seqs

  /** The label `f"Samples {start}-{end} Inclusive: {tag}"`. */
  function TagLabel(start: int, end: int, tag: string): string
  {
    Sweep.RangeLabel(start, end) + ": " + tag
  }

  /** The four rows that results_to_file appends to the results file. */
  function ResultsToFile(tp: seq<int>, tn: seq<int>, fp: seq<int>, fn: seq<int>, start: int, end: int): seq<Sweep.ResultRow>
  {
    [Sweep.ResultRow(TagLabel(start, end, Name(TP)), tp), Sweep.ResultRow(TagLabel(start, end, Name(TN)), tn),
     Sweep.ResultRow(TagLabel(start, end, Name(FP)), fp), Sweep.ResultRow(TagLabel(start, end, Name(FN)), fn)]
  }

  /** What read_results returns: the four summed vectors and the number of samples. */
  datatype Summary = Summary(tp: seq<int>, tn: seq<int>, fp: seq<int>, fn: seq<int>, total: int)

  predicate Sized(s: Summary, n: nat)
  {
    |s.tp| == n && |s.tn| == n && |s.fp| == n && |s.fn| == n
  }

  /** `int(re.findall(...)[0])` for both patterns: an empty findall raises IndexError. */
  function RangeOf(details: string): Result<(int, int)>
  {
    var first := Text.MatchBeforeDash(details);
    var last := Text.MatchAfterDash(details);
    if first.None? || last.None? then Err(IndexError)
    else Ok((Text.DigitsValue(first.value), Text.DigitsValue(last.value)))
  }

  /** The four cells of the confusion matrix. A positive is a failing sample (label 0). */
  datatype Tally = TP | TN | FP | FN

  function Name(t: Tally): string
  {
    match t
    case TP => "TP"
    case TN => "TN"
    case FP => "FP"
    case FN => "FN"
  }

  /** The branch of read_results' if/elif chain that a label takes, if any. */
  function TagOf(details: string): Option<Tally>
  {
    if Text.Contains(details, "TP") then Some(TP)
    else if Text.Contains(details, "TN") then Some(TN)
    else if Text.Contains(details, "FP") then Some(FP)
    else if Text.Contains(details, "FN") then Some(FN)
    else None
  }

  /** The vector named t with vs added to it; a TP row also counts its samples. */
  function Credit(s: Summary, t: Tally, vs: seq<int>, count: int): (r: Summary)
    ensures |r.tp| == |s.tp| && |r.tn| == |s.tn| && |r.fp| == |s.fp| && |r.fn| == |s.fn|
  {
    match t
    case TP => s.(tp := Sweep.AddVec(s.tp, vs), total := s.total + count)
    case TN => s.(tn := Sweep.AddVec(s.tn, vs))
    case FP => s.(fp := Sweep.AddVec(s.fp, vs))
    case FN => s.(fn := Sweep.AddVec(s.fn, vs))
  }

  /** One row of read_results' loop. A row with fewer than k_range values raises IndexError,
      and a row with no tag changes nothing (its label is still parsed). */
  function Absorb(s: Summary, row: Sweep.ResultRow, n: nat): (r: Result<Summary>)
    requires Sized(s, n)
    ensures r.Ok? ==> Sized(r.value, n)
  {
    match RangeOf(row.details)
    case Err(f) => Err(f)
    case Ok(range) =>
      match TagOf(row.details)
      case None => Ok(s)
      case Some(t) =>
        if |row.values| < n then Err(IndexError)
        else Ok(Credit(s, t, row.values[..n], range.1 - range.0 + 1))
  }

  function Blank(n: nat): (s: Summary)
    ensures Sized(s, n)
  {
    Summary(Sweep.Zeros(n), Sweep.Zeros(n), Sweep.Zeros(n), Sweep.Zeros(n), 0)
  }

  /** read_results(rows, k_range) as a value: the rows absorbed in file order. */
  function Aggregate(rows: seq<Sweep.ResultRow>, k: int): (r: Result<Summary>)
    ensures r.Ok? ==> Sized(r.value, Seqs.Clamp(k))
    decreases |rows|
  {
    if rows == [] then Ok(Blank(Seqs.Clamp(k)))
    else
      match Aggregate(rows[..|rows| - 1], k)
      case Err(f) => Err(f)
      case Ok(s) => Absorb(s, rows[|rows| - 1], Seqs.Clamp(k))
  }

  lemma AggregateSnoc(rows: seq<Sweep.ResultRow>, row: Sweep.ResultRow, k: int)
    ensures Aggregate(rows + [row], k) ==
      match Aggregate(rows, k)
      case Err(f) => Err(f)
      case Ok(s) => Absorb(s, row, Seqs.Clamp(k))
  {
    assert (rows + [row])[..|rows|] == rows;
  }

  /** read_results over a file that holds several runs adds the runs up: reading xs + ys is
      reading ys on top of what xs gave. */
  function AbsorbAll(s: Summary, rows: seq<Sweep.ResultRow>, n: nat): (r: Result<Summary>)
    requires Sized(s, n)
    ensures r.Ok? ==> Sized(r.value, n)
    decreases |rows|
  {
    if rows == [] then Ok(s)
    else
      match AbsorbAll(s, rows[..|rows| - 1], n)
      case Err(f) => Err(f)
      case Ok(t) => Absorb(t, rows[|rows| - 1], n)
  }

  lemma {:induction false} AggregateAppend(xs: seq<Sweep.ResultRow>, ys: seq<Sweep.ResultRow>, k: int)
    ensures Aggregate(xs + ys, k) ==
      match Aggregate(xs, k)
      case Err(f) => Err(f)
      case Ok(s) => AbsorbAll(s, ys, Seqs.Clamp(k))
    decreases |ys|
  {
    if ys == [] {
      assert xs + ys == xs;
    } else {
      var n := |ys| - 1;
      AggregateAppend(xs, ys[..n], k);
      assert xs + ys == (xs + ys[..n]) + [ys[n]];
      AggregateSnoc(xs + ys[..n], ys[n], k);
    }
  }

  /** read_results as written: four arrays of k_range zeros and a running total, updated in
      place row by row. */
  method ReadResults(rows: seq<Sweep.ResultRow>, k: int) returns (r: Result<Summary>)
    ensures r == Aggregate(rows, k)
  {
    var n := Seqs.Clamp(k);
    var tp := new int[n](_ => 0);
    var tn := new int[n](_ => 0);
    var fp := new int[n](_ => 0);
    var fn := new int[n](_ => 0);
    var total := 0;
    assert Summary(tp[..], tn[..], fp[..], fn[..], total) == Blank(n);
    for i := 0 to |rows|
      invariant Aggregate(rows[..i], k) == Ok(Summary(tp[..], tn[..], fp[..], fn[..], total))
    {
      AggregateStep(rows, i, k);
      var failed;
      failed, total := ReadRow(rows[i], n, tp, tn, fp, fn, total);
      if failed {
        AggregateFails(rows, i + 1, k);
        return Err(IndexError);
      }
    }
    assert rows[..|rows|] == rows;
    return Ok(Summary(tp[..], tn[..], fp[..], fn[..], total));
  }

  /** The body of read_results' loop for one row. */
  method ReadRow(row: Sweep.ResultRow, n: nat, tp: array<int>, tn: array<int>, fp: array<int>, fn: array<int>, total: int)
      returns (failed: bool, total': int)
    requires tp.Length == n && tn.Length == n && fp.Length == n && fn.Length == n
    requires tp != tn && tp != fp && tp != fn && tn != fp && tn != fn && fp != fn
    modifies tp, tn, fp, fn
    ensures Absorb(Summary(old(tp[..]), old(tn[..]), old(fp[..]), old(fn[..]), total), row, n) ==
      if failed then Err(IndexError) else Ok(Summary(tp[..], tn[..], fp[..], fn[..], total'))
  {
    total' := total;
    var details := row.details;
    var first := Text.MatchBeforeDash(details);
    var last := Text.MatchAfterDash(details);
    if first.None? || last.None? {
      return true, total';
    }
    var values := row.values;
    if Text.Contains(details, "TP") {
      if |values| < n {
        return true, total';
      }
      Sweep.Accumulate(tp, values[..n]);
      total' := total + Text.DigitsValue(last.value) - Text.DigitsValue(first.value) + 1;
    } else if Text.Contains(details, "TN") {
      if |values| < n {
        return true, total';
      }
      Sweep.Accumulate(tn, values[..n]);
    } else if Text.Contains(details, "FP") {
      if |values| < n {
        return true, total';
      }
      Sweep.Accumulate(fp, values[..n]);
    } else if Text.Contains(details, "FN") {
      if |values| < n {
        return true, total';
      }
      Sweep.Accumulate(fn, values[..n]);
    }
    return false, total';
  }

  lemma AggregateStep(rows: seq<Sweep.ResultRow>, i: nat, k: int)
    requires i < |rows|
    ensures Aggregate(rows[..i + 1], k) ==
      match Aggregate(rows[..i], k)
      case Err(f) => Err(f)
      case Ok(s) => Absorb(s, rows[i], Seqs.Clamp(k))
  {
    assert rows[..i + 1][..i] == rows[..i];
  }

  /** Once a row has raised IndexError, reading the rest changes nothing. */
  lemma {:induction false} AggregateFails(rows: seq<Sweep.ResultRow>, j: nat, k: int)
    requires j <= |rows| && Aggregate(rows[..j], k) == Err(IndexError)
    ensures Aggregate(rows, k) == Err(IndexError)
    decreases |rows| - j
  {
    if j == |rows| {
      assert rows[..j] == rows;
    } else {
      AggregateStep(rows, j, k);
      AggregateFails(rows, j + 1, k);
    }
  }

  lemma LabelParts(start: nat, end: nat, tag: string)
    ensures TagLabel(start, end, tag) ==
      "Samples " + (Text.NatString(start) + ("-" + (Text.NatString(end) + (" Inclusive: " + tag))))
  {
    var a, b := Text.NatString(start), Text.NatString(end);
    calc {
      TagLabel(start, end, tag);
      "Samples " + a + "-" + b + " Inclusive" + ": " + tag;
      { Seqs.AppendAssoc(" Inclusive", ": ", tag); }
      "Samples " + a + "-" + b + (" Inclusive: " + tag);
    }
    Seqs.AppendAssoc("Samples " + a + "-", b, " Inclusive: " + tag);
    Seqs.AppendAssoc("Samples " + a, "-", b + (" Inclusive: " + tag));
    Seqs.AppendAssoc("Samples ", a, "-" + (b + (" Inclusive: " + tag)));
  }

  /** `(\d+)-` finds the first number of a label. */
  lemma FirstNumber(a: string, rest: string)
    requires |a| > 0 && Text.AllDigits(a) && rest != [] && rest[0] == '-'
    ensures Text.MatchBeforeDash("Samples " + (a + rest)) == Some(a)
  {
    Text.BeforeDashSkips("Samples ", a + rest);
    Text.DigitRunOf(a, rest);
    assert (a + rest)[..|a|] == a;
  }

  /** `-(\d+)` at a dash followed by a number takes that whole number. */
  lemma DashNumber(b: string, rest: string)
    requires |b| > 0 && Text.AllDigits(b) && rest != [] && !Text.IsDigit(rest[0])
    ensures Text.MatchAfterDash("-" + (b + rest)) == Some(b)
  {
    var t := "-" + (b + rest);
    assert t[0] == '-' && |t| >= 2;
    assert t[1..] == b + rest;
    assert t[1] == b[0];
    assert Text.IsDigit(b[0]);
    Text.DigitRunOf(b, rest);
    assert Text.DigitRun(t[1..]) == |b|;
    assert t[1..1 + |b|] == b;
  }

  /** `-(\d+)` finds the number after the first dash. */
  lemma SecondNumber(p: string, b: string, rest: string)
    requires forall i :: 0 <= i < |p| ==> p[i] != '-'
    requires |b| > 0 && Text.AllDigits(b) && rest != [] && !Text.IsDigit(rest[0])
    ensures Text.MatchAfterDash(p + ("-" + (b + rest))) == Some(b)
  {
    Text.AfterDashSkips(p, "-" + (b + rest));
    DashNumber(b, rest);
  }

  /** The two regular expressions recover start and end from a label that results_to_file
      wrote, for sample numbers that are not negative. */
  lemma LabelRange(start: nat, end: nat, tag: string)
    ensures RangeOf(TagLabel(start, end, tag)) == Ok((start, end))
  {
    var a, b := Text.NatString(start), Text.NatString(end);
    var rest := " Inclusive: " + tag;
    LabelParts(start, end, tag);
    FirstNumber(a, "-" + (b + rest));
    Seqs.AppendAssoc("Samples ", a, "-" + (b + rest));
    assert forall i :: 0 <= i < |"Samples " + a| ==> ("Samples " + a)[i] != '-' by {
      forall i | 0 <= i < |"Samples " + a| ensures ("Samples " + a)[i] != '-' {
        if i >= 8 {
          assert ("Samples " + a)[i] == a[i - 8] && Text.IsDigit(a[i - 8]);
        }
      }
    }
    SecondNumber("Samples " + a, b, rest);
    Text.NatStringRoundTrip(start);
    Text.NatStringRoundTrip(end);
  }

  lemma PrefixPlain(start: nat, end: nat)
    ensures forall i :: 0 <= i < |Sweep.RangeLabel(start, end) + ": "| ==>
      (Sweep.RangeLabel(start, end) + ": ")[i] != 'T' && (Sweep.RangeLabel(start, end) + ": ")[i] != 'F'
  {
    var a, b := Text.NatString(start), Text.NatString(end);
    var p := Sweep.RangeLabel(start, end) + ": ";
    assert p == "Samples " + a + "-" + b + " Inclusive" + ": ";
    forall i | 0 <= i < |p| ensures p[i] != 'T' && p[i] != 'F' {
      if i < 8 {
      } else if i < 8 + |a| {
        assert p[i] == a[i - 8];
        assert Text.IsDigit(a[i - 8]);
      } else if i == 8 + |a| {
      } else if i < 9 + |a| + |b| {
        assert p[i] == b[i - 9 - |a|];
        assert Text.IsDigit(b[i - 9 - |a|]);
      } else {
        assert p[i] == (" Inclusive" + ": ")[i - 9 - |a| - |b|];
      }
    }
  }

  lemma NameContains(t: Tally, u: Tally)
    ensures Text.Contains(Name(t), Name(u)) == (t == u)
  {
    assert Name(t)[1..] == [Name(t)[1]];
  }

  /** A label written for tag t takes the branch for t. */
  lemma LabelTag(start: nat, end: nat, t: Tally)
    ensures TagOf(TagLabel(start, end, Name(t))) == Some(t)
  {
    var p := Sweep.RangeLabel(start, end) + ": ";
    PrefixPlain(start, end);
    Text.ContainsSkips(p, Name(t), "TP");
    Text.ContainsSkips(p, Name(t), "TN");
    Text.ContainsSkips(p, Name(t), "FP");
    Text.ContainsSkips(p, Name(t), "FN");
    NameContains(t, TP);
    NameContains(t, TN);
    NameContains(t, FP);
    NameContains(t, FN);
  }

  lemma AddVecZeros(vs: seq<int>)
    ensures Sweep.AddVec(Sweep.Zeros(|vs|), vs) == vs
  {
  }

  /** read_results on one row that results_to_file wrote for tag t. */
  lemma AbsorbLabel(s: Summary, start: nat, end: nat, t: Tally, values: seq<int>, n: nat)
    requires Sized(s, n) && n <= |values|
    ensures Absorb(s, Sweep.ResultRow(TagLabel(start, end, Name(t)), values), n) ==
      Ok(Credit(s, t, values[..n], end - start + 1))
  {
    LabelRange(start, end, Name(t));
    LabelTag(start, end, t);
  }

  /** read_results on one more row that results_to_file wrote for tag t. */
  lemma AbsorbWritten(rows: seq<Sweep.ResultRow>, k: int, s: Summary, t: Tally, values: seq<int>, start: nat, end: nat)
    requires Aggregate(rows, k) == Ok(s) && Seqs.Clamp(k) <= |values|
    ensures Aggregate(rows + [Sweep.ResultRow(TagLabel(start, end, Name(t)), values)], k) ==
      Ok(Credit(s, t, values[..Seqs.Clamp(k)], end - start + 1))
  {
    AggregateSnoc(rows, Sweep.ResultRow(TagLabel(start, end, Name(t)), values), k);
    AbsorbLabel(s, start, end, t, values, Seqs.Clamp(k));
  }

  lemma CreditFour(tp: seq<int>, tn: seq<int>, fp: seq<int>, fn: seq<int>, n: nat, c: int)
    requires n <= |tp| && n <= |tn| && n <= |fp| && n <= |fn|
    ensures Credit(Credit(Credit(Credit(Blank(n), TP, tp[..n], c), TN, tn[..n], c), FP, fp[..n], c), FN, fn[..n], c)
      == Summary(tp[..n], tn[..n], fp[..n], fn[..n], c)
  {
    AddVecZeros(tp[..n]);
    AddVecZeros(tn[..n]);
    AddVecZeros(fp[..n]);
    AddVecZeros(fn[..n]);
  }

  /** Reading back one run of results_to_file gives its four vectors, cut to k_range, and
      `end - start + 1` samples. */
  lemma ReadBack(tp: seq<int>, tn: seq<int>, fp: seq<int>, fn: seq<int>, start: nat, end: nat, k: int)
    requires Seqs.Clamp(k) <= |tp| && Seqs.Clamp(k) <= |tn| && Seqs.Clamp(k) <= |fp| && Seqs.Clamp(k) <= |fn|
    ensures Aggregate(ResultsToFile(tp, tn, fp, fn, start, end), k) ==
      Ok(Summary(tp[..Seqs.Clamp(k)], tn[..Seqs.Clamp(k)], fp[..Seqs.Clamp(k)], fn[..Seqs.Clamp(k)], end - start + 1))
  {
    var n := Seqs.Clamp(k);
    WrittenRows(tp, tn, fp, fn, start, end, k);
    CreditFour(tp, tn, fp, fn, n, end - start + 1);
  }

  /** The four rows of results_to_file, read back one after the other. */
  lemma WrittenRows(tp: seq<int>, tn: seq<int>, fp: seq<int>, fn: seq<int>, start: nat, end: nat, k: int)
    requires Seqs.Clamp(k) <= |tp| && Seqs.Clamp(k) <= |tn| && Seqs.Clamp(k) <= |fp| && Seqs.Clamp(k) <= |fn|
    ensures var n, c := Seqs.Clamp(k), end - start + 1;
      Aggregate(ResultsToFile(tp, tn, fp, fn, start, end), k) ==
      Ok(Credit(Credit(Credit(Credit(Blank(n), TP, tp[..n], c), TN, tn[..n], c), FP, fp[..n], c), FN, fn[..n], c))
  {
    var n, c := Seqs.Clamp(k), end - start + 1;
    var s1 := Credit(Blank(n), TP, tp[..n], c);
    var s2 := Credit(s1, TN, tn[..n], c);
    var s3 := Credit(s2, FP, fp[..n], c);
    var r0: seq<Sweep.ResultRow> := [];
    var r1 := r0 + [Sweep.ResultRow(TagLabel(start, end, Name(TP)), tp)];
    var r2 := r1 + [Sweep.ResultRow(TagLabel(start, end, Name(TN)), tn)];
    var r3 := r2 + [Sweep.ResultRow(TagLabel(start, end, Name(FP)), fp)];
    AbsorbWritten(r0, k, Blank(n), TP, tp, start, end);
    AbsorbWritten(r1, k, s1, TN, tn, start, end);
    AbsorbWritten(r2, k, s2, FP, fp, start, end);
    AbsorbWritten(r3, k, s3, FN, fn, start, end);
    assert r3 + [Sweep.ResultRow(TagLabel(start, end, Name(FN)), fn)] == ResultsToFile(tp, tn, fp, fn, start, end);
  }

  /** Accuracy, precision, recall and F1 for one k, with None where calculate_performance has
      None. */
  datatype Metric = Metric(accuracy: real, precision: Option<real>, recall: Option<real>, f1: Option<real>)

  /** Python's truth value of a float that may be None: None and 0.0 are false. */
  predicate Truthy(x: Option<real>)
  {
    x.Some? && x.value != 0.0
  }

  /** Precision (b = false positives) or recall (b = false negatives): None when both counts
      are 0, otherwise the share of a in a + b. */
  function Rate(a: int, b: int): (r: Result<Option<real>>)
    ensures r == Ok(None) <==> a == 0 && b == 0
    ensures a >= 0 && b >= 0 ==> r.Ok? && (r.value.Some? ==> 0.0 <= r.value.value <= 1.0)
    ensures a > 0 && b >= 0 ==> r.Ok? && Truthy(r.value)
  {
    if a == 0 && b == 0 then Ok(None)
    else if a + b == 0 then Err(ZeroDivisionError)
    else
      RateBounds(a, b);
      Ok(Some(a as real / (a + b) as real))
  }

  lemma RateBounds(a: int, b: int)
    ensures a >= 0 && b >= 0 && a + b != 0 ==> 0.0 <= a as real / (a + b) as real <= 1.0
  {
    if a >= 0 && b >= 0 && a + b != 0 {
      Seqs.QuotientBounds(a as real, (a + b) as real, 0.0, 1.0);
    }
  }

  /** F1 `2 * ((p * r) / (p + r))`, computed only when both p and r are true. */
  function F1(p: Option<real>, r: Option<real>): (f: Result<Option<real>>)
    ensures f.Ok? && f.value.Some? ==> Truthy(p) && Truthy(r)
    ensures !Truthy(p) || !Truthy(r) ==> f == Ok(None)
  {
    if Truthy(p) && Truthy(r) then
      if p.value + r.value == 0.0 then Err(ZeroDivisionError)
      else Ok(Some(HarmonicMean(p.value, r.value)))
    else Ok(None)
  }

  function HarmonicMean(p: real, r: real): real
    requires p + r != 0.0
  {
    2.0 * ((p * r) / (p + r))
  }

  /** F1 of a precision and a recall in (0, 1] is in (0, 1] as well. */
  lemma HarmonicBounds(p: real, r: real)
    requires 0.0 < p <= 1.0 && 0.0 < r <= 1.0
    ensures 0.0 < HarmonicMean(p, r) <= 1.0
  {
    var s := p + r;
    var q := (p * r) / s;
    assert p * r <= r by { assert r * (1.0 - p) >= 0.0; }
    assert p * r <= p by { assert p * (1.0 - r) >= 0.0; }
    assert q * s == p * r;
    assert p * r > 0.0;
    Seqs.QuotientBounds(p * r, s, 0.0, 0.5);
  }

  /** The body of calculate_performance's loop for index i, with its exceptions in the order
      the source meets them: reading tp[i] and tn[i], dividing by total_samples, reading fp[i],
      dividing for precision, reading fn[i], dividing for recall, dividing for F1. */
  function MetricAt(tp: seq<int>, tn: seq<int>, fp: seq<int>, fn: seq<int>, total: int, i: nat): Result<Metric>
  {
    if i >= |tp| || i >= |tn| then Err(IndexError)
    else if total == 0 then Err(ZeroDivisionError)
    else if i >= |fp| then Err(IndexError)
    else
      match Rate(tp[i], fp[i])
      case Err(f) => Err(f)
      case Ok(precision) =>
        if i >= |fn| then Err(IndexError)
        else
          match Rate(tp[i], fn[i])
          case Err(f) => Err(f)
          case Ok(recall) =>
            match F1(precision, recall)
            case Err(f) => Err(f)
            case Ok(f1) => Ok(Metric((tp[i] + tn[i]) as real / total as real, precision, recall, f1))
  }

  /** The metrics of the first m indices, or the first exception. */
  function Metrics(tp: seq<int>, tn: seq<int>, fp: seq<int>, fn: seq<int>, total: int, m: nat): (r: Result<seq<Metric>>)
    ensures r.Ok? ==> |r.value| == m
  {
    if m == 0 then Ok([])
    else
      match Metrics(tp, tn, fp, fn, total, m - 1)
      case Err(f) => Err(f)
      case Ok(ms) =>
        match MetricAt(tp, tn, fp, fn, total, m - 1)
        case Err(f) => Err(f)
        case Ok(x) => Ok(ms + [x])
  }

  /** With non-negative counts for each k and a non-zero total, every metric exists, precision
      and recall lie in [0, 1] and F1 in (0, 1]. */
  lemma {:induction false} MetricsDefined(tp: seq<int>, tn: seq<int>, fp: seq<int>, fn: seq<int>, total: int, m: nat)
    requires m <= |tp| && m <= |tn| && m <= |fp| && m <= |fn| && total != 0
    requires forall i :: 0 <= i < m ==> tp[i] >= 0 && fp[i] >= 0 && fn[i] >= 0
    ensures Metrics(tp, tn, fp, fn, total, m).Ok?
    ensures forall i :: 0 <= i < m ==> var x := Metrics(tp, tn, fp, fn, total, m).value[i];
      (x.precision.Some? ==> 0.0 <= x.precision.value <= 1.0) && (x.recall.Some? ==> 0.0 <= x.recall.value <= 1.0) &&
      (x.f1.Some? ==> 0.0 < x.f1.value <= 1.0)
  {
    if m > 0 {
      MetricsDefined(tp, tn, fp, fn, total, m - 1);
      var i := m - 1;
      var p, r := Rate(tp[i], fp[i]), Rate(tp[i], fn[i]);
      if Truthy(p.value) && Truthy(r.value) {
        assert p.value.value > 0.0 && r.value.value > 0.0;
        assert p.value.value + r.value.value != 0.0;
        HarmonicBounds(p.value.value, r.value.value);
      }
    }
  }

  /** An arg-max of calculate_performance: the best value seen and its 1-based k, 0 for none. */
  datatype Best = Best(value: real, k: nat)

  /** The running best over the scores: it starts at 0 with k = 0 and moves only on a strictly
      larger score, so it is the first strict maximum, and k stays 0 when no score is positive. */
  function BestOf(scores: seq<real>): (b: Best)
    ensures b.value >= 0.0 && b.k <= |scores|
    ensures forall j :: 0 <= j < |scores| ==> scores[j] <= b.value
    ensures b.k == 0 <==> b.value == 0.0
    ensures b.k > 0 ==> scores[b.k - 1] == b.value && forall j :: 0 <= j < b.k - 1 ==> scores[j] < b.value
    decreases |scores|
  {
    if scores == [] then Best(0.0, 0)
    else
      var b := BestOf(scores[..|scores| - 1]);
      var x := scores[|scores| - 1];
      if x > b.value then Best(x, |scores|) else b
  }

  lemma BestStep(scores: seq<real>, x: real)
    ensures BestOf(scores + [x]) == if x > BestOf(scores).value then Best(x, |scores| + 1) else BestOf(scores)
  {
    assert (scores + [x])[..|scores|] == scores;
  }

  /** A score that may be None enters the running best only when it is true and larger; as the
      best is never negative, that is the same as counting None as 0. */
  function Score(x: Option<real>): real
  {
    if x.Some? then x.value else 0.0
  }

  lemma ScoreGate(x: Option<real>, best: real)
    requires best >= 0.0
    ensures (Truthy(x) && x.value > best) == (Score(x) > best)
  {
  }

  function Accuracies(ms: seq<Metric>): seq<real>
  {
    seq(|ms|, i requires 0 <= i < |ms| => ms[i].accuracy)
  }

  function Precisions(ms: seq<Metric>): seq<real>
  {
    seq(|ms|, i requires 0 <= i < |ms| => Score(ms[i].precision))
  }

  function Recalls(ms: seq<Metric>): seq<real>
  {
    seq(|ms|, i requires 0 <= i < |ms| => Score(ms[i].recall))
  }

  function F1s(ms: seq<Metric>): seq<real>
  {
    seq(|ms|, i requires 0 <= i < |ms| => Score(ms[i].f1))
  }

  /** What calculate_performance prints: the best k for each of the four metrics. */
  datatype Performance = Performance(accuracy: Best, precision: Best, recall: Best, f1: Best)

  function Assess(tp: seq<int>, tn: seq<int>, fp: seq<int>, fn: seq<int>, total: int, k: int): Result<Performance>
  {
    match Metrics(tp, tn, fp, fn, total, Seqs.Clamp(k))
    case Err(f) => Err(f)
    case Ok(ms) => Ok(Performance(BestOf(Accuracies(ms)), BestOf(Precisions(ms)), BestOf(Recalls(ms)), BestOf(F1s(ms))))
  }

  lemma ScoresSnoc(ms: seq<Metric>, x: Metric)
    ensures Accuracies(ms + [x]) == Accuracies(ms) + [x.accuracy]
    ensures Precisions(ms + [x]) == Precisions(ms) + [Score(x.precision)]
    ensures Recalls(ms + [x]) == Recalls(ms) + [Score(x.recall)]
    ensures F1s(ms + [x]) == F1s(ms) + [Score(x.f1)]
  {
  }

  /** Once an index has raised, the later ones are never reached. */
  lemma {:induction false} MetricsFail(tp: seq<int>, tn: seq<int>, fp: seq<int>, fn: seq<int>, total: int, j: nat, m: nat)
    requires j <= m && Metrics(tp, tn, fp, fn, total, j).Err?
    ensures Metrics(tp, tn, fp, fn, total, m) == Metrics(tp, tn, fp, fn, total, j)
    decreases m - j
  {
    if m > j {
      MetricsFail(tp, tn, fp, fn, total, j, m - 1);
    }
  }

  /** calculate_performance as written: one pass over k, keeping the four running bests. */
  method CalculatePerformance(tp: seq<int>, tn: seq<int>, fp: seq<int>, fn: seq<int>, total: int, k: int)
      returns (r: Result<Performance>)
    ensures r == Assess(tp, tn, fp, fn, total, k)
  {
    var m := Seqs.Clamp(k);
    var bestAccuracy, bestAK: nat := 0.0, 0;
    var bestPrecision, bestPK: nat := 0.0, 0;
    var bestRecall, bestRK: nat := 0.0, 0;
    var bestF1, bestFK: nat := 0.0, 0;
    ghost var ms: seq<Metric> := [];
    for i := 0 to m
      invariant |ms| == i
      invariant Metrics(tp, tn, fp, fn, total, i) == Ok(ms)
      invariant Best(bestAccuracy, bestAK) == BestOf(Accuracies(ms))
      invariant Best(bestPrecision, bestPK) == BestOf(Precisions(ms))
      invariant Best(bestRecall, bestRK) == BestOf(Recalls(ms))
      invariant Best(bestF1, bestFK) == BestOf(F1s(ms))
    {
      var x := Measure(tp, tn, fp, fn, total, i);
      if x.Err? {
        MetricsFail(tp, tn, fp, fn, total, i + 1, m);
        return Err(x.fault);
      }
      var metric := x.value;
      ScoresSnoc(ms, metric);
      bestAccuracy, bestAK := Improve(bestAccuracy, bestAK, metric.accuracy, i, Accuracies(ms));
      bestPrecision, bestPK := ImproveOn(bestPrecision, bestPK, metric.precision, i, Precisions(ms));
      bestRecall, bestRK := ImproveOn(bestRecall, bestRK, metric.recall, i, Recalls(ms));
      bestF1, bestFK := ImproveOn(bestF1, bestFK, metric.f1, i, F1s(ms));
      ms := ms + [metric];
    }
    return Ok(Performance(Best(bestAccuracy, bestAK), Best(bestPrecision, bestPK), Best(bestRecall, bestRK), Best(bestF1, bestFK)));
  }

  /** `if accuracy > best_accuracy: best_accuracy, best_accuracy_k = accuracy, i + 1`. */
  method Improve(best: real, bestK: nat, x: real, i: nat, ghost scores: seq<real>) returns (v: real, vk: nat)
    requires |scores| == i && Best(best, bestK) == BestOf(scores)
    ensures Best(v, vk) == BestOf(scores + [x])
  {
    BestStep(scores, x);
    v, vk := best, bestK;
    if x > best {
      v, vk := x, i + 1;
    }
  }

  /** The same for a score that may be None: `if score and score > best: ...`. */
  method ImproveOn(best: real, bestK: nat, x: Option<real>, i: nat, ghost scores: seq<real>) returns (v: real, vk: nat)
    requires |scores| == i && Best(best, bestK) == BestOf(scores)
    ensures Best(v, vk) == BestOf(scores + [Score(x)])
  {
    BestStep(scores, Score(x));
    ScoreGate(x, best);
    v, vk := best, bestK;
    if Truthy(x) && x.value > best {
      v, vk := x.value, i + 1;
    }
  }

  /** The four metrics of index i, computed statement by statement as calculate_performance
      does. */
  method Measure(tp: seq<int>, tn: seq<int>, fp: seq<int>, fn: seq<int>, total: int, i: nat) returns (r: Result<Metric>)
    ensures r == MetricAt(tp, tn, fp, fn, total, i)
  {
    if i >= |tp| || i >= |tn| {
      return Err(IndexError);
    }
    if total == 0 {
      return Err(ZeroDivisionError);
    }
    var accuracy := (tp[i] + tn[i]) as real / total as real;
    if i >= |fp| {
      return Err(IndexError);
    }
    var precision := Ratio(tp[i], fp[i]);
    if precision.Err? {
      return Err(precision.fault);
    }
    if i >= |fn| {
      return Err(IndexError);
    }
    var recall := Ratio(tp[i], fn[i]);
    if recall.Err? {
      return Err(recall.fault);
    }
    var f1 := Harmonic(precision.value, recall.value);
    if f1.Err? {
      return Err(f1.fault);
    }
    return Ok(Metric(accuracy, precision.value, recall.value, f1.value));
  }

  /** The precision (or recall) statement of calculate_performance. */
  method Ratio(a: int, b: int) returns (r: Result<Option<real>>)
    ensures r == Rate(a, b)
  {
    if a == 0 && b == 0 {
      return Ok(None);
    }
    if a + b == 0 {
      return Err(ZeroDivisionError);
    }
    return Ok(Some(a as real / (a + b) as real));
  }

  /** The F1 statement of calculate_performance. */
  method Harmonic(p: Option<real>, r: Option<real>) returns (f: Result<Option<real>>)
    ensures f == F1(p, r)
  {
    if Truthy(p) && Truthy(r) {
      if p.value + r.value == 0.0 {
        return Err(ZeroDivisionError);
      }
      return Ok(Some(HarmonicMean(p.value, r.value)));
    }
    return Ok(None);
  }
}
