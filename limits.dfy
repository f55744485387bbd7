/** The running per-statistic limits both grabbers keep and the min-max scaling of a sample
    against them. The v0.2 grabber starts its limits at minus and plus infinity
    (v0.2/analyzing/Grabber.py); the older one starts them at None and keys them by
    "<stat>_top" / "<stat>_bot", recovering the statistic with the regex `^(.+)_`
    (analyzing/Grabber.py). */
module Limits {
  import opened Wrappers
  import opened Stats
  import opened Seqs

  /** A float limit that may be infinite. */
  datatype Extended = NegInf | Finite(v: real) | PosInf

  predicate Le(a: Extended, b: Extended)
  {
    match (a, b)
    case (NegInf, _) => true
    case (_, PosInf) => true
    case (Finite(x), Finite(y)) => x <= y
    case _ => false
  }

  lemma LeTransitive(a: Extended, b: Extended, c: Extended)
    requires Le(a, b) && Le(b, c)
    ensures Le(a, c)
  {
  }

  /** `if value > limit: limit = value`: the larger of the two. */
  function Raise(limit: Extended, v: real): (r: Extended)
    ensures Le(limit, r) && Le(Finite(v), r)
    ensures r == limit || r == Finite(v)
  {
    if Le(Finite(v), limit) then limit else Finite(v)
  }

  /** `if value < limit: limit = value`: the smaller of the two. */
  function Lower(limit: Extended, v: real): (r: Extended)
    ensures Le(r, limit) && Le(r, Finite(v))
    ensures r == limit || r == Finite(v)
  {
    if Le(limit, Finite(v)) then limit else Finite(v)
  }

  /** Limits for every statistic, none of them on the wrong infinity. */
  ghost predicate Covers(upper: map<Stat, Extended>, lower: map<Stat, Extended>)
  {
    forall s: Stat :: s in upper && s in lower && !upper[s].PosInf? && !lower[s].NegInf?
  }

  /** The limits enclose every statistic of a feature vector (so both are finite). */
  ghost predicate Bounds(upper: map<Stat, Extended>, lower: map<Stat, Extended>, f: Features)
  {
    forall s: Stat :: s in upper && s in lower && Le(lower[s], Finite(f.Get(s))) && Le(Finite(f.Get(s)), upper[s])
  }

  /** Widening a limit never shrinks what it encloses. */
  lemma BoundsWiden(upper: map<Stat, Extended>, lower: map<Stat, Extended>,
                    upper': map<Stat, Extended>, lower': map<Stat, Extended>, f: Features)
    requires Bounds(upper, lower, f)
    requires forall s: Stat :: s in upper' && s in lower' && Le(upper[s], upper'[s]) && Le(lower'[s], lower[s])
    ensures Bounds(upper', lower', f)
  {
    forall s: Stat ensures Le(lower'[s], Finite(f.Get(s))) && Le(Finite(f.Get(s)), upper'[s]) {
      LeTransitive(lower'[s], lower[s], Finite(f.Get(s)));
      LeTransitive(Finite(f.Get(s)), upper[s], upper'[s]);
    }
  }

  /** `(val - bot) / (top - bot)`, a ZeroDivisionError when the limits coincide. */
  function Scale(v: real, bot: real, top: real): (r: Result<real>)
    ensures r.Err? <==> top == bot
    ensures r.Err? ==> r.fault == ZeroDivisionError
    ensures r.Ok? ==> r.value * (top - bot) == v - bot
  {
    if top == bot then Err(ZeroDivisionError) else Ok((v - bot) / (top - bot))
  }

  /** The lower limit scales to 0, the upper one to 1, and values between them into [0, 1]. */
  lemma ScaleRange(v: real, bot: real, top: real)
    requires bot < top
    ensures Scale(bot, bot, top) == Ok(0.0)
    ensures Scale(top, bot, top) == Ok(1.0)
    ensures bot <= v <= top ==> 0.0 <= Scale(v, bot, top).value <= 1.0
  {
    assert (top - bot) / (top - bot) == 1.0;
    if bot <= v <= top {
      QuotientBounds(v - bot, top - bot, 0.0, 1.0);
    }
  }

  // ------------------------------------------------------------ limits of the older grabber

  /** `re.search(r"^(.+)_", key).group(1)`: the greedy group is everything before the last
      underscore that has at least one character before it; no such underscore, no match.
      Python's `.` does not match a newline and this model lets it match any character; the
      keys it is applied to are the `stats_full` names plus "_top" or "_bot", which hold no
      newline, so the result is the same. */
  function GreedyGroup(key: string): (r: Option<string>)
    ensures r.None? <==> forall j :: 1 <= j < |key| ==> key[j] != '_'
    ensures r.Some? ==> 1 <= |r.value| < |key| && r.value == key[..|r.value|] && key[|r.value|] == '_'
    ensures r.Some? ==> forall j :: |r.value| < j < |key| ==> key[j] != '_'
  {
    LastSeparator(key, |key|)
  }

  function LastSeparator(key: string, i: nat): (r: Option<string>)
    requires i <= |key|
    ensures r.None? <==> forall j :: 1 <= j < i ==> key[j] != '_'
    ensures r.Some? ==> 1 <= |r.value| < i && r.value == key[..|r.value|] && key[|r.value|] == '_'
    ensures r.Some? ==> forall j :: |r.value| < j < i ==> key[j] != '_'
  {
    if i <= 1 then None
    else if key[i - 1] == '_' then Some(key[..i - 1])
    else LastSeparator(key, i - 1)
  }

  /** The limit keys of the older grabber. */
  function TopKey(s: Stat): string { StatName(s) + "_top" }

  function BotKey(s: Stat): string { StatName(s) + "_bot" }

  /** The regex recovers the statistic's attribute name from both of its limit keys. */
  lemma KeyGroups(s: Stat)
    ensures GreedyGroup(TopKey(s)) == Some(StatName(s))
    ensures GreedyGroup(BotKey(s)) == Some(StatName(s))
  {
    var n := StatName(s);
    assert |n| >= 7;
    var t, b := TopKey(s), BotKey(s);
    assert t[|n|] == '_' && t[|n| + 1..] == "top" && t[..|n|] == n;
    assert b[|n|] == '_' && b[|n| + 1..] == "bot" && b[..|n|] == n;
  }

  /** Python truthiness of an optional float: None and 0.0 are false. */
  predicate Truthy(limit: Option<real>)
  {
    limit.Some? && limit.value != 0.0
  }

  /** `if not limit or value > limit: limit = value`, as written: a recorded 0.0 counts as
      unset and is overwritten. */
  function TopAsWritten(limit: Option<real>, v: real): (r: real)
    ensures !Truthy(limit) ==> r == v
    ensures Truthy(limit) ==> r >= v && r >= limit.value && (r == v || r == limit.value)
  {
    if !Truthy(limit) || v > limit.value then v else limit.value
  }

  function BotAsWritten(limit: Option<real>, v: real): (r: real)
    ensures !Truthy(limit) ==> r == v
    ensures Truthy(limit) ==> r <= v && r <= limit.value && (r == v || r == limit.value)
  {
    if !Truthy(limit) || v < limit.value then v else limit.value
  }

  /** The evidently intended step, `if limit is None or value > limit`: only a missing limit
      is overwritten, so the limit is the maximum of everything recorded. */
  function Top(limit: Option<real>, v: real): (r: real)
    ensures r >= v && (limit.Some? ==> r >= limit.value)
    ensures r == v || (limit.Some? && r == limit.value)
  {
    if limit.None? || v > limit.value then v else limit.value
  }

  function Bot(limit: Option<real>, v: real): (r: real)
    ensures r <= v && (limit.Some? ==> r <= limit.value)
    ensures r == v || (limit.Some? && r == limit.value)
  {
    if limit.None? || v < limit.value then v else limit.value
  }

  /** The upper limit after recording a series of values one by one, as written and corrected. */
  function TopsAsWritten(vs: seq<real>): Option<real>
  {
    if vs == [] then None else Some(TopAsWritten(TopsAsWritten(vs[..|vs| - 1]), vs[|vs| - 1]))
  }

  function Tops(vs: seq<real>): Option<real>
  {
    if vs == [] then None else Some(Top(Tops(vs[..|vs| - 1]), vs[|vs| - 1]))
  }

  function Bots(vs: seq<real>): Option<real>
  {
    if vs == [] then None else Some(Bot(Bots(vs[..|vs| - 1]), vs[|vs| - 1]))
  }

  /** As written, the upper limit can end below a value it has seen: after 0.0 the limit is
      0.0, which the next step treats as unset, so recording -1.0 lowers it to -1.0. */
  lemma TopAsWrittenNarrows()
    ensures TopsAsWritten([0.0, -1.0]) == Some(-1.0)
    ensures BotAsWritten(Some(0.0), 1.0) == 1.0
  {
    assert [0.0, -1.0][..1] == [0.0];
    assert [0.0][..0] == [];
  }

  /** Corrected, the limits enclose every value recorded so far, whatever they are. */
  lemma {:induction false} LimitsEncloseAll(vs: seq<real>)
    ensures vs != [] <==> Tops(vs).Some? && Bots(vs).Some?
    ensures forall i :: 0 <= i < |vs| ==> Bots(vs).value <= vs[i] <= Tops(vs).value
  {
    if vs != [] {
      var init := vs[..|vs| - 1];
      LimitsEncloseAll(init);
      forall i | 0 <= i < |vs| ensures Bots(vs).value <= vs[i] <= Tops(vs).value {
        if i < |init| {
          assert vs[i] == init[i];
        }
      }
    }
  }
}
