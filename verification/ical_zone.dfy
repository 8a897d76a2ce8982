/** `_tzicalvtz`: a zone read from one VTIMEZONE block. For a wall time it
    picks the component whose most recent onset is the latest, with a
    fallback for wall times before every onset, and remembers the last
    ten answers. The recurrence evaluator (`rrule.before(dt, inc=True)`)
    is a parameter: given a component's recurrence lines and a wall time,
    it yields the latest onset at or before that time, if any. */
module IcalZone {

  import opened Base
  import opened IcalParser

  /** `rrule.before(dt, inc=True)` for the rule built from the lines. */
  type Onsets = (seq<string>, int) -> Option<int>

  /** `tzoffsetdiff`: how far the clocks move at the component's onset. */
  function Diff(c: Component): int {
    c.offsetTo - c.offsetFrom
  }

  /** The wall time `_find_compdt` asks the rule about. On the second pass
      through a repeated interval (fold 1) of a component that sets the
      clocks back, the time is moved forward by the size of the setback. */
  function QueryTime(c: Component, wall: int, fold: bool): (q: int)
    ensures q >= wall
    ensures q != wall <==> Diff(c) < 0 && fold
    ensures q - wall == (if Diff(c) < 0 && fold then -Diff(c) else 0)
  {
    if Diff(c) < 0 && fold then wall - Diff(c) else wall
  }

  /** `_find_compdt`: the component's latest onset at or before the query time. */
  function FindCompDt(c: Component, wall: int, fold: bool, before: Onsets): Option<int> {
    before(c.rrule, QueryTime(c, wall, fold))
  }

  function CompDts(comps: seq<Component>, wall: int, fold: bool, before: Onsets): (r: seq<Option<int>>)
    ensures |r| == |comps|
    ensures forall k :: 0 <= k < |comps| ==> r[k] == FindCompDt(comps[k], wall, fold, before)
  {
    seq(|comps|, k requires 0 <= k < |comps| => FindCompDt(comps[k], wall, fold, before))
  }

  /** The index the first loop of `_find_comp` settles on: an onset
      replaces the current one only when it is strictly later, so the
      earliest of equally late onsets wins. */
  function Latest(dts: seq<Option<int>>): (r: Option<nat>)
    ensures r.None? <==> forall k :: 0 <= k < |dts| ==> dts[k].None?
    ensures r.Some? ==> r.value < |dts| && dts[r.value].Some?
    ensures r.Some? ==> forall k :: 0 <= k < |dts| && dts[k].Some? ==> dts[k].value <= dts[r.value].value
    ensures r.Some? ==> forall k :: 0 <= k < r.value && dts[k].Some? ==> dts[k].value < dts[r.value].value
  {
    if dts == [] then None
    else
      var n := |dts| - 1;
      var p := Latest(dts[..n]);
      assert forall k :: 0 <= k < n ==> dts[..n][k] == dts[k];
      if dts[n].Some? && (p.None? || dts[p.value].value < dts[n].value) then Some(n)
      else p
  }

  /** The first standard (non-DST) component, if any. */
  function FirstStandard(comps: seq<Component>): (r: Option<nat>)
    ensures r.None? <==> forall k :: 0 <= k < |comps| ==> comps[k].isDst
    ensures r.Some? ==> r.value < |comps| && !comps[r.value].isDst
    ensures r.Some? ==> forall k :: 0 <= k < r.value ==> comps[k].isDst
  {
    if comps == [] then None
    else if !comps[0].isDst then Some(0)
    else
      var p := FirstStandard(comps[1..]);
      if p.None? then None else Some(p.value + 1)
  }

  datatype FindError =
    | NotSubscriptable   // `comp[0]` on a component object
    | UnboundComponent   // `comp` never bound: the zone has no components

  /** `_find_comp` without its cache, as written: when no component has an
      onset before the wall time and all components are DST, the fallback
      indexes the loop variable (a component) instead of the list. */
  function FindComp(comps: seq<Component>, wall: int, fold: bool, before: Onsets): (r: Result<Component, FindError>)
    ensures |comps| == 1 ==> r == Success(comps[0])
    ensures r.Success? ==> r.value in comps
    ensures |comps| != 1 && Latest(CompDts(comps, wall, fold, before)).Some? ==>
      r == Success(comps[Latest(CompDts(comps, wall, fold, before)).value])
    ensures |comps| != 1 && Latest(CompDts(comps, wall, fold, before)).None? && FirstStandard(comps).Some? ==>
      r == Success(comps[FirstStandard(comps).value])
    ensures r.Failure? <==>
      |comps| != 1 && Latest(CompDts(comps, wall, fold, before)).None? && FirstStandard(comps).None?
  {
    if |comps| == 1 then Success(comps[0])
    else
      match Latest(CompDts(comps, wall, fold, before))
      case Some(i) => Success(comps[i])
      case None =>
        match FirstStandard(comps)
        case Some(i) => Success(comps[i])
        case None => if comps == [] then Failure(UnboundComponent) else Failure(NotSubscriptable)
  }

  /** The evidently intended fallback: the first component of the list. */
  function FindCompIntended(comps: seq<Component>, wall: int, fold: bool, before: Onsets): (r: Result<Component, FindError>)
    ensures r.Failure? <==> comps == []
    ensures r.Success? ==> r.value in comps
  {
    if |comps| == 1 then Success(comps[0])
    else
      match Latest(CompDts(comps, wall, fold, before))
      case Some(i) => Success(comps[i])
      case None =>
        match FirstStandard(comps)
        case Some(i) => Success(comps[i])
        case None => if comps == [] then Failure(UnboundComponent) else Success(comps[0])
  }

  /** The two agree wherever the code as written returns; where it raises
      on a non-empty zone, every component is DST, none has an onset yet,
      and the intended version answers with the first component. */
  lemma FindCompIntendedAgrees(comps: seq<Component>, wall: int, fold: bool, before: Onsets)
    ensures FindComp(comps, wall, fold, before).Success? ==>
      FindCompIntended(comps, wall, fold, before) == FindComp(comps, wall, fold, before)
    ensures FindComp(comps, wall, fold, before) == Failure(NotSubscriptable) <==>
      && comps != [] && |comps| != 1
      && (forall k :: 0 <= k < |comps| ==> comps[k].isDst)
      && (forall k :: 0 <= k < |comps| ==> FindCompDt(comps[k], wall, fold, before).None?)
    ensures FindComp(comps, wall, fold, before) == Failure(NotSubscriptable) ==>
      FindCompIntended(comps, wall, fold, before) == Success(comps[0])
  {
    var dts := CompDts(comps, wall, fold, before);
    assert forall k :: 0 <= k < |comps| ==> dts[k] == FindCompDt(comps[k], wall, fold, before);
  }

  /** The input that shows it: two DST components, neither with an onset
      at or before the wall time. */
  lemma AllDaylightBeforeOnsetFails(c1: Component, c2: Component, wall: int, fold: bool)
    requires c1.isDst && c2.isDst
    ensures var before: Onsets := (lines: seq<string>, t: int) => None;
      && FindComp([c1, c2], wall, fold, before) == Failure(NotSubscriptable)
      && FindCompIntended([c1, c2], wall, fold, before) == Success(c1)
  {
    var before: Onsets := (lines: seq<string>, t: int) => None;
    FindCompIntendedAgrees([c1, c2], wall, fold, before);
  }

  // The cache of `_find_comp`: the last ten (wall time, fold) keys with
  // their answers, newest first.

  datatype CacheEntry = CacheEntry(wall: int, fold: bool, comp: Component)

  const CacheSize: nat := 10

  /** `_cachedate.index((dt, fold))`: the first entry with this key. */
  function CacheIndex(cache: seq<CacheEntry>, wall: int, fold: bool): (r: Option<nat>)
    ensures r.None? <==> forall k :: 0 <= k < |cache| ==> (cache[k].wall, cache[k].fold) != (wall, fold)
    ensures r.Some? ==> r.value < |cache| && cache[r.value].wall == wall && cache[r.value].fold == fold
  {
    if cache == [] then None
    else if cache[0].wall == wall && cache[0].fold == fold then Some(0)
    else
      var p := CacheIndex(cache[1..], wall, fold);
      if p.None? then None else Some(p.value + 1)
  }

  /** Insert at the front; beyond ten entries drop the oldest. */
  function Remember(cache: seq<CacheEntry>, e: CacheEntry): (r: seq<CacheEntry>)
    ensures |cache| <= CacheSize ==> |r| <= CacheSize
    ensures |r| == if |cache| >= CacheSize then |cache| else |cache| + 1
    ensures r == ([e] + cache)[..|r|]
  {
    var c := [e] + cache;
    if |c| > CacheSize then c[..|c| - 1] else c
  }

  /** `_find_comp` with its cache: the one-component shortcut, then the
      cache, then the search (with the corrected fallback); only a
      successful search is remembered. */
  function CachedFindComp(comps: seq<Component>, cache: seq<CacheEntry>, wall: int, fold: bool, before: Onsets)
    : (r: (Result<Component, FindError>, seq<CacheEntry>))
    ensures |comps| == 1 ==> r == (Success(comps[0]), cache)
    ensures |comps| != 1 && CacheIndex(cache, wall, fold).Some? ==>
      r == (Success(cache[CacheIndex(cache, wall, fold).value].comp), cache)
    ensures |comps| != 1 && CacheIndex(cache, wall, fold).None? ==>
      r.0 == FindCompIntended(comps, wall, fold, before)
    ensures |comps| != 1 && CacheIndex(cache, wall, fold).None? && r.0.Success? ==>
      r.1 == Remember(cache, CacheEntry(wall, fold, r.0.value))
    ensures r.0.Failure? ==> r.1 == cache
  {
    if |comps| == 1 then (Success(comps[0]), cache)
    else
      match CacheIndex(cache, wall, fold)
      case Some(i) => (Success(cache[i].comp), cache)
      case None =>
        match FindCompIntended(comps, wall, fold, before)
        case Failure(e) => (Failure(e), cache)
        case Success(c) => (Success(c), Remember(cache, CacheEntry(wall, fold, c)))
  }

  /** Every remembered answer is the one the search gives. */
  predicate Coherent(comps: seq<Component>, cache: seq<CacheEntry>, before: Onsets) {
    && |cache| <= CacheSize
    && forall k :: 0 <= k < |cache| ==>
         FindCompIntended(comps, cache[k].wall, cache[k].fold, before) == Success(cache[k].comp)
  }

  /** Remembering a right answer keeps a coherent cache coherent. */
  lemma RememberCoherent(comps: seq<Component>, cache: seq<CacheEntry>, e: CacheEntry, before: Onsets)
    requires Coherent(comps, cache, before)
    requires FindCompIntended(comps, e.wall, e.fold, before) == Success(e.comp)
    ensures Coherent(comps, Remember(cache, e), before)
  {
    var r := Remember(cache, e);
    forall k | 0 <= k < |r|
      ensures FindCompIntended(comps, r[k].wall, r[k].fold, before) == Success(r[k].comp)
    {
      if k > 0 {
        assert r[k] == ([e] + cache)[k] == cache[k - 1];
      }
    }
  }

  /** The cache is invisible: with a coherent cache the cached lookup
      answers exactly as the search, and the cache stays coherent. */
  lemma CacheTransparent(comps: seq<Component>, cache: seq<CacheEntry>, wall: int, fold: bool, before: Onsets)
    requires Coherent(comps, cache, before)
    ensures CachedFindComp(comps, cache, wall, fold, before).0 == FindCompIntended(comps, wall, fold, before)
    ensures FindComp(comps, wall, fold, before).Success? ==>
      CachedFindComp(comps, cache, wall, fold, before).0 == FindComp(comps, wall, fold, before)
    ensures Coherent(comps, CachedFindComp(comps, cache, wall, fold, before).1, before)
  {
    FindCompIntendedAgrees(comps, wall, fold, before);
    if |comps| != 1 && CacheIndex(cache, wall, fold).None? {
      var f := FindCompIntended(comps, wall, fold, before);
      if f.Success? {
        RememberCoherent(comps, cache, CacheEntry(wall, fold, f.value), before);
      }
    }
  }

  /** `utcoffset`: `None` for no datetime, else the offset after the
      onset of the component the corrected search chooses. Wherever the
      search as written answers, this is its answer; where it raises on
      a non-empty zone, the first component's offset is returned. */
  function UtcOffset(comps: seq<Component>, dt: Option<(int, bool)>, before: Onsets): (r: Result<Option<int>, FindError>)
    ensures dt.None? ==> r == Success(None)
    ensures dt.Some? && r.Success? ==>
      exists c :: c in comps && FindCompIntended(comps, dt.value.0, dt.value.1, before) == Success(c) && r.value == Some(c.offsetTo)
    ensures r.Failure? <==> dt.Some? && comps == []
    ensures dt.Some? && FindComp(comps, dt.value.0, dt.value.1, before).Success? ==>
      r == Success(Some(FindComp(comps, dt.value.0, dt.value.1, before).value.offsetTo))
    ensures dt.Some? && FindComp(comps, dt.value.0, dt.value.1, before) == Failure(NotSubscriptable) ==>
      r == Success(Some(comps[0].offsetTo))
  {
    if dt.None? then Success(None)
    else
      FindCompIntendedAgrees(comps, dt.value.0, dt.value.1, before);
      var c :- FindCompIntended(comps, dt.value.0, dt.value.1, before);
      Success(Some(c.offsetTo))
  }

  /** `dst`: the size of the component's clock change for a DST
      component, zero for a standard one. */
  function Dst(comps: seq<Component>, wall: int, fold: bool, before: Onsets): (r: Result<int, FindError>)
    ensures r.Failure? <==> comps == []
    ensures r.Success? ==>
      FindCompIntended(comps, wall, fold, before).Success? &&
      var c := FindCompIntended(comps, wall, fold, before).value;
      r.value == (if c.isDst then c.offsetTo - c.offsetFrom else 0)
    ensures FindComp(comps, wall, fold, before).Success? ==>
      var c := FindComp(comps, wall, fold, before).value;
      r == Success(if c.isDst then Diff(c) else 0)
    ensures FindComp(comps, wall, fold, before) == Failure(NotSubscriptable) ==> r == Success(Diff(comps[0]))
  {
    FindCompIntendedAgrees(comps, wall, fold, before);
    var c :- FindCompIntended(comps, wall, fold, before);
    if c.isDst then Success(Diff(c)) else Success(0)
  }

  /** `tzname`: the chosen component's TZNAME, if it had one. */
  function TzName(comps: seq<Component>, wall: int, fold: bool, before: Onsets): (r: Result<Option<string>, FindError>)
    ensures r.Failure? <==> comps == []
    ensures r.Success? ==>
      FindCompIntended(comps, wall, fold, before).Success? &&
      r.value == FindCompIntended(comps, wall, fold, before).value.tzname
    ensures FindComp(comps, wall, fold, before).Success? ==>
      r == Success(FindComp(comps, wall, fold, before).value.tzname)
    ensures FindComp(comps, wall, fold, before) == Failure(NotSubscriptable) ==> r == Success(comps[0].tzname)
  {
    FindCompIntendedAgrees(comps, wall, fold, before);
    var c :- FindCompIntended(comps, wall, fold, before);
    Success(c.tzname)
  }

  /** A zone with one daylight onset at wall time `d` and one later
      standard onset at wall time `s`, each its rule's only occurrence. */
  function TwoOnsets(dstComp: Component, stdComp: Component, d: int, s: int): Onsets {
    (lines: seq<string>, t: int) =>
      if lines == stdComp.rrule then (if t >= s then Some(s) else None)
      else if lines == dstComp.rrule then (if t >= d then Some(d) else None)
      else None
  }

  /** When the clocks go back by `h` at wall time `s`, the hour before `s`
      occurs twice: fold 0 there reads as daylight time and fold 1 as
      standard time. Before that hour both folds read as daylight time,
      from `s` on both read as standard time. */
  lemma FoldSelectsStandardInRepeatedHour(dstComp: Component, stdComp: Component, d: int, s: int, wall: int)
    requires dstComp.isDst && !stdComp.isDst && dstComp.rrule != stdComp.rrule
    requires Diff(stdComp) < 0 && d + -Diff(stdComp) <= s && d <= wall
    ensures var before := TwoOnsets(dstComp, stdComp, d, s);
      var comps := [dstComp, stdComp];
      && (s + Diff(stdComp) <= wall < s ==>
            FindComp(comps, wall, false, before) == Success(dstComp)
            && FindComp(comps, wall, true, before) == Success(stdComp))
      && (wall < s + Diff(stdComp) ==>
            FindComp(comps, wall, false, before) == Success(dstComp)
            && FindComp(comps, wall, true, before) == Success(dstComp))
      && (s <= wall ==>
            FindComp(comps, wall, false, before) == Success(stdComp)
            && FindComp(comps, wall, true, before) == Success(stdComp))
  {
    var before := TwoOnsets(dstComp, stdComp, d, s);
    var comps := [dstComp, stdComp];
    forall fold: bool
      ensures FindComp(comps, wall, fold, before)
           == Success(if QueryTime(stdComp, wall, fold) >= s then stdComp else dstComp)
    {
      var dts := CompDts(comps, wall, fold, before);
      assert dts[0] == Some(d);
      assert dts[1] == if QueryTime(stdComp, wall, fold) >= s then Some(s) else None;
      assert dts[..1] == [Some(d)];
      if QueryTime(stdComp, wall, fold) >= s && d == s {
        assert false;
      }
    }
  }

  /** What the zone reports around a setback: in the repeated hour fold 0
      reads the daylight offset and daylight saving, fold 1 the standard
      offset and no daylight saving; before that hour both folds read
      daylight time and from the setback on both read standard time. */
  lemma RepeatedHourReadings(dstComp: Component, stdComp: Component, d: int, s: int, wall: int)
    requires dstComp.isDst && !stdComp.isDst && dstComp.rrule != stdComp.rrule
    requires Diff(stdComp) < 0 && d + -Diff(stdComp) <= s && d <= wall
    ensures var before := TwoOnsets(dstComp, stdComp, d, s);
      var comps := [dstComp, stdComp];
      && (s + Diff(stdComp) <= wall < s ==>
            && UtcOffset(comps, Some((wall, false)), before) == Success(Some(dstComp.offsetTo))
            && Dst(comps, wall, false, before) == Success(Diff(dstComp))
            && UtcOffset(comps, Some((wall, true)), before) == Success(Some(stdComp.offsetTo))
            && Dst(comps, wall, true, before) == Success(0))
      && (wall < s + Diff(stdComp) ==>
            && UtcOffset(comps, Some((wall, true)), before) == Success(Some(dstComp.offsetTo))
            && Dst(comps, wall, true, before) == Success(Diff(dstComp)))
      && (s <= wall ==>
            && UtcOffset(comps, Some((wall, false)), before) == Success(Some(stdComp.offsetTo))
            && Dst(comps, wall, false, before) == Success(0))
  {
    FoldSelectsStandardInRepeatedHour(dstComp, stdComp, d, s, wall);
  }
}
