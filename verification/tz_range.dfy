/** `tzrange` and `tzstr`: a zone with a standard and a daylight offset
    and yearly rules for the start and end of daylight time, built either
    from explicit arguments or from a POSIX `TZ` string (section 8.3 of
    the POSIX.1 Base Definitions). The string itself is read by a parser
    outside this model; its result is taken as an input record. Rules are
    `relativedelta` keyword sets, kept here as records; applying one to a
    date is calendar arithmetic and is a parameter. */
module TzRange {

  import opened Base

  const Hour: int := 3600

  /** `relativedelta.weekday(wd, n)`: the n-th weekday `wd` (0 = Monday)
      counted from the anchor day, backwards for negative n. */
  datatype Weekday = Weekday(wd: int, n: int)

  const Sunday: int := 6

  /** The keyword arguments of a `relativedelta` rule. The relative time
      is kept as its total in seconds: `relativedelta` normalises
      `hours=2` and `seconds=7200` to the same value. */
  datatype RuleDelta = RuleDelta(
    month: Option<int>,
    day: Option<int>,
    weekday: Option<Weekday>,
    yearday: Option<int>,
    nlyearday: Option<int>,
    seconds: int)

  /** Truth of a `relativedelta`: some absolute field given, or a
      non-zero relative time. */
  predicate IsTruthy(d: RuleDelta) {
    d.month.Some? || d.day.Some? || d.weekday.Some? || d.yearday.Some? || d.nlyearday.Some? || d.seconds != 0
  }

  /** A rule slot as the zone stores it: `None`, the `False` that `tzstr`
      passes to `tzrange.__init__`, or a rule. */
  datatype Slot = NoRule | FalseRule | Rule(delta: RuleDelta)

  predicate SlotTruthy(s: Slot) {
    s.Rule? && IsTruthy(s.delta)
  }

  /** Python truth of an optional abbreviation. */
  predicate AbbrTruthy(a: Option<string>) {
    a.Some? && a.value != ""
  }

  /** Two in the morning on the first Sunday of April. */
  const DefaultStart: RuleDelta := RuleDelta(Some(4), Some(1), Some(Weekday(Sunday, 1)), None, None, 2 * Hour)

  /** One in the morning (standard time) on the last Sunday of October. */
  const DefaultEnd: RuleDelta := RuleDelta(Some(10), Some(31), Some(Weekday(Sunday, -1)), None, None, 1 * Hour)

  /** The state `tzrange.__init__` leaves: offsets in seconds, the two
      rule slots, `_dst_base_offset_` and `hasdst`. */
  datatype RangeZone = RangeZone(
    stdAbbr: string,
    dstAbbr: Option<string>,
    stdOffset: int,
    dstOffset: int,
    startDelta: Slot,
    endDelta: Slot,
    dstBaseOffset: int,
    hasDst: bool)

  /** `tzrange.__init__`. */
  function MakeRange(stdAbbr: string, stdOffset: Option<int>, dstAbbr: Option<string>, dstOffset: Option<int>,
                     start: Slot, end: Slot): (z: RangeZone)
    ensures z.stdOffset == stdOffset.GetOr(0)
    ensures dstOffset.Some? ==> z.dstOffset == dstOffset.value
    ensures dstOffset.None? ==>
      z.dstOffset == (if AbbrTruthy(dstAbbr) && stdOffset.Some? then stdOffset.value + Hour else 0)
    ensures z.startDelta == (if AbbrTruthy(dstAbbr) && start.NoRule? then Rule(DefaultStart) else start)
    ensures z.endDelta == (if AbbrTruthy(dstAbbr) && end.NoRule? then Rule(DefaultEnd) else end)
    ensures z.dstBaseOffset == z.dstOffset - z.stdOffset
    ensures z.hasDst <==> SlotTruthy(z.startDelta)
  {
    var std := if stdOffset.Some? then stdOffset.value else 0;
    var dst :=
      if dstOffset.Some? then dstOffset.value
      else if AbbrTruthy(dstAbbr) && stdOffset.Some? then std + Hour
      else 0;
    var s := if AbbrTruthy(dstAbbr) && start == NoRule then Rule(DefaultStart) else start;
    var e := if AbbrTruthy(dstAbbr) && end == NoRule then Rule(DefaultEnd) else end;
    RangeZone(stdAbbr, dstAbbr, std, dst, s, e, dst - std, SlotTruthy(s))
  }

  /** `tzrange.__eq__`: abbreviations, offsets and both rules. */
  predicate SameRange(a: RangeZone, b: RangeZone) {
    && a.stdAbbr == b.stdAbbr
    && a.dstAbbr == b.dstAbbr
    && a.stdOffset == b.stdOffset
    && a.dstOffset == b.dstOffset
    && a.startDelta == b.startDelta
    && a.endDelta == b.endDelta
  }

  datatype TransitionError = EndNotARule

  /** `tzrange.transitions(year)`: `None` without daylight time, else the
      start and end rules applied to January 1 of the year. `apply` is
      `datetime(year, 1, 1) + delta` in seconds. Adding a missing end
      rule fails. */
  function Transitions(z: RangeZone, year: int, apply: (int, RuleDelta) -> int)
    : (r: Result<Option<(int, int)>, TransitionError>)
    ensures !z.hasDst ==> r == Success(None)
    ensures z.hasDst && z.startDelta.Rule? && z.endDelta.Rule? ==>
      r == Success(Some((apply(year, z.startDelta.delta), apply(year, z.endDelta.delta))))
    ensures r.Failure? <==> z.hasDst && (z.startDelta.Rule? ==> !z.endDelta.Rule?)
  {
    if !z.hasDst then Success(None)
    else if z.startDelta.Rule? && z.endDelta.Rule? then
      Success(Some((apply(year, z.startDelta.delta), apply(year, z.endDelta.delta))))
    else Failure(EndNotARule)
  }

  /** One rule of a parsed `TZ` string: `Mm.w.d`, `Jn`, `n` or nothing,
      and an optional time of day in seconds. `week` is read only when a
      weekday is given. */
  datatype RuleSpec = RuleSpec(
    month: Option<int>,
    week: int,
    weekday: Option<int>,
    yday: Option<int>,
    jyday: Option<int>,
    day: Option<int>,
    time: Option<int>)

  /** The parser's result for a `TZ` string. Offsets are in seconds east
      of UTC, as the parser already inverts the POSIX sign. */
  datatype ParsedTz = ParsedTz(
    stdAbbr: string,
    stdOffset: Option<int>,
    dstAbbr: Option<string>,
    dstOffset: Option<int>,
    start: RuleSpec,
    end: RuleSpec,
    anyUnusedTokens: bool)

  /** The rule anchor a spec names, or `None` for an empty spec. */
  function Anchor(x: RuleSpec): (r: Option<RuleDelta>)
    ensures r.Some? ==> r.value.seconds == 0 && IsTruthy(r.value)
  {
    if x.month.Some? then
      if x.weekday.Some? then
        Some(RuleDelta(x.month, Some(if x.week > 0 then 1 else 31), Some(Weekday(x.weekday.value, x.week)), None, None, 0))
      else if x.day.Some? && x.day.value != 0 then
        Some(RuleDelta(x.month, x.day, None, None, None, 0))
      else
        Some(RuleDelta(x.month, None, None, None, None, 0))
    else if x.yday.Some? then Some(RuleDelta(None, None, None, x.yday, None, 0))
    else if x.jyday.Some? then Some(RuleDelta(None, None, None, None, x.jyday, 0))
    else None
  }

  /** `tzstr._delta`: the spec as a rule, the April or October default
      when the spec is empty, at the given time or two in the morning.
      An end rule is moved to the standard-time side by subtracting the
      daylight saving (`dstMinusStd`). */
  function Delta(x: RuleSpec, isEnd: bool, dstMinusStd: int): (r: RuleDelta)
    ensures IsTruthy(r)
    ensures r.seconds == x.time.GetOr(2 * Hour) - (if isEnd then dstMinusStd else 0)
    ensures x.month.Some? ==> r.month == x.month && r.yearday.None? && r.nlyearday.None?
    ensures x.month.Some? && x.weekday.Some? ==>
      r.weekday == Some(Weekday(x.weekday.value, x.week)) && r.day == Some(if x.week > 0 then 1 else 31)
    ensures x.month.Some? && x.weekday.None? ==>
      r.weekday.None? && r.day == (if x.day.Some? && x.day.value != 0 then x.day else None)
    ensures x.month.None? && x.yday.Some? ==> r.yearday == x.yday && r.month.None? && r.nlyearday.None?
    ensures x.month.None? && x.yday.None? && x.jyday.Some? ==>
      r.nlyearday == x.jyday && r.month.None? && r.yearday.None?
    ensures x.month.None? && x.yday.None? && x.jyday.None? ==>
      var dflt := if isEnd then DefaultEnd else DefaultStart;
      r.month == dflt.month && r.day == dflt.day && r.weekday == dflt.weekday
  {
    var base :=
      match Anchor(x)
      case Some(a) => a
      case None => if isEnd then DefaultEnd else DefaultStart;
    var t := if x.time.Some? then x.time.value else 2 * Hour;
    base.(seconds := if isEnd then t - dstMinusStd else t)
  }

  datatype TzStrError =
    | UnknownFormat      // the parser failed or left tokens unused
    | NegatedMissingOffset  // `None *= -1` for a GMT/UTC name without an offset

  /** Whether the standard offset's sign is flipped: a `GMT` or `UTC`
      name, unless POSIX signs were asked for. */
  predicate FlipsSign(res: ParsedTz, posixOffset: bool) {
    (res.stdAbbr == "GMT" || res.stdAbbr == "UTC") && !posixOffset
  }

  /** `tzstr.__init__`: `tzrange.__init__` with the parsed fields and
      `False` for both rules, then the rules from `_delta`, the end rule
      only when the start rule is truthy. */
  function MakeStr(res: Option<ParsedTz>, posixOffset: bool): (r: Result<RangeZone, TzStrError>)
    ensures res.None? || res.value.anyUnusedTokens ==> r == Failure(UnknownFormat)
    ensures r.Success? ==> res.Some?
    ensures r.Success? ==> (r.value.hasDst <==> AbbrTruthy(res.value.dstAbbr))
    ensures r.Success? ==> r.value.dstBaseOffset == r.value.dstOffset - r.value.stdOffset
  {
    if res.None? || res.value.anyUnusedTokens then Failure(UnknownFormat)
    else
      var p := res.value;
      if FlipsSign(p, posixOffset) && p.stdOffset.None? then Failure(NegatedMissingOffset)
      else
        var std := if FlipsSign(p, posixOffset) then Some(-p.stdOffset.value) else p.stdOffset;
        var z := MakeRange(p.stdAbbr, std, p.dstAbbr, p.dstOffset, FalseRule, FalseRule);
        if !AbbrTruthy(p.dstAbbr) then
          Success(z.(startDelta := NoRule, endDelta := NoRule, hasDst := false))
        else
          var s := Delta(p.start, false, z.dstOffset - z.stdOffset);
          var e := if IsTruthy(s) then Rule(Delta(p.end, true, z.dstOffset - z.stdOffset)) else z.endDelta;
          Success(z.(startDelta := Rule(s), endDelta := e, hasDst := IsTruthy(s)))
  }

  /** The standard offset a `TZ` string gives: negated for a `GMT` or
      `UTC` name, so that `GMT+3` is three hours ahead of UTC, unless
      POSIX signs were asked for. */
  lemma StdOffsetSign(res: ParsedTz, posixOffset: bool)
    requires !res.anyUnusedTokens
    ensures FlipsSign(res, posixOffset) && res.stdOffset.None? ==>
      MakeStr(Some(res), posixOffset) == Failure(NegatedMissingOffset)
    ensures MakeStr(Some(res), posixOffset).Success? ==>
      MakeStr(Some(res), posixOffset).value.stdOffset ==
        (if FlipsSign(res, posixOffset) then -res.stdOffset.value else res.stdOffset.GetOr(0))
  {
  }

  /** The daylight offset of a `TZ` string zone: the given one, else one
      hour more than a given standard offset when a daylight name is
      present, else zero. */
  lemma StrDstOffset(res: ParsedTz, posixOffset: bool)
    requires MakeStr(Some(res), posixOffset).Success?
    ensures var z := MakeStr(Some(res), posixOffset).value;
      z.dstOffset ==
        if res.dstOffset.Some? then res.dstOffset.value
        else if AbbrTruthy(res.dstAbbr) && res.stdOffset.Some? then z.stdOffset + Hour
        else 0
  {
  }

  /** A `TZ` string zone has both rules or neither, so its transitions
      are always defined; the end rule's time is on the standard side. */
  lemma StrRules(res: ParsedTz, posixOffset: bool)
    requires MakeStr(Some(res), posixOffset).Success?
    ensures var z := MakeStr(Some(res), posixOffset).value;
      && (z.hasDst ==> z.startDelta.Rule? && z.endDelta.Rule?)
      && (!z.hasDst ==> z.startDelta == NoRule && z.endDelta == NoRule)
      && (z.hasDst ==>
            z.startDelta.delta.seconds == res.start.time.GetOr(2 * Hour)
            && z.endDelta.delta.seconds == res.end.time.GetOr(2 * Hour) - (z.dstOffset - z.stdOffset))
    ensures forall year: int, apply: (int, RuleDelta) -> int ::
      Transitions(MakeStr(Some(res), posixOffset).value, year, apply).Success?
  {
  }

  /** `tzrange` without daylight information has no daylight time and
      no transitions. */
  lemma RangeWithoutDst(stdAbbr: string, stdOffset: Option<int>, year: int, apply: (int, RuleDelta) -> int)
    ensures var z := MakeRange(stdAbbr, stdOffset, None, None, NoRule, NoRule);
      && !z.hasDst && z.dstOffset == 0
      && Transitions(z, year, apply) == Success(None)
  {
  }

  /** An empty rule spec: no date and no time. */
  const NoSpec: RuleSpec := RuleSpec(None, 0, None, None, None, None, None)

  /** `tzstr('EST5EDT')`, `tzrange("EST", -18000, "EDT")` and the same
      range with every default written out are equal. */
  lemma Est5EdtEquivalence()
    ensures var parsed := ParsedTz("EST", Some(-5 * Hour), Some("EDT"), None, NoSpec, NoSpec, false);
      var s := MakeStr(Some(parsed), false);
      var range1 := MakeRange("EST", Some(-5 * Hour), Some("EDT"), None, NoRule, NoRule);
      var range2 := MakeRange("EST", Some(-5 * Hour), Some("EDT"), Some(-4 * Hour),
        Rule(RuleDelta(Some(4), Some(1), Some(Weekday(Sunday, 1)), None, None, 2 * Hour)),
        Rule(RuleDelta(Some(10), Some(31), Some(Weekday(Sunday, -1)), None, None, 1 * Hour)));
      && s.Success? && SameRange(s.value, range1) && SameRange(range1, range2)
      && s.value.hasDst && range1.hasDst
  {
  }

  /** A `TZ` string with a daylight name and no rules is the range with
      the same names and offsets and the default rules, exactly when its
      daylight saving is one hour: the default end rule is written in
      standard time for a one-hour shift, while the string's end rule is
      moved by the zone's own shift. */
  lemma StrIsRangeWithDefaults(res: ParsedTz, posixOffset: bool)
    requires !res.anyUnusedTokens && !FlipsSign(res, posixOffset)
    requires AbbrTruthy(res.dstAbbr) && res.start == NoSpec && res.end == NoSpec
    ensures var range := MakeRange(res.stdAbbr, res.stdOffset, res.dstAbbr, res.dstOffset, NoRule, NoRule);
      && MakeStr(Some(res), posixOffset).Success?
      && (SameRange(MakeStr(Some(res), posixOffset).value, range) <==> range.dstBaseOffset == Hour)
  {
  }

  /** `tzstr('GMT+3')`: the parser reads `+3` the POSIX way, as three
      hours west; the zone is three hours east unless POSIX signs were
      asked for. */
  lemma GmtPlusThree()
    ensures var parsed := ParsedTz("GMT", Some(-3 * Hour), None, None, NoSpec, NoSpec, false);
      && MakeStr(Some(parsed), false).Success?
      && MakeStr(Some(parsed), false).value.stdOffset == 3 * Hour
      && MakeStr(Some(parsed), true).Success?
      && MakeStr(Some(parsed), true).value.stdOffset == -3 * Hour
      && !MakeStr(Some(parsed), false).value.hasDst
  {
  }
}
