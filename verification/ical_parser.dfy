/** `tzical._parse_rfc` and `tzical.get`: the line-by-line state machine
    that reads `VTIMEZONE` blocks (section 3.6.5 of RFC 5545) into a
    mapping from TZID to zone, and the lookup by TZID. */
module IcalParser {

  import opened Base
  import opened Text
  import opened IcalOffset
  import opened IcalLines

  /** One `STANDARD` or `DAYLIGHT` sub-block. `rrule` holds the raw
      `DTSTART`/`RRULE`/`RDATE`/`EXRULE`/`EXDATE` lines that the external
      recurrence evaluator is built from. */
  datatype Component = Component(
    offsetFrom: int,
    offsetTo: int,
    isDst: bool,
    tzname: Option<string>,
    rrule: seq<string>)

  /** One parsed `VTIMEZONE` block. */
  datatype VTimezone = VTimezone(tzid: string, comps: seq<Component>)

  datatype ParseError =
    | EmptyString
    | MissingColon(line: string)
    | UnknownComponent(value: string)
    | ComponentNotClosed(comptype: string)
    | MissingTzid
    | NoComponents
    | MissingMandatory(field: string)
    | InvalidComponentEnd(value: string)
    | UnsupportedDtstartParam(parm: string)
    | UnsupportedParam(name: string, parm: string)
    | UnsupportedProperty(name: string)
    | BadOffset(cause: OffsetError)

  /** The parser's local variables between two lines. */
  datatype State = State(
    vtz: map<string, VTimezone>,
    invtz: bool,
    tzid: Option<string>,
    comps: seq<Component>,
    comptype: Option<string>,
    foundDtstart: bool,
    offsetFrom: Option<int>,
    offsetTo: Option<int>,
    rrulelines: seq<string>,
    tzname: Option<string>)

  const Initial: State := State(map[], false, None, [], None, false, None, None, [], None)

  /** A line split into upper-cased name, parameters and value; `None`
      when the line has no colon (the two-name unpacking raises). */
  function LineParts(line: string): (r: Option<(string, seq<string>, string)>)
    ensures r.None? <==> ':' !in line
  {
    match SplitOnce(line, ':')
    case None => None
    case Some((raw, value)) =>
      var parts := Split(raw, ';');
      Some((Upper(parts[0]), parts[1..], value))
  }

  /** The value is the text after the first colon; the name is the
      upper-cased first `;` piece before it, the parameters the rest. */
  lemma LinePartsAtFirstColon(line: string)
    ensures LineParts(line).Some? ==>
      exists i :: (&& 0 <= i < |line| && line[i] == ':' && ':' !in line[..i]
                   && LineParts(line).value.2 == line[i + 1..]
                   && LineParts(line).value.0 == Upper(Split(line[..i], ';')[0])
                   && LineParts(line).value.1 == Split(line[..i], ';')[1..])
  {
    if LineParts(line).Some? {
      var (raw, value) := SplitOnce(line, ':').value;
      assert line[|raw|] == ':' && line[..|raw|] == raw && line[|raw| + 1..] == value;
    }
  }

  /** Which mandatory field a closing component lacks, as written: a
      missing TZOFFSETTO is reported under the name TZOFFSETFROM. */
  function MissingField(st: State): (r: Option<string>)
    ensures r.None? <==> st.foundDtstart && st.offsetFrom.Some? && st.offsetTo.Some?
    ensures r.Some? ==> r.value == "DTSTART" || r.value == "TZOFFSETFROM"
  {
    if !st.foundDtstart then Some("DTSTART")
    else if st.offsetFrom.None? then Some("TZOFFSETFROM")
    else if st.offsetTo.None? then Some("TZOFFSETFROM")
    else None
  }

  /** The evidently intended check: each missing field reported by its own name. */
  function MissingFieldIntended(st: State): (r: Option<string>)
    ensures r.None? <==> st.foundDtstart && st.offsetFrom.Some? && st.offsetTo.Some?
    ensures r == Some("DTSTART") <==> !st.foundDtstart
    ensures r == Some("TZOFFSETFROM") ==> st.offsetFrom.None?
    ensures r == Some("TZOFFSETTO") ==> st.offsetTo.None?
    ensures r.Some? ==> r.value in {"DTSTART", "TZOFFSETFROM", "TZOFFSETTO"}
  {
    if !st.foundDtstart then Some("DTSTART")
    else if st.offsetFrom.None? then Some("TZOFFSETFROM")
    else if st.offsetTo.None? then Some("TZOFFSETTO")
    else None
  }

  /** The as-written check names a field that is present: with DTSTART and
      TZOFFSETFROM given and TZOFFSETTO absent it blames TZOFFSETFROM. */
  lemma MissingOffsetToMisreported(st: State)
    requires st.foundDtstart && st.offsetFrom.Some? && st.offsetTo.None?
    ensures MissingField(st) == Some("TZOFFSETFROM")
    ensures MissingFieldIntended(st) == Some("TZOFFSETTO")
  {
  }

  /** The two checks reject exactly the same components; only the message differs. */
  lemma MissingFieldSameVerdict(st: State)
    ensures MissingField(st).None? <==> MissingFieldIntended(st).None?
    ensures MissingField(st) == Some("DTSTART") <==> MissingFieldIntended(st) == Some("DTSTART")
  {
  }

  /** `END:` of the open component: every mandatory field must be
      present, and a missing one is reported by its own name. It rejects
      exactly the components the check as written rejects, with the same
      message except for a missing TZOFFSETTO. */
  function CloseComponent(st: State): (r: Result<State, ParseError>)
    requires st.comptype.Some?
    ensures MissingFieldIntended(st).Some? ==> r == Failure(MissingMandatory(MissingFieldIntended(st).value))
    ensures r.Failure? <==> MissingField(st).Some?
    ensures MissingField(st).Some? && !(st.foundDtstart && st.offsetFrom.Some?) ==>
      r == Failure(MissingMandatory(MissingField(st).value))
    ensures r.Success? ==>
      && r.value.comps == st.comps + [Component(st.offsetFrom.value, st.offsetTo.value,
                                                st.comptype.value == "DAYLIGHT", st.tzname, st.rrulelines)]
      && r.value.comptype.None? && r.value.vtz == st.vtz && r.value.invtz == st.invtz
  {
    match MissingFieldIntended(st)
    case Some(f) => Failure(MissingMandatory(f))
    case None =>
      var comp := Component(st.offsetFrom.value, st.offsetTo.value,
                            st.comptype.value == "DAYLIGHT", st.tzname, st.rrulelines);
      Success(st.(comps := st.comps + [comp], comptype := None))
  }

  /** The first `DTSTART` parameter other than `VALUE=DATE-TIME`. */
  function FirstBadDtstartParam(parms: seq<string>): (r: Option<string>)
    ensures r.None? <==> forall k :: 0 <= k < |parms| ==> parms[k] == "VALUE=DATE-TIME"
    ensures r.Some? ==> r.value in parms && r.value != "VALUE=DATE-TIME"
  {
    if parms == [] then None
    else if parms[0] != "VALUE=DATE-TIME" then Some(parms[0])
    else FirstBadDtstartParam(parms[1..])
  }

  /** An offset-valued property inside a component. */
  function OffsetProperty(name: string, parms: seq<string>, value: string): Result<int, ParseError> {
    if parms != [] then Failure(UnsupportedParam(name, parms[0]))
    else
      match ParseOffset(value)
      case Failure(e) => Failure(BadOffset(e))
      case Success(o) => Success(o)
  }

  /** A property line inside an open `STANDARD`/`DAYLIGHT` component. */
  function ComponentProperty(st: State, name: string, parms: seq<string>, value: string, line: string)
    : (r: Result<State, ParseError>)
    ensures r.Success? ==>
      && r.value.vtz == st.vtz && r.value.comps == st.comps && r.value.invtz == st.invtz
      && r.value.comptype == st.comptype && r.value.tzid == st.tzid
  {
    if name == "DTSTART" then
      match FirstBadDtstartParam(parms)
      case Some(p) => Failure(UnsupportedDtstartParam(p))
      case None => Success(st.(rrulelines := st.rrulelines + [line], foundDtstart := true))
    else if name in {"RRULE", "RDATE", "EXRULE", "EXDATE"} then
      Success(st.(rrulelines := st.rrulelines + [line]))
    else if name == "TZOFFSETFROM" then
      var o :- OffsetProperty(name, parms, value);
      Success(st.(offsetFrom := Some(o)))
    else if name == "TZOFFSETTO" then
      var o :- OffsetProperty(name, parms, value);
      Success(st.(offsetTo := Some(o)))
    else if name == "TZNAME" then
      if parms != [] then Failure(UnsupportedParam(name, parms[0]))
      else Success(st.(tzname := Some(value)))
    else if name == "COMMENT" then Success(st)
    else Failure(UnsupportedProperty(name))
  }

  /** A property line of the `VTIMEZONE` itself, outside any component. */
  function TimezoneProperty(st: State, name: string, parms: seq<string>, value: string)
    : (r: Result<State, ParseError>)
    ensures name !in {"TZID", "TZURL", "LAST-MODIFIED", "COMMENT"} ==> r == Failure(UnsupportedProperty(name))
    ensures r.Success? ==>
      && r.value.vtz == st.vtz && r.value.comps == st.comps && r.value.invtz == st.invtz
      && r.value.comptype == st.comptype
  {
    if name == "TZID" then
      if parms != [] then Failure(UnsupportedParam(name, parms[0]))
      else Success(st.(tzid := Some(value)))
    else if name in {"TZURL", "LAST-MODIFIED", "COMMENT"} then Success(st)
    else Failure(UnsupportedProperty(name))
  }

  /** A TZID Python treats as given: present and not the empty string. */
  predicate HasTzid(st: State) {
    st.tzid.Some? && st.tzid.value != ""
  }

  /** The zone an `END:VTIMEZONE` would store. */
  function Closed(st: State): VTimezone
    requires st.tzid.Some?
  {
    VTimezone(st.tzid.value, st.comps)
  }

  /** One iteration of the main loop of `_parse_rfc`. */
  function Step(st: State, line: string): (r: Result<State, ParseError>)
    // The mapping changes only when a complete block closes, by one entry keyed by its TZID.
    ensures r.Success? && r.value.vtz != st.vtz ==>
      && st.invtz && st.comptype.None? && HasTzid(st) && st.comps != []
      && r.value.vtz == st.vtz[st.tzid.value := Closed(st)]
  {
    if line == [] then Success(st)
    else
      match LineParts(line)
      case None => Failure(MissingColon(line))
      case Some((name, parms, value)) =>
        if st.invtz then
          if name == "BEGIN" then
            if value == "STANDARD" || value == "DAYLIGHT" then
              Success(st.(comptype := Some(value), foundDtstart := false, offsetFrom := None,
                          offsetTo := None, rrulelines := [], tzname := None))
            else Failure(UnknownComponent(value))
          else if name == "END" then
            if value == "VTIMEZONE" then
              if st.comptype.Some? then Failure(ComponentNotClosed(st.comptype.value))
              else if !HasTzid(st) then Failure(MissingTzid)
              else if st.comps == [] then Failure(NoComponents)
              else Success(st.(vtz := st.vtz[st.tzid.value := Closed(st)], invtz := false))
            else if st.comptype.Some? && value == st.comptype.value then CloseComponent(st)
            else Failure(InvalidComponentEnd(value))
          else if st.comptype.Some? then ComponentProperty(st, name, parms, value, line)
          else TimezoneProperty(st, name, parms, value)
        else if name == "BEGIN" && value == "VTIMEZONE" then
          Success(st.(tzid := None, comps := [], invtz := true))
        else Success(st)
  }

  /** The error and pass-through cases of `Step`. */
  lemma StepCases(st: State, line: string)
    // Structural errors inside a VTIMEZONE.
    ensures line != [] && ':' !in line ==> Step(st, line) == Failure(MissingColon(line))
    ensures var p := LineParts(line);
      p.Some? && st.invtz && p.value.0 == "BEGIN" && p.value.2 != "STANDARD" && p.value.2 != "DAYLIGHT"
      ==> Step(st, line) == Failure(UnknownComponent(p.value.2))
    ensures var p := LineParts(line);
      p.Some? && st.invtz && p.value.0 == "END" && p.value.2 == "VTIMEZONE" ==>
        && (st.comptype.Some? ==> Step(st, line) == Failure(ComponentNotClosed(st.comptype.value)))
        && (st.comptype.None? && !HasTzid(st) ==> Step(st, line) == Failure(MissingTzid))
        && (st.comptype.None? && HasTzid(st) && st.comps == [] ==> Step(st, line) == Failure(NoComponents))
    ensures var p := LineParts(line);
      p.Some? && st.invtz && p.value.0 == "END" && p.value.2 != "VTIMEZONE"
        && (st.comptype.None? || p.value.2 != st.comptype.value)
      ==> Step(st, line) == Failure(InvalidComponentEnd(p.value.2))
    ensures var p := LineParts(line);
      p.Some? && st.invtz && st.comptype.Some? && p.value.0 == "END" && p.value.2 == st.comptype.value
        && p.value.2 != "VTIMEZONE" && MissingFieldIntended(st).Some?
      ==> Step(st, line) == Failure(MissingMandatory(MissingFieldIntended(st).value))
    ensures var p := LineParts(line);
      p.Some? && st.invtz && st.comptype.None? && p.value.0 !in {"BEGIN", "END", "TZID", "TZURL", "LAST-MODIFIED", "COMMENT"}
      ==> Step(st, line) == Failure(UnsupportedProperty(p.value.0))
    ensures var p := LineParts(line);
      p.Some? && st.invtz && st.comptype.Some?
        && p.value.0 !in {"BEGIN", "END", "DTSTART", "RRULE", "RDATE", "EXRULE", "EXDATE",
                          "TZOFFSETFROM", "TZOFFSETTO", "TZNAME", "COMMENT"}
      ==> Step(st, line) == Failure(UnsupportedProperty(p.value.0))
    // Outside a VTIMEZONE only BEGIN:VTIMEZONE does anything.
    ensures var p := LineParts(line);
      p.Some? && !st.invtz && !(p.value.0 == "BEGIN" && p.value.2 == "VTIMEZONE") ==> Step(st, line) == Success(st)
  {
  }

  /** The main loop over all lines; the first failure aborts the parse. */
  function Run(lines: seq<string>, st: State): Result<State, ParseError> {
    if lines == [] then Success(st)
    else
      var next :- Step(st, lines[0]);
      Run(lines[1..], next)
  }

  /** `_parse_rfc`: split into lines (none at all is an error), unfold,
      run the state machine, and keep the mapping it built. A block still
      open at the end of the input is dropped without an error. */
  function ParseRfc(s: string): (r: Result<map<string, VTimezone>, ParseError>)
    ensures s == [] ==> r == Failure(EmptyString)
  {
    var lines := SplitLines(s);
    if lines == [] then Failure(EmptyString)
    else
      var st :- Run(Unfolded(lines), Initial);
      Success(st.vtz)
  }

  /** Every stored zone sits under its own non-empty TZID and has components. */
  predicate WellKeyed(vtz: map<string, VTimezone>) {
    forall k :: k in vtz ==> k != "" && vtz[k].tzid == k && vtz[k].comps != []
  }

  /** Running lines from a well-keyed mapping leaves it well keyed. */
  lemma {:induction false} RunWellKeyed(lines: seq<string>, st: State)
    requires WellKeyed(st.vtz)
    ensures Run(lines, st).Success? ==> WellKeyed(Run(lines, st).value.vtz)
    decreases |lines|
  {
    if lines != [] {
      var next := Step(st, lines[0]);
      if next.Success? {
        RunWellKeyed(lines[1..], next.value);
      }
    }
  }

  /** Whatever text it reads, a successful `_parse_rfc` stores every zone
      under its own TZID, never under an empty one, and never without
      components. */
  lemma ParseRfcWellKeyed(s: string)
    ensures ParseRfc(s).Success? ==> WellKeyed(ParseRfc(s).value)
  {
    var lines := SplitLines(s);
    if lines != [] {
      RunWellKeyed(Unfolded(lines), Initial);
    }
  }

  datatype GetError = NoTimezones | MoreThanOneTimezone

  /** The key of a one-entry mapping. */
  function SoleKey(m: map<string, VTimezone>): (k: string)
    requires |m| == 1
    ensures k in m && m.Keys == {k}
  {
    assert forall a, b :: a in m && b in m ==> a == b by {
      forall a, b | a in m && b in m
        ensures a == b
      {
        if a != b {
          assert {a, b} <= m.Keys;
          SubsetCardinality({a, b}, m.Keys);
        }
      }
    }
    var k :| k in m;
    k
  }

  lemma SubsetCardinality(a: set<string>, b: set<string>)
    requires a <= b
    ensures |a| <= |b|
  {
    assert b == a + (b - a);
    assert a * (b - a) == {};
  }

  /** `tzical.get`: without a TZID, the only zone, or an error when there
      are none or several; with a TZID, the zone stored under it, if any. */
  function Get(vtz: map<string, VTimezone>, tzid: Option<string>): (r: Result<Option<VTimezone>, GetError>)
    ensures tzid.None? && |vtz| == 0 ==> r == Failure(NoTimezones)
    ensures tzid.None? && |vtz| > 1 ==> r == Failure(MoreThanOneTimezone)
    ensures tzid.None? && |vtz| == 1 ==> exists k :: vtz.Keys == {k} && r == Success(Some(vtz[k]))
    ensures tzid.Some? ==> r == Success(if tzid.value in vtz then Some(vtz[tzid.value]) else None)
  {
    if tzid.None? then
      if |vtz| == 0 then Failure(NoTimezones)
      else if |vtz| > 1 then Failure(MoreThanOneTimezone)
      else Success(Some(vtz[SoleKey(vtz)]))
    else if tzid.value in vtz then Success(Some(vtz[tzid.value]))
    else Success(None)
  }
}
