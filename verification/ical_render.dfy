/** Writing zone definitions out as `VTIMEZONE` text, and what the reader
    of `IcalParser` makes of that text: a complete block reads back as
    exactly one zone keyed by its TZID, and a component lacking a
    mandatory property makes the whole parse fail, naming the property
    that is missing. */
module IcalRender {

  import opened Base
  import opened Text
  import opened IcalOffset
  import opened IcalLines
  import opened IcalParser

  /** A `STANDARD`/`DAYLIGHT` sub-block to write; each mandatory property
      may be left out. */
  datatype ComponentDef = ComponentDef(
    isDst: bool,
    dtstart: Option<string>,
    offsetFrom: Option<int>,
    offsetTo: Option<int>,
    tzname: Option<string>,
    rules: seq<string>)

  datatype ZoneDef = ZoneDef(tzid: string, comps: seq<ComponentDef>)

  predicate OffsetInRange(o: Option<int>) {
    o.None? || -360000 < o.value < 360000
  }

  /** The offsets fit the two-digit-hour form. */
  predicate Writable(c: ComponentDef) {
    OffsetInRange(c.offsetFrom) && OffsetInRange(c.offsetTo)
  }

  predicate AllWritable(cs: seq<ComponentDef>) {
    forall k :: 0 <= k < |cs| ==> Writable(cs[k])
  }

  predicate Complete(c: ComponentDef) {
    c.dtstart.Some? && c.offsetFrom.Some? && c.offsetTo.Some?
  }

  function Kind(c: ComponentDef): string {
    if c.isDst then "DAYLIGHT" else "STANDARD"
  }

  /** A content line without parameters. */
  function PropLine(name: string, value: string): string {
    name + ":" + value
  }

  function OptLine(name: string, v: Option<string>): seq<string> {
    if v.Some? then [PropLine(name, v.value)] else []
  }

  function OffsetLine(name: string, o: Option<int>): seq<string>
    requires OffsetInRange(o)
  {
    if o.Some? then [PropLine(name, FormatOffset(o.value))] else []
  }

  function RuleLines(rules: seq<string>): (r: seq<string>)
    ensures |r| == |rules|
  {
    if rules == [] then [] else [PropLine("RRULE", rules[0])] + RuleLines(rules[1..])
  }

  // The lines of a component, built up property group by property group.

  function UpToBegin(c: ComponentDef): seq<string> {
    [PropLine("BEGIN", Kind(c))]
  }

  function UpToDtstart(c: ComponentDef): seq<string> {
    UpToBegin(c) + OptLine("DTSTART", c.dtstart)
  }

  function UpToFrom(c: ComponentDef): seq<string>
    requires Writable(c)
  {
    UpToDtstart(c) + OffsetLine("TZOFFSETFROM", c.offsetFrom)
  }

  function UpToTo(c: ComponentDef): seq<string>
    requires Writable(c)
  {
    UpToFrom(c) + OffsetLine("TZOFFSETTO", c.offsetTo)
  }

  function UpToName(c: ComponentDef): seq<string>
    requires Writable(c)
  {
    UpToTo(c) + OptLine("TZNAME", c.tzname)
  }

  function UpToRules(c: ComponentDef): seq<string>
    requires Writable(c)
  {
    UpToName(c) + RuleLines(c.rules)
  }

  /** `BEGIN`, the properties that are given, the rules, `END`. */
  function RenderComponent(c: ComponentDef): seq<string>
    requires Writable(c)
  {
    UpToRules(c) + [PropLine("END", Kind(c))]
  }

  function RenderComponents(cs: seq<ComponentDef>): seq<string>
    requires AllWritable(cs)
  {
    if cs == [] then [] else RenderComponent(cs[0]) + RenderComponents(cs[1..])
  }

  function ZoneHead(z: ZoneDef): seq<string> {
    [PropLine("BEGIN", "VTIMEZONE"), PropLine("TZID", z.tzid)]
  }

  function RenderZone(z: ZoneDef): seq<string>
    requires AllWritable(z.comps)
  {
    ZoneHead(z) + RenderComponents(z.comps) + [PropLine("END", "VTIMEZONE")]
  }

  /** The component the reader builds from a complete definition. */
  function Parsed(c: ComponentDef): Component
    requires Complete(c)
  {
    Component(c.offsetFrom.value, c.offsetTo.value, c.isDst, c.tzname,
              [PropLine("DTSTART", c.dtstart.value)] + RuleLines(c.rules))
  }

  function ParsedAll(cs: seq<ComponentDef>): (r: seq<Component>)
    requires forall k :: 0 <= k < |cs| ==> Complete(cs[k])
    ensures |r| == |cs|
  {
    if cs == [] then [] else [Parsed(cs[0])] + ParsedAll(cs[1..])
  }

  /** The first missing mandatory property, in the order the reader checks. */
  function MissingName(c: ComponentDef): Option<string> {
    if c.dtstart.None? then Some("DTSTART")
    else if c.offsetFrom.None? then Some("TZOFFSETFROM")
    else if c.offsetTo.None? then Some("TZOFFSETTO")
    else None
  }

  /** The report for the first incomplete component, if any. */
  function FirstMissing(cs: seq<ComponentDef>): (r: Option<string>)
    ensures r.None? <==> forall k :: 0 <= k < |cs| ==> Complete(cs[k])
  {
    if cs == [] then None
    else if MissingName(cs[0]).Some? then MissingName(cs[0])
    else FirstMissing(cs[1..])
  }

  /** Continues a parse with more lines unless it has already failed. */
  function Then(r: Result<State, ParseError>, lines: seq<string>): Result<State, ParseError> {
    match r
    case Failure(e) => Failure(e)
    case Success(s) => Run(lines, s)
  }

  /** Running two blocks of lines is running the first, then the second. */
  lemma {:induction false} RunAppend(a: seq<string>, b: seq<string>, st: State)
    ensures Run(a + b, st) == Then(Run(a, st), b)
    decreases |a|
  {
    if a != [] {
      assert (a + b)[0] == a[0];
      assert (a + b)[1..] == a[1..] + b;
      match Step(st, a[0])
      case Failure(e) =>
      case Success(s) => RunAppend(a[1..], b, s);
    } else {
      assert a + b == b;
    }
  }

  lemma Chain(a: seq<string>, b: seq<string>, st: State, mid: State)
    requires Run(a, st) == Success(mid)
    ensures Run(a + b, st) == Run(b, mid)
  {
    RunAppend(a, b, st);
  }

  lemma ChainFail(a: seq<string>, b: seq<string>, st: State, e: ParseError)
    requires Run(a, st) == Failure(e)
    ensures Run(a + b, st) == Failure(e)
  {
    RunAppend(a, b, st);
  }

  lemma RunOne(l: string, st: State)
    ensures Run([l], st) == Step(st, l)
  {
    assert [l][1..] == [];
  }

  lemma AppendOne<T>(a: seq<T>, x: T, b: seq<T>)
    ensures (a + [x]) + b == a + ([x] + b)
  {
  }

  predicate NoLower(p: string) {
    forall i :: 0 <= i < |p| ==> !('a' <= p[i] <= 'z')
  }

  /** A property line `p:v` with a plain upper-case name splits into `p`,
      no parameters and `v`. */
  lemma LinePartsOf(p: string, v: string)
    requires ':' !in p && ';' !in p && NoLower(p)
    ensures LineParts(PropLine(p, v)) == Some((p, [], v))
  {
    var line := PropLine(p, v);
    assert line == p + [':'] + v;
    SplitOnceAt(p, ':', v);
    assert SplitOnce(line, ':') == Some((p, v));
    SplitNoSep(p, ';');
    UpperNoLower(p);
    var parts := Split(p, ';');
    assert parts[1..] == [];
    assert Upper(parts[0]) == p;
  }

  /** A property line inside an open component goes to `ComponentProperty`. */
  lemma PropertyStep(st: State, line: string, p: string, v: string)
    requires LineParts(line) == Some((p, [], v))
    requires st.invtz && st.comptype.Some? && p != "BEGIN" && p != "END"
    ensures Step(st, line) == ComponentProperty(st, p, [], v, line)
  {
  }

  lemma FromProperty(s: State, line: string, v: string, o: int)
    requires OffsetProperty("TZOFFSETFROM", [], v) == Success(o)
    ensures ComponentProperty(s, "TZOFFSETFROM", [], v, line) == Success(s.(offsetFrom := Some(o)))
  {
  }

  lemma ToProperty(s: State, line: string, v: string, o: int)
    requires OffsetProperty("TZOFFSETTO", [], v) == Success(o)
    ensures ComponentProperty(s, "TZOFFSETTO", [], v, line) == Success(s.(offsetTo := Some(o)))
  {
  }

  // The parser state after each property group of a component, each
  // written as one update of the state before `BEGIN`.

  function Opened(st: State, c: ComponentDef): State {
    st.(comptype := Some(Kind(c)), foundDtstart := false, offsetFrom := None,
        offsetTo := None, rrulelines := [], tzname := None)
  }

  function WithDtstart(st: State, c: ComponentDef): State {
    st.(comptype := Some(Kind(c)), foundDtstart := c.dtstart.Some?, offsetFrom := None,
        offsetTo := None, rrulelines := OptLine("DTSTART", c.dtstart), tzname := None)
  }

  function WithFrom(st: State, c: ComponentDef): State {
    st.(comptype := Some(Kind(c)), foundDtstart := c.dtstart.Some?, offsetFrom := c.offsetFrom,
        offsetTo := None, rrulelines := OptLine("DTSTART", c.dtstart), tzname := None)
  }

  function WithTo(st: State, c: ComponentDef): State {
    st.(comptype := Some(Kind(c)), foundDtstart := c.dtstart.Some?, offsetFrom := c.offsetFrom,
        offsetTo := c.offsetTo, rrulelines := OptLine("DTSTART", c.dtstart), tzname := None)
  }

  function WithName(st: State, c: ComponentDef): State {
    st.(comptype := Some(Kind(c)), foundDtstart := c.dtstart.Some?, offsetFrom := c.offsetFrom,
        offsetTo := c.offsetTo, rrulelines := OptLine("DTSTART", c.dtstart), tzname := c.tzname)
  }

  /** The state after the property lines of a component, before its END. */
  function Filled(st: State, c: ComponentDef): State {
    st.(comptype := Some(Kind(c)), foundDtstart := c.dtstart.Some?, offsetFrom := c.offsetFrom,
        offsetTo := c.offsetTo, rrulelines := OptLine("DTSTART", c.dtstart) + RuleLines(c.rules),
        tzname := c.tzname)
  }

  // One line at a time, from any state of the right shape.

  lemma BeginStep(s: State, kind: string)
    requires s.invtz && (kind == "STANDARD" || kind == "DAYLIGHT")
    ensures Step(s, PropLine("BEGIN", kind))
         == Success(s.(comptype := Some(kind), foundDtstart := false, offsetFrom := None,
                       offsetTo := None, rrulelines := [], tzname := None))
  {
    LinePartsOf("BEGIN", kind);
  }

  lemma DtstartStep(s: State, d: string)
    requires s.invtz && s.comptype.Some?
    ensures Step(s, PropLine("DTSTART", d))
         == Success(s.(rrulelines := s.rrulelines + [PropLine("DTSTART", d)], foundDtstart := true))
  {
    LinePartsOf("DTSTART", d);
    PropertyStep(s, PropLine("DTSTART", d), "DTSTART", d);
  }

  lemma OffsetPropertyOf(name: string, o: int)
    requires -360000 < o < 360000
    ensures OffsetProperty(name, [], FormatOffset(o)) == Success(o)
  {
    FormatThenParse(o);
  }

  lemma FromLineStep(s: State, line: string, v: string, o: int)
    requires s.invtz && s.comptype.Some?
    requires LineParts(line) == Some(("TZOFFSETFROM", [], v)) && OffsetProperty("TZOFFSETFROM", [], v) == Success(o)
    ensures Step(s, line) == Success(s.(offsetFrom := Some(o)))
  {
    PropertyStep(s, line, "TZOFFSETFROM", v);
    FromProperty(s, line, v, o);
  }

  lemma FromStep(s: State, o: int)
    requires s.invtz && s.comptype.Some? && -360000 < o < 360000
    ensures Step(s, PropLine("TZOFFSETFROM", FormatOffset(o))) == Success(s.(offsetFrom := Some(o)))
  {
    var v := FormatOffset(o);
    LinePartsOf("TZOFFSETFROM", v);
    OffsetPropertyOf("TZOFFSETFROM", o);
    FromLineStep(s, PropLine("TZOFFSETFROM", v), v, o);
  }

  lemma ToLineStep(s: State, line: string, v: string, o: int)
    requires s.invtz && s.comptype.Some?
    requires LineParts(line) == Some(("TZOFFSETTO", [], v)) && OffsetProperty("TZOFFSETTO", [], v) == Success(o)
    ensures Step(s, line) == Success(s.(offsetTo := Some(o)))
  {
    PropertyStep(s, line, "TZOFFSETTO", v);
    ToProperty(s, line, v, o);
  }

  lemma ToStep(s: State, o: int)
    requires s.invtz && s.comptype.Some? && -360000 < o < 360000
    ensures Step(s, PropLine("TZOFFSETTO", FormatOffset(o))) == Success(s.(offsetTo := Some(o)))
  {
    var v := FormatOffset(o);
    LinePartsOf("TZOFFSETTO", v);
    OffsetPropertyOf("TZOFFSETTO", o);
    ToLineStep(s, PropLine("TZOFFSETTO", v), v, o);
  }

  lemma NameStep(s: State, n: string)
    requires s.invtz && s.comptype.Some?
    ensures Step(s, PropLine("TZNAME", n)) == Success(s.(tzname := Some(n)))
  {
    LinePartsOf("TZNAME", n);
    PropertyStep(s, PropLine("TZNAME", n), "TZNAME", n);
  }

  lemma RuleStep(s: State, r: string)
    requires s.invtz && s.comptype.Some?
    ensures Step(s, PropLine("RRULE", r)) == Success(s.(rrulelines := s.rrulelines + [PropLine("RRULE", r)]))
  {
    LinePartsOf("RRULE", r);
    PropertyStep(s, PropLine("RRULE", r), "RRULE", r);
  }

  lemma EndStep(s: State)
    requires s.invtz && s.comptype.Some? && (s.comptype.value == "STANDARD" || s.comptype.value == "DAYLIGHT")
    ensures Step(s, PropLine("END", s.comptype.value)) == CloseComponent(s)
  {
    LinePartsOf("END", s.comptype.value);
  }

  lemma BeginZoneStep(s: State)
    requires !s.invtz
    ensures Step(s, PropLine("BEGIN", "VTIMEZONE")) == Success(s.(tzid := None, comps := [], invtz := true))
  {
    LinePartsOf("BEGIN", "VTIMEZONE");
  }

  lemma TzidStep(s: State, id: string)
    requires s.invtz && s.comptype.None?
    ensures Step(s, PropLine("TZID", id)) == Success(s.(tzid := Some(id)))
  {
    LinePartsOf("TZID", id);
  }

  lemma EndZoneStep(s: State)
    requires s.invtz && s.comptype.None?
    ensures !HasTzid(s) ==> Step(s, PropLine("END", "VTIMEZONE")) == Failure(MissingTzid)
    ensures HasTzid(s) && s.comps == [] ==> Step(s, PropLine("END", "VTIMEZONE")) == Failure(NoComponents)
    ensures HasTzid(s) && s.comps != [] ==>
      Step(s, PropLine("END", "VTIMEZONE")) == Success(s.(vtz := s.vtz[s.tzid.value := Closed(s)], invtz := false))
  {
    LinePartsOf("END", "VTIMEZONE");
  }

  // A property group at a time.

  lemma BeginRun(st: State, c: ComponentDef)
    requires st.invtz
    ensures Run(UpToBegin(c), st) == Success(Opened(st, c))
  {
    BeginStep(st, Kind(c));
    RunOne(PropLine("BEGIN", Kind(c)), st);
  }

  lemma DtstartRun(st: State, c: ComponentDef)
    requires st.invtz
    ensures Run(OptLine("DTSTART", c.dtstart), Opened(st, c)) == Success(WithDtstart(st, c))
  {
    var o := Opened(st, c);
    if c.dtstart.Some? {
      DtstartStep(o, c.dtstart.value);
      RunOne(PropLine("DTSTART", c.dtstart.value), o);
      assert o.rrulelines + [PropLine("DTSTART", c.dtstart.value)] == OptLine("DTSTART", c.dtstart);
    }
  }

  lemma FromRun(st: State, c: ComponentDef)
    requires st.invtz && Writable(c)
    ensures Run(OffsetLine("TZOFFSETFROM", c.offsetFrom), WithDtstart(st, c)) == Success(WithFrom(st, c))
  {
    var s := WithDtstart(st, c);
    if c.offsetFrom.Some? {
      FromStep(s, c.offsetFrom.value);
      RunOne(PropLine("TZOFFSETFROM", FormatOffset(c.offsetFrom.value)), s);
    }
  }

  lemma ToRun(st: State, c: ComponentDef)
    requires st.invtz && Writable(c)
    ensures Run(OffsetLine("TZOFFSETTO", c.offsetTo), WithFrom(st, c)) == Success(WithTo(st, c))
  {
    var s := WithFrom(st, c);
    if c.offsetTo.Some? {
      ToStep(s, c.offsetTo.value);
      RunOne(PropLine("TZOFFSETTO", FormatOffset(c.offsetTo.value)), s);
    }
  }

  lemma NameRun(st: State, c: ComponentDef)
    requires st.invtz
    ensures Run(OptLine("TZNAME", c.tzname), WithTo(st, c)) == Success(WithName(st, c))
  {
    var s := WithTo(st, c);
    if c.tzname.Some? {
      NameStep(s, c.tzname.value);
      RunOne(PropLine("TZNAME", c.tzname.value), s);
    }
  }

  /** Each `RRULE` line is appended to the recurrence lines, in order. */
  lemma {:induction false} RulesRun(st: State, rules: seq<string>)
    requires st.invtz && st.comptype.Some?
    ensures Run(RuleLines(rules), st) == Success(st.(rrulelines := st.rrulelines + RuleLines(rules)))
    decreases |rules|
  {
    if rules != [] {
      var l := PropLine("RRULE", rules[0]);
      RuleStep(st, rules[0]);
      var s1 := st.(rrulelines := st.rrulelines + [l]);
      assert RuleLines(rules)[0] == l;
      assert RuleLines(rules)[1..] == RuleLines(rules[1..]);
      assert Run(RuleLines(rules), st) == Run(RuleLines(rules[1..]), s1);
      RulesRun(s1, rules[1..]);
      AppendOne(st.rrulelines, l, RuleLines(rules[1..]));
    } else {
      assert st.rrulelines + RuleLines(rules) == st.rrulelines;
    }
  }

  lemma UpToDtstartRun(st: State, c: ComponentDef)
    requires st.invtz
    ensures Run(UpToDtstart(c), st) == Success(WithDtstart(st, c))
  {
    BeginRun(st, c);
    Chain(UpToBegin(c), OptLine("DTSTART", c.dtstart), st, Opened(st, c));
    DtstartRun(st, c);
  }

  lemma UpToFromRun(st: State, c: ComponentDef)
    requires st.invtz && Writable(c)
    ensures Run(UpToFrom(c), st) == Success(WithFrom(st, c))
  {
    UpToDtstartRun(st, c);
    Chain(UpToDtstart(c), OffsetLine("TZOFFSETFROM", c.offsetFrom), st, WithDtstart(st, c));
    FromRun(st, c);
  }

  lemma UpToToRun(st: State, c: ComponentDef)
    requires st.invtz && Writable(c)
    ensures Run(UpToTo(c), st) == Success(WithTo(st, c))
  {
    UpToFromRun(st, c);
    Chain(UpToFrom(c), OffsetLine("TZOFFSETTO", c.offsetTo), st, WithFrom(st, c));
    ToRun(st, c);
  }

  lemma UpToNameRun(st: State, c: ComponentDef)
    requires st.invtz && Writable(c)
    ensures Run(UpToName(c), st) == Success(WithName(st, c))
  {
    UpToToRun(st, c);
    Chain(UpToTo(c), OptLine("TZNAME", c.tzname), st, WithTo(st, c));
    NameRun(st, c);
  }

  lemma UpToRulesRun(st: State, c: ComponentDef)
    requires st.invtz && Writable(c)
    ensures Run(UpToRules(c), st) == Success(Filled(st, c))
  {
    UpToNameRun(st, c);
    Chain(UpToName(c), RuleLines(c.rules), st, WithName(st, c));
    RulesRun(WithName(st, c), c.rules);
  }

  /** What closing a filled component gives. */
  lemma CloseFilled(st: State, c: ComponentDef)
    ensures MissingName(c).Some? ==> CloseComponent(Filled(st, c)) == Failure(MissingMandatory(MissingName(c).value))
    ensures MissingName(c).None? ==>
      CloseComponent(Filled(st, c)) == Success(Filled(st, c).(comps := st.comps + [Parsed(c)], comptype := None))
  {
  }

  /** Reading one written component inside a VTIMEZONE: it fails on the
      first missing mandatory property, else it appends the component. */
  lemma ComponentRun(st: State, c: ComponentDef)
    requires st.invtz && Writable(c)
    ensures MissingName(c).Some? ==> Run(RenderComponent(c), st) == Failure(MissingMandatory(MissingName(c).value))
    ensures MissingName(c).None? ==>
      Run(RenderComponent(c), st) == Success(Filled(st, c).(comps := st.comps + [Parsed(c)], comptype := None))
  {
    var e := PropLine("END", Kind(c));
    var f := Filled(st, c);
    UpToRulesRun(st, c);
    Chain(UpToRules(c), [e], st, f);
    RunOne(e, f);
    EndStep(f);
    CloseFilled(st, c);
  }

  /** Reading a run of written components: the first incomplete one fails
      the parse; otherwise all of them are appended in order. */
  lemma {:induction false} ComponentsRun(st: State, cs: seq<ComponentDef>)
    requires st.invtz && AllWritable(cs)
    ensures FirstMissing(cs).Some? ==>
      Run(RenderComponents(cs), st) == Failure(MissingMandatory(FirstMissing(cs).value))
    ensures FirstMissing(cs).None? ==>
      var r := Run(RenderComponents(cs), st);
      && r.Success? && r.value.invtz && r.value.vtz == st.vtz && r.value.tzid == st.tzid
      && r.value.comps == st.comps + ParsedAll(cs)
      && (cs == [] ==> r.value.comptype == st.comptype)
      && (cs != [] ==> r.value.comptype.None?)
    decreases |cs|
  {
    if cs != [] {
      assert AllWritable(cs[1..]);
      ComponentRun(st, cs[0]);
      if MissingName(cs[0]).Some? {
        ChainFail(RenderComponent(cs[0]), RenderComponents(cs[1..]), st, MissingMandatory(MissingName(cs[0]).value));
      } else {
        var s := Filled(st, cs[0]).(comps := st.comps + [Parsed(cs[0])], comptype := None);
        Chain(RenderComponent(cs[0]), RenderComponents(cs[1..]), st, s);
        ComponentsRun(s, cs[1..]);
        if FirstMissing(cs).None? {
          AppendOne(st.comps, Parsed(cs[0]), ParsedAll(cs[1..]));
        }
      }
    } else {
      assert st.comps + ParsedAll(cs) == st.comps;
    }
  }

  lemma ZoneHeadRun(st: State, z: ZoneDef)
    requires !st.invtz && st.comptype.None?
    ensures Run(ZoneHead(z), st) == Success(st.(tzid := Some(z.tzid), comps := [], invtz := true))
  {
    var b := PropLine("BEGIN", "VTIMEZONE");
    var t := PropLine("TZID", z.tzid);
    var s1 := st.(tzid := None, comps := [], invtz := true);
    BeginZoneStep(st);
    TzidStep(s1, z.tzid);
    assert ZoneHead(z) == [b] + [t];
    RunOne(b, st);
    RunOne(t, s1);
    Chain([b], [t], st, s1);
  }

  /** The lines of a block up to its END run the components from the
      state just after TZID. */
  lemma ZoneBodyRun(st: State, z: ZoneDef)
    requires !st.invtz && st.comptype.None? && AllWritable(z.comps)
    ensures Run(ZoneHead(z) + RenderComponents(z.comps), st)
         == Run(RenderComponents(z.comps), st.(tzid := Some(z.tzid), comps := [], invtz := true))
  {
    ZoneHeadRun(st, z);
    Chain(ZoneHead(z), RenderComponents(z.comps), st, st.(tzid := Some(z.tzid), comps := [], invtz := true));
  }

  lemma LastLine(a: seq<string>, l: string, st: State, mid: State)
    requires Run(a, st) == Success(mid)
    ensures Run(a + [l], st) == Step(mid, l)
  {
    Chain(a, [l], st, mid);
    RunOne(l, mid);
  }

  /** Reading a written VTIMEZONE block outside any block. */
  lemma ZoneRun(st: State, z: ZoneDef)
    requires !st.invtz && st.comptype.None? && AllWritable(z.comps)
    ensures FirstMissing(z.comps).Some? ==>
      Run(RenderZone(z), st) == Failure(MissingMandatory(FirstMissing(z.comps).value))
    ensures FirstMissing(z.comps).None? && z.tzid == "" ==> Run(RenderZone(z), st) == Failure(MissingTzid)
    ensures FirstMissing(z.comps).None? && z.tzid != "" && z.comps == [] ==>
      Run(RenderZone(z), st) == Failure(NoComponents)
    ensures FirstMissing(z.comps).None? && z.tzid != "" && z.comps != [] ==>
      var r := Run(RenderZone(z), st);
      && r.Success? && !r.value.invtz && r.value.comptype.None?
      && r.value.vtz == st.vtz[z.tzid := VTimezone(z.tzid, ParsedAll(z.comps))]
  {
    var upto := ZoneHead(z) + RenderComponents(z.comps);
    var s2 := st.(tzid := Some(z.tzid), comps := [], invtz := true);
    ZoneBodyRun(st, z);
    ComponentsRun(s2, z.comps);
    if FirstMissing(z.comps).Some? {
      ChainFail(upto, [PropLine("END", "VTIMEZONE")], st, MissingMandatory(FirstMissing(z.comps).value));
    } else {
      var s3 := Run(upto, st).value;
      LastLine(upto, PropLine("END", "VTIMEZONE"), st, s3);
      EndZoneStep(s3);
      assert s3.comps == ParsedAll(z.comps);
    }
  }

  /** A line the reader keeps as it is: starts with an upper-case letter
      and holds no line boundary. */
  predicate PlainLine(l: string) {
    |l| > 0 && 'A' <= l[0] <= 'Z' && NoLineBreak(l)
  }

  predicate PlainLines(ls: seq<string>) {
    forall k :: 0 <= k < |ls| ==> PlainLine(ls[k])
  }

  lemma PlainAppend(a: seq<string>, b: seq<string>)
    requires PlainLines(a) && PlainLines(b)
    ensures PlainLines(a + b)
  {
    forall k | 0 <= k < |a + b|
      ensures PlainLine((a + b)[k])
    {
      if k < |a| { assert (a + b)[k] == a[k]; } else { assert (a + b)[k] == b[k - |a|]; }
    }
  }

  lemma PropPlain(p: string, v: string)
    requires PlainLine(p) && NoLineBreak(v)
    ensures PlainLine(PropLine(p, v))
  {
    var l := PropLine(p, v);
    assert forall i :: 0 <= i < |l| ==> l[i] == if i < |p| then p[i] else if i == |p| then ':' else v[i - |p| - 1];
  }

  /** The free-text values of a definition hold no line boundary. */
  predicate OneLineValues(c: ComponentDef) {
    && (c.dtstart.Some? ==> NoLineBreak(c.dtstart.value))
    && (c.tzname.Some? ==> NoLineBreak(c.tzname.value))
    && (forall k :: 0 <= k < |c.rules| ==> NoLineBreak(c.rules[k]))
  }

  lemma FormatOffsetPlain(x: int)
    requires -360000 < x < 360000
    ensures NoLineBreak(FormatOffset(x))
  {
    var s := FormatOffset(x);
    assert s[0] == '+' || s[0] == '-';
    assert forall i :: 1 <= i < |s| ==> IsDigit(s[i]) by {
      assert forall i :: 0 <= i < |Unsigned(s)| ==> IsDigit(Unsigned(s)[i]);
      assert forall i :: 1 <= i < |s| ==> s[i] == Unsigned(s)[i - 1];
    }
  }

  lemma {:induction false} RuleLinesPlain(rules: seq<string>)
    requires forall k :: 0 <= k < |rules| ==> NoLineBreak(rules[k])
    ensures PlainLines(RuleLines(rules))
    decreases |rules|
  {
    if rules != [] {
      PropPlain("RRULE", rules[0]);
      RuleLinesPlain(rules[1..]);
      PlainAppend([PropLine("RRULE", rules[0])], RuleLines(rules[1..]));
    }
  }

  lemma OptLinePlain(p: string, v: Option<string>)
    requires PlainLine(p) && (v.Some? ==> NoLineBreak(v.value))
    ensures PlainLines(OptLine(p, v))
  {
    if v.Some? { PropPlain(p, v.value); }
  }

  lemma OffsetLinePlain(p: string, o: Option<int>)
    requires PlainLine(p) && OffsetInRange(o)
    ensures PlainLines(OffsetLine(p, o))
  {
    if o.Some? {
      FormatOffsetPlain(o.value);
      PropPlain(p, FormatOffset(o.value));
    }
  }

  lemma UpToNamePlain(c: ComponentDef)
    requires Writable(c) && OneLineValues(c)
    ensures PlainLines(UpToName(c))
  {
    PropPlain("BEGIN", Kind(c));
    OptLinePlain("DTSTART", c.dtstart);
    OffsetLinePlain("TZOFFSETFROM", c.offsetFrom);
    OffsetLinePlain("TZOFFSETTO", c.offsetTo);
    OptLinePlain("TZNAME", c.tzname);
    PlainAppend(UpToBegin(c), OptLine("DTSTART", c.dtstart));
    PlainAppend(UpToDtstart(c), OffsetLine("TZOFFSETFROM", c.offsetFrom));
    PlainAppend(UpToFrom(c), OffsetLine("TZOFFSETTO", c.offsetTo));
    PlainAppend(UpToTo(c), OptLine("TZNAME", c.tzname));
  }

  lemma ComponentPlain(c: ComponentDef)
    requires Writable(c) && OneLineValues(c)
    ensures PlainLines(RenderComponent(c))
  {
    UpToNamePlain(c);
    RuleLinesPlain(c.rules);
    PlainAppend(UpToName(c), RuleLines(c.rules));
    PropPlain("END", Kind(c));
    PlainAppend(UpToRules(c), [PropLine("END", Kind(c))]);
  }

  lemma {:induction false} ComponentsPlain(cs: seq<ComponentDef>)
    requires AllWritable(cs) && forall k :: 0 <= k < |cs| ==> OneLineValues(cs[k])
    ensures PlainLines(RenderComponents(cs))
    decreases |cs|
  {
    if cs != [] {
      ComponentPlain(cs[0]);
      assert AllWritable(cs[1..]);
      ComponentsPlain(cs[1..]);
      PlainAppend(RenderComponent(cs[0]), RenderComponents(cs[1..]));
    }
  }

  /** The written text of a zone whose values all fit on one line. */
  predicate OneLineZone(z: ZoneDef) {
    && AllWritable(z.comps)
    && NoLineBreak(z.tzid)
    && forall k :: 0 <= k < |z.comps| ==> OneLineValues(z.comps[k])
  }

  lemma ZoneHeadPlain(z: ZoneDef)
    requires NoLineBreak(z.tzid)
    ensures PlainLines(ZoneHead(z))
  {
    PropPlain("BEGIN", "VTIMEZONE");
    PropPlain("TZID", z.tzid);
  }

  lemma ZonePlain(z: ZoneDef)
    requires OneLineZone(z)
    ensures PlainLines(RenderZone(z))
  {
    ZoneBodyPlain(z);
    PropPlain("END", "VTIMEZONE");
    PlainAppend(ZoneHead(z) + RenderComponents(z.comps), [PropLine("END", "VTIMEZONE")]);
  }

  lemma ZoneBodyPlain(z: ZoneDef)
    requires OneLineZone(z)
    ensures PlainLines(ZoneHead(z) + RenderComponents(z.comps))
  {
    ComponentsPlain(z.comps);
    ZoneHeadPlain(z);
    PlainAppend(ZoneHead(z), RenderComponents(z.comps));
  }

  /** Plain lines are already unfolded. */
  lemma PlainIsWellUnfolded(ls: seq<string>)
    requires PlainLines(ls)
    ensures WellUnfolded(ls)
  {
    forall k | 0 <= k < |ls|
      ensures RStrip(ls[k]) != [] && (k > 0 ==> ls[k][0] != ' ')
    {
      assert !IsSpace(ls[k][0]);
    }
  }

  /** The written text splits and unfolds back into the written lines. */
  lemma ZoneLinesBack(z: ZoneDef)
    requires OneLineZone(z)
    ensures SplitLines(JoinLines(RenderZone(z))) == RenderZone(z)
    ensures Unfolded(RenderZone(z)) == RenderZone(z)
  {
    ZonePlain(z);
    SplitJoinLines(RenderZone(z));
    PlainIsWellUnfolded(RenderZone(z));
    UnfoldedKeepsWellUnfolded(RenderZone(z));
  }

  /** Round trip through text: the `\n`-joined text of a complete block
      parses to the one-entry mapping from its TZID to its components,
      which `tzical.get` without a TZID then returns. */
  lemma ParseWrittenZone(z: ZoneDef)
    requires OneLineZone(z)
    requires z.tzid != "" && z.comps != [] && FirstMissing(z.comps).None?
    ensures ParseRfc(JoinLines(RenderZone(z))) == Success(map[z.tzid := VTimezone(z.tzid, ParsedAll(z.comps))])
    ensures Get(map[z.tzid := VTimezone(z.tzid, ParsedAll(z.comps))], None)
         == Success(Some(VTimezone(z.tzid, ParsedAll(z.comps))))
  {
    ZoneLinesBack(z);
    ZoneRun(Initial, z);
    GetOnly(z.tzid, VTimezone(z.tzid, ParsedAll(z.comps)));
  }

  lemma GetOnly(k: string, v: VTimezone)
    ensures Get(map[k := v], None) == Success(Some(v))
  {
    assert map[k := v].Keys == {k};
  }

  /** A block with an incomplete component makes the whole text fail,
      naming the first missing property. */
  lemma WrittenZoneMissingProperty(z: ZoneDef)
    requires OneLineZone(z)
    requires FirstMissing(z.comps).Some?
    ensures ParseRfc(JoinLines(RenderZone(z))) == Failure(MissingMandatory(FirstMissing(z.comps).value))
  {
    ZoneLinesBack(z);
    ZoneRun(Initial, z);
  }
}
