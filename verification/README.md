# dateutil time zones, modelled in Dafny

This project models the pure, sequential core of `dateutil.tz`
(`src/dateutil/tz/tz.py`) and proves properties of it. Wall times, UTC
instants and offsets are integer seconds. A wall time carries the PEP 495
`fold` bit. Recurrence rules, calendar arithmetic, the `TZ`-string parser
and the file system are parameters or input records.

- `Base`: `Option` and `Result`, the latter with the `:-` failure propagation.
- `Text`: the Python string operations the reader relies on. These are
  `str.isspace`, `strip`/`rstrip`, ASCII `upper`, `split`, and
  `splitlines` with its line boundaries.
- `FixedOffset`: `tzutc` and `tzoffset`. This covers their offsets,
  `fromutc` and `is_ambiguous`, Python `==` with the reflected `__eq__`,
  and `_get_supported_offset`.
- `Resolver`: `datetime_exists`, `datetime_ambiguous` and
  `resolve_imaginary` over an abstract zone. The zone is given by its
  `utcoffset(wall, fold)`, `dst(wall, fold)`, `fromutc(instant)` and an
  optional `is_ambiguous`.
- `TransitionZone`: a reference zone with one offset change. The
  resolver's results are characterised against it: gap, repeated
  interval, round trip, and the step over a gap.
- `IcalOffset`: `tzical._parse_offset`, plus a writer for offsets so
  that the round trip can be stated.
- `IcalLines`: the unfolding loop of `_parse_rfc`, both as the in-place
  loop and as a fold.
- `IcalParser`: the line-by-line `VTIMEZONE` state machine of
  `_parse_rfc`, and `tzical.get`.
- `IcalRender`: a writer for `VTIMEZONE` text, with end-to-end
  statements about what the reader makes of a written block.
- `IcalZone`: `_tzicalvtz`. This is the component choice with its
  fold adjustment and fallback, the ten-entry cache, and
  `utcoffset`/`dst`/`tzname`. `rrule.before(dt, inc=True)` is a
  parameter.
- `TzRange`: `tzrange.__init__`, `transitions`, `__eq__`,
  `tzstr.__init__` and `tzstr._delta`. The `TZ`-string parser's result
  is an input record, and `relativedelta` keyword sets are records.
- `GettzCache`: the two-tier cache of `gettz`. The weak tier is a map
  that may lose entries not kept alive. The strong tier is a bounded,
  ordered sequence. The uncached lookup `nocache` is an oracle.

Where the code and its documented behaviour differ, the model follows
the code. The two defects listed under "## Findings" are the exception:
each is modelled as written and corrected, and the rest of the model
uses the corrected definition. Every member built on a corrected
definition also states what the code as written does, and "## Left out"
names each of them.

- A `VTIMEZONE` block still open at the end of the input is dropped
  silently; it is not reported as an error (`IcalParser.ParseRfc`).
- Only a leading space marks a continuation line. A leading horizontal
  tab, which section 3.1 of RFC 5545 also allows, is not treated as one
  (`IcalLines.UnfoldStep`).

## Model

| member | source | states |
|---|---|---|
| FixedOffset.SupportedOffset | src/dateutil/tz/tz.py:1275-1285 | On Python 3.6 and later the offset is kept. Under the legacy rounding the result is a multiple of 60 within (x-30, x+30]. |
| FixedOffset.SupportedOffsetUnique | src/dateutil/tz/tz.py:1279-1285 | The legacy rounding's result is the only multiple of 60 in (x-30, x+30]: the nearest minute, with half a minute rounding up. |
| FixedOffset.MakeOffset | src/dateutil/tz/tz.py:147-156 | `tzoffset(name, offset)` keeps the name; its offset is whole minutes under the legacy rounding and is kept as given otherwise. |
| FixedOffset.FromUtc | src/dateutil/tz/tz.py:169-170 | `fromutc` yields the wall time whose UTC instant, at the zone's offset, is the given one. |
| FixedOffset.Equals | src/dateutil/tz/tz.py:112-117 | Python `==` between `tzutc` and `tzoffset`, in either order, holds exactly when the two offsets are equal. |
| FixedOffset.EqualsIgnoresName | src/dateutil/tz/tz.py:186-190 | `tzoffset` equality ignores names, and `tzutc` equals any zero-offset `tzoffset` from either side. |
| FixedOffset.AsZone | src/dateutil/tz/tz.py:158-184 | A fixed zone has the same offset for both folds and a DST amount of zero, and it defines its own `is_ambiguous`. |
| FixedOffset.FixedZoneIsRegular | src/dateutil/tz/tz.py:172-184 | In a fixed zone every wall time exists, none is ambiguous, the fold changes nothing, and `resolve_imaginary` returns its argument unchanged. |
| Resolver.ZoneOf | src/dateutil/tz/tz.py:1160-1163 | An explicit zone wins. Otherwise the datetime's own zone is used. A naive datetime without a zone is an error. |
| Resolver.DatetimeExists | src/dateutil/tz/tz.py:1160-1172 | A wall time exists exactly when going to UTC and back gives the same wall time; the fold is ignored in the comparison. |
| Resolver.DatetimeAmbiguous | src/dateutil/tz/tz.py:1195-1218 | The zone's own `is_ambiguous` decides when it exists and does not raise. Otherwise a wall time is ambiguous exactly when the fold changes the offset or the DST amount. |
| Resolver.ResolveImaginary | src/dateutil/tz/tz.py:1257-1264 | A datetime that is naive or exists comes back unchanged. An imaginary one moves forward by the offset a day later minus the offset a day earlier, with fold 0 and the same zone. |
| TransitionZone.ExistsIffNotInGap | src/dateutil/tz/tz.py:1165-1172 | Around one offset change, the round-trip test holds exactly for wall times outside the skipped interval. |
| TransitionZone.ExistsIffShownAtSomeInstant | src/dateutil/tz/tz.py:1167-1172 | The round-trip test agrees with an independent definition: some UTC instant shows this wall time. |
| TransitionZone.AmbiguousIffGapOrRepeat | src/dateutil/tz/tz.py:1209-1218 | The fold comparison reports exactly the wall times that are skipped or repeated. |
| TransitionZone.RoundTripKeepsFold | src/dateutil/tz/tz.py:1167-1172 | An existing wall time survives the UTC round trip. Its fold is kept in the repeated interval and becomes 0 elsewhere. |
| TransitionZone.ResolveImaginaryCrossesGap | src/dateutil/tz/tz.py:1257-1264 | For a gap of at most a day, a skipped wall time moves forward by exactly the gap's size and then exists; other wall times are unchanged. |
| TransitionZone.ResolveImaginaryIdempotent | src/dateutil/tz/tz.py:1257-1264 | Resolving twice gives the same result as resolving once. |
| IcalOffset.Int2 | src/dateutil/tz/tz.py:782-784 | Python `int()` on two characters. Two digits give their value. Any success lies in -9..99. Two non-digits fail. |
| IcalOffset.ParseStripped | src/dateutil/tz/tz.py:774-786 | Empty input fails as an empty offset. A body that is not 4 or 6 characters after the sign fails, naming the body. A sign followed by 4 or 6 digits gives sign*(HH*3600+MM*60+SS). |
| IcalOffset.ParseOffset | src/dateutil/tz/tz.py:772-786 | The same three cases, stated on the whitespace-stripped input. |
| IcalOffset.FormatThenParse | src/dateutil/tz/tz.py:772-786 | Every offset strictly between -100 h and 100 h, written as `±HHMM[SS]`, reads back as itself. |
| IcalLines.Unfold | src/dateutil/tz/tz.py:793-803 | The in-place loop that deletes and merges lines computes the left-to-right unfolding. |
| IcalLines.UnfoldedIsWellUnfolded | src/dateutil/tz/tz.py:793-803 | After unfolding, no line is blank and no line after the first starts with a space. |
| IcalLines.UnfoldedKeepsWellUnfolded | src/dateutil/tz/tz.py:793-803 | Lines already in that shape are unchanged by unfolding. |
| IcalLines.UnfoldedIdempotent | src/dateutil/tz/tz.py:793-803 | Unfolding twice is unfolding once. |
| Text.SplitJoinLines | src/dateutil/tz/tz.py:789 | `splitlines` gives back the lines of a `\n`-joined text whose lines hold no line boundary. |
| IcalParser.LineParts | src/dateutil/tz/tz.py:812-817 | A line splits into name, parameters and value exactly when it has a colon. |
| IcalParser.LinePartsAtFirstColon | src/dateutil/tz/tz.py:812-817 | The value is the text after the first colon. The name is the upper-cased first `;`-separated piece before it, and the parameters are the remaining pieces. |
| IcalParser.MissingField | src/dateutil/tz/tz.py:844-851 | As written: a component is complete exactly when DTSTART, TZOFFSETFROM and TZOFFSETTO were all seen. The only names ever reported are DTSTART and TZOFFSETFROM. |
| IcalParser.MissingFieldIntended | src/dateutil/tz/tz.py:844-851 | Corrected: it also reports TZOFFSETTO, and it names a property only when that property is missing. |
| IcalParser.MissingOffsetToMisreported | src/dateutil/tz/tz.py:849-851 | With DTSTART and TZOFFSETFROM present and TZOFFSETTO missing, the code reports TZOFFSETFROM while the corrected check reports TZOFFSETTO. |
| IcalParser.MissingFieldSameVerdict | src/dateutil/tz/tz.py:844-851 | Both checks accept exactly the same components and agree on a missing DTSTART. |
| IcalParser.CloseComponent | src/dateutil/tz/tz.py:843-863 | END of the open component fails exactly when the check as written (`MissingField`) fails, with the same message except for a missing TZOFFSETTO, which is named as TZOFFSETTO (the corrected report) where the code names TZOFFSETFROM. Otherwise it appends the component (DAYLIGHT meaning DST, with its TZNAME and recurrence lines) and closes it, leaving the zone mapping unchanged. |
| IcalParser.FirstBadDtstartParam | src/dateutil/tz/tz.py:870-874 | DTSTART is accepted exactly when every parameter is `VALUE=DATE-TIME`; otherwise an offending parameter is reported. |
| IcalParser.ComponentProperty | src/dateutil/tz/tz.py:866-897 | A property inside a component never changes the zone mapping, the collected components, the open component or the TZID. |
| IcalParser.TimezoneProperty | src/dateutil/tz/tz.py:898-907 | Outside a component only TZID, TZURL, LAST-MODIFIED and COMMENT are accepted; any other name fails as unsupported. |
| IcalParser.Step | src/dateutil/tz/tz.py:832-842 | A line changes the zone mapping only at END:VTIMEZONE of a block with no open component, a non-empty TZID and at least one component, and then by exactly one entry keyed by that TZID. |
| IcalParser.StepCases | src/dateutil/tz/tz.py:812-911 | Each structural error raises: a line without a colon, BEGIN of an unknown component, END:VTIMEZONE with an open component or without TZID or components, END of an unopened component, a missing mandatory property (named by the corrected report), and an unsupported property. Outside a block every line but BEGIN:VTIMEZONE is ignored. |
| IcalParser.ParseRfc | src/dateutil/tz/tz.py:788-791 | An empty text fails. What a non-empty text yields is stated by `IcalParser.ParseRfcWellKeyed` for every text and by `IcalRender.ParseWrittenZone` for written blocks. |
| IcalParser.RunWellKeyed | src/dateutil/tz/tz.py:805-842 | Running any lines of the state machine from a mapping whose every zone sits under its own non-empty TZID and has components keeps that property. |
| IcalParser.ParseRfcWellKeyed | src/dateutil/tz/tz.py:788-842 | For every text, a successful parse stores each zone under its own TZID, never under an empty TZID, and never without components. |
| IcalParser.SoleKey | src/dateutil/tz/tz.py:768 | A one-entry mapping has a single key. |
| IcalParser.Get | src/dateutil/tz/tz.py:763-770 | Without a TZID: zero zones or more than one fail, and exactly one is returned. With a TZID: the stored zone, or `None` when absent. |
| IcalRender.LinePartsOf | src/dateutil/tz/tz.py:812-817 | A written `NAME:value` line with an upper-case, colon-free name splits back into that name, no parameters and that value. |
| IcalRender.ComponentRun | src/dateutil/tz/tz.py:818-863 | A written component, read inside a block, fails on its first missing mandatory property (named by the corrected report) and otherwise appends exactly the component written. |
| IcalRender.ComponentsRun | src/dateutil/tz/tz.py:818-863 | A run of written components fails at the first incomplete one, naming its first missing property by the corrected report. Otherwise all of them are appended, in order. |
| IcalRender.ZoneRun | src/dateutil/tz/tz.py:818-911 | A written block fails on an incomplete component (named by the corrected report), on an empty TZID or on zero components. Otherwise it adds one entry, keyed by its TZID, to the mapping. |
| IcalRender.ZoneLinesBack | src/dateutil/tz/tz.py:789-803 | The written text splits and unfolds back into exactly the written lines. |
| IcalRender.ParseWrittenZone | src/dateutil/tz/tz.py:788-911 | A complete written block parses to the one-entry mapping from its TZID to its components, and `get()` with no TZID returns that zone. |
| IcalRender.WrittenZoneMissingProperty | src/dateutil/tz/tz.py:844-851 | A written block with an incomplete component fails the whole parse, naming the first missing property of the first incomplete component by the corrected report. |
| IcalZone.QueryTime | src/dateutil/tz/tz.py:680-684 | The wall time is moved forward by the size of the setback exactly when the component sets the clocks back and the fold is 1; otherwise it is unchanged. |
| IcalZone.Latest | src/dateutil/tz/tz.py:647-655 | No choice exactly when no component has an onset. Otherwise the chosen onset is the latest, and every earlier-listed component's onset is strictly earlier, so ties go to the first listed. |
| IcalZone.FirstStandard | src/dateutil/tz/tz.py:657-666 | The first non-DST component; none exactly when all are DST. |
| IcalZone.FindComp | src/dateutil/tz/tz.py:635-668 | As written. A single component is always chosen. Otherwise the component with the latest onset is chosen, else the first standard one. It fails exactly when there are several or no components, none has an onset and none is standard. |
| IcalZone.FindCompIntended | src/dateutil/tz/tz.py:657-668 | Corrected fallback to the first component: it fails only for a zone without components. |
| IcalZone.FindCompIntendedAgrees | src/dateutil/tz/tz.py:657-668 | Both versions agree wherever the code as written returns. The written code raises on a non-empty zone exactly when all components are DST and none has an onset yet, and there the corrected version gives the first component. |
| IcalZone.AllDaylightBeforeOnsetFails | src/dateutil/tz/tz.py:667-668 | Two DST components before their onsets: the code as written raises, the corrected version gives the first. |
| IcalZone.CacheIndex | src/dateutil/tz/tz.py:641-646 | The cache is looked up by the first entry with the same wall time and fold; a miss means no entry has that key. |
| IcalZone.Remember | src/dateutil/tz/tz.py:670-676 | The new entry goes first and the old entries follow in order. The length grows by one up to ten and never passes ten. |
| IcalZone.CachedFindComp | src/dateutil/tz/tz.py:635-678 | A single component is returned before the cache is consulted. A cache hit returns the stored component and leaves the cache alone. A miss answers as the search and, on success, stores the answer newest first, dropping the oldest beyond ten. A failure stores nothing. The search uses the corrected fallback. |
| IcalZone.RememberCoherent | src/dateutil/tz/tz.py:670-676 | Storing a correct answer keeps every cached answer correct and the length at most ten. |
| IcalZone.CacheTransparent | src/dateutil/tz/tz.py:641-678 | With a correct cache the cached lookup answers exactly as the uncached corrected search, and so as the search as written wherever that returns; the cache stays correct. |
| IcalZone.UtcOffset | src/dateutil/tz/tz.py:688-692 | `None` for no datetime. Otherwise the TZOFFSETTO of the component the search as written chooses, wherever it returns. Where the code raises `TypeError` on a non-empty zone, the first component's TZOFFSETTO (the corrected fallback). It fails only for a zone without components. |
| IcalZone.Dst | src/dateutil/tz/tz.py:694-700 | For the component the search as written chooses, wherever it returns: TZOFFSETTO minus TZOFFSETFROM for a DST component and zero for a standard one. Where the code raises `TypeError` on a non-empty zone, the first component's shift (the corrected fallback). It fails only for a zone without components. |
| IcalZone.TzName | src/dateutil/tz/tz.py:702-703 | The TZNAME of the component the search as written chooses, wherever it returns; where the code raises `TypeError` on a non-empty zone, the first component's (the corrected fallback). It fails only for a zone without components. |
| IcalZone.FoldSelectsStandardInRepeatedHour | src/dateutil/tz/tz.py:680-686 | With a DST onset followed by a standard onset that sets the clocks back by h: in the repeated interval, fold 0 reads as daylight time and fold 1 as standard time. Before it both folds read as daylight time, and from the onset on both read as standard time. |
| IcalZone.RepeatedHourReadings | src/dateutil/tz/tz.py:680-700 | Around a setback, `utcoffset` and `dst` in the repeated interval give the daylight offset and shift for fold 0, and the standard offset and zero for fold 1. Before it, fold 1 still reads daylight time. From the setback on, fold 0 reads standard time. |
| TzRange.MakeRange | src/dateutil/tz/tz.py:407-452 | A missing standard offset is 0. The DST offset is the given one, else std+1 h when a DST name and a standard offset are given, else 0. Missing rules default to the first Sunday of April at 2:00 and the last Sunday of October at 1:00 when a DST name is given. The base offset is dst-std. `hasdst` holds exactly when the start rule is truthy. |
| TzRange.Transitions | src/dateutil/tz/tz.py:454-476 | `None` without DST. Otherwise both rules are applied to January 1 of the year. Adding a missing rule fails. |
| TzRange.Delta | src/dateutil/tz/tz.py:569-608 | The rule is always truthy. Its time is the given time or 7200, minus dst-std for an end rule. A month rule with a weekday anchors on day 1, or day 31 for a week counted back; without a weekday it keeps a non-zero day. A `Jn` spec sets the non-leap year day and a plain day number the year day. An empty spec takes the April or October default. |
| TzRange.MakeStr | src/dateutil/tz/tz.py:537-567 | A failed parse or unused tokens fail. Otherwise `hasdst` holds exactly when a DST name is present, and the base offset is dst-std. |
| TzRange.StdOffsetSign | src/dateutil/tz/tz.py:547-550 | A GMT or UTC standard offset is negated unless `posix_offset` is set, and negating a missing offset fails. Any other standard offset is kept. |
| TzRange.StrDstOffset | src/dateutil/tz/tz.py:432-437 | A `TZ`-string zone's DST offset is the parsed one, else std+1 h when both a DST name and a standard offset were parsed, else 0. |
| TzRange.StrRules | src/dateutil/tz/tz.py:559-608 | A `TZ`-string zone has both rules or neither, so its transitions are always defined. The start time is the given time or 7200. The end time is shifted to the standard side by dst-std. |
| TzRange.RangeWithoutDst | src/dateutil/tz/tz.py:432-469 | `tzrange` without DST information has no DST, a DST offset of 0 and no transitions. |
| TzRange.Est5EdtEquivalence | src/dateutil/tz/tz.py:393-399 | `tzstr('EST5EDT')`, `tzrange("EST", -18000, "EDT")` and the same range with every default written out are equal, and all have DST. |
| TzRange.StrIsRangeWithDefaults | src/dateutil/tz/tz.py:393-399 | For every `TZ` string with a daylight name and no rules, the `tzstr` equals the `tzrange` with the same names and offsets and default rules exactly when its daylight saving is one hour. |
| TzRange.GmtPlusThree | src/dateutil/tz/tz.py:501-505 | `GMT+3` is three hours ahead of UTC, or three hours behind it with `posix_offset`. |
| GettzCache.Fresh | src/dateutil/tz/tz.py:1003-1007 | A new cache has empty tiers and a size of 8, and satisfies the invariant. |
| GettzCache.Call | src/dateutil/tz/tz.py:1010-1035 | A name in the weak tier answers from it. Otherwise the oracle answers, and an uncacheable answer leaves the cache untouched. The size never changes. |
| GettzCache.TouchTrim | src/dateutil/tz/tz.py:1030-1033 | After moving the name to the newest end and trimming once, names are distinct, the bound holds, and the name is newest when the size is positive. |
| GettzCache.CallValid | src/dateutil/tz/tz.py:1010-1035 | Every call keeps the invariant: only cacheable answers stored, distinct strong names, at most `size` strong entries, and each strong entry kept in the weak tier. |
| GettzCache.CallMovesToNewest | src/dateutil/tz/tz.py:1030-1033 | After a weak hit or a cacheable answer, the strong tier is the other names in their old order followed by the name with its zone as the newest entry, and only the oldest of these is dropped, exactly when there are more than `size`. |
| GettzCache.CallRemembers | src/dateutil/tz/tz.py:1025-1033 | After a call that stores its answer, the name is the newest strong entry when the size is positive, and a second call answers the same whatever the oracle says. |
| GettzCache.UncacheableNotStored | src/dateutil/tz/tz.py:1014-1028 | Results for the name `None`, `tzlocal` results and failed lookups are never stored. |
| GettzCache.SetCacheSize | src/dateutil/tz/tz.py:1037-1041 | The strong tier keeps exactly its newest entries, as many as the size allows. A negative size empties it and then raises. The invariant is kept. |
| GettzCache.NewestValid | src/dateutil/tz/tz.py:1037-1041 | Keeping only the newest entries of a valid cache under a new size gives a valid cache. |
| GettzCache.CacheClear | src/dateutil/tz/tz.py:1043-1046 | Both tiers are emptied and the size is kept. |
| GettzCache.Collect | src/dateutil/tz/tz.py:1005 | The weak tier may lose exactly the entries not held in the strong tier under the same name; nothing else changes. |
| GettzCache.CollectValid | src/dateutil/tz/tz.py:1005 | Garbage collection never breaks the invariant. |
| GettzCache.RemoveDistinct | src/dateutil/tz/tz.py:1030 | Removing a name from a tier with distinct names keeps them distinct, and shortens the tier by one when the name was present. |
| GettzCache.RemoveKeepsOrder | src/dateutil/tz/tz.py:1030 | `pop(name)` on a tier with distinct names cuts out exactly that name's entry and keeps every other entry in order. |

## Left out

- `tzlocal`: it reads the host's `time` module, which is operating-system state.
- `GettzFunc.nocache`: the environment, the `TZPATHS` file search, `tzfile`, `tzwin` and the bundled zone database are I/O and code outside this model. The whole lookup is the `Oracle` parameter. The oracle is total, so an exception raised by `nocache` (for example from `tzfile` on an absolute path, or a re-raised `TypeError`) is not told apart from a `None` result. The cache effect is the same: nothing is stored either way.
- The `_thread` locks: each operation is modelled as one atomic step.
- Weak references: the weak tier is a map that `GettzCache.Collect` may shrink. Zones that outside callers keep alive are not tracked. Keep-alive is tied to the name rather than the zone object. Two names that resolve to one shared object, such as `GMT` and `UTC` (tz.py:1128-1129), may therefore lose their weak entries separately. This over-approximates what the collector may drop.
- `tzfile` is not part of this model.
- `_datetime_to_timestamp` works with floating-point `total_seconds` and is left out.
- Opening files and streams in `tzical.__init__`, `tzical.keys`, every `__repr__`, `__ne__`, `__reduce__`, `tzname_in_python2` and the Python 2 shims are left out.
- `parser._parsetz` is outside this model. Its result is the `TzRange.ParsedTz` record, with offsets already in seconds east of UTC.
- `rrule.rrulestr` and `rrule.before` are outside this model. A component keeps its raw recurrence lines, and `before` is the `IcalZone.Onsets` parameter. The `ValueError` that `rrulestr` raises for malformed `DTSTART` or `RRULE` values when a component closes (tz.py:853-858) is not modelled: every recurrence text is taken as accepted.
- `relativedelta` is outside this model. A rule is the keyword record `TzRange.RuleDelta`. Applying a rule to a date is the `apply` parameter of `TzRange.Transitions`.
- TzRange.IsTruthy: stated from the keywords given, not from `relativedelta.__bool__` after normalisation. A keyword set whose relative fields cancel out is not distinguished.
- TzRange.RuleDelta: the relative time is kept as total seconds. Equality therefore matches `relativedelta` only up to its normalisation of hours, minutes and seconds, which is what makes `hours=+2` equal `seconds=7200`.
- `tzrangebase`'s `utcoffset`, `dst` and `fromutc` live in a file that is not part of this model. Only construction, `transitions` and `__eq__` are modelled.
- IcalZone.UtcOffset: the `None` datetime case is modelled, but `dst(None)` and `tzname(None)` are not. They raise for zones with more than one component. It is also built on the corrected fallback of tz.py:668. Where the code raises `TypeError`, because every component is DST and none has an onset yet, it returns the first component's offset.
- IcalZone.Dst: built on the corrected fallback of tz.py:668. Where the code raises `TypeError`, it returns the first component's shift.
- IcalZone.TzName: built on the corrected fallback of tz.py:668. Where the code raises `TypeError`, it returns the first component's TZNAME.
- IcalZone.CachedFindComp: built on the corrected fallback of tz.py:668. Where the code raises `TypeError`, it answers with the first component and remembers that answer.
- IcalZone.CacheTransparent: transparency is stated against the corrected search. Where the search as written raises, the cached lookup does not.
- IcalParser.CloseComponent: reports a missing TZOFFSETTO as TZOFFSETTO (the corrected report). The code reports TZOFFSETFROM at tz.py:850-851. The verdict is the same; `IcalParser.MissingOffsetToMisreported` states the message as written. Its success case also assumes that `rrulestr` accepts the component's recurrence lines (tz.py:853-858); malformed recurrence text, on which the code raises, is not modelled.
- IcalRender.ParseWrittenZone: the successful parse assumes that `rrulestr` accepts every written DTSTART and recurrence line. The code raises on malformed values, which is not modelled.
- IcalParser.StepCases: the missing-mandatory case names the property by the corrected report, so a missing TZOFFSETTO is named TZOFFSETTO rather than TZOFFSETFROM.
- IcalRender.ComponentRun: an incomplete component is reported by the corrected report (`MissingName`), which names a missing TZOFFSETTO as TZOFFSETTO where the code says TZOFFSETFROM. Its success path, and the report of a later missing property, also assume that `rrulestr` accepts the recurrence lines of every complete component (tz.py:853-858).
- IcalRender.ComponentsRun: the first incomplete component is reported by the corrected report, as for `ComponentRun`. Its success path, and the report of a later missing property, also assume that `rrulestr` accepts the recurrence lines of every complete component (tz.py:853-858).
- IcalRender.ZoneRun: an incomplete component inside the block is reported by the corrected report, as for `ComponentRun`. Its success path, and the report of a later missing property, also assume that `rrulestr` accepts the recurrence lines of every complete component (tz.py:853-858).
- IcalRender.WrittenZoneMissingProperty: the failing parse names a missing TZOFFSETTO as TZOFFSETTO, where tz.py:850-851 names TZOFFSETFROM. Its success path, and the report of a later missing property, also assume that `rrulestr` accepts the recurrence lines of every complete component (tz.py:853-858).
- Resolver.Zone: zones are given as total functions. A zone method that raises is not modelled, except for `is_ambiguous`.
- `str.upper` and `int()` are modelled on ASCII only. Unicode case mapping and Unicode digits are left out.
- `IcalOffset.FormatOffset` and `IcalRender`'s writer are not in the source. They exist only to state the round-trip and end-to-end properties.

## Findings

Each row has two members in the model. `FindComp` and `MissingField` keep the code as written, and a lemma exhibits the discrepancy. The cache, `utcoffset`, `dst`, `tzname` and the parser's `CloseComponent` use the corrected definitions. The corrected and the as-written definitions agree wherever the code as written succeeds (`IcalZone.FindCompIntendedAgrees`), or on every verdict except the name reported (`IcalParser.MissingFieldSameVerdict`).

| source | as written | input that shows it | evidently intended | confidence | as-written member | corrected member |
|---|---|---|---|---|---|---|
| src/dateutil/tz/tz.py:668 | When no component has an onset yet and all components are DST, the fallback indexes the loop variable (`comp[0]`, a component object) instead of the component list, so it raises `TypeError`. | Two DAYLIGHT components, with a wall time before both of their onsets. | Fall back to the first component of the zone, as the comment above the loop says. | not executed | IcalZone.AllDaylightBeforeOnsetFails | IcalZone.FindCompIntended |
| src/dateutil/tz/tz.py:850-851 | A component with DTSTART and TZOFFSETFROM but no TZOFFSETTO is reported as missing TZOFFSETFROM. | `BEGIN:STANDARD`, `DTSTART:19701025T030000`, `TZOFFSETFROM:+0200`, `END:STANDARD` inside a VTIMEZONE. | Report TZOFFSETTO. | not executed | IcalParser.MissingOffsetToMisreported | IcalParser.MissingFieldIntended |
