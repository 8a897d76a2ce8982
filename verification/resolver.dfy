/** The zone-independent helpers `datetime_exists`, `datetime_ambiguous` and
    `resolve_imaginary`, over an abstract zone given by its `utcoffset`,
    `dst` and `fromutc` functions. Wall times and instants are integer
    seconds; a wall time carries the PEP 495 `fold` bit. */
module Resolver {

  import opened Base

  const Day: int := 86400

  /** A wall-clock reading with its fold bit (false = fold 0). */
  datatype LocalTime = LocalTime(wall: int, fold: bool)

  /** The capability every zone offers the shared helpers.
      `isAmbiguous` is the zone's own `is_ambiguous`, if it defines one;
      it yields `None` where the zone's method raises. */
  datatype Zone = Zone(
    utcoffset: (int, bool) -> int,
    dst: (int, bool) -> int,
    fromutc: int -> LocalTime,
    isAmbiguous: Option<(int, bool) -> Option<bool>>)

  /** A datetime: naive when `tzinfo` is `None`. */
  datatype DateTime = DateTime(wall: int, fold: bool, tzinfo: Option<Zone>)

  datatype ResolverError = NaiveWithoutZone

  /** `astimezone(UTC)`: the instant a wall time denotes in `z`. */
  function ToUtc(z: Zone, wall: int, fold: bool): int {
    wall - z.utcoffset(wall, fold)
  }

  /** The zone used by the helpers: the explicit one, else the datetime's own. */
  function ZoneOf(dt: DateTime, tz: Option<Zone>): (r: Result<Zone, ResolverError>)
    ensures r.Failure? <==> tz.None? && dt.tzinfo.None?
    ensures tz.Some? ==> r == Success(tz.value)
    ensures tz.None? && dt.tzinfo.Some? ==> r == Success(dt.tzinfo.value)
  {
    if tz.Some? then Success(tz.value)
    else if dt.tzinfo.Some? then Success(dt.tzinfo.value)
    else Failure(NaiveWithoutZone)
  }

  /** The wall time reached by going to UTC and back. */
  function RoundTrip(z: Zone, wall: int, fold: bool): LocalTime {
    z.fromutc(ToUtc(z, wall, fold))
  }

  /** `datetime_exists`: a wall time exists exactly when it survives the
      round trip wall -> UTC -> wall. Naive comparison ignores the fold. */
  function DatetimeExists(dt: DateTime, tz: Option<Zone>): (r: Result<bool, ResolverError>)
    ensures r.Failure? <==> tz.None? && dt.tzinfo.None?
    ensures r.Success? ==>
      var z := ZoneOf(dt, tz).value;
      (r.value <==> z.fromutc(dt.wall - z.utcoffset(dt.wall, dt.fold)).wall == dt.wall)
  {
    var z :- ZoneOf(dt, tz);
    Success(RoundTrip(z, dt.wall, dt.fold).wall == dt.wall)
  }

  /** The fallback ambiguity test: does the fold bit change the offset or
      the DST amount at this wall time? */
  predicate FoldMatters(z: Zone, wall: int) {
    z.utcoffset(wall, false) != z.utcoffset(wall, true)
    || z.dst(wall, false) != z.dst(wall, true)
  }

  /** `datetime_ambiguous`: the zone's own `is_ambiguous` when it has one
      and it does not raise, else whether the fold bit matters. */
  function DatetimeAmbiguous(dt: DateTime, tz: Option<Zone>): (r: Result<bool, ResolverError>)
    ensures r.Failure? <==> tz.None? && dt.tzinfo.None?
    ensures r.Success? ==>
      var z := ZoneOf(dt, tz).value;
      && (z.isAmbiguous.Some? && z.isAmbiguous.value(dt.wall, dt.fold).Some? ==>
            r.value == z.isAmbiguous.value(dt.wall, dt.fold).value)
      && (z.isAmbiguous.None? || z.isAmbiguous.value(dt.wall, dt.fold).None? ==>
            (r.value <==> FoldMatters(z, dt.wall)))
  {
    var z :- ZoneOf(dt, tz);
    if z.isAmbiguous.Some? && z.isAmbiguous.value(dt.wall, dt.fold).Some? then
      Success(z.isAmbiguous.value(dt.wall, dt.fold).value)
    else
      Success(FoldMatters(z, dt.wall))
  }

  /** True when the datetime is aware and its wall time does not exist. */
  predicate IsImaginary(dt: DateTime) {
    dt.tzinfo.Some? && !DatetimeExists(dt, None).value
  }

  /** `resolve_imaginary`: an aware datetime whose wall time does not exist
      moves forward by the change of offset between a day later and a day
      earlier; any other datetime comes back unchanged. Aware arithmetic
      produces fold 0. */
  function ResolveImaginary(dt: DateTime): (r: DateTime)
    ensures !IsImaginary(dt) ==> r == dt
    ensures IsImaginary(dt) ==>
      var z := dt.tzinfo.value;
      r == DateTime(dt.wall + z.utcoffset(dt.wall + Day, false) - z.utcoffset(dt.wall - Day, false),
                    false, dt.tzinfo)
    ensures r.tzinfo == dt.tzinfo
  {
    if dt.tzinfo.Some? && !DatetimeExists(dt, None).value then
      var z := dt.tzinfo.value;
      var currOffset := z.utcoffset(dt.wall + Day, false);
      var oldOffset := z.utcoffset(dt.wall - Day, false);
      DateTime(dt.wall + (currOffset - oldOffset), false, dt.tzinfo)
    else
      dt
  }
}
