/** The fixed-offset zones `tzutc` and `tzoffset`: constant offset, no DST,
    never ambiguous, `fromutc` adds the offset, and Python `==` between
    them compares offsets only. */
module FixedOffset {

  import opened Base
  import Resolver

  /** `tzutc()` or `tzoffset(name, offset)` with the offset in seconds. */
  datatype FixedZone = Utc | Offset(name: string, offset: int)

  /** `_get_supported_offset`: the identity on Python 3.6 and later; on
      older Pythons `60 * ((x + 30) // 60)`, the nearest whole minute with
      half a minute rounding up. Python's `//` floors, as Dafny's `/` does
      for a positive divisor. */
  function SupportedOffset(x: int, legacyRounding: bool): (r: int)
    ensures !legacyRounding ==> r == x
    ensures legacyRounding ==> r % 60 == 0 && x - 30 < r <= x + 30
  {
    if legacyRounding then
      var q := (x + 30) / 60;
      assert x + 30 == 60 * q + (x + 30) % 60;
      assert (60 * q) % 60 == 0 by { MultipleOfSixty(q); }
      60 * q
    else
      x
  }

  lemma MultipleOfSixty(q: int)
    ensures (60 * q) % 60 == 0
  {
    assert 60 * q == 0 + 60 * q;
  }

  /** The minute rounding has exactly one possible answer: the only
      multiple of 60 in (x - 30, x + 30]. */
  lemma SupportedOffsetUnique(x: int, m: int)
    requires m % 60 == 0 && x - 30 < m <= x + 30
    ensures SupportedOffset(x, true) == m
  {
    var r := SupportedOffset(x, true);
    assert r % 60 == 0 && x - 30 < r <= x + 30;
    assert -60 < m - r < 60;
    assert (m - r) % 60 == 0 by {
      assert m == 60 * (m / 60);
      assert r == 60 * (r / 60);
      assert m - r == 60 * (m / 60 - r / 60);
    }
  }

  /** `tzoffset(name, offset)` construction. */
  function MakeOffset(name: string, offset: int, legacyRounding: bool): (z: FixedZone)
    ensures z.Offset? && z.name == name
    ensures legacyRounding ==> z.offset % 60 == 0
    ensures !legacyRounding ==> z.offset == offset
  {
    Offset(name, SupportedOffset(offset, legacyRounding))
  }

  /** `utcoffset(dt)` for any `dt`. */
  function UtcOffset(z: FixedZone): int {
    match z
    case Utc => 0
    case Offset(_, o) => o
  }

  /** `fromutc(dt)`: the wall time at a UTC instant. */
  function FromUtc(z: FixedZone, instant: int): (w: int)
    ensures w - UtcOffset(z) == instant
  {
    match z
    case Utc => instant
    case Offset(_, o) => instant + o
  }

  /** One class's `__eq__`; `None` stands for `NotImplemented`.
      `tzutc.__eq__` accepts both classes, `tzoffset.__eq__` only `tzoffset`. */
  function EqMethod(self: FixedZone, other: FixedZone): Option<bool> {
    match self
    case Utc => Some(other.Utc? || other.offset == 0)
    case Offset(_, o) => if other.Offset? then Some(o == other.offset) else None
  }

  /** Python `a == b`: the left operand's `__eq__`, then the reflected one
      when the left returns `NotImplemented`. */
  function Equals(a: FixedZone, b: FixedZone): (r: bool)
    ensures r <==> UtcOffset(a) == UtcOffset(b)
  {
    match EqMethod(a, b)
    case Some(v) => v
    case None => EqMethod(b, a).GetOr(false)
  }

  /** Equality ignores names, and is symmetric. */
  lemma EqualsIgnoresName(n1: string, n2: string, o: int)
    ensures Equals(Offset(n1, o), Offset(n2, o))
    ensures Equals(Utc, Offset(n1, 0)) && Equals(Offset(n1, 0), Utc)
  {
  }

  /** A fixed zone seen through the resolver's capability: both folds give
      the same offset, DST is zero, and `is_ambiguous` always answers false. */
  function AsZone(z: FixedZone): (r: Resolver.Zone)
    ensures forall w, f :: r.utcoffset(w, f) == UtcOffset(z)
    ensures forall w, f :: r.dst(w, f) == 0
    ensures r.isAmbiguous.Some?
  {
    Resolver.Zone(
      (w: int, f: bool) => UtcOffset(z),
      (w: int, f: bool) => 0,
      (u: int) => Resolver.LocalTime(FromUtc(z, u), false),
      Some((w: int, f: bool) => Some(false)))
  }

  /** Every wall time exists in a fixed zone, none is ambiguous, and
      `resolve_imaginary` returns its argument unchanged. */
  lemma FixedZoneIsRegular(z: FixedZone, wall: int, fold: bool)
    ensures Resolver.DatetimeExists(Resolver.DateTime(wall, fold, Some(AsZone(z))), None) == Success(true)
    ensures Resolver.DatetimeAmbiguous(Resolver.DateTime(wall, fold, Some(AsZone(z))), None) == Success(false)
    ensures !Resolver.FoldMatters(AsZone(z), wall)
    ensures Resolver.ResolveImaginary(Resolver.DateTime(wall, fold, Some(AsZone(z))))
         == Resolver.DateTime(wall, fold, Some(AsZone(z)))
  {
    var zz := AsZone(z);
    assert zz.fromutc(wall - zz.utcoffset(wall, fold)).wall == wall;
  }
}
