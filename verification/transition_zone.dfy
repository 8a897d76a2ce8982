/** A reference zone with a single offset change, used to state what the
    shared helpers of `Resolver` achieve. Its `utcoffset` follows PEP 495:
    inside the gap or the repeated interval, fold 0 takes the offset in force
    before the transition and fold 1 the offset after it; `fromutc` marks the
    second pass through a repeated interval with fold 1. */
module TransitionZone {

  import opened Base
  import opened Resolver

  /** The offset changes from `before` to `after` at UTC instant `at`;
      `dstBefore`/`dstAfter` are the DST amounts on either side. */
  datatype Transition = Transition(at: int, before: int, after: int, dstBefore: int, dstAfter: int)

  function Min(a: int, b: int): int { if a <= b then a else b }
  function Max(a: int, b: int): int { if a <= b then b else a }

  /** Wall times that never occur: the clocks jump forward over them. */
  predicate InGap(t: Transition, w: int) {
    t.before < t.after && t.at + t.before <= w < t.at + t.after
  }

  /** Wall times that occur twice: the clocks are set back over them. */
  predicate InRepeat(t: Transition, w: int) {
    t.after < t.before && t.at + t.after <= w < t.at + t.before
  }

  /** Whether a wall time with this fold reads on the post-transition side. */
  predicate AfterSide(t: Transition, w: int, fold: bool) {
    w >= t.at + Max(t.before, t.after) || (w >= t.at + Min(t.before, t.after) && fold)
  }

  function Offset(t: Transition, w: int, fold: bool): int {
    if AfterSide(t, w, fold) then t.after else t.before
  }

  function DstAmount(t: Transition, w: int, fold: bool): int {
    if AfterSide(t, w, fold) then t.dstAfter else t.dstBefore
  }

  function LocalAt(t: Transition, u: int): LocalTime {
    if u < t.at then LocalTime(u + t.before, false)
    else LocalTime(u + t.after, u + t.after < t.at + t.before)
  }

  /** The transition as a zone for the shared helpers (no `is_ambiguous` of its own). */
  function AsZone(t: Transition): (z: Zone)
    ensures forall w, f :: z.utcoffset(w, f) == Offset(t, w, f)
    ensures forall w, f :: z.dst(w, f) == DstAmount(t, w, f)
    ensures forall u :: z.fromutc(u) == LocalAt(t, u)
    ensures z.isAmbiguous.None?
  {
    Zone((w: int, f: bool) => Offset(t, w, f),
         (w: int, f: bool) => DstAmount(t, w, f),
         (u: int) => LocalAt(t, u),
         None)
  }

  function Aware(t: Transition, w: int, fold: bool): DateTime {
    DateTime(w, fold, Some(AsZone(t)))
  }

  /** `datetime_exists` holds exactly outside the gap. */
  lemma ExistsIffNotInGap(t: Transition, w: int, fold: bool)
    ensures DatetimeExists(Aware(t, w, fold), None) == Success(!InGap(t, w))
  {
    var z := AsZone(t);
    var u := w - Offset(t, w, fold);
    assert z.fromutc(u) == LocalAt(t, u);
    if AfterSide(t, w, fold) {
      if u < t.at {
        assert InGap(t, w);
      }
    } else {
      if u >= t.at {
        assert InGap(t, w);
      }
    }
  }

  /** The round-trip test agrees with the independent definition "some
      UTC instant shows this wall time". */
  lemma ExistsIffShownAtSomeInstant(t: Transition, w: int, fold: bool)
    ensures DatetimeExists(Aware(t, w, fold), None) == Success(true)
        <==> exists u :: LocalAt(t, u).wall == w
  {
    ExistsIffNotInGap(t, w, fold);
    if !InGap(t, w) {
      if w - t.before < t.at {
        assert LocalAt(t, w - t.before).wall == w;
      } else {
        assert LocalAt(t, w - t.after).wall == w;
      }
    } else {
      forall u
        ensures LocalAt(t, u).wall != w
      {
      }
    }
  }

  /** Outside the gap, fold 1 never denotes an earlier instant than fold 0;
      inside the gap the order is reversed. */
  lemma FoldOrdersInstants(t: Transition, w: int)
    ensures !InGap(t, w) ==> ToUtc(AsZone(t), w, false) <= ToUtc(AsZone(t), w, true)
    ensures InGap(t, w) ==> ToUtc(AsZone(t), w, false) > ToUtc(AsZone(t), w, true)
    ensures InRepeat(t, w) ==> ToUtc(AsZone(t), w, false) < ToUtc(AsZone(t), w, true)
  {
  }

  /** The fold-comparison fallback of `datetime_ambiguous` reports exactly
      the wall times in the gap or the repeated interval. */
  lemma AmbiguousIffGapOrRepeat(t: Transition, w: int, fold: bool)
    ensures DatetimeAmbiguous(Aware(t, w, fold), None) == Success(InGap(t, w) || InRepeat(t, w))
  {
    var z := AsZone(t);
    assert FoldMatters(z, w) <==> (InGap(t, w) || InRepeat(t, w));
  }

  /** An existing wall time survives the UTC round trip with its fold,
      where the fold means something (in the repeated interval), and with
      fold 0 elsewhere. */
  lemma RoundTripKeepsFold(t: Transition, w: int, fold: bool)
    requires !InGap(t, w)
    ensures RoundTrip(AsZone(t), w, fold) == LocalTime(w, fold && InRepeat(t, w))
  {
  }

  /** `resolve_imaginary` moves a gap wall time forward by exactly the
      size of the gap, when the gap is at most a day (the helper looks 24
      hours either side), and the result exists. */
  lemma ResolveImaginaryCrossesGap(t: Transition, w: int, fold: bool)
    requires t.after - t.before <= Day
    ensures InGap(t, w) ==> ResolveImaginary(Aware(t, w, fold)) == Aware(t, w + (t.after - t.before), false)
    ensures !InGap(t, w) ==> ResolveImaginary(Aware(t, w, fold)) == Aware(t, w, fold)
    ensures !InGap(t, ResolveImaginary(Aware(t, w, fold)).wall)
  {
    ExistsIffNotInGap(t, w, fold);
    if InGap(t, w) {
      assert Offset(t, w + Day, false) == t.after;
      assert Offset(t, w - Day, false) == t.before;
    }
  }

  /** `resolve_imaginary` is idempotent. */
  lemma ResolveImaginaryIdempotent(t: Transition, w: int, fold: bool)
    requires t.after - t.before <= Day
    ensures ResolveImaginary(ResolveImaginary(Aware(t, w, fold))) == ResolveImaginary(Aware(t, w, fold))
  {
    ResolveImaginaryCrossesGap(t, w, fold);
    var r := ResolveImaginary(Aware(t, w, fold));
    ResolveImaginaryCrossesGap(t, r.wall, r.fold);
  }
}
