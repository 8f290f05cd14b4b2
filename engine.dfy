/**
 * The Type S conversion engine: an object whose only state is the pair of
 * Fahrenheit bounds derived once by its constructor, and whose operations
 * evaluate the reference functions of TypeSCurves with the same loops,
 * branches and sentinel handling as the engine they model.
 */
module TypeSEngine {
  import opened TypeSHeader
  import opened PowerSeries
  import opened TypeSCurves

  class TypeS {
    // Declared const: the constructor sets them and nothing can change them afterwards.
    const FMax: real
    const FMin: real

    /** The Fahrenheit bounds are the Celsius bounds, converted. */
    ghost predicate Valid() {
      FMax == CToF(CMax) && FMin == CToF(CMin)
    }

    constructor ()
      ensures Valid()
      ensures FMin == -58.0 && FMax == 3214.58
    {
      FMax := CToF(CMax);
      FMin := CToF(CMin);
    }

    /** inrange_F: inclusive check against the derived bounds; it accepts
        exactly the temperatures whose Celsius value inrange_C accepts. */
    predicate InRangeF(ambF: real): (ok: bool)
      requires Valid()
      ensures ok <==> InRangeC(FToC(ambF))
    {
      FahrenheitRoundTrip(CMin, ambF);
      FahrenheitRoundTrip(CMax, ambF);
      ConversionsMonotone(FMin, ambF);
      ConversionsMonotone(ambF, FMax);
      FMin <= ambF && ambF <= FMax
    }

    /** Temp_C(mv): absolute temperature for a signal voltage. Out of
        [mv_min, mv_max] it is the sentinel; otherwise it is the 10-term
        series of the last segment that contains the reading. */
    method TempC(mv: real) returns (r: real)
      ensures !InRangeMv(mv) ==> r == RangeErr
      ensures InRangeMv(mv) ==> r == PowerSum(InvColumn(InvSegment(mv)), mv, NCoeffInv)
      ensures r == InverseLookup(mv)
    {
      var x := 1.0;
      var sum := 0.0;
      var ind := 0;
      if !InRangeMv(mv) {
        return RangeErr;
      }
      // first figure out which segment: the last one that matches
      for j := 0 to NRangesInv
        invariant ind < NRangesInv
        invariant ind == 0 || (ind < j && InSegment(ind, mv))
        invariant forall k :: ind < k < j ==> !InSegment(k, mv)
      {
        if mv >= RangeInv[0][j] && mv <= RangeInv[1][j] {
          ind := j;
        }
      }
      assert ind == InvSegment(mv);
      var col := InvColumn(ind);  // col[i] is CoeffInv[i][ind]
      for i := 0 to NCoeffInv
        invariant x == Pow(mv, i)
        invariant sum == PowerSum(col, mv, i)
      {
        AccumulateStep(col, mv, i, x, sum);
        sum := sum + x * col[i];
        x := x * mv;
      }
      return sum;
    }

    /** mV_C(ambC): cold-junction voltage for a temperature. Out of
        [C_min, C_max] it is the sentinel; otherwise it is the series of the
        first band that contains it, which equals that band's 9-term series. */
    method MvC(ambC: real) returns (r: real)
      ensures !InRangeC(ambC) ==> r == RangeErr
      ensures InRangeC(ambC) ==> r == PowerSum(DirColumn(DirBand(ambC)), ambC, 9)
      ensures r == DirectLookup(ambC)
    {
      var sum := 0.0;
      var x := 1.0;
      if !InRangeC(ambC) {
        return RangeErr;
      }
      if ambC >= RangeDir[0][0] && ambC <= RangeDir[1][0] {
        assert DirBand(ambC) == 0;
        var col := DirColumn(0);  // col[i] is CoeffDir[i][0]
        for i := 0 to 9
          invariant x == Pow(ambC, i)
          invariant sum == PowerSum(col, ambC, i)
        {
          AccumulateStep(col, ambC, i, x, sum);
          sum := sum + x * col[i];
          x := x * ambC;
        }
      } else if ambC >= RangeDir[1][0] && ambC <= RangeDir[2][0] {
        assert DirBand(ambC) == 1;
        var col := DirColumn(1);  // col[i] is CoeffDir[i][1]
        for i := 0 to 5
          invariant x == Pow(ambC, i)
          invariant sum == PowerSum(col, ambC, i)
        {
          AccumulateStep(col, ambC, i, x, sum);
          sum := sum + x * col[i];
          x := x * ambC;
        }
      } else {
        assert DirBand(ambC) == 2;
        var col := DirColumn(2);  // col[i] is CoeffDir[i][2]
        for i := 0 to 5
          invariant x == Pow(ambC, i)
          invariant sum == PowerSum(col, ambC, i)
        {
          AccumulateStep(col, ambC, i, x, sum);
          sum := sum + x * col[i];
          x := x * ambC;
        }
      }
      DirectLookupIsNineTermSeries(ambC);
      return sum;
    }

    /** Temp_C(mv, amb): the ambient's cold-junction voltage is added to the
        signal before the inverse lookup, with no check of its own on amb. */
    method TempCCompensated(mv: real, amb: real) returns (r: real)
      ensures r == InverseLookup(mv + DirectLookup(amb))
      ensures !InRangeC(amb) ==> r == InverseLookup(mv + RangeErr)
    {
      var mvAmb := MvC(amb);
      r := TempC(mv + mvAmb);
    }

    /** Temp_F(mv): a sentinel from the Celsius lookup is passed through
        unconverted; any other result is converted to Fahrenheit. */
    method TempF(mv: real) returns (r: real)
      ensures !InRangeMv(mv) ==> r == RangeErr
      ensures InverseLookup(mv) == RangeErr ==> r == RangeErr
      ensures InverseLookup(mv) != RangeErr ==> r == CToF(InverseLookup(mv))
    {
      var temp := TempC(mv);
      if temp == RangeErr {
        return RangeErr;
      }
      return CToF(temp);
    }

    /** Temp_F(mv, amb): the ambient is converted to Celsius and the
        compensated result back to Fahrenheit, with no sentinel guard: an
        out-of-range result comes back as CToF(RangeErr). */
    method TempFCompensated(mv: real, ambF: real) returns (r: real)
      ensures r == CToF(InverseLookup(mv + DirectLookup(FToC(ambF))))
      ensures !InRangeMv(mv + DirectLookup(FToC(ambF))) ==> r == CToF(RangeErr)
    {
      var c := TempCCompensated(mv, FToC(ambF));
      r := CToF(c);
    }

    /** mV_F(ambF): the Fahrenheit bounds are checked before converting; the
        result is the cold-junction voltage of the converted temperature,
        which the Celsius check inside would have produced anyway. */
    method MvF(ambF: real) returns (r: real)
      requires Valid()
      ensures !InRangeF(ambF) ==> r == RangeErr
      ensures r == DirectLookup(FToC(ambF))
    {
      if InRangeF(ambF) {
        r := MvC(FToC(ambF));
      } else {
        r := RangeErr;
      }
    }
  }

  /** With the reference junction at 0 C the compensation adds nothing. */
  lemma ZeroAmbientNeedsNoCompensation(mv: real)
    ensures InverseLookup(mv + DirectLookup(0.0)) == InverseLookup(mv)
  {
    IcePoint();
  }

  /** The sentinel from an out-of-range ambient is summed into the signal
      rather than reported: a signal of exactly -RangeErr mV then reads as a
      valid 0 C, not as a range error. */
  lemma AmbientErrorMasked(amb: real)
    requires !InRangeC(amb)
    ensures InverseLookup(-RangeErr + DirectLookup(amb)) == 0.0
  {
    IcePoint();
  }

  /** The compensated Fahrenheit reading returns the sentinel for an
      out-of-range result only when the sentinel is its own Fahrenheit value,
      that is, only when it is -40. */
  lemma CompensatedFahrenheitSentinel()
    ensures CToF(RangeErr) == RangeErr <==> RangeErr == -40.0
  {
  }
}
