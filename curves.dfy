/**
 * The ITS-90 reference functions for Type S thermocouples: the constant
 * coefficient and range tables of the engine, the segment and band selection
 * rules, and the two lookups they define. Every table is indexed as in the
 * engine: [row][column].
 */
module TypeSCurves {
  import opened TypeSHeader
  import opened PowerSeries

  type Row2 = s: seq<real> | |s| == 2 witness [0.0, 0.0]
  type Row3 = s: seq<real> | |s| == 3 witness [0.0, 0.0, 0.0]
  type Row4 = s: seq<real> | |s| == 4 witness [0.0, 0.0, 0.0, 0.0]

  // ---------------------------------------------------------------- inverse (mV -> C)

  const NRangesInv: nat := 4
  const NCoeffInv: nat := 10
  const MvMin: real := -0.235
  const MvMax: real := 18.693

  /** Coefficient row i, voltage segment j. */
  const CoeffInv: seq<Row4> := [
    [ 0.00000000e00,  1.291507177e01, -8.087801117e01,  5.333875126e04],
    [ 1.84949460e02,  1.466298863e02,  1.621573104e02, -1.235892298e04],
    [-8.00504062e01, -1.534713402e01, -8.536869453e00,  1.092657613e03],
    [ 1.02237430e02,  3.145945973e00,  4.719686976e-01, -4.265693686e01],
    [-1.52248592e02, -4.163257839e-01, -1.441693666e-02,  6.247205420e-01],
    [ 1.88821343e02,  3.187963771e-02,  2.081618890e-04,  0.000000000e00],
    [-1.59085941e02, -1.291637500e-03,  0.000000000e00,  0.000000000e00],
    [ 8.23027880e01,  2.183475087e-05,  0.000000000e00,  0.000000000e00],
    [-2.34181944e01, -1.447379511e-07,  0.000000000e00,  0.000000000e00],
    [ 2.79786260e00,  8.211272125e-09,  0.000000000e00,  0.000000000e00]
  ]

  /** Row 0 holds the low and row 1 the high mV bound of each segment. */
  const RangeInv: seq<Row4> := [
    [-0.235,  1.874, 10.332, 17.536],
    [ 1.874, 11.950, 17.536, 18.693]
  ]

  /** inrange_mV: the signal lies in [mv_min, mv_max], both ends included.
      That range is exactly the union of the four segments. */
  predicate InRangeMv(mv: real): (ok: bool)
    ensures ok <==> exists j :: 0 <= j < NRangesInv && InSegment(j, mv)
  {
    assert InSegment(0, mv) || InSegment(1, mv) || InSegment(2, mv) || InSegment(3, mv) || !(MvMin <= mv <= MvMax);
    MvMin <= mv && mv <= MvMax
  }

  /** Segment j's bounds contain the reading, both ends included. */
  predicate InSegment(j: nat, mv: real)
    requires j < NRangesInv
  {
    RangeInv[0][j] <= mv <= RangeInv[1][j]
  }

  /** The segment whose coefficients convert the reading: the last one that
      contains it, or 0 when none does. */
  function InvSegment(mv: real): (ind: nat)
    ensures ind < NRangesInv
    ensures forall j :: ind < j < NRangesInv ==> !InSegment(j, mv)
    ensures ind != 0 || InSegment(0, mv) || !InRangeMv(mv)
    ensures InRangeMv(mv) ==> InSegment(ind, mv)
  {
    if InSegment(3, mv) then 3
    else if InSegment(2, mv) then 2
    else if InSegment(1, mv) then 1
    else 0
  }

  /** Column j of the inverse table. */
  function InvColumn(j: nat): (c: seq<real>)
    requires j < NRangesInv
    ensures |c| == NCoeffInv
  {
    seq(NCoeffInv, i requires 0 <= i < NCoeffInv => CoeffInv[i][j])
  }

  /** Temp_C(mv): the sentinel outside [mv_min, mv_max], otherwise the
      10-term series of the selected segment. */
  function InverseLookup(mv: real): real {
    if !InRangeMv(mv) then RangeErr
    else PowerSum(InvColumn(InvSegment(mv)), mv, NCoeffInv)
  }

  /** Adjacent segments share their boundary values 1.874 and 17.536 mV, and
      segments 1 and 2 overlap on [10.332, 11.950] mV. In every such case the
      higher segment is the one selected. */
  lemma SegmentTieBreaks(mv: real)
    ensures InSegment(0, 1.874) && InSegment(1, 1.874) && InvSegment(1.874) == 1
    ensures InSegment(2, 17.536) && InSegment(3, 17.536) && InvSegment(17.536) == 3
    ensures 10.332 <= mv <= 11.950 ==> InSegment(1, mv) && InSegment(2, mv) && InvSegment(mv) == 2
  {
  }

  // ---------------------------------------------------------------- direct (C -> mV)

  const NRangesDir: nat := 3
  const CMax: real := 1768.1
  const CMin: real := -50.0

  /** Coefficient row i, temperature band b. */
  const CoeffDir: seq<Row3> := [
    [ 0.000000000000e00,  0.132900444085e01,  0.146628232636e03],
    [ 0.540313308631e-02,  0.334509311344e-02, -0.258430516752e00],
    [ 0.125934289740e-04,  0.654805192818e-05,  0.163693574641e-03],
    [-0.232477968689e-07, -0.164856259209e-08, -0.330439046987e-07],
    [ 0.322028823036e-10,  0.129989605174e-13, -0.943223690612e-14],
    [-0.331465196389e-13,  0.000000000000e00,  0.000000000000e00],
    [ 0.255744251786e-16,  0.000000000000e00,  0.000000000000e00],
    [-0.125068871393e-19,  0.000000000000e00,  0.000000000000e00],
    [ 0.271443176145e-23,  0.000000000000e00,  0.000000000000e00]
  ]

  /** Row b holds the low and high C bound of band b. */
  const RangeDir: seq<Row2> := [
    [ -50.000, 1064.180],
    [1064.180, 1664.500],
    [1664.500, 1768.100]
  ]

  /** Band b's bounds contain the temperature, both ends included. */
  predicate InBand(b: nat, c: real)
    requires b < NRangesDir
  {
    RangeDir[b][0] <= c <= RangeDir[b][1]
  }

  /** inrange_C: the temperature lies in [C_min, C_max], both ends included.
      That range is exactly the union of the three bands. */
  predicate InRangeC(c: real): (ok: bool)
    ensures ok <==> exists b :: 0 <= b < NRangesDir && InBand(b, c)
  {
    assert InBand(0, c) || InBand(1, c) || InBand(2, c) || !(CMin <= c <= CMax);
    CMin <= c && c <= CMax
  }

  /** The band mV_C evaluates: its tests read only the low bounds of the
      table's rows, and the first test that succeeds wins. */
  function DirBand(c: real): (b: nat)
    ensures b < NRangesDir
    ensures b == 0 <==> InBand(0, c)
    ensures b == 1 <==> !InBand(0, c) && InBand(1, c)
    ensures InRangeC(c) ==> InBand(b, c)
  {
    if RangeDir[0][0] <= c && c <= RangeDir[1][0] then 0
    else if RangeDir[1][0] <= c && c <= RangeDir[2][0] then 1
    else 2
  }

  /** Number of terms mV_C sums in band b. */
  function DirTerms(b: nat): nat {
    if b == 0 then 9 else 5
  }

  /** Column b of the direct table. */
  function DirColumn(b: nat): (c: seq<real>)
    requires b < NRangesDir
    ensures |c| == 9
  {
    seq(9, i requires 0 <= i < 9 => CoeffDir[i][b])
  }

  /** mV_C(c): the sentinel outside [C_min, C_max], otherwise the series of
      the selected band, 9 terms in band 0 and 5 in bands 1 and 2. */
  function DirectLookup(c: real): real {
    if !InRangeC(c) then RangeErr
    else PowerSum(DirColumn(DirBand(c)), c, DirTerms(DirBand(c)))
  }

  /** Bands 1 and 2 have zero coefficients in rows 5 to 8, so summing only
      5 terms there loses nothing: every in-range lookup is the full 9-term
      series of its band. */
  lemma DirectLookupIsNineTermSeries(c: real)
    requires InRangeC(c)
    ensures DirectLookup(c) == PowerSum(DirColumn(DirBand(c)), c, 9)
  {
    var b := DirBand(c);
    if b != 0 {
      var col := DirColumn(b);
      forall k | 5 <= k < 9 ensures col[k] == 0.0 {
        assert CoeffDir[k][1] == 0.0 && CoeffDir[k][2] == 0.0;
      }
      ZeroTail(col, c, 5, 9);
    }
  }

  /** Both reference functions pass through the ice point: 0 mV is 0 C and
      0 C is 0 mV. */
  lemma IcePoint()
    ensures InverseLookup(0.0) == 0.0
    ensures DirectLookup(0.0) == 0.0
  {
    assert InvSegment(0.0) == 0;
    PowerSumAtZero(InvColumn(0), NCoeffInv);
    assert DirBand(0.0) == 0;
    PowerSumAtZero(DirColumn(0), 9);
  }
}
