# Type S thermocouple conversion engine, in Dafny

This project models the conversion engine of a Type S (platinum /
platinum-rhodium) thermocouple library. The engine evaluates the ITS-90
reference functions of NIST Monograph 175 in both directions:

- **Inverse lookup** (`Temp_C(mv)`), millivolts to °C. It rejects readings
  outside [-0.235, 18.693] mV. It picks the *last* of four voltage segments
  that contains the reading. It then sums a 10-term power series from that
  segment's column of the inverse coefficient table.
- **Direct lookup** (`mV_C`), °C to millivolts, used for cold-junction
  compensation. It rejects temperatures outside [-50, 1768.1] °C. It picks
  the *first* of three temperature bands. It sums 9 terms in band 0 and 5
  terms in bands 1 and 2.
- **Compositions**: the compensated `Temp_C(mv, amb)`, both `Temp_F`
  overloads, `mV_F`, and the three inclusive range checks. The constructor
  derives the Fahrenheit bounds from the Celsius bounds.

All arithmetic is over Dafny's `real`, so the decimal coefficients are
exact. The files:

- `header.dfy` (module `TypeSHeader`) stands in for the library header. The
  header is not part of this model. The range-error sentinel `RangeErr` is an
  unconstrained constant. `CToF` and `FToC` are ASSUMED to be the standard
  linear transform F = 9/5 C + 32 and its inverse.
- `power_series.dfy` (module `PowerSeries`) defines the truncated power
  series `PowerSum`, the power `Pow`, and a Horner-form reference `Horner`.
- `curves.dfy` (module `TypeSCurves`) holds the four constant tables, the
  global bounds, the segment and band selection rules, and the reference
  functions `InverseLookup` (mV to °C) and `DirectLookup` (°C to mV).
- `engine.dfy` (module `TypeSEngine`) holds the class `TypeS`. Its methods
  keep the source's loops and branches, and each is proved against the
  reference functions.

Modelling choices:

- `F_max` and `F_min` are `const` fields set by the constructor. The type
  system therefore guarantees that nothing changes them afterwards. `Valid()`
  ties them to the converted Celsius bounds.
- Inverse segments 1 and 2 overlap on [10.332, 11.950] mV
  (src/TypeS.cpp:65-66), matching the NIST ranges, so the segments are not
  disjoint. The model follows the table as written, and `SegmentTieBreaks`
  states which segment wins.
- `mV_C` reads only column 0 of `range_dir`: it uses the low bound of the
  next row as the high bound of a band (src/TypeS.cpp:161, 167). The second
  column is never read. `DirBand` proves that these tests select the same
  bands as the table's own [low, high] rows, with the first match winning.
- In the loops, the local `col` is the coefficient column being summed, so
  `col[i]` is `coeff_inv[i][ind]` (or `coeff_dir[i][b]`).

## Model

| member | source | states |
|---|---|---|
| `TypeSHeader.FahrenheitRoundTrip` | src/TypeS.cpp:127-129 | Under the assumed linear transform, converting °C to °F and back is the identity, in both orders. |
| `TypeSHeader.ConversionsMonotone` | src/TypeS.cpp:149-151 | Both conversions preserve order, so an inclusive °F range corresponds to an inclusive °C range. |
| `PowerSeries.AccumulateStep` | src/TypeS.cpp:111-114 | One loop step (`sum += x * c[i]; x *= mv`) takes `sum == Σ_{k<i} c_k·v^k, x == v^i` to the same facts for i + 1. |
| `PowerSeries.ZeroTail` | src/TypeS.cpp:168-177 | If coefficients m..n-1 are zero, the n-term sum equals the m-term sum. |
| `PowerSeries.PowerSumAtZero` | src/TypeS.cpp:111-115 | At x = 0 the power series equals its constant coefficient. |
| `PowerSeries.PowerSumShift` | src/TypeS.cpp:111-115 | The n-term series equals c[0] plus x times the (n-1)-term series of the remaining coefficients. |
| `PowerSeries.PowerSumIsHorner` | src/TypeS.cpp:111-115 | Ascending-power accumulation with a running power gives the same value as Horner evaluation of the whole coefficient column. |
| `TypeSCurves.InRangeMv` | src/TypeS.cpp:139-141 | `inrange_mV` accepts `mv` exactly when some inverse segment [low, high] contains it. The range [mv_min, mv_max] is therefore exactly the union of the four segments, with both ends included. |
| `TypeSCurves.InvSegment` | src/TypeS.cpp:102-109 | The selected segment is below 4 and no higher segment contains the reading. Index 0 is kept only when segment 0 contains the reading or the reading is out of range. Every in-range reading lies in its selected segment. |
| `TypeSCurves.SegmentTieBreaks` | src/TypeS.cpp:64-67 | The shared boundaries 1.874 and 17.536 mV lie in both neighbouring segments and select the higher one (1 and 3). Every reading in [10.332, 11.950] lies in segments 1 and 2 and selects segment 2. |
| `TypeSCurves.InRangeC` | src/TypeS.cpp:143-146 | `inrange_C` accepts exactly the temperatures that some direct band [low, high] contains. [C_min, C_max] is the union of the three bands, with both ends included. |
| `TypeSCurves.DirBand` | src/TypeS.cpp:161-173 | The band tests, which read only the low-bound column, select band 0 exactly on [-50, 1064.18] and band 1 exactly on (1064.18, 1664.5]. The first match wins, and every in-range temperature lies in its selected band. |
| `TypeSCurves.DirectLookupIsNineTermSeries` | src/TypeS.cpp:70-80 | Rows 5-8 of columns 1 and 2 are zero. So the 5-term sums of bands 1 and 2 equal the full 9-term series: every in-range direct lookup is its band's 9-term series. |
| `TypeSCurves.IcePoint` | src/TypeS.cpp:50-51 | Both reference functions pass through the ice point: the inverse lookup of 0 mV is 0 °C and the direct lookup of 0 °C is 0 mV. |
| `TypeSEngine.TypeS.constructor` | src/TypeS.cpp:93-96 | Establishes `F_max == C_TO_F(C_max)` and `F_min == C_TO_F(C_min)` (that is, -58 and 3214.58). The fields are constants, so nothing changes them afterwards. |
| `TypeSEngine.TypeS.InRangeF` | src/TypeS.cpp:148-151 | With the derived bounds, `inrange_F` accepts exactly the °F temperatures whose Celsius value `inrange_C` accepts. |
| `TypeSEngine.TypeS.TempC` | src/TypeS.cpp:98-116 | Returns the sentinel when `mv < mv_min` or `mv > mv_max`. Otherwise returns Σ_{i=0..9} coeff_inv[i][ind]·mv^i, where `ind` is the last segment containing `mv`. The forward scan and the running power are proved with loop invariants. |
| `TypeSEngine.TypeS.MvC` | src/TypeS.cpp:153-181 | Returns the sentinel outside [C_min, C_max]. Otherwise returns the series of the first matching band (9 terms in band 0, 5 terms in bands 1 and 2), which equals that band's 9-term series. |
| `TypeSEngine.TypeS.TempCCompensated` | src/TypeS.cpp:118-124 | Equals the inverse lookup of `mv + mV_C(amb)`, with no check of its own on `amb`. For an out-of-range ambient, the sentinel is added into the voltage. |
| `TypeSEngine.TypeS.TempF` | src/TypeS.cpp:131-136 | When the Celsius result is the sentinel (in particular, whenever `mv` is out of range), the sentinel is returned unconverted. Otherwise the Celsius result is converted to °F. |
| `TypeSEngine.TypeS.TempFCompensated` | src/TypeS.cpp:126-129 | Converts the ambient to °C, compensates, and converts the result to °F with no sentinel guard. An out-of-range compensated voltage therefore yields `C_TO_F(RangeErr)`. |
| `TypeSEngine.TypeS.MvF` | src/TypeS.cpp:183-189 | Returns the sentinel outside [F_min, F_max]. In every case the result equals the direct lookup of `F_TO_C(ambF)`, so the Fahrenheit check agrees with the Celsius check. |
| `TypeSEngine.ZeroAmbientNeedsNoCompensation` | src/TypeS.cpp:118-124 | With the reference junction at 0 °C, the compensated reading equals the uncompensated one. |
| `TypeSEngine.AmbientErrorMasked` | src/TypeS.cpp:120-124 | The sentinel propagates through the unguarded path. With an out-of-range ambient, a signal of exactly `-RangeErr` mV is reported as 0 °C rather than as a range error. |
| `TypeSEngine.CompensatedFahrenheitSentinel` | src/TypeS.cpp:127-129 | The unguarded compensated °F path reports a range error as the sentinel only if the sentinel equals its own Fahrenheit value, that is, only if it is -40. |

## Left out

- Float and double rounding. Every value is an exact `real`. This covers the `float` parameters, the `float` comparisons against `range_inv` and the bounds, `mv_amb` being narrowed to `float` (src/TypeS.cpp:121-122), and `Temp_F(mv)` storing its result in a `float` before comparing it with the sentinel (src/TypeS.cpp:133-134).
- Numerical accuracy of the fitted polynomials, such as the inverse of the direct lookup being within ±0.05 °C of the input. That needs error analysis of the published fits, not logic.
- The header `TypeS.h` is not part of this model. `TC_RANGE_ERR` is an unconstrained constant, so the model cannot say whether a valid reading can coincide with it. `C_TO_F` and `F_TO_C` are assumed to be the standard linear transform.
- The Arduino header selection (src/TypeS.cpp:36-40) and the commented-out serial debug prints (src/TypeS.cpp:110, 178). These are board I/O.
- The "Type B" wording of the file's first comment, which has no behaviour.
