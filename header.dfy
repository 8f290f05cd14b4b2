/**
 * The three names the Type S engine takes from its header: the range-error
 * sentinel and the Celsius/Fahrenheit conversions. The header itself is not
 * part of this model: the sentinel is left abstract, and the conversions are
 * ASSUMED to be the standard linear transform F = 9/5 C + 32.
 */
module TypeSHeader {

  /** The out-of-band value a lookup returns for an input outside its range.
      Its value is defined in the header, so it is left unconstrained here. */
  const RangeErr: real

  /** C_TO_F, assumed to be the standard linear transform. */
  function CToF(c: real): real {
    9.0 / 5.0 * c + 32.0
  }

  /** F_TO_C, assumed to be the inverse linear transform. */
  function FToC(f: real): real {
    (f - 32.0) * 5.0 / 9.0
  }

  /** The two conversions undo each other. */
  lemma FahrenheitRoundTrip(c: real, f: real)
    ensures FToC(CToF(c)) == c
    ensures CToF(FToC(f)) == f
  {
  }

  /** Both conversions preserve order, so an inclusive range maps onto an inclusive range. */
  lemma ConversionsMonotone(a: real, b: real)
    ensures a <= b <==> CToF(a) <= CToF(b)
    ensures a <= b <==> FToC(a) <= FToC(b)
  {
  }
}
