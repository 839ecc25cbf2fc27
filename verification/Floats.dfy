/** Sample values. Only finiteness matters to the code modelled here, so a finite
    value is a real and the three non-finite ones are kept apart. */
module Floats {
  datatype Float = Fin(v: real) | PosInf | NegInf | NaN {
    predicate IsFinite() {
      Fin?
    }

    predicate IsInfinite() {
      PosInf? || NegInf?
    }
  }

  const ZERO: Float := Fin(0.0)

  /** `f32::abs`. */
  function Abs(x: Float): Float {
    match x
    case Fin(v) => Fin(if v < 0.0 then -v else v)
    case NegInf => PosInf
    case _ => x
  }

  /** The IEEE 754 ordering `a > b`, false whenever a NaN is involved. */
  predicate Greater(a: Float, b: Float) {
    match (a, b)
    case (Fin(x), Fin(y)) => x > y
    case (PosInf, b) => b.Fin? || b.NegInf?
    case (Fin(_), NegInf) => true
    case _ => false
  }
}
