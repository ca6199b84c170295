/** The values that travel between the components: candidates, licenses, classification results. */
module Domain {

  datatype Option<+T> = None | Some(value: T)

  /** License classes in the order of the source's enumeration: Safe is the zero value. */
  datatype License = Safe | Unknown | Blocked
  {
    function Rank(): (r: nat)
      ensures r <= 2
    {
      match this
      case Safe => 0
      case Unknown => 1
      case Blocked => 2
    }
  }

  datatype Candidate = Candidate(
    imgURL: string,
    thumbnail: string,
    source: string,
    title: string,
    license: License,
    width: int,
    height: int,
    engine: string)

  /**
   * One entry of a candidate list. The tag tells entries with equal candidates apart: the outside
   * world may answer differently for them.
   */
  datatype Lead = Lead(candidate: Candidate, tag: nat)

  /** A floating-point number; rounding is not modelled. */
  datatype Float = Finite(value: real) | Infinite(positive: bool) | NaN
  {
    /** Go comparisons: every comparison with NaN is false. */
    predicate AtMost(bound: real) {
      (Finite? && value <= bound) || (Infinite? && !positive)
    }

    predicate Above(bound: real) {
      (Finite? && value > bound) || (Infinite? && positive)
    }
  }

  datatype ClassificationResult = ClassificationResult(cls: string, confidence: Float)

  const CLASS_PHOTO := "PHOTO"
  const CLASS_STOCK := "STOCK"

  function Max(a: int, b: int): int { if a < b then b else a }

  function Min(a: int, b: int): int { if a < b then a else b }
}
