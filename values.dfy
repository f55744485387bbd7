/** The dynamically typed values the Python code stores in flags and output rows. */
module Values {

  /** A sample's label attribute: a bool when the sample is built; `to_array` rewrites it
      to the int 1 or 0 in place. */
  datatype Flag = BoolFlag(b: bool) | IntFlag(n: int) {

    /** Python truthiness: True, or a non-zero int. */
    predicate Truthy()
    {
      match this
      case BoolFlag(b) => b
      case IntFlag(n) => n != 0
    }

    /** Python `flag == 1` (True == 1 holds in Python). */
    predicate IsOne()
    {
      match this
      case BoolFlag(b) => b
      case IntFlag(n) => n == 1
    }

    /** What `to_array` stores: 1 for a truthy flag, 0 otherwise. */
    function AsBit(): (f: Flag)
      ensures f.IntFlag? && (f.n == 1 || f.n == 0)
      ensures f.Truthy() == Truthy()
    {
      IntFlag(if Truthy() then 1 else 0)
    }
  }

  /** One entry of a Python list or dictionary value written to an output row. */
  datatype Cell = BoolCell(b: bool) | IntCell(i: int) | RealCell(r: real) | TextCell(s: string)

  function FlagCell(f: Flag): Cell
  {
    match f
    case BoolFlag(b) => BoolCell(b)
    case IntFlag(n) => IntCell(n)
  }

  /** Rewriting a flag to its bit a second time changes nothing. */
  lemma AsBitIdempotent(f: Flag)
    ensures f.AsBit().AsBit() == f.AsBit()
  {
  }
}
