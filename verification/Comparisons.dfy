// The comparisons of C, which lcc compiles to branches and folds on constants
// (EQ, NE, GT, GE, LE and LT in lcc/src/c.h).

module Comparisons {

  datatype Rel = EQ | NE | GT | GE | LE | LT

  predicate Holds(rel: Rel, x: int, y: int) {
    match rel
    case EQ => x == y
    case NE => x != y
    case GT => x > y
    case GE => x >= y
    case LE => x <= y
    case LT => x < y
  }

  /** The comparison that listnodes jumps on when a condition is to jump if false. */
  function Negated(rel: Rel): Rel {
    match rel
    case EQ => NE
    case NE => EQ
    case GT => LE
    case LT => GE
    case GE => LT
    case LE => GT
  }
}
