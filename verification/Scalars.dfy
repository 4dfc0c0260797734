/** The numeric classes an element can have. */
module Scalars {
  datatype Class = IntClass | FloatClass | BFloat16Class

  /** The bytes one element occupies in a buffer. */
  function Width(kind: Class): nat {
    match kind
    case IntClass => 8
    case FloatClass => 4
    case BFloat16Class => 2
  }
}
