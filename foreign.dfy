/** Stand-ins for the code this model calls but does not look inside: the C++ and
    Python number parsers and the floating-point formulas.  They are passed around
    as values, so every proof holds for whatever they compute. */
module Foreign {

  datatype Option<+T> = None | Some(value: T)

  /** A number parser (`std::stod`, Python's `float`): `None` is the
      invalid-argument exception, `Some(x)` the parsed value. */
  type Parser = string -> Option<real>

  /** An integer parser (`std::stoi`). */
  type IntParser = string -> Option<int>

  /** The floating-point formulas of the program, kept uninterpreted:
      the Kepler coordinate pair and mass estimate of one satellite, the
      square root, and the IEEE division used for the relative deviation. */
  datatype Numerics = Numerics(
    keplerX: (real, real) -> real,          // (perigee, apogee) -> 4 pi r^3 / G
    keplerY: real -> real,                  // period -> period^2
    keplerMass: (real, real, real) -> real, // (perigee, apogee, period) -> 4 pi^2 r^3 / (period^2 G)
    sqrt: real -> real,
    divide: (real, real) -> real)
}
