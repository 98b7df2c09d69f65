/** The program-wide constants of src/Settings.h that the core uses. */
module Settings {
  /** Reason code of an entry with an empty raw field. */
  const DISQ_REASON_MISSING_PARAMETER: int := -1
  /** Reason code of an entry whose eccentricity exceeds the load-time qualifier. */
  const DISQ_REASON_ECCENTRICITY: int := -2
  /** Accepted mass of the Earth in kilograms (5.97e24). */
  const LITERATURE_VALUE: real := 5970000000000000000000000.0
}
