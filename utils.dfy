/**
 * Constants of the recorder's `Utils` class. That class is not part of this
 * model; only the two audio-source sentinels the dialog reads are kept, with
 * assumed values. No proof depends on the particular numbers.
 */
module Utils {
  /** Audio-source preference value meaning "record the screen without sound". */
  const AudioSourceDisabled: int := 0

  /** Audio-source preference value used while nothing has been stored. */
  const AudioSourceDefault: int := 1
}
