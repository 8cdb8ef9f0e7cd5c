/** Operating modes and filter slots as the radio numbers them.
    The numbering lives in headers that are not part of this model; the model
    only relies on the values being distinct and on which of them are CW. */
module Modes {
  const ModeLSB := 0
  const ModeUSB := 1
  const ModeDSB := 2
  const ModeCWL := 3
  const ModeCWU := 4
  const ModeFMN := 5
  const ModeAM := 6
  const ModeDIGU := 7
  const ModeSPEC := 8
  const ModeDIGL := 9
  const ModeSAM := 10
  const ModeDRM := 11

  const FilterF0 := 0
  const FilterF3 := 3
  const FilterF5 := 5
  const FilterF6 := 6

  /** The two CW modes, whose transmitted signal is a single carrier. */
  predicate IsCw(mode: int) {
    mode == ModeCWU || mode == ModeCWL
  }

  /** Modes whose variable filter is edited as a width around a centre (a shift). */
  predicate IsWidthShiftMode(mode: int) {
    mode in {ModeCWL, ModeCWU, ModeDSB, ModeAM, ModeSAM, ModeSPEC, ModeDRM}
  }

  /** Lower-sideband modes: the filter lies below the carrier. */
  predicate IsLowerSideband(mode: int) {
    mode == ModeLSB || mode == ModeDIGL
  }

  /** Upper-sideband modes: the filter lies above the carrier. */
  predicate IsUpperSideband(mode: int) {
    mode == ModeUSB || mode == ModeDIGU
  }
}
