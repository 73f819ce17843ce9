/**
 * The generated resource ids the app compares and stores (`R.drawable.*`
 * for the four icons, `R.id.*` for the four icon views of the add form).
 * The Android build assigns the actual numbers; the logic relies only on
 * the four drawables being distinct and the four views being distinct, so
 * the values below are stand-ins with that property.
 */
module Resources {
  import opened Java

  // R.drawable
  const IcPilates: int32 := 0x7f08_0001
  const IcVoleibol: int32 := 0x7f08_0002
  const IcFuerza: int32 := 0x7f08_0003
  const IcRunning: int32 := 0x7f08_0004

  // R.id of the four selectable icon views in the add form
  const IvIconPilates: int32 := 0x7f0a_0011
  const IvIconVoleibol: int32 := 0x7f0a_0012
  const IvIconFuerza: int32 := 0x7f0a_0013
  const IvIconRunning: int32 := 0x7f0a_0014

  /** One of the four training icons a record may carry. */
  predicate IsTrainingIcon(id: int32) {
    id == IcPilates || id == IcVoleibol || id == IcFuerza || id == IcRunning
  }

  /** One of the four icon views of the add form. */
  predicate IsIconView(id: int32) {
    id == IvIconPilates || id == IvIconVoleibol || id == IvIconFuerza || id == IvIconRunning
  }
}
