/** The colours of a task's chips, on the board cards and in the table. */
module ChipColors {
  /** A chip's `backgroundColor` and `color`. */
  datatype ChipStyle = ChipStyle(background: string, color: string)

  const Green := ChipStyle("#28c76f29", "#28C76F")
  const Purple := ChipStyle("#7367f029", "#7367F0")
  const Cyan := ChipStyle("#00bad129", "#00BAD1")
  const Red := ChipStyle("#b3261e29", "#FF3B30")

  /** The chip colours on a board card: `UX`, `App`, everything else. */
  function CardChipStyle(chip: string): (s: ChipStyle)
    ensures s == Green <==> chip == "UX"
    ensures s == Purple <==> chip == "App"
    ensures s == Red <==> chip != "UX" && chip != "App"
  {
    if chip == "UX" then Green
    else if chip == "App" then Purple
    else Red
  }

  /** The chip colours in the table, which also recognises `Dashboard`. */
  function TableChipStyle(chip: string): (s: ChipStyle)
    ensures s == Green <==> chip == "UX"
    ensures s == Purple <==> chip == "App"
    ensures s == Cyan <==> chip == "Dashboard"
    ensures s == Red <==> chip !in {"UX", "App", "Dashboard"}
  {
    if chip == "UX" then Green
    else if chip == "App" then Purple
    else if chip == "Dashboard" then Cyan
    else Red
  }

  /** The two views colour every label alike except `Dashboard`, which only the table marks cyan. */
  lemma TableAgreesWithCard(chip: string)
    ensures TableChipStyle(chip) == CardChipStyle(chip) <==> chip != "Dashboard"
  {
  }
}
