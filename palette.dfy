/** The fixed colour palette `COLORS` and its device codes. */
module Palette {
  import opened Wrappers

  const PALETTE: set<string> := {"red", "orange", "yellow", "green", "lightgreen", "lightred"}

  /** The device codes of the palette. */
  const CODES: set<int> := {3, 31, 62, 60, 56, 1}

  /** `COLORS[name]`, or nothing when `name not in COLORS.keys()`. */
  function ColorCode(name: string): (r: Option<int>)
    ensures r.Some? <==> name in PALETTE
    ensures r.Some? ==> r.value in CODES
  {
    if name == "red" then Some(3)
    else if name == "orange" then Some(31)
    else if name == "yellow" then Some(62)
    else if name == "green" then Some(60)
    else if name == "lightgreen" then Some(56)
    else if name == "lightred" then Some(1)
    else None
  }
}
