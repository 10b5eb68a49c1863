/** The string enums of the library, as closed datatypes. */
module Enums {

  datatype Plane = XY | ZX | YZ

  datatype Unit = Inches | Millimeters

  datatype CoordinateSystem = G53 | G54 | G55 | G56 | G57 | G58 | G59

  /** Rotation direction, used for spindles and for arcs. */
  datatype Dir = CW | CCW

  /** The enum's string value, which is also its G-code word. */
  function CoordinateSystemLabel(cs: CoordinateSystem): string {
    match cs
    case G53 => "G53"
    case G54 => "G54"
    case G55 => "G55"
    case G56 => "G56"
    case G57 => "G57"
    case G58 => "G58"
    case G59 => "G59"
  }
}
