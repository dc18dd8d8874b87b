/** Attribute values, the terminal code tables, and the canonical order of attribute kinds. */
module Attributes {
  import opened PyText

  /** A Python value stored under an attribute key: `True`/`False`, an integer code or a string. */
  datatype Value = Flag(b: bool) | Num(n: int) | Str(t: string)

  /** A run's attribute dictionary. Keys are arbitrary strings; only the six kinds are rendered. */
  type Atts = map<string, Value>

  /** Python's `'%s' % v`. */
  function Show(v: Value): string
  {
    match v
    case Flag(b) => if b then "True" else "False"
    case Num(n) => Decimal(n)
    case Str(t) => t
  }

  /** Python's `v in codes.values()` for integer codes: `True == 1`, `False == 0`, and no
      string equals an integer. */
  predicate InCodes(v: Value, codes: map<string, int>)
  {
    match v
    case Flag(b) => (if b then 1 else 0) in codes.Values
    case Num(n) => n in codes.Values
    case Str(_) => false
  }

  /** The terminal constants the code looks up: the colour and style tables (name to code)
      and the escape sequences that reset everything, the foreground and the background. */
  datatype Table = Table(
    fgColors: map<string, int>,
    bgColors: map<string, int>,
    styles: map<string, int>,
    resetAll: string,
    resetFg: string,
    resetBg: string)

  const Esc: char := '\U{1B}'

  /** The attribute kinds that have a rendering transformation. */
  datatype Kind = Fg | Bg | Bold | Underline | Blink | Invert

  /** The dictionary key of a kind. */
  function KindName(k: Kind): string
  {
    match k
    case Fg => "fg"
    case Bg => "bg"
    case Bold => "bold"
    case Underline => "underline"
    case Blink => "blink"
    case Invert => "invert"
  }

  /** The order in which the transformations are applied. */
  const Kinds: seq<Kind> := [Fg, Bg, Bold, Underline, Blink, Invert]

  /** The escape sequence that switches an attribute on. */
  function Prefix(code: string): (r: string)
    ensures |r| == |code| + 3 && r[0] == Esc && r[|r| - 1] == 'm'
  {
    [Esc] + "[" + code + "m"
  }
}
