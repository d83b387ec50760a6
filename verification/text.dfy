/** The string formatting the plugins' messages use: `%s` of ints, of
    strings and of lists/dicts (Python's repr), `", ".join(...)`, and ASCII
    `lower()`/`upper()`. */
module Text {
  import opened Json

  function Digit(d: nat): char
    requires d < 10
  {
    "0123456789"[d]
  }

  /** Decimal digits of a natural number. */
  function NatToString(n: nat): (r: string)
    ensures |r| > 0
    decreases n
  {
    if n < 10 then [Digit(n)] else NatToString(n / 10) + [Digit(n % 10)]
  }

  /** `str(n)` of an int. */
  function IntToString(n: int): string
  {
    if n < 0 then "-" + NatToString(-n) else NatToString(n)
  }

  /** `sep.join(parts)`. */
  function Join(sep: string, parts: seq<string>): string
  {
    if parts == [] then ""
    else if |parts| == 1 then parts[0]
    else parts[0] + sep + Join(sep, parts[1..])
  }

  /** Python `repr` of a str: quoted with single quotes (Python's escaping of
      quotes, backslashes and control characters is not modelled). */
  function Quote(s: string): string
  {
    "'" + s + "'"
  }

  /** Python `repr` (also `%s` inside a container) of a JSON value. */
  function Repr(j: Json): string
    decreases j
  {
    match j
    case JNull => "None"
    case JInt(i) => IntToString(i)
    case JStr(s) => Quote(s)
    case JList(items) =>
      "[" + Join(", ", seq(|items|, i requires 0 <= i < |items| => Repr(items[i]))) + "]"
    case JObj(fields) =>
      "{" + Join(", ", seq(|fields|, i requires 0 <= i < |fields| =>
                             Quote(fields[i].0) + ": " + Repr(fields[i].1))) + "}"
  }

  /** `%s` of a Python list of strings. */
  function ReprStrings(xs: seq<string>): string
  {
    "[" + Join(", ", seq(|xs|, i requires 0 <= i < |xs| => Quote(xs[i]))) + "]"
  }

  /** `%s` of a Python str is the str itself; of any other value, its repr. */
  function Show(j: Json): string
  {
    if j.JStr? then j.s else Repr(j)
  }

  function LowerChar(c: char): char
  {
    if 'A' <= c <= 'Z' then (c as int + 32) as char else c
  }

  function UpperChar(c: char): char
  {
    if 'a' <= c <= 'z' then (c as int - 32) as char else c
  }

  /** `s.lower()` on ASCII letters. */
  function Lower(s: string): (r: string)
    ensures |r| == |s|
  {
    seq(|s|, i requires 0 <= i < |s| => LowerChar(s[i]))
  }

  /** `s.upper()` on ASCII letters. */
  function Upper(s: string): (r: string)
    ensures |r| == |s|
  {
    seq(|s|, i requires 0 <= i < |s| => UpperChar(s[i]))
  }
}
