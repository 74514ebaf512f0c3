/**
  The cell values the import script reads from a worksheet converted with
  `sheet_to_json(sheet, { header: 1, defval: '' })`, and `cleanString`.
 */
module ImportCells {
  import opened JsStrings

  /** A worksheet cell as `sheet_to_json` hands it over: a string, a number or a boolean. */
  datatype Cell = Text(s: string) | Number(n: real) | Bool(b: bool)

  type Row = seq<Cell>

  /**
    The JavaScript and spreadsheet-library conversions the script relies on whose
    floating-point details are not modelled: `String(n)` for a number, and the
    `YYYY-MM-DD` text `XLSX.SSF.parse_date_code` yields for an Excel serial date.
   */
  datatype Builtins = Builtins(numberToString: real -> string, serialDateToIso: real -> string)

  /**
    `row[k]`. A column past the end of the row reads as `undefined`, which every
    use in the script treats exactly like the `''` that `defval` puts in empty cells.
   */
  function At(row: Row, k: nat): Cell {
    if k < |row| then row[k] else Text("")
  }

  /** JavaScript truthiness of a cell value. */
  predicate Truthy(c: Cell) {
    match c
    case Text(s) => s != ""
    case Number(n) => n != 0.0
    case Bool(b) => b
  }

  /** `String(value)`. */
  function JsString(c: Cell, env: Builtins): string {
    match c
    case Text(s) => s
    case Number(n) => env.numberToString(n)
    case Bool(b) => if b then "true" else "false"
  }

  /** `cleanString(value)`: the value as text, trimmed. */
  function CleanString(c: Cell, env: Builtins): (r: string)
    ensures r != [] ==> !IsWhitespace(r[0]) && !IsWhitespace(r[|r| - 1])
    ensures r == [] <==> AllWhitespace(JsString(c, env))
  {
    Trim(JsString(c, env))
  }
}
