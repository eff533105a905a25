/** The generator exists twice, as a Python script and as a TypeScript
    command-line port. Where the two behave differently the model takes the
    dialect as a parameter. */
module Dialects {
  import opened Replace

  datatype Dialect = Python | TypeScript

  /** What a multiline `^` treats as a line break in the dialect's regular
      expressions. */
  function BreaksOf(d: Dialect): (b: LineBreaks)
    ensures b == PythonBreaks <==> d == Python
  {
    match d
    case Python => PythonBreaks
    case TypeScript => JsBreaks
  }

  /** How a replacement string is read: Python's `str.replace` inserts it as
      it is; JavaScript's `String.prototype.replace` reads `$` patterns in it. */
  function ReplacementOf(d: Dialect, text: string): (r: Replacement)
    ensures r.text == text
    ensures r.Literal? <==> d == Python
  {
    match d
    case Python => Literal(text)
    case TypeScript => JsTemplate(text)
  }
}
