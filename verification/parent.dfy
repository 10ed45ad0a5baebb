/**
 * The parent-facing blueprint (`blueprints/parent.py`). Its standings loop
 * and sort are the shared `Standings.ResultsTable`; what is particular to
 * it is the `format_datetime` template filter.
 */
module ParentPages {
  import opened Wrappers

  /** A value handed to the filter: a string, or a moment in whole seconds. */
  datatype Stamp = Text(s: string) | Moment(t: int)

  /**
   * `format_datetime`: nothing is shown for a missing value; a string is
   * parsed (`parse` is `fromisoformat` after replacing `Z`) and shown as
   * given when it does not parse; a moment is shown through `render` (the
   * Warsaw-time `%d.%m.%Y %H:%M` formatting).
   */
  function FormatDatetime(value: Option<Stamp>, parse: string -> Option<int>, render: int -> string): (r: string)
    ensures value.None? ==> r == ""
    ensures value.Some? && value.value.Text? && parse(value.value.s).None? ==> r == value.value.s
    ensures value.Some? && value.value.Text? && parse(value.value.s).Some? ==> r == render(parse(value.value.s).value)
    ensures value.Some? && value.value.Moment? ==> r == render(value.value.t)
  {
    match value
    case None => ""
    case Some(Text(s)) => (if parse(s).None? then s else render(parse(s).value))
    case Some(Moment(t)) => render(t)
  }

  /**
   * The filter shows an empty string only for a missing value, for an
   * unparsable empty string, or when the rendering itself is empty: a
   * string and its parsed moment display alike.
   */
  lemma {:induction false} EmptyOnlyForNone(value: Option<Stamp>, parse: string -> Option<int>, render: int -> string)
    requires forall t :: render(t) != ""
    ensures FormatDatetime(value, parse, render) == "" <==> value.None? || (value == Some(Text("")) && parse("").None?)
  {
    match value
    case None =>
    case Some(Text(s)) =>
      if parse(s).Some? {
        var t := parse(s).value;
        assert render(t) != "";
        assert FormatDatetime(value, parse, render) == render(t);
        assert s == "" ==> parse("").Some?;
      }
    case Some(Moment(t)) =>
      assert FormatDatetime(value, parse, render) == render(t);
  }

  /** A string that parses to a moment displays exactly as that moment does. */
  lemma TextAgreesWithMoment(s: string, parse: string -> Option<int>, render: int -> string)
    requires parse(s).Some?
    ensures FormatDatetime(Some(Text(s)), parse, render) == FormatDatetime(Some(Moment(parse(s).value)), parse, render)
  {
  }
}
