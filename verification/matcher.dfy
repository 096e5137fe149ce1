/** The regular-expression engine, left abstract.
    The report parsers compile each pattern case-insensitively, search the
    report text with it and take capture group 1. That whole pipeline is
    modelled as an `Engine`: given a pattern and a text it either yields the
    captured string or fails (no match, no group 1, or a pattern that does not
    compile all count as failure). */
module Matcher {

  datatype Option<+T> = None | Some(value: T) {
    /** The captured value, or `default` when there is none. */
    function GetOr(default: T): T {
      match this
      case Some(v) => v
      case None => default
    }
  }

  /** Pattern, text -> group 1 of the first match, if any. */
  type Engine = (string, string) -> Option<string>

  /** One extraction attempt. The empty pattern compiles to a regex with no
      capture group, so asking for group 1 always raises: it never yields a
      value, whatever the engine and the text. */
  function Search(engine: Engine, pattern: string, text: string): (r: Option<string>)
    ensures pattern == "" ==> r.None?
    ensures pattern != "" ==> r == engine(pattern, text)
  {
    if pattern == "" then None else engine(pattern, text)
  }
}
