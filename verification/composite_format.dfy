/**
 The part of .NET composite formatting (`string.Format`) that the
 caller-context line uses: a format is a sequence of literal text and
 format items `{index,alignment}` with a non-negative alignment. Arguments
 arrive already converted to text (`ToString()` of each object). A format
 item whose index has no argument raises `FormatException`.
 */
module CompositeFormat {
  import opened Text

  datatype Item =
    | Literal(text: string)
    | Hole(index: nat, alignment: nat)

  datatype Formatted =
    | Rendered(text: string)
    | FormatException

  predicate IsBrace(c: char) {
    c == '{' || c == '}'
  }

  /** No literal part holds a brace, so no `{{`/`}}` escape is needed and
      `Unparse` gives the format string back exactly. */
  predicate PlainLiterals(items: seq<Item>) {
    forall i :: 0 <= i < |items| && items[i].Literal? ==> NoBrace(items[i].text)
  }

  predicate NoBrace(t: string) {
    forall j :: 0 <= j < |t| ==> !IsBrace(t[j])
  }

  /** Every format item refers to an argument that exists. */
  predicate IndicesInRange(items: seq<Item>, argCount: nat) {
    forall i :: 0 <= i < |items| ==> (items[i].Hole? ==> items[i].index < argCount)
  }

  /** Renders `items` against `args`; fails exactly when some format item
      names a missing argument. */
  function Render(items: seq<Item>, args: seq<string>): (r: Formatted)
    ensures r.Rendered? <==> IndicesInRange(items, |args|)
  {
    if |items| == 0 then Rendered("")
    else
      var rest := Render(items[1..], args);
      match items[0]
      case Literal(t) =>
        if rest.Rendered? then Rendered(t + rest.text) else FormatException
      case Hole(i, w) =>
        if i < |args| && rest.Rendered? then Rendered(PadLeft(args[i], w) + rest.text) else FormatException
  }

  /** One rendering step: literal text followed by a format item. */
  lemma RenderLiteralThenHole(t: string, i: nat, w: nat, rest: seq<Item>, args: seq<string>)
    requires i < |args| && Render(rest, args).Rendered?
    ensures Render([Literal(t), Hole(i, w)] + rest, args)
         == Rendered(t + (PadLeft(args[i], w) + Render(rest, args).text))
  {
    var items := [Literal(t), Hole(i, w)] + rest;
    assert items[1..] == [Hole(i, w)] + rest;
    assert items[1..][1..] == rest;
  }

  /** The source text of one item: `{index,alignment}`, or the literal itself. */
  function ItemText(item: Item): string {
    match item
    case Literal(t) => t
    case Hole(i, w) => "{" + NatToString(i) + "," + NatToString(w) + "}"
  }

  /** The format string as it is written in source (see `PlainLiterals`). */
  function Unparse(items: seq<Item>): string {
    if |items| == 0 then "" else ItemText(items[0]) + Unparse(items[1..])
  }
}
