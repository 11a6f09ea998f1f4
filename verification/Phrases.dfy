/** Putting SQL text together: words with one space between them, and lists with a separator. */
module Phrases {

  function Join(parts: seq<string>, sep: string): string
  {
    if parts == [] then "" else if |parts| == 1 then parts[0] else parts[0] + (sep + Join(parts[1..], sep))
  }

  function Spaced(ws: seq<string>): string
  {
    if ws == [] then "" else if |ws| == 1 then ws[0] else ws[0] + (" " + Spaced(ws[1..]))
  }

  /** The lists one after the other with the keyword between them. */
  function Interleave(lists: seq<seq<string>>, keyword: string): seq<string>
  {
    if lists == [] then [] else if |lists| == 1 then lists[0]
    else lists[0] + ([keyword] + Interleave(lists[1..], keyword))
  }
}
