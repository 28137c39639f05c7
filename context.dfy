/** The retrieval context handed to the language model: one labelled, truncated snippet
    per source, separated by a horizontal rule. The chat engine and the summariser's map
    step build it the same way. */
module SourceContext {
  import opened Strings

  /** A retrieved or stored chunk, reduced to what the context shows of it. */
  datatype Source = Source(id: string, text: string)

  /** The sources of a list of records, one per record and in order; `asSource` says what a
      record shows of itself. */
  function SourcesOf<T>(xs: seq<T>, asSource: T -> Source): (r: seq<Source>)
    ensures |r| == |xs|
  {
    seq(|xs|, i requires 0 <= i < |xs| => asSource(xs[i]))
  }

  const Separator: string := "\n\n---\n\n"
  const Ellipsis: string := "..."

  /** The largest snippet the chat engine and the summariser put in a context. */
  const DefaultMaxChars: int := 1500

  /** The text itself when it fits in `maxChars` characters, otherwise its first `maxChars`
      characters (a Python slice, so a negative bound counts from the end) and "...". */
  function Snippet(text: string, maxChars: int): (r: string)
    ensures |text| <= maxChars ==> r == text
    ensures |text| > maxChars ==>
      |r| >= 3 && r[|r| - 3..] == Ellipsis && r[..|r| - 3] <= text
    ensures |text| > maxChars >= 0 ==> |r| == maxChars + 3 && r[..maxChars] == text[..maxChars]
  {
    if |text| <= maxChars then text else PyPrefix(text, maxChars) + Ellipsis
  }

  function SourcePart(s: Source, maxChars: int): string
  {
    "SOURCE_ID: " + s.id + "\n" + Snippet(s.text, maxChars)
  }

  /** One part per source, in order. */
  function Parts(sources: seq<Source>, maxChars: int): (r: seq<string>)
    ensures |r| == |sources|
  {
    seq(|sources|, i requires 0 <= i < |sources| => SourcePart(sources[i], maxChars))
  }

  /** Collects the parts in a loop, then joins them with the separator. */
  method BuildContext(sources: seq<Source>, maxChars: int) returns (context: string)
    ensures context == Join(Parts(sources, maxChars), Separator)
  {
    var parts: seq<string> := [];
    for i := 0 to |sources|
      invariant |parts| == i
      invariant forall j | 0 <= j < i :: parts[j] == SourcePart(sources[j], maxChars)
    {
      var snippet := if |sources[i].text| <= maxChars then sources[i].text
        else PyPrefix(sources[i].text, maxChars) + Ellipsis;
      parts := parts + ["SOURCE_ID: " + sources[i].id + "\n" + snippet];
    }
    assert parts == Parts(sources, maxChars);
    context := Join(parts, Separator);
  }

  /** The context is exactly its parts: splitting it at the separator gives back one part per
      source, in order, whenever no part itself contains the separator. */
  lemma ContextSplitsBack(sources: seq<Source>, maxChars: int)
    requires |sources| >= 1
    requires forall i | 0 <= i < |sources| :: SepFree(SourcePart(sources[i], maxChars), Separator)
    ensures Split(Join(Parts(sources, maxChars), Separator), Separator) == Parts(sources, maxChars)
    ensures forall i | 0 <= i < |sources| ::
      Split(Join(Parts(sources, maxChars), Separator), Separator)[i][..11 + |sources[i].id|]
      == "SOURCE_ID: " + sources[i].id
  {
    var ps := Parts(sources, maxChars);
    forall x | x in ps ensures SepFree(x, Separator) {
      var i :| 0 <= i < |ps| && ps[i] == x;
    }
    SplitJoin(ps, Separator);
  }
}
