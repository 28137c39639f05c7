/** Quiz generation: ask the model for a JSON array of multiple-choice questions, cut the
    array out of its reply, normalise every item into a fixed record, and fall back to a
    single raw item when anything about the reply does not fit.

    The JSON parser and the language model are parameters. */
module Quiz {
  import opened Wrappers
  import opened Strings
  import opened Chunking

  // ----- the JSON span -----

  /** Python's `s.find(c)`: the first index of `c`, or -1. */
  function Find(s: string, c: char): (r: int)
    ensures -1 <= r < |s|
    ensures r == -1 <==> c !in s
    ensures r >= 0 ==> s[r] == c && c !in s[..r]
  {
    if s == [] then -1
    else if s[0] == c then 0
    else
      var k := Find(s[1..], c);
      assert s[1..][..(if k < 0 then 0 else k)] == s[1..(if k < 0 then 0 else k) + 1];
      if k < 0 then -1 else k + 1
  }

  /** Python's `s.rfind(c)`: the last index of `c`, or -1. */
  function RFind(s: string, c: char): (r: int)
    ensures -1 <= r < |s|
    ensures r == -1 <==> c !in s
    ensures r >= 0 ==> s[r] == c && c !in s[r + 1..]
  {
    if s == [] then -1
    else if s[|s| - 1] == c then |s| - 1
    else
      var k := RFind(s[..|s| - 1], c);
      SnocSuffix(s, k);
      k
  }

  lemma SnocSuffix<T>(s: seq<T>, k: int)
    requires -1 <= k < |s| - 1
    ensures s == s[..|s| - 1] + [s[|s| - 1]]
    ensures s[k + 1..] == s[..|s| - 1][k + 1..] + [s[|s| - 1]]
  {
  }

  /** The match of the dot-all regular expression `\[.*\]`: the leftmost `[` that some `]`
      follows, through the last `]` (the star is greedy). */
  function BracketSpan(raw: string): Option<string>
  {
    var i := Find(raw, '[');
    var j := RFind(raw, ']');
    if 0 <= i < j then Some(raw[i..j + 1]) else None
  }

  /** The regular expression matches exactly when some `[` comes before some `]`, and the
      match runs from the first `[` of the reply to its last `]`. */
  lemma BracketSpanSpec(raw: string)
    ensures BracketSpan(raw).Some? <==>
      exists p, q | 0 <= p < q < |raw| :: raw[p] == '[' && raw[q] == ']'
    ensures BracketSpan(raw).Some? ==>
      exists p, q | 0 <= p < q < |raw| && raw[p] == '[' && raw[q] == ']' ::
        BracketSpan(raw).value == raw[p..q + 1] && '[' !in raw[..p] && ']' !in raw[q + 1..]
  {
    if exists p, q | 0 <= p < q < |raw| :: raw[p] == '[' && raw[q] == ']' {
      var p, q :| 0 <= p < q < |raw| && raw[p] == '[' && raw[q] == ']';
      BracketPairFound(raw, p, q);
    }
    if BracketSpan(raw).Some? {
      BracketSpanOuter(raw);
    }
  }

  /** Any `[` before a `]` makes the expression match. */
  lemma BracketPairFound(raw: string, p: nat, q: nat)
    requires p < q < |raw| && raw[p] == '[' && raw[q] == ']'
    ensures BracketSpan(raw).Some?
  {
    FindIsFirst(raw, '[', p);
    RFindIsLast(raw, ']', q);
  }

  /** A match runs from the first `[` to the last `]`. */
  lemma BracketSpanOuter(raw: string)
    requires BracketSpan(raw).Some?
    ensures exists p, q | 0 <= p < q < |raw| && raw[p] == '[' && raw[q] == ']' ::
      BracketSpan(raw).value == raw[p..q + 1] && '[' !in raw[..p] && ']' !in raw[q + 1..]
  {
    var i := Find(raw, '[');
    var j := RFind(raw, ']');
    assert raw[i] == '[' && raw[j] == ']' && raw[i..j + 1] == BracketSpan(raw).value;
  }

  lemma FindIsFirst(s: string, c: char, p: nat)
    requires p < |s| && s[p] == c
    ensures 0 <= Find(s, c) <= p
  {
    assert s[p] in s;
    assert s[p] in s[..p + 1];
  }

  lemma RFindIsLast(s: string, c: char, q: nat)
    requires q < |s| && s[q] == c
    ensures q <= RFind(s, c)
  {
    assert s[q] in s;
    assert s[q] in s[q..];
  }

  /** The text handed to the JSON parser: the bracketed span when there is one; otherwise the
      reply cut after its last `}` with a `]` added (a reply cut off mid-array); otherwise
      the reply itself. */
  function JsonText(raw: string): (r: string)
    ensures BracketSpan(raw).Some? ==> r == BracketSpan(raw).value && r[0] == '[' && r[|r| - 1] == ']'
    ensures BracketSpan(raw).None? && '}' in raw ==>
      r == raw[..RFind(raw, '}') + 1] + "]" && '}' !in raw[RFind(raw, '}') + 1..]
    ensures BracketSpan(raw).None? && '}' !in raw ==> r == raw
  {
    match BracketSpan(raw)
    case Some(t) => t
    case None =>
      var k := RFind(raw, '}');
      if k != -1 then raw[..k + 1] + "]" else raw
  }

  // ----- parsed JSON and the record shape -----

  /** A parsed JSON value; a number is kept as its literal text. */
  datatype Json =
    | JNull
    | JBool(b: bool)
    | JNumber(literal: string)
    | JString(s: string)
    | JArray(items: seq<Json>)
    | JObject(fields: map<string, Json>)

  /** `json.loads`: the value, or None when it raises. */
  type Parser = string -> Option<Json>

  /** One normalised question. */
  datatype Mcq = Mcq(question: string, options: Json, correctOption: string, explanation: string)

  /** What the quiz generator returns per item: a question, or the raw reply when parsing
      failed (the reply may be None). */
  datatype QuizItem = McqItem(mcq: Mcq) | RawItem(raw: Option<string>)

  /** What `for item in data` iterates over. A list gives its elements. A dict gives its
      keys and a string its characters, all strings, whose missing `get` makes any non-empty
      one fail, so only the empty dict and the empty string iterate cleanly. Anything else is
      not iterable. */
  function Items(data: Json): (r: Option<seq<Json>>)
    ensures r.Some? <==> data.JArray? || data == JObject(map[]) || data == JString("")
    ensures data.JArray? ==> r == Some(data.items)
    ensures r.Some? && !data.JArray? ==> r == Some([])
  {
    match data
    case JArray(xs) => Some(xs)
    case JObject(m) => if m == map[] then Some([]) else None
    case JString(s) => if s == "" then Some([]) else None
    case _ => None
  }

  /** `item.get(key, "").strip()`: "" when the key is absent, the stripped text when it holds
      a string, a failure (a missing `strip`) otherwise. */
  function TextField(m: map<string, Json>, key: string): (r: Option<string>)
    ensures r.Some? <==> key !in m || m[key].JString?
    ensures key !in m ==> r == Some("")
    ensures key in m && m[key].JString? ==> r == Some(Strip(m[key].s))
    ensures r.Some? ==> Stripped(r.value)
  {
    if key !in m then Some("")
    else match m[key]
      case JString(s) => Some(Strip(s))
      case _ => None
  }

  /** The text a well-typed field holds: "" when absent, its string stripped otherwise. */
  function FieldText(m: map<string, Json>, key: string): string
  {
    if key in m && m[key].JString? then Strip(m[key].s) else ""
  }

  predicate TextFieldsOk(m: map<string, Json>)
  {
    TextField(m, "question").Some? && TextField(m, "correct_option").Some?
    && TextField(m, "explanation").Some?
  }

  /** The record built from one item; None when the item is not a dict or one of its text
      fields is not a string. */
  function ItemRecord(item: Json): Option<Mcq>
  {
    match item
    case JObject(m) =>
      if TextFieldsOk(m) then
        Some(Mcq(TextField(m, "question").value,
                 if "options" in m then m["options"] else JObject(map[]),
                 TextField(m, "correct_option").value,
                 TextField(m, "explanation").value))
      else None
    case _ => None
  }

  /** An item gives a record exactly when it is a dict whose text fields are strings or
      absent; the text fields are stripped, an absent one is empty, and absent options are
      the empty dict. */
  lemma ItemRecordSpec(item: Json)
    ensures ItemRecord(item).Some? <==> item.JObject? && TextFieldsOk(item.fields)
    ensures ItemRecord(item).Some? ==> var q := ItemRecord(item).value;
      Stripped(q.question) && Stripped(q.correctOption) && Stripped(q.explanation)
      && q.question == FieldText(item.fields, "question")
      && q.correctOption == FieldText(item.fields, "correct_option")
      && q.explanation == FieldText(item.fields, "explanation")
      && q.options == if "options" in item.fields then item.fields["options"] else JObject(map[])
  {
  }

  /** The records of all items, or None as soon as one item fails. */
  function Normalized(items: seq<Json>): Option<seq<Mcq>>
  {
    if items == [] then Some([])
    else
      match ItemRecord(items[0])
      case None => None
      case Some(m) =>
        match Normalized(items[1..])
        case None => None
        case Some(ms) => Some([m] + ms)
  }

  predicate AllRecords(items: seq<Json>)
  {
    forall i | 0 <= i < |items| :: ItemRecord(items[i]).Some?
  }

  /** Normalisation succeeds exactly when every item has the record shape. */
  lemma {:induction false} NormalizedSucceeds(items: seq<Json>)
    ensures Normalized(items).Some? <==> AllRecords(items)
  {
    if items != [] {
      NormalizedSucceeds(items[1..]);
      assert AllRecords(items) <==> ItemRecord(items[0]).Some? && AllRecords(items[1..]) by {
        if ItemRecord(items[0]).Some? && AllRecords(items[1..]) {
          forall i | 0 <= i < |items| ensures ItemRecord(items[i]).Some? {
            if i > 0 { assert items[i] == items[1..][i - 1]; }
          }
        }
      }
    }
  }

  /** On success there is one record per item, in order. */
  lemma {:induction false} NormalizedRecords(items: seq<Json>)
    requires Normalized(items).Some?
    ensures |Normalized(items).value| == |items|
    ensures forall i | 0 <= i < |items| ::
      ItemRecord(items[i]).Some? && Normalized(items).value[i] == ItemRecord(items[i]).value
  {
    if items != [] {
      NormalizedRecords(items[1..]);
      var ms := Normalized(items).value;
      forall i | 0 <= i < |items|
        ensures ItemRecord(items[i]).Some? && ms[i] == ItemRecord(items[i]).value
      {
        if i > 0 { assert items[i] == items[1..][i - 1]; }
      }
    }
  }

  /** The append loop over the items, leaving it at the first item that fails. */
  method NormalizeItems(items: seq<Json>) returns (r: Option<seq<Mcq>>)
    ensures r == Normalized(items)
  {
    var mcqs: seq<Mcq> := [];
    for i := 0 to |items|
      invariant |mcqs| == i
      invariant forall j | 0 <= j < i :: ItemRecord(items[j]).Some? && mcqs[j] == ItemRecord(items[j]).value
    {
      var rec := ItemRecord(items[i]);
      if rec.None? {
        NormalizedSucceeds(items);
        return None;
      }
      mcqs := mcqs + [rec.value];
    }
    NormalizedSucceeds(items);
    NormalizedRecords(items);
    assert mcqs == Normalized(items).value;
    return Some(mcqs);
  }

  // ----- generate_mcqs_from_context -----

  /** The question-writing prompt, in three fixed parts around the count and the context. */
  const McqHead: string :=
    "\nYou are a strict exam setter.\nUsing ONLY the information in the CONTEXT below, create EXACTLY "
  const McqRules: string :=
    " multiple-choice questions (MCQs).\n\nEach MCQ must have:\n"
    + "1. \"question\": The question text.\n"
    + "2. \"options\": A dictionary of 4 options with keys \"A\", \"B\", \"C\", \"D\".\n"
    + "3. \"correct_option\": The single correct key (\"A\", \"B\", \"C\", or \"D\").\n"
    + "4. \"explanation\": A detailed 1-2 sentence explanation of why the answer is correct, citing the context.\n"
    + "\nReturn the output as a valid JSON Array of objects.\n\nCONTEXT:\n"
  const McqTail: string := "\n\nJSON OUTPUT:\n"

  function McqPrompt(context: string, n: nat): string
  {
    McqHead + NatToString(n) + McqRules + context + McqTail
  }

  /** The items of a parsed reply, when the reply parses and every item has the record shape. */
  function ParsedRecords(raw: string, parse: Parser): Option<seq<Mcq>>
  {
    match parse(JsonText(raw))
    case None => None
    case Some(data) =>
      match Items(data)
      case None => None
      case Some(xs) => Normalized(xs)
  }

  function AsItems(ms: seq<Mcq>): (r: seq<QuizItem>)
    ensures |r| == |ms| && forall i | 0 <= i < |ms| :: r[i] == McqItem(ms[i])
  {
    seq(|ms|, i requires 0 <= i < |ms| => McqItem(ms[i]))
  }

  /** The quiz read from the model's reply: the records, or the single raw item when the reply
      is None, does not parse or does not have the shape (every such error is caught). */
  function McqsFromReply(raw: Option<string>, parse: Parser): (r: seq<QuizItem>)
    ensures raw.None? ==> r == [RawItem(None)]
    ensures raw.Some? && ParsedRecords(raw.value, parse).None? ==> r == [RawItem(raw)]
    ensures raw.Some? && ParsedRecords(raw.value, parse).Some? ==>
      |r| == |ParsedRecords(raw.value, parse).value| && forall i | 0 <= i < |r| :: r[i].McqItem?
  {
    if raw.None? then [RawItem(None)]
    else
      match ParsedRecords(raw.value, parse)
      case None => [RawItem(raw)]
      case Some(ms) => AsItems(ms)
  }

  /** `generate_mcqs_from_context`: a model call that raises is not caught. */
  function GenerateMcqs(context: string, n: nat, llm: string -> Reply, parse: Parser): (r: Result<seq<QuizItem>>)
    ensures r.Failure? <==> llm(McqPrompt(context, n)).Raises?
  {
    match llm(McqPrompt(context, n))
    case Raises => Failure("language model call raised")
    case ReturnsNone => Success(McqsFromReply(None, parse))
    case ReturnsText(t) => Success(McqsFromReply(Some(t), parse))
  }

  /** A well-formed reply: one record per array element, in order, text fields stripped. */
  lemma McqsOfArray(raw: string, parse: Parser, xs: seq<Json>)
    requires parse(JsonText(raw)) == Some(JArray(xs)) && AllRecords(xs)
    ensures var r := McqsFromReply(Some(raw), parse);
      |r| == |xs| && forall i | 0 <= i < |xs| :: r[i] == McqItem(ItemRecord(xs[i]).value)
  {
    NormalizedSucceeds(xs);
    NormalizedRecords(xs);
    var ms := Normalized(xs).value;
    assert Items(JArray(xs)) == Some(xs);
    assert ParsedRecords(raw, parse) == Some(ms);
    assert McqsFromReply(Some(raw), parse) == AsItems(ms);
  }

  /** The raw fallback is taken exactly when the reply does not parse to an iterable value
      whose every item has the record shape. */
  lemma McqsFallback(raw: string, parse: Parser)
    ensures McqsFromReply(Some(raw), parse) == [RawItem(Some(raw))] <==>
      match parse(JsonText(raw))
      case None => true
      case Some(data) => Items(data).None? || !AllRecords(Items(data).value)
  {
    match parse(JsonText(raw))
    case None =>
    case Some(data) =>
      if Items(data).Some? {
        NormalizedSucceeds(Items(data).value);
        var r := McqsFromReply(Some(raw), parse);
        if AllRecords(Items(data).value) {
          assert ParsedRecords(raw, parse).Some?;
          assert r == [] || r[0].McqItem?;
        }
      }
  }

  /** The loop version: extract, parse, normalise, fall back. */
  method GenerateMcqsFromContext(context: string, n: nat, llm: string -> Reply, parse: Parser)
    returns (r: Result<seq<QuizItem>>)
    ensures r == GenerateMcqs(context, n, llm, parse)
  {
    var prompt := McqPrompt(context, n);
    var reply := llm(prompt);
    if reply.Raises? {
      return Failure("language model call raised");
    }
    if reply.ReturnsNone? {
      return Success([RawItem(None)]);
    }
    var raw := reply.text;
    var jsonText := JsonText(raw);
    var data := parse(jsonText);
    if data.None? {
      return Success([RawItem(Some(raw))]);
    }
    var items := Items(data.value);
    if items.None? {
      return Success([RawItem(Some(raw))]);
    }
    var mcqs := NormalizeItems(items.value);
    if mcqs.None? {
      return Success([RawItem(Some(raw))]);
    }
    assert ParsedRecords(raw, parse) == mcqs;
    var out := WrapItems(mcqs.value);
    return Success(out);
  }

  /** The list of records as quiz items, in order. */
  method WrapItems(ms: seq<Mcq>) returns (out: seq<QuizItem>)
    ensures out == AsItems(ms)
  {
    out := [];
    for i := 0 to |ms|
      invariant out == AsItems(ms[..i])
    {
      out := out + [McqItem(ms[i])];
    }
    assert ms[..|ms|] == ms;
  }

  // ----- quiz_from_full_summary -----

  const QuestionCount: nat := 10
  const PieceChars: int := 1500
  const ContextChars: int := 6000

  /** Each stored chunk's text cut to its first 1500 characters. */
  function Pieces(chunks: seq<StoredChunk>): (r: seq<string>)
    ensures |r| == |chunks|
    ensures forall i | 0 <= i < |chunks| ::
      r[i] <= chunks[i].text
      && |r[i]| == (if |chunks[i].text| < PieceChars then |chunks[i].text| else PieceChars)
  {
    seq(|chunks|, i requires 0 <= i < |chunks| => PyPrefix(chunks[i].text, PieceChars))
  }

  /** The context without a summariser: the pieces joined by newlines, cut to 6000
      characters. */
  function PlainContext(chunks: seq<StoredChunk>): (r: string)
    ensures r <= Join(Pieces(chunks), "\n")
    ensures |r| == if |Join(Pieces(chunks), "\n")| < ContextChars then |Join(Pieces(chunks), "\n")| else ContextChars
  {
    PyPrefix(Join(Pieces(chunks), "\n"), ContextChars)
  }

  /** When nothing is cut off and no piece holds a newline, the context is exactly the pieces,
      one per line. */
  lemma PlainContextSplitsBack(chunks: seq<StoredChunk>)
    requires |chunks| >= 1 && |Join(Pieces(chunks), "\n")| <= ContextChars
    requires forall i | 0 <= i < |chunks| :: '\n' !in chunks[i].text
    ensures Split(PlainContext(chunks), "\n") == Pieces(chunks)
  {
    var ps := Pieces(chunks);
    assert PlainContext(chunks) == Join(ps, "\n");
    forall x | x in ps ensures SepFree(x, "\n") {
      var i :| 0 <= i < |ps| && ps[i] == x;
      assert forall c | c in x :: c in chunks[i].text by {
        assert x == chunks[i].text[..|x|];
      }
      SepFreeWithout(x, "\n");
    }
    SplitJoin(ps, "\n");
  }
}
