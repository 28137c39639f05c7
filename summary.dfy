/** The map-reduce summariser of a whole collection: summarise consecutive batches of the
    stored chunks (map), compress the batch summaries while they exceed the model's token
    budget, then ask for one final structured summary (reduce).

    The language model is an oracle `llm(n, prompt)` giving the reply to the `n`-th call of
    the run, so repeated calls with the same prompt may answer differently. */
module Summary {
  import opened Wrappers
  import opened Strings
  import opened Chunking
  import opened SummaryBatches
  import opened SourceContext

  /** The keyword parameters of the summariser. */
  datatype Config = Config(
    batchSize: int,
    intermediateMaxTokens: int,
    finalMaxTokens: int,
    intermediateInstruction: string,
    finalInstruction: string,
    snippetMaxChars: int,
    llmRetry: int,
    modelTokenLimit: int,
    compressionBatchSize: int,
    compressionMaxRounds: int)

  const IntermediateInstruction: string :=
    "Using ONLY the provided context, write a detailed explanation of all important ideas. "
    + "DO NOT include any '(source: ...)' or chunk IDs. "
    + "Summaries should be factual and complete, 6\U{2013}10 sentences each. "
    + "Return only the rewritten explanation."

  const FinalInstruction: string :=
    "You are a professional technical writer. "
    + "Using ONLY the information inside the intermediate summaries provided, create a comprehensive, "
    + "well-structured document summary.\n\n"
    + "INSTRUCTIONS:\n"
    + "1. Do NOT use generic or fixed headings. Instead, **generate your own descriptive headings** "
    + "   that perfectly match the specific topics discussed in the text.\n"
    + "2. Start with a broad **Overview** section.\n"
    + "3. Organize the rest of the content into logical sections based on the themes found in the text.\n"
    + "4. Ensure the summary flows naturally like a professionally written report.\n"
    + "5. Do NOT mention chunk IDs, source numbers, or internal metadata.\n\n"
    + "Goal: A structured, easy-to-read report that adapts its outline to the content."

  const CompressInstruction: string :=
    "You are given multiple intermediate summaries. For each INTERMEDIATE_SUMMARY_x: "
    + "Produce a very short compressed summary (1-2 sentences) that preserves the main point. "
    + "Return each compressed summary in the same order, separated by a blank line."

  const DefaultConfig: Config := Config(6, 512, 1500, IntermediateInstruction, FinalInstruction,
    1500, 1, 8000, 8, 3)

  const EmptySummary: string := "[EMPTY SUMMARY]"
  const FinalError: string := "Error generating summary."
  const NoChunks: string := "No chunks found in collection."
  const Blank2: string := "\n\n"

  type Llm = (nat, string) -> Reply

  /** A value together with the number of model calls made so far. */
  datatype Tally<T> = Tally(value: T, calls: nat)

  /** What the summariser returns. */
  datatype Intermediate = Intermediate(batchIdx: nat, summary: string)
  datatype SummaryOutput = SummaryOutput(intermediates: seq<Intermediate>, finalSummary: string)

  // ----- map step -----

  function ChunkSource(c: StoredChunk): Source
  {
    Source(c.id, c.text)
  }

  function MapPrompt(instruction: string, context: string): string
  {
    instruction + "\n\nContext:\n" + context + "\n\nReturn the summary only."
  }

  function BatchPrompt(batch: seq<StoredChunk>, cfg: Config): string
  {
    MapPrompt(cfg.intermediateInstruction, Join(Parts(SourcesOf(batch, ChunkSource), cfg.snippetMaxChars), Separator))
  }

  /** The retry loop for one batch, from attempt number `attempt` on: the stripped text of the
      first reply whose stripped text is not empty, or "" when every attempt up to `retry`
      raised, returned nothing or returned blank text. */
  function Attempts(llm: Llm, calls: nat, prompt: string, retry: int, attempt: nat): (r: Tally<string>)
    ensures r.value == "" || Stripped(r.value)
    ensures r.calls >= calls
    ensures r.calls - calls <= if attempt <= retry then retry - attempt + 1 else 0
    decreases if attempt <= retry then retry - attempt + 1 else 0
  {
    if attempt > retry then Tally("", calls)
    else if Succeeded(llm(calls, prompt)) then Tally(Strip(llm(calls, prompt).text), calls + 1)
    else Attempts(llm, calls + 1, prompt, retry, attempt + 1)
  }

  /** A reply the map step accepts: text that is not blank. */
  predicate Succeeded(reply: Reply)
  {
    reply.ReturnsText? && Strip(reply.text) != ""
  }

  /** No call numbered `lo` to `hi - 1` was accepted. */
  predicate NoneSucceeded(llm: Llm, prompt: string, lo: nat, hi: nat)
  {
    forall n | lo <= n < hi :: !Succeeded(llm(n, prompt))
  }

  /** The summary of one batch, with the sentinel in place of an empty result. */
  function BatchSummary(llm: Llm, calls: nat, batch: seq<StoredChunk>, cfg: Config): (r: Tally<string>)
    ensures r.value != "" && Stripped(r.value)
  {
    var t := Attempts(llm, calls, BatchPrompt(batch, cfg), cfg.llmRetry, 0);
    assert Stripped(EmptySummary) by {
      assert EmptySummary[0] == '[' && EmptySummary[|EmptySummary| - 1] == ']';
    }
    Tally(if t.value == "" then EmptySummary else t.value, t.calls)
  }

  /** The intermediate summaries of `batches[i..]`. */
  function MapFrom(llm: Llm, calls: nat, batches: seq<seq<StoredChunk>>, i: nat, cfg: Config)
    : (r: Tally<seq<Intermediate>>)
    requires i <= |batches|
    ensures |r.value| == |batches| - i
    ensures r.calls >= calls
    decreases |batches| - i
  {
    if i == |batches| then Tally([], calls)
    else
      var s := BatchSummary(llm, calls, batches[i], cfg);
      var rest := MapFrom(llm, s.calls, batches, i + 1, cfg);
      Tally([Intermediate(i, s.value)] + rest.value, rest.calls)
  }

  function Texts(its: seq<Intermediate>): (r: seq<string>)
    ensures |r| == |its|
  {
    seq(|its|, i requires 0 <= i < |its| => its[i].summary)
  }

  // ----- token budget -----

  /** `_estimate_tokens_from_text`: a quarter of the length, rounded down, but at least 1 for
      any non-empty text. */
  function EstimateTokens(text: string): (r: nat)
    ensures text == "" <==> r == 0
    ensures |text| >= 4 ==> 4 * r <= |text| < 4 * r + 4
    ensures 0 < |text| < 4 ==> r == 1
  {
    if text == "" then 0 else if |text| / 4 < 1 then 1 else |text| / 4
  }

  /** What the final call may spend on its context. */
  function AllowedTokens(cfg: Config): (r: nat)
    ensures r >= cfg.modelTokenLimit - cfg.finalMaxTokens - 128
    ensures r == 0 || r == cfg.modelTokenLimit - cfg.finalMaxTokens - 128
  {
    if cfg.modelTokenLimit - cfg.finalMaxTokens - 128 > 0 then cfg.modelTokenLimit - cfg.finalMaxTokens - 128 else 0
  }

  function Label(n: nat, text: string): string
  {
    "INTERMEDIATE_SUMMARY_" + NatToString(n) + ":\n" + text
  }

  /** The summaries, each labelled with its position counted from `offset`, one per
      paragraph. */
  function Labelled(texts: seq<string>, offset: nat): string
  {
    Join(seq(|texts|, i requires 0 <= i < |texts| => Label(offset + i, texts[i])), Blank2)
  }

  // ----- compression -----

  function GroupPrompt(group: seq<string>, offset: nat): string
  {
    CompressInstruction + "\n\n" + Labelled(group, offset) + "\n\nReturn only the compressed summaries in order."
  }

  /** The reply text a compression call leaves: stripped text, Python's "None" for no text, and
      the group's own texts joined by blank lines when the call raises. */
  function CompressedReply(reply: Reply, group: seq<string>): string
  {
    match reply
    case ReturnsText(t) => Strip(t)
    case ReturnsNone => "None"
    case Raises => Join(group, Blank2)
  }

  /** The non-blank paragraphs of a reply, stripped. */
  function ReplyParts(text: string): (r: seq<string>)
    ensures forall i | 0 <= i < |r| :: Stripped(r[i]) && r[i] != ""
  {
    NonBlankStripped(Split(text, Blank2))
  }

  /** Member `j` of a group becomes paragraph `j` of the reply, or stays as it was when the
      reply has fewer paragraphs. */
  function Positional(group: seq<string>, parts: seq<string>): (r: seq<string>)
    ensures |r| == |group|
    ensures |parts| >= |group| ==> r == parts[..|group|]
    ensures |parts| < |group| ==> r == parts + group[|parts|..]
  {
    seq(|group|, j requires 0 <= j < |group| => if j < |parts| then parts[j] else group[j])
  }

  function GroupEnd(n: nat, size: nat, offset: nat): (r: nat)
    requires size > 0 && offset < n
    ensures offset < r <= n && r - offset <= size
  {
    if offset + size < n then offset + size else n
  }

  /** One compression round over `texts[offset..]`, a group of `size` at a time, each group
      one call. */
  function CompressFrom(llm: Llm, calls: nat, texts: seq<string>, size: nat, offset: nat)
    : (r: Tally<seq<string>>)
    requires size > 0 && offset <= |texts|
    ensures |r.value| == |texts| - offset
    ensures r.calls >= calls
    decreases |texts| - offset
  {
    if offset == |texts| then Tally([], calls)
    else
      var rest := CompressFrom(llm, calls + 1, texts, size, GroupEnd(|texts|, size, offset));
      Tally(GroupOut(llm, calls, texts, size, offset) + rest.value, rest.calls)
  }

  /** What the `calls`-th call leaves of the group starting at `offset`. */
  function GroupOut(llm: Llm, calls: nat, texts: seq<string>, size: nat, offset: nat): (r: seq<string>)
    requires size > 0 && offset < |texts|
    ensures |r| == GroupEnd(|texts|, size, offset) - offset
  {
    var group := texts[offset..GroupEnd(|texts|, size, offset)];
    Positional(group, ReplyParts(CompressedReply(llm(calls, GroupPrompt(group, offset)), group)))
  }

  /** The same round with the members already compressed carried along, as the loop of
      `_compress_intermediates` accumulates them. */
  function CompressAcc(llm: Llm, calls: nat, texts: seq<string>, size: nat, offset: nat, acc: seq<string>)
    : Tally<seq<string>>
    requires size > 0 && offset <= |texts|
    decreases |texts| - offset
  {
    if offset == |texts| then Tally(acc, calls)
    else CompressAcc(llm, calls + 1, texts, size, GroupEnd(|texts|, size, offset), acc + GroupOut(llm, calls, texts, size, offset))
  }

  lemma {:induction false} CompressAccFrom(llm: Llm, calls: nat, texts: seq<string>, size: nat, offset: nat, acc: seq<string>)
    requires size > 0 && offset <= |texts|
    ensures CompressAcc(llm, calls, texts, size, offset, acc).value == acc + CompressFrom(llm, calls, texts, size, offset).value
    ensures CompressAcc(llm, calls, texts, size, offset, acc).calls == CompressFrom(llm, calls, texts, size, offset).calls
    decreases |texts| - offset
  {
    if offset < |texts| {
      var hi := GroupEnd(|texts|, size, offset);
      var g := GroupOut(llm, calls, texts, size, offset);
      CompressAccFrom(llm, calls + 1, texts, size, hi, acc + g);
      ConcatAssoc(acc, g, CompressFrom(llm, calls + 1, texts, size, hi).value);
    }
  }

  /** The state the reduce loop stops in. */
  datatype Reduced = Reduced(texts: seq<string>, rounds: nat)

  /** The compression loop from round `round` on: compress while the labelled summaries are
      over budget and rounds remain. */
  function ReduceFrom(llm: Llm, calls: nat, texts: seq<string>, round: nat, cfg: Config)
    : (r: Tally<Reduced>)
    requires cfg.compressionBatchSize > 0
    ensures |r.value.texts| == |texts|
    ensures r.value.rounds >= round
    decreases if round < cfg.compressionMaxRounds then cfg.compressionMaxRounds - round else 0
  {
    if EstimateTokens(Labelled(texts, 0)) > AllowedTokens(cfg) && round < cfg.compressionMaxRounds then
      var c := CompressFrom(llm, calls, texts, cfg.compressionBatchSize, 0);
      ReduceFrom(llm, c.calls, c.value, round + 1, cfg)
    else Tally(Reduced(texts, round), calls)
  }

  // ----- final call -----

  function FinalPrompt(cfg: Config, combined: string): string
  {
    cfg.finalInstruction + "\n\nContext (Intermediate Summaries):\n" + combined
    + "\n\nReturn the final structured summary."
  }

  /** The reply to the final call when it is non-empty text (not stripped), otherwise the
      error string. */
  function FinalSummary(reply: Reply): (r: string)
    ensures r != ""
    ensures reply.ReturnsText? && reply.text != "" ==> r == reply.text
    ensures reply.Raises? || reply.ReturnsNone? || reply == ReturnsText("") ==> r == FinalError
  {
    if reply.ReturnsText? && reply.text != "" then reply.text else FinalError
  }

  // ----- the whole run -----

  /** `summarize_entire_collection_map_reduce` over the collection's records. */
  function Summarize(chunks: seq<StoredChunk>, cfg: Config, llm: Llm): (r: Result<SummaryOutput>)
    requires cfg.batchSize > 0 && cfg.compressionBatchSize > 0
    ensures r.Failure? <==> chunks == []
    ensures r.Failure? ==> r.error == NoChunks
    ensures r.Success? ==> r.value.finalSummary != ""
  {
    if chunks == [] then Failure(NoChunks)
    else
      var batches := Batches(OrderedChunks(chunks), cfg.batchSize);
      var m := MapFrom(llm, 0, batches, 0, cfg);
      var red := ReduceFrom(llm, m.calls, Texts(m.value), 0, cfg);
      var reply := llm(red.calls, FinalPrompt(cfg, Labelled(red.value.texts, 0)));
      Success(SummaryOutput(m.value, FinalSummary(reply)))
  }

  // ----- properties -----

  /** A batch's retry loop stops at the first accepted reply and keeps its stripped text;
      every earlier call raised, returned nothing or returned blank text. */
  lemma {:induction false} AttemptsAccepted(llm: Llm, calls: nat, prompt: string, retry: int, attempt: nat)
    requires Attempts(llm, calls, prompt, retry, attempt).value != ""
    ensures Accepted(llm, calls, prompt, Attempts(llm, calls, prompt, retry, attempt))
    decreases if attempt <= retry then retry - attempt + 1 else 0
  {
    if !Succeeded(llm(calls, prompt)) {
      var r := Attempts(llm, calls + 1, prompt, retry, attempt + 1);
      AttemptsAccepted(llm, calls + 1, prompt, retry, attempt + 1);
      assert NoneSucceeded(llm, prompt, calls, r.calls - 1);
    }
  }

  /** When no call is accepted the result is "", after exactly one call per remaining attempt
      (none at all if `retry` < 0), every one of them rejected. */
  lemma {:induction false} AttemptsExhausted(llm: Llm, calls: nat, prompt: string, retry: int, attempt: nat)
    requires Attempts(llm, calls, prompt, retry, attempt).value == ""
    ensures Exhausted(llm, calls, prompt, retry, attempt, Attempts(llm, calls, prompt, retry, attempt).calls)
    decreases if attempt <= retry then retry - attempt + 1 else 0
  {
    if attempt <= retry {
      var r := Attempts(llm, calls + 1, prompt, retry, attempt + 1);
      AttemptsExhausted(llm, calls + 1, prompt, retry, attempt + 1);
      assert NoneSucceeded(llm, prompt, calls, r.calls);
    }
  }

  /** The loop ended on an accepted reply, its last call, after calls that were all
      rejected. */
  predicate Accepted(llm: Llm, calls: nat, prompt: string, r: Tally<string>)
  {
    r.calls > calls && Succeeded(llm(r.calls - 1, prompt))
    && r.value == Strip(llm(r.calls - 1, prompt).text)
    && NoneSucceeded(llm, prompt, calls, r.calls - 1)
  }

  /** The loop ran out of attempts: every call was rejected, and there was one per remaining
      attempt. */
  predicate Exhausted(llm: Llm, calls: nat, prompt: string, retry: int, attempt: nat, end: nat)
  {
    NoneSucceeded(llm, prompt, calls, end)
    && end - calls == if attempt <= retry then retry - attempt + 1 else 0
  }

  /** One intermediate summary per batch, each tagged with its batch's position, each
      non-empty; the map step makes at most `retry + 1` calls per batch. */
  lemma {:induction false} MapFromSpec(llm: Llm, calls: nat, batches: seq<seq<StoredChunk>>, i: nat, cfg: Config)
    requires i <= |batches|
    ensures var r := MapFrom(llm, calls, batches, i, cfg);
      forall j | 0 <= j < |r.value| :: r.value[j].batchIdx == i + j && r.value[j].summary != ""
    ensures MapFrom(llm, calls, batches, i, cfg).calls - calls
      <= (|batches| - i) * (if cfg.llmRetry >= 0 then cfg.llmRetry + 1 else 0)
  {
    MapFromTagged(llm, calls, batches, i, cfg);
    MapFromCalls(llm, calls, batches, i, cfg);
  }

  /** Summary number `j` is tagged with batch position `i + j` and is not empty. */
  predicate TaggedFrom(its: seq<Intermediate>, i: nat)
  {
    forall j | 0 <= j < |its| :: its[j].batchIdx == i + j && its[j].summary != ""
  }

  lemma {:induction false} MapFromTagged(llm: Llm, calls: nat, batches: seq<seq<StoredChunk>>, i: nat, cfg: Config)
    requires i <= |batches|
    ensures TaggedFrom(MapFrom(llm, calls, batches, i, cfg).value, i)
    decreases |batches| - i
  {
    if i < |batches| {
      var s := BatchSummary(llm, calls, batches[i], cfg);
      var rest := MapFrom(llm, s.calls, batches, i + 1, cfg).value;
      MapFromTagged(llm, s.calls, batches, i + 1, cfg);
      TaggedCons(Intermediate(i, s.value), rest, i);
    }
  }

  lemma TaggedCons(x: Intermediate, rest: seq<Intermediate>, i: nat)
    requires x.batchIdx == i && x.summary != "" && TaggedFrom(rest, i + 1)
    ensures TaggedFrom([x] + rest, i)
  {
    var its := [x] + rest;
    forall j | 0 <= j < |its| ensures its[j].batchIdx == i + j && its[j].summary != "" {
      if j > 0 {
        assert its[j] == rest[j - 1];
      }
    }
  }

  lemma {:induction false} MapFromCalls(llm: Llm, calls: nat, batches: seq<seq<StoredChunk>>, i: nat, cfg: Config)
    requires i <= |batches|
    ensures MapFrom(llm, calls, batches, i, cfg).calls - calls
      <= (|batches| - i) * (if cfg.llmRetry >= 0 then cfg.llmRetry + 1 else 0)
    decreases |batches| - i
  {
    if i < |batches| {
      var s := BatchSummary(llm, calls, batches[i], cfg);
      assert MapFrom(llm, calls, batches, i, cfg).calls == MapFrom(llm, s.calls, batches, i + 1, cfg).calls;
      MapFromCalls(llm, s.calls, batches, i + 1, cfg);
      var k := if cfg.llmRetry >= 0 then cfg.llmRetry + 1 else 0;
      assert s.calls - calls <= k;
      MulSucc(|batches| - (i + 1), k);
    }
  }

  lemma MulSucc(n: nat, k: nat)
    ensures (n + 1) * k == n * k + k
  {
  }

  /** A compression round makes one call per group, the groups being the batches of
      `size` consecutive summaries. */
  lemma {:induction false} CompressCalls(llm: Llm, calls: nat, texts: seq<string>, size: nat, offset: nat)
    requires size > 0 && offset <= |texts|
    ensures CompressFrom(llm, calls, texts, size, offset).calls - calls == |Batches(texts[offset..], size)|
    decreases |texts| - offset
  {
    if offset < |texts| {
      var hi := GroupEnd(|texts|, size, offset);
      CompressCalls(llm, calls + 1, texts, size, hi);
      if hi < |texts| {
        assert texts[offset..][size..] == texts[hi..];
      } else {
        assert texts[hi..] == [];
      }
    }
  }

  /** Position by position, each of `r` is the matching member of `orig` or a stripped,
      non-blank replacement. */
  predicate KeptOrReplaced(r: seq<string>, orig: seq<string>)
  {
    |r| == |orig| && forall j | 0 <= j < |r| :: r[j] == orig[j] || (r[j] != "" && Stripped(r[j]))
  }

  /** Compression keeps the number of summaries and their positions: each one is either
      left as it was or replaced by a stripped, non-blank paragraph of its group's reply. */
  lemma {:induction false} CompressFromSpec(llm: Llm, calls: nat, texts: seq<string>, size: nat, offset: nat)
    requires size > 0 && offset <= |texts|
    ensures KeptOrReplaced(CompressFrom(llm, calls, texts, size, offset).value, texts[offset..])
    decreases |texts| - offset
  {
    if offset < |texts| {
      var hi := GroupEnd(|texts|, size, offset);
      GroupOutKept(llm, calls, texts, size, offset);
      CompressFromSpec(llm, calls + 1, texts, size, hi);
      SliceSplit(texts, offset, hi);
      KeptOrReplacedConcat(GroupOut(llm, calls, texts, size, offset), CompressFrom(llm, calls + 1, texts, size, hi).value,
        texts[offset..hi], texts[hi..]);
    }
  }

  /** One group's output keeps or replaces each of its members. */
  lemma GroupOutKept(llm: Llm, calls: nat, texts: seq<string>, size: nat, offset: nat)
    requires size > 0 && offset < |texts|
    ensures KeptOrReplaced(GroupOut(llm, calls, texts, size, offset), texts[offset..GroupEnd(|texts|, size, offset)])
  {
    var group := texts[offset..GroupEnd(|texts|, size, offset)];
    var parts := ReplyParts(CompressedReply(llm(calls, GroupPrompt(group, offset)), group));
    var p := Positional(group, parts);
    assert p == GroupOut(llm, calls, texts, size, offset);
    forall j | 0 <= j < |p| ensures p[j] == group[j] || (p[j] != "" && Stripped(p[j])) {
      if j < |parts| {
        assert p[j] == parts[j];
      }
    }
  }

  lemma SliceSplit<T>(s: seq<T>, a: nat, b: nat)
    requires a <= b <= |s|
    ensures s[a..] == s[a..b] + s[b..]
  {
  }

  lemma KeptOrReplacedConcat(a: seq<string>, b: seq<string>, oa: seq<string>, ob: seq<string>)
    requires KeptOrReplaced(a, oa) && KeptOrReplaced(b, ob)
    ensures KeptOrReplaced(a + b, oa + ob)
  {
    forall j | 0 <= j < |a + b| ensures (a + b)[j] == (oa + ob)[j] || ((a + b)[j] != "" && Stripped((a + b)[j])) {
      if j >= |a| {
        assert (a + b)[j] == b[j - |a|] && (oa + ob)[j] == ob[j - |a|];
      }
    }
  }

  /** When a compression call raises, its group survives unchanged provided every member is
      stripped, non-empty and free of blank lines (the fallback re-splits the joined group). */
  lemma CompressFallbackKeepsGroup(group: seq<string>)
    requires |group| >= 1
    requires forall j | 0 <= j < |group| :: group[j] != "" && Stripped(group[j]) && SepFree(group[j], Blank2)
    ensures Positional(group, ReplyParts(CompressedReply(Raises, group))) == group
  {
    forall x | x in group ensures SepFree(x, Blank2) {
      var j :| 0 <= j < |group| && group[j] == x;
    }
    SplitJoin(group, Blank2);
    NonBlankStrippedKeeps(group);
  }

  /** The reduce loop stops after at most `compression_max_rounds` rounds, as soon as the
      labelled summaries fit the budget, or when the rounds run out (budget unmet); it does
      not touch summaries that already fit. */
  lemma {:induction false} ReduceFromSpec(llm: Llm, calls: nat, texts: seq<string>, round: nat, cfg: Config)
    requires cfg.compressionBatchSize > 0
    ensures var r := ReduceFrom(llm, calls, texts, round, cfg).value;
      r.rounds <= if round < cfg.compressionMaxRounds then cfg.compressionMaxRounds else round
    ensures var r := ReduceFrom(llm, calls, texts, round, cfg).value;
      EstimateTokens(Labelled(r.texts, 0)) <= AllowedTokens(cfg) || r.rounds >= cfg.compressionMaxRounds
    ensures EstimateTokens(Labelled(texts, 0)) <= AllowedTokens(cfg) ==>
      ReduceFrom(llm, calls, texts, round, cfg).value == Reduced(texts, round)
    decreases if round < cfg.compressionMaxRounds then cfg.compressionMaxRounds - round else 0
  {
    if EstimateTokens(Labelled(texts, 0)) > AllowedTokens(cfg) && round < cfg.compressionMaxRounds {
      var c := CompressFrom(llm, calls, texts, cfg.compressionBatchSize, 0);
      ReduceFromSpec(llm, c.calls, c.value, round + 1, cfg);
    }
  }

  /** The shape of a successful run: `ceil(n / batch_size)` intermediate summaries, the
      `j`-th tagged `j`, none empty, and a non-empty final summary. */
  lemma SummarizeShape(chunks: seq<StoredChunk>, cfg: Config, llm: Llm)
    requires cfg.batchSize > 0 && cfg.compressionBatchSize > 0 && chunks != []
    ensures var its := Summarize(chunks, cfg, llm).value.intermediates;
      |chunks| <= |its| * cfg.batchSize && (|its| - 1) * cfg.batchSize < |chunks|
      && forall j | 0 <= j < |its| :: its[j].batchIdx == j && its[j].summary != ""
  {
    var sorted := OrderedChunks(chunks);
    var batches := Batches(sorted, cfg.batchSize);
    BatchCount(sorted, cfg.batchSize);
    assert |sorted| == |chunks|;
    MapFromSpec(llm, 0, batches, 0, cfg);
  }

  // ----- the loops, as the summariser runs them -----

  /** The retry loop of one batch: call the model until a reply with non-blank text comes
      back or the attempts run out; "" when they do. */
  method RetrySummary(llm: Llm, calls0: nat, prompt: string, retry: int)
    returns (intermediate: string, calls: nat)
    ensures Tally(intermediate, calls) == Attempts(llm, calls0, prompt, retry, 0)
  {
    calls := calls0;
    intermediate := "";
    var attempt: nat := 0;
    while attempt <= retry
      invariant intermediate == ""
      invariant Attempts(llm, calls, prompt, retry, attempt) == Attempts(llm, calls0, prompt, retry, 0)
      decreases retry - attempt + 1
    {
      var reply := llm(calls, prompt);
      calls := calls + 1;
      match reply {
        case ReturnsText(t) => intermediate := Strip(t);
        case ReturnsNone => intermediate := "";
        case Raises =>
      }
      if intermediate != "" {
        return;
      }
      attempt := attempt + 1;
    }
  }

  lemma MapFromStep(llm: Llm, calls: nat, batches: seq<seq<StoredChunk>>, i: nat, cfg: Config,
                    it: Intermediate, next: nat)
    requires i < |batches|
    requires Tally(it.summary, next) == BatchSummary(llm, calls, batches[i], cfg) && it.batchIdx == i
    ensures MapFrom(llm, calls, batches, i, cfg).value == [it] + MapFrom(llm, next, batches, i + 1, cfg).value
    ensures MapFrom(llm, calls, batches, i, cfg).calls == MapFrom(llm, next, batches, i + 1, cfg).calls
  {
    var s := BatchSummary(llm, calls, batches[i], cfg);
    assert s.value == it.summary && s.calls == next;
  }

  /** The map step: for each batch, build its context, run the retry loop, and put the
      sentinel in place of an empty result. */
  method MapPhase(llm: Llm, calls0: nat, batches: seq<seq<StoredChunk>>, cfg: Config)
    returns (intermediates: seq<Intermediate>, calls: nat)
    ensures Tally(intermediates, calls) == MapFrom(llm, calls0, batches, 0, cfg)
  {
    intermediates := [];
    calls := calls0;
    for batchIdx := 0 to |batches|
      invariant intermediates + MapFrom(llm, calls, batches, batchIdx, cfg).value
        == MapFrom(llm, calls0, batches, 0, cfg).value
      invariant MapFrom(llm, calls, batches, batchIdx, cfg).calls == MapFrom(llm, calls0, batches, 0, cfg).calls
    {
      ghost var before := calls;
      var intermediate;
      intermediate, calls := SummarizeBatch(llm, calls, batches[batchIdx], cfg);
      var it := Intermediate(batchIdx, intermediate);
      MapFromStep(llm, before, batches, batchIdx, cfg, it, calls);
      ConcatAssoc(intermediates, [it], MapFrom(llm, calls, batches, batchIdx + 1, cfg).value);
      intermediates := intermediates + [it];
    }
    assert MapFrom(llm, calls, batches, |batches|, cfg) == Tally([], calls);
    ConcatEmpty(intermediates);
  }

  /** One turn of the map loop: build the batch's context, run the retry loop, and put the
      sentinel in place of an empty result. */
  method SummarizeBatch(llm: Llm, calls0: nat, batch: seq<StoredChunk>, cfg: Config)
    returns (summary: string, calls: nat)
    ensures Tally(summary, calls) == BatchSummary(llm, calls0, batch, cfg)
  {
    var context := BuildContext(SourcesOf(batch, ChunkSource), cfg.snippetMaxChars);
    var prompt := MapPrompt(cfg.intermediateInstruction, context);
    summary, calls := RetrySummary(llm, calls0, prompt, cfg.llmRetry);
    if summary == "" {
      summary := EmptySummary;
    }
  }

  lemma ConcatEmpty<T>(a: seq<T>)
    ensures a + [] == a
  {
  }

  /** Member `j` of the group takes paragraph `j` of the reply when there is one. */
  method TakeParts(group: seq<string>, parts: seq<string>) returns (compressed: seq<string>)
    ensures compressed == Positional(group, parts)
  {
    compressed := [];
    for j := 0 to |group|
      invariant |compressed| == j
      invariant forall k | 0 <= k < j :: compressed[k] == if k < |parts| then parts[k] else group[k]
    {
      if j < |parts| {
        compressed := compressed + [parts[j]];
      } else {
        compressed := compressed + [group[j]];
      }
    }
  }

  /** One group of `_compress_intermediates`: the call for `texts[offset..hi]` and the
      members it leaves, where `hi` ends the group. */
  method CompressGroup(llm: Llm, calls: nat, texts: seq<string>, size: nat, offset: nat)
    returns (done: seq<string>, hi: nat)
    requires size > 0 && offset < |texts|
    ensures hi == GroupEnd(|texts|, size, offset)
    ensures done == GroupOut(llm, calls, texts, size, offset)
  {
    hi := if offset + size < |texts| then offset + size else |texts|;
    var group := texts[offset..hi];
    var prompt := GroupPrompt(group, offset);
    var reply := llm(calls, prompt);
    var resp: string;
    match reply {
      case ReturnsText(t) => resp := Strip(t);
      case ReturnsNone => resp := "None";
      case Raises => resp := Join(group, Blank2);
    }
    assert resp == CompressedReply(reply, group);
    var parts := NonBlankStripped(Split(resp, Blank2));
    done := TakeParts(group, parts);
  }

  /** `_compress_intermediates`: one call per group of `size` summaries, each member replaced
      by the matching paragraph of the reply when there is one. */
  method CompressIntermediates(llm: Llm, calls0: nat, texts: seq<string>, size: nat)
    returns (compressed: seq<string>, calls: nat)
    requires size > 0
    ensures Tally(compressed, calls) == CompressFrom(llm, calls0, texts, size, 0)
  {
    compressed := [];
    calls := calls0;
    CompressAccFrom(llm, calls0, texts, size, 0, []);
    assert [] + CompressFrom(llm, calls0, texts, size, 0).value == CompressFrom(llm, calls0, texts, size, 0).value;
    if texts == [] {
      return;
    }
    var i := 0;
    while i < |texts|
      invariant 0 <= i <= |texts|
      invariant CompressAcc(llm, calls, texts, size, i, compressed) == CompressAcc(llm, calls0, texts, size, 0, [])
      decreases |texts| - i
    {
      var done, hi := CompressGroup(llm, calls, texts, size, i);
      compressed := compressed + done;
      calls := calls + 1;
      i := hi;
    }
  }

  /** The whole run: sort, batch, map, compress while over budget, final call. */
  method SummarizeCollection(chunks: seq<StoredChunk>, cfg: Config, llm: Llm) returns (r: Result<SummaryOutput>)
    requires cfg.batchSize > 0 && cfg.compressionBatchSize > 0
    ensures r == Summarize(chunks, cfg, llm)
  {
    if chunks == [] {
      return Failure(NoChunks);
    }
    var batches := Batches(OrderedChunks(chunks), cfg.batchSize);
    var intermediates, calls := MapPhase(llm, 0, batches, cfg);
    ghost var mapCalls := calls;
    var texts := Texts(intermediates);
    var combined := Labelled(texts, 0);
    var estimated := EstimateTokens(combined);
    var allowed := AllowedTokens(cfg);
    var compressed := texts;
    var round: nat := 0;
    while estimated > allowed && round < cfg.compressionMaxRounds
      invariant combined == Labelled(compressed, 0) && estimated == EstimateTokens(combined)
      invariant ReduceFrom(llm, calls, compressed, round, cfg) == ReduceFrom(llm, mapCalls, texts, 0, cfg)
      decreases cfg.compressionMaxRounds - round
    {
      round := round + 1;
      compressed, calls := CompressIntermediates(llm, calls, compressed, cfg.compressionBatchSize);
      combined := Labelled(compressed, 0);
      estimated := EstimateTokens(combined);
    }
    ghost var red := ReduceFrom(llm, mapCalls, texts, 0, cfg);
    assert ReduceFrom(llm, calls, compressed, round, cfg) == Tally(Reduced(compressed, round), calls);
    assert red.calls == calls && red.value.texts == compressed;
    var finalPrompt := FinalPrompt(cfg, combined);
    var finalSummary := "";
    match llm(calls, finalPrompt) {
      case ReturnsText(t) => finalSummary := t;
      case ReturnsNone =>
      case Raises =>
    }
    r := Success(SummaryOutput(intermediates, if finalSummary != "" then finalSummary else FinalError));
  }
}
