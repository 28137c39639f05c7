/** `quiz_from_full_summary`: the context a quiz is written from, then the quiz. */
module QuizSource {
  import opened Wrappers
  import opened Chunking
  import opened Summary
  import opened Quiz

  /** The context the quiz is written from: the map-reduce summary when a summariser is
      used (whose failure on an empty collection propagates), the plain context otherwise. */
  function ContextFor(chunks: seq<StoredChunk>, useSummarizer: bool, llm: Llm): (r: Result<string>)
    ensures useSummarizer ==> (r.Failure? <==> chunks == [])
    ensures useSummarizer && r.Success? ==>
      r.value == Summarize(chunks, DefaultConfig, llm).value.finalSummary && r.value != ""
    ensures !useSummarizer ==> r == Success(PlainContext(chunks))
  {
    if useSummarizer then
      match Summarize(chunks, DefaultConfig, llm)
      case Failure(e) => Failure(e)
      case Success(out) => Success(out.finalSummary)
    else Success(PlainContext(chunks))
  }

  /** `quiz_from_full_summary`: ten questions written from the quiz context. */
  function QuizFromFullSummary(chunks: seq<StoredChunk>, useSummarizer: bool, llm: Llm,
                               quizLlm: string -> Reply, parse: Parser): (r: Result<seq<QuizItem>>)
    ensures ContextFor(chunks, useSummarizer, llm).Failure? ==> r.Failure?
    ensures ContextFor(chunks, useSummarizer, llm).Success? ==>
      r == GenerateMcqs(ContextFor(chunks, useSummarizer, llm).value, QuestionCount, quizLlm, parse)
  {
    match ContextFor(chunks, useSummarizer, llm)
    case Failure(e) => Failure(e)
    case Success(ctx) => GenerateMcqs(ctx, QuestionCount, quizLlm, parse)
  }
}
