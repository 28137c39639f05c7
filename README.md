# Campus assistant: a verified model of the document pipeline

This project models the core logic of the campus assistant, a study tool for uploaded course
documents. The tool can:

- clean and chunk the uploaded text;
- answer questions over the chunks, using several paraphrases of the question, with a
  Wikipedia fallback;
- summarise a whole collection with a map-reduce pipeline that keeps within a token budget;
- write multiple-choice quizzes and run a timed quiz page in the browser.

Every external collaborator is a parameter of the model:

- **Language model.** The summariser sees it as an oracle `llm(n, prompt)`, which gives the
  reply to the `n`-th call. A reply is `Raises`, `ReturnsNone` or `ReturnsText(s)`.
- **Gateway provider.** It is a pair of oracles: the model listing, and how the completion
  endpoint answers attempt `k`.
- **JSON parser.** It is a partial function `string -> Option<Json>`.
- **Vector store and embedder.** They become the query result, or a list of stored records
  with abstract distances and their argsort.
- **Wikipedia lookup.** It is an `Option<string>`.

Modules, one per file:

| file | module | models |
|---|---|---|
| `wrappers.dfy` | `Wrappers` | `Option`, `Result` |
| `strings.dfy` | `Strings` | Python's `strip`, `split`, `join`, `in` on strings, slicing, decimal rendering |
| `core_utils.dfy` | `CoreUtils` | `preprocess_for_llm`, `build_combined_document`, the filename sanitiser, `generate_multi_queries` |
| `chunking.dfy` | `Chunking` | `simple_chunk_text` and the chunk and stored-record shapes |
| `gateway.dfy` | `LlmGateway` | `pick_fallback_model`, `call_llm_summarize`, `call_llm_text_only`, `call_llm_answer` |
| `summary_batches.dfy` | `SummaryBatches` | the stable sort by `start_char` and the batching of the summariser |
| `context.dfy` | `SourceContext` | the `SOURCE_ID:` context shared by chat and summariser |
| `summary.dfy` | `Summary` | `summarize_entire_collection_map_reduce` and `_compress_intermediates` |
| `chat.dfy` | `Chat` | `retrieve_top_k`, `answer_question_rag` |
| `quiz.dfy` | `Quiz` | `generate_mcqs_from_context` and the plain quiz context |
| `quiz_context.dfy` | `QuizSource` | `quiz_from_full_summary` |
| `quiztab.dfy` | `QuizTab` | the quiz page's state and handlers, and `formatTime` |

Code that updates state step by step is written as methods with loops. Each such method is
proved equal to a specification function, and the properties are proved about that function.
These methods are:

- the chunker;
- the model pick and the gateway's retry loop;
- the map loop, the compression loop and the reduce loop;
- retrieval and deduplication;
- item normalisation.

The quiz page is a class whose handlers update its fields in place.

Where the code and the system's documented intent differ, the model follows the code:

- The token estimate is `max(1, int(len / 4))`, which rounds down, not up.
- A paraphrase call that gives no text makes `generate_multi_queries` raise, because
  `None.split` fails. The question does not degrade to its original form alone.
  `CoreUtils.GenerateMultiQueries` returns a `Failure` for it.
- The quiz parser can return an empty list, for the reply `[]`. It does not always return a
  non-empty list.
- When a compression call raises, the group's texts are joined with blank lines and then split
  again. This gives back the group only when every member is stripped, non-blank and free of
  blank lines (`Summary.CompressFallbackKeepsGroup`). A call that returns None gives the
  reply text `"None"`, which replaces the first member.
- The ingestion stores no `id` in the metadata, so retrieval names hits by rank (`chunk_i`).
  On the query path, deduplication therefore keeps at most `k` hits however many paraphrases
  were searched (`Chat.DedupAtMostK`). The brute-force fallback names hits by their index in
  the store, so there each paraphrase can add up to `k` new hits, and only the cap of 8 bounds
  the prompt.
- The summariser's sort falls back to the stored order whenever a record's metadata is None,
  because looking up the key then raises.
- On the quiz page, a raw fallback item left unanswered counts as correct, because
  `undefined === undefined` (`QuizTab.UnansweredScoresRawItems`).
- Loading an empty quiz resets nothing.
- A negative minute setting leaves the timer never counting.

## Model

| member | source | states |
|---|---|---|
| CoreUtils.Preprocess | Backend/app/core_utils.py:254-258 | the cleaned text has no leading or trailing whitespace, no newline and never two whitespace characters in a row, and it keeps exactly the non-whitespace characters of the dehyphenated text, in order |
| CoreUtils.PreprocessKeepsWords | Backend/app/core_utils.py:256-258 | joining lone newlines, collapsing whitespace runs and stripping together drop or change only whitespace |
| CoreUtils.PreprocessJoins | Backend/app/core_utils.py:254-258 | a word split by a hyphen at a line end comes out joined: the cleaned text contains the two word characters side by side at some position, the words before that position are those of the dehyphenated text before the break, and the words after it are those of the dehyphenated text after the break |
| CoreUtils.DehyphenateJoins | Backend/app/core_utils.py:255 | a word character, `-`, newline, word character is joined into the two word characters on any line, and the text before and after is cleaned on its own, unless the text before ends in a break that the first word character would complete |
| CoreUtils.DehyphenateSplit | Backend/app/core_utils.py:255 | cleaning distributes over a cut just before a hyphen break, unless the text before the cut ends in a break the cut would complete |
| CoreUtils.JoinLoneNewlinesPairs | Backend/app/core_utils.py:256 | after single newlines become spaces, every remaining newline is part of a run of two or more whitespace characters |
| CoreUtils.JoinLoneKeepsNonSpace | Backend/app/core_utils.py:256 | turning lone newlines into spaces keeps every non-whitespace character, in order |
| CoreUtils.CollapseSpaces | Backend/app/core_utils.py:257 | no two adjacent whitespace characters remain, the text is empty exactly when the input was, and it starts with whitespace exactly when the input did |
| CoreUtils.CollapseKeepsNonSpace | Backend/app/core_utils.py:257 | collapsing keeps every non-whitespace character, in order |
| CoreUtils.CollapseKeepsSingle | Backend/app/core_utils.py:257 | text with no run of two whitespace characters is left unchanged, so single spaces, tabs and newlines survive |
| CoreUtils.CollapseRunJoins | Backend/app/core_utils.py:257 | a whole run of two or more whitespace characters between non-whitespace becomes exactly one space, with the text on either side collapsed on its own |
| CoreUtils.CollapseAround | Backend/app/core_utils.py:257 | no whitespace run crosses two adjacent non-whitespace characters, so the text on each side of them collapses on its own |
| CoreUtils.CollapseRemovesNewlines | Backend/app/core_utils.py:256-257 | once every newline sits in a whitespace run, collapsing leaves no newline at all |
| CoreUtils.BuildCombinedDocument | Backend/app/core_utils.py:260-266 | one cleaned entry per page, in order, with the same page number and the cleaned text of that page |
| CoreUtils.CombinedDocumentSplitsBack | Backend/app/core_utils.py:265 | splitting the combined text at blank lines gives back exactly one `--- PAGE n ---` section per page, in order, when page texts are non-empty and page numbers hold no newline |
| CoreUtils.SanitizeFilename | Backend/app/core_utils.py:319 | only letters, digits, space, `.`, `_` and `-` remain, and the result is no longer than the name |
| CoreUtils.SanitizeConcat | Backend/app/core_utils.py:319 | sanitising is a filter: it distributes over concatenation, so kept characters stay in their original order |
| CoreUtils.SanitizeKeepsPermitted | Backend/app/core_utils.py:319 | a name made only of permitted characters is left unchanged |
| CoreUtils.SanitizeOneChar | Backend/app/core_utils.py:319 | a single character is kept exactly when it is permitted |
| CoreUtils.SanitizeIdempotent | Backend/app/core_utils.py:319 | sanitising twice is sanitising once |
| CoreUtils.LoadAfterSaveSameFile | Backend/app/core_utils.py:319-334 | save and load apply the same sanitiser, so the file a load opens for a name is the one a save of that name wrote, for summaries and quizzes alike |
| CoreUtils.MultiQueries | Backend/app/core_utils.py:171-174 | the question comes first and unchanged, and every other element is a stripped, non-empty line of the reply |
| CoreUtils.MultiQueriesOfLines | Backend/app/core_utils.py:171-174 | for any reply made of lines, the result is the question followed by the reply's non-blank lines, stripped, in order |
| CoreUtils.MultiQueriesRoundTrip | Backend/app/core_utils.py:171-174 | a reply made of stripped non-empty lines gives back the question followed by exactly those lines, in order |
| CoreUtils.MultiQueriesOfBlankReply | Backend/app/core_utils.py:171-174 | a blank reply gives only the question |
| CoreUtils.GenerateMultiQueries | Backend/app/core_utils.py:152-174 | the paraphrase step succeeds exactly when the model returned text, and then starts with the original question |
| Chunking.SimpleChunkText | Backend/app/core_utils.py:268-282 | the chunking loop returns the chunks of the window specification |
| Chunking.ChunksShape | Backend/app/core_utils.py:273-278 | the ids are `chunk_0, chunk_1, ...` without gaps, start offsets strictly increase, and every chunk is a non-empty stripped window `lo < hi <= len(text)` no wider than `chunk_size` |
| Chunking.WellFormedIsStrip | Backend/app/core_utils.py:275-276 | a chunk's text is `text[start:end].strip()` of its own window, and that window is not blank |
| Chunking.ChunksOfEmpty | Backend/app/core_utils.py:273 | the empty text has no chunks |
| Chunking.ChunksCover | Backend/app/core_utils.py:273-281 | every non-whitespace character of the text lies inside some chunk's window, when `0 <= overlap < chunk_size` |
| Chunking.WindowsValid | Backend/app/core_utils.py:273-281 | the windows are inside the text, non-empty and at most `chunk_size` wide, and there is a window exactly when the start is before the end of the text |
| Chunking.WindowsIncreasing | Backend/app/core_utils.py:279-281 | the next window starts at `end - overlap`, clamped at 0, which is past the previous start, so the loop terminates when `overlap < chunk_size` |
| Chunking.WindowsCover | Backend/app/core_utils.py:273-281 | every position from the start on lies in some window when the overlap is not negative |
| Chunking.ChunkIdInjective | Backend/app/core_utils.py:277 | different counters give different chunk ids |
| Chunking.ChunksOfIds | Backend/app/core_utils.py:276-278 | the counter advances only on kept chunks, so the ids are consecutive |
| Chunking.ChunksOfSource | Backend/app/core_utils.py:275-277 | every chunk comes from one window, with that window's stripped text, in window order |
| Chunking.ChunksOfIncreasing | Backend/app/core_utils.py:277-279 | kept chunks start at strictly increasing offsets |
| Chunking.ChunksOfKeeps | Backend/app/core_utils.py:276-277 | every window whose stripped text is non-empty gives a chunk with that window's offsets |
| LlmGateway.PickFallbackModel | Backend/app/core_utils.py:32-47 | the nested family scan returns the pick of the model-selection rule |
| LlmGateway.ScanFamily | Backend/app/core_utils.py:42-44 | the inner scan finds the first name containing the family, or none |
| LlmGateway.OrNone | Backend/app/core_utils.py:37 | `preferred or None`: an empty name counts as no name |
| LlmGateway.FirstContaining | Backend/app/core_utils.py:42-44 | the index found holds the family and no earlier name does, and no index means no name holds it |
| LlmGateway.FamilyMatchFinds | Backend/app/core_utils.py:40-44 | the family scan finds a name exactly when some name contains some family |
| LlmGateway.FamilyMatchEarliest | Backend/app/core_utils.py:40-44 | the name found contains the earliest family any name contains, and is the first name that contains it |
| LlmGateway.PickFallbackSpec | Backend/app/core_utils.py:32-47 | with no listing or no names the result is `preferred or None`; a listed preferred name is returned; otherwise the first name with the earliest family, else the first name; with names the result is always one of them |
| LlmGateway.CallLlmSummarize | Backend/app/core_utils.py:115-136 | the retry loop returns the result of the retry policy |
| LlmGateway.RunFromExplained | Backend/app/core_utils.py:118-136 | from any attempt reached by retryable failures, the rest of the loop keeps the retry policy |
| LlmGateway.SummarizeExplained | Backend/app/core_utils.py:115-136 | at most `retry + 1` attempts; every attempt but the last failed retryably; `ok` exactly when the last attempt completed, and then its text is returned; stopping early means a non-retryable error |
| LlmGateway.TextOnly | Backend/app/core_utils.py:138-142 | the text is non-empty exactly when the call succeeded with non-empty text, and is then that text |
| LlmGateway.AnswerReply | Backend/app/core_utils.py:144-148 | a call without text hands None to its caller, and any text handed on is the call's own |
| LlmGateway.TextOnlyOfSummarize | Backend/app/core_utils.py:115-148 | text from `call_llm_text_only` is the reply of the attempt that completed, and a failed run gives `call_llm_answer` None |
| SummaryBatches.StableSortSpec | Backend/app/summary_engine.py:86 | the sorted records are in non-decreasing `start_char` order and are a permutation of the input, and records with equal keys keep their input order |
| SummaryBatches.InsertSorted | Backend/app/summary_engine.py:86 | inserting a record in front of the first larger-or-equal key keeps the list sorted |
| SummaryBatches.InsertWithKey | Backend/app/summary_engine.py:86 | insertion puts the new record before every record with the same key |
| SummaryBatches.BatchCount | Backend/app/summary_engine.py:90 | there are `ceil(n / batch_size)` batches |
| SummaryBatches.BatchesAreSlices | Backend/app/summary_engine.py:90 | batch `i` is the slice `cs[i*size : min((i+1)*size, n)]` |
| SummaryBatches.FlattenBatches | Backend/app/summary_engine.py:90 | concatenating the batches gives back the sorted list |
| SummaryBatches.BatchSizes | Backend/app/summary_engine.py:90 | every batch has between 1 and `batch_size` records, and all but the last are full |
| SourceContext.Snippet | Backend/app/chat_engine.py:49 | the text when it fits, otherwise its first `max_chars` characters followed by `...` |
| SourceContext.BuildContext | Backend/app/chat_engine.py:46-51 | the loop builds one `SOURCE_ID:` part per source, in order, joined by the rule separator |
| SourceContext.ContextSplitsBack | Backend/app/chat_engine.py:46-51 | splitting the context at the separator gives back one part per source, in order, each starting with that source's `SOURCE_ID:` line, when no part contains the separator |
| Summary.EstimateTokens | Backend/app/summary_engine.py:52-54 | 0 exactly for empty text, 1 for 1 to 3 characters, and otherwise the length divided by 4 rounded down |
| Summary.AllowedTokens | Backend/app/summary_engine.py:122 | the budget is `model_token_limit - final_max_tokens - 128`, or 0 when that is negative |
| Summary.Attempts | Backend/app/summary_engine.py:104-115 | a batch's retry loop yields stripped text or nothing, after at most `llm_retry + 1` calls |
| Summary.BatchSummary | Backend/app/summary_engine.py:104-116 | a batch summary is never empty: `[EMPTY SUMMARY]` replaces a missing one |
| Summary.AttemptsAccepted | Backend/app/summary_engine.py:106-110 | a non-empty batch summary is the stripped reply of the last call made, and every earlier call raised or gave blank text |
| Summary.AttemptsExhausted | Backend/app/summary_engine.py:106-115 | an empty result means every one of the `llm_retry + 1` calls raised or gave blank text |
| Summary.RetrySummary | Backend/app/summary_engine.py:104-115 | the attempt loop computes the batch's retry result and the number of calls it made |
| Summary.MapFromSpec | Backend/app/summary_engine.py:93-117 | one intermediate per batch, `batch_idx` equal to its position and a non-empty summary; at most `llm_retry + 1` calls per batch |
| Summary.MapPhase | Backend/app/summary_engine.py:93-117 | the map loop produces the intermediates of the map specification |
| Summary.Positional | Backend/app/summary_engine.py:75-77 | member `j` becomes reply part `j` when there is one, and stays itself otherwise; the length is the group's |
| Summary.ReplyParts | Backend/app/summary_engine.py:74 | the reply parts are stripped and non-empty |
| Summary.CompressFromSpec | Backend/app/summary_engine.py:56-79 | a compression round returns a list of the same length in which every member is either its original text or a non-empty stripped reply part |
| Summary.CompressCalls | Backend/app/summary_engine.py:59-69 | a compression round makes one call per group of `compression_batch_size` |
| Summary.CompressFallbackKeepsGroup | Backend/app/summary_engine.py:71-77 | a group whose call raised comes back unchanged when its members are stripped, non-blank and free of blank lines |
| Summary.TakeParts | Backend/app/summary_engine.py:75-77 | the positional loop computes `Positional` |
| Summary.CompressGroup | Backend/app/summary_engine.py:60-77 | one group's call and positional mapping, with the group's end |
| Summary.CompressIntermediates | Backend/app/summary_engine.py:56-79 | the round's loop over groups computes the specified round and the calls it made |
| Summary.ReduceFromSpec | Backend/app/summary_engine.py:126-133 | at most `compression_max_rounds` rounds; the loop ends within budget or at the round cap, so the budget is not guaranteed; texts already within budget are left alone |
| Summary.FinalSummary | Backend/app/summary_engine.py:140-146 | the final summary is the reply when it is non-empty text, and `Error generating summary.` when the call raised or gave nothing |
| Summary.Summarize | Backend/app/summary_engine.py:81-146 | an empty collection fails with `No chunks found in collection.` before any call; otherwise the final summary is never empty |
| Summary.SummarizeShape | Backend/app/summary_engine.py:90-117 | there are `ceil(n / batch_size)` intermediates, numbered by position, none empty |
| Summary.SummarizeCollection | Backend/app/summary_engine.py:6-146 | the whole method returns what the map-reduce specification returns |
| Chat.RetrieveTopK | Backend/app/chat_engine.py:4-44 | the query path when the store answers, the brute-force path when its query raises, with each path's hits and failure condition; over id-free metadata a query of at most `k` documents names hit `i` `chunk_i` and keeps at most `k`, which is what the deduplication bound needs |
| Chat.FromQuery | Backend/app/chat_engine.py:31-44 | one hit per returned document in rank order, named by its metadata id or `chunk_i`; it fails exactly when a metadata entry is None or a distance is missing |
| Chat.FromStore | Backend/app/chat_engine.py:15-29 | the brute-force path gives the hits of the first `k` argsort positions, and fails exactly when one of them has no metadata |
| Chat.FromStoreRanked | Backend/app/chat_engine.py:19-29 | the brute-force path returns at most `k` hits in non-decreasing distance |
| Chat.StoredMetadataGivesRankIds | Backend/app/core_utils.py:287 | metadata written by the ingestion has no id, so query hit `i` is named `chunk_i` |
| Chat.FirstOccurrencesIds | Backend/app/chat_engine.py:64-72 | deduplication leaves no id twice and loses no id |
| Chat.FirstOccurrencesAtFirst | Backend/app/chat_engine.py:64-72 | each kept hit is the one at its id's first position, and the kept hits come in the order their ids first occur |
| Chat.DistinctIdCount | Backend/app/chat_engine.py:70-72 | a list without repeated ids has as many ids as elements |
| Chat.DedupAtMostK | Backend/app/chat_engine.py:64-72 | when retrieval names hits by rank, the deduplicated list has at most `k` hits |
| Chat.FinalAnswer | Backend/app/chat_engine.py:94-101 | the reply is kept unless it contains the disclaimer or is under 5 characters; then a Wikipedia hit is shown behind the fixed notice, or the combined-failure message; the answer always has at least 5 characters |
| Chat.AddUnseen | Backend/app/chat_engine.py:69-72 | the inner loop adds exactly the hits whose ids are new, keeping `seen_ids` equal to the ids kept |
| Chat.RetrieveMerged | Backend/app/chat_engine.py:64-72 | the outer loop fails with the first retrieval that raises, and otherwise yields the first occurrences of all hits in query then rank order |
| Chat.Respond | Backend/app/chat_engine.py:74-105 | the prompt holds the first 8 kept hits; the answer comes from the stripped reply and the fallback; the sources are those hits' ids |
| Chat.AnswerSpec | Backend/app/chat_engine.py:64-105 | the sources are the ids of the first `min(8, n)` deduplicated hits, in order and without repeats, and the answer has at least 5 characters |
| Chat.AnswerQuestion | Backend/app/chat_engine.py:53-105 | the method returns what the answer specification returns |
| Quiz.Find | Backend/app/quiz_engine.py:28 | the first index of the character, or -1 exactly when it is absent |
| Quiz.RFind | Backend/app/quiz_engine.py:33 | the last index of the character, or -1 exactly when it is absent |
| Quiz.BracketSpanSpec | Backend/app/quiz_engine.py:28-30 | the greedy dot-all match of `\[.*\]` exists exactly when some `[` precedes some `]`, and then runs from the first `[` to the last `]` |
| Quiz.JsonText | Backend/app/quiz_engine.py:28-37 | the parsed text is the bracket span; else the reply cut after its last `}` with `]` appended; else the reply itself |
| Quiz.Items | Backend/app/quiz_engine.py:42 | iteration succeeds on a list with its items, and on an empty dict or empty string with nothing; anything else fails |
| Quiz.TextField | Backend/app/quiz_engine.py:44-47 | a text field is `""` when absent, the field's own string stripped when it is a string, and a failure otherwise |
| Quiz.ItemRecordSpec | Backend/app/quiz_engine.py:43-48 | an item gives a record exactly when it is a dict whose text fields are strings or absent; question, correct option and explanation are the item's own strings stripped, or `""` when absent; the options are the item's own value, or `{}` when absent |
| Quiz.NormalizedSucceeds | Backend/app/quiz_engine.py:41-49 | normalisation succeeds exactly when every item has the record shape |
| Quiz.NormalizedRecords | Backend/app/quiz_engine.py:41-49 | on success there is one record per item, in order |
| Quiz.NormalizeItems | Backend/app/quiz_engine.py:41-49 | the append loop computes the normalisation, and stops at the first item that fails |
| Quiz.McqsFromReply | Backend/app/quiz_engine.py:27-53 | no reply, or a failure to parse or normalise, gives exactly the single raw item; otherwise one question per record |
| Quiz.McqsOfArray | Backend/app/quiz_engine.py:39-49 | a reply that parses to an array of well-shaped items gives one question per item, in order |
| Quiz.McqsFallback | Backend/app/quiz_engine.py:51-53 | the raw fallback is returned exactly when the reply does not parse to an iterable whose every item has the record shape |
| Quiz.GenerateMcqs | Backend/app/quiz_engine.py:5-53 | the quiz generator fails only when the model call itself raises |
| Quiz.GenerateMcqsFromContext | Backend/app/quiz_engine.py:5-53 | the method returns what the quiz specification returns |
| Quiz.Pieces | Backend/app/quiz_engine.py:62 | each piece is the prefix of its chunk's text of length `min(1500, len(text))` |
| Quiz.PlainContext | Backend/app/quiz_engine.py:62 | the plain context is the prefix of the newline-joined pieces of length `min(6000, len(joined))` |
| Quiz.PlainContextSplitsBack | Backend/app/quiz_engine.py:62 | when nothing is cut and no text holds a newline, the context splits back into exactly the pieces |
| QuizSource.ContextFor | Backend/app/quiz_engine.py:56-64 | with a summariser the context is its final summary, which is non-empty, and an empty collection fails; without one it is the plain context |
| QuizSource.QuizFromFullSummary | Backend/app/quiz_engine.py:55-71 | a context failure propagates; otherwise the quiz is the ten-question quiz written from that context |
| QuizTab.CountCorrectIsMatches | Frontend/Cumpus_assistant/src/components/QuizTab.jsx:62-67 | the score is the number of questions whose answer equals their correct option, so it lies between 0 and the quiz length |
| QuizTab.AllCorrectScoresFull | Frontend/Cumpus_assistant/src/components/QuizTab.jsx:62-67 | answering every question correctly scores the quiz length |
| QuizTab.UnansweredScoresRawItems | Frontend/Cumpus_assistant/src/components/QuizTab.jsx:64 | with no answers exactly the raw fallback items score, so a single raw item scores 1 |
| QuizTab.JsRem60 | Frontend/Cumpus_assistant/src/components/QuizTab.jsx:76 | JavaScript's `% 60` lies strictly between -60 and 60 and agrees with the mathematical remainder for non-negative seconds |
| QuizTab.FormatTimeReadsBack | Frontend/Cumpus_assistant/src/components/QuizTab.jsx:74-78 | for non-negative seconds the display is digits, a colon and two digits, and minutes times 60 plus seconds read back gives the input |
| QuizTab.QuizSession.constructor | Frontend/Cumpus_assistant/src/components/QuizTab.jsx:6-14 | no answers, not submitted, score 0, not started, timer off at 0, five minutes |
| QuizTab.QuizSession.QuizLoaded | Frontend/Cumpus_assistant/src/components/QuizTab.jsx:19-27 | a non-empty new quiz clears the answers, submission, score, started flag and timer; an empty one resets nothing; the remaining time is kept |
| QuizTab.QuizSession.SetCustomMinutes | Frontend/Cumpus_assistant/src/components/QuizTab.jsx:140 | the minutes become the parsed number, or 1 when it is not a number or is zero; nothing else changes |
| QuizTab.QuizSession.StartQuiz | Frontend/Cumpus_assistant/src/components/QuizTab.jsx:45-49 | the time left becomes minutes times 60, never zero, and the quiz is started with the timer running |
| QuizTab.QuizSession.SelectOption | Frontend/Cumpus_assistant/src/components/QuizTab.jsx:51-57 | after submission nothing changes; before it only that question's answer is set, and every other answer stays |
| QuizTab.QuizSession.Submit | Frontend/Cumpus_assistant/src/components/QuizTab.jsx:59-72 | the first submit sets the score to the number of matching answers, marks the quiz submitted and stops the timer; a second submit changes nothing |
| QuizTab.QuizSession.Tick | Frontend/Cumpus_assistant/src/components/QuizTab.jsx:30-41 | a running timer with time left loses one second; reaching zero submits an unsubmitted quiz, and leaves a submitted one's score and running timer as they were; otherwise nothing changes |
| Strings.JoinSplit | Backend/app/summary_engine.py:73-74 | splitting a text at a separator and joining it again gives back the text |
| Strings.SplitJoin | Backend/app/summary_engine.py:73-74 | joining pieces that do not contain the separator and splitting again gives back the pieces |
| Strings.StripKeepsNonSpace | Backend/app/core_utils.py:258 | stripping removes only whitespace: the non-whitespace characters stay, in order |
| Strings.StripIdempotent | Backend/app/quiz_engine.py:44-47 | stripping twice is stripping once |
| Strings.StripEmptyIffBlank | Backend/app/summary_engine.py:109-110 | stripping gives the empty string exactly for blank text |
| Strings.NatToStringRoundTrip | Frontend/Cumpus_assistant/src/components/QuizTab.jsx:77 | the decimal rendering of a number reads back as that number |
| Strings.PyPrefix | Backend/app/chat_engine.py:74 | a Python slice `s[:n]` is a prefix of `s` of length `min(n, len(s))`, or `max(0, len(s) + n)` for negative `n` |

## Left out

- File-format extraction (PDF, Word, PowerPoint) is not modelled; these are thin library wrappers. Page texts enter `BuildCombinedDocument` as strings.
- ChromaDB, the sentence embedder and NumPy are not modelled. The store is a list of records or a query result. Distances are abstract integers. The argsort of the brute-force path is a parameter `order` that must be an argsort of the distances.
- `get_all_chunks_from_collection` is not modelled: the stored records are a parameter of the summariser and of the quiz context.
- `_extract_text_from_response`, `_extract_model_names`, the client set-up and `config.py` are not modelled. The listing and the reply texts are oracles.
- The Wikipedia lookup is a network call, so it is an `Option<string>` parameter.
- `time.sleep` back-off is not modelled, because it is wall-clock time; only attempts are counted.
- Disk persistence (`open`, `glob`, `json.dump`) is not modelled. Only the sanitiser and the file path it selects are.
- HTTP routing (`main.py`), `rag_engine.py`, React rendering, axios calls and `setInterval` scheduling are not modelled. `QuizTab.QuizSession.Tick` stands for one firing of the interval.
- `max_tokens`, `temperature` and `stop` only shape the model's reply, which is an oracle here, so they are left out.
- The `NameError` fallbacks in `answer_question_rag` and `quiz_from_full_summary` are left out. They are unreachable once the imports resolve.
- Summary.Summarize: requires `batch_size > 0` and `compression_batch_size > 0`. For these values `range` raises on a zero step and gives no batches on a negative one; that behaviour is not modelled.
- Chunking.SimpleChunkText: requires `0 < chunk_size` and `overlap < chunk_size`, the range that holds the default 1000/200. Outside that range the source behaves as follows, and none of it is modelled:
  - The empty text still gives no chunks.
  - With `overlap >= chunk_size > 0`, a text no longer than `chunk_size` gives its single window and stops. A longer text loops forever, because `start` clamps back to 0 and the first window is read again and again.
  - With `chunk_size <= 0`, the window end can be negative. Python's slicing then reads it from the end of the text. On a non-empty text the loop ends only when `overlap < chunk_size`.
- Strings.ToLower: lowers ASCII letters only, whereas Python's `lower` is Unicode-wide. It is used only for the error keywords, which are ASCII.
- A character class such as `\w` and Python's `isalpha`/`isdigit` are modelled as ASCII. Python's whitespace is modelled as the set `str.isspace` accepts.
- QuizSource.QuizFromFullSummary: the quiz call is a separate oracle `quizLlm` instead of the next call of the summariser's oracle. The model does not relate the two call sequences.
- Quiz.Items: iterating a non-empty dict or string always fails in the source, because `get` is missing on its keys or characters. The model returns that failure directly, without modelling key order.
- JSON numbers are kept as their literal text, because no arithmetic is done on them.
- SummaryBatches.StartKey: a `start_char` that is present but not a number (which would make the sort's comparison raise) is not modelled. Metadata is either missing, in which case the source falls back to the stored order, or has an integer or absent key.
- Python's `str(resp)` fallback for non-string replies is not modelled: a reply is text, None or an exception.
