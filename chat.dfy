/** Question answering over the uploaded documents: paraphrase the question, retrieve the
    top chunks for every paraphrase, keep the first hit per chunk id, answer from at most
    eight of them, and fall back to Wikipedia when the model gives up.

    The vector store, the embedder, the language model and Wikipedia are parameters. */
module Chat {
  import opened Wrappers
  import opened Strings
  import opened Chunking
  import opened SourceContext
  import opened SummaryBatches
  import opened CoreUtils

  /** One retrieval hit; `distance` stands for the store's similarity distance, an abstract
      ordered value. */
  datatype Retrieved = Retrieved(id: string, text: string, metadata: Metadata, distance: int)

  const NoMetadata: Metadata := Metadata(None, None, None)

  // ----- retrieve_top_k -----

  /** What the store's nearest-neighbour query returned: documents, their metadata (possibly
      fewer, possibly None each) and distances. */
  datatype QueryResult = QueryResult(docs: seq<string>, metas: seq<Option<Metadata>>, dists: seq<int>)

  /** The metadata of hit `i`, `{}` when the store gave fewer metadata than documents. */
  function MetaAt(q: QueryResult, i: nat): Option<Metadata>
  {
    if i < |q.metas| then q.metas[i] else Some(NoMetadata)
  }

  /** The metadata's own id if it has one, else the name `chunk_i`. */
  function HitId(meta: Metadata, i: nat): string
  {
    if meta.id.Some? then meta.id.value else ChunkId(i)
  }

  predicate QueryUsable(q: QueryResult)
  {
    |q.dists| >= |q.docs| && forall i | 0 <= i < |q.docs| :: MetaAt(q, i).Some?
  }

  /** The query path: one hit per returned document, in rank order. It fails when a metadata
      entry is None (looking up its id raises) or a distance is missing. */
  method FromQuery(q: QueryResult) returns (r: Result<seq<Retrieved>>)
    ensures r.Success? <==> QueryUsable(q)
    ensures r.Success? ==> |r.value| == |q.docs|
    ensures r.Success? ==> forall i | 0 <= i < |q.docs| ::
      r.value[i] == Retrieved(HitId(MetaAt(q, i).value, i), q.docs[i], MetaAt(q, i).value, q.dists[i])
  {
    var out: seq<Retrieved> := [];
    for i := 0 to |q.docs|
      invariant |out| == i
      invariant i <= |q.dists|
      invariant forall j | 0 <= j < i :: MetaAt(q, j).Some?
      invariant forall j | 0 <= j < i ::
        out[j] == Retrieved(HitId(MetaAt(q, j).value, j), q.docs[j], MetaAt(q, j).value, q.dists[j])
    {
      var meta := if q.metas != [] && i < |q.metas| then q.metas[i] else Some(NoMetadata);
      assert meta == MetaAt(q, i);
      if meta.None? {
        return Failure("'NoneType' object has no attribute 'get'");
      }
      var cid := if meta.value.id.Some? then meta.value.id.value else "chunk_" + NatToString(i);
      if i >= |q.dists| {
        return Failure("list index out of range");
      }
      out := out + [Retrieved(cid, q.docs[i], meta.value, q.dists[i])];
    }
    return Success(out);
  }

  /** `order` is what an argsort of `dists` returns: every position once, nearest first. */
  predicate IsArgsort(order: seq<nat>, dists: seq<int>)
  {
    |order| == |dists|
    && (forall j | 0 <= j < |order| :: order[j] < |dists|)
    && (forall i, j | 0 <= i < j < |order| :: order[i] != order[j])
    && (forall i, j | 0 <= i < j < |order| :: dists[order[i]] <= dists[order[j]])
  }

  /** The hit for stored chunk number `i`, named by its metadata id or `chunk_i`. */
  function StoredHit(c: StoredChunk, i: nat, d: int): Retrieved
    requires c.metadata.Some?
  {
    Retrieved(HitId(c.metadata.value, i), c.text, c.metadata.value, d)
  }

  /** The brute-force path taken when the query raises: rank every stored chunk by its
      distance and keep the first `k` (a Python slice, so a negative `k` drops from the end). */
  method FromStore(chunks: seq<StoredChunk>, dists: seq<int>, order: seq<nat>, k: int)
    returns (r: Result<seq<Retrieved>>)
    requires |dists| == |chunks| && IsArgsort(order, dists)
    ensures var idxs := PyPrefix(order, k);
      r.Success? <==> forall j | 0 <= j < |idxs| :: chunks[idxs[j]].metadata.Some?
    ensures var idxs := PyPrefix(order, k);
      r.Success? ==>
        |r.value| == |idxs|
        && forall j | 0 <= j < |idxs| :: r.value[j] == StoredHit(chunks[idxs[j]], idxs[j], dists[idxs[j]])
  {
    var idxs := PyPrefix(order, k);
    var out: seq<Retrieved> := [];
    for j := 0 to |idxs|
      invariant |out| == j
      invariant forall m | 0 <= m < j ::
        chunks[idxs[m]].metadata.Some? && out[m] == StoredHit(chunks[idxs[m]], idxs[m], dists[idxs[m]])
    {
      var i := idxs[j];
      var meta := chunks[i].metadata;
      if meta.None? {
        return Failure("'NoneType' object has no attribute 'get'");
      }
      var cid := if meta.value.id.Some? then meta.value.id.value else "chunk_" + NatToString(i);
      out := out + [Retrieved(cid, chunks[i].text, meta.value, dists[i])];
    }
    return Success(out);
  }

  /** The brute-force path returns at most `k` hits, nearest first, no chunk twice. */
  lemma FromStoreRanked(chunks: seq<StoredChunk>, dists: seq<int>, order: seq<nat>, k: int, hits: seq<Retrieved>)
    requires |dists| == |chunks| && IsArgsort(order, dists)
    requires var idxs := PyPrefix(order, k);
      |hits| == |idxs| && forall j | 0 <= j < |idxs| ::
        chunks[idxs[j]].metadata.Some? && hits[j] == StoredHit(chunks[idxs[j]], idxs[j], dists[idxs[j]])
    ensures k >= 0 ==> |hits| <= k
    ensures |hits| <= |chunks|
    ensures forall i, j | 0 <= i < j < |hits| :: hits[i].distance <= hits[j].distance
  {
    var idxs := PyPrefix(order, k);
    forall i, j | 0 <= i < j < |hits| ensures hits[i].distance <= hits[j].distance {
      assert idxs[i] == order[i] && idxs[j] == order[j];
    }
  }

  /** `retrieve_top_k`: the store's query when it answers (`Some`), the brute-force ranking
      of every stored chunk when it raises (`None`). */
  method RetrieveTopK(query: Option<QueryResult>, chunks: seq<StoredChunk>, dists: seq<int>, order: seq<nat>, k: int)
    returns (r: Result<seq<Retrieved>>)
    requires |dists| == |chunks| && IsArgsort(order, dists)
    ensures query.Some? ==> (r.Success? <==> QueryUsable(query.value))
    ensures query.Some? && r.Success? ==> var q := query.value;
      |r.value| == |q.docs|
      && forall i | 0 <= i < |q.docs| ::
        r.value[i] == Retrieved(HitId(MetaAt(q, i).value, i), q.docs[i], MetaAt(q, i).value, q.dists[i])
    ensures query.Some? && r.Success? && |query.value.docs| <= k && IdFree(query.value) ==> RankNamed(r.value, k)
    ensures query.None? ==> var idxs := PyPrefix(order, k);
      r.Success? <==> forall j | 0 <= j < |idxs| :: chunks[idxs[j]].metadata.Some?
    ensures query.None? && r.Success? ==> var idxs := PyPrefix(order, k);
      |r.value| == |idxs|
      && forall j | 0 <= j < |idxs| :: r.value[j] == StoredHit(chunks[idxs[j]], idxs[j], dists[idxs[j]])
  {
    match query
    case Some(q) =>
      r := FromQuery(q);
    case None =>
      r := FromStore(chunks, dists, order, k);
  }

  /** No metadata the store returned carries its own id, as with chunks written by the
      ingestion. */
  predicate IdFree(q: QueryResult)
  {
    forall i | 0 <= i < |q.metas| :: q.metas[i].Some? ==> q.metas[i].value.id.None?
  }

  /** At most `k` hits, hit number `i` named `chunk_i`. */
  predicate RankNamed(l: seq<Retrieved>, k: int)
  {
    |l| <= k && forall i | 0 <= i < |l| :: l[i].id == ChunkId(i)
  }

  /** Chunks written by the ingestion carry only their offsets, so on the query path the ids
      are the rank names `chunk_0`, `chunk_1`, ... */
  lemma StoredMetadataGivesRankIds(q: QueryResult, chunks: seq<Chunk>, hits: seq<Retrieved>)
    requires |q.metas| == |q.docs| == |chunks| && |q.dists| >= |q.docs|
    requires forall i | 0 <= i < |q.metas| :: q.metas[i] == Some(StoredMetadata(chunks[i]))
    requires |hits| == |q.docs|
    requires forall i | 0 <= i < |q.docs| ::
      hits[i] == Retrieved(HitId(MetaAt(q, i).value, i), q.docs[i], MetaAt(q, i).value, q.dists[i])
    ensures forall i | 0 <= i < |hits| :: hits[i].id == ChunkId(i)
  {
  }

  // ----- deduplication -----

  function IdSet(xs: seq<Retrieved>): set<string>
  {
    set x | x in xs :: x.id
  }

  predicate DistinctIds(xs: seq<Retrieved>)
  {
    forall i, j | 0 <= i < j < |xs| :: xs[i].id != xs[j].id
  }

  /** The hits in order, each id kept only where it first occurs. */
  function FirstOccurrences(xs: seq<Retrieved>): (r: seq<Retrieved>)
    ensures |r| <= |xs|
  {
    if xs == [] then []
    else
      var init := FirstOccurrences(xs[..|xs| - 1]);
      if xs[|xs| - 1].id in IdSet(init) then init else init + [xs[|xs| - 1]]
  }

  /** Position of the first hit with the given id. */
  function FirstPos(xs: seq<Retrieved>, id: string): (p: nat)
    requires id in IdSet(xs)
    ensures p < |xs| && xs[p].id == id && forall q | 0 <= q < p :: xs[q].id != id
  {
    if xs[0].id == id then 0
    else
      assert id in IdSet(xs[1..]) by {
        var x :| x in xs && x.id == id;
        var i :| 0 <= i < |xs| && xs[i] == x;
        assert xs[1..][i - 1] == x;
      }
      1 + FirstPos(xs[1..], id)
  }

  /** Deduplication keeps every id exactly once. */
  lemma {:induction false} FirstOccurrencesIds(xs: seq<Retrieved>)
    ensures DistinctIds(FirstOccurrences(xs))
    ensures IdSet(FirstOccurrences(xs)) == IdSet(xs)
  {
    if xs != [] {
      var n := |xs| - 1;
      var p := xs[..n];
      var init := FirstOccurrences(p);
      FirstOccurrencesIds(p);
      assert xs == p + [xs[n]];
      assert IdSet(xs) == IdSet(p) + {xs[n].id};
      if xs[n].id !in IdSet(init) {
        var r := init + [xs[n]];
        assert IdSet(r) == IdSet(init) + {xs[n].id};
        forall i | 0 <= i < |init| ensures init[i].id != xs[n].id {
          assert init[i] in init;
        }
      }
    }
  }

  /** Each kept hit is the one at its id's first position. */
  predicate KeptAtFirst(r: seq<Retrieved>, xs: seq<Retrieved>)
  {
    forall j | 0 <= j < |r| :: r[j].id in IdSet(xs) && r[j] == xs[FirstPos(xs, r[j].id)]
  }

  /** The kept hits come in the order their ids first occur. */
  predicate InFirstOrder(r: seq<Retrieved>, xs: seq<Retrieved>)
  {
    forall i, j | 0 <= i < j < |r| ::
      r[i].id in IdSet(xs) && r[j].id in IdSet(xs) && FirstPos(xs, r[i].id) < FirstPos(xs, r[j].id)
  }

  /** Deduplication keeps each hit where its id first occurs, in the order the ids first
      occur. */
  lemma {:induction false} FirstOccurrencesAtFirst(xs: seq<Retrieved>)
    ensures KeptAtFirst(FirstOccurrences(xs), xs)
    ensures InFirstOrder(FirstOccurrences(xs), xs)
  {
    if xs != [] {
      var n := |xs| - 1;
      var p := xs[..n];
      var init := FirstOccurrences(p);
      FirstOccurrencesAtFirst(p);
      FirstOccurrencesIds(p);
      assert xs == p + [xs[n]];
      AtFirstExtend(p, xs[n], init);
      if xs[n].id !in IdSet(init) {
        AtFirstAppend(p, xs[n], init);
      }
    }
  }

  /** Hits kept from a prefix stay where they were when one more hit arrives. */
  lemma AtFirstExtend(p: seq<Retrieved>, x: Retrieved, init: seq<Retrieved>)
    requires KeptAtFirst(init, p) && InFirstOrder(init, p)
    ensures KeptAtFirst(init, p + [x]) && InFirstOrder(init, p + [x])
  {
    forall id | id in IdSet(p) ensures id in IdSet(p + [x]) && FirstPos(p + [x], id) == FirstPos(p, id) {
      FirstPosPrefix(p, x, id);
    }
    forall j | 0 <= j < |init| ensures init[j].id in IdSet(p + [x]) && init[j] == (p + [x])[FirstPos(p + [x], init[j].id)] {
      assert init[j] == p[FirstPos(p, init[j].id)];
    }
  }

  /** A hit with a new id is kept at its own position, after every earlier kept hit. */
  lemma AtFirstAppend(p: seq<Retrieved>, x: Retrieved, init: seq<Retrieved>)
    requires KeptAtFirst(init, p + [x]) && InFirstOrder(init, p + [x])
    requires IdSet(init) == IdSet(p) && x.id !in IdSet(p)
    ensures KeptAtFirst(init + [x], p + [x]) && InFirstOrder(init + [x], p + [x])
  {
    var xs := p + [x];
    var n := |p|;
    forall q | 0 <= q < n ensures xs[q].id != x.id {
      assert xs[q] == p[q] && p[q] in p;
    }
    FirstPosIs(xs, x.id, n);
    var r := init + [x];
    forall i | 0 <= i < |init| ensures FirstPos(xs, init[i].id) < n {
      var id := init[i].id;
      assert init[i] in init;
      assert id in IdSet(p);
      FirstPosPrefix(p, x, id);
    }
    forall j | 0 <= j < |r| ensures r[j].id in IdSet(xs) && r[j] == xs[FirstPos(xs, r[j].id)] {
      if j < |init| {
        assert r[j] == init[j];
      }
    }
    forall i, j | 0 <= i < j < |r|
      ensures r[i].id in IdSet(xs) && r[j].id in IdSet(xs) && FirstPos(xs, r[i].id) < FirstPos(xs, r[j].id)
    {
      assert r[i] == init[i];
      if j < |init| {
        assert r[j] == init[j];
      }
    }
  }

  lemma FirstPosPrefix(p: seq<Retrieved>, x: Retrieved, id: string)
    requires id in IdSet(p)
    ensures id in IdSet(p + [x]) && FirstPos(p + [x], id) == FirstPos(p, id)
  {
    var k := FirstPos(p, id);
    assert (p + [x])[k] == p[k];
    FirstPosIs(p + [x], id, k);
  }

  lemma {:induction false} FirstPosIs(xs: seq<Retrieved>, id: string, k: nat)
    requires k < |xs| && xs[k].id == id && forall q | 0 <= q < k :: xs[q].id != id
    ensures id in IdSet(xs) && FirstPos(xs, id) == k
  {
    assert xs[k] in xs;
    if k > 0 {
      FirstPosIs(xs[1..], id, k - 1);
    }
  }

  /** A sequence with distinct ids has as many ids as elements. */
  lemma {:induction false} DistinctIdCount(xs: seq<Retrieved>)
    requires DistinctIds(xs)
    ensures |IdSet(xs)| == |xs|
  {
    if xs != [] {
      var n := |xs| - 1;
      DistinctIdCount(xs[..n]);
      assert xs == xs[..n] + [xs[n]];
      assert IdSet(xs) == IdSet(xs[..n]) + {xs[n].id};
      assert xs[n].id !in IdSet(xs[..n]) by {
        forall x | x in xs[..n] ensures x.id != xs[n].id {
          var i :| 0 <= i < n && xs[..n][i] == x;
        }
      }
    }
  }

  function RankIds(k: nat): set<string>
  {
    set i | 0 <= i < k :: ChunkId(i)
  }

  lemma {:induction false} RankIdsCount(k: nat)
    ensures |RankIds(k)| <= k
  {
    if k > 0 {
      RankIdsCount(k - 1);
      assert RankIds(k) == RankIds(k - 1) + {ChunkId(k - 1)};
    }
  }

  lemma SubsetCount(a: set<string>, b: set<string>)
    requires a <= b
    ensures |a| <= |b|
  {
    assert b == a + (b - a);
  }

  /** When every retrieval names its hits by rank, as it does over ingested chunks, the
      deduplicated hits number at most `k` however many paraphrases were searched. */
  lemma DedupAtMostK(lists: seq<seq<Retrieved>>, k: nat)
    requires forall l: seq<Retrieved> | l in lists :: RankNamed(l, k)
    ensures |FirstOccurrences(Flatten(lists))| <= k
  {
    var xs := Flatten(lists);
    FlattenIds(lists, k);
    FirstOccurrencesIds(xs);
    DistinctIdCount(FirstOccurrences(xs));
    SubsetCount(IdSet(xs), RankIds(k));
    RankIdsCount(k);
  }

  lemma {:induction false} FlattenIds(lists: seq<seq<Retrieved>>, k: nat)
    requires forall l: seq<Retrieved> | l in lists :: RankNamed(l, k)
    ensures IdSet(Flatten(lists)) <= RankIds(k)
  {
    if lists != [] {
      FlattenIds(lists[1..], k);
      assert lists[0] in lists;
      forall x | x in lists[0] ensures x.id in RankIds(k) {
        var i :| 0 <= i < |lists[0]| && lists[0][i] == x;
      }
      assert IdSet(Flatten(lists)) == IdSet(lists[0]) + IdSet(Flatten(lists[1..]));
    }
  }

  // ----- answer_question_rag -----

  const Disclaimer: string := "I don't know based on the provided document"
  const WikiPrefix: string := "I couldn't find that in your uploaded documents, but here is what I found on Wikipedia:\n\n"
  const NothingFound: string := "I couldn't find that information in your documents or on Wikipedia."
  const AnswerInstruction: string :=
    "Using ONLY the provided context below, answer the user question precisely and concisely. "
    + "If the answer is strictly NOT present in the context, output EXACTLY this phrase: 'I don't know based on the provided document.'"
  const MaxFinal: nat := 8

  function AnswerPrompt(context: string, question: string): string
  {
    AnswerInstruction + "\n\nContext:\n" + context + "\n\nQuestion: " + question + "\n\nAnswer:"
  }

  /** The model gave up: it said the disclaimer, or next to nothing. */
  predicate GaveUp(reply: string)
  {
    Contains(reply, Disclaimer) || |reply| < 5
  }

  /** The answer shown to the user, from the stripped reply and the Wikipedia lookup (None or
      "" when nothing was found). */
  function FinalAnswer(reply: string, wiki: Option<string>): (r: string)
    ensures !GaveUp(reply) ==> r == reply
    ensures GaveUp(reply) && wiki.Some? && wiki.value != "" ==> r == WikiPrefix + wiki.value
    ensures GaveUp(reply) && (wiki.None? || wiki.value == "") ==> r == NothingFound
    ensures |r| >= 5
  {
    if GaveUp(reply) then
      if wiki.Some? && wiki.value != "" then WikiPrefix + wiki.value else NothingFound
    else reply
  }

  /** Retrieval results for each query in turn; the first failure stops the run. */
  function RetrieveAll(queries: seq<string>, k: int, retrieve: (string, int) -> Result<seq<Retrieved>>)
    : (r: Result<seq<seq<Retrieved>>>)
    ensures r.Success? ==> |r.value| == |queries|
  {
    if queries == [] then Success([])
    else match RetrieveAll(queries[..|queries| - 1], k, retrieve)
      case Failure(e) => Failure(e)
      case Success(ls) =>
        match retrieve(queries[|queries| - 1], k)
        case Failure(e) => Failure(e)
        case Success(d) => Success(ls + [d])
  }

  /** The external calls the chat makes, as parameters: the paraphrase reply, retrieval, the
      text-only model call and the Wikipedia lookup. `retrieve` stands for `RetrieveTopK`
      applied to whatever the store and the embedder give for that question. */
  datatype ChatEnv = ChatEnv(
    variations: Reply,
    retrieve: (string, int) -> Result<seq<Retrieved>>,
    answer: string -> string,
    wiki: string -> Option<string>)

  datatype ChatResult = ChatResult(question: string, answer: string, sources: seq<string>, prompt: string)

  function HitSource(h: Retrieved): Source
  {
    Source(h.id, h.text)
  }

  function IdsOf(xs: seq<Retrieved>): (r: seq<string>)
    ensures |r| == |xs|
  {
    seq(|xs|, i requires 0 <= i < |xs| => xs[i].id)
  }

  /** The hits the answer is built from: the first eight distinct ones. */
  function Used(lists: seq<seq<Retrieved>>): seq<Retrieved>
  {
    PyPrefix(FirstOccurrences(Flatten(lists)), MaxFinal)
  }

  /** `answer_question_rag`. */
  function Answer(question: string, k: int, env: ChatEnv): Result<ChatResult>
  {
    match GenerateMultiQueries(question, env.variations)
    case Failure(e) => Failure(e)
    case Success(queries) =>
      match RetrieveAll(queries, k, env.retrieve)
      case Failure(e) => Failure(e)
      case Success(lists) =>
        var used := Used(lists);
        var prompt := AnswerPrompt(Join(Parts(SourcesOf(used, HitSource), DefaultMaxChars), Separator), question);
        Success(ChatResult(question, FinalAnswer(Strip(env.answer(prompt)), env.wiki(question)), IdsOf(used), prompt))
  }

  /** The sources are the ids of the first `min(8, n)` distinct hits, no id twice, each hit
      taken where its id first occurs across the paraphrases' results; the answer is never
      shorter than five characters. */
  lemma AnswerSpec(question: string, k: int, env: ChatEnv)
    requires Answer(question, k, env).Success?
    ensures var qs := GenerateMultiQueries(question, env.variations).value;
      var lists := RetrieveAll(qs, k, env.retrieve).value;
      var firsts := FirstOccurrences(Flatten(lists));
      var r := Answer(question, k, env).value;
      |r.sources| == (if |firsts| < 8 then |firsts| else 8)
      && (forall i | 0 <= i < |r.sources| :: r.sources[i] == firsts[i].id)
      && (forall i, j | 0 <= i < j < |r.sources| :: r.sources[i] != r.sources[j])
      && |r.answer| >= 5
  {
    var qs := GenerateMultiQueries(question, env.variations).value;
    var lists := RetrieveAll(qs, k, env.retrieve).value;
    FirstOccurrencesIds(Flatten(lists));
  }

  // ----- the orchestration, as it runs -----

  lemma FlattenSnoc<T>(ls: seq<seq<T>>, d: seq<T>)
    ensures Flatten(ls + [d]) == Flatten(ls) + d
  {
    if ls == [] {
      assert Flatten([d]) == d + Flatten([]);
    } else {
      assert (ls + [d])[1..] == ls[1..] + [d];
      FlattenSnoc(ls[1..], d);
    }
  }

  lemma FirstOccurrencesSnoc(xs: seq<Retrieved>, x: Retrieved)
    ensures FirstOccurrences(xs + [x])
      == if x.id in IdSet(FirstOccurrences(xs)) then FirstOccurrences(xs) else FirstOccurrences(xs) + [x]
  {
    assert (xs + [x])[..|xs|] == xs;
  }

  /** One step of the inner loop: the next hit is added exactly when its id is new. */
  lemma AddStep(before: seq<Retrieved>, docs: seq<Retrieved>, j: nat, all: seq<Retrieved>)
    requires j < |docs| && all == FirstOccurrences(before + docs[..j])
    ensures FirstOccurrences(before + docs[..j + 1])
      == if docs[j].id in IdSet(all) then all else all + [docs[j]]
  {
    assert before + docs[..j + 1] == (before + docs[..j]) + [docs[j]];
    FirstOccurrencesSnoc(before + docs[..j], docs[j]);
  }

  lemma IdSetSnoc(xs: seq<Retrieved>, x: Retrieved)
    ensures IdSet(xs + [x]) == IdSet(xs) + {x.id}
  {
    assert forall y | y in xs + [x] :: y in xs || y == x;
  }

  lemma WholeSlice<T>(before: seq<T>, docs: seq<T>)
    ensures before + docs[..0] == before && before + docs[..|docs|] == before + docs
  {
    assert docs[..0] == [] && docs[..|docs|] == docs;
  }

  /** Fails with the first failing retrieval, whatever the later queries would do. */
  lemma {:induction false} RetrieveAllFails(queries: seq<string>, i: nat, k: int,
                                            retrieve: (string, int) -> Result<seq<Retrieved>>, e: string)
    requires i <= |queries| && RetrieveAll(queries[..i], k, retrieve) == Failure(e)
    ensures RetrieveAll(queries, k, retrieve) == Failure(e)
    decreases |queries| - i
  {
    if i < |queries| {
      assert queries[..i + 1][..i] == queries[..i];
      RetrieveAllFails(queries, i + 1, k, retrieve, e);
    } else {
      assert queries[..i] == queries;
    }
  }

  /** The outer loop of `answer_question_rag`: retrieve for each paraphrase in turn, stop at
      the first retrieval that raises, and keep the hits whose ids are new. */
  method RetrieveMerged(queries: seq<string>, k: int, retrieve: (string, int) -> Result<seq<Retrieved>>)
    returns (r: Result<seq<Retrieved>>)
    ensures RetrieveAll(queries, k, retrieve).Failure? ==>
      r == Failure(RetrieveAll(queries, k, retrieve).error)
    ensures RetrieveAll(queries, k, retrieve).Success? ==>
      r == Success(FirstOccurrences(Flatten(RetrieveAll(queries, k, retrieve).value)))
  {
    var allRetrieved: seq<Retrieved> := [];
    var seenIds: set<string> := {};
    ghost var lists: seq<seq<Retrieved>> := [];
    for qi := 0 to |queries|
      invariant RetrieveAll(queries[..qi], k, retrieve) == Success(lists)
      invariant allRetrieved == FirstOccurrences(Flatten(lists))
      invariant seenIds == IdSet(allRetrieved)
    {
      var res := retrieve(queries[qi], k);
      assert queries[..qi + 1][..qi] == queries[..qi];
      if res.Failure? {
        RetrieveAllFails(queries, qi + 1, k, retrieve, res.error);
        return Failure(res.error);
      }
      allRetrieved, seenIds := AddUnseen(allRetrieved, seenIds, res.value, Flatten(lists));
      FlattenSnoc(lists, res.value);
      lists := lists + [res.value];
    }
    assert queries[..|queries|] == queries;
    return Success(allRetrieved);
  }

  /** The inner loop over one retrieval's hits: add each hit whose id has not been seen. */
  method AddUnseen(allRetrieved: seq<Retrieved>, seenIds: set<string>, docs: seq<Retrieved>, ghost before: seq<Retrieved>)
    returns (all': seq<Retrieved>, seen': set<string>)
    requires allRetrieved == FirstOccurrences(before) && seenIds == IdSet(allRetrieved)
    ensures all' == FirstOccurrences(before + docs) && seen' == IdSet(all')
  {
    all', seen' := allRetrieved, seenIds;
    WholeSlice(before, docs);
    for j := 0 to |docs|
      invariant all' == FirstOccurrences(before + docs[..j])
      invariant seen' == IdSet(all')
    {
      AddStep(before, docs, j, all');
      if docs[j].id !in seen' {
        IdSetSnoc(all', docs[j]);
        seen' := seen' + {docs[j].id};
        all' := all' + [docs[j]];
      }
    }
  }

  /** Everything after retrieval: cap at eight, build the context, ask, fall back. */
  method Respond(question: string, allRetrieved: seq<Retrieved>, env: ChatEnv) returns (r: ChatResult)
    ensures var used := PyPrefix(allRetrieved, MaxFinal);
      var prompt := AnswerPrompt(Join(Parts(SourcesOf(used, HitSource), DefaultMaxChars), Separator), question);
      r == ChatResult(question, FinalAnswer(Strip(env.answer(prompt)), env.wiki(question)), IdsOf(used), prompt)
  {
    var finalRetrieved := PyPrefix(allRetrieved, MaxFinal);
    var context := BuildContext(SourcesOf(finalRetrieved, HitSource), DefaultMaxChars);
    var prompt := AnswerPrompt(context, question);
    var finalAnswer := Strip(env.answer(prompt));
    if Contains(finalAnswer, Disclaimer) || |finalAnswer| < 5 {
      var wikiResult := env.wiki(question);
      if wikiResult.Some? && wikiResult.value != "" {
        finalAnswer := WikiPrefix + wikiResult.value;
      } else {
        finalAnswer := NothingFound;
      }
    }
    var sources := IdsOf(finalRetrieved);
    r := ChatResult(question, finalAnswer, sources, prompt);
  }

  /** `answer_question_rag`, loop by loop: paraphrase, retrieve and deduplicate with a set of
      seen ids, then answer. */
  method AnswerQuestion(question: string, k: int, env: ChatEnv) returns (r: Result<ChatResult>)
    ensures r == Answer(question, k, env)
  {
    var mq := GenerateMultiQueries(question, env.variations);
    if mq.Failure? {
      return Failure(mq.error);
    }
    var queries := mq.value;
    var merged := RetrieveMerged(queries, k, env.retrieve);
    if merged.Failure? {
      return Failure(merged.error);
    }
    var allRetrieved := merged.value;
    var answer := Respond(question, allRetrieved, env);
    return Success(answer);
  }
}
