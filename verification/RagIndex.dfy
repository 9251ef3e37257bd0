/**
  The stored retrieval index of a transcript and when it may be reused. After any history of
  transcripts, settings and provider failures an index, reused or not, agrees with a fresh one on
  chunks and embeddings, unless it is a Gemini index and another Gemini endpoint was in use
  before: then it can carry embeddings of that one. The speakers recorded may be out of date.
 */
module RagIndex {
  import opened EmbeddingCache
  import opened EmbeddingRows
  import opened LineChunking
  import opened Options
  import opened Text
  import opened TranscriptLines

  /** The stored payload. The hash of the transcript is taken to be injective. */
  datatype Index = Index(transcript: string, chunking: Chunking, vector: Config, chunks: seq<Chunk>,
                         embeddings: seq<Vector>, speakers: seq<string>)

  function Or(a: string, b: string): string {
    if a != "" then a else b
  }

  /** The configuration stored with an index still fits the one now in force. */
  predicate Compatible(stored: Config, now: Config) {
    && stored.enabled == now.enabled
    && (stored.enabled ==>
          && stored.provider == now.provider
          && stored.model == now.model
          && if stored.provider == Hashing
             then stored.dim == now.dim && stored.charNgrams == now.charNgrams
             else TrimSlash(Or(stored.apiBase, stored.openaiApiBase)) == TrimSlash(Or(now.apiBase, now.openaiApiBase)))
  }

  function ClampDim(dim: int): int {
    var d := if dim == 0 then 96 else dim;
    if d < 16 then 16 else if d > 1024 then 1024 else d
  }

  /** The local configuration an index falls back to when the remote provider fails. */
  function HashingFallback(cfg: Config, hashModel: (int, bool) -> string): Config {
    Config(cfg.enabled, Hashing, hashModel(ClampDim(cfg.dim), cfg.charNgrams), ClampDim(cfg.dim), cfg.charNgrams, "", "")
  }

  ghost function ChunkEmbeddings(chunks: seq<Chunk>, cfg: Config, embed: Embedder): seq<Vector> {
    if cfg.enabled then seq(|chunks|, i requires 0 <= i < |chunks| => embed(RequestOf(chunks[i].text, cfg))) else []
  }

  /** The chunks are those of the transcript under the chunking. */
  ghost predicate AreChunks(chunks: seq<Chunk>, transcript: string, chunking: Chunking) {
    var lines := LineTexts(transcript);
    IsLayout(chunks, lines, chunking) && forall k :: 0 <= k < |chunks| ==> HasText(chunks[k], lines)
  }

  /** The index holds what a build from its own transcript, chunking and configuration gives. */
  ghost predicate Built(index: Index, embed: Embedder) {
    && AreChunks(index.chunks, index.transcript, index.chunking)
    && index.embeddings == ChunkEmbeddings(index.chunks, index.vector, embed)
  }

  /** Compatible configurations ask for the same embeddings. */
  lemma CompatibleRequests(stored: Config, now: Config, chunks: seq<Chunk>, embed: Embedder)
    requires Compatible(stored, now) && FromSettings(stored) && FromSettings(now)
    ensures ChunkEmbeddings(chunks, stored, embed) == ChunkEmbeddings(chunks, now, embed)
  {
    hide TrimSlash;
    if stored.enabled {
      forall i | 0 <= i < |chunks|
        ensures RequestOf(chunks[i].text, stored) == RequestOf(chunks[i].text, now)
      {
      }
    }
  }

  /**
    A configuration fits a stored one exactly when both embed or neither does, and if they do, every text is asked
    for in the same way; for hashing the name of the model must agree too.
   */
  lemma CompatibleIff(stored: Config, now: Config)
    requires FromSettings(stored) && FromSettings(now)
    ensures Compatible(stored, now) <==>
      && stored.enabled == now.enabled
      && (stored.enabled ==>
            && (forall text :: RequestOf(text, stored) == RequestOf(text, now))
            && (stored.provider == Hashing ==> stored.model == now.model))
  {
    hide TrimSlash;
    if stored.enabled && forall text :: RequestOf(text, stored) == RequestOf(text, now) {
      assert RequestOf("", stored) == RequestOf("", now);
    }
  }

  /** Any two indexes of one transcript under one chunking and compatible configurations agree. */
  lemma IndexesAgree(stored: Index, rebuilt: Index, embed: Embedder)
    requires Built(stored, embed) && Built(rebuilt, embed)
    requires stored.transcript == rebuilt.transcript && stored.chunking == rebuilt.chunking
    requires Compatible(stored.vector, rebuilt.vector)
    requires FromSettings(stored.vector) && FromSettings(rebuilt.vector)
    ensures stored.chunks == rebuilt.chunks && stored.embeddings == rebuilt.embeddings
  {
    hide Compatible, FromSettings, LineTexts, IsLayout, HasText, ChunkEmbeddings;
    LayoutIsUnique(stored.chunks, rebuilt.chunks, LineTexts(stored.transcript), stored.chunking);
    CompatibleRequests(stored.vector, rebuilt.vector, stored.chunks, embed);
  }

  /** An index that fell back to hashing is not compatible with any remote configuration. */
  lemma FallbackNotReused(cfg: Config, now: Config, hashModel: (int, bool) -> string)
    requires now.enabled && now.provider != Hashing
    ensures !Compatible(HashingFallback(cfg, hashModel), now)
  {
  }

  /** The texts that are embedded. */
  function TextsOf(chunks: seq<Chunk>): seq<string> {
    seq(|chunks|, i requires 0 <= i < |chunks| => chunks[i].text)
  }

  /** The settings of the caches and what the disk refuses. */
  datatype Caching = Caching(batchSize: nat, diskEnabled: bool, unwritten: set<Key>)

  function CallFor(chunks: seq<Chunk>, cfg: Config, caching: Caching): Call {
    Call(TextsOf(chunks), cfg, caching.batchSize, caching.diskEnabled, caching.unwritten)
  }

  /** The provider answers for every chunk that is in neither cache. */
  ghost predicate Answering(chunks: seq<Chunk>, cfg: Config, caching: Caching, contents: Contents,
                            provider: seq<Request> -> Option<seq<Row>>)
    requires caching.batchSize >= 1
  {
    chunks == [] || AllAnswered(ToFetch(CallFor(chunks, cfg, caching), contents.vectors, contents.disk),
                                PerRequest(cfg, caching.batchSize), cfg, provider)
  }

  datatype Outcome = Plain | Embedded | FellBack | Raised

  /** How a build goes: without vectors, as asked, with hashing in place of OpenAI, or not at all. */
  ghost function OutcomeOf(chunks: seq<Chunk>, cfg: Config, caching: Caching, contents: Contents,
                           provider: seq<Request> -> Option<seq<Row>>): Outcome
    requires caching.batchSize >= 1
  {
    if !cfg.enabled then Plain
    else if Answering(chunks, cfg, caching, contents, provider) then Embedded
    else if cfg.provider == OpenAi then FellBack
    else Raised
  }

  /** Hashing asks nobody and cannot fail. */
  lemma HashingAnswers(chunks: seq<Chunk>, cfg: Config, caching: Caching, contents: Contents,
                       provider: seq<Request> -> Option<seq<Row>>)
    requires caching.batchSize >= 1 && cfg.provider == Hashing
    ensures Answering(chunks, cfg, caching, contents, provider)
  {
  }

  /** What may be reused has the chunks of the transcript, and the embeddings the configuration asks for. */
  lemma ReusedAgrees(index: Index, transcript: string, chunking: Chunking, cfg: Config, chunks: seq<Chunk>, embed: Embedder)
    requires index.transcript == transcript && index.chunking == chunking && AreChunks(chunks, transcript, chunking)
    requires Compatible(index.vector, cfg)
    ensures Built(index, embed) && FromSettings(index.vector) && FromSettings(cfg) ==>
              index.chunks == chunks && index.embeddings == ChunkEmbeddings(chunks, cfg, embed)
  {
    if Built(index, embed) && FromSettings(index.vector) && FromSettings(cfg) {
      var rebuilt := Index(transcript, chunking, cfg, chunks, ChunkEmbeddings(chunks, cfg, embed), []);
      IndexesAgree(index, rebuilt, embed);
    }
  }

  /** What an embedding of the chunks through the caches gives. */
  ghost function CachedEmbeddings(chunks: seq<Chunk>, cfg: Config, caching: Caching, contents: Contents, embed: Embedder)
    : seq<Vector>
  {
    var call := CallFor(chunks, cfg, caching);
    Truths(Keys(call.texts, cfg), Answer(contents.vectors, Stored(call, contents.disk), cfg, embed))
  }

  /** The caches after the chunks have been embedded, or after the provider has failed to. */
  ghost function EmbedEffect(chunks: seq<Chunk>, cfg: Config, caching: Caching, contents: Contents, limit: nat,
                             embed: Embedder, answered: bool): Contents
  {
    var call := CallFor(chunks, cfg, caching);
    if chunks == [] then contents
    else
      var truth := Answer(contents.vectors, Stored(call, contents.disk), cfg, embed);
      Effect(call, contents, UNDISTURBED, truth, limit, answered)
  }

  /** What a build makes: the configuration it ends up with, its vectors, and the caches it leaves. */
  datatype Made = Made(cfg: Config, embeddings: seq<Vector>, contents: Contents)

  /** A build that falls back embeds a second time, with hashing, through the caches the first attempt has left. */
  ghost function MadeBy(chunks: seq<Chunk>, cfg: Config, caching: Caching, contents: Contents, limit: nat, embed: Embedder,
                        hashModel: (int, bool) -> string, outcome: Outcome): Made
  {
    match outcome
    case Plain => Made(cfg, [], contents)
    case Embedded => Made(cfg, CachedEmbeddings(chunks, cfg, caching, contents, embed),
                          EmbedEffect(chunks, cfg, caching, contents, limit, embed, true))
    case FellBack =>
      var active, between := HashingFallback(cfg, hashModel), EmbedEffect(chunks, cfg, caching, contents, limit, embed, false);
      Made(active, CachedEmbeddings(chunks, active, caching, between, embed),
           EmbedEffect(chunks, active, caching, between, limit, embed, true))
    case Raised => Made(cfg, [], EmbedEffect(chunks, cfg, caching, contents, limit, embed, false))
  }

  // ----- what an index agrees with

  /** Each vector is an embedding of its chunk, for Gemini by one of the endpoints. */
  ghost predicate VectorsGrounded(chunks: seq<Chunk>, cfg: Config, vectors: seq<Vector>, endpoints: set<string>,
                                  embed: Embedder)
  {
    && |vectors| == (if cfg.enabled then |chunks| else 0)
    && forall i :: 0 <= i < |vectors| ==> AskedOf(vectors[i], KeyOf(chunks[i].text, cfg), endpoints, embed)
  }

  ghost predicate IndexGrounded(index: Index, endpoints: set<string>, embed: Embedder) {
    && AreChunks(index.chunks, index.transcript, index.chunking) && FromSettings(index.vector)
    && VectorsGrounded(index.chunks, index.vector, index.embeddings, endpoints, embed)
  }

  /** The stored indexes and the caches are right, for Gemini up to these endpoints. */
  ghost predicate Sound(stored: map<string, Index>, contents: Contents, endpoints: set<string>, embed: Embedder) {
    Grounded(contents, endpoints, embed) && forall id :: id in stored ==> IndexGrounded(stored[id], endpoints, embed)
  }

  /** A grounded index is a fresh one, if it is not for Gemini or one Gemini endpoint is in use. */
  lemma GroundedIsFresh(chunks: seq<Chunk>, cfg: Config, vectors: seq<Vector>, endpoints: set<string>, embed: Embedder)
    requires VectorsGrounded(chunks, cfg, vectors, endpoints, embed) && Within(cfg, endpoints)
    requires cfg.provider == Gemini ==> endpoints == {Endpoint(cfg)}
    ensures vectors == ChunkEmbeddings(chunks, cfg, embed)
  {
    hide AskedOf, KeyOf, RequestOf, Within, Endpoint;
    forall i | 0 <= i < |vectors|
      ensures vectors[i] == embed(RequestOf(chunks[i].text, cfg))
    {
      OnlyEndpoint(vectors[i], chunks[i].text, cfg, endpoints, embed);
    }
  }

  lemma EmbedGrounded(chunks: seq<Chunk>, cfg: Config, caching: Caching, contents: Contents, limit: nat, embed: Embedder,
                      answered: bool, endpoints: set<string>)
    requires cfg.enabled && Within(cfg, endpoints) && WellFormed(contents, limit) && Grounded(contents, endpoints, embed)
    ensures Grounded(EmbedEffect(chunks, cfg, caching, contents, limit, embed, answered), endpoints, embed)
    ensures VectorsGrounded(chunks, cfg, CachedEmbeddings(chunks, cfg, caching, contents, embed), endpoints, embed)
  {
    hide Grounded, AskedOf, Effect, KeyOf, Within, Answer, WellFormed, KeyRequest;
    var call := CallFor(chunks, cfg, caching);
    CallStaysGrounded(call, contents, UNDISTURBED, limit, answered, endpoints, embed);
    forall i | 0 <= i < |chunks|
      ensures Keys(call.texts, cfg)[i] == KeyOf(chunks[i].text, cfg) && KeyOf(chunks[i].text, cfg) in Keys(call.texts, cfg)
    {
      assert Keys(call.texts, cfg)[i] in Keys(call.texts, cfg);
    }
  }

  lemma FallbackWithin(cfg: Config, hashModel: (int, bool) -> string, endpoints: set<string>)
    ensures Within(HashingFallback(cfg, hashModel), endpoints)
  {
  }

  lemma EmbedFits(chunks: seq<Chunk>, cfg: Config, caching: Caching, contents: Contents, limit: nat, embed: Embedder)
    requires WellFormed(contents, limit)
    ensures WellFormed(EmbedEffect(chunks, cfg, caching, contents, limit, embed, false), limit)
  {
    hide WellFormed, Put, Answer, FromDisk, ToFetch;
    var call := CallFor(chunks, cfg, caching);
    var truth := Answer(contents.vectors, Stored(call, contents.disk), cfg, embed);
    PutFits(contents, FromDisk(call, contents.vectors, contents.disk), truth, limit);
  }

  /** Whatever becomes of a build, it leaves the caches right, and what it makes is right. */
  lemma MadeGrounded(chunks: seq<Chunk>, cfg: Config, caching: Caching, contents: Contents, limit: nat, embed: Embedder,
                     hashModel: (int, bool) -> string, outcome: Outcome, endpoints: set<string>)
    requires Within(cfg, endpoints) && WellFormed(contents, limit) && Grounded(contents, endpoints, embed)
    requires outcome == Plain <==> !cfg.enabled
    ensures var made := MadeBy(chunks, cfg, caching, contents, limit, embed, hashModel, outcome);
      && Grounded(made.contents, endpoints, embed) && FromSettings(made.cfg)
      && (outcome != Raised ==> VectorsGrounded(chunks, made.cfg, made.embeddings, endpoints, embed))
  {
    hide Grounded, AskedOf, EmbedEffect, CachedEmbeddings, WellFormed, Endpoint;
    var active, between := HashingFallback(cfg, hashModel), EmbedEffect(chunks, cfg, caching, contents, limit, embed, false);
    FallbackWithin(cfg, hashModel, endpoints);
    match outcome
    case Plain =>
    case Embedded => EmbedGrounded(chunks, cfg, caching, contents, limit, embed, true, endpoints);
    case FellBack =>
      EmbedGrounded(chunks, cfg, caching, contents, limit, embed, false, endpoints);
      EmbedFits(chunks, cfg, caching, contents, limit, embed);
      EmbedGrounded(chunks, active, caching, between, limit, embed, true, endpoints);
    case Raised => EmbedGrounded(chunks, cfg, caching, contents, limit, embed, false, endpoints);
  }

  /** A vector that fits the stored configuration fits a compatible one. */
  lemma CompatibleGrounded(index: Index, cfg: Config, endpoints: set<string>, embed: Embedder)
    requires IndexGrounded(index, endpoints, embed) && Compatible(index.vector, cfg) && FromSettings(cfg)
    requires index.vector.provider == cfg.provider
    ensures VectorsGrounded(index.chunks, cfg, index.embeddings, endpoints, embed)
  {
    hide TrimSlash, AreChunks;
    forall i | 0 <= i < |index.embeddings|
      ensures AskedOf(index.embeddings[i], KeyOf(index.chunks[i].text, cfg), endpoints, embed)
    {
      assert AskedOf(index.embeddings[i], KeyOf(index.chunks[i].text, index.vector), endpoints, embed);
    }
  }

  /** The indexes by meeting, and the caches they share. */
  class IndexStore {
    var stored: map<string, Index>
    const cache: Cache

    ghost predicate Valid()
      reads this, cache
    {
      cache.Valid()
    }

    constructor (limit: nat)
      ensures Valid() && stored == map[] && fresh(cache) && cache.Now() == EMPTY && cache.limit == limit
    {
      stored := map[];
      cache := new Cache(limit);
    }

    predicate Reusable(id: string, transcript: string, chunking: Chunking, cfg: Config)
      reads this
    {
      && id in stored && stored[id].transcript == transcript && stored[id].chunking == chunking
      && Compatible(stored[id].vector, cfg)
    }

    /** The embeddings of the chunks through the two caches; nothing if the provider failed. */
    method EmbedChunks(chunks: seq<Chunk>, cfg: Config, caching: Caching, embed: Embedder,
                       provider: seq<Request> -> Option<seq<Row>>)
      returns (embeddings: Option<seq<Vector>>)
      requires Valid() && cfg.enabled && caching.batchSize >= 1 && Honest(provider, embed) && (forall r :: embed(r) != [])
      modifies cache
      ensures Valid()
      ensures embeddings.Some? <==> Answering(chunks, cfg, caching, old(cache.Now()), provider)
      ensures embeddings.Some? ==>
        embeddings.value == CachedEmbeddings(chunks, cfg, caching, old(cache.Now()), embed)
      ensures cache.Now() == EmbedEffect(chunks, cfg, caching, old(cache.Now()), cache.limit, embed, embeddings.Some?)
    {
      hide TrimSlash, Honest, AllAnswered, RequestOf, Answer, ToFetch, Effect;
      var sent, requests;
      embeddings, sent, requests := cache.EmbedTexts(CallFor(chunks, cfg, caching), embed, provider, UNDISTURBED);
    }

    /**
      The index of a meeting's transcript and whether it was reused; nothing if the embedding failed and there is no
      fallback for it. `chunks` are the chunks of the transcript, whether or not they were built anew.
     */
    method Ensure(id: string, transcript: string, chunking: Chunking, cfg: Config, speakers: seq<string>, force: bool,
                  caching: Caching, embed: Embedder, provider: seq<Request> -> Option<seq<Row>>, hashModel: (int, bool) -> string)
      returns (result: Option<(Index, bool)>, ghost chunks: seq<Chunk>)
      requires Valid() && caching.batchSize >= 1 && Honest(provider, embed) && (forall r :: embed(r) != [])
      modifies this, cache
      ensures Valid() && AreChunks(chunks, transcript, chunking) && (chunks == [] <==> Blank(transcript))
      ensures !force && old(Reusable(id, transcript, chunking, cfg)) ==>
        result == Some((old(stored)[id], true)) && stored == old(stored) && cache.Now() == old(cache.Now())
      ensures !(!force && old(Reusable(id, transcript, chunking, cfg))) ==>
        var outcome := OutcomeOf(chunks, cfg, caching, old(cache.Now()), provider);
        var made := MadeBy(chunks, cfg, caching, old(cache.Now()), cache.limit, embed, hashModel, outcome);
        && result == (if outcome == Raised then None
                      else Some((Index(transcript, chunking, made.cfg, chunks, made.embeddings, speakers), false)))
        && stored == (if outcome == Raised then old(stored) else old(stored)[id := result.value.0])
        && cache.Now() == made.contents
      ensures forall endpoints: set<string> ::
        Sound(old(stored), old(cache.Now()), endpoints, embed) && Within(cfg, endpoints) ==>
          && Sound(stored, cache.Now(), endpoints, embed)
          && (result.Some? && result.value.0.vector.provider == cfg.provider ==>
                result.value.0.chunks == chunks
                && VectorsGrounded(chunks, cfg, result.value.0.embeddings, endpoints, embed))
    {
      hide LineTexts, IsLayout, HasText, TrimSlash, Honest, AllAnswered, RequestOf, ToFetch, Effect, EmbedEffect,
        CachedEmbeddings, Grounded, Within, VectorsGrounded, AreChunks, WellFormed, Compatible;
      var built := ChunkLineItems(LineTexts(transcript), chunking);
      chunks := built;
      ChunksOf(built, transcript, chunking);
      NoChunksIffBlank(built, transcript, chunking);
      if !force && Reusable(id, transcript, chunking, cfg) {
        ReusedSound(stored[id], transcript, chunking, cfg, chunks, embed);
        return Some((stored[id], true)), chunks;
      }
      ghost var first := cache.Now();
      ghost var outcome := OutcomeOf(chunks, cfg, caching, first, provider);
      BuildSound(transcript, chunking, cfg, chunks, caching, first, cache.limit, embed, hashModel, outcome, speakers);
      if !cfg.enabled {
        var index := Index(transcript, chunking, cfg, built, [], speakers);
        stored := stored[id := index];
        return Some((index, false)), chunks;
      }
      var active := cfg;
      var embeddings := EmbedChunks(built, cfg, caching, embed, provider);
      if embeddings.None? {
        if cfg.provider != OpenAi {
          return None, chunks;
        }
        active := HashingFallback(cfg, hashModel);
        HashingAnswers(built, active, caching, cache.Now(), provider);
        embeddings := EmbedChunks(built, active, caching, embed, provider);
      }
      var index := Index(transcript, chunking, active, built, embeddings.value, speakers);
      stored := stored[id := index];
      return Some((index, false)), chunks;
    }
  }

  // ----- any history of calls

  /** One call of `Ensure`, with the settings and the provider it meets. */
  datatype Use = Use(id: string, transcript: string, chunking: Chunking, cfg: Config, speakers: seq<string>, force: bool,
                     caching: Caching, provider: seq<Request> -> Option<seq<Row>>)

  ghost predicate Usable(u: Use, embed: Embedder) {
    FromSettings(u.cfg) && u.caching.batchSize >= 1 && Honest(u.provider, embed)
  }

  /** The Gemini endpoints that the calls ask. */
  ghost function EndpointsUsed(uses: seq<Use>): set<string> {
    set n | 0 <= n < |uses| && uses[n].cfg.provider == Gemini :: Endpoint(uses[n].cfg)
  }

  /** If it asks Gemini, the call and those before it ask no other Gemini endpoint. */
  ghost predicate AloneUpTo(uses: seq<Use>, n: nat)
    requires n < |uses|
  {
    uses[n].cfg.provider == Gemini ==> EndpointsUsed(uses[..n + 1]) == {Endpoint(uses[n].cfg)}
  }

  /** An index of the provider that was asked for has the chunks of its transcript, and their vectors. */
  ghost predicate Right(result: Option<(Index, bool)>, use: Use, endpoints: set<string>, embed: Embedder) {
    result.Some? && result.value.0.vector.provider == use.cfg.provider ==>
      && AreChunks(result.value.0.chunks, use.transcript, use.chunking)
      && VectorsGrounded(result.value.0.chunks, use.cfg, result.value.0.embeddings, endpoints, embed)
  }

  /** What an index built from nothing, without caches, would hold. */
  ghost predicate AsFresh(result: Option<(Index, bool)>, use: Use, embed: Embedder) {
    result.Some? && result.value.0.vector.provider == use.cfg.provider ==>
      && AreChunks(result.value.0.chunks, use.transcript, use.chunking)
      && result.value.0.embeddings == ChunkEmbeddings(result.value.0.chunks, use.cfg, embed)
  }

  lemma RightIsFresh(result: Option<(Index, bool)>, use: Use, endpoints: set<string>, embed: Embedder)
    requires Right(result, use, endpoints, embed) && Within(use.cfg, endpoints)
    requires use.cfg.provider == Gemini ==> endpoints == {Endpoint(use.cfg)}
    ensures AsFresh(result, use, embed)
  {
    hide AreChunks, VectorsGrounded, ChunkEmbeddings;
    if result.Some? && result.value.0.vector.provider == use.cfg.provider {
      GroundedIsFresh(result.value.0.chunks, use.cfg, result.value.0.embeddings, endpoints, embed);
    }
  }

  lemma {:induction false} MoreEndpoints(vectors: map<Key, Vector>, few: set<string>, many: set<string>, embed: Embedder)
    requires AllAskedOf(vectors, few, embed) && few <= many
    ensures AllAskedOf(vectors, many, embed)
  {
    hide KeyRequest;
    forall k | k in vectors
      ensures AskedOf(vectors[k], k, many, embed)
    {
      assert AskedOf(vectors[k], k, few, embed);
    }
  }

  lemma MoreSound(stored: map<string, Index>, contents: Contents, few: set<string>, many: set<string>, embed: Embedder)
    requires Sound(stored, contents, few, embed) && few <= many
    ensures Sound(stored, contents, many, embed)
  {
    hide AllAskedOf, KeyRequest, AreChunks;
    MoreEndpoints(contents.vectors, few, many, embed);
    MoreEndpoints(contents.disk, few, many, embed);
    forall id | id in stored
      ensures IndexGrounded(stored[id], many, embed)
    {
      var index := stored[id];
      assert IndexGrounded(index, few, embed);
      forall i | 0 <= i < |index.embeddings|
        ensures AskedOf(index.embeddings[i], KeyOf(index.chunks[i].text, index.vector), many, embed)
      {
        assert AskedOf(index.embeddings[i], KeyOf(index.chunks[i].text, index.vector), few, embed);
      }
    }
  }

  lemma EndpointsGrow(uses: seq<Use>, n: nat)
    requires n < |uses|
    ensures EndpointsUsed(uses[..n]) <= EndpointsUsed(uses[..n + 1])
    ensures uses[n].cfg.provider == Gemini ==> Endpoint(uses[n].cfg) in EndpointsUsed(uses[..n + 1])
  {
    hide TrimSlash, Endpoint;
    var before, after := uses[..n], uses[..n + 1];
    forall e | e in EndpointsUsed(before)
      ensures e in EndpointsUsed(after)
    {
      var m :| 0 <= m < |before| && before[m].cfg.provider == Gemini && e == Endpoint(before[m].cfg);
      assert after[m] == before[m];
    }
    if uses[n].cfg.provider == Gemini {
      assert after[n].cfg == uses[n].cfg;
    }
  }

  /** Any list of calls for any meetings, transcripts, settings and provider failures, one after the other. */
  method EnsureAll(store: IndexStore, uses: seq<Use>, embed: Embedder, hashModel: (int, bool) -> string)
    returns (results: seq<Option<(Index, bool)>>)
    requires store.Valid() && store.stored == map[] && store.cache.Now() == EMPTY && (forall r :: embed(r) != [])
    requires forall n :: 0 <= n < |uses| ==> Usable(uses[n], embed)
    modifies store, store.cache
    ensures store.Valid() && |results| == |uses| && Sound(store.stored, store.cache.Now(), EndpointsUsed(uses), embed)
    ensures forall n :: 0 <= n < |uses| ==> Right(results[n], uses[n], EndpointsUsed(uses[..n + 1]), embed)
    ensures forall n :: 0 <= n < |uses| && AloneUpTo(uses, n) ==>
              AsFresh(results[n], uses[n], embed)
  {
    hide Grounded, Right, AsFresh, Within, Endpoint, Honest, OutcomeOf, MadeBy, Compatible, AreChunks;
    results := [];
    NothingStored(embed);
    for n := 0 to |uses|
      invariant store.Valid() && |results| == n && Sound(store.stored, store.cache.Now(), EndpointsUsed(uses[..n]), embed)
      invariant forall m :: 0 <= m < n ==> Right(results[m], uses[m], EndpointsUsed(uses[..m + 1]), embed)
    {
      var use := uses[n];
      EndpointsGrow(uses, n);
      MoreSound(store.stored, store.cache.Now(), EndpointsUsed(uses[..n]), EndpointsUsed(uses[..n + 1]), embed);
      UsesWithin(uses, n, embed);
      var result;
      ghost var chunks;
      result, chunks := store.Ensure(use.id, use.transcript, use.chunking, use.cfg, use.speakers, use.force, use.caching,
                                     embed, use.provider, hashModel);
      IsRight(result, use, chunks, EndpointsUsed(uses[..n + 1]), embed);
      results := results + [result];
    }
    assert uses[..|uses|] == uses;
    forall n | 0 <= n < |uses| && AloneUpTo(uses, n)
      ensures AsFresh(results[n], uses[n], embed)
    {
      UsesWithin(uses, n, embed);
      RightIsFresh(results[n], uses[n], EndpointsUsed(uses[..n + 1]), embed);
    }
  }

  lemma NothingStored(embed: Embedder)
    ensures Sound(map[], EMPTY, EndpointsUsed([]), embed)
  {
  }

  lemma UsesWithin(uses: seq<Use>, n: nat, embed: Embedder)
    requires n < |uses| && Usable(uses[n], embed)
    ensures Within(uses[n].cfg, EndpointsUsed(uses[..n + 1]))
  {
    hide Endpoint, EndpointsUsed;
    EndpointsGrow(uses, n);
  }

  lemma IsRight(result: Option<(Index, bool)>, use: Use, chunks: seq<Chunk>, endpoints: set<string>, embed: Embedder)
    requires AreChunks(chunks, use.transcript, use.chunking)
    requires result.Some? && result.value.0.vector.provider == use.cfg.provider ==>
               result.value.0.chunks == chunks
               && VectorsGrounded(chunks, use.cfg, result.value.0.embeddings, endpoints, embed)
    ensures Right(result, use, endpoints, embed)
  {
  }

  /**
    A new vector is the embedding of its chunk exactly when its provider is not Gemini, or its key was in neither
    cache, or it was stored when the endpoint now asked was asked.
   */
  lemma VectorIsPlainIff(chunks: seq<Chunk>, cfg: Config, caching: Caching, contents: Contents, o: Origins, embed: Embedder,
                         i: nat)
    requires FromSettings(cfg) && cfg.enabled && TracedTo(contents, o, embed) && Injective(embed) && i < |chunks|
    ensures CachedEmbeddings(chunks, cfg, caching, contents, embed)[i] == ChunkEmbeddings(chunks, cfg, embed)[i]
       <==> (cfg.provider == Gemini ==>
               AnswerOrigin(contents.vectors, Stored(CallFor(chunks, cfg, caching), contents.disk), cfg, o, o)
                 (KeyOf(chunks[i].text, cfg)) == Endpoint(cfg))
  {
    hide TracedTo, Injective, RequestOf, KeyOf, Endpoint, Answer, AnswerOrigin, FromSettings;
    PlainIff(CallFor(chunks, cfg, caching), contents, contents, o, o, embed, i);
  }

  lemma ChunksOf(chunks: seq<Chunk>, transcript: string, chunking: Chunking)
    requires IsLayout(chunks, LineTexts(transcript), chunking)
    requires forall k :: 0 <= k < |chunks| ==> HasText(chunks[k], LineTexts(transcript))
    ensures AreChunks(chunks, transcript, chunking)
  {
  }

  /** There is no chunk exactly when the transcript has nothing but spaces. */
  lemma NoChunksIffBlank(chunks: seq<Chunk>, transcript: string, chunking: Chunking)
    requires AreChunks(chunks, transcript, chunking)
    ensures chunks == [] <==> Blank(transcript)
  {
    hide LineTexts;
    NoLinesIffBlank(transcript);
  }

  lemma ReusedSound(index: Index, transcript: string, chunking: Chunking, cfg: Config, chunks: seq<Chunk>, embed: Embedder)
    requires index.transcript == transcript && index.chunking == chunking && AreChunks(chunks, transcript, chunking)
    requires Compatible(index.vector, cfg)
    ensures forall endpoints: set<string> ::
      (IndexGrounded(index, endpoints, embed) && Within(cfg, endpoints) && index.vector.provider == cfg.provider ==>
         index.chunks == chunks && VectorsGrounded(chunks, cfg, index.embeddings, endpoints, embed))
  {
    hide AreChunks, VectorsGrounded, Compatible;
    forall endpoints: set<string> | IndexGrounded(index, endpoints, embed) && Within(cfg, endpoints)
                                    && index.vector.provider == cfg.provider
      ensures index.chunks == chunks && VectorsGrounded(chunks, cfg, index.embeddings, endpoints, embed)
    {
      SameChunks(chunks, index.chunks, transcript, chunking);
      CompatibleGrounded(index, cfg, endpoints, embed);
    }
  }

  lemma BuildSound(transcript: string, chunking: Chunking, cfg: Config, chunks: seq<Chunk>, caching: Caching, contents: Contents,
                   limit: nat, embed: Embedder, hashModel: (int, bool) -> string, outcome: Outcome, speakers: seq<string>)
    requires WellFormed(contents, limit) && AreChunks(chunks, transcript, chunking) && (outcome == Plain <==> !cfg.enabled)
    requires outcome == FellBack ==> cfg.provider != Hashing
    ensures var made := MadeBy(chunks, cfg, caching, contents, limit, embed, hashModel, outcome);
      forall endpoints: set<string> :: Grounded(contents, endpoints, embed) && Within(cfg, endpoints) ==>
        && Grounded(made.contents, endpoints, embed)
        && (outcome != Raised ==>
              && IndexGrounded(Index(transcript, chunking, made.cfg, chunks, made.embeddings, speakers), endpoints, embed)
              && (made.cfg.provider == cfg.provider ==> VectorsGrounded(chunks, cfg, made.embeddings, endpoints, embed)))
  {
    hide Grounded, AreChunks, VectorsGrounded, WellFormed, Within, EmbedEffect, CachedEmbeddings;
    forall endpoints: set<string> | Grounded(contents, endpoints, embed) && Within(cfg, endpoints)
      ensures var made := MadeBy(chunks, cfg, caching, contents, limit, embed, hashModel, outcome);
        && Grounded(made.contents, endpoints, embed) && FromSettings(made.cfg)
        && (outcome != Raised ==> VectorsGrounded(chunks, made.cfg, made.embeddings, endpoints, embed))
    {
      MadeGrounded(chunks, cfg, caching, contents, limit, embed, hashModel, outcome, endpoints);
    }
  }

  lemma SameGeminiKeys(chunks: seq<Chunk>, c: Config, d: Config)
    requires FromSettings(c) && FromSettings(d) && c.provider == d.provider == Gemini
    requires c.model == d.model && c.dim == d.dim && c.charNgrams == d.charNgrams
    ensures Keys(TextsOf(chunks), c) == Keys(TextsOf(chunks), d)
  {
  }

  lemma NoneMissing(keys: seq<Key>, known: set<Key>)
    requires forall k :: k in keys ==> k in known
    ensures Missing(keys, known) == []
  {
    var missing := Missing(keys, known);
    assert missing != [] ==> missing[0] in missing;
    MissingIsExact(keys, known);
  }

  /** After a first build from empty caches the disk has every key, with the embedding of the first configuration. */
  lemma FirstBuild(chunks: seq<Chunk>, cfg: Config, caching: Caching, last: Contents, limit: nat, embed: Embedder)
    requires caching.diskEnabled && caching.unwritten == {}
    requires chunks != [] && last == EmbedEffect(chunks, cfg, caching, EMPTY, limit, embed, true)
    ensures forall k :: k in Keys(TextsOf(chunks), cfg) ==> k in last.disk
    ensures forall k :: k in last.disk ==> last.disk[k] == embed(RequestOf(k.text, cfg))
    ensures forall k :: k in last.vectors ==> last.vectors[k] == embed(RequestOf(k.text, cfg))
  {
    hide RequestOf, KeyOf, Missing, Put, ToFetch, Effect;
    var call := CallFor(chunks, cfg, caching);
    var truth := Answer(map[], Stored(call, map[]), cfg, embed);
    var missing := ToFetch(call, map[], map[]);
    NothingCached(call);
    MissingIsExact(Keys(call.texts, cfg), {});
    assert Keys(call.texts, cfg)[0] in missing;
    FirstEffect(call, truth, limit);
    PutFromNothing(missing, truth, limit);
  }

  lemma PutFromNothing(keys: seq<Key>, truth: Key -> Vector, limit: nat)
    ensures Put(EMPTY, keys, truth, limit).disk == map[]
    ensures forall k :: k in Put(EMPTY, keys, truth, limit).vectors ==>
              k in keys && Put(EMPTY, keys, truth, limit).vectors[k] == truth(k)
  {
    hide Remembered;
    RememberedKeys([], keys, limit);
  }

  lemma NothingCached(call: Call)
    ensures ToFetch(call, map[], map[]) == Missing(Keys(call.texts, call.cfg), {})
    ensures FromDisk(call, map[], map[]) == []
  {
    var none: map<Key, Vector> := map[];
    assert none.Keys == {} && Stored(call, none).Keys == {} && none.Keys + Stored(call, none).Keys == {};
    PresentNone(Missing(Keys(call.texts, call.cfg), {}));
  }

  /** From empty caches all keys are fetched. */
  lemma FirstEffect(call: Call, truth: Key -> Vector, limit: nat)
    requires ToFetch(call, map[], map[]) != []
    ensures var missing := ToFetch(call, map[], map[]);
      Effect(call, EMPTY, UNDISTURBED, truth, limit, true)
      == Write(Put(EMPTY, missing, truth, limit), Written(call, missing), truth)
  {
    hide ToFetch, FromDisk, Put, Write, Written;
    NothingCached(call);
    PutNothing(EMPTY, truth, limit);
  }

  lemma RememberedKeys(order: seq<Key>, keys: seq<Key>, limit: nat)
    ensures forall k :: k in Remembered(order, keys, limit) ==> k in order || k in keys
  {
    hide Appended;
    AppendedKeys(order, keys);
  }

  /** A second build under the same keys asks nobody and takes what the caches have. */
  lemma SecondBuild(chunks: seq<Chunk>, c: Config, d: Config, caching: Caching, contents: Contents, embed: Embedder,
                    provider: seq<Request> -> Option<seq<Row>>)
    requires caching.batchSize >= 1 && caching.diskEnabled && c.enabled && Keys(TextsOf(chunks), c) == Keys(TextsOf(chunks), d)
    requires forall k :: k in Keys(TextsOf(chunks), c) ==> k in contents.disk
    requires forall k :: k in contents.disk ==> contents.disk[k] == embed(RequestOf(k.text, c))
    requires forall k :: k in contents.vectors ==> contents.vectors[k] == embed(RequestOf(k.text, c))
    ensures Answering(chunks, d, caching, contents, provider)
    ensures CachedEmbeddings(chunks, d, caching, contents, embed) == ChunkEmbeddings(chunks, c, embed)
  {
    hide RequestOf;
    var call := CallFor(chunks, d, caching);
    var keys := Keys(call.texts, d);
    NoneMissing(keys, contents.vectors.Keys + contents.disk.Keys);
    forall i | 0 <= i < |keys|
      ensures Answer(contents.vectors, Stored(call, contents.disk), d, embed)(keys[i]) == embed(RequestOf(chunks[i].text, c))
    {
      assert keys[i] in keys && keys[i] == KeyOf(chunks[i].text, c);
    }
    assert CachedEmbeddings(chunks, d, caching, contents, embed) == ChunkEmbeddings(chunks, c, embed);
  }

  /**
    After a change of the Gemini endpoint the index is built anew, and marked with the new endpoint, but for
    every transcript it carries the embeddings of the old one: the keys of the caches do not tell them apart.
   */
  method EndpointChangeIsMissed(transcript: string, chunking: Chunking, c: Config, d: Config, limit: nat, batchSize: nat,
                                embed: Embedder, provider: seq<Request> -> Option<seq<Row>>,
                                hashModel: (int, bool) -> string)
    returns (index: Index, reused: bool)
    requires FromSettings(c) && FromSettings(d) && c.enabled && d.enabled && c.provider == d.provider == Gemini
    requires c.model == d.model && c.dim == d.dim && c.charNgrams == d.charNgrams
    requires TrimSlash(c.apiBase) != TrimSlash(d.apiBase)
    requires batchSize >= 1 && Honest(provider, embed) && (forall r :: embed(r) != []) && forall r :: provider(r).Some?
    ensures !reused && index.vector == d && AreChunks(index.chunks, transcript, chunking)
    ensures index.embeddings == ChunkEmbeddings(index.chunks, c, embed)
    ensures TellsApart(index.chunks, c, d, embed) ==> !Built(index, embed)
  {
    hide LineTexts, IsLayout, HasText, TrimSlash, Honest, RequestOf, Answer, ToFetch, Keys, KeyOf, AreChunks,
      CachedEmbeddings, EmbedEffect, Sound, VectorsGrounded, Within;
    var caching := Caching(batchSize, true, {});
    var store := new IndexStore(limit);
    var first, second;
    ghost var chunks, again;
    first, chunks := store.Ensure("meeting", transcript, chunking, c, [], false, caching, embed, provider, hashModel);
    AlwaysAnswered(chunks, c, caching, EMPTY, provider);
    SameGeminiKeys(chunks, c, d);
    ghost var left := store.cache.Now();
    if chunks != [] {
      FirstBuild(chunks, c, caching, left, limit, embed);
      SecondBuild(chunks, c, d, caching, left, embed, provider);
    }
    second, again := store.Ensure("meeting", transcript, chunking, d, [], false, caching, embed, provider, hashModel);
    SameChunks(chunks, again, transcript, chunking);
    AlwaysAnswered(again, d, caching, left, provider);
    EmptyEmbeddings(d, c, caching, left, embed);
    index, reused := second.value.0, second.value.1;
    WrongVectors(index, c, d, embed);
  }

  /** Some chunk has different embeddings under the two configurations. */
  ghost predicate TellsApart(chunks: seq<Chunk>, c: Config, d: Config, embed: Embedder) {
    exists i :: 0 <= i < |chunks| && embed(RequestOf(chunks[i].text, c)) != embed(RequestOf(chunks[i].text, d))
  }

  lemma WrongVectors(index: Index, c: Config, d: Config, embed: Embedder)
    requires c.enabled && d.enabled && index.vector == d && index.embeddings == ChunkEmbeddings(index.chunks, c, embed)
    ensures TellsApart(index.chunks, c, d, embed) ==> !Built(index, embed)
  {
    hide RequestOf, AreChunks;
    var chunks := index.chunks;
    forall i | 0 <= i < |chunks| && embed(RequestOf(chunks[i].text, c)) != embed(RequestOf(chunks[i].text, d))
      ensures ChunkEmbeddings(index.chunks, c, embed)[i] != ChunkEmbeddings(index.chunks, d, embed)[i]
    {
    }
  }

  lemma EmptyEmbeddings(d: Config, c: Config, caching: Caching, contents: Contents, embed: Embedder)
    ensures CachedEmbeddings([], d, caching, contents, embed) == ChunkEmbeddings([], c, embed) == []
  {
  }

  lemma SameChunks(chunks: seq<Chunk>, again: seq<Chunk>, transcript: string, chunking: Chunking)
    requires AreChunks(chunks, transcript, chunking) && AreChunks(again, transcript, chunking)
    ensures chunks == again
  {
    LayoutIsUnique(chunks, again, LineTexts(transcript), chunking);
  }

  lemma AlwaysAnswered(chunks: seq<Chunk>, cfg: Config, caching: Caching, contents: Contents,
                       provider: seq<Request> -> Option<seq<Row>>)
    requires caching.batchSize >= 1 && forall r :: provider(r).Some?
    ensures Answering(chunks, cfg, caching, contents, provider)
  {
    AllAreAnswered(ToFetch(CallFor(chunks, cfg, caching), contents.vectors, contents.disk), PerRequest(cfg, caching.batchSize),
                   cfg, provider);
  }

  lemma {:induction false} AllAreAnswered(keys: seq<Key>, size: nat, cfg: Config, provider: seq<Request> -> Option<seq<Row>>)
    requires size > 0 && forall r :: provider(r).Some?
    ensures AllAnswered(keys, size, cfg, provider)
    decreases |keys|
  {
    if |keys| > size {
      AllAreAnswered(keys[size..], size, cfg, provider);
    }
  }

  /** Speakers are not part of the key: a second call with new speakers gets the old ones. */
  method SpeakersCanBeStale(transcript: string, chunking: Chunking, embed: Embedder,
                            provider: seq<Request> -> Option<seq<Row>>, hashModel: (int, bool) -> string)
    returns (asked: seq<string>, got: seq<string>)
    requires Honest(provider, embed) && forall r :: embed(r) != []
    ensures asked != got
  {
    hide AreChunks, Answering, CachedEmbeddings, EmbedEffect, Sound, VectorsGrounded, Within, TrimSlash, Honest;
    var cfg := Config(false, Hashing, "", 96, true, "", "");
    var caching := Caching(24, true, {});
    var store := new IndexStore(2048);
    var first, second;
    ghost var chunks, again;
    first, chunks := store.Ensure("meeting", transcript, chunking, cfg, ["unknown"], false, caching, embed, provider, hashModel);
    asked := ["Anna"];
    second, again := store.Ensure("meeting", transcript, chunking, cfg, asked, false, caching, embed, provider, hashModel);
    got := second.value.0.speakers;
    assert |asked[0]| == 4 && |got[0]| == 7;
  }
}
