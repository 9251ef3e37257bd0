/**
  Embeddings behind two caches: one in memory with first-in-first-out eviction, one on disk.
  The caller gets, for every text in order, what is cached under its key or else its embedding, and
  each missing text is sent to the provider once, whatever other calls do to the caches between the
  locked regions of this one. For OpenAI and hashing this cannot be noticed. The key of a Gemini text
  has no endpoint in it: an answer is right exactly when the endpoint now asked was asked for it.
 */
module EmbeddingCache {
  import opened EmbeddingRows
  import opened Options

  datatype Provider = OpenAi | Gemini | Hashing

  datatype Config = Config(enabled: bool, provider: Provider, model: string, dim: int, charNgrams: bool,
                           apiBase: string, openaiApiBase: string)

  /** The fields that are hashed into the cache key; the hash is taken to be injective. */
  datatype Key = Key(provider: Provider, model: string, dim: int, charNgrams: bool, apiBase: string, text: string)

  /** What an embedding depends on: the remote endpoint and model, or the local hashing parameters. */
  datatype Request =
    | Remote(provider: Provider, endpoint: string, model: string, text: string)
    | Local(dim: int, charNgrams: bool, text: string)

  function TrimSlash(s: string): string {
    if s != "" && s[|s| - 1] == '/' then TrimSlash(s[..|s| - 1]) else s
  }

  function KeyOf(text: string, cfg: Config): Key {
    Key(cfg.provider, cfg.model, cfg.dim, cfg.charNgrams,
        if cfg.provider == Hashing then "" else TrimSlash(cfg.openaiApiBase), text)
  }

  function RequestOf(text: string, cfg: Config): Request {
    match cfg.provider
    case Hashing => Local(cfg.dim, cfg.charNgrams, text)
    case OpenAi => Remote(OpenAi, TrimSlash(if cfg.apiBase != "" then cfg.apiBase else cfg.openaiApiBase), cfg.model, text)
    case Gemini => Remote(Gemini, TrimSlash(cfg.apiBase), cfg.model, text)
  }

  /** The configurations that the settings produce: the legacy base is filled for OpenAI only. */
  predicate FromSettings(cfg: Config) {
    match cfg.provider
    case OpenAi => cfg.openaiApiBase == cfg.apiBase
    case Gemini => cfg.openaiApiBase == ""
    case Hashing => cfg.apiBase == cfg.openaiApiBase == ""
  }

  /**
    Equal keys stand for equal requests, except between two Gemini configurations with
    different endpoints.
   */
  lemma SameKeySameRequest(s: string, c: Config, t: string, d: Config)
    requires FromSettings(c) && FromSettings(d) && KeyOf(s, c) == KeyOf(t, d)
    ensures RequestOf(s, c) == RequestOf(t, d) <==> (c.provider == Gemini ==> TrimSlash(c.apiBase) == TrimSlash(d.apiBase))
  {
    hide TrimSlash;
  }

  predicate OnlySlashes(s: string) {
    forall i :: 0 <= i < |s| ==> s[i] == '/'
  }

  /** What is left when the slashes at the end are taken away. */
  lemma {:induction false} TrimSlashIs(s: string)
    ensures var r := TrimSlash(s);
      |r| <= |s| && r == s[..|r|] && OnlySlashes(s[|r|..]) && (r != "" ==> r[|r| - 1] != '/')
  {
    if s != "" && s[|s| - 1] == '/' {
      var front := s[..|s| - 1];
      TrimSlashIs(front);
      var n := |TrimSlash(front)|;
      assert forall i :: n <= i < |front| ==> s[i] == front[n..][i - n];
    }
  }

  /**
    Two requests are the same exactly when text and provider are, and with them the parameters of the hashing or
    else the model and, but for slashes at the end, the endpoint.
   */
  lemma SameRequestIff(s: string, c: Config, t: string, d: Config)
    requires FromSettings(c) && FromSettings(d)
    ensures RequestOf(s, c) == RequestOf(t, d) <==>
      && s == t && c.provider == d.provider
      && if c.provider == Hashing then c.dim == d.dim && c.charNgrams == d.charNgrams
         else c.model == d.model && TrimSlash(c.apiBase) == TrimSlash(d.apiBase)
  {
    hide TrimSlash;
  }

  /** Two keys are the same exactly when text, provider, model and hashing parameters are and, for OpenAI, the endpoint. */
  lemma SameKeyIff(s: string, c: Config, t: string, d: Config)
    requires FromSettings(c) && FromSettings(d)
    ensures KeyOf(s, c) == KeyOf(t, d) <==>
      && s == t && c.provider == d.provider && c.model == d.model && c.dim == d.dim && c.charNgrams == d.charNgrams
      && (c.provider == OpenAi ==> TrimSlash(c.apiBase) == TrimSlash(d.apiBase))
  {
    hide TrimSlash;
  }

  /** Two Gemini endpoints share the key of a text although they are asked differently. */
  lemma GeminiKeysCollide(text: string)
    ensures var c, d := Config(true, Gemini, "m", 96, true, "a", ""), Config(true, Gemini, "m", 96, true, "b", "");
      FromSettings(c) && FromSettings(d) && KeyOf(text, c) == KeyOf(text, d) && RequestOf(text, c) != RequestOf(text, d)
  {
    assert TrimSlash("a") == "a" && TrimSlash("b") == "b";
  }

  /** The request behind a key, once the one Gemini endpoint in use is fixed. */
  function KeyRequest(key: Key, geminiEndpoint: string): Request {
    match key.provider
    case Hashing => Local(key.dim, key.charNgrams, key.text)
    case OpenAi => Remote(OpenAi, key.apiBase, key.model, key.text)
    case Gemini => Remote(Gemini, geminiEndpoint, key.model, key.text)
  }

  lemma KeyRequestIsRequest(text: string, cfg: Config, geminiEndpoint: string)
    requires FromSettings(cfg)
    ensures KeyRequest(KeyOf(text, cfg), geminiEndpoint) == RequestOf(text, cfg)
       <==> (cfg.provider == Gemini ==> TrimSlash(cfg.apiBase) == geminiEndpoint)
  {
    hide TrimSlash;
  }

  type Embedder = Request -> Vector

  /** The provider may fail; when it answers, it answers every text with its embedding. */
  ghost predicate Honest(provider: seq<Request> -> Option<seq<Row>>, embed: Embedder) {
    forall reqs :: provider(reqs).Some? ==> Answers(provider(reqs).value, Embeddings(reqs, embed))
  }

  ghost function Embeddings(reqs: seq<Request>, embed: Embedder): seq<Vector> {
    seq(|reqs|, i requires 0 <= i < |reqs| => embed(reqs[i]))
  }

  /** The keys not in `known`, each once, in the order of first occurrence. */
  function Missing(keys: seq<Key>, known: set<Key>): (r: seq<Key>) {
    if keys == [] then []
    else
      var init, last := Missing(keys[..|keys| - 1], known), keys[|keys| - 1];
      if last in known || last in init then init else init + [last]
  }

  ghost predicate NoRepeats<T>(s: seq<T>) {
    forall i, j :: 0 <= i < j < |s| ==> s[i] != s[j]
  }

  lemma {:induction false} MissingIsExact(keys: seq<Key>, known: set<Key>)
    ensures NoRepeats(Missing(keys, known))
    ensures forall k :: k in Missing(keys, known) <==> k in keys && k !in known
  {
    if keys != [] {
      MissingIsExact(keys[..|keys| - 1], known);
      assert keys == keys[..|keys| - 1] + [keys[|keys| - 1]];
    }
  }

  // ----- the memory cache: a dictionary that remembers insertion order

  /** Keys that are already there keep their place; the others go to the end. */
  function Appended(order: seq<Key>, keys: seq<Key>): seq<Key> {
    if keys == [] then order
    else
      var init, last := Appended(order, keys[..|keys| - 1]), keys[|keys| - 1];
      if last in init then init else init + [last]
  }

  /** The newest `n`. */
  function Newest(order: seq<Key>, n: nat): seq<Key> {
    if |order| <= n then order else order[|order| - n..]
  }

  /** The order of the memory cache after these keys have been stored. */
  function Remembered(order: seq<Key>, keys: seq<Key>, limit: nat): seq<Key> {
    if limit == 0 then order else Newest(Appended(order, keys), limit)
  }

  /** The keys that are in `stored`, in order. */
  function Present(keys: seq<Key>, stored: set<Key>): seq<Key> {
    if keys == [] then []
    else
      var init, last := Present(keys[..|keys| - 1], stored), keys[|keys| - 1];
      if last in stored then init + [last] else init
  }

  lemma {:induction false} PresentIsExact(keys: seq<Key>, stored: set<Key>)
    ensures forall k :: k in Present(keys, stored) <==> k in keys && k in stored
  {
    if keys != [] {
      PresentIsExact(keys[..|keys| - 1], stored);
      assert keys == keys[..|keys| - 1] + [keys[|keys| - 1]];
    }
  }

  /** The sizes of the requests for `n` texts, at most `size` in each. */
  function Requests(n: nat, size: nat): seq<nat>
    requires size > 0
  {
    if n == 0 then [] else if n <= size then [n] else [size] + Requests(n - size, size)
  }

  lemma NoMoreRequests(size: nat)
    requires size > 0
    ensures Requests(0, size) == []
  {
  }

  lemma NextRequest(made: seq<nat>, n: nat, size: nat)
    requires size > 0 && n > 0
    ensures var first := if n <= size then n else size;
      made + Requests(n, size) == made + [first] + Requests(n - first, size)
  {
  }

  /** One request carries a batch for OpenAI and a single text otherwise. */
  function PerRequest(cfg: Config, batchSize: nat): nat {
    if cfg.provider == OpenAi then batchSize else 1
  }

  ghost predicate Ordered(order: seq<Key>, vectors: map<Key, Vector>) {
    NoRepeats(order) && forall k :: k in order <==> k in vectors
  }

  ghost predicate Coherent(vectors: map<Key, Vector>, truth: Key -> Vector) {
    forall k :: k in vectors ==> vectors[k] == truth(k)
  }

  /** One answer per key: the true one where the key is known, none elsewhere. */
  ghost predicate Known(results: seq<Option<Vector>>, keys: seq<Key>, known: set<Key>, truth: Key -> Vector) {
    && |results| == |keys|
    && forall i :: 0 <= i < |keys| ==> results[i] == if keys[i] in known then Some(truth(keys[i])) else None
  }

  /** What the two caches hold. */
  datatype Contents = Contents(order: seq<Key>, vectors: map<Key, Vector>, disk: map<Key, Vector>)

  const EMPTY := Contents([], map[], map[])

  ghost predicate WellFormed(c: Contents, limit: nat) {
    Ordered(c.order, c.vectors) && |c.order| <= limit
  }

  /** The answer for a key: from memory, else from disk, else its embedding. */
  ghost function Answer(memory: map<Key, Vector>, stored: map<Key, Vector>, cfg: Config, embed: Embedder): Key -> Vector {
    k => if k in memory then memory[k] else if k in stored then stored[k] else embed(RequestOf(k.text, cfg))
  }

  /** The arguments of one call and the settings it finds; `unwritten` are the keys whose disk files cannot be written. */
  datatype Call = Call(texts: seq<string>, cfg: Config, batchSize: nat, diskEnabled: bool, unwritten: set<Key>)

  /** What the disk has to offer to a call. */
  function Stored(call: Call, disk: map<Key, Vector>): map<Key, Vector> {
    if call.diskEnabled then disk else map[]
  }

  /** The keys a call sends to the provider: those in neither cache, each once, in order of first use. */
  function ToFetch(call: Call, memory: map<Key, Vector>, disk: map<Key, Vector>): seq<Key> {
    Missing(Keys(call.texts, call.cfg), memory.Keys + Stored(call, disk).Keys)
  }

  /** The keys a call takes from the disk. */
  function FromDisk(call: Call, memory: map<Key, Vector>, disk: map<Key, Vector>): seq<Key> {
    Present(Missing(Keys(call.texts, call.cfg), memory.Keys), Stored(call, disk).Keys)
  }

  /** The vectors of the base, except that those of the keys are the true ones. */
  ghost predicate Merged(vectors: map<Key, Vector>, base: map<Key, Vector>, keys: seq<Key>, truth: Key -> Vector) {
    forall k :: k in vectors ==> if k in keys then vectors[k] == truth(k) else k in base && vectors[k] == base[k]
  }

  // ----- what a call leaves in the caches

  /**
    What other calls leave in the caches while this one does not hold the lock, if they do anything: before it
    reads the disk, before it remembers what it has read, before it stores the provider's answers, and
    before it writes them to disk.
   */
  datatype Gaps = Gaps(resumed: Option<Contents>, relocked: Option<Contents>, returned: Option<Contents>,
                       released: Option<Contents>)

  const UNDISTURBED := Gaps(None, None, None, None)

  ghost predicate GapsFit(gaps: Gaps, limit: nat) {
    Fits(gaps.resumed, limit) && Fits(gaps.relocked, limit) && Fits(gaps.returned, limit) && Fits(gaps.released, limit)
  }

  ghost predicate Fits(gap: Option<Contents>, limit: nat) {
    gap.Some? ==> WellFormed(gap.value, limit)
  }

  function Left(gap: Option<Contents>, c: Contents): Contents {
    if gap.Some? then gap.value else c
  }

  /** The caches once these keys have been remembered in memory. */
  ghost function Put(c: Contents, keys: seq<Key>, truth: Key -> Vector, limit: nat): Contents {
    var order := Remembered(c.order, keys, limit);
    Contents(order, map k | k in order :: if k in keys then truth(k) else if k in c.vectors then c.vectors[k] else [], c.disk)
  }

  /** The caches once these keys have been written to disk. */
  ghost function Write(c: Contents, keys: set<Key>, truth: Key -> Vector): Contents {
    c.(disk := c.disk + map k | k in keys :: truth(k))
  }

  /** The keys a call writes to disk when the provider has answered. */
  function Written(call: Call, missing: seq<Key>): set<Key> {
    if call.diskEnabled then (set k | k in missing) - call.unwritten else {}
  }

  /**
    The caches after a call: disk hits go to memory, and then, if the provider has answered what is missing,
    its answers go to memory and to disk.
   */
  ghost function Effect(call: Call, first: Contents, gaps: Gaps, truth: Key -> Vector, limit: nat, answered: bool): Contents {
    var second := Left(gaps.resumed, first);
    var missing := ToFetch(call, first.vectors, second.disk);
    var hits := FromDisk(call, first.vectors, second.disk);
    var fourth := Left(gaps.returned, Put(Left(gaps.relocked, second), hits, truth, limit));
    if !answered || missing == [] then fourth
    else Write(Left(gaps.released, Put(fourth, missing, truth, limit)), Written(call, missing), truth)
  }

  lemma {:induction false} AppendedKeys(order: seq<Key>, keys: seq<Key>)
    ensures forall k :: k in Appended(order, keys) <==> k in order || k in keys
  {
    if keys != [] {
      AppendedKeys(order, keys[..|keys| - 1]);
      assert keys == keys[..|keys| - 1] + [keys[|keys| - 1]];
    }
  }

  /** What the memory cache holds is fixed by its order and by what was put into it. */
  lemma PutIs(c': Contents, c: Contents, keys: seq<Key>, truth: Key -> Vector, limit: nat)
    requires Ordered(c'.order, c'.vectors) && c'.order == Remembered(c.order, keys, limit) && c'.disk == c.disk
    requires Merged(c'.vectors, c.vectors, keys, truth)
    ensures c' == Put(c, keys, truth, limit)
  {
    hide Remembered;
    var vectors := Put(c, keys, truth, limit).vectors;
    assert c'.vectors.Keys == vectors.Keys;
    assert forall k :: k in vectors ==> c'.vectors[k] == vectors[k];
    assert c'.vectors == vectors;
  }

  lemma PutNothing(c: Contents, truth: Key -> Vector, limit: nat)
    requires WellFormed(c, limit)
    ensures Put(c, [], truth, limit) == c
  {
    NothingRemembered(c.order, limit);
    MergedItself(c.vectors, truth);
    PutIs(c, c, [], truth, limit);
  }

  // ----- what is evicted

  /**
    When the keys `inserted` have come in after those that were there: nothing else is in memory, no more is
    evicted than the limit asks for, and whatever came in later than a key that is left is left as well.
   */
  ghost predicate EvictsOldest(before: Contents, after: Contents, inserted: seq<Key>, limit: nat) {
    var all := before.order + inserted;
    && (forall k :: k in after.vectors ==> k in all)
    && |after.vectors| == (if |all| <= limit then |all| else limit)
    && (forall p, q :: 0 <= p < q < |all| && all[p] in after.vectors ==> all[q] in after.vectors)
  }

  /** The new keys of a list, each once, are what comes in. */
  lemma {:induction false} AppendedIs(order: seq<Key>, keys: seq<Key>, known: set<Key>)
    requires forall k :: k in known <==> k in order
    ensures Appended(order, keys) == order + Missing(keys, known)
  {
    if keys != [] {
      var n := |keys| - 1;
      AppendedIs(order, keys[..n], known);
      var some := Missing(keys[..n], known);
      assert keys[n] in order + some <==> keys[n] in known || keys[n] in some;
      assert (order + some) + [keys[n]] == order + (some + [keys[n]]);
    }
  }

  /** Of distinct keys in order the newest are left: those with fewer than `limit` after them. */
  lemma LeftIff(all: seq<Key>, limit: nat, p: nat)
    requires NoRepeats(all) && p < |all|
    ensures all[p] in Newest(all, limit) <==> |all| - p <= limit
  {
    if |all| > limit {
      var cut := |all| - limit;
      var left := all[cut..];
      assert p >= cut ==> left[p - cut] == all[p];
      if all[p] in left {
        var i :| 0 <= i < |left| && left[i] == all[p];
        assert left[i] == all[cut + i];
      }
    }
  }

  lemma KeysOfOrder(c: Contents)
    requires Ordered(c.order, c.vectors)
    ensures |c.vectors| == |c.order| && forall k :: k in c.vectors <==> k in c.order
  {
    DistinctSize(c.order, c.vectors.Keys);
  }

  lemma {:induction false} DistinctSize(order: seq<Key>, keys: set<Key>)
    requires NoRepeats(order) && forall k :: k in keys <==> k in order
    ensures |keys| == |order|
    decreases |order|
  {
    if order == [] {
      assert keys == {};
    } else {
      var n := |order| - 1;
      assert order == order[..n] + [order[n]];
      DistinctSize(order[..n], keys - {order[n]});
    }
  }

  /** Keeping the newest of all evicts the oldest. */
  lemma NewestEvictsOldest(before: Contents, after: Contents, inserted: seq<Key>, limit: nat)
    requires NoRepeats(before.order + inserted) && Ordered(after.order, after.vectors)
    requires after.order == Newest(before.order + inserted, limit)
    ensures EvictsOldest(before, after, inserted, limit)
  {
    var all := before.order + inserted;
    KeysOfOrder(after);
    hide Newest, NoRepeats;
    forall p, q | 0 <= p < q < |all| && all[p] in after.vectors
      ensures all[q] in after.vectors
    {
      LeftIff(all, limit, p);
      LeftIff(all, limit, q);
    }
    NewestWithin(all, limit);
  }

  lemma NewestWithin(all: seq<Key>, limit: nat)
    ensures |Newest(all, limit)| == if |all| <= limit then |all| else limit
    ensures forall k :: k in Newest(all, limit) ==> k in all
  {
  }

  lemma NewestTwice(a: seq<Key>, b: seq<Key>, limit: nat)
    ensures Newest(Newest(a, limit) + b, limit) == Newest(a + b, limit)
  {
  }

  lemma RememberedIs(order: seq<Key>, keys: seq<Key>, limit: nat)
    requires |order| <= limit
    ensures Remembered(order, keys, limit) == Newest(Appended(order, keys), limit)
  {
  }

  lemma Disjoined(order: seq<Key>, inserted: seq<Key>)
    requires NoRepeats(order) && NoRepeats(inserted) && forall k :: k in inserted ==> k !in order
    ensures NoRepeats(order + inserted)
  {
    var all := order + inserted;
    forall i, j | 0 <= i < j < |all|
      ensures all[i] != all[j]
    {
      if i < |order| <= j {
        assert all[j] in inserted;
      }
    }
  }

  /** Storing new keys in memory, whatever they are. */
  lemma PutEvictsOldest(c: Contents, keys: seq<Key>, truth: Key -> Vector, limit: nat)
    requires WellFormed(c, limit)
    ensures EvictsOldest(c, Put(c, keys, truth, limit), Missing(keys, c.vectors.Keys), limit)
    ensures Put(c, keys, truth, limit).order == Newest(c.order + Missing(keys, c.vectors.Keys), limit)
    ensures NoRepeats(c.order + Missing(keys, c.vectors.Keys))
  {
    hide Newest, Appended, Missing, EvictsOldest;
    var inserted := Missing(keys, c.vectors.Keys);
    AppendedIs(c.order, keys, c.vectors.Keys);
    MissingIsExact(keys, c.vectors.Keys);
    RememberedIs(c.order, keys, limit);
    Disjoined(c.order, inserted);
    PutFits(c, keys, truth, limit);
    NewestEvictsOldest(c, Put(c, keys, truth, limit), inserted, limit);
  }

  /** All that comes in is left if it fits into the limit, and all that was there if both do. */
  lemma FittingStays(before: Contents, after: Contents, inserted: seq<Key>, limit: nat)
    requires EvictsOldest(before, after, inserted, limit) && NoRepeats(before.order + inserted)
    ensures |inserted| <= limit ==> forall k :: k in inserted ==> k in after.vectors
    ensures |before.order| + |inserted| <= limit ==> forall k :: k in before.order + inserted ==> k in after.vectors
  {
    var all := before.order + inserted;
    var n, left := |all|, after.vectors.Keys;
    if p: nat :| p < n && all[p] !in left && n - p <= limit {
      var later := all[p + 1..];
      forall k | k in left
        ensures k in later
      {
        var q :| 0 <= q < n && all[q] == k;
        assert later[q - p - 1] == k;
      }
      Fewer(left, later);
      assert false;
    }
    forall k | k in inserted && |inserted| <= limit
      ensures k in left
    {
      var i :| 0 <= i < |inserted| && inserted[i] == k;
      assert all[|before.order| + i] == k;
    }
  }

  lemma {:induction false} Fewer(keys: set<Key>, list: seq<Key>)
    requires forall k :: k in keys ==> k in list
    ensures |keys| <= |list|
    decreases |list|
  {
    if list == [] {
      assert keys == {};
    } else {
      var n := |list| - 1;
      assert list == list[..n] + [list[n]];
      Fewer(keys - {list[n]}, list[..n]);
      assert keys <= (keys - {list[n]}) + {list[n]};
    }
  }

  lemma {:induction false} MissingOfNew(keys: seq<Key>, known: set<Key>)
    requires NoRepeats(keys) && forall k :: k in keys ==> k !in known
    ensures Missing(keys, known) == keys
  {
    if keys != [] {
      var n := |keys| - 1;
      assert keys == keys[..n] + [keys[n]];
      MissingOfNew(keys[..n], known);
    }
  }

  lemma {:induction false} PresentOnce(keys: seq<Key>, stored: set<Key>)
    requires NoRepeats(keys)
    ensures NoRepeats(Present(keys, stored))
  {
    if keys != [] {
      var n := |keys| - 1;
      assert keys == keys[..n] + [keys[n]];
      PresentOnce(keys[..n], stored);
      PresentIsExact(keys[..n], stored);
    }
  }

  /** What comes into memory in an undisturbed call: disk hits, and then the answers of the provider. */
  function Inserted(call: Call, memory: map<Key, Vector>, disk: map<Key, Vector>, answered: bool): seq<Key> {
    FromDisk(call, memory, disk) + if answered then ToFetch(call, memory, disk) else []
  }

  lemma InsertedOnce(call: Call, c: Contents, limit: nat)
    requires WellFormed(c, limit)
    ensures var hits, missing := FromDisk(call, c.vectors, c.disk), ToFetch(call, c.vectors, c.disk);
      && NoRepeats(hits) && NoRepeats(missing) && NoRepeats(c.order + (hits + missing)) && NoRepeats(c.order + hits)
      && (forall k :: k in hits + missing ==> k !in c.vectors) && (forall k :: k in missing ==> k !in hits)
  {
    hide Missing, Present;
    var keys, stored := Keys(call.texts, call.cfg), Stored(call, c.disk).Keys;
    var hits, missing := FromDisk(call, c.vectors, c.disk), ToFetch(call, c.vectors, c.disk);
    MissingIsExact(keys, c.vectors.Keys);
    MissingIsExact(keys, c.vectors.Keys + stored);
    PresentIsExact(Missing(keys, c.vectors.Keys), stored);
    PresentOnce(Missing(keys, c.vectors.Keys), stored);
    hide Keys, Stored;
    Disjoined(hits, missing);
    Disjoined(c.order, hits + missing);
    Disjoined(c.order, hits);
  }

  /** An undisturbed call evicts the oldest, and no more than it must. */
  lemma CallEvictsOldest(call: Call, first: Contents, truth: Key -> Vector, limit: nat, answered: bool)
    requires WellFormed(first, limit)
    ensures var inserted := Inserted(call, first.vectors, first.disk, answered);
      && EvictsOldest(first, Effect(call, first, UNDISTURBED, truth, limit, answered), inserted, limit)
      && NoRepeats(first.order + inserted)
  {
    hide Newest, Missing, Put, FromDisk, ToFetch, EvictsOldest, NoRepeats;
    var hits, missing := FromDisk(call, first.vectors, first.disk), ToFetch(call, first.vectors, first.disk);
    var second := Put(first, hits, truth, limit);
    var last := Effect(call, first, UNDISTURBED, truth, limit, answered);
    InsertedOnce(call, first, limit);
    PutFits(first, hits, truth, limit);
    PutEvictsOldest(first, hits, truth, limit);
    MissingOfNew(hits, first.vectors.Keys);
    if !answered || missing == [] {
      assert Inserted(call, first.vectors, first.disk, answered) == hits;
    } else {
      InMemoryOf(first, second, hits, limit);
      assert forall k :: k in missing ==> k !in second.vectors;
      MissingOfNew(missing, second.vectors.Keys);
      PutFits(second, missing, truth, limit);
      PutEvictsOldest(second, missing, truth, limit);
      NewestTwice(first.order + hits, missing, limit);
      assert first.order + hits + missing == first.order + (hits + missing);
      NewestEvictsOldest(first, last, hits + missing, limit);
    }
  }

  lemma InMemoryOf(before: Contents, after: Contents, inserted: seq<Key>, limit: nat)
    requires EvictsOldest(before, after, inserted, limit) && Ordered(before.order, before.vectors)
    ensures forall k :: k in after.vectors ==> k in before.vectors || k in inserted
  {
  }

  /** With the disk off, only what the provider has answered comes in. */
  lemma OffDisk(call: Call, c: Contents, truth: Key -> Vector, limit: nat)
    requires !call.diskEnabled
    ensures FromDisk(call, c.vectors, c.disk) == []
    ensures ToFetch(call, c.vectors, c.disk) == Missing(Keys(call.texts, call.cfg), c.vectors.Keys)
  {
    var none: map<Key, Vector> := map[];
    assert none.Keys == {} && c.vectors.Keys + none.Keys == c.vectors.Keys;
    PresentNone(Missing(Keys(call.texts, call.cfg), c.vectors.Keys));
  }

  /** What the same call finds when it is made again: everything exactly when nothing of it was evicted. */
  predicate AllFit(call: Call, order: seq<Key>, missing: seq<Key>, limit: nat) {
    && |missing| <= limit
    && forall i :: 0 <= i < |order| && order[i] in Keys(call.texts, call.cfg) ==> |order| - i + |missing| <= limit
  }

  /**
    The same call made again, with the disk off and nothing in between, has nothing to fetch exactly when what it
    fetched first fits into the limit, and so does, with everything younger, each key of it that was there before.
   */
  lemma AgainNothingIff(call: Call, first: Contents, truth: Key -> Vector, limit: nat)
    requires WellFormed(first, limit) && !call.diskEnabled
    ensures var missing := ToFetch(call, first.vectors, first.disk);
      var last := Effect(call, first, UNDISTURBED, truth, limit, true);
      ToFetch(call, last.vectors, last.disk) == [] <==> AllFit(call, first.order, missing, limit)
  {
    hide Missing, Put, EvictsOldest, Effect, Keys, NoRepeats, Ordered, ToFetch, FromDisk;
    var keys, missing := Keys(call.texts, call.cfg), ToFetch(call, first.vectors, first.disk);
    var last := Effect(call, first, UNDISTURBED, truth, limit, true);
    OffDisk(call, first, truth, limit);
    OffDisk(call, last, truth, limit);
    MissingIsExact(keys, first.vectors.Keys);
    MissingNothing(keys, last.vectors.Keys);
    CallEvictsOldest(call, first, truth, limit, true);
    assert Inserted(call, first.vectors, first.disk, true) == missing;
    AllStayIff(keys, first, last, missing, limit);
  }

  // ----- what a call asks for, and what it leaves behind

  /** A key of the call that neither cache can answer. */
  ghost predicate InNeither(call: Call, memory: map<Key, Vector>, disk: map<Key, Vector>, k: Key) {
    k in Keys(call.texts, call.cfg) && k !in memory && !(call.diskEnabled && k in disk)
  }

  lemma FetchedIff(call: Call, memory: map<Key, Vector>, disk: map<Key, Vector>)
    ensures NoRepeats(ToFetch(call, memory, disk))
    ensures forall k :: k in ToFetch(call, memory, disk) <==> InNeither(call, memory, disk, k)
    ensures forall k :: k in FromDisk(call, memory, disk) <==>
              k in Keys(call.texts, call.cfg) && k !in memory && call.diskEnabled && k in disk
  {
    hide Keys, NoRepeats;
    var keys, stored := Keys(call.texts, call.cfg), Stored(call, disk);
    MissingIsExact(keys, memory.Keys + stored.Keys);
    MissingIsExact(keys, memory.Keys);
    PresentIsExact(Missing(keys, memory.Keys), stored.Keys);
    hide Missing, Present;
  }

  /** Each cache keeps the vectors it had; what is new is the disk's in memory, and otherwise the embedding. */
  ghost predicate LeavesAnswers(call: Call, first: Contents, last: Contents, embed: Embedder, answered: bool) {
    && (forall k :: k in last.vectors ==>
          last.vectors[k] == if k in first.vectors then first.vectors[k]
                             else if call.diskEnabled && k in first.disk then first.disk[k]
                             else embed(RequestOf(k.text, call.cfg)))
    && (forall k :: k in last.disk <==>
          k in first.disk
          || (answered && call.diskEnabled && InNeither(call, first.vectors, first.disk, k) && k !in call.unwritten))
    && (forall k :: k in last.disk ==>
          last.disk[k] == if k in first.disk then first.disk[k] else embed(RequestOf(k.text, call.cfg)))
  }

  lemma PutValues(c: Contents, keys: seq<Key>, truth: Key -> Vector, limit: nat)
    requires WellFormed(c, limit)
    ensures var last := Put(c, keys, truth, limit);
      && last.disk == c.disk
      && forall k :: k in last.vectors ==>
           if k in keys then last.vectors[k] == truth(k) else k in c.vectors && last.vectors[k] == c.vectors[k]
  {
    hide Appended, Newest;
    AppendedKeys(c.order, keys);
    NewestWithin(Appended(c.order, keys), limit);
  }

  lemma CallLeavesAnswers(call: Call, first: Contents, embed: Embedder, limit: nat, answered: bool)
    requires WellFormed(first, limit)
    ensures var truth := Answer(first.vectors, Stored(call, first.disk), call.cfg, embed);
      LeavesAnswers(call, first, Effect(call, first, UNDISTURBED, truth, limit, answered), embed, answered)
  {
    hide Put, ToFetch, FromDisk, RequestOf, Keys, NoRepeats;
    var hits, missing := FromDisk(call, first.vectors, first.disk), ToFetch(call, first.vectors, first.disk);
    var truth := Answer(first.vectors, Stored(call, first.disk), call.cfg, embed);
    var second := Put(first, hits, truth, limit);
    FetchedIff(call, first.vectors, first.disk);
    PutFits(first, hits, truth, limit);
    PutValues(first, hits, truth, limit);
    PutValues(second, missing, truth, limit);
    hide WellFormed;
    var last := Effect(call, first, UNDISTURBED, truth, limit, answered);
    if answered && missing != [] {
      assert last == Write(Put(second, missing, truth, limit), Written(call, missing), truth);
      hide Effect;
    } else {
      assert last == second;
      hide Effect;
    }
  }

  function Sum(sizes: seq<nat>): nat {
    if sizes == [] then 0 else sizes[0] + Sum(sizes[1..])
  }

  /** The requests hold all the texts, none is empty or too large, and only the last one may be smaller. */
  lemma {:induction false} RequestsAre(n: nat, size: nat)
    requires size > 0
    ensures var made := Requests(n, size);
      Sum(made) == n && forall i :: 0 <= i < |made| ==> 0 < made[i] <= size && (i < |made| - 1 ==> made[i] == size)
  {
    if n > size {
      RequestsAre(n - size, size);
      assert ([size] + Requests(n - size, size))[1..] == Requests(n - size, size);
    } else if n > 0 {
      assert [n][1..] == [];
    }
  }

  /** What an undisturbed call leaves in memory. */
  lemma Afterwards(call: Call, first: Contents, truth: Key -> Vector, limit: nat)
    requires WellFormed(first, limit)
    ensures forall answered :: EvictsOldest(first, Effect(call, first, UNDISTURBED, truth, limit, answered),
                                            Inserted(call, first.vectors, first.disk, answered), limit)
    ensures var last := Effect(call, first, UNDISTURBED, truth, limit, true);
      var missing := ToFetch(call, first.vectors, first.disk);
      && (|missing| <= limit ==> forall k :: k in missing ==> k in last.vectors)
      && (!call.diskEnabled ==> (ToFetch(call, last.vectors, last.disk) == [] <==> AllFit(call, first.order, missing, limit)))
  {
    hide EvictsOldest, Effect, ToFetch, FromDisk, AllFit, NoRepeats, WellFormed;
    forall answered: bool
      ensures EvictsOldest(first, Effect(call, first, UNDISTURBED, truth, limit, answered),
                           Inserted(call, first.vectors, first.disk, answered), limit)
    {
      CallEvictsOldest(call, first, truth, limit, answered);
    }
    var last := Effect(call, first, UNDISTURBED, truth, limit, true);
    var hits, missing := FromDisk(call, first.vectors, first.disk), ToFetch(call, first.vectors, first.disk);
    CallEvictsOldest(call, first, truth, limit, true);
    LastStay(first, last, hits, missing, limit);
    if !call.diskEnabled {
      AgainNothingIff(call, first, truth, limit);
    }
  }

  /** What comes in last is left if it fits into the limit. */
  lemma LastStay(before: Contents, after: Contents, some: seq<Key>, last: seq<Key>, limit: nat)
    requires EvictsOldest(before, after, some + last, limit) && NoRepeats(before.order + (some + last))
    ensures |last| <= limit ==> forall k :: k in last ==> k in after.vectors
  {
    hide EvictsOldest, NoRepeats;
    var n := |before.order| + |some|;
    forall k | k in last && |last| <= limit
      ensures k in after.vectors
    {
      var j :| 0 <= j < |last| && last[j] == k;
      assert (before.order + (some + last))[n + j] == k;
      StaysIff(before, after, some + last, limit, n + j);
    }
  }

  lemma MissingNothing(keys: seq<Key>, known: set<Key>)
    ensures Missing(keys, known) == [] <==> forall k :: k in keys ==> k in known
  {
    MissingIsExact(keys, known);
    var missing := Missing(keys, known);
    hide Missing;
    assert missing != [] ==> missing[0] in missing;
  }

  lemma AllStayIff(keys: seq<Key>, first: Contents, last: Contents, missing: seq<Key>, limit: nat)
    requires Ordered(first.order, first.vectors) && EvictsOldest(first, last, missing, limit)
    requires NoRepeats(first.order + missing) && forall k :: k in missing <==> k in keys && k !in first.vectors
    ensures (forall k :: k in keys ==> k in last.vectors)
       <==> |missing| <= limit && forall i :: 0 <= i < |first.order| && first.order[i] in keys ==>
                                                |first.order| - i + |missing| <= limit
  {
    hide EvictsOldest, NoRepeats;
    var all := first.order + missing;
    forall p | 0 <= p < |all|
      ensures all[p] in last.vectors <==> |all| - p <= limit
    {
      StaysIff(first, last, missing, limit, p);
    }
    Refetched(keys, first, last, missing, limit);
  }

  /** The position of a key among all decides whether it stays. */
  lemma StaysIff(before: Contents, after: Contents, inserted: seq<Key>, limit: nat, p: nat)
    requires EvictsOldest(before, after, inserted, limit) && NoRepeats(before.order + inserted)
    requires p < |before.order + inserted|
    ensures (before.order + inserted)[p] in after.vectors <==> |before.order + inserted| - p <= limit
  {
    var all, left := before.order + inserted, after.vectors.Keys;
    var later := all[p..];
    if all[p] in left {
      forall q | p <= q < |all|
        ensures all[q] in left
      {
      }
      AtLeastAll(later, left);
    } else {
      forall k | k in left
        ensures k in later[1..]
      {
        var q :| 0 <= q < |all| && all[q] == k;
        assert q > p;
        assert later[1..][q - p - 1] == k;
      }
      Fewer(left, later[1..]);
    }
  }

  lemma {:induction false} AtLeastAll(list: seq<Key>, keys: set<Key>)
    requires NoRepeats(list) && forall k :: k in list ==> k in keys
    ensures |list| <= |keys|
    decreases |list|
  {
    if list != [] {
      var n := |list| - 1;
      assert list == list[..n] + [list[n]];
      AtLeastAll(list[..n], keys - {list[n]});
    }
  }

  lemma Refetched(keys: seq<Key>, first: Contents, last: Contents, missing: seq<Key>, limit: nat)
    requires Ordered(first.order, first.vectors)
    requires forall k :: k in missing <==> k in keys && k !in first.vectors
    requires var all := first.order + missing;
      forall p :: 0 <= p < |all| ==> (all[p] in last.vectors <==> |all| - p <= limit)
    ensures (forall k :: k in keys ==> k in last.vectors)
       <==> |missing| <= limit && forall i :: 0 <= i < |first.order| && first.order[i] in keys ==>
                                                |first.order| - i + |missing| <= limit
  {
    var all, n := first.order + missing, |first.order|;
    if forall k :: k in keys ==> k in last.vectors {
      if missing != [] {
        assert all[n] == missing[0] && missing[0] in missing;
      }
      forall i | 0 <= i < n && first.order[i] in keys
        ensures n - i + |missing| <= limit
      {
        assert all[i] == first.order[i];
      }
    } else {
      var k :| k in keys && k !in last.vectors;
      if k in first.vectors {
        var i :| 0 <= i < n && first.order[i] == k;
        assert all[i] == k;
      } else {
        var j :| 0 <= j < |missing| && missing[j] == k;
        assert all[n + j] == k;
      }
    }
  }

  function RequestsOf(keys: seq<Key>, cfg: Config): seq<Request> {
    seq(|keys|, i requires 0 <= i < |keys| => RequestOf(keys[i].text, cfg))
  }

  /** Every batch of the keys is answered; nothing is asked for hashing. */
  predicate AllAnswered(keys: seq<Key>, size: nat, cfg: Config, provider: seq<Request> -> Option<seq<Row>>)
    requires size > 0
    decreases |keys|
  {
    || cfg.provider == Hashing
    || keys == []
    || if |keys| <= size then provider(RequestsOf(keys, cfg)).Some?
       else provider(RequestsOf(keys[..size], cfg)).Some? && AllAnswered(keys[size..], size, cfg, provider)
  }

  lemma NextAnswered(keys: seq<Key>, size: nat, cfg: Config, provider: seq<Request> -> Option<seq<Row>>)
    requires size > 0 && keys != []
    ensures var first := if |keys| <= size then |keys| else size;
      AllAnswered(keys, size, cfg, provider) <==>
        cfg.provider == Hashing
        || (provider(RequestsOf(keys[..first], cfg)).Some? && AllAnswered(keys[first..], size, cfg, provider))
  {
    if |keys| <= size {
      assert keys[..|keys|] == keys && keys[|keys|..] == [];
    }
  }

  lemma DropOldest(order: seq<Key>, vectors: map<Key, Vector>, base: map<Key, Vector>, keys: seq<Key>,
                   truth: Key -> Vector)
    requires order != [] && Ordered(order, vectors) && Merged(vectors, base, keys, truth)
    ensures Ordered(order[1..], vectors - {order[0]}) && Merged(vectors - {order[0]}, base, keys, truth)
  {
    assert order == [order[0]] + order[1..];
  }

  lemma IsNewest(all: seq<Key>, left: seq<Key>, limit: nat)
    requires |left| <= |all| && left == all[|all| - |left|..]
    requires |left| <= limit && |left| >= if |all| < limit then |all| else limit
    ensures left == Newest(all, limit)
  {
  }

  lemma NoneInserted(c: Contents)
    requires Ordered(c.order, c.vectors)
    ensures c.order + [] == c.order && NoRepeats(c.order + [])
  {
    assert c.order + [] == c.order;
  }

  class Cache {
    const limit: nat
    var order: seq<Key>
    var vectors: map<Key, Vector>
    var disk: map<Key, Vector>

    ghost function Now(): Contents
      reads this
    {
      Contents(order, vectors, disk)
    }

    /** The memory cache is a dictionary within its limit. */
    ghost predicate Valid()
      reads this
    {
      WellFormed(Now(), limit)
    }

    constructor (limit: nat)
      ensures Valid() && this.limit == limit && Now() == EMPTY
    {
      this.limit := limit;
      order, vectors, disk := [], map[], map[];
    }

    /** Store the new vectors, then evict the oldest keys until the limit is met. */
    method Remember(keys: seq<Key>, values: map<Key, Vector>, ghost truth: Key -> Vector)
      requires Valid() && Coherent(values, truth)
      requires forall k :: k in keys ==> k in values
      modifies this`order, this`vectors
      ensures Valid() && Now() == Put(old(Now()), keys, truth, limit)
      ensures EvictsOldest(old(Now()), Now(), Missing(keys, old(vectors).Keys), limit)
    {
      if limit > 0 {
        PutAll(keys, values, truth);
        Evict(old(vectors), keys, truth);
      }
      PutIs(Now(), old(Now()), keys, truth, limit);
      PutEvictsOldest(old(Now()), keys, truth, limit);
    }

    method PutAll(keys: seq<Key>, values: map<Key, Vector>, ghost truth: Key -> Vector)
      requires Ordered(order, vectors) && Coherent(values, truth)
      requires forall k :: k in keys ==> k in values
      modifies this`order, this`vectors
      ensures Ordered(order, vectors) && Merged(vectors, old(vectors), keys, truth)
      ensures order == Appended(old(order), keys)
    {
      hide Merged;
      MergedItself(vectors, truth);
      for i := 0 to |keys|
        invariant Ordered(order, vectors) && Merged(vectors, old(vectors), keys[..i], truth)
        invariant order == Appended(old(order), keys[..i])
      {
        assert keys[..i + 1][..i] == keys[..i] && keys[..i + 1] == keys[..i] + [keys[i]];
        var k := keys[i];
        assert k in keys;
        MergedOne(vectors, old(vectors), keys[..i], k, values[k], truth);
        if k !in vectors {
          order := order + [k];
        }
        vectors := vectors[k := values[k]];
      }
      assert keys[..|keys|] == keys;
    }

    method Evict(ghost base: map<Key, Vector>, ghost keys: seq<Key>, ghost truth: Key -> Vector)
      requires Ordered(order, vectors) && Merged(vectors, base, keys, truth)
      modifies this`order, this`vectors
      ensures Ordered(order, vectors) && Merged(vectors, base, keys, truth)
      ensures order == Newest(old(order), limit)
      ensures EvictsOldest(old(Now()), Now(), [], limit)
    {
      NoneInserted(Now());
      hide Ordered, Merged, EvictsOldest, NoRepeats, Newest;
      while |order| > limit
        invariant Ordered(order, vectors) && Merged(vectors, base, keys, truth)
        invariant |order| <= |old(order)| && order == old(order)[|old(order)| - |order|..]
        invariant |order| >= if |old(order)| < limit then |old(order)| else limit
      {
        DropOldest(order, vectors, base, keys, truth);
        vectors := vectors - {order[0]};
        order := order[1..];
      }
      IsNewest(old(order), order, limit);
      NewestEvictsOldest(old(Now()), Now(), [], limit);
    }

    /** What other calls have left in the caches while this one did not hold the lock. */
    method Resume(gap: Option<Contents>)
      requires Valid() && Fits(gap, limit)
      modifies this
      ensures Valid() && Now() == Left(gap, old(Now()))
    {
      if gap.Some? {
        order, vectors, disk := gap.value.order, gap.value.vectors, gap.value.disk;
      }
    }

    /** First locked region: what the memory cache answers, and the keys it does not. */
    method Lookup(keys: seq<Key>, ghost truth: Key -> Vector) returns (results: seq<Option<Vector>>, missing: seq<Key>)
      requires Coherent(vectors, truth)
      ensures Known(results, keys, vectors.Keys, truth)
      ensures missing == Missing(keys, vectors.Keys)
    {
      results, missing := [], [];
      for i := 0 to |keys|
        invariant Known(results, keys[..i], vectors.Keys, truth)
        invariant missing == Missing(keys[..i], vectors.Keys)
      {
        assert keys[..i + 1][..i] == keys[..i];
        var key := keys[i];
        if key in vectors {
          results := results + [Some(vectors[key])];
        } else {
          results := results + [None];
          if key !in missing {
            missing := missing + [key];
          }
        }
      }
      assert keys[..|keys|] == keys;
    }

    /** The keys that the disk does not have either, and the vectors of those it has. */
    method ReadDisk(missing: seq<Key>, ghost truth: Key -> Vector)
      returns (hits: map<Key, Vector>, hitKeys: seq<Key>, still: seq<Key>)
      requires forall k :: k in missing && k in disk ==> disk[k] == truth(k)
      ensures hits.Keys == (set k | k in missing && k in disk) && Coherent(hits, truth)
      ensures still == Missing(missing, disk.Keys) || !NoRepeats(missing)
      ensures hitKeys == Present(missing, disk.Keys)
    {
      hits, hitKeys, still := map[], [], [];
      for i := 0 to |missing|
        invariant hits.Keys == (set k | k in missing[..i] && k in disk) && Coherent(hits, truth)
        invariant NoRepeats(missing) ==> still == Missing(missing[..i], disk.Keys)
        invariant hitKeys == Present(missing[..i], disk.Keys)
      {
        assert missing[..i + 1] == missing[..i] + [missing[i]] && missing[..i + 1][..i] == missing[..i];
        MissingIsExact(missing[..i], disk.Keys);
        var key := missing[i];
        if key in disk {
          hits := hits[key := disk[key]];
          hitKeys := hitKeys + [key];
        } else {
          still := still + [key];
        }
      }
      assert missing[..|missing|] == missing;
    }

    /** Second region: read from the disk what it has, and remember that in memory. */
    method TakeFromDisk(keys: seq<Key>, results: seq<Option<Vector>>, missing: seq<Key>, relocked: Option<Contents>,
                        ghost known: set<Key>, ghost truth: Key -> Vector)
      returns (results': seq<Option<Vector>>, missing': seq<Key>, ghost known': set<Key>)
      requires Valid() && Fits(relocked, limit)
      requires Pending(results, keys, missing, known, truth) && missing == Missing(keys, known)
      requires forall k :: k in missing && k in disk ==> disk[k] == truth(k)
      modifies this
      ensures Valid() && Pending(results', keys, missing', known', truth)
      ensures missing' == Missing(keys, known + old(disk).Keys)
      ensures Now() == Put(Left(relocked, old(Now())), Present(missing, old(disk).Keys), truth, limit)
    {
      hide Missing, Coherent, Present, Remembered, Put;
      var hits, hitKeys, still := ReadDisk(missing, truth);
      MissingIsExact(keys, known);
      MissingIsExact(missing, disk.Keys);
      PresentIsExact(missing, disk.Keys);
      MissingTwice(keys, known, disk.Keys);
      Resume(relocked);
      Remember(hitKeys, hits, truth);
      results' := Fill(results, keys, known, hits, truth);
      known' := known + hits.Keys;
      missing' := still;
    }

    /** The first two regions. */
    method FindCached(call: Call, embed: Embedder, gaps: Gaps)
      returns (results: seq<Option<Vector>>, missing: seq<Key>, ghost known: set<Key>)
      requires Valid() && GapsFit(gaps, limit)
      modifies this
      ensures var second := Left(gaps.resumed, old(Now()));
        var truth := Answer(old(vectors), Stored(call, second.disk), call.cfg, embed);
        && Valid() && Pending(results, Keys(call.texts, call.cfg), missing, known, truth)
        && missing == ToFetch(call, old(vectors), second.disk)
        && Now() == Put(Left(gaps.relocked, second), FromDisk(call, old(vectors), second.disk), truth, limit)
    {
      hide Missing, Known, TrimSlash, Present, Remembered, Coherent, RequestOf, Put;
      var keys := Keys(call.texts, call.cfg);
      ghost var second := Left(gaps.resumed, Now());
      ghost var memory, stored := vectors, Stored(call, second.disk);
      ghost var truth := Answer(memory, stored, call.cfg, embed);
      MemoryAnswers(memory, stored, call.cfg, embed);
      results, missing := Lookup(keys, truth);
      known := memory.Keys;
      MissingIsExact(keys, known);
      Resume(gaps.resumed);
      if call.diskEnabled {
        DiskAnswers(memory, stored, missing, call.cfg, embed);
        results, missing, known := TakeFromDisk(keys, results, missing, gaps.relocked, known, truth);
      } else {
        Resume(gaps.relocked);
        assert stored.Keys == {} && known == known + stored.Keys;
        PresentNone(missing);
        PutNothing(Now(), truth, limit);
      }
    }

    /**
      The answer for every text in order, or nothing if the provider failed. Each key that neither cache had is
      sent once and in batches. Other calls may hold the lock in each of the gaps.
     */
    method EmbedTexts(call: Call, embed: Embedder, provider: seq<Request> -> Option<seq<Row>>, gaps: Gaps)
      returns (found: Option<seq<Vector>>, sent: seq<Key>, requests: seq<nat>)
      requires Valid() && call.batchSize >= 1 && Honest(provider, embed) && (forall r :: embed(r) != [])
      requires GapsFit(gaps, limit)
      modifies this
      ensures Valid()
      ensures call.texts == [] || !call.cfg.enabled ==>
        found == Some(seq(|call.texts|, _ => [])) && sent == [] && requests == [] && Now() == old(Now())
      ensures call.texts != [] && call.cfg.enabled ==>
        var second := Left(gaps.resumed, old(Now()));
        var truth := Answer(old(vectors), Stored(call, second.disk), call.cfg, embed);
        var missing, size := ToFetch(call, old(vectors), second.disk), PerRequest(call.cfg, call.batchSize);
        && (found.Some? <==> AllAnswered(missing, size, call.cfg, provider))
        && (found.Some? ==> found.value == Truths(Keys(call.texts, call.cfg), truth))
        && sent <= missing && (found.Some? ==> sent == if call.cfg.provider == Hashing then [] else missing)
        && (found.Some? ==> requests == Requests(|sent|, size))
        && Now() == Effect(call, old(Now()), gaps, truth, limit, found.Some?)
      ensures call.texts != [] && call.cfg.enabled && gaps == UNDISTURBED ==>
        LeavesAnswers(call, old(Now()), Now(), embed, found.Some?)
      ensures call.texts != [] && call.cfg.enabled && call.cfg.provider != Hashing && gaps == UNDISTURBED && found.Some? ==>
        NoRepeats(sent) && forall k :: k in sent <==> InNeither(call, old(vectors), old(disk), k)
      ensures call.texts != [] && call.cfg.enabled && gaps == UNDISTURBED ==>
        EvictsOldest(old(Now()), Now(), Inserted(call, old(vectors), old(disk), found.Some?), limit)
      ensures call.texts != [] && call.cfg.enabled && gaps == UNDISTURBED && found.Some? ==>
        var missing := ToFetch(call, old(vectors), old(disk));
        && (|missing| <= limit ==> forall k :: k in missing ==> k in vectors)
        && (!call.diskEnabled ==>
              (ToFetch(call, vectors, disk) == [] <==> AllFit(call, old(order), missing, limit)))
    {
      if |call.texts| == 0 || !call.cfg.enabled {
        return Some(seq(|call.texts|, _ => [])), [], [];
      }
      hide Missing, Honest, Known, TrimSlash, Present, Requests, Remembered, Coherent, Merged, AllAnswered, RequestOf, Answer,
        Truths, Keys, PerRequest, Put, Write, Written, EvictsOldest, AllFit, Inserted, LeavesAnswers, InNeither, NoRepeats;
      ghost var first := Now();
      FetchedIff(call, vectors, disk);
      CallLeavesAnswers(call, first, embed, limit, true);
      CallLeavesAnswers(call, first, embed, limit, false);
      Afterwards(call, first, Answer(vectors, Stored(call, disk), call.cfg, embed), limit);
      var keys := Keys(call.texts, call.cfg);
      ghost var second := Left(gaps.resumed, Now());
      ghost var memory, stored := vectors, Stored(call, second.disk);
      ghost var truth := Answer(memory, stored, call.cfg, embed);
      var results, missing;
      ghost var known;
      results, missing, known := FindCached(call, embed, gaps);
      MissingIsExact(keys, memory.Keys + stored.Keys);
      FreshAnswers(memory, stored, missing, call.cfg, embed);
      found, sent, requests := Fetch(missing, call.cfg, call.batchSize, embed, provider, truth);
      Resume(gaps.returned);
      if found.None? {
        return;
      }
      found := TakeAnswers(keys, results, missing, known, found.value, call, gaps.released, truth);
    }

    /** Third region: the provider's answers go to memory, fill the gaps that are left, and are then written to disk. */
    method TakeAnswers(keys: seq<Key>, results: seq<Option<Vector>>, missing: seq<Key>, ghost known: set<Key>,
                       answers: seq<Vector>, call: Call, released: Option<Contents>, ghost truth: Key -> Vector)
      returns (found: Option<seq<Vector>>)
      requires Valid() && Fits(released, limit) && Pending(results, keys, missing, known, truth)
      requires answers == Truths(missing, truth)
      modifies this
      ensures Valid() && found == Some(Truths(keys, truth))
      ensures Now() == if missing == [] then old(Now())
                       else Write(Left(released, Put(old(Now()), missing, truth, limit)), Written(call, missing), truth)
    {
      hide Known, Remembered, Coherent, Put, Write, Written;
      if |missing| == 0 {
        found := AllKnown(results, keys, known, truth);
        return;
      }
      var vectorByKey := Zip(missing, answers, truth);
      Remember(missing, vectorByKey, truth);
      var filled := Fill(results, keys, known, vectorByKey, truth);
      found := AllKnown(filled, keys, known + vectorByKey.Keys, truth);
      Resume(released);
      WriteMany(call, missing, vectorByKey, truth);
    }

    /** The disk files of the answers, after the lock has been released. */
    method WriteMany(call: Call, ghost missing: seq<Key>, vectorByKey: map<Key, Vector>, ghost truth: Key -> Vector)
      requires Valid() && vectorByKey.Keys == (set k | k in missing) && Coherent(vectorByKey, truth)
      modifies this`disk
      ensures Valid() && Now() == Write(old(Now()), Written(call, missing), truth)
    {
      if call.diskEnabled {
        assert vectorByKey - call.unwritten == map k | k in Written(call, missing) :: truth(k);
        disk := disk + (vectorByKey - call.unwritten);
      } else {
        assert disk == disk + map k | k in Written(call, missing) :: truth(k);
      }
    }
  }

  /**
    One call made twice, with the disk off and nothing in between: the second asks the provider for nothing when
    all fit, and otherwise for something, unless the vectors are computed by hashing.
   */
  method AskTwice(cache: Cache, call: Call, embed: Embedder, provider: seq<Request> -> Option<seq<Row>>)
    returns (found: Option<seq<Vector>>, again: Option<seq<Vector>>, asked: seq<Key>)
    requires cache.Valid() && call.batchSize >= 1 && Honest(provider, embed) && (forall r :: embed(r) != [])
    requires call.texts != [] && call.cfg.enabled && !call.diskEnabled
    modifies cache
    ensures var missing := ToFetch(call, old(cache.vectors), old(cache.disk));
      var fits := AllFit(call, old(cache.order), missing, cache.limit);
      && (found.Some? && fits ==> asked == [])
      && (found.Some? && again.Some? && call.cfg.provider != Hashing && !fits ==> asked != [])
  {
    hide Effect, Answer, ToFetch, AllFit, EvictsOldest, Inserted, AllAnswered, Requests, Keys, Honest;
    var sent, requests;
    found, sent, requests := cache.EmbedTexts(call, embed, provider, UNDISTURBED);
    again, asked, requests := cache.EmbedTexts(call, embed, provider, UNDISTURBED);
  }

  /**
    All keys of a call may fit into the limit and the second call still ask again: with room for two, an old key
    of the call makes way for its new one.
   */
  lemma OldHitIsEvicted(truth: Key -> Vector)
    ensures exists call, first :: ForgetsItsOwn(call, first, truth, 2)
  {
    var call, first, a, b := RoomForTwo();
    hide Keys, WellFormed, ForgetsItsOwn;
    OwnMakesWay(call, first, a, b, truth);
  }

  lemma RoomForTwo() returns (call: Call, first: Contents, a: Key, b: Key)
    ensures WellFormed(first, 2) && !call.diskEnabled && Keys(call.texts, call.cfg) == [a, b]
    ensures |first.order| == 2 && first.order[0] == a && b !in first.vectors
  {
    var cfg := Config(true, OpenAi, "m", 96, true, "", "");
    call := Call(["a", "b"], cfg, 1, false, {});
    var x := KeyOf("x", cfg);
    a, b := KeyOf("a", cfg), KeyOf("b", cfg);
    ThreeKeys(cfg);
    hide KeyOf, Keys;
    first := Contents([a, x], map[a := [], x := []], map[]);
  }

  lemma OwnMakesWay(call: Call, first: Contents, a: Key, b: Key, truth: Key -> Vector)
    requires WellFormed(first, 2) && !call.diskEnabled && Keys(call.texts, call.cfg) == [a, b]
    requires |first.order| == 2 && first.order[0] == a && b !in first.vectors
    ensures ForgetsItsOwn(call, first, truth, 2)
  {
    hide Effect, ToFetch, AllFit, Keys, WellFormed;
    NewOne(call, first, a, b, truth);
    AgainNothingIff(call, first, truth, 2);
  }

  lemma ThreeKeys(cfg: Config)
    ensures var a, b, x := KeyOf("a", cfg), KeyOf("b", cfg), KeyOf("x", cfg);
      a != b && a != x && b != x && Keys(["a", "b"], cfg) == [a, b]
  {
    TextOfKey("a", cfg);
    TextOfKey("b", cfg);
    TextOfKey("x", cfg);
    hide KeyOf;
  }

  ghost predicate ForgetsItsOwn(call: Call, first: Contents, truth: Key -> Vector, limit: nat) {
    var last := Effect(call, first, UNDISTURBED, truth, limit, true);
    && WellFormed(first, limit) && !call.diskEnabled && |Keys(call.texts, call.cfg)| <= limit
    && ToFetch(call, last.vectors, last.disk) != []
  }

  /** The oldest of two keys, asked for together with a new one, does not fit with it. */
  lemma NewOne(call: Call, first: Contents, a: Key, b: Key, truth: Key -> Vector)
    requires !call.diskEnabled && Keys(call.texts, call.cfg) == [a, b]
    requires |first.order| == 2 && first.order[0] == a && b !in first.vectors
    ensures !AllFit(call, first.order, ToFetch(call, first.vectors, first.disk), 2)
  {
    hide Missing, ToFetch, FromDisk;
    OffDisk(call, first, truth, 2);
    MissingIsExact([a, b], first.vectors.Keys);
    assert b in Missing([a, b], first.vectors.Keys);
    assert first.order[0] in [a, b];
  }

  // ----- where the cached vectors come from

  /** For each key the Gemini endpoint that was asked when it was stored; other providers' keys have theirs in them. */
  type Origin = Key -> string

  datatype Origins = Origins(memory: Origin, disk: Origin)

  ghost predicate Traced(vectors: map<Key, Vector>, origin: Origin, embed: Embedder) {
    forall k :: k in vectors ==> vectors[k] == embed(KeyRequest(k, origin(k)))
  }

  ghost predicate TracedTo(c: Contents, o: Origins, embed: Embedder) {
    Traced(c.vectors, o.memory, embed) && Traced(c.disk, o.disk, embed)
  }

  /** The endpoint that a call asks. */
  function Endpoint(cfg: Config): string {
    TrimSlash(cfg.apiBase)
  }

  /** The endpoint behind an answer: that of the cached vector, or the one the call asks. */
  ghost function AnswerOrigin(memory: map<Key, Vector>, stored: map<Key, Vector>, cfg: Config, first: Origins, second: Origins)
    : Origin
  {
    k => if k in memory then first.memory(k) else if k in stored then second.disk(k) else Endpoint(cfg)
  }

  /** Where the contents come from that other calls leave in the gaps. */
  datatype GapOrigins = GapOrigins(resumed: Origins, relocked: Origins, returned: Origins, released: Origins)

  ghost predicate GapTraced(gap: Option<Contents>, o: Origins, embed: Embedder) {
    gap.Some? ==> TracedTo(gap.value, o, embed)
  }

  ghost predicate GapsTraced(gaps: Gaps, o: GapOrigins, embed: Embedder) {
    && GapTraced(gaps.resumed, o.resumed, embed) && GapTraced(gaps.relocked, o.relocked, embed)
    && GapTraced(gaps.returned, o.returned, embed) && GapTraced(gaps.released, o.released, embed)
  }

  function LeftOrigins(gap: Option<Contents>, there: Origins, o: Origins): Origins {
    if gap.Some? then there else o
  }

  function PutOrigins(o: Origins, keys: seq<Key>, answered: Origin): Origins {
    o.(memory := (k: Key) => if k in keys then answered(k) else o.memory(k))
  }

  function WriteOrigins(o: Origins, keys: set<Key>, answered: Origin): Origins {
    o.(disk := (k: Key) => if k in keys then answered(k) else o.disk(k))
  }

  /** What a call does to the origins: a key that it stores comes from where its answer came from. */
  ghost function OriginsAfter(call: Call, first: Contents, gaps: Gaps, o: Origins, there: GapOrigins, answered: bool): Origins
  {
    var second := Left(gaps.resumed, first);
    var o2 := LeftOrigins(gaps.resumed, there.resumed, o);
    var origin := AnswerOrigin(first.vectors, Stored(call, second.disk), call.cfg, o, o2);
    var missing := ToFetch(call, first.vectors, second.disk);
    var o4 := LeftOrigins(gaps.returned, there.returned,
                          PutOrigins(LeftOrigins(gaps.relocked, there.relocked, o2),
                                     FromDisk(call, first.vectors, second.disk), origin));
    if !answered || missing == [] then o4
    else WriteOrigins(LeftOrigins(gaps.released, there.released, PutOrigins(o4, missing, origin)),
                      Written(call, missing), origin)
  }

  lemma PutTraced(c: Contents, o: Origins, keys: seq<Key>, truth: Key -> Vector, answered: Origin, limit: nat, embed: Embedder)
    requires TracedTo(c, o, embed) && Ordered(c.order, c.vectors)
    requires forall k :: k in keys ==> truth(k) == embed(KeyRequest(k, answered(k)))
    ensures TracedTo(Put(c, keys, truth, limit), PutOrigins(o, keys, answered), embed)
  {
    hide KeyRequest, Appended;
    AppendedKeys(c.order, keys);
    forall k | k in Remembered(c.order, keys, limit)
      ensures k in c.order || k in keys
    {
    }
  }

  lemma WriteTraced(c: Contents, o: Origins, keys: set<Key>, truth: Key -> Vector, answered: Origin, embed: Embedder)
    requires TracedTo(c, o, embed) && forall k :: k in keys ==> truth(k) == embed(KeyRequest(k, answered(k)))
    ensures TracedTo(Write(c, keys, truth), WriteOrigins(o, keys, answered), embed)
  {
    hide KeyRequest;
  }

  /** Each answer is the embedding of its text by the endpoint behind it. */
  lemma AnswersTraced(call: Call, first: Contents, second: Contents, o: Origins, o2: Origins, embed: Embedder)
    requires FromSettings(call.cfg) && TracedTo(first, o, embed) && TracedTo(second, o2, embed)
    ensures var answers := Answer(first.vectors, Stored(call, second.disk), call.cfg, embed);
      var origin := AnswerOrigin(first.vectors, Stored(call, second.disk), call.cfg, o, o2);
      forall k :: k in Keys(call.texts, call.cfg) ==> answers(k) == embed(KeyRequest(k, origin(k)))
  {
    hide TrimSlash, KeyRequest, RequestOf, KeyOf;
    var keys := Keys(call.texts, call.cfg);
    var answers := Answer(first.vectors, Stored(call, second.disk), call.cfg, embed);
    var origin := AnswerOrigin(first.vectors, Stored(call, second.disk), call.cfg, o, o2);
    forall k | k in keys
      ensures answers(k) == embed(KeyRequest(k, origin(k)))
    {
      var i :| 0 <= i < |keys| && keys[i] == k;
      KeyRequestIsRequest(call.texts[i], call.cfg, Endpoint(call.cfg));
      TextOfKey(call.texts[i], call.cfg);
    }
  }

  lemma TextOfKey(text: string, cfg: Config)
    ensures KeyOf(text, cfg).text == text
  {
  }

  /** Every vector a call leaves in the caches comes from where the origins say. */
  lemma CallIsTraced(call: Call, first: Contents, gaps: Gaps, limit: nat, answered: bool, o: Origins, there: GapOrigins,
                     embed: Embedder)
    requires FromSettings(call.cfg) && WellFormed(first, limit) && GapsFit(gaps, limit)
    requires TracedTo(first, o, embed) && GapsTraced(gaps, there, embed)
    ensures var truth := Answer(first.vectors, Stored(call, Left(gaps.resumed, first).disk), call.cfg, embed);
      TracedTo(Effect(call, first, gaps, truth, limit, answered), OriginsAfter(call, first, gaps, o, there, answered), embed)
  {
    hide TracedTo, KeyRequest, RequestOf, Put, Write, PutOrigins, WriteOrigins, Keys, Answer, AnswerOrigin, ToFetch, FromDisk,
      FromSettings, Ordered;
    var second, o2 := Left(gaps.resumed, first), LeftOrigins(gaps.resumed, there.resumed, o);
    var truth := Answer(first.vectors, Stored(call, second.disk), call.cfg, embed);
    var origin := AnswerOrigin(first.vectors, Stored(call, second.disk), call.cfg, o, o2);
    AnswersTraced(call, first, second, o, o2, embed);
    FetchedAreKeys(call, first.vectors, second.disk);
    var hits, missing := FromDisk(call, first.vectors, second.disk), ToFetch(call, first.vectors, second.disk);
    var third, o3 := Left(gaps.relocked, second), LeftOrigins(gaps.relocked, there.relocked, o2);
    PutTraced(third, o3, hits, truth, origin, limit, embed);
    PutFits(third, hits, truth, limit);
    var fourth := Left(gaps.returned, Put(third, hits, truth, limit));
    var o4 := LeftOrigins(gaps.returned, there.returned, PutOrigins(o3, hits, origin));
    PutTraced(fourth, o4, missing, truth, origin, limit, embed);
    var fifth := Left(gaps.released, Put(fourth, missing, truth, limit));
    var o5 := LeftOrigins(gaps.released, there.released, PutOrigins(o4, missing, origin));
    WriteTraced(fifth, o5, Written(call, missing), truth, origin, embed);
  }

  lemma FetchedAreKeys(call: Call, memory: map<Key, Vector>, disk: map<Key, Vector>)
    ensures forall k :: k in ToFetch(call, memory, disk) ==> k in Keys(call.texts, call.cfg)
    ensures forall k :: k in FromDisk(call, memory, disk) ==> k in Keys(call.texts, call.cfg)
  {
    hide Missing, Present;
    var keys := Keys(call.texts, call.cfg);
    MissingIsExact(keys, memory.Keys);
    MissingIsExact(keys, memory.Keys + Stored(call, disk).Keys);
    PresentIsExact(Missing(keys, memory.Keys), Stored(call, disk).Keys);
  }

  lemma {:induction false} AppendedOnce(order: seq<Key>, keys: seq<Key>)
    requires NoRepeats(order)
    ensures NoRepeats(Appended(order, keys))
  {
    if keys != [] {
      AppendedOnce(order, keys[..|keys| - 1]);
    }
  }

  lemma PutFits(c: Contents, keys: seq<Key>, truth: Key -> Vector, limit: nat)
    requires WellFormed(c, limit)
    ensures WellFormed(Put(c, keys, truth, limit), limit)
  {
    hide Appended;
    AppendedOnce(c.order, keys);
  }

  /** Different requests have different embeddings. */
  ghost predicate Injective(embed: Embedder) {
    forall r, q :: embed(r) == embed(q) ==> r == q
  }

  /**
    When a call answers as if there were no caches: a text gets its embedding if its provider is not Gemini, or
    its key was in neither cache, or it was stored when the endpoint now asked was asked; and if embeddings
    differ, only then.
   */
  lemma PlainIff(call: Call, first: Contents, second: Contents, o: Origins, o2: Origins, embed: Embedder, i: nat)
    requires FromSettings(call.cfg) && TracedTo(first, o, embed) && TracedTo(second, o2, embed) && i < |call.texts|
    ensures var answers := Truths(Keys(call.texts, call.cfg), Answer(first.vectors, Stored(call, second.disk), call.cfg, embed));
      var origin := AnswerOrigin(first.vectors, Stored(call, second.disk), call.cfg, o, o2);
      var plain := call.cfg.provider == Gemini ==> origin(KeyOf(call.texts[i], call.cfg)) == Endpoint(call.cfg);
      && (plain ==> answers[i] == embed(RequestOf(call.texts[i], call.cfg)))
      && (Injective(embed) && !plain ==> answers[i] != embed(RequestOf(call.texts[i], call.cfg)))
  {
    hide TrimSlash, KeyRequest, RequestOf, KeyOf, Answer, AnswerOrigin, FromSettings;
    var text := call.texts[i];
    var key := KeyOf(text, call.cfg);
    var origin := AnswerOrigin(first.vectors, Stored(call, second.disk), call.cfg, o, o2);
    assert Keys(call.texts, call.cfg)[i] == key && key in Keys(call.texts, call.cfg);
    AnswersTraced(call, first, second, o, o2, embed);
    KeyRequestIsRequest(text, call.cfg, origin(key));
  }

  /** The vector is what one of these Gemini endpoints answers for the key; other providers' keys name theirs. */
  ghost predicate AskedOf(v: Vector, key: Key, endpoints: set<string>, embed: Embedder) {
    if key.provider == Gemini then exists e :: e in endpoints && v == embed(KeyRequest(key, e))
    else v == embed(KeyRequest(key, ""))
  }

  ghost predicate AllAskedOf(vectors: map<Key, Vector>, endpoints: set<string>, embed: Embedder) {
    forall k :: k in vectors ==> AskedOf(vectors[k], k, endpoints, embed)
  }

  /** The caches are right for all providers but Gemini, and for Gemini up to these endpoints. */
  ghost predicate Grounded(c: Contents, endpoints: set<string>, embed: Embedder) {
    AllAskedOf(c.vectors, endpoints, embed) && AllAskedOf(c.disk, endpoints, embed)
  }

  ghost predicate GapsGrounded(gaps: Gaps, endpoints: set<string>, embed: Embedder) {
    && (gaps.resumed.Some? ==> Grounded(gaps.resumed.value, endpoints, embed))
    && (gaps.relocked.Some? ==> Grounded(gaps.relocked.value, endpoints, embed))
    && (gaps.returned.Some? ==> Grounded(gaps.returned.value, endpoints, embed))
    && (gaps.released.Some? ==> Grounded(gaps.released.value, endpoints, embed))
  }

  /** The configuration asks one of the endpoints. */
  predicate Within(cfg: Config, endpoints: set<string>) {
    FromSettings(cfg) && (cfg.provider == Gemini ==> Endpoint(cfg) in endpoints)
  }

  lemma PutGrounded(c: Contents, keys: seq<Key>, truth: Key -> Vector, limit: nat, endpoints: set<string>, embed: Embedder)
    requires WellFormed(c, limit) && Grounded(c, endpoints, embed)
    requires forall k :: k in keys ==> AskedOf(truth(k), k, endpoints, embed)
    ensures WellFormed(Put(c, keys, truth, limit), limit) && Grounded(Put(c, keys, truth, limit), endpoints, embed)
  {
    hide AskedOf, Appended;
    AppendedKeys(c.order, keys);
    PutFits(c, keys, truth, limit);
  }

  lemma WriteGrounded(c: Contents, keys: set<Key>, truth: Key -> Vector, endpoints: set<string>, embed: Embedder)
    requires Grounded(c, endpoints, embed) && forall k :: k in keys ==> AskedOf(truth(k), k, endpoints, embed)
    ensures Grounded(Write(c, keys, truth), endpoints, embed)
  {
    hide AskedOf;
  }

  lemma AnswersGrounded(call: Call, first: Contents, second: Contents, endpoints: set<string>, embed: Embedder)
    requires Within(call.cfg, endpoints) && Grounded(first, endpoints, embed) && Grounded(second, endpoints, embed)
    ensures var answers := Answer(first.vectors, Stored(call, second.disk), call.cfg, embed);
      forall k :: k in Keys(call.texts, call.cfg) ==> AskedOf(answers(k), k, endpoints, embed)
  {
    hide TrimSlash, KeyRequest, RequestOf;
    var keys := Keys(call.texts, call.cfg);
    var answers := Answer(first.vectors, Stored(call, second.disk), call.cfg, embed);
    forall k | k in keys
      ensures AskedOf(answers(k), k, endpoints, embed)
    {
      var i :| 0 <= i < |keys| && keys[i] == k;
      KeyRequestIsRequest(call.texts[i], call.cfg, if call.cfg.provider == Gemini then Endpoint(call.cfg) else "");
      assert k.text == call.texts[i] && k.provider == call.cfg.provider;
    }
  }

  /**
    The caches stay right under every call: for all providers but Gemini without further ado, and for Gemini
    up to the endpoints in use. So are the answers of the call.
   */
  lemma CallStaysGrounded(call: Call, first: Contents, gaps: Gaps, limit: nat, answered: bool, endpoints: set<string>,
                          embed: Embedder)
    requires Within(call.cfg, endpoints) && WellFormed(first, limit) && GapsFit(gaps, limit)
    requires Grounded(first, endpoints, embed) && GapsGrounded(gaps, endpoints, embed)
    ensures var truth := Answer(first.vectors, Stored(call, Left(gaps.resumed, first).disk), call.cfg, embed);
      && Grounded(Effect(call, first, gaps, truth, limit, answered), endpoints, embed)
      && forall k :: k in Keys(call.texts, call.cfg) ==> AskedOf(truth(k), k, endpoints, embed)
  {
    hide Grounded, AskedOf, Put, Write, Keys, Answer, ToFetch, FromDisk, Within, Ordered;
    var second := Left(gaps.resumed, first);
    var truth := Answer(first.vectors, Stored(call, second.disk), call.cfg, embed);
    AnswersGrounded(call, first, second, endpoints, embed);
    FetchedAreKeys(call, first.vectors, second.disk);
    var hits, missing := FromDisk(call, first.vectors, second.disk), ToFetch(call, first.vectors, second.disk);
    var third := Left(gaps.relocked, second);
    PutGrounded(third, hits, truth, limit, endpoints, embed);
    var fourth := Left(gaps.returned, Put(third, hits, truth, limit));
    PutGrounded(fourth, missing, truth, limit, endpoints, embed);
    var fifth := Left(gaps.released, Put(fourth, missing, truth, limit));
    WriteGrounded(fifth, Written(call, missing), truth, endpoints, embed);
  }

  /** A vector that can come from no other endpoint is the embedding that is asked for. */
  lemma OnlyEndpoint(v: Vector, text: string, cfg: Config, endpoints: set<string>, embed: Embedder)
    requires Within(cfg, endpoints) && AskedOf(v, KeyOf(text, cfg), endpoints, embed)
    requires cfg.provider == Gemini ==> endpoints == {Endpoint(cfg)}
    ensures v == embed(RequestOf(text, cfg))
  {
    KeyRequestIsRequest(text, cfg, if cfg.provider == Gemini then Endpoint(cfg) else "");
    hide TrimSlash;
  }

  /**
    The caches cannot be noticed: a call gets the embeddings of its texts, whatever other calls do before and in
    between, if its provider is not Gemini, or if it is and only this endpoint of Gemini is in use.
   */
  lemma CallIsTransparent(call: Call, first: Contents, gaps: Gaps, limit: nat, endpoints: set<string>, embed: Embedder)
    requires Within(call.cfg, endpoints) && WellFormed(first, limit) && GapsFit(gaps, limit)
    requires Grounded(first, endpoints, embed) && GapsGrounded(gaps, endpoints, embed)
    requires call.cfg.provider == Gemini ==> endpoints == {Endpoint(call.cfg)}
    ensures var second := Left(gaps.resumed, first);
      Truths(Keys(call.texts, call.cfg), Answer(first.vectors, Stored(call, second.disk), call.cfg, embed))
      == TextEmbeddings(call.texts, call.cfg, embed)
  {
    hide TrimSlash, Grounded, AskedOf, RequestOf, KeyOf, Answer, Endpoint, Within;
    CallStaysGrounded(call, first, gaps, limit, true, endpoints, embed);
    var truth := Answer(first.vectors, Stored(call, Left(gaps.resumed, first).disk), call.cfg, embed);
    var keys := Keys(call.texts, call.cfg);
    forall i | 0 <= i < |keys|
      ensures truth(keys[i]) == embed(RequestOf(call.texts[i], call.cfg))
    {
      assert keys[i] in keys;
      OnlyEndpoint(truth(keys[i]), call.texts[i], call.cfg, endpoints, embed);
    }
  }

  lemma NothingRemembered(order: seq<Key>, limit: nat)
    requires |order| <= limit
    ensures Remembered(order, [], limit) == order
  {
  }

  lemma MemoryAnswers(memory: map<Key, Vector>, stored: map<Key, Vector>, cfg: Config, embed: Embedder)
    ensures Coherent(memory, Answer(memory, stored, cfg, embed))
  {
  }

  lemma DiskAnswers(memory: map<Key, Vector>, stored: map<Key, Vector>, missing: seq<Key>, cfg: Config, embed: Embedder)
    requires forall k :: k in missing ==> k !in memory
    ensures forall k :: k in missing && k in stored ==> stored[k] == Answer(memory, stored, cfg, embed)(k)
  {
  }

  lemma FreshAnswers(memory: map<Key, Vector>, stored: map<Key, Vector>, missing: seq<Key>, cfg: Config, embed: Embedder)
    requires forall k :: k in missing ==> k !in memory && k !in stored
    ensures forall k :: k in missing ==> Answer(memory, stored, cfg, embed)(k) == embed(RequestOf(k.text, cfg))
  {
  }

  lemma {:induction false} PresentNone(keys: seq<Key>)
    ensures Present(keys, {}) == []
  {
    if keys != [] {
      PresentNone(keys[..|keys| - 1]);
    }
  }

  lemma MergedOne(vectors: map<Key, Vector>, base: map<Key, Vector>, keys: seq<Key>, k: Key, value: Vector, truth: Key -> Vector)
    requires Merged(vectors, base, keys, truth) && value == truth(k)
    ensures Merged(vectors[k := value], base, keys + [k], truth)
  {
  }

  lemma MergedItself(vectors: map<Key, Vector>, truth: Key -> Vector)
    ensures Merged(vectors, vectors, [], truth)
  {
  }

  /** Every key is known, with its answer in place, or still to be fetched. */
  ghost predicate Pending(results: seq<Option<Vector>>, keys: seq<Key>, missing: seq<Key>, known: set<Key>,
                          truth: Key -> Vector) {
    && Known(results, keys, known, truth)
    && (forall k :: k in keys ==> k in known || k in missing)
    && (forall k :: k in missing ==> k in keys)
  }

  function Keys(texts: seq<string>, cfg: Config): seq<Key> {
    seq(|texts|, i requires 0 <= i < |texts| => KeyOf(texts[i], cfg))
  }

  ghost function TextEmbeddings(texts: seq<string>, cfg: Config, embed: Embedder): seq<Vector> {
    seq(|texts|, i requires 0 <= i < |texts| => embed(RequestOf(texts[i], cfg)))
  }

  ghost function Truths(keys: seq<Key>, truth: Key -> Vector): seq<Vector> {
    seq(|keys|, i requires 0 <= i < |keys| => truth(keys[i]))
  }

  lemma BatchTruths(batch: seq<Key>, cfg: Config, embed: Embedder, truth: Key -> Vector)
    requires forall k :: k in batch ==> truth(k) == embed(RequestOf(k.text, cfg))
    ensures Embeddings(RequestsOf(batch, cfg), embed) == Truths(batch, truth)
  {
    hide RequestOf;
    forall i | 0 <= i < |batch|
      ensures Embeddings(RequestsOf(batch, cfg), embed)[i] == truth(batch[i])
    {
      assert batch[i] in batch;
    }
  }

  /** One request for one batch, its rows put in order. */
  method AskBatch(batch: seq<Key>, cfg: Config, embed: Embedder, provider: seq<Request> -> Option<seq<Row>>,
                  ghost truth: Key -> Vector)
    returns (answer: Option<seq<Vector>>)
    requires batch != [] && Honest(provider, embed) && (forall r :: embed(r) != [])
    requires forall k :: k in batch ==> truth(k) == embed(RequestOf(k.text, cfg))
    ensures answer.Some? ==> answer.value == Truths(batch, truth)
    ensures answer.Some? <==> provider(RequestsOf(batch, cfg)).Some?
  {
    hide RequestOf;
    var requests := RequestsOf(batch, cfg);
    ghost var want := Embeddings(requests, embed);
    BatchTruths(batch, cfg, embed, truth);
    var rows := provider(requests);
    if rows.None? {
      return None;
    }
    assert Answers(rows.value, want);
    answer := OrderedVectors(rows.value, |batch|);
  }

  /** The state of the batch loop: the batches up to `start` have been answered. */
  ghost predicate Fetching(missing: seq<Key>, start: nat, size: nat, cfg: Config, provider: seq<Request> -> Option<seq<Row>>,
                           found: seq<Vector>, sent: seq<Key>, requests: seq<nat>, truth: Key -> Vector)
    requires size > 0
  {
    && start <= |missing| && sent == missing[..start] && found == Truths(missing[..start], truth)
    && requests + Requests(|missing| - start, size) == Requests(|missing|, size)
    && (AllAnswered(missing[start..], size, cfg, provider) <==> AllAnswered(missing, size, cfg, provider))
  }

  lemma FetchNext(missing: seq<Key>, start: nat, stop: nat, size: nat, cfg: Config,
                  provider: seq<Request> -> Option<seq<Row>>, found: seq<Vector>, sent: seq<Key>, requests: seq<nat>,
                  truth: Key -> Vector)
    requires size > 0 && cfg.provider != Hashing && start < |missing|
    requires Fetching(missing, start, size, cfg, provider, found, sent, requests, truth)
    requires stop == if start + size < |missing| then start + size else |missing|
    ensures var batch := missing[start..stop];
      if provider(RequestsOf(batch, cfg)).Some?
      then Fetching(missing, stop, size, cfg, provider, found + Truths(batch, truth), sent + batch, requests + [|batch|],
                    truth)
      else !AllAnswered(missing, size, cfg, provider)
    ensures sent + missing[start..stop] <= missing
  {
    hide Requests, AllAnswered, RequestsOf;
    var batch := missing[start..stop];
    assert missing[..stop] == missing[..start] + batch && missing == missing[..stop] + missing[stop..];
    NextAnswered(missing[start..], size, cfg, provider);
    assert missing[start..][..stop - start] == batch && missing[start..][stop - start..] == missing[stop..];
    NextRequest(requests, |missing| - start, size);
  }

  lemma FetchStarts(missing: seq<Key>, size: nat, cfg: Config, provider: seq<Request> -> Option<seq<Row>>,
                    truth: Key -> Vector)
    requires size > 0
    ensures Fetching(missing, 0, size, cfg, provider, [], [], [], truth)
  {
    assert missing[0..] == missing;
  }

  lemma FetchDone(missing: seq<Key>, size: nat, cfg: Config, provider: seq<Request> -> Option<seq<Row>>,
                  found: seq<Vector>, sent: seq<Key>, requests: seq<nat>, truth: Key -> Vector)
    requires size > 0 && Fetching(missing, |missing|, size, cfg, provider, found, sent, requests, truth)
    ensures AllAnswered(missing, size, cfg, provider) && found == Truths(missing, truth) && sent == missing
    ensures requests == Requests(|missing|, size)
  {
    assert missing[..|missing|] == missing && missing[|missing|..] == [];
    NoMoreRequests(size);
  }

  /** Ask the provider for the missing keys, batch by batch; it may fail at any batch. Hashing asks nobody. */
  method Fetch(missing: seq<Key>, cfg: Config, batchSize: nat, embed: Embedder,
               provider: seq<Request> -> Option<seq<Row>>, ghost truth: Key -> Vector)
    returns (found: Option<seq<Vector>>, sent: seq<Key>, requests: seq<nat>)
    requires batchSize >= 1 && Honest(provider, embed) && (forall r :: embed(r) != [])
    requires forall k :: k in missing ==> truth(k) == embed(RequestOf(k.text, cfg))
    ensures found.Some? <==> AllAnswered(missing, PerRequest(cfg, batchSize), cfg, provider)
    ensures found.Some? ==> found.value == Truths(missing, truth)
    ensures sent <= missing && (found.Some? ==> sent == if cfg.provider == Hashing then [] else missing)
    ensures found.Some? ==> requests == Requests(|sent|, PerRequest(cfg, batchSize))
  {
    var size := PerRequest(cfg, batchSize);
    sent, requests := [], [];
    if cfg.provider == Hashing {
      found := Some(seq(|missing|, i requires 0 <= i < |missing| => embed(RequestOf(missing[i].text, cfg))));
      assert forall i :: 0 <= i < |missing| ==> missing[i] in missing;
      assert found.value == Truths(missing, truth);
      return;
    }
    hide RequestOf, Honest, AllAnswered, Fetching, Truths, Requests;
    var vectorsFound: seq<Vector> := [];
    var start: nat := 0;
    FetchStarts(missing, size, cfg, provider, truth);
    while start < |missing|
      invariant start <= |missing| && sent <= missing
      invariant Fetching(missing, start, size, cfg, provider, vectorsFound, sent, requests, truth)
    {
      var stop := if start + size < |missing| then start + size else |missing|;
      var batch := missing[start..stop];
      FetchNext(missing, start, stop, size, cfg, provider, vectorsFound, sent, requests, truth);
      sent, requests := sent + batch, requests + [|batch|];
      var answer := AskBatch(batch, cfg, embed, provider, truth);
      if answer.None? {
        return None, sent, requests;
      }
      vectorsFound := vectorsFound + answer.value;
      start := stop;
    }
    FetchDone(missing, size, cfg, provider, vectorsFound, sent, requests, truth);
    return Some(vectorsFound), sent, requests;
  }

  /** Fill the gaps whose keys have now been found. */
  method Fill(results: seq<Option<Vector>>, keys: seq<Key>, ghost known: set<Key>, values: map<Key, Vector>,
              ghost truth: Key -> Vector)
    returns (filled: seq<Option<Vector>>)
    requires Known(results, keys, known, truth) && Coherent(values, truth)
    ensures Known(filled, keys, known + values.Keys, truth)
  {
    filled := seq(|results|, i requires 0 <= i < |results| && |results| == |keys| =>
      if results[i].None? && keys[i] in values then Some(values[keys[i]]) else results[i]);
  }

  method Zip(keys: seq<Key>, found: seq<Vector>, ghost truth: Key -> Vector) returns (values: map<Key, Vector>)
    requires found == Truths(keys, truth)
    ensures values.Keys == (set k | k in keys) && Coherent(values, truth)
  {
    values := map[];
    for i := 0 to |keys|
      invariant values.Keys == (set k | k in keys[..i]) && Coherent(values, truth)
    {
      assert keys[..i + 1] == keys[..i] + [keys[i]];
      values := values[keys[i] := found[i]];
    }
    assert keys[..|keys|] == keys;
  }

  /** Leaving out what memory knows and then what the disk knows is leaving out both. */
  lemma {:induction false} MissingTwice(keys: seq<Key>, a: set<Key>, b: set<Key>)
    ensures Missing(Missing(keys, a), b) == Missing(keys, a + b)
  {
    if keys != [] {
      var init, last := keys[..|keys| - 1], keys[|keys| - 1];
      MissingTwice(init, a, b);
      MissingIsExact(init, a);
      MissingIsExact(init, a + b);
      var m := Missing(init, a);
      assert (m + [last])[..|m + [last]| - 1] == m;
    }
  }

  method AllKnown(results: seq<Option<Vector>>, keys: seq<Key>, ghost known: set<Key>, ghost truth: Key -> Vector)
    returns (found: Option<seq<Vector>>)
    requires Known(results, keys, known, truth) && forall k :: k in keys ==> k in known
    ensures found == Some(Truths(keys, truth))
  {
    assert forall i :: 0 <= i < |keys| ==> keys[i] in keys && results[i] == Some(truth(keys[i]));
    var rows := seq(|results|, i requires 0 <= i < |results| => if results[i].Some? then results[i].value else []);
    assert rows == Truths(keys, truth);
    found := Some(rows);
  }
}
