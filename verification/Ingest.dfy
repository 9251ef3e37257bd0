/**
  Chunk ingest over WebSocket connections that share one claim store and one blob store. A chunk
  is ingested in two steps, claim the key and then store the bytes, and connections of several
  processes interleave between them. The counters a connection reports are proved to be exactly
  what its earlier acknowledgements say, and the acknowledged chunks to be stored, as far as they are.
 */
module Ingest {
  import opened Options

  type ConnId = nat
  type Audio = seq<bv8>

  datatype Chunk = Chunk(meeting: string, seqNo: nat, audio: Audio, key: string)

  /** An absent or empty text field is "", audio that does not decode is None. */
  datatype Event =
    | BadJson
    | UnknownType
    | Ping(meeting: string)
    | Resume(meeting: string)
    | AudioChunk(meeting: string, seqNo: int, audio: Option<Audio>, key: string)

  datatype ErrorCode = BadJsonCode | BadEvent | NoMeetingId | BadSeq | BadAudio | StorageError

  datatype Reply =
    | Ack(meeting: string, seqNo: nat, duplicate: bool, lastAcked: int, accepted: nat)
    | Pong(meeting: string, lastAcked: int, accepted: nat)
    | Resumed(meeting: string, lastAcked: int, accepted: nat)
    | Error(code: ErrorCode)

  /** One connection; `pending` is a chunk whose key is claimed and whose bytes are not stored yet. */
  datatype Conn = Conn(meeting: string, accepted: nat, lastAcked: int, pending: Option<Chunk>, replies: seq<Reply>)

  const NEW_CONN := Conn("", 0, -1, None, [])

  /** Blobs are named by meeting and sequence number. */
  datatype State = State(claims: set<string>, blobs: map<(string, nat), Audio>, conns: map<ConnId, Conn>)

  const NOTHING := State({}, map[], map[])

  datatype Action =
    | Open(id: ConnId)
    | Answer(id: ConnId, event: Event)
    | Claim(id: ConnId, chunk: Chunk)
    | Put(id: ConnId)
    | PutFails(id: ConnId)
    | Abandon(id: ConnId)
    | Expire(claim: string)

  function ClaimKey(meeting: string, key: string): string {
    "idem:audio_chunk_ws:" + meeting + ":" + key
  }

  function ClaimOf(c: Chunk): string {
    ClaimKey(c.meeting, c.key)
  }

  /** The events that carry a chunk to ingest. */
  predicate Carries(e: Event) {
    e.AudioChunk? && e.meeting != "" && e.seqNo >= 0 && e.audio.Some?
  }

  function Max(a: int, b: int): int {
    if a < b then b else a
  }

  /** The reply to an event that carries no chunk. */
  function Replied(conn: Conn, e: Event): (Conn, Reply)
    requires !Carries(e)
  {
    match e
    case BadJson => (conn, Error(BadJsonCode))
    case UnknownType => (conn, Error(BadEvent))
    case Ping(m) => (conn, Pong(if m != "" then m else conn.meeting, conn.lastAcked, conn.accepted))
    case Resume(m) =>
      var meeting := if m != "" then m else conn.meeting;
      (conn.(meeting := meeting), Resumed(meeting, conn.lastAcked, conn.accepted))
    case AudioChunk(m, s, _, _) =>
      (conn.(meeting := m), Error(if m == "" then NoMeetingId else if s < 0 then BadSeq else BadAudio))
  }

  function Say(conn: Conn, reply: Reply): Conn {
    conn.(replies := conn.replies + [reply])
  }

  function AckNew(conn: Conn, c: Chunk): Conn {
    var accepted, last := conn.accepted + 1, Max(conn.lastAcked, c.seqNo);
    Say(conn.(pending := None, accepted := accepted, lastAcked := last), Ack(c.meeting, c.seqNo, false, last, accepted))
  }

  function AckDuplicate(conn: Conn, c: Chunk): Conn {
    Say(conn, Ack(c.meeting, c.seqNo, true, Max(conn.lastAcked, c.seqNo), conn.accepted))
  }

  predicate Enabled(s: State, a: Action) {
    match a
    case Open(id) => id !in s.conns
    case Answer(id, e) => id in s.conns && s.conns[id].pending.None? && !Carries(e)
    case Claim(id, c) => id in s.conns && s.conns[id].pending.None? && c.meeting != ""
    case Put(id) => id in s.conns && s.conns[id].pending.Some?
    case PutFails(id) => id in s.conns && s.conns[id].pending.Some?
    case Abandon(id) => id in s.conns && s.conns[id].pending.Some?
    case Expire(_) => true
  }

  function With(s: State, id: ConnId, conn: Conn): State {
    s.(conns := s.conns[id := conn])
  }

  function Apply(s: State, a: Action): State
    requires Enabled(s, a)
  {
    match a
    case Open(id) => With(s, id, NEW_CONN)
    case Answer(id, e) =>
      var (conn, reply) := Replied(s.conns[id], e);
      With(s, id, Say(conn, reply))
    case Claim(id, c) =>
      var conn := s.conns[id].(meeting := c.meeting);
      if ClaimOf(c) in s.claims then With(s, id, AckDuplicate(conn, c))
      else With(s.(claims := s.claims + {ClaimOf(c)}), id, conn.(pending := Some(c)))
    case Put(id) =>
      var c := s.conns[id].pending.value;
      With(s.(blobs := s.blobs[(c.meeting, c.seqNo) := c.audio]), id, AckNew(s.conns[id], c))
    case PutFails(id) => With(s, id, Say(s.conns[id].(pending := None), Error(StorageError)))
    case Abandon(id) => With(s, id, s.conns[id].(pending := None))
    case Expire(claim) => s.(claims := s.claims - {claim})
  }

  /** `s'` is reached from `s` by these actions of all connections, in this interleaving. */
  ghost predicate Run(s: State, actions: seq<Action>, s': State)
    decreases |actions|
  {
    if actions == [] then s == s'
    else Enabled(s, actions[0]) && Run(Apply(s, actions[0]), actions[1..], s')
  }

  // ----- what the replies of a connection say

  predicate Accepts(r: Reply) {
    r.Ack? && !r.duplicate
  }

  /** How many chunks these replies accept. */
  function AcceptedCount(replies: seq<Reply>): nat {
    if replies == [] then 0
    else AcceptedCount(replies[..|replies| - 1]) + if Accepts(replies[|replies| - 1]) then 1 else 0
  }

  /** The largest sequence number among the chunks these replies accept, -1 when there is none. */
  function LargestAccepted(replies: seq<Reply>): int {
    if replies == [] then -1
    else
      var r, before := replies[|replies| - 1], LargestAccepted(replies[..|replies| - 1]);
      if Accepts(r) then Max(before, r.seqNo) else before
  }

  lemma {:induction false} LargestIsMaximum(replies: seq<Reply>)
    ensures forall i :: 0 <= i < |replies| && Accepts(replies[i]) ==> replies[i].seqNo <= LargestAccepted(replies)
    ensures LargestAccepted(replies) == -1 || exists i :: 0 <= i < |replies| && Accepts(replies[i])
                                                    && replies[i].seqNo == LargestAccepted(replies)
    ensures LargestAccepted(replies) == -1 <==> AcceptedCount(replies) == 0
  {
    if replies != [] {
      var n := |replies| - 1;
      var front := replies[..n];
      LargestIsMaximum(front);
      assert forall i :: 0 <= i < n ==> replies[i] == front[i];
      if LargestAccepted(front) != -1 {
        var i :| 0 <= i < |front| && Accepts(front[i]) && front[i].seqNo == LargestAccepted(front);
        assert replies[i] == front[i];
      }
      assert Accepts(replies[n]) ==> 0 <= replies[n].seqNo;
    }
  }

  ghost function AcceptedAt(replies: seq<Reply>): set<int> {
    set i | 0 <= i < |replies| && Accepts(replies[i])
  }

  lemma {:induction false} CountIsCount(replies: seq<Reply>)
    ensures AcceptedCount(replies) == |AcceptedAt(replies)|
  {
    if replies != [] {
      var n := |replies| - 1;
      CountIsCount(replies[..n]);
      assert AcceptedAt(replies) == AcceptedAt(replies[..n]) + if Accepts(replies[n]) then {n} else {};
    }
  }

  /** What a reply reports, given the replies before it. */
  ghost predicate Reports(before: seq<Reply>, r: Reply) {
    match r
    case Ack(_, s, duplicate, last, accepted) =>
      && last == Max(LargestAccepted(before), s)
      && accepted == AcceptedCount(before) + if duplicate then 0 else 1
    case Pong(_, last, accepted) => last == LargestAccepted(before) && accepted == AcceptedCount(before)
    case Resumed(_, last, accepted) => last == LargestAccepted(before) && accepted == AcceptedCount(before)
    case Error(_) => true
  }

  ghost predicate Truthful(replies: seq<Reply>) {
    forall i :: 0 <= i < |replies| ==> Reports(replies[..i], replies[i])
  }

  lemma TruthfulAppend(replies: seq<Reply>, r: Reply)
    requires Truthful(replies) && Reports(replies, r)
    ensures Truthful(replies + [r])
    ensures AcceptedCount(replies + [r]) == AcceptedCount(replies) + if Accepts(r) then 1 else 0
    ensures LargestAccepted(replies + [r]) ==
      if Accepts(r) then Max(LargestAccepted(replies), r.seqNo) else LargestAccepted(replies)
  {
    hide AcceptedCount, LargestAccepted, Reports;
    AppendCounts(replies, r);
    var all := replies + [r];
    forall i | 0 <= i < |all|
      ensures Reports(all[..i], all[i])
    {
      assert all[..i] == if i < |replies| then replies[..i] else replies;
    }
  }

  lemma AppendCounts(replies: seq<Reply>, r: Reply)
    ensures AcceptedCount(replies + [r]) == AcceptedCount(replies) + if Accepts(r) then 1 else 0
    ensures LargestAccepted(replies + [r]) ==
      if Accepts(r) then Max(LargestAccepted(replies), r.seqNo) else LargestAccepted(replies)
  {
    assert (replies + [r])[..|replies|] == replies;
  }

  // ----- counters, over every run

  /** The stored counters are what the replies given so far say, and every reply was truthful when given. */
  ghost predicate Counted(conn: Conn) {
    && conn.accepted == AcceptedCount(conn.replies)
    && conn.lastAcked == LargestAccepted(conn.replies)
    && Truthful(conn.replies)
  }

  ghost predicate AllCounted(s: State) {
    forall id :: id in s.conns ==> Counted(s.conns[id])
  }

  /** What one action does to one connection: nothing, or a change of fields that are not counted, and at most one reply. */
  lemma StepCounted(s: State, a: Action, id: ConnId)
    requires Enabled(s, a) && id in s.conns && Counted(s.conns[id])
    ensures id in Apply(s, a).conns && Counted(Apply(s, a).conns[id])
    ensures s.conns[id].replies <= Apply(s, a).conns[id].replies
    ensures s.conns[id].accepted <= Apply(s, a).conns[id].accepted
    ensures s.conns[id].lastAcked <= Apply(s, a).conns[id].lastAcked
  {
    hide AcceptedCount, LargestAccepted, Truthful, Carries;
    var conn, conn' := s.conns[id], Apply(s, a).conns[id];
    if conn'.replies != conn.replies {
      TruthfulAppend(conn.replies, conn'.replies[|conn.replies|]);
    }
  }

  lemma StepAllCounted(s: State, a: Action)
    requires Enabled(s, a) && AllCounted(s)
    ensures AllCounted(Apply(s, a))
  {
    hide Counted;
    forall id | id in Apply(s, a).conns
      ensures Counted(Apply(s, a).conns[id])
    {
      if id in s.conns {
        StepCounted(s, a, id);
      } else {
        NewCounted();
      }
    }
  }

  lemma NewCounted()
    ensures Counted(NEW_CONN)
  {
  }

  lemma {:induction false} RunAllCounted(s: State, actions: seq<Action>, s': State)
    requires Run(s, actions, s') && AllCounted(s)
    ensures AllCounted(s')
    decreases |actions|
  {
    hide AllCounted, Apply;
    if actions != [] {
      StepAllCounted(s, actions[0]);
      RunAllCounted(Apply(s, actions[0]), actions[1..], s');
    }
  }

  /**
    In every run: the accepted count is the number of acknowledgements that are not duplicates,
    the last acknowledged number is the largest among them, and each reply said so when it was given.
   */
  lemma CountersAreExact(actions: seq<Action>, s: State, id: ConnId)
    requires Run(NOTHING, actions, s) && id in s.conns
    ensures s.conns[id].accepted == AcceptedCount(s.conns[id].replies) == |AcceptedAt(s.conns[id].replies)|
    ensures s.conns[id].lastAcked == LargestAccepted(s.conns[id].replies)
    ensures forall i :: 0 <= i < |s.conns[id].replies| ==> Reports(s.conns[id].replies[..i], s.conns[id].replies[i])
  {
    RunAllCounted(NOTHING, actions, s);
    CountIsCount(s.conns[id].replies);
  }

  /** The counters of a connection never fall, and no reply is taken back. */
  lemma {:induction false} CountersNeverFall(s: State, actions: seq<Action>, s': State, id: ConnId)
    requires Run(s, actions, s') && AllCounted(s) && id in s.conns
    ensures id in s'.conns && s.conns[id].replies <= s'.conns[id].replies
    ensures s.conns[id].accepted <= s'.conns[id].accepted && s.conns[id].lastAcked <= s'.conns[id].lastAcked
    decreases |actions|
  {
    hide Counted, Apply;
    if actions != [] {
      StepAllCounted(s, actions[0]);
      StepCounted(s, actions[0], id);
      CountersNeverFall(Apply(s, actions[0]), actions[1..], s', id);
    }
  }

  // ----- which chunks are stored

  /** This connection was told that it is the first to bring the chunk. */
  ghost predicate Accepted(conn: Conn, blob: (string, nat)) {
    exists i :: 0 <= i < |conn.replies| && Accepts(conn.replies[i]) && (conn.replies[i].meeting, conn.replies[i].seqNo) == blob
  }

  ghost predicate SomeoneAccepted(s: State, blob: (string, nat)) {
    exists id :: id in s.conns && Accepted(s.conns[id], blob)
  }

  ghost predicate StoredAreAccepted(s: State) {
    forall blob :: blob in s.blobs <==> SomeoneAccepted(s, blob)
  }

  lemma AcceptedBySay(conn: Conn, conn': Conn, blob: (string, nat))
    requires conn.replies <= conn'.replies && |conn'.replies| <= |conn.replies| + 1
    ensures var n := |conn.replies|;
      Accepted(conn', blob) <==> (
        Accepted(conn, blob)
        || (|conn'.replies| > n && Accepts(conn'.replies[n]) && (conn'.replies[n].meeting, conn'.replies[n].seqNo) == blob))
  {
    if Accepted(conn, blob) {
      var i :| 0 <= i < |conn.replies| && Accepts(conn.replies[i]) && (conn.replies[i].meeting, conn.replies[i].seqNo) == blob;
      assert conn'.replies[i] == conn.replies[i];
    }
    if Accepted(conn', blob) {
      var i :| 0 <= i < |conn'.replies| && Accepts(conn'.replies[i]) && (conn'.replies[i].meeting, conn'.replies[i].seqNo) == blob;
      assert i < |conn.replies| ==> conn'.replies[i] == conn.replies[i];
    }
  }

  /** One action of connection `id` accepts a chunk exactly by storing it. */
  lemma StepAccepts(s: State, a: Action, id: ConnId, blob: (string, nat))
    requires Enabled(s, a) && id in Apply(s, a).conns
    ensures Accepted(Apply(s, a).conns[id], blob) <==>
      (id in s.conns && Accepted(s.conns[id], blob))
      || (a == Put(id) && blob == (s.conns[id].pending.value.meeting, s.conns[id].pending.value.seqNo))
  {
    hide Carries, Accepted;
    if id in s.conns {
      AcceptedBySay(s.conns[id], Apply(s, a).conns[id], blob);
    } else {
      AcceptedBySay(NEW_CONN, NEW_CONN, blob);
      NothingAccepted(blob);
    }
  }

  lemma NothingAccepted(blob: (string, nat))
    ensures !Accepted(NEW_CONN, blob)
  {
  }

  lemma StepStoredAreAccepted(s: State, a: Action)
    requires Enabled(s, a) && StoredAreAccepted(s)
    ensures StoredAreAccepted(Apply(s, a))
  {
    hide Accepted;
    var s' := Apply(s, a);
    forall blob
      ensures blob in s'.blobs <==> SomeoneAccepted(s', blob)
    {
      forall id | id in s'.conns
        ensures Accepted(s'.conns[id], blob) <==>
          (id in s.conns && Accepted(s.conns[id], blob))
          || (a == Put(id) && blob == (s.conns[id].pending.value.meeting, s.conns[id].pending.value.seqNo))
      {
        StepAccepts(s, a, id, blob);
      }
      assert forall id :: id in s.conns ==> id in s'.conns;
    }
  }

  lemma {:induction false} RunStoredAreAccepted(s: State, actions: seq<Action>, s': State)
    requires Run(s, actions, s') && StoredAreAccepted(s)
    ensures StoredAreAccepted(s')
    decreases |actions|
  {
    hide StoredAreAccepted, Apply;
    if actions != [] {
      StepStoredAreAccepted(s, actions[0]);
      RunStoredAreAccepted(Apply(s, actions[0]), actions[1..], s');
    }
  }

  /** In every run a chunk is stored exactly when some connection was given an acknowledgement of it that is not a duplicate. */
  lemma StoredIffAccepted(actions: seq<Action>, s: State, meeting: string, seqNo: nat)
    requires Run(NOTHING, actions, s)
    ensures (meeting, seqNo) in s.blobs <==>
      exists id :: id in s.conns && Accepted(s.conns[id], (meeting, seqNo))
  {
    RunStoredAreAccepted(NOTHING, actions, s);
    var blob := (meeting, seqNo);
    assert blob in s.blobs <==> SomeoneAccepted(s, blob);
  }

  // ----- duplicates

  /** A key stands for one chunk, and a chunk has one content. */
  ghost predicate Honest(c: Chunk, intended: string -> (string, nat), content: ((string, nat)) -> Audio) {
    intended(ClaimOf(c)) == (c.meeting, c.seqNo) && c.audio == content((c.meeting, c.seqNo))
  }

  ghost predicate NonePending(s: State) {
    forall id :: id in s.conns ==> s.conns[id].pending.None?
  }

  /** No put fails or is abandoned, and no connection claims while another is between its claim and its put. */
  ghost predicate Calm(s: State, a: Action, intended: string -> (string, nat), content: ((string, nat)) -> Audio) {
    !a.PutFails? && !a.Abandon? && (a.Claim? ==> NonePending(s) && Honest(a.chunk, intended, content))
  }

  ghost predicate CalmRun(s: State, actions: seq<Action>, s': State, intended: string -> (string, nat),
                          content: ((string, nat)) -> Audio)
    decreases |actions|
  {
    if actions == [] then s == s'
    else Enabled(s, actions[0]) && Calm(s, actions[0], intended, content)
         && CalmRun(Apply(s, actions[0]), actions[1..], s', intended, content)
  }

  ghost predicate Pending(s: State, id: ConnId, claim: string) {
    id in s.conns && s.conns[id].pending.Some? && ClaimOf(s.conns[id].pending.value) == claim
  }

  ghost predicate AckStored(s: State, r: Reply) {
    r.Ack? ==> (r.meeting, r.seqNo) in s.blobs
  }

  ghost predicate CalmInv(s: State, intended: string -> (string, nat), content: ((string, nat)) -> Audio) {
    && (forall blob :: blob in s.blobs ==> s.blobs[blob] == content(blob))
    && (forall id :: id in s.conns && s.conns[id].pending.Some? ==> Honest(s.conns[id].pending.value, intended, content))
    && (forall claim :: claim in s.claims ==> intended(claim) in s.blobs || exists id :: Pending(s, id, claim))
    && (forall id, i :: id in s.conns && 0 <= i < |s.conns[id].replies| ==> AckStored(s, s.conns[id].replies[i]))
  }

  lemma PendingKept(s: State, a: Action, claim: string, id: ConnId)
    requires Enabled(s, a) && Pending(s, id, claim) && !a.PutFails? && !a.Abandon?
    ensures a == Put(id) || Pending(Apply(s, a), id, claim)
  {
  }

  lemma CalmClaims(s: State, a: Action, intended: string -> (string, nat), content: ((string, nat)) -> Audio)
    requires Enabled(s, a) && Calm(s, a, intended, content) && CalmInv(s, intended, content)
    ensures forall claim :: claim in Apply(s, a).claims ==>
              intended(claim) in Apply(s, a).blobs || exists id :: Pending(Apply(s, a), id, claim)
  {
    hide Carries, AckStored;
    var s' := Apply(s, a);
    forall claim | claim in s'.claims && intended(claim) !in s'.blobs
      ensures exists id :: Pending(s', id, claim)
    {
      if claim in s.claims {
        assert s.blobs.Keys <= s'.blobs.Keys;
        var id :| Pending(s, id, claim);
        PendingKept(s, a, claim, id);
      } else {
        assert Pending(s', a.id, claim);
      }
    }
  }

  lemma CalmReplies(s: State, a: Action, intended: string -> (string, nat), content: ((string, nat)) -> Audio)
    requires Enabled(s, a) && Calm(s, a, intended, content) && CalmInv(s, intended, content)
    ensures var s' := Apply(s, a);
      forall id, i :: id in s'.conns && 0 <= i < |s'.conns[id].replies| ==> AckStored(s', s'.conns[id].replies[i])
  {
    hide Carries;
    var s' := Apply(s, a);
    forall id, i | id in s'.conns && 0 <= i < |s'.conns[id].replies|
      ensures AckStored(s', s'.conns[id].replies[i])
    {
      if id in s.conns && i < |s.conns[id].replies| {
        assert s'.conns[id].replies[i] == s.conns[id].replies[i];
        assert AckStored(s, s.conns[id].replies[i]);
      } else {
        assert a.Claim? && ClaimOf(a.chunk) in s.claims ==> intended(ClaimOf(a.chunk)) in s.blobs;
      }
    }
  }

  lemma StepCalm(s: State, a: Action, intended: string -> (string, nat), content: ((string, nat)) -> Audio)
    requires Enabled(s, a) && Calm(s, a, intended, content) && CalmInv(s, intended, content)
    ensures CalmInv(Apply(s, a), intended, content)
  {
    CalmClaims(s, a, intended, content);
    CalmReplies(s, a, intended, content);
    hide Carries, Pending, AckStored;
  }

  lemma {:induction false} RunCalm(s: State, actions: seq<Action>, s': State, intended: string -> (string, nat),
                                   content: ((string, nat)) -> Audio)
    requires CalmRun(s, actions, s', intended, content) && CalmInv(s, intended, content)
    ensures CalmInv(s', intended, content)
    decreases |actions|
  {
    hide CalmInv, Apply, Calm;
    if actions != [] {
      StepCalm(s, actions[0], intended, content);
      RunCalm(Apply(s, actions[0]), actions[1..], s', intended, content);
    }
  }

  /**
    Every acknowledged chunk is stored with its own bytes, duplicates included, in every run in which
    ingest is sequential, no put fails, and a key stands for one chunk. Claims may expire at any time.
   */
  lemma CalmAcksAreStored(actions: seq<Action>, s: State, intended: string -> (string, nat),
                          content: ((string, nat)) -> Audio, id: ConnId, i: nat)
    requires CalmRun(NOTHING, actions, s, intended, content)
    requires id in s.conns && i < |s.conns[id].replies| && s.conns[id].replies[i].Ack?
    ensures var blob := (s.conns[id].replies[i].meeting, s.conns[id].replies[i].seqNo);
      blob in s.blobs && s.blobs[blob] == content(blob)
  {
    RunCalm(NOTHING, actions, s, intended, content);
    assert AckStored(s, s.conns[id].replies[i]);
  }

  // ----- where acknowledged does not mean stored

  function LastReply(conn: Conn): Option<Reply> {
    if conn.replies == [] then None else Some(conn.replies[|conn.replies| - 1])
  }

  /**
    A put that fails leaves its claim behind: the retry of the chunk, on any connection, is acknowledged
    as a duplicate and stores nothing, exactly while the claim is alive.
   */
  lemma RetryAfterFailure(s: State, id: ConnId, retry: ConnId)
    requires Enabled(s, PutFails(id))
    requires Enabled(Apply(s, PutFails(id)), Claim(retry, s.conns[id].pending.value))
    ensures var c, failed := s.conns[id].pending.value, Apply(s, PutFails(id));
      var s' := Apply(failed, Claim(retry, c));
      && s'.blobs == s.blobs
      && if ClaimOf(c) in s.claims
         then Extends(failed.conns[retry], s'.conns[retry]) && DuplicateAck(s'.conns[retry], c)
         else s'.conns[retry].pending == Some(c) && !Extends(failed.conns[retry], s'.conns[retry])
  {
    hide Carries;
  }

  predicate Extends(conn: Conn, conn': Conn) {
    |conn'.replies| == |conn.replies| + 1 && conn'.replies[..|conn.replies|] == conn.replies
  }

  predicate DuplicateAck(conn: Conn, c: Chunk) {
    var r := LastReply(conn);
    r.Some? && r.value.Ack? && r.value.duplicate && r.value.meeting == c.meeting && r.value.seqNo == c.seqNo
  }

  ghost predicate FalselyAcked(s: State, id: ConnId) {
    && id in s.conns && LastReply(s.conns[id]).Some? && LastReply(s.conns[id]).value.Ack?
    && (LastReply(s.conns[id]).value.meeting, LastReply(s.conns[id]).value.seqNo) !in s.blobs
  }

  /** Reached from the empty store: a put fails and its retry is acknowledged without being stored. */
  lemma FailedPutIsAcked()
    ensures exists actions, s :: Run(NOTHING, actions, s) && FalselyAcked(s, 0)
  {
    hide Carries, ClaimKey;
    var c := Chunk("m", 5, [], "k");
    var s1 := Apply(NOTHING, Open(0));
    var s2 := Apply(s1, Claim(0, c));
    var s3 := Apply(s2, PutFails(0));
    var s4 := Apply(s3, Claim(0, c));
    RunOne(s3, Claim(0, c));
    RunTwo(s1, Claim(0, c), PutFails(0));
    RunOne(NOTHING, Open(0));
    RunAppend(NOTHING, [Open(0)], s1, [Claim(0, c), PutFails(0)], s3);
    RunAppend(NOTHING, [Open(0)] + [Claim(0, c), PutFails(0)], s3, [Claim(0, c)], s4);
    assert FalselyAcked(s4, 0);
  }

  /** Reached without any failure: a second connection is told "duplicate" before the first has stored the chunk. */
  lemma ClaimedBeforeStored()
    ensures exists actions, s :: Run(NOTHING, actions, s) && FalselyAcked(s, 1) && 0 in s.conns && s.conns[0].pending.Some?
  {
    hide Carries, ClaimKey;
    var c := Chunk("m", 5, [], "k");
    var s1 := Apply(NOTHING, Open(0));
    var s2 := Apply(s1, Open(1));
    var s3 := Apply(s2, Claim(0, c));
    var s4 := Apply(s3, Claim(1, c));
    RunTwo(NOTHING, Open(0), Open(1));
    RunTwo(s2, Claim(0, c), Claim(1, c));
    RunAppend(NOTHING, [Open(0), Open(1)], s2, [Claim(0, c), Claim(1, c)], s4);
    assert FalselyAcked(s4, 1);
  }

  /** A duplicate reports a number that is not kept: the next ping reports less exactly when the chunk's number is larger. */
  lemma DuplicateOverstates(s: State, id: ConnId, c: Chunk, meeting: string)
    requires Enabled(s, Claim(id, c)) && ClaimOf(c) in s.claims
    ensures var acked := Apply(s, Claim(id, c));
      var pinged := Apply(acked, Answer(id, Ping(meeting)));
      && LastReply(acked.conns[id]).Some? && LastReply(acked.conns[id]).value.Ack?
      && LastReply(pinged.conns[id]).Some? && LastReply(pinged.conns[id]).value.Pong?
      && (LastReply(pinged.conns[id]).value.lastAcked < LastReply(acked.conns[id]).value.lastAcked <==>
          c.seqNo > s.conns[id].lastAcked)
  {
    hide ClaimKey;
  }

  lemma RunOne(s: State, a: Action)
    requires Enabled(s, a)
    ensures Run(s, [a], Apply(s, a))
  {
    var s' := Apply(s, a);
    assert [a][1..] == [];
    assert Run(s', [], s');
  }

  lemma RunTwo(s: State, a: Action, b: Action)
    requires Enabled(s, a) && Enabled(Apply(s, a), b)
    ensures Run(s, [a, b], Apply(Apply(s, a), b))
  {
    RunOne(s, a);
    RunOne(Apply(s, a), b);
    assert [a, b][1..] == [b];
  }

  lemma {:induction false} RunAppend(s: State, first: seq<Action>, t: State, second: seq<Action>, u: State)
    requires Run(s, first, t) && Run(t, second, u)
    ensures Run(s, first + second, u)
    decreases |first|
  {
    hide Apply;
    if first == [] {
      assert first + second == second;
    } else {
      RunAppend(Apply(s, first[0]), first[1..], t, second, u);
      assert (first + second)[1..] == first[1..] + second;
    }
  }

  // ----- claim keys

  /**
    The parts of a claim key are joined by colons that they may contain. Two requests share a claim
    exactly when they agree, or when the longer meeting id continues the shorter one after a colon.
   */
  lemma SharedClaimIff(m: string, k: string, m': string, k': string)
    requires |m| <= |m'|
    ensures ClaimKey(m, k) == ClaimKey(m', k') <==>
      (m == m' && k == k') || (exists t :: m' == m + ":" + t && k == t + ":" + k')
  {
    var prefix := "idem:audio_chunk_ws:";
    var left, right := ClaimKey(m, k), ClaimKey(m', k');
    if left == right {
      var n := |prefix|;
      assert left[n..] == m + ":" + k && right[n..] == m' + ":" + k';
      var all := m + ":" + k;
      assert all[..|m|] == m && all[|m|] == ':' && all[|m| + 1..] == k;
      assert all[..|m'|] == m' && all[|m'|] == ':' && all[|m'| + 1..] == k';
      if |m| < |m'| {
        var t := m'[|m| + 1..];
        assert m' == m + ":" + t;
        assert t == all[|m| + 1..|m'|];
        assert k == t + ":" + k';
      }
    }
    forall t | m' == m + ":" + t && k == t + ":" + k'
      ensures left == right
    {
      assert m + ":" + (t + ":" + k') == (m + ":" + t) + ":" + k';
    }
  }

  // ----- the endpoint

  datatype IngestResult = Stored | Duplicate | Failed

  /** The stores that every connection of the process shares. */
  class Storage {
    var claims: set<string>
    var blobs: map<(string, nat), Audio>

    constructor ()
      ensures claims == {} && blobs == map[]
    {
      claims, blobs := {}, map[];
    }

    /** `ingest_audio_chunk_bytes` without transcription: claim the key, store the bytes, in this order. */
    method IngestChunk(c: Chunk, putWorks: bool) returns (result: IngestResult)
      modifies this
      ensures claims == old(claims) + {ClaimOf(c)}
      ensures result == if ClaimOf(c) in old(claims) then Duplicate else if putWorks then Stored else Failed
      ensures blobs == if result == Stored then old(blobs)[(c.meeting, c.seqNo) := c.audio] else old(blobs)
    {
      if ClaimOf(c) in claims {
        return Duplicate;
      }
      claims := claims + {ClaimOf(c)};
      if !putWorks {
        return Failed;
      }
      blobs := blobs[(c.meeting, c.seqNo) := c.audio];
      return Stored;
    }
  }

  /** What arrives: an event, the key made up for it if it has none, and how the put and the reply would go. */
  datatype Arrival = Arrival(event: Event, freshKey: string, putWorks: bool, sent: bool)

  function ChunkOf(a: Arrival): Chunk
    requires Carries(a.event)
  {
    Chunk(a.event.meeting, a.event.seqNo, a.event.audio.value, if a.event.key != "" then a.event.key else a.freshKey)
  }

  /** The connection after a chunk has been offered and answered. */
  function Told(conn: Conn, c: Chunk, duplicate: bool, putWorks: bool): Conn {
    var at := conn.(meeting := c.meeting);
    if duplicate then AckDuplicate(at, c) else if putWorks then AckNew(at, c) else Say(at, Error(StorageError))
  }

  /** The whole system after connection `id` has taken one arrival and no other connection has moved. */
  function Turn(s: State, id: ConnId, a: Arrival): State
    requires id in s.conns
  {
    var conn := s.conns[id];
    if Carries(a.event) then
      var c := ChunkOf(a);
      var duplicate := ClaimOf(c) in s.claims;
      State(s.claims + {ClaimOf(c)}, if !duplicate && a.putWorks then s.blobs[(c.meeting, c.seqNo) := c.audio] else s.blobs,
            s.conns[id := Told(conn, c, duplicate, a.putWorks)])
    else
      var (conn', reply) := Replied(conn, a.event);
      With(s, id, Say(conn', reply))
  }

  /** The arrivals taken in order. */
  function Turns(s: State, id: ConnId, arrivals: seq<Arrival>): (s': State)
    requires id in s.conns
    ensures id in s'.conns
    decreases |arrivals|
  {
    if arrivals == [] then s else Turn(Turns(s, id, arrivals[..|arrivals| - 1]), id, arrivals[|arrivals| - 1])
  }

  /** A turn of the receive loop is one or two actions of its connection. */
  lemma TurnIsRun(s: State, id: ConnId, a: Arrival) returns (actions: seq<Action>)
    requires id in s.conns && s.conns[id].pending.None?
    ensures Run(s, actions, Turn(s, id, a)) && Turn(s, id, a).conns[id].pending.None?
    ensures actions == if !Carries(a.event) then [Answer(id, a.event)]
                       else if ClaimOf(ChunkOf(a)) in s.claims then [Claim(id, ChunkOf(a))]
                       else [Claim(id, ChunkOf(a)), if a.putWorks then Put(id) else PutFails(id)]
  {
    hide ClaimKey;
    var s' := Turn(s, id, a);
    if !Carries(a.event) {
      actions := [Answer(id, a.event)];
      RunOne(s, Answer(id, a.event));
    } else {
      var c := ChunkOf(a);
      if ClaimOf(c) in s.claims {
        actions := [Claim(id, c)];
        RunOne(s, Claim(id, c));
        assert s.claims + {ClaimOf(c)} == s.claims;
      } else {
        var second := if a.putWorks then Put(id) else PutFails(id);
        actions := [Claim(id, c), second];
        RunTwo(s, Claim(id, c), second);
        assert Apply(Apply(s, Claim(id, c)), second).conns == s'.conns;
      }
    }
  }

  /** The receive loop is a run of the machine, so all that holds over every run holds of it. */
  lemma {:induction false} TurnsAreRun(s: State, id: ConnId, arrivals: seq<Arrival>) returns (actions: seq<Action>)
    requires id in s.conns && s.conns[id].pending.None?
    ensures Run(s, actions, Turns(s, id, arrivals)) && Turns(s, id, arrivals).conns[id].pending.None?
  {
    hide Turn, Apply;
    if arrivals == [] {
      actions := [];
    } else {
      var n := |arrivals| - 1;
      var before := Turns(s, id, arrivals[..n]);
      actions := TurnsAreRun(s, id, arrivals[..n]);
      var more := TurnIsRun(before, id, arrivals[n]);
      RunAppend(s, actions, before, more, Turn(before, id, arrivals[n]));
      actions := actions + more;
    }
  }

  /** The meeting this event names: a chunk always, with or without a name, a resume only with one. */
  function Names(e: Event): Option<string> {
    match e
    case AudioChunk(m, _, _, _) => Some(m)
    case Resume(m) => if m != "" then Some(m) else None
    case _ => None
  }

  /** The last meeting named in the arrivals, `first` if there is none. */
  ghost function LastNamed(first: string, arrivals: seq<Arrival>): string {
    if arrivals == [] then first
    else
      var last := Names(arrivals[|arrivals| - 1].event);
      if last.Some? then last.value else LastNamed(first, arrivals[..|arrivals| - 1])
  }

  /** The reply is one to this arrival; `at` is the meeting named last before it. */
  predicate Answers(a: Arrival, at: string, r: Reply) {
    match a.event
    case BadJson => r == Error(BadJsonCode)
    case UnknownType => r == Error(BadEvent)
    case Ping(m) => r.Pong? && r.meeting == (if m != "" then m else at)
    case Resume(m) => r.Resumed? && r.meeting == (if m != "" then m else at)
    case AudioChunk(m, n, audio, _) =>
      if m == "" then r == Error(NoMeetingId)
      else if n < 0 then r == Error(BadSeq)
      else if audio.None? then r == Error(BadAudio)
      else if r.Ack? then r.meeting == m && r.seqNo == n && (!r.duplicate ==> a.putWorks)
      else r == Error(StorageError) && !a.putWorks
  }

  lemma TurnAnswers(s: State, id: ConnId, a: Arrival)
    requires id in s.conns
    ensures var conn, conn' := s.conns[id], Turn(s, id, a).conns[id];
      && |conn'.replies| == |conn.replies| + 1 && conn.replies <= conn'.replies
      && Answers(a, conn.meeting, conn'.replies[|conn.replies|])
      && conn'.meeting == (if Names(a.event).Some? then Names(a.event).value else conn.meeting)
  {
    hide ClaimKey;
  }

  /** From `conn` to `conn'` every arrival got exactly one reply, in order, to its event and about the meeting it is on. */
  ghost predicate EachAnswered(conn: Conn, arrivals: seq<Arrival>, conn': Conn) {
    && |conn'.replies| == |conn.replies| + |arrivals| && conn.replies <= conn'.replies
    && conn'.meeting == LastNamed(conn.meeting, arrivals)
    && forall k :: 0 <= k < |arrivals| ==>
         Answers(arrivals[k], LastNamed(conn.meeting, arrivals[..k]), conn'.replies[|conn.replies| + k])
  }

  lemma OneMoreAnswered(conn: Conn, arrivals: seq<Arrival>, mid: Conn, a: Arrival, conn': Conn)
    requires EachAnswered(conn, arrivals, mid)
    requires |conn'.replies| == |mid.replies| + 1 && mid.replies <= conn'.replies
    requires Answers(a, mid.meeting, conn'.replies[|mid.replies|])
    requires conn'.meeting == if Names(a.event).Some? then Names(a.event).value else mid.meeting
    ensures EachAnswered(conn, arrivals + [a], conn')
  {
    hide Answers, Names;
    var all, n := arrivals + [a], |arrivals|;
    assert all[..n] == arrivals;
    hide LastNamed;
    forall k | 0 <= k < |all|
      ensures Answers(all[k], LastNamed(conn.meeting, all[..k]), conn'.replies[|conn.replies| + k])
    {
      if k < n {
        assert arrivals[..k] == all[..k] && arrivals[k] == all[k];
        assert conn'.replies[|conn.replies| + k] == mid.replies[|conn.replies| + k];
      }
    }
  }

  /** The receive loop answers everything that arrives. */
  lemma {:induction false} LoopAnswers(s: State, id: ConnId, arrivals: seq<Arrival>)
    requires id in s.conns
    ensures EachAnswered(s.conns[id], arrivals, Turns(s, id, arrivals).conns[id])
    decreases |arrivals|
  {
    hide Turn, Answers, Names;
    if arrivals != [] {
      var n := |arrivals| - 1;
      LoopAnswers(s, id, arrivals[..n]);
      var before, after := Turns(s, id, arrivals[..n]), Turns(s, id, arrivals);
      TurnAnswers(before, id, arrivals[n]);
      hide EachAnswered;
      assert arrivals == arrivals[..n] + [arrivals[n]];
      OneMoreAnswered(s.conns[id], arrivals[..n], before.conns[id], arrivals[n], after.conns[id]);
    }
  }

  class Connection {
    var meeting: string
    var acceptedChunks: nat
    var lastAckedSeq: int
    var replies: seq<Reply>

    ghost function Now(): Conn
      reads this
    {
      Conn(meeting, acceptedChunks, lastAckedSeq, None, replies)
    }

    /** The whole system, with the other connections as they are. */
    ghost function World(storage: Storage, others: map<ConnId, Conn>, id: ConnId): State
      reads this, storage
    {
      State(storage.claims, storage.blobs, others[id := Now()])
    }

    constructor ()
      ensures Now() == NEW_CONN
    {
      meeting, acceptedChunks, lastAckedSeq, replies := "", 0, -1, [];
    }

    method Send(r: Reply)
      modifies this`replies
      ensures Now() == Say(old(Now()), r)
    {
      replies := replies + [r];
    }

    /** An event that carries no chunk. */
    method Reply(e: Event)
      requires !Carries(e)
      modifies this
      ensures Now() == Say(Replied(old(Now()), e).0, Replied(old(Now()), e).1)
    {
      match e
      case BadJson => Send(Error(BadJsonCode));
      case UnknownType => Send(Error(BadEvent));
      case Ping(m) => Send(Pong(if m != "" then m else meeting, lastAckedSeq, acceptedChunks));
      case Resume(m) =>
        if m != "" {
          meeting := m;
        }
        Send(Resumed(meeting, lastAckedSeq, acceptedChunks));
      case AudioChunk(m, s, _, _) =>
        meeting := m;
        if meeting == "" {
          Send(Error(NoMeetingId));
        } else if s < 0 {
          Send(Error(BadSeq));
        } else {
          Send(Error(BadAudio));
        }
    }

    /** A chunk: its ingest and its reply. */
    method Offer(storage: Storage, c: Chunk, putWorks: bool)
      modifies this, storage
      ensures Now() == Told(old(Now()), c, ClaimOf(c) in old(storage.claims), putWorks)
      ensures storage.claims == old(storage.claims) + {ClaimOf(c)}
      ensures storage.blobs == if ClaimOf(c) !in old(storage.claims) && putWorks
                               then old(storage.blobs)[(c.meeting, c.seqNo) := c.audio] else old(storage.blobs)
    {
      meeting := c.meeting;
      var result := storage.IngestChunk(c, putWorks);
      match result
      case Duplicate =>
        Send(Ack(meeting, c.seqNo, true, if lastAckedSeq < c.seqNo then c.seqNo else lastAckedSeq, acceptedChunks));
      case Stored =>
        acceptedChunks := acceptedChunks + 1;
        lastAckedSeq := if lastAckedSeq < c.seqNo then c.seqNo else lastAckedSeq;
        Send(Ack(meeting, c.seqNo, false, lastAckedSeq, acceptedChunks));
      case Failed => Send(Error(StorageError));
    }

    /** One turn of the receive loop. */
    method Take(storage: Storage, arrival: Arrival, ghost others: map<ConnId, Conn>, ghost id: ConnId)
      modifies this, storage
      ensures World(storage, others, id) == Turn(old(World(storage, others, id)), id, arrival)
    {
      hide ClaimKey;
      ghost var before := World(storage, others, id);
      if Carries(arrival.event) {
        Offer(storage, ChunkOf(arrival), arrival.putWorks);
      } else {
        Reply(arrival.event);
      }
      assert before.conns[id := Now()] == others[id := Now()];
    }

    /** The receive loop: the events are taken in order until the client is gone or a reply cannot be sent. */
    method Serve(storage: Storage, arrivals: seq<Arrival>, ghost others: map<ConnId, Conn>, ghost id: ConnId)
      returns (served: nat)
      modifies this, storage
      ensures served <= |arrivals|
      ensures World(storage, others, id) == Turns(old(World(storage, others, id)), id, arrivals[..served])
      ensures served < |arrivals| ==> served > 0 && !arrivals[served - 1].sent
      ensures forall i :: 0 <= i < served - 1 ==> arrivals[i].sent
    {
      hide Turn;
      served := 0;
      ghost var before := World(storage, others, id);
      while served < |arrivals|
        invariant served <= |arrivals|
        invariant forall i :: 0 <= i < served ==> arrivals[i].sent
        invariant World(storage, others, id) == Turns(before, id, arrivals[..served])
      {
        Take(storage, arrivals[served], others, id);
        served := served + 1;
        assert arrivals[..served][..served - 1] == arrivals[..served - 1];
        if !arrivals[served - 1].sent {
          return;
        }
      }
      assert arrivals[..served] == arrivals;
    }
  }
}
