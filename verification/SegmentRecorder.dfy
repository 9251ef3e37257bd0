/**
  Recording into overlapping segment files. Every captured block reaches a file, each file
  holds one uninterrupted run of blocks, few files are open at a time, and every file that
  was opened is closed exactly once, also when opening or writing a file fails.
 */
module SegmentRecorder {
  import opened Options

  /** A segment file: when it was started, the blocks written to it, and how often it was closed. */
  datatype File = File(start: real, blocks: seq<nat>, closes: nat)

  /** The distance of segment starts; none for lengths and overlaps that the program rejects. */
  function SegmentStep(length: int, overlap: int): (step: Option<int>)
    ensures step.Some? <==> 0 <= overlap < length
    ensures step.Some? ==> 0 < step.value <= length && step.value + overlap == length
  {
    if length <= 0 || overlap < 0 || overlap >= length then None else Some(length - overlap)
  }

  /** The blocks `first`, `first + 1`, ..., `n` of them. */
  ghost function Run(first: nat, n: nat): seq<nat> {
    seq(n, i => first + i)
  }

  ghost predicate IsRun(blocks: seq<nat>) {
    blocks != [] && blocks == Run(blocks[0], |blocks|)
  }

  /** Starts are at least a step apart. */
  ghost predicate SpacedBy(files: seq<File>, step: int) {
    forall f, g :: 0 <= f < g < |files| ==> files[g].start - files[f].start >= Apart(g - f, step)
  }

  /** No start lies after `now`. */
  ghost predicate StartsSpaced(files: seq<File>, step: int, now: real) {
    SpacedBy(files, step) && forall f :: 0 <= f < |files| ==> files[f].start <= now
  }

  ghost function Apart(n: nat, step: int): real {
    if n == 0 then 0.0 else Apart(n - 1, step) + step as real
  }

  lemma {:induction false} ApartSum(m: nat, n: nat, step: int)
    ensures Apart(m + n, step) == Apart(m, step) + Apart(n, step)
  {
    if n > 0 {
      assert m + n - 1 == m + (n - 1);
      ApartSum(m, n - 1, step);
    }
  }

  lemma {:induction false} ApartIsProduct(n: nat, step: int)
    ensures Apart(n, step) == (n * step) as real
  {
    if n > 0 {
      ApartIsProduct(n - 1, step);
      assert n * step == (n - 1) * step + step;
    }
  }

  /** Rounded-up quotient: how many segments can overlap at one moment. */
  function MostOpen(length: int, step: int): int
    requires step > 0
  {
    (length + step - 1) / step
  }

  lemma CountBound(n: int, length: int, step: int)
    requires step > 0 && (n - 1) * step < length
    ensures n <= MostOpen(length, step)
  {
    var c := MostOpen(length, step);
    assert c * step >= length;
    if n - 1 >= c {
      ProductMonotone(c, n - 1, step);
    }
  }

  lemma ProductMonotone(a: int, b: int, s: int)
    requires a <= b && s > 0
    ensures a * s <= b * s
  {
    assert (b - a) * s >= 0;
  }

  /** Files that all started less than a segment length ago are few. */
  lemma FewYoungFiles(files: seq<File>, c: nat, length: int, step: int, now: real)
    requires step > 0 && length > 0 && c <= |files| && StartsSpaced(files, step, now)
    requires c < |files| ==> now - files[c].start < length as real
    ensures |files| - c <= MostOpen(length, step)
  {
    var n := |files| - c;
    if n > 0 {
      ApartIsProduct(n - 1, step);
      assert files[|files| - 1].start - files[c].start >= Apart(n - 1, step) by {
        if n == 1 { assert Apart(0, step) == 0.0; }
      }
      CountBound(n, length, step);
    } else {
      assert MostOpen(length, step) >= 0;
    }
  }

  /** Some file holds block `k`. */
  ghost predicate Captured(files: seq<File>, k: nat) {
    exists f :: 0 <= f < |files| && k in files[f].blocks
  }

  /** The open files are the last ones, `c` on; those before were closed once. */
  ghost predicate OpenFrom(files: seq<File>, active: seq<nat>, c: int) {
    && 0 <= c && c + |active| == |files|
    && (forall i :: 0 <= i < |active| ==> active[i] == c + i)
    && (forall f :: 0 <= f < |files| ==> files[f].closes == if f < c then 1 else 0)
  }

  /** Block times: never negative, never running backwards. */
  ghost predicate Monotone(times: seq<real>) {
    && (forall k :: 0 <= k < |times| ==> times[k] >= 0.0)
    && (forall j, k :: 0 <= j < k < |times| ==> times[j] <= times[k])
  }

  predicate Expired(file: File, now: real, length: int) {
    now - file.start >= length as real
  }

  /** Block `k` goes into the file; a file that has reached its length is closed. */
  function Written(file: File, k: nat, now: real, length: int): File {
    File(file.start, file.blocks + [k], file.closes + if Expired(file, now, length) then 1 else 0)
  }

  /** The files after the first `i` of those from `c` on have been written. */
  ghost function WrittenTo(files: seq<File>, c: nat, i: nat, k: nat, now: real, length: int): seq<File> {
    seq(|files|, f requires 0 <= f < |files| => if c <= f < c + i then Written(files[f], k, now, length) else files[f])
  }

  /** Among the first `i` files from `c` on, exactly the first `d` have reached their length. */
  ghost predicate ExpiredPrefix(files: seq<File>, c: nat, i: nat, d: nat, now: real, length: int) {
    && d <= i && c + i <= |files|
    && forall f :: c <= f < c + i ==> (Expired(files[f], now, length) <==> f < c + d)
  }

  /** Between blocks: `k` blocks have been processed, the last one at time `now`. */
  ghost predicate Steady(files: seq<File>, active: seq<nat>, k: nat, now: real, length: int, step: int) {
    var c := |files| - |active|;
    && 0 < step <= length && now >= 0.0
    && StartsSpaced(files, step, now) && OpenFrom(files, active, c)
    && (k > 0 ==> files != [])
    && (forall f :: 0 <= f < |files| ==> IsRun(files[f].blocks))
    && (forall f :: 0 <= f < |files| ==> (Expired(files[f], now, length) <==> f < c))
    && (forall f :: c <= f < |files| ==> files[f].blocks[0] + |files[f].blocks| == k)
    && (forall b: nat :: b < k ==> Captured(files, b))
  }

  /** Within a block, before it is written: at most the last file is new, and one file is open. */
  ghost predicate Ready(files: seq<File>, active: seq<nat>, k: nat, now: real, length: int, step: int) {
    var c := |files| - |active|;
    && 0 < step <= length && active != [] && now >= 0.0
    && StartsSpaced(files, step, now) && OpenFrom(files, active, c)
    && (forall f :: 0 <= f < |files| - 1 ==> IsRun(files[f].blocks))
    && (IsRun(files[|files| - 1].blocks) || files[|files| - 1].blocks == [])
    && (forall f :: 0 <= f < c ==> Expired(files[f], now, length))
    && (forall f :: c <= f < |files| ==> files[f].blocks == [] || files[f].blocks[0] + |files[f].blocks| == k)
    && (forall b: nat :: b < k ==> Captured(files, b))
  }

  /** When the next segment is due. */
  function NextStart(files: seq<File>, step: int): real {
    if files == [] then 0.0 else files[|files| - 1].start + step as real
  }

  lemma OpenNew(files: seq<File>, active: seq<nat>, k: nat, before: real, now: real, length: int, step: int)
    requires Steady(files, active, k, before, length, step) && before <= now && now >= NextStart(files, step)
    ensures Ready(files + [File(now, [], 0)], active + [|files|], k, now, length, step)
  {
    var files' := files + [File(now, [], 0)];
    forall b: nat | b < k ensures Captured(files', b) {
      assert Captured(files, b);
      CapturedGrows(files, files', b);
    }
    SpacedNew(files, before, now, step);
  }

  lemma SpacedNew(files: seq<File>, before: real, now: real, step: int)
    requires StartsSpaced(files, step, before) && before <= now && now >= NextStart(files, step) && step > 0
    ensures StartsSpaced(files + [File(now, [], 0)], step, now)
  {
    var files', n := files + [File(now, [], 0)], |files|;
    forall f, g | 0 <= f < g < |files'| ensures files'[g].start - files'[f].start >= Apart(g - f, step) {
      if g == n {
        assert Apart(n - f, step) == Apart(n - 1 - f, step) + step as real;
        assert f < n - 1 || Apart(n - 1 - f, step) == 0.0;
      }
    }
  }

  /** If no segment is due, the last one is still open. */
  lemma KeepOpen(files: seq<File>, active: seq<nat>, k: nat, before: real, now: real, length: int, step: int)
    requires Steady(files, active, k, before, length, step) && before <= now && now < NextStart(files, step)
    ensures Ready(files, active, k, now, length, step)
  {
  }

  lemma CapturedIn(files: seq<File>, f: nat, b: nat)
    requires f < |files| && b in files[f].blocks
    ensures Captured(files, b)
  {
  }

  lemma CapturedGrows(files: seq<File>, files': seq<File>, b: nat)
    requires Captured(files, b) && |files| <= |files'|
    requires forall f :: 0 <= f < |files| ==> files[f].blocks <= files'[f].blocks
    ensures Captured(files', b)
  {
    var f :| 0 <= f < |files| && b in files[f].blocks;
    assert b in files'[f].blocks;
  }

  /** Writing changes neither the starts nor what was captured before. */
  lemma WritingKeeps(files: seq<File>, c: nat, i: nat, k: nat, now: real, length: int, step: int)
    requires c + i <= |files| && StartsSpaced(files, step, now)
    requires forall b: nat :: b < k ==> Captured(files, b)
    ensures StartsSpaced(WrittenTo(files, c, i, k, now, length), step, now)
    ensures forall b: nat :: b < k ==> Captured(WrittenTo(files, c, i, k, now, length), b)
  {
    var files' := WrittenTo(files, c, i, k, now, length);
    assert forall f :: 0 <= f < |files| ==> files'[f].start == files[f].start;
    forall b: nat | b < k ensures Captured(files', b) {
      assert Captured(files, b);
      CapturedGrows(files, files', b);
    }
  }

  lemma WrittenFiles(files: seq<File>, c: nat, i: nat, k: nat, now: real, length: int)
    requires c + i <= |files|
    ensures var files' := WrittenTo(files, c, i, k, now, length);
      && |files'| == |files|
      && forall f :: 0 <= f < |files| ==>
           files'[f] == if c <= f < c + i then Written(files[f], k, now, length) else files[f]
    ensures i == 0 ==> WrittenTo(files, c, i, k, now, length) == files && ExpiredPrefix(files, c, 0, 0, now, length)
  {
  }

  lemma WriteOne(files: seq<File>, c: nat, i: nat, k: nat, now: real, length: int)
    requires c + i < |files|
    ensures WrittenTo(files, c, i, k, now, length)[c + i] == files[c + i]
    ensures WrittenTo(files, c, i, k, now, length)[c + i := Written(files[c + i], k, now, length)]
         == WrittenTo(files, c, i + 1, k, now, length)
  {
  }

  /** The files still open after `i` writes are those from `c + d` on. */
  lemma WritingCloses(files: seq<File>, active: seq<nat>, i: nat, d: nat, k: nat, now: real, length: int)
    requires OpenFrom(files, active, |files| - |active|) && i <= |active|
    requires ExpiredPrefix(files, |files| - |active|, i, d, now, length)
    ensures OpenFrom(WrittenTo(files, |files| - |active|, i, k, now, length), active[d..], |files| - |active| + d)
  {
  }

  /** Every file touched by the block holds a run that ends with the block. */
  lemma WritingExtends(files: seq<File>, c: nat, i: nat, k: nat, now: real, length: int, f: nat)
    requires c <= f < c + i <= |files|
    requires files[f].blocks == [] || (IsRun(files[f].blocks) && files[f].blocks[0] + |files[f].blocks| == k)
    ensures var blocks := WrittenTo(files, c, i, k, now, length)[f].blocks;
      IsRun(blocks) && blocks[0] + |blocks| == k + 1 && k in blocks
  {
    RunGrows(files[f].blocks, k);
  }

  lemma FinishBlock(files: seq<File>, active: seq<nat>, d: nat, k: nat, now: real, length: int, step: int)
    requires Ready(files, active, k, now, length, step)
    requires ExpiredPrefix(files, |files| - |active|, |active|, d, now, length)
    ensures Steady(WrittenTo(files, |files| - |active|, |active|, k, now, length), active[d..], k + 1, now, length, step)
  {
    hide WrittenTo, IsRun, Captured, SpacedBy;
    var c := |files| - |active|;
    var files' := WrittenTo(files, c, |active|, k, now, length);
    WrittenFiles(files, c, |active|, k, now, length);
    WritingKeeps(files, c, |active|, k, now, length, step);
    WritingCloses(files, active, |active|, d, k, now, length);
    forall f | c <= f < |files| ensures IsRun(files'[f].blocks) && files'[f].blocks[0] + |files'[f].blocks| == k + 1 {
      WritingExtends(files, c, |active|, k, now, length, f);
    }
    assert forall f :: 0 <= f < c ==> files'[f] == files[f];
    WritingExtends(files, c, |active|, k, now, length, c);
    CapturedIn(files', c, k);
    assert forall b: nat :: b < k + 1 ==> Captured(files', b);
    assert forall f :: 0 <= f < |files| ==> (Expired(files'[f], now, length) <==> f < c + d);
  }

  lemma RunGrows(blocks: seq<nat>, k: nat)
    requires blocks == [] || (IsRun(blocks) && blocks[0] + |blocks| == k)
    ensures IsRun(blocks + [k])
  {
    var all := blocks + [k];
    assert all == Run(all[0], |all|);
  }

  /** What is left for the cleanup when opening or writing has failed. */
  ghost predicate Broken(files: seq<File>, active: seq<nat>, k: nat, step: int, now: real) {
    && StartsSpaced(files, step, now) && OpenFrom(files, active, |files| - |active|)
    && (forall f :: 0 <= f < |files| ==> IsRun(files[f].blocks) || files[f].blocks == [])
    && (forall b: nat :: b < k ==> Captured(files, b))
  }

  lemma BreakBlock(files: seq<File>, active: seq<nat>, i: nat, d: nat, k: nat, now: real, length: int, step: int)
    requires Ready(files, active, k, now, length, step) && i <= |active|
    requires ExpiredPrefix(files, |files| - |active|, i, d, now, length)
    ensures Broken(WrittenTo(files, |files| - |active|, i, k, now, length), active[d..], k, step, now)
  {
    var c := |files| - |active|;
    var files' := WrittenTo(files, c, i, k, now, length);
    WritingKeeps(files, c, i, k, now, length, step);
    WritingCloses(files, active, i, d, k, now, length);
    forall f | 0 <= f < |files| ensures IsRun(files'[f].blocks) || files'[f].blocks == [] {
      if c <= f < c + i {
        WritingExtends(files, c, i, k, now, length, f);
      } else {
        assert files'[f] == files[f];
      }
    }
  }

  // ----- what is recorded where

  /** The files when a block arrives: one more if a segment is due. */
  function Opened(files: seq<File>, now: real, step: int): seq<File> {
    if now >= NextStart(files, step) then files + [File(now, [], 0)] else files
  }

  /** The block times at which a segment starts: the first, and each that is a step or more after the start before. */
  function SegmentStarts(times: seq<real>, step: int): seq<real> {
    if times == [] then []
    else
      var before, now := SegmentStarts(times[..|times| - 1], step), times[|times| - 1];
      if before == [] || now >= before[|before| - 1] + step as real then before + [now] else before
  }

  /** A start is a block time, and the next one is the first block time that is a step or more after it. */
  ghost predicate NextDue(times: seq<real>, start: real, next: real, step: int) {
    && next in times && next >= start + step as real
    && forall b :: 0 <= b < |times| && times[b] < next ==> times[b] < start + step as real
  }

  /**
    The first segment starts with the first block, each further one with the first block that comes a step or more
    after the start before, and after the last start no block comes so late.
   */
  lemma {:induction false} StartsAreDue(times: seq<real>, step: int)
    requires Monotone(times) && step > 0
    ensures var starts := SegmentStarts(times, step);
      && (starts == [] <==> times == [])
      && (times != [] ==> starts[0] == times[0])
      && (forall j :: 0 <= j < |starts| - 1 ==> NextDue(times, starts[j], starts[j + 1], step))
      && (starts != [] ==> forall b :: 0 <= b < |times| ==> times[b] < starts[|starts| - 1] + step as real)
  {
    if times != [] {
      var n := |times| - 1;
      var front, now := times[..n], times[n];
      var before, starts := SegmentStarts(front, step), SegmentStarts(times, step);
      StartsAreDue(front, step);
      hide SegmentStarts;
      assert times == front + [now];
      assert starts == before || starts == before + [now] by { StartsStep(times, step); }
      StartsStep(times, step);
      hide NextDue;
      forall j | 0 <= j < |starts| - 1
        ensures NextDue(times, starts[j], starts[j + 1], step)
      {
        if j < |before| - 1 {
          DueKept(front, now, before[j], before[j + 1], step);
        } else {
          DueNew(front, now, before[j], step);
        }
      }
    }
  }

  lemma DueKept(front: seq<real>, now: real, start: real, next: real, step: int)
    requires NextDue(front, start, next, step) && Monotone(front + [now])
    ensures NextDue(front + [now], start, next, step)
  {
    var all := front + [now];
    var i :| 0 <= i < |front| && front[i] == next;
    assert all[i] == next <= all[|front|];
  }

  lemma DueNew(front: seq<real>, now: real, start: real, step: int)
    requires now >= start + step as real && forall b :: 0 <= b < |front| ==> front[b] < start + step as real
    ensures NextDue(front + [now], start, now, step)
  {
    assert (front + [now])[|front|] == now;
  }

  lemma StartsStep(times: seq<real>, step: int)
    requires times != []
    ensures var before, now, starts := SegmentStarts(times[..|times| - 1], step), times[|times| - 1], SegmentStarts(times, step);
      if before == [] || now >= before[|before| - 1] + step as real then starts == before + [now] else starts == before
  {
  }

  /** Block `b` belongs to a segment: it is not before its start, and the block before it was not yet beyond its length. */
  predicate Belongs(times: seq<real>, b: nat, start: real, length: int)
    requires b < |times|
  {
    times[b] >= start && (b > 0 ==> times[b - 1] - start < length as real)
  }

  ghost predicate HoldsExactly(file: File, times: seq<real>, length: int) {
    && (forall b: nat :: b in file.blocks ==> b < |times|)
    && (forall b: nat :: b < |times| ==> (b in file.blocks <==> Belongs(times, b, file.start, length)))
  }

  /** The segments start when they are due, and each holds exactly the blocks that belong to it. */
  ghost predicate Exact(files: seq<File>, times: seq<real>, length: int, step: int) {
    && |files| == |SegmentStarts(times, step)|
    && (forall f :: 0 <= f < |files| ==> files[f].start == SegmentStarts(times, step)[f])
    && (forall f :: 0 <= f < |files| ==> HoldsExactly(files[f], times, length))
    && (times != [] ==> files != [] && times[|times| - 1] < NextStart(files, step))
  }

  // ----- how many file operations a recording needs

  /** The segments that block `b` belongs to, of those that have started by then. */
  ghost function SegmentsOf(times: seq<real>, b: nat, length: int, step: int): set<nat>
    requires b < |times|
  {
    var starts := SegmentStarts(times[..b + 1], step);
    set f: nat | f < |starts| && Belongs(times, b, starts[f], length)
  }

  /** Block `b` starts a segment. */
  ghost predicate StartsSegment(times: seq<real>, b: nat, step: int)
    requires b < |times|
  {
    |SegmentStarts(times[..b + 1], step)| > |SegmentStarts(times[..b], step)|
  }

  /** One file is opened for each segment that starts, and one is written for each segment a block belongs to. */
  ghost function Operations(times: seq<real>, n: nat, length: int, step: int): nat
    requires n <= |times|
  {
    if n == 0 then 0
    else Operations(times, n - 1, length, step) + BlockOperations(times, n - 1, length, step)
  }

  ghost function BlockOperations(times: seq<real>, b: nat, length: int, step: int): nat
    requires b < |times|
  {
    (if StartsSegment(times, b, step) then 1 else 0) + |SegmentsOf(times, b, length, step)|
  }

  lemma {:induction false} OperationsGrow(times: seq<real>, m: nat, n: nat, length: int, step: int)
    requires m <= n <= |times|
    ensures Operations(times, m, length, step) <= Operations(times, n, length, step)
  {
    hide BlockOperations;
    if m < n {
      OperationsGrow(times, m, n - 1, length, step);
    }
  }

  lemma {:induction false} Stretched(s: set<nat>, c: nat, n: nat)
    requires forall f: nat :: f in s <==> c <= f < c + n
    ensures |s| == n
  {
    if n == 0 {
      assert s == {};
    } else {
      Stretched(s - {c + n - 1}, c, n - 1);
    }
  }

  /** Files `c` on are those that block `k` goes to, if it starts before they have reached their length. */
  ghost predicate OpenAt(files: seq<File>, c: nat, times: seq<real>, k: nat, length: int)
    requires k < |times|
  {
    && c <= |files| && (forall f :: 0 <= f < |files| ==> files[f].start <= times[k])
    && (k > 0 ==> forall f :: 0 <= f < |files| ==> (Expired(files[f], times[k - 1], length) <==> f < c))
    && (k == 0 ==> c == 0)
  }

  lemma InSegment(files: seq<File>, c: nat, times: seq<real>, k: nat, length: int, step: int, f: nat)
    requires k < |times| && Monotone(times) && 0 < length && OpenAt(files, c, times, k, length)
    requires f < |Opened(files, times[k], step)|
    ensures Belongs(times, k, Opened(files, times[k], step)[f].start, length) <==> c <= f
  {
    BelongsIff(times, k, Opened(files, times[k], step)[f], length);
  }

  lemma SegmentCount(starts: seq<real>, grown: seq<File>, c: nat, s: set<nat>)
    requires |starts| == |grown| && c <= |grown| && forall f: nat :: f in s <==> f < |grown| && c <= f
    ensures |s| == |grown| - c
  {
    Stretched(s, c, |grown| - c);
  }

  /** What a block needs, going by the state of the recorder: a new file if one is due, and a write to every open file. */
  lemma BlockNeeds(files: seq<File>, c: nat, times: seq<real>, k: nat, length: int, step: int)
    requires k < |times| && Monotone(times) && 0 < step && 0 < length
    requires Exact(files, times[..k], length, step) && OpenAt(files, c, times, k, length)
    ensures BlockOperations(times, k, length, step) ==
            (if times[k] >= NextStart(files, step) then 1 else 0) + |Opened(files, times[k], step)| - c
  {
    assert times[..k + 1] == times[..k] + [times[k]];
    StartsNext(files, times[..k], times[k], length, step);
    SameNumber(files, times[..k], length, step);
    var grown, starts := Opened(files, times[k], step), SegmentStarts(times[..k + 1], step);
    var s := SegmentsOf(times, k, length, step);
    assert |grown| == |files| + if times[k] >= NextStart(files, step) then 1 else 0;
    hide SegmentStarts, Exact, SegmentsOf, Belongs, Monotone, Opened, NextStart, OpenAt;
    forall f: nat
      ensures f in s <==> f < |grown| && c <= f
    {
      SegmentOf(times, k, length, step, f);
      if f < |grown| {
        InSegment(files, c, times, k, length, step, f);
      }
    }
    assert c <= |grown| by { OpenWithin(files, c, times, k, length); }
    SegmentCount(starts, grown, c, s);
  }

  lemma OpenWithin(files: seq<File>, c: nat, times: seq<real>, k: nat, length: int)
    requires k < |times| && OpenAt(files, c, times, k, length)
    ensures c <= |files|
  {
  }

  lemma SegmentOf(times: seq<real>, b: nat, length: int, step: int, f: nat)
    requires b < |times|
    ensures var starts := SegmentStarts(times[..b + 1], step);
      f in SegmentsOf(times, b, length, step) <==> f < |starts| && Belongs(times, b, starts[f], length)
  {
    hide SegmentStarts, Belongs;
  }

  /** A block belongs to a segment that has started exactly when the file was still open after the block before. */
  lemma BelongsIff(times: seq<real>, k: nat, file: File, length: int)
    requires k < |times| && Monotone(times) && file.start <= times[k] && length > 0
    ensures Belongs(times, k, file.start, length) <==> k == 0 || !Expired(file, times[k - 1], length)
    ensures file.start == times[k] ==> Belongs(times, k, file.start, length)
  {
  }

  lemma SameNumber(files: seq<File>, times: seq<real>, length: int, step: int)
    requires Exact(files, times, length, step)
    ensures |files| == |SegmentStarts(times, step)|
  {
  }

  lemma StillHolds(file: File, times: seq<real>, now: real, length: int)
    requires HoldsExactly(file, times, length) && times != [] && file.start <= now
    ensures if times[|times| - 1] - file.start < length as real
            then HoldsExactly(file.(blocks := file.blocks + [|times|]), times + [now], length)
            else HoldsExactly(file, times + [now], length)
  {
    var times' := times + [now];
    forall b: nat | b < |times|
      ensures Belongs(times', b, file.start, length) <==> Belongs(times, b, file.start, length)
    {
    }
  }

  lemma NewHolds(times: seq<real>, now: real, length: int, closes: nat)
    requires length > 0 && forall b :: 0 <= b < |times| ==> times[b] < now
    ensures HoldsExactly(File(now, [|times|], closes), times + [now], length)
  {
    var times' := times + [now];
    assert forall b: nat :: b < |times| ==> !Belongs(times', b, now, length);
  }

  lemma StartsNext(files: seq<File>, times: seq<real>, now: real, length: int, step: int)
    requires Exact(files, times, length, step) && Monotone(times + [now]) && step > 0
    ensures var grown := Opened(files, now, step);
      && |grown| == |SegmentStarts(times + [now], step)|
      && (forall f :: 0 <= f < |grown| ==> grown[f].start == SegmentStarts(times + [now], step)[f])
      && grown != [] && now < NextStart(grown, step)
  {
    assert (times + [now])[..|times|] == times;
    assert (times + [now])[|times|] >= 0.0;
  }

  lemma ExactStep(files: seq<File>, c: nat, times: seq<real>, now: real, length: int, step: int)
    requires Exact(files, times, length, step) && Monotone(times + [now]) && step > 0 && length > 0 && c <= |files|
    requires forall f :: 0 <= f < |files| ==> files[f].start <= now
    requires times != [] ==> forall f :: 0 <= f < |files| ==> (Expired(files[f], times[|times| - 1], length) <==> f < c)
    ensures var grown := Opened(files, now, step);
      Exact(WrittenTo(grown, c, |grown| - c, |times|, now, length), times + [now], length, step)
  {
    hide SegmentStarts, HoldsExactly, WrittenTo;
    var grown := Opened(files, now, step);
    var files' := WrittenTo(grown, c, |grown| - c, |times|, now, length);
    StartsNext(files, times, now, length, step);
    WrittenFiles(grown, c, |grown| - c, |times|, now, length);
    forall f | 0 <= f < |files'|
      ensures HoldsExactly(files'[f], times + [now], length)
    {
      if f < |files| {
        StartedBefore(files, times, length, step);
        StillHolds(files[f], times, now, length);
        SameBlocks(files'[f], grown[f], times + [now], length);
        SameBlocks(files'[f], grown[f].(blocks := grown[f].blocks + [|times|]), times + [now], length);
      } else {
        BeforeDue(files, times, now, length, step);
        NewHolds(times, now, length, files'[f].closes);
        assert [] + [|times|] == [|times|];
      }
    }
  }

  lemma StartedBefore(files: seq<File>, times: seq<real>, length: int, step: int)
    requires Exact(files, times, length, step) && files != []
    ensures times != []
  {
  }

  lemma BeforeDue(files: seq<File>, times: seq<real>, now: real, length: int, step: int)
    requires Exact(files, times, length, step) && Monotone(times + [now]) && now >= NextStart(files, step)
    ensures forall b :: 0 <= b < |times| ==> times[b] < now
  {
    var all := times + [now];
    forall b | 0 <= b < |times|
      ensures times[b] < now
    {
      assert b < |times| - 1 ==> all[b] <= all[|times| - 1];
    }
  }

  lemma SameBlocks(file: File, other: File, times: seq<real>, length: int)
    ensures file.start == other.start && file.blocks == other.blocks && HoldsExactly(other, times, length) ==>
              HoldsExactly(file, times, length)
  {
  }

  lemma NextBlock(files: seq<File>, c: nat, times: seq<real>, k: nat, length: int, step: int)
    requires k < |times| && Monotone(times) && 0 < step && 0 < length && c <= |files|
    requires Exact(files, times[..k], length, step)
    requires forall f :: 0 <= f < |files| ==> files[f].start <= times[k]
    requires k > 0 ==> forall f :: 0 <= f < |files| ==> (Expired(files[f], times[k - 1], length) <==> f < c)
    ensures var grown := Opened(files, times[k], step);
      Exact(WrittenTo(grown, c, |grown| - c, k, times[k], length), times[..k + 1], length, step)
  {
    assert times[..k + 1] == times[..k] + [times[k]];
    hide Exact, WrittenTo, Opened;
    ExactStep(files, c, times[..k], times[k], length, step);
  }

  lemma ClosedExact(open: seq<File>, files: seq<File>, times: seq<real>, length: int, step: int)
    requires Exact(open, times, length, step) && |files| == |open|
    requires forall f :: 0 <= f < |files| ==> files[f] == open[f].(closes := 1)
    ensures Exact(files, times, length, step)
  {
    hide HoldsExactly;
    forall f | 0 <= f < |files|
      ensures HoldsExactly(files[f], times, length)
    {
      SameBlocks(files[f], open[f], times, length);
    }
  }

  lemma NothingYet(times: seq<real>, length: int, step: int)
    ensures Exact([], times[..0], length, step)
  {
  }

  lemma OpenAre(files: seq<File>, active: seq<nat>, k: nat, now: real, length: int, step: int)
    requires Steady(files, active, k, now, length, step)
    ensures 0 <= |files| - |active| && 0 < step <= length
    ensures forall f :: 0 <= f < |files| ==> files[f].start <= now && (Expired(files[f], now, length) <==> f < |files| - |active|)
  {
  }

  lemma SteadyEnds(files: seq<File>, active: seq<nat>, k: nat, now: real, length: int, step: int)
    requires Steady(files, active, k, now, length, step)
    ensures Broken(files, active, k, step, now) && forall f :: 0 <= f < |files| ==> IsRun(files[f].blocks)
  {
  }

  lemma Finished(files: seq<File>, active: seq<nat>, k: nat, step: int, now: real)
    requires Broken(files, active, k, step, now)
    ensures SpacedBy(files, step) && OpenFrom(files, active, |files| - |active|)
    ensures forall f :: 0 <= f < |files| ==> IsRun(files[f].blocks) || files[f].blocks == []
    ensures forall b: nat :: b < k ==> Captured(files, b)
  {
  }

  /** Closing changes neither starts nor blocks. */
  lemma Closed(open: seq<File>, files: seq<File>, k: nat, step: int)
    requires |files| == |open| && forall f :: 0 <= f < |files| ==> files[f] == open[f].(closes := 1)
    ensures SpacedBy(open, step) ==> SpacedBy(files, step)
    ensures (forall b: nat :: b < k ==> Captured(open, b)) ==> forall b: nat :: b < k ==> Captured(files, b)
  {
    forall b: nat | Captured(open, b)
      ensures Captured(files, b)
    {
      CapturedGrows(open, files, b);
    }
  }

  // ----- how many files a block goes to

  lemma MostPositive(length: int, step: int)
    requires 0 < step <= length
    ensures MostOpen(length, step) >= 1
  {
  }

  lemma NoHolders(most: int)
    ensures FewHolders([], 0, most)
  {
  }

  lemma HoldersFew(files: seq<File>, k: nat, most: int)
    requires FewHolders(files, k, most)
    ensures forall b: nat :: b < k ==> |Holders(files, b)| <= most
  {
  }

  /** A block that was not written yet is nowhere. */
  lemma MoreBlocks(files: seq<File>, k: nat, most: int)
    requires FewHolders(files, k, most) && most >= 0
    ensures FewHolders(files, k + 1, most)
  {
    assert Holders(files, k) == {};
  }

  /** The files that hold block `b`. */
  ghost function Holders(files: seq<File>, b: nat): set<nat> {
    set f: nat | f < |files| && b in files[f].blocks
  }

  /** Blocks are numbered in the order of their arrival. */
  ghost predicate OnlyBefore(files: seq<File>, k: nat) {
    forall f, b :: 0 <= f < |files| && b in files[f].blocks ==> b < k
  }

  ghost predicate FewHolders(files: seq<File>, k: nat, most: int) {
    OnlyBefore(files, k) && forall b: nat :: b < k ==> |Holders(files, b)| <= most
  }

  lemma {:induction false} Stretch(c: nat, n: nat) returns (s: set<nat>)
    ensures |s| == n && forall f: nat :: f in s <==> c <= f < c + n
  {
    if n == 0 {
      s := {};
    } else {
      s := Stretch(c, n - 1);
      s := s + {c + n - 1};
    }
  }

  /** A block that is written to the first `i` of the files from `c` on is held by these alone; older blocks stay where they are. */
  lemma WritingHolders(files: seq<File>, c: nat, i: nat, k: nat, now: real, length: int, most: int)
    requires c + i <= |files| && FewHolders(files, k, most) && i <= most
    ensures FewHolders(WrittenTo(files, c, i, k, now, length), k + 1, most)
  {
    var files' := WrittenTo(files, c, i, k, now, length);
    WrittenFiles(files, c, i, k, now, length);
    hide WrittenTo;
    forall b: nat | b < k + 1
      ensures |Holders(files', b)| <= most
    {
      if b < k {
        assert Holders(files', b) == Holders(files, b);
      } else {
        var s := Stretch(c, i);
        assert Holders(files', k) == s;
      }
    }
  }

  lemma OpeningHolders(files: seq<File>, k: nat, now: real, step: int, most: int)
    requires FewHolders(files, k, most)
    ensures FewHolders(Opened(files, now, step), k, most)
  {
    var grown := Opened(files, now, step);
    forall b: nat | b < k
      ensures |Holders(grown, b)| <= most
    {
      assert Holders(grown, b) == Holders(files, b);
    }
  }

  lemma ClosingHolders(open: seq<File>, files: seq<File>, k: nat, most: int)
    requires FewHolders(open, k, most) && |files| == |open|
    requires forall f :: 0 <= f < |files| ==> files[f] == open[f].(closes := 1)
    ensures FewHolders(files, k, most)
  {
    forall b: nat | b < k
      ensures |Holders(files, b)| <= most
    {
      assert Holders(files, b) == Holders(open, b);
    }
  }

  class Recorder {
    const length: int
    const step: int
    var files: seq<File>
    var active: seq<nat>
    var nextStart: real

    /** Between blocks: `k` blocks have been processed, the last one at time `now`. */
    ghost predicate Valid(k: nat, now: real)
      reads this
    {
      Steady(files, active, k, now, length, step) && nextStart == NextStart(files, step)
    }

    constructor (segmentLength: int, overlap: int)
      requires SegmentStep(segmentLength, overlap).Some?
      ensures Valid(0, 0.0) && files == []
      ensures length == segmentLength && step == segmentLength - overlap
    {
      length := segmentLength;
      step := SegmentStep(segmentLength, overlap).value;
      files, active, nextStart := [], [], 0.0;
    }

    /**
      One block at time `now`. `budget` is the number of file operations that succeed before one
      fails. Between blocks at most ceil(length / step) files are open, and the block is written to
      at most one more.
     */
    method ProcessBlock(k: nat, ghost before: real, now: real, budget: nat) returns (left: nat, ok: bool)
      requires Valid(k, before) && before <= now
      requires FewHolders(files, k, MostOpen(length, step) + 1)
      modifies this
      ensures var needed := (if now >= NextStart(old(files), step) then 1 else 0)
                            + |Opened(old(files), now, step)| - (|old(files)| - |old(active)|);
        (ok <==> needed <= budget) && (ok ==> left == budget - needed)
      ensures ok ==> Valid(k + 1, now) && |active| <= MostOpen(length, step)
      ensures ok ==> var grown, c := Opened(old(files), now, step), |old(files)| - |old(active)|;
        && 0 <= c <= |grown| && |grown| - c <= MostOpen(length, step) + 1
        && files == WrittenTo(grown, c, |grown| - c, k, now, length)
      ensures !ok ==> Broken(files, active, k, step, now)
      ensures FewHolders(files, k + 1, MostOpen(length, step) + 1)
    {
      hide FewHolders, Steady, Ready, WrittenTo, Broken;
      left := budget;
      OpenAre(files, active, k, before, length, step);
      MostPositive(length, step);
      YoungBefore(files, active, k, before, length, step);
      OpeningHolders(files, k, now, step, MostOpen(length, step) + 1);
      if now >= nextStart {
        if left == 0 {
          OpenFailed(files, active, k, before, now, length, step);
          MoreBlocks(files, k, MostOpen(length, step) + 1);
          return 0, false;
        }
        left := left - 1;
        OpenNew(files, active, k, before, now, length, step);
        active := active + [|files|];
        files := files + [File(now, [], 0)];
        nextStart := now + step as real;
      } else {
        KeepOpen(files, active, k, before, now, length, step);
      }
      left, ok := WriteBlock(k, now, left);
      if ok {
        YoungBefore(files, active, k + 1, now, length, step);
      }
    }

    /** Write the block to every open file, closing those that have reached their length. */
    method WriteBlock(k: nat, now: real, budget: nat) returns (left: nat, ok: bool)
      requires Ready(files, active, k, now, length, step) && nextStart == NextStart(files, step)
      requires FewHolders(files, k, MostOpen(length, step) + 1) && |active| <= MostOpen(length, step) + 1
      modifies this`files, this`active
      ensures (ok <==> |old(active)| <= budget) && (ok ==> left == budget - |old(active)|)
      ensures ok ==> Valid(k + 1, now)
      ensures ok ==> files == WrittenTo(old(files), |old(files)| - |old(active)|, |old(active)|, k, now, length)
      ensures !ok ==> Broken(files, active, k, step, now)
      ensures FewHolders(files, k + 1, MostOpen(length, step) + 1)
    {
      hide WrittenTo, ExpiredPrefix, Steady, Broken, IsRun, Captured, SpacedBy, FewHolders, MostOpen;
      left := budget;
      var snapshot := active;
      ghost var files0, c, d := files, |files| - |active|, 0;
      ghost var most := MostOpen(length, step) + 1;
      var i: nat := 0;
      WrittenFiles(files0, c, 0, k, now, length);
      while i < |snapshot|
        invariant left == budget - i
        invariant d <= i <= |snapshot| && |files| == |files0| && files == WrittenTo(files0, c, i, k, now, length)
        invariant ExpiredPrefix(files0, c, i, d, now, length) && active == snapshot[d..]
      {
        if left == 0 {
          BreakBlock(files0, snapshot, i, d, k, now, length, step);
          WritingHolders(files0, c, i, k, now, length, most);
          return 0, false;
        }
        left := left - 1;
        var f := snapshot[i];
        ExpiredGrows(files0, c, i, d, now, length, step);
        WriteOne(files0, c, i, k, now, length);
        files := files[f := Written(files[f], k, now, length)];
        if now - files[f].start >= length as real {
          assert snapshot[d..][1..] == snapshot[d + 1..];
          active := active[1..];
          d := d + 1;
        }
        i := i + 1;
      }
      WrittenFiles(files0, c, i, k, now, length);
      FinishBlock(files0, snapshot, d, k, now, length, step);
      WritingHolders(files0, c, i, k, now, length, most);
      ok := true;
    }

    /** The whole recording, with the cleanup that closes what is still open. */
    method Record(times: seq<real>, budget: nat) returns (done: nat, failed: bool)
      requires Valid(0, 0.0) && files == [] && Monotone(times)
      modifies this
      ensures done <= |times| && Operations(times, done, length, step) <= budget
      ensures done < |times| ==> Operations(times, done + 1, length, step) > budget
      ensures failed <==> Operations(times, |times|, length, step) > budget
      ensures !failed <==> done == |times|
      ensures active == [] && forall f :: 0 <= f < |files| ==> files[f].closes == 1
      ensures SpacedBy(files, step)
      ensures forall f :: 0 <= f < |files| ==> IsRun(files[f].blocks) || (failed && files[f].blocks == [])
      ensures forall b: nat :: b < done ==> Captured(files, b)
      ensures !failed ==> Exact(files, times, length, step)
      ensures forall b: nat :: b <= done ==> |Holders(files, b)| <= MostOpen(length, step) + 1
    {
      hide Exact, Steady, WrittenTo, Broken, IsRun, Captured, SpacedBy, Opened, FewHolders, MostOpen, BlockOperations;
      OpenAre(files, active, 0, 0.0, length, step);
      MostPositive(length, step);
      ghost var most := MostOpen(length, step) + 1;
      var left := budget;
      ghost var now := 0.0;
      done, failed := 0, false;
      NothingYet(times, length, step);
      NoHolders(most);
      while done < |times|
        invariant done <= |times| && Valid(done, now) && now == if done == 0 then 0.0 else times[done - 1]
        invariant left == budget - Operations(times, done, length, step) && (done == 0 ==> files == [])
        invariant Exact(files, times[..done], length, step)
        invariant FewHolders(files, done, most)
      {
        ghost var before, c := files, |files| - |active|;
        OpenAre(files, active, done, now, length, step);
        BlockNeeds(files, c, times, done, length, step);
        var ok;
        left, ok := ProcessBlock(done, now, times[done], left);
        now := times[done];
        if !ok {
          failed := true;
          OperationsGrow(times, done + 1, |times|, length, step);
          break;
        }
        NextBlock(before, c, times, done, length, step);
        done := done + 1;
      }
      ghost var open := files;
      if !failed {
        MoreBlocks(files, done, most);
        SteadyEnds(files, active, done, now, length, step);
        assert times[..done] == times;
      }
      Finished(files, active, done, step, now);
      CloseAll();
      Closed(open, files, done, step);
      ClosingHolders(open, files, done + 1, most);
      HoldersFew(files, done + 1, most);
      if !failed {
        ClosedExact(open, files, times, length, step);
      }
    }

    method CloseAll()
      requires OpenFrom(files, active, |files| - |active|)
      modifies this`files, this`active
      ensures active == [] && |files| == |old(files)|
      ensures forall f :: 0 <= f < |files| ==> files[f] == old(files)[f].(closes := 1)
    {
      ghost var c := |files| - |active|;
      for i := 0 to |active|
        invariant |files| == |old(files)| && active == old(active)
        invariant forall f :: 0 <= f < |files| ==>
          files[f] == if f < c + i then old(files)[f].(closes := 1) else old(files)[f]
      {
        var f := active[i];
        files := files[f := files[f].(closes := files[f].closes + 1)];
      }
      active := [];
    }
  }

  lemma YoungBefore(files: seq<File>, active: seq<nat>, k: nat, now: real, length: int, step: int)
    requires Steady(files, active, k, now, length, step)
    ensures |active| <= MostOpen(length, step)
  {
    FewYoungFiles(files, |files| - |active|, length, step, now);
  }

  lemma OpenFailed(files: seq<File>, active: seq<nat>, k: nat, before: real, now: real, length: int, step: int)
    requires Steady(files, active, k, before, length, step) && before <= now
    ensures Broken(files, active, k, step, now)
  {
  }

  /** Older files expire first. */
  lemma ExpiredGrows(files: seq<File>, c: nat, i: nat, d: nat, now: real, length: int, step: int)
    requires ExpiredPrefix(files, c, i, d, now, length) && c + i < |files| && StartsSpaced(files, step, now) && step > 0
    ensures Expired(files[c + i], now, length) ==> d == i
    ensures ExpiredPrefix(files, c, i + 1, if Expired(files[c + i], now, length) then d + 1 else d, now, length)
  {
    forall f | c <= f < c + i ensures files[f].start <= files[c + i].start {
      ApartPositive(c + i - f, step);
    }
    assert d < i ==> files[c + d].start <= files[c + i].start && !Expired(files[c + d], now, length);
  }

  lemma {:induction false} ApartPositive(n: nat, step: int)
    requires step > 0
    ensures Apart(n, step) >= 0.0
  {
    if n > 0 {
      ApartPositive(n - 1, step);
    }
  }
}
