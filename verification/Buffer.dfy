/** Ring buffer and deduplicator of the ingress proxy (proxy/buffer.py). */
module Buffer {
  import opened Wrappers

  // ---------------------------------------------------------------------
  // Ring buffer
  // ---------------------------------------------------------------------

  /** The latest of the puts that fell into the slot. */
  function Latest<T>(puts: seq<(int, T)>, capacity: nat, slot: int): (r: Option<(int, T)>)
    requires capacity > 0
  {
    if puts == [] then None
    else
      var last := puts[|puts| - 1];
      if last.0 % capacity == slot then Some(last) else Latest(puts[..|puts| - 1], capacity, slot)
  }

  /** What the history of puts makes readable under an id: the latest put of its residue class, if it is its own. */
  function Lookup<T>(puts: seq<(int, T)>, capacity: nat, id: int): (r: Option<T>)
    requires capacity > 0
  {
    match Latest(puts, capacity, id % capacity)
    case Some(put) => if put.0 == id then Some(put.1) else None
    case None => None
  }

  /** The readable items from lo up to hi, as far as they are contiguous. */
  function Slice<T>(puts: seq<(int, T)>, capacity: nat, lo: int, hi: int): seq<T>
    requires capacity > 0
    decreases hi - lo + 1
  {
    if lo > hi then []
    else
      match Lookup(puts, capacity, lo)
      case Some(item) => [item] + Slice(puts, capacity, lo + 1, hi)
      case None => []
  }

  /** Puts numbered without gaps, as the deduplicator makes them. */
  ghost predicate Consecutive<T(!new)>(puts: seq<(int, T)>, base: int) {
    forall i :: 0 <= i < |puts| ==> puts[i].0 == base + i
  }

  /** The latest put of a class is the one with the greatest id of that class. */
  lemma {:induction false} LatestConsecutive<T(!new)>(puts: seq<(int, T)>, capacity: nat, base: int, id: int)
    requires capacity > 0 && Consecutive(puts, base)
    requires base <= id < base + |puts|
    requires id >= base + |puts| - capacity
    ensures Latest(puts, capacity, id % capacity) == Some(puts[id - base])
  {
    var last := |puts| - 1;
    if id < base + last {
      NearIdsDiffer(id, base + last, capacity);
      LatestConsecutive(puts[..last], capacity, base, id);
    }
  }

  lemma MultipleFarFromZero(capacity: int, d: int)
    requires capacity >= 0
    ensures d >= 1 ==> capacity * d >= capacity
    ensures d <= -1 ==> capacity * d <= -capacity
  {
    if d >= 1 {
      assert capacity * d - capacity == capacity * (d - 1) >= 0;
    } else if d <= -1 {
      assert -capacity - capacity * d == capacity * (-1 - d) >= 0;
    }
  }

  lemma NearIdsDiffer(a: int, b: int, capacity: nat)
    requires capacity > 0 && a < b < a + capacity
    ensures a % capacity != b % capacity
  {
    var q := b / capacity - a / capacity;
    assert b - a == capacity * q + (b % capacity - a % capacity);
    MultipleFarFromZero(capacity, q);
  }

  lemma {:induction false} LatestOutside<T(!new)>(puts: seq<(int, T)>, capacity: nat, base: int, id: int)
    requires capacity > 0 && Consecutive(puts, base)
    requires id >= base + |puts| || id < base
    ensures Latest(puts, capacity, id % capacity).Some? ==> Latest(puts, capacity, id % capacity).value.0 != id
  {
    if puts != [] {
      LatestOutside(puts[..|puts| - 1], capacity, base, id);
    }
  }

  /** The readable ids are exactly the last `capacity` ones. */
  lemma Window<T(!new)>(puts: seq<(int, T)>, capacity: nat, base: int, id: int)
    requires capacity > 0 && Consecutive(puts, base)
    ensures Lookup(puts, capacity, id)
         == if base <= id < base + |puts| && id >= base + |puts| - capacity then Some(puts[id - base].1) else None
  {
    if base <= id < base + |puts| {
      if id >= base + |puts| - capacity {
        LatestConsecutive(puts, capacity, base, id);
      } else {
        LatestConsecutive(puts, capacity, base, LastOfClass(base + |puts| - 1, capacity, id));
      }
    } else {
      LatestOutside(puts, capacity, base, id);
    }
  }

  /** The greatest number up to `last` in the class of id. */
  function LastOfClass(last: int, capacity: nat, id: int): (r: int)
    requires capacity > 0 && id <= last
    ensures last - capacity < r <= last && r >= id && r % capacity == id % capacity
  {
    SameRemainder(last, capacity, id);
    last - (last - id) % capacity
  }

  lemma RemainderUnique(a: int, capacity: nat, q: int, r: nat)
    requires capacity > 0 && r < capacity && a == capacity * q + r
    ensures a % capacity == r
  {
    var d := q - a / capacity;
    assert a % capacity - r == capacity * d;
    MultipleFarFromZero(capacity, d);
  }

  lemma SameRemainder(last: int, capacity: nat, id: int)
    requires capacity > 0 && id <= last
    ensures (last - (last - id) % capacity) % capacity == id % capacity
    ensures (last - id) % capacity <= last - id
  {
    var q := (last - id) / capacity;
    assert last - id == capacity * q + (last - id) % capacity;
    assert q >= 0;
    assert capacity * q >= 0;
    var p := id / capacity;
    assert id == capacity * p + id % capacity;
    assert capacity * (p + q) == capacity * p + capacity * q;
    RemainderUnique(id + capacity * q, capacity, p + q, id % capacity);
  }

  /** Everything from lo to hi, or to the last id, if lo lies in the window; else nothing. */
  function WindowSlice<T>(puts: seq<(int, T)>, capacity: nat, base: int, lo: int, hi: int): seq<T> {
    var end := base + |puts|;
    var stop := if hi + 1 < end then hi + 1 else end;
    if base <= lo < stop && lo >= end - capacity
    then seq(stop - lo, k requires 0 <= k < stop - lo => puts[lo - base + k].1)
    else []
  }

  lemma {:induction false} SliceOfWindow<T(!new)>(puts: seq<(int, T)>, capacity: nat, base: int, lo: int, hi: int)
    requires capacity > 0 && Consecutive(puts, base)
    ensures Slice(puts, capacity, lo, hi) == WindowSlice(puts, capacity, base, lo, hi)
    decreases hi - lo + 1
  {
    Window(puts, capacity, base, lo);
    if lo <= hi {
      SliceOfWindow(puts, capacity, base, lo + 1, hi);
    }
  }

  class RingBuffer<T> {
    const capacity: nat
    var slots: array<Option<T>>
    var seqIds: array<int>
    ghost var puts: seq<(int, T)>

    ghost predicate Valid()
      reads this, slots, seqIds
    {
      && capacity > 0
      && slots.Length == seqIds.Length == capacity
      && forall i :: 0 <= i < capacity ==> SlotIs(slots[i], seqIds[i], Latest(puts, capacity, i))
    }

    static ghost predicate SlotIs(item: Option<T>, id: int, latest: Option<(int, T)>) {
      match latest
      case Some(put) => item == Some(put.1) && id == put.0
      case None => item == None && id == -1
    }

    constructor (capacity: nat)
      requires capacity > 0
      ensures Valid() && fresh(slots) && fresh(seqIds)
      ensures this.capacity == capacity && puts == []
    {
      this.capacity := capacity;
      slots := new Option<T>[capacity](_ => None);
      seqIds := new int[capacity](_ => -1);
      puts := [];
    }

    method Put(sequenceId: int, item: T)
      requires Valid()
      modifies this`puts, slots, seqIds
      ensures Valid() && puts == old(puts) + [(sequenceId, item)]
    {
      var index := sequenceId % capacity;
      slots[index] := Some(item);
      seqIds[index] := sequenceId;
      puts := puts + [(sequenceId, item)];
      assert puts[..|puts| - 1] == old(puts);
    }

    method Get(sequenceId: int) returns (r: Option<T>)
      requires Valid()
      ensures r == Lookup(puts, capacity, sequenceId)
    {
      var index := sequenceId % capacity;
      if seqIds[index] == sequenceId {
        r := slots[index];
      } else {
        r := None;
      }
      assert SlotIs(slots[index], seqIds[index], Latest(puts, capacity, index));
    }

    method GetSlice(startSeq: int, endSeq: int) returns (r: seq<T>)
      requires Valid()
      ensures r == Slice(puts, capacity, startSeq, endSeq)
    {
      r := [];
      var id := startSeq;
      while id < endSeq + 1
        invariant r + Slice(puts, capacity, id, endSeq) == Slice(puts, capacity, startSeq, endSeq)
      {
        var item := Get(id);
        if item.None? {
          break;
        }
        r := r + [item.value];
        id := id + 1;
      }
    }

    method Clear()
      requires Valid()
      modifies this
      ensures Valid() && fresh(slots) && fresh(seqIds) && puts == []
    {
      slots := new Option<T>[capacity](_ => None);
      seqIds := new int[capacity](_ => -1);
      puts := [];
    }
  }

  // ---------------------------------------------------------------------
  // Deduplication as a function
  // ---------------------------------------------------------------------

  datatype TokenChunk = TokenChunk(requestId: string, sequenceId: int, token: string, isFinal: bool)

  datatype Verdict = Accept | Drop | Gap

  function Judge(last: int, sequenceId: int): Verdict {
    if sequenceId <= last then Drop else if sequenceId != last + 1 then Gap else Accept
  }

  /** _last_flushed */
  type Marks = map<string, int>

  function LastFlushed(marks: Marks, id: string): int {
    if id in marks then marks[id] else -1
  }

  function Recorded(marks: Marks, id: string, sequenceId: int): Marks {
    if sequenceId > LastFlushed(marks, id) then marks[id := sequenceId] else marks
  }

  function Filtered(marks: Marks, id: string, sequenceId: int): Marks {
    if Judge(LastFlushed(marks, id), sequenceId) == Accept then Recorded(marks, id, sequenceId) else marks
  }

  function Forgotten(marks: Marks, id: string): Marks {
    marks - {id}
  }

  datatype Op = FilterOp(id: string, sequenceId: int) | RecordOp(id: string, sequenceId: int) | ResetOp(id: string)

  function Apply(marks: Marks, op: Op): (Marks, Verdict) {
    match op
    case FilterOp(id, s) => (Filtered(marks, id, s), Judge(LastFlushed(marks, id), s))
    case RecordOp(id, s) => (Recorded(marks, id, s), Accept)
    case ResetOp(id) => (Forgotten(marks, id), Accept)
  }

  /** The verdicts on the operations of one request in a run, and its mark at the end. */
  function VerdictsFor(marks: Marks, ops: seq<Op>, id: string): (seq<Verdict>, int)
    decreases |ops|
  {
    if ops == [] then ([], LastFlushed(marks, id))
    else
      var (after, verdict) := Apply(marks, ops[0]);
      var (others, last) := VerdictsFor(after, ops[1..], id);
      (if ops[0].id == id then [verdict] + others else others, last)
  }

  function OpsOf(ops: seq<Op>, id: string): seq<Op> {
    if ops == [] then []
    else if ops[0].id == id then [ops[0]] + OpsOf(ops[1..], id)
    else OpsOf(ops[1..], id)
  }

  /** Interleaved requests do not disturb each other: each sees what it would see running alone. */
  lemma {:induction false} Isolation(marks: Marks, alone: Marks, ops: seq<Op>, id: string)
    requires LastFlushed(marks, id) == LastFlushed(alone, id)
    ensures VerdictsFor(marks, ops, id) == VerdictsFor(alone, OpsOf(ops, id), id)
    decreases |ops|
  {
    if ops != [] {
      var after := Apply(marks, ops[0]).0;
      if ops[0].id == id {
        Isolation(after, Apply(alone, ops[0]).0, ops[1..], id);
        assert OpsOf(ops, id)[1..] == OpsOf(ops[1..], id);
      } else {
        Isolation(after, alone, ops[1..], id);
      }
    }
  }

  /** After a reset the request is as if it had never been seen. */
  lemma ResetIsFresh(marks: Marks, ops: seq<Op>, id: string)
    ensures VerdictsFor(Forgotten(marks, id), ops, id) == VerdictsFor(map[], OpsOf(ops, id), id)
  {
    Isolation(Forgotten(marks, id), map[], ops, id);
  }

  // ---------------------------------------------------------------------
  // One stream through the deduplicator
  // ---------------------------------------------------------------------

  /** The chunks that pass, the mark afterwards, and whether a gap ended the stream. */
  datatype Passage = Passage(accepted: seq<TokenChunk>, last: int, gap: bool)

  function PassThrough(last: int, chunks: seq<TokenChunk>): Passage
    decreases |chunks|
  {
    if chunks == [] then Passage([], last, false)
    else
      match Judge(last, chunks[0].sequenceId)
      case Drop => PassThrough(last, chunks[1..])
      case Gap => Passage([], last, true)
      case Accept =>
        var others := PassThrough(last + 1, chunks[1..]);
        others.(accepted := [chunks[0]] + others.accepted)
  }

  ghost predicate NumberedFrom(chunks: seq<TokenChunk>, first: int) {
    forall k :: 0 <= k < |chunks| ==> chunks[k].sequenceId == first + k
  }

  /** Whatever arrives, what passes continues the numbering without gap or repetition. */
  lemma {:induction false} PassageIsNumbered(last: int, chunks: seq<TokenChunk>)
    ensures NumberedFrom(PassThrough(last, chunks).accepted, last + 1)
    ensures PassThrough(last, chunks).last == last + |PassThrough(last, chunks).accepted|
    decreases |chunks|
  {
    if chunks != [] {
      PassageIsNumbered(if Judge(last, chunks[0].sequenceId) == Accept then last + 1 else last, chunks[1..]);
    }
  }

  /** A consecutively numbered stream that starts no later than the next id passes without a gap, and exactly
      its part after the mark passes: what the stream replays makes no difference. */
  lemma {:induction false} ReplayTolerance(last: int, chunks: seq<TokenChunk>, first: int)
    requires NumberedFrom(chunks, first) && first <= last + 1
    ensures var unseen := if last + 1 - first <= |chunks| then chunks[last + 1 - first..] else [];
            PassThrough(last, chunks) == Passage(unseen, last + |unseen|, false)
    decreases |chunks|
  {
    if chunks != [] {
      if first <= last {
        ReplayTolerance(last, chunks[1..], first + 1);
      } else {
        ReplayTolerance(last + 1, chunks[1..], first + 1);
        assert chunks == [chunks[0]] + chunks[1..];
      }
    }
  }

  lemma {:induction false} PassThroughConcat(last: int, a: seq<TokenChunk>, b: seq<TokenChunk>)
    ensures var p := PassThrough(last, a);
            var q := PassThrough(p.last, b);
            PassThrough(last, a + b) == if p.gap then p else Passage(p.accepted + q.accepted, q.last, q.gap)
    decreases |a|
  {
    if a == [] {
      assert a + b == b;
      assert [] + PassThrough(last, b).accepted == PassThrough(last, b).accepted;
    } else {
      assert (a + b)[1..] == a[1..] + b;
      var next := if Judge(last, a[0].sequenceId) == Accept then last + 1 else last;
      PassThroughConcat(next, a[1..], b);
      if Judge(last, a[0].sequenceId) == Accept {
        var p := PassThrough(next, a[1..]);
        var q := PassThrough(p.last, b);
        assert [a[0]] + (p.accepted + q.accepted) == ([a[0]] + p.accepted) + q.accepted;
      }
    }
  }

  // ---------------------------------------------------------------------
  // The deduplicator
  // ---------------------------------------------------------------------

  /** A request's ring buffer received exactly the chunks numbered from 0 to its mark. */
  ghost predicate InStep(puts: seq<(int, TokenChunk)>, last: int) {
    Consecutive(puts, 0) && last == |puts| - 1
  }

  lemma InStepGrows(puts: seq<(int, TokenChunk)>, last: int, chunk: TokenChunk)
    ensures InStep(puts, last) && chunk.sequenceId == last + 1 ==>
              InStep(puts + [(chunk.sequenceId, chunk)], last + 1)
  {
  }

  class TokenDeduplicator {
    const bufferCapacity: nat
    var lastFlushed: Marks
    var buffers: map<string, RingBuffer<TokenChunk>>
    ghost var Repr: set<object>    // the ring buffers and their arrays

    ghost predicate Valid()
      reads this`buffers, this`Repr, Repr
    {
      && bufferCapacity > 0 && this !in Repr
      && (forall id :: id in buffers ==>
            && buffers[id] in Repr && buffers[id].slots in Repr && buffers[id].seqIds in Repr
            && buffers[id].Valid() && buffers[id].capacity == bufferCapacity)
      && (forall a, b :: a in buffers && b in buffers && a != b ==> Apart(buffers[a], buffers[b]))
    }

    static ghost predicate Apart(a: RingBuffer<TokenChunk>, b: RingBuffer<TokenChunk>)
      reads a, b
    {
      a != b && a.slots != b.slots && a.seqIds != b.seqIds
    }

    /** The chunks put into the ring buffer of a request since its last reset. */
    ghost function Accepted(id: string): seq<(int, TokenChunk)>
      reads this`buffers, buffers.Values
    {
      if id in buffers then buffers[id].puts else []
    }

    /** Ring buffers and marks are in step, for every request. */
    ghost predicate InOrder()
      reads this`buffers, this`lastFlushed, buffers.Values
    {
      forall id :: InStep(Accepted(id), LastFlushed(lastFlushed, id))
    }

    constructor (bufferCapacity: nat)
      requires bufferCapacity > 0
      ensures InOrder()
      ensures Valid() && Repr == {} && lastFlushed == map[] && buffers == map[]
      ensures this.bufferCapacity == bufferCapacity
    {
      this.bufferCapacity := bufferCapacity;
      lastFlushed := map[];
      buffers := map[];
      Repr := {};
    }

    method GetLastFlushed(requestId: string) returns (last: int)
      ensures last == LastFlushed(lastFlushed, requestId)
    {
      last := if requestId in lastFlushed then lastFlushed[requestId] else -1;
    }

    method RecordFlushed(requestId: string, sequenceId: int)
      modifies this`lastFlushed
      ensures lastFlushed == Recorded(old(lastFlushed), requestId, sequenceId)
      ensures old(InOrder()) ==> (InOrder() <==> sequenceId <= LastFlushed(old(lastFlushed), requestId))
    {
      var current := GetLastFlushed(requestId);
      if sequenceId > current {
        lastFlushed := lastFlushed[requestId := sequenceId];
        assert old(InStep(Accepted(requestId), LastFlushed(lastFlushed, requestId))) ==>
            !InStep(Accepted(requestId), LastFlushed(lastFlushed, requestId));
      }
    }

    method FilterChunk(requestId: string, chunk: TokenChunk) returns (verdict: Verdict)
      requires Valid()
      modifies this, Repr
      ensures Valid() && fresh(Repr - old(Repr))
      ensures verdict == Judge(LastFlushed(old(lastFlushed), requestId), chunk.sequenceId)
      ensures lastFlushed == Filtered(old(lastFlushed), requestId, chunk.sequenceId)
      ensures Accepted(requestId)
           == old(Accepted(requestId)) + if verdict == Accept then [(chunk.sequenceId, chunk)] else []
      ensures forall id :: id != requestId ==> Accepted(id) == old(Accepted(id))
      ensures old(InOrder()) ==> InOrder()
    {
      hide Latest;
      var last := GetLastFlushed(requestId);
      if chunk.sequenceId <= last {
        return Drop;
      }
      var expected := last + 1;
      if chunk.sequenceId != expected {
        return Gap;
      }
      Pass(requestId, chunk);
      verdict := Accept;
    }

    /** The next chunk is kept and recorded. */
    method Pass(requestId: string, chunk: TokenChunk)
      requires Valid() && chunk.sequenceId == LastFlushed(lastFlushed, requestId) + 1
      modifies this, Repr
      ensures Valid() && fresh(Repr - old(Repr))
      ensures lastFlushed == Filtered(old(lastFlushed), requestId, chunk.sequenceId)
      ensures Accepted(requestId) == old(Accepted(requestId)) + [(chunk.sequenceId, chunk)]
      ensures forall id :: id != requestId ==> Accepted(id) == old(Accepted(id))
      ensures old(InOrder()) ==> InOrder()
    {
      hide Latest, InStep;
      Store(requestId, chunk);
      RecordFlushed(requestId, chunk.sequenceId);
      InStepGrows(old(Accepted(requestId)), old(LastFlushed(lastFlushed, requestId)), chunk);
      forall id | old(InOrder())
        ensures InStep(Accepted(id), LastFlushed(lastFlushed, id))
      {
        assert old(InStep(Accepted(id), LastFlushed(lastFlushed, id)));
      }
    }

    method Store(requestId: string, chunk: TokenChunk)
      requires Valid()
      modifies this`buffers, this`Repr, Repr
      ensures Valid() && fresh(Repr - old(Repr))
      ensures Accepted(requestId) == old(Accepted(requestId)) + [(chunk.sequenceId, chunk)]
      ensures forall id :: id != requestId ==> Accepted(id) == old(Accepted(id))
    {
      MakeBuffer(requestId);
      PutInto(requestId, chunk);
    }

    method MakeBuffer(requestId: string)
      requires Valid()
      modifies this`buffers, this`Repr
      ensures Valid() && fresh(Repr - old(Repr))
      ensures requestId in buffers
      ensures forall id :: Accepted(id) == old(Accepted(id))
    {
      hide Latest;
      if requestId !in buffers {
        var ring := new RingBuffer<TokenChunk>(bufferCapacity);
        buffers := buffers[requestId := ring];
        Repr := Repr + {ring, ring.slots, ring.seqIds};
      }
    }

    method PutInto(requestId: string, chunk: TokenChunk)
      requires Valid() && requestId in buffers
      modifies Repr
      ensures Valid()
      ensures Accepted(requestId) == old(Accepted(requestId)) + [(chunk.sequenceId, chunk)]
      ensures forall id :: id != requestId ==> Accepted(id) == old(Accepted(id))
    {
      hide Latest;
      buffers[requestId].Put(chunk.sequenceId, chunk);
    }

    method ResetRequest(requestId: string)
      requires Valid()
      modifies this`lastFlushed, this`buffers
      ensures Valid()
      ensures lastFlushed == Forgotten(old(lastFlushed), requestId)
      ensures Accepted(requestId) == []
      ensures forall id :: id != requestId ==> Accepted(id) == old(Accepted(id))
      ensures old(InOrder()) ==> InOrder()
    {
      hide Latest;
      lastFlushed := lastFlushed - {requestId};
      buffers := buffers - {requestId};
    }
  }

  // ---------------------------------------------------------------------
  // Histories of the deduplicator
  // ---------------------------------------------------------------------

  /** What the proxy does with the deduplicator: it filters chunks and resets requests. */
  datatype Use = Filter(requestId: string, chunk: TokenChunk) | Reset(requestId: string)

  /** Marks, and the puts into each ring buffer since the last reset. */
  datatype History = History(marks: Marks, puts: map<string, seq<(int, TokenChunk)>>)

  function PutsOf(h: History, id: string): seq<(int, TokenChunk)> {
    if id in h.puts then h.puts[id] else []
  }

  function UseOnce(h: History, u: Use): History {
    match u
    case Filter(id, chunk) =>
      History(Filtered(h.marks, id, chunk.sequenceId),
              if Judge(LastFlushed(h.marks, id), chunk.sequenceId) == Accept
              then h.puts[id := PutsOf(h, id) + [(chunk.sequenceId, chunk)]] else h.puts)
    case Reset(id) => History(Forgotten(h.marks, id), h.puts - {id})
  }

  function UseAll(uses: seq<Use>): History {
    if uses == [] then History(map[], map[]) else UseOnce(UseAll(uses[..|uses| - 1]), uses[|uses| - 1])
  }

  /** The accepted chunks of a request since its last reset, from its own uses alone. */
  function AcceptedSince(uses: seq<Use>, id: string): seq<TokenChunk> {
    if uses == [] then []
    else
      var before := AcceptedSince(uses[..|uses| - 1], id);
      match uses[|uses| - 1]
      case Filter(x, chunk) => if x == id && chunk.sequenceId == |before| then before + [chunk] else before
      case Reset(x) => if x == id then [] else before
  }

  /** After every history of uses of any requests: a request's mark counts what it accepted since its last reset, and
      its ring buffer received just that, in order, chunk n under id n. */
  lemma {:induction false} HistoryInStep(uses: seq<Use>, id: string)
    ensures var h, accepted := UseAll(uses), AcceptedSince(uses, id);
            && LastFlushed(h.marks, id) == |accepted| - 1
            && |PutsOf(h, id)| == |accepted|
            && (forall n :: 0 <= n < |accepted| ==> accepted[n].sequenceId == n && PutsOf(h, id)[n] == (n, accepted[n]))
            && InStep(PutsOf(h, id), LastFlushed(h.marks, id))
  {
    if uses != [] {
      HistoryInStep(uses[..|uses| - 1], id);
    }
  }

  /** So at every time exactly the last `capacity` accepted chunks of a request are readable, each under its own id, and
      a slice yields the part of them it asks for. */
  lemma DeduplicatorWindow(uses: seq<Use>, id: string, capacity: nat, lo: int, hi: int)
    requires capacity > 0
    ensures var puts, accepted := PutsOf(UseAll(uses), id), AcceptedSince(uses, id);
            && (forall n :: Lookup(puts, capacity, n)
                  == if 0 <= n < |accepted| && n >= |accepted| - capacity then Some(accepted[n]) else None)
            && Slice(puts, capacity, lo, hi) == WindowSlice(puts, capacity, 0, lo, hi)
  {
    hide UseAll, AcceptedSince, Lookup, Slice;
    var puts, accepted := PutsOf(UseAll(uses), id), AcceptedSince(uses, id);
    HistoryInStep(uses, id);
    SliceOfWindow(puts, capacity, 0, lo, hi);
    forall n
      ensures Lookup(puts, capacity, n)
           == if 0 <= n < |accepted| && n >= |accepted| - capacity then Some(accepted[n]) else None
    {
      Window(puts, capacity, 0, n);
    }
  }
}
