/**
 The packet pool of the jitter buffer as a value, the steps of its producer and consumer as
 functions on that value, and what those steps mean: the pool is a first-in first-out stream of bytes.
 */
module PacketPool {

  const AJD: nat := 32

  type Byte = b: int | 0 <= b < 256

  // `bytes` is what is left to read in the slot, whether or not the slot is live.
  datatype Slot = Slot(live: bool, time: real, bytes: seq<Byte>)

  // `part` is the chunk under construction: the first `out_have` bytes of the output buffer.
  datatype Pool = Pool(slots: seq<Slot>, last: real, part: seq<Byte>)

  datatype Copied = Copied(pool: Pool, done: bool, chunk: seq<Byte>, ts: int)

  function EmptyPool(): Pool {
    Pool(seq(AJD, _ => Slot(false, 0.0, [])), 0.0, [])
  }

  // `ts` is what is left of the time `t` without its fraction.
  predicate Reports(ts: int, t: real) {
    if t >= 0.0 then ts as real <= t < ts as real + 1.0 else ts as real - 1.0 < t <= ts as real
  }

  // C's conversion of a double to an int.
  function Truncate(r: real): (ts: int)
    ensures Reports(ts, r)
  {
    if r >= 0.0 then r.Floor else -((-r).Floor)
  }

  // ---------- Choosing a slot ----------

  predicate Eligible(p: Pool, i: int) {
    0 <= i < |p.slots| && p.slots[i].live && p.slots[i].time <= p.last
  }

  // The order in which slots are read: by time, the highest index first among equal times.
  predicate Before(p: Pool, i: nat, j: nat)
    requires i < |p.slots| && j < |p.slots|
  {
    p.slots[i].time < p.slots[j].time || (p.slots[i].time == p.slots[j].time && j <= i)
  }

  predicate First(p: Pool, n: nat, r: int)
    requires n <= |p.slots|
  {
    -1 <= r < n &&
    if r == -1 then forall j | 0 <= j < n :: !Eligible(p, j)
    else Eligible(p, r) && forall j | 0 <= j < n && Eligible(p, j) :: Before(p, r, j)
  }

  // The slot to read next among the first `n`, or -1.
  function NextBelow(p: Pool, n: nat): (r: int)
    requires n <= |p.slots|
    ensures First(p, n, r)
  {
    if n == 0 then -1
    else
      var b := NextBelow(p, n - 1);
      if Eligible(p, n - 1) && (b == -1 || p.slots[n - 1].time <= p.slots[b].time) then n - 1 else b
  }

  function Next(p: Pool): (r: int)
    ensures First(p, |p.slots|, r)
  {
    NextBelow(p, |p.slots|)
  }

  lemma NextIsUnique(p: Pool, r: int)
    requires First(p, |p.slots|, r)
    ensures r == Next(p)
  {
    if r != -1 && Next(p) != -1 {
      assert Before(p, r, Next(p)) && Before(p, Next(p), r);
    }
  }

  // ---------- Producer ----------

  predicate Full(p: Pool) {
    forall i | 0 <= i < |p.slots| :: p.slots[i].live
  }

  function FirstFree(p: Pool, from: nat): (r: nat)
    requires from <= |p.slots|
    ensures from <= r <= |p.slots|
    ensures forall i | from <= i < r :: p.slots[i].live
    ensures r < |p.slots| ==> !p.slots[r].live
    decreases |p.slots| - from
  {
    if from == |p.slots| || !p.slots[from].live then from else FirstFree(p, from + 1)
  }

  // `used = 1; last = 0`: every slot is dropped, except that slot 0 keeps its bit.
  function Reset(p: Pool): Pool {
    p.(slots := seq(|p.slots|, i requires 0 <= i < |p.slots| => p.slots[i].(live := i == 0)), last := 0.0)
  }

  function ReservedSlot(p: Pool): nat {
    if Full(p) then 0 else FirstFree(p, 0)
  }

  function Reserve(p: Pool): Pool {
    if Full(p) then Reset(p) else p
  }

  function Fill(p: Pool, i: nat, payload: seq<Byte>): Pool
    requires i < |p.slots|
  {
    p.(slots := p.slots[i := p.slots[i].(bytes := payload)])
  }

  function Commit(p: Pool, i: nat, time: real): Pool
    requires i < |p.slots|
  {
    p.(slots := p.slots[i := p.slots[i].(live := true, time := time)], last := time)
  }

  function Put(p: Pool, i: nat, payload: seq<Byte>, time: real): Pool
    requires i < |p.slots|
  {
    Commit(Fill(p, i, payload), i, time)
  }

  // ---------- Consumer ----------

  function LiveIn(p: Pool, n: nat): (c: nat)
    requires n <= |p.slots|
    ensures c <= n
  {
    if n == 0 then 0 else LiveIn(p, n - 1) + if p.slots[n - 1].live then 1 else 0
  }

  function LiveCount(p: Pool): nat {
    LiveIn(p, |p.slots|)
  }

  function Drained(p: Pool, i: nat): Pool
    requires i < |p.slots|
  {
    p.(slots := p.slots[i := p.slots[i].(live := false, bytes := [])])
  }

  lemma {:induction false} DrainedIn(p: Pool, q: Pool, i: nat, n: nat)
    requires i < |p.slots| == |q.slots| && n <= |p.slots|
    requires p.slots[i].live && !q.slots[i].live
    requires forall j | 0 <= j < |p.slots| && j != i :: p.slots[j].live == q.slots[j].live
    ensures LiveIn(q, n) == LiveIn(p, n) - if i < n then 1 else 0
  {
    if n > 0 {
      DrainedIn(p, q, i, n - 1);
    }
  }

  // One turn of the copy loop: move bytes of slot `i` to the chunk under construction.
  function Take(p: Pool, i: nat, size: nat): Pool
    requires i < |p.slots| && |p.part| <= size
  {
    var b := p.slots[i].bytes;
    var n := if size - |p.part| < |b| then size - |p.part| else |b|;
    p.(slots := p.slots[i := p.slots[i].(bytes := b[n..], live := p.slots[i].live && n < |b|)], part := p.part + b[..n])
  }

  function CopyChunk(p: Pool, size: nat, ts: int): (r: Copied)
    requires |p.part| <= size
    ensures |p.part| < size ==> |r.pool.part| < size
    ensures |r.chunk| == (if r.done then size else 0) && |r.pool.slots| == |p.slots|
    decreases LiveCount(p)
  {
    var i := Next(p);
    if i == -1 then Copied(p, false, [], ts)
    else
      var q := Take(p, i, size);
      var ts' := Truncate(p.slots[i].time);
      if |q.part| < size then
        (DrainedIn(p, q, i, |p.slots|);
         CopyChunk(q, size, ts'))
      else Copied(q.(part := []), true, q.part, ts')
  }

  // ---------- The pool as a stream ----------

  // Everything the consumer could read now, in reading order.
  function Backlog(p: Pool): seq<Byte>
    decreases LiveCount(p)
  {
    var i := Next(p);
    if i == -1 then []
    else
      (DrainedIn(p, Drained(p, i), i, |p.slots|);
       p.slots[i].bytes + Backlog(Drained(p, i)))
  }

  function Stream(p: Pool): seq<Byte> {
    p.part + Backlog(p)
  }

  // The part of the pool a consumer cannot reach does not change.
  predicate SameElsewhere(p: Pool, q: Pool) {
    |p.slots| == |q.slots| && p.last == q.last &&
    forall j | 0 <= j < |p.slots| && !Eligible(p, j) :: q.slots[j] == p.slots[j]
  }

  // Reading makes no slot live and changes no time.
  predicate NoNewLive(p: Pool, q: Pool) {
    |p.slots| == |q.slots| &&
    forall j | 0 <= j < |p.slots| :: (q.slots[j].live ==> p.slots[j].live) && q.slots[j].time == p.slots[j].time
  }

  lemma BacklogOnlyReadsEligible(p: Pool, q: Pool)
    requires |p.slots| == |q.slots|
    requires forall j | 0 <= j < |p.slots| :: Eligible(p, j) == Eligible(q, j)
    requires forall j | 0 <= j < |p.slots| && Eligible(p, j) :: p.slots[j] == q.slots[j]
    ensures Next(p) == Next(q)
    ensures Backlog(p) == Backlog(q)
    decreases LiveCount(p)
  {
    var i := Next(p);
    assert First(q, |q.slots|, i) by {
      if i != -1 {
        forall j | 0 <= j < |q.slots| && Eligible(q, j) ensures Before(q, i, j) {
          assert Eligible(p, j) && Before(p, i, j);
        }
      }
    }
    NextIsUnique(q, i);
    if i != -1 {
      var p', q' := Drained(p, i), Drained(q, i);
      DrainedIn(p, p', i, |p.slots|);
      assert forall j | 0 <= j < |p.slots| && j != i ::
          Eligible(p', j) == Eligible(p, j) && Eligible(q', j) == Eligible(q, j);
      BacklogOnlyReadsEligible(p', q');
    }
  }

  // ---------- What a chunk call does ----------

  lemma TakeLeavesRest(p: Pool, size: nat)
    requires |p.part| <= size && Next(p) != -1
    ensures SameElsewhere(p, Take(p, Next(p), size)) && NoNewLive(p, Take(p, Next(p), size))
  {
  }

  lemma TakeWhole(p: Pool, size: nat)
    requires |p.part| <= size && Next(p) != -1
    requires |p.slots[Next(p)].bytes| <= size - |p.part|
    ensures Stream(Take(p, Next(p), size)) == Stream(p)
  {
    var i := Next(p);
    var q, d := Take(p, i, size), Drained(p, i);
    DrainedIn(p, d, i, |p.slots|);
    assert q.slots[i] == d.slots[i];
    assert q.slots == d.slots;
    BacklogOnlyReadsEligible(q, d);
  }

  lemma TakeFrontKeepsNext(p: Pool, size: nat)
    requires |p.part| <= size && Next(p) != -1
    requires |p.slots[Next(p)].bytes| > size - |p.part|
    ensures Next(Take(p, Next(p), size)) == Next(p)
    ensures Drained(Take(p, Next(p), size), Next(p)).slots == Drained(p, Next(p)).slots
  {
    var i := Next(p);
    var q := Take(p, i, size);
    forall j | 0 <= j < |q.slots| && Eligible(q, j) ensures Before(q, i, j) {
      assert Eligible(p, j) && Before(p, i, j);
    }
    NextIsUnique(q, i);
  }

  lemma TakeFront(p: Pool, size: nat)
    requires |p.part| <= size && Next(p) != -1
    requires |p.slots[Next(p)].bytes| > size - |p.part|
    ensures Stream(Take(p, Next(p), size)) == Stream(p)
  {
    var i := Next(p);
    var b, q := p.slots[i].bytes, Take(p, i, size);
    TakeFrontKeepsNext(p, size);
    DrainedIn(p, Drained(p, i), i, |p.slots|);
    DrainedIn(q, Drained(q, i), i, |q.slots|);
    BacklogOnlyReadsEligible(Drained(p, i), Drained(q, i));
    assert q.part + q.slots[i].bytes == p.part + b;
    assert Stream(q) == (q.part + q.slots[i].bytes) + Backlog(Drained(q, i));
    assert Stream(p) == (p.part + b) + Backlog(Drained(p, i));
  }

  lemma TakeKeepsStream(p: Pool, size: nat)
    requires |p.part| <= size && Next(p) != -1
    ensures Stream(Take(p, Next(p), size)) == Stream(p)
    ensures SameElsewhere(p, Take(p, Next(p), size)) && NoNewLive(p, Take(p, Next(p), size))
  {
    TakeLeavesRest(p, size);
    if |p.slots[Next(p)].bytes| <= size - |p.part| {
      TakeWhole(p, size);
    } else {
      TakeFront(p, size);
    }
  }

  lemma TakeFits(p: Pool, i: nat, size: nat)
    requires i < |p.slots| && |p.part| <= size
    ensures |Take(p, i, size).part| <= size
  {
  }

  // The last turn of the loop: the chunk is full.
  lemma LastTake(p: Pool, size: nat, ts: int)
    requires |p.part| < size && Next(p) != -1 && |Take(p, Next(p), size).part| >= size
    ensures var r := CopyChunk(p, size, ts);
            && r.done && |Stream(p)| >= size && r.chunk == Stream(p)[..size]
            && r.pool.part == [] && Stream(r.pool) == Stream(p)[size..]
            && SameElsewhere(p, r.pool) && NoNewLive(p, r.pool)
  {
    hide Take, Backlog, Eligible;
    var q := Take(p, Next(p), size);
    TakeKeepsStream(p, size);
    TakeFits(p, Next(p), size);
    assert Stream(q) == q.part + Backlog(q);
    SameBacklog(q, q.(part := []));
  }

  lemma SameBacklog(p: Pool, q: Pool)
    requires p.slots == q.slots && p.last == q.last
    ensures Backlog(p) == Backlog(q) && Stream(q) == q.part + Backlog(p)
    ensures SameElsewhere(p, q)
  {
    BacklogOnlyReadsEligible(p, q);
  }

  // Any other turn: the rest of the call goes on from what it leaves.
  lemma CopyGoesOn(p: Pool, size: nat, ts: int)
    requires |p.part| < size && Next(p) != -1 && |Take(p, Next(p), size).part| < size
    ensures CopyChunk(p, size, ts) == CopyChunk(Take(p, Next(p), size), size, Truncate(p.slots[Next(p)].time))
    ensures LiveCount(Take(p, Next(p), size)) < LiveCount(p)
  {
    DrainedIn(p, Take(p, Next(p), size), Next(p), |p.slots|);
  }

  lemma SameInTurn(p: Pool, q: Pool, r: Pool)
    requires SameElsewhere(p, q) && NoNewLive(p, q) && SameElsewhere(q, r) && NoNewLive(q, r)
    ensures SameElsewhere(p, r) && NoNewLive(p, r)
  {
  }

  /**
   A chunk call takes `size` bytes off the front of the stream when the stream holds that many.
   Otherwise it fails, and the whole stream is in the chunk under construction.
   */
  lemma {:induction false} CopyChunkReadsStream(p: Pool, size: nat, ts: int)
    requires |p.part| < size
    ensures var r := CopyChunk(p, size, ts);
            && (r.done <==> |Stream(p)| >= size)
            && (r.done ==> r.chunk == Stream(p)[..size] && r.pool.part == [] && Stream(r.pool) == Stream(p)[size..])
            && (!r.done ==> r.pool.part == Stream(p) == Stream(r.pool) && Next(r.pool) == -1 && |r.pool.part| < size)
            && SameElsewhere(p, r.pool) && NoNewLive(p, r.pool)
    decreases LiveCount(p)
  {
    hide Take, SameElsewhere, NoNewLive;
    var i := Next(p);
    if i == -1 {
      NothingRead(p);
    } else if |Take(p, i, size).part| < size {
      var q := Take(p, i, size);
      TakeKeepsStream(p, size);
      CopyGoesOn(p, size, ts);
      CopyChunkReadsStream(q, size, Truncate(p.slots[i].time));
      SameInTurn(p, q, CopyChunk(q, size, Truncate(p.slots[i].time)).pool);
    } else {
      LastTake(p, size, ts);
    }
  }

  lemma NothingRead(p: Pool)
    requires Next(p) == -1
    ensures SameElsewhere(p, p) && NoNewLive(p, p) && Stream(p) == p.part
  {
  }

  // ---------- The reading order ----------

  function ReadingOrder(p: Pool): (order: seq<nat>)
    ensures forall k | 0 <= k < |order| :: Eligible(p, order[k])
    decreases LiveCount(p)
  {
    var i := Next(p);
    if i == -1 then []
    else
      var d := Drained(p, i);
      DrainedIn(p, d, i, |p.slots|);
      assert forall j | 0 <= j < |p.slots| && Eligible(d, j) :: Eligible(p, j);
      [i] + ReadingOrder(d)
  }

  function BytesOf(p: Pool, order: seq<nat>): seq<Byte>
    requires forall k | 0 <= k < |order| :: order[k] < |p.slots|
  {
    if order == [] then [] else p.slots[order[0]].bytes + BytesOf(p, order[1..])
  }

  lemma {:induction false} BytesOfSame(p: Pool, q: Pool, order: seq<nat>)
    requires forall k | 0 <= k < |order| :: order[k] < |p.slots| && order[k] < |q.slots|
    requires forall k | 0 <= k < |order| :: p.slots[order[k]].bytes == q.slots[order[k]].bytes
    ensures BytesOf(p, order) == BytesOf(q, order)
  {
    if order != [] {
      BytesOfSame(p, q, order[1..]);
    }
  }

  lemma {:induction false} BacklogIsBytesInOrder(p: Pool)
    ensures Backlog(p) == BytesOf(p, ReadingOrder(p))
    decreases LiveCount(p)
  {
    var i := Next(p);
    if i != -1 {
      var d := Drained(p, i);
      DrainedIn(p, d, i, |p.slots|);
      BacklogIsBytesInOrder(d);
      assert ReadingOrder(p)[1..] == ReadingOrder(d);
      BytesOfSame(p, d, ReadingOrder(d));
    }
  }

  predicate ByTime(p: Pool, order: seq<nat>) {
    (forall k | 0 <= k < |order| :: order[k] < |p.slots|) &&
    (forall k, l | 0 <= k < l < |order| :: order[k] != order[l] && Before(p, order[k], order[l]))
  }

  lemma {:induction false} ReadingOrderIsByTime(p: Pool)
    ensures ByTime(p, ReadingOrder(p))
    decreases LiveCount(p)
  {
    var i := Next(p);
    if i != -1 {
      var d, order := Drained(p, i), ReadingOrder(p);
      DrainedIn(p, d, i, |p.slots|);
      var rest := ReadingOrder(d);
      assert order == [i] + rest;
      ReadingOrderIsByTime(d);
      forall l | 0 <= l < |rest| ensures rest[l] != i && Before(p, i, rest[l]) {
        assert Eligible(d, rest[l]) && Eligible(p, rest[l]);
      }
      forall k, l | 0 <= k < l < |order| ensures order[k] != order[l] && Before(p, order[k], order[l]) {
        assert order[l] == rest[l - 1];
        if k > 0 {
          assert order[k] == rest[k - 1];
          assert Before(d, rest[k - 1], rest[l - 1]);
        }
      }
    }
  }

  lemma {:induction false} ReadingOrderIsComplete(p: Pool, j: nat)
    requires Eligible(p, j)
    ensures j in ReadingOrder(p)
    decreases LiveCount(p)
  {
    var i := Next(p);
    var d := Drained(p, i);
    DrainedIn(p, d, i, |p.slots|);
    if j != i {
      assert Eligible(d, j);
      ReadingOrderIsComplete(d, j);
    }
  }

  /** The backlog is the bytes of the eligible slots, each slot once, in order of time whatever the commit order was. */
  lemma BacklogIsInTimeOrder(p: Pool)
    ensures var order := ReadingOrder(p);
            && Backlog(p) == BytesOf(p, order)
            && (forall i :: Eligible(p, i) <==> i in order)
            && ByTime(p, order)
  {
    BacklogIsBytesInOrder(p);
    ReadingOrderIsByTime(p);
    forall i ensures Eligible(p, i) <==> i in ReadingOrder(p) {
      if Eligible(p, i) {
        ReadingOrderIsComplete(p, i);
      }
    }
  }

  lemma TakeDrains(p: Pool, i: nat, size: nat)
    requires i < |p.slots| && |p.part| <= size && p.slots[i].live && |p.slots[i].bytes| <= size - |p.part|
    ensures var q := Take(p, i, size);
            && q == Drained(p, i).(part := p.part + p.slots[i].bytes) && |q.slots| == |p.slots|
            && (forall j | 0 <= j < |p.slots| && j != i :: q.slots[j] == p.slots[j])
            && !Eligible(q, i)
  {
    var b := p.slots[i].bytes;
    assert b[|b|..] == [] && b[..|b|] == b;
    assert Take(p, i, size).slots[i] == Drained(p, i).slots[i];
    assert Take(p, i, size).slots == Drained(p, i).slots;
  }

  // Taking all of the next slot leaves the rest of the order.
  lemma OrderAfterTake(p: Pool, size: nat)
    requires |p.part| <= size && Next(p) != -1
    requires |p.slots[Next(p)].bytes| <= size - |p.part|
    ensures var q, i, order := Take(p, Next(p), size), Next(p), ReadingOrder(p);
            && order == [i] + ReadingOrder(q) && q.part == p.part + p.slots[i].bytes
            && (forall k | 0 <= k < |ReadingOrder(q)| :: ReadingOrder(q)[k] != i)
            && (forall j | 0 <= j < |p.slots| && j != i :: q.slots[j] == p.slots[j])
  {
    hide Take, Drained, Before;
    var i := Next(p);
    TakeDrains(p, i, size);
    OrderIgnoresPart(Take(p, i, size), Drained(p, i));
    assert forall k | 0 <= k < |ReadingOrder(Take(p, i, size))| :: Eligible(Take(p, i, size),
        ReadingOrder(Take(p, i, size))[k]);
  }

  lemma {:induction false} OrderIgnoresPart(p: Pool, q: Pool)
    requires p.slots == q.slots && p.last == q.last
    ensures ReadingOrder(p) == ReadingOrder(q)
    decreases LiveCount(p)
  {
    BacklogOnlyReadsEligible(p, q);
    var i := Next(p);
    if i != -1 {
      DrainedIn(p, Drained(p, i), i, |p.slots|);
      OrderIgnoresPart(Drained(p, i), Drained(q, i));
    }
  }

  // A chunk call reads the first `m` slots of the reading order, no more than it needs, and reports the time of the
  // last.
  predicate ReadsFirst(p: Pool, size: nat, ts: int, m: nat)
    requires |p.part| <= size
  {
    var r, order := CopyChunk(p, size, ts), ReadingOrder(p);
    && m <= |order|
    && (if m == 0 then r.ts == ts else Reports(r.ts, p.slots[order[m - 1]].time))
    && (if r.done then
          m > 0 && |p.part| + |BytesOf(p, order[..m - 1])| < size <= |p.part| + |BytesOf(p, order[..m])|
        else m == |order|)
  }

  lemma BytesOfFirst(p: Pool, i: nat, q: Pool, rest: seq<nat>)
    requires i < |p.slots| == |q.slots|
    requires forall k | 0 <= k < |rest| :: rest[k] < |p.slots| && p.slots[rest[k]].bytes == q.slots[rest[k]].bytes
    ensures BytesOf(p, [i] + rest) == p.slots[i].bytes + BytesOf(q, rest)
  {
    assert ([i] + rest)[1..] == rest;
    BytesOfSame(p, q, rest);
  }

  lemma ReadsOneMore(p: Pool, size: nat, ts: int, n: nat)
    requires |p.part| < size && Next(p) != -1 && |p.slots[Next(p)].bytes| < size - |p.part|
    requires ReadsFirst(Take(p, Next(p), size), size, Truncate(p.slots[Next(p)].time), n)
    ensures ReadsFirst(p, size, ts, n + 1)
  {
    hide BytesOf, Next, ReadingOrder;
    var i, order := Next(p), ReadingOrder(p);
    var q := Take(p, i, size);
    var rest := ReadingOrder(q);
    OrderAfterTake(p, size);
    BytesOfFirst(p, i, q, rest[..n]);
    assert order[..n + 1] == [i] + rest[..n];
    if n > 0 {
      BytesOfFirst(p, i, q, rest[..n - 1]);
      assert order[..n] == [i] + rest[..n - 1];
    } else {
      assert order[..0] == [];
      NoBytes(p);
    }
  }

  lemma NoBytes(p: Pool)
    ensures BytesOf(p, []) == []
  {
  }

  lemma ReadsJustOne(p: Pool, size: nat, ts: int)
    requires |p.part| < size && Next(p) != -1 && |p.slots[Next(p)].bytes| >= size - |p.part|
    ensures ReadsFirst(p, size, ts, 1)
  {
    hide Eligible, BytesOf;
    var i, order := Next(p), ReadingOrder(p);
    BytesOfFirst(p, i, p, []);
    assert order[0] == i && order[..1] == [i] + [] && order[..0] == [];
    NoBytes(p);
  }

  /** There is such a number of slots for every chunk call. */
  lemma {:induction false} ChunkTime(p: Pool, size: nat, ts: int)
    requires |p.part| < size
    ensures exists m :: ReadsFirst(p, size, ts, m)
    decreases LiveCount(p)
  {
    hide ReadsFirst;
    var i := Next(p);
    if i == -1 {
      ReadsNothing(p, size, ts);
    } else {
      var q := Take(p, i, size);
      if |q.part| < size {
        DrainedIn(p, q, i, |p.slots|);
        ChunkTime(q, size, Truncate(p.slots[i].time));
        var n :| ReadsFirst(q, size, Truncate(p.slots[i].time), n);
        ReadsOneMore(p, size, ts, n);
      } else {
        ReadsJustOne(p, size, ts);
      }
    }
  }

  /** A packet put with a whole number for its time is reported with that number. */
  lemma NumberIsReported(p: Pool, size: nat, ts: int, m: nat, number: int)
    requires |p.part| <= size && ReadsFirst(p, size, ts, m) && m > 0
    requires p.slots[ReadingOrder(p)[m - 1]].time == number as real
    ensures CopyChunk(p, size, ts).ts == number
  {
    hide CopyChunk, ReadingOrder, BytesOf;
  }

  lemma ReadsNothing(p: Pool, size: nat, ts: int)
    requires |p.part| < size && Next(p) == -1
    ensures ReadsFirst(p, size, ts, 0)
  {
  }

  // ---------- What a commit does ----------

  // A packet put into slot `i` with this time is read after the live slots: they are earlier, or as early and higher.
  predicate ReadAfter(p: Pool, i: nat, time: real) {
    forall j | 0 <= j < |p.slots| && j != i && p.slots[j].live ::
      p.slots[j].time < time || (p.slots[j].time == time && i < j)
  }

  /**
   Committing a packet that is read last into a slot the consumer could not reach appends its payload to the
   stream.
   */
  lemma {:induction false} PutAppends(p: Pool, i: nat, payload: seq<Byte>, time: real)
    requires i < |p.slots| && !Eligible(p, i) && p.last <= time && ReadAfter(p, i, time)
    requires forall j | 0 <= j < |p.slots| && j != i && p.slots[j].live :: p.slots[j].time <= p.last
    ensures Stream(Put(p, i, payload, time)) == Stream(p) + payload
  {
    PutAppendsBacklog(p, i, payload, time);
  }

  // What a consumer cannot reach, and what it reads last.
  predicate ReadLast(p: Pool, i: nat, time: real) {
    && i < |p.slots| && !Eligible(p, i) && p.last <= time && ReadAfter(p, i, time)
    && forall j | 0 <= j < |p.slots| && j != i && p.slots[j].live :: p.slots[j].time <= p.last
  }

  lemma PutAlone(p: Pool, i: nat, payload: seq<Byte>, time: real)
    requires ReadLast(p, i, time) && Next(p) == -1
    ensures Backlog(Put(p, i, payload, time)) == payload
  {
    var q := Put(p, i, payload, time);
    assert forall j | 0 <= j < |p.slots| && j != i :: Eligible(q, j) ==> Eligible(p, j);
    OneEligibleSlot(q, i);
  }

  lemma PutKeepsNext(p: Pool, i: nat, payload: seq<Byte>, time: real)
    requires ReadLast(p, i, time) && Next(p) != -1
    ensures var q, k := Put(p, i, payload, time), Next(p);
            && Next(q) == k != i && q.slots[k] == p.slots[k]
            && Drained(q, k) == Put(Drained(p, k), i, payload, time) && ReadLast(Drained(p, k), i, time)
            && i < |Drained(p, k).slots|
  {
    var q := Put(p, i, payload, time);
    var k := Next(p);
    forall j | 0 <= j < |q.slots| && Eligible(q, j) ensures Before(q, k, j) {
      if j != i {
        assert Eligible(p, j) && Before(p, k, j);
      }
    }
    NextIsUnique(q, k);
    assert Drained(q, k).slots == Put(Drained(p, k), i, payload, time).slots;
  }

  lemma BacklogStartsWithNext(p: Pool)
    requires Next(p) != -1
    ensures Backlog(p) == p.slots[Next(p)].bytes + Backlog(Drained(p, Next(p)))
    ensures LiveCount(Drained(p, Next(p))) < LiveCount(p)
  {
    DrainedIn(p, Drained(p, Next(p)), Next(p), |p.slots|);
  }

  lemma {:induction false} PutAppendsBacklog(p: Pool, i: nat, payload: seq<Byte>, time: real)
    requires i < |p.slots| && ReadLast(p, i, time)
    ensures Backlog(Put(p, i, payload, time)) == Backlog(p) + payload
    decreases LiveCount(p)
  {
    hide ReadLast, Put, Drained, Backlog;
    var k := Next(p);
    if k == -1 {
      PutAlone(p, i, payload, time);
      NoBacklog(p);
    } else {
      PutKeepsNext(p, i, payload, time);
      BacklogStartsWithNext(p);
      BacklogStartsWithNext(Put(p, i, payload, time));
      PutAppendsBacklog(Drained(p, k), i, payload, time);
    }
  }

  lemma NoBacklog(p: Pool)
    requires Next(p) == -1
    ensures Backlog(p) == []
  {
  }

  /** After a commit the consumer can read that slot, and of the others exactly those live that are not later. */
  lemma CommitOpens(p: Pool, i: nat, payload: seq<Byte>, time: real, j: int)
    requires i < |p.slots| && 0 <= j < |p.slots|
    ensures var q := Put(p, i, payload, time);
            && (Eligible(q, j) <==> j == i || (p.slots[j].live && p.slots[j].time <= time))
            && q.slots[j] == (if j == i then Slot(true, time, payload) else p.slots[j])
  {
  }

  // ---------- How many of each byte the live slots hold ----------

  function Held(s: Slot): multiset<Byte> {
    if s.live then multiset(s.bytes) else multiset{}
  }

  // The bytes of the first `n` slots that are live, readable or not, without those of slot `skip`.
  function HeldIn(p: Pool, skip: int, n: nat): multiset<Byte>
    requires n <= |p.slots|
  {
    if n == 0 then multiset{}
    else if skip == n - 1 then HeldIn(p, skip, n - 1)
    else HeldIn(p, skip, n - 1) + Held(p.slots[n - 1])
  }

  lemma Swap(a: multiset<Byte>, b: multiset<Byte>, c: multiset<Byte>)
    ensures a + b + c == a + c + b
  {
  }

  lemma {:induction false} OneSlotHolds(p: Pool, q: Pool, skip: int, i: nat, n: nat)
    requires i < |p.slots| == |q.slots| && n <= |p.slots| && i != skip
    requires forall j | 0 <= j < |p.slots| && j != i && j != skip :: Held(p.slots[j]) == Held(q.slots[j])
    ensures if i < n then HeldIn(q, skip, n) + Held(p.slots[i]) == HeldIn(p, skip, n) + Held(q.slots[i])
            else HeldIn(q, skip, n) == HeldIn(p, skip, n)
  {
    hide Held;
    if n > 0 {
      OneSlotHolds(p, q, skip, i, n - 1);
      if i == n - 1 {
        Swap(HeldIn(p, skip, n - 1), Held(p.slots[i]), Held(q.slots[i]));
      } else if i < n && skip != n - 1 {
        Swap(HeldIn(q, skip, n - 1), Held(p.slots[n - 1]), Held(p.slots[i]));
        Swap(HeldIn(p, skip, n - 1), Held(p.slots[n - 1]), Held(q.slots[i]));
      }
    }
  }

  lemma {:induction false} SkippedSlot(p: Pool, skip: int, n: nat)
    requires n <= |p.slots|
    ensures HeldIn(p, -1, n) == if 0 <= skip < n then HeldIn(p, skip, n) + Held(p.slots[skip]) else HeldIn(p, skip, n)
  {
    hide Held;
    if n > 0 {
      SkippedSlot(p, skip, n - 1);
      if 0 <= skip < n - 1 {
        Swap(HeldIn(p, skip, n - 1), Held(p.slots[skip]), Held(p.slots[n - 1]));
      }
    }
  }

  lemma TakeMovesBytes(p: Pool, size: nat)
    requires |p.part| <= size && Next(p) != -1
    ensures var i, q := Next(p), Take(p, Next(p), size);
            multiset(q.part) + Held(q.slots[i]) == multiset(p.part) + Held(p.slots[i])
  {
    var i := Next(p);
    var b := p.slots[i].bytes;
    var n := if size - |p.part| < |b| then size - |p.part| else |b|;
    assert b == b[..n] + b[n..];
    assert multiset(p.part + b[..n]) == multiset(p.part) + multiset(b[..n]);
    assert n == |b| ==> b[n..] == [];
  }

  // What leaves a slot comes into the partial chunk.
  lemma Moved(qPart: multiset<Byte>, qHeld: multiset<Byte>, qSlot: multiset<Byte>,
              pPart: multiset<Byte>, pHeld: multiset<Byte>, pSlot: multiset<Byte>)
    requires qPart + qSlot == pPart + pSlot && qHeld + pSlot == pHeld + qSlot
    ensures qPart + qHeld == pPart + pHeld
  {
    forall x | x in qPart + qHeld + pPart + pHeld ensures (qPart + qHeld)[x] == (pPart + pHeld)[x] {
      assert (qPart + qSlot)[x] == (pPart + pSlot)[x] && (qHeld + pSlot)[x] == (pHeld + qSlot)[x];
    }
    assert forall x :: (qPart + qHeld)[x] == (pPart + pHeld)[x];
  }

  /** A chunk call moves bytes and makes or loses none, whatever the times are. */
  lemma {:induction false} CopyChunkMovesBytes(p: Pool, size: nat, ts: int, skip: int)
    requires |p.part| < size && !Eligible(p, skip)
    ensures var r := CopyChunk(p, size, ts);
            multiset(r.chunk) + multiset(r.pool.part) + HeldIn(r.pool, skip, |p.slots|) ==
            multiset(p.part) + HeldIn(p, skip, |p.slots|)
    decreases LiveCount(p)
  {
    hide HeldIn, Held;
    var i := Next(p);
    if i != -1 {
      var q := Take(p, i, size);
      TakeMovesBytes(p, size);
      OneSlotHolds(p, q, skip, i, |p.slots|);
      Moved(multiset(q.part), HeldIn(q, skip, |p.slots|), Held(q.slots[i]),
            multiset(p.part), HeldIn(p, skip, |p.slots|), Held(p.slots[i]));
      if |q.part| < size {
        DrainedIn(p, q, i, |p.slots|);
        assert !Eligible(q, skip);
        CopyChunkMovesBytes(q, size, Truncate(p.slots[i].time), skip);
      } else {
        SameSlotsHoldTheSame(q, q.(part := []), skip, |q.slots|);
      }
    }
  }

  lemma {:induction false} SameSlotsHoldTheSame(p: Pool, q: Pool, skip: int, n: nat)
    requires p.slots == q.slots && n <= |p.slots|
    ensures HeldIn(p, skip, n) == HeldIn(q, skip, n)
  {
    if n > 0 {
      SameSlotsHoldTheSame(p, q, skip, n - 1);
    }
  }

  // ---------- What a reservation protects ----------

  // The pools look the same to the consumer.
  predicate LookAlike(p: Pool, q: Pool) {
    |p.slots| == |q.slots| && p.last == q.last && p.part == q.part &&
    (forall j | 0 <= j < |p.slots| :: Eligible(p, j) == Eligible(q, j)) &&
    (forall j | 0 <= j < |p.slots| && Eligible(p, j) :: p.slots[j] == q.slots[j])
  }

  /** A chunk call never reads a slot that is not eligible: whatever it holds, the call returns the same. */
  lemma {:induction false} CopyChunkIgnoresTheRest(p: Pool, q: Pool, size: nat, ts: int)
    requires |p.part| < size && LookAlike(p, q)
    ensures var r, s := CopyChunk(p, size, ts), CopyChunk(q, size, ts);
            r.done == s.done && r.chunk == s.chunk && r.ts == s.ts && LookAlike(r.pool, s.pool)
    decreases LiveCount(p)
  {
    BacklogOnlyReadsEligible(p, q);
    var i := Next(p);
    if i != -1 {
      var p', q' := Take(p, i, size), Take(q, i, size);
      assert LookAlike(p', q') by {
        assert forall j | 0 <= j < |p.slots| && j != i ::
            Eligible(p', j) == Eligible(p, j) && Eligible(q', j) == Eligible(q, j);
      }
      if |p'.part| < size {
        DrainedIn(p, p', i, |p.slots|);
        CopyChunkIgnoresTheRest(p', q', size, Truncate(p.slots[i].time));
      }
    }
  }

  // ---------- Where first-in first-out order ends ----------

  lemma OneEligibleSlot(p: Pool, i: nat)
    requires Eligible(p, i) && forall j | 0 <= j < |p.slots| && Eligible(p, j) :: j == i
    ensures Next(p) == i && Backlog(p) == p.slots[i].bytes
  {
    var d := Drained(p, i);
    assert First(p, |p.slots|, i);
    NextIsUnique(p, i);
    DrainedIn(p, d, i, |p.slots|);
    forall j | 0 <= j < |p.slots| ensures !Eligible(d, j) {
      assert j != i ==> !Eligible(p, j);
    }
    assert Backlog(d) == [];
  }

  /**
   In any pool with no later packet: a new packet is read last exactly if its slot is below every live slot of
   the same time, and then its payload is the end of the stream when all the others could be read before.
   */
  lemma EqualTimesReadHigherSlotFirst(p: Pool, i: nat, payload: seq<Byte>, time: real)
    requires i < |p.slots|
    requires forall j | 0 <= j < |p.slots| && j != i && p.slots[j].live :: p.slots[j].time <= time
    ensures var order := ReadingOrder(Put(p, i, payload, time));
            && order != []
            && (order[|order| - 1] == i <==>
                forall j | 0 <= j < |p.slots| && j != i && p.slots[j].live && p.slots[j].time == time :: i < j)
            && (order[|order| - 1] == i && !Eligible(p, i) && p.last <= time
                && (forall j | 0 <= j < |p.slots| && j != i && p.slots[j].live :: p.slots[j].time <= p.last) ==>
                Stream(Put(p, i, payload, time)) == Stream(p) + payload)
  {
    hide ReadingOrder, Stream, Backlog, BytesOf;
    var q := Put(p, i, payload, time);
    BacklogIsInTimeOrder(q);
    var order := ReadingOrder(q);
    assert Eligible(q, i) && i in order;
    var last := order[|order| - 1];
    assert last in order && Eligible(q, last);
    if last == i {
      forall j | 0 <= j < |p.slots| && j != i && p.slots[j].live && p.slots[j].time == time ensures i < j {
        assert Eligible(q, j) && j in order;
        var l :| 0 <= l < |order| && order[l] == j;
        assert Before(q, order[l], order[|order| - 1]);
      }
      if !Eligible(p, i) && p.last <= time
         && forall j | 0 <= j < |p.slots| && j != i && p.slots[j].live :: p.slots[j].time <= p.last {
        PutAppends(p, i, payload, time);
      }
    } else {
      var k :| 0 <= k < |order| && order[k] == i;
      assert Before(q, order[k], order[|order| - 1]);
    }
  }

  /** Two packets with one time: the one in the higher slot is read first, whichever came first. */
  lemma TwoPacketsOfOneTime(p: Pool, i: nat, j: nat, payload: seq<Byte>)
    requires i < |p.slots| && j < |p.slots| && i != j && Eligible(p, j)
    requires forall k | 0 <= k < |p.slots| && p.slots[k].live :: k == j
    ensures Stream(Put(p, i, payload, p.slots[j].time)) ==
            if i < j then Stream(p) + payload else p.part + payload + p.slots[j].bytes
  {
    var q := Put(p, i, payload, p.slots[j].time);
    var hi, lo := if i < j then j else i, if i < j then i else j;
    OneEligibleSlot(p, j);
    assert First(q, |q.slots|, hi);
    NextIsUnique(q, hi);
    DrainedIn(q, Drained(q, hi), hi, |q.slots|);
    OneEligibleSlot(Drained(q, hi), lo);
  }
}
