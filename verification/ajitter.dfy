/** The jitter buffer over its real layout: a bit mask, packet headers, and one block of packet data. */
module Jitter {
  import opened PacketPool
  import BitMask

  lemma {:induction false} NextMultiple(n: nat, i: nat, j: nat)
    requires i < j
    ensures n * i + n <= n * j
  {
    assert n * j == n * (j - 1) + n;
    if i < j - 1 {
      NextMultiple(n, i, j - 1);
    }
  }

  // ---------- Raw memory ----------

  // A block of memory after `bytes` are written to the addresses from `at`, as far as they are in the block,
  function Poured(block: seq<Byte>, at: nat, bytes: seq<Byte>): (r: seq<Byte>)
    ensures |r| == |block|
  {
    seq(|block|, k requires 0 <= k < |block| => if at <= k < at + |bytes| then bytes[k - at] else block[k])
  }

  // and what is written past the end of a block of `n` bytes.
  function Spilled(n: nat, at: nat, bytes: seq<Byte>): map<nat, Byte> {
    map k: nat | k < at + |bytes| && Past(n, at, k) :: bytes[k - at]
  }

  predicate Past(n: nat, at: nat, k: nat) {
    n <= k && at <= k
  }

  lemma PouredConcat(block: seq<Byte>, at: nat, a: seq<Byte>, b: seq<Byte>)
    ensures Poured(Poured(block, at, a), at + |a|, b) == Poured(block, at, a + b)
    ensures Spilled(|block|, at, a) + Spilled(|block|, at + |a|, b) == Spilled(|block|, at, a + b)
  {
  }

  lemma PouredElsewhere(block: seq<Byte>, at: nat, bytes: seq<Byte>, lo: nat, hi: nat)
    requires lo <= hi <= |block| && (hi <= at || at + |bytes| <= lo)
    ensures Poured(block, at, bytes)[lo..hi] == block[lo..hi]
  {
  }

  lemma PouredThere(block: seq<Byte>, at: nat, bytes: seq<Byte>)
    requires at + |bytes| <= |block|
    ensures Poured(block, at, bytes)[at..at + |bytes|] == bytes
    ensures Spilled(|block|, at, bytes) == map[]
  {
    assert forall k: nat | k < at + |bytes| :: !Past(|block|, at, k);
  }

  lemma NothingPoured(block: seq<Byte>, at: nat)
    ensures Poured(block, at, []) == block && Spilled(|block|, at, []) == map[]
  {
  }

  /** `aj->buffer`: the packet headers, and the block of data the packets share. */
  class Packets {
    ghost var unread: seq<seq<Byte>>  // what is left to read in each slot

    const csize: nat
    const buffer: array<Byte>
    const data: seq<nat>              // slot `i` owns the `csize` bytes from `data[i]`
    var left: seq<nat>                // the number of bytes left to read,
    var off: seq<nat>                 // and where they start in the slot
    var beyond: map<nat, Byte>        // what was written past the end of the block

    ghost predicate SlotOk(i: nat)
      requires i < |data| == |unread| == |left| == |off|
      reads this, buffer
    {
      && data[i] + csize <= buffer.Length
      && off[i] + left[i] <= csize
      && unread[i] == buffer[data[i] + off[i]..data[i] + off[i] + left[i]]
    }

    ghost predicate Apart(i: nat, j: nat)
      requires i < |data| && j < |data|
    {
      data[i] + csize <= data[j] || data[j] + csize <= data[i]
    }

    // One header for each slot, and the slots side by side in the block.
    ghost predicate LaidOut()
      reads this`unread, this`left, this`off
    {
      && |data| == |unread| == |left| == |off|
      && buffer.Length == csize * |data|
      && forall i: nat | i < |data| :: data[i] == csize * i
    }

    // What slot `skip` holds is being replaced.
    ghost predicate ValidBut(skip: int)
      reads this, buffer
    {
      && LaidOut()
      && (forall i: nat | i < |data| && i != skip :: SlotOk(i))
      && (forall i: nat, j: nat | i < j < |data| :: Apart(i, j))
    }

    ghost predicate Valid()
      reads this, buffer
    {
      ValidBut(-1)
    }

    constructor (chunkSize: nat, count: nat)
      ensures Valid() && csize == chunkSize && unread == seq(count, _ => [])
      ensures beyond == map[] && fresh(buffer)
    {
      csize := chunkSize;
      buffer := new Byte[chunkSize * count];
      left := seq(count, _ => 0);
      off := seq(count, _ => 0);
      data := seq(count, i requires 0 <= i < count => chunkSize * i);
      unread := seq(count, _ => []);
      beyond := map[];
      new;
      FreshIsValid();
    }

    lemma FreshIsValid()
      requires LaidOut() && forall i: nat | i < |data| :: left[i] == 0 && off[i] == 0 && unread[i] == []
      ensures Valid()
    {
      forall i: nat, j: nat | i < j < |data| ensures Apart(i, j) {
        NextMultiple(csize, i, j);
      }
      forall i: nat | i < |data| ensures SlotOk(i) {
        NextMultiple(csize, i, |data|);
      }
    }

    method Move(from: nat, n: nat, ob: array<Byte>, to: nat)
      requires ob != buffer && from + n <= buffer.Length && to + n <= ob.Length
      modifies ob
      ensures ob[..to + n] == old(ob[..to]) + buffer[from..from + n]
    {
      forall k | 0 <= k < n {
        ob[to + k] := buffer[from + k];
      }
    }

    /** memcpy of `n` unread bytes of slot `i` to `ob[to..]`, and `left -= n; off += n`. */
    method Consume(i: nat, n: nat, ob: array<Byte>, to: nat)
      requires Valid() && i < |data| && n <= |unread[i]|
      requires ob != buffer && to + n <= ob.Length
      modifies this`unread, this`left, this`off, ob
      ensures Valid() && unread == old(unread)[i := old(unread)[i][n..]]
      ensures ob[..to + n] == old(ob[..to]) + old(unread)[i][..n]
    {
      assert SlotOk(i);
      Move(data[i] + off[i], n, ob, to);
      Advance(i, n);
    }

    // `left -= n; off += n`
    method Advance(i: nat, n: nat)
      requires Valid() && i < |data| && n <= |unread[i]|
      modifies this`unread, this`left, this`off
      ensures Valid() && unread == old(unread)[i := old(unread)[i][n..]]
    {
      hide Apart;
      assert SlotOk(i);
      left := left[i := left[i] - n];
      off := off[i := off[i] + n];
      unread := unread[i := unread[i][n..]];
      forall j: nat | j < |data| ensures SlotOk(j) {
        assert old(SlotOk(j));
      }
    }

    /** The producer's `*p = b`, for a pointer to the address `at`. */
    method Poke(at: nat, b: Byte)
      modifies this`beyond, buffer
      ensures buffer[..] == Poured(old(buffer[..]), at, [b])
      ensures beyond == old(beyond) + Spilled(buffer.Length, at, [b])
    {
      if at < buffer.Length {
        buffer[at] := b;
      } else {
        beyond := beyond[at := b];
      }
    }

    // Slot `i` reads what it should from `block`.
    ghost predicate SlotIn(block: seq<Byte>, i: nat)
      requires i < |data| == |unread| == |left| == |off|
      reads this`unread, this`left, this`off
    {
      && data[i] + csize <= |block|
      && off[i] + left[i] <= csize
      && unread[i] == block[data[i] + off[i]..data[i] + off[i] + left[i]]
    }

    lemma ReadsBlock()
      requires Valid()
      ensures forall i: nat | i < |data| :: SlotIn(buffer[..], i)
      ensures forall i: nat, j: nat | i < j < |data| :: Apart(i, j)
    {
      forall i: nat | i < |data| ensures SlotIn(buffer[..], i) {
        assert SlotOk(i);
      }
    }

    // Bytes poured into one slot of `block` leave the other slots as they were.
    lemma PouredIntoSlot(block: seq<Byte>, i: nat, bytes: seq<Byte>)
      requires LaidOut() && i < |data| && |bytes| <= csize
      requires forall j: nat | j < |data| :: SlotIn(block, j)
      requires forall i: nat, j: nat | i < j < |data| :: Apart(i, j)
      requires buffer[..] == Poured(block, data[i], bytes)
      ensures ValidBut(i) && data[i] + csize <= buffer.Length
    {
      hide Poured;
      assert SlotIn(block, i);
      forall j: nat | j < |data| && j != i ensures SlotOk(j) {
        assert SlotIn(block, j);
        assert j < i ==> Apart(j, i);
        assert i < j ==> Apart(i, j);
        var lo := data[j] + off[j];
        PouredElsewhere(block, data[i], bytes, lo, lo + left[j]);
        assert buffer[lo..lo + left[j]] == buffer[..][lo..lo + left[j]];
      }
    }

    /** The producer's `left = n; off = 0`. */
    method SetLength(i: nat, n: nat)
      requires LaidOut() && i < |data|
      modifies this`unread, this`left, this`off
      ensures LaidOut() && left == old(left)[i := n] && off == old(off)[i := 0]
      ensures unread == if data[i] + n <= buffer.Length then old(unread)[i := buffer[data[i]..data[i] + n]]
          else old(unread)
      ensures old(ValidBut(i)) && n <= csize ==> Valid() && data[i] + n <= buffer.Length
    {
      ghost var valid := ValidBut(i) && n <= csize;
      left := left[i := n];
      off := off[i := 0];
      if data[i] + n <= buffer.Length {
        unread := unread[i := buffer[data[i]..data[i] + n]];
      }
      if valid {
        NextMultiple(csize, i, |data|);
        forall j: nat | j < |data| ensures SlotOk(j) {
          assert j != i ==> old(SlotOk(j));
        }
      }
    }

    method Left(i: nat) returns (n: nat)
      requires Valid() && i < |data|
      ensures n == |unread[i]|
    {
      assert SlotOk(i);
      n := left[i];
    }
  }

  class AJitter {
    ghost var pool: Pool        // what the buffer holds

    var used: bv32
    const packets: Packets
    var time: seq<real>
    var last: real
    const outBuffer: array<Byte>
    var outHave: nat

    ghost predicate Stands(p: Pool, i: nat)
      requires i < |p.slots| == |time| == |packets.unread| && i < 32
      reads this`used, this`time, packets`unread
    {
      p.slots[i] == Slot(BitMask.Test(used, i), time[i], packets.unread[i])
    }

    // The slots in use, their times and their bytes are those of the pool.
    ghost predicate Holds(p: Pool)
      reads this`used, this`time, packets`unread
    {
      && 0 < |time| <= AJD
      && |p.slots| == |time| == |packets.unread|
      && forall i: nat | i < |time| :: Stands(p, i)
    }

    ghost predicate LaidOut()
      reads this, packets
    {
      && packets.LaidOut() && Holds(pool)
      && outBuffer != packets.buffer
      && pool.last == last && |pool.part| == outHave
    }

    ghost predicate Valid()
      reads this, packets, packets.buffer
    {
      packets.Valid() && LaidOut()
    }

    // `ob` holds the chunk under construction.
    ghost predicate PartIn(ob: array<Byte>)
      reads this`pool, ob
    {
      |pool.part| <= ob.Length && ob[..|pool.part|] == pool.part
    }

    constructor (chunkSize: nat)
      ensures Valid() && PartIn(outBuffer) && packets.csize == chunkSize && outBuffer.Length == 1024
      ensures pool == EmptyPool()
      ensures fresh(packets) && fresh(packets.buffer) && fresh(outBuffer)
    {
      packets := new Packets(chunkSize, AJD);
      outBuffer := new Byte[1024];
      used := 0;
      last := 0.0;
      outHave := 0;
      time := seq(AJD, _ => 0.0);
      pool := EmptyPool();
    }

    method PutPtr() returns (idx: nat)
      requires Valid()
      modifies this`pool, this`used, this`last
      ensures Valid() && idx < |time|
      ensures idx == ReservedSlot(old(pool)) && pool == Reserve(old(pool))
    {
      idx := 0;
      var found := false;
      while idx < |time|
        invariant idx <= |time| && !found
        invariant forall i | 0 <= i < idx :: pool.slots[i].live
        invariant FirstFree(pool, 0) == FirstFree(pool, idx)
      {
        assert Stands(pool, idx);
        if !BitMask.Test(used, idx) {
          found := true;
          break;
        }
        idx := idx + 1;
      }
      pool := Reserve(pool);
      if !found {
        idx := 0;
        used := 1;
        last := 0.0;
        forall i: nat | i < |time| ensures Stands(pool, i) {
          assert old(Stands(pool, i));
          BitMask.OnlyBitZero(i);
        }
      }
    }

    // What the producer does through the pointer `PutPtr` returned, when its payload is in the slot.
    method SetLength(idx: nat, n: nat)
      requires LaidOut() && idx < |time|
      modifies this`pool, packets`unread, packets`left, packets`off
      ensures LaidOut() && packets.left == old(packets.left)[idx := n] && packets.off == old(packets.off)[idx := 0]
      ensures old(packets.ValidBut(idx)) && n <= packets.csize ==>
                && Valid() && packets.data[idx] + n <= packets.buffer.Length
                && pool == Fill(old(pool), idx, packets.buffer[packets.data[idx]..packets.data[idx] + n])
    {
      packets.SetLength(idx, n);
      pool := Fill(pool, idx, packets.unread[idx]);
      forall j: nat | j < |time| ensures Stands(pool, j) {
        assert old(Stands(pool, j));
      }
    }

    method PutDone(idx: nat, t: real)
      requires LaidOut() && idx < |time|
      modifies this`pool, this`used, this`time, this`last
      ensures LaidOut() && (old(Valid()) ==> Valid())
      ensures pool == Commit(old(pool), idx, t)
      ensures time == old(time)[idx := t] && last == t
    {
      time := time[idx := t];
      last := t;
      used := BitMask.Set(used, idx);
      pool := Commit(pool, idx, t);
      forall i: nat | i < |time| ensures Stands(pool, i) {
        assert old(Stands(pool, i));
        BitMask.SetOnlyOne(old(used), idx, i);
      }
    }

    method GetDone(idx: nat)
      requires idx < AJD
      modifies this`used
      ensures forall j | 0 <= j < AJD :: BitMask.Test(used, j) <==> j != idx && BitMask.Test(old(used), j)
    {
      used := BitMask.Drop(used, idx);
      forall j | 0 <= j < AJD ensures BitMask.Test(used, j) <==> j != idx && BitMask.Test(old(used), j) {
        BitMask.DropOnlyOne(old(used), idx, j);
      }
    }

    /** The live slot of least time that is not past the last commit, or -1 when there is none. */
    method GetPtr() returns (minIdx: int)
      requires Valid()
      ensures minIdx == Next(pool)
    {
      minIdx := -1;
      var minTime := last;
      if used == 0 {
        forall i: nat | i < |time| ensures !Eligible(pool, i) {
          assert Stands(pool, i);
        }
        return;
      }
      var idx := 0;
      while idx < |time|
        invariant idx <= |time|
        invariant minIdx == NextBelow(pool, idx)
        invariant minTime == if minIdx == -1 then pool.last else pool.slots[minIdx].time
      {
        assert Stands(pool, idx);
        if BitMask.Test(used, idx) && time[idx] <= minTime {
          minTime := time[idx];
          minIdx := idx;
        }
        idx := idx + 1;
      }
    }

    // One turn of the copy loop.
    method CopyFrom(i: nat, size: nat, ob: array<Byte>)
      requires Valid() && PartIn(ob) && outHave <= size <= ob.Length && ob != packets.buffer
      requires i < |time| && pool.slots[i].live
      modifies this`pool, this`used, this`outHave, packets`unread, packets`left, packets`off, ob
      ensures Valid() && PartIn(ob)
      ensures pool == Take(old(pool), i, size)
    {
      assert Stands(pool, i);
      var need := size - outHave;
      var left := packets.Left(i);
      var getNow := if need < left then need else left;
      packets.Consume(i, getNow, ob, outHave);
      if left - getNow < 1 {
        GetDone(i);
      }
      outHave := outHave + getNow;
      pool := Take(pool, i, size);
      forall j: nat | j < |time| ensures Stands(pool, j) {
        assert old(Stands(pool, j));
      }
    }

    // `out_have = 0`
    method Restart()
      requires Valid()
      modifies this`pool, this`outHave
      ensures Valid() && pool == old(pool).(part := [])
    {
      outHave := 0;
      pool := pool.(part := []);
      forall j: nat | j < |time| ensures Stands(pool, j) {
        assert old(Stands(pool, j));
      }
    }

    /** Copies a chunk into `ob`; on failure `ob` and `outHave` keep what was copied so far. */
    method CopyChunk(size: nat, ob: array<Byte>, ts0: int) returns (done: bool, ts: int)
      requires Valid() && PartIn(ob) && outHave <= size <= ob.Length && ob != packets.buffer
      modifies this`pool, this`used, this`outHave, packets`unread, packets`left, packets`off, ob
      ensures Valid() && PartIn(ob)
      ensures var r := PacketPool.CopyChunk(old(pool), size, ts0);
              pool == r.pool && done == r.done && ts == r.ts && (done ==> ob[..size] == r.chunk)
    {
      ts := ts0;
      while true
        invariant Valid() && PartIn(ob) && outHave <= size
        invariant PacketPool.CopyChunk(pool, size, ts) == PacketPool.CopyChunk(old(pool), size, ts0)
        decreases LiveCount(pool)
      {
        ghost var now := pool;
        var i := GetPtr();
        if i == -1 {
          return false, ts;
        }
        assert Stands(pool, i);
        CopyFrom(i, size, ob);
        ts := Truncate(time[i]);
        if outHave >= size {
          Restart();
          return true, ts;
        }
        DrainedIn(now, pool, i, |time|);
      }
    }

    method GetChunk(size: nat, ts0: int) returns (chunk: seq<Byte>, done: bool, ts: int)
      requires Valid() && PartIn(outBuffer) && outHave <= size <= outBuffer.Length
      modifies this`pool, this`used, this`outHave, packets`unread, packets`left, packets`off, outBuffer
      ensures Valid() && PartIn(outBuffer)
      ensures Copied(pool, done, chunk, ts) == PacketPool.CopyChunk(old(pool), size, ts0)
    {
      done, ts := CopyChunk(size, outBuffer, ts0);
      chunk := if done then outBuffer[..size] else [];
    }
  }
}
