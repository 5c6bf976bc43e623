/**
 Runs of the jitter buffer: a producer that reserves and commits slots, interleaved in any way with a
 consumer that asks for chunks of one fixed size.
 */
module JitterRuns {
  import opened PacketPool
  import opened Text

  datatype Event = Reserve | Commit(payload: seq<Byte>, time: real) | Chunk

  // The readable bytes `lost` to an overflow, with `at` bytes taken out of the pool so far.
  datatype Cut = Cut(at: nat, lost: seq<Byte>)

  // `reserved` is the slot handed out by `put_ptr`; `latest` is the time of the latest commit; `lost` counts
  // the bytes that were live, readable or not, at an overflow.
  datatype Run = Run(pool: Pool, reserved: Option<nat>, latest: real, delivered: seq<Byte>, committed: seq<Byte>,
                     cuts: seq<Cut>, lost: multiset<Byte>)

  const Start := Run(EmptyPool(), None, 0.0, [], [], [], multiset{})

  // The producer commits the slot it reserved last, or gives it up and reserves again; any positive time will do.
  predicate Legal(r: Run, e: Event) {
    match e
    case Reserve => true
    case Commit(_, time) => r.reserved.Some? && r.reserved.value < |r.pool.slots| && 0.0 < time
    case Chunk => true
  }

  // The slot the producer is filling.
  function Filling(r: Run): int {
    if r.reserved.Some? then r.reserved.value else -1
  }

  // What a slot held that is given up after an overflow counts as lost no longer.
  function LostBut(r: Run): multiset<Byte> {
    if 0 <= Filling(r) < |r.pool.slots| then r.lost - Held(r.pool.slots[Filling(r)]) else r.lost
  }

  function Step(r: Run, e: Event, size: nat): (r': Run)
    requires Legal(r, e) && |r.pool.part| < size
    ensures |r'.pool.part| < size
  {
    match e
    case Reserve =>
      var p := r.pool;
      r.(pool := PacketPool.Reserve(p), reserved := Some(ReservedSlot(p)),
         cuts := if Full(p) then r.cuts + [Cut(|r.delivered + p.part|, Backlog(p))] else r.cuts,
         lost := LostBut(r) + if Full(p) then HeldIn(p, -1, |p.slots|) else multiset{})
    case Commit(payload, time) =>
      r.(pool := Put(r.pool, r.reserved.value, payload, time), reserved := None, latest := time,
         committed := r.committed + payload)
    case Chunk =>
      var c := CopyChunk(r.pool, size, 0);
      r.(pool := c.pool, delivered := r.delivered + c.chunk)
  }

  predicate LegalRun(r: Run, events: seq<Event>, size: nat)
    requires |r.pool.part| < size
    decreases |events|
  {
    events == [] ||
    (Legal(r, events[0]) && LegalRun(Step(r, events[0], size), events[1..], size))
  }

  function After(r: Run, events: seq<Event>, size: nat): (r': Run)
    requires |r.pool.part| < size && LegalRun(r, events, size)
    ensures |r'.pool.part| < size
    decreases |events|
  {
    if events == [] then r else After(Step(r, events[0], size), events[1..], size)
  }

  // ---------- What holds for all positive times ----------

  // The slot the producer is filling is out of the consumer's reach.
  ghost predicate Safe(r: Run) {
    && |r.pool.slots| == AJD
    && 0.0 <= r.pool.last
    && (r.reserved.Some? ==> r.reserved.value < AJD)
    && !Eligible(r.pool, Filling(r))
    && (forall j | 0 <= j < AJD && r.pool.slots[j].live :: r.pool.slots[j].time > 0.0)
  }

  // Every committed byte has been delivered, or is in the partial chunk or a live slot, or was lost.
  ghost predicate Counted(r: Run) {
    multiset(r.delivered) + multiset(r.pool.part) + HeldIn(r.pool, Filling(r), |r.pool.slots|) + r.lost ==
    multiset(r.committed) &&
    (0 <= Filling(r) < |r.pool.slots| ==> Held(r.pool.slots[Filling(r)]) <= r.lost)
  }

  lemma StepKeepsSafe(r: Run, e: Event, size: nat)
    requires Safe(r) && Legal(r, e) && |r.pool.part| < size
    ensures Safe(Step(r, e, size))
    ensures e.Chunk? && r.reserved.Some? ==>
              Step(r, e, size).pool.slots[r.reserved.value] == r.pool.slots[r.reserved.value]
  {
    hide Stream, CopyChunk, HeldIn, Backlog;
    if e.Chunk? {
      CopyChunkReadsStream(r.pool, size, 0);
    }
  }

  lemma ReserveKeepsCounted(r: Run, size: nat)
    requires Safe(r) && |r.pool.part| < size && Counted(r)
    ensures Counted(Step(r, Reserve, size))
  {
    hide HeldIn, Held, Backlog;
    var p, q, f := r.pool, Step(r, Reserve, size), Filling(r);
    var i := ReservedSlot(p);
    var before, lost := multiset(r.delivered) + multiset(p.part), LostBut(r);
    SkippedSlot(p, f, |p.slots|);
    GivenUp(before, HeldIn(p, f, |p.slots|), if f == -1 then multiset{} else Held(p.slots[f]), r.lost);
    assert before + HeldIn(p, -1, |p.slots|) + lost == multiset(r.committed);
    if Full(p) {
      NothingHeld(q.pool, 0, |p.slots|);
      Shift(before, HeldIn(p, -1, |p.slots|), lost);
      HeldByAll(p, 0);
      assert Held(q.pool.slots[0]) == Held(p.slots[0]) by { SameBytesHeld(q.pool.slots[0], p.slots[0]); }
    } else {
      SkippedSlot(p, i, |p.slots|);
      NotHeld(p, i);
      assert lost + multiset{} == lost;
    }
  }

  lemma GivenUp(before: multiset<Byte>, held: multiset<Byte>, slot: multiset<Byte>, lost: multiset<Byte>)
    requires slot <= lost
    ensures before + (held + slot) + (lost - slot) == before + held + lost
  {
  }

  lemma SameBytesHeld(a: Slot, b: Slot)
    requires a.live == b.live && a.bytes == b.bytes
    ensures Held(a) == Held(b)
  {
  }

  lemma HeldByAll(p: Pool, i: nat)
    requires i < |p.slots|
    ensures Held(p.slots[i]) <= HeldIn(p, -1, |p.slots|)
  {
    hide HeldIn, Held;
    SkippedSlot(p, i, |p.slots|);
  }

  lemma NotHeld(p: Pool, i: nat)
    requires i < |p.slots| && !p.slots[i].live
    ensures Held(p.slots[i]) == multiset{} && HeldIn(p, i, |p.slots|) + Held(p.slots[i]) == HeldIn(p, i, |p.slots|)
  {
  }

  lemma Shift(a: multiset<Byte>, held: multiset<Byte>, lost: multiset<Byte>)
    ensures a + multiset{} + (lost + held) == a + held + lost
  {
  }

  lemma {:induction false} NothingHeld(p: Pool, skip: int, n: nat)
    requires n <= |p.slots| && forall j | 0 <= j < |p.slots| && j != skip :: !p.slots[j].live
    ensures HeldIn(p, skip, n) == multiset{}
  {
    if n > 0 {
      NothingHeld(p, skip, n - 1);
    }
  }

  lemma CommitKeepsCounted(r: Run, payload: seq<Byte>, time: real, size: nat)
    requires Legal(r, Commit(payload, time)) && |r.pool.part| < size && Counted(r)
    ensures Counted(Step(r, Commit(payload, time), size))
  {
    hide HeldIn, Held;
    var i, q := r.reserved.value, Step(r, Commit(payload, time), size);
    OthersHoldTheSame(r.pool, q.pool, i, |r.pool.slots|);
    SkippedSlot(q.pool, i, |q.pool.slots|);
    PayloadHeld(q.pool.slots[i]);
    Swap(multiset(r.delivered) + multiset(r.pool.part) + HeldIn(r.pool, i, |r.pool.slots|), multiset(payload), r.lost);
    assert multiset(r.delivered) + multiset(r.pool.part) + (HeldIn(r.pool, i, |r.pool.slots|) + multiset(payload))
        == multiset(r.delivered) + multiset(r.pool.part) + HeldIn(r.pool, i, |r.pool.slots|) + multiset(payload);
  }

  lemma PayloadHeld(s: Slot)
    requires s.live
    ensures Held(s) == multiset(s.bytes)
  {
  }

  lemma {:induction false} OthersHoldTheSame(p: Pool, q: Pool, skip: nat, n: nat)
    requires skip < |p.slots| == |q.slots| && n <= |p.slots|
    requires forall j | 0 <= j < |p.slots| && j != skip :: p.slots[j] == q.slots[j]
    ensures HeldIn(p, skip, n) == HeldIn(q, skip, n)
  {
    hide Held;
    if n > 0 {
      OthersHoldTheSame(p, q, skip, n - 1);
    }
  }

  lemma ChunkKeepsCounted(r: Run, size: nat)
    requires Safe(r) && |r.pool.part| < size && Counted(r)
    ensures Counted(Step(r, Chunk, size))
  {
    hide HeldIn, Held, CopyChunk, Eligible;
    StepKeepsSafe(r, Chunk, size);
    CopyChunkMovesBytes(r.pool, size, 0, Filling(r));
    var c := CopyChunk(r.pool, size, 0);
    var held := HeldIn(c.pool, Filling(r), |c.pool.slots|);
    assert multiset(r.delivered) + multiset(c.chunk) + multiset(c.pool.part) + held
        == multiset(r.delivered) + (multiset(c.chunk) + multiset(c.pool.part) + held);
    assert multiset(r.delivered) + multiset(r.pool.part) + HeldIn(r.pool, Filling(r), |r.pool.slots|)
        == multiset(r.delivered) + (multiset(r.pool.part) + HeldIn(r.pool, Filling(r), |r.pool.slots|));
  }

  lemma {:induction false} RunsStaySafe(r: Run, events: seq<Event>, size: nat)
    requires Safe(r) && |r.pool.part| < size && Counted(r) && LegalRun(r, events, size)
    ensures Safe(After(r, events, size)) && Counted(After(r, events, size))
    decreases |events|
  {
    hide Safe, Counted, Step;
    if events != [] {
      StepKeepsSafe(r, events[0], size);
      match events[0] {
        case Reserve => ReserveKeepsCounted(r, size);
        case Commit(payload, time) => CommitKeepsCounted(r, payload, time, size);
        case Chunk => ChunkKeepsCounted(r, size);
      }
      RunsStaySafe(Step(r, events[0], size), events[1..], size);
    }
  }

  lemma StartIsSafe()
    ensures Safe(Start) && Counted(Start)
  {
    NothingHeld(Start.pool, -1, |Start.pool.slots|);
  }

  /** For all positive times, in any order: no byte is made, and none but those live at an overflow is lost. */
  lemma BytesAreCounted(events: seq<Event>, size: nat)
    requires size > 0 && LegalRun(Start, events, size)
    ensures Counted(After(Start, events, size))
  {
    StartIsSafe();
    RunsStaySafe(Start, events, size);
  }

  // ---------- What increasing times add ----------

  // Put the lost bytes back where they were lost.
  function Restore(s: seq<Byte>, cuts: seq<Cut>): seq<Byte>
    decreases |cuts|
  {
    if cuts == [] then s
    else
      var c := cuts[|cuts| - 1];
      if c.at > |s| then []
      else Restore(s[..c.at], cuts[..|cuts| - 1]) + c.lost + s[c.at..]
  }

  ghost predicate Settled(r: Run) {
    && Safe(r)
    && r.pool.last <= r.latest
    && (forall j | 0 <= j < AJD && r.pool.slots[j].live && r.reserved != Some(j) :: r.pool.slots[j].time <= r.pool.last)
  }

  // Every committed byte has been delivered, or waits in the partial chunk or in a live slot, or was
  // live at an overflow; and in this order.
  ghost predicate Conserved(r: Run) {
    && (r.cuts != [] ==> r.cuts[|r.cuts| - 1].at <= |r.delivered + r.pool.part|)
    && Restore(r.delivered + Stream(r.pool), r.cuts) == r.committed
  }

  ghost predicate Good(r: Run, size: nat) {
    Settled(r) && Conserved(r) && |r.pool.part| < size
  }

  lemma RestoreAppends(s: seq<Byte>, x: seq<Byte>, cuts: seq<Cut>)
    requires cuts != [] ==> cuts[|cuts| - 1].at <= |s|
    ensures Restore(s + x, cuts) == Restore(s, cuts) + x
  {
    if cuts != [] {
      var c := cuts[|cuts| - 1];
      assert (s + x)[..c.at] == s[..c.at];
      assert (s + x)[c.at..] == s[c.at..] + x;
    }
  }

  lemma ReserveKeeps(r: Run, size: nat)
    requires Good(r, size) && r.reserved.None?
    ensures Good(Step(r, Reserve, size), size)
    ensures Full(r.pool) ==> Backlog(Step(r, Reserve, size).pool) == []
  {
    hide Held, HeldIn;
    var p, q := r.pool, Step(r, Reserve, size);
    if Full(p) {
      assert !Eligible(q.pool, 0);
      assert Next(q.pool) == -1;
      var taken := r.delivered + p.part;
      assert r.delivered + Stream(p) == taken + Backlog(p);
      RestoreAppends(taken, Backlog(p), r.cuts);
      assert q.cuts[..|q.cuts| - 1] == r.cuts && taken[..|taken|] == taken;
      assert q.delivered + Stream(q.pool) == taken;
    }
  }

  // `bytes` are those of all the live slots, in the order they would be read.
  predicate AllLive(p: Pool, bytes: seq<Byte>) {
    var order := ReadingOrder(p);
    ByTime(p, order) && bytes == BytesOf(p, order) && forall i | 0 <= i < |p.slots| :: i in order <==> p.slots[i].live
  }

  // An overflow loses every live slot, and its cut says which bytes those were.
  lemma CutIsAllLive(r: Run, size: nat)
    requires Settled(r) && |r.pool.part| < size && r.reserved.None? && Full(r.pool)
    ensures var cuts := Step(r, Reserve, size).cuts;
            && |cuts| == |r.cuts| + 1 && cuts[..|r.cuts|] == r.cuts
            && cuts[|r.cuts|].at == |r.delivered| + |r.pool.part| && AllLive(r.pool, cuts[|r.cuts|].lost)
  {
    hide HeldIn, Held, Backlog, BytesOf, ReadingOrder, ByTime;
    BacklogIsInTimeOrder(r.pool);
  }

  lemma CommitKeeps(r: Run, payload: seq<Byte>, time: real, size: nat)
    requires Good(r, size) && Legal(r, Commit(payload, time)) && r.latest < time
    ensures Good(Step(r, Commit(payload, time), size), size)
  {
    hide Restore;
    var q := Step(r, Commit(payload, time), size);
    PutAppends(r.pool, r.reserved.value, payload, time);
    assert q.delivered + Stream(q.pool) == (r.delivered + Stream(r.pool)) + payload;
    RestoreAppends(r.delivered + Stream(r.pool), payload, r.cuts);
  }

  lemma ChunkKeepsSettled(r: Run, size: nat)
    requires Good(r, size)
    ensures Settled(Step(r, Chunk, size))
  {
    hide Stream, CopyChunk;
    CopyChunkReadsStream(r.pool, size, 0);
  }

  lemma ChunkKeepsConserved(r: Run, size: nat)
    requires Good(r, size)
    ensures Conserved(Step(r, Chunk, size))
  {
    hide Stream, CopyChunk, Restore, SameElsewhere, NoNewLive;
    CopyChunkReadsStream(r.pool, size, 0);
    var c, q := CopyChunk(r.pool, size, 0), Step(r, Chunk, size);
    assert c.chunk + Stream(c.pool) == Stream(r.pool);
    assert q.delivered + Stream(q.pool) == r.delivered + Stream(r.pool);
    StreamStartsWithPart(r.pool);
  }

  lemma StreamStartsWithPart(p: Pool)
    ensures |Stream(p)| >= |p.part|
  {
  }

  lemma ChunkKeeps(r: Run, size: nat)
    requires Good(r, size)
    ensures Good(Step(r, Chunk, size), size)
  {
    hide Settled, Conserved;
    ChunkKeepsSettled(r, size);
    ChunkKeepsConserved(r, size);
  }

  // Every slot reserved is committed before the next is reserved. `filling` says whether one is reserved now.
  predicate CommitsAll(filling: bool, events: seq<Event>)
    decreases |events|
  {
    events == [] ||
    match events[0]
    case Reserve => !filling && CommitsAll(true, events[1..])
    case Commit(_, _) => CommitsAll(false, events[1..])
    case Chunk => CommitsAll(filling, events[1..])
  }

  // The commits of a run have increasing times.
  predicate TimesIncrease(latest: real, events: seq<Event>)
    decreases |events|
  {
    events == [] ||
    match events[0]
    case Commit(_, time) => latest < time && TimesIncrease(time, events[1..])
    case _ => TimesIncrease(latest, events[1..])
  }

  lemma {:induction false} RunsKeep(r: Run, events: seq<Event>, size: nat)
    requires Good(r, size) && LegalRun(r, events, size)
    requires TimesIncrease(r.latest, events) && CommitsAll(r.reserved.Some?, events)
    ensures Good(After(r, events, size), size)
    decreases |events|
  {
    hide Good, Held, HeldIn;
    if events != [] {
      PartIsShort(r, size);
      match events[0] {
        case Reserve => ReserveKeeps(r, size);
        case Commit(payload, time) => CommitKeeps(r, payload, time, size);
        case Chunk => ChunkKeeps(r, size);
      }
      RunsKeep(Step(r, events[0], size), events[1..], size);
    }
  }

  lemma PartIsShort(r: Run, size: nat)
    requires Good(r, size)
    ensures |r.pool.part| < size
  {
  }

  /**
   Byte conservation, in order, over every run of a fresh jitter buffer with increasing times: and every overflow
   cuts out exactly the live slots, in order of time.
   */
  lemma BytesAreConserved(events: seq<Event>, size: nat)
    requires size > 0 && LegalRun(Start, events, size) && TimesIncrease(0.0, events) && CommitsAll(false, events)
    ensures var r := After(Start, events, size);
            && Conserved(r) && Settled(r)
            && (r.reserved.None? && Full(r.pool) ==>
                  var cuts := Step(r, Reserve, size).cuts;
                  && |cuts| == |r.cuts| + 1 && cuts[..|r.cuts|] == r.cuts
                  && cuts[|r.cuts|].at == |r.delivered| + |r.pool.part| && AllLive(r.pool, cuts[|r.cuts|].lost))
  {
    assert forall j | 0 <= j < AJD :: !Eligible(Start.pool, j);
    assert Start.delivered + Stream(Start.pool) == [];
    RunsKeep(Start, events, size);
    var r := After(Start, events, size);
    if r.reserved.None? && Full(r.pool) {
      CutIsAllLive(r, size);
    }
  }

  // ---------- Reservations ----------

  /**
   Reservation safety, for all positive times in any order: after any run that leaves a slot reserved, and until
   its commit, any number of chunk calls leave the slot alone and return the same whatever the producer has
   written into it so far.
   */
  lemma ReservationIsSafe(before: seq<Event>, events: seq<Event>, size: nat, written: seq<Byte>)
    requires size > 0 && LegalRun(Start, before, size) && After(Start, before, size).reserved.Some?
    requires forall k | 0 <= k < |events| :: events[k].Chunk?
    ensures var r := After(Start, before, size);
            && LegalRun(r, events, size)
            && var i, q := r.reserved.value, After(r, events, size);
            && q.reserved == r.reserved && i < |r.pool.slots| == |q.pool.slots| && q.pool.slots[i] == r.pool.slots[i]
            && (var w := r.(pool := Fill(r.pool, i, written));
                LegalRun(w, events, size) && After(w, events, size).delivered == q.delivered)
  {
    hide LegalRun, After, HeldIn;
    StartIsSafe();
    RunsStaySafe(Start, before, size);
    var r := After(Start, before, size);
    ScribblingIsUnseen(r, r.(pool := Fill(r.pool, r.reserved.value, written)), events, size);
  }

  lemma {:induction false} ScribblingIsUnseen(r: Run, w: Run, events: seq<Event>, size: nat)
    requires Safe(r) && |r.pool.part| < size && r.reserved.Some?
    requires forall k | 0 <= k < |events| :: events[k].Chunk?
    requires LookAlike(r.pool, w.pool) && r.delivered == w.delivered
    ensures LegalRun(r, events, size) && LegalRun(w, events, size)
    ensures var i, q := r.reserved.value, After(r, events, size);
            && q.reserved == r.reserved && i < |r.pool.slots| == |q.pool.slots| && q.pool.slots[i] == r.pool.slots[i]
            && After(w, events, size).delivered == q.delivered
    decreases |events|
  {
    hide Stream, CopyChunk, HeldIn, Backlog;
    if events != [] {
      assert events[0].Chunk?;
      StepKeepsSafe(r, events[0], size);
      CopyChunkIgnoresTheRest(r.pool, w.pool, size, 0);
      ScribblingIsUnseen(Step(r, events[0], size), Step(w, events[0], size), events[1..], size);
    }
  }

  /**
   A producer that reserves twice without a commit in between, with any positive time. The stream is that of a
   single reservation exactly when the pool had room, or slot 0 was empty or later: after an overflow, slot 0
   keeps its bit, its time and its old bytes, and the next commit makes them readable again. With increasing
   times it is then never later.
   */
  lemma AbandonedReservation(r: Run, payload: seq<Byte>, time: real)
    requires Safe(r) && 0.0 < time
    ensures var p := PacketPool.Reserve(r.pool);
            var once := Put(p, ReservedSlot(r.pool), payload, time);
            var twice := Put(PacketPool.Reserve(p), ReservedSlot(p), payload, time);
            && (Stream(twice) == Stream(once) <==>
                !Full(r.pool) || r.pool.slots[0].bytes == [] || time < r.pool.slots[0].time)
            && (Settled(r) && r.reserved.None? && r.latest < time ==>
                (Stream(twice) == Stream(p) + payload <==> !Full(r.pool) || r.pool.slots[0].bytes == []))
  {
    hide Stream, Backlog, HeldIn;
    var p := PacketPool.Reserve(r.pool);
    if Full(r.pool) {
      TwiceAfterOverflow(p, payload, time);
    } else if Settled(r) && r.reserved.None? && r.latest < time {
      PutAppends(p, ReservedSlot(p), payload, time);
    }
  }

  // Only slot 0 is live, and the clock is back at zero.
  lemma TwiceAfterOverflow(p: Pool, payload: seq<Byte>, time: real)
    requires |p.slots| == AJD && p.slots[0].live && p.slots[0].time > 0.0 && p.last == 0.0 && time > 0.0
    requires forall j | 1 <= j < AJD :: !p.slots[j].live
    ensures PacketPool.Reserve(p) == p && ReservedSlot(p) == 1
    ensures Stream(p) == p.part && Stream(Put(p, 0, payload, time)) == p.part + payload
    ensures Stream(Put(p, 1, payload, time)) == p.part + payload <==> p.slots[0].bytes == [] || time < p.slots[0].time
  {
    assert !p.slots[1].live;
    assert FirstFree(p, 1) == 1 && FirstFree(p, 0) == 1;
    assert Next(p) == -1;
    OneEligibleSlot(Put(p, 0, payload, time), 0);
    SecondSlot(p, payload, time);
  }

  lemma SecondSlot(p: Pool, payload: seq<Byte>, time: real)
    requires |p.slots| == AJD && p.slots[0].live && p.slots[0].time > 0.0 && p.last == 0.0 && time > 0.0
    requires forall j | 1 <= j < AJD :: !p.slots[j].live
    ensures Stream(Put(p, 1, payload, time)) == p.part + payload <==> p.slots[0].bytes == [] || time < p.slots[0].time
  {
    var q := Put(p, 1, payload, time);
    if time < p.slots[0].time {
      OneEligibleSlot(q, 1);
    } else {
      var t := p.(last := p.slots[0].time);
      OneEligibleSlot(t, 0);
      assert q == Put(t, 1, payload, time);
      if p.slots[0].time < time {
        PutAppends(t, 1, payload, time);
      } else {
        TwoPacketsOfOneTime(t, 1, 0, payload);
      }
      assert |Stream(q)| == |p.part| + |payload| + |p.slots[0].bytes|;
    }
  }

  // ---------- A run that overflows ----------

  // Committing a one-byte packet in each slot in turn: the first `n` slots are live.
  ghost predicate Packed(r: Run, n: nat) {
    && n <= |r.pool.slots| == AJD && r.reserved.None? && r.latest == r.pool.last == n as real && r.pool.part == []
    && (forall j | 0 <= j < n :: r.pool.slots[j] == Slot(true, (j + 1) as real, [0]))
    && (forall j | n <= j < AJD :: !r.pool.slots[j].live)
  }

  lemma PackOne(r: Run, n: nat, size: nat)
    requires Packed(r, n) && n < AJD && size > 0
    ensures var m := Step(r, Reserve, size);
            && Legal(m, Commit([0], (n + 1) as real)) && Packed(Step(m, Commit([0], (n + 1) as real), size), n + 1)
  {
    hide HeldIn, Held, Backlog;
    assert !r.pool.slots[n].live;
    var f := FirstFree(r.pool, 0);
    assert f == n;
  }

  lemma TwoSteps(r: Run, a: Event, b: Event, rest: seq<Event>, size: nat)
    requires |r.pool.part| < size && Legal(r, a) && Legal(Step(r, a, size), b)
    requires LegalRun(Step(Step(r, a, size), b, size), rest, size)
    ensures LegalRun(r, [a, b] + rest, size)
    ensures After(r, [a, b] + rest, size) == After(Step(Step(r, a, size), b, size), rest, size)
  {
    hide Step, Legal;
    var m := Step(r, a, size);
    assert ([a, b] + rest)[1..] == [b] + rest && ([b] + rest)[1..] == rest;
    assert LegalRun(m, [b] + rest, size) && After(m, [b] + rest, size) == After(Step(m, b, size), rest, size);
  }

  lemma {:induction false} PackUp(r: Run, n: nat, size: nat) returns (events: seq<Event>)
    requires Packed(r, n) && size > 0
    ensures LegalRun(r, events, size) && Packed(After(r, events, size), AJD)
    ensures CommitsAll(false, events) && TimesIncrease(n as real, events)
    decreases AJD - n
  {
    hide Step, Packed;
    PartIsEmpty(r, n);
    if n == AJD {
      events := [];
    } else {
      var a, b := Reserve, Commit([0], (n + 1) as real);
      PackOne(r, n, size);
      var rest := PackUp(Step(Step(r, a, size), b, size), n + 1, size);
      events := [a, b] + rest;
      TwoSteps(r, a, b, rest, size);
      assert events[1..] == [b] + rest && events[1..][1..] == rest;
    }
  }

  lemma PartIsEmpty(r: Run, n: nat)
    requires Packed(r, n)
    ensures r.pool.part == [] && n <= AJD
  {
  }

  /**
   There is a run with increasing times, and no reservation given up, that fills the pool. Reserving twice then
   makes a difference, whatever is committed.
   */
  lemma GivenUpReservation(size: nat, payload: seq<Byte>, time: real) returns (events: seq<Event>)
    requires size > 0 && time > 32.0
    ensures LegalRun(Start, events, size) && CommitsAll(false, events) && TimesIncrease(0.0, events)
    ensures var r := After(Start, events, size);
            && |r.pool.slots| == AJD && Full(r.pool) && r.latest < time
            && var p := PacketPool.Reserve(r.pool);
            var once := Put(p, ReservedSlot(r.pool), payload, time);
            Stream(Put(PacketPool.Reserve(p), ReservedSlot(p), payload, time)) != Stream(once)
  {
    hide LegalRun, After, Stream, Held, HeldIn, CommitsAll, TimesIncrease;
    events := PackUp(Start, 0, size);
    StartIsSafe();
    RunsStaySafe(Start, events, size);
    AbandonedReservation(After(Start, events, size), payload, time);
  }

  /**
   With times that may be zero, the slot an overflow reserves is within the consumer's reach exactly if its
   packet had time zero.
   */
  lemma ZeroTimeIsExposed(p: Pool)
    requires |p.slots| > 0 && Full(p) && forall j | 0 <= j < |p.slots| :: p.slots[j].time >= 0.0
    ensures Eligible(PacketPool.Reserve(p), ReservedSlot(p)) <==> p.slots[0].time == 0.0
  {
  }
}
