/**
 One direction of a call, end to end: samples recorded here, sent as PCMU packets over a lossless channel
 that keeps their order, and played there.
 */
module VoiceLink {
  import opened PacketPool
  import opened G711
  import opened RtpPcmu

  // `sent` and `heard` are the bytes the sender has consumed and the player has received so far, and `count`
  // is the number of packets sent.
  datatype Link = Link(record: Pool, ts: int, number: nat, wire: seq<Packet>, play: Pool,
                       recorded: seq<Byte>, sent: seq<Byte>, heard: seq<Byte>, count: nat)

  datatype Event = Record(pcm: seq<Byte>, time: real) | Deliver | Play(size: nat)

  const FRAME: nat := 320

  // `first` is the number the RTP socket starts with.
  function Start(first: nat): Link {
    Link(EmptyPool(), 0, first, [], EmptyPool(), [], [], [], 0)
  }

  // Packets reach the player in order, and it has room for each.
  predicate Legal(l: Link, e: Event) {
    match e
    case Record(_, _) => true
    case Deliver => l.wire != [] && !Full(l.play)
    case Play(size) => |l.play.part| < size
  }

  predicate Sized(l: Link) {
    |l.record.slots| == |l.play.slots| == AJD && |l.record.part| < FRAME
  }

  // The put-done handler of the record buffer is the sender.
  function Step(l: Link, csize: nat, e: Event): (l': Link)
    requires Legal(l, e) && Sized(l)
    ensures Sized(l')
  {
    match e
    case Record(pcm, time) =>
      var s := SendAll(Put(Reserve(l.record), ReservedSlot(l.record), pcm, time), FRAME, l.ts, l.number);
      l.(record := s.pool, ts := s.ts, number := s.number, wire := l.wire + s.packets,
         recorded := l.recorded + pcm, sent := l.sent + s.taken, count := l.count + |s.packets|)
    case Deliver =>
      l.(wire := l.wire[1..], play := Receive(l.play, csize, l.wire[0].payload, l.wire[0].number))
    case Play(size) =>
      var c := CopyChunk(l.play, size, 0);
      l.(play := c.pool, heard := l.heard + c.chunk)
  }

  function Played(codes: seq<Code>): seq<Byte> {
    PcmBytes(MuFrameBack(codes))
  }

  // What the far end makes of `bytes`.
  function Coded(bytes: seq<Byte>): seq<Byte> {
    Played(MuFrame(Samples(bytes)))
  }

  // Packets are numbered one after another, and those still on the wire are past those at the player.
  ghost predicate Numbered(l: Link, first: nat) {
    && |l.wire| <= l.count && first + l.count <= 0x1_0000
    && (first + l.count < 0x1_0000 ==> l.number == first + l.count)
    && (forall k | 0 <= k < |l.wire| ::
          l.wire[k].number == first + l.count - |l.wire| + k && 2 * |l.wire[k].payload| == FRAME)
    && l.play.last <= (first + l.count - |l.wire|) as real
    && (forall j | 0 <= j < |l.play.slots| && l.play.slots[j].live ::
          l.play.slots[j].time < (first + l.count - |l.wire|) as real)
  }

  ghost predicate Good(l: Link, first: nat) {
    && Sized(l)
    && Numbered(l, first)
    && (forall j | 0 <= j < AJD :: !l.record.slots[j].live)
    && (forall j | 0 <= j < AJD && l.play.slots[j].live :: l.play.slots[j].time <= l.play.last)
    && |l.sent| % 2 == 0
    && l.recorded == l.sent + l.record.part
    && l.heard + Stream(l.play) + Played(Payload(l.wire)) == Coded(l.sent)
  }

  // ---------- Concatenation ----------

  lemma {:induction false} SamplesConcat(a: seq<Byte>, b: seq<Byte>)
    requires |a| % 2 == 0 && |b| % 2 == 0
    ensures Samples(a + b) == Samples(a) + Samples(b)
    decreases |b|
  {
    hide FromBytes, Samples;
    if b == [] {
      assert a + b == a && Samples(b) == [];
    } else {
      var n := |b| - 2;
      SamplesConcat(a, b[..n]);
      SamplesAppend(a + b[..n], b[n], b[n + 1]);
      SamplesAppend(b[..n], b[n], b[n + 1]);
      assert b == b[..n] + [b[n], b[n + 1]];
      assert a + b == (a + b[..n]) + [b[n], b[n + 1]];
    }
  }

  lemma {:induction false} FrameConcat(a: seq<Sample>, b: seq<Sample>)
    ensures MuFrame(a + b) == MuFrame(a) + MuFrame(b)
    decreases |b|
  {
    hide MuEncode;
    if b == [] {
      assert a + b == a;
    } else {
      var n := |b| - 1;
      FrameConcat(a, b[..n]);
      MuFrameAppend(a + b[..n], b[n]);
      assert a + b == (a + b[..n]) + [b[n]];
    }
  }

  lemma {:induction false} FrameBackConcat(a: seq<Code>, b: seq<Code>)
    ensures MuFrameBack(a + b) == MuFrameBack(a) + MuFrameBack(b)
    decreases |b|
  {
    hide MuDecode;
    if b == [] {
      assert a + b == a;
    } else {
      var n := |b| - 1;
      FrameBackConcat(a, b[..n]);
      MuFrameBackAppend(a + b[..n], b[n]);
      assert a + b == (a + b[..n]) + [b[n]];
    }
  }

  lemma {:induction false} PcmConcat(a: seq<Sample>, b: seq<Sample>)
    ensures PcmBytes(a + b) == PcmBytes(a) + PcmBytes(b)
    decreases |b|
  {
    hide Lo, Hi;
    if b == [] {
      assert a + b == a;
    } else {
      var n := |b| - 1;
      PcmConcat(a, b[..n]);
      PcmBytesAppend(a + b[..n], b[n]);
      assert a + b == (a + b[..n]) + [b[n]];
    }
  }

  lemma {:induction false} PayloadConcat(a: seq<Packet>, b: seq<Packet>)
    ensures Payload(a + b) == Payload(a) + Payload(b)
  {
    if a == [] {
      assert a + b == b;
    } else {
      assert (a + b)[1..] == a[1..] + b;
      PayloadConcat(a[1..], b);
    }
  }

  lemma PlayedConcat(a: seq<Code>, b: seq<Code>)
    ensures Played(a + b) == Played(a) + Played(b)
  {
    hide MuFrameBack, PcmBytes;
    FrameBackConcat(a, b);
    PcmConcat(MuFrameBack(a), MuFrameBack(b));
  }

  // ---------- The sender drains the record buffer ----------

  /** The packets carry the bytes taken, coded, and less than a frame stays behind. */
  lemma {:induction false} SendAllDrains(p: Pool, frame: nat, ts: int, number: nat)
    requires |p.part| < frame && frame % 2 == 0
    ensures var s := SendAll(p, frame, ts, number);
            && s.taken + s.pool.part == Stream(p) && |s.taken| % 2 == 0
            && Payload(s.packets) == MuFrame(Samples(s.taken))
            && Next(s.pool) == -1 && NoNewLive(p, s.pool) && s.pool.last == p.last
    decreases |Stream(p)|
  {
    hide MuFrame, Samples, Stream;
    CopyChunkReadsStream(p, frame, ts);
    var c := CopyChunk(p, frame, ts);
    SendAllUnfolds(p, frame, ts, number);
    if c.done {
      var rest := SendAll(c.pool, frame, c.ts, NextNumber(number));
      SendAllDrains(c.pool, frame, c.ts, NextNumber(number));
      SamplesConcat(c.chunk, rest.taken);
      FrameConcat(Samples(c.chunk), Samples(rest.taken));
      assert c.chunk + (rest.taken + rest.pool.part) == Stream(p);
    } else {
      NothingCoded();
    }
  }

  lemma CodedConcat(a: seq<Byte>, b: seq<Byte>)
    requires |a| % 2 == 0 && |b| % 2 == 0
    ensures Coded(a + b) == Coded(a) + Played(MuFrame(Samples(b)))
  {
    hide Samples, MuFrame, Played;
    SamplesConcat(a, b);
    FrameConcat(Samples(a), Samples(b));
    PlayedConcat(MuFrame(Samples(a)), MuFrame(Samples(b)));
  }

  // The packets of one drain have consecutive 16-bit numbers and a frame of samples each.
  lemma {:induction false} SendAllNumbers(p: Pool, frame: nat, ts: int, number: nat)
    requires |p.part| < frame && frame % 2 == 0 && number < 0x1_0000
    ensures var s := SendAll(p, frame, ts, number);
            && (forall k | 0 <= k < |s.packets| ::
                  s.packets[k].number == (number + k) % 0x1_0000 && 2 * |s.packets[k].payload| == frame)
            && s.number == (number + |s.packets|) % 0x1_0000
    decreases |Stream(p)|
  {
    hide MuFrame, Samples, Stream, CopyChunk, SendAll, SameElsewhere, NoNewLive, Next;
    CopyChunkReadsStream(p, frame, ts);
    var c := CopyChunk(p, frame, ts);
    SendAllUnfolds(p, frame, ts, number);
    if c.done {
      var s, rest := SendAll(p, frame, ts, number), SendAll(c.pool, frame, c.ts, NextNumber(number));
      SendAllNumbers(c.pool, frame, c.ts, NextNumber(number));
      forall k | 1 <= k < |s.packets|
        ensures s.packets[k].number == (number + k) % 0x1_0000 && 2 * |s.packets[k].payload| == frame
      {
        assert s.packets[k] == rest.packets[k - 1];
        Wraps(number, k - 1);
      }
      Wraps(number, |rest.packets|);
    }
  }

  lemma Wraps(number: nat, k: nat)
    requires number < 0x1_0000
    ensures (NextNumber(number) + k) % 0x1_0000 == (number + k + 1) % 0x1_0000
  {
    if number == 0xFFFF {
      assert (number + k + 1) % 0x1_0000 == (0x1_0000 + k) % 0x1_0000;
    }
  }

  /** When one slot is within reach, every packet drained from it carries its time. */
  lemma {:induction false} SendAllTimes(p: Pool, i: nat, frame: nat, ts: int, number: nat)
    requires |p.part| < frame && i < |p.slots|
    requires forall j | 0 <= j < |p.slots| && Eligible(p, j) :: j == i
    ensures var s := SendAll(p, frame, ts, number);
            forall k | 0 <= k < |s.packets| :: Reports(s.packets[k].ts, p.slots[i].time)
    decreases |Stream(p)|
  {
    hide MuFrame, Samples, Stream, CopyChunk, SendAll, Reports;
    CopyChunkReadsStream(p, frame, ts);
    var c := CopyChunk(p, frame, ts);
    SendAllUnfolds(p, frame, ts, number);
    if c.done {
      var s, rest := SendAll(p, frame, ts, number), SendAll(c.pool, frame, c.ts, NextNumber(number));
      OneSlotTime(p, i, frame, ts);
      forall j | 0 <= j < |c.pool.slots| && Eligible(c.pool, j) ensures j == i {
        assert c.pool.slots[j].live ==> p.slots[j].live;
        assert Eligible(p, j);
      }
      SendAllTimes(c.pool, i, frame, c.ts, NextNumber(number));
      forall k | 1 <= k < |s.packets| ensures Reports(s.packets[k].ts, p.slots[i].time) {
        assert s.packets[k] == rest.packets[k - 1];
      }
    }
  }

  lemma OneSlotTime(p: Pool, i: nat, size: nat, ts: int)
    requires |p.part| < size && i < |p.slots| && CopyChunk(p, size, ts).done
    requires forall j | 0 <= j < |p.slots| && Eligible(p, j) :: j == i
    ensures Reports(CopyChunk(p, size, ts).ts, p.slots[i].time)
  {
    hide CopyChunk, Reports, BytesOf;
    ChunkTime(p, size, ts);
    var m :| ReadsFirst(p, size, ts, m);
    assert Eligible(p, ReadingOrder(p)[m - 1]);
  }

  lemma RecordKeeps(l: Link, first: nat, csize: nat, pcm: seq<Byte>, time: real)
    requires Good(l, first) && first + Step(l, csize, Record(pcm, time)).count <= 0x1_0000
    ensures Good(Step(l, csize, Record(pcm, time)), first)
  {
    hide Samples, MuFrame, Played, Coded, SendAll, Stream, CopyChunk, Numbered;
    assert !l.record.slots[0].live;
    var i := ReservedSlot(l.record);
    var p := Put(Reserve(l.record), i, pcm, time);
    OneEligibleSlot(p, i);
    StreamOfOne(l.record.part, p, i);
    SendAllDrains(p, FRAME, l.ts, l.number);
    var s := SendAll(p, FRAME, l.ts, l.number);
    forall j | 0 <= j < AJD ensures !s.pool.slots[j].live {
      assert s.pool.slots[j].live ==> p.slots[j].live && j == i && Eligible(s.pool, j);
    }
    assert p.slots[i].bytes == pcm && p.part == l.record.part;
    assert l.recorded + pcm == l.sent + (l.record.part + pcm);
    assert l.recorded + pcm == (l.sent + s.taken) + s.pool.part;
    CodedConcat(l.sent, s.taken);
    PayloadConcat(l.wire, s.packets);
    PlayedConcat(Payload(l.wire), Payload(s.packets));
    assert l.heard + Stream(l.play) + (Played(Payload(l.wire)) + Played(Payload(s.packets)))
        == l.heard + Stream(l.play) + Played(Payload(l.wire)) + Played(Payload(s.packets));
    RecordKeepsNumbers(l, first, csize, pcm, time);
  }

  lemma RecordKeepsNumbers(l: Link, first: nat, csize: nat, pcm: seq<Byte>, time: real)
    requires Sized(l) && Numbered(l, first) && first + Step(l, csize, Record(pcm, time)).count <= 0x1_0000
    ensures Numbered(Step(l, csize, Record(pcm, time)), first)
  {
    hide SendAll;
    var p := Put(Reserve(l.record), ReservedSlot(l.record), pcm, time);
    var s := SendAll(p, FRAME, l.ts, l.number);
    var m := Step(l, csize, Record(pcm, time));
    assert m.wire == l.wire + s.packets;
    if s.packets != [] {
      SendAllNumbers(p, FRAME, l.ts, l.number);
    } else {
      SendsNothing(p, l.ts, l.number);
    }
    forall k | 0 <= k < |m.wire|
      ensures m.wire[k].number == first + m.count - |m.wire| + k && 2 * |m.wire[k].payload| == FRAME
    {
      if k >= |l.wire| {
        assert m.wire[k] == s.packets[k - |l.wire|];
      }
    }
  }

  /** The packets sent for a recorded packet carry the time it was recorded with. */
  lemma RecordTimeIsSent(l: Link, first: nat, csize: nat, pcm: seq<Byte>, time: real)
    requires Good(l, first)
    ensures var m := Step(l, csize, Record(pcm, time));
            |m.wire| >= |l.wire| && forall k | |l.wire| <= k < |m.wire| :: Reports(m.wire[k].ts, time)
  {
    hide SendAll, Coded, Played, Stream, Numbered;
    var i := ReservedSlot(l.record);
    assert !l.record.slots[0].live;
    var p := Put(Reserve(l.record), i, pcm, time);
    var frame := FRAME;
    SendAllTimes(p, i, frame, l.ts, l.number);
    var s := SendAll(p, FRAME, l.ts, l.number);
    assert s == SendAll(p, frame, l.ts, l.number);
    assert p.slots[i].time == time;
    var m := Step(l, csize, Record(pcm, time));
    assert m.wire == l.wire + s.packets;
    forall k | |l.wire| <= k < |m.wire| ensures Reports(m.wire[k].ts, time) {
      assert m.wire[k] == s.packets[k - |l.wire|] && p.slots[i].time == time;
    }
  }

  /** A packet received alone is reported to the player under its number. */
  lemma NumberIsPlayed(p: Pool, csize: nat, payload: seq<Code>, number: nat, size: nat, ts: int)
    requires |p.slots| > 0 && |p.part| < size && |payload| <= csize
    requires forall j | 0 <= j < |p.slots| :: !p.slots[j].live
    requires CopyChunk(Receive(p, csize, payload, number), size, ts).done
    ensures CopyChunk(Receive(p, csize, payload, number), size, ts).ts == number
  {
    hide CopyChunk, PcmBytes, MuFrameBack;
    assert !p.slots[0].live;
    var q, i := Receive(p, csize, payload, number), ReservedSlot(p);
    OneSlotTime(q, i, size, ts);
    assert q.slots[i].time == number as real;
    WholeIsExact(CopyChunk(q, size, ts).ts, number);
  }

  lemma WholeIsExact(ts: int, n: int)
    requires Reports(ts, n as real)
    ensures ts == n
  {
  }

  lemma SendsNothing(p: Pool, ts: int, number: nat)
    requires |p.part| < FRAME && SendAll(p, FRAME, ts, number).packets == []
    ensures SendAll(p, FRAME, ts, number).number == number
  {
    hide MuFrame, Samples;
    SendAllUnfolds(p, FRAME, ts, number);
  }

  lemma StreamOfOne(part: seq<Byte>, p: Pool, i: nat)
    requires i < |p.slots| && p.part == part && Backlog(p) == p.slots[i].bytes
    ensures Stream(p) == part + p.slots[i].bytes
  {
  }

  lemma DeliverKeeps(l: Link, first: nat, csize: nat)
    requires Good(l, first) && Legal(l, Deliver) && csize >= FRAME
    ensures Good(Step(l, csize, Deliver), first)
  {
    hide MuFrameBack, PcmBytes, Stream, Coded;
    var packet, rest := l.wire[0], l.wire[1..];
    assert packet.number == first + l.count - |l.wire|;
    PutAppends(l.play, ReservedSlot(l.play), PcmBytes(MuFrameBack(packet.payload)), packet.number as real);
    PlayedConcat(packet.payload, Payload(rest));
    assert l.heard + (Stream(l.play) + Played(packet.payload)) + Played(Payload(rest))
        == l.heard + Stream(l.play) + (Played(packet.payload) + Played(Payload(rest)));
  }

  lemma PlayKeeps(l: Link, first: nat, csize: nat, size: nat)
    requires Good(l, first) && Legal(l, Play(size))
    ensures Good(Step(l, csize, Play(size)), first)
  {
    hide Played, Coded, Stream, CopyChunk;
    CopyChunkReadsStream(l.play, size, 0);
    var c := CopyChunk(l.play, size, 0);
    assert c.chunk + Stream(c.pool) == Stream(l.play);
    assert (l.heard + c.chunk) + Stream(c.pool) == l.heard + (c.chunk + Stream(c.pool));
  }

  ghost predicate LegalRun(l: Link, csize: nat, events: seq<Event>)
    requires Sized(l)
    decreases |events|
  {
    events == [] || (Legal(l, events[0]) && LegalRun(Step(l, csize, events[0]), csize, events[1..]))
  }

  ghost function After(l: Link, csize: nat, events: seq<Event>): Link
    requires Sized(l) && LegalRun(l, csize, events)
    decreases |events|
  {
    if events == [] then l else After(Step(l, csize, events[0]), csize, events[1..])
  }

  lemma StepKeeps(l: Link, first: nat, csize: nat, e: Event)
    requires Good(l, first) && Legal(l, e) && csize >= FRAME && first + Step(l, csize, e).count <= 0x1_0000
    ensures Good(Step(l, csize, e), first)
  {
    match e
    case Record(pcm, time) => RecordKeeps(l, first, csize, pcm, time);
    case Deliver => DeliverKeeps(l, first, csize);
    case Play(size) => PlayKeeps(l, first, csize, size);
  }

  lemma {:induction false} CountGrows(l: Link, csize: nat, events: seq<Event>)
    requires Sized(l) && LegalRun(l, csize, events)
    ensures After(l, csize, events).count >= l.count
    decreases |events|
  {
    if events != [] {
      CountGrows(Step(l, csize, events[0]), csize, events[1..]);
    }
  }

  lemma {:induction false} RunsKeep(l: Link, first: nat, csize: nat, events: seq<Event>)
    requires Good(l, first) && LegalRun(l, csize, events) && csize >= FRAME
    requires first + After(l, csize, events).count <= 0x1_0000
    ensures Good(After(l, csize, events), first)
    decreases |events|
  {
    hide Step;
    if events != [] {
      CountGrows(Step(l, csize, events[0]), csize, events[1..]);
      StepKeeps(l, first, csize, events[0]);
      RunsKeep(Step(l, csize, events[0]), first, csize, events[1..]);
    }
  }

  lemma StartIsGood(first: nat)
    requires first <= 0x1_0000
    ensures Good(Start(first), first)
  {
    assert Next(EmptyPool()) == -1 && Stream(EmptyPool()) == [];
    NothingCoded();
    assert Played([]) == [];
  }

  /**
   End to end, in slots that hold a frame and until the RTP numbers wrap: after any run, what was heard, what waits
   at the player and what is on the wire is the
   recording, sample by sample through Decode and Encode, up to the last partial frame.
   */
  lemma VoiceArrives(first: nat, csize: nat, events: seq<Event>)
    requires csize >= FRAME && LegalRun(Start(first), csize, events)
    requires first + After(Start(first), csize, events).count <= 0x1_0000
    ensures var l := After(Start(first), csize, events);
            && |l.record.part| < FRAME && |l.record.part| <= |l.recorded|
            && var sent := l.recorded[..|l.recorded| - |l.record.part|];
            && l.heard + Stream(l.play) + Played(Payload(l.wire)) == Coded(sent)
            && |Samples(Coded(sent))| == |sent| / 2
            && (forall k | 0 <= k < |sent| / 2 :: Samples(Coded(sent))[k] == MuRoundTrip(Samples(sent)[k]))
  {
    hide Step, Coded, Played, Samples, MuRoundTrip, Stream;
    StartIsGood(first);
    RunsKeep(Start(first), first, csize, events);
    var l := After(Start(first), csize, events);
    assert l.recorded[..|l.recorded| - |l.record.part|] == l.sent;
    SamplesOfPlayed(l.sent);
    forall k | 0 <= k < |l.sent| / 2 ensures Samples(Coded(l.sent))[k] == MuRoundTrip(Samples(l.sent)[k]) {
      CodedSample(l.sent, k);
    }
  }

  lemma SamplesOfPlayed(sent: seq<Byte>)
    ensures |Samples(Coded(sent))| == |sent| / 2
  {
  }

  lemma CodedSample(sent: seq<Byte>, k: nat)
    requires k < |sent| / 2
    ensures |Samples(Coded(sent))| == |sent| / 2
    ensures Samples(Coded(sent))[k] == MuRoundTrip(Samples(sent)[k])
  {
    hide MuFrame, MuFrameBack, Samples, PcmBytes, MuRoundTrip;
    SamplesOfPcm(MuFrameBack(MuFrame(Samples(sent))));
    MuFrameRoundTrip(Samples(sent), k);
  }

  /** Whatever is played, each sample of moderate loudness is within a thirty-second of what was recorded. */
  lemma VoiceIsClose(sent: seq<Byte>, k: nat)
    requires k < |sent| / 2 && Abs(Samples(sent)[k]) <= 8158
    ensures |Samples(Coded(sent))| == |sent| / 2
    ensures var x: int, y: int := Samples(sent)[k], Samples(Coded(sent))[k];
            32 * Abs(y - x) <= Abs(x) + 33
  {
    hide Coded, Samples, MuRoundTrip;
    CodedSample(sent, k);
    MuErrorBound(Samples(sent)[k]);
  }

  // ---------- A run that gets through ----------

  lemma FrameIsSent(p: Pool, ts: int, number: nat, pcm: seq<Byte>)
    requires |p.part| < FRAME == |pcm| && Stream(p) == pcm
    ensures exists t :: SendAll(p, FRAME, ts, number).packets == [Packet(number, t, MuFrame(Samples(pcm)))]
  {
    hide MuFrame, Samples, CopyChunk, Stream;
    CopyChunkReadsStream(p, FRAME, ts);
    var c := CopyChunk(p, FRAME, ts);
    assert c.done && c.chunk == pcm && |Stream(c.pool)| == 0;
    CopyChunkReadsStream(c.pool, FRAME, c.ts);
    SendAllUnfolds(p, FRAME, ts, number);
    SendAllUnfolds(c.pool, FRAME, c.ts, NextNumber(number));
    assert [Packet(number, c.ts, MuFrame(Samples(pcm)))] + [] == [Packet(number, c.ts, MuFrame(Samples(pcm)))];
  }

  lemma FrameIsRecorded(first: nat, csize: nat, pcm: seq<Byte>, time: real)
    requires |pcm| == FRAME
    ensures var l := Step(Start(first), csize, Record(pcm, time));
            && l.play == EmptyPool() && l.heard == []
            && exists t :: l.wire == [Packet(first, t, MuFrame(Samples(pcm)))]
  {
    hide MuFrame, Samples, SendAll;
    var e := EmptyPool();
    assert !e.slots[0].live;
    var p := Put(Reserve(e), ReservedSlot(e), pcm, time);
    OneEligibleSlot(p, ReservedSlot(e));
    StreamOfOne([], p, ReservedSlot(e));
    assert [] + pcm == pcm;
    FrameIsSent(p, 0, first, pcm);
    var s := SendAll(p, FRAME, 0, first);
    assert Step(Start(first), csize, Record(pcm, time)).wire == [] + s.packets;
  }

  lemma FrameIsPlayed(l: Link, csize: nat, number: nat, t: int, codes: seq<Code>)
    requires Sized(l) && l.play == EmptyPool() && l.heard == [] && l.wire == [Packet(number, t, codes)]
    requires 2 * |codes| == FRAME <= csize
    ensures Legal(l, Deliver) && Legal(Step(l, csize, Deliver), Play(FRAME))
    ensures Step(Step(l, csize, Deliver), csize, Play(FRAME)).heard == Played(codes)
  {
    hide MuFrameBack, PcmBytes, Stream, CopyChunk;
    var e := EmptyPool();
    assert !e.slots[0].live;
    var p := Put(Reserve(e), ReservedSlot(e), Played(codes), number as real);
    assert Step(l, csize, Deliver).play == p;
    OneEligibleSlot(p, ReservedSlot(e));
    StreamOfOne([], p, ReservedSlot(e));
    CopyChunkReadsStream(p, FRAME, 0);
    assert Stream(p)[..FRAME] == Played(codes);
    assert [] + Played(codes) == Played(codes);
  }

  lemma RecordIsLegal(l: Link, csize: nat, pcm: seq<Byte>, time: real)
    ensures Legal(l, Record(pcm, time))
  {
  }

  lemma OneMoreStep(l: Link, csize: nat, e: Event, rest: seq<Event>)
    requires Sized(l) && Legal(l, e) && LegalRun(Step(l, csize, e), csize, rest)
    ensures LegalRun(l, csize, [e] + rest)
    ensures After(l, csize, [e] + rest) == After(Step(l, csize, e), csize, rest)
  {
    hide Step, Legal;
    assert ([e] + rest)[1..] == rest;
  }

  lemma RunOfThree(l: Link, csize: nat, a: Event, b: Event, c: Event)
    requires Sized(l) && Legal(l, a) && Legal(Step(l, csize, a), b)
    requires Legal(Step(Step(l, csize, a), csize, b), c)
    ensures LegalRun(l, csize, [a, b, c])
    ensures After(l, csize, [a, b, c]) == Step(Step(Step(l, csize, a), csize, b), csize, c)
  {
    hide Step, Legal;
    var k := Step(l, csize, a);
    var m := Step(k, csize, b);
    OneMoreStep(m, csize, c, []);
    OneMoreStep(k, csize, b, [c]);
    OneMoreStep(l, csize, a, [b, c]);
    assert [c] + [] == [c] && [b] + [c] == [b, c] && [a] + [b, c] == [a, b, c];
  }

  /** A recorded frame that is delivered and played is heard, coded, from any first number. */
  lemma FrameGetsThrough(first: nat, csize: nat, pcm: seq<Byte>, time: real)
    requires |pcm| == FRAME <= csize
    ensures var run := [Record(pcm, time), Deliver, Play(FRAME)];
            LegalRun(Start(first), csize, run) && After(Start(first), csize, run).heard == Coded(pcm)
  {
    hide Played, MuFrame, Samples, Step, Legal;
    RecordIsLegal(Start(first), csize, pcm, time);
    var l := Step(Start(first), csize, Record(pcm, time));
    FrameIsRecorded(first, csize, pcm, time);
    var t :| l.wire == [Packet(first, t, MuFrame(Samples(pcm)))];
    FrameIsPlayed(l, csize, first, t, MuFrame(Samples(pcm)));
    RunOfThree(Start(first), csize, Record(pcm, time), Deliver, Play(FRAME));
  }
}
