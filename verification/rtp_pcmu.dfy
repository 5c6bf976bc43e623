/** The PCMU sender and receiver between a record and a play jitter buffer. */
module RtpPcmu {
  import opened PacketPool
  import opened G711
  import opened Jitter

  // ---------- Samples as bytes ----------

  function Lo(x: Sample): Byte { x % 256 }

  function Hi(x: Sample): Byte { x / 256 % 256 }

  function FromBytes(lo: Byte, hi: Byte): Sample {
    Wrap16(lo + 256 * hi)
  }

  lemma BytesOfSample(x: Sample)
    ensures FromBytes(Lo(x), Hi(x)) == x
  {
    var n: int := x;
    var q := n / 256;
    assert n == 256 * q + n % 256 && -128 <= q < 128;
    assert q % 256 == if q < 0 then q + 256 else q;
    Unwrap(x, n % 256 + 256 * (q % 256));
  }

  lemma Unwrap(x: Sample, n: int)
    requires n == x as int || n == x as int + 0x1_0000
    ensures Wrap16(n) == x
  {
  }

  function PcmBytes(samples: seq<Sample>): (bytes: seq<Byte>)
    ensures |bytes| == 2 * |samples|
  {
    if samples == [] then []
    else
      var n := |samples| - 1;
      PcmBytes(samples[..n]) + [Lo(samples[n]), Hi(samples[n])]
  }

  // Read as an array of samples; a last odd byte is not part of a sample.
  function Samples(bytes: seq<Byte>): (samples: seq<Sample>)
    ensures |samples| == |bytes| / 2
  {
    if |bytes| < 2 then []
    else
      var n := |bytes| / 2 - 1;
      Samples(bytes[..2 * n]) + [FromBytes(bytes[2 * n], bytes[2 * n + 1])]
  }

  lemma PcmBytesAppend(samples: seq<Sample>, x: Sample)
    ensures PcmBytes(samples + [x]) == PcmBytes(samples) + [Lo(x), Hi(x)]
  {
    assert (samples + [x])[..|samples|] == samples;
  }

  lemma SamplesAppend(bytes: seq<Byte>, lo: Byte, hi: Byte)
    requires |bytes| % 2 == 0
    ensures Samples(bytes + [lo, hi]) == Samples(bytes) + [FromBytes(lo, hi)]
  {
    hide FromBytes;
    assert (bytes + [lo, hi])[..|bytes|] == bytes;
  }

  lemma {:induction false} SamplesOfPcm(samples: seq<Sample>)
    ensures Samples(PcmBytes(samples)) == samples
  {
    hide Lo, Hi, FromBytes;
    if samples != [] {
      var n := |samples| - 1;
      SamplesOfPcm(samples[..n]);
      SamplesAppend(PcmBytes(samples[..n]), Lo(samples[n]), Hi(samples[n]));
      BytesOfSample(samples[n]);
    }
  }

  // ---------- Sender ----------

  datatype Packet = Packet(number: nat, ts: int, payload: seq<Code>)

  datatype Sent = Sent(pool: Pool, packets: seq<Packet>, taken: seq<Byte>, ts: int, number: nat) {
    predicate Ends(other: Sent) {
      pool == other.pool && ts == other.ts && number == other.number
    }
  }

  function NextNumber(n: nat): nat {
    (n + 1) % 0x1_0000
  }

  // What the restart loop sends: one packet for each chunk the record pool can give.
  function SendAll(p: Pool, frame: nat, ts: int, number: nat): (s: Sent)
    requires |p.part| < frame
    ensures |s.pool.part| < frame && |s.pool.slots| == |p.slots|
    decreases |Stream(p)|
  {
    CopyChunkReadsStream(p, frame, ts);
    var c := CopyChunk(p, frame, ts);
    if !c.done then Sent(c.pool, [], [], c.ts, number)
    else
      var rest := SendAll(c.pool, frame, c.ts, NextNumber(number));
      rest.(packets := [Packet(number, c.ts, MuFrame(Samples(c.chunk)))] + rest.packets, taken := c.chunk + rest.taken)
  }

  lemma SendAllUnfolds(p: Pool, frame: nat, ts: int, number: nat)
    requires |p.part| < frame
    ensures var c, all := CopyChunk(p, frame, ts), SendAll(p, frame, ts, number);
            if !c.done then all == Sent(c.pool, [], [], c.ts, number)
            else
              var rest := SendAll(c.pool, frame, c.ts, NextNumber(number));
              all.packets == [Packet(number, c.ts, MuFrame(Samples(c.chunk)))] + rest.packets && rest.Ends(all)
  {
  }

  function Payload(packets: seq<Packet>): seq<Code> {
    if packets == [] then [] else packets[0].payload + Payload(packets[1..])
  }

  const RTP_HEADER_SIZE: nat := 12

  lemma NothingCoded()
    ensures MuFrame(Samples([])) == []
  {
  }

  lemma FrameAppends(chunk: seq<Byte>, i: nat)
    requires 2 * i + 2 <= |chunk|
    ensures MuFrame(Samples(chunk[..2 * i + 2])) ==
            MuFrame(Samples(chunk[..2 * i])) + [MuEncode(FromBytes(chunk[2 * i], chunk[2 * i + 1]))]
  {
    assert chunk[..2 * i + 2] == chunk[..2 * i] + [chunk[2 * i], chunk[2 * i + 1]];
    SamplesAppend(chunk[..2 * i], chunk[2 * i], chunk[2 * i + 1]);
    MuFrameAppend(Samples(chunk[..2 * i]), FromBytes(chunk[2 * i], chunk[2 * i + 1]));
  }

  class Sender {
    const record: AJitter
    const frameSize: nat
    const mb: array<Byte>
    const pt: int
    var magic: int
    var ts: int
    var number: nat             // the sequence number of the RTP socket
    var wire: seq<Packet>       // what has been handed to the UDP socket

    const MAGIC := 0x1ee1F00D

    ghost predicate Valid()
      reads this, record, record.packets, record.packets.buffer, record.outBuffer
    {
      && record.Valid() && record.PartIn(record.outBuffer)
      && frameSize % 2 == 0 && |record.pool.part| < frameSize <= record.outBuffer.Length
      && mb.Length >= RTP_HEADER_SIZE + frameSize / 2
      && mb != record.packets.buffer && mb != record.outBuffer
    }

    constructor (record: AJitter, pt: int)
      requires record.Valid() && record.PartIn(record.outBuffer)
      requires record.outHave < 320 <= record.outBuffer.Length
      ensures Valid() && this.record == record && frameSize == 320 && magic == MAGIC && wire == []
    {
      this.record := record;
      this.pt := pt;
      frameSize := 320;
      mb := new Byte[400 + RTP_HEADER_SIZE];
      magic := MAGIC;
      ts := 0;
      number := 0;
      wire := [];
    }

    /** Sends every whole frame the record buffer holds. */
    method Send()
      requires Valid()
      modifies this`ts, this`number, this`wire, mb
      modifies record, record.packets, record.outBuffer
      ensures Valid() && magic == old(magic)
      ensures magic != MAGIC ==>
                record.pool == old(record.pool) && wire == old(wire) && ts == old(ts) && number == old(number)
      ensures magic == MAGIC ==>
                var s := SendAll(old(record.pool), frameSize, old(ts), old(number));
                record.pool == s.pool && wire == old(wire) + s.packets && ts == s.ts && number == s.number
    {
      hide SendAll, CopyChunk, AJitter.Valid, AJitter.PartIn, MuFrame, Samples, NextNumber;
      if magic != MAGIC {
        return;
      }
      ghost var all := SendAll(record.pool, frameSize, ts, number);
      while true
        invariant Valid() && magic == old(magic)
        invariant SendAll(record.pool, frameSize, ts, number).Ends(all)
        invariant wire + SendAll(record.pool, frameSize, ts, number).packets == old(wire) + all.packets
        decreases |SendAll(record.pool, frameSize, ts, number).packets|
      {
        ghost var p, t, n, w := record.pool, ts, number, wire;
        SendAllUnfolds(p, frameSize, t, n);
        var sent := SendOne();
        if !sent {
          return;
        }
        ghost var rest := SendAll(record.pool, frameSize, ts, number);
        assert wire + rest.packets == w + ([wire[|w|]] + rest.packets);
      }
    }

    // One turn of the restart loop.
    method SendOne() returns (sent: bool)
      requires Valid()
      modifies this`ts, this`number, this`wire, mb
      modifies record, record.packets, record.outBuffer
      ensures Valid()
      ensures var c := CopyChunk(old(record.pool), frameSize, old(ts));
              && sent == c.done && record.pool == c.pool && ts == c.ts
              && number == (if sent then NextNumber(old(number)) else old(number))
              && wire == old(wire) + if sent then [Packet(old(number), ts, MuFrame(Samples(c.chunk)))] else []
    {
      var chunk, done, now := record.GetChunk(frameSize, ts);
      ts := now;
      if !done {
        return false;
      }
      SendPacket(chunk);
      return true;
    }

    method SendPacket(chunk: seq<Byte>)
      requires |chunk| == frameSize && frameSize % 2 == 0 && mb.Length >= RTP_HEADER_SIZE + frameSize / 2
      modifies this`number, this`wire, mb
      ensures number == NextNumber(old(number))
      ensures wire == old(wire) + [Packet(old(number), ts, MuFrame(Samples(chunk)))]
    {
      var len := frameSize / 2;
      EncodeFrame(chunk, len);
      wire := wire + [Packet(number, ts, mb[RTP_HEADER_SIZE..RTP_HEADER_SIZE + len])];
      number := NextNumber(number);
    }

    // The sample loop.
    method EncodeFrame(chunk: seq<Byte>, len: nat)
      requires |chunk| == 2 * len && RTP_HEADER_SIZE + len <= mb.Length
      modifies mb
      ensures mb[RTP_HEADER_SIZE..RTP_HEADER_SIZE + len] == MuFrame(Samples(chunk))
    {
      hide MuEncode, MuFrame, Samples, FromBytes;
      var i := 0;
      NothingCoded();
      assert chunk[..0] == [];
      while i < len
        invariant i <= len
        invariant mb[RTP_HEADER_SIZE..RTP_HEADER_SIZE + i] == MuFrame(Samples(chunk[..2 * i]))
      {
        var x := FromBytes(chunk[2 * i], chunk[2 * i + 1]);
        var c := MuLaw_Encode(x);
        mb[RTP_HEADER_SIZE + i] := c;
        FrameAppends(chunk, i);
        assert mb[RTP_HEADER_SIZE..RTP_HEADER_SIZE + i + 1] == mb[RTP_HEADER_SIZE..RTP_HEADER_SIZE + i] + [c];
        i := i + 1;
        assert chunk[..2 * i] == chunk[..2 * (i - 1) + 2];
      }
      assert chunk[..2 * i] == chunk;
    }
  }

  // ---------- Receiver ----------

  // A packet longer than a slot is dropped.
  function Receive(p: Pool, csize: nat, payload: seq<Code>, number: nat): Pool
    requires |p.slots| > 0
  {
    if |payload| > csize then p
    else Put(Reserve(p), ReservedSlot(p), PcmBytes(MuFrameBack(payload)), number as real)
  }

  class Receiver {
    const play: AJitter
    var lastRead: int

    constructor (play: AJitter)
      ensures this.play == play && lastRead == 0
    {
      this.play := play;
      lastRead := 0;
    }

    // `*obuf = x`, where `obuf` is the address `at`.
    method WriteSample(at: nat, x: Sample)
      modifies play.packets`beyond, play.packets.buffer
      ensures play.packets.buffer[..] == Poured(old(play.packets.buffer[..]), at, [Lo(x), Hi(x)])
      ensures play.packets.beyond == old(play.packets.beyond) + Spilled(play.packets.buffer.Length, at, [Lo(x), Hi(x)])
    {
      hide Lo, Hi, Poured, Spilled;
      ghost var block := play.packets.buffer[..];
      play.packets.Poke(at, Lo(x));
      play.packets.Poke(at + 1, Hi(x));
      PouredConcat(block, at, [Lo(x)], [Hi(x)]);
      assert [Lo(x)] + [Hi(x)] == [Lo(x), Hi(x)];
      PutTogether(old(play.packets.beyond), Spilled(|block|, at, [Lo(x)]), Spilled(|block|, at + 1, [Hi(x)]));
    }

    // The sample loop: raw writes from the start of the slot, however long the payload is.
    method FillSlot(idx: nat, payload: seq<Code>)
      requires idx < |play.packets.data|
      modifies play.packets`beyond, play.packets.buffer
      ensures var at, bytes := play.packets.data[idx], PcmBytes(MuFrameBack(payload));
              && play.packets.buffer[..] == Poured(old(play.packets.buffer[..]), at, bytes)
              && play.packets.beyond == old(play.packets.beyond) + Spilled(play.packets.buffer.Length, at, bytes)
    {
      hide MuDecode, Lo, Hi, PcmBytes, MuFrameBack, Poured, Spilled;
      ghost var block, beyond := play.packets.buffer[..], play.packets.beyond;
      var at := play.packets.data[idx];
      var i := 0;
      NothingDecoded();
      NothingPoured(block, at);
      while i < |payload|
        invariant i <= |payload|
        invariant play.packets.buffer[..] == Poured(block, at, PcmBytes(MuFrameBack(payload[..i])))
        invariant play.packets.beyond == beyond + Spilled(|block|, at, PcmBytes(MuFrameBack(payload[..i])))
      {
        ghost var done := PcmBytes(MuFrameBack(payload[..i]));
        var x := MuDecode(payload[i]);
        WriteSample(at + 2 * i, x);
        assert payload[..i + 1] == payload[..i] + [payload[i]];
        FrameBackAppends(payload[..i], payload[i]);
        PouredConcat(block, at, done, [Lo(x), Hi(x)]);
        PutTogether(beyond, Spilled(|block|, at, done), Spilled(|block|, at + 2 * i, [Lo(x), Hi(x)]));
        i := i + 1;
      }
      assert payload[..i] == payload;
    }

    // A slot that holds the samples is filled, and the others are as they were.
    method FillReserved(idx: nat, payload: seq<Code>)
      requires play.packets.Valid() && idx < |play.packets.data|
      modifies play.packets`beyond, play.packets.buffer
      ensures var at, bytes := play.packets.data[idx], PcmBytes(MuFrameBack(payload));
              && play.packets.buffer[..] == Poured(old(play.packets.buffer[..]), at, bytes)
              && play.packets.beyond == old(play.packets.beyond) + Spilled(play.packets.buffer.Length, at, bytes)
              && (|bytes| <= play.packets.csize ==>
                    && play.packets.ValidBut(idx) && at + |bytes| <= play.packets.buffer.Length
                    && play.packets.buffer[at..at + |bytes|] == bytes)
    {
      hide PcmBytes, MuFrameBack, Poured, Spilled, Packets.SlotOk, Packets.Apart, Packets.SlotIn;
      ghost var block, bytes := play.packets.buffer[..], PcmBytes(MuFrameBack(payload));
      play.packets.ReadsBlock();
      FillSlot(idx, payload);
      if |bytes| <= play.packets.csize {
        play.packets.PouredIntoSlot(block, idx, bytes);
        PouredThere(block, play.packets.data[idx], bytes);
        Whole(play.packets.buffer, play.packets.data[idx], |bytes|);
      }
    }

    lemma Whole(a: array<Byte>, at: nat, n: nat)
      requires at + n <= a.Length
      ensures a[at..at + n] == a[..][at..at + n]
    {
    }

    /**
     `payload` is what is left of the packet after `rtp_un`, which fails when `ok` is false. A payload that passes
     the length check is written from the start of the reserved slot; in a slot that holds its samples the packet
     is put, and nothing else in the block changes.
     */
    method Recv(number: nat, payload: seq<Code>, ok: bool, now: int)
      requires play.Valid()
      modifies this, play`pool, play`used, play`time, play`last, play.packets, play.packets.buffer
      ensures !ok || |payload| > play.packets.csize ==>
                && play.Valid() && play.pool == old(play.pool) && lastRead == old(lastRead)
                && play.packets.buffer[..] == old(play.packets.buffer[..])
                && play.packets.beyond == old(play.packets.beyond)
      ensures ok && |payload| <= play.packets.csize ==>
                var i, bytes := ReservedSlot(old(play.pool)), PcmBytes(MuFrameBack(payload));
                && i < |play.packets.data| == |play.time| == |old(play.packets.left)| == |old(play.packets.off)|
                && play.packets.buffer[..] == Poured(old(play.packets.buffer[..]), play.packets.data[i], bytes)
                && play.packets.beyond == old(play.packets.beyond) +
                    Spilled(play.packets.buffer.Length, play.packets.data[i], bytes)
                && play.packets.left == old(play.packets.left)[i := |payload| * 2]
                && play.packets.off == old(play.packets.off)[i := 0]
                && play.last == number as real == play.time[i] && lastRead == now
      ensures ok && |payload| <= play.packets.csize && 2 * |payload| <= play.packets.csize ==>
                && play.Valid() && |old(play.pool).slots| > 0
                && play.pool == Receive(old(play.pool), play.packets.csize, payload, number)
    {
      hide PcmBytes, MuFrameBack, Poured, Spilled, Receive;
      if !ok || |payload| > play.packets.csize {
        return;
      }
      PutPacket(number, payload);
      lastRead := now;
    }

    method PutPacket(number: nat, payload: seq<Code>)
      requires play.Valid() && |payload| <= play.packets.csize
      modifies play`pool, play`used, play`time, play`last, play.packets, play.packets.buffer
      ensures var i, bytes := ReservedSlot(old(play.pool)), PcmBytes(MuFrameBack(payload));
              && i < |play.packets.data| == |play.time| == |old(play.packets.left)| == |old(play.packets.off)|
              && play.packets.buffer[..] == Poured(old(play.packets.buffer[..]), play.packets.data[i], bytes)
              && play.packets.beyond == old(play.packets.beyond) +
                  Spilled(play.packets.buffer.Length, play.packets.data[i], bytes)
              && play.packets.left == old(play.packets.left)[i := |payload| * 2]
              && play.packets.off == old(play.packets.off)[i := 0]
              && play.last == number as real == play.time[i]
      ensures 2 * |payload| <= play.packets.csize ==>
                && play.Valid() && |old(play.pool).slots| > 0
                && play.pool == Receive(old(play.pool), play.packets.csize, payload, number)
    {
      hide PcmBytes, MuFrameBack, Poured, Spilled, Packets.SlotOk, Packets.Apart, AJitter.Stands;
      var idx := play.PutPtr();
      FillReserved(idx, payload);
      play.SetLength(idx, |payload| * 2);
      play.PutDone(idx, number as real);
    }
  }

  // ---------- Payloads and slots ----------

  // The sample loop writes only bytes of slot `idx`, whatever a block of `count` slots held.
  ghost predicate StaysInSlot(csize: nat, count: nat, idx: nat, payload: seq<Code>) {
    forall block: seq<Byte> | |block| == csize * count ::
      OnlySlotChanges(block, csize, idx, PcmBytes(MuFrameBack(payload)))
  }

  predicate OnlySlotChanges(block: seq<Byte>, csize: nat, idx: nat, bytes: seq<Byte>) {
    && Spilled(|block|, csize * idx, bytes) == map[]
    && forall k | 0 <= k < |block| && !(csize * idx <= k < csize * idx + csize) ::
         Poured(block, csize * idx, bytes)[k] == block[k]
  }

  /**
   Of the payloads the length check lets through, exactly those whose samples take no more bytes than a slot
   has are written within their slot: the check compares a number of samples with a number of bytes.
   */
  lemma WritesStayInSlot(csize: nat, count: nat, idx: nat, payload: seq<Code>)
    requires idx < count && |payload| <= csize
    ensures StaysInSlot(csize, count, idx, payload) <==> 2 * |payload| <= csize
  {
    hide PcmBytes, MuFrameBack;
    var bytes := PcmBytes(MuFrameBack(payload));
    NextMultiple(csize, idx, count);
    if 2 * |payload| <= csize {
      forall block: seq<Byte> | |block| == csize * count ensures OnlySlotChanges(block, csize, idx, bytes) {
        PouredThere(block, csize * idx, bytes);
      }
    } else {
      var other: Byte := if bytes[csize] == 0 then 1 else 0;
      var block: seq<Byte> := seq(csize * count, _ => other);
      LongPayloadSpills(block, csize, idx, bytes);
      assert !OnlySlotChanges(block, csize, idx, bytes);
    }
  }

  // The first byte after a full slot goes into the next slot, or past the block.
  lemma LongPayloadSpills(block: seq<Byte>, csize: nat, idx: nat, bytes: seq<Byte>)
    requires |bytes| > csize && csize * idx + csize <= |block|
    ensures var k := csize * idx + csize;
            if k < |block| then Poured(block, csize * idx, bytes)[k] == bytes[csize]
            else k in Spilled(|block|, csize * idx, bytes)
  {
    assert Past(|block|, csize * idx, csize * idx + csize) <==> csize * idx + csize >= |block|;
  }

  /**
   A payload of 161 octets and the 320-byte slots of the sound drivers: the packet is let through, and its last
   sample goes into the next slot, or past the block from the last slot.
   */
  lemma LongPayload(block: seq<Byte>, idx: nat, payload: seq<Code>)
    requires |block| == 320 * AJD && idx < AJD && |payload| == 161
    ensures var bytes, at := PcmBytes(MuFrameBack(payload)), 320 * idx;
            && |payload| <= 320 && !StaysInSlot(320, AJD, idx, payload)
            && (if idx < AJD - 1 then Poured(block, at, bytes)[320 * (idx + 1)] == bytes[320]
                else |block| in Spilled(|block|, at, bytes))
  {
    hide PcmBytes, MuFrameBack, StaysInSlot;
    WritesStayInSlot(320, AJD, idx, payload);
    LongPayloadSpills(block, 320, idx, PcmBytes(MuFrameBack(payload)));
  }

  lemma PutTogether(a: map<nat, Byte>, b: map<nat, Byte>, c: map<nat, Byte>)
    ensures a + b + c == a + (b + c)
  {
  }

  lemma NothingDecoded()
    ensures PcmBytes(MuFrameBack([])) == []
  {
  }

  lemma FrameBackAppends(payload: seq<Code>, c: Code)
    ensures PcmBytes(MuFrameBack(payload + [c])) == PcmBytes(MuFrameBack(payload)) + [Lo(MuDecode(c)), Hi(MuDecode(c))]
  {
    MuFrameBackAppend(payload, c);
    PcmBytesAppend(MuFrameBack(payload), MuDecode(c));
  }
}
