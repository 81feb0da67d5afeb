/**
 The 1722 talker (avb_1722_talker_support_audio.c): packet sizes from a 16.16 accumulator, and the
 frame-by-frame construction of 61883-6 packets.
 */
module Talker {
  import opened Bytes
  import opened OutputFifo

  // ----- packet sizes

  const ONE: nat := 0x1_0000

  predicate Oversize(rem: nat) {
    rem >= ONE
  }

  /** The accumulator at the end of a packet. */
  function NextRem(rem: nat, frac: nat): nat {
    if Oversize(rem) then (rem + frac) % ONE else rem + frac
  }

  /** The accumulator after `k` packets of a new stream. */
  function RemAt(frac: nat, k: nat): nat {
    if k == 0 then 0 else NextRem(RemAt(frac, k - 1), frac)
  }

  function OversizeCount(frac: nat, k: nat): nat {
    if k == 0 then 0 else OversizeCount(frac, k - 1) + if Oversize(RemAt(frac, k - 1)) then 1 else 0
  }

  function PacketSize(base: nat, rem: nat): nat {
    if Oversize(rem) then base + 1 else base
  }

  /** The accumulator stays below two, so every packet has the base size or one more; two oversize packets never meet. */
  lemma {:induction false} AccumulatorBounds(frac: nat, k: nat)
    requires frac < ONE
    ensures RemAt(frac, k) < ONE + frac || RemAt(frac, k) == 0
    ensures RemAt(frac, k) < 2 * ONE
    ensures Oversize(RemAt(frac, k)) ==> !Oversize(RemAt(frac, k + 1))
  {
    if k > 0 {
      AccumulatorBounds(frac, k - 1);
    }
  }

  ghost predicate Exact(frac: nat, k: nat) {
    ONE * OversizeCount(frac, k) + RemAt(frac, k) == k * frac
  }

  /** With a fraction of at most one half no carry is lost. */
  lemma {:induction false} AccumulatorExact(frac: nat, k: nat)
    requires frac <= ONE / 2
    ensures Exact(frac, k)
  {
    if k > 0 {
      AccumulatorExact(frac, k - 1);
      AccumulatorBounds(frac, k - 1);
      assert k * frac == (k - 1) * frac + frac;
    }
  }

  /** Oversize packets are at most every other packet. */
  lemma {:induction false} OversizeAtMostHalf(frac: nat, k: nat)
    requires frac < ONE
    ensures 2 * OversizeCount(frac, k) <= k
    ensures k > 0 && !Oversize(RemAt(frac, k - 1)) ==> 2 * OversizeCount(frac, k) <= k - 1
  {
    if k == 1 {
      assert OversizeCount(frac, 0) == 0;
    } else if k > 1 {
      OversizeAtMostHalf(frac, k - 1);
      AccumulatorBounds(frac, k - 2);
    }
  }

  /**
   Conservation for ever, exactly: the fractional parts of all packets add up to the oversize
   packets and the accumulator if and only if the fraction is at most one half.
   */
  lemma AccumulatorExactIff(frac: nat)
    requires frac < ONE
    ensures (forall k: nat :: Exact(frac, k)) <==> frac <= ONE / 2
  {
    if frac <= ONE / 2 {
      forall k: nat ensures Exact(frac, k) { AccumulatorExact(frac, k); }
    } else {
      var k := 3 * ONE;
      OversizeAtMostHalf(frac, k);
      AccumulatorBounds(frac, k);
      assert k * frac >= k * (ONE / 2 + 1);
      assert !Exact(frac, k);
    }
  }

  // ----- the settings for a rate

  /** The SYT interval of `configure_stream`, which traps on any other rate. */
  function TsInterval(rate: int): Option<nat> {
    match rate
    case 8000 => Some(1)
    case 16000 => Some(2)
    case 32000 => Some(8)
    case 44100 => Some(8)
    case 48000 => Some(8)
    case 88200 => Some(16)
    case 96000 => Some(16)
    case 176400 => Some(32)
    case 192000 => Some(32)
    case _ => None
  }

  /** The accumulator settings of `configure_stream` for a rate, at 8000 packets a second. */
  function BaseOf(rate: nat): nat {
    var scaled: nat := rate / 100 * ONE;
    scaled / 80 / ONE
  }

  function FracOf(rate: nat): (f: nat)
    ensures f < ONE
  {
    rate / 100 * ONE / 80 % ONE
  }

  lemma Nominal(rate: nat, base: nat, frac: nat)
    requires rate / 100 * ONE / 80 == base * ONE + frac && frac < ONE
    ensures BaseOf(rate) == base && FracOf(rate) == frac
  {
  }

  /** The packet sizes of every rate. */
  lemma NominalSizes(rate: nat)
    requires TsInterval(rate) != None
    ensures BaseOf(rate) == match rate { case 8000 => 1 case 16000 => 2 case 32000 => 4 case 44100 => 5 case 48000 => 6
                                         case 88200 => 11 case 96000 => 12 case 176400 => 22 case _ => 24 }
    ensures FracOf(rate) == match rate { case 44100 => 33587 case 88200 => 1638 case 176400 => 3276 case _ => 0 }
  {
    hide BaseOf, FracOf;
    Nominal(8000, 1, 0);
    Nominal(16000, 2, 0);
    Nominal(32000, 4, 0);
    Nominal(44100, 5, 33587);
    Nominal(48000, 6, 0);
    Nominal(88200, 11, 1638);
    Nominal(96000, 12, 0);
    Nominal(176400, 22, 3276);
    Nominal(192000, 24, 0);
  }

  lemma {:induction false} NoFraction(k: nat)
    ensures RemAt(0, k) == 0
  {
    if k > 0 {
      NoFraction(k - 1);
    }
  }

  /** At every rate a packet never holds more frames than one SYT interval. */
  lemma PacketFitsInterval(rate: nat, k: nat)
    requires TsInterval(rate) != None
    ensures PacketSize(BaseOf(rate), RemAt(FracOf(rate), k)) <= TsInterval(rate).value
  {
    hide BaseOf, FracOf, RemAt;
    NominalSizes(rate);
    NoFraction(k);
  }

  // ----- payload

  /** Offsets in a tagged Ethernet frame: 18 bytes Ethernet, 24 bytes AVBTP, 8 bytes CIP, then samples. */
  const FLAGS_AT: nat := 19
  const SEQ_AT: nat := 20
  const STREAM_ID0_AT: nat := 26
  const TIMESTAMP_AT: nat := 30
  const LENGTH_AT: nat := 38
  const DBC_AT: nat := 45
  const SAMPLES_AT: nat := 50
  const CIP_SIZE: nat := 8

  datatype Frame = Frame(timestamp: u32, samples: seq<u32>)

  /** Labels occupy the top byte of a word. */
  type Label = x: int | 0 <= x < TWO32 && x % 0x100_0000 == 0

  const MBLA_24BIT: Label := 0x4000_0000
  const MBLA_20BIT: Label := 0x4100_0000
  const MBLA_16BIT: Label := 0x4200_0000

  /** The label for a configured sample type; an unknown one is taken for 24 bits. */
  function SampleLabel(sampleType: u32): Label {
    if sampleType == MBLA_20BIT then MBLA_20BIT else if sampleType == MBLA_16BIT then MBLA_16BIT else MBLA_24BIT
  }

  /** The word for one sample: its top 24 bits under the label. */
  function Labelled(x: u32, tag: Label): (w: u32) {
    x / 0x100 + tag
  }

  function WordBytes(w: u32): (s: seq<byte>)
    ensures |s| == 4
  {
    var a := w / 0x100;
    var b := a / 0x100;
    [b / 0x100, b % 0x100, a % 0x100, w % 0x100]
  }

  /** The first `c` channels of a frame on the wire. */
  function FrameBytes(f: Frame, chans: seq<nat>, c: nat, tag: Label): (s: seq<byte>)
    requires c <= |chans| && forall i | 0 <= i < |chans| :: chans[i] < |f.samples|
    ensures |s| == 4 * c
  {
    if c == 0 then [] else FrameBytes(f, chans, c - 1, tag) + WordBytes(Labelled(f.samples[chans[c - 1]], tag))
  }

  predicate Mapped(fs: seq<Frame>, chans: seq<nat>) {
    forall f | f in fs :: forall i | 0 <= i < |chans| :: chans[i] < |f.samples|
  }

  /** Frames one after the other, channels interleaved. */
  function Payload(fs: seq<Frame>, chans: seq<nat>, tag: Label): (s: seq<byte>)
    requires Mapped(fs, chans)
    ensures |s| == 4 * |chans| * |fs|
  {
    if fs == [] then []
    else
      assert 4 * |chans| * |fs| == 4 * |chans| * (|fs| - 1) + 4 * |chans|;
      Payload(fs[..|fs| - 1], chans, tag) + FrameBytes(fs[|fs| - 1], chans, |chans|, tag)
  }

  lemma WordRoundTrip(w: u32)
    ensures Word(WordBytes(w), 0) == w
  {
  }

  /** Label, shift and truncation cancel but for the low eight bits. */
  lemma SampleRoundTrip(x: u32, tag: Label)
    ensures ToSample(Labelled(x, tag)) == x - x % 0x100
  {
    var q := tag / 0x100_0000;
    assert tag == q * 0x100_0000;
    assert (x / 0x100 + tag) * 0x100 == (x - x % 0x100) + q * TWO32;
  }

  // ----- timestamps

  /** The last of the `n` data blocks from `dbc` on that is a multiple of the interval, if there is one. */
  function LastStamped(dbc: nat, n: nat, interval: nat): (r: Option<nat>)
    requires interval > 0
    ensures r.Some? ==> r.value < n
  {
    if n == 0 then None
    else if (dbc + n - 1) % TWO32 % interval == 0 then Some(n - 1)
    else LastStamped(dbc, n - 1, interval)
  }

  // ----- the talker

  /** The fixed bytes of a stream's packets that matter for reception. */
  function HeaderByte(i: nat, dataBlockSize: byte): byte {
    if i == 12 then 0x81 else if i == 14 then 0x60 else if i == 16 then 0x22 else if i == 17 then 0xf0
    else if i == FLAGS_AT then 0x80
    else if i == 40 then 0x5f else if i == 41 then 0xa0
    else if i == 42 then 63 else if i == 43 then dataBlockSize
    else if i == 46 then 0x90 else if i == 47 then 2 else if i == 48 || i == 49 then 0xff
    else 0
  }

  function HeaderBytes(dataBlockSize: byte): (s: seq<byte>)
    ensures |s| == SAMPLES_AT
  {
    seq(SAMPLES_AT, i requires 0 <= i < SAMPLES_AT => HeaderByte(i, dataBlockSize))
  }

  /** The header in numbers: tag and type, AVBTP with a valid stream id, then the two CIP quadlets of 61883-6. */
  lemma HeaderFormat(dataBlockSize: byte)
    ensures HeaderBytes(dataBlockSize) ==
            [0, 0, 0, 0, 0, 0] + [0, 0, 0, 0, 0, 0] + [0x81, 0, 0x60, 0, 0x22, 0xf0] +
            [0, 0x80, 0, 0] + [0, 0, 0, 0] + [0, 0, 0, 0] + [0, 0, 0, 0] + [0, 0, 0, 0] + [0, 0, 0x5f, 0xa0] +
            [63, dataBlockSize, 0, 0] + [0x90, 2, 0xff, 0xff]
  {
  }

  /** The labels of 61883-6 in numbers; every other sample type counts as 24 bits. */
  lemma LabelNumbers(sampleType: u32)
    ensures SampleLabel(sampleType) / 0x100_0000 ==
            if sampleType == 0x4100_0000 then 0x41 else if sampleType == 0x4200_0000 then 0x42 else 0x40
  {
  }

  /** What a listener checks before it looks at the data: VLAN tag, data packet, version 0, stream id valid. */
  predicate GoodHeader(b: seq<byte>) {
    |b| >= SAMPLES_AT && b[12] == 0x81 && b[18] == 0 && b[FLAGS_AT] / 2 == 0x40
  }

  lemma LengthBytes(n: nat)
    ensures n / 0x100 % 0x100 * 0x100 + n % 0x100 == n % 0x1_0000
  {
  }

  /** The time-stamp valid bit is the lowest of its byte. */
  function WithFlag(x: byte, valid: bool): (y: byte)
    ensures y / 2 == x / 2 && y % 2 == if valid then 1 else 0
  {
    x / 2 * 2 + if valid then 1 else 0
  }

  /** A finished packet: header fields and payload. */
  datatype Packet = Packet(dbc: byte, valid: bool, timestamp: u32, id0: u32, sequence: byte, length: nat, payload: seq<byte>)

  ghost predicate Carries(b: seq<byte>, p: Packet) {
    && GoodHeader(b)
    && SAMPLES_AT + |p.payload| <= |b|
    && b[DBC_AT] == p.dbc
    && b[FLAGS_AT] % 2 == (if p.valid then 1 else 0)
    && Word(b, TIMESTAMP_AT) == p.timestamp
    && Word(b, STREAM_ID0_AT) == p.id0
    && b[SEQ_AT] == p.sequence
    && b[LENGTH_AT] as int * 0x100 + b[LENGTH_AT + 1] == p.length
    && b[SAMPLES_AT..SAMPLES_AT + |p.payload|] == p.payload
  }

  lemma FrameStart(f: Frame, chans: seq<nat>, tag: Label)
    requires Mapped([f], chans)
    ensures f in [f] && FrameBytes(f, chans, 0, tag) == []
  {
    assert f in [f];
  }

  lemma FrameNext(f: Frame, chans: seq<nat>, c: nat, tag: Label)
    requires c < |chans| && forall i | 0 <= i < |chans| :: chans[i] < |f.samples|
    ensures FrameBytes(f, chans, c + 1, tag) == FrameBytes(f, chans, c, tag) + WordBytes(Labelled(f.samples[chans[c]], tag))
  {
  }

  lemma WordAt(b: seq<byte>, at: nat, w: u32)
    requires at + 4 <= |b| && b[at..at + 4] == WordBytes(w)
    ensures Word(b, at) == w
  {
    hide WordBytes;
    WordRoundTrip(w);
    var four := b[at..at + 4];
    assert b[at] == four[0] && b[at + 1] == four[1] && b[at + 2] == four[2] && b[at + 3] == four[3];
  }

  class TalkerStream {
    const buf: array<byte>
    const chans: seq<nat>
    const interval: nat
    const base: nat
    const frac: nat
    const tag: Label
    const delay: u32
    const streamId0: u32
    var rem: nat
    var current: nat
    var tsValid: bool
    var timestamp: u32
    var dbc: u32
    var sequence: byte
    ghost var pending: seq<Frame>

    /** The packet under construction holds the pending frames and the time stamp they call for. */
    ghost predicate Filling()
      reads this, buf
    {
      && interval > 0 && base > 0 && frac < ONE && rem < 2 * ONE
      && SAMPLES_AT + 4 * |chans| * (base + 1) <= buf.Length
      && Mapped(pending, chans)
      && current == |pending| <= PacketSize(base, rem)
      && SAMPLES_AT + |Payload(pending, chans, tag)| <= buf.Length
      && GoodHeader(buf[..])
      && buf[SAMPLES_AT..SAMPLES_AT + |Payload(pending, chans, tag)|] == Payload(pending, chans, tag)
      && var last := LastStamped(dbc, current, interval);
      && tsValid == last.Some?
      && (tsValid ==> timestamp == pending[last.value].timestamp)
    }

    ghost predicate Valid()
      reads this, buf
    {
      Filling() && current < PacketSize(base, rem)
    }

    /** `configure_stream` and `AVB1722_Talker_bufInit`; addresses and VLAN id are not modelled. */
    constructor (size: nat, chans: seq<nat>, rate: nat, delay: u32, streamId0: u32, sampleType: u32)
      requires TsInterval(rate) != None && |chans| < 0x100
      requires SAMPLES_AT + 4 * |chans| * (BaseOf(rate) + 1) <= size
      ensures Valid() && fresh(buf) && pending == [] && dbc == 0 && rem == 0 && sequence == 0
      ensures this.chans == chans && Some(interval) == TsInterval(rate) && base == BaseOf(rate) && frac == FracOf(rate)
      ensures buf[..SAMPLES_AT] == HeaderBytes(if sampleType == MBLA_16BIT then |chans| / 2 else |chans|)
      ensures tag == SampleLabel(sampleType) && this.delay == delay && this.streamId0 == streamId0
    {
      NominalSizes(rate);
      this.chans, interval, base, frac := chans, TsInterval(rate).value, BaseOf(rate), FracOf(rate);
      this.tag, this.delay, this.streamId0 := SampleLabel(sampleType), delay, streamId0;
      var dataBlockSize: byte := if sampleType == MBLA_16BIT then |chans| / 2 else |chans|;
      buf := new byte[size](i => HeaderByte(i, dataBlockSize));
      rem, current, tsValid, timestamp, dbc, sequence, pending := 0, 0, false, 0, 0, 0, [];
    }

    /** Four bytes, most significant first. */
    method PutWord(at: nat, w: u32)
      requires at + 4 <= buf.Length
      modifies buf
      ensures buf[at..at + 4] == WordBytes(w)
      ensures forall i | 0 <= i < buf.Length && !(at <= i < at + 4) :: buf[i] == old(buf[i])
    {
      hide WordBytes;
      var s := WordBytes(w);
      buf[at], buf[at + 1], buf[at + 2], buf[at + 3] := s[0], s[1], s[2], s[3];
    }

    /** The channel loop: the frame goes behind those already in the packet. */
    method PutFrame(frame: Frame, at: nat)
      requires Mapped([frame], chans) && SAMPLES_AT <= at && at + 4 * |chans| <= buf.Length
      modifies buf
      ensures frame in [frame] && buf[at..at + 4 * |chans|] == FrameBytes(frame, chans, |chans|, tag)
      ensures forall i | 0 <= i < buf.Length && !(at <= i < at + 4 * |chans|) :: buf[i] == old(buf[i])
    {
      hide WordBytes, Labelled, FrameBytes;
      FrameStart(frame, chans, tag);
      var i := 0;
      while i < |chans|
        invariant 0 <= i <= |chans|
        invariant buf[at..at + 4 * i] == FrameBytes(frame, chans, i, tag)
        invariant forall k | 0 <= k < buf.Length && !(at <= k < at + 4 * i) :: buf[k] == old(buf[k])
      {
        ghost var was := buf[..];
        FrameNext(frame, chans, i, tag);
        PutWord(at + 4 * i, Labelled(frame.samples[chans[i]], tag));
        SliceKept(was, buf[..], at, at + 4 * i);
        SliceSplit(buf[..], at, at + 4 * i, at + 4 * i + 4);
        i := i + 1;
      }
    }

    /** The fields of one or two bytes. */
    method PutFields(d: byte, valid: bool, length: nat)
      requires GoodHeader(buf[..])
      modifies buf
      ensures GoodHeader(buf[..])
      ensures buf[DBC_AT] == d && buf[FLAGS_AT] % 2 == (if valid then 1 else 0) && buf[SEQ_AT] == sequence
      ensures buf[LENGTH_AT] as int * 0x100 + buf[LENGTH_AT + 1] == length % 0x1_0000
      ensures forall i | SAMPLES_AT <= i < buf.Length :: buf[i] == old(buf[i])
    {
      LengthBytes(length);
      var high: byte, low: byte := length / 0x100 % 0x100, length % 0x100;
      var flags := WithFlag(buf[FLAGS_AT], valid);
      buf[DBC_AT] := d;
      buf[LENGTH_AT], buf[LENGTH_AT + 1] := high, low;
      buf[FLAGS_AT] := flags;
      buf[SEQ_AT] := sequence;
    }

    /** The header generators: data length, timestamp and its valid flag, stream id, sequence number, DBC. */
    method PutHeader(d: byte, valid: bool, ts: u32, length: nat)
      requires GoodHeader(buf[..]) && (!valid ==> ts == 0)
      modifies buf
      ensures GoodHeader(buf[..])
      ensures buf[DBC_AT] == d && buf[FLAGS_AT] % 2 == (if valid then 1 else 0)
      ensures Word(buf[..], TIMESTAMP_AT) == ts
      ensures Word(buf[..], STREAM_ID0_AT) == streamId0 && buf[SEQ_AT] == sequence
      ensures buf[LENGTH_AT] as int * 0x100 + buf[LENGTH_AT + 1] == length % 0x1_0000
      ensures forall i | SAMPLES_AT <= i < buf.Length :: buf[i] == old(buf[i])
    {
      hide WordBytes, Word;
      PutFields(d, valid, length);
      PutWord(STREAM_ID0_AT, streamId0);
      var stamp: u32 := if valid then ts else 0;
      ghost var id := buf[STREAM_ID0_AT..STREAM_ID0_AT + 4];
      PutWord(TIMESTAMP_AT, stamp);
      WordAt(buf[..], TIMESTAMP_AT, stamp);
      assert buf[STREAM_ID0_AT..STREAM_ID0_AT + 4] == id;
      WordAt(buf[..], STREAM_ID0_AT, streamId0);
    }

    /** The header of a complete packet. */
    method FinishHeader(samplesPerChannel: nat, toPtp: u32 -> u32) returns (length: nat)
      requires Filling() && current == samplesPerChannel
      modifies buf
      ensures GoodHeader(buf[..]) && length == CIP_SIZE + 4 * |chans| * samplesPerChannel
      ensures Carries(buf[..], PacketOf(pending, dbc, sequence, toPtp))
    {
      hide Payload, WordBytes, LastStamped, Mapped;
      ghost var fs := pending;
      ghost var was := buf[..];
      length := CIP_SIZE + 4 * |chans| * samplesPerChannel;
      var ptp: u32 := 0;
      if tsValid {
        ptp := (toPtp(timestamp) + delay) % TWO32;
      }
      PutHeader(dbc % 0x100, tsValid, ptp, length);
      SliceKept(was, buf[..], SAMPLES_AT, SAMPLES_AT + |Payload(fs, chans, tag)|);
    }

    /** The end of a packet: accumulator, header, counters. */
    method ClosePacket(samplesPerChannel: nat, toPtp: u32 -> u32) returns (size: nat)
      requires Filling() && current == samplesPerChannel == PacketSize(base, rem)
      modifies this, buf
      ensures Valid() && pending == []
      ensures size == SAMPLES_AT + 4 * |chans| * samplesPerChannel
      ensures dbc == (old(dbc) + samplesPerChannel) % TWO32 && rem == NextRem(old(rem), frac)
      ensures sequence == (old(sequence) + 1) % 0x100
      ensures Carries(buf[..], PacketOf(old(pending), old(dbc), old(sequence), toPtp))
    {
      hide Payload, Carries, PacketOf;
      var length := FinishHeader(samplesPerChannel, toPtp);
      rem := rem + frac;
      if samplesPerChannel > base {
        rem := rem % ONE;
      }
      dbc := (dbc + samplesPerChannel) % TWO32;
      sequence := (sequence + 1) % 0x100;
      current, tsValid, pending := 0, false, [];
      NoPayload(chans, tag);
      size := SAMPLES_AT + length - CIP_SIZE;
    }

    /** The packet that a complete list of frames makes. */
    ghost function PacketOf(fs: seq<Frame>, start: u32, number: byte, toPtp: u32 -> u32): Packet
      requires Mapped(fs, chans) && interval > 0
    {
      var last := LastStamped(start, |fs|, interval);
      Packet(start % 0x100, last.Some?, if last.Some? then (toPtp(fs[last.value].timestamp) + delay) % TWO32 else 0,
             streamId0, number, (CIP_SIZE + 4 * |chans| * |fs|) % 0x1_0000, Payload(fs, chans, tag))
    }

    /**
     `avb1722_create_packet`: one audio frame joins the packet; the frame that completes it closes
     the packet. The conversion of local time to PTP time is a parameter.
     */
    method CreatePacket(frame: Frame, toPtp: u32 -> u32) returns (size: nat)
      requires Valid() && Mapped([frame], chans)
      modifies this, buf
      ensures Valid()
      ensures Mapped(old(pending) + [frame], chans)
      ensures |old(pending)| + 1 < PacketSize(base, old(rem)) ==>
                && size == 0 && pending == old(pending) + [frame]
                && dbc == old(dbc) && rem == old(rem) && sequence == old(sequence)
      ensures |old(pending)| + 1 == PacketSize(base, old(rem)) ==>
                && size == SAMPLES_AT + 4 * |chans| * PacketSize(base, old(rem)) && pending == []
                && dbc == (old(dbc) + PacketSize(base, old(rem))) % TWO32
                && rem == NextRem(old(rem), frac) && sequence == (old(sequence) + 1) % 0x100
                && Carries(buf[..], PacketOf(old(pending) + [frame], old(dbc), old(sequence), toPtp))
    {
      hide Filling, Carries, PacketOf, Payload;
      var samplesPerChannel := base;
      if rem >= ONE {
        samplesPerChannel := samplesPerChannel + 1;
      }
      AddFrame(frame);
      size := 0;
      if current == samplesPerChannel {
        size := ClosePacket(samplesPerChannel, toPtp);
      }
    }

    /** The sample words of a frame, and its time if its data block is one that carries a time stamp. */
    method AddFrame(frame: Frame)
      requires Valid() && Mapped([frame], chans)
      modifies this`tsValid, this`timestamp, this`current, this`pending, buf
      ensures Filling() && pending == old(pending) + [frame] && current == |pending| <= PacketSize(base, rem)
      ensures Mapped(old(pending) + [frame], chans)
    {
      hide Payload, FrameBytes;
      ghost var fs := pending + [frame];
      PayloadNext(pending, frame, chans, tag);
      SizeFits(|chans|, |fs|, base + 1);
      var at := SAMPLES_AT + 4 * |chans| * current;
      ghost var was := buf[..];
      PutFrame(frame, at);
      SliceKept(was, buf[..], SAMPLES_AT, at);
      SliceSplit(buf[..], SAMPLES_AT, at, at + 4 * |chans|);
      if (dbc + current) % TWO32 % interval == 0 {
        tsValid := true;
        timestamp := frame.timestamp;
      }
      current := current + 1;
      pending := fs;
    }
  }

  lemma SliceSplit(s: seq<byte>, a: nat, b: nat, c: nat)
    requires a <= b <= c <= |s|
    ensures s[a..c] == s[a..b] + s[b..c]
  {
  }

  lemma SliceKept(s: seq<byte>, t: seq<byte>, a: nat, b: nat)
    requires a <= b <= |s| == |t| && forall k | a <= k < b :: s[k] == t[k]
    ensures s[a..b] == t[a..b]
  {
  }

  lemma NoPayload(chans: seq<nat>, tag: Label)
    ensures Payload([], chans, tag) == []
  {
  }

  lemma PayloadNext(fs: seq<Frame>, f: Frame, chans: seq<nat>, tag: Label)
    requires Mapped(fs, chans) && Mapped([f], chans)
    ensures f in [f] && Mapped(fs + [f], chans)
    ensures Payload(fs + [f], chans, tag) == Payload(fs, chans, tag) + FrameBytes(f, chans, |chans|, tag)
    ensures 4 * |chans| * |fs + [f]| == 4 * |chans| * |fs| + 4 * |chans|
  {
    hide FrameBytes;
    assert f in [f];
    assert (fs + [f])[..|fs|] == fs;
  }

  lemma SizeFits(c: nat, n: nat, m: nat)
    requires n <= m
    ensures 4 * c * n <= 4 * c * m
  {
  }
}
