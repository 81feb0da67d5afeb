/**
 Talker and listener together: what a talker puts into a packet is what the listener's FIFOs get,
 and both ends agree on time stamps and rate.
 */
module AudioPath {
  import opened Bytes
  import opened OutputFifo
  import opened Talker
  import opened Listener

  // ----- time stamps

  /** The SYT intervals: powers of two that divide the 8-bit data block counter. */
  predicate IsInterval(n: nat) {
    n in {1, 2, 4, 8, 16, 32, 64, 128, 256}
  }

  lemma MulGe(d: int, n: nat)
    requires d >= 1
    ensures d * n >= n
  {
    assert d * n == (d - 1) * n + n;
  }

  lemma ModUnique(x: int, q: int, r: int, n: nat)
    requires 0 <= r < n && x == q * n + r
    ensures x % n == r
  {
    var q', r' := x / n, x % n;
    assert (q - q') * n == r' - r;
    if q > q' {
      MulGe(q - q', n);
    } else if q < q' {
      assert (q' - q) * n == -((q - q') * n);
      MulGe(q' - q, n);
    }
  }

  /** Reducing by a multiple first does not change a remainder. */
  lemma ModMod(x: nat, n: nat, m: nat)
    requires n > 0 && m > 0
    ensures x % (m * n) % n == x % n
  {
    var a := m * n;
    assert a > 0;
    var r := x % a;
    var q := r / n;
    assert x == x / a * a + r;
    assert x / a * a == x / a * m * n;
    assert x == (x / a * m + q) * n + r % n;
    ModUnique(x, x / a * m + q, r % n, n);
  }

  lemma StampedAt(start: u32, j: nat, interval: nat)
    requires IsInterval(interval) && j < interval
    ensures (start + j) % TWO32 % interval == 0 <==> j == SytIndex(start % 0x100, interval)
  {
    hide IsInterval;
    Residue(start, interval);
    Residue(start + j, interval);
    RemainderSum(start, j, interval);
  }

  /** The intervals divide the widths of both counters. */
  lemma Residue(x: nat, interval: nat)
    requires IsInterval(interval)
    ensures interval > 0 && x % 0x100 % interval == x % interval && x % TWO32 % interval == x % interval
  {
    var m := Factor(interval);
    ModMod(x, interval, m);
    ModMod(x, interval, m * 0x100_0000);
  }

  lemma Factor(interval: nat) returns (m: nat)
    requires IsInterval(interval)
    ensures m > 0 && m * interval == 0x100 && m * 0x100_0000 * interval == TWO32
  {
    m := 0x100 / interval;
  }

  lemma RemainderSum(x: nat, j: nat, n: nat)
    requires j < n
    ensures (x + j) % n == 0 <==> j == (n - x % n) % n
  {
    var q, r := x / n, x % n;
    assert x == q * n + r;
    if r == 0 {
      ModUnique(n, 1, 0, n);
    } else {
      ModUnique(n - r, 0, n - r, n);
    }
    if r + j < n {
      ModUnique(x + j, q, r + j, n);
    } else {
      assert x + j == (q + 1) * n + (r + j - n);
      ModUnique(x + j, q + 1, r + j - n, n);
    }
  }

  /**
   Time-stamp agreement: a packet of at most one interval carries a valid time stamp exactly when
   the index that the listener computes from the 8-bit counter falls inside the packet, and the
   stamped data block is the one at that index, across every wrap of the counter.
   */
  lemma {:induction false} TimestampAgreement(start: u32, n: nat, interval: nat)
    requires IsInterval(interval) && n <= interval
    ensures LastStamped(start, n, interval) ==
            var i := SytIndex(start % 0x100, interval); if i < n then Some(i) else None
  {
    hide SytIndex;
    if n > 0 {
      StampedAt(start, n - 1, interval);
      TimestampAgreement(start, n - 1, interval);
    }
  }

  /** Both ends have the same interval for every rate, and none for any other. */
  lemma IntervalsAgree(rate: int)
    ensures SytInterval(rate) == TsInterval(rate)
    ensures TsInterval(8000) == Some(1) && TsInterval(16000) == Some(2) && TsInterval(32000) == Some(8)
    ensures TsInterval(44100) == Some(8) && TsInterval(48000) == Some(8)
    ensures TsInterval(88200) == Some(16) && TsInterval(96000) == Some(16)
    ensures TsInterval(176400) == Some(32) && TsInterval(192000) == Some(32)
    ensures TsInterval(rate).Some? ==> IsInterval(TsInterval(rate).value)
    ensures TsInterval(rate).Some? ==> rate in {8000, 16000, 32000, 44100, 48000, 88200, 96000, 176400, 192000}
  {
  }

  // ----- samples

  lemma {:induction false} FrameWordAt(f: Frame, chans: seq<nat>, n: nat, c: nat, tag: Label)
    requires c < n <= |chans| && forall i | 0 <= i < |chans| :: chans[i] < |f.samples|
    ensures FrameBytes(f, chans, n, tag)[4 * c..4 * c + 4] == WordBytes(Labelled(f.samples[chans[c]], tag))
    decreases n
  {
    hide WordBytes, Labelled;
    var head := FrameBytes(f, chans, n - 1, tag);
    if c < n - 1 {
      FrameWordAt(f, chans, n - 1, c, tag);
      assert FrameBytes(f, chans, n, tag)[4 * c..4 * c + 4] == head[4 * c..4 * c + 4];
    }
  }

  lemma Offsets(k: nat, n: nat, c: nat, channels: nat)
    requires k < n && c < channels
    ensures 4 * (k * channels + c) + 4 <= 4 * channels * n
    ensures k < n - 1 ==> 4 * (k * channels + c) + 4 <= 4 * channels * (n - 1)
    ensures 4 * ((n - 1) * channels + c) == 4 * channels * (n - 1) + 4 * c
  {
    MulMono(k + 1, n, channels);
    assert (k + 1) * channels == k * channels + channels;
    if k < n - 1 {
      MulMono(k + 1, n - 1, channels);
    }
  }

  /** Frame `k`, channel `c` is word `k * channels + c` of the payload. */
  lemma {:induction false} PayloadWordAt(fs: seq<Frame>, chans: seq<nat>, tag: Label, k: nat, c: nat)
    requires Mapped(fs, chans) && k < |fs| && c < |chans|
    ensures 4 * (k * |chans| + c) + 4 <= |Payload(fs, chans, tag)|
    ensures Payload(fs, chans, tag)[4 * (k * |chans| + c)..4 * (k * |chans| + c) + 4] ==
            WordBytes(Labelled(fs[k].samples[chans[c]], tag))
    decreases |fs|
  {
    hide WordBytes, Labelled, FrameBytes, Payload;
    var n := |fs| - 1;
    Offsets(k, |fs|, c, |chans|);
    PayloadSplit(fs, chans, tag);
    var head, last := Payload(fs[..n], chans, tag), FrameBytes(fs[n], chans, |chans|, tag);
    var at := 4 * (k * |chans| + c);
    if k < n {
      PayloadWordAt(fs[..n], chans, tag, k, c);
      InFirst(head, last, at, at + 4);
    } else {
      FrameWordAt(fs[n], chans, |chans|, c, tag);
      InSecond(head, last, 4 * c, 4 * c + 4);
    }
  }

  lemma PayloadSplit(fs: seq<Frame>, chans: seq<nat>, tag: Label)
    requires Mapped(fs, chans) && fs != []
    ensures Mapped(fs[..|fs| - 1], chans)
    ensures Payload(fs, chans, tag) == Payload(fs[..|fs| - 1], chans, tag) + FrameBytes(fs[|fs| - 1], chans, |chans|, tag)
  {
    hide FrameBytes;
  }

  lemma InFirst(a: seq<byte>, b: seq<byte>, i: nat, j: nat)
    requires i <= j <= |a|
    ensures (a + b)[i..j] == a[i..j]
  {
  }

  lemma InSecond(a: seq<byte>, b: seq<byte>, i: nat, j: nat)
    requires i <= j <= |b|
    ensures (a + b)[|a| + i..|a| + j] == b[i..j]
  {
  }

  /** A sample with its low eight bits cleared, which the 24-bit wire format drops. */
  function Top24(x: u32): u32 {
    x - x % 0x100
  }

  function ChannelSamples(fs: seq<Frame>, m: nat): (s: seq<u32>)
    requires forall f | f in fs :: m < |f.samples|
    ensures |s| == |fs|
  {
    seq(|fs|, k requires 0 <= k < |fs| => Top24(fs[k].samples[m]))
  }

  ghost predicate PayloadAt(b: seq<byte>, at: nat, fs: seq<Frame>, chans: seq<nat>, tag: Label)
    requires Mapped(fs, chans)
  {
    at + |Payload(fs, chans, tag)| <= |b| && b[at..at + |Payload(fs, chans, tag)|] == Payload(fs, chans, tag)
  }

  /** The listener's strided read undoes the talker's interleaving, label, byte order and shift. */
  lemma {:induction false} StridedReadsChannel(b: seq<byte>, at: nat, fs: seq<Frame>, chans: seq<nat>, tag: Label, c: nat, k: nat)
    requires Mapped(fs, chans) && c < |chans| && k <= |fs|
    requires at + 4 * c + 4 * (|chans| * |fs|) <= |b| && PayloadAt(b, at, fs, chans, tag)
    ensures Strided(b, at + 4 * c, |chans|, |chans| * |fs|, k * |chans|) == ChannelSamples(fs, chans[c])[k..]
    decreases |fs| - k
  {
    hide ToSample, Word, Payload, PayloadAt;
    var n, i := |chans| * |fs|, k * |chans|;
    if k == |fs| {
      assert i == n;
    } else {
      MulMono(k + 1, |fs|, |chans|);
      assert i + |chans| == (k + 1) * |chans| && n == |fs| * |chans|;
      StridedReadsChannel(b, at, fs, chans, tag, c, k + 1);
      WordRead(b, at, fs, chans, tag, c, k);
      var all := ChannelSamples(fs, chans[c]);
      assert all[k..] == [all[k]] + all[k + 1..];
    }
  }

  lemma WordRead(b: seq<byte>, at: nat, fs: seq<Frame>, chans: seq<nat>, tag: Label, c: nat, k: nat)
    requires Mapped(fs, chans) && c < |chans| && k < |fs| && PayloadAt(b, at, fs, chans, tag)
    ensures at + 4 * c + 4 * (k * |chans|) + 4 <= |b|
    ensures ToSample(Word(b, at + 4 * c + 4 * (k * |chans|))) == Top24(fs[k].samples[chans[c]])
  {
    hide ToSample, Word, Payload, WordBytes, Labelled;
    var p, w := Payload(fs, chans, tag), at + 4 * c + 4 * (k * |chans|);
    PayloadWordAt(fs, chans, tag, k, c);
    var o := 4 * (k * |chans| + c);
    assert w == at + o;
    SubSlice(b, at, o, o + 4, |p|);
    WordAt(b, w, Labelled(fs[k].samples[chans[c]], tag));
    SampleRoundTrip(fs[k].samples[chans[c]], tag);
  }

  // ----- what the listener reads from a talker's packet

  /** A packet with these frames, complete and short enough for its 16-bit length field. */
  ghost predicate PacketWith(b: seq<byte>, p: Packet, fs: seq<Frame>, chans: seq<nat>, tag: Label) {
    && Carries(b, p) && Mapped(fs, chans) && fs != [] && chans != []
    && p.payload == Payload(fs, chans, tag)
    && p.length == CIP_SIZE + 4 * |chans| * |fs| < 0x1_0000
  }

  lemma FieldsRead(b: seq<byte>, p: Packet, fs: seq<Frame>, chans: seq<nat>, tag: Label)
    requires PacketWith(b, p, fs, chans, tag)
    ensures HeaderSize(b) == 18 && Acceptable(b, SAMPLES_AT + 4 * |chans| * |fs|)
    ensures Dbc(b) == p.dbc && NumSamples(b) == |chans| * |fs|
    ensures TimestampValid(b) == p.valid && Timestamp(b) == p.timestamp
  {
    hide Payload, Word, Mapped;
    assert 4 * |chans| * |fs| == 4 * (|chans| * |fs|);
    assert |chans| * |fs| > 0;
    FlagBits(b[FLAGS_AT]);
  }

  /** Every packet that a talker closes is one: its length field covers its frames and no more. */
  lemma ClosedPacket(t: TalkerStream, fs: seq<Frame>, start: u32, number: byte, toPtp: u32 -> u32, b: seq<byte>)
    requires Mapped(fs, t.chans) && t.interval > 0 && fs != [] && t.chans != []
    requires Carries(b, t.PacketOf(fs, start, number, toPtp))
    ensures PacketWith(b, t.PacketOf(fs, start, number, toPtp), fs, t.chans, t.tag) <==> 4 * |t.chans| * |fs| < 0xfff8
    ensures Dbc(b) == start % 0x100 && b[SEQ_AT] == number && Word(b, STREAM_ID0_AT) == t.streamId0
  {
    hide Payload, Word, LastStamped, Mapped;
  }

  lemma FlagBits(x: byte)
    requires x / 2 == 0x40
    ensures x / 16 % 8 == 0 && x / 128 != 0
  {
  }

  /**
   Both ends of the wire: the packet is marked exactly when the listener's index lies in it, and
   then carries the presentation time of exactly the frame at that index.
   */
  lemma StampReachesItsFrame(t: TalkerStream, fs: seq<Frame>, start: u32, number: byte, toPtp: u32 -> u32, b: seq<byte>)
    requires IsInterval(t.interval) && Mapped(fs, t.chans) && |fs| <= t.interval
    requires PacketWith(b, t.PacketOf(fs, start, number, toPtp), fs, t.chans, t.tag)
    ensures var i := SytIndex(Dbc(b), t.interval);
            && (TimestampValid(b) <==> i < |fs|)
            && Timestamp(b) == if i < |fs| then (toPtp(fs[i].timestamp) + t.delay) % TWO32 else 0
  {
    hide Payload, SytIndex, LastStamped, Carries;
    FieldsRead(b, t.PacketOf(fs, start, number, toPtp), fs, t.chans, t.tag);
    TimestampAgreement(start, |fs|, t.interval);
  }

  // ----- delivery

  predicate SameQueue(f: Fifo, g: Fifo) {
    f.cells == g.cells && f.dptr == g.dptr && f.wrptr == g.wrptr && f.mode == g.mode
  }

  lemma {:induction false} StampKeeps(fs: seq<Fifo>, outs: seq<int>, c: nat, ts: u32, index: nat, k: nat)
    requires AllOk(fs) && MapsInto(outs, |fs|) && c <= |outs| && k < |fs|
    ensures SameQueue(StampFirst(fs, outs, c, ts, index)[k], fs[k])
    decreases c
  {
    if c > 0 {
      StampKeeps(fs, outs, c - 1, ts, index, k);
    }
  }

  lemma {:induction false} MaintainKeeps(fs: seq<Fifo>, outs: seq<int>, c: nat, notified: bool, k: nat)
    requires AllOk(fs) && MapsInto(outs, |fs|) && c <= |outs| && k < |fs| && fs[k].mode != Zeroing
    ensures SameQueue(MaintainFirst(fs, outs, c, notified).0[k], fs[k])
    decreases c
  {
    if c > 0 {
      MaintainKeeps(fs, outs, c - 1, notified, k);
    }
  }

  /** A channel's samples behind what a FIFO already holds. */
  lemma ChannelArrives(f: Fifo, b: seq<byte>, fs: seq<Frame>, chans: seq<nat>, tag: Label, c: nat)
    requires Ok(f) && f.mode != Zeroing && Fill(f) + |fs| < |f.cells|
    requires Mapped(fs, chans) && c < |chans|
    requires SAMPLES_AT + 4 * c + 4 * (|chans| * |fs|) <= |b|
    requires b[SAMPLES_AT..SAMPLES_AT + |Payload(fs, chans, tag)|] == Payload(fs, chans, tag)
    ensures var g := PushChannel(f, b, SAMPLES_AT + 4 * c, |chans|, |chans| * |fs|);
            && Contents(g) == Contents(f) + ChannelSamples(fs, chans[c]) && Fill(g) == Fill(f) + |fs|
            && g.mode == f.mode && |g.cells| == |f.cells|
  {
    hide Payload, Strided, PushAll;
    StridedReadsChannel(b, SAMPLES_AT, fs, chans, tag, c, 0);
    var xs := ChannelSamples(fs, chans[c]);
    assert xs[0..] == xs;
    PushContents(f, xs);
    assert xs[..|xs|] == xs;
  }

  /** What the first `c` channels bring to FIFO `k`: the samples of every channel that is mapped to it, channel by channel. */
  function Arrivals(fs: seq<Frame>, chans: seq<nat>, outs: seq<int>, c: nat, k: nat): seq<u32>
    requires Mapped(fs, chans) && c <= |chans| && c <= |outs|
  {
    if c == 0 then []
    else Arrivals(fs, chans, outs, c - 1, k) + if outs[c - 1] == k then ChannelSamples(fs, chans[c - 1]) else []
  }

  lemma {:induction false} ArrivalsGrow(fs: seq<Frame>, chans: seq<nat>, outs: seq<int>, c: nat, k: nat)
    requires Mapped(fs, chans) && 0 < c <= |chans| && c <= |outs|
    ensures |Arrivals(fs, chans, outs, c, k)| ==
            |Arrivals(fs, chans, outs, c - 1, k)| + if outs[c - 1] == k then |fs| else 0
  {
  }

  /** If channel `j` is the only one mapped to its FIFO, its samples are all that arrives there. */
  lemma {:induction false} OnlyChannel(fs: seq<Frame>, chans: seq<nat>, outs: seq<int>, c: nat, j: nat)
    requires Mapped(fs, chans) && c <= |chans| && c <= |outs| && j < |outs| && j < |chans| && outs[j] >= 0
    requires forall i | 0 <= i < |outs| && i != j :: outs[i] != outs[j]
    ensures Arrivals(fs, chans, outs, c, outs[j]) == if j < c then ChannelSamples(fs, chans[j]) else []
    decreases c
  {
    hide ChannelSamples;
    if c > 0 {
      OnlyChannel(fs, chans, outs, c - 1, j);
      assert c - 1 != j ==> outs[c - 1] != outs[j];
    }
  }

  lemma {:induction false} PushArrives(fifos: seq<Fifo>, outs: seq<int>, c: nat, b: seq<byte>,
                                       fs: seq<Frame>, chans: seq<nat>, tag: Label, k: nat)
    requires AllOk(fifos) && MapsInto(outs, |fifos|) && c <= |outs| && c <= |chans| && k < |fifos|
    requires Mapped(fs, chans) && chans != [] && SAMPLES_AT + 4 * |outs| + 4 * (|chans| * |fs|) <= |b|
    requires b[SAMPLES_AT..SAMPLES_AT + |Payload(fs, chans, tag)|] == Payload(fs, chans, tag)
    requires fifos[k].mode != Zeroing && Fill(fifos[k]) + |Arrivals(fs, chans, outs, c, k)| < |fifos[k].cells|
    ensures var g := PushFirst(fifos, outs, c, b, SAMPLES_AT, |chans|, |chans| * |fs|)[k];
            && Contents(g) == Contents(fifos[k]) + Arrivals(fs, chans, outs, c, k)
            && Fill(g) == Fill(fifos[k]) + |Arrivals(fs, chans, outs, c, k)|
            && g.mode == fifos[k].mode && |g.cells| == |fifos[k].cells|
    decreases c
  {
    hide PushChannel, Contents, Payload, ChannelSamples, Fill;
    if c == 0 {
      assert Contents(fifos[k]) + [] == Contents(fifos[k]);
    } else {
      ArrivalsGrow(fs, chans, outs, c, k);
      PushArrives(fifos, outs, c - 1, b, fs, chans, tag, k);
      var before := Arrivals(fs, chans, outs, c - 1, k);
      if outs[c - 1] == k {
        ChannelArrives(PushFirst(fifos, outs, c - 1, b, SAMPLES_AT, |chans|, |chans| * |fs|)[k], b, fs, chans, tag, c - 1);
        assert (Contents(fifos[k]) + before) + ChannelSamples(fs, chans[c - 1]) ==
               Contents(fifos[k]) + (before + ChannelSamples(fs, chans[c - 1]));
      } else {
        assert before + [] == before;
      }
    }
  }

  /**
   End to end: on a locked stream of known rate, a talker's packet appends to every FIFO that is not
   zeroing and has room exactly the samples of the channels mapped to it, in order, to 24 bits.
   */
  lemma EndToEnd(fifos: seq<Fifo>, outs: seq<int>, s: Lock, notified: bool,
                 b: seq<byte>, p: Packet, fs: seq<Frame>, chans: seq<nat>, tag: Label, k: nat)
    requires PacketWith(b, p, fs, chans, tag)
    requires s.chanLock >= 16 && s.channels == |chans| && (p.valid ==> SytInterval(s.rate) != None)
    requires AllOk(fifos) && MapsInto(outs, |fifos|) && Covers(b, |outs|) && k < |fifos|
    requires var f := fifos[k];
             f.mode != Zeroing && Fill(f) + |Arrivals(fs, chans, outs, Min(|outs|, |chans|), k)| < |f.cells|
    ensures Acceptable(b, SAMPLES_AT + 4 * |chans| * |fs|)
    ensures var r := Delivered(fifos, outs, s, b, notified);
            && r.Some? && |r.value.0| == |fifos| && Ok(r.value.0[k])
            && Contents(r.value.0[k]) == Contents(fifos[k]) + Arrivals(fs, chans, outs, Min(|outs|, |chans|), k)
  {
    hide Payload, StampFirst, MaintainFirst, PushFirst, PushChannel, Contents, SytIndex, Arrivals, Fill;
    FieldsRead(b, p, fs, chans, tag);
    var f1 := if TimestampValid(b)
              then StampFirst(fifos, outs, |outs|, Timestamp(b), SytIndex(Dbc(b), SytInterval(s.rate).value)) else fifos;
    if TimestampValid(b) {
      StampKeeps(fifos, outs, |outs|, Timestamp(b), SytIndex(Dbc(b), SytInterval(s.rate).value), k);
    }
    MaintainKeeps(f1, outs, |outs|, notified, k);
    var m := MaintainFirst(f1, outs, |outs|, notified);
    SameContents(m.0[k], fifos[k]);
    if outs == [] {
      assert Arrivals(fs, chans, outs, 0, k) == [] by { NoArrivals(fs, chans, outs, k); }
    } else {
      PushArrives(m.0, outs, Min(|outs|, |chans|), b, fs, chans, tag, k);
    }
  }

  lemma NoArrivals(fs: seq<Frame>, chans: seq<nat>, outs: seq<int>, k: nat)
    requires Mapped(fs, chans)
    ensures Arrivals(fs, chans, outs, 0, k) == []
  {
  }

  lemma SameContents(f: Fifo, g: Fifo)
    requires Ok(f) && Ok(g) && SameQueue(f, g)
    ensures Fill(f) == Fill(g) && Contents(f) == Contents(g)
  {
  }

  // ----- delivery of the time stamp

  /** The data block number of frame `j` is a multiple of the interval. */
  predicate StampDue(start: u32, interval: nat, j: nat)
    requires interval > 0
  {
    (start + j) % interval == 0
  }

  predicate SameStamp(f: Fifo, g: Fifo) {
    f.marker == g.marker && f.ptpTs == g.ptpTs && f.localTs == g.localTs
  }

  /** Every connected FIFO is stamped, once, also if several channels share it. */
  lemma {:induction false} StampedExactly(fs: seq<Fifo>, outs: seq<int>, c: nat, ts: u32, index: nat, k: nat)
    requires AllOk(fs) && MapsInto(outs, |fs|) && c <= |outs| && k < |fs|
    ensures StampFirst(fs, outs, c, ts, index)[k] == if k in outs[..c] then SetTimestamp(fs[k], ts, index) else fs[k]
    decreases c
  {
    if c > 0 {
      StampedExactly(fs, outs, c - 1, ts, index, k);
      assert outs[..c] == outs[..c - 1] + [outs[c - 1]];
    }
  }

  lemma {:induction false} MaintainKeepsStamp(fs: seq<Fifo>, outs: seq<int>, c: nat, notified: bool, k: nat)
    requires AllOk(fs) && MapsInto(outs, |fs|) && c <= |outs| && k < |fs| && fs[k].mode != Zeroing
    ensures SameStamp(MaintainFirst(fs, outs, c, notified).0[k], fs[k])
    decreases c
  {
    if c > 0 {
      MaintainKeeps(fs, outs, c - 1, notified, k);
      MaintainKeepsStamp(fs, outs, c - 1, notified, k);
    }
  }

  lemma {:induction false} PushKeepsStamp(fs: seq<Fifo>, outs: seq<int>, c: nat, b: seq<byte>, at: nat, stride: nat, n: nat, k: nat)
    requires AllOk(fs) && MapsInto(outs, |fs|) && c <= |outs| && stride > 0 && at + 4 * c + 4 * n <= |b| && k < |fs|
    ensures SameStamp(PushFirst(fs, outs, c, b, at, stride, n)[k], fs[k])
    decreases c
  {
    hide Strided, PushAll;
    if c > 0 {
      PushKeepsStamp(fs, outs, c - 1, b, at, stride, n, k);
    }
  }

  /** The stamp of a FIFO that is not zeroing after any packet: only the stamping step changes it. */
  lemma DeliveredStamp(fifos: seq<Fifo>, outs: seq<int>, s: Lock, b: seq<byte>, notified: bool, k: nat)
    requires AllOk(fifos) && MapsInto(outs, |fifos|) && Covers(b, |outs|) && k < |fifos| && fifos[k].mode != Zeroing
    requires SytInterval(s.rate).Some?
    ensures var r := Delivered(fifos, outs, s, b, notified);
            && r.Some? && |r.value.0| == |fifos|
            && SameStamp(r.value.0[k], if TimestampValid(b) && k in outs
                                       then SetTimestamp(fifos[k], Timestamp(b), SytIndex(Dbc(b), SytInterval(s.rate).value))
                                       else fifos[k])
  {
    hide StampFirst, MaintainFirst, PushFirst, SytIndex;
    var i := SytIndex(Dbc(b), SytInterval(s.rate).value);
    var f1 := if TimestampValid(b) then StampFirst(fifos, outs, |outs|, Timestamp(b), i) else fifos;
    StampedExactly(fifos, outs, |outs|, Timestamp(b), i, k);
    assert outs[..|outs|] == outs;
    MaintainKeepsStamp(f1, outs, |outs|, notified, k);
    var m, c := MaintainFirst(f1, outs, |outs|, notified).0, Min(|outs|, s.channels);
    if c > 0 && NumSamples(b) >= 0 {
      PushKeepsStamp(m, outs, c, b, HeaderSize(b) + 32, s.channels, NumSamples(b), k);
    }
  }

  /**
   The time stamp end to end: a frame whose data block number is a multiple of the interval marks, in
   every connected FIFO without a marker that is not zeroing, the cell as far behind the write pointer
   as the frame is into the packet, with that frame's own presentation time.
   */
  lemma StampDelivered(t: TalkerStream, fs: seq<Frame>, start: u32, number: byte, toPtp: u32 -> u32, b: seq<byte>,
                       fifos: seq<Fifo>, outs: seq<int>, s: Lock, notified: bool, k: nat, j: nat)
    requires IsInterval(t.interval) && Mapped(fs, t.chans) && |fs| <= t.interval && SytInterval(s.rate) == Some(t.interval)
    requires PacketWith(b, t.PacketOf(fs, start, number, toPtp), fs, t.chans, t.tag)
    requires AllOk(fifos) && MapsInto(outs, |fifos|) && Covers(b, |outs|) && k < |fifos| && fifos[k].mode != Zeroing
    requires k in outs && fifos[k].marker == None && j < |fs| && StampDue(start, t.interval, j)
    ensures var r := Delivered(fifos, outs, s, b, notified);
            && r.Some? && |r.value.0| == |fifos|
            && var g, n := r.value.0[k], |fifos[k].cells|;
               && g.marker == Some(if fifos[k].wrptr + j < n then fifos[k].wrptr + j else fifos[k].wrptr + j - n)
               && (j <= n ==> g.marker == Some(Fwd(n, fifos[k].wrptr, j)))
               && g.ptpTs == NonZero((toPtp(fs[j].timestamp) + t.delay) % TWO32) && g.localTs == 0
  {
    hide Delivered, SytIndex, PacketWith, SytInterval;
    Residue(start + j, t.interval);
    StampedAt(start, j, t.interval);
    StampAt(t, fs, start, number, toPtp, b);
    DeliveredStamp(fifos, outs, s, b, notified, k);
  }

  /** A packet without such a frame leaves every stamp as it is. */
  lemma NoStampDelivered(t: TalkerStream, fs: seq<Frame>, start: u32, number: byte, toPtp: u32 -> u32, b: seq<byte>,
                         fifos: seq<Fifo>, outs: seq<int>, s: Lock, notified: bool, k: nat)
    requires IsInterval(t.interval) && Mapped(fs, t.chans) && |fs| <= t.interval && SytInterval(s.rate) == Some(t.interval)
    requires PacketWith(b, t.PacketOf(fs, start, number, toPtp), fs, t.chans, t.tag)
    requires AllOk(fifos) && MapsInto(outs, |fifos|) && Covers(b, |outs|) && k < |fifos| && fifos[k].mode != Zeroing
    requires k !in outs || fifos[k].marker != None || forall j | 0 <= j < |fs| :: !StampDue(start, t.interval, j)
    ensures var r := Delivered(fifos, outs, s, b, notified);
            r.Some? && |r.value.0| == |fifos| && SameStamp(r.value.0[k], fifos[k])
  {
    hide Delivered, SytIndex, PacketWith, SytInterval;
    StampAt(t, fs, start, number, toPtp, b);
    var i := SytIndex(start % 0x100, t.interval);
    if i < |fs| {
      Residue(start + i, t.interval);
      StampedAt(start, i, t.interval);
      assert StampDue(start, t.interval, i);
    }
    DeliveredStamp(fifos, outs, s, b, notified, k);
  }

  lemma StampAt(t: TalkerStream, fs: seq<Frame>, start: u32, number: byte, toPtp: u32 -> u32, b: seq<byte>)
    requires IsInterval(t.interval) && Mapped(fs, t.chans) && |fs| <= t.interval
    requires PacketWith(b, t.PacketOf(fs, start, number, toPtp), fs, t.chans, t.tag)
    ensures Dbc(b) == start % 0x100
    ensures var i := SytIndex(start % 0x100, t.interval);
            && (TimestampValid(b) <==> i < |fs|)
            && (i < |fs| ==> Timestamp(b) == (toPtp(fs[i].timestamp) + t.delay) % TWO32)
  {
    hide Payload, SytIndex, LastStamped, Carries;
    FieldsRead(b, t.PacketOf(fs, start, number, toPtp), fs, t.chans, t.tag);
    StampReachesItsFrame(t, fs, start, number, toPtp, b);
  }

  // ----- the playout time of a frame

  /**
   From the talker's frame to the clock recovery: the listener stamps and pushes one channel of a
   packet with the index in it and room up to the stamped sample. A playout time recorded in time is
   that of exactly the frame whose presentation time is reported beside it.
   */
  lemma PlayoutOfFrame(t: TalkerStream, fs: seq<Frame>, start: u32, number: byte, toPtp: u32 -> u32, b: seq<byte>,
                       c: nat, s: Sys, steps: seq<Step>)
    requires IsInterval(t.interval) && Mapped(fs, t.chans) && |fs| <= t.interval && c < |t.chans|
    requires PacketWith(b, t.PacketOf(fs, start, number, toPtp), fs, t.chans, t.tag) && TimestampValid(b)
    requires SAMPLES_AT + 4 * c + 4 * (|t.chans| * |fs|) <= |b|
    requires PointerInv(s) && DataInv(s) && MarkerInv(s) && s.prod.Idle? && s.f.marker == None
    requires |s.accepted| + SytIndex(Dbc(b), t.interval) + 2 <= s.seen + |s.f.cells|
    ensures var xs := Strided(b, SAMPLES_AT + 4 * c, |t.chans|, |t.chans| * |fs|, 0);
            var i := SytIndex(Dbc(b), t.interval);
            var r := RunSteps(s, [Stamp(Timestamp(b), i)] + ([BeginPush(xs)] + steps));
            r.Some? && r.value.gen == s.gen + 1 && r.value.f.marker != None && r.value.f.localTs != 0 && !r.value.late ==>
              var u := r.value;
              && i < |fs|
              && u.f.ptpTs == NonZero((toPtp(fs[i].timestamp) + t.delay) % TWO32)
              && u.played == Some((|s.accepted| + i, u.f.localTs))
              && |u.accepted| > |s.accepted| + i && u.accepted[|s.accepted| + i] == Top24(fs[i].samples[t.chans[c]])
  {
    hide Payload, SytIndex, Strided, PointerInv, DataInv, MarkerInv, RunSteps, Carries;
    StampReachesItsFrame(t, fs, start, number, toPtp, b);
    PacketPayload(b, t.PacketOf(fs, start, number, toPtp), fs, t.chans, t.tag);
    StridedReadsChannel(b, SAMPLES_AT, fs, t.chans, t.tag, c, 0);
    var xs := ChannelSamples(fs, t.chans[c]);
    assert xs[0..] == xs && 0 * |t.chans| == 0;
    if RunSteps(s, [Stamp(Timestamp(b), SytIndex(Dbc(b), t.interval))] + ([BeginPush(xs)] + steps)).Some? {
      PlayoutOfSample(s, Timestamp(b), xs, SytIndex(Dbc(b), t.interval), steps);
    }
  }

  lemma PacketPayload(b: seq<byte>, p: Packet, fs: seq<Frame>, chans: seq<nat>, tag: Label)
    requires PacketWith(b, p, fs, chans, tag)
    ensures PayloadAt(b, SAMPLES_AT, fs, chans, tag)
  {
    hide Payload;
  }

  // ----- locking onto a talker

  /** The sizes of the packets that a talker sends from its `from`-th packet on. */
  function SizesFrom(base: nat, frac: nat, from: nat, n: nat): (s: seq<nat>)
    ensures |s| == n
  {
    seq<nat>(n, k requires 0 <= k < n => PacketSize(base, RemAt(frac, from + k)))
  }

  lemma SizesAreTalkerSizes(base: nat, frac: nat, from: nat, n: nat)
    requires frac < ONE
    ensures TalkerSizes(SizesFrom(base, frac, from, n), base)
  {
    hide RemAt;
    var s := SizesFrom(base, frac, from, n);
    assert forall k: nat | k < n :: s[k] == PacketSize(base, RemAt(frac, from + k));
    forall k: nat | k < n - 1
      ensures s[k] == base || s[k + 1] == base
    {
      AccumulatorBounds(frac, from + k);
      assert s[k + 1] == PacketSize(base, RemAt(frac, from + k + 1));
    }
    forall k | 0 <= k < |s| - 1
      ensures s[k] == base || s[k + 1] == base
    {
    }
  }

  /**
   Whatever the fraction and wherever in the stream the listener joins, seventeen packets lock it
   onto the talker's channel count and the nominal rate of its base packet size.
   */
  lemma LocksOntoTalker(rate: int, base: nat, frac: nat, from: nat, start: nat, channels: nat)
    requires 0 < base < 0xff && frac < ONE && channels > 0
    ensures var sizes := SizesFrom(base, frac, from, 17);
            && (forall m | 0 <= m <= 16 :: LockAfter(NewLock(rate), start, sizes, channels, m).chanLock < 16)
            && var s := LockAfter(NewLock(rate), start, sizes, channels, 17);
               s.chanLock == 16 && s.channels == channels && s.rate == TableRate(base)
  {
    SizesAreTalkerSizes(base, frac, from, 17);
    LocksAfter17(rate, start, SizesFrom(base, frac, from, 17), base, channels);
  }

  /**
   For every rate the talker accepts except 176.4 kHz, whose base packet size the listener's table
   lacks, the lock ends at the talker's own rate, with the talker's SYT interval.
   */
  lemma LocksAtTalkerRate(rate: nat)
    requires TsInterval(rate) != None
    ensures TableRate(BaseOf(rate)) == rate <==> rate != 176400
    ensures FracOf(rate) > ONE / 2 <==> rate == 44100
  {
    hide BaseOf, FracOf;
    NominalSizes(rate);
  }
}
