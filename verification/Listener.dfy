/**
 The 1722 listener (avb_1722_listener_support_audio.c): locking onto channel count and rate,
 locating the time-stamped sample, and handing the samples to the output FIFOs.
 */
module Listener {
  import opened Bytes
  import opened OutputFifo

  // ----- fields of a received frame

  function HeaderSize(b: seq<byte>): nat
    requires |b| >= 50
  {
    if b[12] == 0x81 then 18 else 14
  }

  /** Long enough, version 0, a data packet, stream id valid. */
  predicate Acceptable(b: seq<byte>, numBytes: nat)
    requires |b| >= 50
  {
    var h := HeaderSize(b);
    numBytes > h + 32 && b[h + 1] / 16 % 8 == 0 && b[h] / 128 == 0 && b[h + 1] / 128 != 0
  }

  function Dbc(b: seq<byte>): byte
    requires |b| >= 50
  {
    b[HeaderSize(b) + 27]
  }

  /** Samples in the payload, all channels together; a length below the CIP header makes it negative. */
  function NumSamples(b: seq<byte>): int
    requires |b| >= 50
  {
    var h := HeaderSize(b);
    (b[h + 20] as int * 0x100 + b[h + 21] - 8) / 4
  }

  function TimestampValid(b: seq<byte>): bool
    requires |b| >= 50
  {
    b[HeaderSize(b) + 1] % 2 == 1
  }

  function Timestamp(b: seq<byte>): u32
    requires |b| >= 50
  {
    Word(b, HeaderSize(b) + 12)
  }

  /** Which frames are used, in numbers: more than the headers, a data packet, version 0 and the stream id valid. */
  lemma AcceptableIff(b: seq<byte>, numBytes: nat)
    requires |b| >= 50
    ensures b[12] == 0x81 ==> (Acceptable(b, numBytes) <==> numBytes > 50 && b[18] < 128 && 128 <= b[19] < 144)
    ensures b[12] != 0x81 ==> (Acceptable(b, numBytes) <==> numBytes > 46 && b[14] < 128 && 128 <= b[15] < 144)
  {
  }

  /** A frame means the same with its VLAN tag and without. */
  lemma UntaggedSame(b: seq<byte>, numBytes: nat)
    requires |b| >= 54 && numBytes >= 4 && b[12] == 0x81 && b[16] != 0x81
    ensures var u := b[..12] + b[16..];
            && |u| >= 50 && HeaderSize(u) + 4 == HeaderSize(b)
            && Dbc(u) == Dbc(b) && NumSamples(u) == NumSamples(b)
            && TimestampValid(u) == TimestampValid(b) && Timestamp(u) == Timestamp(b)
            && (Acceptable(u, numBytes - 4) <==> Acceptable(b, numBytes))
  {
    var u := b[..12] + b[16..];
    assert forall i | 12 <= i < |u| :: u[i] == b[i + 4];
  }

  // ----- locking

  datatype Lock = Lock(chanLock: nat, rate: int, prev: int, channels: int, dbc: int)

  /** A stream as `configure_stream` leaves it. */
  function NewLock(rate: int): Lock {
    Lock(0, rate, 0, 0, -1)
  }

  /** Division as C does it, towards zero. */
  function TruncDiv(a: int, b: int): int
    requires b != 0
  {
    if (a >= 0) == (b > 0) then Abs(a) / Abs(b) else -(Abs(a) / Abs(b))
  }

  function Abs(x: int): nat {
    if x < 0 then -x else x
  }

  function TableRate(perPacket: int): int {
    match perPacket
    case 1 => 8000
    case 2 => 16000
    case 4 => 32000
    case 5 => 44100
    case 6 => 48000
    case 11 => 88200
    case 12 => 96000
    case 24 => 192000
    case _ => 0
  }

  function SytInterval(rate: int): Option<nat> {
    match rate
    case 8000 => Some(1)
    case 16000 => Some(2)
    case 32000 => Some(8)
    case 44100 => Some(8)
    case 48000 => Some(8)
    case 88200 => Some(16)
    case 96000 => Some(16)
    case 176400 => Some(32)
    case 192000 => Some(32)
    case _ => None
  }

  function DbcDiff(d: int, previous: int): int {
    if d < previous then d - previous + 0x100 else d - previous
  }

  /** The part of the packet handler that runs until the stream is locked. */
  function LockStep(s: Lock, d: int, n: int): Lock {
    var diff := DbcDiff(d, s.dbc);
    var s1 := s.(dbc := d, prev := n);
    if s.chanLock >= 16 || s.prev == 0 || diff == 0 then s1
    else
      var ch := TruncDiv(s.prev, diff);
      var s2 := if s.channels == 0 || s.channels != ch then s1.(channels := ch, chanLock := 0, rate := 0) else s1;
      var s3 := s2.(rate := s2.rate + n, chanLock := s2.chanLock + 1);
      if s3.chanLock == 16 then s3.(rate := TableRate(TruncDiv(TruncDiv(s3.rate, s3.channels), 16))) else s3
  }

  // ----- a run of talker packets

  function Sum(xs: seq<nat>): nat {
    if xs == [] then 0 else Sum(xs[..|xs| - 1]) + xs[|xs| - 1]
  }

  /** The lock after the first `m` packets with these numbers of samples per channel. */
  function LockAfter(s: Lock, start: nat, sizes: seq<nat>, channels: nat, m: nat): Lock
    requires m <= |sizes|
  {
    if m == 0 then s
    else LockStep(LockAfter(s, start, sizes, channels, m - 1), (start + Sum(sizes[..m - 1])) % 0x100, channels * sizes[m - 1])
  }

  /** Packets of the base size or one more, never two oversize ones in a row. */
  predicate TalkerSizes(sizes: seq<nat>, base: nat) {
    && (forall k | 0 <= k < |sizes| :: sizes[k] == base || sizes[k] == base + 1)
    && (forall k | 0 <= k < |sizes| - 1 :: sizes[k] == base || sizes[k + 1] == base)
  }

  lemma {:induction false} SumBounds(sizes: seq<nat>, base: nat)
    requires TalkerSizes(sizes, base)
    ensures |sizes| * base <= Sum(sizes)
    ensures 2 * (Sum(sizes) - |sizes| * base) <= |sizes| + 1
    ensures sizes != [] && sizes[|sizes| - 1] == base ==> 2 * (Sum(sizes) - |sizes| * base) <= |sizes|
    decreases |sizes|
  {
    if sizes != [] {
      var n := |sizes| - 1;
      SumBounds(sizes[..n], base);
      assert |sizes| * base == n * base + base;
      if n > 0 {
        assert sizes[n - 1] == base || sizes[n] == base;
        assert sizes[..n][n - 1] == sizes[n - 1];
      }
    }
  }

  lemma DivExact(c: nat, n: nat)
    requires n > 0
    ensures TruncDiv(c * n, n) == c
  {
    assert c * n >= 0;
    MulDiv(c, n);
  }

  lemma MulMono(a: nat, b: nat, n: nat)
    requires a <= b
    ensures a * n <= b * n
  {
    assert b * n == a * n + (b - a) * n;
  }

  lemma MulDiv(c: nat, n: nat)
    requires n > 0
    ensures c * n / n == c
  {
    var q := c * n / n;
    assert c * n == q * n + c * n % n;
    if q < c {
      MulMono(q + 1, c, n);
    } else if q > c {
      MulMono(c + 1, q, n);
    }
  }

  lemma DbcDiffIs(start: nat, total: nat, size: nat)
    requires 0 < size < 0x100
    ensures DbcDiff((start + total + size) % 0x100, (start + total) % 0x100) == size
  {
  }

  /** Before the lock: one count per packet after the first, the true channel count, the samples so far. */
  lemma {:induction false} Locking(rate: int, start: nat, sizes: seq<nat>, base: nat, channels: nat, m: nat)
    requires TalkerSizes(sizes, base) && 0 < base < 0xff && channels > 0 && 1 <= m <= |sizes| && m <= 16
    ensures var s := LockAfter(NewLock(rate), start, sizes, channels, m);
            && s.chanLock == m - 1
            && s.dbc == (start + Sum(sizes[..m - 1])) % 0x100
            && s.prev == channels * sizes[m - 1]
            && s.channels == (if m == 1 then 0 else channels)
            && (m >= 2 ==> s.rate == channels * Sum(sizes[1..m]))
    decreases m
  {
    hide Sum;
    NoSum();
    if m == 1 {
      assert sizes[..0] == [];
      assert LockAfter(NewLock(rate), start, sizes, channels, 0) == NewLock(rate);
    } else {
      Locking(rate, start, sizes, base, channels, m - 1);
      LockingStep(LockAfter(NewLock(rate), start, sizes, channels, m - 1), start, sizes, channels, m);
    }
  }

  lemma NoSum()
    ensures Sum([]) == 0
  {
  }

  lemma SumStep(sizes: seq<nat>, a: nat, m: nat)
    requires a < m <= |sizes|
    ensures Sum(sizes[a..m]) == Sum(sizes[a..m - 1]) + sizes[m - 1]
  {
    assert sizes[a..m][..m - 1 - a] == sizes[a..m - 1];
  }

  /** One packet of a locking stream: count and channels as they should be, samples added. */
  lemma LockingStep(s: Lock, start: nat, sizes: seq<nat>, channels: nat, m: nat)
    requires 2 <= m <= |sizes| && channels > 0 && 0 < sizes[m - 2] < 0x100
    requires s.chanLock == m - 2 < 16 && s.prev == channels * sizes[m - 2]
    requires s.dbc == (start + Sum(sizes[..m - 2])) % 0x100
    requires s.channels == (if m == 2 then 0 else channels)
    requires m > 2 ==> s.rate == channels * Sum(sizes[1..m - 1])
    ensures var t := LockStep(s, (start + Sum(sizes[..m - 1])) % 0x100, channels * sizes[m - 1]);
            && t.chanLock == m - 1 && t.channels == channels && t.prev == channels * sizes[m - 1]
            && t.dbc == (start + Sum(sizes[..m - 1])) % 0x100
            && (if m - 1 < 16 then t.rate == channels * Sum(sizes[1..m])
                else t.rate == TableRate(TruncDiv(TruncDiv(channels * Sum(sizes[1..m]), channels), 16)))
  {
    hide Sum, TruncDiv, TableRate;
    SumStep(sizes, 0, m - 1);
    DbcDiffIs(start, Sum(sizes[..m - 2]), sizes[m - 2]);
    DivExact(channels, sizes[m - 2]);
    SumStep(sizes, 1, m);
    if m == 2 {
      assert sizes[1..1] == [];
      NoSum();
    }
    assert channels * Sum(sizes[1..m]) == channels * Sum(sizes[1..m - 1]) + channels * sizes[m - 1];
    assert channels * sizes[m - 2] > 0;
  }

  /**
   Listener lock: fed the packets of a talker, a new listener locks with the seventeenth packet and
   not before, onto the talker's channel count and the table rate of its base packet size.
   */
  lemma LocksAfter17(rate: int, start: nat, sizes: seq<nat>, base: nat, channels: nat)
    requires TalkerSizes(sizes, base) && 0 < base < 0xff && channels > 0 && |sizes| >= 17
    ensures forall m | 0 <= m <= 16 :: LockAfter(NewLock(rate), start, sizes, channels, m).chanLock < 16
    ensures var s := LockAfter(NewLock(rate), start, sizes, channels, 17);
            s.chanLock == 16 && s.channels == channels && s.rate == TableRate(base)
  {
    hide Sum, TruncDiv, TableRate, LockStep;
    forall m | 0 <= m <= 16
      ensures LockAfter(NewLock(rate), start, sizes, channels, m).chanLock < 16
    {
      if m > 0 {
        Locking(rate, start, sizes, base, channels, m);
      }
    }
    Locking(rate, start, sizes, base, channels, 16);
    LockingStep(LockAfter(NewLock(rate), start, sizes, channels, 16), start, sizes, channels, 17);
    MeanIsBase(sizes[1..17], base, channels);
  }

  lemma MeanIsBase(sizes: seq<nat>, base: nat, channels: nat)
    requires TalkerSizes(sizes, base) && |sizes| == 16 && channels > 0
    ensures TruncDiv(TruncDiv(channels * Sum(sizes), channels), 16) == base
  {
    hide Sum;
    SumBounds(sizes, base);
    MulDiv(Sum(sizes), channels);
    assert channels * Sum(sizes) == Sum(sizes) * channels;
    assert channels * Sum(sizes) >= 0;
  }

  // ----- a locked stream

  /** 61883-6 section 6.2: the data block of the packet that the time stamp belongs to. */
  function SytIndex(d: byte, interval: nat): nat
    requires interval > 0
  {
    (interval - d % interval) % interval
  }

  ghost predicate AllOk(fs: seq<Fifo>) {
    forall i | 0 <= i < |fs| :: Ok(fs[i])
  }

  /** Channel maps name FIFOs; a negative entry leaves a channel unconnected. */
  predicate MapsInto(chans: seq<int>, n: nat) {
    forall i | 0 <= i < |chans| :: chans[i] < n
  }

  /** The first `c` channels' FIFOs are enabled. */
  ghost function EnableFirst(fs: seq<Fifo>, chans: seq<int>, c: nat, clock: int): (r: seq<Fifo>)
    requires AllOk(fs) && MapsInto(chans, |fs|) && c <= |chans|
    ensures |r| == |fs| && AllOk(r)
    decreases c
  {
    if c == 0 then fs
    else
      var r := EnableFirst(fs, chans, c - 1, clock);
      var k := chans[c - 1];
      if k >= 0 then r[k := Enable(r[k], clock)] else r
  }

  /** Configuring a stream: every FIFO named in the map begins to zero, and no other is touched. */
  lemma {:induction false} EnabledExactly(fs: seq<Fifo>, chans: seq<int>, c: nat, clock: int, k: nat)
    requires AllOk(fs) && MapsInto(chans, |fs|) && c <= |chans| && k < |fs|
    ensures EnableFirst(fs, chans, c, clock)[k] == if k in chans[..c] then Enable(fs[k], clock) else fs[k]
    decreases c
  {
    if c > 0 {
      EnabledExactly(fs, chans, c - 1, clock, k);
      assert chans[..c] == chans[..c - 1] + [chans[c - 1]];
      EnableTwice(fs[k], clock);
    }
  }

  lemma EnableTwice(f: Fifo, clock: int)
    requires Ok(f)
    ensures Enable(Enable(f, clock), clock) == Enable(f, clock)
  {
  }

  /** The first `c` channels' FIFOs get the time stamp. */
  ghost function StampFirst(fs: seq<Fifo>, chans: seq<int>, c: nat, ts: u32, index: nat): (r: seq<Fifo>)
    requires AllOk(fs) && MapsInto(chans, |fs|) && c <= |chans|
    ensures |r| == |fs| && AllOk(r)
    decreases c
  {
    if c == 0 then fs
    else
      var r := StampFirst(fs, chans, c - 1, ts, index);
      var k := chans[c - 1];
      if k >= 0 then r[k := SetTimestamp(r[k], ts, index)] else r
  }

  ghost function MaintainFirst(fs: seq<Fifo>, chans: seq<int>, c: nat, notified: bool): (r: (seq<Fifo>, bool))
    requires AllOk(fs) && MapsInto(chans, |fs|) && c <= |chans|
    ensures |r.0| == |fs| && AllOk(r.0)
    decreases c
  {
    if c == 0 then (fs, notified)
    else
      var r := MaintainFirst(fs, chans, c - 1, notified);
      var k := chans[c - 1];
      if k >= 0 then var m := Maintained(r.0[k], r.1); (r.0[k := m.0], m.1) else r
  }

  function PushChannel(f: Fifo, b: seq<byte>, at: nat, stride: nat, n: nat): Fifo
    requires Ok(f) && stride > 0 && at + 4 * n <= |b|
  {
    var xs := Strided(b, at, stride, n, 0);
    Push(f, Same(f.dptr, |xs|), xs)
  }

  ghost function PushFirst(fs: seq<Fifo>, chans: seq<int>, c: nat, b: seq<byte>, at: nat, stride: nat, n: nat): (r: seq<Fifo>)
    requires AllOk(fs) && MapsInto(chans, |fs|) && c <= |chans| && stride > 0 && at + 4 * c + 4 * n <= |b|
    ensures |r| == |fs| && AllOk(r)
    decreases c
  {
    if c == 0 then fs
    else
      var r := PushFirst(fs, chans, c - 1, b, at, stride, n);
      var k := chans[c - 1];
      if k >= 0 then r[k := PushChannel(r[k], b, at + 4 * (c - 1), stride, n)] else r
  }

  function Min(a: int, b: int): int {
    if a < b then a else b
  }

  /**
   `b` is the memory from the start of the frame on. The handler compares the length field with
   nothing, so the sample words it reads may lie behind the frame, but they lie in `b`.
   */
  predicate Covers(b: seq<byte>, channels: nat) {
    |b| >= 50 && (NumSamples(b) >= 0 ==> HeaderSize(b) + 32 + 4 * channels + 4 * NumSamples(b) <= |b|)
  }

  /** The effect of an acceptable packet on the FIFOs of a locked stream, if it is used at all. */
  ghost function Delivered(fs: seq<Fifo>, chans: seq<int>, s: Lock, b: seq<byte>, notified: bool): Option<(seq<Fifo>, bool)>
    requires AllOk(fs) && MapsInto(chans, |fs|) && Covers(b, |chans|)
  {
    if TimestampValid(b) && SytInterval(s.rate) == None then None
    else
      var fs1 := if TimestampValid(b)
                 then StampFirst(fs, chans, |chans|, Timestamp(b), SytIndex(Dbc(b), SytInterval(s.rate).value)) else fs;
      var m := MaintainFirst(fs1, chans, |chans|, notified);
      var c := Min(|chans|, s.channels);
      if c <= 0 || NumSamples(b) < 0 then Some(m)
      else Some((PushFirst(m.0, chans, c, b, HeaderSize(b) + 32, s.channels, NumSamples(b)), m.1))
  }

  /** The FIFOs are separate objects with separate buffers, in good order. */
  ghost predicate Separate(fifos: seq<AudioFifo>)
    reads fifos, (set f | f in fifos :: f.cells)
  {
    && (forall i, j | 0 <= i < j < |fifos| :: fifos[i] != fifos[j] && fifos[i].cells != fifos[j].cells)
    && forall i | 0 <= i < |fifos| :: Ok(fifos[i].View())
  }

  ghost function Views(fifos: seq<AudioFifo>): (v: seq<Fifo>)
    reads fifos, (set f | f in fifos :: f.cells)
    ensures |v| == |fifos|
  {
    seq(|fifos|, i requires 0 <= i < |fifos| reads fifos, (set f | f in fifos :: f.cells) => fifos[i].View())
  }

  class ListenerStream {
    var chanLock: nat
    var rate: int
    var prev: int
    var channels: int
    var dbc: int
    const chans: seq<int>

    function View(): Lock
      reads this
    {
      Lock(chanLock, rate, prev, channels, dbc)
    }

    /** `configure_stream` */
    constructor (rate: int, chans: seq<int>)
      ensures View() == NewLock(rate) && this.chans == chans
    {
      chanLock, prev, channels, dbc := 0, 0, 0, -1;
      this.rate := rate;
      this.chans := chans;
    }

    method EnableOne(fifos: seq<AudioFifo>, k: nat, clock: int)
      requires Separate(fifos) && k < |fifos|
      modifies fifos[k], fifos[k].cells
      ensures Separate(fifos) && Ok(old(fifos[k].View()))
      ensures Views(fifos) == old(Views(fifos))[k := Enable(old(fifos[k].View()), clock)]
    {
      ghost var was := Views(fifos);
      fifos[k].EnableFifo(clock);
      forall i | 0 <= i < |fifos| && i != k
        ensures fifos[i].View() == was[i]
      {
      }
    }

    /** The loop of `configure_stream` that enables the FIFOs of the stream. */
    method EnableAll(fifos: seq<AudioFifo>, clock: int)
      requires Separate(fifos) && MapsInto(chans, |fifos|)
      modifies fifos, Buffers(fifos)
      ensures Separate(fifos) && AllOk(old(Views(fifos)))
      ensures Views(fifos) == EnableFirst(old(Views(fifos)), chans, |chans|, clock)
    {
      hide Enable, Separate, Views;
      ghost var was := Views(fifos);
      SeparateOk(fifos);
      var i := 0;
      while i < |chans|
        invariant 0 <= i <= |chans|
        invariant Separate(fifos) && AllOk(was)
        invariant Views(fifos) == EnableFirst(was, chans, i, clock)
      {
        if chans[i] >= 0 {
          ViewsAt(fifos, chans[i]);
          InBuffers(fifos, chans[i]);
          EnableOne(fifos, chans[i], clock);
        }
        i := i + 1;
      }
    }

    /** The locking part of the handler. */
    method UpdateLock(d: byte, n: int) returns (locked: bool)
      modifies this
      ensures View() == LockStep(old(View()), d, n)
      ensures locked == (old(chanLock) >= 16)
    {
      hide TruncDiv, TableRate;
      var diff := d as int - dbc;
      dbc := d;
      if diff < 0 {
        diff := diff + 0x100;
      }
      var previous := prev;
      prev := n;
      locked := chanLock >= 16;
      if !locked {
        if previous == 0 || diff == 0 {
          return;
        }
        var ch := TruncDiv(previous, diff);
        if channels == 0 || channels != ch {
          channels, chanLock, rate := ch, 0, 0;
        }
        rate := rate + n;
        chanLock := chanLock + 1;
        if chanLock == 16 {
          rate := TableRate(TruncDiv(TruncDiv(rate, channels), 16));
        }
      }
    }

    /** Time stamp for one FIFO of the bank; the others stay as they are. */
    method StampOne(fifos: seq<AudioFifo>, k: nat, ts: u32, index: nat)
      requires Separate(fifos) && k < |fifos|
      modifies fifos[k]
      ensures Separate(fifos) && Ok(old(fifos[k].View()))
      ensures Views(fifos) == old(Views(fifos))[k := SetTimestamp(old(fifos[k].View()), ts, index)]
    {
      ghost var was := Views(fifos);
      fifos[k].SetPtpTimestamp(ts, index);
      forall i | 0 <= i < |fifos| && i != k
        ensures fifos[i].View() == was[i]
      {
      }
    }

    /** The time-stamp loop. */
    method StampAll(fifos: seq<AudioFifo>, ts: u32, index: nat)
      requires Separate(fifos) && MapsInto(chans, |fifos|)
      modifies fifos
      ensures Separate(fifos) && AllOk(old(Views(fifos)))
      ensures Views(fifos) == StampFirst(old(Views(fifos)), chans, |chans|, ts, index)
    {
      hide SetTimestamp, Separate, Views;
      ghost var was := Views(fifos);
      SeparateOk(fifos);
      var i := 0;
      while i < |chans|
        invariant 0 <= i <= |chans|
        invariant Separate(fifos) && AllOk(was)
        invariant Views(fifos) == StampFirst(was, chans, i, ts, index)
      {
        if chans[i] >= 0 {
          ViewsAt(fifos, chans[i]);
          StampOne(fifos, chans[i], ts, index);
        }
        i := i + 1;
      }
    }

    method MaintainOne(fifos: seq<AudioFifo>, k: nat, notified: bool) returns (notify: bool)
      requires Separate(fifos) && k < |fifos|
      modifies fifos[k]
      ensures Separate(fifos) && Ok(old(fifos[k].View()))
      ensures var m := Maintained(old(fifos[k].View()), notified);
              Views(fifos) == old(Views(fifos))[k := m.0] && notify == m.1
    {
      hide Maintained;
      ghost var was := Views(fifos);
      notify := fifos[k].Maintain(notified);
      forall i | 0 <= i < |fifos| && i != k
        ensures fifos[i].View() == was[i]
      {
      }
    }

    /** The maintenance loop. */
    method MaintainAll(fifos: seq<AudioFifo>, notified: bool) returns (notify: bool)
      requires Separate(fifos) && MapsInto(chans, |fifos|)
      modifies fifos
      ensures Separate(fifos) && AllOk(old(Views(fifos)))
      ensures (Views(fifos), notify) == MaintainFirst(old(Views(fifos)), chans, |chans|, notified)
    {
      hide Maintained, Separate, Views;
      ghost var was := Views(fifos);
      SeparateOk(fifos);
      notify := notified;
      var i := 0;
      while i < |chans|
        invariant 0 <= i <= |chans|
        invariant Separate(fifos) && AllOk(was)
        invariant (Views(fifos), notify) == MaintainFirst(was, chans, i, notified)
      {
        if chans[i] >= 0 {
          ViewsAt(fifos, chans[i]);
          notify := MaintainOne(fifos, chans[i], notify);
        }
        i := i + 1;
      }
    }

    method PushOneChannel(fifos: seq<AudioFifo>, k: nat, b: seq<byte>, at: nat, stride: nat, n: nat)
      requires Separate(fifos) && k < |fifos| && stride > 0 && at + 4 * n <= |b|
      modifies fifos[k], fifos[k].cells
      ensures Separate(fifos) && Ok(old(fifos[k].View()))
      ensures Views(fifos) == old(Views(fifos))[k := PushChannel(old(fifos[k].View()), b, at, stride, n)]
    {
      hide Push, Strided;
      ghost var was := Views(fifos);
      fifos[k].StridedPush(b, at, stride, n);
      forall i | 0 <= i < |fifos| && i != k
        ensures fifos[i].View() == was[i]
      {
      }
    }

    /** The sample loop over the first `c` channels. */
    method PushAllChannels(fifos: seq<AudioFifo>, c: nat, b: seq<byte>, at: nat, stride: nat, n: nat)
      requires Separate(fifos) && MapsInto(chans, |fifos|) && c <= |chans| && stride > 0 && at + 4 * c + 4 * n <= |b|
      modifies fifos, Buffers(fifos)
      ensures Separate(fifos) && AllOk(old(Views(fifos)))
      ensures Views(fifos) == PushFirst(old(Views(fifos)), chans, c, b, at, stride, n)
    {
      hide PushChannel, Separate, Views;
      ghost var was := Views(fifos);
      SeparateOk(fifos);
      var i := 0;
      while i < c
        invariant 0 <= i <= c
        invariant Separate(fifos) && AllOk(was)
        invariant Views(fifos) == PushFirst(was, chans, i, b, at, stride, n)
      {
        if chans[i] >= 0 {
          ViewsAt(fifos, chans[i]);
          InBuffers(fifos, chans[i]);
          PushOneChannel(fifos, chans[i], b, at + 4 * i, stride, n);
        }
        i := i + 1;
      }
    }

    /**
     `avb_1722_listener_process_packet`: a packet that is not acceptable changes nothing, one that
     arrives before the lock only moves the lock, and any other is delivered.
     */
    method ProcessPacket(b: seq<byte>, numBytes: nat, fifos: seq<AudioFifo>, notified: bool)
      returns (used: bool, notify: bool)
      requires Covers(b, |chans|) && Separate(fifos) && MapsInto(chans, |fifos|)
      modifies this, fifos, Buffers(fifos)
      ensures Separate(fifos) && AllOk(old(Views(fifos)))
      ensures !Acceptable(b, numBytes) ==> View() == old(View())
      ensures Acceptable(b, numBytes) ==> View() == LockStep(old(View()), Dbc(b), NumSamples(b))
      ensures used <==> Acceptable(b, numBytes) && old(chanLock) >= 16 &&
                        Delivered(old(Views(fifos)), chans, old(View()), b, notified).Some?
      ensures (Views(fifos), notify) ==
              if used then Delivered(old(Views(fifos)), chans, old(View()), b, notified).value else (old(Views(fifos)), notified)
    {
      hide Separate, Views, LockStep, StampFirst, MaintainFirst, PushFirst;
      SeparateOk(fifos);
      used, notify := false, notified;
      var h := HeaderSize(b);
      if !Acceptable(b, numBytes) {
        return;
      }
      var n := NumSamples(b);
      ghost var was := View();
      var locked := UpdateLock(Dbc(b), n);
      if !locked {
        return;
      }
      LockedKeeps(was, Dbc(b), n);
      if TimestampValid(b) {
        var interval := SytInterval(rate);
        if interval == None {
          return;
        }
        StampAll(fifos, Timestamp(b), SytIndex(Dbc(b), interval.value));
      }
      notify := MaintainAll(fifos, notify);
      var c := if |chans| < channels then |chans| else channels;
      if c > 0 && n >= 0 {
        PushAllChannels(fifos, c, b, h + 32, channels, n);
      }
      used := true;
    }
  }

  ghost function Buffers(fifos: seq<AudioFifo>): set<array<u32>> {
    set f | f in fifos :: f.cells
  }

  lemma InBuffers(fifos: seq<AudioFifo>, k: nat)
    requires k < |fifos|
    ensures fifos[k] in fifos && fifos[k].cells in Buffers(fifos)
  {
  }

  lemma LockedKeeps(s: Lock, d: int, n: int)
    requires s.chanLock >= 16
    ensures LockStep(s, d, n) == s.(dbc := d, prev := n)
  {
  }

  lemma SeparateOk(fifos: seq<AudioFifo>)
    requires Separate(fifos)
    ensures AllOk(Views(fifos))
  {
  }

  lemma ViewsAt(fifos: seq<AudioFifo>, k: nat)
    requires k < |fifos|
    ensures Views(fifos)[k] == fifos[k].View()
  {
  }
}
