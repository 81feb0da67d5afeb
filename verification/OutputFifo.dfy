/**
 The audio output FIFO (audio_output_fifo.c/.h): a ring that the 1722 thread fills and the audio
 thread drains, with its zeroing, locking and timestamp-marker protocol.
 */
module OutputFifo {
  import opened Bytes

  const NOTIFICATION_PERIOD: nat := 250

  datatype Mode = Disabled | Zeroing | Locking | Locked

  /** The fields of `ofifo_t`; pointers into the buffer are cell numbers. */
  datatype Fifo = Fifo(
    cells: seq<u32>,
    dptr: nat,
    wrptr: nat,
    marker: Option<nat>,
    localTs: u32,
    ptpTs: u32,
    zeroMarker: nat,
    zeroFlag: bool,
    mode: Mode,
    sampleCount: u32,
    lastNotification: u32,
    mediaClock: int,
    pendingInit: bool)

  predicate Ok(f: Fifo) {
    |f.cells| > 0 && f.dptr < |f.cells| && f.wrptr < |f.cells| && f.zeroMarker < |f.cells|
  }

  function Succ(n: nat, p: nat): (q: nat)
    requires p < n
    ensures q < n
  {
    if p + 1 == n then 0 else p + 1
  }

  function Pred(n: nat, p: nat): (q: nat)
    requires p < n
    ensures q < n && Succ(n, q) == p
  {
    if p == 0 then n - 1 else p - 1
  }

  /** The cell `j` places after cell `p`. */
  function Fwd(n: nat, p: nat, j: nat): (q: nat)
    requires p < n && j <= n
    ensures q < n
  {
    if p + j < n then p + j else p + j - n
  }

  /** Distance from cell `p` forward to cell `q`. */
  function Dist(n: nat, p: nat, q: nat): (d: nat)
    requires p < n && q < n
    ensures d < n && Fwd(n, p, d) == q
    ensures forall j | 0 <= j < n && Fwd(n, p, j) == q :: j == d
  {
    if q >= p then q - p else q + n - p
  }

  function Fill(f: Fifo): nat
    requires Ok(f)
  {
    Dist(|f.cells|, f.dptr, f.wrptr)
  }

  /** The samples between the read and the write pointer, oldest first. */
  function Contents(f: Fifo): (s: seq<u32>)
    requires Ok(f)
    ensures |s| == Fill(f)
  {
    seq(Fill(f), i requires 0 <= i < Fill(f) => f.cells[Fwd(|f.cells|, f.dptr, i)])
  }

  // ----- the operations as functions

  /** What the producer works on during a push: the cells and its own copy of the write pointer. */
  datatype Ring = Ring(cells: seq<u32>, wr: nat)

  predicate RingOk(r: Ring) {
    r.wr < |r.cells|
  }

  /** One round of the push loop, given the read pointer it loads. */
  function PushOne(r: Ring, dptr: nat, x: u32): (r': Ring)
    requires RingOk(r)
    ensures RingOk(r') && |r'.cells| == |r.cells|
  {
    var next := Succ(|r.cells|, r.wr);
    if next != dptr then Ring(r.cells[r.wr := x], next) else r
  }

  /** A push that loads the read pointers `ds`, one for each sample. */
  function PushAll(r: Ring, ds: seq<nat>, xs: seq<u32>): (r': Ring)
    requires RingOk(r) && |ds| == |xs|
    ensures RingOk(r') && |r'.cells| == |r.cells|
    decreases |xs|
  {
    if xs == [] then r else PushAll(PushOne(r, ds[0], xs[0]), ds[1..], xs[1..])
  }

  function Push(f: Fifo, ds: seq<nat>, xs: seq<u32>): (f': Fifo)
    requires Ok(f) && |ds| == |xs|
    ensures Ok(f')
  {
    var r := PushAll(Ring(f.cells, f.wrptr), ds, if f.mode == Zeroing then Silence(|xs|) else xs);
    f.(cells := r.cells, wrptr := r.wr, sampleCount := (f.sampleCount + |xs|) % TWO32)
  }

  function Silence(n: nat): (s: seq<u32>)
    ensures |s| == n
  {
    seq(n, _ => 0)
  }

  /** A zero time stamp would read as none. */
  function NonZero(t: u32): (r: u32)
    ensures r > 0 && t <= r <= t + 1 && (t > 0 ==> r == t)
  {
    if t == 0 then 1 else t
  }

  function Pull(f: Fifo, ts: u32): (f': Fifo)
    requires Ok(f)
    ensures Ok(f')
  {
    if f.dptr == f.wrptr then f
    else f.(localTs := if f.marker == Some(f.dptr) && f.localTs == 0 then NonZero(ts) else f.localTs,
            dptr := Succ(|f.cells|, f.dptr))
  }

  function PulledSample(f: Fifo): u32
    requires Ok(f)
  {
    if f.dptr == f.wrptr || f.zeroFlag then 0 else f.cells[f.dptr]
  }

  function SetTimestamp(f: Fifo, ptp: u32, sample: nat): Fifo
    requires Ok(f)
  {
    if f.marker != None then f
    else
      var m := f.wrptr + sample;
      f.(ptpTs := NonZero(ptp), localTs := 0, marker := Some(if m >= |f.cells| then m - |f.cells| else m))
  }

  function Enable(f: Fifo, clock: int): Fifo
    requires Ok(f)
  {
    var last := |f.cells| - 1;
    f.(mode := Zeroing, dptr := 0, wrptr := 0, marker := None, localTs := 0, ptpTs := 0, zeroMarker := last,
       zeroFlag := true, cells := f.cells[last := 1], sampleCount := 0, mediaClock := clock, pendingInit := true)
  }

  function Disable(f: Fifo): Fifo {
    f.(mode := Disabled, zeroFlag := true)
  }

  function ClearMarker(f: Fifo): Fifo {
    f.(ptpTs := 0, localTs := 0, marker := None)
  }

  /** A pointer brought back into the buffer by whole laps. */
  function Wrap(x: int, n: nat): (p: nat)
    requires n > 0
    ensures p < n
    decreases if x < 0 then -x else x
  {
    if x + n < 0 then Wrap(x + n, n) else if x < 0 then x + n else if x >= n then Wrap(x - n, n) else x
  }

  function AdjustFill(f: Fifo, adjust: int): Fifo
    requires Ok(f)
  {
    ClearMarker(f.(wrptr := Wrap(f.wrptr - adjust, |f.cells|), mode := Locked, zeroFlag := false))
  }

  function Reset(f: Fifo): Fifo
    requires Ok(f)
  {
    var z := Pred(|f.cells|, f.wrptr);
    f.(mode := Zeroing, zeroMarker := z, zeroFlag := true, cells := f.cells[z := 1])
  }

  /** The zeroing case of `audio_output_fifo_maintain`: half a buffer of silence, then lock. */
  function FinishZeroing(f: Fifo): Fifo
    requires Ok(f)
  {
    if f.mode == Zeroing && f.cells[f.zeroMarker] == 0
    then ClearMarker(f.(wrptr := Fwd(|f.cells|, f.dptr, |f.cells| / 2), mode := Locking, zeroFlag := true))
    else f
  }

  /**
   An adjustment moves the fill by exactly its amount, dropping the newest samples when it is positive,
   and leaves a locked FIFO that is no longer muted and awaits a new time stamp.
   */
  lemma AdjustFillMoves(f: Fifo, adjust: int)
    requires Ok(f) && 0 <= Fill(f) - adjust < |f.cells|
    ensures var g := AdjustFill(f, adjust);
            && Ok(g) && Fill(g) == Fill(f) - adjust
            && (adjust >= 0 ==> Contents(g) == Contents(f)[..Fill(f) - adjust])
            && (adjust < 0 ==> Contents(f) == Contents(g)[..Fill(f)])
            && g.mode == Locked && !g.zeroFlag && g.marker == None && g.ptpTs == 0 && g.localTs == 0
            && g.cells == f.cells && g.dptr == f.dptr && PulledSample(g) == if Fill(g) == 0 then 0 else Contents(g)[0]
  {
    var n, x := |f.cells|, f.wrptr - adjust;
    assert 0 <= x + n && x < 2 * n;
    assert Wrap(x, n) == if x < 0 then x + n else if x >= n then x - n else x;
  }

  /** An enabled FIFO starts empty, muted and unmarked, counts from zero, and is announced by the next maintenance. */
  lemma EnableStarts(f: Fifo, clock: int)
    requires Ok(f)
    ensures var g := Enable(f, clock);
            && Ok(g) && Fill(g) == 0 && Contents(g) == [] && g.mode == Zeroing && g.zeroFlag
            && g.marker == None && g.localTs == 0 && g.ptpTs == 0 && g.sampleCount == 0 && g.mediaClock == clock
            && g.cells[g.zeroMarker] != 0 && Succ(|g.cells|, g.zeroMarker) == g.wrptr
            && Maintained(g, false).1 && !Maintained(g, false).0.pendingInit && !Maintained(Maintained(g, false).0, false).1
  {
    assert Dist(|f.cells|, 0, 0) == 0;
  }

  // ----- zeroing

  /** Everything that can happen to a FIFO; a push carries the read pointers its loop happens to load. */
  datatype Op =
    | DoEnable(clock: int)
    | DoDisable
    | DoPush(ds: seq<nat>, xs: seq<u32>)
    | DoPull(ts: u32)
    | DoSetTimestamp(ptp: u32, sample: nat)
    | DoMaintain
    | DoRequestInfo
    | DoAdjustFill(adjust: int)
    | DoReset

  function Do(f: Fifo, op: Op): (f': Fifo)
    requires Ok(f)
    ensures Ok(f') && |f'.cells| == |f.cells|
  {
    match op
    case DoEnable(clock) => Enable(f, clock)
    case DoDisable => Disable(f)
    case DoPush(ds, xs) => if |ds| == |xs| then Push(f, ds, xs) else f
    case DoPull(ts) => Pull(f, ts)
    case DoSetTimestamp(ptp, sample) => SetTimestamp(f, ptp, sample)
    case DoMaintain => FinishZeroing(f)
    case DoRequestInfo => ClearMarker(f)
    case DoAdjustFill(adjust) => AdjustFill(f, adjust)
    case DoReset => Reset(f)
  }

  function Run(f: Fifo, ops: seq<Op>): (f': Fifo)
    requires Ok(f)
    ensures Ok(f') && |f'.cells| == |f.cells|
    decreases |ops|
  {
    if ops == [] then f else Run(Do(f, ops[0]), ops[1..])
  }

  /**
   How far zeroing has come: either every cell is zero, or the cells written since it began, from
   behind the marker up to the write pointer, are zero and the marker cell still is not.
   */
  ghost predicate ZeroedUpTo(cells: seq<u32>, marker: nat, wr: nat)
    requires marker < |cells| && wr < |cells|
  {
    || (forall i | 0 <= i < |cells| :: cells[i] == 0)
    || (&& cells[marker] != 0
        && forall j | 0 <= j < Dist(|cells|, Succ(|cells|, marker), wr) ::
             cells[Fwd(|cells|, Succ(|cells|, marker), j)] == 0)
  }

  ghost predicate ZeroInv(f: Fifo) {
    Ok(f) && (f.mode == Zeroing ==> ZeroedUpTo(f.cells, f.zeroMarker, f.wrptr))
  }

  lemma DistSucc(n: nat, p: nat, q: nat)
    requires p < n && q < n
    ensures Dist(n, p, Succ(n, q)) == if Succ(n, q) == p then 0 else Dist(n, p, q) + 1
    ensures Succ(n, q) == p <==> Dist(n, p, q) == n - 1
  {
  }

  /** One silent sample: the zeroed stretch grows by one cell, and closes when it reaches the marker. */
  lemma PushSilence(r: Ring, dptr: nat, marker: nat)
    requires RingOk(r) && marker < |r.cells| && ZeroedUpTo(r.cells, marker, r.wr)
    ensures var r' := PushOne(r, dptr, 0); ZeroedUpTo(r'.cells, marker, r'.wr)
  {
    var n, start := |r.cells|, Succ(|r.cells|, marker);
    var r' := PushOne(r, dptr, 0);
    if r' != r && !(forall i | 0 <= i < n :: r.cells[i] == 0) {
      DistSucc(n, start, r.wr);
      if r.wr == marker {
        forall i | 0 <= i < n
          ensures r'.cells[i] == 0
        {
          if i != marker {
            assert r.cells[Fwd(n, start, Dist(n, start, i))] == 0;
          }
        }
      }
    }
  }

  lemma {:induction false} PushAllSilence(r: Ring, ds: seq<nat>, n: nat, marker: nat)
    requires RingOk(r) && |ds| == n && marker < |r.cells| && ZeroedUpTo(r.cells, marker, r.wr)
    ensures var r' := PushAll(r, ds, Silence(n)); ZeroedUpTo(r'.cells, marker, r'.wr)
    decreases n
  {
    if n > 0 {
      PushSilence(r, ds[0], marker);
      assert Silence(n)[1..] == Silence(n - 1);
      PushAllSilence(PushOne(r, ds[0], 0), ds[1..], n - 1, marker);
    }
  }

  lemma ZeroStep(f: Fifo, op: Op)
    requires ZeroInv(f)
    ensures ZeroInv(Do(f, op))
  {
    hide ZeroedUpTo, PushAll;
    match op
    case DoEnable(_) => FreshZeroing(Enable(f, op.clock));
    case DoReset => FreshZeroing(Reset(f));
    case DoPush(ds, xs) =>
      if |ds| == |xs| && f.mode == Zeroing {
        PushAllSilence(Ring(f.cells, f.wrptr), ds, |xs|, f.zeroMarker);
      }
    case _ =>
  }

  /** Where zeroing begins: the marker is the cell before the write pointer. */
  lemma FreshZeroing(f: Fifo)
    requires Ok(f) && f.zeroMarker == Pred(|f.cells|, f.wrptr) && f.cells[f.zeroMarker] != 0
    ensures ZeroedUpTo(f.cells, f.zeroMarker, f.wrptr)
  {
    assert Dist(|f.cells|, Succ(|f.cells|, f.zeroMarker), f.wrptr) == 0;
  }

  /**
   No stale audio: in every reachable zeroing state a zero at the marker means that the whole
   buffer is zero, whatever read pointers the pushes saw and whenever the resets came.
   */
  lemma {:induction false} NoStaleAudio(f: Fifo, ops: seq<Op>)
    requires ZeroInv(f)
    ensures ZeroInv(Run(f, ops))
    ensures var g := Run(f, ops);
            g.mode == Zeroing && g.cells[g.zeroMarker] == 0 ==> forall i | 0 <= i < |g.cells| :: g.cells[i] == 0
    decreases |ops|
  {
    hide Do;
    if ops != [] {
      ZeroStep(f, ops[0]);
      NoStaleAudio(Do(f, ops[0]), ops[1..]);
    }
  }

  /** Locking starts from exactly half a buffer of silence. */
  lemma LockingStartsSilent(f: Fifo, ops: seq<Op>)
    requires ZeroInv(f)
    requires var g := Run(f, ops); g.mode == Zeroing && FinishZeroing(g).mode != Zeroing
    ensures var h := FinishZeroing(Run(f, ops));
            h.mode == Locking && Ok(h) && Fill(h) == |h.cells| / 2 && Contents(h) == Silence(|h.cells| / 2)
  {
    hide Run;
    NoStaleAudio(f, ops);
    var g := Run(f, ops);
    var h, n := FinishZeroing(g), |g.cells|;
    assert Dist(n, g.dptr, Fwd(n, g.dptr, n / 2)) == n / 2;
    assert forall i | 0 <= i < Fill(h) :: h.cells[Fwd(n, h.dptr, i)] == 0;
  }

  // ----- muting

  /** Whether the last of the operations that mute or unmute was the one that unmutes. */
  function Unmuted(was: bool, ops: seq<Op>): bool
    decreases |ops|
  {
    if ops == [] then was
    else
      var last := ops[|ops| - 1];
      if last.DoAdjustFill? then true
      else if last.DoEnable? || last.DoDisable? || last.DoReset? then false
      else Unmuted(was, ops[..|ops| - 1])
  }

  lemma {:induction false} RunLater(f: Fifo, ops: seq<Op>)
    requires Ok(f) && ops != []
    ensures Run(f, ops) == Do(Run(f, ops[..|ops| - 1]), ops[|ops| - 1])
    decreases |ops|
  {
    hide Do;
    var n := |ops| - 1;
    if n == 0 {
      assert Run(Do(f, ops[0]), ops[1..]) == Do(f, ops[0]);
    } else {
      RunLater(Do(f, ops[0]), ops[1..]);
      assert ops[1..][..n - 1] == ops[..n][1..];
    }
  }

  lemma RunNothing(f: Fifo)
    requires Ok(f)
    ensures Run(f, []) == f
  {
  }

  lemma MuteStep(f: Fifo, op: Op)
    requires Ok(f) && (f.mode == Locked <==> !f.zeroFlag)
    ensures var g := Do(f, op);
            && (!g.zeroFlag <==> Unmuted(!f.zeroFlag, [op])) && (g.mode == Locked <==> !g.zeroFlag)
  {
    hide PushAll, Wrap;
  }

  /**
   Sound comes out exactly while a fill adjustment is later than every enable, disable and reset, and
   that is also when the FIFO reports itself locked; at any other time every pull gives silence.
   */
  lemma {:induction false} SoundsIff(f: Fifo, ops: seq<Op>)
    requires Ok(f) && (f.mode == Locked <==> !f.zeroFlag)
    ensures var g := Run(f, ops);
            && (!g.zeroFlag <==> Unmuted(!f.zeroFlag, ops)) && (g.mode == Locked <==> Unmuted(!f.zeroFlag, ops))
            && (!Unmuted(!f.zeroFlag, ops) ==> PulledSample(g) == 0)
    decreases |ops|
  {
    hide Do, Run;
    if ops == [] {
      assert Run(f, ops) == f by { RunNothing(f); }
    } else {
      var n := |ops| - 1;
      SoundsIff(f, ops[..n]);
      RunLater(f, ops);
      MuteStep(Run(f, ops[..n]), ops[n]);
    }
  }

  // ----- notifications

  /** Samples handed to the pushes of a run. */
  function Pushed(ops: seq<Op>): nat {
    if ops == [] then 0
    else Pushed(ops[1..]) + if ops[0].DoPush? && |ops[0].ds| == |ops[0].xs| then |ops[0].xs| else 0
  }

  predicate NoEnable(ops: seq<Op>) {
    forall i | 0 <= i < |ops| :: !ops[i].DoEnable?
  }

  lemma CountStep(f: Fifo, op: Op)
    requires Ok(f) && !op.DoEnable?
    ensures var g := Do(f, op);
            && g.sampleCount % TWO32 == (f.sampleCount + if op.DoPush? && |op.ds| == |op.xs| then |op.xs| else 0) % TWO32
            && g.lastNotification == f.lastNotification && g.pendingInit == f.pendingInit
  {
    hide PushAll, Wrap;
  }

  lemma SameResidue(x: int, y: int, n: int)
    requires x % TWO32 == y % TWO32
    ensures (x + n) % TWO32 == (y + n) % TWO32
  {
  }

  lemma {:induction false} CountsPushed(f: Fifo, ops: seq<Op>)
    requires Ok(f) && NoEnable(ops)
    ensures var g := Run(f, ops);
            && g.sampleCount % TWO32 == (f.sampleCount + Pushed(ops)) % TWO32
            && g.lastNotification == f.lastNotification && g.pendingInit == f.pendingInit
    decreases |ops|
  {
    hide Do;
    if ops == [] {
    } else {
      var t, n := Do(f, ops[0]), Pushed(ops[1..]);
      CountStep(f, ops[0]);
      CountsPushed(t, ops[1..]);
      SameResidue(t.sampleCount, f.sampleCount + Pushed(ops) - n, n);
    }
  }

  /**
   The clock recovery is told of a FIFO at most once per 250 samples: after a notification, until more
   have been pushed or the FIFO is enabled anew, maintenance raises none. The exception is exact: a
   notification at sample count zero reads as none yet, and the next played marker raises another.
   */
  lemma NotifiedAgainIff(f: Fifo, ops: seq<Op>)
    requires Ok(f) && !f.pendingInit && NotifyDue(f, false)
    requires NoEnable(ops) && Pushed(ops) <= 250
    ensures Maintained(f, false).1
    ensures var h := Run(Maintained(f, false).0, ops);
            Maintained(h, false).1 <==> f.sampleCount == 0 && h.mode in {Locking, Locked} && h.ptpTs != 0 && h.localTs != 0
  {
    hide Run;
    var g := Maintained(f, false).0;
    CountsPushed(g, ops);
    var h := Run(g, ops);
    ElapsedCount(f.sampleCount, h.sampleCount, Pushed(ops));
  }

  lemma ElapsedCount(a: int, b: int, n: nat)
    requires b % TWO32 == (a + n) % TWO32 && n < TWO32
    ensures (b - a) % TWO32 == n
  {
    var q := b / TWO32 - (a + n) / TWO32;
    assert b - a == q * TWO32 + n;
  }

  // ----- one producer, one consumer

  /**
   The cell of stream position `i`, when position 0 was in cell `base`. Positions count the samples
   accepted and pulled since the last enable, reset or fill adjustment.
   */
  function Cell(n: nat, base: nat, i: nat): (c: nat)
    requires base < n
    ensures c < n
    decreases i
  {
    if i == 0 then base else Succ(n, Cell(n, base, i - 1))
  }

  lemma {:induction false} CellFwd(n: nat, base: nat, i: nat, j: nat)
    requires base < n && j <= n
    ensures Cell(n, base, i + j) == Fwd(n, Cell(n, base, i), j)
    decreases j
  {
    if j > 0 {
      CellFwd(n, base, i, j - 1);
    }
  }

  lemma CellNext(n: nat, base: nat, i: nat)
    requires base < n
    ensures Cell(n, base, i + 1) == Succ(n, Cell(n, base, i))
  {
  }

  /** Within one lap, different positions are in different cells. */
  lemma CellsDiffer(n: nat, base: nat, i: nat, j: nat)
    requires base < n && i <= j <= i + n
    ensures Cell(n, base, i) == Cell(n, base, j) <==> i == j || j == i + n
  {
    CellFwd(n, base, i, j - i);
  }

  /** The 1722 thread: between pushes, or inside one with its own write pointer. */
  datatype Producer = Idle | Pushing(wr: nat, todo: seq<u32>)

  /**
   The audio thread: outside a pull, past the underflow check, with its sample loaded, at the marker
   and not yet past the test of `local_ts`, about to store `local_ts`, or done with the marker. `gen`
   counts the stamps set before the marker was compared.
   */
  datatype Consumer =
    | Resting
    | Passed
    | Loaded(x: u32)
    | Matched(x: u32, gen: nat)
    | Due(x: u32, gen: nat)
    | Done(x: u32)

  datatype Out = Out(sample: u32, muted: bool)

  /**
   The shared FIFO, both threads, and the bookkeeping the properties talk about: where position 0
   lies, what was accepted and pulled, what each thread knows of the other's pointer, the stamped
   position, the position and time of the last playout record, how many stamps were set, and
   whether that record was decided before the last of them.
   */
  datatype Sys = Sys(
    f: Fifo, prod: Producer, cons: Consumer,
    base: nat,
    accepted: seq<u32>,
    out: seq<Out>,
    published: nat,
    seen: nat,
    seenWr: nat,
    target: Option<nat>,
    played: Option<(nat, u32)>,
    gen: nat,
    late: bool)

  /**
   Atomic steps of the two threads. `d` and `w` are the positions of the pointer values loaded from
   the other thread; they may be old, but never older than a value loaded before.
   */
  datatype Step =
    | BeginPush(xs: seq<u32>)
    | PushSample(d: nat)
    | EndPush
    | PullCheck(w: nat)
    | PullLoad
    | PullMatch
    | PullTest
    | PullStore(ts: u32)
    | PullEnd
    | Stamp(ptp: u32, sample: nat)
    | RequestInfo
    | Mute

  predicate Enabled(s: Sys, step: Step) {
    match step
    case BeginPush(_) => s.prod.Idle?
    case PushSample(d) => s.prod.Pushing? && s.prod.todo != [] && s.seen <= d <= |s.out|
    case EndPush => s.prod.Pushing? && s.prod.todo == []
    case PullCheck(w) => s.cons.Resting? && s.seenWr <= w <= s.published
    case PullLoad => s.cons.Passed?
    case PullMatch => s.cons.Loaded?
    case PullTest => s.cons.Matched?
    case PullStore(_) => s.cons.Due?
    case PullEnd => s.cons.Done?
    case Stamp(_, _) => s.prod.Idle?
    case RequestInfo => s.prod.Idle?
    case Mute => s.prod.Idle?
  }

  predicate Shape(s: Sys) {
    Ok(s.f) && s.base < |s.f.cells| && (s.prod.Pushing? ==> s.prod.wr < |s.f.cells|)
  }

  function Next(s: Sys, step: Step): Sys
    requires Shape(s) && Enabled(s, step)
  {
    var n := |s.f.cells|;
    match step
    case BeginPush(xs) => s.(prod := Pushing(s.f.wrptr, xs))
    case PushSample(d) =>
      var x := s.prod.todo[0];
      var r := PushOne(Ring(s.f.cells, s.prod.wr), Cell(n, s.base, d), x);
      s.(f := s.f.(cells := r.cells), prod := Pushing(r.wr, s.prod.todo[1..]), seen := d,
         accepted := if r.wr != s.prod.wr then s.accepted + [x] else s.accepted)
    case EndPush => s.(f := s.f.(wrptr := s.prod.wr), prod := Idle, published := |s.accepted|)
    case PullCheck(w) => s.(cons := if s.f.dptr == Cell(n, s.base, w) then Resting else Passed, seenWr := w)
    case PullLoad => s.(cons := Loaded(s.f.cells[s.f.dptr]))
    case PullMatch => s.(cons := if s.f.marker == Some(s.f.dptr) then Matched(s.cons.x, s.gen) else Done(s.cons.x))
    case PullTest => s.(cons := if s.f.localTs == 0 then Due(s.cons.x, s.cons.gen) else Done(s.cons.x))
    case PullStore(ts) =>
      s.(f := s.f.(localTs := NonZero(ts)), cons := Done(s.cons.x), played := Some((|s.out|, NonZero(ts))),
         late := s.cons.gen != s.gen)
    case PullEnd =>
      s.(cons := Resting, f := s.f.(dptr := Succ(n, s.f.dptr)),
         out := s.out + [Out(if s.f.zeroFlag then 0 else s.cons.x, s.f.zeroFlag)])
    case Stamp(ptp, sample) =>
      if s.f.marker != None then s
      else s.(f := SetTimestamp(s.f, ptp, sample), gen := s.gen + 1, late := false,
              target := if |s.accepted| + sample - |s.out| < n then Some(|s.accepted| + sample) else None)
    case RequestInfo => s.(f := ClearMarker(s.f), target := None)
    case Mute => s.(f := s.f.(zeroFlag := true))
  }

  /** Pointers, and the order of the positions the threads know about. */
  ghost predicate PointerInv(s: Sys) {
    && Shape(s)
    && var n := |s.f.cells|; var rd := |s.out|; var wr := |s.accepted|;
    && s.f.dptr == Cell(n, s.base, rd)
    && s.f.wrptr == Cell(n, s.base, s.published)
    && (if s.prod.Idle? then s.published == wr else s.prod.wr == Cell(n, s.base, wr))
    && s.seen <= rd <= s.seenWr <= s.published <= wr <= s.seen + n - 1
    && (!s.cons.Resting? ==> rd < s.seenWr)
  }

  /** What is stored, loaded and delivered. */
  ghost predicate DataInv(s: Sys)
    requires PointerInv(s)
  {
    && (forall i | |s.out| <= i < |s.accepted| :: s.f.cells[Cell(|s.f.cells|, s.base, i)] == s.accepted[i])
    && (!s.cons.Resting? && !s.cons.Passed? ==> s.cons.x == s.accepted[|s.out|])
    && (forall i | 0 <= i < |s.out| :: s.out[i].sample == if s.out[i].muted then 0 else s.accepted[i])
  }

  /** Before its playout is recorded, a stamped position is still to be pulled, or being pulled and matched. */
  ghost predicate Awaited(s: Sys, t: nat) {
    && |s.out| <= t < |s.out| + |s.f.cells|
    && (s.cons.Matched? || s.cons.Due? ==> (s.cons.gen == s.gen <==> t == |s.out|))
    && (s.cons.Done? ==> t != |s.out|)
  }

  /** A stamped position is awaited until a playout is recorded; the record is for it unless it came late. */
  ghost predicate MarkerInv(s: Sys)
    requires PointerInv(s)
  {
    && (s.cons.Matched? || s.cons.Due? ==> s.cons.gen <= s.gen)
    && (s.cons.Due? ==> s.f.localTs == 0)
    && (s.played.Some? ==> s.played.value.0 < |s.accepted|)
    && (s.target.Some? ==>
          var t := s.target.value;
          && s.f.marker == Some(Cell(|s.f.cells|, s.base, t))
          && (s.f.localTs == 0 ==> Awaited(s, t))
          && (s.f.localTs != 0 ==>
                s.played.Some? && s.played.value.1 == s.f.localTs && (s.played.value.0 == t <==> !s.late)))
  }

  lemma PointerStep(s: Sys, step: Step)
    requires PointerInv(s) && Enabled(s, step)
    ensures PointerInv(Next(s, step))
  {
    hide Cell;
    var n, rd, wr := |s.f.cells|, |s.out|, |s.accepted|;
    CellNext(n, s.base, rd);
    CellNext(n, s.base, wr);
    match step
    case PushSample(d) => CellsDiffer(n, s.base, d, wr + 1);
    case PullCheck(w) => CellsDiffer(n, s.base, rd, w);
    case _ =>
  }

  lemma DataStep(s: Sys, step: Step)
    requires PointerInv(s) && DataInv(s) && Enabled(s, step)
    ensures PointerInv(Next(s, step)) && DataInv(Next(s, step))
  {
    hide Cell;
    PointerStep(s, step);
    if step.PushSample? {
      hide Next, PointerInv;
      DataPush(s, step.d);
    }
  }

  lemma DataPush(s: Sys, d: nat)
    requires PointerInv(s) && DataInv(s) && Enabled(s, PushSample(d)) && PointerInv(Next(s, PushSample(d)))
    ensures DataInv(Next(s, PushSample(d)))
  {
    hide Cell;
    var n, rd, wr := |s.f.cells|, |s.out|, |s.accepted|;
    var t := Next(s, PushSample(d));
    forall i | rd <= i < |t.accepted|
      ensures t.f.cells[Cell(n, s.base, i)] == t.accepted[i]
    {
      CellsDiffer(n, s.base, i, wr);
    }
  }

  lemma MarkerStep(s: Sys, step: Step)
    requires PointerInv(s) && MarkerInv(s) && Enabled(s, step)
    ensures PointerInv(Next(s, step)) && MarkerInv(Next(s, step))
  {
    hide Cell;
    PointerStep(s, step);
    var n, rd, wr := |s.f.cells|, |s.out|, |s.accepted|;
    match step
    case PullMatch =>
      if s.target.Some? && s.f.localTs == 0 {
        CellsDiffer(n, s.base, rd, s.target.value);
      }
    case Stamp(_, sample) =>
      if sample <= n {
        CellFwd(n, s.base, wr, sample);
      }
    case _ =>
  }

  /**
   Exactly when a stamp is safe: among the next N positions to be pulled, the one whose cell the
   marker names is the stamped one if and only if fill plus sample number is below N.
   */
  lemma StampIsExact(s: Sys, ptp: u32, sample: nat, p: nat)
    requires PointerInv(s) && s.prod.Idle? && s.f.marker == None && s.f.wrptr + sample < 2 * |s.f.cells|
    requires |s.out| <= p < |s.out| + |s.f.cells|
    requires SetTimestamp(s.f, ptp, sample).marker == Some(Cell(|s.f.cells|, s.base, p))
    ensures p == |s.accepted| + sample <==> |s.accepted| - |s.out| + sample < |s.f.cells|
  {
    hide Cell;
    var n, rd, wr := |s.f.cells|, |s.out|, |s.accepted|;
    if wr - rd + sample < n {
      CellFwd(n, s.base, wr, sample);
      CellsDiffer(n, s.base, if p < wr + sample then p else wr + sample, if p < wr + sample then wr + sample else p);
    }
  }

  function RunSteps(s: Sys, steps: seq<Step>): Option<Sys>
    decreases |steps|
  {
    if steps == [] then Some(s)
    else if Shape(s) && Enabled(s, steps[0]) then RunSteps(Next(s, steps[0]), steps[1..])
    else None
  }

  /**
   The start of an epoch, with the FIFO in any state, no position stamped, and the audio thread
   anywhere in a pull of a ring that is not empty.
   */
  function Start(f: Fifo, c: Consumer): Sys
    requires Ok(f)
  {
    Sys(f, Idle, c, f.dptr, Contents(f), [], Fill(f), 0, Fill(f), None, None, 1, false)
  }

  predicate MidPull(f: Fifo, c: Consumer)
    requires Ok(f)
  {
    && (!c.Resting? ==> Fill(f) > 0)
    && (!c.Resting? && !c.Passed? ==> c.x == f.cells[f.dptr])
    && (c.Matched? || c.Due? ==> c.gen == 0)
    && (c.Due? ==> f.localTs == 0)
  }

  lemma StartInv(f: Fifo, c: Consumer)
    requires Ok(f) && MidPull(f, c)
    ensures PointerInv(Start(f, c)) && DataInv(Start(f, c)) && MarkerInv(Start(f, c))
  {
    var n := |f.cells|;
    forall i | 0 <= i <= Fill(f)
      ensures Cell(n, f.dptr, i) == Fwd(n, f.dptr, i)
    {
      CellFwd(n, f.dptr, 0, i);
    }
  }

  lemma {:induction false} RunInv(s: Sys, steps: seq<Step>)
    requires PointerInv(s) && DataInv(s) && MarkerInv(s) && RunSteps(s, steps).Some?
    ensures var t := RunSteps(s, steps).value; PointerInv(t) && DataInv(t) && MarkerInv(t)
    decreases |steps|
  {
    hide PointerInv, DataInv, MarkerInv, Next, Enabled;
    if steps != [] {
      DataStep(s, steps[0]);
      MarkerStep(s, steps[0]);
      RunInv(Next(s, steps[0]), steps[1..]);
    }
  }

  /**
   The ring is a queue: however pulls interleave with the inside of a push and however old the
   pointer values are that the threads load, the pulled samples are, in order and without a gap,
   the accepted ones (or zero while muted), and never more than N - 1 samples are outstanding.
   */
  lemma QueueCorrect(f: Fifo, c: Consumer, steps: seq<Step>)
    requires Ok(f) && MidPull(f, c) && RunSteps(Start(f, c), steps).Some?
    ensures var t := RunSteps(Start(f, c), steps).value;
            && |t.out| <= |t.accepted| <= |t.out| + |f.cells| - 1
            && (forall i | 0 <= i < |t.out| :: t.out[i].sample == if t.out[i].muted then 0 else t.accepted[i])
            && Contents(f) <= t.accepted
  {
    StartInv(f, c);
    RunInv(Start(f, c), steps);
    RunGrows(Start(f, c), steps);
  }

  lemma {:induction false} RunGrows(s: Sys, steps: seq<Step>)
    requires RunSteps(s, steps).Some?
    ensures |RunSteps(s, steps).value.f.cells| == |s.f.cells|
    ensures s.accepted <= RunSteps(s, steps).value.accepted && s.out <= RunSteps(s, steps).value.out
    decreases |steps|
  {
    if steps != [] {
      RunGrows(Next(s, steps[0]), steps[1..]);
    }
  }

  /**
   Marker correctness: when a time stamp was set for a position less than a lap ahead of the
   reader, a recorded playout time is that of the last recorded pull, which was exactly that
   position if and only if its marker was compared after the stamp was set.
   */
  lemma MarkerCorrect(f: Fifo, c: Consumer, steps: seq<Step>)
    requires Ok(f) && MidPull(f, c) && RunSteps(Start(f, c), steps).Some?
    ensures var t := RunSteps(Start(f, c), steps).value;
            t.target.Some? && t.f.localTs != 0 ==>
              t.played.Some? && t.played.value.1 == t.f.localTs && (t.played.value.0 == t.target.value <==> !t.late)
  {
    StartInv(f, c);
    RunInv(Start(f, c), steps);
  }

  /** No stamp is set while the audio thread is between the comparison of the marker and the store. */
  predicate Calm(s: Sys, steps: seq<Step>)
    decreases |steps|
  {
    steps == [] ||
    (Shape(s) && Enabled(s, steps[0]) ==>
       && (steps[0].Stamp? && s.f.marker == None ==> !s.cons.Matched? && !s.cons.Due?)
       && Calm(Next(s, steps[0]), steps[1..]))
  }

  lemma {:induction false} CalmNeverLate(s: Sys, steps: seq<Step>)
    requires RunSteps(s, steps).Some? && Calm(s, steps) && !s.late
    requires s.cons.Matched? || s.cons.Due? ==> s.cons.gen == s.gen
    ensures !RunSteps(s, steps).value.late
    decreases |steps|
  {
    hide Cell;
    if steps != [] {
      CalmNeverLate(Next(s, steps[0]), steps[1..]);
    }
  }

  /** In a calm run a recorded playout time is the time at which exactly the stamped position was pulled. */
  lemma MarkerPrompt(f: Fifo, c: Consumer, steps: seq<Step>)
    requires Ok(f) && MidPull(f, c) && !c.Matched? && !c.Due?
    requires RunSteps(Start(f, c), steps).Some? && Calm(Start(f, c), steps)
    ensures var t := RunSteps(Start(f, c), steps).value;
            t.target.Some? && t.f.localTs != 0 ==> t.played == Some((t.target.value, t.f.localTs))
  {
    MarkerCorrect(f, c, steps);
    CalmNeverLate(Start(f, c), steps);
  }

  // ----- the operations as whole: queue effect, and agreement with the steps

  function RingContents(r: Ring, d: nat): (s: seq<u32>)
    requires RingOk(r) && d < |r.cells|
    ensures |s| < |r.cells|
  {
    var k := Dist(|r.cells|, d, r.wr);
    seq(k, i requires 0 <= i < k => r.cells[Fwd(|r.cells|, d, i)])
  }

  function Accepts(n: nat, fill: nat, xs: seq<u32>): (k: nat)
    requires fill < n
    ensures k <= |xs|
  {
    if |xs| <= n - 1 - fill then |xs| else n - 1 - fill
  }

  lemma PushOneContents(r: Ring, d: nat, x: u32)
    requires RingOk(r) && d < |r.cells|
    ensures RingContents(PushOne(r, d, x), d) ==
            if |RingContents(r, d)| < |r.cells| - 1 then RingContents(r, d) + [x] else RingContents(r, d)
  {
    DistSucc(|r.cells|, d, r.wr);
  }

  lemma {:induction false} PushAllContents(r: Ring, d: nat, xs: seq<u32>)
    requires RingOk(r) && d < |r.cells|
    ensures RingContents(PushAll(r, Same(d, |xs|), xs), d) ==
            RingContents(r, d) + xs[..Accepts(|r.cells|, |RingContents(r, d)|, xs)]
    decreases |xs|
  {
    hide RingContents, PushOne;
    if xs == [] {
      assert xs[..Accepts(|r.cells|, |RingContents(r, d)|, xs)] == [];
    } else {
      var r1 := PushOne(r, d, xs[0]);
      PushOneContents(r, d, xs[0]);
      PushAllContents(r1, d, xs[1..]);
      assert Same(d, |xs|)[1..] == Same(d, |xs| - 1);
      assert Same(d, |xs|)[0] == d;
      var k := Accepts(|r.cells|, |RingContents(r, d)|, xs);
      if k > 0 {
        assert xs[..k] == [xs[0]] + xs[1..][..k - 1];
      }
    }
  }

  /** A push appends its samples, from the first on, until the ring is full. */
  lemma PushContents(f: Fifo, xs: seq<u32>)
    requires Ok(f) && f.mode != Zeroing
    ensures var g := Push(f, Same(f.dptr, |xs|), xs);
            && Contents(g) == Contents(f) + xs[..Accepts(|f.cells|, Fill(f), xs)]
            && g == f.(cells := g.cells, wrptr := g.wrptr, sampleCount := (f.sampleCount + |xs|) % TWO32)
  {
    hide PushAll;
    var r := Ring(f.cells, f.wrptr);
    PushAllContents(r, f.dptr, xs);
    var g := Push(f, Same(f.dptr, |xs|), xs);
    assert Contents(f) == RingContents(r, f.dptr);
    assert Contents(g) == RingContents(PushAll(r, Same(f.dptr, |xs|), xs), f.dptr);
  }

  /** A pull takes the oldest sample; an empty ring gives zero and is left alone. */
  lemma PullContents(f: Fifo, ts: u32)
    requires Ok(f)
    ensures Contents(f) == [] ==> Pull(f, ts) == f && PulledSample(f) == 0
    ensures Contents(f) != [] ==>
              && Contents(Pull(f, ts)) == Contents(f)[1..]
              && PulledSample(f) == if f.zeroFlag then 0 else Contents(f)[0]
  {
  }

  lemma RunCons(s: Sys, step: Step, rest: seq<Step>)
    requires Shape(s) && Enabled(s, step)
    ensures RunSteps(s, [step] + rest) == RunSteps(Next(s, step), rest)
  {
    hide Next, Enabled;
    assert ([step] + rest)[1..] == rest;
  }

  // ----- a stamp and the push that follows it

  /** The samples up to the stamped one are behind those accepted before, or are still to be pushed with room for all. */
  ghost predicate Arriving(t: Sys, acc: seq<u32>, xs: seq<u32>, i: nat, seen: nat) {
    || (i < |xs| && acc + xs[..i + 1] <= t.accepted)
    || (&& t.prod.Pushing? && |t.prod.todo| <= |xs| <= i + |t.prod.todo| && i < |xs| && t.seen >= seen
        && var k := |xs| - |t.prod.todo|;
        t.prod.todo == xs[k..] && t.accepted == acc + xs[..k])
  }

  lemma ArrivingStep(t: Sys, step: Step, acc: seq<u32>, xs: seq<u32>, i: nat, seen: nat)
    requires PointerInv(t) && Enabled(t, step) && Arriving(t, acc, xs, i, seen) && |acc| + i + 2 <= seen + |t.f.cells|
    ensures Arriving(Next(t, step), acc, xs, i, seen)
  {
    hide Cell;
    if step.PushSample? {
      if !(acc + xs[..i + 1] <= t.accepted) {
        ArrivingPush(t, step.d, acc, xs, i, seen);
      }
    }
  }

  lemma ArrivingPush(t: Sys, d: nat, acc: seq<u32>, xs: seq<u32>, i: nat, seen: nat)
    requires PointerInv(t) && Enabled(t, PushSample(d)) && |acc| + i + 2 <= seen + |t.f.cells|
    requires |t.prod.todo| <= |xs| <= i + |t.prod.todo| && i < |xs| && t.seen >= seen
    requires var k := |xs| - |t.prod.todo|; t.prod.todo == xs[k..] && t.accepted == acc + xs[..k]
    ensures Arriving(Next(t, PushSample(d)), acc, xs, i, seen)
  {
    hide Cell;
    var k, wr := |xs| - |t.prod.todo|, |t.accepted|;
    CellNext(|t.f.cells|, t.base, wr);
    CellsDiffer(|t.f.cells|, t.base, d, wr + 1);
    assert Next(t, PushSample(d)).accepted == t.accepted + [xs[k]];
    assert acc + xs[..k] + [xs[k]] == acc + xs[..k + 1];
    assert xs[k..][1..] == xs[k + 1..];
  }

  lemma {:induction false} ArrivingRun(s: Sys, steps: seq<Step>, acc: seq<u32>, xs: seq<u32>, i: nat, seen: nat)
    requires PointerInv(s) && DataInv(s) && MarkerInv(s) && RunSteps(s, steps).Some?
    requires Arriving(s, acc, xs, i, seen) && |acc| + i + 2 <= seen + |s.f.cells|
    ensures Arriving(RunSteps(s, steps).value, acc, xs, i, seen)
    decreases |steps|
  {
    hide PointerInv, DataInv, MarkerInv, Next, Enabled, Arriving;
    if steps != [] {
      DataStep(s, steps[0]);
      MarkerStep(s, steps[0]);
      ArrivingStep(s, steps[0], acc, xs, i, seen);
      CellsKept(s, steps[0]);
      ArrivingRun(Next(s, steps[0]), steps[1..], acc, xs, i, seen);
    }
  }

  lemma CellsKept(s: Sys, step: Step)
    requires Shape(s) && Enabled(s, step)
    ensures |Next(s, step).f.cells| == |s.f.cells|
  {
    hide Cell;
  }

  /** Until it is freed or replaced, a stamp stays what it is. */
  ghost predicate StampHeld(t: Sys, gen: nat, target: Option<nat>, ptp: u32) {
    t.gen >= gen && (t.gen == gen && t.f.marker != None ==> t.target == target && t.f.ptpTs == ptp)
  }

  lemma StampHoldsStep(s: Sys, step: Step, gen: nat, target: Option<nat>, ptp: u32)
    requires Shape(s) && Enabled(s, step) && StampHeld(s, gen, target, ptp)
    ensures StampHeld(Next(s, step), gen, target, ptp)
  {
    hide Cell, PushOne;
  }

  lemma {:induction false} StampHolds(s: Sys, steps: seq<Step>, gen: nat, target: Option<nat>, ptp: u32)
    requires RunSteps(s, steps).Some? && StampHeld(s, gen, target, ptp)
    ensures StampHeld(RunSteps(s, steps).value, gen, target, ptp)
    decreases |steps|
  {
    hide Next, Enabled, StampHeld, Shape;
    if steps != [] {
      StampHoldsStep(s, steps[0], gen, target, ptp);
      StampHolds(Next(s, steps[0]), steps[1..], gen, target, ptp);
    }
  }

  /**
   The listener stamps sample `i` of a push that it is about to make, with room for the samples up
   to it. Whatever happens then, a playout time recorded in time, while the stamp stands, is the
   time at which that very sample was pulled, and stands beside the time it was stamped with.
   */
  lemma PlayoutOfSample(s: Sys, ptp: u32, xs: seq<u32>, i: nat, steps: seq<Step>)
    requires PointerInv(s) && DataInv(s) && MarkerInv(s) && s.prod.Idle? && s.f.marker == None
    requires i < |xs| && |s.accepted| + i + 2 <= s.seen + |s.f.cells|
    requires RunSteps(s, [Stamp(ptp, i)] + ([BeginPush(xs)] + steps)).Some?
    ensures var t := RunSteps(s, [Stamp(ptp, i)] + ([BeginPush(xs)] + steps)).value;
            t.gen == s.gen + 1 && t.f.marker != None && t.f.localTs != 0 && !t.late ==>
              && t.f.ptpTs == NonZero(ptp)
              && t.played == Some((|s.accepted| + i, t.f.localTs))
              && |t.accepted| > |s.accepted| + i && t.accepted[|s.accepted| + i] == xs[i]
  {
    hide PointerInv, DataInv, MarkerInv, RunSteps, Next, Arriving;
    PlayoutStart(s, ptp, xs, i);
    var s1 := Next(s, Stamp(ptp, i));
    RunCons(s, Stamp(ptp, i), [BeginPush(xs)] + steps);
    RunCons(s1, BeginPush(xs), steps);
    var s2 := Next(s1, BeginPush(xs));
    RunInv(s2, steps);
    ArrivingRun(s2, steps, s.accepted, xs, i, s.seen);
    StampHolds(s2, steps, s.gen + 1, Some(|s.accepted| + i), NonZero(ptp));
    var t := RunSteps(s2, steps).value;
    if t.gen == s.gen + 1 && t.f.marker != None {
      PlayoutEnd(t, s.accepted, xs, i, s.seen);
    }
  }

  lemma PlayoutStart(s: Sys, ptp: u32, xs: seq<u32>, i: nat)
    requires PointerInv(s) && DataInv(s) && MarkerInv(s) && s.prod.Idle? && s.f.marker == None
    requires i < |xs| && |s.accepted| + i + 2 <= s.seen + |s.f.cells|
    ensures Shape(s) && Enabled(s, Stamp(ptp, i))
    ensures var s1 := Next(s, Stamp(ptp, i));
            && Shape(s1) && Enabled(s1, BeginPush(xs))
            && var s2 := Next(s1, BeginPush(xs));
            && PointerInv(s2) && DataInv(s2) && MarkerInv(s2) && |s2.f.cells| == |s.f.cells|
            && StampHeld(s2, s.gen + 1, Some(|s.accepted| + i), NonZero(ptp))
            && Arriving(s2, s.accepted, xs, i, s.seen)
  {
    hide Cell, DataInv, MarkerInv;
    var s1 := Next(s, Stamp(ptp, i));
    DataStep(s, Stamp(ptp, i));
    MarkerStep(s, Stamp(ptp, i));
    DataStep(s1, BeginPush(xs));
    MarkerStep(s1, BeginPush(xs));
    assert xs[0..] == xs && s.accepted + xs[..0] == s.accepted;
  }

  lemma PlayoutEnd(t: Sys, acc: seq<u32>, xs: seq<u32>, i: nat, seen: nat)
    requires PointerInv(t) && MarkerInv(t) && Arriving(t, acc, xs, i, seen)
    requires t.target == Some(|acc| + i)
    ensures t.f.localTs != 0 && !t.late ==>
              && t.played == Some((|acc| + i, t.f.localTs))
              && |t.accepted| > |acc| + i && t.accepted[|acc| + i] == xs[i]
  {
    hide Cell, PointerInv;
    if acc + xs[..i + 1] <= t.accepted {
      assert (acc + xs[..i + 1])[|acc| + i] == xs[i];
    }
  }

  /** A push without pulls stores the stamped sample exactly if fill plus index is below N - 1; one less than the stamp needs. */
  lemma StampedStored(f: Fifo, xs: seq<u32>, i: nat)
    requires Ok(f) && f.mode != Zeroing && i < |xs|
    ensures var g := Push(f, Same(f.dptr, |xs|), xs);
            && (Fill(g) > Fill(f) + i <==> Fill(f) + i < |f.cells| - 1)
            && (Fill(g) > Fill(f) + i ==> Contents(g)[Fill(f) + i] == xs[i])
  {
    hide Push, Contents;
    PushContents(f, xs);
  }

  const FOUR_CELLS := Fifo([0, 0, 0, 0], 0, 0, None, 0, 0, 0, false, Locked, 0, 0, 0, false)

  /**
   A stamp a lap ahead: four cells, three samples waiting, and the sample after next stamped. The
   pull of position 0 is recorded as the playout of position 4.
   */
  lemma StampTooFar()
    ensures var f := FOUR_CELLS.(wrptr := 3);
            var t := RunSteps(Start(f, Resting), [Stamp(7, 1)] + ([PullCheck(3)] + RecordSteps(100)));
            && t.Some? && |Start(f, Resting).accepted| + 1 == 4 && !t.value.late
            && t.value.f.ptpTs == 7 && t.value.f.localTs == 100 && t.value.played == Some((0, 100))
  {
    hide RunSteps, RecordSteps;
    var s0 := Start(FOUR_CELLS.(wrptr := 3), Resting);
    var s1 := Next(s0, Stamp(7, 1));
    assert Cell(4, 0, 1) == 1 && Cell(4, 0, 2) == 2 && Cell(4, 0, 3) == 3;
    RunCons(s0, Stamp(7, 1), [PullCheck(3)] + RecordSteps(100));
    RunCons(s1, PullCheck(3), RecordSteps(100));
    RecordHere(Next(s1, PullCheck(3)), 100);
  }

  function RecordSteps(ts: u32): seq<Step> {
    [PullLoad] + ([PullMatch] + ([PullTest] + ([PullStore(ts)] + [])))
  }

  /** An undisturbed pull of the marked cell is recorded. */
  lemma RecordHere(s: Sys, ts: u32)
    requires Shape(s) && s.cons.Passed? && s.f.marker == Some(s.f.dptr) && s.f.localTs == 0
    ensures var t := RunSteps(s, RecordSteps(ts));
            && t.Some? && !t.value.late
            && t.value.f == s.f.(localTs := NonZero(ts)) && t.value.played == Some((|s.out|, NonZero(ts)))
  {
    hide RunSteps, Cell;
    var s1 := Next(s, PullLoad);
    var s2 := Next(s1, PullMatch);
    var s3 := Next(s2, PullTest);
    RunCons(s, PullLoad, [PullMatch] + ([PullTest] + ([PullStore(ts)] + [])));
    RunCons(s1, PullMatch, [PullTest] + ([PullStore(ts)] + []));
    RunCons(s2, PullTest, [PullStore(ts)] + []);
    RunCons(s3, PullStore(ts), []);
    RunNone(Next(s3, PullStore(ts)));
  }

  lemma RunNone(s: Sys)
    ensures RunSteps(s, []) == Some(s)
  {
  }

  /**
   A late record: the audio thread is about to store the playout time of position 0 when the marker
   is freed and position 1 is stamped. The store then counts for position 1.
   */
  lemma RecordedLate()
    ensures var f := FOUR_CELLS.(marker := Some(0), wrptr := 1);
            var t := RunSteps(Start(f, Due(0, 0)), [RequestInfo] + ([Stamp(9, 0)] + ([PullStore(100)] + [])));
            && MidPull(f, Due(0, 0)) && t.Some? && t.value.late
            && t.value.target == Some(1) && t.value.f.localTs == 100 && t.value.played == Some((0, 100))
  {
    hide RunSteps;
    var s0 := Start(FOUR_CELLS.(marker := Some(0), wrptr := 1), Due(0, 0));
    var s1 := Next(s0, RequestInfo);
    var s2 := Next(s1, Stamp(9, 0));
    var s3 := Next(s2, PullStore(100));
    RunCons(s0, RequestInfo, [Stamp(9, 0)] + ([PullStore(100)] + []));
    RunCons(s1, Stamp(9, 0), [PullStore(100)] + []);
    RunCons(s2, PullStore(100), []);
    RunNone(s3);
  }

  /** What the audio thread does at the marker. */
  function MarkerSteps(f: Fifo, ts: u32): seq<Step> {
    if f.marker != Some(f.dptr) then [PullEnd]
    else if f.localTs != 0 then [PullTest] + [PullEnd]
    else [PullTest] + ([PullStore(ts)] + [PullEnd])
  }

  /** A pull without interference is the steps of the consumer. */
  lemma PullIsSteps(s: Sys, ts: u32)
    requires PointerInv(s) && s.cons.Resting? && s.f.dptr != s.f.wrptr
    ensures var t := RunSteps(s, [PullCheck(s.published)] + ([PullLoad] + ([PullMatch] + MarkerSteps(s.f, ts))));
            && t.Some? && t.value.f == Pull(s.f, ts)
            && t.value.out == s.out + [Out(PulledSample(s.f), s.f.zeroFlag)]
  {
    hide Cell, RunSteps;
    var rest := MarkerSteps(s.f, ts);
    RunCons(s, PullCheck(s.published), [PullLoad] + ([PullMatch] + rest));
    var s1 := Next(s, PullCheck(s.published));
    RunCons(s1, PullLoad, [PullMatch] + rest);
    var s2 := Next(s1, PullLoad);
    RunCons(s2, PullMatch, rest);
    MarkerIsSteps(Next(s2, PullMatch), ts);
  }

  lemma MarkerIsSteps(s: Sys, ts: u32)
    requires Shape(s) && (if s.f.marker == Some(s.f.dptr) then s.cons.Matched? else s.cons.Done?)
    ensures var t := RunSteps(s, MarkerSteps(s.f, ts));
            && t.Some? && t.value.out == s.out + [Out(if s.f.zeroFlag then 0 else s.cons.x, s.f.zeroFlag)]
            && t.value.f == s.f.(dptr := Succ(|s.f.cells|, s.f.dptr),
                                 localTs := if s.f.marker == Some(s.f.dptr) && s.f.localTs == 0 then NonZero(ts) else s.f.localTs)
  {
    if s.f.marker != Some(s.f.dptr) {
      RunLast(s);
    } else {
      var s1 := Next(s, PullTest);
      if s.f.localTs != 0 {
        RunCons(s, PullTest, [PullEnd]);
        RunLast(s1);
      } else {
        RunCons(s, PullTest, [PullStore(ts)] + [PullEnd]);
        RunCons(s1, PullStore(ts), [PullEnd]);
        RunLast(Next(s1, PullStore(ts)));
      }
    }
  }

  lemma RunLast(s: Sys)
    requires Shape(s) && s.cons.Done?
    ensures RunSteps(s, [PullEnd]) == Some(Next(s, PullEnd))
  {
    assert [PullEnd] + [] == [PullEnd];
    RunCons(s, PullEnd, []);
  }

  /** A push without interference is its begin step, one step for every sample and its end step. */
  lemma {:induction false} PushIsSteps(s: Sys)
    requires PointerInv(s) && s.prod.Pushing?
    ensures var steps := seq(|s.prod.todo|, _ => PushSample(|s.out|)) + [EndPush];
            var r := PushAll(Ring(s.f.cells, s.prod.wr), Same(s.f.dptr, |s.prod.todo|), s.prod.todo);
            RunSteps(s, steps).Some? && RunSteps(s, steps).value.f == s.f.(cells := r.cells, wrptr := r.wr)
    decreases |s.prod.todo|
  {
    hide Cell, PushOne;
    var todo := s.prod.todo;
    var steps := seq(|todo|, _ => PushSample(|s.out|)) + [EndPush];
    if todo == [] {
      assert steps == [EndPush] && [EndPush][1..] == [];
    } else {
      var step := PushSample(|s.out|);
      PointerStep(s, step);
      PushIsSteps(Next(s, step));
      assert steps[1..] == seq(|todo| - 1, _ => PushSample(|s.out|)) + [EndPush];
      assert Same(s.f.dptr, |todo|)[1..] == Same(s.f.dptr, |todo| - 1);
    }
  }

  // ----- the code

  /** The word at byte `at`, loaded and byte-swapped: the wire is big-endian. */
  function Word(b: seq<byte>, at: nat): u32
    requires at + 4 <= |b|
  {
    b[at] as int * 0x100_0000 + b[at + 1] as int * 0x1_0000 + b[at + 2] as int * 0x100 + b[at + 3]
  }

  /** The label byte is shifted out and the 24-bit sample moved to the top. */
  function ToSample(w: u32): u32 {
    w * 0x100 % TWO32
  }

  /** The samples at every `stride`-th word from word `i` on, of `n` words starting at byte `at`. */
  function Strided(b: seq<byte>, at: nat, stride: nat, n: nat, i: nat): seq<u32>
    requires stride > 0 && at + 4 * n <= |b|
    decreases n - i
  {
    if i >= n then [] else [ToSample(Word(b, at + 4 * i))] + Strided(b, at, stride, n, i + stride)
  }

  function Same(d: nat, n: nat): (s: seq<nat>)
    ensures |s| == n
  {
    seq(n, _ => d)
  }

  class AudioFifo {
    const cells: array<u32>
    var dptr: nat
    var wrptr: nat
    var marker: Option<nat>
    var localTs: u32
    var ptpTs: u32
    var zeroMarker: nat
    var zeroFlag: bool
    var mode: Mode
    var sampleCount: u32
    var lastNotification: u32
    var mediaClock: int
    var pendingInit: bool

    ghost function View(): Fifo
      reads this, cells
    {
      Fifo(cells[..], dptr, wrptr, marker, localTs, ptpTs, zeroMarker, zeroFlag, mode,
           sampleCount, lastNotification, mediaClock, pendingInit)
    }

    /** `audio_output_fifo_init`; the fields it leaves alone are those of static memory. */
    constructor (size: nat)
      requires size > 0
      ensures fresh(cells) && cells.Length == size && Ok(View()) && ZeroInv(View())
      ensures mode == Disabled && dptr == wrptr == 0
    {
      cells := new u32[size](_ => 0);
      dptr, wrptr, marker, localTs, ptpTs, zeroMarker, zeroFlag := 0, 0, None, 0, 0, 0, false;
      mode, sampleCount, lastNotification, mediaClock, pendingInit := Disabled, 0, 0, -1, false;
    }

    /** Both pointers to the start, and no marker. */
    method Rewind()
      modifies this`dptr, this`wrptr, this`marker, this`localTs, this`ptpTs
      ensures dptr == wrptr == localTs == ptpTs == 0 && marker == None
    {
      dptr, wrptr, marker, localTs, ptpTs := 0, 0, None, 0, 0;
    }

    method MarkCell(k: nat)
      requires k < cells.Length
      modifies cells
      ensures cells[..] == old(cells[..])[k := 1]
    {
      cells[k] := 1;
    }

    /** `enable_audio_output_fifo` */
    method EnableFifo(clock: int)
      requires Ok(View())
      modifies this, cells
      ensures View() == Enable(old(View()), clock)
    {
      Rewind();
      mode, zeroMarker, zeroFlag := Zeroing, cells.Length - 1, true;
      MarkCell(zeroMarker);
      sampleCount, mediaClock, pendingInit := 0, clock, true;
    }

    /** `disable_audio_output_fifo` */
    method DisableFifo()
      modifies this
      ensures View() == Disable(old(View()))
    {
      mode, zeroFlag := Disabled, true;
    }

    /** `audio_output_fifo_set_ptp_timestamp` */
    method SetPtpTimestamp(ptp: u32, sample: nat)
      requires Ok(View())
      modifies this
      ensures View() == SetTimestamp(old(View()), ptp, sample)
    {
      if marker == None {
        var m := wrptr + sample;
        if m >= cells.Length {
          m := m - cells.Length;
        }
        ptpTs, localTs, marker := if ptp == 0 then 1 else ptp, 0, Some(m);
      }
    }

    /** `audio_output_fifo_pull_sample` */
    method PullSample(timestamp: u32) returns (sample: u32)
      requires Ok(View())
      modifies this
      ensures View() == Pull(old(View()), timestamp) && sample == PulledSample(old(View()))
    {
      var d := dptr;
      if d == wrptr {
        return 0;
      }
      sample := cells[d];
      if marker == Some(d) && localTs == 0 {
        localTs := if timestamp == 0 then 1 else timestamp;
      }
      d := d + 1;
      if d == cells.Length {
        d := 0;
      }
      dptr := d;
      if zeroFlag {
        sample := 0;
      }
    }

    /** The end of the loop body: the store and the step, unless the ring is full. */
    method Store(wr: nat, d: nat, sample: u32) returns (next: nat)
      requires wr < cells.Length
      modifies cells
      ensures next < cells.Length && Ring(cells[..], next) == PushOne(Ring(old(cells[..]), wr), d, sample)
    {
      next := wr + 1;
      if next == cells.Length {
        next := 0;
      }
      if next != d {
        cells[wr] := sample;
      } else {
        next := wr;
      }
    }

    /** `audio_output_fifo_strided_push` on `n` words of `b` from byte `at`. */
    method StridedPush(b: seq<byte>, at: nat, stride: nat, n: nat)
      requires Ok(View()) && stride > 0 && at + 4 * n <= |b|
      modifies this`wrptr, this`sampleCount, cells
      ensures var xs := Strided(b, at, stride, n, 0);
              View() == Push(old(View()), Same(old(dptr), |xs|), xs)
    {
      hide PushOne, PushAll, Strided, Played, ToSample, Word;
      var wr: nat := wrptr;
      var zeroing := mode == Zeroing;
      var count: nat, i: nat := 0, 0;
      ghost var start := Ring(cells[..], wr);
      ghost var all := Strided(b, at, stride, n, 0);
      while i < n
        invariant wr < cells.Length
        invariant count + |Strided(b, at, stride, n, i)| == |all|
        invariant PushRest(Ring(cells[..], wr), dptr, b, at, stride, n, i, zeroing) ==
                  PushRest(start, dptr, b, at, stride, n, 0, zeroing)
        invariant wrptr == old(wrptr) && sampleCount == old(sampleCount)
        decreases n - i
      {
        PushNext(Ring(cells[..], wr), dptr, b, at, stride, n, i, zeroing);
        count := count + 1;
        var sample: u32 := ToSample(Word(b, at + 4 * i));
        if zeroing {
          sample := 0;
        }
        wr := Store(wr, dptr, sample);
        i := i + stride;
      }
      PushDone(Ring(cells[..], wr), dptr, b, at, stride, n, i, zeroing);
      PushedAre(start, dptr, b, at, stride, n, zeroing);
      wrptr := wr;
      sampleCount := (sampleCount + count) % TWO32;
    }

    /** `audio_output_fifo_maintain`; the result says whether the clock recovery is notified. */
    method Maintain(notified: bool) returns (notify: bool)
      requires Ok(View())
      modifies this
      ensures (View(), notify) == Maintained(old(View()), notified)
    {
      notify := notified;
      if pendingInit && !notify {
        notify, pendingInit := true, false;
      }
      if mode == Zeroing {
        BeginLocking();
      } else if mode == Locking || mode == Locked {
        var since := (sampleCount - lastNotification) % TWO32;
        if ptpTs != 0 && localTs != 0 && !notify && (lastNotification == 0 || since > NOTIFICATION_PERIOD) {
          notify := true;
          lastNotification := sampleCount;
        }
      }
    }

    /** The zeroing case: once silence has gone all the way round, half a buffer of it starts the locking. */
    method BeginLocking()
      requires Ok(View()) && mode == Zeroing
      modifies this`wrptr, this`mode, this`localTs, this`ptpTs, this`marker, this`zeroFlag
      ensures View() == FinishZeroing(old(View()))
    {
      if cells[zeroMarker] == 0 {
        var newWr := dptr + cells.Length / 2;
        while newWr >= cells.Length
          invariant newWr == dptr + cells.Length / 2 || newWr == dptr + cells.Length / 2 - cells.Length
          invariant newWr >= 0
        {
          newWr := newWr - cells.Length;
        }
        wrptr, mode, localTs, ptpTs, marker, zeroFlag := newWr, Locking, 0, 0, None, true;
      }
    }

    /** The fill adjustment of `audio_output_fifo_handle_buf_ctl`. */
    method AdjustFillBy(adjust: int)
      requires Ok(View())
      modifies this
      ensures View() == AdjustFill(old(View()), adjust)
    {
      var n := cells.Length;
      var newWr := wrptr - adjust;
      while newWr < 0
        invariant Wrap(newWr, n) == Wrap(wrptr - adjust, n)
        decreases -newWr
      {
        newWr := newWr + n;
      }
      while newWr >= n
        invariant newWr >= 0 && Wrap(newWr, n) == Wrap(wrptr - adjust, n)
      {
        newWr := newWr - n;
      }
      wrptr, mode, zeroFlag, ptpTs, localTs, marker := newWr, Locked, false, 0, 0, None;
    }

    /** The reset of `audio_output_fifo_handle_buf_ctl`. */
    method ResetFifo()
      requires Ok(View())
      modifies this, cells
      ensures View() == Reset(old(View()))
    {
      mode := Zeroing;
      if wrptr == 0 {
        zeroMarker := cells.Length - 1;
      } else {
        zeroMarker := wrptr - 1;
      }
      zeroFlag := true;
      cells[zeroMarker] := 1;
    }

    /** The information request of `audio_output_fifo_handle_buf_ctl`, which frees the marker. */
    method ReportInfo() returns (locked: bool, ptp: u32, local: u32, rd: nat, wr: nat)
      modifies this
      ensures View() == ClearMarker(old(View()))
      ensures locked == (mode == Locked) && ptp == old(ptpTs) && local == old(localTs) && rd == dptr && wr == wrptr
    {
      locked, ptp, local, rd, wr := mode == Locked, ptpTs, localTs, dptr, wrptr;
      ptpTs, localTs, marker := 0, 0, None;
    }
  }

  /** What `audio_output_fifo_maintain` does to a FIFO and to the notification flag. */
  function Maintained(f: Fifo, notified: bool): (r: (Fifo, bool))
    requires Ok(f)
    ensures Ok(r.0)
  {
    var started := f.pendingInit && !notified;
    var g := FinishZeroing(f.(pendingInit := f.pendingInit && notified));
    if NotifyDue(g, started || notified) && g.mode != Zeroing && f.mode != Zeroing
    then (g.(lastNotification := g.sampleCount), true)
    else (g, started || notified)
  }

  /** When the clock recovery hears about a played marker: at most once per notification period. */
  predicate NotifyDue(f: Fifo, notified: bool) {
    && f.mode in {Locking, Locked} && f.ptpTs != 0 && f.localTs != 0 && !notified
    && (f.lastNotification == 0 || (f.sampleCount - f.lastNotification) % TWO32 > NOTIFICATION_PERIOD)
  }

  /** The samples a push stores: silence while zeroing. */
  function Played(xs: seq<u32>, zeroing: bool): (ys: seq<u32>)
    ensures |ys| == |xs|
  {
    if zeroing then Silence(|xs|) else xs
  }

  /** The ring after the rest of a strided push, from word `i` on. */
  ghost function PushRest(r: Ring, d: nat, b: seq<byte>, at: nat, stride: nat, n: nat, i: nat, zeroing: bool): Ring
    requires RingOk(r) && stride > 0 && at + 4 * n <= |b|
  {
    var xs := Played(Strided(b, at, stride, n, i), zeroing);
    PushAll(r, Same(d, |xs|), xs)
  }

  lemma PushNext(r: Ring, d: nat, b: seq<byte>, at: nat, stride: nat, n: nat, i: nat, zeroing: bool)
    requires RingOk(r) && stride > 0 && at + 4 * n <= |b| && i < n
    ensures PushRest(r, d, b, at, stride, n, i, zeroing) ==
            PushRest(PushOne(r, d, if zeroing then 0 else ToSample(Word(b, at + 4 * i))), d, b, at, stride, n, i + stride, zeroing)
    ensures |Strided(b, at, stride, n, i)| == 1 + |Strided(b, at, stride, n, i + stride)|
  {
    hide PushOne, Word, ToSample;
    var xs, rest := Played(Strided(b, at, stride, n, i), zeroing), Played(Strided(b, at, stride, n, i + stride), zeroing);
    assert xs[1..] == rest;
    assert Same(d, |xs|)[1..] == Same(d, |rest|);
  }

  lemma PushDone(r: Ring, d: nat, b: seq<byte>, at: nat, stride: nat, n: nat, i: nat, zeroing: bool)
    requires RingOk(r) && stride > 0 && at + 4 * n <= |b| && i >= n
    ensures PushRest(r, d, b, at, stride, n, i, zeroing) == r && Strided(b, at, stride, n, i) == []
  {
  }

  lemma PushedAre(r: Ring, d: nat, b: seq<byte>, at: nat, stride: nat, n: nat, zeroing: bool)
    requires RingOk(r) && stride > 0 && at + 4 * n <= |b|
    ensures var xs := Strided(b, at, stride, n, 0);
            PushRest(r, d, b, at, stride, n, 0, zeroing) ==
            PushAll(r, Same(d, |xs|), if zeroing then Silence(|xs|) else xs)
  {
  }
}
