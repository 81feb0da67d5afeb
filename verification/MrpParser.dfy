/**
 The receive side of MRP: `avb_mrp_process_packet` as a scan over the received bytes that yields
 the leave-all and value events it raises, and the proof that it reads back what was built.
 */
module MrpParser {
  import opened Bytes
  import opened MrpWire

  /** The receive buffer extends this far past any frame, so header and first-value reads stay inside it. */
  const SLACK: nat := 34

  /** Where a scan of one message's vectors ended, and whether it abandons the packet. */
  datatype Scan = Scan(log: seq<Rx>, pos: nat, stop: bool)

  predicate EndMark(buf: seq<byte>, pos: nat, end: nat)
    requires end + SLACK <= |buf|
  {
    pos >= end || (buf[pos] == 0 && buf[pos + 1] == 0)
  }

  function HasFour(attr: Option<AttrType>): bool {
    attr == Some(Listener)
  }

  function VectorLen(attr: Option<AttrType>, firstLen: nat, n: nat): nat {
    2 + firstLen + (n + 2) / 3 + if HasFour(attr) then (n + 3) / 4 else 0
  }

  function Value(buf: seq<byte>, fv: nat, firstLen: nat, attr: AttrType, n: nat, i: nat): Rx
    requires i < n && fv + VectorLen(Some(attr), firstLen, n) - 2 + SLACK <= |buf|
  {
    var three := buf[fv + firstLen + i / 3];
    var four: Four := if attr == Listener then Decode4(buf[fv + firstLen + (n + 2) / 3 + i / 4], i % 4) else 0;
    ValueRx(attr, KeyAt(attr, buf[fv..fv + FirstLen(attr)], i), Decode3(three, i % 3), four)
  }

  /** The value loop; it leaves the vector at the first three-packed byte in the unused range. */
  function ScanValues(buf: seq<byte>, fv: nat, firstLen: nat, attr: AttrType, n: nat, i: nat): seq<Rx>
    requires i <= n && fv + VectorLen(Some(attr), firstLen, n) - 2 + SLACK <= |buf|
    decreases n - i
  {
    if i == n || buf[fv + firstLen + i / 3] > 0xD7 then []
    else [Value(buf, fv, firstLen, attr, n, i)] + ScanValues(buf, fv, firstLen, attr, n, i + 1)
  }

  function Count(buf: seq<byte>, pos: nat): nat
    requires pos + 1 < |buf|
  {
    buf[pos] as int % 32 * 256 + buf[pos + 1]
  }

  /** The events of the vector at `pos`; an attribute type unknown to this version raises none. */
  function VectorLog(buf: seq<byte>, pos: nat, attr: Option<AttrType>, firstLen: nat): seq<Rx>
    requires pos + 1 < |buf| && pos + VectorLen(attr, firstLen, Count(buf, pos)) + SLACK <= |buf|
  {
    if attr.None? then [] else
      (if buf[pos] / 32 == 1 then [LeaveAllRx(attr.value)] else []) +
      ScanValues(buf, pos + 2, firstLen, attr.value, Count(buf, pos), 0)
  }

  /** `limit` is the AttributeListLength field, which only MSRP messages have. */
  function ScanVectors(buf: seq<byte>, pos: nat, end: nat, p: Protocol, attr: Option<AttrType>,
                       firstLen: nat, limit: nat): Scan
    requires end + SLACK <= |buf|
    decreases end - pos
  {
    if EndMark(buf, pos, end) then Scan([], pos, false)
    else
      var len := VectorLen(attr, firstLen, Count(buf, pos));
      if (p.Msrp? && len + 2 > limit) || pos + len > end then Scan([], pos, true)
      else
        var rest := ScanVectors(buf, pos + len, end, p, attr, firstLen, limit);
        rest.(log := VectorLog(buf, pos, attr, firstLen) + rest.log)
  }

  function HeaderLen(p: Protocol): nat {
    if p.Msrp? then 4 else 2
  }

  predicate Rejected(version: byte, attr: Option<AttrType>, firstLen: byte) {
    version == 0 && (attr.None? || FirstLen(attr.value) != firstLen)
  }

  function ListLenAt(buf: seq<byte>, pos: nat): nat
    requires pos + 3 < |buf|
  {
    buf[pos + 2] as int * 256 + buf[pos + 3]
  }

  lemma ScanVectorsAdvances(buf: seq<byte>, pos: nat, end: nat, p: Protocol, attr: Option<AttrType>,
                            firstLen: nat, limit: nat)
    requires end + SLACK <= |buf|
    ensures ScanVectors(buf, pos, end, p, attr, firstLen, limit).pos >= pos
    decreases end - pos
  {
    hide VectorLog;
  }

  function ScanMessages(buf: seq<byte>, pos: nat, end: nat, p: Protocol, version: byte): seq<Rx>
    requires end + SLACK <= |buf|
    decreases end - pos
  {
    if EndMark(buf, pos, end) then []
    else
      var attr := DecodeType(p, buf[pos]);
      if Rejected(version, attr, buf[pos + 1]) then []
      else
        var start := pos + HeaderLen(p);
        var scan := ScanVectors(buf, start, end, p, attr, buf[pos + 1], ListLenAt(buf, pos));
        ScanVectorsAdvances(buf, start, end, p, attr, buf[pos + 1], ListLenAt(buf, pos));
        scan.log + if scan.stop then [] else ScanMessages(buf, scan.pos + 2, end, p, version)
  }

  /** The events of a whole packet: byte 0 is the protocol version, messages follow. */
  function Parse(buf: seq<byte>, len: nat, p: Protocol): seq<Rx>
    requires 1 <= len && len + SLACK <= |buf|
  {
    ScanMessages(buf, 1, len, p, buf[0])
  }

  lemma ScanValuesStep(buf: seq<byte>, fv: nat, firstLen: nat, attr: AttrType, n: nat, i: nat, done: seq<Rx>)
    requires i < n && fv + VectorLen(Some(attr), firstLen, n) - 2 + SLACK <= |buf|
    ensures var all := ScanValues(buf, fv, firstLen, attr, n, i);
            if buf[fv + firstLen + i / 3] > 0xD7 then done + all == done
            else done + all == (done + [Value(buf, fv, firstLen, attr, n, i)]) + ScanValues(buf, fv, firstLen, attr, n, i + 1)
  {
    hide Value;
  }

  lemma ScanValuesEnds(buf: seq<byte>, fv: nat, firstLen: nat, attr: AttrType, n: nat)
    requires fv + VectorLen(Some(attr), firstLen, n) - 2 + SLACK <= |buf|
    ensures ScanValues(buf, fv, firstLen, attr, n, n) == []
  {
  }

  /** The loop over the values of one vector. */
  method ProcessValues(buf: seq<byte>, fv: nat, firstLen: nat, attr: AttrType, numValues: nat) returns (log: seq<Rx>)
    requires fv + VectorLen(Some(attr), firstLen, numValues) - 2 + SLACK <= |buf|
    ensures log == ScanValues(buf, fv, firstLen, attr, numValues, 0)
  {
    hide ScanValues, Value;
    log := [];
    var i := 0;
    while i < numValues
      invariant 0 <= i <= numValues
      invariant log + ScanValues(buf, fv, firstLen, attr, numValues, i) ==
                ScanValues(buf, fv, firstLen, attr, numValues, 0)
    {
      ScanValuesStep(buf, fv, firstLen, attr, numValues, i, log);
      if buf[fv + firstLen + i / 3] > 0xD7 {
        return;
      }
      log := log + [Value(buf, fv, firstLen, attr, numValues, i)];
      i := i + 1;
    }
    ScanValuesEnds(buf, fv, firstLen, attr, numValues);
  }

  /** The events of one vector. */
  method ProcessVector(buf: seq<byte>, msg: nat, attr: Option<AttrType>, firstLen: nat, numValues: nat)
    returns (log: seq<Rx>)
    requires msg + 1 < |buf| && numValues == Count(buf, msg)
    requires msg + VectorLen(attr, firstLen, numValues) + SLACK <= |buf|
    ensures log == VectorLog(buf, msg, attr, firstLen)
  {
    log := [];
    if attr.Some? {
      if buf[msg] / 32 == 1 {
        log := [LeaveAllRx(attr.value)];
      }
      var values := ProcessValues(buf, msg + 2, firstLen, attr.value, numValues);
      log := log + values;
    }
  }

  lemma ScanVectorsStep(buf: seq<byte>, pos: nat, end: nat, p: Protocol, attr: Option<AttrType>, firstLen: nat,
                        limit: nat, done: seq<Rx>)
    requires end + SLACK <= |buf| && !EndMark(buf, pos, end)
    requires var len := VectorLen(attr, firstLen, Count(buf, pos)); (p.Msrp? ==> len + 2 <= limit) && pos + len <= end
    ensures var all := ScanVectors(buf, pos, end, p, attr, firstLen, limit);
            var rest := ScanVectors(buf, pos + VectorLen(attr, firstLen, Count(buf, pos)), end, p, attr, firstLen, limit);
            && done + all.log == (done + VectorLog(buf, pos, attr, firstLen)) + rest.log
            && all.pos == rest.pos && all.stop == rest.stop
  {
    hide VectorLog;
  }

  lemma ScanVectorsEnds(buf: seq<byte>, pos: nat, end: nat, p: Protocol, attr: Option<AttrType>, firstLen: nat, limit: nat)
    requires end + SLACK <= |buf|
    ensures EndMark(buf, pos, end) ==> ScanVectors(buf, pos, end, p, attr, firstLen, limit) == Scan([], pos, false)
    ensures !EndMark(buf, pos, end) ==>
              var len := VectorLen(attr, firstLen, Count(buf, pos));
              (p.Msrp? && len + 2 > limit) || pos + len > end ==>
              ScanVectors(buf, pos, end, p, attr, firstLen, limit) == Scan([], pos, true)
  {
    hide VectorLog;
  }

  /** The loop over the vectors of one message. */
  method ProcessVectors(buf: seq<byte>, start: nat, p: Protocol, attr: Option<AttrType>, firstLen: nat, limit: nat,
                        len: nat) returns (log: seq<Rx>, msg: nat, stop: bool)
    requires len + SLACK <= |buf|
    ensures Scan(log, msg, stop) == ScanVectors(buf, start, len, p, attr, firstLen, limit)
    ensures msg >= start
  {
    hide ScanVectors, VectorLog;
    log, msg, stop := [], start, false;
    ghost var all := ScanVectors(buf, start, len, p, attr, firstLen, limit);
    while msg < len && (buf[msg] != 0 || buf[msg + 1] != 0)
      invariant start <= msg
      invariant var rest := ScanVectors(buf, msg, len, p, attr, firstLen, limit);
                log + rest.log == all.log && rest.pos == all.pos && rest.stop == all.stop
      decreases len - msg
    {
      var numValues := Count(buf, msg);
      var vectorLen := VectorLen(attr, firstLen, numValues);
      ScanVectorsEnds(buf, msg, len, p, attr, firstLen, limit);
      if (p == Msrp && vectorLen + 2 > limit) || msg + vectorLen > len {
        stop := true;
        return;
      }
      ScanVectorsStep(buf, msg, len, p, attr, firstLen, limit, log);
      var vector := ProcessVector(buf, msg, attr, firstLen, numValues);
      log := log + vector;
      msg := msg + vectorLen;
    }
    ScanVectorsEnds(buf, msg, len, p, attr, firstLen, limit);
  }

  lemma ScanMessagesStep(buf: seq<byte>, pos: nat, end: nat, p: Protocol, version: byte, done: seq<Rx>)
    requires end + SLACK <= |buf| && !EndMark(buf, pos, end)
    requires !Rejected(version, DecodeType(p, buf[pos]), buf[pos + 1])
    ensures var scan := ScanVectors(buf, pos + HeaderLen(p), end, p, DecodeType(p, buf[pos]), buf[pos + 1],
                                    ListLenAt(buf, pos));
            && scan.pos >= pos
            && done + ScanMessages(buf, pos, end, p, version) ==
               (done + scan.log) + if scan.stop then [] else ScanMessages(buf, scan.pos + 2, end, p, version)
  {
    hide ScanVectors;
    ScanVectorsAdvances(buf, pos + HeaderLen(p), end, p, DecodeType(p, buf[pos]), buf[pos + 1], ListLenAt(buf, pos));
  }

  lemma ScanMessagesEnds(buf: seq<byte>, pos: nat, end: nat, p: Protocol, version: byte)
    requires end + SLACK <= |buf|
    requires EndMark(buf, pos, end) || Rejected(version, DecodeType(p, buf[pos]), buf[pos + 1])
    ensures ScanMessages(buf, pos, end, p, version) == []
  {
    hide ScanVectors;
  }

  /** `avb_mrp_process_packet`. */
  method ProcessPacket(buf: seq<byte>, p: Protocol, len: nat) returns (log: seq<Rx>)
    requires 1 <= len && len + SLACK <= |buf|
    ensures log == Parse(buf, len, p)
  {
    hide ScanVectors, ScanMessages;
    log := [];
    var msg := 1;
    var version := buf[0];
    while msg < len && (buf[msg] != 0 || buf[msg + 1] != 0)
      invariant log + ScanMessages(buf, msg, len, p, version) == Parse(buf, len, p)
      decreases len - msg
    {
      var firstLen := buf[msg + 1];
      var attr := DecodeType(p, buf[msg]);
      if version == 0 {
        if attr == None || FirstLen(attr.value) != firstLen {
          ScanMessagesEnds(buf, msg, len, p, version);
          return;
        }
      }
      ScanMessagesStep(buf, msg, len, p, version, log);
      var limit := ListLenAt(buf, msg);
      var start := msg + 4;
      // only MSRP headers contain the AttributeListLength
      if p == Mvrp {
        start := start - 2;
      }
      var vectors, next, stop := ProcessVectors(buf, start, p, attr, firstLen, limit, len);
      log := log + vectors;
      if stop {
        return;
      }
      msg := next + 2;
    }
    ScanMessagesEnds(buf, msg, len, p, version);
  }

  // ----- reading back what the encoder wrote

  /** `s` lies in `buf` at `pos`. */
  ghost predicate At(buf: seq<byte>, pos: nat, s: seq<byte>) {
    pos + |s| <= |buf| && buf[pos..pos + |s|] == s
  }

  lemma AtConcat(buf: seq<byte>, pos: nat, a: seq<byte>, b: seq<byte>)
    requires At(buf, pos, a + b)
    ensures At(buf, pos, a) && At(buf, pos + |a|, b)
  {
    assert (a + b)[..|a|] == a && (a + b)[|a|..] == b;
  }

  lemma AtParts(buf: seq<byte>, pos: nat, a: seq<byte>, b: seq<byte>, c: seq<byte>, d: seq<byte>, e: seq<byte>)
    requires At(buf, pos, a + b + c + d + e)
    ensures At(buf, pos, a) && At(buf, pos + |a|, b) && At(buf, pos + |a| + |b|, c)
    ensures At(buf, pos + |a| + |b| + |c|, d) && At(buf, pos + |a| + |b| + |c| + |d|, e)
  {
    hide At;
    AtConcat(buf, pos, a + b + c + d, e);
    AtConcat(buf, pos, a + b + c, d);
    AtConcat(buf, pos, a + b, c);
    AtConcat(buf, pos, a, b);
  }

  lemma AtIndex(buf: seq<byte>, pos: nat, s: seq<byte>, k: nat)
    requires At(buf, pos, s) && k < |s|
    ensures pos + k < |buf| && buf[pos + k] == s[k]
  {
    assert buf[pos..pos + |s|][k] == buf[pos + k];
  }

  /** The vector of `m` lies at `fv`: first value, three-packed bytes, four-packed bytes. */
  ghost predicate VectorAt(buf: seq<byte>, fv: nat, m: Message) {
    && WellFormed(m)
    && At(buf, fv, m.first)
    && At(buf, fv + |m.first|, ThreePacked(m.events))
    && At(buf, fv + |m.first| + (|m.events| + 2) / 3, RawOf(m).four)
    && fv + VectorLen(Some(m.attr), FirstLen(m.attr), |m.events|) - 2 + SLACK <= |buf|
  }

  lemma ReadsThree(buf: seq<byte>, fv: nat, m: Message, i: nat)
    requires VectorAt(buf, fv, m) && i < |m.events|
    ensures var b := buf[fv + FirstLen(m.attr) + i / 3]; b <= 0xD7 && Decode3(b, i % 3) == m.events[i].three
  {
    AtIndex(buf, fv + |m.first|, ThreePacked(m.events), i / 3);
    UnpackThree(m.events, i);
  }

  lemma ReadsFour(buf: seq<byte>, fv: nat, m: Message, i: nat)
    requires VectorAt(buf, fv, m) && i < |m.events| && m.attr == Listener
    ensures Decode4(buf[fv + FirstLen(m.attr) + (|m.events| + 2) / 3 + i / 4], i % 4) == m.events[i].four
  {
    AtIndex(buf, fv + |m.first| + (|m.events| + 2) / 3, FourPacked(m.events), i / 4);
    UnpackFour(m.events, i);
  }

  lemma ReadsValue(buf: seq<byte>, fv: nat, m: Message, i: nat)
    requires VectorAt(buf, fv, m) && i < |m.events|
    ensures buf[fv + FirstLen(m.attr) + i / 3] <= 0xD7
    ensures Value(buf, fv, FirstLen(m.attr), m.attr, |m.events|, i) == ValueAt(m, i)
  {
    hide ThreePacked, FourPacked, RawOf, KeyAt, Decode3, Decode4;
    ReadsThree(buf, fv, m, i);
    if m.attr == Listener {
      ReadsFour(buf, fv, m, i);
    }
    assert buf[fv..fv + FirstLen(m.attr)] == m.first;
  }

  lemma VectorFits(buf: seq<byte>, fv: nat, m: Message)
    requires VectorAt(buf, fv, m)
    ensures WellFormed(m) && fv + VectorLen(Some(m.attr), FirstLen(m.attr), |m.events|) - 2 + SLACK <= |buf|
  {
  }

  lemma NextValue(m: Message, i: nat)
    requires WellFormed(m) && i < |m.events|
    ensures Values(m)[i..] == [ValueAt(m, i)] + Values(m)[i + 1..]
  {
    hide ValueAt;
  }

  lemma {:induction false} ScanValuesReads(buf: seq<byte>, fv: nat, m: Message, i: nat)
    requires VectorAt(buf, fv, m) && i <= |m.events|
    ensures ScanValues(buf, fv, FirstLen(m.attr), m.attr, |m.events|, i) == Values(m)[i..]
    decreases |m.events| - i
  {
    hide Value, ValueAt, Values, ScanValues, VectorAt;
    VectorFits(buf, fv, m);
    if i == |m.events| {
      ScanValuesEnds(buf, fv, FirstLen(m.attr), m.attr, |m.events|);
    } else {
      ScanValuesReads(buf, fv, m, i + 1);
      ReadsValue(buf, fv, m, i);
      ScanValuesStep(buf, fv, FirstLen(m.attr), m.attr, |m.events|, i, []);
      var all := ScanValues(buf, fv, FirstLen(m.attr), m.attr, |m.events|, i);
      assert [] + all == all;
      NextValue(m, i);
    }
  }

  lemma BodyAt(buf: seq<byte>, pos: nat, m: Message)
    requires WellFormed(m) && At(buf, pos, Body(RawOf(m))) && pos + ListLen(RawOf(m)) + SLACK <= |buf|
    ensures buf[pos] == (if m.leaveAll then 32 else 0) && buf[pos + 1] == |m.events|
    ensures VectorAt(buf, pos + 2, m)
    ensures buf[pos + ListLen(RawOf(m)) - 2] == 0 && buf[pos + ListLen(RawOf(m)) - 1] == 0
  {
    hide ThreePacked, FourPacked, At;
    var r := RawOf(m);
    var head: seq<byte>, mark: seq<byte> := [if r.leaveAll then 32 else 0, r.count], [0, 0];
    AtParts(buf, pos, head, r.first, r.three, r.four, mark);
    AtIndex(buf, pos, head, 0);
    AtIndex(buf, pos, head, 1);
    AtIndex(buf, pos + ListLen(r) - 2, mark, 0);
    AtIndex(buf, pos + ListLen(r) - 2, mark, 1);
  }

  lemma BodyMeaning(buf: seq<byte>, pos: nat, m: Message)
    requires WellFormed(m) && At(buf, pos, Body(RawOf(m))) && pos + ListLen(RawOf(m)) + SLACK <= |buf|
    ensures buf[pos] == (if m.leaveAll then 32 else 0) && buf[pos + 1] == |m.events| == Count(buf, pos)
    ensures VectorLen(Some(m.attr), FirstLen(m.attr), |m.events|) == ListLen(RawOf(m)) - 2
    ensures VectorLog(buf, pos, Some(m.attr), FirstLen(m.attr)) == MsgMeaning(m)
    ensures buf[pos + ListLen(RawOf(m)) - 2] == 0 && buf[pos + ListLen(RawOf(m)) - 1] == 0
  {
    hide ScanValues, VectorAt, At, Values, ThreePacked, FourPacked;
    BodyAt(buf, pos, m);
    ScanValuesReads(buf, pos + 2, m, 0);
    assert Values(m)[0..] == Values(m);
  }

  /** One message body is read as its meaning, and the scan stops on its end mark. */
  lemma ScanBody(buf: seq<byte>, pos: nat, end: nat, m: Message, limit: nat)
    requires Complete(m) && end + SLACK <= |buf|
    requires At(buf, pos, Body(RawOf(m))) && pos + ListLen(RawOf(m)) <= end
    requires ProtocolOf(m.attr).Msrp? ==> limit == ListLen(RawOf(m))
    ensures ScanVectors(buf, pos, end, ProtocolOf(m.attr), Some(m.attr), FirstLen(m.attr), limit) ==
            Scan(MsgMeaning(m), pos + ListLen(RawOf(m)) - 2, false)
  {
    hide ScanVectors, VectorLog, MsgMeaning;
    BodyMeaning(buf, pos, m);
    ScanVectorsEnds(buf, pos + ListLen(RawOf(m)) - 2, end, ProtocolOf(m.attr), Some(m.attr), FirstLen(m.attr), limit);
    ScanVectorsStep(buf, pos, end, ProtocolOf(m.attr), Some(m.attr), FirstLen(m.attr), limit, []);
    var all := ScanVectors(buf, pos, end, ProtocolOf(m.attr), Some(m.attr), FirstLen(m.attr), limit);
    assert [] + all.log == all.log && ([] + MsgMeaning(m)) + [] == MsgMeaning(m);
  }

  ghost predicate AllOf(ms: seq<Message>, p: Protocol) {
    AllComplete(ms) && forall i | 0 <= i < |ms| :: ProtocolOf(ms[i].attr) == p
  }

  /** Vectors of fewer than 256 values keep the length field within its two bytes. */
  lemma ListLenFits(m: Message)
    requires WellFormed(m)
    ensures ListLen(RawOf(m)) < 0x10000
  {
  }

  lemma HeaderAt(buf: seq<byte>, pos: nat, m: Message, p: Protocol)
    requires WellFormed(m) && pos + 4 <= |buf| && p == ProtocolOf(m.attr)
    requires At(buf, pos, Header(RawOf(m), p.Msrp?))
    ensures buf[pos] != 0 && DecodeType(p, buf[pos]) == Some(m.attr) && buf[pos + 1] == FirstLen(m.attr)
    ensures p.Msrp? ==> ListLenAt(buf, pos) == ListLen(RawOf(m))
  {
    hide ListLen, Be16, ThreePacked, FourPacked;
    var head := Header(RawOf(m), p.Msrp?);
    AtIndex(buf, pos, head, 0);
    AtIndex(buf, pos, head, 1);
    if p.Msrp? {
      ListLenFits(m);
      Be16RoundTrip(ListLen(RawOf(m)));
      AtIndex(buf, pos, head, 2);
      AtIndex(buf, pos, head, 3);
    }
  }

  /** The messages of a PDU are read as their meaning, and the scan goes on behind them. */
  lemma {:induction false} ScanReadsOn(buf: seq<byte>, pos: nat, end: nat, ms: seq<Message>, p: Protocol, version: byte)
    requires AllOf(ms, p) && end + SLACK <= |buf|
    requires At(buf, pos, PduBytes(ms, p.Msrp?)) && pos + |PduBytes(ms, p.Msrp?)| <= end
    ensures ScanMessages(buf, pos, end, p, version) ==
            Meaning(ms) + ScanMessages(buf, pos + |PduBytes(ms, p.Msrp?)|, end, p, version)
    decreases |ms|
  {
    hide ScanMessages, MsgMeaning, RawOf, ListLen, PduBytes, Meaning, At, Header, Body;
    MeaningUnfold(ms);
    if ms == [] {
      assert PduBytes(ms, p.Msrp?) == [] by { PduEmpty(p.Msrp?); }
    } else {
      var len := SplitFirst(buf, pos, ms, p);
      ScanFirst(buf, pos, end, ms[0], p, version);
      ScanReadsOn(buf, pos + len, end, ms[1..], p, version);
    }
  }

  /** Round trip: a PDU followed by an end mark or the end of the frame is read back as its meaning, in the format of its protocol. */
  lemma ScanReadsPdu(buf: seq<byte>, pos: nat, end: nat, ms: seq<Message>, p: Protocol)
    requires AllOf(ms, p) && end + SLACK <= |buf|
    requires At(buf, pos, PduBytes(ms, p.Msrp?)) && pos + |PduBytes(ms, p.Msrp?)| <= end
    requires var next := pos + |PduBytes(ms, p.Msrp?)|; next == end || (buf[next] == 0 && buf[next + 1] == 0)
    ensures ScanMessages(buf, pos, end, p, 0) == Meaning(ms)
  {
    hide ScanMessages, PduBytes, Meaning, At;
    ScanReadsOn(buf, pos, end, ms, p, 0);
    ScanMessagesEnds(buf, pos + |PduBytes(ms, p.Msrp?)|, end, p, 0);
  }

  // ----- messages of other versions

  /** A message of one vector with `n` values; the payload is first value and events. */
  function ForeignBytes(code: byte, firstLen: byte, flag: nat, n: nat, payload: seq<byte>, lengths: bool): seq<byte>
    requires flag < 8 && n < 8192 && |payload| == firstLen + (n + 2) / 3
  {
    [code, firstLen] + (if lengths then Be16(|payload| + 4) else []) + [32 * flag + n / 256, n % 256] + payload + [0, 0]
  }

  lemma VectorHead(flag: nat, n: nat)
    requires flag < 8 && n < 8192
    ensures 0 <= 32 * flag + n / 256 < 256 && (32 * flag + n / 256) % 32 * 256 + n % 256 == n
    ensures 32 * flag + n / 256 == 0 && n % 256 == 0 <==> flag == 0 && n == 0
  {
  }

  /** The header of such a message as the scan sees it. */
  lemma ForeignHeader(buf: seq<byte>, pos: nat, code: byte, firstLen: byte, flag: nat, n: nat, payload: seq<byte>, p: Protocol)
    requires flag < 8 && n < 8192 && |payload| == firstLen + (n + 2) / 3 && pos + SLACK <= |buf|
    requires At(buf, pos, ForeignBytes(code, firstLen, flag, n, payload, p.Msrp?))
    ensures buf[pos] == code && buf[pos + 1] == firstLen && (p.Msrp? ==> ListLenAt(buf, pos) == |payload| + 4)
    ensures var v := pos + HeaderLen(p);
            && Count(buf, v) == n && v + |payload| + 3 < |buf|
            && (buf[v] == 0 && buf[v + 1] == 0 <==> flag == 0 && n == 0)
            && buf[v + 2 + |payload|] == 0 && buf[v + 3 + |payload|] == 0
  {
    hide At, Be16;
    VectorHead(flag, n);
    var head: seq<byte>, vector: seq<byte>, mark: seq<byte> := [code, firstLen], [32 * flag + n / 256, n % 256], [0, 0];
    var lens: seq<byte> := if p.Msrp? then Be16(|payload| + 4) else [];
    AtParts(buf, pos, head, lens, vector, payload, mark);
    AtIndex(buf, pos, head, 0);
    AtIndex(buf, pos, head, 1);
    if p.Msrp? {
      Be16RoundTrip(|payload| + 4);
      AtIndex(buf, pos + 2, lens, 0);
      AtIndex(buf, pos + 2, lens, 1);
    }
    var v := pos + HeaderLen(p);
    AtIndex(buf, v, vector, 0);
    AtIndex(buf, v, vector, 1);
    AtIndex(buf, v + 2 + |payload|, mark, 0);
    AtIndex(buf, v + 2 + |payload|, mark, 1);
  }

  lemma ForeignVector(buf: seq<byte>, v: nat, end: nat, p: Protocol, firstLen: nat, n: nat, limit: nat)
    requires end + SLACK <= |buf| && v < end && (buf[v] != 0 || buf[v + 1] != 0) && Count(buf, v) == n
    requires var next := v + VectorLen(None, firstLen, n);
             next + 2 <= end && buf[next] == 0 && buf[next + 1] == 0 && (p.Msrp? ==> next - v + 2 <= limit)
    ensures ScanVectors(buf, v, end, p, None, firstLen, limit) == Scan([], v + VectorLen(None, firstLen, n), false)
  {
    hide ScanVectors, Count;
    ScanVectorsStep(buf, v, end, p, None, firstLen, limit, []);
    ScanVectorsEnds(buf, v + VectorLen(None, firstLen, n), end, p, None, firstLen, limit);
    assert VectorLog(buf, v, None, firstLen) == [];
    var all := ScanVectors(buf, v, end, p, None, firstLen, limit);
    assert [] + all.log == all.log;
  }

  /**
   A message of a type unknown to this version: in a packet of this version it ends the packet, in a
   packet of any other version it is passed over, whatever its values.
   */
  lemma ForeignScan(buf: seq<byte>, pos: nat, end: nat, p: Protocol, version: byte,
                    code: byte, firstLen: byte, flag: nat, n: nat, payload: seq<byte>)
    requires flag < 8 && n < 8192 && |payload| == firstLen + (n + 2) / 3 && (flag > 0 || n > 0)
    requires DecodeType(p, code) == None && (code != 0 || firstLen != 0) && end + SLACK <= |buf|
    requires var f := ForeignBytes(code, firstLen, flag, n, payload, p.Msrp?); At(buf, pos, f) && pos + |f| <= end
    ensures ScanMessages(buf, pos, end, p, version) ==
            if version == 0 then [] else ScanMessages(buf, pos + HeaderLen(p) + |payload| + 4, end, p, version)
  {
    hide ScanMessages, ScanVectors, At, Count, ListLenAt;
    ForeignHeader(buf, pos, code, firstLen, flag, n, payload, p);
    if version == 0 {
      ScanMessagesEnds(buf, pos, end, p, version);
    } else {
      ScanMessagesStep(buf, pos, end, p, version, []);
      ForeignVector(buf, pos + HeaderLen(p), end, p, firstLen, n, ListLenAt(buf, pos));
      var all := ScanMessages(buf, pos, end, p, version);
      assert [] + all == all;
    }
  }

  /** Messages of known types on both sides of an unknown one: those behind it are heard unless the packet has this version. */
  lemma ForeignPassedOver(buf: seq<byte>, pos: nat, end: nat, p: Protocol, version: byte, before: seq<Message>, after: seq<Message>,
                          code: byte, firstLen: byte, flag: nat, n: nat, payload: seq<byte>)
    requires AllOf(before, p) && AllOf(after, p) && end + SLACK <= |buf|
    requires flag < 8 && n < 8192 && |payload| == firstLen + (n + 2) / 3 && (flag > 0 || n > 0)
    requires DecodeType(p, code) == None && (code != 0 || firstLen != 0)
    requires var a, f := PduBytes(before, p.Msrp?), ForeignBytes(code, firstLen, flag, n, payload, p.Msrp?);
             && At(buf, pos, a) && At(buf, pos + |a|, f) && At(buf, pos + |a| + |f|, PduBytes(after, p.Msrp?))
             && pos + |a| + |f| + |PduBytes(after, p.Msrp?)| == end
    ensures ScanMessages(buf, pos, end, p, version) == Meaning(before) + if version == 0 then [] else Meaning(after)
  {
    hide ScanMessages, PduBytes, Meaning, At;
    ScanReadsOn(buf, pos, end, before, p, version);
    var at := pos + |PduBytes(before, p.Msrp?)|;
    ForeignScan(buf, at, end, p, version, code, firstLen, flag, n, payload);
    if version != 0 {
      ScanReadsOn(buf, at + HeaderLen(p) + |payload| + 4, end, after, p, version);
      ScanMessagesEnds(buf, end, end, p, version);
      assert Meaning(after) + [] == Meaning(after);
    }
  }

  /** A vector that does not fit its list length or the frame ends the packet, and what came before it is heard. */
  lemma OverlongEnds(buf: seq<byte>, pos: nat, end: nat, p: Protocol, version: byte, before: seq<Message>)
    requires AllOf(before, p) && end + SLACK <= |buf|
    requires At(buf, pos, PduBytes(before, p.Msrp?)) && pos + |PduBytes(before, p.Msrp?)| < end
    requires var at := pos + |PduBytes(before, p.Msrp?)|; var v := at + HeaderLen(p);
             && buf[at] != 0 && v < end && (buf[v] != 0 || buf[v + 1] != 0)
             && var len := VectorLen(DecodeType(p, buf[at]), buf[at + 1], buf[v] as int % 32 * 256 + buf[v + 1]);
                v + len > end || (p.Msrp? && len + 2 > buf[at + 2] as int * 256 + buf[at + 3])
    ensures ScanMessages(buf, pos, end, p, version) == Meaning(before)
  {
    hide ScanMessages, ScanVectors, PduBytes, Meaning, At, VectorLen;
    ScanReadsOn(buf, pos, end, before, p, version);
    var at := pos + |PduBytes(before, p.Msrp?)|;
    var attr := DecodeType(p, buf[at]);
    if Rejected(version, attr, buf[at + 1]) {
      ScanMessagesEnds(buf, at, end, p, version);
    } else {
      ScanMessagesStep(buf, at, end, p, version, []);
      ScanVectorsEnds(buf, at + HeaderLen(p), end, p, attr, buf[at + 1], ListLenAt(buf, at));
      var all := ScanMessages(buf, at, end, p, version);
      assert [] + all == all;
    }
    assert Meaning(before) + [] == Meaning(before);
  }

  lemma SplitFirst(buf: seq<byte>, pos: nat, ms: seq<Message>, p: Protocol) returns (len: nat)
    requires AllOf(ms, p) && ms != []
    requires At(buf, pos, PduBytes(ms, p.Msrp?))
    ensures len == HeaderLen(p) + ListLen(RawOf(ms[0]))
    ensures |PduBytes(ms, p.Msrp?)| == len + |PduBytes(ms[1..], p.Msrp?)|
    ensures At(buf, pos, Header(RawOf(ms[0]), p.Msrp?))
    ensures At(buf, pos + HeaderLen(p), Body(RawOf(ms[0])))
    ensures At(buf, pos + len, PduBytes(ms[1..], p.Msrp?))
  {
    hide At, Header, Body, RawOf, ListLen, PduBytes;
    var r, rest := RawOf(ms[0]), PduBytes(ms[1..], p.Msrp?);
    len := HeaderLen(p) + ListLen(r);
    PduFirst(ms, p.Msrp?);
    AtConcat(buf, pos, Header(r, p.Msrp?) + Body(r), rest);
    AtConcat(buf, pos, Header(r, p.Msrp?), Body(r));
  }

  lemma PduEmpty(lengths: bool)
    ensures PduBytes([], lengths) == []
  {
  }

  lemma PduFirst(ms: seq<Message>, lengths: bool)
    requires AllComplete(ms) && ms != []
    ensures var r := RawOf(ms[0]);
            PduBytes(ms, lengths) == (Header(r, lengths) + Body(r)) + PduBytes(ms[1..], lengths)
  {
    hide Header, Body, RawOf;
  }

  /** A message at `pos` contributes its meaning and hands over to the byte after its end mark. */
  lemma ScanFirst(buf: seq<byte>, pos: nat, end: nat, m: Message, p: Protocol, version: byte)
    requires Complete(m) && p == ProtocolOf(m.attr) && end + SLACK <= |buf|
    requires At(buf, pos, Header(RawOf(m), p.Msrp?)) && At(buf, pos + HeaderLen(p), Body(RawOf(m)))
    requires pos + HeaderLen(p) + ListLen(RawOf(m)) <= end
    ensures ScanMessages(buf, pos, end, p, version) ==
            MsgMeaning(m) + ScanMessages(buf, pos + HeaderLen(p) + ListLen(RawOf(m)), end, p, version)
  {
    hide ScanVectors, ScanMessages, MsgMeaning, Body, Header;
    HeaderAt(buf, pos, m, p);
    ScanBody(buf, pos + HeaderLen(p), end, m, ListLenAt(buf, pos));
    ScanMessagesStep(buf, pos, end, p, version, []);
    var all := ScanMessages(buf, pos, end, p, version);
    assert [] + all == all && [] + MsgMeaning(m) == MsgMeaning(m);
  }
}
