/**
 The transmit side of MRP: the send buffer of avb_mrp.c with its in-place editing, tied to the
 messages it holds and to what the frames made from it say to a receiver.
 */
module MrpSender {
  import opened Bytes
  import opened MrpWire
  import P = MrpParser

  /** Ethernet header and protocol version come before the first message. */
  const BASE: nat := 15
  const MIN_FRAME: nat := 64

  /** What `send` keeps free: a message of the size the code reckons with, and the end mark of the PDU. */
  const MARGIN: nat := 34

  /** The bytes by which one more value can lengthen a message. */
  function EventBytes(d: Decl): nat {
    if d.ListenerDecl? then 2 else 1
  }

  /** The room that a value in a new message and the padding of `force_send` take. */
  function Need(d: Decl): nat {
    8 + FirstLen(DeclType(d)) + EventBytes(d) + 4
  }

  /** What is reckoned for a value is the size of a message of its own and the end mark with its padding. */
  lemma NeedExact(d: Decl, e: Three, vid: u16)
    ensures |MsgBytes(NewMessage(d, e, vid), true)| + 4 == Need(d)
  {
    hide BeBytes;
  }

  /**
   The margin is enough, wherever the end pointer stops short of it, exactly for the values other
   than talkers'.
   */
  lemma MarginIff(d: Decl)
    ensures (forall ptr: nat, size: nat | KeepsMargin(ptr, size) :: ptr + Need(d) <= size) <==> !d.TalkerDecl?
  {
    if d.TalkerDecl? {
      assert KeepsMargin(0, MARGIN) && MARGIN < 0 + Need(d);
    }
  }

  /** Where the end pointer stands behind these messages. */
  ghost function Size(ms: seq<Message>): nat
    requires AllComplete(ms)
  {
    BASE + |PduBytes(ms, true)|
  }

  /** The case in which `send` leaves the buffer alone. */
  predicate KeepsMargin(ptr: nat, size: nat) {
    ptr + MARGIN <= size
  }

  /** In a buffer of 500 bytes whose end pointer is at 466 `send` waits, and a Talker Failed value needs 47 bytes more. */
  lemma MarginShort(r: Reservation)
    ensures 466 + MARGIN <= 500 < 466 + Need(TalkerDecl(true, r)) && Need(TalkerDecl(true, r)) == 47
  {
  }

  function EtherType(p: Protocol): (e: nat)
    ensures e < 0x10000
  {
    if p.Msrp? then 0x22ea else 0x88f5
  }

  function EtherProtocol(frame: seq<byte>): Protocol
    requires |frame| >= 14
  {
    if [frame[12], frame[13]] == Be16(EtherType(Msrp)) then Msrp else Mvrp
  }

  // ----- edits of a byte string, one per in-place step of the encoder

  function Gap(s: seq<byte>, at: nat): seq<byte>
    requires at <= |s|
  {
    s[..at] + [0] + s[at..]
  }

  function Patch(s: seq<byte>, at: nat, bytes: seq<byte>): (r: seq<byte>)
    requires at + |bytes| <= |s|
  {
    s[..at] + bytes + s[at + |bytes|..]
  }

  lemma PatchIs(s: seq<byte>, t: seq<byte>, at: nat, bytes: seq<byte>)
    requires at + |bytes| <= |s| == |t|
    requires forall i | 0 <= i < |s| :: t[i] == if at <= i < at + |bytes| then bytes[i - at] else s[i]
    ensures t == Patch(s, at, bytes)
  {
  }

  /** Replacing the middle of a concatenation. */
  lemma PatchMiddle(a: seq<byte>, b: seq<byte>, c: seq<byte>, b': seq<byte>)
    requires |b| == |b'|
    ensures Patch(a + b + c, |a|, b') == a + b' + c
  {
    var s := a + b + c;
    assert s[..|a|] == a;
    assert s[|a| + |b|..] == c;
  }

  lemma GapMiddle(a: seq<byte>, b: seq<byte>)
    ensures Gap(a + b, |a|) == a + [0] + b
  {
    assert (a + b)[..|a|] == a && (a + b)[|a|..] == b;
  }

  /** What shifting, storing the new length and rewriting the end mark amount to. */
  function Grow(s: seq<byte>, at: nat, vector: nat, len: nat): seq<byte>
    requires vector <= |s| && at + 4 <= |s| && at + 4 + len <= |s| + 1 && len >= 2
  {
    Patch(Patch(Gap(s, vector), at + 2, Be16(len)), at + 2 + len, [0, 0])
  }

  lemma GrowParts(a: seq<byte>, old2: seq<byte>, b: seq<byte>, c: seq<byte>, post: seq<byte>, new2: seq<byte>)
    requires |old2| == |new2| == 2
    ensures var s := a + old2 + (b + c + [0, 0] + post);
            Patch(Patch(Gap(s, |a| + 2 + |b|), |a|, new2), |a| + 3 + |b| + |c|, [0, 0]) ==
            a + new2 + (b + [0] + c + [0, 0] + post)
  {
    var s := a + old2 + (b + c + [0, 0] + post);
    assert s == (a + old2 + b) + (c + [0, 0] + post);
    GapMiddle(a + old2 + b, c + [0, 0] + post);
    var g := Gap(s, |a| + 2 + |b|);
    assert g == a + old2 + (b + [0] + c + [0, 0] + post);
    PatchMiddle(a, old2, b + [0] + c + [0, 0] + post, new2);
    var h := a + new2 + (b + [0] + c + [0, 0] + post);
    assert h == (a + new2 + b + [0] + c) + [0, 0] + post;
    PatchMiddle(a + new2 + b + [0] + c, [0, 0], post, [0, 0]);
  }

  function Flags(r: Raw): seq<byte> {
    [if r.leaveAll then 32 else 0, r.count]
  }

  function Codes(r: Raw): seq<byte> {
    [TypeCode(r.attr), FirstLen(r.attr)]
  }

  lemma RawParts(pre: seq<byte>, r: Raw, post: seq<byte>)
    ensures pre + RawBytes(r, true) + post ==
            (pre + Codes(r)) + Be16(ListLen(r)) + ((Flags(r) + r.first + r.three) + r.four + [0, 0] + post)
  {
    hide Be16;
  }

  lemma GrowThree(pre: seq<byte>, r: Raw, post: seq<byte>)
    ensures Grow(pre + RawBytes(r, true) + post, |pre|, |pre| + 6 + |r.first| + |r.three|, ListLen(r) + 1) ==
            pre + RawBytes(r.(three := r.three + [0]), true) + post
  {
    hide Patch, Gap, RawBytes, Be16;
    var r' := r.(three := r.three + [0]);
    RawParts(pre, r, post);
    RawParts(pre, r', post);
    GrowParts(pre + Codes(r), Be16(ListLen(r)), Flags(r) + r.first + r.three, r.four, post, Be16(ListLen(r')));
    assert Flags(r') + r'.first + r'.three == Flags(r) + r.first + r.three + [0];
  }

  lemma GrowFour(pre: seq<byte>, r: Raw, post: seq<byte>)
    ensures Grow(pre + RawBytes(r, true) + post, |pre|, |pre| + 6 + |r.first| + |r.three| + |r.four|, ListLen(r) + 1) ==
            pre + RawBytes(r.(four := r.four + [0]), true) + post
  {
    hide Patch, Gap, RawBytes, Be16;
    var r' := r.(four := r.four + [0]);
    RawParts(pre, r, post);
    RawParts(pre, r', post);
    var b := Flags(r) + r.first + r.three + r.four;
    assert Flags(r) + r.first + r.three + r.four + [0, 0] + post == b + [] + [0, 0] + post;
    GrowParts(pre + Codes(r), Be16(ListLen(r)), b, [], post, Be16(ListLen(r')));
    assert (Flags(r') + r'.first + r'.three) + r'.four + [0, 0] + post == b + [0] + [] + [0, 0] + post;
  }

  lemma SplitThree(pre: seq<byte>, r: Raw, post: seq<byte>, k: nat)
    requires k < |r.three|
    ensures pre + RawBytes(r, true) + post ==
            (pre + Header(r, true) + Flags(r) + r.first + r.three[..k]) + [r.three[k]] +
            (r.three[k + 1..] + r.four + [0, 0] + post)
  {
    hide Be16, Header;
    assert r.three == r.three[..k] + [r.three[k]] + r.three[k + 1..];
  }

  lemma SplitFour(pre: seq<byte>, r: Raw, post: seq<byte>, k: nat)
    requires k < |r.four|
    ensures pre + RawBytes(r, true) + post ==
            (pre + Header(r, true) + Flags(r) + r.first + r.three + r.four[..k]) + [r.four[k]] +
            (r.four[k + 1..] + [0, 0] + post)
  {
    hide Be16, Header;
    assert r.four == r.four[..k] + [r.four[k]] + r.four[k + 1..];
  }

  lemma PatchThree(pre: seq<byte>, r: Raw, post: seq<byte>, k: nat, x: byte)
    requires k < |r.three|
    ensures Patch(pre + RawBytes(r, true) + post, |pre| + 6 + |r.first| + k, [x]) ==
            pre + RawBytes(r.(three := r.three[k := x]), true) + post
    ensures (pre + RawBytes(r, true) + post)[|pre| + 6 + |r.first| + k] == r.three[k]
  {
    hide Patch, Be16, RawBytes;
    var r' := r.(three := r.three[k := x]);
    SplitThree(pre, r, post, k);
    SplitThree(pre, r', post, k);
    var a := pre + Header(r, true) + Flags(r) + r.first + r.three[..k];
    var b := r.three[k + 1..] + r.four + [0, 0] + post;
    assert r'.three[..k] == r.three[..k] && r'.three[k + 1..] == r.three[k + 1..];
    PatchMiddle(a, [r.three[k]], b, [x]);
  }

  lemma PatchFour(pre: seq<byte>, r: Raw, post: seq<byte>, k: nat, x: byte)
    requires k < |r.four|
    ensures Patch(pre + RawBytes(r, true) + post, |pre| + 6 + |r.first| + |r.three| + k, [x]) ==
            pre + RawBytes(r.(four := r.four[k := x]), true) + post
    ensures (pre + RawBytes(r, true) + post)[|pre| + 6 + |r.first| + |r.three| + k] == r.four[k]
  {
    hide Patch, Be16, RawBytes;
    var r' := r.(four := r.four[k := x]);
    SplitFour(pre, r, post, k);
    SplitFour(pre, r', post, k);
    var a := pre + Header(r, true) + Flags(r) + r.first + r.three + r.four[..k];
    var b := r.four[k + 1..] + [0, 0] + post;
    assert r'.four[..k] == r.four[..k] && r'.four[k + 1..] == r.four[k + 1..];
    PatchMiddle(a, [r.four[k]], b, [x]);
  }

  lemma PatchCount(pre: seq<byte>, r: Raw, post: seq<byte>, x: byte)
    ensures Patch(pre + RawBytes(r, true) + post, |pre| + 5, [x]) == pre + RawBytes(r.(count := x), true) + post
  {
    hide Patch, Header;
    var flag: byte := if r.leaveAll then 32 else 0;
    var a := pre + Header(r, true) + [flag];
    var b := r.first + r.three + r.four + [0, 0] + post;
    AroundCount(pre, Header(r, true), flag, r.count, r.first, r.three, r.four, post);
    AroundCount(pre, Header(r, true), flag, x, r.first, r.three, r.four, post);
    assert Header(r.(count := x), true) == Header(r, true) by { SameHeader(r, x); }
    PatchMiddle(a, [r.count], b, [x]);
  }

  lemma SameHeader(r: Raw, x: byte)
    ensures Header(r.(count := x), true) == Header(r, true)
  {
  }

  lemma AroundCount(pre: seq<byte>, h: seq<byte>, f: byte, c: byte, x: seq<byte>, y: seq<byte>, z: seq<byte>, post: seq<byte>)
    ensures pre + (h + ([f, c] + x + y + z + [0, 0])) + post == (pre + h + [f]) + [c] + (x + y + z + [0, 0] + post)
  {
    assert [f, c] + x + y + z + [0, 0] == [f] + [c] + (x + y + z + [0, 0]);
  }

  lemma PatchFirst(pre: seq<byte>, r: Raw, post: seq<byte>, first: seq<byte>)
    requires |first| == |r.first|
    ensures Patch(pre + RawBytes(r, true) + post, |pre| + 6, first) ==
            pre + RawBytes(r.(first := first), true) + post
  {
    hide Patch, Be16;
    var a := pre + Header(r, true) + Flags(r);
    var b := r.three + r.four + [0, 0] + post;
    assert pre + RawBytes(r, true) + post == a + r.first + b;
    assert pre + RawBytes(r.(first := first), true) + post == a + first + b;
    PatchMiddle(a, r.first, b, first);
  }

  /** The fields the encoder reads back from a message in the buffer. */
  lemma ReadFields(pre: seq<byte>, r: Raw, post: seq<byte>)
    requires ListLen(r) < 0x10000
    ensures var s := pre + RawBytes(r, true) + post; var at := |pre|;
            && |s| == at + 4 + ListLen(r) + |post|
            && s[at] == TypeCode(r.attr)
            && s[at + 2] as int * 256 + s[at + 3] == ListLen(r)
            && s[at + 5] == r.count
            && s[at + 6..at + 6 + |r.first|] == r.first
  {
    hide Be16, Header, TypeCode;
    Be16RoundTrip(ListLen(r));
    var h := Header(r, true);
    HeaderIs(r);
    AroundCount(pre, h, if r.leaveAll then 32 else 0, r.count, r.first, r.three, r.four, post);
    FieldsAt(pre, h, if r.leaveAll then 32 else 0, r.count, r.first, r.three + r.four + [0, 0] + post);
    assert r.first + (r.three + r.four + [0, 0] + post) == r.first + r.three + r.four + [0, 0] + post;
  }

  lemma HeaderIs(r: Raw)
    ensures var h := Header(r, true); h[0] == TypeCode(r.attr) && [h[2], h[3]] == Be16(ListLen(r))
  {
  }

  lemma FieldsAt(pre: seq<byte>, h: seq<byte>, f: byte, c: byte, x: seq<byte>, rest: seq<byte>)
    requires |h| == 4
    ensures var s := (pre + h + [f]) + [c] + (x + rest); var at := |pre|;
            && s[at] == h[0] && s[at + 2] == h[2] && s[at + 3] == h[3] && s[at + 5] == c
            && s[at + 6..at + 6 + |x|] == x
  {
  }

  /** The fields of a message before and after a merge. */
  lemma MergeRaw(m: Message, d: Decl, e: Three, domainVid: u16)
    requires WellFormed(m) && |m.events| < 255 && m.attr == DeclType(d)
    ensures RawOf(m) == Raw(m.attr, m.leaveAll, |m.events|, m.first, ThreePacked(m.events),
                            if d.ListenerDecl? then FourPacked(m.events) else [])
    ensures |Merge(m, d, e, domainVid).events| < 256
    ensures var evs := m.events + [Event(e, DeclFour(d))];
            RawOf(Merge(m, d, e, domainVid)) ==
            Raw(m.attr, m.leaveAll, |m.events| + 1, if m.events == [] then FirstValue(d, domainVid) else m.first,
                ThreePacked(evs), if d.ListenerDecl? then FourPacked(evs) else [])
  {
    hide ThreePacked, FourPacked, FirstValue;
  }

  lemma AddThreeInPlace(packed: seq<byte>, n: nat, e: Three)
    requires |packed| == (n + 2) / 3
    requires n % 3 != 0 ==> packed[n / 3] + e * Weight3(n % 3) < 256
    ensures var room := if n % 3 == 0 then packed + [0] else packed;
            |room| == n / 3 + 1 && room[n / 3 := room[n / 3] + e * Weight3(n % 3)] == AddThree(packed, n, e)
  {
  }

  lemma AddFourInPlace(packed: seq<byte>, n: nat, e: Four)
    requires |packed| == (n + 3) / 4
    requires n % 4 != 0 ==> packed[n / 4] + e * Weight4(n % 4) < 256
    ensures var room := if n % 4 == 0 then packed + [0] else packed;
            |room| == n / 4 + 1 && room[n / 4 := room[n / 4] + e * Weight4(n % 4)] == AddFour(packed, n, e)
  {
  }

  // ----- the send buffer

  /** `encode_three_packed` */
  method EncodePacked3(event: Three, i: nat, vector: byte) returns (r: int)
    requires i < 3
    ensures r == vector + event * Weight3(i)
  {
    var e: int := event;
    var j := 0;
    while j < 2 - i
      invariant 0 <= j <= 2 - i
      invariant e == event * (if j == 0 then 1 else if j == 1 then 6 else 36)
    {
      e := e * 6;
      j := j + 1;
    }
    r := vector + e;
  }

  /** `encode_four_packed` */
  method EncodePacked4(event: Four, i: nat, vector: byte) returns (r: int)
    requires i < 4
    ensures r == vector + event * Weight4(i)
  {
    var e: int := event;
    var j := 0;
    while j < 3 - i
      invariant 0 <= j <= 3 - i
      invariant e == event * (if j == 0 then 1 else if j == 1 then 4 else if j == 2 then 16 else 64)
    {
      e := e * 4;
      j := j + 1;
    }
    r := vector + e;
  }

  function InitialByte(p: Protocol, i: nat): byte {
    if i == 12 then EtherType(p) / 256 else if i == 13 then EtherType(p) % 256 else 0
  }

  class SendBuffer {
    const buf: array<byte>
    var sendPtr: nat
    var protocol: Protocol
    var domainVid: u16
    var sent: seq<seq<byte>>
    ghost var msgs: seq<Message>

    /** The part of the buffer that is in use. */
    ghost function Used(): seq<byte>
      requires sendPtr <= buf.Length
      reads this, buf
    {
      buf[..sendPtr]
    }

    lemma UsedSlice(i: nat, j: nat)
      requires i <= j <= sendPtr <= buf.Length
      ensures buf[i..j] == Used()[i..j]
    {
    }

    /** `memmove` of the bytes from `at` on by one place. */
    method MoveUp(at: nat)
      requires at <= sendPtr < buf.Length
      modifies buf
      ensures forall i | 0 <= i < at :: buf[i] == old(buf[i])
      ensures forall i | at < i <= sendPtr :: buf[i] == old(buf[i - 1])
    {
      var k := sendPtr;
      while k > at
        invariant at <= k <= sendPtr
        invariant forall i | 0 <= i < k :: buf[i] == old(buf[i])
        invariant forall i | k < i <= sendPtr :: buf[i] == old(buf[i - 1])
      {
        buf[k] := buf[k - 1];
        k := k - 1;
      }
    }

    /** The shift, the store of a zero and the step of the end pointer. */
    method OpenGap(at: nat)
      requires at <= sendPtr < buf.Length
      modifies this`sendPtr, buf
      ensures sendPtr == old(sendPtr) + 1
      ensures Used() == Gap(old(Used()), at)
    {
      MoveUp(at);
      sendPtr := sendPtr + 1;
      buf[at] := 0;
    }

    /** Stores that overwrite bytes already in use. */
    method Store(at: nat, bytes: seq<byte>)
      requires at + |bytes| <= sendPtr <= buf.Length
      modifies buf
      ensures Used() == Patch(old(Used()), at, bytes)
    {
      var k := 0;
      while k < |bytes|
        invariant 0 <= k <= |bytes|
        invariant forall i | 0 <= i < buf.Length :: buf[i] == if at <= i < at + k then bytes[i - at] else old(buf[i])
      {
        buf[at + k] := bytes[k];
        k := k + 1;
      }
      PatchIs(old(Used()), Used(), at, bytes);
    }

    /** The message lies in the used part, between `pre` and `post`. */
    ghost predicate Holds(pre: seq<byte>, r: Raw, post: seq<byte>)
      reads this, buf
    {
      && sendPtr <= buf.Length
      && |r.first| == FirstLen(r.attr) as nat
      && |r.three| <= 86 && |r.four| <= 64
      && Used() == pre + RawBytes(r, true) + post
    }

    /** The shift that makes room for one more vector byte, with the length and end-mark updates. */
    method GrowVector(at: nat, vector: nat, len: nat)
      requires at + 4 <= sendPtr < buf.Length && vector <= sendPtr
      requires 2 <= len < 0x10000 && at + 4 + len <= sendPtr + 1
      modifies this`sendPtr, buf
      ensures sendPtr == old(sendPtr) + 1
      ensures Used() == Grow(old(Used()), at, vector, len)
    {
      hide Patch, Gap;
      OpenGap(vector);
      Store(at + 2, Be16(len));
      Store(at + 4 + len - 2, [0, 0]);
    }

    method RoomForThree(at: nat, n: nat, vector: nat, ghost pre: seq<byte>, ghost r: Raw, ghost post: seq<byte>)
      requires Holds(pre, r, post) && at == |pre| && n == r.count && sendPtr < buf.Length
      requires |r.three| == (r.count + 2) / 3 && vector == at + 6 + |r.first| + n / 3
      modifies this`sendPtr, buf
      ensures sendPtr <= old(sendPtr) + 1
      ensures Holds(pre, if n % 3 == 0 then r.(three := r.three + [0]) else r, post)
    {
      hide Patch, Gap, RawBytes, Grow;
      ReadFields(pre, r, post);
      if n % 3 == 0 {
        GrowThree(pre, r, post);
        GrowVector(at, vector, buf[at + 2] as int * 256 + buf[at + 3] + 1);
      }
    }

    method BumpThree(vector: nat, k: nat, event: Three, i: nat, ghost pre: seq<byte>, ghost r: Raw, ghost post: seq<byte>)
      requires Holds(pre, r, post) && k < |r.three| && i < 3
      requires vector == |pre| + 6 + |r.first| + k && r.three[k] + event * Weight3(i) < 256
      modifies buf
      ensures Holds(pre, r.(three := r.three[k := r.three[k] + event * Weight3(i)]), post)
    {
      hide Patch, RawBytes;
      ReadFields(pre, r, post);
      PatchThree(pre, r, post, k, r.three[k] + event * Weight3(i));
      assert buf[vector] == Used()[vector];
      var packed := EncodePacked3(event, i, buf[vector]);
      Store(vector, [packed]);
    }

    /** `mrp_encode_three_packed_event` on the message at `at`. */
    method EncodeThree(at: nat, event: Three, attr: AttrType, ghost pre: seq<byte>, ghost r: Raw, ghost post: seq<byte>)
      requires Holds(pre, r, post) && at == |pre| && r.attr == attr && sendPtr < buf.Length
      requires |r.three| == (r.count + 2) / 3
      requires r.count % 3 != 0 ==> r.three[r.count / 3] + event * Weight3(r.count % 3) < 256
      modifies this`sendPtr, buf
      ensures sendPtr <= old(sendPtr) + 1
      ensures Holds(pre, r.(three := AddThree(r.three, r.count, event)), post)
    {
      hide Patch, RawBytes, AddThree;
      ReadFields(pre, r, post);
      AddThreeInPlace(r.three, r.count, event);
      var n := buf[at + 5] as nat;
      var vector := at + 6 + FirstLen(attr) + n / 3;
      RoomForThree(at, n, vector, pre, r, post);
      BumpThree(vector, n / 3, event, n % 3, pre,
              if n % 3 == 0 then r.(three := r.three + [0]) else r, post);
    }

    method RoomForFour(at: nat, n: nat, vector: nat, ghost pre: seq<byte>, ghost r: Raw, ghost post: seq<byte>)
      requires Holds(pre, r, post) && at == |pre| && n == r.count && sendPtr < buf.Length
      requires |r.three| == (r.count + 3) / 3 && |r.four| == (r.count + 3) / 4 && vector == at + 6 + |r.first| + |r.three| + n / 4
      modifies this`sendPtr, buf
      ensures sendPtr <= old(sendPtr) + 1
      ensures Holds(pre, if n % 4 == 0 then r.(four := r.four + [0]) else r, post)
    {
      hide Patch, Gap, RawBytes, Grow;
      ReadFields(pre, r, post);
      if n % 4 == 0 {
        GrowFour(pre, r, post);
        GrowVector(at, vector, buf[at + 2] as int * 256 + buf[at + 3] + 1);
      }
    }

    method BumpFour(vector: nat, k: nat, event: Four, i: nat, ghost pre: seq<byte>, ghost r: Raw, ghost post: seq<byte>)
      requires Holds(pre, r, post) && k < |r.four| && i < 4
      requires vector == |pre| + 6 + |r.first| + |r.three| + k && r.four[k] + event * Weight4(i) < 256
      modifies buf
      ensures Holds(pre, r.(four := r.four[k := r.four[k] + event * Weight4(i)]), post)
    {
      hide Patch, RawBytes;
      ReadFields(pre, r, post);
      PatchFour(pre, r, post, k, r.four[k] + event * Weight4(i));
      assert buf[vector] == Used()[vector];
      var packed := EncodePacked4(event, i, buf[vector]);
      Store(vector, [packed]);
    }

    /** `mrp_encode_four_packed_event`; the three-packed byte of the new value is already in place. */
    method EncodeFour(at: nat, event: Four, attr: AttrType, ghost pre: seq<byte>, ghost r: Raw, ghost post: seq<byte>)
      requires Holds(pre, r, post) && at == |pre| && r.attr == attr && sendPtr < buf.Length
      requires |r.three| == (r.count + 3) / 3 && |r.four| == (r.count + 3) / 4
      requires r.count % 4 != 0 ==> r.four[r.count / 4] + event * Weight4(r.count % 4) < 256
      modifies this`sendPtr, buf
      ensures sendPtr <= old(sendPtr) + 1
      ensures Holds(pre, r.(four := AddFour(r.four, r.count, event)), post)
    {
      hide Patch, RawBytes, AddFour;
      ReadFields(pre, r, post);
      AddFourInPlace(r.four, r.count, event);
      var n := buf[at + 5] as nat;
      var vector := at + 6 + FirstLen(attr) + (n + 3) / 3 + n / 4;
      RoomForFour(at, n, vector, pre, r, post);
      BumpFour(vector, n / 4, event, n % 4, pre,
              if n % 4 == 0 then r.(four := r.four + [0]) else r, post);
    }

    /** The byte loops of the first-value checks. */
    method ReadBe(at: nat, n: nat) returns (v: nat)
      requires at + n <= buf.Length
      ensures v == BeNat(buf[at..at + n])
    {
      v := 0;
      var i := 0;
      while i < n
        invariant 0 <= i <= n
        invariant v == BeNat(buf[at..at + i])
      {
        v := v * 256 + buf[at + i];
        i := i + 1;
        assert buf[at..at + i][..i - 1] == buf[at..at + i - 1];
      }
    }

    /** `check_talker_firstvalue_merge` */
    method CheckTalkerMerge(fv: nat, n: nat, d: Decl) returns (merge: bool)
      requires d.TalkerDecl? && fv + FirstLen(DeclType(d)) <= sendPtr <= buf.Length
      ensures merge == ContinuesVector(buf[fv..fv + FirstLen(DeclType(d))], n, d)
    {
      hide BeNat;
      var mac := ReadBe(fv + 8, 6);
      var id := ReadBe(fv, 8);
      var vlan := ReadBe(fv + 14, 2);
      var frameSize := ReadBe(fv + 16, 2);
      SubSlice(buf[..], fv, 0, 8, FirstLen(DeclType(d)));
      SubSlice(buf[..], fv, 8, 14, FirstLen(DeclType(d)));
      SubSlice(buf[..], fv, 14, 16, FirstLen(DeclType(d)));
      SubSlice(buf[..], fv, 16, 18, FirstLen(DeclType(d)));
      merge := mac + n == d.info.mac && (id + n) % TWO64 == d.info.id && vlan == d.info.vlan && frameSize == d.info.maxFrame;
    }

    /** `check_listener_firstvalue_merge` */
    method CheckListenerMerge(fv: nat, n: nat, d: Decl) returns (merge: bool)
      requires d.ListenerDecl? && fv + FirstLen(DeclType(d)) <= sendPtr <= buf.Length
      ensures merge == ContinuesVector(buf[fv..fv + FirstLen(DeclType(d))], n, d)
    {
      hide BeNat;
      var first8 := ReadBe(fv, 8);
      SubSlice(buf[..], fv, 0, 8, FirstLen(DeclType(d)));
      merge := (first8 + n) % TWO64 == d.id;
    }

    /** The check for each attribute type; domain and VLAN values are never merged. */
    method CheckMerge(at: nat, n: nat, d: Decl) returns (merge: bool)
      requires at + 6 + FirstLen(DeclType(d)) <= sendPtr <= buf.Length
      ensures merge == ContinuesVector(buf[at + 6..at + 6 + FirstLen(DeclType(d))], n, d)
    {
      match d
      case TalkerDecl(_, _) =>
        merge := CheckTalkerMerge(at + 6, n, d);
      case ListenerDecl(_, _) =>
        merge := CheckListenerMerge(at + 6, n, d);
      case DomainDecl =>
        merge := false;
      case VidDecl(_) =>
        merge := false;
    }

    /** The common tail of the message encoders: first value if new, packed events, number of values. */
    method AppendValue(at: nat, d: Decl, event: Three, ghost pre: seq<byte>, ghost m: Message, ghost post: seq<byte>)
      requires WellFormed(m) && |m.events| < 255 && m.attr == DeclType(d)
      requires Holds(pre, RawOf(m), post) && at == |pre| && sendPtr + EventBytes(d) <= buf.Length
      modifies this`sendPtr, buf
      ensures sendPtr <= old(sendPtr) + EventBytes(d)
      ensures Holds(pre, RawOf(Merge(m, d, event, domainVid)), post)
    {
      hide RawBytes, RawOf, Merge, ThreePacked, FourPacked, FirstValue, Patch, AddThree, AddFour;
      ghost var r := RawOf(m);
      ghost var e := Event(event, DeclFour(d));
      MergeRaw(m, d, event, domainVid);
      AppendThree(m.events, e);
      ReadFields(pre, r, post);
      var n := buf[at + 5] as nat;
      if n == 0 {
        StoreFirst(at, FirstValue(d, domainVid), pre, r, post);
        r := r.(first := FirstValue(d, domainVid));
      }
      EncodeThree(at, event, DeclType(d), pre, r, post);
      r := r.(three := ThreePacked(m.events + [e]));
      if d.ListenerDecl? {
        AppendFour(m.events, e);
        EncodeFour(at, DeclFour(d), Listener, pre, r, post);
        r := r.(four := FourPacked(m.events + [e]));
      }
      StoreCount(at, n + 1, pre, r, post);
    }

    method StoreFirst(at: nat, first: seq<byte>, ghost pre: seq<byte>, ghost r: Raw, ghost post: seq<byte>)
      requires Holds(pre, r, post) && at == |pre| && |first| == |r.first|
      modifies buf
      ensures Holds(pre, r.(first := first), post)
    {
      hide RawBytes, Patch;
      ReadFields(pre, r, post);
      PatchFirst(pre, r, post, first);
      Store(at + 6, first);
    }

    method StoreCount(at: nat, n: byte, ghost pre: seq<byte>, ghost r: Raw, ghost post: seq<byte>)
      requires Holds(pre, r, post) && at == |pre|
      modifies buf
      ensures Holds(pre, r.(count := n), post)
    {
      hide RawBytes, Patch;
      ReadFields(pre, r, post);
      PatchCount(pre, r, post, n);
      Store(at + 5, [n]);
    }

    /**
     One attempt to add a declaration to the message at `at`: `encode_talker_message`,
     `encode_listener_message`, `encode_domain_message` or `avb_mvrp_merge_message`.
     */
    method EncodeMessage(at: nat, d: Decl, event: Three, ghost pre: seq<byte>, ghost m: Message, ghost post: seq<byte>)
      returns (merged: bool)
      requires WellFormed(m) && (CanMerge(m, d) ==> |m.events| < 255) && ProtocolOf(m.attr) == ProtocolOf(DeclType(d))
      requires Holds(pre, RawOf(m), post) && at == |pre| && sendPtr + EventBytes(d) <= buf.Length
      modifies this`sendPtr, buf
      ensures sendPtr <= old(sendPtr) + EventBytes(d)
      ensures merged == CanMerge(m, d)
      ensures Holds(pre, RawOf(if merged then Merge(m, d, event, domainVid) else m), post)
    {
      hide RawBytes, ThreePacked, FourPacked, FirstValue, Merge, ContinuesVector;
      ReadFields(pre, RawOf(m), post);
      if buf[at] != TypeCode(DeclType(d)) {
        return false;
      }
      var n := buf[at + 5];
      if n == 0 {
        merged := true;
      } else {
        UsedSlice(at + 6, at + 6 + |m.first|);
        merged := CheckMerge(at, n, d);
      }
      if merged {
        AppendValue(at, d, event, pre, m, post);
      }
    }

    /** The used part is the frame header followed by the messages, in the format with length fields. */
    ghost predicate Building(head: seq<byte>, ms: seq<Message>)
      reads this, buf
    {
      sendPtr <= buf.Length && |head| == BASE && AllComplete(ms) && Used() == head + PduBytes(ms, true)
    }

    /** The message in position `k`, seen as `Holds` wants it. */
    lemma Focus(head: seq<byte>, ms: seq<Message>, k: nat)
      requires Building(head, ms) && k < |ms|
      ensures AllComplete(ms[..k]) && AllComplete(ms[k + 1..])
      ensures Holds(head + PduBytes(ms[..k], true), RawOf(ms[k]), PduBytes(ms[k + 1..], true))
      ensures |PduBytes(ms[..k + 1], true)| == |PduBytes(ms[..k], true)| + 4 + ListLen(RawOf(ms[k]))
    {
      hide ThreePacked, FourPacked, PduBytes, RawBytes;
      PduSplit(ms, k, true);
      var a, m, b := PduBytes(ms[..k], true), MsgBytes(ms[k], true), PduBytes(ms[k + 1..], true);
      assert head + (a + m + b) == (head + a) + m + b;
      PduStep(ms, k);
    }

    /** The other way: a message put back into its place. */
    lemma Unfocus(head: seq<byte>, ms: seq<Message>, k: nat, m: Message)
      requires |head| == BASE && AllComplete(ms) && k < |ms| && Complete(m)
      requires AllComplete(ms[..k]) && AllComplete(ms[k + 1..])
      requires Holds(head + PduBytes(ms[..k], true), RawOf(m), PduBytes(ms[k + 1..], true))
      ensures Building(head, ms[..k] + [m] + ms[k + 1..])
    {
      hide ThreePacked, FourPacked, PduBytes, RawBytes;
      var out := ms[..k] + [m] + ms[k + 1..];
      PduSplit(out, k, true);
      assert out[..k] == ms[..k] && out[k + 1..] == ms[k + 1..];
      var a, b := PduBytes(ms[..k], true), PduBytes(ms[k + 1..], true);
      assert head + (a + MsgBytes(m, true) + b) == (head + a) + MsgBytes(m, true) + b;
    }

    /** A walk over the messages stops exactly behind the last one. */
    lemma AtEnd(head: seq<byte>, ms: seq<Message>, k: nat)
      requires Building(head, ms) && k <= |ms|
      ensures BASE + |PduBytes(ms[..k], true)| <= sendPtr
      ensures k == |ms| <==> BASE + |PduBytes(ms[..k], true)| == sendPtr
      ensures k < |ms| ==> buf[BASE + |PduBytes(ms[..k], true)|] != 0
    {
      hide PduBytes, RawBytes, RawOf, Header, Body;
      assert ms[..|ms|] == ms;
      if k < |ms| {
        Focus(head, ms, k);
        ReadFields(head + PduBytes(ms[..k], true), RawOf(ms[k]), PduBytes(ms[k + 1..], true));
        assert buf[BASE + |PduBytes(ms[..k], true)|] == Used()[BASE + |PduBytes(ms[..k], true)|];
      }
    }

    /** The search of `doTx` for a message that takes the value. */
    method TryMerge(d: Decl, event: Three, ghost head: seq<byte>) returns (merged: bool, msg: nat)
      requires Building(head, msgs) && RoomFor(msgs, d) && sendPtr + EventBytes(d) <= buf.Length
      requires P.AllOf(msgs, ProtocolOf(DeclType(d)))
      modifies this`sendPtr, buf
      ensures sendPtr <= old(sendPtr) + EventBytes(d)
      ensures merged ==> Building(head, Transmit(msgs, d, event, domainVid))
      ensures !merged ==> Building(head, msgs) && msg == sendPtr == old(sendPtr) && forall j | 0 <= j < |msgs| :: !CanMerge(msgs[j], d)
    {
      hide ContinuesVector, Merge, RawOf, RawBytes, PduBytes, MsgBytes, Transmit;
      merged, msg := false, BASE;
      var end := sendPtr;
      ghost var k := 0;
      EmptyPdu();
      while !merged && msg < end && (buf[msg] != 0 || buf[msg + 1] != 0)
        invariant k <= |msgs| && sendPtr <= old(sendPtr) + EventBytes(d) && end == old(sendPtr)
        invariant !merged ==> Building(head, msgs) && sendPtr == end && msg == BASE + |PduBytes(msgs[..k], true)|
        invariant !merged ==> forall j | 0 <= j < k :: !CanMerge(msgs[j], d)
        invariant merged ==> Building(head, Transmit(msgs, d, event, domainVid))
        decreases !merged, |msgs| - k
      {
        AtEnd(head, msgs, k);
        Focus(head, msgs, k);
        ghost var pre, post := head + PduBytes(msgs[..k], true), PduBytes(msgs[k + 1..], true);
        ReadFields(pre, RawOf(msgs[k]), post);
        var len := buf[msg + 2] as int * 256 + buf[msg + 3];
        merged := EncodeMessage(msg, d, event, pre, msgs[k], post);
        if merged {
          MergeComplete(msgs[k], d, event, domainVid);
          Unfocus(head, msgs, k, Merge(msgs[k], d, event, domainVid));
          TransmitAt(msgs, k, d, event, domainVid);
        } else {
          Unfocus(head, msgs, k, msgs[k]);
          assert msgs[..k] + [msgs[k]] + msgs[k + 1..] == msgs;
        }
        msg := msg + 4 + len;
        k := k + 1;
      }
      if !merged {
        AtEnd(head, msgs, k);
      }
    }

    /** `memset` of the next `n` bytes. */
    method AppendZeros(n: nat)
      requires sendPtr + n <= buf.Length
      modifies this`sendPtr, buf
      ensures sendPtr == old(sendPtr) + n
      ensures Used() == old(Used()) + Zeros(n)
    {
      var at, k := sendPtr, 0;
      while k < n
        invariant 0 <= k <= n
        invariant forall i | 0 <= i < at :: buf[i] == old(buf[i])
        invariant forall i | at <= i < at + k :: buf[i] == 0
        invariant sendPtr == at
      {
        buf[at + k] := 0;
        k := k + 1;
      }
      sendPtr := at + n;
    }

    /** `create_empty_msg`: a message without values behind everything in use. */
    method CreateEmpty(attr: AttrType, leaveAll: bool)
      requires sendPtr + 8 + FirstLen(attr) <= buf.Length
      modifies this`sendPtr, buf
      ensures sendPtr == old(sendPtr) + 8 + FirstLen(attr)
      ensures Used() == old(Used()) + MsgBytes(BlankMessage(attr, leaveAll), true)
    {
      hide Patch;
      var firstLen := FirstLen(attr);
      var len := firstLen + 2 + 2;
      var at := sendPtr;
      ghost var was := Used();
      AppendZeros(4 + len);
      Store(at, [TypeCode(attr), firstLen] + Be16(len));
      Store(at + 4, [if leaveAll then 32 else 0, 0]);
      BlankBytes(was, attr, leaveAll);
    }

    /** The byte loop that closes a two-byte hole at `from`. */
    method CloseHole(from: nat, end: nat)
      requires from + 2 <= end <= buf.Length
      modifies buf
      ensures buf[..end - 2] == old(buf[..end])[..from] + old(buf[..end])[from + 2..]
      ensures forall i | end - 2 <= i < buf.Length :: buf[i] == old(buf[i])
    {
      var c := from;
      while c < end - 2
        invariant from <= c <= end - 2
        invariant forall i | from <= i < c :: buf[i] == old(buf[i + 2])
        invariant forall i | (0 <= i < from || c <= i < buf.Length) :: buf[i] == old(buf[i])
      {
        buf[c] := buf[c + 2];
        c := c + 1;
      }
    }

    /** The strip loop has done k messages: `msg` is where the next begins and `end` where the PDU now ends. */
    ghost predicate Stripping(head: seq<byte>, k: nat, msg: nat, end: nat)
      reads this, buf
    {
      && k <= |msgs| && AllComplete(msgs) && AllComplete(msgs[..k]) && AllComplete(msgs[k..])
      && end + 2 * k == sendPtr <= buf.Length && msg == |head| + |PduBytes(msgs[..k], false)| <= end
      && buf[..end] == head + PduBytes(msgs[..k], false) + PduBytes(msgs[k..], true)
      && forall i | end <= i < sendPtr :: buf[i] == 0
    }

    /** One round of the strip loop. */
    method StripMessage(ghost head: seq<byte>, ghost k: nat, msg: nat, end: nat) returns (next: nat)
      requires Stripping(head, k, msg, end) && k < |msgs|
      modifies buf
      ensures end >= 2 && Stripping(head, k + 1, next, end - 2) && next > msg
    {
      hide PduBytes, MsgBytes, RawOf, ListLen;
      assert |buf[..end]| == end;
      StripNext(head, msgs, k);
      ghost var u := buf[..end];
      next := msg + 4 + (buf[msg + 2] as int * 256 + buf[msg + 3]) - 2;
      CloseHole(msg + 2, end);
      assert u[end - 2] == buf[end - 2] && u[end - 1] == buf[end - 1];
    }

    lemma StripBegins(head: seq<byte>)
      requires Building(head, msgs)
      ensures Stripping(head, 0, BASE, sendPtr)
    {
      hide PduBytes;
      StripStart(head, msgs);
    }

    /** The loop condition tells whether a message is left. */
    lemma StripGoesOn(head: seq<byte>, k: nat, msg: nat, end: nat)
      requires Stripping(head, k, msg, end)
      ensures msg <= end <= buf.Length && k <= |msgs|
      ensures k < |msgs| ==> msg < end && buf[msg] != 0
      ensures k == |msgs| ==> msg == end && buf[..end] == head + PduBytes(msgs, false)
      ensures end + 2 * k == sendPtr && msg >= |head| && forall i | end <= i < sendPtr :: buf[i] == 0
    {
      hide PduBytes;
      StripEnd(head, msgs, k);
      assert |buf[..end]| == end;
      assert k < |msgs| ==> buf[msg] == buf[..end][msg];
    }

    /** `strip_attribute_list_length_fields` */
    method Strip(ghost head: seq<byte>)
      requires Building(head, msgs) && sendPtr < buf.Length
      modifies this`sendPtr, buf
      ensures sendPtr == old(sendPtr) - 2 * |msgs| && BASE <= sendPtr
      ensures Used() == head + PduBytes(msgs, false)
      ensures forall i | sendPtr <= i < old(sendPtr) :: buf[i] == 0
    {
      hide PduBytes, Stripping;
      var msg: nat, end: nat := BASE, sendPtr;
      ghost var k := 0;
      assert |head| == BASE;
      StripBegins(head);
      StripGoesOn(head, k, msg, end);
      while msg < end && (buf[msg] != 0 || buf[msg + 1] != 0)
        invariant Stripping(head, k, msg, end) && sendPtr == old(sendPtr) && msg <= end <= sendPtr
        invariant k < |msgs| ==> msg < end && buf[msg] != 0
        invariant k == |msgs| ==> msg == end
        decreases end - msg
      {
        StripGoesOn(head, k, msg, end);
        msg := StripMessage(head, k, msg, end);
        end := end - 2;
        k := k + 1;
        StripGoesOn(head, k, msg, end);
      }
      StripGoesOn(head, k, msg, end);
      sendPtr := end;
    }

    ghost predicate Valid()
      reads this, buf
    {
      && BASE <= sendPtr <= buf.Length && MIN_FRAME <= buf.Length
      && FrameHead(buf[..BASE], protocol)
      && P.AllOf(msgs, protocol)
      && Building(buf[..BASE], msgs)
    }

    lemma EndIs()
      requires Valid()
      ensures AllComplete(msgs) && sendPtr == Size(msgs) && (msgs == [] ==> sendPtr == BASE)
    {
      hide PduBytes;
      EmptyPdu();
    }

    /** Everything the receivers hear: the frames already sent and the PDU under construction. */
    ghost function Heard(): multiset<Rx>
      requires AllComplete(msgs)
      reads this
    {
      multiset(HeardAll(sent)) + multiset(Meaning(msgs))
    }

    /** A buffer with the static header in place and no message yet. */
    constructor (size: nat, p: Protocol, vid: u16)
      requires MIN_FRAME <= size
      ensures Valid() && fresh(buf) && buf.Length == size
      ensures protocol == p && domainVid == vid && sent == [] && msgs == []
    {
      buf := new byte[size](i => InitialByte(p, i));
      sendPtr, protocol, domainVid, sent, msgs := BASE, p, vid, [], [];
    }

    /** `configure_send_buffer`: the next PDU is for the other protocol. The destination MAC is not modelled. */
    method Configure(p: Protocol)
      requires Valid() && msgs == []
      modifies this`protocol, buf
      ensures Valid() && protocol == p && Heard() == old(Heard())
    {
      buf[12] := EtherType(p) / 256;
      buf[13] := EtherType(p) % 256;
      protocol := p;
    }

    /** The padding loop of `force_send`. */
    method Pad(from: nat, end: nat)
      requires from <= end <= buf.Length
      modifies buf
      ensures forall i | 0 <= i < buf.Length :: buf[i] == if from <= i < end then 0 else old(buf[i])
    {
      var p := from;
      while p < end
        invariant from <= p <= end
        invariant forall i | 0 <= i < buf.Length :: buf[i] == if from <= i < p then 0 else old(buf[i])
      {
        buf[p] := 0;
        p := p + 1;
      }
    }

    /** `force_send`: nothing is lost or added between the buffer and the wire. */
    method ForceSend()
      requires Valid() && sendPtr + 4 <= buf.Length
      modifies this`sendPtr, this`sent, this`msgs, buf
      ensures Valid() && msgs == [] && sendPtr == BASE
      ensures old(msgs) == [] ==> sent == old(sent)
      ensures old(msgs) != [] ==>
                |sent| == |old(sent)| + 1 && sent[..|old(sent)|] == old(sent) && HeardFrame(sent[|old(sent)|]) == old(Meaning(msgs))
      ensures Heard() == old(Heard())
    {
      hide PduBytes, MsgBytes, Meaning, HeardFrame, HeardAll;
      ghost var head := buf[..BASE];
      var ptr := sendPtr;
      EmptyIff(msgs);
      NoMeaning();
      if protocol == Mvrp {
        Strip(head);
      }
      assert buf[..BASE] == Used()[..BASE] == head;
      if ptr != BASE {
        var end := if ptr + 4 < MIN_FRAME then MIN_FRAME else ptr + 4;
        Emit(ptr, end, head);
        HeardAppend(old(sent), sent[|sent| - 1]);
      }
      sendPtr := BASE;
      msgs := [];
      assert head + [] == head;
    }

    /** Padding and the hand-over to the Ethernet; the bytes from the end pointer to `ptr` are zero. */
    method Emit(ptr: nat, end: nat, ghost head: seq<byte>)
      requires FrameHead(head, protocol) && P.AllOf(msgs, protocol)
      requires BASE <= sendPtr <= ptr <= end - 4 && end <= buf.Length
      requires Used() == head + PduBytes(msgs, protocol.Msrp?)
      requires forall i | sendPtr <= i < ptr :: buf[i] == 0
      modifies this`sent, buf
      ensures buf[..BASE] == head
      ensures exists f :: sent == old(sent) + [f] && HeardFrame(f) == Meaning(msgs)
    {
      hide PduBytes, Meaning, HeardFrame;
      ghost var used := Used();
      Pad(ptr, end);
      assert buf[..sendPtr] == used;
      assert buf[sendPtr..end] == Zeros(end - sendPtr);
      assert buf[..end] == buf[..sendPtr] + buf[sendPtr..end];
      FrameHeardHere(head, msgs, protocol, end - sendPtr);
      sent := sent + [buf[..end]];
      assert buf[..BASE] == used[..BASE] == head;
    }

    /** `send`: only a nearly full buffer is put on the wire. */
    method Send()
      requires Valid() && sendPtr + 4 <= buf.Length
      modifies this`sendPtr, this`sent, this`msgs, buf
      ensures Valid() && Heard() == old(Heard())
      ensures if KeepsMargin(old(sendPtr), buf.Length) then sent == old(sent) && msgs == old(msgs) && sendPtr == old(sendPtr)
              else msgs == [] && sendPtr == BASE
    {
      if buf.Length < sendPtr + MARGIN {
        ForceSend();
      }
    }

    lemma BlankHeld(pre: seq<byte>, m: Message)
      requires sendPtr <= buf.Length && WellFormed(m) && m.events == []
      requires Used() == pre + MsgBytes(m, true)
      ensures Holds(pre, RawOf(m), [])
    {
      hide RawBytes;
      assert pre + MsgBytes(m, true) + [] == pre + MsgBytes(m, true);
    }

    lemma NewLast(head: seq<byte>, ms: seq<Message>, m: Message)
      requires |head| == BASE && AllComplete(ms) && Complete(m)
      requires Holds(head + PduBytes(ms, true), RawOf(m), [])
      ensures Building(head, ms + [m])
    {
      hide PduBytes, RawBytes;
      PduConcat(ms, [m], true);
      OneMessage(m);
      var a, b := PduBytes(ms, true), MsgBytes(m, true);
      assert head + (a + b) == (head + a) + b + [];
    }

    /** A new message at the end of the buffer, for a value that no message took. */
    method AddMessage(d: Decl, event: Three, ghost head: seq<byte>)
      requires Building(head, msgs) && sendPtr + 8 + FirstLen(DeclType(d)) + EventBytes(d) <= buf.Length
      modifies this`sendPtr, buf
      ensures sendPtr <= old(sendPtr) + 8 + FirstLen(DeclType(d)) + EventBytes(d)
      ensures Building(head, msgs + [NewMessage(d, event, domainVid)])
    {
      hide PduBytes, MsgBytes, RawBytes, FirstValue;
      var msg := sendPtr;
      ghost var pre := Used();
      CreateEmpty(DeclType(d), false);
      ghost var blank := BlankMessage(DeclType(d), false);
      BlankHeld(pre, blank);
      var merged := EncodeMessage(msg, d, event, pre, blank, []);
      BlankMerged(d, event, domainVid);
      NewLast(head, msgs, NewMessage(d, event, domainVid));
    }

    /** The encoding half of `doTx`: a value more in the PDU, at its place among the messages. */
    method Encode(d: Decl, event: Three)
      requires Valid() && ProtocolOf(DeclType(d)) == protocol && RoomFor(msgs, d) && sendPtr + Need(d) <= buf.Length
      modifies this`sendPtr, this`msgs, buf
      ensures Valid() && sendPtr <= old(sendPtr) + Need(d) - 4 && msgs == Transmit(old(msgs), d, event, domainVid)
      ensures multiset(Meaning(msgs)) ==
              old(multiset(Meaning(msgs))) + multiset{ValueRx(DeclType(d), DeclKey(d, domainVid), event, DeclFour(d))}
    {
      hide PduBytes, MsgBytes, RawBytes, CanMerge, NewMessage, Meaning, Transmit, DeclKey;
      ghost var head := buf[..BASE];
      var merged, msg := TryMerge(d, event, head);
      if !merged {
        TransmitAt(msgs, |msgs|, d, event, domainVid);
        AddMessage(d, event, head);
      }
      HeadKept(head, Transmit(msgs, d, event, domainVid));
      TransmitKeeps(msgs, d, event, domainVid, protocol);
      msgs := Transmit(msgs, d, event, domainVid);
    }

    /** `doTx`: the receivers will hear exactly one more value, the declared one, and all they would have heard before. */
    method DoTx(d: Decl, event: Three)
      requires Valid() && ProtocolOf(DeclType(d)) == protocol && RoomFor(msgs, d) && sendPtr + Need(d) <= buf.Length
      modifies this`sendPtr, this`sent, this`msgs, buf
      ensures Valid()
      ensures Heard() == old(Heard()) + multiset{ValueRx(DeclType(d), DeclKey(d, domainVid), event, DeclFour(d))}
      ensures AllComplete(Transmit(old(msgs), d, event, domainVid))
      ensures if KeepsMargin(Size(Transmit(old(msgs), d, event, domainVid)), buf.Length)
              then sent == old(sent) && msgs == Transmit(old(msgs), d, event, domainVid) else msgs == []
    {
      hide PduBytes, Meaning, Transmit, DeclKey, HeardAll;
      Encode(d, event);
      Send();
    }

    lemma HeadKept(head: seq<byte>, ms: seq<Message>)
      requires Building(head, ms)
      ensures buf[..BASE] == head && BASE <= sendPtr
    {
      hide PduBytes;
      assert Used()[..BASE] == head;
    }

    /** The leave-all message that a leave-all timer puts in front of the declarations. */
    method AddLeaveAll(attr: AttrType)
      requires Valid() && ProtocolOf(attr) == protocol && sendPtr + 12 + FirstLen(attr) <= buf.Length
      modifies this`sendPtr, this`sent, this`msgs, buf
      ensures Valid()
      ensures Heard() == old(Heard()) + multiset{LeaveAllRx(attr)}
      ensures AllComplete(old(msgs) + [BlankMessage(attr, true)])
      ensures msgs == if KeepsMargin(Size(old(msgs) + [BlankMessage(attr, true)]), buf.Length)
                      then old(msgs) + [BlankMessage(attr, true)] else []
    {
      hide PduBytes, MsgBytes, RawBytes, Meaning, HeardAll;
      ghost var head, pre := buf[..BASE], Used();
      ghost var m := BlankMessage(attr, true);
      CreateEmpty(attr, true);
      BlankHeld(pre, m);
      NewLast(head, msgs, m);
      HeadKept(head, msgs + [m]);
      LeaveAllMeaning(msgs, attr);
      msgs := msgs + [m];
      Send();
    }
  }

  lemma OneMessage(m: Message)
    requires Complete(m)
    ensures PduBytes([m], true) == MsgBytes(m, true)
    ensures Meaning([m]) == MsgMeaning(m)
  {
    assert [m][1..] == [];
  }

  lemma LeaveAllMeaning(ms: seq<Message>, attr: AttrType)
    requires AllComplete(ms)
    ensures Complete(BlankMessage(attr, true)) && AllComplete(ms + [BlankMessage(attr, true)])
    ensures multiset(Meaning(ms + [BlankMessage(attr, true)])) == multiset(Meaning(ms)) + multiset{LeaveAllRx(attr)}
  {
    hide Meaning;
    var m := BlankMessage(attr, true);
    MeaningConcat(ms, [m]);
    OneMessage(m);
    assert Values(m) == [];
    assert MsgMeaning(m) == [LeaveAllRx(attr)];
  }

  lemma {:induction false} MeaningConcat(a: seq<Message>, b: seq<Message>)
    requires AllComplete(a) && AllComplete(b)
    ensures AllComplete(a + b) && Meaning(a + b) == Meaning(a) + Meaning(b)
  {
    hide MsgMeaning;
    if a == [] {
      assert a + b == b;
    } else {
      MeaningConcat(a[1..], b);
      assert (a + b)[1..] == a[1..] + b;
    }
  }

  lemma BlankMerged(d: Decl, e: Three, domainVid: u16)
    ensures CanMerge(BlankMessage(DeclType(d), false), d)
    ensures Merge(BlankMessage(DeclType(d), false), d, e, domainVid) == NewMessage(d, e, domainVid)
  {
  }

  /** The transmit invariant of the buffer: completeness and protocol of every message. */
  lemma TransmitKeeps(ms: seq<Message>, d: Decl, e: Three, domainVid: u16, p: Protocol)
    requires P.AllOf(ms, p) && RoomFor(ms, d) && ProtocolOf(DeclType(d)) == p
    ensures P.AllOf(Transmit(ms, d, e, domainVid), p)
    ensures multiset(Meaning(Transmit(ms, d, e, domainVid))) ==
            multiset(Meaning(ms)) + multiset{ValueRx(DeclType(d), DeclKey(d, domainVid), e, DeclFour(d))}
  {
    hide DeclKey, Meaning, FirstValue, ContinuesVector;
    var at := TransmitMeaning(ms, d, e, domainVid);
    assert Meaning(ms) == Meaning(ms)[..at] + Meaning(ms)[at..];
    TransmitTypes(ms, d, e, domainVid);
  }

  lemma {:induction false} TransmitTypes(ms: seq<Message>, d: Decl, e: Three, domainVid: u16)
    requires AllComplete(ms)
    ensures forall i | 0 <= i < |Transmit(ms, d, e, domainVid)| ::
              var a := Transmit(ms, d, e, domainVid)[i].attr; a == DeclType(d) || (i < |ms| && a == ms[i].attr)
  {
    hide DeclKey, FirstValue, ContinuesVector;
    if ms != [] && !CanMerge(ms[0], d) {
      TransmitTypes(ms[1..], d, e, domainVid);
    }
  }

  // ----- a whole run of transmissions into one PDU

  datatype Tx = Tx(decl: Decl, event: Three)

  function TxValue(t: Tx, domainVid: u16): Rx {
    ValueRx(DeclType(t.decl), DeclKey(t.decl, domainVid), t.event, DeclFour(t.decl))
  }

  function TxValues(ts: seq<Tx>, domainVid: u16): multiset<Rx> {
    if ts == [] then multiset{}
    else TxValues(ts[..|ts| - 1], domainVid) + multiset{TxValue(ts[|ts| - 1], domainVid)}
  }

  ghost predicate AllTx(ts: seq<Tx>, p: Protocol) {
    forall i | 0 <= i < |ts| :: ProtocolOf(DeclType(ts[i].decl)) == p
  }

  /** Before every transmission of the run, the vector it joins has room for one more value. */
  ghost predicate VectorsHold(ts: seq<Tx>, domainVid: u16) {
    forall n | 0 <= n < |ts| ::
      AllComplete(TransmitAll(ts[..n], domainVid)) ==> RoomFor(TransmitAll(ts[..n], domainVid), ts[n].decl)
  }

  /** The messages after a run, and what the run guarantees about them. */
  lemma {:induction false} RunOfTransmits(ts: seq<Tx>, domainVid: u16, p: Protocol) returns (ms: seq<Message>)
    requires AllTx(ts, p) && VectorsHold(ts, domainVid)
    ensures P.AllOf(ms, p) && ms == TransmitAll(ts, domainVid)
    ensures multiset(Meaning(ms)) == TxValues(ts, domainVid)
    decreases |ts|
  {
    hide Meaning, TxValue, RoomFor;
    if ts == [] {
      ms := [];
      NoMeaning();
    } else {
      var n := |ts| - 1;
      assert VectorsHold(ts[..n], domainVid) by { VectorsHeld(ts, domainVid); }
      var before := RunOfTransmits(ts[..n], domainVid, p);
      ms := Transmit(before, ts[n].decl, ts[n].event, domainVid);
      TransmitKeeps(before, ts[n].decl, ts[n].event, domainVid, p);
      TxValueIs(ts[n], domainVid);
    }
  }

  lemma VectorsHeld(ts: seq<Tx>, domainVid: u16)
    requires VectorsHold(ts, domainVid) && ts != []
    ensures VectorsHold(ts[..|ts| - 1], domainVid)
  {
    hide TransmitAll, RoomFor;
    var us := ts[..|ts| - 1];
    forall n | 0 <= n < |us|
      ensures AllComplete(TransmitAll(us[..n], domainVid)) ==> RoomFor(TransmitAll(us[..n], domainVid), us[n].decl)
    {
      assert us[..n] == ts[..n] && us[n] == ts[n];
    }
  }

  lemma TxValueIs(t: Tx, domainVid: u16)
    ensures TxValue(t, domainVid) ==
            ValueRx(DeclType(t.decl), DeclKey(t.decl, domainVid), t.event, DeclFour(t.decl))
  {
  }

  ghost function TransmitAll(ts: seq<Tx>, domainVid: u16): seq<Message> {
    if ts == [] then []
    else
      var before := TransmitAll(ts[..|ts| - 1], domainVid);
      if AllComplete(before) then Transmit(before, ts[|ts| - 1].decl, ts[|ts| - 1].event, domainVid) else before
  }

  /** Runs of fewer than 256 transmissions hold in any case. */
  lemma ShortRunsHold(ts: seq<Tx>, domainVid: u16)
    requires |ts| < 256
    ensures VectorsHold(ts, domainVid)
  {
    hide TransmitAll, RoomFor;
    forall n | 0 <= n < |ts|
      ensures AllComplete(TransmitAll(ts[..n], domainVid)) ==> RoomFor(TransmitAll(ts[..n], domainVid), ts[n].decl)
    {
      RunCounts(ts[..n], domainVid);
      if AllComplete(TransmitAll(ts[..n], domainVid)) {
        ShortVectors(TransmitAll(ts[..n], domainVid), ts[n].decl);
      }
    }
  }

  lemma ShortVectors(ms: seq<Message>, d: Decl)
    requires AllComplete(ms) && forall i | 0 <= i < |ms| :: |ms[i].events| < 255
    ensures RoomFor(ms, d)
  {
  }

  lemma {:induction false} RunCounts(ts: seq<Tx>, domainVid: u16)
    ensures forall i | 0 <= i < |TransmitAll(ts, domainVid)| :: |TransmitAll(ts, domainVid)[i].events| <= |ts|
    decreases |ts|
  {
    if ts != [] {
      var n := |ts| - 1;
      RunCounts(ts[..n], domainVid);
      var before := TransmitAll(ts[..n], domainVid);
      if AllComplete(before) {
        TransmitCounts(before, ts[n].decl, ts[n].event, domainVid, n);
      }
    }
  }

  lemma {:induction false} TransmitCounts(ms: seq<Message>, d: Decl, e: Three, domainVid: u16, n: nat)
    requires AllComplete(ms) && forall i | 0 <= i < |ms| :: |ms[i].events| <= n
    ensures forall i | 0 <= i < |Transmit(ms, d, e, domainVid)| :: |Transmit(ms, d, e, domainVid)[i].events| <= n + 1
  {
    hide FirstValue, ContinuesVector;
    if ms != [] && !CanMerge(ms[0], d) {
      TransmitCounts(ms[1..], d, e, domainVid, n);
    }
  }

  /**
   PDU round trip: whatever declarations of one protocol are transmitted into a PDU, in whatever
   order they merge, the receiver of the frame hears exactly those values and nothing else.
   */
  lemma PduRoundTrip(ts: seq<Tx>, domainVid: u16, p: Protocol, head: seq<byte>, z: nat, tail: seq<byte>)
    requires AllTx(ts, p) && VectorsHold(ts, domainVid) && FrameHead(head, p) && z >= 2 && |tail| >= P.SLACK
    ensures P.AllOf(TransmitAll(ts, domainVid), p)
    ensures var f := head + PduBytes(TransmitAll(ts, domainVid), p.Msrp?) + Zeros(z);
            multiset(P.Parse(f[14..] + tail, |f| - 14, EtherProtocol(f))) == TxValues(ts, domainVid)
  {
    hide Meaning, TxValues, TransmitAll, PduBytes, P.Parse, VectorsHold;
    var ms := RunOfTransmits(ts, domainVid, p);
    FrameHeard(head, ms, p, z, tail);
  }

  ghost predicate FrameHead(head: seq<byte>, p: Protocol) {
    |head| == BASE && head[14] == 0 && [head[12], head[13]] == Be16(EtherType(p))
  }

  /** What a receiver gets out of a frame; its buffer goes on behind the frame. */
  ghost function HeardFrame(f: seq<byte>): seq<Rx> {
    if |f| < BASE then [] else P.Parse(f[14..] + Zeros(P.SLACK), |f| - 14, EtherProtocol(f))
  }

  ghost function HeardAll(frames: seq<seq<byte>>): seq<Rx> {
    if frames == [] then [] else HeardAll(frames[..|frames| - 1]) + HeardFrame(frames[|frames| - 1])
  }

  lemma HeardAppend(frames: seq<seq<byte>>, f: seq<byte>)
    ensures HeardAll(frames + [f]) == HeardAll(frames) + HeardFrame(f)
  {
    hide HeardFrame;
    assert (frames + [f])[..|frames|] == frames;
  }

  lemma NoMeaning()
    ensures Meaning([]) == [] && PduBytes([], true) == []
  {
  }

  lemma EmptyIff(ms: seq<Message>)
    requires AllComplete(ms)
    ensures |PduBytes(ms, true)| == 0 <==> ms == []
    ensures ms == [] ==> Meaning(ms) == []
  {
    hide ThreePacked, FourPacked;
  }

  /**
   A frame made of a valid header, a PDU in the format of its protocol and zero padding is heard
   as the meaning of its messages, whatever lies behind it in the receive buffer.
   */
  lemma FrameHeard(head: seq<byte>, ms: seq<Message>, p: Protocol, z: nat, tail: seq<byte>)
    requires FrameHead(head, p) && P.AllOf(ms, p) && z >= 2 && |tail| >= P.SLACK
    ensures var f := head + PduBytes(ms, p.Msrp?) + Zeros(z);
            P.Parse(f[14..] + tail, |f| - 14, EtherProtocol(f)) == Meaning(ms)
  {
    hide PduBytes, Meaning, P.ScanMessages;
    var pdu := PduBytes(ms, p.Msrp?);
    var f := head + pdu + Zeros(z);
    FrameBytes(head, pdu, z, tail);
    P.ScanReadsPdu(f[14..] + tail, 1, |f| - 14, ms, p);
  }

  lemma FrameBytes(head: seq<byte>, pdu: seq<byte>, z: nat, tail: seq<byte>)
    requires |head| == BASE && z >= 2
    ensures var f := head + pdu + Zeros(z); var buf := f[14..] + tail;
            && f[12] == head[12] && f[13] == head[13]
            && |buf| == 1 + |pdu| + z + |tail|
            && buf[0] == head[14]
            && P.At(buf, 1, pdu)
            && buf[1 + |pdu|] == 0 && buf[2 + |pdu|] == 0
  {
    var f := head + pdu + Zeros(z);
    assert f[14..] == [head[14]] + pdu + Zeros(z);
    var buf := f[14..] + tail;
    assert buf == [head[14]] + pdu + (Zeros(z) + tail);
  }

  lemma FrameHeardHere(head: seq<byte>, ms: seq<Message>, p: Protocol, z: nat)
    requires FrameHead(head, p) && P.AllOf(ms, p) && z >= 2
    ensures HeardFrame(head + PduBytes(ms, p.Msrp?) + Zeros(z)) == Meaning(ms)
  {
    hide PduBytes, Meaning;
    FrameHeard(head, ms, p, z, Zeros(P.SLACK));
  }

  lemma StripStart(head: seq<byte>, ms: seq<Message>)
    requires AllComplete(ms)
    ensures ms[0..] == ms && ms[..0] == [] && PduBytes(ms[..0], false) == []
    ensures head + PduBytes(ms, true) == head + PduBytes(ms[..0], false) + PduBytes(ms[0..], true)
  {
  }

  /** One round of the strip loop, on the bytes. */
  lemma StripOne(a: seq<byte>, r: Raw, post: seq<byte>)
    ensures var u := a + RawBytes(r, true) + post;
            |u| == |a| + 4 + ListLen(r) + |post| && u[..|a| + 2] + u[|a| + 4..] == a + RawBytes(r, false) + post
  {
    hide Be16, Body, TypeCode, FirstLen;
    CutTwo(a, Codes(r), Be16(ListLen(r)), Body(r), post);
    assert RawBytes(r, true) == Codes(r) + Be16(ListLen(r)) + Body(r);
    assert RawBytes(r, false) == Codes(r) + Body(r);
  }

  lemma CutTwo(a: seq<byte>, b: seq<byte>, c: seq<byte>, d: seq<byte>, post: seq<byte>)
    ensures var u := a + (b + c + d) + post; u[..|a| + |b|] + u[|a| + |b| + |c|..] == a + (b + d) + post
  {
    var u := a + (b + c + d) + post;
    assert u[..|a| + |b|] == a + b;
    assert u[|a| + |b| + |c|..] == d + post;
  }

  lemma StripNext(head: seq<byte>, ms: seq<Message>, k: nat)
    requires AllComplete(ms) && k < |ms|
    ensures AllComplete(ms[..k]) && AllComplete(ms[k..]) && AllComplete(ms[..k + 1]) && AllComplete(ms[k + 1..])
    ensures var msg := |head| + |PduBytes(ms[..k], false)|;
            var u := head + PduBytes(ms[..k], false) + PduBytes(ms[k..], true);
            && |u| >= msg + 8
            && u[msg] != 0
            && u[msg + 2] as int * 256 + u[msg + 3] == ListLen(RawOf(ms[k]))
            && u[|u| - 2] == 0 && u[|u| - 1] == 0
            && u[..msg + 2] + u[msg + 4..] == head + PduBytes(ms[..k + 1], false) + PduBytes(ms[k + 1..], true)
            && |PduBytes(ms[..k + 1], false)| == |PduBytes(ms[..k], false)| + 2 + ListLen(RawOf(ms[k]))
  {
    hide ThreePacked, FourPacked, PduBytes, RawBytes;
    var r := RawOf(ms[k]);
    var a := head + PduBytes(ms[..k], false);
    var post := PduBytes(ms[k + 1..], true);
    PduSplit(ms[k..], 0, true);
    EmptyPdu();
    assert ms[k..][..0] == [] && ms[k..][1..] == ms[k + 1..];
    assert a + PduBytes(ms[k..], true) == a + RawBytes(r, true) + post;
    StripOne(a, r, post);
    ReadFields(a, r, post);
    PduTail(ms[k..]);
    PduSplit(ms[..k + 1], k, false);
    assert ms[..k + 1][..k] == ms[..k] && ms[..k + 1][k + 1..] == [];
    EmptyPdu();
    RawLength(r);
    assert a + RawBytes(r, false) == head + PduBytes(ms[..k + 1], false);
  }

  lemma RawLength(r: Raw)
    ensures |RawBytes(r, false)| == 2 + ListLen(r)
  {
  }

  lemma {:induction false} PduTail(ms: seq<Message>)
    requires AllComplete(ms) && ms != []
    ensures var s := PduBytes(ms, true); |s| >= 2 && s[|s| - 2] == 0 && s[|s| - 1] == 0
  {
    hide ThreePacked, FourPacked, Header;
    if |ms| == 1 {
      assert ms[1..] == [];
    } else {
      PduTail(ms[1..]);
    }
  }

  lemma StripEnd(head: seq<byte>, ms: seq<Message>, k: nat)
    requires AllComplete(ms) && k <= |ms|
    ensures AllComplete(ms[..k]) && AllComplete(ms[k..])
    ensures ms[..|ms|] == ms
    ensures k == |ms| ==> PduBytes(ms[k..], true) == []
    ensures k < |ms| ==> var u := head + PduBytes(ms[..k], false) + PduBytes(ms[k..], true);
                         |u| > |head| + |PduBytes(ms[..k], false)| && u[|head| + |PduBytes(ms[..k], false)|] != 0
  {
    if k < |ms| {
      StripNext(head, ms, k);
    }
  }

  function Zeros(n: nat): (s: seq<byte>)
    ensures |s| == n
  {
    seq(n, _ => 0)
  }

  lemma BlankBytes(was: seq<byte>, attr: AttrType, leaveAll: bool)
    ensures var len := FirstLen(attr) + 4;
            Patch(Patch(was + Zeros(4 + len), |was|, [TypeCode(attr), FirstLen(attr)] + Be16(len)), |was| + 4,
                  [if leaveAll then 32 else 0, 0]) ==
            was + MsgBytes(BlankMessage(attr, leaveAll), true)
  {
    hide Be16, Patch, MsgBytes, TypeCode;
    var len := FirstLen(attr) + 4;
    var head: seq<byte> := [TypeCode(attr), FirstLen(attr)] + Be16(len);
    var flags: seq<byte> := [if leaveAll then 32 else 0, 0];
    PatchTwice(was, head, flags, len);
    BlankIs(attr, leaveAll);
    assert was + (head + flags + Zeros(len - 2)) == (was + head) + flags + Zeros(len - 2);
  }

  lemma PatchTwice(was: seq<byte>, head: seq<byte>, flags: seq<byte>, len: nat)
    requires |head| == 4 && |flags| == 2 <= len
    ensures Patch(Patch(was + Zeros(4 + len), |was|, head), |was| + 4, flags) == (was + head) + flags + Zeros(len - 2)
  {
    hide Patch;
    assert was + Zeros(4 + len) == was + Zeros(4) + Zeros(len);
    PatchMiddle(was, Zeros(4), Zeros(len), head);
    assert was + head + Zeros(len) == (was + head) + Zeros(2) + Zeros(len - 2);
    PatchMiddle(was + head, Zeros(2), Zeros(len - 2), flags);
  }

  lemma BlankIs(attr: AttrType, leaveAll: bool)
    ensures var len := FirstLen(attr) + 4; var flags: seq<byte> := [if leaveAll then 32 else 0, 0];
            MsgBytes(BlankMessage(attr, leaveAll), true) ==
            ([TypeCode(attr), FirstLen(attr)] + Be16(len)) + flags + Zeros(len - 2)
  {
    hide Be16;
    var m := BlankMessage(attr, leaveAll);
    assert RawOf(m) == Raw(attr, leaveAll, 0, m.first, [], []);
    assert Body(RawOf(m)) == [if leaveAll then 32 else 0, 0] + Zeros(FirstLen(attr) + 2);
  }

  /** An empty message as `create_empty_msg` lays it out. */
  function BlankMessage(attr: AttrType, leaveAll: bool): Message {
    Message(attr, leaveAll, seq(FirstLen(attr), _ => 0), [])
  }

  lemma EmptyPdu()
    ensures PduBytes([], true) == PduBytes([], false) == []
  {
  }

  lemma PduStep(ms: seq<Message>, k: nat)
    requires AllComplete(ms) && k < |ms|
    ensures |PduBytes(ms[..k + 1], true)| == |PduBytes(ms[..k], true)| + 4 + ListLen(RawOf(ms[k]))
  {
    hide ThreePacked, FourPacked;
    assert ms[..k + 1] == ms[..k] + [ms[k]];
    PduConcat(ms[..k], [ms[k]], true);
    assert PduBytes([ms[k]], true) == MsgBytes(ms[k], true);
  }
}
