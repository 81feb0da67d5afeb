/**
 MRP protocol data units: the messages that the transmit side builds (avb_mrp.c, avb_srp.c,
 avb_mvrp.c) as values, their bytes on the wire, and what a transmission adds to them.
 */
module MrpWire {
  import opened Bytes

  datatype Protocol = Msrp | Mvrp

  datatype AttrType = TalkerAdvertise | TalkerFailed | Listener | Domain | VidVector

  type Three = x: int | 0 <= x < 6
  type Four = x: int | 0 <= x < 4

  /** One packed value: its three-packed event and, for listeners only, its four-packed event. */
  datatype Event = Event(three: Three, four: Four)

  /** A message holds one vector: a first value and the events of consecutive values from it. */
  datatype Message = Message(attr: AttrType, leaveAll: bool, first: seq<byte>, events: seq<Event>)

  function ProtocolOf(a: AttrType): Protocol {
    if a.VidVector? then Mvrp else Msrp
  }

  function TypeCode(a: AttrType): byte {
    match a
    case TalkerAdvertise => 1
    case TalkerFailed => 2
    case Listener => 3
    case Domain => 4
    case VidVector => 1
  }

  function DecodeType(p: Protocol, code: byte): Option<AttrType> {
    if p.Mvrp? then
      if code == 1 then Some(VidVector) else None
    else if code == 1 then Some(TalkerAdvertise)
    else if code == 2 then Some(TalkerFailed)
    else if code == 3 then Some(Listener)
    else if code == 4 then Some(Domain)
    else None
  }

  function FirstLen(a: AttrType): byte {
    match a
    case TalkerAdvertise => 25
    case TalkerFailed => 34
    case Listener => 8
    case Domain => 4
    case VidVector => 2
  }

  // ----- packed event vectors

  function ThreeAt(evs: seq<Event>, i: nat): Three {
    if i < |evs| then evs[i].three else 0
  }

  function FourAt(evs: seq<Event>, i: nat): Four {
    if i < |evs| then evs[i].four else 0
  }

  function Pack3(evs: seq<Event>, k: nat): byte {
    36 * ThreeAt(evs, 3 * k) + 6 * ThreeAt(evs, 3 * k + 1) + ThreeAt(evs, 3 * k + 2)
  }

  function Pack4(evs: seq<Event>, k: nat): byte {
    64 * FourAt(evs, 4 * k) + 16 * FourAt(evs, 4 * k + 1) + 4 * FourAt(evs, 4 * k + 2) + FourAt(evs, 4 * k + 3)
  }

  function ThreePacked(evs: seq<Event>): (s: seq<byte>)
    ensures |s| == (|evs| + 2) / 3
  {
    seq((|evs| + 2) / 3, k requires 0 <= k => Pack3(evs, k))
  }

  function FourPacked(evs: seq<Event>): (s: seq<byte>)
    ensures |s| == (|evs| + 3) / 4
  {
    seq((|evs| + 3) / 4, k requires 0 <= k => Pack4(evs, k))
  }

  /** Weight of slot `i` of a three-packed byte: `event *= 6` done `2 - i` times. */
  function Weight3(i: nat): nat
    requires i < 3
  {
    if i == 0 then 36 else if i == 1 then 6 else 1
  }

  function Weight4(i: nat): nat
    requires i < 4
  {
    if i == 0 then 64 else if i == 1 then 16 else if i == 2 then 4 else 1
  }

  function Decode3(b: byte, i: nat): Three
    requires i < 3
  {
    b / Weight3(i) % 6
  }

  function Decode4(b: byte, i: nat): Four
    requires i < 4
  {
    b / Weight4(i) % 4
  }

  /** Unpacking a packed vector gives every event back, and no byte is in the rejected range. */
  lemma UnpackThree(evs: seq<Event>, i: nat)
    requires i < |evs|
    ensures ThreePacked(evs)[i / 3] <= 0xD7
    ensures Decode3(ThreePacked(evs)[i / 3], i % 3) == evs[i].three
  {
    var k := i / 3;
    var a: int, b: int, c: int := ThreeAt(evs, 3 * k), ThreeAt(evs, 3 * k + 1), ThreeAt(evs, 3 * k + 2);
    assert ThreePacked(evs)[k] == 36 * a + 6 * b + c;
    assert (36 * a + 6 * b + c) / 36 == a && (36 * a + 6 * b + c) / 6 == 6 * a + b;
  }

  lemma Digits4(a: Four, b: Four, c: Four, d: Four)
    ensures var v: int := 64 * (a as int) + 16 * (b as int) + 4 * (c as int) + d;
            v / 64 % 4 == a && v / 16 % 4 == b && v / 4 % 4 == c && v % 4 == d
  {
    var v: int := 64 * (a as int) + 16 * (b as int) + 4 * (c as int) + d;
    assert v / 64 == a as int;
    assert v / 16 == 4 * (a as int) + b;
    assert v / 4 == 16 * (a as int) + 4 * (b as int) + c;
  }

  lemma UnpackFour(evs: seq<Event>, i: nat)
    requires i < |evs|
    ensures Decode4(FourPacked(evs)[i / 4], i % 4) == evs[i].four
  {
    var k := i / 4;
    Digits4(FourAt(evs, 4 * k), FourAt(evs, 4 * k + 1), FourAt(evs, 4 * k + 2), FourAt(evs, 4 * k + 3));
  }

  /** What the in-place encoder does to the three-packed bytes of `n` events when another arrives. */
  function AddThree(packed: seq<byte>, n: nat, e: Three): seq<byte>
    requires |packed| == (n + 2) / 3
    requires n % 3 != 0 ==> packed[n / 3] + e * Weight3(n % 3) < 256
  {
    if n % 3 == 0 then packed + [e * 36] else packed[n / 3 := packed[n / 3] + e * Weight3(n % 3)]
  }

  function AddFour(packed: seq<byte>, n: nat, e: Four): seq<byte>
    requires |packed| == (n + 3) / 4
    requires n % 4 != 0 ==> packed[n / 4] + e * Weight4(n % 4) < 256
  {
    if n % 4 == 0 then packed + [e * 64] else packed[n / 4 := packed[n / 4] + e * Weight4(n % 4)]
  }

  lemma AppendThree(evs: seq<Event>, e: Event)
    ensures |evs| % 3 != 0 ==> ThreePacked(evs)[|evs| / 3] + e.three * Weight3(|evs| % 3) < 256
    ensures ThreePacked(evs + [e]) == AddThree(ThreePacked(evs), |evs|, e.three)
  {
    var n, all := |evs|, evs + [e];
    var k := n / 3;
    forall j: nat | j < (n + 3) / 3 && j != k
      ensures Pack3(all, j) == Pack3(evs, j)
    {
    }
    assert n == 3 * k + n % 3;
    assert Pack3(all, k) == Pack3(evs, k) + e.three * Weight3(n % 3);
    if n % 3 == 0 {
      assert Pack3(evs, k) == 0;
    }
  }

  lemma AppendFour(evs: seq<Event>, e: Event)
    ensures |evs| % 4 != 0 ==> FourPacked(evs)[|evs| / 4] + e.four * Weight4(|evs| % 4) < 256
    ensures FourPacked(evs + [e]) == AddFour(FourPacked(evs), |evs|, e.four)
  {
    var n, all := |evs|, evs + [e];
    var k := n / 4;
    forall j: nat | j < (n + 4) / 4 && j != k
      ensures Pack4(all, j) == Pack4(evs, j)
    {
    }
    assert n == 4 * k + n % 4;
    assert Pack4(all, k) == Pack4(evs, k) + e.four * Weight4(n % 4);
    if n % 4 == 0 {
      assert Pack4(evs, k) == 0;
    }
  }

  // ----- bytes of a message

  /** A message as its fields lie in memory, between two edits of the encoder. */
  datatype Raw = Raw(attr: AttrType, leaveAll: bool, count: byte, first: seq<byte>, three: seq<byte>, four: seq<byte>)

  /** AttributeListLength: vector header, first value, both vectors and the end mark. */
  function ListLen(r: Raw): nat {
    4 + |r.first| + |r.three| + |r.four|
  }

  /** Message header; `lengths` says whether the AttributeListLength field is present. */
  function Header(r: Raw, lengths: bool): (s: seq<byte>)
    ensures |s| == if lengths then 4 else 2
  {
    [TypeCode(r.attr), FirstLen(r.attr)] + if lengths then Be16(ListLen(r)) else []
  }

  function Body(r: Raw): (s: seq<byte>)
    ensures |s| == ListLen(r)
  {
    [if r.leaveAll then 32 else 0, r.count] + r.first + r.three + r.four + [0, 0]
  }

  function RawBytes(r: Raw, lengths: bool): seq<byte> {
    Header(r, lengths) + Body(r)
  }

  ghost predicate WellFormed(m: Message) {
    && |m.first| == FirstLen(m.attr) as nat
    && |m.events| < 256
    && (m.attr != Listener ==> forall i | 0 <= i < |m.events| :: m.events[i].four == 0)
  }

  /** A message the parser can tell from an end mark. */
  ghost predicate Complete(m: Message) {
    WellFormed(m) && (m.leaveAll || m.events != [])
  }

  function RawOf(m: Message): Raw
    requires |m.events| < 256
  {
    Raw(m.attr, m.leaveAll, |m.events|, m.first, ThreePacked(m.events),
        if m.attr == Listener then FourPacked(m.events) else [])
  }

  function MsgBytes(m: Message, lengths: bool): seq<byte>
    requires |m.events| < 256
  {
    RawBytes(RawOf(m), lengths)
  }

  ghost predicate AllComplete(ms: seq<Message>) {
    forall i | 0 <= i < |ms| :: Complete(ms[i])
  }

  ghost function PduBytes(ms: seq<Message>, lengths: bool): seq<byte>
    requires AllComplete(ms)
  {
    if ms == [] then [] else MsgBytes(ms[0], lengths) + PduBytes(ms[1..], lengths)
  }

  lemma {:induction false} PduConcat(a: seq<Message>, b: seq<Message>, lengths: bool)
    requires AllComplete(a) && AllComplete(b)
    ensures AllComplete(a + b)
    ensures PduBytes(a + b, lengths) == PduBytes(a, lengths) + PduBytes(b, lengths)
  {
    hide MsgBytes, Complete;
    if a == [] {
      assert a + b == b;
    } else {
      PduConcat(a[1..], b, lengths);
      assert (a + b)[1..] == a[1..] + b;
    }
  }

  /** Splits a PDU at one of its messages. */
  lemma PduSplit(ms: seq<Message>, k: nat, lengths: bool)
    requires AllComplete(ms) && k < |ms|
    ensures PduBytes(ms, lengths) ==
            PduBytes(ms[..k], lengths) + MsgBytes(ms[k], lengths) + PduBytes(ms[k + 1..], lengths)
  {
    hide MsgBytes, Complete;
    assert ms == ms[..k] + ms[k..];
    PduConcat(ms[..k], ms[k..], lengths);
    assert ms[k..][1..] == ms[k + 1..];
  }

  // ----- what a PDU says to its receiver

  datatype Key =
    | Stream(id: nat)
    | Class(cls: byte, priority: byte, vid: nat)
    | Vid(vid: nat)

  datatype Rx =
    | LeaveAllRx(attr: AttrType)
    | ValueRx(attr: AttrType, key: Key, three: Three, four: Four)

  const TWO64: nat := 0x1_0000_0000_0000_0000

  /** The attribute value that position `i` of a vector stands for. */
  function KeyAt(a: AttrType, first: seq<byte>, i: nat): Key
    requires |first| == FirstLen(a) as nat
  {
    match a
    case Domain => Class((first[0] + i) % 256, (first[1] + i) % 256, BeNat(first[2..4]))
    case VidVector => Vid(BeNat(first[..2]) + i)
    case _ => Stream((BeNat(first[..8]) + i) % TWO64)
  }

  function ValueAt(m: Message, i: nat): Rx
    requires |m.first| == FirstLen(m.attr) as nat && i < |m.events|
  {
    ValueRx(m.attr, KeyAt(m.attr, m.first, i), m.events[i].three, m.events[i].four)
  }

  function Values(m: Message): (s: seq<Rx>)
    requires |m.first| == FirstLen(m.attr) as nat
    ensures |s| == |m.events|
  {
    seq(|m.events|, i requires 0 <= i < |m.events| => ValueAt(m, i))
  }

  function LeaveAllPart(m: Message): seq<Rx> {
    if m.leaveAll then [LeaveAllRx(m.attr)] else []
  }

  function MsgMeaning(m: Message): seq<Rx>
    requires |m.first| == FirstLen(m.attr) as nat
  {
    LeaveAllPart(m) + Values(m)
  }

  ghost function Meaning(ms: seq<Message>): seq<Rx>
    requires AllComplete(ms)
  {
    if ms == [] then [] else MsgMeaning(ms[0]) + Meaning(ms[1..])
  }

  // ----- declarations, and what transmitting one does to the PDU under construction

  type u16 = x: int | 0 <= x < 0x10000
  type u48 = x: int | 0 <= x < 0x1_0000_0000_0000
  type u64 = x: int | 0 <= x < 0x1_0000_0000_0000_0000

  datatype Reservation = Reservation(id: u64, mac: u48, vlan: u16, maxFrame: u16, maxInterval: u16,
                                     tspec: byte, latency: u32, bridge: u64, failureCode: byte)

  datatype Decl =
    | TalkerDecl(failed: bool, info: Reservation)
    | ListenerDecl(id: u64, ready: bool)
    | DomainDecl
    | VidDecl(vid: u16)

  function DeclType(d: Decl): AttrType {
    match d
    case TalkerDecl(failed, _) => if failed then TalkerFailed else TalkerAdvertise
    case ListenerDecl(_, _) => Listener
    case DomainDecl => Domain
    case VidDecl(_) => VidVector
  }

  const READY: Four := 2
  const ASKING_FAILED: Four := 1
  const SR_CLASS: byte := 6
  const SR_PRIORITY: byte := 3

  function DeclFour(d: Decl): Four {
    if d.ListenerDecl? then (if d.ready then READY else ASKING_FAILED) else 0
  }

  /** The attribute value a declaration is about, given the VLAN the domain announced. */
  function DeclKey(d: Decl, domainVid: u16): Key {
    match d
    case TalkerDecl(_, r) => Stream(r.id)
    case ListenerDecl(id, _) => Stream(id)
    case DomainDecl => Class(SR_CLASS, SR_PRIORITY, domainVid)
    case VidDecl(v) => Vid(v)
  }

  function TalkerFirst(r: Reservation, domainVid: u16): (s: seq<byte>)
    ensures |s| == 25
  {
    BeBytes(r.id, 8) + BeBytes(r.mac, 6) + BeBytes(if r.vlan != 0 then r.vlan else domainVid, 2) +
    BeBytes(r.maxFrame, 2) + BeBytes(r.maxInterval, 2) + [r.tspec] + BeBytes(r.latency, 4)
  }

  function FirstValue(d: Decl, domainVid: u16): (s: seq<byte>)
    ensures |s| == FirstLen(DeclType(d)) as nat
  {
    match d
    case TalkerDecl(failed, r) =>
      TalkerFirst(r, domainVid) + if failed then BeBytes(r.bridge, 8) + [r.failureCode] else []
    case ListenerDecl(id, _) => BeBytes(id, 8)
    case DomainDecl => [SR_CLASS, SR_PRIORITY] + BeBytes(domainVid, 2)
    case VidDecl(v) => BeBytes(v, 2)
  }

  /** The first-value checks: may the declaration become value number `n` of this vector? */
  predicate ContinuesVector(first: seq<byte>, n: nat, d: Decl)
    requires |first| == FirstLen(DeclType(d)) as nat
  {
    match d
    case TalkerDecl(_, r) =>
      && BeNat(first[8..14]) + n == r.mac
      && (BeNat(first[..8]) + n) % TWO64 == r.id
      && BeNat(first[14..16]) == r.vlan
      && BeNat(first[16..18]) == r.maxFrame
    case ListenerDecl(id, _) => (BeNat(first[..8]) + n) % TWO64 == id
    case DomainDecl => false
    case VidDecl(_) => false
  }

  predicate CanMerge(m: Message, d: Decl)
    requires |m.first| == FirstLen(m.attr) as nat
  {
    m.attr == DeclType(d) && (m.events == [] || ContinuesVector(m.first, |m.events|, d))
  }

  function Merge(m: Message, d: Decl, e: Three, domainVid: u16): Message {
    m.(first := if m.events == [] then FirstValue(d, domainVid) else m.first,
       events := m.events + [Event(e, DeclFour(d))])
  }

  function NewMessage(d: Decl, e: Three, domainVid: u16): Message {
    Message(DeclType(d), false, FirstValue(d, domainVid), [Event(e, DeclFour(d))])
  }

  /** The PDU after `doTx`: the first message that accepts the value takes it, else a new one is added. */
  ghost function Transmit(ms: seq<Message>, d: Decl, e: Three, domainVid: u16): seq<Message>
    requires AllComplete(ms)
  {
    if ms == [] then [NewMessage(d, e, domainVid)]
    else if CanMerge(ms[0], d) then [Merge(ms[0], d, e, domainVid)] + ms[1..]
    else [ms[0]] + Transmit(ms[1..], d, e, domainVid)
  }

  /** A vector that the value may join has fewer than 255 values, so that its count fits a byte. */
  ghost predicate RoomFor(ms: seq<Message>, d: Decl)
    requires AllComplete(ms)
  {
    forall i | 0 <= i < |ms| && CanMerge(ms[i], d) :: |ms[i].events| < 255
  }

  /** Which message a transmission ends up in. */
  lemma {:induction false} TransmitAt(ms: seq<Message>, k: nat, d: Decl, e: Three, domainVid: u16)
    requires AllComplete(ms) && k <= |ms|
    requires forall j | 0 <= j < k :: !CanMerge(ms[j], d)
    requires k < |ms| ==> CanMerge(ms[k], d)
    ensures Transmit(ms, d, e, domainVid) ==
            if k < |ms| then ms[..k] + [Merge(ms[k], d, e, domainVid)] + ms[k + 1..]
            else ms + [NewMessage(d, e, domainVid)]
  {
    hide CanMerge, Merge, NewMessage;
    if k > 0 {
      TransmitAt(ms[1..], k - 1, d, e, domainVid);
      TransmitSkips(ms, d, e, domainVid);
      hide Transmit;
      if k < |ms| {
        Prepended(ms, k, Merge(ms[k], d, e, domainVid));
      } else {
        assert ms + [NewMessage(d, e, domainVid)] == [ms[0]] + (ms[1..] + [NewMessage(d, e, domainVid)]);
      }
    }
  }

  lemma TransmitSkips(ms: seq<Message>, d: Decl, e: Three, domainVid: u16)
    requires AllComplete(ms) && ms != [] && !CanMerge(ms[0], d)
    ensures Transmit(ms, d, e, domainVid) == [ms[0]] + Transmit(ms[1..], d, e, domainVid)
  {
  }

  lemma Prepended(ms: seq<Message>, k: nat, m: Message)
    requires 0 < k < |ms|
    ensures [ms[0]] + (ms[1..][..k - 1] + [m] + ms[1..][k..]) == ms[..k] + [m] + ms[k + 1..]
  {
    assert [ms[0]] + ms[1..][..k - 1] == ms[..k] && ms[1..][k..] == ms[k + 1..];
  }

  lemma MergeComplete(m: Message, d: Decl, e: Three, domainVid: u16)
    requires WellFormed(m) && |m.events| < 255 && m.attr == DeclType(d)
    ensures Complete(Merge(m, d, e, domainVid))
  {
  }

  lemma {:induction false} TransmitComplete(ms: seq<Message>, d: Decl, e: Three, domainVid: u16)
    requires AllComplete(ms) && RoomFor(ms, d)
    ensures AllComplete(Transmit(ms, d, e, domainVid))
  {
    if ms != [] {
      if CanMerge(ms[0], d) {
        MergeComplete(ms[0], d, e, domainVid);
      } else {
        TransmitComplete(ms[1..], d, e, domainVid);
      }
    }
  }

  /** A freshly written first value stands for the declared attribute. */
  lemma FirstValueKey(d: Decl, domainVid: u16)
    ensures KeyAt(DeclType(d), FirstValue(d, domainVid), 0) == DeclKey(d, domainVid)
  {
    hide Pow256, BeNat, BeBytes;
    PowValues();
    var first := FirstValue(d, domainVid);
    match d
    case TalkerDecl(failed, r) =>
      BeRoundTrip(r.id, 8);
      assert first[..8] == BeBytes(r.id, 8);
    case ListenerDecl(id, _) =>
      BeRoundTrip(id, 8);
      assert first[..8] == BeBytes(id, 8);
    case DomainDecl =>
      BeRoundTrip(domainVid, 2);
      assert first[2..4] == BeBytes(domainVid, 2);
    case VidDecl(v) =>
      BeRoundTrip(v, 2);
      assert first[..2] == BeBytes(v, 2);
  }

  /** Merging appends the declared value to the meaning of the message and changes nothing before it. */
  lemma MergeMeaning(m: Message, d: Decl, e: Three, domainVid: u16)
    requires WellFormed(m) && CanMerge(m, d)
    ensures MsgMeaning(Merge(m, d, e, domainVid)) ==
            MsgMeaning(m) + [ValueRx(DeclType(d), DeclKey(d, domainVid), e, DeclFour(d))]
  {
    var m' := Merge(m, d, e, domainVid);
    var n := |m.events|;
    if n == 0 {
      FirstValueKey(d, domainVid);
      assert Values(m') == [ValueAt(m', 0)];
    } else {
      forall i: nat | i < n
        ensures ValueAt(m', i) == ValueAt(m, i)
      {
      }
      assert KeyAt(m.attr, m.first, n) == DeclKey(d, domainVid);
      assert Values(m') == Values(m) + [ValueAt(m', n)];
    }
  }

  lemma NewMessageMeaning(d: Decl, e: Three, domainVid: u16)
    ensures MsgMeaning(NewMessage(d, e, domainVid)) ==
            [ValueRx(DeclType(d), DeclKey(d, domainVid), e, DeclFour(d))]
  {
    var blank := Message(DeclType(d), false, FirstValue(d, domainVid), []);
    assert NewMessage(d, e, domainVid) == Merge(blank, d, e, domainVid);
    MergeMeaning(blank, d, e, domainVid);
    assert MsgMeaning(blank) == [];
  }

  /**
   Every transmission inserts exactly one value, the declared one, into what the PDU means; all
   other entries keep their content and their order, wherever in the buffer the value was merged.
   */
  lemma {:induction false} TransmitMeaning(ms: seq<Message>, d: Decl, e: Three, domainVid: u16) returns (at: nat)
    requires AllComplete(ms) && RoomFor(ms, d)
    ensures AllComplete(Transmit(ms, d, e, domainVid))
    ensures at <= |Meaning(ms)|
    ensures Meaning(Transmit(ms, d, e, domainVid)) ==
            Meaning(ms)[..at] + [ValueRx(DeclType(d), DeclKey(d, domainVid), e, DeclFour(d))] + Meaning(ms)[at..]
  {
    hide MsgMeaning, Merge, NewMessage, CanMerge, DeclKey, FirstValue, Meaning, Transmit, RoomFor;
    TransmitComplete(ms, d, e, domainVid);
    var x := ValueRx(DeclType(d), DeclKey(d, domainVid), e, DeclFour(d));
    TransmitUnfold(ms, d, e, domainVid);
    MeaningUnfold(ms);
    MeaningUnfold(Transmit(ms, d, e, domainVid));
    MeaningUnfold([]);
    if ms == [] {
      at := 0;
      NewMessageMeaning(d, e, domainVid);
    } else if CanMerge(ms[0], d) {
      at := |MsgMeaning(ms[0])|;
      MergeMeaning(ms[0], d, e, domainVid);
      InsertBetween(MsgMeaning(ms[0]), x, Meaning(ms[1..]));
    } else {
      RoomRest(ms, d);
      var k := TransmitMeaning(ms[1..], d, e, domainVid);
      at := |MsgMeaning(ms[0])| + k;
      InsertLater(MsgMeaning(ms[0]), x, Meaning(ms[1..]), k);
    }
  }

  lemma MeaningUnfold(ms: seq<Message>)
    requires AllComplete(ms)
    ensures Meaning(ms) == if ms == [] then [] else MsgMeaning(ms[0]) + Meaning(ms[1..])
  {
    hide MsgMeaning;
  }

  lemma TransmitUnfold(ms: seq<Message>, d: Decl, e: Three, domainVid: u16)
    requires AllComplete(ms)
    ensures var out := Transmit(ms, d, e, domainVid);
            && out != []
            && (if ms == [] then out == [NewMessage(d, e, domainVid)] && out[1..] == []
                else if CanMerge(ms[0], d) then out[0] == Merge(ms[0], d, e, domainVid) && out[1..] == ms[1..]
                else out[0] == ms[0] && out[1..] == Transmit(ms[1..], d, e, domainVid))
  {
    hide CanMerge, Merge, NewMessage;
  }

  lemma RoomRest(ms: seq<Message>, d: Decl)
    requires AllComplete(ms) && RoomFor(ms, d) && ms != []
    ensures RoomFor(ms[1..], d)
  {
    hide CanMerge;
    assert forall i | 0 <= i < |ms| - 1 :: ms[1..][i] == ms[i + 1];
  }

  lemma InsertBetween(a: seq<Rx>, x: Rx, b: seq<Rx>)
    ensures (a + [x]) + b == (a + b)[..|a|] + [x] + (a + b)[|a|..]
  {
  }

  lemma InsertLater(a: seq<Rx>, x: Rx, b: seq<Rx>, k: nat)
    requires k <= |b|
    ensures a + (b[..k] + [x] + b[k..]) == (a + b)[..|a| + k] + [x] + (a + b)[|a| + k..]
  {
  }

  // ----- the talker fields the first-value check does not compare

  datatype TalkerFields = TalkerFields(mac: nat, vlan: nat, maxFrame: nat, maxInterval: nat, tspec: byte, latency: nat)

  /** What a receiver reads for value `i` of a talker vector besides the stream id. */
  function TalkerFieldsAt(first: seq<byte>, i: nat): TalkerFields
    requires |first| >= 25
  {
    TalkerFields((BeNat(first[8..14]) + i) % 0x1_0000_0000_0000, BeNat(first[14..16]), BeNat(first[16..18]),
                 BeNat(first[18..20]), first[20], BeNat(first[21..25]))
  }

  function DeclaredFields(r: Reservation, domainVid: u16): TalkerFields {
    TalkerFields(r.mac, if r.vlan != 0 then r.vlan else domainVid, r.maxFrame, r.maxInterval, r.tspec, r.latency)
  }

  lemma TalkerFirstFields(r: Reservation, domainVid: u16, rest: seq<byte>)
    ensures TalkerFieldsAt(TalkerFirst(r, domainVid) + rest, 0) == DeclaredFields(r, domainVid)
  {
    hide Pow256, BeNat, BeBytes;
    PowValues();
    var vlan := if r.vlan != 0 then r.vlan else domainVid;
    BeRoundTrip(r.mac, 6);
    BeRoundTrip(vlan, 2);
    BeRoundTrip(r.maxFrame, 2);
    BeRoundTrip(r.maxInterval, 2);
    BeRoundTrip(r.latency, 4);
    var f := TalkerFirst(r, domainVid) + rest;
    assert f[8..14] == BeBytes(r.mac, 6);
    assert f[14..16] == BeBytes(vlan, 2);
    assert f[16..18] == BeBytes(r.maxFrame, 2);
    assert f[18..20] == BeBytes(r.maxInterval, 2);
    assert f[21..25] == BeBytes(r.latency, 4);
  }

  /**
   The remaining fields of a merged talker declaration reach the receiver exactly when the message
   was empty, or already carries the same interval, TSpec and latency and the declared VLAN is not
   the zero that stands for the domain's VLAN.
   */
  lemma MergedTalkerFields(m: Message, d: Decl, e: Three, domainVid: u16)
    requires WellFormed(m) && d.TalkerDecl? && CanMerge(m, d)
    ensures TalkerFieldsAt(Merge(m, d, e, domainVid).first, |m.events|) == DeclaredFields(d.info, domainVid) <==>
            || m.events == []
            || (&& (d.info.vlan != 0 || domainVid == 0)
                && BeNat(m.first[18..20]) == d.info.maxInterval
                && m.first[20] == d.info.tspec
                && BeNat(m.first[21..25]) == d.info.latency)
  {
    if m.events == [] {
      TalkerFirstFields(d.info, domainVid,
                        if d.failed then BeBytes(d.info.bridge, 8) + [d.info.failureCode] else []);
    }
  }

  /** A second stream that continues the first but for its latency is merged, and heard with the first one's. */
  lemma SecondLatencyLost(r: Reservation, latency: u32, e: Three, domainVid: u16)
    requires r.id + 1 < TWO64 && r.mac + 1 < 0x1_0000_0000_0000 && r.vlan != 0 && latency != r.latency
    ensures var d := TalkerDecl(false, r.(id := r.id + 1, mac := r.mac + 1, latency := latency));
            var ms := Transmit([], TalkerDecl(false, r), e, domainVid);
            && |ms| == 1 && WellFormed(ms[0]) && CanMerge(ms[0], d)
            && TalkerFieldsAt(Merge(ms[0], d, e, domainVid).first, 1).latency == r.latency != latency
  {
    hide Pow256, BeNat, BeBytes, ThreePacked;
    TalkerFirstFields(r, domainVid, []);
    FirstTalkerKey(r, domainVid);
    assert TalkerFirst(r, domainVid) + [] == TalkerFirst(r, domainVid);
    var ms := Transmit([], TalkerDecl(false, r), e, domainVid);
    assert ms == [NewMessage(TalkerDecl(false, r), e, domainVid)] && ms[0].first == TalkerFirst(r, domainVid);
    var d := TalkerDecl(false, r.(id := r.id + 1, mac := r.mac + 1, latency := latency));
    assert ContinuesVector(ms[0].first, 1, d);
  }

  lemma FirstTalkerKey(r: Reservation, domainVid: u16)
    ensures BeNat(TalkerFirst(r, domainVid)[..8]) == r.id && BeNat(TalkerFirst(r, domainVid)[8..14]) == r.mac
  {
    hide Pow256, BeNat, BeBytes;
    PowValues();
    BeRoundTrip(r.id, 8);
    BeRoundTrip(r.mac, 6);
    assert TalkerFirst(r, domainVid)[..8] == BeBytes(r.id, 8);
    assert TalkerFirst(r, domainVid)[8..14] == BeBytes(r.mac, 6);
  }

  /** Streams 1 and 2 of one device, with latencies 500 and 700. */
  lemma LatencyLost()
    ensures var r := Reservation(1, 16, 2, 224, 1, 0x70, 500, 0, 0);
            var d := TalkerDecl(false, Reservation(2, 17, 2, 224, 1, 0x70, 700, 0, 0));
            var ms := Transmit([], TalkerDecl(false, r), 0, 2);
            && |ms| == 1 && WellFormed(ms[0]) && CanMerge(ms[0], d)
            && TalkerFieldsAt(Merge(ms[0], d, 0, 2).first, 1).latency == 500
  {
    SecondLatencyLost(Reservation(1, 16, 2, 224, 1, 0x70, 500, 0, 0), 700, 0, 2);
  }
}
