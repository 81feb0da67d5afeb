/**
 The wire format of MSRP and MVRP in numbers, and the way of one declaration from the state machine
 that makes it, over the bytes of a frame, to the state machine that hears it.
 */
module MrpFormat {
  import opened Bytes
  import opened MrpWire
  import opened MrpState
  import opened MrpHistory
  import opened MrpSender
  import P = MrpParser

  // ----- the bytes of one declaration

  lemma OneEvent(e: Three, f: Four)
    ensures ThreePacked([Event(e, f)]) == [36 * e] && FourPacked([Event(e, f)]) == [64 * f]
  {
    var evs := [Event(e, f)];
    assert |ThreePacked(evs)| == 1 && |FourPacked(evs)| == 1;
    assert Pack3(evs, 0) == 36 * e && Pack4(evs, 0) == 64 * f;
  }

  /** Vectors are packed three and four to a byte, the first value in the highest place. */
  lemma PackedFormat(a: Event, b: Event, c: Event, d: Event)
    ensures ThreePacked([a, b, c, d]) == [36 * a.three + 6 * b.three + c.three, 36 * d.three]
    ensures FourPacked([a, b, c, d]) == [64 * a.four + 16 * b.four + 4 * c.four + d.four]
  {
    var evs := [a, b, c, d];
    assert |ThreePacked(evs)| == 2 && |FourPacked(evs)| == 1;
    assert Pack3(evs, 0) == 36 * a.three + 6 * b.three + c.three && Pack3(evs, 1) == 36 * d.three;
  }

  /** A listener: type 3, first value of 8 bytes, list of 14 bytes, one value; ready is 2 and asking failed is 1. */
  lemma ListenerFormat(id: u64, ready: bool, e: Three, vid: u16)
    ensures MsgBytes(NewMessage(ListenerDecl(id, ready), e, vid), true) ==
            [3, 8, 0, 14] + [0, 1] + BeBytes(id, 8) + [36 * e, if ready then 128 else 64] + [0, 0]
  {
    hide ThreePacked, FourPacked, BeBytes;
    OneEvent(e, DeclFour(ListenerDecl(id, ready)));
  }

  /** A talker: type 1 or 2, first value of 25 or 34 bytes. */
  lemma TalkerFormat(r: Reservation, failed: bool, e: Three, vid: u16)
    ensures MsgBytes(NewMessage(TalkerDecl(failed, r), e, vid), true) ==
            (if failed then [2, 34, 0, 39] else [1, 25, 0, 30]) + [0, 1] +
            (BeBytes(r.id, 8) + BeBytes(r.mac, 6) + BeBytes(if r.vlan == 0 then vid else r.vlan, 2) + BeBytes(r.maxFrame, 2) +
             BeBytes(r.maxInterval, 2) + [r.tspec] + BeBytes(r.latency, 4) +
             (if failed then BeBytes(r.bridge, 8) + [r.failureCode] else [])) + [36 * e] + [0, 0]
  {
    hide ThreePacked, FourPacked, BeBytes;
    OneEvent(e, 0);
  }

  /** A domain: type 4, first value of 4 bytes, class 6 and priority 3. */
  lemma DomainFormat(e: Three, vid: u16)
    ensures MsgBytes(NewMessage(DomainDecl, e, vid), true) == [4, 4, 0, 9] + [0, 1] + ([6, 3] + BeBytes(vid, 2)) + [36 * e] + [0, 0]
  {
    hide ThreePacked, FourPacked, BeBytes;
    OneEvent(e, 0);
  }

  /** A VLAN as MVRP sends it: type 1, first value of 2 bytes, no list length. */
  lemma VidFormat(v: u16, e: Three, vid: u16)
    ensures MsgBytes(NewMessage(VidDecl(v), e, vid), false) == [1, 2] + [0, 1] + BeBytes(v, 2) + [36 * e] + [0, 0]
  {
    hide ThreePacked, FourPacked, BeBytes;
    OneEvent(e, 0);
  }

  /** A leave-all: bit 5 of the vector header and no value. */
  lemma LeaveAllFormat(a: AttrType)
    ensures MsgBytes(BlankMessage(a, true), true) == [TypeCode(a), FirstLen(a)] + [0, FirstLen(a) + 4] + [32, 0] + Zeros(FirstLen(a)) + [0, 0]
  {
    var m := BlankMessage(a, true);
    assert ThreePacked([]) == [] && FourPacked([]) == [];
    assert Be16(FirstLen(a) as nat + 4) == [0, FirstLen(a) + 4];
    assert RawOf(m) == Raw(a, true, 0, Zeros(FirstLen(a)), [], []);
  }

  /** The type codes of the two protocols, which the parser tells apart by the Ethernet type. */
  lemma EtherTypes(head: seq<byte>, p: Protocol)
    ensures FrameHead(head, p) <==>
            |head| == 15 && head[14] == 0 && (if p == Msrp then head[12] == 0x22 && head[13] == 0xea else head[12] == 0x88 && head[13] == 0xf5)
  {
  }

  // ----- what a receiver hears, in numbers

  function Spoken(t: Tx, vid: u16): Rx {
    match t.decl
    case TalkerDecl(failed, r) => ValueRx(if failed then TalkerFailed else TalkerAdvertise, Stream(r.id), t.event, 0)
    case ListenerDecl(id, ready) => ValueRx(Listener, Stream(id), t.event, if ready then 2 else 1)
    case DomainDecl => ValueRx(Domain, Class(6, 3, vid), t.event, 0)
    case VidDecl(v) => ValueRx(VidVector, Vid(v), t.event, 0)
  }

  function AllSpoken(ts: seq<Tx>, vid: u16): (s: seq<Rx>)
    ensures |s| == |ts| && forall i | 0 <= i < |ts| :: s[i] == Spoken(ts[i], vid)
  {
    seq(|ts|, i requires 0 <= i < |ts| => Spoken(ts[i], vid))
  }

  lemma {:induction false} SpokenValues(ts: seq<Tx>, vid: u16)
    ensures TxValues(ts, vid) == multiset(AllSpoken(ts, vid))
    decreases |ts|
  {
    if ts == [] {
    } else {
      var n := |ts| - 1;
      SpokenValues(ts[..n], vid);
      SpokenIs(ts[n], vid);
      assert AllSpoken(ts, vid) == AllSpoken(ts[..n], vid) + [Spoken(ts[n], vid)];
    }
  }

  lemma SpokenIs(t: Tx, vid: u16)
    ensures TxValue(t, vid) == Spoken(t, vid)
  {
  }

  /**
   The round trip in numbers: a run of transmissions, framed and parsed, is heard as the streams,
   classes and VLANs declared, each with its event and, for a listener, 2 if it is ready and 1 if not.
   */
  lemma HeardInNumbers(ts: seq<Tx>, vid: u16, p: Protocol, head: seq<byte>, z: nat, tail: seq<byte>)
    requires AllTx(ts, p) && VectorsHold(ts, vid) && FrameHead(head, p) && z >= 2 && |tail| >= P.SLACK
    ensures P.AllOf(TransmitAll(ts, vid), p)
    ensures var f := head + PduBytes(TransmitAll(ts, vid), p.Msrp?) + Zeros(z);
            multiset(P.Parse(f[14..] + tail, |f| - 14, EtherProtocol(f))) == multiset(AllSpoken(ts, vid))
  {
    hide TxValues, AllSpoken, TransmitAll, VectorsHold, PduBytes, P.Parse, FrameHead;
    PduRoundTrip(ts, vid, p, head, z, tail);
    SpokenValues(ts, vid);
  }

  // ----- from machine to machine

  /** The switch of `mrp_in`. */
  function Decoded(c: Three): Packed {
    if c == 0 then PNew else if c == 1 then PJoinIn else if c == 2 then PIn
    else if c == 3 then PJoinMt else if c == 4 then PMt else PLv
  }

  /** A message is heard as the one that was meant. */
  lemma CodeDecoded(p: Packed)
    ensures Decoded(Code(p)) == p
    ensures Code(PNew) == 0 && Code(PJoinIn) == 1 && Code(PIn) == 2 && Code(PJoinMt) == 3 && Code(PMt) == 4 && Code(PLv) == 5
    ensures ReceiveEvent(Decoded(Code(p))) ==
            match p { case PNew => RxNew case PJoinIn => RxJoinIn case PIn => RxIn case PJoinMt => RxJoinMt case PMt => RxMt case PLv => RxLeave }
  {
  }

  lemma DecodedCode(c: Three)
    ensures Code(Decoded(c)) == c
  {
  }

  /** What an attribute is about: a stream, the domain, or a VLAN. */
  datatype About = AboutStream(id: u64) | AboutDomain | AboutVlan(vid: u16)

  /**
   The matching functions: which heard values are for an attribute of a type. An endpoint with one port
   checks, unless leave-all is flagged, that the TSpec of a talker's message has priority 3.
   */
  predicate Concerns(attr: AttrType, about: About, rx: Rx, checked: bool, tspec: byte) {
    rx.ValueRx? &&
    match rx.attr
    case TalkerAdvertise | TalkerFailed =>
      (attr == TalkerAdvertise || attr == TalkerFailed) && about.AboutStream? && rx.key == Stream(about.id) &&
      (checked ==> tspec / 32 % 8 == SR_PRIORITY)
    case Listener => attr == Listener && about.AboutStream? && rx.four != 0 && rx.key == Stream(about.id)
    case Domain => attr == Domain && rx.key.Class? && rx.key.cls == SR_CLASS && rx.key.priority == SR_PRIORITY
    case VidVector => attr == VidVector && about.AboutVlan? && rx.key == Vid(about.vid)
  }

  function AboutOf(d: Decl): About {
    match d
    case TalkerDecl(_, r) => AboutStream(r.id)
    case ListenerDecl(id, _) => AboutStream(id)
    case DomainDecl => AboutDomain
    case VidDecl(v) => AboutVlan(v)
  }

  predicate SameKind(a: AttrType, b: AttrType) {
    a == b || (a == TalkerAdvertise && b == TalkerFailed) || (a == TalkerFailed && b == TalkerAdvertise)
  }

  /**
   A declaration concerns exactly the attributes of its kind that are about the same thing, ready or
   not, provided that a talker's message has a TSpec from 96 to 127 where that is checked.
   */
  lemma ConcernsItsOwn(t: Tx, vid: u16, attr: AttrType, about: About, checked: bool, tspec: byte)
    requires (attr == Domain <==> about.AboutDomain?) && (attr == VidVector <==> about.AboutVlan?)
    ensures Concerns(attr, about, Spoken(t, vid), checked, tspec) <==>
            SameKind(attr, DeclType(t.decl)) && about == AboutOf(t.decl) && (t.decl.TalkerDecl? && checked ==> 96 <= tspec < 128)
  {
  }

  /** What an attribute in use does with a value that concerns it. */
  function Takes(s: State, rx: Rx): State
    requires rx.ValueRx?
  {
    Apply(s, Receive(Decoded(rx.three), rx.four)).state
  }

  /**
   From sender to receiver: an attribute transmits, its message is spoken on the wire, and an
   attribute in use at the other end takes it. If the sender declares, the receiver is registered; if
   it withdraws, it is not; anything else leaves the receiver's registration alone.
   */
  lemma SpokenToRegistrar(s: State, d: Decl, r: State, vid: u16)
    requires InUse(s.applicant) && InUse(r.applicant) && TimerInvariant(r)
    requires Apply(s, Transmission(false)).sent.Some?
    ensures var rx := Spoken(Tx.Tx(d, Code(Apply(s, Transmission(false)).sent.value)), vid);
            var t := Takes(r, rx);
            if Declaring(s.applicant) then t.registrar == IN
            else if s.applicant == LA then t.registrar == (if r.registrar == IN then LV else r.registrar)
            else t.registrar == r.registrar
  {
    hide Apply, Step, RegistrationStep, Code, Decoded, Dues;
    AnswerMeaning(s, false);
    var sent := Apply(s, Transmission(false)).sent.value;
    CodeDecoded(sent);
    var rx := Spoken(Tx.Tx(d, Code(sent)), vid);
    RegistrationRaised(r, Receive(sent, rx.four));
    RegistrarFields(RegistrationOf(r), ReceiveEvent(sent), rx.four);
  }

  /**
   A listener that was asking and failed becomes ready: a talker that has it registered so gets a join
   indication from its next join message exactly if the listener is ready now.
   */
  lemma ReadyIsIndicated(r: State, id: u64, ready: bool, e: Three, vid: u16)
    requires InUse(r.applicant) && TimerInvariant(r) && r.registrar == IN && r.four == 1 && !r.join && (e == 1 || e == 3)
    ensures var t := Takes(r, Spoken(Tx.Tx(ListenerDecl(id, ready), e), vid));
            && (t.join <==> ready) && t.registrar == IN && t.four == if ready then 2 else 1
  {
    hide Apply, Step, RegistrationStep;
    var rx := Spoken(Tx.Tx(ListenerDecl(id, ready), e), vid);
    var op := Receive(Decoded(e), rx.four);
    IndicationStep(r, op, JoinAgain);
    IndicatedFour(r, op);
    assert [op][1..] == [];
    RegistrarStepByOp(r, op);
  }
}
