/**
 One tick of the join timer (`mrp_periodic` in avb_mrp.c): the list is reordered, every attribute in
 use gets a transmit event, and the answers go into the PDUs of MVRP and MSRP. What the state
 machines, the list and the send buffer each do is proved in their own modules; here it adds up to
 what the receivers hear.
 */
module JoinTick {
  import opened Bytes
  import opened MrpWire
  import opened MrpState
  import opened AttrList
  import opened MrpSender

  // ----- what goes into a PDU

  /** A leave-all for a type, or the declaration of an attribute with an event. */
  datatype Item = Everyone(attr: AttrType) | Said(decl: Decl, event: Three)

  function ItemType(x: Item): AttrType {
    if x.Everyone? then x.attr else DeclType(x.decl)
  }

  function Means(x: Item, vid: u16): Rx {
    match x
    case Everyone(a) => LeaveAllRx(a)
    case Said(d, e) => ValueRx(DeclType(d), DeclKey(d, vid), e, DeclFour(d))
  }

  function AllMean(xs: seq<Item>, vid: u16): multiset<Rx> {
    if xs == [] then multiset{} else multiset{Means(xs[0], vid)} + AllMean(xs[1..], vid)
  }

  ghost function Grown(ms: seq<Message>, x: Item, vid: u16): seq<Message>
    requires AllComplete(ms)
  {
    match x
    case Everyone(a) => ms + [BlankMessage(a, true)]
    case Said(d, e) => Transmit(ms, d, e, vid)
  }

  function RoomOf(x: Item): nat {
    match x
    case Everyone(a) => 12 + FirstLen(a)
    case Said(d, _) => Need(d)
  }

  /** The buffer has room for the item as a new message, and the vector it may join has room for a value. */
  ghost predicate ItemFits(ms: seq<Message>, x: Item, size: nat) {
    AllComplete(ms) && Size(ms) + RoomOf(x) <= size && (x.Said? ==> RoomFor(ms, x.decl))
  }

  /** The messages in the buffer after the item, and after `send` if the item fills the buffer. */
  ghost function Left(ms: seq<Message>, x: Item, vid: u16, size: nat): seq<Message>
    requires AllComplete(ms)
  {
    var g := Grown(ms, x, vid);
    if AllComplete(g) && KeepsMargin(Size(g), size) then g else []
  }

  /** Each item of the list fits when its turn comes. */
  ghost predicate ItemsFit(ms: seq<Message>, xs: seq<Item>, vid: u16, size: nat)
    decreases |xs|
  {
    xs == [] || (ItemFits(ms, xs[0], size) && ItemsFit(Left(ms, xs[0], vid, size), xs[1..], vid, size))
  }

  lemma FitsHead(ms: seq<Message>, x: Item, rest: seq<Item>, vid: u16, size: nat)
    requires ItemsFit(ms, [x] + rest, vid, size)
    ensures ItemFits(ms, x, size) && ItemsFit(Left(ms, x, vid, size), rest, vid, size)
  {
    hide ItemFits, Left;
    assert ([x] + rest)[1..] == rest;
  }

  lemma MeanHead(x: Item, rest: seq<Item>, vid: u16)
    ensures AllMean([x] + rest, vid) == multiset{Means(x, vid)} + AllMean(rest, vid)
  {
    hide Means;
    assert ([x] + rest)[1..] == rest;
  }

  lemma {:induction false} MeanConcat(xs: seq<Item>, ys: seq<Item>, vid: u16)
    ensures AllMean(xs + ys, vid) == AllMean(xs, vid) + AllMean(ys, vid)
    decreases |xs|
  {
    hide Means;
    if xs == [] {
      assert xs + ys == ys;
    } else {
      assert xs + ys == [xs[0]] + (xs[1..] + ys);
      MeanHead(xs[0], xs[1..] + ys, vid);
      MeanConcat(xs[1..], ys, vid);
    }
  }

  // ----- what the attributes answer

  function ItemOf(d: Decl, v: State, t: AttrType, e: MrpEvent): seq<Item> {
    var sent := Answer(v, t, e);
    if sent.Some? then [Said(d, Code(sent.value))] else []
  }

  /** The answers of the attributes of a type from the `k`-th on, in list order. */
  function ItemsFrom(decls: seq<Decl>, was: seq<State>, t: AttrType, e: MrpEvent, k: nat): seq<Item>
    requires |decls| == |was| && k <= |was|
    decreases |was| - k
  {
    if k == |was| then [] else ItemOf(decls[k], was[k], t, e) + ItemsFrom(decls, was, t, e, k + 1)
  }

  /** Every attribute declares something of its type. */
  ghost predicate Declares(decls: seq<Decl>, was: seq<State>) {
    |decls| == |was| && forall i | 0 <= i < |was| :: DeclType(decls[i]) == was[i].attr
  }

  lemma DeclaresAfter(decls: seq<Decl>, was: seq<State>, t: AttrType, e: MrpEvent)
    requires Declares(decls, was)
    ensures Declares(decls, AllAfter(was, t, e))
  {
    hide Step;
    forall i | 0 <= i < |was| ensures DeclType(decls[i]) == AllAfter(was, t, e)[i].attr {
      StepKeepsType(was[i], e);
    }
  }

  /** An event for one type does not change the answers for another. */
  lemma {:induction false} OtherAnswers(decls: seq<Decl>, was: seq<State>, t: AttrType, e: MrpEvent, t': AttrType, e': MrpEvent, k: nat)
    requires |decls| == |was| && k <= |was| && t != t'
    ensures ItemsFrom(decls, AllAfter(was, t, e), t', e', k) == ItemsFrom(decls, was, t', e', k)
    decreases |was| - k
  {
    hide ItemOf, After;
    if k < |was| {
      OtherAnswers(decls, was, t, e, t', e', k + 1);
      OtherAnswer(decls[k], was[k], t, e, t', e');
    }
  }

  lemma OtherAnswer(d: Decl, v: State, t: AttrType, e: MrpEvent, t': AttrType, e': MrpEvent)
    requires t != t'
    ensures ItemOf(d, After(v, t, e), t', e') == ItemOf(d, v, t', e')
  {
    hide Step;
    StepKeepsType(v, e);
  }

  // ----- the send buffer takes the items

  ghost predicate Ready(b: SendBuffer, p: Protocol, xs: seq<Item>)
    reads b, b.buf
  {
    b.Valid() && b.protocol == p && b.sendPtr + 4 <= b.buf.Length && ItemsFit(b.msgs, xs, b.domainVid, b.buf.Length)
  }

  /** One item: `doTx`, or `create_empty_msg` and `send` for a leave-all. */
  method Perform(b: SendBuffer, x: Item, ghost p: Protocol, ghost rest: seq<Item>)
    requires Ready(b, p, [x] + rest) && ProtocolOf(ItemType(x)) == p
    modifies b`sendPtr, b`sent, b`msgs, b.buf
    ensures Ready(b, p, rest)
    ensures b.Heard() == old(b.Heard()) + multiset{Means(x, b.domainVid)}
  {
    hide ItemsFit, Transmit, PduBytes, Meaning, HeardAll, DeclKey, RoomFor;
    FitsHead(b.msgs, x, rest, b.domainVid, b.buf.Length);
    b.EndIs();
    match x {
      case Everyone(a) => b.AddLeaveAll(a);
      case Said(d, e) => b.DoTx(d, e);
    }
    b.EndIs();
  }

  lemma ItemsUnfold(decls: seq<Decl>, was: seq<State>, t: AttrType, e: MrpEvent, k: nat, rest: seq<Item>, vid: u16)
    requires |decls| == |was| && k < |was|
    ensures var item := ItemOf(decls[k], was[k], t, e);
            && ItemsFrom(decls, was, t, e, k) + rest == item + (ItemsFrom(decls, was, t, e, k + 1) + rest)
            && AllMean(ItemsFrom(decls, was, t, e, k), vid) == AllMean(item, vid) + AllMean(ItemsFrom(decls, was, t, e, k + 1), vid)
  {
    hide ItemOf;
    var item, more := ItemOf(decls[k], was[k], t, e), ItemsFrom(decls, was, t, e, k + 1);
    assert (item + more) + rest == item + (more + rest);
    MeanConcat(item, more, vid);
  }

  /** The answer of one attribute goes into the buffer. */
  method Announce(b: SendBuffer, d: Decl, sent: Option<Packed>, ghost p: Protocol, ghost rest: seq<Item>)
    requires sent.Some? ==> ProtocolOf(DeclType(d)) == p
    requires Ready(b, p, (if sent.Some? then [Said(d, Code(sent.value))] else []) + rest)
    modifies b`sendPtr, b`sent, b`msgs, b.buf
    ensures Ready(b, p, rest)
    ensures b.Heard() == old(b.Heard()) + AllMean(if sent.Some? then [Said(d, Code(sent.value))] else [], b.domainVid)
  {
    hide Ready, Means;
    ReadyValid(b, p, (if sent.Some? then [Said(d, Code(sent.value))] else []) + rest);
    if sent.Some? {
      var x := Said(d, Code(sent.value));
      MeanHead(x, [], b.domainVid);
      assert [x] + [] == [x];
      Perform(b, x, p, rest);
    } else {
      assert [] + rest == rest;
    }
  }

  lemma ReadyValid(b: SendBuffer, p: Protocol, xs: seq<Item>)
    requires Ready(b, p, xs)
    ensures b.Valid() && b.protocol == p && b.sendPtr + 4 <= b.buf.Length && AllComplete(b.msgs)
  {
  }

  lemma AnswerOfType(v: State, t: AttrType, e: MrpEvent)
    ensures Answer(v, t, e).Some? ==> v.attr == t
  {
    hide Step;
  }

  lemma ItemsEnd(decls: seq<Decl>, was: seq<State>, t: AttrType, e: MrpEvent, rest: seq<Item>, vid: u16)
    requires |decls| == |was|
    ensures ItemsFrom(decls, was, t, e, |was|) + rest == rest && AllMean(ItemsFrom(decls, was, t, e, |was|), vid) == multiset{}
  {
    assert [] + rest == rest;
  }

  ghost predicate DeclaredBy(nodes: seq<Attribute>, decl: Attribute -> Decl, decls: seq<Decl>) {
    |decls| == |nodes| && forall i | 0 <= i < |nodes| :: decls[i] == decl(nodes[i])
  }

  /** `own` and then `rest` are still to go into the buffer; `total` is what will have been heard after `own`. */
  ghost predicate Pending(b: SendBuffer, p: Protocol, own: seq<Item>, rest: seq<Item>, total: multiset<Rx>)
    reads b, b.buf
  {
    Ready(b, p, own + rest) && AllComplete(b.msgs) && b.Heard() + AllMean(own, b.domainVid) == total
  }

  /** The answer of one attribute, seen from the whole walk. */
  method AnnounceAt(b: SendBuffer, d: Decl, sent: Option<Packed>, t: AttrType, ghost e: MrpEvent,
                    ghost was: seq<State>, ghost decls: seq<Decl>, ghost rest: seq<Item>, ghost k: nat, ghost total: multiset<Rx>)
    requires Declares(decls, was) && k < |was| && d == decls[k] && sent == Answer(was[k], t, e)
    requires Pending(b, ProtocolOf(t), ItemsFrom(decls, was, t, e, k), rest, total)
    modifies b`sendPtr, b`sent, b`msgs, b.buf
    ensures Pending(b, ProtocolOf(t), ItemsFrom(decls, was, t, e, k + 1), rest, total)
  {
    hide Ready, Answer, SendBuffer.Heard, ItemsFrom, AllMean;
    ItemsUnfold(decls, was, t, e, k, rest, b.domainVid);
    AnswerOfType(was[k], t, e);
    ghost var more := ItemsFrom(decls, was, t, e, k + 1);
    Announce(b, d, sent, ProtocolOf(t), more + rest);
    ReadyValid(b, ProtocolOf(t), more + rest);
  }

  /** One round of the walk: the event, and the answer. */
  method Turn(list: AttributeList, t: AttrType, e: MrpEvent, port: Port, b: SendBuffer, decl: Attribute -> Decl,
              ghost nodes: seq<Attribute>, ghost was: seq<State>, ghost decls: seq<Decl>, ghost rest: seq<Item>,
              ghost k: nat, attr: Attribute, ghost total: multiset<Rx>)
    returns (got: bool, next: Attribute?)
    requires e != RxLeaveAll && Halfway(nodes, was, t, e, k) && k < |nodes| && attr == nodes[k]
    requires DeclaredBy(nodes, decl, decls) && Declares(decls, was)
    requires Pending(b, ProtocolOf(t), ItemsFrom(decls, was, t, e, k), rest, total)
    modifies attr, port, b`sendPtr, b`sent, b`msgs, b.buf
    ensures Halfway(nodes, was, t, e, k + 1) && got == Gets(was[k], t) && next == NextOf(nodes, k)
    ensures Pending(b, ProtocolOf(t), ItemsFrom(decls, was, t, e, k + 1), rest, total)
    ensures port.mvrpLeaveAllActive == old(port.mvrpLeaveAllActive)
    ensures port.msrpLeaveAllActive == old(port.msrpLeaveAllActive)
  {
    hide Gets, Answer, Halfway, ItemsFrom, Pending, NextOf;
    var sent;
    got, sent := list.VisitAt(t, e, port, nodes, was, k, attr);
    next := attr.next;
    AnnounceAt(b, decl(attr), sent, t, e, was, decls, rest, k, total);
  }

  /**
   `attribute_type_event`: one walk over the list. The result lists the attributes that got the
   event, and their answers are what the receivers hear in addition.
   */
  method TypeEvent(list: AttributeList, t: AttrType, e: MrpEvent, port: Port, b: SendBuffer, decl: Attribute -> Decl,
                   ghost nodes: seq<Attribute>, ghost was: seq<State>, ghost decls: seq<Decl>, ghost rest: seq<Item>)
    returns (log: seq<Attribute>)
    requires Chain(list.first, nodes) && e != RxLeaveAll && Seen(nodes, was)
    requires DeclaredBy(nodes, decl, decls) && Declares(decls, was)
    requires Ready(b, ProtocolOf(t), ItemsFrom(decls, was, t, e, 0) + rest)
    modifies nodes, port, b`sendPtr, b`sent, b`msgs, b.buf
    ensures log == Selected(nodes, was, t)
    ensures Chain(list.first, nodes) && Seen(nodes, AllAfter(was, t, e))
    ensures port.mvrpLeaveAllActive == old(port.mvrpLeaveAllActive)
    ensures port.msrpLeaveAllActive == old(port.msrpLeaveAllActive)
    ensures Ready(b, ProtocolOf(t), rest)
    ensures b.Heard() == old(b.Heard()) + AllMean(ItemsFrom(decls, was, t, e, 0), b.domainVid)
  {
    hide Chain, Seen, AllAfter, After, Gets, Answer, Attribute.View, Selected, Halfway, Ready, ItemsFrom, AllMean, SendBuffer.Heard, Pending, NoRepeats;
    log := [];
    NoneSelected(t);
    var attr := list.first;
    ghost var k := 0;
    ghost var total := BeginWalk(b, ProtocolOf(t), ItemsFrom(decls, was, t, e, 0), rest);
    SetOut(list.first, nodes, was, t, e);
    while attr != null
      invariant k <= |nodes| == |was| && attr == if k < |nodes| then nodes[k] else null
      invariant Halfway(nodes, was, t, e, k)
      invariant log == Selected(nodes[..k], was[..k], t)
      invariant port.mvrpLeaveAllActive == old(port.mvrpLeaveAllActive)
      invariant port.msrpLeaveAllActive == old(port.msrpLeaveAllActive)
      invariant Pending(b, ProtocolOf(t), ItemsFrom(decls, was, t, e, k), rest, total)
      decreases |nodes| - k
    {
      SelectedStep(nodes, was, t, k);
      var got, next := Turn(list, t, e, port, b, decl, nodes, was, decls, rest, k, attr, total);
      if got {
        log := log + [attr];
      }
      attr := next;
      k := k + 1;
    }
    assert nodes[..k] == nodes && was[..k] == was;
    Arrive(list.first, nodes, was, t, e);
    EndWalk(b, t, e, was, decls, rest, total);
  }

  lemma BeginWalk(b: SendBuffer, p: Protocol, own: seq<Item>, rest: seq<Item>) returns (total: multiset<Rx>)
    requires Ready(b, p, own + rest)
    ensures AllComplete(b.msgs) && Pending(b, p, own, rest, total) && total == b.Heard() + AllMean(own, b.domainVid)
  {
    hide SendBuffer.Heard, AllMean;
    ReadyValid(b, p, own + rest);
    total := b.Heard() + AllMean(own, b.domainVid);
  }

  lemma EndWalk(b: SendBuffer, t: AttrType, e: MrpEvent, was: seq<State>, decls: seq<Decl>, rest: seq<Item>, total: multiset<Rx>)
    requires |decls| == |was| && Pending(b, ProtocolOf(t), ItemsFrom(decls, was, t, e, |was|), rest, total)
    ensures Ready(b, ProtocolOf(t), rest) && AllComplete(b.msgs) && b.Heard() == total
  {
    hide SendBuffer.Heard, AllMean, Ready, ItemsFrom;
    ItemsEnd(decls, was, t, e, rest, b.domainVid);
  }

  // ----- the two halves of a tick

  function EventFor(leaveAll: bool): MrpEvent {
    if leaveAll then TxLeaveAll else MrpEvent.Tx
  }

  /** The items of the MVRP PDU. */
  function MvrpItems(decls: seq<Decl>, was: seq<State>, leaveAll: bool): seq<Item>
    requires |decls| == |was|
  {
    (if leaveAll then [Everyone(VidVector)] else []) + ItemsFrom(decls, was, VidVector, EventFor(leaveAll), 0)
  }

  function MsrpAnswers(decls: seq<Decl>, was: seq<State>, e: MrpEvent): seq<Item>
    requires |decls| == |was|
  {
    ItemsFrom(decls, was, TalkerAdvertise, e, 0) +
    (ItemsFrom(decls, was, TalkerFailed, e, 0) +
     (ItemsFrom(decls, was, Listener, e, 0) + (ItemsFrom(decls, was, Domain, e, 0) + [])))
  }

  function MsrpLeaveAlls(leaveAll: bool, rest: seq<Item>): seq<Item> {
    if leaveAll
    then [Everyone(TalkerAdvertise)] + ([Everyone(TalkerFailed)] + ([Everyone(Listener)] + ([Everyone(Domain)] + rest)))
    else rest
  }

  /** The items of the MSRP PDUs. */
  function MsrpItems(decls: seq<Decl>, was: seq<State>, leaveAll: bool): seq<Item>
    requires |decls| == |was|
  {
    MsrpLeaveAlls(leaveAll, MsrpAnswers(decls, was, EventFor(leaveAll)))
  }

  method MvrpHalf(list: AttributeList, port: Port, b: SendBuffer, decl: Attribute -> Decl,
                  ghost l: seq<Attribute>, ghost was: seq<State>, ghost decls: seq<Decl>)
    returns (log: seq<Attribute>)
    requires Chain(list.first, l) && Seen(l, was) && DeclaredBy(l, decl, decls) && Declares(decls, was)
    requires b.Valid() && b.msgs == []
    requires ItemsFit([], MvrpItems(decls, was, port.mvrpLeaveAllActive), b.domainVid, b.buf.Length)
    modifies l, port, b`sendPtr, b`sent, b`msgs, b`protocol, b.buf
    ensures log == Selected(l, was, VidVector)
    ensures Chain(list.first, l) && Seen(l, AllAfter(was, VidVector, EventFor(old(port.mvrpLeaveAllActive))))
    ensures !port.mvrpLeaveAllActive && port.msrpLeaveAllActive == old(port.msrpLeaveAllActive)
    ensures b.Valid() && b.msgs == []
    ensures b.Heard() == old(b.Heard()) + AllMean(MvrpItems(decls, was, old(port.mvrpLeaveAllActive)), b.domainVid)
  {
    hide Chain, Seen, AllAfter, After, Selected, Ready, ItemsFrom, AllMean, SendBuffer.Heard, SendBuffer.Valid, ItemsFit, DeclaredBy;
    ghost var leaveAll, vid := port.mvrpLeaveAllActive, b.domainVid;
    ghost var answers := ItemsFrom(decls, was, VidVector, EventFor(leaveAll), 0);
    b.Configure(Mvrp);
    b.EndIs();
    var e := EventFor(port.mvrpLeaveAllActive);
    StartReady(b, Mvrp, MvrpItems(decls, was, leaveAll));
    MeanConcat(if leaveAll then [Everyone(VidVector)] else [], answers, vid);
    if port.mvrpLeaveAllActive {
      MeanOne(Everyone(VidVector), vid);
      Perform(b, Everyone(VidVector), Mvrp, answers);
      port.mvrpLeaveAllActive := false;
    } else {
      MeanNone(answers, vid);
    }
    ReadyValid(b, Mvrp, answers);
    assert answers + [] == answers;
    log := TypeEvent(list, VidVector, e, port, b, decl, l, was, decls, []);
    ReadyValid(b, Mvrp, []);
    b.ForceSend();
  }

  lemma StartReady(b: SendBuffer, p: Protocol, xs: seq<Item>)
    requires b.Valid() && b.msgs == [] && b.protocol == p && ItemsFit([], xs, b.domainVid, b.buf.Length)
    ensures Ready(b, p, xs)
  {
    hide ItemsFit;
    b.EndIs();
  }

  lemma MeanOne(x: Item, vid: u16)
    ensures AllMean([x], vid) == multiset{Means(x, vid)}
  {
    assert [x] + [] == [x];
    MeanHead(x, [], vid);
  }

  lemma MeanNone(xs: seq<Item>, vid: u16)
    ensures [] + xs == xs && xs + [] == xs && AllMean([], vid) == multiset{}
  {
  }

  /** The attributes that the four MSRP walks visit. */
  ghost function MsrpLog(l: seq<Attribute>, was: seq<State>): seq<Attribute>
    requires |l| == |was|
  {
    Selected(l, was, TalkerAdvertise) + Selected(l, was, TalkerFailed) + Selected(l, was, Listener) + Selected(l, was, Domain)
  }

  /** The states after them. */
  function MsrpStates(was: seq<State>, e: MrpEvent): (r: seq<State>)
    ensures |r| == |was|
  {
    AllAfter(AllAfter(AllAfter(AllAfter(was, TalkerAdvertise, e), TalkerFailed, e), Listener, e), Domain, e)
  }

  /** `msrp_types_event`: the four MSRP types in turn. */
  method MsrpTypesEvent(list: AttributeList, e: MrpEvent, port: Port, b: SendBuffer, decl: Attribute -> Decl,
                        ghost l: seq<Attribute>, ghost was: seq<State>, ghost decls: seq<Decl>)
    returns (log: seq<Attribute>)
    requires Chain(list.first, l) && Seen(l, was) && DeclaredBy(l, decl, decls) && Declares(decls, was) && e != RxLeaveAll
    requires Ready(b, Msrp, MsrpAnswers(decls, was, e))
    modifies l, port, b`sendPtr, b`sent, b`msgs, b.buf
    ensures Chain(list.first, l) && |l| == |was| && log == MsrpLog(l, was)
    ensures Seen(l, MsrpStates(was, e))
    ensures port.mvrpLeaveAllActive == old(port.mvrpLeaveAllActive)
    ensures port.msrpLeaveAllActive == old(port.msrpLeaveAllActive)
    ensures Ready(b, Msrp, [])
    ensures b.Heard() == old(b.Heard()) + AllMean(MsrpAnswers(decls, was, e), b.domainVid)
  {
    hide Chain, Seen, AllAfter, After, Selected, Ready, ItemsFrom, AllMean, SendBuffer.Heard, DeclaredBy, Declares;
    ghost var s2 := AllAfter(AllAfter(was, TalkerAdvertise, e), TalkerFailed, e);
    ghost var a3, a4 := FourTypes(l, was, decls, e, b.domainVid);
    ReadyValid(b, Msrp, MsrpAnswers(decls, was, e));
    log := TwoTypes(list, TalkerAdvertise, TalkerFailed, e, port, b, decl, l, was, decls, a3 + (a4 + []));
    ReadyValid(b, Msrp, a3 + (a4 + []));
    var more := TwoTypes(list, Listener, Domain, e, port, b, decl, l, s2, decls, []);
    log := log + more;
    JoinLogs(Selected(l, was, TalkerAdvertise), Selected(l, was, TalkerFailed), Selected(l, was, Listener), Selected(l, was, Domain));
  }

  lemma JoinLogs(w: seq<Attribute>, x: seq<Attribute>, y: seq<Attribute>, z: seq<Attribute>)
    ensures (w + x) + (y + z) == w + x + y + z
  {
  }

  /** The last two walks find their attributes as they were before the first two. */
  lemma FourTypes(l: seq<Attribute>, was: seq<State>, decls: seq<Decl>, e: MrpEvent, vid: u16)
    returns (a3: seq<Item>, a4: seq<Item>)
    requires Seen(l, was) && Declares(decls, was)
    ensures |decls| == |was| == |l| && a3 == ItemsFrom(decls, was, Listener, e, 0) && a4 == ItemsFrom(decls, was, Domain, e, 0)
    ensures AllMean(MsrpAnswers(decls, was, e), vid) ==
            (AllMean(ItemsFrom(decls, was, TalkerAdvertise, e, 0), vid) + AllMean(ItemsFrom(decls, was, TalkerFailed, e, 0), vid)) +
            (AllMean(a3, vid) + AllMean(a4, vid))
    ensures var s2 := AllAfter(AllAfter(was, TalkerAdvertise, e), TalkerFailed, e);
            && Declares(decls, s2) && |decls| == |s2| == |l|
            && a3 == ItemsFrom(decls, s2, Listener, e, 0) && a4 == ItemsFrom(decls, s2, Domain, e, 0)
            && Selected(l, s2, Listener) == Selected(l, was, Listener) && Selected(l, s2, Domain) == Selected(l, was, Domain)
  {
    hide ItemsFrom, AllMean, Selected, Declares, After;
    DeclaresSize(decls, was);
    a3, a4 := ItemsFrom(decls, was, Listener, e, 0), ItemsFrom(decls, was, Domain, e, 0);
    var a1, a2 := ItemsFrom(decls, was, TalkerAdvertise, e, 0), ItemsFrom(decls, was, TalkerFailed, e, 0);
    MeanNone(a4, vid);
    MeanConcat(a1, a2 + (a3 + (a4 + [])), vid);
    MeanConcat(a2, a3 + (a4 + []), vid);
    MeanConcat(a3, a4 + [], vid);
    var s1 := AllAfter(was, TalkerAdvertise, e);
    DeclaresAfter(decls, was, TalkerAdvertise, e);
    DeclaresAfter(decls, s1, TalkerFailed, e);
    OtherTypes(l, was, TalkerAdvertise, e);
    OtherTypes(l, s1, TalkerFailed, e);
    OtherAnswers(decls, was, TalkerAdvertise, e, Listener, e, 0);
    OtherAnswers(decls, was, TalkerAdvertise, e, Domain, e, 0);
    OtherAnswers(decls, s1, TalkerFailed, e, Listener, e, 0);
    OtherAnswers(decls, s1, TalkerFailed, e, Domain, e, 0);
  }

  lemma OneOther(l: seq<Attribute>, was: seq<State>, t: AttrType, e: MrpEvent, u: AttrType)
    requires Seen(l, was) && t != u
    ensures |l| == |was| && Selected(l, AllAfter(was, t, e), u) == Selected(l, was, u)
  {
    hide AllAfter, Selected;
    OtherTypes(l, was, t, e);
  }

  /** The walks for two types. */
  method TwoTypes(list: AttributeList, t: AttrType, u: AttrType, e: MrpEvent, port: Port, b: SendBuffer, decl: Attribute -> Decl,
                  ghost l: seq<Attribute>, ghost was: seq<State>, ghost decls: seq<Decl>, ghost rest: seq<Item>)
    returns (log: seq<Attribute>)
    requires Chain(list.first, l) && Seen(l, was) && DeclaredBy(l, decl, decls) && Declares(decls, was) && e != RxLeaveAll
    requires t != u && ProtocolOf(t) == ProtocolOf(u)
    requires Ready(b, ProtocolOf(t), ItemsFrom(decls, was, t, e, 0) + (ItemsFrom(decls, was, u, e, 0) + rest))
    modifies l, port, b`sendPtr, b`sent, b`msgs, b.buf
    ensures log == Selected(l, was, t) + Selected(l, was, u)
    ensures Chain(list.first, l) && Seen(l, AllAfter(AllAfter(was, t, e), u, e))
    ensures port.mvrpLeaveAllActive == old(port.mvrpLeaveAllActive)
    ensures port.msrpLeaveAllActive == old(port.msrpLeaveAllActive)
    ensures Ready(b, ProtocolOf(t), rest)
    ensures b.Heard() == old(b.Heard()) + (AllMean(ItemsFrom(decls, was, t, e, 0), b.domainVid) + AllMean(ItemsFrom(decls, was, u, e, 0), b.domainVid))
  {
    hide Chain, Seen, AllAfter, After, Selected, Ready, ItemsFrom, AllMean, SendBuffer.Heard, DeclaredBy;
    OneOther(l, was, t, e, u);
    OtherAnswers(decls, was, t, e, u, e, 0);
    DeclaresAfter(decls, was, t, e);
    ghost var more := ItemsFrom(decls, was, u, e, 0) + rest;
    ReadyValid(b, ProtocolOf(t), ItemsFrom(decls, was, t, e, 0) + more);
    log := TypeEvent(list, t, e, port, b, decl, l, was, decls, more);
    ReadyValid(b, ProtocolOf(t), more);
    var second := TypeEvent(list, u, e, port, b, decl, l, AllAfter(was, t, e), decls, rest);
    log := log + second;
  }

  lemma DeclaresSize(decls: seq<Decl>, was: seq<State>)
    requires Declares(decls, was)
    ensures |decls| == |was|
  {
  }

  method SayTwo(b: SendBuffer, t: AttrType, u: AttrType, ghost p: Protocol, ghost rest: seq<Item>)
    requires ProtocolOf(t) == ProtocolOf(u) == p
    requires Ready(b, p, [Everyone(t)] + ([Everyone(u)] + rest))
    modifies b`sendPtr, b`sent, b`msgs, b.buf
    ensures Ready(b, p, rest)
    ensures b.Heard() + AllMean(rest, b.domainVid) ==
            old(b.Heard()) + AllMean([Everyone(t)] + ([Everyone(u)] + rest), b.domainVid)
  {
    hide Ready, AllMean, SendBuffer.Heard, Means;
    ghost var more := [Everyone(u)] + rest;
    ReadyValid(b, p, [Everyone(t)] + more);
    MeanHead(Everyone(t), more, b.domainVid);
    MeanHead(Everyone(u), rest, b.domainVid);
    Perform(b, Everyone(t), p, more);
    ReadyValid(b, p, more);
    Perform(b, Everyone(u), p, rest);
    ReadyValid(b, p, rest);
  }

  /** The leave-all messages of MSRP. */
  method SayLeaveAlls(b: SendBuffer, ghost rest: seq<Item>)
    requires Ready(b, Msrp, MsrpLeaveAlls(true, rest))
    modifies b`sendPtr, b`sent, b`msgs, b.buf
    ensures Ready(b, Msrp, rest)
    ensures b.Heard() + AllMean(rest, b.domainVid) == old(b.Heard()) + AllMean(MsrpLeaveAlls(true, rest), b.domainVid)
  {
    hide Ready, AllMean, SendBuffer.Heard;
    ghost var more := [Everyone(Listener)] + ([Everyone(Domain)] + rest);
    ReadyValid(b, Msrp, MsrpLeaveAlls(true, rest));
    SayTwo(b, TalkerAdvertise, TalkerFailed, Msrp, more);
    ReadyValid(b, Msrp, more);
    SayTwo(b, Listener, Domain, Msrp, rest);
    ReadyValid(b, Msrp, rest);
  }

  method MsrpHalf(list: AttributeList, port: Port, b: SendBuffer, decl: Attribute -> Decl,
                  ghost l: seq<Attribute>, ghost was: seq<State>, ghost decls: seq<Decl>)
    returns (log: seq<Attribute>)
    requires Chain(list.first, l) && Seen(l, was) && DeclaredBy(l, decl, decls) && Declares(decls, was)
    requires b.Valid() && b.msgs == []
    requires ItemsFit([], MsrpItems(decls, was, port.msrpLeaveAllActive), b.domainVid, b.buf.Length)
    modifies l, port, b`sendPtr, b`sent, b`msgs, b`protocol, b.buf
    ensures Chain(list.first, l) && |l| == |was| && log == MsrpLog(l, was)
    ensures Seen(l, MsrpStates(was, EventFor(old(port.msrpLeaveAllActive))))
    ensures !port.msrpLeaveAllActive && port.mvrpLeaveAllActive == old(port.mvrpLeaveAllActive)
    ensures b.Valid() && b.msgs == []
    ensures b.Heard() == old(b.Heard()) + AllMean(MsrpItems(decls, was, old(port.msrpLeaveAllActive)), b.domainVid)
  {
    hide Chain, Seen, MsrpStates, MsrpLog, Ready, MsrpAnswers, AllMean, SendBuffer.Heard, SendBuffer.Valid, ItemsFit, DeclaredBy;
    ghost var leaveAll := port.msrpLeaveAllActive;
    ghost var answers := MsrpAnswers(decls, was, EventFor(leaveAll));
    b.Configure(Msrp);
    b.EndIs();
    var e := EventFor(port.msrpLeaveAllActive);
    StartReady(b, Msrp, MsrpItems(decls, was, leaveAll));
    if port.msrpLeaveAllActive {
      SayLeaveAlls(b, answers);
      port.msrpLeaveAllActive := false;
    }
    ReadyValid(b, Msrp, answers);
    log := MsrpTypesEvent(list, e, port, b, decl, l, was, decls);
    ReadyValid(b, Msrp, []);
    b.ForceSend();
  }

  // ----- the whole tick

  lemma AfterMvrp(l: seq<Attribute>, was: seq<State>, decls: seq<Decl>, e: MrpEvent, leaveAll: bool)
    requires |l| == |was| && Declares(decls, was)
    ensures var s1 := AllAfter(was, VidVector, e);
            && |decls| == |was| == |s1| && Declares(decls, s1) && MsrpItems(decls, s1, leaveAll) == MsrpItems(decls, was, leaveAll)
            && MsrpLog(l, s1) == MsrpLog(l, was)
  {
    hide ItemsFrom, Selected, AllAfter, Declares;
    DeclaresSize(decls, was);
    DeclaresAfter(decls, was, VidVector, e);
    OtherTypes(l, was, VidVector, e);
    OtherAnswers(decls, was, VidVector, e, TalkerAdvertise, EventFor(leaveAll), 0);
    OtherAnswers(decls, was, VidVector, e, TalkerFailed, EventFor(leaveAll), 0);
    OtherAnswers(decls, was, VidVector, e, Listener, EventFor(leaveAll), 0);
    OtherAnswers(decls, was, VidVector, e, Domain, EventFor(leaveAll), 0);
  }

  /** The states after the five walks. */
  function FiveTypes(was: seq<State>, mvrp: bool, msrp: bool): (r: seq<State>)
    ensures |r| == |was|
  {
    MsrpStates(AllAfter(was, VidVector, EventFor(mvrp)), EventFor(msrp))
  }

  ghost function Log(l: seq<Attribute>, was: seq<State>): seq<Attribute>
    requires |l| == |was|
  {
    Selected(l, was, VidVector) + MsrpLog(l, was)
  }

  lemma SumAssoc(a: multiset<Rx>, b: multiset<Rx>, c: multiset<Rx>)
    ensures (a + b) + c == a + (b + c)
  {
  }

  /** The list visits these attributes, which are in these states. */
  ghost predicate Standing(list: AttributeList, l: seq<Attribute>, was: seq<State>)
    reads list, l
  {
    Chain(list.first, l) && Seen(l, was)
  }

  /** Nothing is left in the buffer, and this is all that was heard. */
  ghost predicate Quiet(b: SendBuffer, heard: multiset<Rx>)
    reads b, b.buf
  {
    b.Valid() && b.msgs == [] && AllComplete(b.msgs) && b.Heard() == heard
  }

  method MvrpPart(list: AttributeList, port: Port, b: SendBuffer, decl: Attribute -> Decl, ghost l: seq<Attribute>,
                  ghost was: seq<State>, ghost decls: seq<Decl>, ghost leaveAll: bool, ghost heard: multiset<Rx>)
    returns (log: seq<Attribute>)
    requires Standing(list, l, was) && DeclaredBy(l, decl, decls) && Declares(decls, was) && Quiet(b, heard)
    requires leaveAll == port.mvrpLeaveAllActive && ItemsFit([], MvrpItems(decls, was, leaveAll), b.domainVid, b.buf.Length)
    modifies l, port, b`sendPtr, b`sent, b`msgs, b`protocol, b.buf
    ensures |l| == |was| && log == Selected(l, was, VidVector) && Standing(list, l, AllAfter(was, VidVector, EventFor(leaveAll)))
    ensures !port.mvrpLeaveAllActive && port.msrpLeaveAllActive == old(port.msrpLeaveAllActive)
    ensures Quiet(b, heard + AllMean(MvrpItems(decls, was, leaveAll), b.domainVid))
  {
    hide Chain, Seen, AllAfter, Selected, AllMean, SendBuffer.Heard, SendBuffer.Valid, ItemsFit, DeclaredBy, Declares, MvrpItems, EventFor;
    SeenChain(list, l, was);
    log := MvrpHalf(list, port, b, decl, l, was, decls);
    b.EndIs();
  }

  method MsrpPart(list: AttributeList, port: Port, b: SendBuffer, decl: Attribute -> Decl, ghost l: seq<Attribute>,
                  ghost was: seq<State>, ghost decls: seq<Decl>, ghost leaveAll: bool, ghost heard: multiset<Rx>)
    returns (log: seq<Attribute>)
    requires Standing(list, l, was) && DeclaredBy(l, decl, decls) && Declares(decls, was) && Quiet(b, heard)
    requires leaveAll == port.msrpLeaveAllActive && ItemsFit([], MsrpItems(decls, was, leaveAll), b.domainVid, b.buf.Length)
    modifies l, port, b`sendPtr, b`sent, b`msgs, b`protocol, b.buf
    ensures |l| == |was| && log == MsrpLog(l, was) && Standing(list, l, MsrpStates(was, EventFor(leaveAll)))
    ensures !port.msrpLeaveAllActive && port.mvrpLeaveAllActive == old(port.mvrpLeaveAllActive)
    ensures Quiet(b, heard + AllMean(MsrpItems(decls, was, leaveAll), b.domainVid))
  {
    hide Chain, Seen, MsrpStates, MsrpLog, AllMean, SendBuffer.Heard, SendBuffer.Valid, ItemsFit, DeclaredBy, Declares, MsrpItems, EventFor;
    log := MsrpHalf(list, port, b, decl, l, was, decls);
    b.EndIs();
  }

  /** Both halves of a tick, on the reordered list. */
  method TickEvents(list: AttributeList, port: Port, b: SendBuffer, decl: Attribute -> Decl, ghost l: seq<Attribute>,
                    ghost was: seq<State>, ghost decls: seq<Decl>, ghost mvrp: bool, ghost msrp: bool, ghost heard: multiset<Rx>)
    returns (log: seq<Attribute>)
    requires Standing(list, l, was) && DeclaredBy(l, decl, decls) && Declares(decls, was) && Quiet(b, heard)
    requires mvrp == port.mvrpLeaveAllActive && msrp == port.msrpLeaveAllActive
    requires TickFits(decls, was, mvrp, msrp, b.domainVid, b.buf.Length)
    modifies l, port, b`sendPtr, b`sent, b`msgs, b`protocol, b.buf
    ensures |l| == |was| && log == Log(l, was) && Standing(list, l, FiveTypes(was, mvrp, msrp))
    ensures !port.mvrpLeaveAllActive && !port.msrpLeaveAllActive
    ensures Quiet(b, (heard + AllMean(MvrpItems(decls, was, mvrp), b.domainVid)) + AllMean(MsrpItems(decls, was, msrp), b.domainVid))
  {
    hide Standing, Quiet, AllAfter, Selected, MsrpStates, MsrpLog, AllMean, ItemsFit, DeclaredBy, Declares, MvrpItems, MsrpItems, EventFor;
    ghost var s1 := AllAfter(was, VidVector, EventFor(mvrp));
    StandingSize(list, l, was);
    AfterMvrp(l, was, decls, EventFor(mvrp), msrp);
    log := MvrpPart(list, port, b, decl, l, was, decls, mvrp, heard);
    var more := MsrpPart(list, port, b, decl, l, s1, decls, msrp, heard + AllMean(MvrpItems(decls, was, mvrp), b.domainVid));
    log := log + more;
  }

  lemma StandingSize(list: AttributeList, l: seq<Attribute>, was: seq<State>)
    requires Standing(list, l, was)
    ensures |l| == |was|
  {
  }

  /** Node by node: one event for each attribute in use, and its state one step on. */
  lemma TickAt(list: AttributeList, l: seq<Attribute>, was: seq<State>, mvrp: bool, msrp: bool, i: nat)
    requires |was| == |l| && Standing(list, l, FiveTypes(was, mvrp, msrp)) && i < |l|
    ensures multiset(Log(l, was))[l[i]] == if InUse(was[i].applicant) then 1 else 0
    ensures l[i].View() == Ticked(was[i], mvrp, msrp)
  {
    hide Ticked, Attribute.View, Selected, AllAfter;
    TickCounts(l, was, Log(l, was));
    TickStates(was, EventFor(mvrp), EventFor(msrp));
  }

  lemma SeenChain(list: AttributeList, l: seq<Attribute>, was: seq<State>)
    requires Chain(list.first, l) && Seen(l, was)
    ensures |l| == |was| && NoRepeats(l)
  {
  }

  function DeclsOf(decl: Attribute -> Decl, l: seq<Attribute>): (ds: seq<Decl>)
    ensures |ds| == |l| && forall i | 0 <= i < |l| :: ds[i] == decl(l[i])
  {
    seq(|l|, i requires 0 <= i < |l| => decl(l[i]))
  }

  /** What the attributes of the list, in these states, put on the wire fits the send buffer. */
  ghost predicate TickFits(decls: seq<Decl>, was: seq<State>, mvrp: bool, msrp: bool, vid: u16, size: nat)
    requires |decls| == |was|
  {
    ItemsFit([], MvrpItems(decls, was, mvrp), vid, size) && ItemsFit([], MsrpItems(decls, was, msrp), vid, size)
  }

  /**
   The join-timer part of `mrp_periodic`: each attribute in use gets exactly one transmit event, and
   what the receivers hear in addition is exactly the leave-alls that are due and the answers.
   */
  method Tick(list: AttributeList, cmp: Order<Attribute>, port: Port, b: SendBuffer, decl: Attribute -> Decl, ghost nodes: seq<Attribute>)
    returns (log: seq<Attribute>)
    requires Chain(list.first, nodes) && forall x | x in nodes :: DeclType(decl(x)) == x.attr
    requires b.Valid() && b.msgs == []
    requires var l := SortPass(cmp, nodes);
             TickFits(DeclsOf(decl, l), Views(l), port.mvrpLeaveAllActive, port.msrpLeaveAllActive, b.domainVid, b.buf.Length)
    modifies list, nodes, port, b`sendPtr, b`sent, b`msgs, b`protocol, b.buf
    ensures Chain(list.first, SortPass(cmp, nodes))
    ensures forall x | x in nodes :: multiset(log)[x] == if InUse(old(x.applicant)) then 1 else 0
    ensures forall x | x in nodes ::
              x.View() == Ticked(old(x.View()), old(port.mvrpLeaveAllActive), old(port.msrpLeaveAllActive))
    ensures !port.mvrpLeaveAllActive && !port.msrpLeaveAllActive
    ensures b.Valid() && b.msgs == []
    ensures var l := SortPass(cmp, nodes);
            b.Heard() == old(b.Heard()) + LeaveAlls(old(port.mvrpLeaveAllActive), old(port.msrpLeaveAllActive)) +
                         Answers(DeclsOf(decl, l), old(Views(l)), old(port.mvrpLeaveAllActive), old(port.msrpLeaveAllActive), b.domainVid, 0)
  {
    ghost var l := SortPass(cmp, nodes);
    ghost var was, decls := Views(l), DeclsOf(decl, l);
    ghost var mvrp, msrp := port.mvrpLeaveAllActive, port.msrpLeaveAllActive;
    b.EndIs();
    ghost var heard := b.Heard();
    log := TickAll(list, cmp, port, b, decl, nodes, l, was, decls, mvrp, msrp, heard);
    SumAssoc(heard, AllMean(MvrpItems(decls, was, mvrp), b.domainVid), AllMean(MsrpItems(decls, was, msrp), b.domainVid));
    SumAssoc(heard, LeaveAlls(mvrp, msrp), Answers(decls, was, mvrp, msrp, b.domainVid, 0));
    hide Chain, Ticked, SortPass, FiveTypes, Log, Views, AllMean, Answers, MvrpItems, MsrpItems, SendBuffer.Heard;
    TickMeans(decls, was, mvrp, msrp, b.domainVid);
    forall x | x in nodes
      ensures multiset(log)[x] == if InUse(old(x.applicant)) then 1 else 0
      ensures x.View() == Ticked(old(x.View()), mvrp, msrp)
    {
      assert x in l;
      var i :| 0 <= i < |l| && l[i] == x;
      TickAt(list, l, was, mvrp, msrp, i);
      assert was[i] == old(x.View()) && was[i].applicant == old(x.applicant);
    }
  }

  /** The reordering and the events. */
  method TickAll(list: AttributeList, cmp: Order<Attribute>, port: Port, b: SendBuffer, decl: Attribute -> Decl,
                 ghost nodes: seq<Attribute>, ghost l: seq<Attribute>, ghost was: seq<State>, ghost decls: seq<Decl>,
                 ghost mvrp: bool, ghost msrp: bool, ghost heard: multiset<Rx>)
    returns (log: seq<Attribute>)
    requires Chain(list.first, nodes) && forall x | x in nodes :: DeclType(decl(x)) == x.attr
    requires l == SortPass(cmp, nodes) && was == Views(l) && decls == DeclsOf(decl, l) && Quiet(b, heard)
    requires mvrp == port.mvrpLeaveAllActive && msrp == port.msrpLeaveAllActive
    requires TickFits(decls, was, mvrp, msrp, b.domainVid, b.buf.Length)
    modifies list, nodes, port, b`sendPtr, b`sent, b`msgs, b`protocol, b.buf
    ensures (forall x: Attribute | x in nodes :: x in l) && |was| == |l| && forall i | 0 <= i < |l| :: was[i] == old(l[i].View())
    ensures log == Log(l, was) && Standing(list, l, FiveTypes(was, mvrp, msrp))
    ensures !port.mvrpLeaveAllActive && !port.msrpLeaveAllActive
    ensures Quiet(b, (heard + AllMean(MvrpItems(decls, was, mvrp), b.domainVid)) + AllMean(MsrpItems(decls, was, msrp), b.domainVid))
  {
    hide SortPass, TickFits, AllMean, Quiet, MvrpItems, MsrpItems, Views, DeclsOf, Attribute.View, FiveTypes, Log, DeclaredBy, Declares, Chain, Seen;
    Reorder(list, cmp, decl, nodes, l, was, decls);
    log := TickEvents(list, port, b, decl, l, was, decls, mvrp, msrp, heard);
  }

  /** `sort_attrs`, and what stays as it was. */
  method Reorder(list: AttributeList, cmp: Order<Attribute>, decl: Attribute -> Decl, ghost nodes: seq<Attribute>,
                 ghost l: seq<Attribute>, ghost was: seq<State>, ghost decls: seq<Decl>)
    requires Chain(list.first, nodes) && forall x | x in nodes :: DeclType(decl(x)) == x.attr
    requires l == SortPass(cmp, nodes) && was == Views(l) && decls == DeclsOf(decl, l)
    modifies list, Nodes(nodes)`next
    ensures Chain(list.first, l) && Seen(l, was) && DeclaredBy(l, decl, decls) && Declares(decls, was)
    ensures (forall x: Attribute | x in l :: x in nodes) && (forall x: Attribute | x in nodes :: x in l)
    ensures forall i | 0 <= i < |l| :: was[i] == old(l[i].View())
  {
    hide Chain, SortPass;
    list.SortAttrs(cmp, nodes);
    SameMembers(l, nodes);
    assert forall x: Attribute | x in l :: x in nodes;
    forall i | 0 <= i < |l|
      ensures l[i].View() == was[i] && DeclType(decls[i]) == was[i].attr
    {
      assert l[i] in nodes;
    }
  }

  // ----- what a tick says

  function LeaveAlls(mvrp: bool, msrp: bool): multiset<Rx> {
    (if mvrp then multiset{LeaveAllRx(VidVector)} else multiset{}) +
    (if msrp
     then multiset{LeaveAllRx(TalkerAdvertise), LeaveAllRx(TalkerFailed), LeaveAllRx(Listener), LeaveAllRx(Domain)}
     else multiset{})
  }

  /** What one attribute says: the message its machine makes of the transmit event, with what it declares. */
  function AnswerMeans(d: Decl, v: State, mvrp: bool, msrp: bool, vid: u16): multiset<Rx> {
    var sent := Answer(v, v.attr, EventFor(if v.attr == VidVector then mvrp else msrp));
    if sent.Some? then multiset{ValueRx(DeclType(d), DeclKey(d, vid), Code(sent.value), DeclFour(d))} else multiset{}
  }

  /** What the attributes from the `k`-th on say. */
  function Answers(decls: seq<Decl>, was: seq<State>, mvrp: bool, msrp: bool, vid: u16, k: nat): multiset<Rx>
    requires |decls| == |was| && k <= |was|
    decreases |was| - k
  {
    if k == |was| then multiset{}
    else AnswerMeans(decls[k], was[k], mvrp, msrp, vid) + Answers(decls, was, mvrp, msrp, vid, k + 1)
  }

  lemma OneType(d: Decl, v: State, mvrp: bool, msrp: bool, vid: u16)
    ensures AnswerMeans(d, v, mvrp, msrp, vid) ==
            AllMean(ItemOf(d, v, VidVector, EventFor(mvrp)), vid) +
            (AllMean(ItemOf(d, v, TalkerAdvertise, EventFor(msrp)), vid) + AllMean(ItemOf(d, v, TalkerFailed, EventFor(msrp)), vid)) +
            (AllMean(ItemOf(d, v, Listener, EventFor(msrp)), vid) + AllMean(ItemOf(d, v, Domain, EventFor(msrp)), vid))
  {
    hide EventFor, AllMean, ItemOf, AnswerMeans, TypeMeans;
    ItemMeans(d, v, VidVector, EventFor(mvrp), vid);
    ItemMeans(d, v, TalkerAdvertise, EventFor(msrp), vid);
    ItemMeans(d, v, TalkerFailed, EventFor(msrp), vid);
    ItemMeans(d, v, Listener, EventFor(msrp), vid);
    ItemMeans(d, v, Domain, EventFor(msrp), vid);
    AnswerIs(d, v, mvrp, msrp, vid);
  }

  function TypeMeans(d: Decl, v: State, e: MrpEvent, vid: u16): multiset<Rx> {
    var sent := Answer(v, v.attr, e);
    if sent.Some? then multiset{ValueRx(DeclType(d), DeclKey(d, vid), Code(sent.value), DeclFour(d))} else multiset{}
  }

  lemma AnswerIs(d: Decl, v: State, mvrp: bool, msrp: bool, vid: u16)
    ensures AnswerMeans(d, v, mvrp, msrp, vid) == TypeMeans(d, v, EventFor(if v.attr == VidVector then mvrp else msrp), vid)
  {
    hide Answer, DeclKey;
  }

  lemma ItemMeans(d: Decl, v: State, t: AttrType, e: MrpEvent, vid: u16)
    ensures AllMean(ItemOf(d, v, t, e), vid) == if v.attr == t then TypeMeans(d, v, e, vid) else multiset{}
  {
    hide Step, DeclKey, AllMean;
    MeanNone([], vid);
    var sent := Answer(v, t, e);
    if sent.Some? {
      MeanOne(Said(d, Code(sent.value)), vid);
    }
  }

  lemma {:induction false} AnswersByType(decls: seq<Decl>, was: seq<State>, mvrp: bool, msrp: bool, vid: u16, k: nat)
    requires |decls| == |was| && k <= |was|
    ensures Answers(decls, was, mvrp, msrp, vid, k) ==
            AllMean(ItemsFrom(decls, was, VidVector, EventFor(mvrp), k), vid) +
            (AllMean(ItemsFrom(decls, was, TalkerAdvertise, EventFor(msrp), k), vid) +
             AllMean(ItemsFrom(decls, was, TalkerFailed, EventFor(msrp), k), vid)) +
            (AllMean(ItemsFrom(decls, was, Listener, EventFor(msrp), k), vid) +
             AllMean(ItemsFrom(decls, was, Domain, EventFor(msrp), k), vid))
    decreases |was| - k
  {
    hide ItemOf, AllMean, AnswerMeans, EventFor, ItemsFrom;
    if k == |was| {
      ItemsEnd(decls, was, VidVector, EventFor(mvrp), [], vid);
      ItemsEnd(decls, was, TalkerAdvertise, EventFor(msrp), [], vid);
      ItemsEnd(decls, was, TalkerFailed, EventFor(msrp), [], vid);
      ItemsEnd(decls, was, Listener, EventFor(msrp), [], vid);
      ItemsEnd(decls, was, Domain, EventFor(msrp), [], vid);
    } else {
      AnswersByType(decls, was, mvrp, msrp, vid, k + 1);
      OneType(decls[k], was[k], mvrp, msrp, vid);
      ItemsUnfold(decls, was, VidVector, EventFor(mvrp), k, [], vid);
      ItemsUnfold(decls, was, TalkerAdvertise, EventFor(msrp), k, [], vid);
      ItemsUnfold(decls, was, TalkerFailed, EventFor(msrp), k, [], vid);
      ItemsUnfold(decls, was, Listener, EventFor(msrp), k, [], vid);
      ItemsUnfold(decls, was, Domain, EventFor(msrp), k, [], vid);
    }
  }

  /** The two PDUs together say the leave-alls and each attribute's answer once. */
  lemma TickMeans(decls: seq<Decl>, was: seq<State>, mvrp: bool, msrp: bool, vid: u16)
    requires |decls| == |was|
    ensures AllMean(MvrpItems(decls, was, mvrp), vid) + AllMean(MsrpItems(decls, was, msrp), vid) ==
            LeaveAlls(mvrp, msrp) + Answers(decls, was, mvrp, msrp, vid, 0)
  {
    hide ItemsFrom, AllMean, Answers, EventFor;
    AnswersByType(decls, was, mvrp, msrp, vid, 0);
    MvrpMeans(decls, was, mvrp, vid);
    MsrpMeans(decls, was, msrp, vid);
  }

  lemma MvrpMeans(decls: seq<Decl>, was: seq<State>, leaveAll: bool, vid: u16)
    requires |decls| == |was|
    ensures AllMean(MvrpItems(decls, was, leaveAll), vid) ==
            (if leaveAll then multiset{LeaveAllRx(VidVector)} else multiset{}) +
            AllMean(ItemsFrom(decls, was, VidVector, EventFor(leaveAll), 0), vid)
  {
    hide ItemsFrom, AllMean, EventFor;
    var answers := ItemsFrom(decls, was, VidVector, EventFor(leaveAll), 0);
    MeanNone(answers, vid);
    MeanOne(Everyone(VidVector), vid);
    MeanConcat(if leaveAll then [Everyone(VidVector)] else [], answers, vid);
  }

  lemma MsrpMeans(decls: seq<Decl>, was: seq<State>, leaveAll: bool, vid: u16)
    requires |decls| == |was|
    ensures AllMean(MsrpItems(decls, was, leaveAll), vid) ==
            (if leaveAll
             then multiset{LeaveAllRx(TalkerAdvertise), LeaveAllRx(TalkerFailed), LeaveAllRx(Listener), LeaveAllRx(Domain)}
             else multiset{}) +
            ((AllMean(ItemsFrom(decls, was, TalkerAdvertise, EventFor(leaveAll), 0), vid) +
              AllMean(ItemsFrom(decls, was, TalkerFailed, EventFor(leaveAll), 0), vid)) +
             (AllMean(ItemsFrom(decls, was, Listener, EventFor(leaveAll), 0), vid) +
              AllMean(ItemsFrom(decls, was, Domain, EventFor(leaveAll), 0), vid)))
  {
    hide ItemsFrom, AllMean, EventFor;
    var e := EventFor(leaveAll);
    var a1, a2 := ItemsFrom(decls, was, TalkerAdvertise, e, 0), ItemsFrom(decls, was, TalkerFailed, e, 0);
    var a3, a4 := ItemsFrom(decls, was, Listener, e, 0), ItemsFrom(decls, was, Domain, e, 0);
    MeanNone(a4, vid);
    MeanConcat(a1, a2 + (a3 + (a4 + [])), vid);
    MeanConcat(a2, a3 + (a4 + []), vid);
    MeanConcat(a3, a4 + [], vid);
    LeaveAllMeans(leaveAll, MsrpAnswers(decls, was, e), vid);
  }

  lemma LeaveAllMeans(leaveAll: bool, rest: seq<Item>, vid: u16)
    ensures AllMean(MsrpLeaveAlls(leaveAll, rest), vid) ==
            (if leaveAll
             then multiset{LeaveAllRx(TalkerAdvertise), LeaveAllRx(TalkerFailed), LeaveAllRx(Listener), LeaveAllRx(Domain)}
             else multiset{}) + AllMean(rest, vid)
  {
    hide AllMean;
    if leaveAll {
      var r4 := [Everyone(Domain)] + rest;
      var r3 := [Everyone(Listener)] + r4;
      var r2 := [Everyone(TalkerFailed)] + r3;
      MeanHead(Everyone(TalkerAdvertise), r2, vid);
      MeanHead(Everyone(TalkerFailed), r3, vid);
      MeanHead(Everyone(Listener), r4, vid);
      MeanHead(Everyone(Domain), rest, vid);
    }
  }

  // ----- ticks that always fit

  /** With no talker to announce, every list of fewer than 255 items fits a buffer of the margin and more. */
  lemma {:induction false} SmallItemsFit(ms: seq<Message>, xs: seq<Item>, vid: u16, size: nat, n: nat)
    requires AllComplete(ms) && KeepsMargin(Size(ms), size) && BASE + MARGIN <= size
    requires forall i | 0 <= i < |ms| :: |ms[i].events| <= n
    requires n + |xs| < 255 && forall i | 0 <= i < |xs| :: ItemType(xs[i]) != TalkerAdvertise && ItemType(xs[i]) != TalkerFailed
    ensures ItemsFit(ms, xs, vid, size)
    decreases |xs|
  {
    if xs != [] {
      var x := xs[0];
      ShortItem(ms, x, vid, size, n);
      SmallItemsFit(Left(ms, x, vid, size), xs[1..], vid, size, n + 1);
    }
  }

  lemma ShortItem(ms: seq<Message>, x: Item, vid: u16, size: nat, n: nat)
    requires AllComplete(ms) && KeepsMargin(Size(ms), size) && BASE + MARGIN <= size && n < 255
    requires forall i | 0 <= i < |ms| :: |ms[i].events| <= n < 255
    requires ItemType(x) != TalkerAdvertise && ItemType(x) != TalkerFailed
    ensures ItemFits(ms, x, size)
    ensures var out := Left(ms, x, vid, size);
            && AllComplete(out) && KeepsMargin(Size(out), size)
            && forall i | 0 <= i < |out| :: |out[i].events| <= n + 1
  {
    hide PduBytes, Transmit, CanMerge;
    EmptyPdu();
    if x.Said? {
      ShortVectors(ms, x.decl);
      TransmitCounts(ms, x.decl, x.event, vid, n);
    }
  }
}
