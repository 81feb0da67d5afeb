/**
 Two participants of one LAN: the machines of an attribute at the participant that declares it and
 at a peer, joined by the messages they send. What the declarer believes about the peer is proved to
 be true, whatever else is said on the LAN.
 */
module MrpLink {
  import opened Bytes
  import opened MrpWire
  import opened MrpState
  import opened MrpHistory

  datatype Link = Link(here: State, peer: State)

  /**
   What can happen: an operation at either end that sends and hears nothing, a transmission of either
   end, heard by the other with the leave-all first, and something said by a third participant.
   */
  datatype LinkOp =
    | AtHere(op: Op)
    | AtPeer(op: Op)
    | Say(leaveAll: bool, four: int)
    | PeerSays(leaveAll: bool, four: int)
    | ThirdSays(op: Op)

  predicate Silent(op: Op) {
    !op.Transmission? && !op.Receive? && !op.LeaveAllHeard?
  }

  /** A peer that is not restarted. */
  predicate Proper(l: LinkOp) {
    match l
    case AtHere(op) => Silent(op)
    case AtPeer(op) => Silent(op) && !op.MadBegin?
    case ThirdSays(op) => op.Receive? || op.LeaveAllHeard?
    case _ => true
  }

  function Hears(s: State, leaveAll: bool, sent: Option<Packed>, four: int): State {
    var s1 := if leaveAll then Apply(s, LeaveAllHeard).state else s;
    if sent.Some? then Apply(s1, Receive(sent.value, four)).state else s1
  }

  function Happens(l: Link, op: LinkOp): Link {
    match op
    case AtHere(o) => l.(here := Apply(l.here, o).state)
    case AtPeer(o) => l.(peer := Apply(l.peer, o).state)
    case Say(leaveAll, four) =>
      var o := Apply(l.here, Transmission(leaveAll));
      Link(o.state, Hears(l.peer, leaveAll, o.sent, four))
    case PeerSays(leaveAll, four) =>
      var o := Apply(l.peer, Transmission(leaveAll));
      Link(Hears(l.here, leaveAll, o.sent, four), o.state)
    case ThirdSays(o) => Link(Apply(l.here, o).state, Apply(l.peer, o).state)
  }

  function Follow(l: Link, ops: seq<LinkOp>): Link
    decreases |ops|
  {
    if ops == [] then l else Follow(Happens(l, ops[0]), ops[1..])
  }

  /** All operations are proper and the peer stays in use. */
  predicate PeerStays(l: Link, ops: seq<LinkOp>)
    decreases |ops|
  {
    InUse(l.peer.applicant) && (ops == [] || (Proper(ops[0]) && PeerStays(Happens(l, ops[0]), ops[1..])))
  }

  /** A calm declarer is registered at the peer. */
  predicate Trusted(l: Link) {
    TimerInvariant(l.peer) && (l.here.applicant == QA ==> l.peer.registrar == IN)
  }

  // ----- one operation

  /** What one end hears keeps its timer in order, and the registrar as the message says. */
  lemma HearsRegistrar(s: State, leaveAll: bool, sent: Option<Packed>, four: int)
    requires InUse(s.applicant) && TimerInvariant(s)
    ensures var t := Hears(s, leaveAll, sent, four);
            && InUse(t.applicant) && TimerInvariant(t)
            && (sent.Some? && sent.value in {PNew, PJoinIn, PJoinMt} ==> t.registrar == IN)
            && (sent == Some(PLv) ==> t.registrar != IN)
            && (!leaveAll && (sent.None? || sent.value == PIn || sent.value == PMt) ==> t.registrar == s.registrar)
  {
    hide Apply;
    var s1 := if leaveAll then Apply(s, LeaveAllHeard).state else s;
    if leaveAll {
      HeardOne(s, LeaveAllHeard);
    }
    if sent.Some? {
      HeardOne(s1, Receive(sent.value, four));
    }
  }

  lemma HeardOne(s: State, op: Op)
    requires InUse(s.applicant) && TimerInvariant(s) && (op.Receive? || op.LeaveAllHeard?)
    ensures var t := Apply(s, op).state;
            && InUse(t.applicant) && TimerInvariant(t)
            && (t.registrar == IN <==> if IsJoin(op) then true else if IsLeave(op) then false else s.registrar == IN)
            && (!IsJoin(op) && !IsLeave(op) ==> t.registrar == s.registrar)
  {
    hide Apply, Sends;
    assert [op][1..] == [];
    RegistrarStepByOp(s, op);
    TimerStep(s, op);
    DeclarationStep(s, op);
  }

  predicate SaysJoin(sent: Option<Packed>) {
    sent == Some(PNew) || sent == Some(PJoinIn) || sent == Some(PJoinMt)
  }

  /** Nothing but its own message makes a participant calm and active, and all that is heard but New wakes it. */
  lemma CalmedBySending(s: State, op: Op)
    requires Apply(s, op).state.applicant == QA
    ensures op.Transmission? ==> SaysJoin(Apply(s, op).sent) || (!op.leaveAll && s.applicant == QA && Apply(s, op).sent.None?)
    ensures !op.Transmission? ==> s.applicant == QA && !op.LeaveAllHeard? && (op.Receive? ==> op.packed == PNew)
  {
    hide Step;
    if op.Transmission? {
      if InUse(s.applicant) {
        SendsCalm(s, op.leaveAll);
      }
    } else if Raised(s, op).Some? && InUse(s.applicant) {
      ApplyRaised(s, op);
      var x := Raised(s, op).value;
      HearsCalm(x.0, x.1, x.2);
    } else {
      ApplyCases(s, op);
      if Apply(s, op).state.applicant != s.applicant {
        var x := Raised(s, op).value;
        HearsCalm(x.0, x.1, x.2);
      }
    }
  }

  lemma SendsCalm(s: State, leaveAll: bool)
    requires InUse(s.applicant)
    ensures var o := Step(s, if leaveAll then TxLeaveAll else Tx, 0);
            o.state.applicant == QA ==> SaysJoin(o.sent) || (!leaveAll && s.applicant == QA && o.sent.None?)
  {
    hide RegistrarStep;
    RegistrarKeeps(s, if leaveAll then TxLeaveAll else Tx, 0);
  }

  lemma HearsCalm(s: State, e: MrpEvent, four: int)
    requires e != Tx && e != TxLeaveAll
    ensures Step(s, e, four).state.applicant == QA ==> s.applicant == QA && e !in {RxJoinIn, RxIn, RxJoinMt, RxMt, RxLeave, RxLeaveAll}
  {
    hide RegistrarStep;
    RegistrarKeeps(s, e, four);
  }

  lemma HearsCalmly(s: State, leaveAll: bool, sent: Option<Packed>, four: int)
    requires Hears(s, leaveAll, sent, four).applicant == QA
    ensures s.applicant == QA && !leaveAll && (sent.None? || sent == Some(PNew))
  {
    hide Apply;
    var s1 := if leaveAll then Apply(s, LeaveAllHeard).state else s;
    if sent.Some? {
      CalmedBySending(s1, Receive(sent.value, four));
    }
    if leaveAll {
      CalmedBySending(s, LeaveAllHeard);
    }
  }

  lemma PeerKeeps(s: State, op: Op)
    requires InUse(s.applicant) && TimerInvariant(s)
    requires op == Transmission(false) || (Silent(op) && !op.MadBegin?)
    ensures TimerInvariant(Apply(s, op).state)
    ensures Apply(s, op).state.registrar == IN <==> s.registrar == IN
  {
    hide Apply;
    assert [op][1..] == [];
    RegistrarStepByOp(s, op);
    TimerStep(s, op);
  }

  lemma TrustStep(l: Link, op: LinkOp)
    requires Trusted(l) && InUse(l.peer.applicant) && Proper(op)
    ensures Trusted(Happens(l, op))
  {
    hide Apply, Hears, TimerInvariant, InUse;
    var m := Happens(l, op);
    match op
    case AtHere(o) =>
      if m.here.applicant == QA {
        CalmedBySending(l.here, o);
      }
    case AtPeer(o) => PeerKeeps(l.peer, o);
    case Say(leaveAll, four) =>
      HearsRegistrar(l.peer, leaveAll, Apply(l.here, Transmission(leaveAll)).sent, four);
      if m.here.applicant == QA {
        CalmedBySending(l.here, Transmission(leaveAll));
      }
    case PeerSays(leaveAll, four) =>
      TimerStep(l.peer, Transmission(leaveAll));
      if m.here.applicant == QA {
        HearsCalmly(l.here, leaveAll, Apply(l.peer, Transmission(leaveAll)).sent, four);
        PeerKeeps(l.peer, Transmission(false));
      }
    case ThirdSays(o) =>
      HeardOne(l.peer, o);
      if m.here.applicant == QA {
        CalmedBySending(l.here, o);
      }
  }

  /**
   Trust is justified: in every run of two participants on a LAN that loses nothing, with whatever
   others say, a participant that is calm about its declaration is registered at the peer.
   */
  lemma {:induction false} CalmIsRegistered(l: Link, ops: seq<LinkOp>)
    requires Trusted(l) && PeerStays(l, ops)
    ensures Trusted(Follow(l, ops)) && InUse(Follow(l, ops).peer.applicant)
    decreases |ops|
  {
    hide Happens, Trusted, InUse, Proper;
    if ops != [] {
      TrustStep(l, ops[0]);
      CalmIsRegistered(Happens(l, ops[0]), ops[1..]);
    }
  }

  // ----- declarations arrive

  lemma AliveHears(s: State, leaveAll: bool, sent: Option<Packed>, four: int)
    requires Alive(s.applicant)
    ensures Alive(Hears(s, leaveAll, sent, four).applicant)
  {
    hide Apply, Alive;
    AliveStep(s, LeaveAllHeard);
    if sent.Some? {
      AliveStep(if leaveAll then Apply(s, LeaveAllHeard).state else s, Receive(sent.value, four));
    }
  }

  lemma {:induction false} AliveFollows(l: Link, ops: seq<LinkOp>)
    requires Alive(l.here.applicant)
    ensures Alive(Follow(l, ops).here.applicant)
    decreases |ops|
  {
    hide Apply, Alive, Hears;
    if ops != [] {
      match ops[0] {
        case AtHere(op) => AliveStep(l.here, op);
        case AtPeer(_) =>
        case Say(leaveAll, _) => AliveStep(l.here, Transmission(leaveAll));
        case PeerSays(leaveAll, four) => AliveHears(l.here, leaveAll, Apply(l.peer, Transmission(leaveAll)).sent, four);
        case ThirdSays(op) => AliveStep(l.here, op);
      }
      AliveFollows(Happens(l, ops[0]), ops[1..]);
    }
  }

  /** Ticks of the declarer with nothing in between. */
  function Ticks(fours: seq<int>): (ops: seq<LinkOp>)
    ensures |ops| == |fours|
  {
    seq(|fours|, i requires 0 <= i < |fours| => Say(false, fours[i]))
  }

  lemma {:induction false} TicksCalm(l: Link, fours: seq<int>)
    requires InUse(l.here.applicant) && Declaring(l.here.applicant) && Alive(l.here.applicant) && !l.here.remove
    requires InUse(l.peer.applicant) && TimerInvariant(l.peer)
    ensures PeerStays(l, Ticks(fours))
    ensures |fours| >= Dues(l.here.applicant, l.here.registrar) ==> Follow(l, Ticks(fours)).here.applicant == QA
    decreases |fours|
  {
    hide Apply, Hears, Dues, TimerInvariant;
    if fours == [] {
      CalmAtLast(l.here.applicant, l.here.registrar);
    } else {
      var ops := Ticks(fours);
      var o := Apply(l.here, Transmission(false));
      assert ops[0] == Say(false, fours[0]) && ops[1..] == Ticks(fours[1..]);
      HearsRegistrar(l.peer, false, o.sent, fours[0]);
      TickDeclares(l.here);
      TicksCalm(Happens(l, ops[0]), fours[1..]);
    }
  }

  lemma CalmAtLast(a: Applicant, r: Registrar)
    requires Declaring(a) && Alive(a)
    ensures Dues(a, r) <= 0 ==> a == QA
  {
  }

  lemma TickDeclares(s: State)
    requires InUse(s.applicant) && Declaring(s.applicant) && Alive(s.applicant) && !s.remove
    ensures var t := Apply(s, Transmission(false)).state;
            && InUse(t.applicant) && Declaring(t.applicant) && Alive(t.applicant) && !t.remove
            && Dues(t.applicant, t.registrar) == if Dues(s.applicant, s.registrar) > 0 then Dues(s.applicant, s.registrar) - 1 else 0
  {
    hide Apply, Dues, Sends, Declaring, Alive;
    var op := Transmission(false);
    assert [op][1..] == [];
    DeclarationStep(s, op);
    AliveStep(s, op);
    QuietStep(s);
    TickKeepsRemove(s);
  }

  lemma TickKeepsRemove(s: State)
    requires !s.remove
    ensures !Apply(s, Transmission(false)).state.remove
  {
    hide RegistrationStep, MakeTx, Sends, AfterTx;
  }

  /**
   Declarations arrive: whatever has happened on the LAN since the attribute began, if it is declared
   now, three ticks without disturbance make the peer register it.
   */
  lemma DeclarationsArrive(l: Link, ops: seq<LinkOp>, fours: seq<int>)
    requires Trusted(l) && Alive(l.here.applicant) && PeerStays(l, ops) && |fours| >= 3
    requires var m := Follow(l, ops).here; InUse(m.applicant) && Declaring(m.applicant) && !m.remove
    ensures Follow(Follow(l, ops), Ticks(fours)).peer.registrar == IN
  {
    hide Apply, Happens, Follow, Ticks, PeerStays;
    var m := Follow(l, ops);
    CalmIsRegistered(l, ops);
    AliveFollows(l, ops);
    TicksCalm(m, fours);
    CalmIsRegistered(m, Ticks(fours));
  }

  /** Withdrawals arrive: the tick after a leave ends the peer's registration, and its timer then reports it. */
  lemma WithdrawalsArrive(l: Link, four: int)
    requires l.here.applicant == LA && InUse(l.peer.applicant) && TimerInvariant(l.peer)
    ensures var m := Happens(l, Say(false, four)); var n := Happens(m, AtPeer(LeaveTimerPoll(true)));
            && m.peer.registrar != IN && n.peer.registrar == MT
            && (l.peer.registrar == IN ==> n.peer.leave)
  {
    hide Apply, Hears;
    AnswerMeaning(l.here, false);
    HearsRegistrar(l.peer, false, Some(PLv), four);
    LeaveHeard(l.peer, four);
    var m := Happens(l, Say(false, four));
    ExpiryEnds(m.peer);
  }

  lemma LeaveHeard(s: State, four: int)
    requires InUse(s.applicant) && TimerInvariant(s)
    ensures Hears(s, false, Some(PLv), four).registrar == if s.registrar == IN then LV else s.registrar
  {
    hide Apply, Step, RegistrationStep;
    RegistrationRaised(s, Receive(PLv, four));
    RegistrarFields(RegistrationOf(s), RxLeave, four);
  }

  lemma ExpiryEnds(s: State)
    requires InUse(s.applicant) && TimerInvariant(s) && s.registrar != IN
    ensures var t := Apply(s, LeaveTimerPoll(true)).state; t.registrar == MT && (s.registrar == LV ==> t.leave)
  {
    hide Step;
    TimerStep(s, LeaveTimerPoll(true));
  }

  // ----- what the declarer was asked for

  /** Whether the last local request at the declarer was New or Join. */
  function Asked(before: bool, ops: seq<LinkOp>): bool
    decreases |ops|
  {
    if ops == [] then before
    else Asked(if ops[0].AtHere? then Requested(before, [ops[0].op]) else before, ops[1..])
  }

  predicate HereStays(l: Link, ops: seq<LinkOp>)
    decreases |ops|
  {
    InUse(l.here.applicant) && (ops == [] || (Proper(ops[0]) && HereStays(Happens(l, ops[0]), ops[1..])))
  }

  lemma HearsDeclares(s: State, leaveAll: bool, sent: Option<Packed>, four: int)
    requires InUse(s.applicant)
    ensures Declaring(Hears(s, leaveAll, sent, four).applicant) == Declaring(s.applicant)
  {
    hide Apply, Declaring, Sends;
    HeardDeclares(s, LeaveAllHeard);
    if sent.Some? {
      HeardDeclares(if leaveAll then Apply(s, LeaveAllHeard).state else s, Receive(sent.value, four));
    }
  }

  lemma HeardDeclares(s: State, op: Op)
    requires InUse(s.applicant) && (op.Receive? || op.LeaveAllHeard?)
    ensures InUse(Apply(s, op).state.applicant) && Declaring(Apply(s, op).state.applicant) == Declaring(s.applicant)
  {
    hide Apply, Declaring, Sends;
    assert [op][1..] == [];
    DeclarationStep(s, op);
  }

  lemma AskedStep(l: Link, op: LinkOp)
    requires InUse(l.here.applicant) && Proper(op) && InUse(Happens(l, op).here.applicant)
    ensures Declaring(Happens(l, op).here.applicant) == Asked(Declaring(l.here.applicant), [op])
  {
    hide Apply, Hears, Declaring, InUse, Removes, Requested;
    assert [op][1..] == [];
    match op
    case AtHere(o) => DeclarationStep(l.here, o);
    case AtPeer(_) =>
    case Say(leaveAll, _) =>
      DeclarationStep(l.here, Transmission(leaveAll));
      NoRequest(Declaring(l.here.applicant), leaveAll);
    case PeerSays(leaveAll, four) => HearsDeclares(l.here, leaveAll, Apply(l.peer, Transmission(leaveAll)).sent, four);
    case ThirdSays(o) => HeardDeclares(l.here, o);
  }

  lemma NoRequest(before: bool, leaveAll: bool)
    ensures Requested(before, [Transmission(leaveAll)]) == before
  {
    assert [Transmission(leaveAll)][1..] == [];
  }

  lemma {:induction false} DeclaredIsAsked(l: Link, ops: seq<LinkOp>)
    requires HereStays(l, ops)
    ensures Declaring(Follow(l, ops).here.applicant) <==> Asked(Declaring(l.here.applicant), ops)
    decreases |ops|
  {
    hide Happens, Declaring, InUse, Proper, Requested;
    if ops != [] {
      assert [ops[0]][1..] == [];
      HereNext(l, ops);
      AskedStep(l, ops[0]);
      DeclaredIsAsked(Happens(l, ops[0]), ops[1..]);
    }
  }

  lemma HereNext(l: Link, ops: seq<LinkOp>)
    requires HereStays(l, ops) && ops != []
    ensures InUse(l.here.applicant) && Proper(ops[0]) && InUse(Happens(l, ops[0]).here.applicant)
  {
    hide Happens, InUse, Proper;
  }

  /**
   From request to registration: the application asks for a declaration and does not take it back;
   three ticks after whatever else has happened, the peer has it registered.
   */
  lemma RequestsArrive(l: Link, ops: seq<LinkOp>, fours: seq<int>)
    requires Trusted(l) && Alive(l.here.applicant) && HereStays(l, ops) && PeerStays(l, ops) && |fours| >= 3
    requires Asked(Declaring(l.here.applicant), ops) && !Follow(l, ops).here.remove
    ensures Follow(Follow(l, ops), Ticks(fours)).peer.registrar == IN
  {
    hide Apply, Happens, Ticks, Declaring, Asked;
    DeclaredIsAsked(l, ops);
    StillInUse(l, ops);
    DeclarationsArrive(l, ops, fours);
  }

  lemma {:induction false} StillInUse(l: Link, ops: seq<LinkOp>)
    requires HereStays(l, ops)
    ensures InUse(Follow(l, ops).here.applicant)
    decreases |ops|
  {
    hide Happens, InUse, Proper;
    if ops != [] {
      StillInUse(Happens(l, ops[0]), ops[1..]);
    }
  }
}
