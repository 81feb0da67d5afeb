/**
 The applicant and registrar state machines of one MRP attribute (`mrp_update_state` in avb_mrp.c,
 section 10.7 of IEEE 802.1Q), for a full participant on a single port.
 */
module MrpState {
  import opened Bytes
  import opened MrpWire

  datatype Applicant = Unused | Disabled | VO | VP | VN | AN | AA | QA | LA | AO | QO | AP | QP | LO

  datatype Registrar = IN | LV | MT

  datatype MrpEvent =
    | Begin | New | Flush | Join | Lv
    | RxNew | RxJoinIn | RxIn | RxJoinMt | RxMt | RxLeave | RxLeaveAll | Redeclare
    | Periodic | Tx | TxLeaveAll | LeaveTimer | Dummy

  /** The three-packed attribute events, in the order of their codes. */
  datatype Packed = PNew | PJoinIn | PIn | PJoinMt | PMt | PLv

  function Code(p: Packed): Three {
    match p
    case PNew => 0
    case PJoinIn => 1
    case PIn => 2
    case PJoinMt => 3
    case PMt => 4
    case PLv => 5
  }

  /** The fields of `mrp_attribute_state` that the machines read or write. */
  datatype State = State(
    attr: AttrType,
    applicant: Applicant,
    remove: bool,
    registrar: Registrar,
    leaveTimer: bool,
    joinNew: bool, join: bool, leave: bool,
    four: int,
    here: bool)

  datatype Outcome = Outcome(state: State, sent: Option<Packed>)

  predicate InUse(a: Applicant) {
    a != Unused && a != Disabled
  }

  // ----- the machines as tables

  /** The part of an attribute that the registrar works on. */
  datatype Registration = Registration(registrar: Registrar, leaveTimer: bool, joinNew: bool, join: bool, leave: bool, four: int)

  function RegistrationOf(s: State): Registration {
    Registration(s.registrar, s.leaveTimer, s.joinNew, s.join, s.leave, s.four)
  }

  function RegistrationStep(r: Registration, e: MrpEvent, four: int): Registration {
    if e == Begin then r.(registrar := MT)
    else if e == RxNew then
      r.(registrar := IN, leaveTimer := r.leaveTimer && r.registrar != LV, joinNew := true, four := four)
    else if e == RxJoinIn || e == RxJoinMt then
      var indicated := r.registrar == MT || (r.four == ASKING_FAILED && four == READY);
      r.(registrar := IN, leaveTimer := r.leaveTimer && r.registrar != LV,
         join := r.join || indicated, four := if indicated then four else r.four)
    else if e == RxLeave || e == RxLeaveAll || e == TxLeaveAll || e == Redeclare then
      if r.registrar == IN then r.(registrar := LV, leaveTimer := true) else r
    else if e == LeaveTimer || e == Flush then
      if r.registrar == LV then r.(registrar := MT, leave := true, four := four) else r.(registrar := MT)
    else r
  }

  function RegistrarStep(s: State, e: MrpEvent, four: int): State {
    var r := RegistrationStep(RegistrationOf(s), e, four);
    s.(registrar := r.registrar, leaveTimer := r.leaveTimer, joinNew := r.joinNew, join := r.join, leave := r.leave, four := r.four)
  }

  /** Net effect of the events that do not transmit, with the fall-through of the receive cases. */
  function ApplicantStep(a: Applicant, e: MrpEvent): Applicant {
    match e
    case Begin => VO
    case New => VN
    case Join =>
      if a == VO || a == LO then VP else if a == LA then AA else if a == AO then AP else if a == QO then QP else a
    case Lv =>
      if a == QP then QO else if a == AP then AO else if a == VP then VO
      else if a in {VN, AN, AA, QA} then LA else a
    case RxJoinIn | RxIn | RxJoinMt | RxMt =>
      if a == QA then AA else if a == QO then AO else if a == QP then AP else if a == LO then VO else a
    case RxLeave | RxLeaveAll | Redeclare =>
      if a in {VO, AO, QO} then LO else if a == AN then VN else if a in {AA, QA, AP, QP} then VP else a
    case Periodic =>
      if a == QA then AA else if a == QP then AP else a
    case _ => a
  }

  function MakeTx(a: Applicant, r: Registrar, leaveAll: bool): Packed {
    if a in {VP, AA, AP, QA, QP} then
      if leaveAll && a == VP then (if r == IN then PIn else PMt)
      else if leaveAll || a != QP then (if r == IN then PJoinIn else PJoinMt)
      else PNew
    else if a == LA then PLv
    else if a == LO then (if r == IN then PIn else PMt)
    else PNew
  }

  predicate Sends(a: Applicant, leaveAll: bool) {
    a in {VP, VN, AN, AA, LA, AP} || (if leaveAll then a in {QA, QP} else a == LO)
  }

  /** The end of `doTx`: a removal that was asked for happens unless the attribute belongs here. */
  function Removal(s: State): State {
    if s.remove then s.(remove := false, applicant := if s.here || s.attr == Domain then s.applicant else Unused) else s
  }

  function AfterTx(a: Applicant, r: Registrar): Applicant {
    if a == VP then AA else if a == VN then AN
    else if a == AN then (if r != IN then AA else QA)
    else if a == AA || a == AP then QA
    else if a == LA || a == LO then VO else a
  }

  function AfterTxLeaveAll(a: Applicant): Applicant {
    if a in {VO, LA, AO, QO} then LO else if a == VN then AN
    else if a in {AN, AA, AP, QP} then QA else a
  }

  /** What the applicant does once the registrar has been updated. */
  function Respond(r: State, e: MrpEvent): Outcome {
    if e == Tx || e == TxLeaveAll then
      var sends := Sends(r.applicant, e == TxLeaveAll);
      var s1 := if sends then Removal(r) else r;
      Outcome(s1.(applicant := if e == Tx then AfterTx(s1.applicant, s1.registrar) else AfterTxLeaveAll(s1.applicant)),
              if sends then Some(MakeTx(r.applicant, r.registrar, e == TxLeaveAll)) else None)
    else
      Outcome(r.(applicant := ApplicantStep(r.applicant, e)), None)
  }

  function Step(s: State, e: MrpEvent, four: int): Outcome {
    Respond(RegistrarStep(s, e, four), e)
  }

  // ----- the code

  /** The per-port leave-all state that a received leave-all resets. */
  class Port {
    var msrpLeaveAllActive: bool
    var mvrpLeaveAllActive: bool

    constructor ()
      ensures !msrpLeaveAllActive && !mvrpLeaveAllActive
    {
      msrpLeaveAllActive, mvrpLeaveAllActive := false, false;
    }
  }

  class Attribute {
    var attr: AttrType
    var applicant: Applicant
    var remove: bool
    var registrar: Registrar
    var leaveTimer: bool
    var joinNew: bool
    var join: bool
    var leave: bool
    var four: int
    var here: bool
    var next: Attribute?

    function View(): State
      reads this`attr, this`applicant, this`remove, this`registrar, this`leaveTimer,
            this`joinNew, this`join, this`leave, this`four, this`here
    {
      State(attr, applicant, remove, registrar, leaveTimer, joinNew, join, leave, four, here)
    }

    /** The first switch of `mrp_update_state`. */
    method UpdateRegistrar(e: MrpEvent, fourPacked: int, port: Port)
      modifies this`registrar, this`leaveTimer, this`joinNew, this`join, this`leave, this`four, port
      ensures RegistrationOf(View()) == RegistrationStep(RegistrationOf(old(View())), e, fourPacked)
      ensures port.mvrpLeaveAllActive == (old(port.mvrpLeaveAllActive) && !(e == RxLeaveAll && attr == VidVector))
      ensures port.msrpLeaveAllActive == (old(port.msrpLeaveAllActive) && !(e == RxLeaveAll && attr != VidVector))
    {
      if e == Begin {
        registrar := MT;
      } else if e == RxNew {
        if registrar == LV { leaveTimer := false; }
        registrar := IN;
        joinNew := true;
        four := fourPacked;
      } else if e == RxJoinIn || e == RxJoinMt {
        if registrar == LV { leaveTimer := false; }
        if registrar == MT || (four == ASKING_FAILED && fourPacked == READY) {
          join := true;
          four := fourPacked;
        }
        registrar := IN;
      } else if e == RxLeave || e == RxLeaveAll || e == TxLeaveAll || e == Redeclare {
        if e == RxLeaveAll {
          if attr == VidVector { port.mvrpLeaveAllActive := false; } else { port.msrpLeaveAllActive := false; }
        }
        if registrar == IN {
          leaveTimer := true;
          registrar := LV;
        }
      } else if e == LeaveTimer || e == Flush {
        if registrar == LV {
          leave := true;
          four := fourPacked;
        }
        registrar := MT;
      }
    }

    /** The receive cases, which run into each other from JoinIn over In to JoinMt and Mt. */
    method ReceiveFallThrough(e: MrpEvent)
      requires e in {RxJoinIn, RxIn, RxJoinMt, RxMt}
      modifies this`applicant
      ensures applicant == ApplicantStep(old(applicant), e)
    {
      if e == RxJoinIn {
        if applicant == AA { applicant := QA; }
        else if applicant == AO { applicant := QO; }
        else if applicant == AP { applicant := QP; }
      }
      if e == RxJoinIn || e == RxIn {
        if applicant == AA { applicant := QA; }
      }
      if applicant == QA { applicant := AA; }
      else if applicant == QO { applicant := AO; }
      else if applicant == QP { applicant := AP; }
      else if applicant == LO { applicant := VO; }
    }

    /** `makeTxEvent` */
    method MakeTxEvent(leaveAll: bool) returns (p: Packed)
      ensures p == MakeTx(applicant, registrar, leaveAll)
    {
      p := PNew;
      match applicant
      case VP | AA | AP | QA | QP =>
        if leaveAll && applicant == VP {
          p := if registrar == IN then PIn else PMt;
        } else if leaveAll || applicant != QP {
          p := if registrar == IN then PJoinIn else PJoinMt;
        }
      case VN | AN => p := PNew;
      case LA => p := PLv;
      case LO => p := if registrar == IN then PIn else PMt;
      case _ =>
    }

    /** The first switch of the transmit events: the message, and the removal at the end of `doTx`. */
    method SendEvent(leaveAll: bool) returns (sent: Option<Packed>)
      modifies this`applicant, this`remove
      ensures View() == if Sends(old(applicant), leaveAll) then Removal(old(View())) else old(View())
      ensures sent == if Sends(old(applicant), leaveAll) then Some(MakeTx(old(applicant), registrar, leaveAll)) else None
    {
      sent := None;
      if Sends(applicant, leaveAll) {
        var vector := MakeTxEvent(leaveAll);
        sent := Some(vector);
        if remove {
          if !here && attr != Domain { applicant := Unused; }
          remove := false;
        }
      }
    }

    /** The transmission cases of the second switch. */
    method Settle(leaveAll: bool)
      modifies this`applicant
      ensures applicant == if leaveAll then AfterTxLeaveAll(old(applicant)) else AfterTx(old(applicant), registrar)
    {
      if leaveAll {
        match applicant
        case VO | LA | AO | QO => applicant := LO;
        case VN => applicant := AN;
        case AN | AA | AP | QP => applicant := QA;
        case _ =>
      } else {
        match applicant
        case VP => applicant := AA;
        case VN => applicant := AN;
        case AN => applicant := if registrar != IN then AA else QA;
        case AA | AP => applicant := QA;
        case LA | LO => applicant := VO;
        case _ =>
      }
    }

    /** The local, receive and timer cases of the second switch of `mrp_update_state`. */
    method UpdateApplicant(e: MrpEvent)
      requires e != Tx && e != TxLeaveAll
      modifies this`applicant
      ensures applicant == ApplicantStep(old(applicant), e)
    {
      match e
      case Begin => applicant := VO;
      case New => applicant := VN;
      case Join =>
        if applicant == VO || applicant == LO { applicant := VP; }
        else if applicant == LA { applicant := AA; }
        else if applicant == AO { applicant := AP; }
        else if applicant == QO { applicant := QP; }
      case Lv =>
        if applicant == QP { applicant := QO; }
        else if applicant == AP { applicant := AO; }
        else if applicant == VP { applicant := VO; }
        else if applicant in {VN, AN, AA, QA} { applicant := LA; }
      case RxJoinIn | RxIn | RxJoinMt | RxMt => ReceiveFallThrough(e);
      case RxLeave | RxLeaveAll | Redeclare =>
        if applicant in {VO, AO, QO} { applicant := LO; }
        else if applicant == AN { applicant := VN; }
        else if applicant in {AA, QA, AP, QP} { applicant := VP; }
      case Periodic =>
        if applicant == QA { applicant := AA; } else if applicant == QP { applicant := AP; }
      case _ =>
    }

    /** `mrp_update_state`; the message to send, if any, is the result. */
    method UpdateState(e: MrpEvent, fourPacked: int, port: Port) returns (sent: Option<Packed>)
      modifies this`applicant, this`remove, this`registrar, this`leaveTimer,
               this`joinNew, this`join, this`leave, this`four, port
      ensures Outcome(View(), sent) == Step(old(View()), e, fourPacked)
      ensures port.mvrpLeaveAllActive == (old(port.mvrpLeaveAllActive) && !(e == RxLeaveAll && attr == VidVector))
      ensures port.msrpLeaveAllActive == (old(port.msrpLeaveAllActive) && !(e == RxLeaveAll && attr != VidVector))
    {
      hide RegistrarStep, RegistrationStep, Respond;
      ghost var was := View();
      UpdateRegistrar(e, fourPacked, port);
      RegistrarIs(was, View(), e, fourPacked);
      sent := UpdateApplicantState(e);
    }

    /** The second switch of `mrp_update_state`. */
    method UpdateApplicantState(e: MrpEvent) returns (sent: Option<Packed>)
      modifies this`applicant, this`remove
      ensures Outcome(View(), sent) == Respond(old(View()), e)
    {
      hide ApplicantStep, AfterTx, AfterTxLeaveAll, MakeTx, Sends;
      if e == Tx || e == TxLeaveAll {
        sent := SendEvent(e == TxLeaveAll);
        Settle(e == TxLeaveAll);
      } else {
        sent := None;
        UpdateApplicant(e);
      }
    }
  }

  // ----- runs

  /** What can happen to one attribute; no caller raises Flush or Redeclare. */
  datatype Op =
    | MadBegin
    | MadJoin(isNew: bool)
    | MadLeave
    | Receive(packed: Packed, four: int)
    | LeaveAllHeard
    | PeriodicTick
    | Transmission(leaveAll: bool)
    | LeaveTimerPoll(due: bool)
    | Deliver
    | Abandon
    | Retype(attr: AttrType)

  function ReceiveEvent(p: Packed): MrpEvent {
    match p
    case PNew => RxNew
    case PJoinIn => RxJoinIn
    case PIn => RxIn
    case PJoinMt => RxJoinMt
    case PMt => RxMt
    case PLv => RxLeave
  }

  /**
   One operation. Received events, timers and transmissions reach only attributes in use; a leave
   timer fires only while it is active, and firing stops it.
   */
  function Apply(s: State, op: Op): Outcome {
    match op
    case MadBegin => Step(s.(leaveTimer := false), Begin, 0)
    case MadJoin(isNew) => Step(s.(remove := false), if isNew then New else Join, 0)
    case MadLeave => Step(s, Lv, 0)
    case Receive(p, four) => if InUse(s.applicant) then Step(s, ReceiveEvent(p), four) else Outcome(s, None)
    case LeaveAllHeard => if InUse(s.applicant) then Step(s, RxLeaveAll, 0) else Outcome(s, None)
    case PeriodicTick => if InUse(s.applicant) && s.attr == VidVector then Step(s, Periodic, 0) else Outcome(s, None)
    case Transmission(leaveAll) =>
      if InUse(s.applicant) then Step(s, if leaveAll then TxLeaveAll else Tx, 0) else Outcome(s, None)
    case LeaveTimerPoll(due) =>
      if s.applicant != Unused && s.leaveTimer && due then Step(s.(leaveTimer := false), LeaveTimer, 0) else Outcome(s, None)
    case Deliver => Outcome(s.(joinNew := false, join := false, leave := false), None)
    case Abandon => Outcome(s.(here := false, remove := true), None)
    case Retype(t) => Outcome(s.(attr := t), None)
  }

  function Run(s: State, ops: seq<Op>): State
    decreases |ops|
  {
    if ops == [] then s else Run(Apply(s, ops[0]).state, ops[1..])
  }

  // ----- declarations

  predicate Declaring(a: Applicant) {
    a in {VP, VN, AN, AA, QA, AP, QP}
  }

  /** Whether the last local request, if any, was New or Join. */
  function Requested(before: bool, ops: seq<Op>): bool
    decreases |ops|
  {
    if ops == [] then before
    else Requested(match ops[0]
                   case MadJoin(_) => true
                   case MadBegin | MadLeave => false
                   case _ => before, ops[1..])
  }

  /** The one way out of use: a transmission of an abandoned attribute. */
  predicate Removes(s: State, op: Op) {
    op.Transmission? && s.remove && !s.here && s.attr != Domain && InUse(s.applicant) && Sends(s.applicant, op.leaveAll)
  }

  predicate NeverRemoved(s: State, ops: seq<Op>)
    decreases |ops|
  {
    ops == [] || (!Removes(s, ops[0]) && NeverRemoved(Apply(s, ops[0]).state, ops[1..]))
  }

  /** The registrar's half of a step leaves the applicant's half alone. */
  lemma RegistrarKeeps(s: State, e: MrpEvent, four: int)
    ensures var r := RegistrarStep(s, e, four);
            r.applicant == s.applicant && r.remove == s.remove && r.here == s.here && r.attr == s.attr
  {
    hide RegistrationStep;
  }

  lemma RegistrarIs(s: State, t: State, e: MrpEvent, four: int)
    requires t.applicant == s.applicant && t.remove == s.remove && t.here == s.here && t.attr == s.attr
    requires RegistrationOf(t) == RegistrationStep(RegistrationOf(s), e, four)
    ensures t == RegistrarStep(s, e, four)
  {
    hide RegistrationStep;
  }

  lemma EventDeclares(a: Applicant, e: MrpEvent)
    requires InUse(a) && e != Tx && e != TxLeaveAll
    ensures InUse(ApplicantStep(a, e))
    ensures Declaring(ApplicantStep(a, e)) ==
            if e == New || e == Join then true else if e == Begin || e == Lv then false else Declaring(a)
  {
  }

  lemma TransmissionDeclares(a: Applicant, r: Registrar)
    requires InUse(a)
    ensures InUse(AfterTx(a, r)) && Declaring(AfterTx(a, r)) == Declaring(a)
    ensures InUse(AfterTxLeaveAll(a)) && Declaring(AfterTxLeaveAll(a)) == Declaring(a)
  {
  }

  /** Which machine event an operation on an attribute in use raises, and on what state. */
  function Raised(s: State, op: Op): Option<(State, MrpEvent, int)> {
    match op
    case MadBegin => Some((s.(leaveTimer := false), Begin, 0))
    case MadJoin(isNew) => Some((s.(remove := false), if isNew then New else Join, 0))
    case MadLeave => Some((s, Lv, 0))
    case Receive(p, four) => Some((s, ReceiveEvent(p), four))
    case LeaveAllHeard => Some((s, RxLeaveAll, 0))
    case PeriodicTick => if s.attr == VidVector then Some((s, Periodic, 0)) else None
    case Transmission(leaveAll) => Some((s, if leaveAll then TxLeaveAll else Tx, 0))
    case LeaveTimerPoll(due) => if s.leaveTimer && due then Some((s.(leaveTimer := false), LeaveTimer, 0)) else None
    case _ => None
  }

  lemma ApplyRaised(s: State, op: Op)
    requires InUse(s.applicant)
    ensures Raised(s, op).Some? ==> var x := Raised(s, op).value; Apply(s, op) == Step(x.0, x.1, x.2)
    ensures Raised(s, op).None? ==> Apply(s, op).sent == None && Apply(s, op).state.applicant == s.applicant
  {
  }

  lemma StepDeclares(s: State, e: MrpEvent, four: int)
    requires InUse(s.applicant)
    ensures var gone := (e == Tx || e == TxLeaveAll) && Sends(s.applicant, e == TxLeaveAll) && s.remove && !s.here && s.attr != Domain;
            var t := Step(s, e, four).state.applicant;
            if gone then t == Unused
            else InUse(t) && Declaring(t) ==
                 if e == New || e == Join then true else if e == Begin || e == Lv then false else Declaring(s.applicant)
  {
    hide RegistrarStep, Sends, ApplicantStep, AfterTx, AfterTxLeaveAll, Declaring;
    RegistrarKeeps(s, e, four);
    var r := RegistrarStep(s, e, four).registrar;
    if e == Tx || e == TxLeaveAll {
      TransmissionDeclares(s.applicant, r);
      UnusedStays(r);
    } else {
      EventDeclares(s.applicant, e);
    }
  }

  lemma UnusedStays(r: Registrar)
    ensures AfterTx(Unused, r) == Unused && AfterTxLeaveAll(Unused) == Unused
  {
  }

  lemma DeclarationStep(s: State, op: Op)
    requires InUse(s.applicant)
    ensures Removes(s, op) <==> !InUse(Apply(s, op).state.applicant)
    ensures Removes(s, op) ==> Apply(s, op).state.applicant == Unused
    ensures !Removes(s, op) ==> Declaring(Apply(s, op).state.applicant) == Requested(Declaring(s.applicant), [op])
  {
    hide Step, Sends, Declaring;
    assert [op][1..] == [];
    ApplyRaised(s, op);
    if Raised(s, op).Some? {
      var x := Raised(s, op).value;
      StepDeclares(x.0, x.1, x.2);
    }
  }

  /**
   Declaration safety: in every run the applicant stays in use until the one removing transmission,
   and up to then it is declaring exactly when the last local request was New or Join.
   */
  lemma {:induction false} DeclarationSafety(s: State, ops: seq<Op>)
    requires InUse(s.applicant) && NeverRemoved(s, ops)
    ensures InUse(Run(s, ops).applicant)
    ensures Declaring(Run(s, ops).applicant) <==> Requested(Declaring(s.applicant), ops)
    decreases |ops|
  {
    hide Apply, Removes, Declaring, InUse;
    if ops != [] {
      DeclarationStep(s, ops[0]);
      DeclarationSafety(Apply(s, ops[0]).state, ops[1..]);
      assert [ops[0]][1..] == [];
    }
  }

  /** From a Begin on, the whole history of an attribute that is never removed. */
  lemma DeclaredFromBegin(s: State, ops: seq<Op>)
    requires NeverRemoved(Apply(s, MadBegin).state, ops)
    ensures Declaring(Run(Apply(s, MadBegin).state, ops).applicant) <==> Requested(false, ops)
  {
    DeclarationSafety(Apply(s, MadBegin).state, ops);
  }

  // ----- announcement, withdrawal, quiescence

  function NewsSent(s: State, ops: seq<Op>): nat
    decreases |ops|
  {
    if ops == [] then 0
    else (if Apply(s, ops[0]).sent == Some(PNew) then 1 else 0) + NewsSent(Apply(s, ops[0]).state, ops[1..])
  }

  predicate NoWithdrawal(ops: seq<Op>) {
    forall i | 0 <= i < |ops| :: !ops[i].MadBegin? && !ops[i].MadLeave?
  }

  function NewsOwed(a: Applicant): nat {
    if a == VN then 2 else if a == AN then 1 else 0
  }

  lemma AnnouncementStep(s: State, op: Op)
    requires InUse(s.applicant) && !Removes(s, op) && !op.MadBegin? && !op.MadLeave?
    ensures NewsOwed(s.applicant) <=
            NewsOwed(Apply(s, op).state.applicant) + if Apply(s, op).sent == Some(PNew) then 1 else 0
  {
    hide Step, NewsOwed, Sends;
    ApplyRaised(s, op);
    if Raised(s, op).Some? {
      var x := Raised(s, op).value;
      StepOwes(x.0, x.1, x.2);
    }
  }

  lemma StepOwes(s: State, e: MrpEvent, four: int)
    requires e != Begin && e != Lv
    requires !((e == Tx || e == TxLeaveAll) && Sends(s.applicant, e == TxLeaveAll) && s.remove && !s.here && s.attr != Domain)
    ensures var o := Step(s, e, four);
            NewsOwed(s.applicant) <= NewsOwed(o.state.applicant) + if o.sent == Some(PNew) then 1 else 0
  {
    hide RegistrarStep;
    RegistrarKeeps(s, e, four);
    if s.applicant == VN || s.applicant == AN {
    }
  }

  /** After New, two NEW messages go out before the applicant leaves the announcing states. */
  lemma {:induction false} Announcement(s: State, ops: seq<Op>)
    requires InUse(s.applicant) && NeverRemoved(s, ops) && NoWithdrawal(ops)
    ensures NewsOwed(s.applicant) <= NewsOwed(Run(s, ops).applicant) + NewsSent(s, ops)
    ensures s.applicant == VN && Run(s, ops).applicant !in {VN, AN} ==> NewsSent(s, ops) >= 2
    decreases |ops|
  {
    hide Apply, Removes, InUse;
    if ops != [] {
      AnnouncementStep(s, ops[0]);
      DeclarationStep(s, ops[0]);
      Announcement(Apply(s, ops[0]).state, ops[1..]);
    }
  }

  /** A withdrawal is announced: the leaving state ends with a Lv message, a new declaration or a restart. */
  lemma LeavingIsAnnounced(s: State, op: Op)
    requires s.applicant == LA && Apply(s, op).state.applicant != LA
    ensures Apply(s, op).sent == Some(PLv) || op.MadJoin? || op.MadBegin?
    ensures Apply(s, op).sent != None <==> op.Transmission?
  {
    hide Step;
    ApplyRaised(s, op);
    if Raised(s, op).Some? {
      var x := Raised(s, op).value;
      LeavingStep(x.0, x.1, x.2);
    }
  }

  lemma LeavingStep(s: State, e: MrpEvent, four: int)
    requires s.applicant == LA
    ensures Step(s, e, four).sent == if e == Tx || e == TxLeaveAll then Some(PLv) else None
    ensures Step(s, e, four).state.applicant != LA ==> e in {Tx, TxLeaveAll, New, Join, Begin}
  {
    hide RegistrarStep;
    RegistrarKeeps(s, e, four);
  }

  /** How many transmissions are still due when nothing else happens. */
  function Rank(a: Applicant): nat {
    if a == VN then 3 else if a == AN || a == VP then 2
    else if a in {AA, AP, LA, LO} then 1 else 0
  }

  function Quiet(n: nat): seq<Op> {
    seq(n, _ => Transmission(false))
  }

  function Sent(s: State, ops: seq<Op>): nat
    decreases |ops|
  {
    if ops == [] then 0
    else (if Apply(s, ops[0]).sent.Some? then 1 else 0) + Sent(Apply(s, ops[0]).state, ops[1..])
  }

  lemma RankTx(a: Applicant, r: Registrar)
    ensures Sends(a, false) <==> Rank(a) > 0
    ensures if Sends(a, false) then Rank(AfterTx(a, r)) < Rank(a) else AfterTx(a, r) == a
    ensures !InUse(a) ==> Rank(a) == 0
  {
  }

  lemma TxRegistersNothing(r: Registration)
    ensures RegistrationStep(r, Tx, 0) == r
  {
  }

  lemma RankFalls(s: State)
    ensures var o := Apply(s, Transmission(false));
            if o.sent.Some? then Rank(o.state.applicant) < Rank(s.applicant) else o.state.applicant == s.applicant
    ensures Apply(s, Transmission(false)).sent.Some? <==> Rank(s.applicant) > 0
  {
    hide RegistrationStep, MakeTx, Sends, AfterTx, Rank;
    TxRegistersNothing(RegistrationOf(s));
    RankTx(s.applicant, s.registrar);
    RankTx(Unused, s.registrar);
    RankTx(Applicant.Disabled, s.registrar);
  }

  /** Left alone, an attribute sends at most as many messages as its rank, hence at most three, and is then quiet. */
  lemma {:induction false} Quiescence(s: State, n: nat)
    ensures Sent(s, Quiet(n)) + Rank(Run(s, Quiet(n)).applicant) <= Rank(s.applicant) <= 3
    ensures n >= Rank(s.applicant) ==> Rank(Run(s, Quiet(n)).applicant) == 0
    decreases n
  {
    hide Apply, InUse;
    if n == 0 {
      assert Quiet(n) == [];
    } else {
      RankFalls(s);
      assert Quiet(n)[0] == Transmission(false) && Quiet(n)[1..] == Quiet(n - 1);
      Quiescence(Apply(s, Transmission(false)).state, n - 1);
    }
  }

  // ----- registrations

  predicate TimerInvariant(s: State) {
    s.leaveTimer <==> s.registrar == LV
  }

  /** The leave timer runs exactly while the registrar is leaving. */
  lemma {:induction false} TimerSafety(s: State, ops: seq<Op>)
    requires TimerInvariant(s)
    ensures TimerInvariant(Run(s, ops))
    decreases |ops|
  {
    if ops != [] {
      TimerStep(s, ops[0]);
      TimerSafety(Apply(s, ops[0]).state, ops[1..]);
    }
  }

  lemma StepIsRegistrar(s: State, e: MrpEvent, four: int)
    ensures var t := Step(s, e, four).state; var r := RegistrarStep(s, e, four);
            t.registrar == r.registrar && t.leaveTimer == r.leaveTimer && t.leave == r.leave
  {
    hide RegistrarStep, ApplicantStep, AfterTx, AfterTxLeaveAll, MakeTx, Sends;
  }

  lemma RegistrationShape(r: Registration, e: MrpEvent, four: int)
    requires e != Flush
    ensures var t := RegistrationStep(r, e, four);
            if e == Begin || e == LeaveTimer then t.registrar == MT && t.leaveTimer == r.leaveTimer
            else (r.leaveTimer <==> r.registrar == LV) ==> (t.leaveTimer <==> t.registrar == LV) && (r.registrar != MT ==> t.registrar != MT)
    ensures RegistrationStep(r, e, four).leave == (r.leave || (e == LeaveTimer && r.registrar == LV))
  {
  }

  lemma RegistrarShape(s: State, e: MrpEvent, four: int)
    requires e != Flush
    ensures var t := RegistrarStep(s, e, four);
            if e == Begin || e == LeaveTimer then t.registrar == MT && t.leaveTimer == s.leaveTimer
            else TimerInvariant(s) ==> TimerInvariant(t) && (s.registrar != MT ==> t.registrar != MT)
    ensures RegistrarStep(s, e, four).leave == (s.leave || (e == LeaveTimer && s.registrar == LV))
  {
    hide RegistrationStep;
    RegistrationShape(RegistrationOf(s), e, four);
  }

  /** How a machine event changes the registrar; the two that empty it come with a stopped timer. */
  lemma StepRegistrar(s: State, e: MrpEvent, four: int)
    requires e != Flush
    ensures var t := Step(s, e, four).state; var r := RegistrarStep(s, e, four);
            t.registrar == r.registrar && t.leaveTimer == r.leaveTimer && t.leave == r.leave
    ensures var t := Step(s, e, four).state;
            if e == Begin || e == LeaveTimer then t.registrar == MT && t.leaveTimer == s.leaveTimer
            else TimerInvariant(s) ==> TimerInvariant(t) && (s.registrar != MT ==> t.registrar != MT)
    ensures var t := Step(s, e, four).state;
            t.leave == (s.leave || (e == LeaveTimer && s.registrar == LV))
  {
    hide Step, RegistrarStep;
    StepIsRegistrar(s, e, four);
    RegistrarShape(s, e, four);
  }

  lemma TimerStep(s: State, op: Op)
    ensures TimerInvariant(s) || op.MadBegin? ==> TimerInvariant(Apply(s, op).state)
    ensures !op.MadBegin? && !op.Deliver? && TimerInvariant(s) ==>
              var t := Apply(s, op).state;
              if op == LeaveTimerPoll(true) && s.registrar == LV && s.applicant != Unused then t.registrar == MT && t.leave
              else t.leave == s.leave && (s.registrar != MT ==> t.registrar != MT)
  {
    hide Step, RegistrarStep;
    match op
    case MadBegin => StepRegistrar(s.(leaveTimer := false), Begin, 0);
    case MadJoin(isNew) => StepRegistrar(s.(remove := false), if isNew then New else Join, 0);
    case MadLeave => StepRegistrar(s, Lv, 0);
    case Receive(p, four) => StepRegistrar(s, ReceiveEvent(p), four);
    case LeaveAllHeard => StepRegistrar(s, RxLeaveAll, 0);
    case PeriodicTick => StepRegistrar(s, Periodic, 0);
    case Transmission(leaveAll) => StepRegistrar(s, if leaveAll then TxLeaveAll else Tx, 0);
    case LeaveTimerPoll(due) => StepRegistrar(s.(leaveTimer := false), LeaveTimer, 0);
    case _ =>
  }

  /** A registration is lost only by a restart or by a leave timer that ran out, and then a leave is indicated. */
  lemma RegistrationEnds(s: State, op: Op)
    requires TimerInvariant(s) && s.registrar != MT
    ensures Apply(s, op).state.registrar == MT ==>
              op.MadBegin? || (op == LeaveTimerPoll(true) && s.registrar == LV && Apply(s, op).state.leave)
  {
    hide Step;
    TimerStep(s, op);
  }

  /** A leave indication is queued only by losing a registration. */
  lemma LeaveIndication(s: State, op: Op)
    requires TimerInvariant(s) && !s.leave
    ensures Apply(s, op).state.leave ==>
              op == LeaveTimerPoll(true) && s.registrar == LV && Apply(s, op).state.registrar == MT
  {
    hide Step, RegistrarStep;
    TimerStep(s, op);
    if op.MadBegin? {
      StepRegistrar(s.(leaveTimer := false), Begin, 0);
    }
  }

  /** A rejoin while leaving cancels the loss: the timer stops and no leave is queued. */
  lemma RejoinCancels(s: State, op: Op)
    requires s.registrar == LV && InUse(s.applicant) && op.Receive? && op.packed in {PNew, PJoinIn, PJoinMt}
    ensures var t := Apply(s, op).state; t.registrar == IN && !t.leaveTimer && t.leave == s.leave
  {
    hide ApplicantStep, AfterTx, AfterTxLeaveAll, MakeTx, Sends;
  }

  // ----- indications over whole runs

  /** The state before operation number `n`. */
  function StateAt(s: State, ops: seq<Op>, n: nat): State
    requires n <= |ops|
  {
    Run(s, ops[..n])
  }

  lemma {:induction false} RunAppend(s: State, ops: seq<Op>, op: Op)
    ensures Run(s, ops + [op]) == Apply(Run(s, ops), op).state
    decreases |ops|
  {
    hide Apply;
    if ops == [] {
      assert [op][1..] == [];
    } else {
      assert (ops + [op])[1..] == ops[1..] + [op];
      RunAppend(Apply(s, ops[0]).state, ops[1..], op);
    }
  }

  lemma NextState(s: State, ops: seq<Op>, n: nat)
    requires n < |ops|
    ensures StateAt(s, ops, n + 1) == Apply(StateAt(s, ops, n), ops[n]).state
  {
    hide Apply;
    assert ops[..n + 1] == ops[..n] + [ops[n]];
    RunAppend(s, ops[..n], ops[n]);
  }

  /** Operation `n` makes a leave indication pending. */
  predicate Queues(s: State, ops: seq<Op>, n: nat)
    requires n < |ops|
  {
    !StateAt(s, ops, n).leave && StateAt(s, ops, n + 1).leave
  }

  /** Operation `n` ends a registration for good: it is there before, and never again in the run. */
  ghost predicate EndsAt(s: State, ops: seq<Op>, n: nat)
    requires n < |ops|
  {
    StateAt(s, ops, n).registrar != MT && forall m | n < m <= |ops| :: StateAt(s, ops, m).registrar == MT
  }

  lemma {:induction false} LastLoss(s: State, ops: seq<Op>) returns (n: nat)
    requires s.registrar != MT && Run(s, ops).registrar == MT
    ensures n < |ops| && EndsAt(s, ops, n)
    decreases |ops|
  {
    hide Run;
    assert ops[..|ops|] == ops && StateAt(s, ops, 0).registrar != MT by { RunNothing(s, ops); }
    var k := |ops|;
    while StateAt(s, ops, k).registrar == MT
      invariant 0 <= k <= |ops|
      invariant forall m | k < m <= |ops| :: StateAt(s, ops, m).registrar == MT
      decreases k
    {
      k := k - 1;
    }
    n := k;
  }

  lemma RunNothing(s: State, ops: seq<Op>)
    ensures Run(s, ops[..0]) == s
  {
  }

  /**
   Registrar safety over a whole run: a registration that is gone at the end was ended for good by a
   restart, or by a leave timer that ran out while leaving and left a leave indication pending.
   */
  lemma RegistrationSafety(s: State, ops: seq<Op>) returns (n: nat)
    requires TimerInvariant(s) && s.registrar != MT && Run(s, ops).registrar == MT
    ensures n < |ops| && EndsAt(s, ops, n)
    ensures ops[n].MadBegin? ||
            (ops[n] == LeaveTimerPoll(true) && StateAt(s, ops, n).registrar == LV && StateAt(s, ops, n + 1).leave)
  {
    n := LastLoss(s, ops);
    hide Apply, Run;
    TimerSafety(s, ops[..n]);
    NextState(s, ops, n);
    RegistrationEnds(StateAt(s, ops, n), ops[n]);
  }

  /** In a run every leave indication is queued by a leave timer that ends a registration; a rejoin queues none. */
  lemma QueuedByLoss(s: State, ops: seq<Op>, n: nat)
    requires TimerInvariant(s) && n < |ops| && Queues(s, ops, n)
    ensures ops[n] == LeaveTimerPoll(true) && StateAt(s, ops, n).registrar == LV && StateAt(s, ops, n + 1).registrar == MT
  {
    hide Apply, Run;
    TimerSafety(s, ops[..n]);
    NextState(s, ops, n);
    LeaveIndication(StateAt(s, ops, n), ops[n]);
  }
}
