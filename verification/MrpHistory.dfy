/**
 What the two machines of an attribute add up to over a run: the registrar and the indications as
 functions of the messages heard, the applicant and its messages in terms of what the letters of its
 states stand for.
 */
module MrpHistory {
  import opened Bytes
  import opened MrpWire
  import opened MrpState

  // ----- the registrar remembers the last message

  predicate IsJoin(op: Op) {
    op.Receive? && op.packed in {PNew, PJoinIn, PJoinMt}
  }

  predicate IsLeave(op: Op) {
    op.LeaveAllHeard? || op == Transmission(true) || (op.Receive? && op.packed == PLv)
  }

  /** Whether the last of the joins, leaves and restarts, if any, was a received join. */
  function Joined(before: bool, ops: seq<Op>): bool
    decreases |ops|
  {
    if ops == [] then before
    else Joined(if IsJoin(ops[0]) then true else if IsLeave(ops[0]) || ops[0].MadBegin? then false else before, ops[1..])
  }

  /** Whether a leave, which nothing has answered yet, waits for the timer: the rest of the memory. */
  function Doubted(joined: bool, before: bool, ops: seq<Op>): bool
    decreases |ops|
  {
    if ops == [] then before
    else Doubted(Joined(joined, [ops[0]]),
                 if IsJoin(ops[0]) || ops[0].MadBegin? || ops[0] == LeaveTimerPoll(true) then false
                 else if IsLeave(ops[0]) then joined || before else before, ops[1..])
  }

  /** The registrar's half of a step is that of the table, whatever the applicant does. */
  lemma StepRegistration(s: State, e: MrpEvent, four: int)
    ensures RegistrationOf(Step(s, e, four).state) == RegistrationStep(RegistrationOf(s), e, four)
  {
    hide RegistrationStep, ApplicantStep, AfterTx, AfterTxLeaveAll, MakeTx, Sends;
  }

  /** The table of the registrar, field by field. */
  lemma RegistrarFields(r: Registration, e: MrpEvent, four: int)
    ensures RegistrationStep(r, e, four).registrar ==
            if e in {RxNew, RxJoinIn, RxJoinMt} then IN
            else if e in {Begin, LeaveTimer, Flush} then MT
            else if e in {RxLeave, RxLeaveAll, TxLeaveAll, Redeclare} && r.registrar == IN then LV else r.registrar
  {
  }

  lemma IndicationFields(r: Registration, e: MrpEvent, four: int)
    ensures var t := RegistrationStep(r, e, four);
            var again := (e == RxJoinIn || e == RxJoinMt) && (r.registrar == MT || (r.four == 1 && four == 2));
            var left := (e == LeaveTimer || e == Flush) && r.registrar == LV;
            && t.joinNew == (r.joinNew || e == RxNew) && t.join == (r.join || again) && t.leave == (r.leave || left)
            && t.four == if e == RxNew || again || left then four else r.four
  {
  }

  lemma RegistrationRaised(s: State, op: Op)
    requires InUse(s.applicant)
    ensures var x := Raised(s, op); var t := RegistrationOf(Apply(s, op).state);
            if x.Some? then t == RegistrationStep(RegistrationOf(x.value.0), x.value.1, x.value.2)
            else if op.Deliver? then t == RegistrationOf(s).(joinNew := false, join := false, leave := false)
            else t == RegistrationOf(s)
  {
    hide Step, RegistrationStep;
    ApplyRaised(s, op);
    if Raised(s, op).Some? {
      var x := Raised(s, op).value;
      StepRegistration(x.0, x.1, x.2);
    }
  }

  lemma RegistrarStepByOp(s: State, op: Op)
    requires InUse(s.applicant) && TimerInvariant(s)
    ensures var t := Apply(s, op).state.registrar;
            && (t == IN <==> Joined(s.registrar == IN, [op]))
            && (t == LV <==> Doubted(s.registrar == IN, s.registrar == LV, [op]))
  {
    hide Step, Apply, RegistrationStep;
    assert [op][1..] == [];
    RegistrationRaised(s, op);
    if Raised(s, op).Some? {
      var x := Raised(s, op).value;
      RegistrarFields(RegistrationOf(x.0), x.1, x.2);
    }
  }

  /**
   Registration safety, both ways: as long as an attribute stays in use its registrar is IN exactly
   if the last of the received joins, the leaves and the restarts was a join, and LV exactly if a
   leave has followed a join and neither an answer nor the timer has come since.
   */
  lemma {:induction false} RegisteredIff(s: State, ops: seq<Op>)
    requires InUse(s.applicant) && TimerInvariant(s) && NeverRemoved(s, ops)
    ensures Run(s, ops).registrar == IN <==> Joined(s.registrar == IN, ops)
    ensures Run(s, ops).registrar == LV <==> Doubted(s.registrar == IN, s.registrar == LV, ops)
    decreases |ops|
  {
    hide Apply, Removes, InUse, IsJoin, IsLeave;
    if ops != [] {
      var op, t := ops[0], Apply(s, ops[0]).state;
      assert [op][1..] == [];
      RegistrarStepByOp(s, op);
      TimerStep(s, op);
      DeclarationStep(s, op);
      RegisteredIff(t, ops[1..]);
    }
  }

  // ----- indications

  datatype Indication = JoinNew | JoinAgain | Left

  predicate Pending(s: State, k: Indication) {
    match k
    case JoinNew => s.joinNew
    case JoinAgain => s.join
    case Left => s.leave
  }

  /** What an operation on an attribute in use calls for: New always, a join where there was no registration or a listener has become ready. */
  predicate Calls(s: State, op: Op, k: Indication) {
    match k
    case JoinNew => op.Receive? && op.packed == PNew
    case JoinAgain =>
      op.Receive? && (op.packed == PJoinIn || op.packed == PJoinMt) && (s.registrar == MT || (s.four == 1 && op.four == 2))
    case Left => op == LeaveTimerPoll(true) && s.registrar == LV
  }

  predicate PendingIn(r: Registration, k: Indication) {
    match k
    case JoinNew => r.joinNew
    case JoinAgain => r.join
    case Left => r.leave
  }

  predicate EventCalls(r: Registration, e: MrpEvent, four: int, k: Indication) {
    match k
    case JoinNew => e == RxNew
    case JoinAgain => (e == RxJoinIn || e == RxJoinMt) && (r.registrar == MT || (r.four == 1 && four == 2))
    case Left => (e == LeaveTimer || e == Flush) && r.registrar == LV
  }

  lemma EventPending(r: Registration, e: MrpEvent, four: int, k: Indication)
    ensures PendingIn(RegistrationStep(r, e, four), k) <==> PendingIn(r, k) || EventCalls(r, e, four, k)
  {
    hide RegistrationStep;
    IndicationFields(r, e, four);
  }

  lemma CallsRaised(s: State, op: Op, k: Indication)
    requires TimerInvariant(s)
    ensures Calls(s, op, k) <==>
            Raised(s, op).Some? && var x := Raised(s, op).value; EventCalls(RegistrationOf(x.0), x.1, x.2, k)
  {
  }

  /** An indication is pending exactly if it was called for or was pending and not told. */
  lemma IndicationStep(s: State, op: Op, k: Indication)
    requires InUse(s.applicant) && TimerInvariant(s)
    ensures Pending(Apply(s, op).state, k) <==> !op.Deliver? && (Pending(s, k) || Calls(s, op, k))
  {
    hide Step, Apply, RegistrationStep, EventCalls, Calls;
    RegistrationRaised(s, op);
    CallsRaised(s, op, k);
    if Raised(s, op).Some? {
      var x := Raised(s, op).value;
      EventPending(RegistrationOf(x.0), x.1, x.2, k);
    }
  }

  /** The parameter that goes with an indication is that of the message, and zero for a leave. */
  lemma IndicatedFour(s: State, op: Op)
    requires InUse(s.applicant) && TimerInvariant(s)
    ensures Apply(s, op).state.four ==
            if Calls(s, op, JoinNew) || Calls(s, op, JoinAgain) then op.four else if Calls(s, op, Left) then 0 else s.four
  {
    hide Step, Apply, RegistrationStep;
    RegistrationRaised(s, op);
    if Raised(s, op).Some? {
      var x := Raised(s, op).value;
      IndicationFields(RegistrationOf(x.0), x.1, x.2);
    }
  }

  function Queued(s: State, ops: seq<Op>, k: Indication): nat
    decreases |ops|
  {
    if ops == [] then 0
    else
      var t := Apply(s, ops[0]).state;
      (if !Pending(s, k) && Pending(t, k) then 1 else 0) + Queued(t, ops[1..], k)
  }

  /** How often the application is told. */
  function Told(s: State, ops: seq<Op>, k: Indication): nat
    decreases |ops|
  {
    if ops == [] then 0
    else (if ops[0].Deliver? && Pending(s, k) then 1 else 0) + Told(Apply(s, ops[0]).state, ops[1..], k)
  }

  lemma PendingStays(s: State, op: Op, k: Indication)
    ensures Pending(s, k) && !op.Deliver? ==> Pending(Apply(s, op).state, k)
    ensures op.Deliver? ==> !Pending(Apply(s, op).state, k)
  {
    hide Step;
    match op
    case MadBegin => StepPending(s.(leaveTimer := false), Begin, 0, k);
    case MadJoin(isNew) => StepPending(s.(remove := false), if isNew then New else Join, 0, k);
    case MadLeave => StepPending(s, Lv, 0, k);
    case Receive(p, four) => StepPending(s, ReceiveEvent(p), four, k);
    case LeaveAllHeard => StepPending(s, RxLeaveAll, 0, k);
    case PeriodicTick => StepPending(s, Periodic, 0, k);
    case Transmission(leaveAll) => StepPending(s, if leaveAll then TxLeaveAll else Tx, 0, k);
    case LeaveTimerPoll(due) => StepPending(s.(leaveTimer := false), LeaveTimer, 0, k);
    case _ =>
  }

  lemma StepPending(s: State, e: MrpEvent, four: int, k: Indication)
    ensures Pending(s, k) ==> Pending(Step(s, e, four).state, k)
  {
    hide Step, RegistrationStep;
    StepRegistration(s, e, four);
    IndicationFields(RegistrationOf(s), e, four);
  }

  /** No indication is lost or invented: each one queued is told once or still pending at the end. */
  lemma {:induction false} IndicationsConserved(s: State, ops: seq<Op>, k: Indication)
    ensures (if Pending(s, k) then 1 else 0) + Queued(s, ops, k) == Told(s, ops, k) + if Pending(Run(s, ops), k) then 1 else 0
    decreases |ops|
  {
    hide Apply, Pending;
    if ops != [] {
      PendingStays(s, ops[0], k);
      IndicationsConserved(Apply(s, ops[0]).state, ops[1..], k);
    }
  }

  /** Operation `n` begins a registration that lasts to the end of the run. */
  ghost predicate BeginsAt(s: State, ops: seq<Op>, n: nat)
    requires n < |ops|
  {
    StateAt(s, ops, n).registrar == MT && forall m | n < m <= |ops| :: StateAt(s, ops, m).registrar != MT
  }

  lemma {:induction false} LastGain(s: State, ops: seq<Op>) returns (n: nat)
    requires s.registrar == MT && Run(s, ops).registrar != MT
    ensures n < |ops| && BeginsAt(s, ops, n)
    decreases |ops|
  {
    hide Run;
    assert ops[..|ops|] == ops && StateAt(s, ops, 0).registrar == MT by { RunNothing(s, ops); }
    var k := |ops|;
    while StateAt(s, ops, k).registrar != MT
      invariant 0 <= k <= |ops|
      invariant forall m | k < m <= |ops| :: StateAt(s, ops, m).registrar != MT
      decreases k
    {
      k := k - 1;
    }
    n := k;
  }

  /**
   A registration that is there at the end of a run was begun by a received join, with which the
   registrar went to IN and a join indication became pending.
   */
  lemma RegistrationBegins(s: State, ops: seq<Op>) returns (n: nat)
    requires s.registrar == MT && Run(s, ops).registrar != MT
    ensures n < |ops| && BeginsAt(s, ops, n) && IsJoin(ops[n])
    ensures StateAt(s, ops, n + 1).registrar == IN
    ensures if ops[n].packed == PNew then StateAt(s, ops, n + 1).joinNew else StateAt(s, ops, n + 1).join
    ensures StateAt(s, ops, n + 1).four == ops[n].four
  {
    n := LastGain(s, ops);
    hide Apply, Run;
    NextState(s, ops, n);
    GainStep(StateAt(s, ops, n), ops[n]);
  }

  lemma GainStep(s: State, op: Op)
    requires s.registrar == MT
    ensures var t := Apply(s, op).state;
            t.registrar != MT ==> IsJoin(op) && t.registrar == IN && (if op.packed == PNew then t.joinNew else t.join) && t.four == op.four
  {
    hide Step;
    match op
    case MadBegin => StepGains(s.(leaveTimer := false), Begin, 0);
    case MadJoin(isNew) => StepGains(s.(remove := false), if isNew then New else Join, 0);
    case MadLeave => StepGains(s, Lv, 0);
    case Receive(p, four) => StepGains(s, ReceiveEvent(p), four);
    case LeaveAllHeard => StepGains(s, RxLeaveAll, 0);
    case PeriodicTick => StepGains(s, Periodic, 0);
    case Transmission(leaveAll) => StepGains(s, if leaveAll then TxLeaveAll else Tx, 0);
    case LeaveTimerPoll(due) => StepGains(s.(leaveTimer := false), LeaveTimer, 0);
    case _ =>
  }

  lemma StepGains(s: State, e: MrpEvent, four: int)
    requires s.registrar == MT
    ensures var t := Step(s, e, four).state;
            t.registrar != MT ==>
              e in {RxNew, RxJoinIn, RxJoinMt} && t.registrar == IN && (if e == RxNew then t.joinNew else t.join) && t.four == four
  {
    hide Step, RegistrationStep;
    StepRegistration(s, e, four);
    RegistrarFields(RegistrationOf(s), e, four);
    IndicationFields(RegistrationOf(s), e, four);
  }

  // ----- the messages of an applicant

  /**
   What a transmission says: New while a declaration is being announced as new, Lv on withdrawal, and
   otherwise whether the attribute is registered here and, but for one case, whether it is declared.
   */
  lemma AnswerMeaning(s: State, leaveAll: bool)
    requires InUse(s.applicant)
    ensures var o := Apply(s, Transmission(leaveAll)); var a := s.applicant;
            && (o.sent == Some(PNew) <==> a == VN || a == AN)
            && (o.sent == Some(PLv) <==> a == LA)
            && (o.sent.Some? <==> if leaveAll then Declaring(a) || a == LA else Dues(a, s.registrar) > 0)
            && (o.sent.Some? && o.sent != Some(PNew) && o.sent != Some(PLv) ==>
                  && (o.sent.value == PJoinIn || o.sent.value == PIn <==> o.state.registrar == IN)
                  && (o.sent.value == PJoinIn || o.sent.value == PJoinMt <==> Declaring(a) && !(a == VP && leaveAll)))
  {
    hide RegistrationStep, ApplicantStep, AfterTx, AfterTxLeaveAll;
    StepRegistration(s, if leaveAll then TxLeaveAll else Tx, 0);
    TxRegistersNothing(RegistrationOf(s));
  }

  /** The messages that an applicant will send if nothing else happens. */
  function Dues(a: Applicant, r: Registrar): nat {
    match a
    case VN => if r == IN then 2 else 3
    case AN => if r == IN then 1 else 2
    case VP => 2
    case AA | AP | LA | LO => 1
    case _ => 0
  }

  lemma DuesTx(a: Applicant, r: Registrar)
    ensures Sends(a, false) <==> Dues(a, r) > 0
    ensures Dues(AfterTx(a, r), r) == if Dues(a, r) > 0 then Dues(a, r) - 1 else 0
    ensures !InUse(a) ==> Dues(a, r) == 0
  {
  }

  function Least(m: nat, n: nat): nat {
    if m < n then m else n
  }

  /** Left alone, an attribute sends exactly the messages that are due, or one if it is to be removed. */
  lemma {:induction false} QuietExactly(s: State, n: nat)
    ensures Sent(s, Quiet(n)) ==
            Least(n, if s.remove && !s.here && s.attr != Domain then Least(1, Dues(s.applicant, s.registrar)) else Dues(s.applicant, s.registrar))
    decreases n
  {
    hide Apply, Dues;
    if n == 0 {
      assert Quiet(n) == [];
    } else {
      assert Quiet(n)[0] == Transmission(false) && Quiet(n)[1..] == Quiet(n - 1);
      QuietStep(s);
      QuietExactly(Apply(s, Transmission(false)).state, n - 1);
    }
  }

  /** Of these messages exactly those owed after a New are NEW. */
  lemma {:induction false} NewsExactly(s: State, n: nat)
    requires InUse(s.applicant) && !s.remove
    ensures NewsSent(s, Quiet(n)) == Least(n, NewsOwed(s.applicant))
    decreases n
  {
    hide Apply, Step, NewsOwed;
    if n == 0 {
    } else {
      NewsStep(s);
      var t := Apply(s, Transmission(false)).state;
      assert Quiet(n)[1..] == Quiet(n - 1);
      NewsExactly(t, n - 1);
    }
  }

  lemma NewsStep(s: State)
    requires InUse(s.applicant) && !s.remove
    ensures var o := Apply(s, Transmission(false));
            && InUse(o.state.applicant) && !o.state.remove
            && (o.sent == Some(PNew) <==> NewsOwed(s.applicant) > 0)
            && NewsOwed(o.state.applicant) == if NewsOwed(s.applicant) > 0 then NewsOwed(s.applicant) - 1 else 0
  {
    hide RegistrationStep;
  }

  lemma QuietStep(s: State)
    ensures var o := Apply(s, Transmission(false)); var d := Dues(s.applicant, s.registrar);
            && (o.sent.Some? <==> d > 0)
            && o.state.registrar == s.registrar && o.state.here == s.here && o.state.attr == s.attr
            && (d == 0 ==> Dues(o.state.applicant, s.registrar) == 0)
            && (d > 0 ==> !o.state.remove)
            && (d > 0 ==> Dues(o.state.applicant, s.registrar) == if s.remove && !s.here && s.attr != Domain then 0 else d - 1)
  {
    hide RegistrationStep, MakeTx, Sends, AfterTx, Dues;
    TxRegistersNothing(RegistrationOf(s));
    DuesTx(s.applicant, s.registrar);
    DuesTx(Unused, s.registrar);
    DuesTx(Applicant.Disabled, s.registrar);
    UnusedStays(s.registrar);
  }

  // ----- the letters of the applicant states

  /** The second letter: what the participant has to do with the attribute. */
  datatype Role = Observer | Passive | Active | Newcomer

  /** The first letter: how sure it is that the others know. */
  datatype Level = Very | Anxious | Calm | Departing

  function RoleOf(a: Applicant): Role {
    if a in {VN, AN} then Newcomer else if a in {AA, QA, LA} then Active else if a in {VP, AP, QP} then Passive else Observer
  }

  function LevelOf(a: Applicant): Level {
    if a in {VO, VP, VN} then Very else if a in {AO, AP, AA, AN} then Anxious else if a in {QO, QP, QA} then Calm else Departing
  }

  predicate Stands(a: Applicant, r: Role, l: Level) {
    InUse(a) && RoleOf(a) == r && LevelOf(a) == l
  }

  /** Role and level say all there is to a state in use. */
  lemma LettersTell(a: Applicant, b: Applicant)
    requires InUse(a) && InUse(b) && RoleOf(a) == RoleOf(b) && LevelOf(a) == LevelOf(b)
    ensures a == b
  {
  }

  /**
   The local requests. A join makes an observer passive, and takes a withdrawal back; a leave makes
   a passive participant an observer without a word and any other declarer depart.
   */
  lemma RequestLetters(a: Applicant)
    requires InUse(a)
    ensures Stands(ApplicantStep(a, Begin), Observer, Very) && Stands(ApplicantStep(a, New), Newcomer, Very)
    ensures var b := ApplicantStep(a, Join); var r, l := RoleOf(a), LevelOf(a);
            if r == Observer then Stands(b, Passive, if l == Departing then Very else l)
            else if l == Departing then Stands(b, Active, Anxious) else b == a
    ensures var b := ApplicantStep(a, Lv); var r, l := RoleOf(a), LevelOf(a);
            if r == Observer then b == a
            else if r == Passive then Stands(b, Observer, l) else Stands(b, Active, Departing)
  {
  }

  /**
   The messages heard. The four that are neither New nor Lv have one and the same effect: they wake
   a calm participant, whatever it is, and end the departure of an observer. Nothing heard calms.
   */
  lemma HeardLetters(a: Applicant, e: MrpEvent)
    requires InUse(a)
    ensures e in {RxJoinIn, RxIn, RxJoinMt, RxMt} ==>
              var r, l := RoleOf(a), LevelOf(a);
              Stands(ApplicantStep(a, e), r, if l == Calm then Anxious else if l == Departing && r == Observer then Very else l)
    ensures e == RxNew ==> ApplicantStep(a, e) == a
    ensures e in {RxLeave, RxLeaveAll, Redeclare} ==>
              var b := ApplicantStep(a, e); var r, l := RoleOf(a), LevelOf(a);
              if r == Observer then Stands(b, Observer, Departing)
              else if l == Departing then b == a
              else Stands(b, if r == Newcomer then Newcomer else Passive, Very)
    ensures e == Periodic ==>
              Stands(ApplicantStep(a, e), RoleOf(a), if LevelOf(a) == Calm && RoleOf(a) != Observer then Anxious else LevelOf(a))
  {
  }

  /** The messages sent. A message that declares makes a participant active and a level calmer. */
  lemma SentLetters(a: Applicant, r: Registrar)
    requires InUse(a)
    ensures var b := AfterTx(a, r); var o, l := RoleOf(a), LevelOf(a);
            if l == Departing then Stands(b, Observer, Very)
            else if o == Observer || l == Calm then b == a
            else if l == Very then Stands(b, if o == Newcomer then Newcomer else Active, Anxious)
            else Stands(b, Active, if o == Newcomer && r != IN then Anxious else Calm)
    ensures var b := AfterTxLeaveAll(a); var o, l := RoleOf(a), LevelOf(a);
            if o == Observer || l == Departing then Stands(b, Observer, Departing)
            else if l == Very then Stands(b, o, if o == Newcomer then Anxious else Very)
            else Stands(b, Active, Calm)
  {
  }

  /** The states that can be reached from a Begin. */
  predicate Alive(a: Applicant) {
    a !in {AO, QO, AP, QP}
  }

  /** Because nothing heard calms, four states are never entered: a passive or observing participant is always very anxious. */
  lemma {:induction false} NeverPassivelyCalm(s: State, ops: seq<Op>)
    requires Alive(s.applicant)
    ensures Alive(Run(s, ops).applicant)
    decreases |ops|
  {
    hide Apply;
    if ops != [] {
      AliveStep(s, ops[0]);
      NeverPassivelyCalm(Apply(s, ops[0]).state, ops[1..]);
    }
  }

  lemma AliveStep(s: State, op: Op)
    requires Alive(s.applicant)
    ensures Alive(Apply(s, op).state.applicant)
  {
    hide Step;
    ApplyCases(s, op);
    if Apply(s, op).state.applicant != s.applicant {
      var x := Raised(s, op).value;
      StepAlive(x.0, x.1, x.2);
    }
  }

  lemma ApplyCases(s: State, op: Op)
    ensures Apply(s, op).state.applicant == s.applicant ||
            (Raised(s, op).Some? && var x := Raised(s, op).value; Apply(s, op) == Step(x.0, x.1, x.2) && x.0.applicant == s.applicant)
  {
    hide Step;
  }

  lemma StepAlive(s: State, e: MrpEvent, four: int)
    requires Alive(s.applicant)
    ensures Alive(Step(s, e, four).state.applicant)
  {
    hide RegistrarStep, MakeTx, Sends, ApplicantStep, AfterTx, AfterTxLeaveAll, Alive;
    RegistrarKeeps(s, e, four);
    var r := RegistrarStep(s, e, four).registrar;
    AliveTables(s.applicant, e, r);
    UnusedStays(r);
    AliveUnused();
  }

  lemma AliveTables(a: Applicant, e: MrpEvent, r: Registrar)
    requires Alive(a)
    ensures Alive(ApplicantStep(a, e)) && Alive(AfterTx(a, r)) && Alive(AfterTxLeaveAll(a))
  {
  }

  lemma AliveUnused()
    ensures Alive(Unused)
  {
  }
}
