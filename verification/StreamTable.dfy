/**
 The table of stream reservations (avb_srp.c) and the attributes that point into it (avb_mrp.c). A
 zero stream id marks a free entry; attributes hold a pointer to an entry, here its index, which
 stays valid only as long as the entry is not cleared under them.
 */
module StreamTable {
  import opened Bytes
  import opened MrpWire
  import M = MrpState

  /** One `avb_stream_entry`; `details` and `failure` stand for the rest of the reservation. */
  datatype Entry = Entry(id: nat, details: nat, failure: nat, talker: bool, listener: bool)

  const CLEAR := Entry(0, 0, 0, false, false)

  /** The applicant states that matter here: unused, disabled and any other. */
  datatype Phase = Unused | Disabled | Active

  datatype Attr = Attr(phase: Phase, kind: AttrType, port: nat, here: bool, info: Option<nat>)

  predicate IsTalker(k: AttrType) {
    k == TalkerAdvertise || k == TalkerFailed
  }

  predicate IsStream(k: AttrType) {
    IsTalker(k) || k == Listener
  }

  // ----- looking up and changing entries

  ghost predicate HasId(es: seq<Entry>, id: nat) {
    exists i | 0 <= i < |es| :: es[i].id == id
  }

  function FirstWith(es: seq<Entry>, id: nat): (k: nat)
    ensures k <= |es| && (forall i | 0 <= i < k :: es[i].id != id) && (k < |es| ==> es[k].id == id)
  {
    if es == [] || es[0].id == id then 0 else 1 + FirstWith(es[1..], id)
  }

  function LastFree(es: seq<Entry>): (k: int)
    ensures -1 <= k < |es| && (forall i | k < i < |es| :: es[i].id != 0) && (k >= 0 ==> es[k].id == 0)
  {
    if es == [] then -1
    else if es[|es| - 1].id == 0 then |es| - 1
    else LastFree(es[..|es| - 1])
  }

  /** The entry that has the id, or else one that is free, or else none. */
  function MatchIndex(es: seq<Entry>, id: nat): int {
    var k := FirstWith(es, id);
    if k < |es| then k else LastFree(es)
  }

  function AddId(es: seq<Entry>, id: nat): Option<(seq<Entry>, nat)> {
    var k := MatchIndex(es, id);
    if k < 0 then None
    else
      var e := if es[k].talker then es[k].(id := id, listener := true) else Entry(id, 0, 0, false, true);
      Some((es[k := e], k))
  }

  function AddReservation(es: seq<Entry>, id: nat, details: nat): Option<(seq<Entry>, nat)> {
    var k := MatchIndex(es, id);
    if k < 0 then None else Some((es[k := es[k].(id := id, details := details, talker := true)], k))
  }

  /** None where the code traps. */
  function RemoveReservation(es: seq<Entry>, id: nat): Option<seq<Entry>> {
    var k := MatchIndex(es, id);
    if k < 0 then None else Some(es[k := CLEAR])
  }

  // ----- attributes of one stream

  datatype Sys = Sys(entries: seq<Entry>, attrs: seq<Attr>)

  /** The stream id an attribute reads through its pointer. */
  function IdOf(s: Sys, a: Attr): Option<nat> {
    if a.info.Some? && a.info.value < |s.entries| then Some(s.entries[a.info.value].id) else None
  }

  predicate SameId(s: Sys, a: Attr, b: Attr) {
    IdOf(s, a).Some? && IdOf(s, a) == IdOf(s, b)
  }

  predicate Usable(a: Attr, matchDisabled: bool) {
    a.phase != Unused && (matchDisabled || a.phase != Disabled)
  }

  predicate OnPort(a: Attr, b: Attr, opposite: bool) {
    opposite == (a.port != b.port)
  }

  predicate PairKinds(k: AttrType, l: AttrType) {
    (IsTalker(k) && l == Listener) || (k == Listener && IsTalker(l))
  }

  predicate SameKinds(k: AttrType, l: AttrType) {
    k == l || (IsTalker(k) && IsTalker(l))
  }

  /** Of two attributes of streams, whatever their kinds, the one search or the other applies, and never both. */
  lemma KindsSplit(k: AttrType, l: AttrType)
    ensures IsStream(k) <==> k != Domain && k != VidVector
    ensures IsStream(k) && IsStream(l) ==> (PairKinds(k, l) <==> !SameKinds(k, l))
    ensures PairKinds(k, l) ==> IsStream(k) && IsStream(l) && PairKinds(l, k)
    ensures SameKinds(k, l) ==> SameKinds(l, k) && (IsStream(k) <==> IsStream(l))
  {
  }

  predicate IsPair(s: Sys, a: Attr, b: Attr, opposite: bool, matchDisabled: bool) {
    Usable(b, matchDisabled) && OnPort(a, b, opposite) && PairKinds(a.kind, b.kind) && SameId(s, a, b)
  }

  predicate IsSame(s: Sys, a: Attr, b: Attr, opposite: bool, matchDisabled: bool) {
    Usable(b, matchDisabled) && OnPort(a, b, opposite) && SameKinds(a.kind, b.kind) && SameId(s, a, b)
  }

  /** A talker or listener attribute, on any port, disabled or not, that reads this stream id. */
  ghost predicate Carried(s: Sys, id: nat) {
    exists j | 0 <= j < |s.attrs| ::
      s.attrs[j].phase != Unused && IsStream(s.attrs[j].kind) && IdOf(s, s.attrs[j]) == Some(id)
  }

  function Retired(a: Attr, twoPorts: bool): Attr {
    if twoPorts && (a.kind == Listener || !a.here) then a.(phase := Unused)
    else if !twoPorts && !a.here && a.kind != Domain then a.(phase := Unused)
    else a
  }

  predicate FoundPair(s: Sys, a: Attr, opposite: bool, matchDisabled: bool) {
    exists j | 0 <= j < |s.attrs| :: IsPair(s, a, s.attrs[j], opposite, matchDisabled)
  }

  predicate FoundSame(s: Sys, a: Attr, opposite: bool, matchDisabled: bool) {
    exists j | 0 <= j < |s.attrs| :: IsSame(s, a, s.attrs[j], opposite, matchDisabled)
  }

  /** `srp_cleanup_reservation_entry`; None where it traps. */
  function Cleanup(s: Sys, j: nat, twoPorts: bool): Option<Sys>
    requires j < |s.attrs|
  {
    var a := Retired(s.attrs[j], twoPorts);
    var t := s.(attrs := s.attrs[j := a]);
    if !IsStream(a.kind) then Some(t)
    else if FoundPair(t, a, true, true) || FoundPair(t, a, false, true) || FoundSame(t, a, true, true) || FoundSame(t, a, false, true) then Some(t)
    else if IdOf(t, a).None? then None
    else
      var es := RemoveReservation(t.entries, IdOf(t, a).value);
      if es.None? then None else Some(t.(entries := es.value))
  }

  // ----- the invariant

  ghost predicate UniqueIds(es: seq<Entry>) {
    forall i, j | 0 <= i < j < |es| && es[i].id != 0 :: es[i].id != es[j].id
  }

  /** An attribute reads the stream id it was made for, as `owner` remembers it. */
  ghost predicate Sound(s: Sys, a: Attr, owner: nat) {
    a.phase != Unused && IsStream(a.kind) ==> owner != 0 && IdOf(s, a) == Some(owner)
  }

  ghost predicate Inv(s: Sys, owners: seq<nat>) {
    && UniqueIds(s.entries) && |owners| == |s.attrs|
    && forall j | 0 <= j < |s.attrs| :: Sound(s, s.attrs[j], owners[j])
  }

  lemma AddIdKeeps(es: seq<Entry>, id: nat)
    requires UniqueIds(es) && AddId(es, id).Some?
    ensures var (fs, k) := AddId(es, id).value; UniqueIds(fs) && Takes(es, fs, k, id)
  {
  }

  lemma AddReservationKeeps(es: seq<Entry>, id: nat, details: nat)
    requires UniqueIds(es) && AddReservation(es, id, details).Some?
    ensures var (fs, k) := AddReservation(es, id, details).value; UniqueIds(fs) && Takes(es, fs, k, id)
  {
  }

  /** Entry k, which was free or had the id already, has it now; the other ids are as before. */
  ghost predicate Takes(es: seq<Entry>, fs: seq<Entry>, k: nat, id: nat) {
    && |fs| == |es| && k < |es| && fs[k].id == id && (es[k].id == id || es[k].id == 0)
    && forall i | 0 <= i < |es| && i != k :: fs[i] == es[i]
  }

  lemma RemoveKeeps(es: seq<Entry>, k: nat)
    requires UniqueIds(es) && k < |es|
    ensures RemoveReservation(es, es[k].id).Some?
    ensures var fs := RemoveReservation(es, es[k].id).value;
            && UniqueIds(fs) && |fs| == |es| && (es[k].id != 0 ==> !HasId(fs, es[k].id))
            && forall i | 0 <= i < |es| && es[i].id != es[k].id :: fs[i] == es[i]
  {
  }

  /** The four searches together look at every port and every talker or listener attribute. */
  lemma SearchesCover(s: Sys, a: Attr)
    requires IsStream(a.kind) && IdOf(s, a).Some?
    ensures FoundPair(s, a, true, true) || FoundPair(s, a, false, true) || FoundSame(s, a, true, true) || FoundSame(s, a, false, true)
            <==> Carried(s, IdOf(s, a).value)
  {
    hide IdOf;
    if Carried(s, IdOf(s, a).value) {
      var j :| 0 <= j < |s.attrs| && s.attrs[j].phase != Unused && IsStream(s.attrs[j].kind) &&
               IdOf(s, s.attrs[j]) == Some(IdOf(s, a).value);
      var b, opposite := s.attrs[j], a.port != s.attrs[j].port;
      assert IsPair(s, a, b, opposite, true) || IsSame(s, a, b, opposite, true);
      assert FoundPair(s, a, opposite, true) || FoundSame(s, a, opposite, true);
    }
  }

  /**
   Cleanup of any attribute that points at an entry does not trap, keeps every live attribute on its
   own stream id, and leaves the attribute's stream id in the table exactly if a talker or listener
   attribute still carries it.
   */
  lemma CleanupSafe(s: Sys, owners: seq<nat>, j: nat, twoPorts: bool)
    requires Inv(s, owners) && j < |s.attrs|
    requires IsStream(s.attrs[j].kind) ==> IdOf(s, s.attrs[j]).Some?
    ensures Cleanup(s, j, twoPorts).Some?
    ensures Inv(Cleanup(s, j, twoPorts).value, owners)
    ensures var t := Cleanup(s, j, twoPorts).value;
            IsStream(s.attrs[j].kind) && IdOf(s, s.attrs[j]).value != 0 ==>
              var id := IdOf(s, s.attrs[j]).value;
              (HasId(t.entries, id) <==> Carried(t, id))
  {
    hide FoundPair, FoundSame;
    var a := Retired(s.attrs[j], twoPorts);
    var t := s.(attrs := s.attrs[j := a]);
    RetireKeeps(s, owners, j, twoPorts);
    if IsStream(a.kind) {
      SearchesCover(t, a);
      var id := IdOf(t, a).value;
      if Carried(t, id) {
        assert HasId(t.entries, id) by { assert t.entries[a.info.value].id == id; }
      } else {
        RemoveKeeps(t.entries, a.info.value);
        ClearKeeps(t, owners, id);
      }
    }
  }

  /**
   What a cleanup retires: any stream attribute that is not the application's own, and with two ports
   the application's listeners too. The domain attribute of a single port stays in any case.
   */
  lemma RetiresWhat(a: Attr, twoPorts: bool)
    requires a.phase != Unused
    ensures a.here && a.kind != Listener ==> Retired(a, twoPorts) == a
    ensures !a.here && a.kind != Domain ==> Retired(a, twoPorts).phase == Unused
    ensures a.here && a.kind == Listener ==> (Retired(a, twoPorts).phase == Unused <==> twoPorts)
    ensures !a.here && a.kind == Domain ==> (Retired(a, twoPorts).phase == Unused <==> twoPorts)
    ensures Retired(a, twoPorts).(phase := a.phase) == a
  {
  }

  lemma RetireKeeps(s: Sys, owners: seq<nat>, j: nat, twoPorts: bool)
    requires Inv(s, owners) && j < |s.attrs|
    ensures Inv(s.(attrs := s.attrs[j := Retired(s.attrs[j], twoPorts)]), owners)
  {
    var t := s.(attrs := s.attrs[j := Retired(s.attrs[j], twoPorts)]);
    forall i | 0 <= i < |t.attrs| ensures Sound(t, t.attrs[i], owners[i]) {
      assert Sound(s, s.attrs[i], owners[i]);
    }
  }

  /** Clearing an id that nobody carries. */
  lemma ClearKeeps(s: Sys, owners: seq<nat>, id: nat)
    requires Inv(s, owners) && HasId(s.entries, id) && !Carried(s, id)
    ensures RemoveReservation(s.entries, id).Some?
    ensures var t := s.(entries := RemoveReservation(s.entries, id).value); Inv(t, owners) && (id != 0 ==> !Carried(t, id))
  {
    var k :| 0 <= k < |s.entries| && s.entries[k].id == id;
    RemoveKeeps(s.entries, k);
    var t := s.(entries := RemoveReservation(s.entries, id).value);
    hide RemoveReservation;
    forall i | 0 <= i < |t.attrs| ensures Sound(t, t.attrs[i], owners[i]) {
      assert Sound(s, s.attrs[i], owners[i]);
    }
  }

  /** The entries change under the attributes, all but entry k, which was free, keeping their ids. */
  lemma TakesKeeps(s: Sys, owners: seq<nat>, fs: seq<Entry>, k: nat, id: nat)
    requires Inv(s, owners) && UniqueIds(fs) && Takes(s.entries, fs, k, id)
    ensures Inv(s.(entries := fs), owners)
  {
    var t := s.(entries := fs);
    forall i | 0 <= i < |t.attrs| ensures Sound(t, t.attrs[i], owners[i]) {
      assert Sound(s, s.attrs[i], owners[i]);
    }
  }

  lemma AttrKeeps(s: Sys, owners: seq<nat>, j: nat, a: Attr, owner: nat)
    requires Inv(s, owners) && j < |s.attrs| && Sound(s, a, owner)
    ensures Inv(s.(attrs := s.attrs[j := a]), owners[j := owner])
  {
    var t := s.(attrs := s.attrs[j := a]);
    forall i | 0 <= i < |t.attrs| ensures Sound(t, t.attrs[i], owners[j := owner][i]) {
      if i != j {
        assert Sound(s, s.attrs[i], owners[i]);
      }
    }
  }

  lemma EntryKeeps(s: Sys, owners: seq<nat>, k: nat, e: Entry)
    requires Inv(s, owners) && k < |s.entries| && e.id == s.entries[k].id
    ensures Inv(s.(entries := s.entries[k := e]), owners)
  {
    var t := s.(entries := s.entries[k := e]);
    forall i | 0 <= i < |t.attrs| ensures Sound(t, t.attrs[i], owners[i]) {
      assert Sound(s, s.attrs[i], owners[i]);
    }
  }

  // ----- runs

  datatype Step =
    | Talk(j: nat, kind: AttrType, port: nat, here: bool, id: nat, details: nat)
    | Listen(j: nat, port: nat, here: bool, id: nat)
    | Share(from: nat, j: nat, kind: AttrType, port: nat, here: bool)
    | Refresh(id: nat, details: nat)
    | Await(id: nat)
    | Activate(j: nat)
    | Abandon(j: nat)
    | Retype(j: nat, kind: AttrType, talker: bool)
    | Clean(j: nat, twoPorts: bool)

  datatype World = World(sys: Sys, owners: seq<nat>)

  predicate Unclaimed(s: Sys, j: nat) {
    j < |s.attrs| && s.attrs[j].phase == Unused
  }

  predicate InUse(s: Sys, j: nat) {
    j < |s.attrs| && s.attrs[j].phase != Unused
  }

  /** Attributes are taken from the unused ones; stream ids are not zero. */
  predicate Enabled(s: Sys, step: Step) {
    match step
    case Talk(j, kind, _, _, id, _) => Unclaimed(s, j) && IsTalker(kind) && id != 0
    case Listen(j, _, _, id) => Unclaimed(s, j) && id != 0
    case Share(from, j, kind, _, _) => InUse(s, from) && IsStream(s.attrs[from].kind) && Unclaimed(s, j) && IsStream(kind)
    case Refresh(id, _) => id != 0
    case Await(id) => id != 0
    case Activate(j) => InUse(s, j)
    case Abandon(j) => InUse(s, j)
    case Retype(j, kind, _) => InUse(s, j) && IsTalker(s.attrs[j].kind) && IsTalker(kind)
    case Clean(j, _) => InUse(s, j)
  }

  function Attach(w: World, added: Option<(seq<Entry>, nat)>, j: nat, kind: AttrType, port: nat, here: bool, id: nat): World
    requires j < |w.sys.attrs| && |w.owners| == |w.sys.attrs|
  {
    if added.None? then w
    else World(Sys(added.value.0, w.sys.attrs[j := Attr(Disabled, kind, port, here, Some(added.value.1))]), w.owners[j := id])
  }

  /** One step; None where the code traps. */
  function Apply(w: World, step: Step): Option<World>
    requires |w.owners| == |w.sys.attrs| && Enabled(w.sys, step)
  {
    var s := w.sys;
    match step
    case Talk(j, kind, port, here, id, details) =>
      Some(Attach(w, AddReservation(s.entries, id, details), j, kind, port, here, id))
    case Listen(j, port, here, id) => Some(Attach(w, AddId(s.entries, id), j, Listener, port, here, id))
    case Share(from, j, kind, port, here) =>
      Some(World(s.(attrs := s.attrs[j := Attr(Disabled, kind, port, here, s.attrs[from].info)]), w.owners[j := w.owners[from]]))
    case Refresh(id, details) =>
      var added := AddReservation(s.entries, id, details);
      Some(if added.None? then w else World(s.(entries := added.value.0), w.owners))
    case Await(id) =>
      var added := AddId(s.entries, id);
      Some(if added.None? then w else World(s.(entries := added.value.0), w.owners))
    case Activate(j) => Some(World(s.(attrs := s.attrs[j := s.attrs[j].(phase := Active)]), w.owners))
    case Abandon(j) => Some(World(s.(attrs := s.attrs[j := s.attrs[j].(here := false)]), w.owners))
    case Retype(j, kind, talker) =>
      var t := s.(attrs := s.attrs[j := s.attrs[j].(kind := kind)]);
      var info := s.attrs[j].info;
      if info.Some? && info.value < |s.entries| then
        Some(World(t.(entries := s.entries[info.value := s.entries[info.value].(talker := talker)]), w.owners))
      else Some(World(t, w.owners))
    case Clean(j, twoPorts) =>
      var t := Cleanup(s, j, twoPorts);
      if t.None? then None else Some(World(t.value, w.owners))
  }

  lemma AttachKeeps(w: World, added: Option<(seq<Entry>, nat)>, j: nat, kind: AttrType, port: nat, here: bool, id: nat)
    requires Inv(w.sys, w.owners) && j < |w.sys.attrs| && id != 0
    requires added.Some? ==> UniqueIds(added.value.0) && Takes(w.sys.entries, added.value.0, added.value.1, id)
    ensures var t := Attach(w, added, j, kind, port, here, id); Inv(t.sys, t.owners)
  {
    if added.Some? {
      TakesKeeps(w.sys, w.owners, added.value.0, added.value.1, id);
      AttrKeeps(w.sys.(entries := added.value.0), w.owners, j, Attr(Disabled, kind, port, here, Some(added.value.1)), id);
    }
  }

  lemma StepKeeps(w: World, step: Step)
    requires Inv(w.sys, w.owners) && Enabled(w.sys, step)
    ensures Apply(w, step).Some?
    ensures Inv(Apply(w, step).value.sys, Apply(w, step).value.owners)
  {
    hide Cleanup, AddId, AddReservation, Attach;
    var s := w.sys;
    match step {
      case Talk(j, kind, port, here, id, details) =>
        var added := AddReservation(s.entries, id, details);
        if added.Some? {
          AddReservationKeeps(s.entries, id, details);
        }
        AttachKeeps(w, added, j, kind, port, here, id);
      case Listen(j, port, here, id) =>
        var added := AddId(s.entries, id);
        if added.Some? {
          AddIdKeeps(s.entries, id);
        }
        AttachKeeps(w, added, j, Listener, port, here, id);
      case Share(from, j, kind, port, here) =>
        assert Sound(s, s.attrs[from], w.owners[from]);
        AttrKeeps(s, w.owners, j, Attr(Disabled, kind, port, here, s.attrs[from].info), w.owners[from]);
      case Refresh(id, details) =>
        var added := AddReservation(s.entries, id, details);
        if added.Some? {
          AddReservationKeeps(s.entries, id, details);
          TakesKeeps(s, w.owners, added.value.0, added.value.1, id);
        }
      case Await(id) =>
        var added := AddId(s.entries, id);
        if added.Some? {
          AddIdKeeps(s.entries, id);
          TakesKeeps(s, w.owners, added.value.0, added.value.1, id);
        }
      case Activate(j) =>
        assert Sound(s, s.attrs[j], w.owners[j]);
        AttrKeeps(s, w.owners, j, s.attrs[j].(phase := Active), w.owners[j]);
      case Abandon(j) =>
        assert Sound(s, s.attrs[j], w.owners[j]);
        AttrKeeps(s, w.owners, j, s.attrs[j].(here := false), w.owners[j]);
      case Retype(j, kind, talker) =>
        assert Sound(s, s.attrs[j], w.owners[j]);
        AttrKeeps(s, w.owners, j, s.attrs[j].(kind := kind), w.owners[j]);
        var k := s.attrs[j].info.value;
        EntryKeeps(s.(attrs := s.attrs[j := s.attrs[j].(kind := kind)]), w.owners, k, s.entries[k].(talker := talker));
      case Clean(j, twoPorts) =>
        assert Sound(s, s.attrs[j], w.owners[j]);
        CleanupSafe(s, w.owners, j, twoPorts);
    }
  }

  /** A run takes the steps that are enabled when their turn comes. */
  function Run(w: World, steps: seq<Step>): Option<World>
    requires |w.owners| == |w.sys.attrs|
    decreases |steps|
  {
    if steps == [] then Some(w)
    else if !Enabled(w.sys, steps[0]) then Run(w, steps[1..])
    else
      var t := Apply(w, steps[0]);
      if t.None? || |t.value.owners| != |t.value.sys.attrs| then None else Run(t.value, steps[1..])
  }

  /** No run traps, and after any run each talker and listener attribute in use reads the id it was made for. */
  lemma {:induction false} NoDangling(w: World, steps: seq<Step>)
    requires Inv(w.sys, w.owners)
    ensures Run(w, steps).Some?
    ensures Inv(Run(w, steps).value.sys, Run(w, steps).value.owners)
    decreases |steps|
  {
    hide Apply, Enabled, Sound;
    if steps == [] {
    } else if Enabled(w.sys, steps[0]) {
      StepKeeps(w, steps[0]);
      NoDangling(Apply(w, steps[0]).value, steps[1..]);
    } else {
      NoDangling(w, steps[1..]);
    }
  }

  // ----- the table as a map from stream ids

  /** What the table knows of one stream. */
  datatype Info = Info(details: nat, failure: nat, talker: bool, listener: bool)

  function InfoOf(e: Entry): Info {
    Info(e.details, e.failure, e.talker, e.listener)
  }

  function Lookup(es: seq<Entry>, id: nat): Option<Info> {
    var k := FirstWith(es, id);
    if k < |es| then Some(InfoOf(es[k])) else None
  }

  /** What is known of a stream that the table does not have is nothing. */
  function Known(i: Option<Info>): Info {
    if i.Some? then i.value else Info(0, 0, false, false)
  }

  /** Free entries are blank. */
  ghost predicate Blank(es: seq<Entry>) {
    forall i | 0 <= i < |es| && es[i].id == 0 :: es[i] == CLEAR
  }

  ghost predicate Full(es: seq<Entry>) {
    forall i | 0 <= i < |es| :: es[i].id != 0
  }

  lemma MatchCases(es: seq<Entry>, id: nat)
    requires id != 0
    ensures var k := MatchIndex(es, id);
            && (k < 0 <==> Lookup(es, id) == None && Full(es))
            && (k >= 0 ==> k < |es| && (es[k].id == id || (es[k].id == 0 && Lookup(es, id) == None)))
            && (k >= 0 && es[k].id == id ==> Lookup(es, id) == Some(InfoOf(es[k])))
  {
  }

  /** Writing an entry that was free or had the id changes what is known of that id only. */
  lemma WriteEntry(es: seq<Entry>, k: nat, e: Entry, id: nat, other: nat)
    requires UniqueIds(es) && k < |es| && id != 0 && other != 0 && (es[k].id == id || (es[k].id == 0 && Lookup(es, id) == None))
    requires e.id == id || e.id == 0
    ensures Lookup(es[k := e], other) ==
            if other != id then Lookup(es, other) else if e.id == id then Some(InfoOf(e)) else None
  {
    var fs := es[k := e];
    if other != id {
      FirstUnique(fs, other, FirstWith(es, other));
    } else if e.id == id {
      FirstUnique(fs, id, k);
    } else {
      FirstUnique(fs, id, |fs|);
    }
  }

  /** A talker's reservation: the new details are stored, a listener and a failure already known stay. */
  lemma ReservationStored(es: seq<Entry>, id: nat, details: nat, other: nat)
    requires UniqueIds(es) && Blank(es) && id != 0 && other != 0
    ensures AddReservation(es, id, details).None? <==> Lookup(es, id) == None && Full(es)
    ensures AddReservation(es, id, details).Some? ==>
              Lookup(AddReservation(es, id, details).value.0, other) ==
              if other != id then Lookup(es, other)
              else Some(Info(details, Known(Lookup(es, id)).failure, true, Known(Lookup(es, id)).listener))
  {
    hide MatchIndex, Lookup, Full;
    MatchCases(es, id);
    var k := MatchIndex(es, id);
    if k >= 0 {
      WriteEntry(es, k, es[k].(id := id, details := details, talker := true), id, other);
    }
  }

  /** A listener's wish: what a talker said stays, anything else is forgotten. */
  lemma ListenerStored(es: seq<Entry>, id: nat, other: nat)
    requires UniqueIds(es) && Blank(es) && id != 0 && other != 0
    ensures AddId(es, id).None? <==> Lookup(es, id) == None && Full(es)
    ensures AddId(es, id).Some? ==>
              Lookup(AddId(es, id).value.0, other) ==
              if other != id then Lookup(es, other)
              else if Known(Lookup(es, id)).talker then Some(Known(Lookup(es, id)).(listener := true))
              else Some(Info(0, 0, false, true))
  {
    hide MatchIndex, Lookup, Full;
    MatchCases(es, id);
    var k := MatchIndex(es, id);
    if k >= 0 {
      WriteEntry(es, k, if es[k].talker then es[k].(id := id, listener := true) else Entry(id, 0, 0, false, true), id, other);
    }
  }

  /** A removal forgets one stream. */
  lemma ReservationRemoved(es: seq<Entry>, id: nat, other: nat)
    requires UniqueIds(es) && id != 0 && other != 0 && Lookup(es, id).Some?
    ensures RemoveReservation(es, id).Some?
    ensures Lookup(RemoveReservation(es, id).value, other) == if other == id then None else Lookup(es, other)
  {
    hide MatchIndex, Lookup, Full;
    MatchCases(es, id);
    WriteEntry(es, MatchIndex(es, id), CLEAR, id, other);
  }

  /** What is known of a stream after a reservation or a listener's wish for any stream. */
  function Noted(was: Option<Info>, full: bool, step: Step): Option<Info> {
    if was.None? && full then None
    else if step.Talk? || step.Refresh? then Some(Info(step.details, Known(was).failure, true, Known(was).listener))
    else if Known(was).talker then Some(Known(was).(listener := true))
    else Some(Info(0, 0, false, true))
  }

  /**
   Every step of every run on the table as a map: only additions for a stream, a change of its talker's
   type and the last cleanup of its attributes change what is known of it, and how.
   */
  lemma StepTable(w: World, step: Step, id: nat)
    requires Inv(w.sys, w.owners) && Blank(w.sys.entries) && Enabled(w.sys, step) && id != 0
    ensures Apply(w, step).Some? && Blank(Apply(w, step).value.sys.entries)
    ensures var was, t := Lookup(w.sys.entries, id), Apply(w, step).value.sys;
            Lookup(t.entries, id) ==
            match step
            case Talk(_, _, _, _, i, _) => if i == id then Noted(was, Full(w.sys.entries), step) else was
            case Refresh(i, _) => if i == id then Noted(was, Full(w.sys.entries), step) else was
            case Listen(_, _, _, i) => if i == id then Noted(was, Full(w.sys.entries), step) else was
            case Await(i) => if i == id then Noted(was, Full(w.sys.entries), step) else was
            case Retype(j, _, talker) => if w.owners[j] == id then Some(Known(was).(talker := talker)) else was
            case Clean(j, _) => if IsStream(w.sys.attrs[j].kind) && w.owners[j] == id && !Carried(t, id) then None else was
            case _ => was
  {
    hide Cleanup, AddId, AddReservation, Lookup, Full, Blank, MatchIndex;
    var s := w.sys;
    match step {
      case Talk(_, _, _, _, i, details) =>
        ReservationStored(s.entries, i, details, id);
        AddsBlank(s.entries, i, details);
      case Refresh(i, details) =>
        ReservationStored(s.entries, i, details, id);
        AddsBlank(s.entries, i, details);
      case Listen(_, _, _, i) =>
        ListenerStored(s.entries, i, id);
        AddsBlank(s.entries, i, 0);
      case Await(i) =>
        ListenerStored(s.entries, i, id);
        AddsBlank(s.entries, i, 0);
      case Retype(j, _, talker) =>
        assert Sound(s, s.attrs[j], w.owners[j]);
        RetypeTable(s.entries, s.attrs[j].info.value, talker, id);
      case Clean(j, twoPorts) =>
        assert Sound(s, s.attrs[j], w.owners[j]);
        CleanTable(s, w.owners, j, twoPorts, id);
      case _ =>
    }
  }

  /** Free entries stay blank over any run. */
  lemma {:induction false} StaysBlank(w: World, steps: seq<Step>)
    requires Inv(w.sys, w.owners) && Blank(w.sys.entries)
    ensures Run(w, steps).Some? && Blank(Run(w, steps).value.sys.entries)
    decreases |steps|
  {
    hide Apply, Enabled, Inv, Blank;
    if steps == [] {
    } else {
      assert |w.owners| == |w.sys.attrs| by { OwnersMatch(w); }
      if Enabled(w.sys, steps[0]) {
        StepKeeps(w, steps[0]);
        StepTable(w, steps[0], 1);
        var t := Apply(w, steps[0]).value;
        OwnersMatch(t);
        StaysBlank(t, steps[1..]);
      } else {
        StaysBlank(w, steps[1..]);
      }
    }
  }

  lemma OwnersMatch(w: World)
    requires Inv(w.sys, w.owners)
    ensures |w.owners| == |w.sys.attrs|
  {
  }

  lemma AddsBlank(es: seq<Entry>, id: nat, details: nat)
    requires Blank(es) && id != 0
    ensures AddReservation(es, id, details).Some? ==> Blank(AddReservation(es, id, details).value.0)
    ensures AddId(es, id).Some? ==> Blank(AddId(es, id).value.0)
  {
    hide MatchIndex;
    MatchCases(es, id);
  }

  lemma RetypeTable(es: seq<Entry>, k: nat, talker: bool, id: nat)
    requires UniqueIds(es) && Blank(es) && k < |es| && es[k].id != 0 && id != 0
    ensures var fs := es[k := es[k].(talker := talker)];
            && Blank(fs)
            && Lookup(fs, id) == if es[k].id == id then Some(Known(Lookup(es, id)).(talker := talker)) else Lookup(es, id)
  {
    WriteEntry(es, k, es[k].(talker := talker), es[k].id, id);
    FirstUnique(es, es[k].id, k);
  }

  lemma CleanTable(s: Sys, owners: seq<nat>, j: nat, twoPorts: bool, id: nat)
    requires Inv(s, owners) && Blank(s.entries) && InUse(s, j) && id != 0
    ensures Cleanup(s, j, twoPorts).Some?
    ensures var t := Cleanup(s, j, twoPorts).value;
            && Blank(t.entries)
            && Lookup(t.entries, id) ==
               if IsStream(s.attrs[j].kind) && owners[j] == id && !Carried(t, id) then None else Lookup(s.entries, id)
  {
    hide FoundPair, FoundSame, Lookup, RemoveReservation;
    assert Sound(s, s.attrs[j], owners[j]);
    CleanupSafe(s, owners, j, twoPorts);
    var a := Retired(s.attrs[j], twoPorts);
    var t := s.(attrs := s.attrs[j := a]);
    if IsStream(a.kind) {
      SearchesCover(t, a);
      var own := IdOf(t, a).value;
      if !Carried(t, own) {
        HasLookup(s.entries, a.info.value);
        ReservationRemoved(s.entries, own, id);
        RemoveBlank(s.entries, own);
        RetireKeeps(s, owners, j, twoPorts);
        ClearKeeps(t, owners, own) by { assert t.entries[a.info.value].id == own; }
      }
    }
  }

  lemma HasLookup(es: seq<Entry>, k: nat)
    requires k < |es|
    ensures Lookup(es, es[k].id).Some?
  {
  }

  lemma RemoveBlank(es: seq<Entry>, id: nat)
    requires Blank(es) && RemoveReservation(es, id).Some?
    ensures Blank(RemoveReservation(es, id).value)
  {
  }

  // ----- the zero stream id

  ghost predicate Reads(s: Sys, owners: seq<nat>) {
    && |owners| == |s.attrs|
    && forall j | 0 <= j < |s.attrs| && s.attrs[j].phase != Unused && IsStream(s.attrs[j].kind) :: IdOf(s, s.attrs[j]) == Some(owners[j])
  }

  /** An attribute in use points at entry k. */
  ghost predicate PointedAt(s: Sys, k: nat) {
    exists j | 0 <= j < |s.attrs| :: s.attrs[j].phase != Unused && IsStream(s.attrs[j].kind) && s.attrs[j].info == Some(k)
  }

  lemma AddTakes(es: seq<Entry>, id: nat, details: nat)
    ensures AddId(es, id).Some? <==> AddReservation(es, id, details).Some?
    ensures AddId(es, id).Some? ==> var (fs, k) := AddId(es, id).value; Takes(es, fs, k, id)
    ensures AddId(es, id).Some? ==> var (fs, k) := AddReservation(es, id, details).value; Takes(es, fs, k, id)
  {
  }

  lemma TakesReadsIff(s: Sys, owners: seq<nat>, fs: seq<Entry>, k: nat, id: nat)
    requires Reads(s, owners) && Takes(s.entries, fs, k, id)
    ensures Reads(s.(entries := fs), owners) <==> !(id != 0 && s.entries[k].id == 0 && PointedAt(s, k))
  {
    var t := s.(entries := fs);
    if id != 0 && s.entries[k].id == 0 && PointedAt(s, k) {
      var j :| 0 <= j < |s.attrs| && s.attrs[j].phase != Unused && IsStream(s.attrs[j].kind) && s.attrs[j].info == Some(k);
      assert IdOf(s, s.attrs[j]) == Some(0) && IdOf(t, t.attrs[j]) == Some(id);
    } else {
      forall j | 0 <= j < |s.attrs| && s.attrs[j].phase != Unused && IsStream(s.attrs[j].kind)
        ensures IdOf(t, t.attrs[j]) == Some(owners[j])
      {
        assert IdOf(s, s.attrs[j]) == Some(owners[j]);
      }
    }
  }

  /**
   Whatever ids are in use, zero or not, adding one, for a listener or for a talker, leaves all
   attributes on their ids exactly unless it takes a free entry for it that an attribute made for
   stream id zero points at.
   */
  lemma AddKeepsIff(s: Sys, owners: seq<nat>, id: nat, details: nat)
    requires Reads(s, owners) && AddId(s.entries, id).Some?
    ensures AddReservation(s.entries, id, details).Some?
    ensures var (fs, k) := AddId(s.entries, id).value;
            Reads(s.(entries := fs), owners) <==> !(id != 0 && s.entries[k].id == 0 && PointedAt(s, k))
    ensures var (fs, k) := AddReservation(s.entries, id, details).value;
            Reads(s.(entries := fs), owners) <==> !(id != 0 && s.entries[k].id == 0 && PointedAt(s, k))
  {
    hide AddId, AddReservation, Reads, Takes;
    AddTakes(s.entries, id, details);
    var (fs, k) := AddId(s.entries, id).value;
    TakesReadsIff(s, owners, fs, k, id);
    var (gs, l) := AddReservation(s.entries, id, details).value;
    TakesReadsIff(s, owners, gs, l, id);
  }

  /** A listener made for stream id 0 in a table of one entry reads stream id 5 after the next listener is made. */
  lemma ZeroIdLost()
    ensures var zero, five := Entry(0, 0, 0, false, true), Entry(5, 0, 0, false, true);
            var s := Sys([zero], [Attr(Disabled, Listener, 0, false, Some(0))]);
            && AddId([CLEAR], 0) == Some(([zero], 0)) && Reads(s, [0])
            && AddId([zero], 5) == Some(([five], 0)) && !Reads(s.(entries := [five]), [0])
  {
    var zero, five := Entry(0, 0, 0, false, true), Entry(5, 0, 0, false, true);
    assert FirstWith([CLEAR], 0) == 0 && [CLEAR][0 := zero] == [zero];
    assert [zero][1..] == [] && FirstWith([zero], 5) == 1;
    assert LastFree([zero]) == 0 && [zero][0 := five] == [five];
    var t := Sys([five], [Attr(Disabled, Listener, 0, false, Some(0))]);
    assert IdOf(t, t.attrs[0]) == Some(5);
  }

  // ----- the removal of the state machine

  function PhaseOf(a: M.Applicant): Phase {
    if a == M.Unused then Unused else if a == M.Applicant.Disabled then Disabled else Active
  }

  /** The removal that ends a transmission is the retirement of `srp_cleanup_reservation_entry`. */
  lemma RemovalRetires(s: M.State, a: Attr)
    requires s.remove && a.kind == s.attr && a.here == s.here && a.phase == PhaseOf(s.applicant)
    ensures PhaseOf(M.Removal(s).applicant) == Retired(a, false).phase
    ensures a.phase == Active <==> M.InUse(s.applicant)
    ensures a.phase == Unused <==> s.applicant == M.Unused
  {
  }

  // ----- the code

  class ReservationTable {
    const entries: array<Entry>
    const attrs: array<Attr>

    ghost function View(): Sys
      reads entries, attrs
    {
      Sys(entries[..], attrs[..])
    }

    constructor (entryCount: nat, attrCount: nat)
      ensures fresh(entries) && fresh(attrs) && entries.Length == entryCount && attrs.Length == attrCount
      ensures Inv(View(), seq(attrCount, _ => 0))
    {
      entries := new Entry[entryCount](_ => CLEAR);
      attrs := new Attr[attrCount](_ => Attr(Unused, VidVector, 0, false, None));
    }

    /** `srp_match_reservation_entry_by_id`. */
    method MatchEntry(id: nat) returns (k: int)
      ensures k == MatchIndex(entries[..], id) && -1 <= k < entries.Length
    {
      k := -1;
      var i := 0;
      while i < entries.Length
        invariant 0 <= i <= entries.Length
        invariant forall h | 0 <= h < i :: entries[h].id != id
        invariant k == LastFree(entries[..i])
      {
        if entries[i].id == id {
          FirstUnique(entries[..], id, i);
          return i;
        }
        assert entries[..i + 1][..i] == entries[..i];
        if entries[i].id == 0 {
          k := i;
        }
        i := i + 1;
      }
      assert entries[..i] == entries[..];
      FirstUnique(entries[..], id, i);
    }

    /** `srp_add_reservation_entry_stream_id_only`. */
    method AddStreamIdOnly(id: nat) returns (k: Option<nat>)
      modifies entries
      ensures match AddId(old(entries[..]), id)
              case None => k == None && entries[..] == old(entries[..])
              case Some(r) => k == Some(r.1) && entries[..] == r.0
    {
      var entry := MatchEntry(id);
      if entry >= 0 {
        if !entries[entry].talker {
          entries[entry] := entries[entry].(id := 0, details := 0, failure := 0);
        }
        entries[entry] := entries[entry].(id := id);
        entries[entry] := entries[entry].(listener := true);
        return Some(entry);
      }
      return None;
    }

    /** `srp_add_reservation_entry`. */
    method AddReservationEntry(id: nat, details: nat) returns (k: Option<nat>)
      modifies entries
      ensures match AddReservation(old(entries[..]), id, details)
              case None => k == None && entries[..] == old(entries[..])
              case Some(r) => k == Some(r.1) && entries[..] == r.0
    {
      var entry := MatchEntry(id);
      if entry >= 0 {
        entries[entry] := entries[entry].(id := id, details := details);
        entries[entry] := entries[entry].(talker := true);
        return Some(entry);
      }
      return None;
    }

    /** `srp_remove_reservation_entry`. */
    method RemoveReservationEntry(id: nat) returns (trap: bool)
      modifies entries
      ensures trap <==> RemoveReservation(old(entries[..]), id).None?
      ensures entries[..] == if trap then old(entries[..]) else RemoveReservation(old(entries[..]), id).value
    {
      var entry := MatchEntry(id);
      if entry >= 0 {
        entries[entry] := CLEAR;
        return false;
      }
      return true;
    }

    /** `mrp_match_attribute_pair_by_stream_id`. */
    method MatchPair(a: Attr, opposite: bool, matchDisabled: bool) returns (found: Option<nat>)
      requires forall j | 0 <= j < attrs.Length && attrs[j].info.Some? && IsStream(attrs[j].kind) :: attrs[j].info.value < entries.Length
      requires a.info.Some? ==> a.info.value < entries.Length
      ensures found.Some? <==> FoundPair(View(), a, opposite, matchDisabled)
      ensures found.Some? ==> found.value < attrs.Length && IsPair(View(), a, attrs[found.value], opposite, matchDisabled)
    {
      var j := 0;
      while j < attrs.Length
        invariant 0 <= j <= attrs.Length
        invariant forall i | 0 <= i < j :: !IsPair(View(), a, attrs[i], opposite, matchDisabled)
      {
        var b := attrs[j];
        if b.phase == Unused || (!matchDisabled && b.phase == Disabled) {
        } else if (opposite && a.port != b.port) || (!opposite && a.port == b.port) {
          if (IsTalker(a.kind) && b.kind == Listener) || (a.kind == Listener && IsTalker(b.kind)) {
            if a.info.None? || b.info.None? {
            } else if entries[a.info.value].id == entries[b.info.value].id {
              assert View().attrs[j] == b;
              return Some(j);
            }
          }
        }
        j := j + 1;
      }
      return None;
    }

    /** `mrp_match_attr_by_stream_and_type`, for talkers and listeners. */
    method MatchSame(a: Attr, opposite: bool, matchDisabled: bool) returns (found: Option<nat>)
      requires forall j | 0 <= j < attrs.Length && attrs[j].info.Some? && IsStream(attrs[j].kind) :: attrs[j].info.value < entries.Length
      requires IsStream(a.kind) && (a.info.Some? ==> a.info.value < entries.Length)
      ensures found.Some? <==> FoundSame(View(), a, opposite, matchDisabled)
      ensures found.Some? ==> found.value < attrs.Length && IsSame(View(), a, attrs[found.value], opposite, matchDisabled)
    {
      var j := 0;
      while j < attrs.Length
        invariant 0 <= j <= attrs.Length
        invariant forall i | 0 <= i < j :: !IsSame(View(), a, attrs[i], opposite, matchDisabled)
      {
        var b := attrs[j];
        if b.phase == Unused || (!matchDisabled && b.phase == Disabled) {
        } else if (opposite && a.port != b.port) || (!opposite && a.port == b.port) {
          if a.kind == b.kind || (a.kind == TalkerAdvertise && b.kind == TalkerFailed) || (a.kind == TalkerFailed && b.kind == TalkerAdvertise) {
            if a.info.None? || b.info.None? {
            } else if entries[a.info.value].id == entries[b.info.value].id {
              assert View().attrs[j] == b;
              return Some(j);
            }
          }
        }
        j := j + 1;
      }
      return None;
    }

    method Retire(j: nat, twoPorts: bool)
      requires j < attrs.Length
      modifies attrs
      ensures attrs[..] == old(attrs[..])[j := Retired(old(attrs[j]), twoPorts)]
    {
      if twoPorts {
        if attrs[j].kind == Listener || !attrs[j].here {
          attrs[j] := attrs[j].(phase := Unused);
        }
      } else if !attrs[j].here && attrs[j].kind != Domain {
        attrs[j] := attrs[j].(phase := Unused);
      }
    }

    /** `srp_cleanup_reservation_entry`; the answer is whether the attribute is now unused. */
    method CleanupEntry(j: nat, twoPorts: bool) returns (trap: bool, unused: bool)
      requires j < attrs.Length
      requires forall i | 0 <= i < attrs.Length && attrs[i].info.Some? && IsStream(attrs[i].kind) :: attrs[i].info.value < entries.Length
      modifies entries, attrs
      ensures trap <==> Cleanup(old(View()), j, twoPorts).None?
      ensures !trap ==> View() == Cleanup(old(View()), j, twoPorts).value && (unused <==> attrs[j].phase == Unused)
    {
      hide FoundPair, FoundSame, RemoveReservation;
      Retire(j, twoPorts);
      var a := attrs[j];
      unused, trap := a.phase == Unused, false;
      if IsStream(a.kind) {
        var matched1 := MatchPair(a, true, true);
        var matched2 := MatchPair(a, false, true);
        var matched3 := MatchSame(a, true, true);
        var matched4 := MatchSame(a, false, true);
        if matched1.None? && matched2.None? && matched3.None? && matched4.None? {
          if a.info.None? {
            return true, unused;
          }
          trap := RemoveReservationEntry(entries[a.info.value].id);
        }
      }
    }
  }

  lemma FirstUnique(es: seq<Entry>, id: nat, k: nat)
    requires k <= |es| && (forall i | 0 <= i < k :: es[i].id != id) && (k < |es| ==> es[k].id == id)
    ensures FirstWith(es, id) == k
  {
  }
}
