/**
 The listeners connected to one talker stream (avb_1722_1_acmp.c): a fixed table of slots, where a
 zero GUID marks a free slot, and a counter kept beside it.
 */
module AcmpTable {
  datatype Pair = Pair(guid: nat, uniqueId: nat)

  const NOBODY := Pair(0, 0)

  datatype Table = Table(slots: seq<Pair>, count: int)

  datatype Status = Connected(listener: Pair) | NoSuchConnection | StateUnavailable

  predicate Free(p: Pair) {
    p.guid == 0
  }

  /** The listeners the table holds. */
  function Listeners(slots: seq<Pair>): set<Pair> {
    set i | 0 <= i < |slots| && !Free(slots[i]) :: slots[i]
  }

  ghost predicate Distinct(slots: seq<Pair>) {
    forall i, j | 0 <= i < j < |slots| && !Free(slots[i]) :: slots[i] != slots[j]
  }

  ghost predicate Valid(t: Table) {
    && Distinct(t.slots)
    && (forall i | 0 <= i < |t.slots| && Free(t.slots[i]) :: t.slots[i] == NOBODY)
    && t.count == |Listeners(t.slots)|
  }

  ghost predicate HasFree(slots: seq<Pair>) {
    exists i | 0 <= i < |slots| :: Free(slots[i])
  }

  function IndexOf(slots: seq<Pair>, p: Pair): (k: nat)
    ensures k <= |slots| && (forall i | 0 <= i < k :: slots[i] != p) && (k < |slots| ==> slots[k] == p)
  {
    if slots == [] || slots[0] == p then 0 else 1 + IndexOf(slots[1..], p)
  }

  function FirstFree(slots: seq<Pair>): (k: nat)
    ensures k <= |slots| && (forall i | 0 <= i < k :: !Free(slots[i])) && (k < |slots| ==> Free(slots[k]))
  {
    if slots == [] || Free(slots[0]) then 0 else 1 + FirstFree(slots[1..])
  }

  function Add(t: Table, p: Pair): Table {
    var k := FirstFree(t.slots);
    if p in t.slots || k == |t.slots| then t else Table(t.slots[k := p], t.count + 1)
  }

  function Remove(t: Table, p: Pair): Table {
    var k := IndexOf(t.slots, p);
    if k == |t.slots| then t else Table(t.slots[k := NOBODY], t.count - 1)
  }

  // ----- the table as a bounded set

  lemma {:induction false} Occupancy(slots: seq<Pair>)
    requires Distinct(slots)
    ensures |Listeners(slots)| <= |slots|
    ensures |Listeners(slots)| == |slots| <==> !HasFree(slots)
    decreases |slots|
  {
    if slots == [] {
    } else {
      var n := |slots| - 1;
      var rest := slots[..n];
      Occupancy(rest);
      if Free(slots[n]) {
        assert Listeners(slots) == Listeners(rest);
      } else {
        assert Listeners(slots) == Listeners(rest) + {slots[n]};
        assert HasFree(slots) ==> HasFree(rest) by {
          if HasFree(slots) {
            var i :| 0 <= i < |slots| && Free(slots[i]);
            assert Free(rest[i]);
          }
        }
        assert HasFree(rest) ==> HasFree(slots) by {
          if HasFree(rest) {
            var i :| 0 <= i < |rest| && Free(rest[i]);
            assert Free(slots[i]);
          }
        }
      }
    }
  }

  lemma AddListeners(slots: seq<Pair>, k: nat, p: Pair)
    requires k < |slots| && Free(slots[k]) && !Free(p)
    ensures Listeners(slots[k := p]) == Listeners(slots) + {p}
  {
    var after := slots[k := p];
    forall q | q in Listeners(slots) ensures q in Listeners(after) {
      var i :| 0 <= i < |slots| && !Free(slots[i]) && slots[i] == q;
      assert after[i] == q;
    }
    assert after[k] == p;
  }

  lemma RemoveListeners(slots: seq<Pair>, k: nat)
    requires k < |slots| && Distinct(slots) && !Free(slots[k])
    ensures Listeners(slots[k := NOBODY]) == Listeners(slots) - {slots[k]}
  {
    var after := slots[k := NOBODY];
    forall q | q in Listeners(slots) && q != slots[k] ensures q in Listeners(after) {
      var i :| 0 <= i < |slots| && !Free(slots[i]) && slots[i] == q;
      assert after[i] == q;
    }
  }

  /** Connecting: idempotent, ignored when full, and otherwise one more listener. */
  lemma AddIsInsert(t: Table, p: Pair)
    requires Valid(t) && !Free(p)
    ensures Valid(Add(t, p))
    ensures Listeners(Add(t, p).slots) ==
            if |Listeners(t.slots)| == |t.slots| then Listeners(t.slots) else Listeners(t.slots) + {p}
  {
    Occupancy(t.slots);
    var k := FirstFree(t.slots);
    if p in t.slots {
      assert Listeners(t.slots) == Listeners(t.slots) + {p};
    } else if k < |t.slots| {
      assert HasFree(t.slots);
      AddListeners(t.slots, k, p);
    }
  }

  lemma RemoveIsDelete(t: Table, p: Pair)
    requires Valid(t) && !Free(p)
    ensures Valid(Remove(t, p))
    ensures Listeners(Remove(t, p).slots) == Listeners(t.slots) - {p}
  {
    var k := IndexOf(t.slots, p);
    if k < |t.slots| {
      RemoveListeners(t.slots, k);
      assert p in Listeners(t.slots);
    }
  }

  /**
   A zero GUID, which the code does not refuse, upsets the table exactly when it gets past the
   searches: a connect if there is a free slot and its unique id is not zero.
   */
  lemma AddKeepsIff(t: Table, p: Pair)
    requires Valid(t)
    ensures Valid(Add(t, p)) <==> !(p.guid == 0 && p.uniqueId != 0 && HasFree(t.slots))
  {
    if !Free(p) {
      AddIsInsert(t, p);
    } else {
      var k := FirstFree(t.slots);
      if k < |t.slots| {
        assert HasFree(t.slots);
        if p == NOBODY {
          assert t.slots[k] == p;
        } else {
          assert Add(t, p).slots[k] == p;
        }
      }
    }
  }

  /** A disconnect if both are zero and there is a free slot to be taken for a listener. */
  lemma RemoveKeepsIff(t: Table, p: Pair)
    requires Valid(t)
    ensures Valid(Remove(t, p)) <==> !(p == NOBODY && HasFree(t.slots))
  {
    assert HasFree(t.slots) ==> NOBODY in t.slots by {
      if HasFree(t.slots) {
        var i :| 0 <= i < |t.slots| && Free(t.slots[i]);
        assert t.slots[i] == NOBODY;
      }
    }
    if !Free(p) {
      RemoveIsDelete(t, p);
    } else {
      var k := IndexOf(t.slots, p);
      if k < |t.slots| {
        assert HasFree(t.slots) by { assert Free(t.slots[k]); }
        assert t.slots[k := NOBODY] == t.slots;
      }
    }
  }

  /** Connecting with a zero GUID leaves the table of one slot free and counts one. */
  lemma ZeroGuidCounted()
    ensures var t := Add(Table([NOBODY], 0), Pair(0, 1));
            Valid(Table([NOBODY], 0)) && Free(t.slots[0]) && t.count == 1 && !Valid(t)
  {
    var slots := [NOBODY];
    assert slots[0] == NOBODY && slots[0 := Pair(0, 1)] == [Pair(0, 1)];
    assert Listeners(slots) == {} && Listeners([Pair(0, 1)]) == {};
    assert FirstFree(slots) == 0 && Pair(0, 1) !in slots;
  }

  /** Disconnecting nobody from an empty table counts below zero. */
  lemma NobodyDisconnected()
    ensures var t := Remove(Table([NOBODY], 0), NOBODY); t == Table([NOBODY], -1) && !Valid(t)
  {
    var slots := [NOBODY];
    assert IndexOf(slots, NOBODY) == 0 && slots[0 := NOBODY] == slots;
  }

  datatype Request = Connect(listener: Pair) | Disconnect(listener: Pair)

  function Apply(t: Table, r: Request): Table {
    match r
    case Connect(p) => Add(t, p)
    case Disconnect(p) => Remove(t, p)
  }

  function Run(t: Table, rs: seq<Request>): Table
    decreases |rs|
  {
    if rs == [] then t else Run(Apply(t, rs[0]), rs[1..])
  }

  /** The same requests on a set that holds at most `max` listeners. */
  function Connections(s: set<Pair>, max: nat, rs: seq<Request>): set<Pair>
    decreases |rs|
  {
    if rs == [] then s
    else
      var t := match rs[0]
               case Connect(p) => if |s| == max then s else s + {p}
               case Disconnect(p) => s - {p};
      Connections(t, max, rs[1..])
  }

  /** Over any run of requests the table is that bounded set and the counter its size. */
  lemma {:induction false} TableIsSet(t: Table, rs: seq<Request>)
    requires Valid(t) && forall i | 0 <= i < |rs| :: !Free(rs[i].listener)
    ensures Valid(Run(t, rs)) && |Run(t, rs).slots| == |t.slots|
    ensures Listeners(Run(t, rs).slots) == Connections(Listeners(t.slots), |t.slots|, rs)
    ensures 0 <= Run(t, rs).count <= |t.slots|
    decreases |rs|
  {
    hide Listeners, Distinct;
    Occupancy(t.slots);
    if rs == [] {
    } else {
      assert !Free(rs[0].listener);
      match rs[0] {
        case Connect(p) => AddIsInsert(t, p);
        case Disconnect(p) => RemoveIsDelete(t, p);
      }
      TableIsSet(Apply(t, rs[0]), rs[1..]);
    }
  }

  // ----- the code

  class TalkerConnections {
    const slots: array<Pair>
    var count: int

    ghost function View(): Table
      reads this, slots
    {
      Table(slots[..], count)
    }

    constructor (max: nat)
      ensures fresh(slots) && slots.Length == max && Valid(View()) && Listeners(slots[..]) == {}
    {
      slots := new Pair[max](_ => NOBODY);
      count := 0;
    }

    /** `acmp_add_talker_stream_info`. */
    method AddListener(p: Pair)
      modifies this, slots
      ensures View() == Add(old(View()), p)
    {
      var i := 0;
      while i < slots.Length
        invariant 0 <= i <= slots.Length && p !in slots[..i]
      {
        if slots[i] == p {
          return;
        }
        i := i + 1;
      }
      assert slots[..] == slots[..i];
      i := 0;
      while i < slots.Length
        invariant 0 <= i <= slots.Length && i <= FirstFree(slots[..])
        invariant slots[..] == old(slots[..]) && count == old(count)
      {
        if slots[i].guid == 0 {
          assert FirstFree(slots[..]) == i;
          slots[i] := p;
          count := count + 1;
          return;
        }
        assert FirstFree(slots[..]) != i;
        i := i + 1;
      }
    }

    /** `acmp_remove_talker_stream_info`. */
    method RemoveListener(p: Pair)
      modifies this, slots
      ensures View() == Remove(old(View()), p)
    {
      var i := 0;
      while i < slots.Length
        invariant 0 <= i <= slots.Length && forall h | 0 <= h < i :: slots[h] != p
        invariant slots[..] == old(slots[..]) && count == old(count)
      {
        if slots[i] == p {
          assert IndexOf(slots[..], p) == i;
          slots[i] := NOBODY;
          count := count - 1;
          return;
        }
        i := i + 1;
      }
      assert IndexOf(slots[..], p) == i;
    }

    /** `acmp_talker_get_connection`: every listener is found at an index, and nothing else is. */
    method GetConnection(index: nat) returns (status: Status)
      requires Valid(View())
      ensures index >= slots.Length <==> status == StateUnavailable
      ensures status.Connected? <==> index < slots.Length && !Free(slots[index])
      ensures status.Connected? ==> status.listener == slots[index] && status.listener in Listeners(slots[..])
    {
      if index >= slots.Length {
        status := StateUnavailable;
      } else if slots[index].guid == 0 {
        status := NoSuchConnection;
      } else {
        assert slots[..][index] == slots[index];
        status := Connected(slots[index]);
      }
    }
  }

  /** Each connected listener answers at exactly one index. */
  lemma OneIndex(t: Table, p: Pair)
    requires Valid(t) && p in Listeners(t.slots)
    ensures exists i | 0 <= i < |t.slots| :: t.slots[i] == p && forall j | 0 <= j < |t.slots| && j != i :: t.slots[j] != p
  {
    var i :| 0 <= i < |t.slots| && !Free(t.slots[i]) && t.slots[i] == p;
    forall j | 0 <= j < |t.slots| && j != i ensures t.slots[j] != p {
      if i < j {
        assert t.slots[i] != t.slots[j];
      } else {
        assert Free(t.slots[j]) || t.slots[j] != t.slots[i];
      }
    }
  }
}
