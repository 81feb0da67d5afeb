/**
 Firmware upgrade over AECP address access (avb_1722_1_aecp.c): writes of any size arrive in order
 and are re-blocked into flash pages, with the rest of each write carried over to the next.
 */
module FlashPages {
  import opened Bytes

  const PAGE: nat := 256

  datatype Status = Success | AddressInvalid | TlvInvalid

  datatype PageWrite = PageWrite(address: nat, data: seq<byte>)

  /**
   One address access command. `data` is the memory from the data field on, of which `length` bytes
   are meant; nothing checks that they are all part of the message.
   */
  datatype Command = Command(tlvCount: nat, isWrite: bool, address: nat, length: nat, data: seq<byte>)

  predicate GoodCommand(c: Command) {
    c.length <= |c.data| && PAGE <= |c.data|
  }

  /** Everything handed to the flash so far, as one byte string. */
  function Written(ps: seq<PageWrite>): seq<byte> {
    if ps == [] then [] else Written(ps[..|ps| - 1]) + ps[|ps| - 1].data
  }

  /** Pages go to consecutive addresses from zero. */
  ghost predicate Consecutive(ps: seq<PageWrite>) {
    forall i | 0 <= i < |ps| :: |ps[i].data| == PAGE && ps[i].address == i * PAGE % TWO32
  }

  lemma {:induction false} WrittenLength(ps: seq<PageWrite>)
    requires Consecutive(ps)
    ensures |Written(ps)| == |ps| * PAGE
    decreases |ps|
  {
    if ps != [] {
      WrittenLength(ps[..|ps| - 1]);
    }
  }

  lemma WrittenAppend(ps: seq<PageWrite>, p: PageWrite)
    ensures Written(ps + [p]) == Written(ps) + p.data
  {
    assert (ps + [p])[..|ps|] == ps;
  }

  lemma NextAddress(n: nat)
    ensures (n * PAGE % TWO32 + PAGE) % TWO32 == (n + 1) * PAGE % TWO32
  {
    AddMod(n * PAGE, PAGE);
  }

  lemma AddMod(x: nat, y: nat)
    ensures (x % TWO32 + y) % TWO32 == (x + y) % TWO32
  {
  }

  // ----- the effect of a write on values

  /** Bytes in the flash, bytes carried over, and the address the next write must have. */
  datatype Store = Store(flash: seq<byte>, carry: seq<byte>, next: nat)

  function Image(s: Store): seq<byte> {
    s.flash + s.carry
  }

  /**
   A write taken in order. With a page or more in hand the whole pages go to the flash and the rest
   is carried over; with less, one page is written that reads past the end of the message.
   */
  function Take(s: Store, c: Command): (t: Store)
    requires |s.carry| < PAGE && GoodCommand(c)
    ensures |t.carry| < PAGE
  {
    var have := s.carry + c.data[..c.length];
    if |have| >= PAGE then
      var whole := |have| / PAGE * PAGE;
      Store(s.flash + have[..whole], have[whole..], (s.next + c.length) % TWO32)
    else
      Store(s.flash + s.carry + c.data[..PAGE - |s.carry|], [], (s.next + c.length) % TWO32)
  }

  function Outcome(s: Store, c: Command): Status {
    if c.tlvCount != 1 || !c.isWrite then TlvInvalid else if s.next != c.address then AddressInvalid else Success
  }

  function Handle(s: Store, c: Command): (t: Store)
    requires |s.carry| < PAGE && GoodCommand(c)
    ensures |t.carry| < PAGE
  {
    if Outcome(s, c) == Success then Take(s, c) else s
  }

  /** The write pointer has the number of bytes received. */
  ghost predicate InStep(s: Store) {
    |s.carry| < PAGE && |s.flash| % PAGE == 0 && s.next == |Image(s)| % TWO32
  }

  /**
   A write is re-blocked faithfully exactly when the bytes carried over and its own make up at
   least a page: only then is the image extended by the write's data and the address kept in step.
   */
  lemma FaithfulIff(s: Store, c: Command)
    requires InStep(s) && GoodCommand(c) && Outcome(s, c) == Success
    ensures Image(Handle(s, c)) == Image(s) + c.data[..c.length] <==> |s.carry| + c.length >= PAGE
    ensures InStep(Handle(s, c)) <==> |s.carry| + c.length >= PAGE
  {
    hide Take;
    AddMod(|Image(s)|, c.length);
    if |s.carry| + c.length >= PAGE {
      TakeWhole(s, c);
    } else {
      TakeShort(s, c);
      Unequal(|s.flash| + PAGE, |Image(s)| + c.length);
    }
  }

  lemma TakeWhole(s: Store, c: Command)
    requires |s.carry| < PAGE && GoodCommand(c) && |s.carry| + c.length >= PAGE
    ensures var t := Take(s, c);
            && Image(t) == Image(s) + c.data[..c.length] && |t.carry| < PAGE
            && (|s.flash| % PAGE == 0 ==> |t.flash| % PAGE == 0)
            && t.next == (s.next + c.length) % TWO32
  {
    var have := s.carry + c.data[..c.length];
    var whole := |have| / PAGE * PAGE;
    assert have == have[..whole] + have[whole..];
    assert Image(Take(s, c)) == s.flash + have;
    assert Image(s) + c.data[..c.length] == s.flash + have;
  }

  lemma TakeNext(s: Store, c: Command)
    requires |s.carry| < PAGE && GoodCommand(c)
    ensures Take(s, c).next == (s.next + c.length) % TWO32
  {
  }

  lemma TakeShort(s: Store, c: Command)
    requires |s.carry| < PAGE && GoodCommand(c) && |s.carry| + c.length < PAGE
    ensures var t := Take(s, c);
            && Image(t) == Image(s) + c.data[..PAGE - |s.carry|] && t.carry == []
            && (|s.flash| % PAGE == 0 ==> |t.flash| % PAGE == 0)
            && t.next == (s.next + c.length) % TWO32
  {
  }

  /** Whole pages and a rest of less than a page determine each other. */
  lemma SplitUnique(a: seq<byte>, b: seq<byte>, c: seq<byte>, d: seq<byte>)
    requires a + b == c + d && |a| % PAGE == 0 && |c| % PAGE == 0 && |b| < PAGE && |d| < PAGE
    ensures a == c && b == d
  {
    SameMultiple(|a|, |b|, |c|, |d|);
    assert a == (a + b)[..|a|] && c == (c + d)[..|c|];
    assert b == (a + b)[|a|..] && d == (c + d)[|c|..];
  }

  lemma SameMultiple(a: nat, b: nat, c: nat, d: nat)
    requires a + b == c + d && a % PAGE == 0 && c % PAGE == 0 && b < PAGE && d < PAGE
    ensures a == c
  {
  }

  lemma Unequal(x: nat, y: nat)
    requires y < x <= y + PAGE
    ensures x % TWO32 != y % TWO32
  {
  }

  function Run(s: Store, cs: seq<Command>): (t: Store)
    requires |s.carry| < PAGE && forall i | 0 <= i < |cs| :: GoodCommand(cs[i])
    ensures |t.carry| < PAGE
    decreases |cs|
  {
    if cs == [] then s else Run(Handle(s, cs[0]), cs[1..])
  }

  /** The bytes a command adds: its data if it is accepted. */
  function Added(s: Store, c: Command): seq<byte>
    requires GoodCommand(c)
  {
    if Outcome(s, c) == Success then c.data[..c.length] else []
  }

  /** The data of all the writes that were accepted, in order. */
  function Data(s: Store, cs: seq<Command>): seq<byte>
    requires |s.carry| < PAGE && forall i | 0 <= i < |cs| :: GoodCommand(cs[i])
    decreases |cs|
  {
    if cs == [] then [] else Added(s, cs[0]) + Data(Handle(s, cs[0]), cs[1..])
  }

  /** Every accepted write makes up a page with the bytes carried over to it. */
  predicate Sizable(s: Store, cs: seq<Command>)
    requires |s.carry| < PAGE && forall i | 0 <= i < |cs| :: GoodCommand(cs[i])
    decreases |cs|
  {
    cs == [] ||
    ((Outcome(s, cs[0]) == Success ==> |s.carry| + cs[0].length >= PAGE) && Sizable(Handle(s, cs[0]), cs[1..]))
  }

  lemma OneWrite(s: Store, c: Command)
    requires |s.carry| < PAGE && GoodCommand(c)
    ensures Outcome(s, c) == Success && |s.carry| + c.length < PAGE ==> |Image(Handle(s, c))| > |Image(s)| + |Added(s, c)|
    ensures Outcome(s, c) == Success ==> |s.carry| + c.length < PAGE || Image(Handle(s, c)) == Image(s) + Added(s, c)
    ensures Outcome(s, c) != Success ==> Handle(s, c) == s && Image(s) == Image(s) + Added(s, c)
  {
    hide Take;
    if |s.carry| + c.length >= PAGE {
      TakeWhole(s, c);
    } else {
      TakeShort(s, c);
    }
  }

  /**
   Over any run of commands, accepted or refused, flash and carry buffer together hold exactly the
   accepted data in order if and only if no accepted write left less than a page in hand.
   */
  lemma {:induction false} UpgradeCorrect(s: Store, cs: seq<Command>)
    requires |s.carry| < PAGE && forall i | 0 <= i < |cs| :: GoodCommand(cs[i])
    ensures |Image(Run(s, cs))| >= |Image(s)| + |Data(s, cs)|
    ensures Image(Run(s, cs)) == Image(s) + Data(s, cs) <==> Sizable(s, cs)
    decreases |cs|
  {
    hide Handle, Image, Added;
    if cs == [] {
    } else {
      var t := Handle(s, cs[0]);
      OneWrite(s, cs[0]);
      UpgradeCorrect(t, cs[1..]);
      assert Image(s) + Data(s, cs) == (Image(s) + Added(s, cs[0])) + Data(t, cs[1..]);
    }
  }

  /** Ten bytes to a fresh device: a whole page is written, and the next write in order is refused. */
  lemma ShortWrite(data: seq<byte>)
    requires |data| == 502
    ensures var s := Store([], [], 0); var c := Command(1, true, 0, 10, data); var t := Handle(s, c);
            && Outcome(s, c) == Success && t == Store(data[..PAGE], [], 10)
            && Image(t) != Image(s) + data[..10] && !InStep(t)
  {
    var s, c := Store([], [], 0), Command(1, true, 0, 10, data);
    assert [] + data[..10] == data[..10];
    assert ([] + []) + data[..PAGE] == data[..PAGE];
    assert |Image(Handle(s, c))| == PAGE;
  }

  /** As long as the writes are sizable the expected address counts the bytes received. */
  lemma {:induction false} AddressInStep(s: Store, cs: seq<Command>)
    requires InStep(s) && forall i | 0 <= i < |cs| :: GoodCommand(cs[i])
    requires Sizable(s, cs)
    ensures InStep(Run(s, cs))
    decreases |cs|
  {
    hide Take, InStep;
    assert |s.carry| < PAGE by { InStepCarry(s); }
    if cs == [] {
    } else {
      if Outcome(s, cs[0]) == Success {
        FaithfulIff(s, cs[0]);
      }
      AddressInStep(Handle(s, cs[0]), cs[1..]);
    }
  }

  lemma InStepCarry(s: Store)
    requires InStep(s)
    ensures |s.carry| < PAGE
  {
  }

  // ----- which writes are accepted

  /** A command is refused, and changes nothing, unless it is a single write to the expected address. */
  lemma Refusals(s: Store, c: Command)
    requires |s.carry| < PAGE && GoodCommand(c)
    ensures c.tlvCount != 1 || !c.isWrite ==> Outcome(s, c) == TlvInvalid && Handle(s, c) == s
    ensures c.tlvCount == 1 && c.isWrite && c.address != s.next ==> Outcome(s, c) == AddressInvalid && Handle(s, c) == s
    ensures c.tlvCount == 1 && c.isWrite && c.address == s.next ==>
              Outcome(s, c) == Success && Handle(s, c).next == (s.next + c.length) % TWO32
  {
    hide Take;
    TakeNext(s, c);
  }

  /** Of a run of commands, the data of the single writes that each begin where the ones before them end. */
  function InOrder(cs: seq<Command>, from: nat): seq<byte>
    requires forall i | 0 <= i < |cs| :: GoodCommand(cs[i])
    decreases |cs|
  {
    if cs == [] then []
    else if cs[0].tlvCount == 1 && cs[0].isWrite && cs[0].address == from % TWO32
    then assert GoodCommand(cs[0]); cs[0].data[..cs[0].length] + InOrder(cs[1..], from + cs[0].length)
    else InOrder(cs[1..], from)
  }

  /** Over any run, the writes accepted are those in order, and the expected address counts their bytes. */
  lemma {:induction false} AcceptsInOrder(s: Store, cs: seq<Command>, from: nat)
    requires |s.carry| < PAGE && s.next == from % TWO32 && forall i | 0 <= i < |cs| :: GoodCommand(cs[i])
    ensures Data(s, cs) == InOrder(cs, from)
    ensures Run(s, cs).next == (from + |Data(s, cs)|) % TWO32
    decreases |cs|
  {
    hide Handle, Outcome;
    if cs == [] {
    } else {
      Refusals(s, cs[0]);
      AddMod(from, cs[0].length);
      AcceptsInOrder(Handle(s, cs[0]), cs[1..], if Outcome(s, cs[0]) == Success then from + cs[0].length else from);
    }
  }

  /** A single write is accepted exactly if its address is the number of bytes accepted before it since the upgrade began. */
  lemma AcceptedIff(cs: seq<Command>, n: nat)
    requires n < |cs| && forall i | 0 <= i < |cs| :: GoodCommand(cs[i])
    requires cs[n].tlvCount == 1 && cs[n].isWrite
    ensures var s := Store([], [], 0);
            && |Run(s, cs[..n]).carry| < PAGE
            && Outcome(Run(s, cs[..n]), cs[n]) ==
               if cs[n].address == |InOrder(cs[..n], 0)| % TWO32 then Success else AddressInvalid
  {
    hide Outcome, Run, InOrder;
    var s := Store([], [], 0);
    AcceptsInOrder(s, cs[..n], 0);
    Refusals(Run(s, cs[..n]), cs[n]);
  }

  /** A whole upgrade: the image is the data of the writes in order if and only if those are sizable. */
  lemma UpgradeInOrder(cs: seq<Command>)
    requires forall i | 0 <= i < |cs| :: GoodCommand(cs[i])
    ensures var s := Store([], [], 0); Image(Run(s, cs)) == InOrder(cs, 0) <==> Sizable(s, cs)
  {
    hide Run, InOrder, Sizable, Data;
    var s := Store([], [], 0);
    UpgradeCorrect(s, cs);
    AcceptsInOrder(s, cs, 0);
    assert Image(s) + Data(s, cs) == Data(s, cs);
  }

  // ----- the code

  class Upgrade {
    const page: array<byte>
    var copied: nat
    var flashAddr: nat
    var nextAddr: nat
    var writes: seq<PageWrite>

    /** Whole pages at consecutive addresses, less than a page carried over. */
    ghost predicate Valid()
      reads this
    {
      page.Length == PAGE && copied < PAGE && Paged()
    }

    ghost predicate Paged()
      reads this`writes, this`flashAddr
    {
      Consecutive(writes) && flashAddr == |writes| * PAGE % TWO32
    }

    ghost function View(): Store
      requires copied <= page.Length
      reads this, page
    {
      Store(Written(writes), page[..copied], nextAddr)
    }

    /** The state after an aborted or not yet begun upgrade. */
    constructor ()
      ensures Valid() && View() == Store([], [], 0) && fresh(page)
    {
      page := new byte[PAGE](_ => 0);
      copied, flashAddr, nextAddr, writes := 0, 0, 0, [];
    }

    /** `avb_write_upgrade_image_page` and the step of the write address. */
    method WritePage(data: seq<byte>)
      requires |data| == PAGE && Paged()
      modifies this`writes, this`flashAddr
      ensures Paged() && Written(writes) == Written(old(writes)) + data
    {
      WrittenAppend(writes, PageWrite(flashAddr, data));
      NextAddress(|writes|);
      writes := writes + [PageWrite(flashAddr, data)];
      flashAddr := (flashAddr + PAGE) % TWO32;
    }

    /** `memcpy` into the page buffer behind the bytes already there. */
    method Carry(data: seq<byte>)
      requires page.Length == PAGE && copied + |data| <= PAGE
      modifies this`copied, page
      ensures copied == old(copied) + |data| && page[..copied] == old(page[..copied]) + data
    {
      var k := 0;
      while k < |data|
        invariant 0 <= k <= |data| && copied == old(copied)
        invariant page[..copied + k] == old(page[..copied]) + data[..k]
      {
        page[copied + k] := data[k];
        k := k + 1;
      }
      copied := copied + |data|;
    }

    /** Flash and carry buffer hold what they held before the message and its first `used` bytes. */
    ghost predicate Holds(was: seq<byte>, data: seq<byte>, used: nat)
      reads this, page
    {
      && page.Length == PAGE && copied <= PAGE && used <= |data| && Paged()
      && Written(writes) + page[..copied] == was + data[..used]
    }

    /** Bytes of the message that a write consumes, its own or more. */
    static ghost function Consumed(carried: nat, length: nat): nat
      requires carried < PAGE
    {
      if carried + length >= PAGE then length else PAGE - carried
    }

    /** Where the loop stands after `used` bytes, the last of them perhaps in the carry buffer. */
    ghost predicate Going(carried: nat, length: nat, used: nat, index: nat, available: int)
      requires carried < PAGE
      reads this
    {
      && index == used && available == length - used + copied
      && used <= Consumed(carried, length)
      && (used == 0 ==> copied == carried)
      && (used > 0 ==> copied == 0 || (copied == PAGE && carried > 0))
      && (used > 0 && carried + length < PAGE ==> used == PAGE - carried)
    }

    /** One round of the do-while loop. */
    method Round(c: Command, index: nat, available: int, ghost carried: nat, ghost was: seq<byte>)
      returns (index': nat, available': int, ghost used: nat)
      requires GoodCommand(c) && carried < PAGE
      requires Holds(was, c.data, index) && Going(carried, c.length, index, index, available)
      requires index > 0 ==> available > 0
      modifies this`copied, this`writes, this`flashAddr, page
      ensures Holds(was, c.data, used) && used > 0
      ensures available' < available || (available' == available && copied == PAGE != old(copied))
      ensures Going(carried, c.length, used, index', available') || (available' == 0 && copied < PAGE && used == c.length && carried + c.length >= PAGE)
    {
      hide Written, Paged;
      index', available', used := index, available, index;
      ghost var before := Written(writes);
      if copied == 0 {
        Empty(before);
        if index == 0 {
          WritePage(c.data[0..PAGE]);
          index', available', used := index + PAGE, available - PAGE, PAGE;
          Extend(before, was, c.data, 0, PAGE);
          Empty(Written(writes));
        } else if index + PAGE > c.length {
          Carry(c.data[index..index + available]);
          index', available', used := 0, 0, c.length;
          Extend(before, was, c.data, index, c.length);
          assert page[..copied] == c.data[index..c.length];
        } else {
          WritePage(c.data[index..index + PAGE]);
          index', available', used := index + PAGE, available - PAGE, index + PAGE;
          Extend(before, was, c.data, index, index + PAGE);
          Empty(Written(writes));
        }
      } else if copied == PAGE {
        assert page[..] == page[..copied];
        WritePage(page[..]);
        copied := 0;
        Empty(Written(writes));
        available' := available - PAGE;
      } else {
        var bytes := PAGE - copied;
        Extend(before + page[..copied], was, c.data, index, index + bytes);
        assert before + (page[..copied] + c.data[index..index + bytes]) == before + page[..copied] + c.data[index..index + bytes];
        Carry(c.data[index..index + bytes]);
        index', used := index + bytes, index + bytes;
      }
    }

    /** The do-while loop of an accepted write. */
    method Reblock(c: Command)
      requires Valid() && GoodCommand(c)
      modifies this`copied, this`writes, this`flashAddr, page
      ensures Valid()
      ensures Written(writes) + page[..copied] ==
              old(Written(writes) + page[..copied]) + c.data[..Consumed(old(copied), c.length)]
      ensures old(copied) + c.length < PAGE ==> copied == 0
    {
      hide Written, Paged, Holds;
      ghost var carried, was := copied, Written(writes) + page[..copied];
      Begin(c.data);
      var available := c.length + copied;
      ghost var used;
      var index := 0;
      index, available, used := Round(c, index, available, carried, was);
      while available > 0
        invariant Holds(was, c.data, used) && used > 0
        invariant Going(carried, c.length, used, index, available) || (available == 0 && copied < PAGE && used == c.length && carried + c.length >= PAGE)
        decreases available, copied != PAGE
      {
        index, available, used := Round(c, index, available, carried, was);
      }
      Finish(was, c.data, used);
    }

    static lemma TakeImage(s: Store, c: Command)
      requires |s.carry| < PAGE && |s.flash| % PAGE == 0 && GoodCommand(c)
      ensures var t := Take(s, c); t.flash + t.carry == Image(s) + c.data[..Consumed(|s.carry|, c.length)] && |t.flash| % PAGE == 0
    {
      hide Take;
      if |s.carry| + c.length >= PAGE {
        TakeWhole(s, c);
      } else {
        TakeShort(s, c);
      }
    }

    /** The effect of the loop is the one on values. */
    lemma Taken(s: Store, c: Command)
      requires Valid() && |s.carry| < PAGE && |s.flash| % PAGE == 0 && GoodCommand(c)
      requires Written(writes) + page[..copied] == Image(s) + c.data[..Consumed(|s.carry|, c.length)]
      requires |s.carry| + c.length < PAGE ==> copied == 0
      ensures Written(writes) == Take(s, c).flash && page[..copied] == Take(s, c).carry
    {
      hide Take, Written, Image, Paged, Consumed;
      FlashWhole();
      TakeImage(s, c);
      SplitUnique(Written(writes), page[..copied], Take(s, c).flash, Take(s, c).carry);
    }

    /** An address access command and its status; a refused one changes nothing. */
    method AddressAccess(c: Command) returns (status: Status)
      requires Valid() && GoodCommand(c)
      modifies this, page
      ensures Valid() && View() == Handle(old(View()), c)
      ensures status == Outcome(old(View()), c)
    {
      hide Take, Written, Paged;
      status := Success;
      if c.tlvCount != 1 || !c.isWrite {
        status := TlvInvalid;
      } else if nextAddr != c.address {
        status := AddressInvalid;
      } else {
        ghost var was := View();
        FlashWhole();
        Reblock(c);
        Taken(was, c);
        nextAddr := (nextAddr + c.length) % TWO32;
        TakeNext(was, c);
      }
    }

    lemma FlashWhole()
      requires Paged()
      ensures |Written(writes)| % PAGE == 0
    {
      WrittenLength(writes);
    }

    lemma Empty(w: seq<byte>)
      ensures w + page[..0] == w
    {
    }

    lemma Begin(data: seq<byte>)
      requires Valid()
      ensures Holds(Written(writes) + page[..copied], data, 0)
    {
      assert data[..0] == [];
    }

    lemma Finish(was: seq<byte>, data: seq<byte>, used: nat)
      requires Holds(was, data, used)
      ensures used <= |data| && Written(writes) + page[..copied] == was + data[..used]
      ensures copied < PAGE ==> Valid()
    {
    }
  }

  lemma Extend(w: seq<byte>, was: seq<byte>, data: seq<byte>, i: nat, j: nat)
    requires i <= j <= |data| && w == was + data[..i]
    ensures w + data[i..j] == was + data[..j]
  {
    assert data[..j] == data[..i] + data[i..j];
  }
}
