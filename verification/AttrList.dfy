/**
 The linked list of attributes in avb_mrp.c: the one-pass reordering `sort_attrs` done in place on
 the `next` links, its comparator, and the visit of one attribute by an event for its type.
 */
module AttrList {
  import opened Bytes
  import opened MrpWire
  import opened MrpState

  // ----- the reordering on sequences

  type Order<!T> = (T, T) -> bool

  /** What the first loop leaves in the list: every element in order before its successor, and the last one. */
  function Keep<T>(cmp: Order<T>, s: seq<T>): (r: seq<T>)
    ensures |s| > 0 ==> |r| > 0
  {
    if |s| <= 1 then s
    else if cmp(s[0], s[1]) then [s[0]] + Keep(cmp, s[1..])
    else Keep(cmp, s[1..])
  }

  /** What it takes out, last one first. */
  function Take<T>(cmp: Order<T>, s: seq<T>): seq<T> {
    if |s| <= 1 then []
    else Take(cmp, s[1..]) + if cmp(s[0], s[1]) then [] else [s[0]]
  }

  /** The search of the second loop: behind the first element where `x` fits, else at the end. */
  function Place<T>(cmp: Order<T>, x: T, s: seq<T>): (r: seq<T>)
    requires s != []
    ensures |r| == |s| + 1
  {
    if |s| == 1 || (cmp(s[0], x) && cmp(x, s[1])) then [s[0], x] + s[1..]
    else [s[0]] + Place(cmp, x, s[1..])
  }

  function Insert<T>(cmp: Order<T>, x: T, s: seq<T>): (r: seq<T>)
    requires s != []
    ensures |r| == |s| + 1
  {
    if cmp(x, s[0]) then [x] + s else Place(cmp, x, s)
  }

  function InsertAll<T>(cmp: Order<T>, xs: seq<T>, s: seq<T>): seq<T>
    requires xs == [] || s != []
    decreases |xs|
  {
    if xs == [] then s else InsertAll(cmp, xs[1..], Insert(cmp, xs[0], s))
  }

  function SortPass<T>(cmp: Order<T>, s: seq<T>): seq<T> {
    InsertAll(cmp, Take(cmp, s), Keep(cmp, s))
  }

  lemma {:induction false} KeepTake<T>(cmp: Order<T>, s: seq<T>)
    ensures multiset(Keep(cmp, s)) + multiset(Take(cmp, s)) == multiset(s)
  {
    assert s != [] ==> s == [s[0]] + s[1..];
    if |s| > 1 {
      KeepTake(cmp, s[1..]);
      assert multiset(s) == multiset{s[0]} + multiset(s[1..]);
    }
  }

  lemma {:induction false} PlaceMultiset<T>(cmp: Order<T>, x: T, s: seq<T>)
    requires s != []
    ensures multiset(Place(cmp, x, s)) == multiset(s) + multiset{x}
  {
    assert s == [s[0]] + s[1..];
    if !(|s| == 1 || (cmp(s[0], x) && cmp(x, s[1]))) {
      PlaceMultiset(cmp, x, s[1..]);
    }
  }

  lemma {:induction false} InsertAllMultiset<T>(cmp: Order<T>, xs: seq<T>, s: seq<T>)
    requires xs == [] || s != []
    ensures multiset(InsertAll(cmp, xs, s)) == multiset(s) + multiset(xs)
    decreases |xs|
  {
    if xs != [] {
      PlaceMultiset(cmp, xs[0], s);
      InsertAllMultiset(cmp, xs[1..], Insert(cmp, xs[0], s));
      assert xs == [xs[0]] + xs[1..];
    }
  }

  /** For any comparator whatever, one pass is a permutation. */
  lemma SortPassPermutes<T>(cmp: Order<T>, s: seq<T>)
    ensures multiset(SortPass(cmp, s)) == multiset(s)
  {
    KeepTake(cmp, s);
    InsertAllMultiset(cmp, Take(cmp, s), Keep(cmp, s));
  }

  predicate Ordered<T>(cmp: Order<T>, s: seq<T>) {
    forall i {:trigger s[i]} | 0 <= i < |s| - 1 :: cmp(s[i], s[i + 1])
  }

  /** An ordered list comes out unchanged. */
  lemma {:induction false} SortPassOrdered<T>(cmp: Order<T>, s: seq<T>)
    requires Ordered(cmp, s)
    ensures Keep(cmp, s) == s && Take(cmp, s) == [] && SortPass(cmp, s) == s
  {
    if |s| > 1 {
      assert cmp(s[0], s[1]);
      forall i | 0 <= i < |s[1..]| - 1 ensures cmp(s[1..][i], s[1..][i + 1]) {
        assert cmp(s[i + 1], s[i + 2]);
      }
      SortPassOrdered(cmp, s[1..]);
    }
  }

  // ----- when one pass is enough

  /** A comparator that may find elements equal, as long as being equal is transitive. */
  ghost predicate WeakOrder<T(!new)>(cmp: Order<T>) {
    && (forall x :: !cmp(x, x))
    && (forall x, y, z :: cmp(x, y) && cmp(y, z) ==> cmp(x, z))
    && (forall x, y, z :: Tie(cmp, x, y) && Tie(cmp, y, z) ==> Tie(cmp, x, z))
  }

  predicate Tie<T>(cmp: Order<T>, x: T, y: T) {
    !cmp(x, y) && !cmp(y, x)
  }

  /** What is not above a second element, which is not above a third, is not above the third. */
  lemma NotAbove<T(!new)>(cmp: Order<T>, x: T, y: T, z: T)
    requires WeakOrder(cmp) && !cmp(y, x) && !cmp(z, y)
    ensures !cmp(z, x)
    ensures cmp(x, y) || cmp(y, z) ==> cmp(x, z)
  {
    assert Tie(cmp, x, y) || cmp(x, y);
    assert Tie(cmp, y, z) || cmp(y, z);
    if cmp(x, y) && !cmp(y, z) {
      assert Tie(cmp, z, y);
      assert Tie(cmp, x, z) ==> Tie(cmp, x, y);
    }
    if cmp(y, z) && !cmp(x, y) {
      assert Tie(cmp, y, x);
      assert Tie(cmp, x, z) ==> Tie(cmp, y, z);
    }
  }

  /** No element stands behind one that it should precede. */
  predicate Sorted<T>(cmp: Order<T>, s: seq<T>) {
    forall i, j | 0 <= i < j < |s| :: !cmp(s[j], s[i])
  }

  /** An element finds its place in a list: if it ties with one of the list, nothing of the list is above it. */
  ghost predicate Fits<T>(cmp: Order<T>, x: T, s: seq<T>) {
    (exists y | y in s :: Tie(cmp, x, y)) ==> forall y | y in s :: !cmp(x, y)
  }

  /** Each element of `xs` finds its place among those of `s` and those of `xs` before it. */
  ghost predicate AllFit<T>(cmp: Order<T>, xs: seq<T>, s: seq<T>)
    decreases |xs|
  {
    xs == [] || (Fits(cmp, xs[0], s) && AllFit(cmp, xs[1..], s + [xs[0]]))
  }

  lemma SortedCons<T>(cmp: Order<T>, x: T, s: seq<T>)
    ensures Sorted(cmp, [x] + s) <==> Sorted(cmp, s) && forall y | y in s :: !cmp(y, x)
  {
    var t := [x] + s;
    if Sorted(cmp, t) {
      forall i, j | 0 <= i < j < |s| ensures !cmp(s[j], s[i]) {
        assert t[j + 1] == s[j] && t[i + 1] == s[i];
      }
      forall y | y in s ensures !cmp(y, x) {
        var i :| 0 <= i < |s| && s[i] == y;
        assert t[i + 1] == y && t[0] == x;
      }
    }
    if Sorted(cmp, s) && forall y | y in s :: !cmp(y, x) {
      forall i, j | 0 <= i < j < |t| ensures !cmp(t[j], t[i]) {
        assert t[j] == s[j - 1] && (i > 0 ==> t[i] == s[i - 1]);
      }
    }
  }

  lemma Members<T>(s: seq<T>, x: T, t: seq<T>)
    requires multiset(t) == multiset(s) + multiset{x}
    ensures x in t && (forall y | y in s :: y in t) && forall y | y in t :: y == x || y in s
  {
    assert x in multiset(t);
    assert forall y | y in s :: y in multiset(s) && y in multiset(t);
    assert forall y | y in t :: y in multiset(t) && y in multiset(s) + multiset{x};
  }

  /** An element that belongs in front never gets there once the search has begun. */
  lemma PlaceBelow<T(!new)>(cmp: Order<T>, x: T, s: seq<T>)
    requires s != [] && cmp(x, s[0])
    ensures !Sorted(cmp, Place(cmp, x, s))
  {
    if |s| == 1 || (cmp(s[0], x) && cmp(x, s[1])) {
      assert Place(cmp, x, s) == [s[0]] + ([x] + s[1..]);
      SortedCons(cmp, s[0], [x] + s[1..]);
      assert x in [x] + s[1..];
    } else {
      PlaceMultiset(cmp, x, s[1..]);
      Members(s[1..], x, Place(cmp, x, s[1..]));
      SortedCons(cmp, s[0], Place(cmp, x, s[1..]));
    }
  }

  /** An element below the first of a sorted list is below all of it. */
  lemma BelowAll<T(!new)>(cmp: Order<T>, x: T, s: seq<T>)
    requires WeakOrder(cmp) && s != [] && Sorted(cmp, s) && cmp(x, s[0])
    ensures (forall y | y in s :: cmp(x, y) && !cmp(y, x) && !Tie(cmp, x, y)) && Fits(cmp, x, s)
  {
    forall y | y in s ensures cmp(x, y) && !cmp(y, x) {
      var i :| 0 <= i < |s| && s[i] == y;
      assert !cmp(s[0], x);
      if i > 0 {
        NotAbove(cmp, x, s[0], y);
      }
    }
  }

  lemma FitsCons<T(!new)>(cmp: Order<T>, x: T, s: seq<T>)
    requires WeakOrder(cmp) && |s| > 1 && Sorted(cmp, s) && !cmp(x, s[0]) && !cmp(x, s[1])
    ensures Fits(cmp, x, s) <==> Fits(cmp, x, s[1..])
  {
    var r := s[1..];
    assert s == [s[0]] + r;
    assert forall y | y in s :: y == s[0] || y in r;
    if Tie(cmp, x, s[0]) {
      assert !cmp(s[1], s[0]);
      NotAbove(cmp, x, s[0], s[1]);
      assert s[1] in r && Tie(cmp, x, s[1]);
    }
  }

  /** Placing an element gives a sorted list exactly if the list was sorted and the element fits. */
  lemma {:induction false} PlaceSorted<T(!new)>(cmp: Order<T>, x: T, s: seq<T>)
    requires WeakOrder(cmp) && s != [] && !cmp(x, s[0])
    ensures Sorted(cmp, Place(cmp, x, s)) <==> Sorted(cmp, s) && Fits(cmp, x, s)
    decreases |s|
  {
    hide Sorted, Fits, WeakOrder;
    var r := s[1..];
    assert s == [s[0]] + r;
    SortedCons(cmp, s[0], r);
    if |s| == 1 {
      PlaceSingle(cmp, x, s);
    } else if cmp(s[0], x) && cmp(x, s[1]) {
      PlaceBetween(cmp, x, s);
    } else if cmp(x, s[1]) {
      PlaceBelow(cmp, x, r);
      SortedCons(cmp, s[0], Place(cmp, x, r));
      TiesBelow(cmp, x, s);
    } else {
      PlaceSorted(cmp, x, r);
      PlaceMultiset(cmp, x, r);
      Members(r, x, Place(cmp, x, r));
      SortedCons(cmp, s[0], Place(cmp, x, r));
      if Sorted(cmp, s) {
        FitsCons(cmp, x, s);
      }
    }
  }

  lemma PlaceSingle<T(!new)>(cmp: Order<T>, x: T, s: seq<T>)
    requires |s| == 1 && !cmp(x, s[0])
    ensures Sorted(cmp, Place(cmp, x, s)) && Sorted(cmp, s) && Fits(cmp, x, s)
  {
    assert Place(cmp, x, s) == [s[0], x];
  }

  lemma PlaceBetween<T(!new)>(cmp: Order<T>, x: T, s: seq<T>)
    requires WeakOrder(cmp) && |s| > 1 && !cmp(x, s[0]) && cmp(s[0], x) && cmp(x, s[1])
    ensures Sorted(cmp, Place(cmp, x, s)) <==> Sorted(cmp, s) && Fits(cmp, x, s)
  {
    hide Sorted, Fits, WeakOrder;
    var r := s[1..];
    assert s == [s[0]] + r && Place(cmp, x, s) == [s[0]] + ([x] + r);
    SortedCons(cmp, s[0], r);
    SortedCons(cmp, x, r);
    SortedCons(cmp, s[0], [x] + r);
    assert forall y | y in [x] + r :: y == x || y in r;
    assert forall y | y in r :: y in [x] + r;
    assert x in [x] + r;
    if Sorted(cmp, r) {
      BelowAll(cmp, x, r);
      BetweenFits(cmp, x, s);
    }
  }

  lemma BetweenFits<T(!new)>(cmp: Order<T>, x: T, s: seq<T>)
    requires s != [] && cmp(s[0], x) && forall y | y in s[1..] :: !Tie(cmp, x, y)
    ensures Fits(cmp, x, s)
  {
    assert s == [s[0]] + s[1..];
    assert forall y | y in s :: y == s[0] || y in s[1..];
  }

  lemma TiesBelow<T(!new)>(cmp: Order<T>, x: T, s: seq<T>)
    requires |s| > 1 && !cmp(x, s[0]) && !cmp(s[0], x) && cmp(x, s[1])
    ensures !Fits(cmp, x, s)
  {
    assert Tie(cmp, x, s[0]) && s[0] in s && s[1] in s;
  }

  lemma InsertSorted<T(!new)>(cmp: Order<T>, x: T, s: seq<T>)
    requires WeakOrder(cmp) && s != []
    ensures Sorted(cmp, Insert(cmp, x, s)) <==> Sorted(cmp, s) && Fits(cmp, x, s)
  {
    hide Sorted, Fits, WeakOrder;
    if cmp(x, s[0]) {
      SortedCons(cmp, x, s);
      if Sorted(cmp, s) {
        BelowAll(cmp, x, s);
      }
    } else {
      PlaceSorted(cmp, x, s);
    }
  }

  lemma {:induction false} AllFitSame<T>(cmp: Order<T>, xs: seq<T>, s: seq<T>, t: seq<T>)
    requires multiset(s) == multiset(t)
    ensures AllFit(cmp, xs, s) <==> AllFit(cmp, xs, t)
    decreases |xs|
  {
    if xs != [] {
      SameMembers(s, t);
      AllFitSame(cmp, xs[1..], s + [xs[0]], t + [xs[0]]);
    }
  }

  lemma {:induction false} InsertAllSorted<T(!new)>(cmp: Order<T>, xs: seq<T>, s: seq<T>)
    requires WeakOrder(cmp) && (xs == [] || s != [])
    ensures Sorted(cmp, InsertAll(cmp, xs, s)) <==> Sorted(cmp, s) && AllFit(cmp, xs, s)
    decreases |xs|
  {
    hide Sorted, Fits, WeakOrder;
    if xs != [] {
      var out := Insert(cmp, xs[0], s);
      InsertSorted(cmp, xs[0], s);
      InsertAllSorted(cmp, xs[1..], out);
      PlaceMultiset(cmp, xs[0], s);
      AllFitSame(cmp, xs[1..], out, s + [xs[0]]);
    }
  }

  ghost predicate NoRepeats<T>(s: seq<T>) {
    forall i, j | 0 <= i < j < |s| :: s[i] != s[j]
  }

  lemma {:induction false} CountOne<T>(s: seq<T>)
    ensures NoRepeats(s) <==> forall x | x in s :: multiset(s)[x] == 1
    decreases |s|
  {
    if s != [] {
      var r := s[1..];
      assert s == [s[0]] + r;
      CountOne(r);
      if NoRepeats(s) {
        assert NoRepeats(r) && s[0] !in r;
      } else if forall x | x in s :: multiset(s)[x] == 1 {
        assert s[0] in s && s[0] !in multiset(r);
        forall x | x in r
          ensures multiset(r)[x] == 1
        {
          assert x in s;
        }
        assert false;
      }
    }
  }

  lemma NoRepeatsMultiset<T>(s: seq<T>, t: seq<T>)
    requires NoRepeats(s) && multiset(s) == multiset(t)
    ensures NoRepeats(t)
  {
    CountOne(s);
    CountOne(t);
    forall x | x in t
      ensures multiset(t)[x] == 1
    {
      assert x in multiset(t);
    }
  }

  /**
   One pass sorts exactly the lists in which the elements that stay are sorted and those that are
   taken out find their place when they are put back.
   */
  lemma SortPassSorts<T(!new)>(cmp: Order<T>, s: seq<T>)
    requires WeakOrder(cmp)
    ensures Sorted(cmp, SortPass(cmp, s)) <==> Sorted(cmp, Keep(cmp, s)) && AllFit(cmp, Take(cmp, s), Keep(cmp, s))
  {
    InsertAllSorted(cmp, Take(cmp, s), Keep(cmp, s));
  }

  /** Elements that never tie always find their place. */
  lemma {:induction false} DistinctFit<T>(cmp: Order<T>, xs: seq<T>, s: seq<T>)
    requires forall y, z | y in xs + s && z in xs + s && y != z :: !Tie(cmp, y, z)
    requires NoRepeats(xs + s)
    ensures AllFit(cmp, xs, s)
    decreases |xs|
  {
    if xs != [] {
      var x, t := xs[0], s + [xs[0]];
      HeadNotIn(xs, s);
      assert xs == [x] + xs[1..];
      assert multiset(xs + s) == multiset(xs[1..] + t);
      NoRepeatsMultiset(xs + s, xs[1..] + t);
      SameMembers(xs[1..] + t, xs + s);
      DistinctFit(cmp, xs[1..], t);
    }
  }

  /** Without ties only the elements that stay matter. */
  lemma SortPassDistinct<T(!new)>(cmp: Order<T>, s: seq<T>)
    requires WeakOrder(cmp) && NoRepeats(s) && forall y, z | y in s && z in s && y != z :: !Tie(cmp, y, z)
    ensures Sorted(cmp, SortPass(cmp, s)) <==> Sorted(cmp, Keep(cmp, s))
  {
    hide Sorted, AllFit, Tie;
    var xs, k := Take(cmp, s), Keep(cmp, s);
    SortPassSorts(cmp, s);
    KeepTake(cmp, s);
    assert multiset(xs + k) == multiset(s);
    NoRepeatsMultiset(s, xs + k);
    SameMembers(xs + k, s);
    DistinctFit(cmp, xs, k);
  }

  lemma HeadNotIn<T>(xs: seq<T>, s: seq<T>)
    requires xs != [] && NoRepeats(xs + s)
    ensures xs[0] !in s
  {
    forall i | 0 <= i < |s|
      ensures s[i] != xs[0]
    {
      assert (xs + s)[|xs| + i] == s[i] && (xs + s)[0] == xs[0];
    }
  }

  /** A list that one pass does not sort: 2, 3, 1 becomes 2, 1, 3. */
  lemma SortPassNotASort()
    ensures var less := (x: int, y: int) => x < y; SortPass(less, [2, 3, 1]) == [2, 1, 3]
  {
    var less := (x: int, y: int) => x < y;
    assert [2, 3, 1][1..] == [3, 1] && [3, 1][1..] == [1];
    assert Keep(less, [3, 1]) == [1] && Take(less, [3, 1]) == [3];
    assert Keep(less, [2, 3, 1]) == [2, 1] && Take(less, [2, 3, 1]) == [3];
    assert [2, 1][1..] == [1] && Place(less, 3, [1]) == [1, 3];
    assert Place(less, 3, [2, 1]) == [2, 1, 3];
    assert InsertAll(less, [], [2, 1, 3]) == [2, 1, 3];
  }

  predicate FirstBelow(x: (int, int), y: (int, int)) {
    x.0 < y.0
  }

  /** With ties a pass can even unsort: 1, 2, 2', 3 becomes 1, 2', 3, 2. */
  lemma SortPassUnsorts()
    ensures var s := [(1, 0), (2, 0), (2, 1), (3, 0)];
            && Sorted(FirstBelow, s) && SortPass(FirstBelow, s) == [(1, 0), (2, 1), (3, 0), (2, 0)]
            && !Sorted(FirstBelow, SortPass(FirstBelow, s))
  {
    hide Keep, Take, InsertAll;
    var a, b, c, d := (1, 0), (2, 0), (2, 1), (3, 0);
    UnsortsTaken(a, b, c, d);
    UnsortsPlaced(a, b, c, d);
    assert FirstBelow([a, c, d, b][3], [a, c, d, b][2]);
  }

  lemma UnsortsTaken(a: (int, int), b: (int, int), c: (int, int), d: (int, int))
    requires a.0 < b.0 == c.0 < d.0
    ensures Keep(FirstBelow, [a, b, c, d]) == [a, c, d] && Take(FirstBelow, [a, b, c, d]) == [b]
  {
    assert [a, b, c, d][1..] == [b, c, d] && [b, c, d][1..] == [c, d] && [c, d][1..] == [d];
    assert Keep(FirstBelow, [d]) == [d] && Take(FirstBelow, [d]) == [];
    assert Keep(FirstBelow, [c, d]) == [c, d] && Take(FirstBelow, [c, d]) == [];
    assert Keep(FirstBelow, [b, c, d]) == [c, d] && Take(FirstBelow, [b, c, d]) == [b];
  }

  lemma UnsortsPlaced(a: (int, int), b: (int, int), c: (int, int), d: (int, int))
    requires a.0 < b.0 == c.0 < d.0
    ensures InsertAll(FirstBelow, [b], [a, c, d]) == [a, c, d, b]
  {
    assert [a, c, d][1..] == [c, d] && [c, d][1..] == [d];
    assert Place(FirstBelow, b, [d]) == [d, b];
    assert Place(FirstBelow, b, [c, d]) == [c, d, b];
    assert Place(FirstBelow, b, [a, c, d]) == [a, c, d, b];
    assert InsertAll(FirstBelow, [], [a, c, d, b]) == [a, c, d, b];
  }

  // ----- the comparator of the source

  /**
   What `compare_attr` looks at: the address of the attribute, its states, and what it reads
   through the attribute's pointer, a source number or the two words of a stream id.
   */
  datatype SortKey = SortKey(address: nat, applicant: Applicant, attr: AttrType, localId: nat, stream0: nat, stream1: nat)

  function TypeIndex(t: AttrType): nat {
    match t
    case TalkerAdvertise => 0
    case TalkerFailed => 1
    case Listener => 2
    case Domain => 3
    case VidVector => 5
  }

  predicate CompareAttr(a: SortKey, b: SortKey) {
    if a.applicant == Unused then b.applicant == Unused && a.address < b.address
    else if b.applicant == Unused then true
    else if a.applicant == Applicant.Disabled then b.applicant == Applicant.Disabled && a.address < b.address
    else if b.applicant == Applicant.Disabled then true
    else if a.attr != b.attr then TypeIndex(a.attr) < TypeIndex(b.attr)
    else if a.attr == TalkerAdvertise then a.localId < b.localId
    else if a.attr == Listener then CompareStreams(a, b)
    else a.address < b.address
  }

  predicate CompareStreams(a: SortKey, b: SortKey) {
    if a.stream0 < b.stream0 then true
    else if b.stream0 < a.stream0 then false
    else a.stream1 < b.stream1
  }

  /** The comparison as one of four numbers in turn. */
  function Position(a: SortKey): (nat, nat, nat, nat) {
    if a.applicant == Unused then (2, 0, a.address, 0)
    else if a.applicant == Applicant.Disabled then (1, 0, a.address, 0)
    else if a.attr == TalkerAdvertise then (0, 0, a.localId, 0)
    else if a.attr == Listener then (0, 2, a.stream0, a.stream1)
    else (0, TypeIndex(a.attr), a.address, 0)
  }

  predicate Before(p: (nat, nat, nat, nat), q: (nat, nat, nat, nat)) {
    p.0 < q.0 || (p.0 == q.0 && (p.1 < q.1 || (p.1 == q.1 && (p.2 < q.2 || (p.2 == q.2 && p.3 < q.3)))))
  }

  lemma CompareIsBefore(a: SortKey, b: SortKey)
    ensures CompareAttr(a, b) <==> Before(Position(a), Position(b))
  {
  }

  /** The comparator of the source is one that `SortPassSorts` speaks about. */
  lemma CompareAttrWeak()
    ensures WeakOrder(CompareAttr)
  {
    hide CompareAttr, Position;
    forall x ensures !CompareAttr(x, x) {
      CompareIsBefore(x, x);
    }
    forall x, y, z | CompareAttr(x, y) && CompareAttr(y, z) ensures CompareAttr(x, z) {
      CompareIsBefore(x, y);
      CompareIsBefore(y, z);
      CompareIsBefore(x, z);
    }
    forall x, y, z | Tie(CompareAttr, x, y) && Tie(CompareAttr, y, z) ensures Tie(CompareAttr, x, z) {
      CompareTies(x, y);
      CompareTies(y, z);
      CompareTies(x, z);
    }
  }

  lemma CompareTies(a: SortKey, b: SortKey)
    ensures Tie(CompareAttr, a, b) <==> Position(a) == Position(b)
  {
    hide CompareAttr, Position;
    CompareIsBefore(a, b);
    CompareIsBefore(b, a);
  }

  /**
   Two attributes tie exactly if both are in use and are talker advertisements with one source
   number or listeners of one stream.
   */
  lemma CompareAttrTies(a: SortKey, b: SortKey)
    requires a.address != b.address
    ensures Tie(CompareAttr, a, b) <==>
            && InUse(a.applicant) && InUse(b.applicant) && a.attr == b.attr
            && ((a.attr == TalkerAdvertise && a.localId == b.localId) ||
                (a.attr == Listener && a.stream0 == b.stream0 && a.stream1 == b.stream1))
  {
    hide CompareAttr;
    CompareTies(a, b);
  }

  /** Listeners in use come in the order of their 64-bit stream ids, which is the order in which their vectors merge. */
  lemma ListenersById(a: SortKey, b: SortKey)
    requires InUse(a.applicant) && InUse(b.applicant) && a.attr == Listener && b.attr == Listener
    requires a.stream1 < TWO32 && b.stream1 < TWO32
    ensures CompareAttr(a, b) <==> a.stream0 * TWO32 + a.stream1 < b.stream0 * TWO32 + b.stream1
  {
    if a.stream0 < b.stream0 {
      assert a.stream0 * TWO32 + TWO32 <= b.stream0 * TWO32;
    } else if b.stream0 < a.stream0 {
      assert b.stream0 * TWO32 + TWO32 <= a.stream0 * TWO32;
    }
  }

  // ----- the links

  ghost function NextOf(s: seq<Attribute>, i: nat): Attribute?
    requires i < |s|
  {
    if i + 1 < |s| then s[i + 1] else null
  }

  /** The list that starts at `head` visits exactly the nodes of `s`, each once. */
  ghost predicate Chain(head: Attribute?, s: seq<Attribute>)
    reads s
  {
    && NoRepeats(s)
    && head == (if s == [] then null else s[0])
    && forall i | 0 <= i < |s| :: s[i].next == NextOf(s, i)
  }

  ghost function Nodes(s: seq<Attribute>): set<Attribute> {
    set x | x in s
  }

  class AttributeList {
    var first: Attribute?

    /** The list part of `mrp_init`: all attributes unused and linked in array order. */
    method Init(attrs: seq<Attribute>)
      requires attrs != [] && NoRepeats(attrs)
      modifies this, attrs
      ensures Chain(first, attrs) && forall i | 0 <= i < |attrs| :: attrs[i].applicant == Unused
    {
      var i := 0;
      while i < |attrs|
        invariant 0 <= i <= |attrs|
        invariant forall j | 0 <= j < i :: attrs[j].applicant == Unused && attrs[j].next == NextOf(attrs, j)
      {
        attrs[i].applicant := Unused;
        attrs[i].next := if i != |attrs| - 1 then attrs[i + 1] else null;
        i := i + 1;
      }
      first := attrs[0];
    }

    /** Takes the node at position `p`, which is not the last, out of the chain. */
    method Unlink(ghost l: seq<Attribute>, ghost p: nat, prev: Attribute?, attr: Attribute)
      requires Chain(first, l) && p + 1 < |l| && l[p] == attr && prev == if p == 0 then null else l[p - 1]
      modifies this, Nodes(l)`next
      ensures Chain(first, l[..p] + l[p + 1..])
    {
      hide NoRepeats;
      Without(l, p);
      if prev != null {
        OtherNodes(l, p - 1);
        prev.next := attr.next;
      } else {
        first := attr.next;
      }
      ghost var r := l[..p] + l[p + 1..];
      hide NextOf;
      forall i | 0 <= i < |r|
        ensures r[i].next == NextOf(r, i)
      {
        WithoutAt(l, p, i);
      }
    }

    /** Puts a node in front of a chain that does not hold it. */
    method Push(attr: Attribute, head: Attribute?, ghost s: seq<Attribute>)
      requires Chain(head, s) && attr !in s
      modifies attr`next
      ensures Chain(attr, [attr] + s)
    {
      attr.next := head;
      ghost var r := [attr] + s;
      forall i | 0 <= i < |r|
        ensures r[i].next == NextOf(r, i)
      {
        if i > 0 {
          assert r[i] == s[i - 1];
        }
      }
    }

    /** One extraction: from the chain to the front of the stack. */
    method MoveToStack(ghost l: seq<Attribute>, ghost p: nat, prev: Attribute?, attr: Attribute,
                       toInsert: Attribute?, ghost stack: seq<Attribute>)
      requires Chain(first, l) && p + 1 < |l| && l[p] == attr && prev == if p == 0 then null else l[p - 1]
      requires Chain(toInsert, stack) && forall x | x in stack :: x !in l
      modifies this, Nodes(l)`next
      ensures Chain(first, l[..p] + l[p + 1..]) && Chain(attr, [attr] + stack)
      ensures forall x | x in [attr] + stack :: x !in l[..p] + l[p + 1..]
    {
      hide Chain;
      ChainNoRepeats(first, l);
      OutOfChain(l, p);
      Unlink(l, p, prev, attr);
      Push(attr, toInsert, stack);
    }

    /** The first loop of `sort_attrs`. */
    method Extract(cmp: Order<Attribute>, ghost nodes: seq<Attribute>) returns (toInsert: Attribute?)
      requires Chain(first, nodes)
      modifies this, Nodes(nodes)`next
      ensures Chain(first, Keep(cmp, nodes)) && Chain(toInsert, Take(cmp, nodes))
    {
      hide Chain, Keep, Take;
      toInsert := null;
      var attr, prev: Attribute? := first, null;
      ghost var kept, rest, stack: seq<Attribute> := [], nodes, [];
      assert kept + rest == nodes;
      EmptyChain();
      ChainHead(first, nodes);
      assert Take(cmp, rest) + stack == Take(cmp, nodes) && kept + Keep(cmp, rest) == Keep(cmp, nodes);
      while attr != null
        invariant attr != null ==> rest != [] && attr == rest[0]
        invariant attr == null ==> |rest| <= 1
        invariant attr != null ==> prev == if kept == [] then null else kept[|kept| - 1]
        invariant Chain(first, kept + rest) && Chain(toInsert, stack)
        invariant forall x | x in stack :: x !in kept + rest
        invariant forall x | x in kept + rest :: x in nodes
        invariant kept + Keep(cmp, rest) == Keep(cmp, nodes)
        invariant Take(cmp, rest) + stack == Take(cmp, nodes)
        decreases |rest|, attr != null
      {
        var node: Attribute := attr;
        ghost var l, p := kept + rest, |kept|;
        ChainAt(first, l, p);
        var next := node.next;
        if next != null {
          KeepTakeStep(cmp, kept, rest, stack);
          MoveOver(kept, rest);
          if !cmp(node, next) {
            MoveToStack(l, p, prev, node, toInsert, stack);
            toInsert := node;
            stack := [node] + stack;
          } else {
            prev := node;
            kept := kept + [node];
          }
          rest := rest[1..];
        }
        attr := next;
      }
      KeepTakeEnd(cmp, rest);
      assert [] + stack == stack;
    }

    /** Links a node behind position `k`. */
    method LinkAfter(ghost s: seq<Attribute>, ghost k: nat, ins: Attribute, attr: Attribute)
      requires Chain(first, s) && k < |s| && s[k] == ins && attr !in s
      modifies attr`next, ins`next
      ensures Chain(first, s[..k + 1] + [attr] + s[k + 1..])
    {
      hide NoRepeats, NextOf;
      With(s, k, attr);
      OtherNodes(s, k);
      attr.next := ins.next;
      ins.next := attr;
      ghost var r := s[..k + 1] + [attr] + s[k + 1..];
      forall i | 0 <= i < |r|
        ensures r[i].next == NextOf(r, i)
      {
        WithAt(s, k, attr, i);
      }
    }

    /** The walk that looks for the place of a node. */
    method Walk(cmp: Order<Attribute>, attr: Attribute, ghost s: seq<Attribute>)
      requires Chain(first, s) && s != [] && attr !in s
      modifies attr`next, Nodes(s)`next
      ensures Chain(first, Place(cmp, attr, s))
    {
      hide Chain, Place;
      var ins := first;
      ghost var k := 0;
      ChainHead(first, s);
      assert s[..0] + Place(cmp, attr, s[0..]) == Place(cmp, attr, s) by { assert s[0..] == s; }
      while ins != null
        invariant ins != null ==> k < |s| && ins == s[k] && Chain(first, s)
        invariant ins != null ==> s[..k] + Place(cmp, attr, s[k..]) == Place(cmp, attr, s)
        invariant ins == null ==> Chain(first, Place(cmp, attr, s))
        decreases ins != null, |s| - k
      {
        ChainAt(first, s, k);
        PlaceStep(cmp, attr, s, k);
        var insNext := ins.next;
        if insNext == null || (cmp(ins, attr) && cmp(attr, insNext)) {
          LinkAfter(s, k, ins, attr);
          insNext := null;
        }
        ins := insNext;
        k := k + 1;
      }
    }

    /** The second loop of `sort_attrs`. */
    method Reinsert(cmp: Order<Attribute>, toInsert: Attribute?, ghost xs: seq<Attribute>, ghost s: seq<Attribute>)
      requires Chain(first, s) && Chain(toInsert, xs) && (xs == [] || s != [])
      requires forall x | x in xs :: x !in s
      modifies this, Nodes(xs + s)`next
      ensures Chain(first, InsertAll(cmp, xs, s))
    {
      hide Chain, Insert, InsertAll;
      var attr := toInsert;
      ghost var todo, l := xs, s;
      ChainHead(attr, todo);
      while attr != null
        invariant attr == if todo == [] then null else todo[0]
        invariant Chain(first, l) && Chain(attr, todo) && (todo == [] || l != [])
        invariant forall x | x in todo :: x !in l
        invariant forall x | x in todo + l :: x in xs + s
        invariant InsertAll(cmp, todo, l) == InsertAll(cmp, xs, s)
        decreases |todo|
      {
        var node: Attribute := attr;
        ChainTail(todo);
        var next := node.next;
        ChainHead(next, todo[1..]);
        ChainHead(first, l);
        if cmp(node, first) {
          Push(node, first, l);
          first := node;
        } else {
          Walk(cmp, node, l);
        }
        InsertAllStep(cmp, todo, l);
        forall x | x in todo[1..]
          ensures x !in Insert(cmp, node, l)
        {
          assert x in todo;
          InsertMember(cmp, node, l, x);
        }
        forall x | x in todo[1..] + Insert(cmp, node, l)
          ensures x in xs + s
        {
          InsertMember(cmp, node, l, x);
          assert node in todo && (x in todo[1..] ==> x in todo);
          assert x in todo + l;
        }
        l := Insert(cmp, node, l);
        todo := todo[1..];
        attr := next;
      }
      InsertAllEnd(cmp, l);
    }

    /** `sort_attrs`: the list becomes one pass of the reordering, for any comparator. */
    method SortAttrs(cmp: Order<Attribute>, ghost nodes: seq<Attribute>)
      requires Chain(first, nodes)
      modifies this, Nodes(nodes)`next
      ensures Chain(first, SortPass(cmp, nodes))
      ensures multiset(SortPass(cmp, nodes)) == multiset(nodes)
    {
      hide Chain, Keep, Take, InsertAll;
      SortPassPermutes(cmp, nodes);
      ChainNoRepeats(first, nodes);
      SplitApart(cmp, nodes);
      var toInsert := Extract(cmp, nodes);
      Reinsert(cmp, toInsert, Take(cmp, nodes), Keep(cmp, nodes));
    }

    /** The loop body of `attribute_type_event`, and the message that the event calls for. */
    method Visit(attr: Attribute, t: AttrType, e: MrpEvent, port: Port) returns (got: bool, sent: Option<Packed>)
      requires e != RxLeaveAll
      modifies attr, port
      ensures attr.next == old(attr.next)
      ensures got == Gets(old(attr.View()), t) && attr.View() == After(old(attr.View()), t, e)
      ensures sent == Answer(old(attr.View()), t, e)
      ensures port.mvrpLeaveAllActive == old(port.mvrpLeaveAllActive)
      ensures port.msrpLeaveAllActive == old(port.msrpLeaveAllActive)
    {
      hide Step;
      sent := None;
      got := attr.applicant != Disabled && attr.applicant != Unused && attr.attr == t;
      if got {
        sent := attr.UpdateState(e, 0, port);
      }
    }

    /** The same visit, seen from the whole list. */
    method VisitAt(t: AttrType, e: MrpEvent, port: Port, ghost nodes: seq<Attribute>, ghost was: seq<State>, ghost k: nat, attr: Attribute)
      returns (got: bool, sent: Option<Packed>)
      requires e != RxLeaveAll && Halfway(nodes, was, t, e, k) && k < |nodes| && attr == nodes[k]
      modifies attr, port
      ensures Halfway(nodes, was, t, e, k + 1) && got == Gets(was[k], t) && attr.next == NextOf(nodes, k)
      ensures sent == Answer(was[k], t, e)
      ensures port.mvrpLeaveAllActive == old(port.mvrpLeaveAllActive)
      ensures port.msrpLeaveAllActive == old(port.msrpLeaveAllActive)
    {
      hide After, Gets, Answer, Attribute.View, NoRepeats;
      OtherNodes(nodes, k);
      got, sent := Visit(attr, t, e, port);
    }
  }

  /** The state of an attribute after one join-timer tick. */
  function Ticked(v: State, mvrpLeaveAll: bool, msrpLeaveAll: bool): State {
    var leaveAll := if v.attr == VidVector then mvrpLeaveAll else msrpLeaveAll;
    if InUse(v.applicant) then Step(v, if leaveAll then TxLeaveAll else Tx, 0).state else v
  }

  lemma SameMembers<T>(s: seq<T>, t: seq<T>)
    requires multiset(s) == multiset(t)
    ensures forall x :: x in s <==> x in t
  {
    assert forall x :: (x in s <==> x in multiset(s)) && (x in t <==> x in multiset(t));
  }

  lemma StepKeepsType(v: State, e: MrpEvent)
    ensures Step(v, e, 0).state.attr == v.attr
  {
    hide ApplicantStep, AfterTx, AfterTxLeaveAll, MakeTx, Sends;
  }

  /** An event for one type leaves the other types alone. */
  lemma {:induction false} OtherTypes(s: seq<Attribute>, was: seq<State>, t: AttrType, e: MrpEvent)
    requires |s| == |was|
    ensures forall t' | t' != t :: Selected(s, AllAfter(was, t, e), t') == Selected(s, was, t')
    decreases |s|
  {
    hide Step;
    if s != [] {
      var n := |s| - 1;
      OtherTypes(s[..n], was[..n], t, e);
      assert AllAfter(was, t, e)[..n] == AllAfter(was[..n], t, e);
      StepKeepsType(was[n], e);
    }
  }

  lemma {:induction false} SelectedCount(s: seq<Attribute>, was: seq<State>, t: AttrType, i: nat)
    requires |s| == |was| && i < |s| && NoRepeats(s)
    ensures multiset(Selected(s, was, t))[s[i]] == if Gets(was[i], t) then 1 else 0
    decreases |s|
  {
    hide Selected, Gets;
    var n := |s| - 1;
    SelectedUnfold(s, was, t);
    var rest := Selected(s[..n], was[..n], t);
    assert multiset(rest + if Gets(was[n], t) then [s[n]] else []) ==
           multiset(rest) + multiset(if Gets(was[n], t) then [s[n]] else []);
    if i < n {
      SelectedCount(s[..n], was[..n], t, i);
      assert s[..n][i] == s[i];
    } else {
      SelectedOnly(s[..n], was[..n], t, s[n]);
    }
  }

  lemma SelectedUnfold(s: seq<Attribute>, was: seq<State>, t: AttrType)
    requires |s| == |was| > 0
    ensures var n := |s| - 1; Selected(s, was, t) == Selected(s[..n], was[..n], t) + if Gets(was[n], t) then [s[n]] else []
  {
  }

  lemma {:induction false} SelectedOnly(s: seq<Attribute>, was: seq<State>, t: AttrType, x: Attribute)
    requires |s| == |was| && x !in s
    ensures multiset(Selected(s, was, t))[x] == 0
    decreases |s|
  {
    hide Gets;
    if s != [] {
      SelectedOnly(s[..|s| - 1], was[..|s| - 1], t, x);
    }
  }

  /** Over the five types, every attribute in use is visited exactly once and no other at all. */
  lemma TickCounts(l: seq<Attribute>, was: seq<State>, log: seq<Attribute>)
    requires |l| == |was| && NoRepeats(l)
    requires log == Selected(l, was, VidVector) +
                    (Selected(l, was, TalkerAdvertise) + Selected(l, was, TalkerFailed) +
                     Selected(l, was, Listener) + Selected(l, was, Domain))
    ensures forall i | 0 <= i < |l| :: multiset(log)[l[i]] == if InUse(was[i].applicant) then 1 else 0
  {
    hide Selected;
    forall i | 0 <= i < |l|
      ensures multiset(log)[l[i]] == if InUse(was[i].applicant) then 1 else 0
    {
      SelectedCount(l, was, VidVector, i);
      SelectedCount(l, was, TalkerAdvertise, i);
      SelectedCount(l, was, TalkerFailed, i);
      SelectedCount(l, was, Listener, i);
      SelectedCount(l, was, Domain, i);
    }
  }

  lemma TickStates(was: seq<State>, mvrp: MrpEvent, msrp: MrpEvent)
    requires mvrp in {Tx, TxLeaveAll} && msrp in {Tx, TxLeaveAll}
    ensures var s1 := AllAfter(was, VidVector, mvrp);
            var out := AllAfter(AllAfter(AllAfter(AllAfter(s1, TalkerAdvertise, msrp), TalkerFailed, msrp), Listener, msrp), Domain, msrp);
            |out| == |was| && forall i | 0 <= i < |was| :: out[i] == Ticked(was[i], mvrp == TxLeaveAll, msrp == TxLeaveAll)
  {
    hide Step;
    forall v: State, e: MrpEvent
      ensures Step(v, e, 0).state.attr == v.attr
    {
      StepKeepsType(v, e);
    }
  }

  predicate Gets(v: State, t: AttrType) {
    InUse(v.applicant) && v.attr == t
  }

  function After(v: State, t: AttrType, e: MrpEvent): State {
    if Gets(v, t) then Step(v, e, 0).state else v
  }

  /** The message with which an attribute answers an event for a type. */
  function Answer(v: State, t: AttrType, e: MrpEvent): Option<Packed> {
    if Gets(v, t) then Step(v, e, 0).sent else None
  }

  function AllAfter(was: seq<State>, t: AttrType, e: MrpEvent): (r: seq<State>)
    ensures |r| == |was|
  {
    seq(|was|, i requires 0 <= i < |was| => After(was[i], t, e))
  }

  ghost function Views(nodes: seq<Attribute>): (v: seq<State>)
    reads nodes
    ensures Seen(nodes, v)
  {
    seq(|nodes|, i requires 0 <= i < |nodes| reads nodes => nodes[i].View())
  }

  /** The nodes are in these states. */
  ghost predicate Seen(nodes: seq<Attribute>, was: seq<State>)
    reads nodes
  {
    |was| == |nodes| && forall i | 0 <= i < |nodes| :: nodes[i].View() == was[i]
  }

  /** The nodes of a type that are in use, in list order. */
  ghost function Selected(s: seq<Attribute>, was: seq<State>, t: AttrType): seq<Attribute>
    requires |s| == |was|
  {
    if s == [] then []
    else
      var n := |s| - 1;
      Selected(s[..n], was[..n], t) + if Gets(was[n], t) then [s[n]] else []
  }

  lemma NoneSelected(t: AttrType)
    ensures Selected([], [], t) == []
  {
  }

  lemma SelectedStep(s: seq<Attribute>, was: seq<State>, t: AttrType, k: nat)
    requires |s| == |was| && k < |s|
    ensures Selected(s[..k + 1], was[..k + 1], t) == Selected(s[..k], was[..k], t) + if Gets(was[k], t) then [s[k]] else []
  {
    assert s[..k + 1][..k] == s[..k] && was[..k + 1][..k] == was[..k];
  }

  /** The event has been to the first k nodes of an otherwise unchanged list. */
  ghost predicate Halfway(nodes: seq<Attribute>, was: seq<State>, t: AttrType, e: MrpEvent, k: nat)
    reads nodes
  {
    && NoRepeats(nodes) && |was| == |nodes|
    && (forall i | 0 <= i < |nodes| :: nodes[i].next == NextOf(nodes, i))
    && (forall i | 0 <= i < |nodes| :: nodes[i].View() == if i < k then After(was[i], t, e) else was[i])
  }

  lemma Without(l: seq<Attribute>, p: nat)
    requires NoRepeats(l) && p + 1 < |l|
    ensures var r := l[..p] + l[p + 1..]; NoRepeats(r) && r != [] && r[0] == if p == 0 then l[1] else l[0]
    ensures NextOf(l, p) == l[p + 1]
  {
  }

  lemma WithoutAt(l: seq<Attribute>, p: nat, i: nat)
    requires p + 1 < |l| && i + 1 < |l|
    ensures var r := l[..p] + l[p + 1..]; var j := if i < p then i else i + 1;
            r[i] == l[j] && NextOf(r, i) == if i + 1 == p then l[p + 1] else NextOf(l, j)
  {
  }

  lemma With(s: seq<Attribute>, k: nat, x: Attribute)
    requires NoRepeats(s) && k < |s| && x !in s
    ensures var r := s[..k + 1] + [x] + s[k + 1..]; NoRepeats(r) && r[0] == s[0]
  {
  }

  lemma WithAt(s: seq<Attribute>, k: nat, x: Attribute, i: nat)
    requires k < |s| && i <= |s|
    ensures var r := s[..k + 1] + [x] + s[k + 1..];
            && r[i] == (if i == k + 1 then x else s[if i <= k then i else i - 1])
            && NextOf(r, i) == if i == k then x else NextOf(s, if i < k then i else i - 1)
  {
  }

  lemma OtherNodes(s: seq<Attribute>, k: nat)
    requires NoRepeats(s) && k < |s|
    ensures forall i | 0 <= i < |s| && i != k :: s[i] != s[k]
  {
  }

  lemma SetOut(head: Attribute?, s: seq<Attribute>, was: seq<State>, t: AttrType, e: MrpEvent)
    requires Chain(head, s) && Seen(s, was)
    ensures Halfway(s, was, t, e, 0) && |was| == |s| && head == if s == [] then null else s[0]
  {
    hide After;
  }

  lemma Arrive(head: Attribute?, s: seq<Attribute>, was: seq<State>, t: AttrType, e: MrpEvent)
    requires Halfway(s, was, t, e, |s|) && head == if s == [] then null else s[0]
    ensures Chain(head, s) && Seen(s, AllAfter(was, t, e))
  {
    hide After;
  }

  lemma ChainTail(s: seq<Attribute>)
    requires s != [] && Chain(s[0], s)
    ensures Chain(s[0].next, s[1..]) && s[0] !in s[1..]
  {
    forall i | 0 <= i < |s[1..]|
      ensures s[1..][i].next == NextOf(s[1..], i)
    {
      assert s[1..][i] == s[i + 1] && s[i + 1].next == NextOf(s, i + 1);
    }
  }

  lemma MoveOver<T>(kept: seq<T>, rest: seq<T>)
    requires rest != []
    ensures var l := kept + rest; l[..|kept|] + l[|kept| + 1..] == kept + rest[1..]
    ensures (kept + [rest[0]]) + rest[1..] == kept + rest
  {
  }

  lemma PlaceStep<T>(cmp: Order<T>, x: T, s: seq<T>, k: nat)
    requires k < |s| && s[..k] + Place(cmp, x, s[k..]) == Place(cmp, x, s)
    ensures if k + 1 == |s| || (cmp(s[k], x) && cmp(x, s[k + 1]))
            then Place(cmp, x, s) == s[..k + 1] + [x] + s[k + 1..]
            else s[..k + 1] + Place(cmp, x, s[k + 1..]) == Place(cmp, x, s)
  {
    hide Place;
    PlaceAt(cmp, x, s, k);
    SplitHead(s, k);
    if k + 1 == |s| || (cmp(s[k], x) && cmp(x, s[k + 1])) {
      Regroup(s[..k], s[k], x, s[k + 1..]);
    } else {
      Assoc(s[..k], [s[k]], Place(cmp, x, s[k + 1..]));
    }
  }

  lemma PlaceAt<T>(cmp: Order<T>, x: T, s: seq<T>, k: nat)
    requires k < |s|
    ensures Place(cmp, x, s[k..]) ==
            if k + 1 == |s| || (cmp(s[k], x) && cmp(x, s[k + 1])) then [s[k], x] + s[k + 1..]
            else [s[k]] + Place(cmp, x, s[k + 1..])
  {
    hide Place;
    SplitHead(s, k);
    PlaceUnfold(cmp, x, s[k..]);
  }

  lemma SplitHead<T>(s: seq<T>, k: nat)
    requires k < |s|
    ensures s[k..][0] == s[k] && s[k..][1..] == s[k + 1..] && s[..k + 1] == s[..k] + [s[k]]
    ensures k + 1 < |s| ==> s[k..][1] == s[k + 1]
  {
  }

  lemma Regroup<T>(a: seq<T>, y: T, x: T, c: seq<T>)
    ensures a + ([y, x] + c) == (a + [y]) + [x] + c
  {
  }

  lemma PlaceUnfold<T>(cmp: Order<T>, x: T, s: seq<T>)
    requires s != []
    ensures Place(cmp, x, s) ==
            if |s| == 1 || (cmp(s[0], x) && cmp(x, s[1])) then [s[0], x] + s[1..] else [s[0]] + Place(cmp, x, s[1..])
  {
  }

  lemma InsertAllStep<T>(cmp: Order<T>, xs: seq<T>, s: seq<T>)
    requires xs != [] && s != []
    ensures InsertAll(cmp, xs, s) == InsertAll(cmp, xs[1..], Insert(cmp, xs[0], s))
    ensures Insert(cmp, xs[0], s) == if cmp(xs[0], s[0]) then [xs[0]] + s else Place(cmp, xs[0], s)
  {
  }

  lemma InsertMember<T>(cmp: Order<T>, x: T, s: seq<T>, y: T)
    requires s != []
    ensures y in Insert(cmp, x, s) <==> y == x || y in s
  {
    PlaceMultiset(cmp, x, s);
    var r := Insert(cmp, x, s);
    assert multiset(r) == multiset(s) + multiset{x};
    assert (y in r <==> y in multiset(r)) && (y in s <==> y in multiset(s));
  }

  lemma InsertAllEnd<T>(cmp: Order<T>, s: seq<T>)
    ensures InsertAll(cmp, [], s) == s
  {
  }

  /** The two parts of the split share no node and stay within the list. */
  lemma SplitApart<T>(cmp: Order<T>, s: seq<T>)
    requires NoRepeats(s)
    ensures forall x | x in Take(cmp, s) :: x !in Keep(cmp, s)
    ensures forall x | x in Take(cmp, s) + Keep(cmp, s) :: x in s
    ensures Take(cmp, s) == [] || Keep(cmp, s) != []
  {
    var t, k := Take(cmp, s), Keep(cmp, s);
    KeepTake(cmp, s);
    CountOne(s);
    forall x | x in t + k
      ensures x in s && (x in t ==> x !in k)
    {
      assert x in multiset(t) || x in multiset(k);
      assert x in multiset(s);
      assert multiset(s)[x] == multiset(k)[x] + multiset(t)[x];
      if x in t {
        assert x in multiset(t);
        assert x !in multiset(k);
      }
    }
  }

  lemma EmptyChain()
    ensures Chain(null, [])
  {
  }

  lemma ChainHead(head: Attribute?, s: seq<Attribute>)
    requires Chain(head, s)
    ensures head == if s == [] then null else s[0]
  {
  }

  lemma ChainNoRepeats(head: Attribute?, s: seq<Attribute>)
    requires Chain(head, s)
    ensures NoRepeats(s)
  {
  }

  lemma ChainAt(head: Attribute?, s: seq<Attribute>, p: nat)
    requires Chain(head, s) && p < |s|
    ensures s[p].next == NextOf(s, p) && NoRepeats(s)
  {
  }

  lemma Assoc<T>(a: seq<T>, b: seq<T>, c: seq<T>)
    ensures (a + b) + c == a + (b + c)
  {
  }

  lemma KeepTakeUnfold<T>(cmp: Order<T>, rest: seq<T>)
    requires |rest| > 1
    ensures if cmp(rest[0], rest[1])
            then Keep(cmp, rest) == [rest[0]] + Keep(cmp, rest[1..]) && Take(cmp, rest) == Take(cmp, rest[1..])
            else Keep(cmp, rest) == Keep(cmp, rest[1..]) && Take(cmp, rest) == Take(cmp, rest[1..]) + [rest[0]]
  {
  }

  lemma KeepTakeStep<T>(cmp: Order<T>, kept: seq<T>, rest: seq<T>, stack: seq<T>)
    requires |rest| > 1
    ensures if cmp(rest[0], rest[1])
            then kept + Keep(cmp, rest) == (kept + [rest[0]]) + Keep(cmp, rest[1..]) &&
                 Take(cmp, rest) + stack == Take(cmp, rest[1..]) + stack
            else Keep(cmp, rest) == Keep(cmp, rest[1..]) &&
                 Take(cmp, rest) + stack == Take(cmp, rest[1..]) + ([rest[0]] + stack)
  {
    hide Keep, Take;
    KeepTakeUnfold(cmp, rest);
    Assoc(kept, [rest[0]], Keep(cmp, rest[1..]));
    Assoc(Take(cmp, rest[1..]), [rest[0]], stack);
  }

  lemma KeepTakeEnd<T>(cmp: Order<T>, rest: seq<T>)
    requires |rest| <= 1
    ensures Keep(cmp, rest) == rest && Take(cmp, rest) == []
  {
  }

  lemma OutOfChain(l: seq<Attribute>, p: nat)
    requires NoRepeats(l) && p < |l|
    ensures l[p] !in l[..p] + l[p + 1..]
  {
  }
}
