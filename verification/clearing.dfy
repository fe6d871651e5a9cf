// Merit-order market clearing of the flexibility consensus (consensus.js), over exact reals.
// An id is represented by its position in the `localeCompare` order.
module Clearing {
  type Id = nat

  datatype Offer = Offer(upMax: real, upBid: real, downMax: real, downBid: real)

  /** A JavaScript Map from ids to offers, in insertion order. */
  type OfferMap = seq<(Id, Offer)>

  ghost predicate DistinctIds(offers: OfferMap) {
    forall i, j :: 0 <= i < j < |offers| ==> offers[i].0 != offers[j].0
  }

  datatype Direction = Up | Down

  datatype Entry = Entry(id: Id, max: real, bid: real)

  const EPS := 0.000000001

  function Max(a: real, b: real): real { if a < b then b else a }

  function Min(a: real, b: real): real { if b < a then b else a }

  function CurveUp(x: real): real { Max(0.0, 10.0 - 0.15 * x) }

  function CurveDown(x: real): real { Max(0.0, 9.0 - 0.12 * x) }

  // ---- Sorting ----

  predicate Before(a: Entry, b: Entry) {
    a.bid < b.bid || (a.bid == b.bid && a.id < b.id)
  }

  function EntryOf(o: (Id, Offer), dir: Direction): Entry {
    match dir
    case Up => Entry(o.0, o.1.upMax, o.1.upBid)
    case Down => Entry(o.0, o.1.downMax, o.1.downBid)
  }

  function Entries(offers: OfferMap, dir: Direction): (es: seq<Entry>)
    ensures |es| == |offers| && forall i :: 0 <= i < |es| ==> es[i] == EntryOf(offers[i], dir)
  {
    seq(|offers|, i requires 0 <= i < |offers| => EntryOf(offers[i], dir))
  }

  function Insert(e: Entry, s: seq<Entry>): seq<Entry> {
    if s == [] || Before(e, s[0]) then [e] + s else [s[0]] + Insert(e, s[1..])
  }

  function Sort(s: seq<Entry>): seq<Entry> {
    if s == [] then [] else Insert(s[0], Sort(s[1..]))
  }

  predicate Sorted(s: seq<Entry>) {
    forall i, j :: 0 <= i < j < |s| ==> Before(s[i], s[j])
  }

  ghost predicate IdsDiffer(s: seq<Entry>) {
    forall i, j :: 0 <= i < j < |s| ==> s[i].id != s[j].id
  }

  lemma {:induction false} InsertMembers(e: Entry, s: seq<Entry>)
    ensures multiset(Insert(e, s)) == multiset{e} + multiset(s)
    ensures forall x :: x in Insert(e, s) <==> x == e || x in s
    decreases |s|
  {
    if s != [] && !Before(e, s[0]) {
      InsertMembers(e, s[1..]);
      assert s == [s[0]] + s[1..];
    }
  }

  lemma {:induction false} InsertSorts(e: Entry, s: seq<Entry>)
    requires Sorted(s) && forall x :: x in s ==> x.id != e.id
    ensures Sorted(Insert(e, s))
    decreases |s|
  {
    if s != [] && !Before(e, s[0]) {
      var rest := s[1..];
      assert forall i :: 0 <= i < |rest| ==> rest[i] == s[i + 1];
      InsertSorts(e, rest);
      InsertMembers(e, rest);
      assert forall x :: x in Insert(e, rest) ==> Before(s[0], x);
    }
  }

  lemma {:induction false} SortSorts(s: seq<Entry>)
    requires IdsDiffer(s)
    ensures Sorted(Sort(s)) && multiset(Sort(s)) == multiset(s)
    ensures forall x :: x in Sort(s) <==> x in s
    decreases |s|
  {
    if s != [] {
      SortSorts(s[1..]);
      assert s == [s[0]] + s[1..];
      assert forall x :: x in s[1..] ==> x.id != s[0].id;
      InsertSorts(s[0], Sort(s[1..]));
      InsertMembers(s[0], Sort(s[1..]));
    }
  }

  /** The sorted offers: cheaper bids first, equal bids by id. */
  lemma SortedByBidThenId(s: seq<Entry>, i: nat, j: nat)
    requires IdsDiffer(s) && i < j < |Sort(s)|
    ensures Sort(s)[i].bid < Sort(s)[j].bid || (Sort(s)[i].bid == Sort(s)[j].bid && Sort(s)[i].id < Sort(s)[j].id)
  {
    SortSorts(s);
  }

  lemma SameHead(s: seq<Entry>, t: seq<Entry>)
    requires Sorted(s) && Sorted(t) && s != [] && t != [] && multiset(s) == multiset(t)
    ensures s[0] == t[0]
  {
    assert s[0] in multiset(t) && t[0] in multiset(s);
    var i :| 0 <= i < |t| && t[i] == s[0];
    var j :| 0 <= j < |s| && s[j] == t[0];
  }

  lemma RemoveAt<T>(s: seq<T>, i: nat)
    requires i < |s|
    ensures multiset(s) == multiset{s[i]} + multiset(s[..i] + s[i + 1..])
  {
    assert s == s[..i] + [s[i]] + s[i + 1..];
  }

  lemma TailMultiset(s: seq<Entry>, x: Entry)
    requires s != []
    ensures multiset(s)[x] == multiset(s[1..])[x] + if x == s[0] then 1 else 0
  {
    assert s == [s[0]] + s[1..];
  }

  lemma SameTails(s: seq<Entry>, t: seq<Entry>)
    requires s != [] && t != [] && s[0] == t[0] && multiset(s) == multiset(t)
    ensures multiset(s[1..]) == multiset(t[1..])
  {
    forall x: Entry ensures multiset(s[1..])[x] == multiset(t[1..])[x] {
      TailMultiset(s, x);
      TailMultiset(t, x);
    }
  }

  /** Whatever algorithm sorts, there is only one sorted arrangement. */
  lemma {:induction false} SortedUnique(s: seq<Entry>, t: seq<Entry>)
    requires Sorted(s) && Sorted(t) && multiset(s) == multiset(t)
    ensures s == t
    decreases |s|
  {
    assert |s| == |multiset(s)| == |multiset(t)| == |t|;
    if s != [] {
      SameHead(s, t);
      SameTails(s, t);
      SortedUnique(s[1..], t[1..]);
      assert s == [s[0]] + s[1..] && t == [t[0]] + t[1..];
    }
  }

  // ---- Clearing ----

  /** What an offer gets when `have` is already committed: nothing, or as much as fits if the curve price covers its bid. */
  function Quantity(have: real, o: Entry, target: real, curve: real -> real): (q: real)
    ensures q >= 0.0
  {
    if have >= target then 0.0
    else
      var take := Max(0.0, Min(o.max, target - have));
      if take != 0.0 && o.bid <= curve(have + take) + EPS then take else 0.0
  }

  /** The committed total after offering to `os` in order, starting from `have`. */
  function TotalFrom(have: real, os: seq<Entry>, target: real, curve: real -> real): real {
    if os == [] then have
    else
      var before := TotalFrom(have, os[..|os| - 1], target, curve);
      before + Quantity(before, os[|os| - 1], target, curve)
  }

  function Total(os: seq<Entry>, target: real, curve: real -> real): real {
    TotalFrom(0.0, os, target, curve)
  }

  /** The quantity of the `i`-th offer. */
  function QuantityAt(os: seq<Entry>, i: nat, target: real, curve: real -> real): real
    requires i < |os|
  {
    Quantity(Total(os[..i], target, curve), os[i], target, curve)
  }

  function Price(os: seq<Entry>, target: real, curve: real -> real): real {
    if os == [] then 0.0
    else
      var n := |os| - 1;
      if QuantityAt(os, n, target, curve) > 0.0 then curve(Total(os, target, curve)) else Price(os[..n], target, curve)
  }

  function Quantities(os: seq<Entry>, target: real, curve: real -> real): map<Id, real> {
    if os == [] then map[]
    else Quantities(os[..|os| - 1], target, curve)[os[|os| - 1].id := QuantityAt(os, |os| - 1, target, curve)]
  }

  datatype Cleared = Cleared(qty: map<Id, real>, price: real, acceptedTotal: real)

  function Clear(os: seq<Entry>, target: real, curve: real -> real): Cleared {
    Cleared(Quantities(os, target, curve), Price(os, target, curve), Total(os, target, curve))
  }

  lemma {:induction false} NothingAfterTarget(os: seq<Entry>, i: nat, n: nat, target: real, curve: real -> real)
    requires i <= n <= |os| && Total(os[..i], target, curve) >= target
    ensures Total(os[..n], target, curve) == Total(os[..i], target, curve)
    ensures Price(os[..n], target, curve) == Price(os[..i], target, curve)
    ensures i < n ==> QuantityAt(os, n - 1, target, curve) == 0.0
    decreases n
  {
    if i < n {
      NothingAfterTarget(os, i, n - 1, target, curve);
      assert os[..n][..n - 1] == os[..n - 1];
    }
  }

  lemma {:induction false} QuantitiesKeys(os: seq<Entry>, target: real, curve: real -> real)
    ensures forall id :: id in Quantities(os, target, curve) <==> exists i :: 0 <= i < |os| && os[i].id == id
    decreases |os|
  {
    if os != [] {
      var n := |os| - 1;
      QuantitiesKeys(os[..n], target, curve);
      forall id ensures id in Quantities(os, target, curve) <==> exists i :: 0 <= i < |os| && os[i].id == id {
        if i :| 0 <= i < |os| && os[i].id == id {
          if i < n { assert os[..n][i].id == id; }
        }
      }
    }
  }

  lemma {:induction false} QuantitiesAt(os: seq<Entry>, target: real, curve: real -> real, i: nat)
    requires IdsDiffer(os) && i < |os|
    ensures os[i].id in Quantities(os, target, curve)
    ensures Quantities(os, target, curve)[os[i].id] == QuantityAt(os, i, target, curve)
    decreases |os|
  {
    var n := |os| - 1;
    if i < n {
      assert os[..n][i] == os[i] && os[..n][..i] == os[..i];
      QuantitiesAt(os[..n], target, curve, i);
    }
  }

  /** `clearWithCurve` on the sorted offers: the loop with its early exit, then zeros for the offers not reached. */
  method ClearSorted(sorted: seq<Entry>, target: real, curve: real -> real) returns (c: Cleared)
    requires IdsDiffer(sorted)
    ensures c == Clear(sorted, target, curve)
  {
    var stop;
    stop, c := FillTowardsTarget(sorted, target, curve);
    var qty := FillZeros(sorted, stop, c.qty, target, curve);
    if stop < |sorted| { NothingAfterTarget(sorted, stop, |sorted|, target, curve); }
    assert sorted[..|sorted|] == sorted;
    c := c.(qty := qty);
  }

  method FillTowardsTarget(sorted: seq<Entry>, target: real, curve: real -> real) returns (stop: nat, c: Cleared)
    ensures stop <= |sorted| && c == Clear(sorted[..stop], target, curve)
    ensures stop < |sorted| ==> c.acceptedTotal >= target
  {
    var qty: map<Id, real>, F, p := map[], 0.0, 0.0;
    stop := 0;
    while stop < |sorted| && F < target
      invariant 0 <= stop <= |sorted|
      invariant Cleared(qty, p, F) == Clear(sorted[..stop], target, curve)
      decreases |sorted| - stop
    {
      var o := sorted[stop];
      assert sorted[..stop + 1][..stop] == sorted[..stop];
      var takeCandidate := Max(0.0, Min(o.max, target - F));
      if takeCandidate == 0.0 {
        qty := qty[o.id := 0.0];
      } else {
        var Fnext := F + takeCandidate;
        var pNext := curve(Fnext);
        if o.bid <= pNext + EPS {
          qty := qty[o.id := takeCandidate];
          F := Fnext;
          p := pNext;
        } else {
          qty := qty[o.id := 0.0];
        }
      }
      stop := stop + 1;
    }
    c := Cleared(qty, p, F);
  }

  lemma ZeroStep(sorted: seq<Entry>, stop: nat, i: nat, target: real, curve: real -> real)
    requires IdsDiffer(sorted) && stop <= i < |sorted| && Total(sorted[..stop], target, curve) >= target
    ensures sorted[i].id !in Quantities(sorted[..i], target, curve)
    ensures Quantities(sorted[..i + 1], target, curve) == Quantities(sorted[..i], target, curve)[sorted[i].id := 0.0]
  {
    QuantitiesKeys(sorted[..i], target, curve);
    assert sorted[..i + 1][..i] == sorted[..i];
    NothingAfterTarget(sorted, stop, i + 1, target, curve);
  }

  method FillZeros(sorted: seq<Entry>, stop: nat, filled: map<Id, real>, target: real, curve: real -> real)
      returns (qty: map<Id, real>)
    requires IdsDiffer(sorted) && stop <= |sorted| && filled == Quantities(sorted[..stop], target, curve)
    requires stop < |sorted| ==> Total(sorted[..stop], target, curve) >= target
    ensures qty == Quantities(sorted, target, curve)
  {
    qty := filled;
    for i := stop to |sorted|
      invariant qty == Quantities(sorted[..i], target, curve)
    {
      ZeroStep(sorted, stop, i, target, curve);
      if sorted[i].id !in qty {
        qty := qty[sorted[i].id := 0.0];
      }
    }
    assert sorted[..|sorted|] == sorted;
  }

  // ---- What clearing guarantees ----

  lemma {:induction false} TotalBounds(os: seq<Entry>, target: real, curve: real -> real, have: real)
    ensures have <= TotalFrom(have, os, target, curve) <= Max(have, target)
    decreases |os|
  {
    if os != [] { TotalBounds(os[..|os| - 1], target, curve, have); }
  }

  lemma {:induction false} TotalMonotone(os: seq<Entry>, i: nat, target: real, curve: real -> real)
    requires i <= |os|
    ensures Total(os[..i], target, curve) <= Total(os, target, curve)
    decreases |os|
  {
    if i < |os| {
      TotalMonotone(os[..|os| - 1], i, target, curve);
      assert os[..|os| - 1][..i] == os[..i];
    } else {
      assert os[..i] == os;
    }
  }

  // ---- Which offers are accepted, told from the result alone ----

  predicate HasAll(os: seq<Entry>, qty: map<Id, real>) {
    forall i :: 0 <= i < |os| ==> os[i].id in qty
  }

  /** What the first `n` offers got together. */
  function SumFirst(os: seq<Entry>, qty: map<Id, real>, n: nat): real
    requires n <= |os| && HasAll(os, qty)
  {
    if n == 0 then 0.0 else SumFirst(os, qty, n - 1) + qty[os[n - 1].id]
  }

  lemma ClearedHasAll(os: seq<Entry>, target: real, curve: real -> real)
    requires IdsDiffer(os)
    ensures HasAll(os, Clear(os, target, curve).qty)
  {
    QuantitiesKeys(os, target, curve);
  }

  lemma {:induction false} SumIsTotal(os: seq<Entry>, target: real, curve: real -> real, n: nat)
    requires IdsDiffer(os) && n <= |os| && HasAll(os, Quantities(os, target, curve))
    ensures SumFirst(os, Quantities(os, target, curve), n) == Total(os[..n], target, curve)
  {
    if n > 0 {
      SumIsTotal(os, target, curve, n - 1);
      QuantitiesAt(os, target, curve, n - 1);
      assert os[..n][..n - 1] == os[..n - 1];
    }
  }

  lemma QuantityRule(have: real, o: Entry, target: real, curve: real -> real, fits: real)
    requires fits == if o.max < target - have then o.max else target - have
    ensures Quantity(have, o, target, curve) ==
              if have < target && o.max > 0.0 && o.bid <= curve(have + fits) + 0.000000001 then fits else 0.0
  {
  }

  /** The `i`-th of the sorted offers gets all it has, up to what the target leaves after the offers before it,
      exactly when there is something to get and the curve covers its bid at the total it would bring about;
      otherwise it gets nothing. */
  lemma AcceptedExactly(os: seq<Entry>, target: real, curve: real -> real, c: Cleared, i: nat, have: real, fits: real)
    requires IdsDiffer(os) && HasAll(os, c.qty) && c == Clear(os, target, curve) && i < |os|
    requires have == SumFirst(os, c.qty, i)
    requires fits == if os[i].max < target - have then os[i].max else target - have
    ensures c.qty[os[i].id] ==
              if have < target && os[i].max > 0.0 && os[i].bid <= curve(have + fits) + 0.000000001 then fits else 0.0
  {
    QuantityIsShare(os, target, curve, c.qty, i, have);
    QuantityRule(have, os[i], target, curve, fits);
  }

  lemma QuantityIsShare(os: seq<Entry>, target: real, curve: real -> real, qty: map<Id, real>, i: nat, have: real)
    requires IdsDiffer(os) && HasAll(os, qty) && qty == Quantities(os, target, curve) && i < |os|
    requires have == SumFirst(os, qty, i)
    ensures qty[os[i].id] == Quantity(have, os[i], target, curve)
  {
    SumIsTotal(os, target, curve, i);
    QuantitiesAt(os, target, curve, i);
    assert QuantityAt(os, i, target, curve) == Quantity(Total(os[..i], target, curve), os[i], target, curve);
  }

  /** Everybody who offered has an entry and nobody else, and all entries together are the accepted total. */
  lemma AcceptedTogether(os: seq<Entry>, target: real, curve: real -> real, c: Cleared)
    requires IdsDiffer(os) && c == Clear(os, target, curve)
    ensures forall id :: id in c.qty <==> exists i :: 0 <= i < |os| && os[i].id == id
    ensures HasAll(os, c.qty) && c.acceptedTotal == SumFirst(os, c.qty, |os|)
  {
    QuantitiesKeys(os, target, curve);
    ClearedHasAll(os, target, curve);
    SumIsTotal(os, target, curve, |os|);
    assert os[..|os|] == os;
  }

  /** With a non-increasing curve an offer that got nothing although there was room left at the end was too
      dear: its bid is above the curve at the final total and what would still have fitted. */
  lemma RejectedWasTooDear(os: seq<Entry>, target: real, curve: real -> real, c: Cleared, i: nat)
    requires NonIncreasing(curve) && IdsDiffer(os) && c == Clear(os, target, curve) && i < |os| && HasAll(os, c.qty)
    requires c.qty[os[i].id] == 0.0 && os[i].max > 0.0 && c.acceptedTotal < target
    ensures var room := target - c.acceptedTotal;
            os[i].bid > curve(c.acceptedTotal + if os[i].max < room then os[i].max else room) + 0.000000001
  {
    var have := SumFirst(os, c.qty, i);
    SumIsTotal(os, target, curve, i);
    TotalMonotone(os, i, target, curve);
    AcceptedExactly(os, target, curve, c, i, have, if os[i].max < target - have then os[i].max else target - have);
  }

  lemma ClearsAlone(o: Entry, target: real, curve: real -> real)
    requires 0.0 < target < o.max && o.bid <= curve(target)
    ensures Clear([o], target, curve) == Cleared(map[o.id := target], curve(target), target)
  {
    assert [o][..0] == [];
    assert Total([], target, curve) == 0.0;
    assert Quantity(0.0, o, target, curve) == target;
    assert Total([o], target, curve) == target;
    assert Quantities([], target, curve) == map[];
    assert Quantities([o], target, curve) == map[o.id := target];
  }

  lemma OneEntry(o: (Id, Offer), dir: Direction)
    ensures Sort(Entries([o], dir)) == [EntryOf(o, dir)]
  {
    assert Entries([o], dir) == [EntryOf(o, dir)];
    assert [EntryOf(o, dir)][1..] == [];
    assert Sort([]) == [];
  }

  /** A single offer of 10, at 7.9 upwards and at 5 downwards, for a target of 8: all 8 are taken, at the
      prices of the two curves there. */
  lemma OneOfferClears(o: (Id, Offer), targets: Alloc)
    requires o == (0, Offer(10.0, 7.9, 10.0, 5.0)) && targets == Alloc(8.0, 8.0)
    ensures ClearedOf([o], targets, Up) == Cleared(map[0 := 8.0], 8.8, 8.0)
    ensures ClearedOf([o], targets, Down) == Cleared(map[0 := 8.0], 8.04, 8.0)
  {
    OneEntry(o, Up);
    OneEntry(o, Down);
    assert CurveUp(8.0) == 8.8 && CurveDown(8.0) == 8.04;
    ClearsAlone(EntryOf(o, Up), 8.0, CurveUp);
    ClearsAlone(EntryOf(o, Down), 8.0, CurveDown);
  }

  /** The price clears the bid of every accepted offer, because bids are sorted. */
  lemma {:induction false} PriceClearsBids(os: seq<Entry>, i: nat, target: real, curve: real -> real)
    requires Sorted(os) && i < |os| && QuantityAt(os, i, target, curve) > 0.0
    ensures Price(os, target, curve) >= os[i].bid - 0.000000001
    decreases |os|
  {
    var n := |os| - 1;
    if QuantityAt(os, n, target, curve) > 0.0 {
      assert i == n || Before(os[i], os[n]);
    } else {
      assert os[..n][..i] == os[..i];
      PriceClearsBids(os[..n], i, target, curve);
    }
  }

  /** Whenever something was committed the price is the curve price of exactly that total. */
  lemma {:induction false} PriceIsCurve(os: seq<Entry>, target: real, curve: real -> real)
    ensures Total(os, target, curve) > 0.0 ==> Price(os, target, curve) == curve(Total(os, target, curve))
    ensures Total(os, target, curve) == 0.0 ==> Price(os, target, curve) == 0.0
    decreases |os|
  {
    if os != [] {
      PriceIsCurve(os[..|os| - 1], target, curve);
      TotalBounds(os[..|os| - 1], target, curve, 0.0);
    }
  }

  /** An accepted offer that is not filled completely brings the total exactly to the target, so there is at most one. */
  lemma PartialFillsTarget(os: seq<Entry>, i: nat, j: nat, target: real, curve: real -> real)
    requires i < |os| && 0.0 < QuantityAt(os, i, target, curve) < os[i].max
    ensures Total(os, target, curve) == target
    ensures j < |os| && j != i && 0.0 < QuantityAt(os, j, target, curve) ==>
              j < i && QuantityAt(os, j, target, curve) == os[j].max
  {
    PartialIsLast(os, i, target, curve);
    if j < |os| && j != i && 0.0 < QuantityAt(os, j, target, curve) {
      if j > i {
        NothingAfterTarget(os, i + 1, j + 1, target, curve);
      } else if QuantityAt(os, j, target, curve) < os[j].max {
        PartialIsLast(os, j, target, curve);
        NothingAfterTarget(os, j + 1, i + 1, target, curve);
      }
    }
  }

  lemma PartialIsLast(os: seq<Entry>, i: nat, target: real, curve: real -> real)
    requires i < |os| && 0.0 < QuantityAt(os, i, target, curve) < os[i].max
    ensures Total(os[..i + 1], target, curve) == target == Total(os, target, curve)
  {
    assert os[..i + 1][..i] == os[..i];
    NothingAfterTarget(os, i + 1, |os|, target, curve);
    assert os[..|os|] == os;
  }

  ghost predicate NonIncreasing(curve: real -> real) {
    forall x, y :: x <= y ==> curve(y) <= curve(x)
  }

  ghost predicate Rejected(os: seq<Entry>, o: Entry, target: real, curve: real -> real) {
    exists i :: 0 <= i < |os| && os[i] == o && QuantityAt(os, i, target, curve) == 0.0
  }

  lemma RejectedStaysRejected(os: seq<Entry>, i: nat, target: real, curve: real -> real)
    requires NonIncreasing(curve) && i < |os| && QuantityAt(os, i, target, curve) == 0.0
    ensures Quantity(Total(os, target, curve), os[i], target, curve) == 0.0
  {
    TotalMonotone(os, i, target, curve);
    var have, now := Total(os[..i], target, curve), Total(os, target, curve);
    if now < target {
      var take := Max(0.0, Min(os[i].max, target - have));
      var take' := Max(0.0, Min(os[i].max, target - now));
      assert take' != 0.0 ==> take != 0.0 && have + take <= now + take';
    }
  }

  /** With a non-increasing curve clearing is stable: a second pass over any of the rejected offers, in
      any order and from the total already committed, accepts none of them. */
  lemma {:induction false} SecondPassAcceptsNone(os: seq<Entry>, again: seq<Entry>, target: real, curve: real -> real)
    requires NonIncreasing(curve)
    requires forall o :: o in again ==> Rejected(os, o, target, curve)
    ensures TotalFrom(Total(os, target, curve), again, target, curve) == Total(os, target, curve)
    decreases |again|
  {
    if again != [] {
      var o := again[|again| - 1];
      assert o in again && Rejected(os, o, target, curve);
      var i :| 0 <= i < |os| && os[i] == o && QuantityAt(os, i, target, curve) == 0.0;
      RejectedStaysRejected(os, i, target, curve);
      SecondPassAcceptsNone(os, again[..|again| - 1], target, curve);
    }
  }

  lemma CurvesNonIncreasing()
    ensures NonIncreasing(CurveUp) && NonIncreasing(CurveDown)
  {
  }

  // ---- Proposals ----

  datatype Alloc = Alloc(up: real, down: real)

  datatype Prices = Prices(up: real, down: real)

  type Digest = int

  /** The cleared `result`; `offersHash` binds it to the offers in their insertion order. */
  datatype Proposal = Proposal(
    slot: int, epoch: int, targets: Alloc, offersHash: Digest, allocations: seq<(Id, Alloc)>, prices: Prices)

  function CurveOf(dir: Direction): real -> real {
    match dir
    case Up => CurveUp
    case Down => CurveDown
  }

  function TargetOf(targets: Alloc, dir: Direction): real {
    match dir
    case Up => targets.up
    case Down => targets.down
  }

  function ClearedOf(offers: OfferMap, targets: Alloc, dir: Direction): Cleared {
    Clear(Sort(Entries(offers, dir)), TargetOf(targets, dir), CurveOf(dir))
  }

  function QtyOf(c: Cleared, id: Id): real {
    if id in c.qty then c.qty[id] else 0.0
  }

  function Allocations(offers: OfferMap, up: Cleared, down: Cleared): (a: seq<(Id, Alloc)>)
    ensures |a| == |offers| && forall i :: 0 <= i < |a| ==> a[i] == (offers[i].0, Alloc(QtyOf(up, offers[i].0), QtyOf(down, offers[i].0)))
  {
    seq(|offers|, i requires 0 <= i < |offers| => (offers[i].0, Alloc(QtyOf(up, offers[i].0), QtyOf(down, offers[i].0))))
  }

  /** The two uses of `hashFn`. */
  datatype Hashes = Hashes(ofOffers: OfferMap -> Digest, ofProposal: Proposal -> Digest)

  function Propose(slot: int, epoch: int, offers: OfferMap, targets: Alloc, hashOffers: OfferMap -> Digest): Proposal {
    var up, down := ClearedOf(offers, targets, Up), ClearedOf(offers, targets, Down);
    Proposal(slot, epoch, targets, hashOffers(offers), Allocations(offers, up, down), Prices(up.price, down.price))
  }

  method ClearWithCurve(offers: OfferMap, target: real, curve: real -> real, dir: Direction) returns (c: Cleared)
    requires DistinctIds(offers)
    ensures c == Clear(Sort(Entries(offers, dir)), target, curve)
  {
    var entries: seq<Entry> := [];
    for i := 0 to |offers|
      invariant entries == Entries(offers, dir)[..i]
    {
      entries := entries + [EntryOf(offers[i], dir)];
    }
    assert entries == Entries(offers, dir);
    SortSorts(entries);
    SortedIdsDiffer(entries);
    c := ClearSorted(Sort(entries), target, curve);
  }

  lemma SortedIdsDiffer(s: seq<Entry>)
    requires IdsDiffer(s)
    ensures IdsDiffer(Sort(s))
  {
    SortSorts(s);
    var t := Sort(s);
    forall i, j | 0 <= i < j < |t| ensures t[i].id != t[j].id {
      assert t[i] in s && t[j] in s && Before(t[i], t[j]);
      var a :| 0 <= a < |s| && s[a] == t[i];
      var b :| 0 <= b < |s| && s[b] == t[j];
      assert a != b;
    }
  }

  method ComputeProposal(slot: int, epoch: int, offers: OfferMap, targets: Alloc, hashes: Hashes)
      returns (result: Proposal, hash: Digest)
    requires DistinctIds(offers)
    ensures result == Propose(slot, epoch, offers, targets, hashes.ofOffers) && hash == hashes.ofProposal(result)
  {
    var up := ClearWithCurve(offers, targets.up, CurveUp, Up);
    var down := ClearWithCurve(offers, targets.down, CurveDown, Down);
    var allocations: seq<(Id, Alloc)> := [];
    for i := 0 to |offers|
      invariant allocations == Allocations(offers, up, down)[..i]
    {
      var id := offers[i].0;
      allocations := allocations + [(id, Alloc(QtyOf(up, id), QtyOf(down, id)))];
    }
    assert allocations == Allocations(offers, up, down);
    result := Proposal(slot, epoch, targets, hashes.ofOffers(offers), allocations, Prices(up.price, down.price));
    hash := hashes.ofProposal(result);
  }

  predicate IsAcceptable(alloc: Alloc, offer: Offer, prices: Prices) {
    && alloc.up <= offer.upMax + EPS && alloc.down <= offer.downMax + EPS
    && (alloc.up == 0.0 || prices.up >= offer.upBid - EPS)
    && (alloc.down == 0.0 || prices.down >= offer.downBid - EPS)
  }

  function ShareOf(a: Alloc, dir: Direction): real {
    match dir
    case Up => a.up
    case Down => a.down
  }

  function PriceOf(p: Prices, dir: Direction): real {
    match dir
    case Up => p.up
    case Down => p.down
  }

  /** In both directions: no more than the own maximum, and no price below the own bid for what is allocated. */
  ghost predicate Bearable(share: Alloc, own: Offer, prices: Prices) {
    forall dir: Direction ::
      && ShareOf(share, dir) <= EntryOf((0, own), dir).max + 0.000000001
      && (ShareOf(share, dir) != 0.0 ==> EntryOf((0, own), dir).bid <= PriceOf(prices, dir) + 0.000000001)
  }

  lemma AcceptableIsBearable(share: Alloc, own: Offer, prices: Prices)
    ensures IsAcceptable(share, own, prices) <==> Bearable(share, own, prices)
  {
    if IsAcceptable(share, own, prices) {
      forall dir: Direction
        ensures ShareOf(share, dir) <= EntryOf((0, own), dir).max + 0.000000001
        ensures ShareOf(share, dir) != 0.0 ==> EntryOf((0, own), dir).bid <= PriceOf(prices, dir) + 0.000000001
      {
        match dir case Up => case Down =>
      }
    }
    if Bearable(share, own, prices) {
      assert ShareOf(share, Up) <= EntryOf((0, own), Up).max + 0.000000001;
      assert ShareOf(share, Down) <= EntryOf((0, own), Down).max + 0.000000001;
    }
  }

  function SumUp(a: seq<(Id, Alloc)>): real {
    if a == [] then 0.0 else SumUp(a[..|a| - 1]) + a[|a| - 1].1.up
  }

  function SumDown(a: seq<(Id, Alloc)>): real {
    if a == [] then 0.0 else SumDown(a[..|a| - 1]) + a[|a| - 1].1.down
  }

  method Totals(allocations: seq<(Id, Alloc)>) returns (t: Alloc)
    ensures t == Alloc(SumUp(allocations), SumDown(allocations))
  {
    var up, down := 0.0, 0.0;
    for i := 0 to |allocations|
      invariant up == SumUp(allocations[..i]) && down == SumDown(allocations[..i])
    {
      assert allocations[..i + 1][..i] == allocations[..i];
      up := up + allocations[i].1.up;
      down := down + allocations[i].1.down;
    }
    assert allocations[..|allocations|] == allocations;
    t := Alloc(up, down);
  }

  // ---- What proposals guarantee ----

  /** The `k`-th offer gets, in direction `dir`, what its entry gets in sorted order. */
  lemma OwnEntry(offers: OfferMap, k: nat, targets: Alloc, dir: Direction) returns (i: nat)
    requires DistinctIds(offers) && k < |offers|
    ensures var os := Sort(Entries(offers, dir));
            && Sorted(os) && i < |os| && os[i] == EntryOf(offers[k], dir)
            && offers[k].0 in ClearedOf(offers, targets, dir).qty
            && QtyOf(ClearedOf(offers, targets, dir), offers[k].0) == QuantityAt(os, i, TargetOf(targets, dir), CurveOf(dir))
  {
    var es := Entries(offers, dir);
    var os := Sort(es);
    SortSorts(es);
    SortedIdsDiffer(es);
    assert es[k] in os;
    i :| 0 <= i < |os| && os[i] == es[k];
    QuantitiesAt(os, TargetOf(targets, dir), CurveOf(dir), i);
  }

  /** A cleared proposal is acceptable to a participant exactly when its own maxima are not negative
      (up to the tolerance): bids, targets and the other offers never matter. */
  lemma ProposalAcceptable(slot: int, epoch: int, offers: OfferMap, targets: Alloc, hashOffers: OfferMap -> Digest, k: nat)
    requires DistinctIds(offers) && k < |offers|
    ensures var r := Propose(slot, epoch, offers, targets, hashOffers);
            && r.allocations[k].0 == offers[k].0
            && (IsAcceptable(r.allocations[k].1, offers[k].1, r.prices) <==>
                  offers[k].1.upMax >= -EPS && offers[k].1.downMax >= -EPS)
  {
    var i := OwnEntry(offers, k, targets, Up);
    var j := OwnEntry(offers, k, targets, Down);
    var ups, downs := Sort(Entries(offers, Up)), Sort(Entries(offers, Down));
    if QuantityAt(ups, i, targets.up, CurveUp) > 0.0 { PriceClearsBids(ups, i, targets.up, CurveUp); }
    if QuantityAt(downs, j, targets.down, CurveDown) > 0.0 { PriceClearsBids(downs, j, targets.down, CurveDown); }
  }

  /** Sum of the quantities of `s` as looked up in `c`. */
  function SumOf(c: Cleared, s: seq<Entry>): real {
    if s == [] then 0.0 else QtyOf(c, s[0].id) + SumOf(c, s[1..])
  }

  lemma {:induction false} SumOfAppend(c: Cleared, s: seq<Entry>, t: seq<Entry>)
    ensures SumOf(c, s + t) == SumOf(c, s) + SumOf(c, t)
    decreases |s|
  {
    if s == [] {
      assert s + t == t;
    } else {
      assert (s + t)[1..] == s[1..] + t;
      SumOfAppend(c, s[1..], t);
    }
  }

  lemma {:induction false} SumOfInsert(c: Cleared, e: Entry, s: seq<Entry>)
    ensures SumOf(c, Insert(e, s)) == QtyOf(c, e.id) + SumOf(c, s)
    decreases |s|
  {
    if s == [] || Before(e, s[0]) {
      assert ([e] + s)[1..] == s;
    } else {
      SumOfInsert(c, e, s[1..]);
      assert ([s[0]] + Insert(e, s[1..]))[1..] == Insert(e, s[1..]);
    }
  }

  lemma {:induction false} SumOfSort(c: Cleared, s: seq<Entry>)
    ensures SumOf(c, Sort(s)) == SumOf(c, s)
    decreases |s|
  {
    if s != [] {
      SumOfSort(c, s[1..]);
      SumOfInsert(c, s[0], Sort(s[1..]));
    }
  }

  lemma {:induction false} SumOfPrefix(os: seq<Entry>, n: nat, target: real, curve: real -> real)
    requires IdsDiffer(os) && n <= |os|
    ensures SumOf(Clear(os, target, curve), os[..n]) == Total(os[..n], target, curve)
    decreases n
  {
    if n > 0 {
      var c := Clear(os, target, curve);
      SumOfPrefix(os, n - 1, target, curve);
      QuantitiesAt(os, target, curve, n - 1);
      SumOfAppend(c, os[..n - 1], [os[n - 1]]);
      assert os[..n] == os[..n - 1] + [os[n - 1]];
      assert [os[n - 1]][1..] == [];
    }
  }

  lemma {:induction false} SumsAreLookups(offers: OfferMap, up: Cleared, down: Cleared, n: nat)
    requires n <= |offers|
    ensures SumUp(Allocations(offers, up, down)[..n]) == SumOf(up, Entries(offers, Up)[..n])
    ensures SumDown(Allocations(offers, up, down)[..n]) == SumOf(down, Entries(offers, Down)[..n])
    decreases n
  {
    if n > 0 {
      SumsAreLookups(offers, up, down, n - 1);
      var a, eu, ed := Allocations(offers, up, down), Entries(offers, Up), Entries(offers, Down);
      assert a[..n][..n - 1] == a[..n - 1];
      assert eu[..n] == eu[..n - 1] + [eu[n - 1]] && ed[..n] == ed[..n - 1] + [ed[n - 1]];
      SumOfAppend(up, eu[..n - 1], [eu[n - 1]]);
      SumOfAppend(down, ed[..n - 1], [ed[n - 1]]);
      assert [eu[n - 1]][1..] == [] && [ed[n - 1]][1..] == [];
    }
  }

  /** A proposal names the slot, the epoch and the targets it is for, the digest of the offers and both prices, and
      allocates to each offer, in their order, what it was cleared to in either direction. */
  lemma ProposalSays(slot: int, epoch: int, offers: OfferMap, targets: Alloc, hashOffers: OfferMap -> Digest, r: Proposal,
                     dir: Direction, k: nat, c: Cleared)
    requires DistinctIds(offers) && r == Propose(slot, epoch, offers, targets, hashOffers)
    requires c == ClearedOf(offers, targets, dir) && k < |offers|
    ensures r.slot == slot && r.epoch == epoch && r.targets == targets && r.offersHash == hashOffers(offers)
    ensures PriceOf(r.prices, dir) == c.price
    ensures |r.allocations| == |offers| && r.allocations[k].0 == offers[k].0 && offers[k].0 in c.qty
    ensures ShareOf(r.allocations[k].1, dir) == c.qty[offers[k].0]
  {
    var i := OwnEntry(offers, k, targets, dir);
    assert QtyOf(c, offers[k].0) == c.qty[offers[k].0];
  }

  /** The allocations add up to exactly the accepted totals, which never exceed a non-negative target. */
  lemma ProposalTotals(slot: int, epoch: int, offers: OfferMap, targets: Alloc, hashOffers: OfferMap -> Digest)
    requires DistinctIds(offers)
    ensures var r := Propose(slot, epoch, offers, targets, hashOffers);
            && SumUp(r.allocations) == ClearedOf(offers, targets, Up).acceptedTotal
            && SumDown(r.allocations) == ClearedOf(offers, targets, Down).acceptedTotal
            && 0.0 <= SumUp(r.allocations) <= Max(0.0, targets.up)
            && 0.0 <= SumDown(r.allocations) <= Max(0.0, targets.down)
  {
    var up, down := ClearedOf(offers, targets, Up), ClearedOf(offers, targets, Down);
    DirectionTotal(offers, targets, Up);
    DirectionTotal(offers, targets, Down);
    SumsAreLookups(offers, up, down, |offers|);
    var a := Allocations(offers, up, down);
    assert a[..|offers|] == a;
  }

  lemma DirectionTotal(offers: OfferMap, targets: Alloc, dir: Direction)
    requires DistinctIds(offers)
    ensures var c := ClearedOf(offers, targets, dir);
            && SumOf(c, Entries(offers, dir)[..|offers|]) == c.acceptedTotal
            && 0.0 <= c.acceptedTotal <= Max(0.0, TargetOf(targets, dir))
  {
    var es := Entries(offers, dir);
    var os := Sort(es);
    SortedIdsDiffer(es);
    SumOfPrefix(os, |os|, TargetOf(targets, dir), CurveOf(dir));
    SumOfSort(ClearedOf(offers, targets, dir), es);
    TotalBounds(os, TargetOf(targets, dir), CurveOf(dir), 0.0);
    assert os[..|os|] == os && es[..|offers|] == es;
  }

  function Without(offers: OfferMap, i: nat): OfferMap
    requires i < |offers|
  {
    offers[..i] + offers[i + 1..]
  }

  lemma EntriesWithout(offers: OfferMap, i: nat, dir: Direction)
    requires i < |offers|
    ensures multiset(offers) == multiset{offers[i]} + multiset(Without(offers, i))
    ensures multiset(Entries(offers, dir)) ==
              multiset{EntryOf(offers[i], dir)} + multiset(Entries(Without(offers, i), dir))
  {
    var es := Entries(offers, dir);
    RemoveAt(offers, i);
    RemoveAt(es, i);
    assert Entries(Without(offers, i), dir) == es[..i] + es[i + 1..];
  }

  lemma {:induction false} EntriesMultiset(offers: OfferMap, other: OfferMap, dir: Direction)
    requires multiset(offers) == multiset(other)
    ensures multiset(Entries(offers, dir)) == multiset(Entries(other, dir))
    decreases |offers|
  {
    assert |offers| == |multiset(offers)| == |multiset(other)| == |other|;
    if offers != [] {
      assert offers[0] in multiset(other);
      var i :| 0 <= i < |other| && other[i] == offers[0];
      EntriesWithout(offers, 0, dir);
      EntriesWithout(other, i, dir);
      assert multiset(Without(offers, 0)) == multiset(offers) - multiset{offers[0]};
      assert multiset(Without(other, i)) == multiset(other) - multiset{other[i]};
      EntriesMultiset(Without(offers, 0), Without(other, i), dir);
    }
  }

  /** Clearing does not depend on the order in which offers arrived. */
  lemma ClearingIgnoresArrivalOrder(offers: OfferMap, other: OfferMap, targets: Alloc, dir: Direction)
    requires DistinctIds(offers) && DistinctIds(other) && multiset(offers) == multiset(other)
    ensures ClearedOf(offers, targets, dir) == ClearedOf(other, targets, dir)
  {
    EntriesMultiset(offers, other, dir);
    SortSorts(Entries(offers, dir));
    SortSorts(Entries(other, dir));
    SortedUnique(Sort(Entries(offers, dir)), Sort(Entries(other, dir)));
  }

  // ---- What both coordinators share ----

  /** What consensus.js offers: clearing, and its two digests. */
  datatype Consensus = Consensus(
    propose: (int, int, OfferMap, Alloc) -> Proposal,
    hashOffers: OfferMap -> Digest,
    hashOf: Proposal -> Digest)

  predicate ClearsAt(lib: Consensus, slot: int, epoch: int, offers: OfferMap, targets: Alloc) {
    lib.propose(slot, epoch, offers, targets) == Propose(slot, epoch, offers, targets, lib.hashOffers)
  }

  /** The library clears as consensus.js does, whatever its digests are. */
  ghost predicate Clears(lib: Consensus) {
    forall slot, epoch, offers, targets {:trigger ClearsAt(lib, slot, epoch, offers, targets)} ::
      ClearsAt(lib, slot, epoch, offers, targets)
  }

  /** The library itself, for any two digests. */
  function ConsensusJs(hashOffers: OfferMap -> Digest, hashOf: Proposal -> Digest): Consensus {
    Consensus((slot, epoch, offers, targets) => Propose(slot, epoch, offers, targets, hashOffers), hashOffers, hashOf)
  }

  lemma ConsensusJsClears(hashOffers: OfferMap -> Digest, hashOf: Proposal -> Digest)
    ensures Clears(ConsensusJs(hashOffers, hashOf))
  {
    forall slot, epoch, offers, targets ensures ClearsAt(ConsensusJs(hashOffers, hashOf), slot, epoch, offers, targets) {
    }
  }

  predicate Near(a: real, b: real) {
    -0.1 < a - b < 0.1
  }

  predicate TargetsMet(r: Proposal, target: real) {
    Near(SumUp(r.allocations), target) && Near(SumDown(r.allocations), target)
  }

  function AllocFor(a: seq<(Id, Alloc)>, id: Id): Alloc {
    if a == [] then Alloc(0.0, 0.0)
    else if a[0].0 == id then a[0].1
    else AllocFor(a[1..], id)
  }

  /** What the allocations hold under `id`, or nothing in either direction. */
  ghost predicate HoldsFor(a: seq<(Id, Alloc)>, id: Id, share: Alloc) {
    if exists k :: 0 <= k < |a| && a[k].0 == id then (id, share) in a else share == Alloc(0.0, 0.0)
  }

  lemma {:induction false} AllocForHolds(a: seq<(Id, Alloc)>, id: Id)
    ensures HoldsFor(a, id, AllocFor(a, id))
    decreases |a|
  {
    if a != [] && a[0].0 != id {
      var rest := a[1..];
      AllocForHolds(rest, id);
      if k :| 0 <= k < |a| && a[k].0 == id { assert rest[k - 1].0 == id; }
      if k :| 0 <= k < |rest| && rest[k].0 == id { assert a[k + 1].0 == id; }
    }
  }

  lemma {:induction false} AllocForAt(a: seq<(Id, Alloc)>, k: nat)
    requires k < |a| && forall i, j :: 0 <= i < j < |a| ==> a[i].0 != a[j].0
    ensures AllocFor(a, a[k].0) == a[k].1
    decreases |a|
  {
    if k > 0 {
      assert a[0].0 != a[k].0;
      AllocForAt(a[1..], k - 1);
    }
  }
}
