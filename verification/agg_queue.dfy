// What reading an aggregation queue returns, position by position over all its receives (fn.js, readAggQueue).
module AggQueue {
  import opened Wrappers
  import opened Contexts
  import opened FnContext

  type Place = (nat, nat)

  /** Message `p.1` of receive `p.0` is a snapshot of invocation `id`. */
  predicate Own(receives: seq<seq<AggMessage>>, id: Id, p: Place) {
    && p.0 < |receives| && p.1 < |receives[p.0]|
    && receives[p.0][p.1].Written? && receives[p.0][p.1].fanOut == id
  }

  /** The order in which messages are received. */
  predicate Before(p: Place, q: Place) {
    p.0 < q.0 || (p.0 == q.0 && p.1 < q.1)
  }

  function Size(receives: seq<seq<AggMessage>>, id: Id, p: Place): nat
    requires Own(receives, id, p)
  {
    |receives[p.0][p.1].snapshot.results|
  }

  /** `ps` is where the invocation's own messages are: all of them, each once and in order. */
  ghost predicate Places(receives: seq<seq<AggMessage>>, id: Id, ps: seq<Place>) {
    && (forall p: Place :: p in ps <==> Own(receives, id, p))
    && (forall j, k :: 0 <= j < k < |ps| ==> Before(ps[j], ps[k]))
  }

  /** No own snapshot holds more results than the one at `p`, and none received before it as many. */
  ghost predicate EarliestLargest(receives: seq<seq<AggMessage>>, id: Id, p: Place) {
    && Own(receives, id, p)
    && (forall q: Place :: Own(receives, id, q) ==> Size(receives, id, q) <= Size(receives, id, p))
    && (forall q: Place :: Own(receives, id, q) && Before(q, p) ==> Size(receives, id, q) < Size(receives, id, p))
  }

  ghost predicate ReadAt(receives: seq<seq<AggMessage>>, id: Id, ps: seq<Place>, snaps: seq<Snapshot>, handles: seq<nat>) {
    && Places(receives, id, ps) && |snaps| == |ps| == |handles|
    && (forall k :: 0 <= k < |ps| ==>
          Own(receives, id, ps[k]) && receives[ps[k].0][ps[k].1] == Written(id, snaps[k], handles[k]))
  }

  /** One more message of the last receive. */
  lemma OneMoreMessage(receives: seq<seq<AggMessage>>, last: seq<AggMessage>, m: AggMessage, id: Id,
                       ps: seq<Place>, snaps: seq<Snapshot>, handles: seq<nat>)
    requires ReadAt(receives + [last], id, ps, snaps, handles)
    ensures var own := m.Written? && m.fanOut == id;
            ReadAt(receives + [last + [m]], id, ps + (if own then [(|receives|, |last|)] else []),
                   snaps + (if own then [m.snapshot] else []), handles + (if own then [m.receipt] else []))
  {
    var was, now, here := receives + [last], receives + [last + [m]], (|receives|, |last|);
    var own := m.Written? && m.fanOut == id;
    forall p: Place ensures Own(now, id, p) <==> Own(was, id, p) || (own && p == here) {
      if p.0 < |receives| { assert now[p.0] == was[p.0]; }
    }
    forall k | 0 <= k < |ps| ensures Before(ps[k], here) && now[ps[k].0][ps[k].1] == was[ps[k].0][ps[k].1] {
      assert ps[k] in ps;
    }
  }

  lemma {:induction false} ReadLast(receives: seq<seq<AggMessage>>, last: seq<AggMessage>, id: Id,
                                    ps: seq<Place>, snaps: seq<Snapshot>, handles: seq<nat>) returns (qs: seq<Place>)
    requires ReadAt(receives, id, ps, snaps, handles)
    ensures ReadAt(receives + [last], id, qs, snaps + Received(last, id), handles + Receipts(last, id))
    decreases |last|
  {
    if last == [] {
      qs := ps;
      NothingReceived(receives, id, ps, snaps, handles);
      assert snaps + Received(last, id) == snaps && handles + Receipts(last, id) == handles;
    } else {
      var before, m := last[..|last| - 1], last[|last| - 1];
      qs := ReadLast(receives, before, id, ps, snaps, handles);
      OneMoreMessage(receives, before, m, id, qs, snaps + Received(before, id), handles + Receipts(before, id));
      assert last == before + [m];
      var own := m.Written? && m.fanOut == id;
      qs := qs + if own then [(|receives|, |before|)] else [];
      assert snaps + Received(last, id) == snaps + Received(before, id) + if own then [m.snapshot] else [];
      assert handles + Receipts(last, id) == handles + Receipts(before, id) + if own then [m.receipt] else [];
    }
  }

  lemma NothingReceived(receives: seq<seq<AggMessage>>, id: Id, ps: seq<Place>, snaps: seq<Snapshot>, handles: seq<nat>)
    requires ReadAt(receives, id, ps, snaps, handles)
    ensures ReadAt(receives + [[]], id, ps, snaps, handles)
  {
    forall p: Place ensures Own(receives + [[]], id, p) <==> Own(receives, id, p) {
    }
  }

  lemma {:induction false} ReadAll(receives: seq<seq<AggMessage>>, id: Id) returns (ps: seq<Place>)
    ensures ReadAt(receives, id, ps, Received(Flatten(receives), id), Receipts(Flatten(receives), id))
    decreases |receives|
  {
    ps := [];
    if receives != [] {
      var n := |receives| - 1;
      ps := ReadAll(receives[..n], id);
      ReceivedAppend(Flatten(receives[..n]), receives[n], id);
      assert receives == receives[..n] + [receives[n]];
      ps := ReadLast(receives[..n], receives[n], id, ps, Received(Flatten(receives[..n]), id), Receipts(Flatten(receives[..n]), id));
    }
  }

  /** What a re-invocation resumes from: of all its own snapshots, in whichever receive, the first largest;
      nothing only if there is none. Foreign and malformed messages do not matter. */
  lemma ResumesFromEarliestLargest(receives: seq<seq<AggMessage>>, id: Id)
    ensures var snapshot := Best(Received(Flatten(receives), id));
            && (snapshot.None? <==> forall p: Place :: !Own(receives, id, p))
            && (snapshot.Some? ==>
                  exists p: Place :: EarliestLargest(receives, id, p) && snapshot.value == receives[p.0][p.1].snapshot)
  {
    var ps := ReadAll(receives, id);
    var snaps, handles := Received(Flatten(receives), id), Receipts(Flatten(receives), id);
    var i := BestIsFirstLargest(snaps);
    if snaps == [] {
      assert ps == [];
    } else {
      assert ps[i] in ps;
      LargestPlace(receives, id, ps, snaps, handles, i);
    }
  }

  lemma LargestPlace(receives: seq<seq<AggMessage>>, id: Id, ps: seq<Place>, snaps: seq<Snapshot>, handles: seq<nat>, i: nat)
    requires ReadAt(receives, id, ps, snaps, handles) && FirstLargest(snaps, i)
    ensures EarliestLargest(receives, id, ps[i]) && receives[ps[i].0][ps[i].1].snapshot == snaps[i]
  {
    forall q: Place | Own(receives, id, q)
      ensures Size(receives, id, q) <= Size(receives, id, ps[i])
      ensures Before(q, ps[i]) ==> Size(receives, id, q) < Size(receives, id, ps[i])
    {
      assert q in ps;
      var k :| 0 <= k < |ps| && ps[k] == q;
      assert k > i ==> Before(ps[i], ps[k]);
    }
  }

  /** The receipt handles returned, with which messages are deleted later, are those of all its own
      messages, in order. */
  lemma HandlesAllOwn(receives: seq<seq<AggMessage>>, id: Id)
    ensures var handles := Receipts(Flatten(receives), id);
            exists ps: seq<Place> :: Places(receives, id, ps) && |ps| == |handles|
                         && forall k :: 0 <= k < |ps| ==> Own(receives, id, ps[k]) && handles[k] == receives[ps[k].0][ps[k].1].receipt
  {
    var ps := ReadAll(receives, id);
    assert Places(receives, id, ps);
  }
}
