// The bookkeeping one invocation keeps in memory (fn.js `buildContext`): child ids,
// batches, and how a batch is opened, filled and reopened from recorded results.
module Contexts {
  import opened Wrappers
  import opened Programs

  /** Invocation ids: a random UUID, or `<parent>_child_<k>` (fn.js:469). */
  datatype Id = Uuid(n: nat) | Child(parent: Id, k: nat)

  /** Where a result goes: the owner's inbox (`returnTo`), `fanOutId` and `fanOutTotal`. */
  datatype Slot = Slot(owner: Id, batch: nat, idx: nat)

  /** An invocation envelope; the root has no return address. */
  datatype Envelope = Envelope(id: Id, fn: Name, payload: Value, ret: Option<Slot>)

  /** One entry of `activeBatches` (fn.js:472-478); an unfilled slot is `None`. */
  datatype Batch = Batch(
    pending: int,
    results: seq<Option<Result>>,
    callback: Name,
    state: Value,
    childIds: seq<Id>)

  function ChildIds(owner: Id, runCounter: nat, n: nat): (ids: seq<Id>)
    ensures |ids| == n
    ensures forall i, j :: 0 <= i < j < n ==> ids[i] != ids[j]
  {
    seq(n, i requires 0 <= i < n => Child(owner, runCounter + i))
  }

  function Lookup(cached: map<Id, Result>, ids: seq<Id>): (rs: seq<Option<Result>>)
    ensures |rs| == |ids|
  {
    seq(|ids|, i requires 0 <= i < |ids| => if ids[i] in cached then Some(cached[ids[i]]) else None)
  }

  /** The number of unfilled slots. */
  function Missing(rs: seq<Option<Result>>): nat {
    if rs == [] then 0 else Missing(rs[..|rs| - 1]) + (if rs[|rs| - 1].None? then 1 else 0)
  }

  /** The batch a `runAll` registers: cached children are filled in, the others are pending. */
  function OpenBatch(owner: Id, runCounter: nat, n: nat, callback: Name, state: Value, cached: map<Id, Result>): Batch {
    var ids := ChildIds(owner, runCounter, n);
    var rs := Lookup(cached, ids);
    Batch(Missing(rs), rs, callback, state, ids)
  }

  function Record(b: Batch, idx: nat, r: Result): Batch
    requires idx < |b.results|
  {
    b.(pending := b.pending - 1, results := b.results[idx := Some(r)])
  }

  /** The `results` array a completed batch hands to its callback. */
  function Filled(rs: seq<Option<Result>>): seq<Result>
    requires forall i :: 0 <= i < |rs| ==> rs[i].Some?
  {
    seq(|rs|, i requires 0 <= i < |rs| => rs[i].value)
  }

  function ChildEnvelope(owner: Id, batch: nat, ids: seq<Id>, tasks: seq<Task>, i: nat): Envelope
    requires i < |tasks| == |ids|
  {
    Envelope(ids[i], tasks[i].fn, tasks[i].payload, Some(Slot(owner, batch, i)))
  }

  // ---- Counting unfilled slots ----

  lemma {:induction false} MissingAll(rs: seq<Option<Result>>)
    requires forall i :: 0 <= i < |rs| ==> rs[i].None?
    ensures Missing(rs) == |rs|
  {
    if rs != [] {
      MissingAll(rs[..|rs| - 1]);
    }
  }

  lemma {:induction false} MissingZero(rs: seq<Option<Result>>)
    ensures Missing(rs) == 0 <==> forall i :: 0 <= i < |rs| ==> rs[i].Some?
  {
    if rs != [] {
      var n := |rs| - 1;
      MissingZero(rs[..n]);
      assert forall i :: 0 <= i < n ==> rs[..n][i] == rs[i];
      assert (forall i :: 0 <= i < |rs| ==> rs[i].Some?) <==>
             (rs[n].Some? && forall i :: 0 <= i < n ==> rs[..n][i].Some?);
    }
  }

  lemma {:induction false} MissingUpdate(rs: seq<Option<Result>>, idx: nat, r: Result)
    requires idx < |rs| && rs[idx].None?
    ensures Missing(rs) == Missing(rs[idx := Some(r)]) + 1
  {
    var n := |rs| - 1;
    if idx < n {
      MissingUpdate(rs[..n], idx, r);
      assert rs[idx := Some(r)][..n] == rs[..n][idx := Some(r)];
    } else {
      assert rs[idx := Some(r)][..n] == rs[..n];
    }
  }

  /** A batch closes when its pending count reaches zero, and then every slot is filled. */
  lemma ClosesWhenFull(b: Batch, idx: nat, r: Result)
    requires idx < |b.results| && b.results[idx].None? && b.pending == Missing(b.results)
    ensures var b' := Record(b, idx, r);
            && b'.pending == Missing(b'.results)
            && (b'.pending == 0 <==> forall i :: 0 <= i < |b'.results| ==> b'.results[i].Some?)
  {
    MissingUpdate(b.results, idx, r);
    MissingZero(Record(b, idx, r).results);
  }
}
