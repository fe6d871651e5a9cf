// The phased flexibility consensus: up to four fan-out rounds per epoch, all state threaded
// through the callbacks (flexi-consensus-phased).
module PhasedCoordinator {
  import opened Wrappers
  import opened Clearing

  const NODE_COUNT: nat := 5

  datatype Payload =
    | StartNegotiation(slot: int, epoch: int, target: Alloc)
    | GetOffer(slot: int, epoch: int)
    | Verify(slot: int, epoch: int, myId: Id, myOffer: Option<Offer>, result: Proposal, hash: Digest)
    | Final(slot: int, epoch: int, result: Proposal)
    | Abort(slot: int, epoch: int)

  /** What a participant invocation delivers; `Failed` is an error result. */
  datatype Reply = Confirmed | Offered(offer: Offer) | Ack | Nack | Committed | Aborted | Failed

  /** The record threaded through the callbacks; fields not yet set are empty. */
  datatype State = State(
    epoch: int, slot: int, target: real, maxEpochs: int, bestPartial: Option<Proposal>,
    confirmedCount: nat, offers: seq<Option<Offer>>, proposal: Option<Proposal>, proposalHash: Digest, commit: bool)

  datatype Callback = OnAnswers | OnOffers | OnAcks | OnCommitted

  datatype Report =
    | Success(result: Proposal, epochsNeeded: int)
    | Failure(partial: Option<Proposal>, insufficientAllocation: bool, totalEpochsAttempted: int)

  /** What the handler or a callback ends with: a fan-out or the final report. */
  datatype Action = Fan(tasks: seq<Payload>, callback: Callback, state: State) | Done(report: Report)

  // ---- The coordinator ----

  function Fanout(n: nat, p: Payload): seq<Payload> {
    seq(n, _ => p)
  }

  function StartEpoch(s: State): Action {
    Fan(Fanout(NODE_COUNT, StartNegotiation(s.slot, s.epoch, Alloc(s.target, s.target))), OnAnswers, s)
  }

  function Begin(slot: int, target: real, maxEpochs: int): Action {
    StartEpoch(State(1, slot, target, maxEpochs, None, 0, [], None, 0, false))
  }

  function FinishOrRetry(s: State, committed: Option<Proposal>): Action {
    if committed.Some? then Done(Success(committed.value, s.epoch))
    else if s.epoch >= s.maxEpochs then Done(Failure(s.bestPartial, s.bestPartial.Some?, s.epoch))
    else
      var best := if s.proposal.Some? then s.proposal else s.bestPartial;
      StartEpoch(s.(epoch := s.epoch + 1, bestPartial := best, proposal := None))
  }

  function Count(rs: seq<Reply>, kind: Reply): nat {
    if rs == [] then 0 else Count(rs[..|rs| - 1], kind) + (if rs[|rs| - 1] == kind then 1 else 0)
  }

  function AfterAnswers(s: State, rs: seq<Reply>): Action {
    var n := Count(rs, Confirmed);
    if n == 0 then FinishOrRetry(s.(confirmedCount := 0), None)
    else Fan(Fanout(n, GetOffer(s.slot, s.epoch)), OnOffers, s.(confirmedCount := n))
  }

  function OffersOf(rs: seq<Reply>): (os: seq<Option<Offer>>)
    ensures |os| == |rs| && forall i :: 0 <= i < |rs| ==> os[i] == if rs[i].Offered? then Some(rs[i].offer) else None
  {
    seq(|rs|, i requires 0 <= i < |rs| => if rs[i].Offered? then Some(rs[i].offer) else None)
  }

  /** Present offers under the name `node-i`, in index order. */
  function OfferMapOf(os: seq<Option<Offer>>): OfferMap {
    if os == [] then []
    else
      var n := |os| - 1;
      OfferMapOf(os[..n]) + (if os[n].Some? then [(n, os[n].value)] else [])
  }

  function VerifyTasks(s: State, os: seq<Option<Offer>>, r: Proposal, hash: Digest): seq<Payload> {
    seq(|os|, i requires 0 <= i < |os| => Verify(s.slot, s.epoch, i, os[i], r, hash))
  }

  function AfterOffers(lib: Consensus, s: State, rs: seq<Reply>): Action {
    var os := OffersOf(rs);
    var r := lib.propose(s.slot, s.epoch, OfferMapOf(os), Alloc(s.target, s.target));
    var hash := lib.hashOf(r);
    Fan(VerifyTasks(s, os, r, hash), OnAcks, s.(offers := os, proposal := Some(r), proposalHash := hash))
  }

  /** The callback as the program runs it, filling the offers map in a loop. */
  method RunAfterOffers(lib: Consensus, s: State, rs: seq<Reply>) returns (a: Action)
    requires Clears(lib)
    ensures a == AfterOffers(lib, s, rs)
  {
    var offers := OffersOf(rs);
    var offersMap: OfferMap := [];
    for i := 0 to |offers|
      invariant offersMap == OfferMapOf(offers[..i])
    {
      assert offers[..i + 1][..i] == offers[..i];
      if offers[i].Some? {
        offersMap := offersMap + [(i, offers[i].value)];
      }
    }
    assert offers[..|offers|] == offers;
    OfferMapDistinct(offers);
    var r, hash := ComputeProposal(s.slot, s.epoch, offersMap, Alloc(s.target, s.target), Hashes(lib.hashOffers, lib.hashOf));
    assert ClearsAt(lib, s.slot, s.epoch, offersMap, Alloc(s.target, s.target));
    a := Fan(VerifyTasks(s, offers, r, hash), OnAcks, s.(offers := offers, proposal := Some(r), proposalHash := hash));
  }

  function AfterAcks(s: State, rs: seq<Reply>): Action
    requires s.proposal.Some?
  {
    var commit := Count(rs, Ack) == s.confirmedCount && TargetsMet(s.proposal.value, s.target);
    var msg := if commit then Final(s.slot, s.epoch, s.proposal.value) else Abort(s.slot, s.epoch);
    Fan(Fanout(s.confirmedCount, msg), OnCommitted, s.(commit := commit))
  }

  function AfterCommitted(s: State): Action {
    FinishOrRetry(s, if s.commit then s.proposal else None)
  }

  predicate Consistent(a: Action) {
    a.Fan? && (a.callback.OnAcks? || a.callback.OnCommitted?) ==> a.state.proposal.Some?
  }

  function Next(lib: Consensus, a: Action, rs: seq<Reply>): (a': Action)
    requires a.Fan? && Consistent(a)
    ensures Consistent(a')
  {
    match a.callback
    case OnAnswers => AfterAnswers(a.state, rs)
    case OnOffers => AfterOffers(lib, a.state, rs)
    case OnAcks => AfterAcks(a.state, rs)
    case OnCommitted => AfterCommitted(a.state)
  }

  // ---- Whole runs against an arbitrary environment ----

  function PhasesLeft(c: Callback): nat {
    match c
    case OnAnswers => 4
    case OnOffers => 3
    case OnAcks => 2
    case OnCommitted => 1
  }

  /** Rounds that may still follow, this one included. */
  function RoundsLeft(a: Action): nat {
    if a.Done? then 0
    else PhasesLeft(a.callback) + 4 * (if a.state.maxEpochs > a.state.epoch then a.state.maxEpochs - a.state.epoch else 0)
  }

  /** The environment answers the `n`-th round in any way it likes, errors included. */
  type Environment = (nat, seq<Payload>) -> seq<Reply>

  /** All fan-outs of a run from `a` on, and its report. */
  function Run(lib: Consensus, env: Environment, n: nat, a: Action): (t: seq<Action>)
    requires Consistent(a)
    ensures t != [] && t[0] == a
    decreases RoundsLeft(a)
  {
    if a.Done? then [a] else [a] + Run(lib, env, n + 1, Next(lib, a, env(n, a.tasks)))
  }

  predicate BroadcastsFinal(a: Action) {
    a.Fan? && exists i :: 0 <= i < |a.tasks| && a.tasks[i].Final?
  }

  /** What a fan-out can rely on; every round keeps it. */
  ghost predicate Sound(lib: Consensus, a: Action) {
    a.Fan? ==>
      var s := a.state;
      && (a.callback.OnAnswers? ==> a.tasks == Fanout(NODE_COUNT, StartNegotiation(s.slot, s.epoch, Alloc(s.target, s.target))) && s.proposal.None?)
      && (a.callback.OnOffers? ==> s.confirmedCount > 0 && s.proposal.None? && a.tasks == Fanout(s.confirmedCount, GetOffer(s.slot, s.epoch)))
      && (a.callback.OnAcks? ==>
            && s.confirmedCount > 0 && s.proposal.Some?
            && s.proposal.value == lib.propose(s.slot, s.epoch, OfferMapOf(s.offers), Alloc(s.target, s.target))
            && a.tasks == VerifyTasks(s, s.offers, s.proposal.value, lib.hashOf(s.proposal.value)))
      && (a.callback.OnCommitted? ==>
            && s.confirmedCount > 0 && s.proposal.Some?
            && (s.commit ==> TargetsMet(s.proposal.value, s.target))
            && a.tasks == Fanout(s.confirmedCount,
                                 if s.commit then Final(s.slot, s.epoch, s.proposal.value) else Abort(s.slot, s.epoch)))
  }

  lemma NextSound(lib: Consensus, a: Action, rs: seq<Reply>)
    requires a.Fan? && Consistent(a) && Sound(lib, a)
    ensures Sound(lib, Next(lib, a, rs))
    ensures Next(lib, a, rs).Fan? ==> Next(lib, a, rs).state.target == a.state.target && Next(lib, a, rs).state.maxEpochs == a.state.maxEpochs
  {
  }

  /** A run has at most four rounds for each of at most `max(1, maxEpochs)` epochs, and ends with its only report. */
  lemma {:induction false} RunEnds(lib: Consensus, env: Environment, n: nat, a: Action)
    requires Consistent(a)
    ensures var t := Run(lib, env, n, a);
            && |t| - 1 <= RoundsLeft(a)
            && t[|t| - 1].Done?
            && forall i :: 0 <= i < |t| - 1 ==> t[i].Fan?
    decreases RoundsLeft(a)
  {
    if a.Fan? { RunEnds(lib, env, n + 1, Next(lib, a, env(n, a.tasks))); }
  }

  /** Epochs never exceed the bound, whatever is answered. */
  lemma {:induction false} EpochsBounded(lib: Consensus, env: Environment, n: nat, a: Action, bound: int)
    requires Consistent(a) && a.Fan? && a.state.epoch <= bound && a.state.maxEpochs <= bound
    ensures forall i :: 0 <= i < |Run(lib, env, n, a)| && Run(lib, env, n, a)[i].Fan? ==> a.state.epoch <= Run(lib, env, n, a)[i].state.epoch <= bound
    decreases RoundsLeft(a)
  {
    var a' := Next(lib, a, env(n, a.tasks));
    if a'.Fan? { EpochsBounded(lib, env, n + 1, a', bound); }
  }

  /** FINAL is broadcast only in the last round, right before the success report with that very proposal and
      epoch, whose totals meet the target; and a success report only ever follows such a broadcast. */
  lemma {:induction false} FinalMeansSuccess(lib: Consensus, env: Environment, n: nat, a: Action, i: nat)
    requires Consistent(a) && Sound(lib, a) && a.Fan? && i < |Run(lib, env, n, a)|
    ensures var t := Run(lib, env, n, a);
            && (BroadcastsFinal(t[i]) ==>
                  && i + 2 == |t|
                  && t[i].state.proposal.Some?
                  && t[i + 1] == Done(Success(t[i].state.proposal.value, t[i].state.epoch))
                  && TargetsMet(t[i].state.proposal.value, a.state.target))
            && (t[i].Done? && t[i].report.Success? ==> i > 0 && BroadcastsFinal(t[i - 1]))
    decreases RoundsLeft(a)
  {
    var a' := Next(lib, a, env(n, a.tasks));
    NextSound(lib, a, env(n, a.tasks));
    if a.callback.OnCommitted? && a.state.commit {
      assert a.tasks[0].Final?;
    }
    if i > 0 && a'.Fan? {
      FinalMeansSuccess(lib, env, n + 1, a', i - 1);
    }
  }

  lemma FinalsMeanSuccess(lib: Consensus, env: Environment, a: Action, t: seq<Action>)
    requires Consistent(a) && Sound(lib, a) && a.Fan? && t == Run(lib, env, 0, a)
    ensures forall i :: 0 <= i < |t| && BroadcastsFinal(t[i]) ==>
              && i + 2 == |t| && t[i].state.proposal.Some?
              && t[i + 1] == Done(Success(t[i].state.proposal.value, t[i].state.epoch))
              && TargetsMet(t[i].state.proposal.value, a.state.target)
    ensures t[|t| - 1].Done? && t[|t| - 1].report.Success? ==> |t| > 1 && BroadcastsFinal(t[|t| - 2])
  {
    forall i | 0 <= i < |t| && BroadcastsFinal(t[i])
      ensures i + 2 == |t| && t[i].state.proposal.Some?
              && t[i + 1] == Done(Success(t[i].state.proposal.value, t[i].state.epoch))
              && TargetsMet(t[i].state.proposal.value, a.state.target)
    {
      FinalMeansSuccess(lib, env, 0, a, i);
    }
    FinalMeansSuccess(lib, env, 0, a, |t| - 1);
  }

  /** The proposal of the latest epoch before `epoch` that came to one. */
  function PartialBefore(t: seq<Action>, epoch: int): Option<Proposal> {
    if t == [] then None
    else
      var a := t[|t| - 1];
      if a.Fan? && a.callback.OnAcks? && a.state.epoch < epoch then a.state.proposal
      else PartialBefore(t[..|t| - 1], epoch)
  }

  predicate NoneAfter(t: seq<Action>, epoch: int) {
    forall i :: 0 <= i < |t| && t[i].Fan? ==> t[i].state.epoch <= epoch
  }

  lemma {:induction false} PartialSettled(t: seq<Action>, epoch: int, later: int)
    requires NoneAfter(t, epoch) && epoch < later
    ensures PartialBefore(t, later) == PartialBefore(t, epoch + 1)
    decreases |t|
  {
    if t != [] { PartialSettled(t[..|t| - 1], epoch, later); }
  }

  /** The history `before` of a run justifies what `a` carries along. */
  predicate Justified(before: seq<Action>, a: Action) {
    match a
    case Fan(_, callback, s) =>
      && NoneAfter(before, s.epoch)
      && s.bestPartial == PartialBefore(before, s.epoch)
      && (callback.OnAnswers? || callback.OnOffers? ==> s.proposal.None? && PartialBefore(before, s.epoch + 1) == s.bestPartial)
      && (callback.OnCommitted? ==> s.proposal.Some? && PartialBefore(before, s.epoch + 1) == s.proposal)
    case Done(report) =>
      report.Failure? ==>
        && report.partial == PartialBefore(before, report.totalEpochsAttempted)
        && report.insufficientAllocation == report.partial.Some?
  }

  lemma PartialGrows(before: seq<Action>, a: Action, epoch: int)
    ensures PartialBefore(before + [a], epoch) ==
              if a.Fan? && a.callback.OnAcks? && a.state.epoch < epoch then a.state.proposal else PartialBefore(before, epoch)
  {
    assert (before + [a])[..|before + [a]| - 1] == before;
  }

  lemma NoneAfterGrows(before: seq<Action>, a: Action, epoch: int)
    requires a.Fan? && NoneAfter(before, a.state.epoch) && a.state.epoch <= epoch
    ensures NoneAfter(before + [a], epoch)
  {
  }

  /** The next round of the same epoch, or its report. */
  lemma SameEpochJustified(before: seq<Action>, a: Action, a': Action)
    requires a.Fan? && Justified(before, a) && !a.callback.OnAcks?
    requires a'.Fan? && a'.state.epoch == a.state.epoch && a'.state.bestPartial == a.state.bestPartial
    requires !a'.callback.OnCommitted? && (!a'.callback.OnAcks? ==> a'.state.proposal.None? && !a.callback.OnCommitted?)
    ensures Justified(before + [a], a')
  {
    PartialGrows(before, a, a.state.epoch);
    PartialGrows(before, a, a.state.epoch + 1);
    NoneAfterGrows(before, a, a.state.epoch);
  }

  lemma AcksJustified(before: seq<Action>, a: Action, a': Action)
    requires a.Fan? && Justified(before, a) && a.callback.OnAcks? && a.state.proposal.Some?
    requires a'.Fan? && a'.callback.OnCommitted? && a'.state.epoch == a.state.epoch
    requires a'.state.bestPartial == a.state.bestPartial && a'.state.proposal == a.state.proposal
    ensures Justified(before + [a], a')
  {
    PartialGrows(before, a, a.state.epoch);
    PartialGrows(before, a, a.state.epoch + 1);
    NoneAfterGrows(before, a, a.state.epoch);
  }

  /** The end of an epoch, which carries its proposal on if it came to one. */
  lemma RetryJustified(before: seq<Action>, a: Action, s: State, result: Option<Proposal>)
    requires a.Fan? && Justified(before, a) && (a.callback.OnAnswers? || a.callback.OnCommitted?)
    requires s.epoch == a.state.epoch && s.bestPartial == a.state.bestPartial && s.proposal == a.state.proposal
    ensures Justified(before + [a], FinishOrRetry(s, result))
  {
    PartialGrows(before, a, s.epoch);
    PartialGrows(before, a, s.epoch + 1);
    PartialGrows(before, a, s.epoch + 2);
    PartialSettled(before, s.epoch, s.epoch + 2);
    NoneAfterGrows(before, a, s.epoch + 1);
  }

  lemma NextJustified(lib: Consensus, before: seq<Action>, a: Action, rs: seq<Reply>)
    requires a.Fan? && Consistent(a) && Justified(before, a)
    ensures Justified(before + [a], Next(lib, a, rs))
  {
    var s := a.state;
    match a.callback
    case OnAnswers =>
      if Count(rs, Confirmed) == 0 {
        RetryJustified(before, a, s.(confirmedCount := 0), None);
      } else {
        SameEpochJustified(before, a, Next(lib, a, rs));
      }
    case OnOffers => SameEpochJustified(before, a, Next(lib, a, rs));
    case OnAcks => AcksJustified(before, a, Next(lib, a, rs));
    case OnCommitted => RetryJustified(before, a, s, if s.commit then s.proposal else None);
  }

  lemma ShiftFirst(before: seq<Action>, a: Action, rest: seq<Action>)
    requires rest != []
    ensures var t := [a] + rest; before + t[..|t| - 1] == (before + [a]) + rest[..|rest| - 1]
  {
    assert ([a] + rest)[..|rest|] == [a] + rest[..|rest| - 1];
  }

  lemma {:induction false} RunJustified(lib: Consensus, env: Environment, n: nat, before: seq<Action>, a: Action)
    requires Consistent(a) && Justified(before, a)
    ensures var t := Run(lib, env, n, a);
            Justified(before + t[..|t| - 1], t[|t| - 1])
    decreases RoundsLeft(a)
  {
    var t := Run(lib, env, n, a);
    if a.Fan? {
      var a' := Next(lib, a, env(n, a.tasks));
      NextJustified(lib, before, a, env(n, a.tasks));
      RunJustified(lib, env, n + 1, before + [a], a');
      var rest := Run(lib, env, n + 1, a');
      ShiftFirst(before, a, rest);
    } else {
      assert before + t[..0] == before;
    }
  }

  lemma FailureReportsPartial(lib: Consensus, env: Environment, a: Action, t: seq<Action>)
    requires Consistent(a) && Justified([], a) && t == Run(lib, env, 0, a)
    ensures var last := |t| - 1;
            t[last].Done? && t[last].report.Failure? ==>
              t[last].report.partial == PartialBefore(t[..last], t[last].report.totalEpochsAttempted)
  {
    RunJustified(lib, env, 0, [], a);
    assert [] + t[..|t| - 1] == t[..|t| - 1];
  }

  /** The whole story of a run: bounded, FINAL at most once and exactly on success, success only with the target
      met; and a failure reports the latest proposal of an epoch before the last, never the last epoch's own. */
  lemma PhasedRun(lib: Consensus, env: Environment, slot: int, target: real, maxEpochs: int)
    ensures var t := Run(lib, env, 0, Begin(slot, target, maxEpochs));
            var last := |t| - 1;
            var epochs := if maxEpochs > 1 then maxEpochs else 1;
            && last <= 4 * epochs
            && t[last].Done? && (forall i :: 0 <= i < last ==> t[i].Fan? && 1 <= t[i].state.epoch <= epochs)
            && (forall i :: 0 <= i <= last && BroadcastsFinal(t[i]) ==>
                  && i + 1 == last && t[i].state.proposal.Some?
                  && t[last].report == Success(t[i].state.proposal.value, t[i].state.epoch)
                  && TargetsMet(t[i].state.proposal.value, target))
            && (t[last].report.Success? ==> last > 0 && BroadcastsFinal(t[last - 1]))
            && (t[last].report.Failure? ==>
                  t[last].report.partial == PartialBefore(t[..last], t[last].report.totalEpochsAttempted))
  {
    var a := Begin(slot, target, maxEpochs);
    var t := Run(lib, env, 0, a);
    RunEnds(lib, env, 0, a);
    EpochsBounded(lib, env, 0, a, if maxEpochs > 1 then maxEpochs else 1);
    FinalsMeanSuccess(lib, env, a, t);
    FailureReportsPartial(lib, env, a, t);
  }

  // ---- The participants ----

  /** One stateless participant invocation; `offer` is what it would draw. Verifying without an offer throws. */
  function Participant(lib: Consensus, p: Payload, offer: Offer): Reply {
    match p
    case StartNegotiation(_, _, _) => Confirmed
    case GetOffer(_, _) => Offered(offer)
    case Verify(_, _, myId, myOffer, r, hash) =>
      if lib.hashOf(r) != hash then Nack
      else if myOffer.None? then Failed
      else if IsAcceptable(AllocFor(r.allocations, myId), myOffer.value, r.prices) then Ack
      else Nack
    case Final(_, _, _) => Committed
    case Abort(_, _) => Aborted
  }

  lemma {:induction false} OfferMapDistinct(os: seq<Option<Offer>>)
    ensures DistinctIds(OfferMapOf(os))
    ensures forall i :: 0 <= i < |OfferMapOf(os)| ==>
              OfferMapOf(os)[i].0 < |os| && os[OfferMapOf(os)[i].0] == Some(OfferMapOf(os)[i].1)
    decreases |os|
  {
    if os != [] {
      OfferMapDistinct(os[..|os| - 1]);
    }
  }

  lemma {:induction false} OfferIsInMap(os: seq<Option<Offer>>, i: nat) returns (k: nat)
    requires i < |os| && os[i].Some?
    ensures k < |OfferMapOf(os)| && OfferMapOf(os)[k] == (i, os[i].value)
    decreases |os|
  {
    if i == |os| - 1 {
      k := |OfferMapOf(os)| - 1;
    } else {
      k := OfferIsInMap(os[..|os| - 1], i);
    }
  }

  lemma OwnAllocationAcceptable(lib: Consensus, s: State, os: seq<Option<Offer>>, i: nat, r: Proposal)
    requires Clears(lib) && i < |os| && os[i].Some?
    requires r == lib.propose(s.slot, s.epoch, OfferMapOf(os), Alloc(s.target, s.target))
    ensures IsAcceptable(AllocFor(r.allocations, i), os[i].value, r.prices) <==>
              os[i].value.upMax >= -EPS && os[i].value.downMax >= -EPS
  {
    OfferMapDistinct(os);
    assert ClearsAt(lib, s.slot, s.epoch, OfferMapOf(os), Alloc(s.target, s.target));
    var k := OfferIsInMap(os, i);
    ProposalAcceptable(s.slot, s.epoch, OfferMapOf(os), Alloc(s.target, s.target), lib.hashOffers, k);
    AllocForAt(r.allocations, k);
  }

  lemma AckMeansAcceptable(lib: Consensus, slot: int, epoch: int, i: Id, offer: Option<Offer>, r: Proposal, own: Offer)
    ensures Participant(lib, Verify(slot, epoch, i, offer, r, lib.hashOf(r)), own) == Ack <==>
              offer.Some? && IsAcceptable(AllocFor(r.allocations, i), offer.value, r.prices)
  {
  }

  /** Whatever proposal it is sent, a participant acknowledges it exactly when it matches its digest, the own offer
      is there, and what is allocated under its name can be borne with that offer. */
  lemma AcksExactly(lib: Consensus, slot: int, epoch: int, i: Id, mine: Option<Offer>, r: Proposal, hash: Digest, own: Offer)
      returns (share: Alloc)
    ensures HoldsFor(r.allocations, i, share)
    ensures Participant(lib, Verify(slot, epoch, i, mine, r, hash), own) == Ack <==>
              hash == lib.hashOf(r) && mine.Some? && Bearable(share, mine.value, r.prices)
  {
    share := AllocFor(r.allocations, i);
    AllocForHolds(r.allocations, i);
    if mine.Some? { AcceptableIsBearable(share, mine.value, r.prices); }
  }

  /** A participant acknowledges exactly when its offer is present with maxima that are not negative. */
  lemma VerifyReply(lib: Consensus, s: State, os: seq<Option<Offer>>, i: nat, r: Proposal, own: Offer)
    requires Clears(lib) && i < |os| && r == lib.propose(s.slot, s.epoch, OfferMapOf(os), Alloc(s.target, s.target))
    ensures Participant(lib, Verify(s.slot, s.epoch, i, os[i], r, lib.hashOf(r)), own) == Ack <==>
              os[i].Some? && os[i].value.upMax >= -EPS && os[i].value.downMax >= -EPS
  {
    AckMeansAcceptable(lib, s.slot, s.epoch, i, os[i], r, own);
    if os[i].Some? { OwnAllocationAcceptable(lib, s, os, i, r); }
  }

  lemma {:induction false} CountAll(rs: seq<Reply>, kind: Reply)
    ensures Count(rs, kind) <= |rs|
    ensures Count(rs, kind) == |rs| <==> forall i :: 0 <= i < |rs| ==> rs[i] == kind
    decreases |rs|
  {
    if rs != [] {
      var n := |rs| - 1;
      CountAll(rs[..n], kind);
      assert forall i :: 0 <= i < n ==> rs[..n][i] == rs[i];
      assert (forall i :: 0 <= i < |rs| ==> rs[i] == kind) <==> (rs[n] == kind && forall i :: 0 <= i < n ==> rs[..n][i] == kind);
    }
  }

  predicate Offering(o: Option<Offer>) {
    o.Some? && o.value.upMax >= -EPS && o.value.downMax >= -EPS
  }

  /** Everybody has made a usable offer, and these clear to totals less than 0.1 away from the target. */
  predicate Deal(os: seq<Option<Offer>>, target: real) {
    var up := ClearedOf(OfferMapOf(os), Alloc(target, target), Up).acceptedTotal;
    var down := ClearedOf(OfferMapOf(os), Alloc(target, target), Down).acceptedTotal;
    && (forall i :: 0 <= i < |os| ==> Offering(os[i]))
    && -0.1 < up - target < 0.1 && -0.1 < down - target < 0.1
  }

  /** What real participants answer to the proposal `r` for the offers `os`. */
  predicate RealVotes(lib: Consensus, s: State, os: seq<Option<Offer>>, r: Proposal, votes: seq<Reply>, own: seq<Offer>) {
    && |votes| == |os| == |own|
    && forall i :: 0 <= i < |votes| ==>
         votes[i] == Participant(lib, Verify(s.slot, s.epoch, i, os[i], r, lib.hashOf(r)), own[i])
  }

  /** With real participants an epoch commits exactly when its offers make a deal. */
  lemma CommitIffDeal(lib: Consensus, s: State, r: Proposal, votes: seq<Reply>, own: seq<Offer>)
    requires Clears(lib) && s.proposal == Some(r) && |s.offers| == s.confirmedCount
    requires r == lib.propose(s.slot, s.epoch, OfferMapOf(s.offers), Alloc(s.target, s.target))
    requires RealVotes(lib, s, s.offers, r, votes, own)
    ensures AfterAcks(s, votes).state.commit <==> Deal(s.offers, s.target)
  {
    forall i | 0 <= i < |votes| ensures votes[i] == Ack <==> Offering(s.offers[i]) {
      VerifyReply(lib, s, s.offers, i, r, own[i]);
    }
    CountAll(votes, Ack);
    OfferMapDistinct(s.offers);
    assert ClearsAt(lib, s.slot, s.epoch, OfferMapOf(s.offers), Alloc(s.target, s.target));
    ProposalTotals(s.slot, s.epoch, OfferMapOf(s.offers), Alloc(s.target, s.target), lib.hashOffers);
  }

  /** With real participants a round commits exactly when every confirmed participant made a usable offer and
      the accepted totals are within the tolerance of the target. */
  lemma CommitDependsOnTotals(lib: Consensus, s: State, rs: seq<Reply>, own: seq<Offer>)
    requires Clears(lib) && |rs| == s.confirmedCount == |own| && s.confirmedCount > 0
    ensures var verify := AfterOffers(lib, s, rs);
            var replies := seq(|rs|, i requires 0 <= i < |rs| => Participant(lib, verify.tasks[i], own[i]));
            AfterAcks(verify.state, replies).state.commit <==> Deal(OffersOf(rs), s.target)
  {
    var verify := AfterOffers(lib, s, rs);
    var replies := seq(|rs|, i requires 0 <= i < |rs| => Participant(lib, verify.tasks[i], own[i]));
    CommitIffDeal(lib, verify.state, verify.state.proposal.value, replies, own);
  }
}
