// The epochs of a phased negotiation: each is opened once, in order, none is given up too early, and
// with real participants the first that comes to a deal is the last.
module PhasedEpochs {
  import opened Wrappers
  import opened Clearing
  import opened PhasedCoordinator

  /** A round that asks who takes part. */
  predicate Opens(a: Action) {
    a.Fan? && a.tasks != [] && a.tasks[0].StartNegotiation?
  }

  /** The epochs named by the opening rounds of a run, in their order. */
  function Opened(t: seq<Action>): seq<int> {
    if t == [] then []
    else (if Opens(t[0]) then [t[0].tasks[0].epoch] else []) + Opened(t[1..])
  }

  function Interval(first: int, last: int): seq<int>
    decreases last - first
  {
    if first > last then [] else [first] + Interval(first + 1, last)
  }

  function ReportedEpoch(r: Report): int {
    match r
    case Success(_, epoch) => epoch
    case Failure(_, _, epoch) => epoch
  }

  // ---- From one round to the next ----

  /** `b` comes right after the round `a`: a later phase of the same epoch, the opening of the next, or the report. */
  predicate Follows(a: Action, b: Action) {
    && a.Fan?
    && (Opens(a) <==> a.callback.OnAnswers?) && (Opens(a) ==> a.tasks[0].epoch == a.state.epoch)
    && match b
       case Fan(_, callback, s) =>
         && s.slot == a.state.slot && s.target == a.state.target && s.maxEpochs == a.state.maxEpochs
         && if callback.OnAnswers? then s.epoch == a.state.epoch + 1 <= s.maxEpochs
            else s.epoch == a.state.epoch && PhasesLeft(callback) < PhasesLeft(a.callback)
       case Done(r) =>
         ReportedEpoch(r) == a.state.epoch && (r.Failure? ==> a.state.epoch >= a.state.maxEpochs)
  }

  predicate Goes(lib: Consensus, a: Action, rs: seq<Reply>, b: Action) {
    a.Fan? && Consistent(a) && b == Next(lib, a, rs)
  }

  lemma OpensIffAnswers(lib: Consensus, a: Action)
    requires a.Fan? && Sound(lib, a)
    ensures Opens(a) <==> a.callback.OnAnswers?
    ensures Opens(a) ==> a.tasks[0].epoch == a.state.epoch
  {
  }

  lemma NextFollows(lib: Consensus, a: Action, rs: seq<Reply>, b: Action)
    requires Sound(lib, a) && Goes(lib, a, rs, b)
    ensures Follows(a, b)
  {
    OpensIffAnswers(lib, a);
  }

  lemma GoesSound(lib: Consensus, a: Action, rs: seq<Reply>, b: Action)
    requires Sound(lib, a) && Goes(lib, a, rs, b)
    ensures Sound(lib, b) && Consistent(b)
  {
    NextSound(lib, a, rs);
  }

  lemma {:induction false} RunGoes(lib: Consensus, env: Environment, n: nat, a: Action, t: seq<Action>, i: nat)
    requires Consistent(a) && t == Run(lib, env, n, a) && i + 1 < |t|
    ensures t[i].Fan? && Goes(lib, t[i], env(n + i, t[i].tasks), t[i + 1])
    decreases i
  {
    if i > 0 {
      var rest := Run(lib, env, n + 1, Next(lib, a, env(n, a.tasks)));
      assert t[1..] == rest;
      RunGoes(lib, env, n + 1, rest[0], rest, i - 1);
      assert t[i] == rest[i - 1] && t[i + 1] == rest[i];
    } else {
      assert t[1..] == Run(lib, env, n + 1, Next(lib, a, env(n, a.tasks)));
    }
  }

  lemma {:induction false} RunSound(lib: Consensus, env: Environment, a: Action, t: seq<Action>, i: nat)
    requires Consistent(a) && Sound(lib, a) && t == Run(lib, env, 0, a) && i < |t|
    ensures Sound(lib, t[i])
    decreases i
  {
    if i > 0 {
      RunSound(lib, env, a, t, i - 1);
      RunGoes(lib, env, 0, a, t, i - 1);
      GoesSound(lib, t[i - 1], env(i - 1, t[i - 1].tasks), t[i]);
    }
  }

  /** A finished negotiation, told by what follows what. */
  predicate Trail(t: seq<Action>) {
    t != [] && t[|t| - 1].Done? && forall i :: 0 <= i < |t| - 1 ==> Follows(t[i], t[i + 1])
  }

  lemma RunIsTrail(lib: Consensus, env: Environment, a: Action, t: seq<Action>)
    requires Consistent(a) && Sound(lib, a) && t == Run(lib, env, 0, a)
    ensures Trail(t)
  {
    RunEnds(lib, env, 0, a);
    forall i | 0 <= i < |t| - 1 ensures Follows(t[i], t[i + 1]) {
      RunSound(lib, env, a, t, i);
      RunGoes(lib, env, 0, a, t, i);
      NextFollows(lib, t[i], env(i, t[i].tasks), t[i + 1]);
    }
  }

  // ---- Every epoch is opened ----

  lemma {:induction false} OpenedFrom(t: seq<Action>)
    requires Trail(t) && |t| > 1
    ensures var a, r := t[0], t[|t| - 1].report;
            var last := ReportedEpoch(r);
            && a.Fan? && a.state.epoch <= last && (last == a.state.epoch || last <= a.state.maxEpochs)
            && (r.Failure? ==> last >= a.state.maxEpochs)
            && Opened(t) == Interval(if a.callback.OnAnswers? then a.state.epoch else a.state.epoch + 1, last)
    decreases |t|
  {
    var rest := t[1..];
    assert Follows(t[0], t[1]);
    if |t| > 2 {
      forall i | 0 <= i < |rest| - 1 ensures Follows(rest[i], rest[i + 1]) {
        assert Follows(t[i + 1], t[i + 2]);
      }
      OpenedFrom(rest);
    } else {
      assert rest == [t[1]] && rest[1..] == [];
      assert Opened(rest) == [];
    }
  }

  /** A run opens exactly the epochs from 1 to the one it reports, each once and in order. It fails only after
      `max(1, maxEpochs)` of them, and never goes beyond. */
  lemma EveryEpochIsTried(lib: Consensus, env: Environment, slot: int, target: real, maxEpochs: int, t: seq<Action>)
    requires t == Run(lib, env, 0, Begin(slot, target, maxEpochs))
    ensures t[|t| - 1].Done?
    ensures var epochs := if maxEpochs > 1 then maxEpochs else 1;
            var last := ReportedEpoch(t[|t| - 1].report);
            && Opened(t) == Interval(1, last) && 1 <= last <= epochs
            && (t[|t| - 1].report.Failure? ==> t[|t| - 1].report.totalEpochsAttempted == epochs)
  {
    RunIsTrail(lib, env, Begin(slot, target, maxEpochs), t);
    OpenedFrom(t);
  }

  lemma {:induction false} InInterval(first: int, last: int, e: int)
    ensures e in Interval(first, last) <==> first <= e <= last
    decreases last - first
  {
    if first <= last { InInterval(first + 1, last, e); }
  }

  predicate FinalIn(t: seq<Action>, e: int) {
    exists i :: 0 <= i < |t| && t[i].Fan? && t[i].state.epoch == e && BroadcastsFinal(t[i])
  }

  /** An epoch below `maxEpochs` that is opened and ends without FINAL is followed by the next one. */
  lemma FollowedByNext(lib: Consensus, env: Environment, slot: int, target: real, maxEpochs: int, t: seq<Action>, e: int)
    requires t == Run(lib, env, 0, Begin(slot, target, maxEpochs))
    requires e in Opened(t) && e < maxEpochs && !FinalIn(t, e)
    ensures e + 1 in Opened(t)
  {
    var last := |t| - 1;
    EveryEpochIsTried(lib, env, slot, target, maxEpochs, t);
    PhasedRun(lib, env, slot, target, maxEpochs);
    InInterval(1, ReportedEpoch(t[last].report), e);
    InInterval(1, ReportedEpoch(t[last].report), e + 1);
    if t[last].report.Success? {
      assert BroadcastsFinal(t[last - 1]) && t[last - 1].Fan?;
      assert t[last - 1].state.epoch == ReportedEpoch(t[last].report);
    }
  }

  predicate Later(a: Action, b: Action) {
    && a.Fan? && b.Fan?
    && (a.state.epoch < b.state.epoch || (a.state.epoch == b.state.epoch && PhasesLeft(b.callback) < PhasesLeft(a.callback)))
    && a.state.slot == b.state.slot && a.state.target == b.state.target && a.state.maxEpochs == b.state.maxEpochs
  }

  /** Rounds only ever go on to a later phase or a later epoch, with slot, target and `maxEpochs` unchanged. */
  lemma {:induction false} RoundsAdvance(t: seq<Action>, i: nat, j: nat)
    requires Trail(t) && i < j < |t| && t[j].Fan?
    ensures Later(t[i], t[j])
    decreases j
  {
    assert Follows(t[j - 1], t[j]);
    if i < j - 1 { RoundsAdvance(t, i, j - 1); }
  }

  /** Every opening round asks all five nodes, for its own epoch and the run's slot and target. */
  lemma OpeningsAskAll(lib: Consensus, env: Environment, slot: int, target: real, maxEpochs: int, t: seq<Action>, i: nat)
    requires t == Run(lib, env, 0, Begin(slot, target, maxEpochs)) && i < |t| && Opens(t[i])
    ensures |t[i].tasks| == 5
    ensures forall k :: 0 <= k < 5 ==> t[i].tasks[k] == StartNegotiation(slot, t[i].state.epoch, Alloc(target, target))
  {
    var a := Begin(slot, target, maxEpochs);
    RunIsTrail(lib, env, a, t);
    RunSound(lib, env, a, t, i);
    OpensIffAnswers(lib, t[i]);
    if i > 0 { RoundsAdvance(t, 0, i); }
  }

  // ---- With real participants ----

  /** Participants answer every message, and verify proposals as the program does. */
  ghost predicate RealParticipants(lib: Consensus, env: Environment, own: Offer) {
    forall n: nat, tasks: seq<Payload> {:trigger env(n, tasks)} ::
      |env(n, tasks)| == |tasks| &&
      forall i :: 0 <= i < |tasks| && tasks[i].Verify? ==> env(n, tasks)[i] == Participant(lib, tasks[i], own)
  }

  /** For instance five participants that always draw the same offer. */
  lemma ParticipantsExist(lib: Consensus, own: Offer)
    ensures RealParticipants(lib, (n: nat, tasks: seq<Payload>) => seq(|tasks|, i requires 0 <= i < |tasks| => Participant(lib, tasks[i], own)), own)
  {
  }

  lemma OffersAreCounted(lib: Consensus, a: Action, rs: seq<Reply>, b: Action)
    requires Sound(lib, a) && Goes(lib, a, rs, b) && |rs| == |a.tasks| && b.Fan? && b.callback.OnAcks?
    ensures |b.state.offers| == b.state.confirmedCount
  {
  }

  lemma VotesAreReal(lib: Consensus, env: Environment, a: Action, n: nat, own: Offer, owns: seq<Offer>)
    requires a.Fan? && a.callback.OnAcks? && Sound(lib, a) && RealParticipants(lib, env, own)
    requires owns == seq(|a.state.offers|, _ => own)
    ensures RealVotes(lib, a.state, a.state.offers, a.state.proposal.value, env(n, a.tasks), owns)
  {
  }

  lemma FinalIffCommit(lib: Consensus, a: Action)
    requires a.Fan? && a.callback.OnCommitted? && Sound(lib, a)
    ensures BroadcastsFinal(a) <==> a.state.commit
  {
    if a.state.commit { assert a.tasks[0].Final?; }
  }

  /** The round after the votes is FINAL exactly when the offers of the epoch make a deal. */
  lemma DealIsFinal(lib: Consensus, env: Environment, n: nat, a: Action, b: Action, own: Offer)
    requires Clears(lib) && a.Fan? && a.callback.OnAcks? && Sound(lib, a) && Sound(lib, b) && RealParticipants(lib, env, own)
    requires Goes(lib, a, env(n, a.tasks), b) && |a.state.offers| == a.state.confirmedCount
    ensures b.Fan? && b.callback.OnCommitted? && b.state.epoch == a.state.epoch
    ensures BroadcastsFinal(b) <==> Deal(a.state.offers, a.state.target)
  {
    var owns := seq(|a.state.offers|, _ => own);
    VotesAreReal(lib, env, a, n, own, owns);
    CommitIffDeal(lib, a.state, a.state.proposal.value, env(n, a.tasks), owns);
    FinalIffCommit(lib, b);
  }

  lemma OffersAreCountedAt(lib: Consensus, env: Environment, a: Action, t: seq<Action>, i: nat, own: Offer)
    requires Consistent(a) && Sound(lib, a) && t == Run(lib, env, 0, a) && RealParticipants(lib, env, own)
    requires 0 < i < |t| && t[i].Fan? && t[i].callback.OnAcks?
    ensures |t[i].state.offers| == t[i].state.confirmedCount
  {
    RunSound(lib, env, a, t, i - 1);
    RunGoes(lib, env, 0, a, t, i - 1);
    OffersAreCounted(lib, t[i - 1], env(i - 1, t[i - 1].tasks), t[i]);
  }

  lemma RunGoesSound(lib: Consensus, env: Environment, a: Action, t: seq<Action>, i: nat, b: Action, b': Action)
    requires Consistent(a) && Sound(lib, a) && t == Run(lib, env, 0, a) && i + 1 < |t| && b == t[i] && b' == t[i + 1]
    ensures b.Fan? && Sound(lib, b) && Sound(lib, b') && Goes(lib, b, env(i, b.tasks), b')
  {
    RunSound(lib, env, a, t, i);
    RunSound(lib, env, a, t, i + 1);
    RunGoes(lib, env, 0, a, t, i);
  }

  lemma VotingRound(lib: Consensus, env: Environment, a: Action, t: seq<Action>, i: nat, own: Offer, b: Action, b': Action)
    requires Clears(lib) && Consistent(a) && Sound(lib, a) && t == Run(lib, env, 0, a) && RealParticipants(lib, env, own)
    requires 0 < i && i + 1 < |t| && b == t[i] && b' == t[i + 1] && b.Fan? && b.callback.OnAcks?
    ensures b'.Fan? && b'.callback.OnCommitted? && b'.state.epoch == b.state.epoch
    ensures BroadcastsFinal(b') <==> Deal(b.state.offers, b.state.target)
  {
    OffersAreCountedAt(lib, env, a, t, i, own);
    RunGoesSound(lib, env, a, t, i, b, b');
    DealIsFinal(lib, env, i, b, b', own);
  }

  lemma OneRoundPerPhase(t: seq<Action>, i: nat, j: nat)
    requires Trail(t) && i < |t| && j < |t| && t[i].Fan? && t[j].Fan?
    requires t[i].state.epoch == t[j].state.epoch && t[i].callback == t[j].callback
    ensures i == j
  {
    if i < j { RoundsAdvance(t, i, j); }
    if j < i { RoundsAdvance(t, j, i); }
  }

  lemma FinalIsCommitted(lib: Consensus, a: Action)
    requires Sound(lib, a) && BroadcastsFinal(a)
    ensures a.callback.OnCommitted?
  {
  }

  lemma FinalThenSuccess(lib: Consensus, env: Environment, slot: int, target: real, maxEpochs: int, t: seq<Action>, j: nat)
    requires t == Run(lib, env, 0, Begin(slot, target, maxEpochs)) && j < |t| && t[j].Fan? && BroadcastsFinal(t[j])
    ensures t[|t| - 1].Done? && t[|t| - 1].report.Success? && t[|t| - 1].report.epochsNeeded == t[j].state.epoch
  {
    PhasedRun(lib, env, slot, target, maxEpochs);
  }

  lemma SuccessAfterFinal(lib: Consensus, env: Environment, slot: int, target: real, maxEpochs: int, t: seq<Action>)
    requires t == Run(lib, env, 0, Begin(slot, target, maxEpochs)) && t[|t| - 1].Done? && t[|t| - 1].report.Success?
    ensures |t| > 1 && t[|t| - 2].Fan? && t[|t| - 2].callback.OnCommitted? && BroadcastsFinal(t[|t| - 2])
    ensures t[|t| - 1].report.epochsNeeded == t[|t| - 2].state.epoch
  {
    PhasedRun(lib, env, slot, target, maxEpochs);
    RunSound(lib, env, Begin(slot, target, maxEpochs), t, |t| - 2);
    FinalIsCommitted(lib, t[|t| - 2]);
  }

  /** With real participants success is reported at the first epoch whose offers make a deal: an epoch that comes to
      votes makes a deal if and only if it is the one reported as a success. */
  lemma SuccessAtFirstDeal(lib: Consensus, env: Environment, slot: int, target: real, maxEpochs: int, t: seq<Action>, i: nat, own: Offer)
    requires Clears(lib) && t == Run(lib, env, 0, Begin(slot, target, maxEpochs)) && RealParticipants(lib, env, own)
    requires i < |t| && t[i].Fan? && t[i].callback.OnAcks?
    ensures t[|t| - 1].Done?
    ensures Deal(t[i].state.offers, target) <==>
              t[|t| - 1].report.Success? && t[|t| - 1].report.epochsNeeded == t[i].state.epoch
  {
    var a, last := Begin(slot, target, maxEpochs), |t| - 1;
    RunIsTrail(lib, env, a, t);
    VotingRound(lib, env, a, t, i, own, t[i], t[i + 1]);
    RoundsAdvance(t, 0, i);
    if BroadcastsFinal(t[i + 1]) {
      FinalThenSuccess(lib, env, slot, target, maxEpochs, t, i + 1);
    } else if t[last].report.Success? && t[last].report.epochsNeeded == t[i].state.epoch {
      SuccessAfterFinal(lib, env, slot, target, maxEpochs, t);
      OneRoundPerPhase(t, i + 1, last - 1);
    }
  }
}
