// Phased negotiations with five real participants: what they draw decides everything.
module PhasedOutcome {
  import opened Wrappers
  import opened Clearing
  import opened PhasedCoordinator
  import opened PhasedEpochs

  /** What a participant would draw if asked in a certain round. */
  type Draws = (nat, nat) -> Offer

  /** Everybody answers every message as the program does. */
  ghost predicate AllReal(lib: Consensus, env: Environment, draw: Draws) {
    forall n: nat, tasks: seq<Payload> {:trigger env(n, tasks)} ::
      |env(n, tasks)| == |tasks| &&
      forall k: nat :: k < |tasks| ==> env(n, tasks)[k] == Participant(lib, tasks[k], draw(n, k))
  }

  /** Whatever is drawn, there are such participants. */
  lemma RealParticipantsFor(lib: Consensus, draw: Draws) returns (env: Environment)
    ensures AllReal(lib, env, draw)
  {
    env := (n: nat, tasks: seq<Payload>) => seq(|tasks|, k requires 0 <= k < |tasks| => Participant(lib, tasks[k], draw(n, k)));
  }

  /** The offers drawn in round `n`. */
  function DrawnIn(draw: Draws, n: nat): (os: seq<Option<Offer>>)
    ensures |os| == 5 && forall k: nat :: k < 5 ==> os[k] == Some(draw(n, k))
  {
    seq(5, k requires 0 <= k < 5 => Some(draw(n, k)))
  }

  /** The offers drawn in epoch `e`, whose four rounds come after those of the epochs before. */
  function Drawn(draw: Draws, e: nat): seq<Option<Offer>>
    requires e >= 1
  {
    DrawnIn(draw, 4 * (e - 1) + 1)
  }

  predicate SameEpoch(a: State, b: State) {
    b.epoch == a.epoch && b.slot == a.slot && b.target == a.target && b.maxEpochs == a.maxEpochs
  }

  lemma AllConfirm(lib: Consensus, env: Environment, draw: Draws, n: nat, a: Action, b: Action)
    requires AllReal(lib, env, draw) && a.Fan? && a.callback.OnAnswers? && Sound(lib, a) && Goes(lib, a, env(n, a.tasks), b)
    ensures b.Fan? && b.callback.OnOffers? && SameEpoch(a.state, b.state) && b.state.confirmedCount == 5
  {
    CountAll(env(n, a.tasks), Confirmed);
  }

  lemma AllOffer(lib: Consensus, env: Environment, draw: Draws, n: nat, a: Action, b: Action)
    requires AllReal(lib, env, draw) && a.Fan? && a.callback.OnOffers? && Sound(lib, a) && Goes(lib, a, env(n, a.tasks), b)
    requires a.state.confirmedCount == 5
    ensures b.Fan? && b.callback.OnAcks? && SameEpoch(a.state, b.state) && b.state.confirmedCount == 5
    ensures b.state.offers == DrawnIn(draw, n)
  {
    assert OffersOf(env(n, a.tasks)) == DrawnIn(draw, n);
  }

  lemma VerdictIsDeal(lib: Consensus, env: Environment, draw: Draws, n: nat, a: Action, b: Action)
    requires Clears(lib) && AllReal(lib, env, draw)
    requires a.Fan? && a.callback.OnAcks? && Sound(lib, a) && Goes(lib, a, env(n, a.tasks), b)
    requires |a.state.offers| == a.state.confirmedCount == 5
    ensures b.Fan? && b.callback.OnCommitted? && SameEpoch(a.state, b.state) && b.state.confirmedCount == 5
    ensures b.state.proposal == a.state.proposal && (b.state.commit <==> Deal(a.state.offers, a.state.target))
  {
    var own := seq(5, k requires 0 <= k < 5 => draw(n, k));
    assert RealVotes(lib, a.state, a.state.offers, a.state.proposal.value, env(n, a.tasks), own);
    CommitIffDeal(lib, a.state, a.state.proposal.value, env(n, a.tasks), own);
  }

  /** All five commit, or all five abort. */
  lemma VerdictIsTaken(lib: Consensus, env: Environment, draw: Draws, n: nat, a: Action)
    requires AllReal(lib, env, draw) && a.Fan? && a.callback.OnCommitted? && Sound(lib, a) && a.state.confirmedCount == 5
    ensures |env(n, a.tasks)| == 5
    ensures forall k: nat :: k < 5 ==> env(n, a.tasks)[k] == if a.state.commit then Committed else Aborted
  {
  }

  /** `e` is opened in round `i`, for the run's own slot, target and bound. */
  predicate OpensEpoch(a: Action, slot: int, target: real, maxEpochs: int, e: nat) {
    && a.Fan? && a.callback.OnAnswers?
    && a.state.epoch == e && a.state.slot == slot && a.state.target == target && a.state.maxEpochs == maxEpochs
  }

  /** What comes after the four rounds of epoch `e`. */
  predicate EpochEnds(lib: Consensus, b: Action, slot: int, target: real, maxEpochs: int, e: nat, os: seq<Option<Offer>>) {
    if Deal(os, target) then
      b == Done(Success(lib.propose(slot, e, OfferMapOf(os), Alloc(target, target)), e))
    else if e >= maxEpochs then
      b.Done? && b.report.Failure? && b.report.totalEpochsAttempted == e
    else
      OpensEpoch(b, slot, target, maxEpochs, e + 1)
  }

  lemma LastRound(lib: Consensus, c: Action, d: Action, rs: seq<Reply>, slot: int, target: real, maxEpochs: int, e: nat, os: seq<Option<Offer>>)
    requires c.Fan? && c.callback.OnCommitted? && Goes(lib, c, rs, d)
    requires c.state.epoch == e && c.state.slot == slot && c.state.target == target && c.state.maxEpochs == maxEpochs
    requires c.state.proposal == Some(lib.propose(slot, e, OfferMapOf(os), Alloc(target, target)))
    requires c.state.commit <==> Deal(os, target)
    ensures EpochEnds(lib, d, slot, target, maxEpochs, e, os)
  {
  }

  /** The four rounds of an epoch: all confirm, all offer what they draw, all get the verdict that their offers
      make a deal or not, and that decides how it goes on. */
  lemma RealEpoch(lib: Consensus, env: Environment, draw: Draws, a: Action, t: seq<Action>, i: nat, e: nat,
                  slot: int, target: real, maxEpochs: int)
    requires Clears(lib) && AllReal(lib, env, draw) && Consistent(a) && Sound(lib, a) && t == Run(lib, env, 0, a)
    requires i < |t| && OpensEpoch(t[i], slot, target, maxEpochs, e)
    ensures i + 4 < |t| && t[i + 3].Fan?
    ensures var replies := env(i + 3, t[i + 3].tasks);
            var verdict := if Deal(DrawnIn(draw, i + 1), target) then Committed else Aborted;
            |replies| == 5 && forall k :: 0 <= k < 5 ==> replies[k] == verdict
    ensures EpochEnds(lib, t[i + 4], slot, target, maxEpochs, e, DrawnIn(draw, i + 1))
  {
    RunIsTrail(lib, env, a, t);
    RunGoesSound(lib, env, a, t, i, t[i], t[i + 1]);
    AllConfirm(lib, env, draw, i, t[i], t[i + 1]);
    RunGoesSound(lib, env, a, t, i + 1, t[i + 1], t[i + 2]);
    AllOffer(lib, env, draw, i + 1, t[i + 1], t[i + 2]);
    RunGoesSound(lib, env, a, t, i + 2, t[i + 2], t[i + 3]);
    VerdictIsDeal(lib, env, draw, i + 2, t[i + 2], t[i + 3]);
    RunGoesSound(lib, env, a, t, i + 3, t[i + 3], t[i + 4]);
    VerdictIsTaken(lib, env, draw, i + 3, t[i + 3]);
    LastRound(lib, t[i + 3], t[i + 4], env(i + 3, t[i + 3].tasks), slot, target, maxEpochs, e, DrawnIn(draw, i + 1));
  }

  predicate NoDealIn(draw: Draws, target: real, first: nat, last: nat)
    requires first >= 1
  {
    forall e: nat :: first <= e < last ==> !Deal(Drawn(draw, e), target)
  }

  /** The report of epoch `last`, by what was drawn in it. */
  predicate ReportFits(lib: Consensus, slot: int, target: real, r: Report, last: nat, os: seq<Option<Offer>>) {
    match r
    case Success(result, epochs) =>
      epochs == last && Deal(os, target) && result == lib.propose(slot, last, OfferMapOf(os), Alloc(target, target))
    case Failure(_, _, epochs) =>
      epochs == last && !Deal(os, target)
  }

  /** `r` is the report after `n` rounds, told from the draws from epoch `e` on. */
  predicate Decided(lib: Consensus, draw: Draws, slot: int, target: real, maxEpochs: int, e: nat, r: Report, n: nat)
    requires e >= 1
  {
    var last := ReportedEpoch(r);
    var bound := if maxEpochs > e then maxEpochs else e;
    && e <= last <= bound && n == 4 * last
    && NoDealIn(draw, target, e, last)
    && ReportFits(lib, slot, target, r, last, Drawn(draw, last))
    && (r.Failure? ==> last == bound)
  }

  lemma DecidedNow(lib: Consensus, draw: Draws, slot: int, target: real, maxEpochs: int, e: nat, b: Action)
    requires e >= 1 && EpochEnds(lib, b, slot, target, maxEpochs, e, Drawn(draw, e)) && b.Done?
    ensures Decided(lib, draw, slot, target, maxEpochs, e, b.report, 4 * e)
  {
  }

  lemma NoDealYet(draw: Draws, target: real, e: nat, last: nat)
    requires e >= 1 && !Deal(Drawn(draw, e), target) && NoDealIn(draw, target, e + 1, last)
    ensures NoDealIn(draw, target, e, last)
  {
    forall d: nat | e <= d < last ensures !Deal(Drawn(draw, d), target) {
      if d > e { assert e + 1 <= d < last; }
    }
  }

  lemma GoesOn(lib: Consensus, slot: int, target: real, maxEpochs: int, e: nat, b: Action, os: seq<Option<Offer>>)
    requires EpochEnds(lib, b, slot, target, maxEpochs, e, os) && b.Fan?
    ensures !Deal(os, target) && e < maxEpochs && OpensEpoch(b, slot, target, maxEpochs, e + 1)
  {
  }

  lemma DecidedLater(lib: Consensus, draw: Draws, slot: int, target: real, maxEpochs: int, e: nat, r: Report, n: nat)
    requires e >= 1 && e < maxEpochs && !Deal(Drawn(draw, e), target)
    requires Decided(lib, draw, slot, target, maxEpochs, e + 1, r, n)
    ensures Decided(lib, draw, slot, target, maxEpochs, e, r, n)
  {
    NoDealYet(draw, target, e, ReportedEpoch(r));
  }

  /** If `t` opens epoch `e` where it should, it ends that epoch four rounds later as its draws have it. */
  ghost predicate Paced(lib: Consensus, draw: Draws, t: seq<Action>, slot: int, target: real, maxEpochs: int, e: nat)
    requires e >= 1
  {
    4 * (e - 1) < |t| && OpensEpoch(t[4 * (e - 1)], slot, target, maxEpochs, e) ==>
      4 * e < |t| && EpochEnds(lib, t[4 * e], slot, target, maxEpochs, e, Drawn(draw, e))
  }

  ghost predicate ReportsLast(t: seq<Action>) {
    t != [] && t[|t| - 1].Done? && forall i :: 0 <= i < |t| - 1 ==> t[i].Fan?
  }

  lemma {:induction false} PacedRun(lib: Consensus, draw: Draws, t: seq<Action>, slot: int, target: real, maxEpochs: int, e: nat)
    requires ReportsLast(t) && forall d: nat :: d >= 1 ==> Paced(lib, draw, t, slot, target, maxEpochs, d)
    requires e >= 1 && 4 * (e - 1) < |t| && OpensEpoch(t[4 * (e - 1)], slot, target, maxEpochs, e)
    ensures Decided(lib, draw, slot, target, maxEpochs, e, t[|t| - 1].report, |t| - 1)
    decreases |t| - 4 * e
  {
    assert Paced(lib, draw, t, slot, target, maxEpochs, e);
    var b := t[4 * e];
    if b.Fan? {
      GoesOn(lib, slot, target, maxEpochs, e, b, Drawn(draw, e));
      PacedRun(lib, draw, t, slot, target, maxEpochs, e + 1);
      DecidedLater(lib, draw, slot, target, maxEpochs, e, t[|t| - 1].report, |t| - 1);
    } else {
      DecidedNow(lib, draw, slot, target, maxEpochs, e, b);
    }
  }

  lemma RunPaced(lib: Consensus, env: Environment, draw: Draws, a: Action, t: seq<Action>, slot: int, target: real, maxEpochs: int, e: nat)
    requires Clears(lib) && AllReal(lib, env, draw) && Consistent(a) && Sound(lib, a) && t == Run(lib, env, 0, a) && e >= 1
    ensures Paced(lib, draw, t, slot, target, maxEpochs, e)
  {
    if 4 * (e - 1) < |t| && OpensEpoch(t[4 * (e - 1)], slot, target, maxEpochs, e) {
      RealEpoch(lib, env, draw, a, t, 4 * (e - 1), e, slot, target, maxEpochs);
    }
  }

  lemma RunReportsLast(lib: Consensus, env: Environment, a: Action, t: seq<Action>)
    requires Consistent(a) && t == Run(lib, env, 0, a)
    ensures ReportsLast(t) && t[0] == a
  {
    RunEnds(lib, env, 0, a);
  }

  /** With five real participants a run takes exactly four rounds for each of its epochs and is decided by what is
      drawn: it succeeds at the first epoch whose offers make a deal, with the proposal these clear to, and fails
      exactly when none of the `max(1, maxEpochs)` epochs does. */
  lemma RealRun(lib: Consensus, env: Environment, draw: Draws, slot: int, target: real, maxEpochs: int, a: Action, t: seq<Action>)
    requires Clears(lib) && AllReal(lib, env, draw)
    requires a == Begin(slot, target, maxEpochs) && t == Run(lib, env, 0, a)
    ensures t[|t| - 1].Done? && Decided(lib, draw, slot, target, maxEpochs, 1, t[|t| - 1].report, |t| - 1)
  {
    RunReportsLast(lib, env, a, t);
    forall e: nat | e >= 1 ensures Paced(lib, draw, t, slot, target, maxEpochs, e) {
      RunPaced(lib, env, draw, a, t, slot, target, maxEpochs, e);
    }
    PacedRun(lib, draw, t, slot, target, maxEpochs, 1);
  }
}
