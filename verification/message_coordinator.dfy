// The message-driven flexibility consensus: concurrent handlers synchronised by three barriers
// (flexi-consensus-messaging). Participants of an epoch are numbered in `localeCompare` order.
module MessageCoordinator {
  import opened Wrappers
  import opened Clearing

  datatype Kind = Confirmed | Rejected | OfferKind(offer: Offer) | Ack | Nack

  datatype Msg = Msg(sender: Id, kind: Kind, slot: int, epoch: int)

  datatype Command =
    | GetOffer
    | ProposalCmd(result: Proposal, hash: Digest, slot: int, epoch: int)
    | FinalCmd(result: Proposal)
    | AbortCmd

  datatype Config = Config(target: real, slot: int, maxEpochs: int, nodeCount: nat)

  /** `context._proto`, `_result` and `_bestPartial`; a barrier is the flag that it is resolved. */
  datatype Coordinator = Coordinator(
    epoch: int,
    participants: seq<Id>, nonParticipants: seq<Id>,
    offers: OfferMap,
    acks: seq<Id>, nacks: seq<Id>,
    proposal: Option<Proposal>,
    answered: bool, offersIn: bool, acksIn: bool,
    result: Option<Proposal>, bestPartial: Option<Proposal>)

  function NewEpoch(epoch: int, result: Option<Proposal>, bestPartial: Option<Proposal>): Coordinator {
    Coordinator(epoch, [], [], [], [], [], None, false, false, false, result, bestPartial)
  }

  // ---- handleMessage ----

  predicate Stale(cfg: Config, c: Coordinator, m: Msg) {
    m.epoch != c.epoch || m.slot != cfg.slot
  }

  /** `Map.set`: an existing key keeps its place. */
  function SetOffer(offers: OfferMap, id: Id, o: Offer): OfferMap {
    if offers == [] then [(id, o)]
    else if offers[0].0 == id then [(id, o)] + offers[1..]
    else [offers[0]] + SetOffer(offers[1..], id, o)
  }

  /** A key that is there keeps its place and gets the new offer, a new one goes to the end. */
  lemma {:induction false} SetOfferIs(offers: OfferMap, id: Id, o: Offer)
    requires DistinctIds(offers)
    ensures (forall k :: 0 <= k < |offers| ==> offers[k].0 != id) ==> SetOffer(offers, id, o) == offers + [(id, o)]
    ensures forall k :: 0 <= k < |offers| && offers[k].0 == id ==> SetOffer(offers, id, o) == offers[k := (id, o)]
    decreases |offers|
  {
    if offers != [] {
      var rest := offers[1..];
      assert forall k :: 0 <= k < |rest| ==> rest[k] == offers[k + 1];
      SetOfferIs(rest, id, o);
      forall k | 0 <= k < |offers| && offers[k].0 == id ensures SetOffer(offers, id, o) == offers[k := (id, o)] {
        if k > 0 {
          assert rest[k - 1].0 == id;
          assert offers[k := (id, o)] == [offers[0]] + rest[k - 1 := (id, o)];
        }
      }
    }
  }

  /** Up to its `await`: the message is recorded and the barrier resolved if it was the last one. */
  function Arrive(cfg: Config, c: Coordinator, m: Msg): Coordinator {
    match m.kind
    case Confirmed =>
      var ps := c.participants + [m.sender];
      c.(participants := ps, answered := c.answered || |ps| + |c.nonParticipants| == cfg.nodeCount)
    case Rejected =>
      var ns := c.nonParticipants + [m.sender];
      c.(nonParticipants := ns, answered := c.answered || |c.participants| + |ns| == cfg.nodeCount)
    case OfferKind(o) =>
      var os := SetOffer(c.offers, m.sender, o);
      c.(offers := os, offersIn := c.offersIn || |os| == |c.participants|)
    case Ack =>
      var acks := c.acks + [m.sender];
      c.(acks := acks, acksIn := c.acksIn || |acks| + |c.nacks| == |c.participants|)
    case Nack =>
      var nacks := c.nacks + [m.sender];
      c.(nacks := nacks, acksIn := c.acksIn || |c.acks| + |nacks| == |c.participants|)
  }

  predicate Resolved(c: Coordinator, k: Kind) {
    match k
    case Confirmed => c.answered
    case Rejected => c.answered
    case OfferKind(_) => c.offersIn
    case Ack => c.acksIn
    case Nack => c.acksIn
  }

  function Proposed(cfg: Config, lib: Consensus, c: Coordinator): Proposal {
    if c.proposal.Some? then c.proposal.value
    else lib.propose(cfg.slot, c.epoch, c.offers, Alloc(cfg.target, cfg.target))
  }

  /** After its `await`. */
  function Resume(cfg: Config, lib: Consensus, c: Coordinator, k: Kind): (Coordinator, Option<Command>) {
    match k
    case Confirmed => (c, Some(GetOffer))
    case Rejected => (c, None)
    case OfferKind(_) =>
      var r := Proposed(cfg, lib, c);
      (c.(proposal := Some(r)), Some(ProposalCmd(r, lib.hashOf(r), cfg.slot, c.epoch)))
    case _ =>
      if c.proposal.None? then (c, None)  // never the case: votes follow the proposal
      else if |c.acks| == |c.participants| && TargetsMet(c.proposal.value, cfg.target) then
        (c.(result := c.proposal), Some(FinalCmd(c.proposal.value)))
      else
        (c.(bestPartial := c.proposal), Some(AbortCmd))
  }

  /** The coordinator as the program keeps it: fields updated by concurrently suspended handlers. */
  class CoordinatorContext {
    const cfg: Config
    var epoch: int
    var participants: seq<Id>
    var nonParticipants: seq<Id>
    var offers: OfferMap
    var acks: seq<Id>
    var nacks: seq<Id>
    var proposal: Option<Proposal>
    var answered: bool
    var offersIn: bool
    var acksIn: bool
    var result: Option<Proposal>
    var bestPartial: Option<Proposal>

    ghost function Abs(): Coordinator
      reads this
    {
      Coordinator(epoch, participants, nonParticipants, offers, acks, nacks, proposal, answered, offersIn, acksIn, result, bestPartial)
    }

    constructor (cfg: Config)
      ensures this.cfg == cfg && Abs() == NewEpoch(1, None, None)
    {
      this.cfg, epoch := cfg, 1;
      participants, nonParticipants, offers, acks, nacks := [], [], [], [], [];
      proposal, answered, offersIn, acksIn := None, false, false, false;
      result, bestPartial := None, None;
    }

    /** The handler up to its `await`; a stale message is answered with null at once. */
    method HandleMessage(m: Msg) returns (suspended: bool)
      modifies this
      ensures suspended <==> m.epoch == old(epoch) && m.slot == cfg.slot
      ensures Abs() == if suspended then Arrive(cfg, old(Abs()), m) else old(Abs())
    {
      if m.epoch != epoch || m.slot != cfg.slot { return false; }
      match m.kind {
        case Confirmed =>
          participants := participants + [m.sender];
          if |participants| + |nonParticipants| == cfg.nodeCount { answered := true; }
        case Rejected =>
          nonParticipants := nonParticipants + [m.sender];
          if |participants| + |nonParticipants| == cfg.nodeCount { answered := true; }
        case OfferKind(o) =>
          offers := SetOffer(offers, m.sender, o);
          if |offers| == |participants| { offersIn := true; }
        case Ack =>
          acks := acks + [m.sender];
          if |acks| + |nacks| == |participants| { acksIn := true; }
        case Nack =>
          nacks := nacks + [m.sender];
          if |acks| + |nacks| == |participants| { acksIn := true; }
      }
      suspended := true;
    }

    /** The handler after its barrier has resolved. */
    method ResumeHandler(lib: Consensus, k: Kind) returns (reply: Option<Command>)
      requires Clears(lib) && DistinctIds(offers)
      modifies this`proposal, this`result, this`bestPartial
      ensures (Abs(), reply) == Resume(cfg, lib, old(Abs()), k)
    {
      match k {
        case Confirmed => reply := Some(GetOffer);
        case Rejected => reply := None;
        case OfferKind(_) =>
          if proposal.None? {
            var r, _ := ComputeProposal(cfg.slot, epoch, offers, Alloc(cfg.target, cfg.target), Hashes(lib.hashOffers, lib.hashOf));
            assert ClearsAt(lib, cfg.slot, epoch, offers, Alloc(cfg.target, cfg.target));
            proposal := Some(r);
          }
          reply := Some(ProposalCmd(proposal.value, lib.hashOf(proposal.value), cfg.slot, epoch));
        case _ =>
          if proposal.None? { return None; }
          var allAcked := |acks| == |participants|;
          var t := Totals(proposal.value.allocations);
          var targetsMet := Near(t.up, cfg.target) && Near(t.down, cfg.target);
          if allAcked && targetsMet {
            result := proposal;
            return Some(FinalCmd(proposal.value));
          }
          bestPartial := proposal;
          reply := Some(AbortCmd);
      }
    }
  }

  // ---- Participants ----

  datatype PState =
    | Sending(msg: Msg)        // the request is on its way to the coordinator
    | Suspended(msg: Msg)      // its handler waits for a barrier
    | Replying(reply: Option<Command>)
    | Finished(result: Option<Proposal>)

  datatype Part = Part(pc: PState, myOffer: Option<Offer>)

  /** Who opts in and what is drawn, by epoch and participant. */
  datatype Env = Env(optsIn: (int, Id) -> bool, draw: (int, Id) -> Offer)

  function Verify(lib: Consensus, cmd: Command, id: Id, myOffer: Offer, slot: int, epoch: int): Kind
    requires cmd.ProposalCmd?
  {
    if cmd.epoch != epoch || cmd.slot != slot then Nack
    else if lib.hashOf(cmd.result) != cmd.hash then Nack
    else if IsAcceptable(AllocFor(cmd.result.allocations, id), myOffer, cmd.result.prices) then Ack
    else Nack
  }

  /** Whatever proposal arrives, even one that was never cleared: a participant acknowledges it exactly when it is
      for its own slot and epoch, matches its digest, and can be borne with what it allocates to the participant. */
  lemma AcksExactly(lib: Consensus, cmd: Command, id: Id, own: Offer, slot: int, epoch: int) returns (share: Alloc)
    requires cmd.ProposalCmd?
    ensures HoldsFor(cmd.result.allocations, id, share)
    ensures Verify(lib, cmd, id, own, slot, epoch) ==
              if && cmd.slot == slot && cmd.epoch == epoch && cmd.hash == lib.hashOf(cmd.result)
                 && Bearable(share, own, cmd.result.prices)
              then Ack else Nack
  {
    share := AllocFor(cmd.result.allocations, id);
    AllocForHolds(cmd.result.allocations, id);
    AcceptableIsBearable(share, own, cmd.result.prices);
  }

  /** The participant's loop body on a reply. */
  function OnReply(cfg: Config, lib: Consensus, env: Env, epoch: int, id: Id, p: Part): Part
    requires p.pc.Replying?
  {
    match p.pc.reply
    case None => p.(pc := Finished(None))
    case Some(GetOffer) =>
      var o := env.draw(epoch, id);
      Part(Sending(Msg(id, OfferKind(o), cfg.slot, epoch)), Some(o))
    case Some(ProposalCmd(r, hash, slot, e)) =>
      if p.myOffer.None? then p.(pc := Finished(None))  // never the case: an offer was drawn before
      else p.(pc := Sending(Msg(id, Verify(lib, p.pc.reply.value, id, p.myOffer.value, cfg.slot, epoch), cfg.slot, epoch)))
    case Some(FinalCmd(r)) => p.(pc := Finished(Some(r)))
    case Some(AbortCmd) => p.(pc := Finished(None))
  }

  function NewPart(cfg: Config, env: Env, epoch: int, id: Id): Part {
    Part(Sending(Msg(id, if env.optsIn(epoch, id) then Confirmed else Rejected, cfg.slot, epoch)), None)
  }

  function NewParts(cfg: Config, env: Env, epoch: int): (ps: seq<Part>)
    ensures |ps| == cfg.nodeCount && forall i :: 0 <= i < |ps| ==> ps[i] == NewPart(cfg, env, epoch, i)
  {
    seq(cfg.nodeCount, i requires 0 <= i < cfg.nodeCount => NewPart(cfg, env, epoch, i))
  }

  // ---- The whole system ----

  datatype Report =
    | Success(result: Proposal, epochsNeeded: int)
    | Failure(partial: Option<Proposal>, totalEpochsAttempted: int)

  datatype World = World(c: Coordinator, parts: seq<Part>, report: Option<Report>)

  function Init(cfg: Config, env: Env): World {
    World(NewEpoch(1, None, None), NewParts(cfg, env, 1), None)
  }

  function Put(w: World, i: nat, pc: PState): World
    requires i < |w.parts|
  {
    w.(parts := w.parts[i := w.parts[i].(pc := pc)])
  }

  function ArriveStep(cfg: Config, w: World, i: nat): World
    requires i < |w.parts| && w.parts[i].pc.Sending?
  {
    var m := w.parts[i].pc.msg;
    if Stale(cfg, w.c, m) then Put(w, i, Replying(None))
    else Put(w.(c := Arrive(cfg, w.c, m)), i, Suspended(m))
  }

  function ResumeStep(cfg: Config, lib: Consensus, w: World, i: nat): World
    requires i < |w.parts| && w.parts[i].pc.Suspended?
  {
    var (c, reply) := Resume(cfg, lib, w.c, w.parts[i].pc.msg.kind);
    Put(w.(c := c), i, Replying(reply))
  }

  function ReplyStep(cfg: Config, lib: Consensus, env: Env, w: World, i: nat): World
    requires i < |w.parts| && w.parts[i].pc.Replying?
  {
    w.(parts := w.parts[i := OnReply(cfg, lib, env, w.c.epoch, i, w.parts[i])])
  }

  predicate AllFinished(w: World) {
    forall i :: 0 <= i < |w.parts| ==> w.parts[i].pc.Finished?
  }

  /** `onEpochDone`, when every participant invocation of the epoch has returned. */
  function EpochDone(cfg: Config, env: Env, w: World): World {
    if w.c.result.Some? then w.(report := Some(Success(w.c.result.value, w.c.epoch)))
    else if w.c.epoch >= cfg.maxEpochs then w.(report := Some(Failure(w.c.bestPartial, w.c.epoch)))
    else World(NewEpoch(w.c.epoch + 1, w.c.result, w.c.bestPartial), NewParts(cfg, env, w.c.epoch + 1), None)
  }

  ghost predicate Step(cfg: Config, lib: Consensus, env: Env, w: World, w': World) {
    && w.report.None?
    && (|| (exists i :: 0 <= i < |w.parts| && w.parts[i].pc.Sending? && w' == ArriveStep(cfg, w, i))
        || (exists i :: 0 <= i < |w.parts| && w.parts[i].pc.Suspended? && Resolved(w.c, w.parts[i].pc.msg.kind)
                        && w' == ResumeStep(cfg, lib, w, i))
        || (exists i :: 0 <= i < |w.parts| && w.parts[i].pc.Replying? && w' == ReplyStep(cfg, lib, env, w, i))
        || (AllFinished(w) && w' == EpochDone(cfg, env, w)))
  }

  ghost predicate StepTo(cfg: Config, lib: Consensus, env: Env, ws: seq<World>, i: nat)
    requires 0 < i < |ws|
  {
    Step(cfg, lib, env, ws[i - 1], ws[i])
  }

  ghost predicate IsRun(cfg: Config, lib: Consensus, env: Env, ws: seq<World>) {
    && ws != [] && ws[0] == Init(cfg, env)
    && forall i :: 0 < i < |ws| ==> StepTo(cfg, lib, env, ws, i)
  }
}
