// What the message coordinator's runs guarantee, under every interleaving of its handlers.
module MessageAgreement {
  import opened Wrappers
  import opened Clearing
  import opened MessageCoordinator

  // ---- What an epoch comes to, read off its environment alone ----

  predicate Willing(env: Env, epoch: int, i: Id) {
    env.draw(epoch, i).upMax >= -EPS && env.draw(epoch, i).downMax >= -EPS
  }

  /** The offers of an epoch in id order. */
  function Canon(env: Env, epoch: int, n: nat): OfferMap {
    if n == 0 then []
    else Canon(env, epoch, n - 1) + if env.optsIn(epoch, n - 1) then [(n - 1, env.draw(epoch, n - 1))] else []
  }

  function BothTargets(cfg: Config): Alloc { Alloc(cfg.target, cfg.target) }

  /** What an epoch's offers clear to. */
  function CanonProposal(cfg: Config, lib: Consensus, env: Env, epoch: int): Proposal {
    lib.propose(cfg.slot, epoch, Canon(env, epoch, cfg.nodeCount), BothTargets(cfg))
  }

  /** Someone opts in, everyone who does offers non-negative maxima, and the cleared totals meet the target. */
  ghost predicate Commits(cfg: Config, lib: Consensus, env: Env, epoch: int) {
    && (exists i: nat :: i < cfg.nodeCount && env.optsIn(epoch, i))
    && (forall i: nat :: i < cfg.nodeCount && env.optsIn(epoch, i) ==> Willing(env, epoch, i))
    && TargetsMet(CanonProposal(cfg, lib, env, epoch), cfg.target)
  }

  lemma {:induction false} CanonMembers(env: Env, epoch: int, n: nat)
    ensures DistinctIds(Canon(env, epoch, n))
    ensures forall x :: x in Canon(env, epoch, n) <==> x.0 < n && env.optsIn(epoch, x.0) && x.1 == env.draw(epoch, x.0)
    decreases n
  {
    if n > 0 {
      CanonMembers(env, epoch, n - 1);
      var rest := Canon(env, epoch, n - 1);
      assert forall k :: 0 <= k < |rest| ==> rest[k] in rest;
    }
  }

  lemma {:induction false} DistinctOnce(offers: OfferMap, x: (Id, Offer))
    requires DistinctIds(offers)
    ensures multiset(offers)[x] == if x in offers then 1 else 0
    decreases |offers|
  {
    if offers != [] {
      assert offers == [offers[0]] + offers[1..];
      DistinctOnce(offers[1..], x);
    }
  }

  lemma SameMembersSameOffers(a: OfferMap, b: OfferMap)
    requires DistinctIds(a) && DistinctIds(b) && forall x :: x in a <==> x in b
    ensures multiset(a) == multiset(b)
  {
    forall x ensures multiset(a)[x] == multiset(b)[x] {
      DistinctOnce(a, x);
      DistinctOnce(b, x);
    }
  }

  // ---- How far a participant has come ----

  function KindStage(k: Kind): nat {
    match k
    case Confirmed => 0
    case Rejected => 0
    case OfferKind(_) => 3
    case Ack => 6
    case Nack => 6
  }

  function Stage(s: PState): (k: nat)
    ensures k <= 9
  {
    match s
    case Sending(m) => KindStage(m.kind)
    case Suspended(m) => KindStage(m.kind) + 1
    case Replying(None) => 2
    case Replying(Some(GetOffer)) => 2
    case Replying(Some(ProposalCmd(_, _, _, _))) => 5
    case Replying(_) => 8
    case Finished(_) => 9
  }

  /** The ids that opted in (or not) and have come at least to stage `k`. */
  function Reached(env: Env, epoch: int, parts: seq<Part>, k: nat, yes: bool): set<Id> {
    set i: nat | i < |parts| && env.optsIn(epoch, i) == yes && Stage(parts[i].pc) >= k
  }

  lemma ReachedUpdate(env: Env, epoch: int, parts: seq<Part>, i: nat, p: Part, k: nat, yes: bool)
    requires i < |parts| && Stage(parts[i].pc) <= Stage(p.pc)
    ensures Reached(env, epoch, parts[i := p], k, yes) ==
              Reached(env, epoch, parts, k, yes) + if env.optsIn(epoch, i) == yes && Stage(p.pc) >= k then {i} else {}
  {
  }

  // ---- The invariant ----

  predicate MsgOk(cfg: Config, env: Env, c: Coordinator, i: Id, m: Msg, myOffer: Option<Offer>) {
    && m.sender == i && m.slot == cfg.slot && m.epoch == c.epoch
    && (m.kind.Confirmed? ==> env.optsIn(c.epoch, i))
    && (m.kind.Rejected? ==> !env.optsIn(c.epoch, i))
    && (m.kind.OfferKind? ==> env.optsIn(c.epoch, i) && m.kind.offer == env.draw(c.epoch, i) && myOffer == Some(m.kind.offer))
    && (m.kind.Ack? ==> env.optsIn(c.epoch, i) && Willing(env, c.epoch, i))
    && (m.kind.Nack? ==> env.optsIn(c.epoch, i) && !Willing(env, c.epoch, i))
  }

  /** A participant's own state fits its choice, its draw and the coordinator's proposal and verdict. */
  ghost predicate Local(cfg: Config, lib: Consensus, env: Env, c: Coordinator, i: Id, p: Part) {
    match p.pc
    case Sending(m) => MsgOk(cfg, env, c, i, m, p.myOffer)
    case Suspended(m) => MsgOk(cfg, env, c, i, m, p.myOffer)
    case Replying(None) => !env.optsIn(c.epoch, i)
    case Replying(Some(GetOffer)) => env.optsIn(c.epoch, i)
    case Replying(Some(ProposalCmd(r, hash, slot, e))) =>
      && env.optsIn(c.epoch, i) && p.myOffer == Some(env.draw(c.epoch, i))
      && c.proposal == Some(r) && hash == lib.hashOf(r) && slot == cfg.slot && e == c.epoch
    case Replying(Some(FinalCmd(r))) => env.optsIn(c.epoch, i) && c.proposal == Some(r) && Commits(cfg, lib, env, c.epoch)
    case Replying(Some(AbortCmd)) => env.optsIn(c.epoch, i) && !Commits(cfg, lib, env, c.epoch)
    case Finished(r) => r == if env.optsIn(c.epoch, i) && Commits(cfg, lib, env, c.epoch) then c.proposal else None
  }

  ghost predicate Locals(cfg: Config, lib: Consensus, env: Env, w: World) {
    forall i :: 0 <= i < |w.parts| ==> Local(cfg, lib, env, w.c, i, w.parts[i])
  }

  ghost predicate Lists(s: seq<Id>, ids: set<Id>) {
    (forall j, k :: 0 <= j < k < |s| ==> s[j] != s[k]) && forall x: nat :: x in s <==> x in ids
  }

  ghost predicate Members(env: Env, w: World) {
    && Lists(w.c.participants, Reached(env, w.c.epoch, w.parts, 1, true))
    && Lists(w.c.nonParticipants, Reached(env, w.c.epoch, w.parts, 1, false))
  }

  ghost predicate OfferList(env: Env, epoch: int, offers: OfferMap, ids: set<Id>) {
    && DistinctIds(offers)
    && forall x :: x in offers <==> x.0 in ids && x.1 == env.draw(epoch, x.0)
  }

  ghost predicate OffersListed(env: Env, w: World) {
    OfferList(env, w.c.epoch, w.c.offers, Reached(env, w.c.epoch, w.parts, 4, true))
  }

  function Voted(env: Env, epoch: int, parts: seq<Part>, ack: bool): set<Id> {
    set i | i in Reached(env, epoch, parts, 7, true) && Willing(env, epoch, i) == ack
  }

  ghost predicate VotesListed(env: Env, w: World) {
    && Lists(w.c.acks, Voted(env, w.c.epoch, w.parts, true))
    && Lists(w.c.nacks, Voted(env, w.c.epoch, w.parts, false))
  }

  predicate AllAnswered(parts: seq<Part>) {
    |parts| > 0 && forall i :: 0 <= i < |parts| ==> Stage(parts[i].pc) >= 1
  }

  /** All who opted in, of whom there is one, have come to stage `k`. */
  predicate AllAt(env: Env, epoch: int, parts: seq<Part>, k: nat) {
    Reached(env, epoch, parts, k, true) == Reached(env, epoch, parts, 0, true) != {}
  }

  /** A barrier is resolved exactly when all it waits for has arrived. */
  ghost predicate Barriers(env: Env, w: World) {
    && (w.c.answered <==> AllAnswered(w.parts))
    && (w.c.offersIn <==> AllAt(env, w.c.epoch, w.parts, 4))
    && (w.c.acksIn <==> AllAt(env, w.c.epoch, w.parts, 7))
  }

  ghost predicate GatesAt(env: Env, c: Coordinator, i: Id, p: Part) {
    && (Stage(p.pc) >= 2 ==> c.answered)
    && (Stage(p.pc) >= 5 && env.optsIn(c.epoch, i) ==> c.offersIn && c.proposal.Some?)
    && (Stage(p.pc) >= 8 && env.optsIn(c.epoch, i) ==> c.acksIn)
  }

  /** Nobody is past a barrier that is not resolved. */
  ghost predicate Gates(env: Env, w: World) {
    forall i :: 0 <= i < |w.parts| ==> GatesAt(env, w.c, i, w.parts[i])
  }

  ghost predicate ProposalOk(cfg: Config, lib: Consensus, w: World) {
    w.c.proposal.Some? ==>
      w.c.offersIn && w.c.proposal.value == lib.propose(cfg.slot, w.c.epoch, w.c.offers, BothTargets(cfg))
  }

  ghost predicate ResultAt(cfg: Config, lib: Consensus, env: Env, c: Coordinator, i: Id, p: Part) {
    Stage(p.pc) >= 8 && env.optsIn(c.epoch, i) ==>
      if Commits(cfg, lib, env, c.epoch) then c.result == c.proposal else c.bestPartial == c.proposal
  }

  ghost predicate ResultOk(cfg: Config, lib: Consensus, env: Env, w: World) {
    && (w.c.result.Some? ==> Commits(cfg, lib, env, w.c.epoch) && w.c.result == w.c.proposal)
    && forall i :: 0 <= i < |w.parts| ==> ResultAt(cfg, lib, env, w.c, i, w.parts[i])
  }

  function LastEpoch(cfg: Config): int { if cfg.maxEpochs > 1 then cfg.maxEpochs else 1 }

  ghost predicate NoneCommitted(cfg: Config, lib: Consensus, env: Env, upTo: int) {
    forall e :: 1 <= e < upTo ==> !Commits(cfg, lib, env, e)
  }

  ghost predicate Inv(cfg: Config, lib: Consensus, env: Env, w: World) {
    && Clears(lib) && |w.parts| == cfg.nodeCount
    && 1 <= w.c.epoch <= LastEpoch(cfg) && NoneCommitted(cfg, lib, env, w.c.epoch)
    && Locals(cfg, lib, env, w) && Members(env, w) && OffersListed(env, w) && VotesListed(env, w)
    && Barriers(env, w) && Gates(env, w) && ProposalOk(cfg, lib, w) && ResultOk(cfg, lib, env, w)
  }

  // ---- Counting ----

  lemma {:induction false} ListsLength(s: seq<Id>, ids: set<Id>)
    requires Lists(s, ids)
    ensures |s| == |ids|
    decreases |s|
  {
    if s == [] {
      assert ids == {};
    } else {
      var rest := s[1..];
      assert forall x: nat :: x in s <==> x == s[0] || x in rest;
      assert s[0] in ids;
      ListsLength(rest, ids - {s[0]});
    }
  }

  lemma ListsAppend(s: seq<Id>, ids: set<Id>, i: Id)
    requires Lists(s, ids) && i !in ids
    ensures Lists(s + [i], ids + {i})
  {
  }

  lemma {:induction false} SubsetCount(a: set<Id>, b: set<Id>)
    requires a <= b
    ensures |a| <= |b| && (|a| == |b| <==> a == b)
  {
    assert b == a + (b - a);
    assert |b| == |a| + |b - a|;
  }

  function Ids(n: nat): set<Id> {
    if n == 0 then {} else Ids(n - 1) + {n - 1}
  }

  lemma {:induction false} IdsCount(n: nat)
    ensures |Ids(n)| == n && forall x: nat :: x in Ids(n) <==> x < n
    decreases n
  {
    if n > 0 { IdsCount(n - 1); }
  }

  /** Counting those who opted in and those who did not tells whether all have answered. */
  lemma AnsweredCount(env: Env, epoch: int, parts: seq<Part>)
    ensures |Reached(env, epoch, parts, 1, true)| + |Reached(env, epoch, parts, 1, false)| == |parts| <==>
              forall i :: 0 <= i < |parts| ==> Stage(parts[i].pc) >= 1
  {
    var yes, no := Reached(env, epoch, parts, 1, true), Reached(env, epoch, parts, 1, false);
    var all := Ids(|parts|);
    IdsCount(|parts|);
    assert yes !! no;
    assert |yes + no| == |yes| + |no|;
    SubsetCount(yes + no, all);
    forall i: nat | i < |parts| ensures Stage(parts[i].pc) >= 1 <==> i in yes + no {
      assert i in all;
    }
    if forall i :: 0 <= i < |parts| ==> Stage(parts[i].pc) >= 1 {
      assert yes + no == all;
    }
  }

  predicate HasKey(offers: OfferMap, id: Id) {
    exists k :: 0 <= k < |offers| && offers[k].0 == id
  }

  lemma {:induction false} KeysCount(offers: OfferMap, ids: set<Id>)
    requires DistinctIds(offers) && forall i: nat :: i in ids <==> HasKey(offers, i)
    ensures |offers| == |ids|
    decreases |offers|
  {
    if offers == [] {
      assert forall i: nat :: i !in ids;
    } else {
      var first, rest := offers[0].0, offers[1..];
      assert HasKey(offers, first);
      forall i: nat ensures i in ids - {first} <==> HasKey(rest, i) {
        if i in ids - {first} {
          var k :| 0 <= k < |offers| && offers[k].0 == i;
          assert rest[k - 1].0 == i;
        }
        if HasKey(rest, i) {
          var k :| 0 <= k < |rest| && rest[k].0 == i;
          assert offers[k + 1].0 == i;
        }
      }
      KeysCount(rest, ids - {first});
    }
  }

  lemma OffersCount(env: Env, epoch: int, offers: OfferMap, ids: set<Id>)
    requires OfferList(env, epoch, offers, ids)
    ensures |offers| == |ids|
    ensures forall i: nat :: i in ids <==> HasKey(offers, i)
  {
    forall i: nat ensures i in ids <==> HasKey(offers, i) {
      if i in ids {
        assert (i, env.draw(epoch, i)) in offers;
      }
      if HasKey(offers, i) {
        var k :| 0 <= k < |offers| && offers[k].0 == i;
        assert offers[k] in offers;
      }
    }
    KeysCount(offers, ids);
  }

  lemma {:induction false} SetOfferAppends(offers: OfferMap, id: Id, o: Offer)
    requires forall k :: 0 <= k < |offers| ==> offers[k].0 != id
    ensures SetOffer(offers, id, o) == offers + [(id, o)]
    decreases |offers|
  {
    if offers != [] {
      SetOfferAppends(offers[1..], id, o);
    }
  }

  lemma OfferAppended(env: Env, epoch: int, offers: OfferMap, ids: set<Id>, i: Id)
    requires OfferList(env, epoch, offers, ids) && i !in ids
    ensures OfferList(env, epoch, SetOffer(offers, i, env.draw(epoch, i)), ids + {i})
  {
    OffersCount(env, epoch, offers, ids);
    assert forall k :: 0 <= k < |offers| ==> offers[k] in offers && offers[k].0 != i;
    SetOfferAppends(offers, i, env.draw(epoch, i));
    assert forall x :: x in offers + [(i, env.draw(epoch, i))] <==> x in offers || x == (i, env.draw(epoch, i));
  }

  // ---- The invariant is kept: a message arrives ----

  lemma ArriveMembers(cfg: Config, env: Env, w: World, i: nat, c': Coordinator, parts': seq<Part>)
    requires i < |w.parts| == cfg.nodeCount && w.parts[i].pc.Sending?
    requires MsgOk(cfg, env, w.c, i, w.parts[i].pc.msg, w.parts[i].myOffer)
    requires Members(env, w)
    requires c' == Arrive(cfg, w.c, w.parts[i].pc.msg)
    requires parts' == w.parts[i := w.parts[i].(pc := Suspended(w.parts[i].pc.msg))]
    ensures Members(env, World(c', parts', None))
  {
    var e, m, p' := w.c.epoch, w.parts[i].pc.msg, parts'[i];
    ReachedUpdate(env, e, w.parts, i, p', 1, true);
    ReachedUpdate(env, e, w.parts, i, p', 1, false);
    if m.kind.Confirmed? {
      ListsAppend(w.c.participants, Reached(env, e, w.parts, 1, true), i);
      assert Reached(env, e, parts', 1, false) == Reached(env, e, w.parts, 1, false);
    } else if m.kind.Rejected? {
      ListsAppend(w.c.nonParticipants, Reached(env, e, w.parts, 1, false), i);
      assert Reached(env, e, parts', 1, true) == Reached(env, e, w.parts, 1, true);
    } else {
      assert Reached(env, e, parts', 1, true) == Reached(env, e, w.parts, 1, true);
      assert Reached(env, e, parts', 1, false) == Reached(env, e, w.parts, 1, false);
    }
  }

  lemma ArriveOffers(cfg: Config, env: Env, w: World, i: nat, c': Coordinator, parts': seq<Part>)
    requires i < |w.parts| == cfg.nodeCount && w.parts[i].pc.Sending?
    requires MsgOk(cfg, env, w.c, i, w.parts[i].pc.msg, w.parts[i].myOffer)
    requires OffersListed(env, w)
    requires c' == Arrive(cfg, w.c, w.parts[i].pc.msg)
    requires parts' == w.parts[i := w.parts[i].(pc := Suspended(w.parts[i].pc.msg))]
    ensures OffersListed(env, World(c', parts', None))
  {
    var e, m, p' := w.c.epoch, w.parts[i].pc.msg, parts'[i];
    ReachedUpdate(env, e, w.parts, i, p', 4, true);
    if m.kind.OfferKind? {
      OfferAppended(env, e, w.c.offers, Reached(env, e, w.parts, 4, true), i);
    } else {
      assert Reached(env, e, parts', 4, true) == Reached(env, e, w.parts, 4, true);
    }
  }

  lemma ArriveVotes(cfg: Config, env: Env, w: World, i: nat, c': Coordinator, parts': seq<Part>)
    requires i < |w.parts| == cfg.nodeCount && w.parts[i].pc.Sending?
    requires MsgOk(cfg, env, w.c, i, w.parts[i].pc.msg, w.parts[i].myOffer)
    requires VotesListed(env, w)
    requires c' == Arrive(cfg, w.c, w.parts[i].pc.msg)
    requires parts' == w.parts[i := w.parts[i].(pc := Suspended(w.parts[i].pc.msg))]
    ensures VotesListed(env, World(c', parts', None))
  {
    var e, m, p' := w.c.epoch, w.parts[i].pc.msg, parts'[i];
    ReachedUpdate(env, e, w.parts, i, p', 7, true);
    var yes, no := Voted(env, e, w.parts, true), Voted(env, e, w.parts, false);
    if m.kind.Ack? {
      ListsAppend(w.c.acks, yes, i);
      assert Voted(env, e, parts', true) == yes + {i};
      assert Voted(env, e, parts', false) == no;
    } else if m.kind.Nack? {
      ListsAppend(w.c.nacks, no, i);
      assert Voted(env, e, parts', false) == no + {i};
      assert Voted(env, e, parts', true) == yes;
    } else {
      assert Voted(env, e, parts', true) == yes && Voted(env, e, parts', false) == no;
    }
  }

  lemma VotedCount(env: Env, epoch: int, parts: seq<Part>)
    ensures |Voted(env, epoch, parts, true)| + |Voted(env, epoch, parts, false)| == |Reached(env, epoch, parts, 7, true)|
  {
    var yes, no := Voted(env, epoch, parts, true), Voted(env, epoch, parts, false);
    assert yes !! no && yes + no == Reached(env, epoch, parts, 7, true);
  }

  /** Once all have answered, counting against the participants tells whether all of them are at stage `k`. */
  lemma ParticipantsCount(env: Env, epoch: int, parts: seq<Part>, k: nat, i: nat)
    requires k >= 1 && AllAnswered(parts)
    requires i < |parts| && env.optsIn(epoch, i)
    ensures |Reached(env, epoch, parts, k, true)| == |Reached(env, epoch, parts, 1, true)| <==> AllAt(env, epoch, parts, k)
  {
    SubsetCount(Reached(env, epoch, parts, k, true), Reached(env, epoch, parts, 1, true));
    assert Reached(env, epoch, parts, 1, true) == Reached(env, epoch, parts, 0, true);
    assert i in Reached(env, epoch, parts, 0, true);
  }

  /** Moving one participant without crossing `k` leaves unchanged who is at `k`. */
  lemma AllAtFrame(env: Env, epoch: int, parts: seq<Part>, i: nat, p: Part, k: nat)
    requires i < |parts| && (Stage(parts[i].pc) >= k <==> Stage(p.pc) >= k)
    ensures AllAt(env, epoch, parts[i := p], k) == AllAt(env, epoch, parts, k)
  {
    assert Reached(env, epoch, parts[i := p], k, true) == Reached(env, epoch, parts, k, true);
    assert Reached(env, epoch, parts[i := p], 0, true) == Reached(env, epoch, parts, 0, true);
  }

  lemma AnsweredFrame(parts: seq<Part>, i: nat, p: Part)
    requires i < |parts| && (Stage(parts[i].pc) >= 1 <==> Stage(p.pc) >= 1)
    ensures AllAnswered(parts[i := p]) == AllAnswered(parts)
  {
    assert forall j :: 0 <= j < |parts| ==> (Stage(parts[j].pc) >= 1 <==> Stage(parts[i := p][j].pc) >= 1);
  }

  lemma ArriveBarriers(cfg: Config, env: Env, w: World, i: nat, w': World)
    requires i < |w.parts| == cfg.nodeCount && w.parts[i].pc.Sending?
    requires MsgOk(cfg, env, w.c, i, w.parts[i].pc.msg, w.parts[i].myOffer)
    requires Barriers(env, w) && Gates(env, w) && Members(env, w') && OffersListed(env, w') && VotesListed(env, w')
    requires w'.c == Arrive(cfg, w.c, w.parts[i].pc.msg)
    requires w'.parts == w.parts[i := w.parts[i].(pc := Suspended(w.parts[i].pc.msg))]
    ensures Barriers(env, w')
  {
    var e, m, p' := w.c.epoch, w.parts[i].pc.msg, w'.parts[i];
    var kind := m.kind;
    assert GatesAt(env, w.c, i, w.parts[i]);
    ListsLength(w'.c.participants, Reached(env, e, w'.parts, 1, true));
    if kind.Confirmed? || kind.Rejected? {
      ListsLength(w'.c.nonParticipants, Reached(env, e, w'.parts, 1, false));
      AnsweredCount(env, e, w'.parts);
      assert AllAnswered(w.parts) ==> AllAnswered(w'.parts);
      AllAtFrame(env, e, w.parts, i, p', 4);
      AllAtFrame(env, e, w.parts, i, p', 7);
    } else {
      AnsweredFrame(w.parts, i, p');
      if kind.OfferKind? {
        assert i in Reached(env, e, w.parts, 0, true);
        AllAtFrame(env, e, w.parts, i, p', 7);
        OffersCount(env, e, w'.c.offers, Reached(env, e, w'.parts, 4, true));
        ParticipantsCount(env, e, w'.parts, 4, i);
      } else {
        assert i in Reached(env, e, w.parts, 0, true);
        AllAtFrame(env, e, w.parts, i, p', 4);
        ListsLength(w'.c.acks, Voted(env, e, w'.parts, true));
        ListsLength(w'.c.nacks, Voted(env, e, w'.parts, false));
        VotedCount(env, e, w'.parts);
        ParticipantsCount(env, e, w'.parts, 7, i);
      }
    }
  }

  /** The others' states stay in order while the epoch, the proposal and the resolved barriers do. */
  lemma OthersKept(cfg: Config, lib: Consensus, env: Env, w: World, i: nat, w': World)
    requires Locals(cfg, lib, env, w) && Gates(env, w)
    requires i < |w.parts| == |w'.parts| && w'.parts == w.parts[i := w'.parts[i]]
    requires w'.c.epoch == w.c.epoch && (w.c.proposal.Some? ==> w'.c.proposal == w.c.proposal)
    requires (w.c.answered ==> w'.c.answered) && (w.c.offersIn ==> w'.c.offersIn) && (w.c.acksIn ==> w'.c.acksIn)
    requires Local(cfg, lib, env, w'.c, i, w'.parts[i]) && GatesAt(env, w'.c, i, w'.parts[i])
    ensures Locals(cfg, lib, env, w') && Gates(env, w')
  {
    forall j | 0 <= j < |w'.parts| ensures Local(cfg, lib, env, w'.c, j, w'.parts[j]) && GatesAt(env, w'.c, j, w'.parts[j]) {
      assert Local(cfg, lib, env, w.c, j, w.parts[j]) && GatesAt(env, w.c, j, w.parts[j]);
    }
  }

  lemma ArriveKeeps(cfg: Config, lib: Consensus, env: Env, w: World, i: nat, w': World)
    requires Inv(cfg, lib, env, w) && i < |w.parts| && w.parts[i].pc.Sending?
    requires w' == ArriveStep(cfg, w, i)
    ensures Inv(cfg, lib, env, w')
    ensures w'.c == Arrive(cfg, w.c, w.parts[i].pc.msg) && w'.parts[i].pc == Suspended(w.parts[i].pc.msg)
  {
    var e, m := w.c.epoch, w.parts[i].pc.msg;
    assert Local(cfg, lib, env, w.c, i, w.parts[i]);
    assert GatesAt(env, w.c, i, w.parts[i]);
    ArriveMembers(cfg, env, w, i, w'.c, w'.parts);
    ArriveOffers(cfg, env, w, i, w'.c, w'.parts);
    ArriveVotes(cfg, env, w, i, w'.c, w'.parts);
    ArriveBarriers(cfg, env, w, i, w');
    assert i in Reached(env, e, w.parts, 0, true) || !env.optsIn(e, i);
    OthersKept(cfg, lib, env, w, i, w');
    assert ResultOk(cfg, lib, env, w') by {
      forall j | 0 <= j < |w'.parts| ensures ResultAt(cfg, lib, env, w'.c, j, w'.parts[j]) {
        assert ResultAt(cfg, lib, env, w.c, j, w.parts[j]);
      }
    }
  }

  // ---- The invariant is kept: a handler resumes, a participant takes its reply ----

  /** A move that crosses none of the stages 1, 4 and 7 of those who opted in. */
  predicate SameLists(env: Env, epoch: int, i: Id, p: Part, p': Part) {
    && (Stage(p.pc) >= 1 <==> Stage(p'.pc) >= 1)
    && (env.optsIn(epoch, i) ==> (Stage(p.pc) >= 4 <==> Stage(p'.pc) >= 4) && (Stage(p.pc) >= 7 <==> Stage(p'.pc) >= 7))
  }

  predicate SameCounts(c: Coordinator, c': Coordinator) {
    c' == c.(proposal := c'.proposal, result := c'.result, bestPartial := c'.bestPartial)
  }

  lemma MoveKeepsLists(env: Env, w: World, i: nat, w': World)
    requires i < |w.parts| == |w'.parts| && w'.parts == w.parts[i := w'.parts[i]]
    requires SameCounts(w.c, w'.c) && SameLists(env, w.c.epoch, i, w.parts[i], w'.parts[i])
    requires Members(env, w) && OffersListed(env, w) && VotesListed(env, w) && Barriers(env, w)
    ensures Members(env, w') && OffersListed(env, w') && VotesListed(env, w') && Barriers(env, w')
  {
    var e := w.c.epoch;
    assert Reached(env, e, w'.parts, 0, true) == Reached(env, e, w.parts, 0, true);
    assert Reached(env, e, w'.parts, 1, true) == Reached(env, e, w.parts, 1, true);
    assert Reached(env, e, w'.parts, 1, false) == Reached(env, e, w.parts, 1, false);
    assert Reached(env, e, w'.parts, 4, true) == Reached(env, e, w.parts, 4, true);
    assert Reached(env, e, w'.parts, 7, true) == Reached(env, e, w.parts, 7, true);
    assert Voted(env, e, w'.parts, true) == Voted(env, e, w.parts, true);
    assert Voted(env, e, w'.parts, false) == Voted(env, e, w.parts, false);
    AnsweredFrame(w.parts, i, w'.parts[i]);
  }

  lemma OffersAreCanon(env: Env, epoch: int, offers: OfferMap, parts: seq<Part>)
    requires OfferList(env, epoch, offers, Reached(env, epoch, parts, 4, true)) && AllAt(env, epoch, parts, 4)
    ensures multiset(offers) == multiset(Canon(env, epoch, |parts|)) && DistinctIds(Canon(env, epoch, |parts|))
  {
    CanonMembers(env, epoch, |parts|);
    forall x ensures x in offers <==> x in Canon(env, epoch, |parts|) {
      assert x.0 in Reached(env, epoch, parts, 0, true) <==> x.0 < |parts| && env.optsIn(epoch, x.0);
    }
    SameMembersSameOffers(offers, Canon(env, epoch, |parts|));
  }

  /** The same prices, totals and allocations; only the digest of the offers may differ. */
  ghost predicate SameDeal(r: Proposal, s: Proposal) {
    && r.slot == s.slot && r.epoch == s.epoch && r.targets == s.targets && r.prices == s.prices
    && SumUp(r.allocations) == SumUp(s.allocations) && SumDown(r.allocations) == SumDown(s.allocations)
    && forall i: Id :: AllocFor(r.allocations, i) == AllocFor(s.allocations, i)
  }

  lemma {:induction false} AllocForNobody(a: seq<(Id, Alloc)>, id: Id)
    requires forall k :: 0 <= k < |a| ==> a[k].0 != id
    ensures AllocFor(a, id) == Alloc(0.0, 0.0)
    decreases |a|
  {
    if a != [] { AllocForNobody(a[1..], id); }
  }

  lemma AllocForLookup(offers: OfferMap, up: Cleared, down: Cleared, id: Id)
    requires DistinctIds(offers)
    ensures AllocFor(Allocations(offers, up, down), id) ==
              if HasKey(offers, id) then Alloc(QtyOf(up, id), QtyOf(down, id)) else Alloc(0.0, 0.0)
  {
    var a := Allocations(offers, up, down);
    if HasKey(offers, id) {
      var k :| 0 <= k < |offers| && offers[k].0 == id;
      AllocForAt(a, k);
    } else {
      AllocForNobody(a, id);
    }
  }

  lemma SameKeys(a: OfferMap, b: OfferMap, i: Id)
    requires multiset(a) == multiset(b)
    ensures HasKey(a, i) == HasKey(b, i)
  {
    if HasKey(a, i) {
      var k :| 0 <= k < |a| && a[k].0 == i;
      assert a[k] in multiset(b);
    }
    if HasKey(b, i) {
      var k :| 0 <= k < |b| && b[k].0 == i;
      assert b[k] in multiset(a);
    }
  }

  lemma SameAllocations(offers: OfferMap, other: OfferMap, up: Cleared, down: Cleared, i: Id)
    requires DistinctIds(offers) && DistinctIds(other) && multiset(offers) == multiset(other)
    ensures AllocFor(Allocations(offers, up, down), i) == AllocFor(Allocations(other, up, down), i)
  {
    AllocForLookup(offers, up, down, i);
    AllocForLookup(other, up, down, i);
    SameKeys(offers, other, i);
  }

  /** However the offers arrived, what they clear to is the same deal. */
  lemma SameOffersSameDeal(lib: Consensus, slot: int, epoch: int, offers: OfferMap, other: OfferMap, targets: Alloc)
    requires Clears(lib) && DistinctIds(offers) && DistinctIds(other) && multiset(offers) == multiset(other)
    ensures SameDeal(lib.propose(slot, epoch, offers, targets), lib.propose(slot, epoch, other, targets))
  {
    assert ClearsAt(lib, slot, epoch, offers, targets) && ClearsAt(lib, slot, epoch, other, targets);
    ClearingIgnoresArrivalOrder(offers, other, targets, Up);
    ClearingIgnoresArrivalOrder(offers, other, targets, Down);
    ProposalTotals(slot, epoch, offers, targets, lib.hashOffers);
    ProposalTotals(slot, epoch, other, targets, lib.hashOffers);
    var up, down := ClearedOf(offers, targets, Up), ClearedOf(offers, targets, Down);
    forall i: Id ensures AllocFor(Allocations(offers, up, down), i) == AllocFor(Allocations(other, up, down), i) {
      SameAllocations(offers, other, up, down, i);
    }
  }

  /** However the offers arrived, the proposal is the deal of the epoch. */
  lemma ProposalIsCanon(cfg: Config, lib: Consensus, env: Env, w: World)
    requires Clears(lib) && |w.parts| == cfg.nodeCount && OffersListed(env, w)
    requires AllAt(env, w.c.epoch, w.parts, 4)
    requires ProposalOk(cfg, lib, w) && w.c.proposal.Some?
    ensures SameDeal(w.c.proposal.value, CanonProposal(cfg, lib, env, w.c.epoch))
  {
    OffersAreCanon(env, w.c.epoch, w.c.offers, w.parts);
    SameOffersSameDeal(lib, cfg.slot, w.c.epoch, w.c.offers, Canon(env, w.c.epoch, cfg.nodeCount), BothTargets(cfg));
  }

  /** All have acknowledged exactly when all who opted in are willing. */
  lemma AllAckedIffWilling(cfg: Config, env: Env, w: World)
    requires |w.parts| == cfg.nodeCount
    requires Members(env, w) && VotesListed(env, w) && AllAt(env, w.c.epoch, w.parts, 7)
    ensures |w.c.acks| == |w.c.participants| <==>
              forall i: nat :: i < cfg.nodeCount && env.optsIn(w.c.epoch, i) ==> Willing(env, w.c.epoch, i)
    ensures exists i: nat :: i < cfg.nodeCount && env.optsIn(w.c.epoch, i)
  {
    var e := w.c.epoch;
    var all, yes := Reached(env, e, w.parts, 0, true), Voted(env, e, w.parts, true);
    assert Reached(env, e, w.parts, 1, true) == all;
    ListsLength(w.c.acks, yes);
    ListsLength(w.c.participants, all);
    SubsetCount(yes, all);
    assert yes == all <==> forall i: nat :: i < cfg.nodeCount && env.optsIn(e, i) ==> Willing(env, e, i) by {
      assert forall i: nat :: i in all <==> i < cfg.nodeCount && env.optsIn(e, i);
      assert forall i: nat :: i in yes <==> i in all && Willing(env, e, i);
    }
    var i: nat :| i in all;
    assert i < cfg.nodeCount && env.optsIn(e, i);
  }

  /** The counted votes and the summed allocations say just whether the epoch commits. */
  lemma VerdictIsCommits(cfg: Config, lib: Consensus, env: Env, w: World)
    requires Clears(lib) && |w.parts| == cfg.nodeCount
    requires Members(env, w) && OffersListed(env, w) && VotesListed(env, w)
    requires AllAt(env, w.c.epoch, w.parts, 4) && AllAt(env, w.c.epoch, w.parts, 7)
    requires ProposalOk(cfg, lib, w) && w.c.proposal.Some?
    ensures |w.c.acks| == |w.c.participants| && TargetsMet(w.c.proposal.value, cfg.target) <==> Commits(cfg, lib, env, w.c.epoch)
  {
    AllAckedIffWilling(cfg, env, w);
    ProposalIsCanon(cfg, lib, env, w);
  }

  /** A handler behind the vote barrier reports the epoch's verdict. */
  lemma ResumeVerdict(cfg: Config, lib: Consensus, env: Env, w: World, k: Kind)
    requires Inv(cfg, lib, env, w) && (k.Ack? || k.Nack?) && Resolved(w.c, k)
    ensures w.c.proposal.Some?
    ensures Resume(cfg, lib, w.c, k) ==
              if Commits(cfg, lib, env, w.c.epoch) then (w.c.(result := w.c.proposal), Some(FinalCmd(w.c.proposal.value)))
              else (w.c.(bestPartial := w.c.proposal), Some(AbortCmd))
  {
    var e := w.c.epoch;
    var i: nat :| i in Reached(env, e, w.parts, 0, true);
    assert i in Reached(env, e, w.parts, 7, true) && i in Reached(env, e, w.parts, 4, true);
    assert GatesAt(env, w.c, i, w.parts[i]);
    assert Reached(env, e, w.parts, 4, true) == Reached(env, e, w.parts, 0, true) by {
      forall j | j in Reached(env, e, w.parts, 0, true) ensures j in Reached(env, e, w.parts, 4, true) {
        assert j in Reached(env, e, w.parts, 7, true);
      }
    }
    VerdictIsCommits(cfg, lib, env, w);
  }

  lemma ResumeKeeps(cfg: Config, lib: Consensus, env: Env, w: World, i: nat, w': World)
    requires Inv(cfg, lib, env, w) && i < |w.parts| && w.parts[i].pc.Suspended? && Resolved(w.c, w.parts[i].pc.msg.kind)
    requires w' == ResumeStep(cfg, lib, w, i)
    ensures Inv(cfg, lib, env, w')
    ensures w'.parts[i].pc.Replying? && Stage(w'.parts[i].pc) == Stage(w.parts[i].pc) + 1 && w'.c.epoch == w.c.epoch
    ensures w.c.proposal.Some? ==> w'.c.proposal == w.c.proposal
  {
    var e, k := w.c.epoch, w.parts[i].pc.msg.kind;
    assert Local(cfg, lib, env, w.c, i, w.parts[i]);
    assert GatesAt(env, w.c, i, w.parts[i]);
    if k.Ack? || k.Nack? { ResumeVerdict(cfg, lib, env, w, k); }
    MoveKeepsLists(env, w, i, w');
    OthersKept(cfg, lib, env, w, i, w');
    assert ResultOk(cfg, lib, env, w') by {
      forall j | 0 <= j < |w'.parts| ensures ResultAt(cfg, lib, env, w'.c, j, w'.parts[j]) {
        assert ResultAt(cfg, lib, env, w.c, j, w.parts[j]) && GatesAt(env, w.c, j, w.parts[j]);
      }
    }
  }

  /** Who verifies the proposal acknowledges exactly when its own maxima are not negative. */
  lemma VoteIsWillingness(cfg: Config, lib: Consensus, env: Env, w: World, i: nat)
    requires Clears(lib) && OffersListed(env, w) && ProposalOk(cfg, lib, w) && w.c.proposal.Some?
    requires i in Reached(env, w.c.epoch, w.parts, 4, true)
    ensures var r := w.c.proposal.value;
            Verify(lib, ProposalCmd(r, lib.hashOf(r), cfg.slot, w.c.epoch), i, env.draw(w.c.epoch, i), cfg.slot, w.c.epoch) ==
              if Willing(env, w.c.epoch, i) then Ack else Nack
  {
    var r := w.c.proposal.value;
    assert (i, env.draw(w.c.epoch, i)) in w.c.offers;
    var k :| 0 <= k < |w.c.offers| && w.c.offers[k] == (i, env.draw(w.c.epoch, i));
    assert ClearsAt(lib, cfg.slot, w.c.epoch, w.c.offers, BothTargets(cfg));
    ProposalAcceptable(cfg.slot, w.c.epoch, w.c.offers, BothTargets(cfg), lib.hashOffers, k);
    AllocForAt(r.allocations, k);
  }

  lemma ReplyKeeps(cfg: Config, lib: Consensus, env: Env, w: World, i: nat, w': World)
    requires Inv(cfg, lib, env, w) && i < |w.parts| && w.parts[i].pc.Replying?
    requires w' == ReplyStep(cfg, lib, env, w, i)
    ensures Inv(cfg, lib, env, w')
    ensures w'.c == w.c && Stage(w'.parts[i].pc) > Stage(w.parts[i].pc)
    ensures w'.parts[i].pc.Sending? || w'.parts[i].pc.Finished?
  {
    var e, p := w.c.epoch, w.parts[i];
    assert Local(cfg, lib, env, w.c, i, p) && GatesAt(env, w.c, i, p) && ResultAt(cfg, lib, env, w.c, i, p);
    if p.pc.reply.Some? && p.pc.reply.value.ProposalCmd? { VoteIsWillingness(cfg, lib, env, w, i); }
    MoveKeepsLists(env, w, i, w');
    OthersKept(cfg, lib, env, w, i, w');
    assert ResultOk(cfg, lib, env, w') by {
      forall j | 0 <= j < |w'.parts| ensures ResultAt(cfg, lib, env, w'.c, j, w'.parts[j]) {
        assert ResultAt(cfg, lib, env, w.c, j, w.parts[j]);
      }
    }
  }

  // ---- Epochs ----

  predicate SomeoneOptsIn(cfg: Config, env: Env, epoch: int) {
    exists i: nat :: i < cfg.nodeCount && env.optsIn(epoch, i)
  }

  /** What a finished run reports: the first epoch that commits, with its deal, and everybody agrees on it;
      or else that none does, with the deal of the last epoch (if anyone took part in it). */
  ghost predicate ReportOk(cfg: Config, lib: Consensus, env: Env, w: World) {
    match w.report
    case None => true
    case Some(Success(r, e)) =>
      && 1 <= e <= LastEpoch(cfg) && Commits(cfg, lib, env, e) && NoneCommitted(cfg, lib, env, e)
      && SameDeal(r, CanonProposal(cfg, lib, env, e))
      && |w.parts| == cfg.nodeCount
      && forall i :: 0 <= i < |w.parts| ==> w.parts[i].pc == Finished(if env.optsIn(e, i) then Some(r) else None)
    case Some(Failure(partial, e)) =>
      && e == LastEpoch(cfg) && NoneCommitted(cfg, lib, env, e + 1)
      && (SomeoneOptsIn(cfg, env, e) ==> partial.Some? && SameDeal(partial.value, CanonProposal(cfg, lib, env, e)))
  }

  lemma InitKeeps(cfg: Config, lib: Consensus, env: Env, e: int, bestPartial: Option<Proposal>, w: World)
    requires Clears(lib) && w == World(NewEpoch(e, None, bestPartial), NewParts(cfg, env, e), None)
    requires 1 <= e <= LastEpoch(cfg) && NoneCommitted(cfg, lib, env, e)
    ensures Inv(cfg, lib, env, w)
  {
    assert Reached(env, e, w.parts, 1, true) == {} && Reached(env, e, w.parts, 1, false) == {};
    assert Reached(env, e, w.parts, 4, true) == {} && Reached(env, e, w.parts, 7, true) == {};
    assert Voted(env, e, w.parts, true) == {} && Voted(env, e, w.parts, false) == {};
    if |w.parts| > 0 { assert Stage(w.parts[0].pc) == 0; }
  }

  lemma EpochVerdict(cfg: Config, lib: Consensus, env: Env, w: World)
    requires |w.parts| == cfg.nodeCount && AllFinished(w)
    requires Gates(env, w) && ResultOk(cfg, lib, env, w)
    ensures w.c.result.Some? <==> Commits(cfg, lib, env, w.c.epoch)
    ensures w.c.result.Some? ==> w.c.result == w.c.proposal
    ensures SomeoneOptsIn(cfg, env, w.c.epoch) ==>
              w.c.proposal.Some? && (w.c.result.None? ==> w.c.bestPartial == w.c.proposal)
  {
    if SomeoneOptsIn(cfg, env, w.c.epoch) {
      var i: nat :| i < cfg.nodeCount && env.optsIn(w.c.epoch, i);
      assert GatesAt(env, w.c, i, w.parts[i]) && ResultAt(cfg, lib, env, w.c, i, w.parts[i]);
    }
  }

  lemma EveryoneHas(cfg: Config, lib: Consensus, env: Env, w: World)
    requires Locals(cfg, lib, env, w) && AllFinished(w) && Commits(cfg, lib, env, w.c.epoch)
    ensures forall i :: 0 <= i < |w.parts| ==>
              w.parts[i].pc == Finished(if env.optsIn(w.c.epoch, i) then w.c.proposal else None)
  {
    forall i | 0 <= i < |w.parts|
      ensures w.parts[i].pc == Finished(if env.optsIn(w.c.epoch, i) then w.c.proposal else None)
    {
      assert Local(cfg, lib, env, w.c, i, w.parts[i]);
    }
  }

  lemma NextNone(cfg: Config, lib: Consensus, env: Env, e: int)
    requires NoneCommitted(cfg, lib, env, e) && !Commits(cfg, lib, env, e)
    ensures NoneCommitted(cfg, lib, env, e + 1)
  {
    forall f | 1 <= f < e + 1 ensures !Commits(cfg, lib, env, f) {
      if f < e { assert !Commits(cfg, lib, env, f); }
    }
  }

  lemma EpochSucceeds(cfg: Config, lib: Consensus, env: Env, w: World, w': World)
    requires Inv(cfg, lib, env, w) && AllFinished(w) && w.report.None? && w.c.result.Some?
    requires w' == EpochDone(cfg, env, w)
    ensures ReportOk(cfg, lib, env, w')
  {
    EpochVerdict(cfg, lib, env, w);
    ProposalIsCanon(cfg, lib, env, w);
    EveryoneHas(cfg, lib, env, w);
  }

  lemma EpochFails(cfg: Config, lib: Consensus, env: Env, w: World, w': World)
    requires Inv(cfg, lib, env, w) && AllFinished(w) && w.report.None? && w.c.result.None?
    requires w' == EpochDone(cfg, env, w)
    ensures w'.report.None? ==> Inv(cfg, lib, env, w')
    ensures ReportOk(cfg, lib, env, w')
  {
    var e := w.c.epoch;
    EpochVerdict(cfg, lib, env, w);
    NextNone(cfg, lib, env, e);
    if e < cfg.maxEpochs {
      InitKeeps(cfg, lib, env, e + 1, w.c.bestPartial, w');
    } else if w.c.proposal.Some? {
      ProposalIsCanon(cfg, lib, env, w);
    }
  }

  lemma EpochDoneKeeps(cfg: Config, lib: Consensus, env: Env, w: World, w': World)
    requires Inv(cfg, lib, env, w) && AllFinished(w) && w.report.None?
    requires w' == EpochDone(cfg, env, w)
    ensures w'.report.None? ==> Inv(cfg, lib, env, w')
    ensures w'.report.Some? ==> w' == w.(report := w'.report)
    ensures ReportOk(cfg, lib, env, w')
  {
    if w.c.result.Some? { EpochSucceeds(cfg, lib, env, w, w'); } else { EpochFails(cfg, lib, env, w, w'); }
  }

  /** The report alone does not touch what the invariant speaks of. */
  lemma InvFrame(cfg: Config, lib: Consensus, env: Env, w: World, w': World)
    requires Inv(cfg, lib, env, w) && w' == w.(report := w'.report)
    ensures Inv(cfg, lib, env, w')
  {
  }

  // ---- Runs ----

  /** Stages the participants still have before them. */
  function Remaining(parts: seq<Part>): nat {
    if parts == [] then 0 else Remaining(parts[..|parts| - 1]) + 9 - Stage(parts[|parts| - 1].pc)
  }

  lemma {:induction false} RemainingUpdate(parts: seq<Part>, i: nat, p: Part)
    requires i < |parts|
    ensures Remaining(parts[i := p]) == Remaining(parts) + Stage(parts[i].pc) - Stage(p.pc)
    decreases |parts|
  {
    var n := |parts| - 1;
    if i < n {
      RemainingUpdate(parts[..n], i, p);
      assert parts[i := p][..n] == parts[..n][i := p];
    } else {
      assert parts[i := p][..n] == parts[..n];
    }
  }

  lemma {:induction false} RemainingNew(parts: seq<Part>)
    requires forall i :: 0 <= i < |parts| ==> Stage(parts[i].pc) == 0
    ensures Remaining(parts) == 9 * |parts|
    decreases |parts|
  {
    if parts != [] { RemainingNew(parts[..|parts| - 1]); }
  }

  /** Steps a run can still take. */
  function Left(cfg: Config, w: World): int {
    if w.report.Some? then 0
    else 1 + Remaining(w.parts) + (LastEpoch(cfg) - w.c.epoch) * (9 * cfg.nodeCount + 1)
  }

  ghost predicate MovesOn(cfg: Config, lib: Consensus, env: Env, w: World, i: nat, w': World) {
    && i < |w.parts|
    && (|| (w.parts[i].pc.Sending? && w' == ArriveStep(cfg, w, i))
        || (w.parts[i].pc.Suspended? && Resolved(w.c, w.parts[i].pc.msg.kind) && w' == ResumeStep(cfg, lib, w, i))
        || (w.parts[i].pc.Replying? && w' == ReplyStep(cfg, lib, env, w, i)))
  }

  lemma MoveKeeps(cfg: Config, lib: Consensus, env: Env, w: World, i: nat, w': World)
    requires Inv(cfg, lib, env, w) && w.report.None? && MovesOn(cfg, lib, env, w, i, w')
    ensures Inv(cfg, lib, env, w') && w'.report.None? && w'.c.epoch == w.c.epoch
    ensures w.c.proposal.Some? ==> w'.c.proposal == w.c.proposal
    ensures w'.parts == w.parts[i := w'.parts[i]] && Stage(w'.parts[i].pc) > Stage(w.parts[i].pc)
  {
    if w.parts[i].pc.Sending? {
      ArriveKeeps(cfg, lib, env, w, i, w');
    } else if w.parts[i].pc.Suspended? {
      ResumeKeeps(cfg, lib, env, w, i, w');
    } else {
      ReplyKeeps(cfg, lib, env, w, i, w');
    }
  }

  lemma EpochsLeft(cfg: Config, e: int)
    requires e <= LastEpoch(cfg)
    ensures (LastEpoch(cfg) - e) * (9 * cfg.nodeCount + 1) >= 0
    ensures e < LastEpoch(cfg) ==>
              (LastEpoch(cfg) - e) * (9 * cfg.nodeCount + 1) ==
                (LastEpoch(cfg) - (e + 1)) * (9 * cfg.nodeCount + 1) + 9 * cfg.nodeCount + 1
  {
  }

  lemma EpochDoneCounts(cfg: Config, env: Env, w: World)
    requires w.report.None? && 1 <= w.c.epoch <= LastEpoch(cfg)
    ensures 0 <= Left(cfg, EpochDone(cfg, env, w)) < Left(cfg, w)
  {
    EpochsLeft(cfg, w.c.epoch);
    var w' := EpochDone(cfg, env, w);
    if w'.report.None? {
      RemainingNew(w'.parts);
      EpochsLeft(cfg, w'.c.epoch);
    }
  }

  ghost predicate Kept(cfg: Config, lib: Consensus, env: Env, w: World, w': World) {
    && Inv(cfg, lib, env, w') && ReportOk(cfg, lib, env, w')
    && w'.c.epoch >= w.c.epoch
    && (w'.c.epoch == w.c.epoch && w.c.proposal.Some? ==> w'.c.proposal == w.c.proposal)
    && 0 <= Left(cfg, w') < Left(cfg, w)
  }

  lemma EpochKept(cfg: Config, lib: Consensus, env: Env, w: World, w': World)
    requires Inv(cfg, lib, env, w) && w.report.None? && AllFinished(w) && w' == EpochDone(cfg, env, w)
    ensures Kept(cfg, lib, env, w, w')
  {
    EpochDoneKeeps(cfg, lib, env, w, w');
    EpochDoneCounts(cfg, env, w);
    if w'.report.Some? { InvFrame(cfg, lib, env, w, w'); }
  }

  lemma MoveCounts(cfg: Config, w: World, i: nat, w': World)
    requires i < |w.parts| == |w'.parts| && w'.parts == w.parts[i := w'.parts[i]]
    requires Stage(w'.parts[i].pc) > Stage(w.parts[i].pc)
    requires w.report.None? && w'.report.None? && w'.c.epoch == w.c.epoch <= LastEpoch(cfg)
    ensures 0 <= Left(cfg, w') < Left(cfg, w)
  {
    RemainingUpdate(w.parts, i, w'.parts[i]);
    EpochsLeft(cfg, w.c.epoch);
  }

  lemma MoveKept(cfg: Config, lib: Consensus, env: Env, w: World, i: nat, w': World)
    requires Inv(cfg, lib, env, w) && w.report.None? && MovesOn(cfg, lib, env, w, i, w')
    ensures Kept(cfg, lib, env, w, w')
  {
    MoveKeeps(cfg, lib, env, w, i, w');
    MoveCounts(cfg, w, i, w');
  }

  lemma StepCases(cfg: Config, lib: Consensus, env: Env, w: World, w': World)
    requires Step(cfg, lib, env, w, w')
    ensures (AllFinished(w) && w' == EpochDone(cfg, env, w)) || exists i: nat :: MovesOn(cfg, lib, env, w, i, w')
  {
    if !(AllFinished(w) && w' == EpochDone(cfg, env, w)) {
      if i: nat :| i < |w.parts| && w.parts[i].pc.Sending? && w' == ArriveStep(cfg, w, i) {
        assert MovesOn(cfg, lib, env, w, i, w');
      } else if i: nat :| i < |w.parts| && w.parts[i].pc.Replying? && w' == ReplyStep(cfg, lib, env, w, i) {
        assert MovesOn(cfg, lib, env, w, i, w');
      } else {
        var i: nat :| i < |w.parts| && w.parts[i].pc.Suspended? && Resolved(w.c, w.parts[i].pc.msg.kind) && w' == ResumeStep(cfg, lib, w, i);
        assert MovesOn(cfg, lib, env, w, i, w');
      }
    }
  }

  lemma StepKept(cfg: Config, lib: Consensus, env: Env, w: World, w': World)
    requires Inv(cfg, lib, env, w) && Step(cfg, lib, env, w, w')
    ensures Kept(cfg, lib, env, w, w')
  {
    StepCases(cfg, lib, env, w, w');
    if AllFinished(w) && w' == EpochDone(cfg, env, w) {
      EpochKept(cfg, lib, env, w, w');
    } else {
      var i: nat :| MovesOn(cfg, lib, env, w, i, w');
      MoveKept(cfg, lib, env, w, i, w');
    }
  }

  lemma BeginKept(cfg: Config, lib: Consensus, env: Env, w: World)
    requires Clears(lib) && w == Init(cfg, env)
    ensures Inv(cfg, lib, env, w) && ReportOk(cfg, lib, env, w)
    ensures 0 <= Left(cfg, w) <= LastEpoch(cfg) * (9 * cfg.nodeCount + 1)
  {
    InitKeeps(cfg, lib, env, 1, None, w);
    RemainingNew(w.parts);
    EpochsLeft(cfg, 0);
    EpochsLeft(cfg, 1);
  }

  lemma {:induction false} RunKept(cfg: Config, lib: Consensus, env: Env, ws: seq<World>, k: nat)
    requires Clears(lib) && IsRun(cfg, lib, env, ws) && k < |ws|
    ensures Inv(cfg, lib, env, ws[k]) && ReportOk(cfg, lib, env, ws[k])
    ensures 0 <= Left(cfg, ws[k]) <= LastEpoch(cfg) * (9 * cfg.nodeCount + 1) - k
    decreases k
  {
    if k == 0 {
      BeginKept(cfg, lib, env, ws[0]);
    } else {
      RunKept(cfg, lib, env, ws, k - 1);
      assert StepTo(cfg, lib, env, ws, k);
      StepKept(cfg, lib, env, ws[k - 1], ws[k]);
    }
  }

  // ---- Main results ----

  /** A run takes at most nine steps per participant and one more for each of at most `max(1, maxEpochs)` epochs. */
  lemma RunsEnd(cfg: Config, lib: Consensus, env: Env, ws: seq<World>)
    requires Clears(lib) && IsRun(cfg, lib, env, ws)
    ensures |ws| - 1 <= LastEpoch(cfg) * (9 * cfg.nodeCount + 1)
  {
    RunKept(cfg, lib, env, ws, |ws| - 1);
  }

  lemma SuspendedResolves(cfg: Config, lib: Consensus, env: Env, w: World, j: nat) returns (i: nat)
    requires Inv(cfg, lib, env, w)
    requires j < |w.parts| && w.parts[j].pc.Suspended?
    requires forall i :: 0 <= i < |w.parts| ==> w.parts[i].pc.Suspended? || w.parts[i].pc.Finished?
    ensures i < |w.parts| && w.parts[i].pc.Suspended? && Resolved(w.c, w.parts[i].pc.msg.kind)
  {
    var e := w.c.epoch;
    i := j;
    // The one furthest behind waits for a barrier nobody is missing at.
    if l: nat :| l < |w.parts| && w.parts[l].pc.Suspended? && Stage(w.parts[l].pc) < Stage(w.parts[i].pc) { i := l; }
    if l: nat :| l < |w.parts| && w.parts[l].pc.Suspended? && Stage(w.parts[l].pc) < Stage(w.parts[i].pc) { i := l; }
    var k := Stage(w.parts[i].pc);
    assert forall l: nat :: l < |w.parts| ==> Stage(w.parts[l].pc) >= k;
    assert Local(cfg, lib, env, w.c, i, w.parts[i]);
    assert env.optsIn(e, i) ==> AllAt(env, e, w.parts, k) by {
      if env.optsIn(e, i) {
        assert i in Reached(env, e, w.parts, 0, true);
        assert Reached(env, e, w.parts, k, true) == Reached(env, e, w.parts, 0, true);
      }
    }
  }

  lemma SomeStep(cfg: Config, lib: Consensus, env: Env, last: World) returns (w: World)
    requires Inv(cfg, lib, env, last) && last.report.None?
    ensures Step(cfg, lib, env, last, w)
  {
    if AllFinished(last) {
      w := EpochDone(cfg, env, last);
    } else if i: nat :| i < |last.parts| && last.parts[i].pc.Sending? {
      w := ArriveStep(cfg, last, i);
    } else if i: nat :| i < |last.parts| && last.parts[i].pc.Replying? {
      w := ReplyStep(cfg, lib, env, last, i);
    } else {
      var j: nat :| j < |last.parts| && !last.parts[j].pc.Finished?;
      var i := SuspendedResolves(cfg, lib, env, last, j);
      w := ResumeStep(cfg, lib, last, i);
    }
  }

  /** No reachable state is stuck: until the report is out, some handler, reply or epoch end can go on. */
  lemma NoDeadlock(cfg: Config, lib: Consensus, env: Env, ws: seq<World>)
    requires Clears(lib) && IsRun(cfg, lib, env, ws) && ws[|ws| - 1].report.None?
    ensures exists w :: IsRun(cfg, lib, env, ws + [w])
  {
    RunKept(cfg, lib, env, ws, |ws| - 1);
    var w := SomeStep(cfg, lib, env, ws[|ws| - 1]);
    assert IsRun(cfg, lib, env, ws + [w]) by {
      var ws' := ws + [w];
      forall k | 0 < k < |ws'| ensures StepTo(cfg, lib, env, ws', k) {
        if k < |ws| { assert StepTo(cfg, lib, env, ws, k); }
      }
    }
  }

  /** Nobody is asked for an offer before all have answered. */
  lemma OffersFollowAnswers(cfg: Config, lib: Consensus, env: Env, ws: seq<World>, k: nat, i: nat)
    requires Clears(lib) && IsRun(cfg, lib, env, ws) && k < |ws| && i < |ws[k].parts| && ws[k].parts[i].pc == Replying(Some(GetOffer))
    ensures forall j: nat :: j < |ws[k].parts| ==>
              (j in ws[k].c.participants <==> env.optsIn(ws[k].c.epoch, j)) && (j in ws[k].c.nonParticipants <==> !env.optsIn(ws[k].c.epoch, j))
  {
    RunKept(cfg, lib, env, ws, k);
    assert GatesAt(env, ws[k].c, i, ws[k].parts[i]);
  }

  /** No proposal goes out before every participant's own offer is in, and what goes out is cleared from just these. */
  lemma ProposalsFollowOffers(cfg: Config, lib: Consensus, env: Env, ws: seq<World>, k: nat, i: nat)
    requires Clears(lib) && IsRun(cfg, lib, env, ws) && k < |ws| && i < |ws[k].parts|
    requires ws[k].parts[i].pc.Replying? && ws[k].parts[i].pc.reply.Some? && ws[k].parts[i].pc.reply.value.ProposalCmd?
    ensures var c, r := ws[k].c, ws[k].parts[i].pc.reply.value.result;
            && multiset(c.offers) == multiset(Canon(env, c.epoch, cfg.nodeCount))
            && r == lib.propose(cfg.slot, c.epoch, c.offers, BothTargets(cfg))
            && SameDeal(r, CanonProposal(cfg, lib, env, c.epoch))
  {
    RunKept(cfg, lib, env, ws, k);
    var w := ws[k];
    assert GatesAt(env, w.c, i, w.parts[i]) && Local(cfg, lib, env, w.c, i, w.parts[i]);
    OffersAreCanon(env, w.c.epoch, w.c.offers, w.parts);
    ProposalIsCanon(cfg, lib, env, w);
  }

  lemma OneStep(cfg: Config, lib: Consensus, env: Env, ws: seq<World>, k: nat, w: World, w': World)
    requires Clears(lib) && IsRun(cfg, lib, env, ws) && k + 1 < |ws| && w == ws[k] && w' == ws[k + 1]
    ensures w.c.epoch <= w'.c.epoch
    ensures w'.c.epoch == w.c.epoch && w.c.proposal.Some? ==> w'.c.proposal == w.c.proposal
  {
    RunKept(cfg, lib, env, ws, k);
    assert StepTo(cfg, lib, env, ws, k + 1);
    StepKept(cfg, lib, env, w, w');
  }

  /** Within an epoch, a proposal once made stays. */
  predicate Later(c: Coordinator, c': Coordinator) {
    && c.epoch <= c'.epoch
    && (c.epoch == c'.epoch && c.proposal.Some? ==> c'.proposal == c.proposal)
  }

  lemma {:induction false} EpochsRise(cfg: Config, lib: Consensus, env: Env, ws: seq<World>, k: nat, l: nat)
    requires Clears(lib) && IsRun(cfg, lib, env, ws) && k <= l < |ws|
    ensures Later(ws[k].c, ws[l].c)
    decreases l
  {
    if k < l {
      EpochsRise(cfg, lib, env, ws, k, l - 1);
      OneStep(cfg, lib, env, ws, l - 1, ws[l - 1], ws[l]);
    }
  }

  /** All participants of an epoch, whenever they are served, get the same proposal under the same digest. */
  lemma OneProposalPerEpoch(cfg: Config, lib: Consensus, env: Env, ws: seq<World>, k: nat, l: nat, i: nat, j: nat)
    requires Clears(lib) && IsRun(cfg, lib, env, ws) && k <= l < |ws| && ws[k].c.epoch == ws[l].c.epoch
    requires i < |ws[k].parts| && ws[k].parts[i].pc.Replying? && ws[k].parts[i].pc.reply.Some?
    requires j < |ws[l].parts| && ws[l].parts[j].pc.Replying? && ws[l].parts[j].pc.reply.Some?
    requires ws[k].parts[i].pc.reply.value.ProposalCmd? && ws[l].parts[j].pc.reply.value.ProposalCmd?
    ensures ws[k].parts[i].pc.reply == ws[l].parts[j].pc.reply
  {
    RunKept(cfg, lib, env, ws, k);
    RunKept(cfg, lib, env, ws, l);
    EpochsRise(cfg, lib, env, ws, k, l);
    assert Local(cfg, lib, env, ws[k].c, i, ws[k].parts[i]) && Local(cfg, lib, env, ws[l].c, j, ws[l].parts[j]);
  }

  /** Verdicts: FINAL goes out exactly in epochs that commit, so never beside ABORT; and then every participant
      has acknowledged, none has not, and the proposal's own totals meet the target. */
  lemma VerdictsAgree(cfg: Config, lib: Consensus, env: Env, ws: seq<World>, k: nat, i: nat)
    requires Clears(lib) && IsRun(cfg, lib, env, ws) && k < |ws| && i < |ws[k].parts|
    requires ws[k].parts[i].pc.Replying? && ws[k].parts[i].pc.reply.Some?
    ensures var reply, c := ws[k].parts[i].pc.reply.value, ws[k].c;
            && (reply.FinalCmd? ==>
                  && Commits(cfg, lib, env, c.epoch) && c.proposal == Some(reply.result)
                  && c.nacks == [] && multiset(c.acks) == multiset(c.participants)
                  && TargetsMet(reply.result, cfg.target))
            && (reply.AbortCmd? ==> !Commits(cfg, lib, env, c.epoch))
  {
    RunKept(cfg, lib, env, ws, k);
    var w := ws[k];
    assert GatesAt(env, w.c, i, w.parts[i]) && Local(cfg, lib, env, w.c, i, w.parts[i]);
    if w.parts[i].pc.reply.value.FinalCmd? {
      VerdictIsCommits(cfg, lib, env, w);
      var e := w.c.epoch;
      assert Voted(env, e, w.parts, false) == {};
      ListsLength(w.c.nacks, {});
      assert Voted(env, e, w.parts, true) == Reached(env, e, w.parts, 1, true);
      SameListed(w.c.acks, w.c.participants, Reached(env, e, w.parts, 1, true));
    }
  }

  lemma {:induction false} ListedOnce(s: seq<Id>, ids: set<Id>, x: Id)
    requires Lists(s, ids)
    ensures multiset(s)[x] == if x in ids then 1 else 0
    decreases |s|
  {
    if s != [] {
      assert s == [s[0]] + s[1..];
      assert s[0] in ids;
      assert forall y: nat :: y in s <==> y == s[0] || y in s[1..];
      ListedOnce(s[1..], ids - {s[0]}, x);
    }
  }

  lemma SameListed(s: seq<Id>, t: seq<Id>, ids: set<Id>)
    requires Lists(s, ids) && Lists(t, ids)
    ensures multiset(s) == multiset(t)
  {
    forall x: Id ensures multiset(s)[x] == multiset(t)[x] {
      ListedOnce(s, ids, x);
      ListedOnce(t, ids, x);
    }
  }

  /** The outcome is a function of who opts in and what is drawn: every complete run, however its handlers
      interleave, reports the first epoch that commits, with the deal of that epoch's offers and held by every
      participant; or, if none does, the deal of the last epoch. */
  lemma OutcomeIgnoresInterleaving(cfg: Config, lib: Consensus, env: Env, ws: seq<World>)
    requires Clears(lib) && IsRun(cfg, lib, env, ws) && ws[|ws| - 1].report.Some?
    ensures ReportOk(cfg, lib, env, ws[|ws| - 1])
  {
    RunKept(cfg, lib, env, ws, |ws| - 1);
  }

  lemma SuccessIsFirstCommit(cfg: Config, lib: Consensus, env: Env, w: World)
    requires w.report.Some? && ReportOk(cfg, lib, env, w)
    ensures w.report.value.Success? <==> exists e :: 1 <= e <= LastEpoch(cfg) && Commits(cfg, lib, env, e)
    ensures w.report.value.Success? ==>
              && 1 <= w.report.value.epochsNeeded <= LastEpoch(cfg) && Commits(cfg, lib, env, w.report.value.epochsNeeded)
              && forall e :: 1 <= e <= LastEpoch(cfg) && Commits(cfg, lib, env, e) ==> w.report.value.epochsNeeded <= e
  {
  }

  /** So two runs on the same environment never differ in success, epoch, prices or anybody's allocation. */
  lemma TwoRunsAgree(cfg: Config, lib: Consensus, env: Env, ws: seq<World>, vs: seq<World>)
    requires Clears(lib) && IsRun(cfg, lib, env, ws) && IsRun(cfg, lib, env, vs)
    requires ws[|ws| - 1].report.Some? && vs[|vs| - 1].report.Some?
    ensures var a, b := ws[|ws| - 1].report.value, vs[|vs| - 1].report.value;
            && a.Success? == b.Success?
            && (a.Success? ==> a.epochsNeeded == b.epochsNeeded && SameDeal(a.result, b.result))
            && (a.Failure? ==> a.totalEpochsAttempted == b.totalEpochsAttempted)
            && (a.Failure? && SomeoneOptsIn(cfg, env, LastEpoch(cfg)) ==>
                  a.partial.Some? && b.partial.Some? && SameDeal(a.partial.value, b.partial.value))
  {
    OutcomeIgnoresInterleaving(cfg, lib, env, ws);
    OutcomeIgnoresInterleaving(cfg, lib, env, vs);
    SuccessIsFirstCommit(cfg, lib, env, ws[|ws| - 1]);
    SuccessIsFirstCommit(cfg, lib, env, vs[|vs| - 1]);
  }
}
