/**
 The product of the dense server and its workers. A step is one worker composing its next
 request, the server handling one request, or one worker taking its response; every order of
 steps and every clock reading is a run, including runs in which a timeout fails the job.
 */
module DenseCluster {
  import opened DenseServer
  import opened DenseWorker
  import opened DenseTraining

  datatype Stage = Joining | Training | Polling

  datatype Link =
    | Ready
    | Sent(request: Request)
    | Got(asked: Request, reply: Reply)
    | Stopped
    | Crashed

  datatype Peer = Peer(replica: Replica, batch: nat, stage: Stage, link: Link)

  datatype System = System(server: Server, peers: seq<Peer>)

  /** A worker takes a step, or somebody asks the server to check the timeouts. */
  datatype Event = Move(w: nat, checked: real, seen: real) | Check(now: real)

  // ----- steps -----

  function Initial(c: Setup): System {
    System(
      Server(c.start, c.memory, {}, map[], map[], {}, 0),
      seq(c.world, _ => Peer(Replica(0, false, c.start, 0), 0, Joining, Ready)))
  }

  /** The next request of a worker; a batch part without samples would raise. */
  function Compose(c: Setup, w: nat, p: Peer): Peer
    requires 0 < c.world <= c.batchSize && w < c.world
  {
    if p.stage.Joining? then Asking(w, p, p.replica.version, Register(c.schema))
    else if p.stage.Polling? then Asking(w, p, p.replica.version + 1, Pull)
    else if p.batch < Total(c) then
      var local := Local(c, p.replica.params, BatchAt(c, p.batch), w);
      if local.count == 0 then p.(link := Crashed)
      else Asking(w, p, p.replica.version, Push(local.count, local.gradients))
    else Asking(w, p, p.replica.version, Shutdown)
  }

  function Asking(w: nat, p: Peer, step: int, body: Body): Peer {
    var (r, request) := Ask(w, p.replica, step, body);
    p.(replica := r, link := Sent(request))
  }

  function Deliver(c: Setup, p: Peer): Peer
    requires p.link.Got? && |p.replica.params| == |c.schema|
  {
    var (r, verdict) := Receive(c.schema, p.replica, p.link.asked, p.link.reply);
    if verdict.Raised? then p.(replica := r, link := Crashed)
    else match p.link.asked.body
      case Register(_) => p.(replica := r, stage := Training, link := Ready)
      case Shutdown => p.(replica := r, link := Stopped)
      case _ =>
        if verdict.Installed? then Peer(r, p.batch + 1, Training, Ready)
        else p.(replica := r, stage := Polling, link := Ready)
  }

  ghost predicate Sized(c: Setup, sys: System) {
    |sys.peers| == c.world && forall w | 0 <= w < c.world :: |sys.peers[w].replica.params| == |c.schema|
  }

  function Moved(c: Setup, sys: System, w: nat, checked: real, seen: real): System
    requires 0 < c.world <= c.batchSize && Sized(c, sys)
  {
    if w >= c.world then sys
    else match sys.peers[w].link
      case Ready => sys.(peers := sys.peers[w := Compose(c, w, sys.peers[w])])
      case Sent(request) =>
        var (server, reply) := Handle(JobOf(c), sys.server, request, checked, seen);
        System(server, sys.peers[w := sys.peers[w].(link := Got(request, reply))])
      case Got(_, _) => sys.(peers := sys.peers[w := Deliver(c, sys.peers[w])])
      case _ => sys
  }

  function Step(c: Setup, sys: System, e: Event): System
    requires 0 < c.world <= c.batchSize && Sized(c, sys)
  {
    match e
    case Move(w, checked, seen) => Moved(c, sys, w, checked, seen)
    case Check(now) => sys.(server := CheckTimeouts(JobOf(c), sys.server, now))
  }

  function Run(c: Setup, events: seq<Event>): (sys: System)
    requires 0 < c.world <= c.batchSize && Shaped(c.start, c.schema)
    ensures Sized(c, sys)
  {
    if events == [] then Initial(c)
    else
      var before := Run(c, events[..|events| - 1]);
      StepKeepsSize(c, before, events[|events| - 1]);
      Step(c, before, events[|events| - 1])
  }

  lemma StepKeepsSize(c: Setup, sys: System, e: Event)
    requires 0 < c.world <= c.batchSize && Sized(c, sys)
    ensures Sized(c, Step(c, sys, e))
  {
    if e.Move? && e.w < c.world && sys.peers[e.w].link.Got? {
      ReceiveKeepsSize(c.schema, sys.peers[e.w].replica, sys.peers[e.w].link.asked, sys.peers[e.w].link.reply);
    }
  }

  // ----- the joint invariant -----

  /** What one worker can tell from the server: its step, and how the server lists the worker. */
  datatype Standing = Standing(step: nat, held: bool, known: bool, failed: bool)

  function StandingOf(s: Server, w: nat): Standing {
    Standing(s.step, w in s.pending, w in s.registered, s.lost != {})
  }

  /** The worker has pushed its batch and has not yet taken the next version. */
  predicate Submitted(c: Setup, st: Standing, v: nat)
    requires 0 < c.world <= c.batchSize
  {
    v < Total(c) && (st.failed || if st.held then v == st.step else v + 1 == st.step)
  }

  /** The worker is at the server's step and owes it nothing. */
  predicate Fresh(st: Standing, v: nat) {
    v == st.step && !st.held
  }

  ghost predicate AskedRight(c: Setup, st: Standing, w: nat, p: Peer, r: Request)
    requires 0 < c.world <= c.batchSize && w < c.world
  {
    var v := p.replica.version;
    && r.id == p.replica.counter && r.worker == w
    && match p.stage
       case Joining => r.body == Register(c.schema)
       case Polling => r.body == Pull && r.step == v + 1
       case Training =>
         && r.step == v
         && if v < Total(c)
            then
              var local := Local(c, Trained(c, v).params, BatchAt(c, v), w);
              r.body == Push(local.count, local.gradients)
            else r.body == Shutdown
  }

  ghost predicate AnsweredRight(c: Setup, st: Standing, p: Peer, body: Body, reply: Reply)
    requires 0 < c.world <= c.batchSize
  {
    var v := p.replica.version;
    || (st.failed && reply.answer == Error(WorkerTimeout))
    || match body
       case Register(_) => reply == Reply(reply.id, v, Parameters(Trained(c, v).params)) && Fresh(st, v) && st.known
       case Shutdown => reply.answer == Acknowledged && v == Total(c) && Fresh(st, v)
       case _ =>
         && v < Total(c)
         && if reply.answer.Parameters?
            then reply == Reply(reply.id, v + 1, Parameters(Trained(c, v + 1).params)) && Fresh(st, v + 1)
            else reply.answer.Waiting? && Submitted(c, st, v)
  }

  ghost predicate PeerInv(c: Setup, st: Standing, w: nat, p: Peer)
    requires 0 < c.world <= c.batchSize && w < c.world
  {
    var v := p.replica.version;
    && p.replica.params == Trained(c, v).params
    && p.batch == v <= Total(c)
    && v <= st.step <= v + 1
    && (st.held ==> v == st.step && v < Total(c))
    && (p.stage.Joining? || st.known)
    && (p.stage.Joining? ==> v == 0)
    && match p.link
       case Ready => if p.stage.Polling? then Submitted(c, st, v) else Fresh(st, v)
       case Sent(r) =>
         AskedRight(c, st, w, p, r) && if p.stage.Polling? then Submitted(c, st, v) else Fresh(st, v)
       case Got(r, reply) =>
         AskedRight(c, st, w, p, r) && reply.id == r.id && AnsweredRight(c, st, p, r.body, reply)
       case Stopped => v == Total(c) && Fresh(st, v)
       case Crashed => st.failed
  }

  ghost predicate PendingRight(c: Setup, s: Server)
    requires 0 < c.world <= c.batchSize
  {
    forall w: nat | w < c.world && w in s.pending ::
      s.pending[w] == Local(c, Trained(c, s.step).params, BatchAt(c, s.step), w)
  }

  ghost predicate Inv(c: Setup, sys: System)
    requires 0 < c.world <= c.batchSize
  {
    && Sized(c, sys)
    && ServerInv(JobOf(c), sys.server)
    && sys.server.step <= Total(c)
    && Model(sys.server.params, sys.server.memory) == Trained(c, sys.server.step)
    && PendingRight(c, sys.server)
    && forall w: nat | w < c.world :: PeerInv(c, StandingOf(sys.server, w), w, sys.peers[w])
  }

  lemma InitialInv(c: Setup)
    requires ValidSetup(c)
    ensures Inv(c, Initial(c))
  {
    JobIsValid(c);
    assert 0 in Everyone(Ids(c.world));
    TrainedIsShaped(c, 0);
  }

  // ----- how a worker's standing can change while it is not the one that moves -----

  predicate Elsewhere(a: Standing, b: Standing) {
    || a == b
    || (b.failed && !b.held && b.step == a.step && b.known == a.known)
    || (!a.failed && a.held && b == a.(step := a.step + 1, held := false))
  }

  lemma ElsewhereKeeps(c: Setup, a: Standing, b: Standing, w: nat, p: Peer)
    requires 0 < c.world <= c.batchSize && w < c.world
    requires PeerInv(c, a, w, p) && Elsewhere(a, b)
    ensures PeerInv(c, b, w, p)
  {
    hide Local, Trained, BatchAt, Total;
  }

  // ----- the server handles one request -----

  /** What one server step must leave: the model of the single process, and every standing in order. */
  ghost predicate ServerMoves(c: Setup, s: Server, t: Server, w: nat)
    requires 0 < c.world <= c.batchSize
  {
    && t.step <= Total(c)
    && Model(t.params, t.memory) == Trained(c, t.step)
    && PendingRight(c, t)
    && forall u: nat | u < c.world && u != w :: Elsewhere(StandingOf(s, u), StandingOf(t, u))
  }

  ghost predicate ServerRight(c: Setup, s: Server)
    requires 0 < c.world <= c.batchSize
  {
    && ServerInv(JobOf(c), s) && s.step <= Total(c)
    && Model(s.params, s.memory) == Trained(c, s.step) && PendingRight(c, s)
  }

  lemma CheckMoves(c: Setup, s: Server, now: real)
    requires ValidSetup(c) && ServerRight(c, s)
    ensures ServerRight(c, CheckTimeouts(JobOf(c), s, now))
    ensures forall u: nat | u < c.world :: Elsewhere(StandingOf(s, u), StandingOf(CheckTimeouts(JobOf(c), s, now), u))
  {
    JobIsValid(c);
    assert 0 in Everyone(Ids(c.world));
  }

  lemma CheckedOnce(job: Job, s: Server, r: Request, checked: real, seen: real)
    ensures Handle(job, s, r, checked, seen) == Handle(job, CheckTimeouts(job, s, checked), r, checked, seen)
  {
    hide Dispatch;
  }

  /** The push that leaves others still to submit. */
  lemma HeldMoves(c: Setup, s: Server, w: nat)
    requires ValidSetup(c) && ServerRight(c, s) && w < c.world && w !in s.pending && s.lost == {}
    ensures var local := Local(c, Trained(c, s.step).params, BatchAt(c, s.step), w);
            ServerMoves(c, s, s.(pending := s.pending[w := local]), w)
  {
    hide Trained, Local, BatchAt, Total;
  }

  /** The push that completes the step: the server takes the single process's next step. */
  lemma AppliedMoves(c: Setup, s: Server, held: Server, w: nat)
    requires ValidSetup(c) && s.step < Total(c) && w < c.world && s.lost == {}
    requires Model(s.params, s.memory) == Trained(c, s.step) && PendingRight(c, held)
    requires held.pending.Keys == Everyone(Ids(c.world)) && s.pending.Keys == held.pending.Keys - {w}
    requires held == s.(pending := held.pending)
    ensures ServerMoves(c, s, Applied(JobOf(c), held), w)
    ensures Applied(JobOf(c), held) == held.(
              step := s.step + 1, pending := map[],
              params := Trained(c, s.step + 1).params, memory := Trained(c, s.step + 1).memory)
  {
    hide Local, Average, Mean, Schedule;
    JobIsValid(c);
    ScheduledBatchesAreLarge(c.orders, c.batchSize, c.world);
    forall u: nat | u < c.world ensures u in held.pending {
      assert u in Everyone(Ids(c.world));
    }
    var p := Trained(c, s.step).params;
    assert AllSubmitted(c, p, BatchAt(c, s.step), held.pending);
    AverageIsGlobalMean(c, p, BatchAt(c, s.step), held.pending);
  }

  lemma LocalIsAccepted(c: Setup, t: nat, w: nat)
    requires ValidSetup(c) && t < Total(c) && w < c.world
    ensures var local := Local(c, Trained(c, t).params, BatchAt(c, t), w);
            && local.count > 0 && Shaped(local.gradients, c.schema)
            && PayloadError(c.schema, local.count, local.gradients) == []
  {
    hide Trained, Schedule;
    ScheduledBatchesAreLarge(c.orders, c.batchSize, c.world);
  }

  /** A push in order passes every check of the server. */
  lemma PushIsTaken(c: Setup, s: Server, w: nat, p: Peer, r: Request)
    requires ValidSetup(c) && w < c.world && p.link == Sent(r)
    requires PeerInv(c, StandingOf(s, w), w, p) && p.stage.Training? && p.replica.version < Total(c)
    ensures s.step < Total(c) && r.body.Push? && r.worker == w && r.step == s.step && w !in s.pending
    ensures Submission(r.body.count, r.body.gradients) == Local(c, Trained(c, s.step).params, BatchAt(c, s.step), w)
    ensures PayloadError(c.schema, r.body.count, r.body.gradients) == []
  {
    LocalIsAccepted(c, s.step, w);
    hide Local, Trained, BatchAt, Total, PayloadError;
  }

  lemma TakenPush(job: Job, s: Server, r: Request)
    requires r.body.Push? && r.step == s.step && r.worker !in s.pending
    requires PayloadError(job.schema, r.body.count, r.body.gradients) == []
    ensures var held := s.(pending := s.pending[r.worker := Submission(r.body.count, r.body.gradients)]);
            Submit(job, s, r)
            == if held.pending.Keys != Everyone(job.workers) then (held, Waiting(held.pending.Keys))
               else (Applied(job, held), Parameters(Applied(job, held).params))
  {
    hide PayloadError, Applied, Everyone;
  }

  /** The two answers an accepted push can get both leave the sender in order. */
  lemma PushAnswered(c: Setup, a: Standing, b: Standing, w: nat, p: Peer, r: Request, reply: Reply)
    requires 0 < c.world <= c.batchSize && w < c.world && p.link == Sent(r) && PeerInv(c, a, w, p)
    requires p.stage.Training? && p.replica.version < Total(c) && reply.id == r.id
    requires || (b == a.(held := true) && reply.answer.Waiting?)
             || (b == a.(step := a.step + 1, held := false)
                 && reply == Reply(r.id, a.step + 1, Parameters(Trained(c, a.step + 1).params)))
    ensures PeerInv(c, b, w, p.(link := Got(r, reply)))
  {
    hide Local, Trained, BatchAt, Total;
  }

  lemma PushMoves(c: Setup, s: Server, w: nat, p: Peer, r: Request)
    requires ValidSetup(c) && ServerRight(c, s) && w < c.world && s.lost == {} && p.link == Sent(r)
    requires PeerInv(c, StandingOf(s, w), w, p) && p.stage.Training? && p.replica.version < Total(c)
    ensures r.body.Push?
    ensures var (t, answer) := Submit(JobOf(c), s, r);
            && ServerMoves(c, s, t, w)
            && PeerInv(c, StandingOf(t, w), w, p.(link := Got(r, Reply(r.id, t.step, answer))))
  {
    PushIsTaken(c, s, w, p, r);
    HeldMoves(c, s, w);
    TakenPush(JobOf(c), s, r);
    hide Local, Trained, BatchAt, Total, PayloadError, Average, ServerInv, ValidSetup, Submit;
    var held := s.(pending := s.pending[w := Submission(r.body.count, r.body.gradients)]);
    if held.pending.Keys == Everyone(Ids(c.world)) {
      assert s.pending.Keys == held.pending.Keys - {w};
      AppliedMoves(c, s, held, w);
      hide Applied, ServerMoves, PendingRight, Everyone, Ids, PeerInv;
      var t := Applied(JobOf(c), held);
      PushAnswered(c, StandingOf(s, w), StandingOf(t, w), w, p, r, Reply(r.id, t.step, Parameters(t.params)));
    } else {
      hide ServerMoves, Elsewhere, PendingRight, Everyone, Ids, PeerInv;
      var answer := Waiting(held.pending.Keys);
      PushAnswered(c, StandingOf(s, w), StandingOf(held, w), w, p, r, Reply(r.id, s.step, answer));
    }
  }

  lemma OtherMoves(c: Setup, s: Server, w: nat, p: Peer, r: Request, seen: real)
    requires ValidSetup(c) && ServerRight(c, s) && w < c.world && s.lost == {} && p.link == Sent(r)
    requires PeerInv(c, StandingOf(s, w), w, p) && w in s.registered
    requires p.stage.Polling? || (p.stage.Training? && p.replica.version == Total(c))
    ensures r.body.Pull? || r.body.Shutdown?
    ensures var (t, answer) := Dispatch(JobOf(c), s, r);
            t == s && PeerInv(c, StandingOf(s, w), w, p.(link := Got(r, Reply(r.id, s.step, answer))))
  {
    hide Local, Trained, BatchAt, Total, Submit;
  }

  lemma LastSeenIsSilent(c: Setup, s: Server, seen: map<Id, real>)
    requires 0 < c.world <= c.batchSize && ServerRight(c, s) && s.lastSeen.Keys <= seen.Keys
    ensures ServerRight(c, s.(lastSeen := seen))
  {
    hide Local, Trained, BatchAt, Total;
  }

  lemma RegisterMoves(c: Setup, s: Server, w: nat, p: Peer, r: Request, seen: real)
    requires ValidSetup(c) && ServerRight(c, s) && w < c.world && s.lost == {} && p.link == Sent(r)
    requires PeerInv(c, StandingOf(s, w), w, p) && p.stage.Joining?
    ensures var t := s.(registered := s.registered + {w}, lastSeen := s.lastSeen[w := seen]);
            && r.body == Register(c.schema) && r.worker == w
            && ServerMoves(c, s, t, w)
            && PeerInv(c, StandingOf(t, w), w, p.(link := Got(r, Reply(r.id, s.step, Parameters(s.params)))))
  {
    hide Local, Trained, BatchAt, Total;
  }

  /** The request of a worker in order is never refused, except after a timeout has failed the job. */
  lemma ServeMoves(c: Setup, s: Server, w: nat, p: Peer, r: Request, checked: real, seen: real)
    requires ValidSetup(c) && ServerRight(c, s) && w < c.world && p.link == Sent(r)
    requires PeerInv(c, StandingOf(s, w), w, p) && CheckTimeouts(JobOf(c), s, checked) == s
    ensures var (t, reply) := Handle(JobOf(c), s, r, checked, seen);
            && ServerMoves(c, s, t, w)
            && PeerInv(c, StandingOf(t, w), w, p.(link := Got(r, reply)))
  {
    JobIsValid(c);
    if s.lost != {} {
      FailureIsFinal(JobOf(c), s, r, checked, seen);
      FailedServe(c, s, w, p, r);
    } else if p.stage.Joining? {
      RegisterMoves(c, s, w, p, r, seen);
      hide Dispatch, PeerInv, ServerMoves;
    } else {
      var noted := s.(lastSeen := s.lastSeen[w := seen]);
      LastSeenIsSilent(c, s, noted.lastSeen);
      assert StandingOf(noted, w) == StandingOf(s, w);
      assert r.worker == w && w in s.registered && !r.body.Register?;
      if p.stage.Training? && p.replica.version < Total(c) {
        PushMoves(c, noted, w, p, r);
      } else {
        OtherMoves(c, noted, w, p, r, seen);
      }
      hide Submit, PeerInv, Local, Trained, BatchAt, Total, PendingRight;
      assert forall u: nat | u < c.world :: StandingOf(noted, u) == StandingOf(s, u);
    }
  }

  lemma FailedServe(c: Setup, s: Server, w: nat, p: Peer, r: Request)
    requires 0 < c.world <= c.batchSize && ServerRight(c, s) && w < c.world && p.link == Sent(r) && s.lost != {}
    requires PeerInv(c, StandingOf(s, w), w, p)
    ensures ServerMoves(c, s, s, w)
    ensures PeerInv(c, StandingOf(s, w), w, p.(link := Got(r, Reply(r.id, s.step, Error(WorkerTimeout)))))
  {
    hide Local, Trained, BatchAt, Total;
  }

  // ----- the worker moves -----

  lemma ComposeKeeps(c: Setup, st: Standing, w: nat, p: Peer)
    requires ValidSetup(c) && w < c.world && p.link.Ready? && PeerInv(c, st, w, p)
    ensures PeerInv(c, st, w, Compose(c, w, p)) && Compose(c, w, p).link.Sent?
  {
    if p.batch < Total(c) {
      LocalIsAccepted(c, p.batch, w);
    }
    hide Local, Trained, BatchAt, Total;
  }

  /** Parameters in order are taken whole: the replica holds the single process's next version. */
  lemma DeliverKeeps(c: Setup, st: Standing, w: nat, p: Peer)
    requires ValidSetup(c) && w < c.world && p.link.Got? && PeerInv(c, st, w, p) && |p.replica.params| == |c.schema|
    ensures PeerInv(c, st, w, Deliver(c, p))
  {
    var v := p.replica.version;
    TrainedIsShaped(c, v);
    TrainedIsShaped(c, v + 1);
    hide Local, Trained, BatchAt, Total;
    var reply := p.link.reply;
    if reply.answer.Parameters? {
      assert Shaped(reply.answer.params, c.schema);
      InstallsWhole(c.schema, p.replica, reply);
    }
    hide Install;
  }

  lemma InstallsWhole(schema: seq<nat>, r: Replica, reply: Reply)
    requires |r.params| == |schema| && reply.answer.Parameters? && reply.version >= r.version
    requires Shaped(reply.answer.params, schema)
    ensures Install(schema, r, reply) == (Replica(reply.version, true, reply.answer.params, r.counter), Installed)
  {
    var p := reply.answer.params;
    assert FirstMisfit(p, schema) == |schema|;
    assert p[..|schema|] + r.params[|schema|..] == p;
  }

  lemma ServerInvOf(c: Setup, sys: System, w: nat, r: Request, checked: real, seen: real)
    requires ValidSetup(c) && ServerInv(JobOf(c), sys.server)
    ensures ServerInv(JobOf(c), Handle(JobOf(c), sys.server, r, checked, seen).0)
  {
    JobIsValid(c);
    HandleKeepsInv(JobOf(c), sys.server, r, checked, seen);
  }

  lemma CheckKeeps(c: Setup, sys: System, now: real)
    requires ValidSetup(c) && Inv(c, sys)
    ensures Inv(c, sys.(server := CheckTimeouts(JobOf(c), sys.server, now)))
  {
    var t := CheckTimeouts(JobOf(c), sys.server, now);
    CheckMoves(c, sys.server, now);
    hide PeerInv, Elsewhere, StandingOf, CheckTimeouts, ServerInv, PendingRight;
    forall u: nat | u < c.world ensures PeerInv(c, StandingOf(t, u), u, sys.peers[u]) {
      ElsewhereKeeps(c, StandingOf(sys.server, u), StandingOf(t, u), u, sys.peers[u]);
    }
  }

  lemma ServeKeeps(c: Setup, sys: System, w: nat, checked: real, seen: real)
    requires ValidSetup(c) && Inv(c, sys) && w < c.world && sys.peers[w].link.Sent?
    requires CheckTimeouts(JobOf(c), sys.server, checked) == sys.server
    ensures Inv(c, Moved(c, sys, w, checked, seen))
  {
    var r := sys.peers[w].link.request;
    var (t, reply) := Handle(JobOf(c), sys.server, r, checked, seen);
    assert PeerInv(c, StandingOf(sys.server, w), w, sys.peers[w]);
    ServeMoves(c, sys.server, w, sys.peers[w], r, checked, seen);
    ServerInvOf(c, sys, w, r, checked, seen);
    var after := Moved(c, sys, w, checked, seen);
    hide PeerInv, Elsewhere, StandingOf, CheckTimeouts, ServerInv, PendingRight, Handle;
    forall u: nat | u < c.world ensures PeerInv(c, StandingOf(t, u), u, after.peers[u]) {
      if u != w {
        ElsewhereKeeps(c, StandingOf(sys.server, u), StandingOf(t, u), u, sys.peers[u]);
      }
    }
  }

  lemma WorkerKeeps(c: Setup, sys: System, w: nat, checked: real, seen: real)
    requires ValidSetup(c) && Inv(c, sys) && w < c.world && (sys.peers[w].link.Ready? || sys.peers[w].link.Got?)
    ensures Inv(c, Moved(c, sys, w, checked, seen))
  {
    var st := StandingOf(sys.server, w);
    assert PeerInv(c, st, w, sys.peers[w]);
    StepKeepsSize(c, sys, Move(w, checked, seen));
    if sys.peers[w].link.Ready? {
      ComposeKeeps(c, st, w, sys.peers[w]);
    } else {
      DeliverKeeps(c, st, w, sys.peers[w]);
    }
    hide PeerInv, StandingOf, ServerInv, PendingRight, Compose, Deliver;
  }

  lemma StepKeeps(c: Setup, sys: System, e: Event)
    requires ValidSetup(c) && Inv(c, sys)
    ensures Inv(c, Step(c, sys, e))
  {
    match e
    case Check(now) => CheckKeeps(c, sys, now);
    case Move(w, checked, seen) =>
      if w < c.world {
        match sys.peers[w].link
        case Sent(r) =>
          var checkedSys := sys.(server := CheckTimeouts(JobOf(c), sys.server, checked));
          CheckKeeps(c, sys, checked);
          CheckedOnce(JobOf(c), sys.server, r, checked, seen);
          ServeKeeps(c, checkedSys, w, checked, seen);
        case Stopped =>
        case Crashed =>
        case _ => WorkerKeeps(c, sys, w, checked, seen);
      }
  }

  lemma {:induction false} RunInv(c: Setup, events: seq<Event>)
    requires ValidSetup(c)
    ensures Inv(c, Run(c, events))
  {
    if events == [] {
      InitialInv(c);
    } else {
      RunInv(c, events[..|events| - 1]);
      StepKeeps(c, Run(c, events[..|events| - 1]), events[|events| - 1]);
    }
  }

  // ----- main results -----

  /**
   Whatever the interleaving and the clock, the server at step t holds the model a single process
   holds after t optimizer steps, and a worker at version v holds that model's version v.
   */
  lemma TrainsLikeOneProcess(c: Setup, events: seq<Event>)
    requires ValidSetup(c)
    ensures var sys := Run(c, events);
            && sys.server.step <= Total(c)
            && Model(sys.server.params, sys.server.memory) == Trained(c, sys.server.step)
            && forall w: nat | w < c.world ::
                 var v := sys.peers[w].replica.version;
                 v <= sys.server.step <= v + 1 && sys.peers[w].replica.params == Trained(c, v).params
  {
    RunInv(c, events);
    var sys := Run(c, events);
    forall w: nat | w < c.world
      ensures PeerInv(c, StandingOf(sys.server, w), w, sys.peers[w])
    {
    }
    hide Trained, Total, Run;
  }

  /** The same of any sequence of models that takes one optimizer step on the mean gradient of each batch. */
  lemma TrainsOnMeanGradients(c: Setup, events: seq<Event>, path: nat -> Model)
    requires ValidSetup(c) && Trains(c, path)
    ensures var sys := Run(c, events);
            && Model(sys.server.params, sys.server.memory) == path(sys.server.step)
            && forall w: nat | w < c.world :: sys.peers[w].replica.params == path(sys.peers[w].replica.version).params
  {
    TrainingExact(c, path);
    hide *;
    TrainsLikeOneProcess(c, events);
  }

  /** Workers that have stopped have trained every batch of every epoch. */
  lemma StoppedMeansTrained(c: Setup, events: seq<Event>, w: nat)
    requires ValidSetup(c) && w < c.world && Run(c, events).peers[w].link.Stopped?
    ensures Run(c, events).peers[w].replica.params == Trained(c, Total(c)).params
    ensures Run(c, events).server.step == Total(c) == StepsIn(c.orders, c.batchSize)
    ensures forall path: nat -> Model | Trains(c, path) ::
              Run(c, events).peers[w].replica.params == path(StepsIn(c.orders, c.batchSize)).params
  {
    RunInv(c, events);
    FollowsTraining(c, Total(c));
    hide Trains;
    ScheduleExact(c.orders, c.batchSize, c.world);
    var sys := Run(c, events);
    assert PeerInv(c, StandingOf(sys.server, w), w, sys.peers[w]);
    hide Trained, Schedule, Run;
  }

  /**
   The pending submissions are a proper subset of the workers, each from a worker at the server's
   step; no response is an error and no worker raises, unless a timeout has failed the job.
   */
  lemma JointInvariant(c: Setup, events: seq<Event>)
    requires ValidSetup(c)
    ensures var sys := Run(c, events);
            && sys.server.pending.Keys < Everyone(Ids(c.world))
            && (forall w: nat | w in sys.server.pending :: w < c.world && sys.peers[w].replica.version == sys.server.step)
            && (sys.server.lost != {} ==> sys.server.pending == map[])
            && forall w: nat | w < c.world ::
                 && (sys.peers[w].link.Got? && sys.peers[w].link.reply.answer.Error? ==>
                       sys.server.lost != {} && sys.peers[w].link.reply.answer.code == WorkerTimeout)
                 && (sys.peers[w].link.Crashed? ==> sys.server.lost != {})
  {
    RunInv(c, events);
    var sys := Run(c, events);
    hide Trained, Total, Run, Local, BatchAt, PeerInv;
    PendingIsPart(c, sys.server);
    forall w: nat | w < c.world
      ensures sys.peers[w].link.Got? && sys.peers[w].link.reply.answer.Error? ==>
                sys.server.lost != {} && sys.peers[w].link.reply.answer.code == WorkerTimeout
      ensures sys.peers[w].link.Crashed? ==> sys.server.lost != {}
      ensures w in sys.server.pending ==> sys.peers[w].replica.version == sys.server.step
    {
      PeerInTrouble(c, sys.server, w, sys.peers[w]);
    }
  }

  lemma PendingIsPart(c: Setup, s: Server)
    requires ValidSetup(c) && ServerInv(JobOf(c), s)
    ensures s.pending.Keys < Everyone(Ids(c.world)) && forall w: nat | w in s.pending :: w < c.world
  {
    JobIsValid(c);
    forall w: nat | w in s.pending ensures w < c.world {
      assert w in Everyone(Ids(c.world));
    }
  }

  lemma PeerInTrouble(c: Setup, s: Server, w: nat, p: Peer)
    requires 0 < c.world <= c.batchSize && w < c.world && PeerInv(c, StandingOf(s, w), w, p)
    ensures p.link.Got? && p.link.reply.answer.Error? ==> s.lost != {} && p.link.reply.answer.code == WorkerTimeout
    ensures p.link.Crashed? ==> s.lost != {}
    ensures w in s.pending ==> p.replica.version == s.step
  {
    hide Trained, Total, Local, BatchAt;
  }

  // ----- progress without timeouts -----

  predicate Held(sys: System, w: nat) { w in sys.server.pending }

  /** How many useful steps a worker has left; polling while its submission is pending is free. */
  function Left(c: Setup, st: Standing, p: Peer): nat
    requires 0 < c.world <= c.batchSize
  {
    10 * (if p.batch < Total(c) then Total(c) - p.batch else 0) + LeftHere(st, p)
  }

  function LeftHere(st: Standing, p: Peer): nat {
    match p.link
    case Stopped => 0
    case Crashed => 0
    case Ready => if p.stage.Joining? then 12 else if p.stage.Training? then 9 else if st.held then 6 else 4
    case Sent(_) => if p.stage.Joining? then 11 else if p.stage.Training? then 8 else if st.held then 6 else 3
    case Got(_, reply) =>
      if p.stage.Joining? then 10
      else if reply.answer.Parameters? then 2
      else if reply.answer.Acknowledged? then 7
      else if st.held then 6 else 5
  }

  function LeftOf(c: Setup, sys: System, n: nat): nat
    requires 0 < c.world <= c.batchSize && n <= |sys.peers|
  {
    if n == 0 then 0 else LeftOf(c, sys, n - 1) + Left(c, StandingOf(sys.server, n - 1), sys.peers[n - 1])
  }

  lemma {:induction false} LeftShrinks(c: Setup, a: System, b: System, n: nat, w: nat)
    requires 0 < c.world <= c.batchSize && n <= |a.peers| == |b.peers| && w < |a.peers|
    requires forall u: nat | u < |a.peers| && u != w ::
               Left(c, StandingOf(b.server, u), b.peers[u]) <= Left(c, StandingOf(a.server, u), a.peers[u])
    requires Left(c, StandingOf(b.server, w), b.peers[w]) < Left(c, StandingOf(a.server, w), a.peers[w])
    ensures LeftOf(c, b, n) <= LeftOf(c, a, n) && (w < n ==> LeftOf(c, b, n) < LeftOf(c, a, n))
  {
    hide Left;
    if n > 0 {
      LeftShrinks(c, a, b, n - 1, w);
    }
  }

  /** Without timeouts the job never fails. */
  lemma {:induction false} NeverFails(c: Setup, events: seq<Event>)
    requires ValidSetup(c) && c.timeout.Never?
    ensures Run(c, events).server.lost == {}
  {
    if events != [] {
      NeverFails(c, events[..|events| - 1]);
      var before := Run(c, events[..|events| - 1]);
      var e := events[|events| - 1];
      if e.Move? && e.w < c.world && before.peers[e.w].link.Sent? {
        HandleNeverFails(JobOf(c), before.server, before.peers[e.w].link.request, e.checked, e.seen);
      }
    }
  }

  lemma HandleNeverFails(job: Job, s: Server, r: Request, checked: real, seen: real)
    requires job.timeout.Never? && s.lost == {}
    ensures Handle(job, s, r, checked, seen).0.lost == {} && CheckTimeouts(job, s, checked) == s
  {
  }

  /** A pull for a version the server has is answered with it; a pull never changes who is pending. */
  lemma PullAnswered(job: Job, s: Server, r: Request, checked: real, seen: real)
    requires job.timeout.Never? && s.lost == {} && r.body.Pull?
    requires r.worker in job.workers && r.worker in s.registered
    ensures var (t, reply) := Handle(job, s, r, checked, seen);
            t.pending == s.pending && t.step == s.step && (r.step <= s.step ==> reply.answer.Parameters?)
  {
  }

  lemma AnsweredIsLess(c: Setup, a: Standing, b: Standing, w: nat, p: Peer, r: Request, reply: Reply)
    requires 0 < c.world <= c.batchSize && w < c.world && p.link == Sent(r)
    requires PeerInv(c, a, w, p) && PeerInv(c, b, w, p.(link := Got(r, reply))) && !a.failed && !b.failed
    requires p.stage.Polling? && !a.held ==> reply.answer.Parameters?
    ensures LeftHere(b, p.(link := Got(r, reply))) <= LeftHere(a, p)
    ensures !a.held ==> LeftHere(b, p.(link := Got(r, reply))) < LeftHere(a, p)
  {
    hide Local, Trained, BatchAt, Total;
  }

  lemma SentStepsForward(c: Setup, s: Server, w: nat, p: Peer, r: Request, checked: real, seen: real)
    requires ValidSetup(c) && ServerRight(c, s) && w < c.world && p.link == Sent(r)
    requires PeerInv(c, StandingOf(s, w), w, p) && c.timeout.Never? && s.lost == {}
    ensures var (t, reply) := Handle(JobOf(c), s, r, checked, seen);
            var before, after := LeftHere(StandingOf(s, w), p), LeftHere(StandingOf(t, w), p.(link := Got(r, reply)));
            after <= before && (w !in s.pending ==> after < before)
  {
    JobIsValid(c);
    HandleNeverFails(JobOf(c), s, r, checked, seen);
    ServeMoves(c, s, w, p, r, checked, seen);
    var (t, reply) := Handle(JobOf(c), s, r, checked, seen);
    if p.stage.Polling? {
      PullAnswered(JobOf(c), s, r, checked, seen);
    }
    hide Handle, Local, Trained, BatchAt, Total, ServerMoves, ServerRight, LeftHere;
    AnsweredIsLess(c, StandingOf(s, w), StandingOf(t, w), w, p, r, reply);
  }

  lemma ComposeStepsForward(c: Setup, st: Standing, w: nat, p: Peer)
    requires ValidSetup(c) && w < c.world && PeerInv(c, st, w, p) && p.link.Ready?
    ensures Left(c, st, Compose(c, w, p)) <= Left(c, st, p)
    ensures !st.held ==> Left(c, st, Compose(c, w, p)) < Left(c, st, p)
  {
    ComposeKeeps(c, st, w, p);
    hide Local, Trained, BatchAt, Total;
  }

  lemma DeliverStepsForward(c: Setup, st: Standing, w: nat, p: Peer)
    requires ValidSetup(c) && w < c.world && PeerInv(c, st, w, p) && p.link.Got? && !st.failed
    requires |p.replica.params| == |c.schema|
    ensures Left(c, st, Deliver(c, p)) <= Left(c, st, p)
    ensures !st.held ==> Left(c, st, Deliver(c, p)) < Left(c, st, p)
  {
    TrainedIsShaped(c, p.replica.version);
    TrainedIsShaped(c, p.replica.version + 1);
    hide Local, Trained, BatchAt, Total;
    if p.link.reply.answer.Parameters? {
      InstallsWhole(c.schema, p.replica, p.link.reply);
    }
    hide Install, Shaped;
  }

  lemma WorkerStepsForward(c: Setup, sys: System, w: nat, checked: real, seen: real)
    requires ValidSetup(c) && Inv(c, sys) && w < c.world && sys.server.lost == {}
    requires sys.peers[w].link.Ready? || sys.peers[w].link.Got?
    ensures var st := StandingOf(sys.server, w);
            var before, after := Left(c, st, sys.peers[w]), Left(c, st, Moved(c, sys, w, checked, seen).peers[w]);
            after <= before && (w !in sys.server.pending ==> after < before)
  {
    var p := sys.peers[w];
    var st := StandingOf(sys.server, w);
    assert PeerInv(c, st, w, p);
    if p.link.Ready? {
      ComposeStepsForward(c, st, w, p);
    } else {
      DeliverStepsForward(c, st, w, p);
    }
    hide Left, Compose, Deliver, PeerInv;
  }

  lemma StandingNeverWorse(c: Setup, a: Standing, b: Standing, p: Peer)
    requires 0 < c.world <= c.batchSize && Elsewhere(a, b) && !b.failed
    ensures Left(c, b, p) <= Left(c, a, p)
  {
    hide Total;
  }

  /** Every step that is not a poll of a pending worker leaves strictly less to do; polls leave no more. */
  lemma MoveProgress(c: Setup, sys: System, w: nat, checked: real, seen: real)
    requires ValidSetup(c) && Inv(c, sys) && c.timeout.Never? && sys.server.lost == {}
    ensures var after := Moved(c, sys, w, checked, seen);
            && LeftOf(c, after, c.world) <= LeftOf(c, sys, c.world)
            && (w < c.world && !Held(sys, w) && !sys.peers[w].link.Stopped? ==>
                  LeftOf(c, after, c.world) < LeftOf(c, sys, c.world))
  {
    if w < c.world {
      var after := Moved(c, sys, w, checked, seen);
      assert PeerInv(c, StandingOf(sys.server, w), w, sys.peers[w]);
      OthersNeverWorse(c, sys, w, checked, seen);
      match sys.peers[w].link {
        case Sent(r) => SentStepsForward(c, sys.server, w, sys.peers[w], r, checked, seen);
        case Stopped =>
        case Crashed =>
        case _ => WorkerStepsForward(c, sys, w, checked, seen);
      }
      hide Total, LeftHere, Handle, Compose, Deliver, LeftOf, PeerInv, Inv;
      if Left(c, StandingOf(after.server, w), after.peers[w]) < Left(c, StandingOf(sys.server, w), sys.peers[w]) {
        LeftShrinks(c, sys, after, c.world, w);
      } else {
        LeftNeverGrows(c, sys, after, c.world);
      }
    } else {
    }
  }

  lemma OthersNeverWorse(c: Setup, sys: System, w: nat, checked: real, seen: real)
    requires ValidSetup(c) && Inv(c, sys) && c.timeout.Never? && sys.server.lost == {} && w < c.world
    ensures var after := Moved(c, sys, w, checked, seen);
            forall u: nat | u < c.world && u != w ::
              Left(c, StandingOf(after.server, u), after.peers[u]) <= Left(c, StandingOf(sys.server, u), sys.peers[u])
  {
    var after := Moved(c, sys, w, checked, seen);
    if sys.peers[w].link.Sent? {
      var r := sys.peers[w].link.request;
      HandleNeverFails(JobOf(c), sys.server, r, checked, seen);
      ServeMoves(c, sys.server, w, sys.peers[w], r, checked, seen);
      hide Left, Handle, PeerInv, Inv;
      forall u: nat | u < c.world && u != w
        ensures Left(c, StandingOf(after.server, u), after.peers[u]) <= Left(c, StandingOf(sys.server, u), sys.peers[u])
      {
        StandingNeverWorse(c, StandingOf(sys.server, u), StandingOf(after.server, u), sys.peers[u]);
      }
    } else {
      hide Left, Handle, PeerInv, Inv, Compose, Deliver;
    }
  }

  lemma {:induction false} LeftNeverGrows(c: Setup, a: System, b: System, n: nat)
    requires 0 < c.world <= c.batchSize && n <= |a.peers| == |b.peers|
    requires forall u: nat | u < |a.peers| ::
               Left(c, StandingOf(b.server, u), b.peers[u]) <= Left(c, StandingOf(a.server, u), a.peers[u])
    ensures LeftOf(c, b, n) <= LeftOf(c, a, n)
  {
    hide Left;
    if n > 0 {
      LeftNeverGrows(c, a, b, n - 1);
    }
  }

  /** While some worker has not stopped, some worker has a step to take that is not a fruitless poll. */
  lemma SomebodyMoves(c: Setup, sys: System, u: nat) returns (w: nat)
    requires ValidSetup(c) && Inv(c, sys) && sys.server.lost == {} && u < c.world && !sys.peers[u].link.Stopped?
    ensures w < c.world && !Held(sys, w) && !sys.peers[w].link.Stopped? && !sys.peers[w].link.Crashed?
  {
    JobIsValid(c);
    hide Local, Trained, BatchAt, Total;
    w := u;
    if Held(sys, u) {
      assert PeerInv(c, StandingOf(sys.server, u), u, sys.peers[u]);
      w := Outsider(sys.server.pending.Keys, Everyone(Ids(c.world)));
    }
    assert PeerInv(c, StandingOf(sys.server, w), w, sys.peers[w]);
  }

  lemma Outsider(small: set<Id>, large: set<Id>) returns (w: Id)
    requires small < large
    ensures w in large && w !in small
  {
    w :| w in large && w !in small;
  }

  predicate AllStopped(c: Setup, sys: System)
    requires |sys.peers| == c.world
  {
    forall w | 0 <= w < c.world :: sys.peers[w].link.Stopped?
  }

  /** Moves of workers that have something other than a fruitless poll to do. */
  function UsefulMoves(c: Setup, events: seq<Event>): nat
    requires 0 < c.world <= c.batchSize && Shaped(c.start, c.schema)
  {
    if events == [] then 0
    else
      var before := Run(c, events[..|events| - 1]);
      var e := events[|events| - 1];
      UsefulMoves(c, events[..|events| - 1])
      + if e.Move? && e.w < c.world && !Held(before, e.w) && !before.peers[e.w].link.Stopped? then 1 else 0
  }

  /** A run holds a bounded number of useful moves. */
  lemma {:induction false} UsefulMovesAreBounded(c: Setup, events: seq<Event>)
    requires ValidSetup(c) && c.timeout.Never?
    ensures UsefulMoves(c, events) + LeftOf(c, Run(c, events), c.world) <= LeftOf(c, Initial(c), c.world)
  {
    if events != [] {
      var most, e := events[..|events| - 1], events[|events| - 1];
      UsefulMovesAreBounded(c, most);
      RunInv(c, most);
      NeverFails(c, most);
      hide LeftOf, Inv;
      var before := Run(c, most);
      match e {
        case Move(w, checked, seen) => MoveProgress(c, before, w, checked, seen);
        case Check(now) => assert CheckTimeouts(JobOf(c), before.server, now) == before.server;
      }
    }
  }

  /**
   Without timeouts: either every worker has stopped, all with the fully trained model, or some
   worker has a step that is not a fruitless poll and that leaves strictly less to do.
   */
  lemma Progress(c: Setup, events: seq<Event>) returns (w: nat)
    requires ValidSetup(c) && c.timeout.Never?
    ensures var sys := Run(c, events);
            if AllStopped(c, sys) then
              && Model(sys.server.params, sys.server.memory) == Trained(c, Total(c))
              && forall u: nat | u < c.world ::
                   sys.peers[u].replica.version == Total(c) && sys.peers[u].replica.params == Trained(c, Total(c)).params
            else
              && w < c.world && !Held(sys, w) && !sys.peers[w].link.Stopped?
              && forall checked: real, seen: real ::
                   LeftOf(c, Moved(c, sys, w, checked, seen), c.world) < LeftOf(c, sys, c.world)
  {
    var sys := Run(c, events);
    RunInv(c, events);
    NeverFails(c, events);
    hide Run, Trained, Total, LeftOf, Moved, BatchAt, Local;
    w := 0;
    if AllStopped(c, sys) {
      assert PeerInv(c, StandingOf(sys.server, 0), 0, sys.peers[0]);
      forall u: nat | u < c.world ensures PeerInv(c, StandingOf(sys.server, u), u, sys.peers[u]) {
      }
    } else {
      var u: nat :| u < c.world && !sys.peers[u].link.Stopped?;
      w := SomebodyMoves(c, sys, u);
      hide Inv, PeerInv;
      forall checked: real, seen: real
        ensures LeftOf(c, Moved(c, sys, w, checked, seen), c.world) < LeftOf(c, sys, c.world)
      {
        MoveProgress(c, sys, w, checked, seen);
      }
    }
  }
}
