/**
 Heartbeats over whole runs of the dense server: which requests count as a sign of life, and exactly
 when, and for whom, a silence longer than the limit fails the job.
 */
module DenseTimeouts {
  import opened DenseServer

  /** A request with the two clock readings of its handling, or a check that nobody's request causes. */
  datatype Call = Ask(request: Request, checked: real, seen: real) | Check(now: real)

  function Fresh(params: Params, memory: Memory): Server {
    Server(params, memory, {}, map[], map[], {}, 0)
  }

  function Served(job: Job, start: Server, calls: seq<Call>): Server {
    if calls == [] then start
    else
      var before := Served(job, start, calls[..|calls| - 1]);
      match calls[|calls| - 1]
      case Ask(r, checked, seen) => Handle(job, before, r, checked, seen).0
      case Check(now) => CheckTimeouts(job, before, now)
  }

  /** The clock reading a call compares the workers' last requests with. */
  function ReadAt(call: Call): real {
    match call
    case Ask(_, checked, _) => checked
    case Check(now) => now
  }

  function AnswerOf(job: Job, start: Server, calls: seq<Call>, n: nat): Answer
    requires n < |calls| && calls[n].Ask?
  {
    Handle(job, Served(job, start, calls[..n]), calls[n].request, calls[n].checked, calls[n].seen).1.answer
  }

  /** Answers that turn the sender away before the request itself is looked at. */
  predicate TurnsAway(a: Answer) {
    a.Error? && a.code in {UnknownWorker, NotRegistered, SchemaMismatch, WorkerTimeout}
  }

  /** Call n is a request of the worker that was not turned away. */
  ghost predicate Accepted(job: Job, start: Server, calls: seq<Call>, n: int, w: Id) {
    0 <= n < |calls| && calls[n].Ask? && calls[n].request.worker == w && !TurnsAway(AnswerOf(job, start, calls, n))
  }

  ghost predicate Joined(job: Job, start: Server, calls: seq<Call>, w: Id) {
    exists n :: Accepted(job, start, calls, n, w) && calls[n].request.body.Register?
  }

  /** Call n is the worker's last accepted request. */
  ghost predicate LastHeard(job: Job, start: Server, calls: seq<Call>, n: int, w: Id) {
    Accepted(job, start, calls, n, w) && forall m | n < m < |calls| :: !Accepted(job, start, calls, m, w)
  }

  /** At call n the worker has joined, and its last accepted request was read more than the limit before. */
  ghost predicate Overdue(job: Job, start: Server, calls: seq<Call>, n: int, w: Id)
    requires job.timeout.After?
  {
    && 0 <= n < |calls| && Joined(job, start, calls[..n], w)
    && exists m :: LastHeard(job, start, calls[..n], m, w) && ReadAt(calls[n]) - calls[m].seen > job.timeout.limit
  }

  // ----- one call -----

  lemma HandleNotes(job: Job, s: Server, r: Request, checked: real, seen: real)
    ensures var (after, reply) := Handle(job, s, r, checked, seen);
      var c := CheckTimeouts(job, s, checked);
      && after.lost == c.lost
      && (TurnsAway(reply.answer) ==> after.registered == s.registered && after.lastSeen == s.lastSeen)
      && (!TurnsAway(reply.answer) ==>
            && c.lost == {} && after.lastSeen == s.lastSeen[r.worker := seen]
            && after.registered == s.registered + {r.worker} && (r.body.Register? || r.worker in s.registered))
  {
    var c := CheckTimeouts(job, s, checked);
    var noted := c.(lastSeen := c.lastSeen[r.worker := seen]);
    DispatchNotes(job, noted, r);
    hide Dispatch, Expired;
  }

  lemma DispatchNotes(job: Job, s: Server, r: Request)
    ensures !TurnsAway(Dispatch(job, s, r).1)
    ensures var after := Dispatch(job, s, r).0;
      after.registered == s.registered && after.lastSeen == s.lastSeen && after.lost == s.lost
  {
    if r.body.Push? {
      WrongPayload(job.schema, r.body.count, r.body.gradients);
    }
    hide PayloadError, Average;
  }

  lemma WrongPayload(schema: seq<nat>, count: int, gradients: Params)
    ensures var wrong := PayloadError(schema, count, gradients);
      wrong != [] ==> wrong[0] in {InvalidPayload, OrderMismatch, ShapeMismatch}
  {
  }

  // ----- runs -----

  lemma AcceptedPrefix(job: Job, start: Server, calls: seq<Call>, k: nat, n: int, w: Id)
    requires k <= |calls|
    ensures Accepted(job, start, calls[..k], n, w) <==> n < k && Accepted(job, start, calls, n, w)
  {
    hide Handle, Served;
    if 0 <= n < k {
      assert calls[..k][..n] == calls[..n] && calls[..k][n] == calls[n];
    }
  }

  lemma JoinedLast(job: Job, start: Server, calls: seq<Call>, w: Id)
    requires calls != []
    ensures var last := |calls| - 1;
      Joined(job, start, calls, w) <==>
        Joined(job, start, calls[..last], w) || (Accepted(job, start, calls, last, w) && calls[last].request.body.Register?)
  {
    hide Accepted;
    var last := |calls| - 1;
    forall n ensures Accepted(job, start, calls[..last], n, w) <==> n < last && Accepted(job, start, calls, n, w) {
      AcceptedPrefix(job, start, calls, last, n, w);
    }
    forall n | Accepted(job, start, calls, n, w) ensures 0 <= n < |calls| && calls[n].Ask? {
      AcceptedIsAsk(job, start, calls, n, w);
    }
    if Joined(job, start, calls[..last], w) {
      var n :| Accepted(job, start, calls[..last], n, w) && calls[..last][n].request.body.Register?;
      assert Accepted(job, start, calls, n, w) && calls[n] == calls[..last][n];
    }
    if Joined(job, start, calls, w) {
      var n :| Accepted(job, start, calls, n, w) && calls[n].request.body.Register?;
      if n < last {
        assert Accepted(job, start, calls[..last], n, w) && calls[n] == calls[..last][n];
      }
    }
  }

  lemma AcceptedIsAsk(job: Job, start: Server, calls: seq<Call>, n: int, w: Id)
    requires Accepted(job, start, calls, n, w)
    ensures 0 <= n < |calls| && calls[n].Ask?
  {
  }

  lemma HeardLast(job: Job, start: Server, calls: seq<Call>, n: int, w: Id)
    requires calls != []
    ensures var last := |calls| - 1;
      LastHeard(job, start, calls, n, w) <==>
        if Accepted(job, start, calls, last, w) then n == last else LastHeard(job, start, calls[..last], n, w)
  {
    hide Accepted;
    var last := |calls| - 1;
    forall m ensures Accepted(job, start, calls[..last], m, w) <==> m < last && Accepted(job, start, calls, m, w) {
      AcceptedPrefix(job, start, calls, last, m, w);
    }
    forall m | Accepted(job, start, calls, m, w) ensures 0 <= m < |calls| {
      AcceptedIsAsk(job, start, calls, m, w);
    }
  }

  lemma OneLast(job: Job, start: Server, calls: seq<Call>, m: int, n: int, w: Id)
    requires LastHeard(job, start, calls, m, w) && LastHeard(job, start, calls, n, w)
    ensures m == n
  {
    AcceptedIsAsk(job, start, calls, m, w);
    AcceptedIsAsk(job, start, calls, n, w);
    hide Accepted;
  }

  lemma AcceptedNow(job: Job, start: Server, calls: seq<Call>, w: Id)
    requires calls != []
    ensures var last := calls[|calls| - 1];
      Accepted(job, start, calls, |calls| - 1, w) <==>
        && last.Ask? && last.request.worker == w
        && !TurnsAway(Handle(job, Served(job, start, calls[..|calls| - 1]), last.request, last.checked, last.seen).1.answer)
  {
    hide Handle, Served, TurnsAway;
  }

  /** One call changes what is remembered only of a sender that is not turned away. */
  lemma CallNotes(job: Job, start: Server, calls: seq<Call>)
    requires calls != []
    ensures var before, s := Served(job, start, calls[..|calls| - 1]), Served(job, start, calls);
      var last := |calls| - 1;
      && (forall w | !Accepted(job, start, calls, last, w) ::
            (w in s.registered <==> w in before.registered) && (w in s.lastSeen <==> w in before.lastSeen)
            && (w in s.lastSeen ==> s.lastSeen[w] == before.lastSeen[w]))
      && (forall w | Accepted(job, start, calls, last, w) ::
            && w in s.registered && w in s.lastSeen && s.lastSeen[w] == calls[last].seen
            && (calls[last].request.body.Register? || w in before.registered))
      && s.lost == CheckTimeouts(job, before, ReadAt(calls[last])).lost
  {
    var last := |calls| - 1;
    var before, call := Served(job, start, calls[..last]), calls[last];
    forall w ensures Accepted(job, start, calls, last, w) <==>
      && call.Ask? && call.request.worker == w
      && !TurnsAway(Handle(job, before, call.request, call.checked, call.seen).1.answer)
    {
      AcceptedNow(job, start, calls, w);
    }
    if call.Ask? {
      HandleNotes(job, before, call.request, call.checked, call.seen);
      hide Handle, Accepted, TurnsAway, Expired;
    } else {
      hide Accepted, TurnsAway, Expired;
    }
  }

  ghost predicate RemembersOf(job: Job, start: Server, calls: seq<Call>, s: Server, w: Id) {
    && (w in s.registered <==> Joined(job, start, calls, w)) && (w in s.registered <==> w in s.lastSeen)
    && (w in s.registered ==> exists n :: LastHeard(job, start, calls, n, w) && s.lastSeen[w] == calls[n].seen)
  }

  lemma RemembersNext(job: Job, start: Server, calls: seq<Call>, w: Id)
    requires calls != []
    requires RemembersOf(job, start, calls[..|calls| - 1], Served(job, start, calls[..|calls| - 1]), w)
    ensures RemembersOf(job, start, calls, Served(job, start, calls), w)
  {
    var last := |calls| - 1;
    var before, s := Served(job, start, calls[..last]), Served(job, start, calls);
    CallNotes(job, start, calls);
    JoinedLast(job, start, calls, w);
    hide Served, Accepted, Joined, CheckTimeouts;
    if Accepted(job, start, calls, last, w) {
      HeardLast(job, start, calls, last, w);
      assert LastHeard(job, start, calls, last, w);
    } else if w in s.registered {
      var n :| LastHeard(job, start, calls[..last], n, w) && before.lastSeen[w] == calls[..last][n].seen;
      HeardLast(job, start, calls, n, w);
      HeardIsAsk(job, start, calls[..last], n, w);
      assert calls[..last][n] == calls[n];
      assert LastHeard(job, start, calls, n, w) && s.lastSeen[w] == calls[n].seen;
    }
  }

  lemma HeardIsAsk(job: Job, start: Server, calls: seq<Call>, n: int, w: Id)
    requires LastHeard(job, start, calls, n, w)
    ensures 0 <= n < |calls| && calls[n].Ask?
  {
  }

  lemma {:induction false} RunRemembers(job: Job, start: Server, calls: seq<Call>, w: Id)
    requires start.registered == {} && start.lastSeen == map[]
    ensures RemembersOf(job, start, calls, Served(job, start, calls), w)
  {
    if calls != [] {
      hide *;
      RunRemembers(job, start, calls[..|calls| - 1], w);
      RemembersNext(job, start, calls, w);
    } else {
      hide Handle, TurnsAway;
    }
  }

  // ----- main results -----

  /** Which workers a check would find silent for too long. */
  lemma ExpiredExactly(job: Job, start: Server, calls: seq<Call>, n: nat, w: Id)
    requires start.registered == {} && start.lastSeen == map[] && job.timeout.After? && n < |calls|
    ensures w in Expired(job, Served(job, start, calls[..n]), ReadAt(calls[n])) <==> Overdue(job, start, calls, n, w)
  {
    var s, part := Served(job, start, calls[..n]), calls[..n];
    RunRemembers(job, start, part, w);
    hide Served, Joined, Accepted, LastHeard, ReadAt;
    if w in s.registered {
      var m :| LastHeard(job, start, part, m, w) && s.lastSeen[w] == part[m].seen;
      HeardIsAsk(job, start, part, m, w);
      assert part[m] == calls[m];
      forall k | LastHeard(job, start, part, k, w) ensures k == m {
        OneLast(job, start, part, m, k, w);
      }
    }
  }

  ghost predicate SomeoneOverdue(job: Job, start: Server, calls: seq<Call>, n: int)
    requires job.timeout.After?
  {
    exists w :: Overdue(job, start, calls, n, w)
  }

  ghost predicate AnyOverdue(job: Job, start: Server, calls: seq<Call>)
    requires job.timeout.After?
  {
    exists n: nat :: n < |calls| && SomeoneOverdue(job, start, calls, n)
  }

  lemma OverduePrefix(job: Job, start: Server, calls: seq<Call>, k: nat, n: nat, w: Id)
    requires job.timeout.After? && n < k <= |calls|
    ensures Overdue(job, start, calls[..k], n, w) <==> Overdue(job, start, calls, n, w)
  {
    hide Joined, LastHeard, ReadAt;
    assert calls[..k][..n] == calls[..n] && calls[..k][n] == calls[n];
    forall m | LastHeard(job, start, calls[..n], m, w) ensures 0 <= m < n && calls[..k][m] == calls[m] && calls[m].Ask? {
      HeardIsAsk(job, start, calls[..n], m, w);
      assert calls[..n][m] == calls[m];
    }
  }

  lemma LostAfter(job: Job, start: Server, calls: seq<Call>)
    requires calls != []
    ensures var before, s := Served(job, start, calls[..|calls| - 1]), Served(job, start, calls);
      s.lost == if before.lost != {} then before.lost
                else Expired(job, before, ReadAt(calls[|calls| - 1]))
  {
    CallNotes(job, start, calls);
    hide Served, Expired, Accepted, ReadAt;
  }

  lemma SameLostPrefix(job: Job, start: Server, calls: seq<Call>, n: nat)
    requires n < |calls|
    ensures Served(job, start, calls[..|calls| - 1][..n]) == Served(job, start, calls[..n])
  {
    hide Served;
    assert calls[..|calls| - 1][..n] == calls[..n];
  }

  /** The call that fails the job, and the workers it names: all that were overdue then, and only those. */
  ghost predicate FailedAt(job: Job, start: Server, calls: seq<Call>, n: int)
    requires job.timeout.After?
  {
    && 0 <= n < |calls| && Served(job, start, calls[..n]).lost == {}
    && (forall w :: w in Served(job, start, calls).lost <==> Overdue(job, start, calls, n, w))
    && (forall m: nat | m < n :: !SomeoneOverdue(job, start, calls, m))
  }

  /**
   A job fails over a run if and only if at some call some worker that had joined was overdue; it then
   names exactly the workers that were overdue at the first such call.
   */
  lemma {:induction false} FailsExactly(job: Job, start: Server, calls: seq<Call>)
    requires start.registered == {} && start.lastSeen == map[] && start.lost == {} && job.timeout.After?
    ensures Served(job, start, calls).lost != {} <==> AnyOverdue(job, start, calls)
    ensures Served(job, start, calls).lost != {} ==> exists n :: FailedAt(job, start, calls, n)
  {
    if calls == [] {
      NothingOverdue(job, start);
    } else {
      var front := calls[..|calls| - 1];
      hide *;
      FailsExactly(job, start, front);
      LastCall(job, start, calls);
      EarlierAny(job, start, calls);
      if Served(job, start, front).lost != {} {
        var n :| FailedAt(job, start, front, n);
        EarlierFailed(job, start, calls, front, n);
      } else if Served(job, start, calls).lost != {} {
        FailsNow(job, start, calls);
      }
    }
  }

  lemma NothingOverdue(job: Job, start: Server)
    requires job.timeout.After? && start.lost == {}
    ensures Served(job, start, []).lost == {} && !AnyOverdue(job, start, [])
  {
  }

  /** What the last call adds, if the job has not failed before it. */
  lemma LastCall(job: Job, start: Server, calls: seq<Call>)
    requires start.registered == {} && start.lastSeen == map[] && job.timeout.After? && calls != []
    ensures var last := |calls| - 1;
      var before, s := Served(job, start, calls[..last]).lost, Served(job, start, calls).lost;
      && (before != {} ==> s == before)
      && (before == {} ==> forall w :: w in s <==> Overdue(job, start, calls, last, w))
      && (before == {} ==> (s != {} <==> SomeoneOverdue(job, start, calls, last)))
  {
    var last := |calls| - 1;
    var before := Served(job, start, calls[..last]);
    LostAfter(job, start, calls);
    hide Served, Expired, Overdue, ReadAt;
    forall w ensures w in Expired(job, before, ReadAt(calls[last])) <==> Overdue(job, start, calls, last, w) {
      ExpiredExactly(job, start, calls, last, w);
    }
  }

  lemma EarlierOverdue(job: Job, start: Server, calls: seq<Call>, n: nat)
    requires job.timeout.After? && calls != [] && n < |calls| - 1
    ensures SomeoneOverdue(job, start, calls[..|calls| - 1], n) <==> SomeoneOverdue(job, start, calls, n)
  {
    hide Overdue;
    var front := calls[..|calls| - 1];
    if SomeoneOverdue(job, start, front, n) {
      var w :| Overdue(job, start, front, n, w);
      OverduePrefix(job, start, calls, |front|, n, w);
    }
    if SomeoneOverdue(job, start, calls, n) {
      var w :| Overdue(job, start, calls, n, w);
      OverduePrefix(job, start, calls, |front|, n, w);
      assert Overdue(job, start, front, n, w);
    }
  }

  lemma EarlierAny(job: Job, start: Server, calls: seq<Call>)
    requires job.timeout.After? && calls != []
    ensures var front := calls[..|calls| - 1];
      AnyOverdue(job, start, calls) <==> AnyOverdue(job, start, front) || SomeoneOverdue(job, start, calls, |front|)
  {
    var front := calls[..|calls| - 1];
    hide SomeoneOverdue;
    forall n: nat | n < |front| ensures SomeoneOverdue(job, start, front, n) <==> SomeoneOverdue(job, start, calls, n) {
      EarlierOverdue(job, start, calls, n);
    }
  }

  lemma IsFailedAt(job: Job, start: Server, calls: seq<Call>, n: int)
    requires job.timeout.After? && 0 <= n < |calls| && Served(job, start, calls[..n]).lost == {}
    requires forall w :: w in Served(job, start, calls).lost <==> Overdue(job, start, calls, n, w)
    requires forall m: nat | m < n :: !SomeoneOverdue(job, start, calls, m)
    ensures FailedAt(job, start, calls, n)
  {
    hide Served, Overdue, SomeoneOverdue;
  }

  lemma FailedFacts(job: Job, start: Server, calls: seq<Call>, n: int, w: Id)
    requires job.timeout.After? && FailedAt(job, start, calls, n)
    ensures 0 <= n < |calls| && Served(job, start, calls[..n]).lost == {}
    ensures w in Served(job, start, calls).lost <==> Overdue(job, start, calls, n, w)
    ensures forall m: nat | m < n :: !SomeoneOverdue(job, start, calls, m)
  {
    hide Served, Overdue, SomeoneOverdue;
  }

  lemma StillNamed(job: Job, start: Server, calls: seq<Call>, front: seq<Call>, n: int, w: Id)
    requires job.timeout.After? && calls != [] && front == calls[..|calls| - 1] && FailedAt(job, start, front, n)
    requires Served(job, start, calls).lost == Served(job, start, front).lost
    ensures 0 <= n < |front|
    ensures w in Served(job, start, calls).lost <==> Overdue(job, start, calls, n, w)
  {
    hide *;
    FailedFacts(job, start, front, n, w);
    OverduePrefix(job, start, calls, |front|, n, w);
  }

  lemma StillFirst(job: Job, start: Server, calls: seq<Call>, front: seq<Call>, n: int, m: nat)
    requires job.timeout.After? && calls != [] && front == calls[..|calls| - 1] && FailedAt(job, start, front, n)
    requires m < n
    ensures !SomeoneOverdue(job, start, calls, m)
  {
    hide *;
    FailedFacts(job, start, front, n, 0);
    EarlierOverdue(job, start, calls, m);
  }

  lemma EarlierFailed(job: Job, start: Server, calls: seq<Call>, front: seq<Call>, n: int)
    requires job.timeout.After? && calls != [] && front == calls[..|calls| - 1] && FailedAt(job, start, front, n)
    requires Served(job, start, calls).lost == Served(job, start, front).lost
    ensures FailedAt(job, start, calls, n)
  {
    hide *;
    FailedFacts(job, start, front, n, 0);
    SameLostPrefix(job, start, calls, n);
    forall m: nat | m < n ensures !SomeoneOverdue(job, start, calls, m) {
      StillFirst(job, start, calls, front, n, m);
    }
    forall w ensures w in Served(job, start, calls).lost <==> Overdue(job, start, calls, n, w) {
      StillNamed(job, start, calls, front, n, w);
    }
    IsFailedAt(job, start, calls, n);
  }

  lemma FailsNow(job: Job, start: Server, calls: seq<Call>)
    requires job.timeout.After? && calls != [] && !AnyOverdue(job, start, calls[..|calls| - 1])
    requires Served(job, start, calls[..|calls| - 1]).lost == {}
    requires forall w :: w in Served(job, start, calls).lost <==> Overdue(job, start, calls, |calls| - 1, w)
    ensures FailedAt(job, start, calls, |calls| - 1)
  {
    var last := |calls| - 1;
    hide Served, Overdue, SomeoneOverdue;
    forall m: nat | m < last ensures !SomeoneOverdue(job, start, calls, m) {
      EarlierOverdue(job, start, calls, m);
      assert !SomeoneOverdue(job, start, calls[..last], m);
    }
  }

  /** Without a limit no run fails. */
  lemma {:induction false} NeverFails(job: Job, start: Server, calls: seq<Call>)
    requires job.timeout.Never? && start.lost == {}
    ensures Served(job, start, calls).lost == {}
  {
    if calls != [] {
      NeverFails(job, start, calls[..|calls| - 1]);
      LostAfter(job, start, calls);
    }
  }

  /** The worker's accepted requests, and each check after its last one, are never more than the limit apart. */
  ghost predicate Lively(job: Job, start: Server, calls: seq<Call>, w: Id)
    requires job.timeout.After?
  {
    forall n: nat, m: nat | m < n < |calls| && LastHeard(job, start, calls[..n], m, w) ::
      calls[m].Ask? && ReadAt(calls[n]) - calls[m].seen <= job.timeout.limit
  }

  /** A run in which every worker is lively never fails. */
  lemma LivelyRunsSucceed(job: Job, start: Server, calls: seq<Call>)
    requires start.registered == {} && start.lastSeen == map[] && start.lost == {} && job.timeout.After?
    requires forall w :: Lively(job, start, calls, w)
    ensures Served(job, start, calls).lost == {}
  {
    FailsExactly(job, start, calls);
    hide Served, Overdue, Lively, FailedAt;
    forall n: nat, w | n < |calls| ensures !Overdue(job, start, calls, n, w) {
      LivelyIsNotOverdue(job, start, calls, n, w);
    }
  }

  lemma LivelyIsNotOverdue(job: Job, start: Server, calls: seq<Call>, n: nat, w: Id)
    requires job.timeout.After? && n < |calls| && Lively(job, start, calls, w)
    ensures !Overdue(job, start, calls, n, w)
  {
    forall m | LastHeard(job, start, calls[..n], m, w) ensures ReadAt(calls[n]) - calls[m].seen <= job.timeout.limit {
      HeardIsAsk(job, start, calls[..n], m, w);
    }
  }
}
