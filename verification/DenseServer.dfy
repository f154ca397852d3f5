/**
 The synchronous parameter server: one request is handled atomically, gradients are kept until
 every configured worker has submitted for the current step, and then averaged by sample count
 and given to the optimizer. The optimizer is any deterministic function that keeps shapes.
 */
module DenseServer {
  import opened Arithmetic
  import opened Sums

  type Id = nat
  type Tensor = seq<real>
  type Params = seq<Tensor>
  type Memory = seq<Tensor>
  type Optimizer = (Params, Memory, Params) -> (Params, Memory)

  datatype Timeout = Never | After(limit: real)

  datatype Job = Job(workers: seq<Id>, schema: seq<nat>, timeout: Timeout, optimize: Optimizer)

  datatype Submission = Submission(count: nat, gradients: Params)

  datatype Body =
    | Register(schema: seq<nat>)
    | Heartbeat
    | Pull
    | Push(count: int, gradients: Params)
    | Shutdown
    | Other

  datatype Request = Request(id: nat, worker: Id, step: int, body: Body)

  datatype Code =
    | UnknownWorker | NotRegistered | WorkerTimeout | SchemaMismatch | StaleStep | FutureStep
    | DuplicateGradient | InvalidPayload | OrderMismatch | ShapeMismatch | UnsupportedMessage

  datatype Answer =
    | Error(code: Code)
    | Parameters(params: Params)
    | Waiting(received: set<Id>)
    | Alive
    | Acknowledged

  /** Every reply repeats the request's id and carries the server's step. */
  datatype Reply = Reply(id: nat, version: nat, answer: Answer)

  /** `lost` names the workers whose timeout failed the job; it is empty while the job runs. */
  datatype Server = Server(
    params: Params, memory: Memory, registered: set<Id>, lastSeen: map<Id, real>,
    pending: map<Id, Submission>, lost: set<Id>, step: nat)

  predicate Shaped(p: Params, schema: seq<nat>) {
    |p| == |schema| && forall i | 0 <= i < |schema| :: |p[i]| == schema[i]
  }

  ghost predicate KeepsShapes(optimize: Optimizer, schema: seq<nat>) {
    forall p: Params, m: Memory, g: Params | Shaped(p, schema) && Shaped(g, schema) ::
      Shaped(optimize(p, m, g).0, schema)
  }

  ghost predicate ValidJob(job: Job) {
    job.workers != [] && AllDistinct(job.workers) && KeepsShapes(job.optimize, job.schema)
  }

  // ----- the weighted average -----

  function At(p: Params, i: int, j: int): real {
    if 0 <= i < |p| && 0 <= j < |p[i]| then p[i][j] else 0.0
  }

  function CountOf(pending: map<Id, Submission>, w: Id): nat {
    if w in pending then pending[w].count else 0
  }

  function Samples(ws: seq<Id>, pending: map<Id, Submission>): nat {
    if ws == [] then 0 else Samples(ws[..|ws| - 1], pending) + CountOf(pending, ws[|ws| - 1])
  }

  function Ratio(count: nat, total: nat): real {
    if total == 0 then 0.0 else count as real / total as real
  }

  /** Worker number n's contribution to coordinate (i, j) of the average. */
  function Contribution(ws: seq<Id>, pending: map<Id, Submission>, i: int, j: int): int -> real {
    n =>
      if 0 <= n < |ws| && ws[n] in pending
      then Times(At(pending[ws[n]].gradients, i, j), Ratio(pending[ws[n]].count, Samples(ws, pending)))
      else 0.0
  }

  function Average(job: Job, pending: map<Id, Submission>): Params {
    seq(|job.schema|, i requires 0 <= i < |job.schema| => AverageOf(job, pending, i))
  }

  function AverageOf(job: Job, pending: map<Id, Submission>, i: int): Tensor
    requires 0 <= i < |job.schema|
  {
    seq(job.schema[i], j => Sum(|job.workers|, Contribution(job.workers, pending, i, j)))
  }

  lemma AverageIsShaped(job: Job, pending: map<Id, Submission>)
    ensures Shaped(Average(job, pending), job.schema)
  {
  }

  // ----- one request -----

  function Expired(job: Job, s: Server, now: real): set<Id> {
    if job.timeout.Never? then {}
    else set w | w in s.registered && w in s.lastSeen && now - s.lastSeen[w] > job.timeout.limit
  }

  function CheckTimeouts(job: Job, s: Server, now: real): Server {
    if s.lost != {} || Expired(job, s, now) == {} then s
    else s.(lost := Expired(job, s, now), pending := map[])
  }

  function FirstMisfit(p: Params, schema: seq<nat>): (i: nat)
    requires |p| == |schema|
    ensures i <= |schema|
    ensures forall k | 0 <= k < i :: |p[k]| == schema[k]
    ensures i < |schema| ==> |p[i]| != schema[i]
  {
    if p == [] || |p[0]| != schema[0] then 0 else 1 + FirstMisfit(p[1..], schema[1..])
  }

  /** The first thing wrong with a gradient payload, if anything is. */
  function PayloadError(schema: seq<nat>, count: int, gradients: Params): (wrong: seq<Code>)
    ensures wrong == [] <==> count > 0 && Shaped(gradients, schema)
  {
    if count <= 0 then [InvalidPayload]
    else if |gradients| != |schema| then [OrderMismatch]
    else if FirstMisfit(gradients, schema) < |schema| then [ShapeMismatch]
    else []
  }

  function Applied(job: Job, s: Server): Server {
    var (params, memory) := job.optimize(s.params, s.memory, Average(job, s.pending));
    s.(params := params, memory := memory, step := s.step + 1, pending := map[])
  }

  function Everyone(ws: seq<Id>): set<Id> {
    set w | w in ws
  }

  function Submit(job: Job, s: Server, r: Request): (Server, Answer)
    requires r.body.Push?
  {
    if r.step < s.step then (s, Error(StaleStep))
    else if r.step > s.step then (s, Error(FutureStep))
    else if r.worker in s.pending then (s, Error(DuplicateGradient))
    else
      var wrong := PayloadError(job.schema, r.body.count, r.body.gradients);
      if wrong != [] then (s, Error(wrong[0]))
      else
        var held := s.(pending := s.pending[r.worker := Submission(r.body.count, r.body.gradients)]);
        if held.pending.Keys != Everyone(job.workers) then (held, Waiting(held.pending.Keys))
        else (Applied(job, held), Parameters(Applied(job, held).params))
  }

  function Dispatch(job: Job, s: Server, r: Request): (Server, Answer) {
    match r.body
    case Heartbeat => (s, Alive)
    case Pull =>
      if r.step > s.step + 1 then (s, Error(FutureStep))
      else if r.step > s.step then (s, Waiting(s.pending.Keys))
      else (s, Parameters(s.params))
    case Push(_, _) => Submit(job, s, r)
    case Shutdown => (s, Acknowledged)
    case _ => (s, Error(UnsupportedMessage))
  }

  /** One request; the clock is read once for the timeout check and once to note the sender. */
  function Handle(job: Job, s: Server, r: Request, checked: real, seen: real): (Server, Reply) {
    var c := CheckTimeouts(job, s, checked);
    var (after, answer) :=
      if c.lost != {} then (c, Error(WorkerTimeout))
      else if r.worker !in job.workers then (c, Error(UnknownWorker))
      else if r.body.Register? then
        if r.body.schema != job.schema then (c, Error(SchemaMismatch))
        else
          (c.(registered := c.registered + {r.worker}, lastSeen := c.lastSeen[r.worker := seen]),
           Parameters(c.params))
      else if r.worker !in c.registered then (c, Error(NotRegistered))
      else Dispatch(job, c.(lastSeen := c.lastSeen[r.worker := seen]), r);
    (after, Reply(r.id, after.step, answer))
  }

  ghost predicate ServerInv(job: Job, s: Server) {
    && Shaped(s.params, job.schema)
    && s.registered <= Everyone(job.workers)
    && s.registered <= s.lastSeen.Keys
    && s.pending.Keys <= s.registered
    && s.pending.Keys < Everyone(job.workers)
    && (forall w | w in s.pending :: s.pending[w].count > 0 && Shaped(s.pending[w].gradients, job.schema))
    && (s.lost != {} ==> s.pending == map[])
  }

  /** Pending submissions never cover every worker between requests, whatever the requests are. */
  lemma HandleKeepsInv(job: Job, s: Server, r: Request, checked: real, seen: real)
    requires ValidJob(job) && ServerInv(job, s)
    ensures ServerInv(job, Handle(job, s, r, checked, seen).0)
  {
    AverageIsShaped(job, s.pending[r.worker := Submission(0, [])]);
    var c := CheckTimeouts(job, s, checked);
    assert ServerInv(job, c) by {
      assert job.workers[0] in Everyone(job.workers);
    }
    if c.lost == {} && r.worker in job.workers && !r.body.Register? && r.worker in c.registered {
      DispatchKeepsInv(job, c.(lastSeen := c.lastSeen[r.worker := seen]), r);
    }
  }

  lemma DispatchKeepsInv(job: Job, s: Server, r: Request)
    requires ValidJob(job) && ServerInv(job, s) && s.lost == {} && r.worker in s.registered
    ensures ServerInv(job, Dispatch(job, s, r).0) && Dispatch(job, s, r).0.lost == {}
  {
    if r.body.Push? && r.step == s.step && r.worker !in s.pending
       && PayloadError(job.schema, r.body.count, r.body.gradients) == [] {
      var held := s.(pending := s.pending[r.worker := Submission(r.body.count, r.body.gradients)]);
      assert held.pending.Keys <= Everyone(job.workers);
      AverageIsShaped(job, held.pending);
      assert job.workers[0] in Everyone(job.workers);
    }
  }

  /** Once a timeout has failed the job, no request changes anything and all are refused. */
  lemma FailureIsFinal(job: Job, s: Server, r: Request, checked: real, seen: real)
    requires s.lost != {}
    ensures Handle(job, s, r, checked, seen) == (s, Reply(r.id, s.step, Error(WorkerTimeout)))
  {
  }

  /** Who is turned away, and why; every reply repeats the request's id and carries the step reached. */
  lemma RefusalsExact(job: Job, s: Server, r: Request, checked: real, seen: real)
    ensures var (after, reply) := Handle(job, s, r, checked, seen);
            var alive, a := CheckTimeouts(job, s, checked).lost == {}, reply.answer;
            && reply.id == r.id && reply.version == after.step
            && (a == Error(WorkerTimeout) <==> !alive)
            && (a == Error(UnknownWorker) <==> alive && r.worker !in job.workers)
            && (a == Error(SchemaMismatch) <==>
                  alive && r.worker in job.workers && r.body.Register? && r.body.schema != job.schema)
            && (a == Error(NotRegistered) <==>
                  alive && r.worker in job.workers && !r.body.Register? && r.worker !in s.registered)
            && (a == Error(UnsupportedMessage) <==>
                  alive && r.worker in job.workers && r.worker in s.registered && r.body.Other?)
            && (a.Error? && alive ==> after.params == s.params && after.memory == s.memory && after.step == s.step
                                      && after.pending == s.pending)
            && (a.Parameters? ==> a.params == after.params)
            && (a.Waiting? ==> a.received == after.pending.Keys)
  {
    if r.body.Push? {
      PayloadCodes(job.schema, r.body.count, r.body.gradients);
    }
    hide PayloadError, Average, Expired;
  }

  /** The first of the things that can be wrong with a payload names the error. */
  lemma PayloadCodes(schema: seq<nat>, count: int, gradients: Params)
    ensures var wrong := PayloadError(schema, count, gradients);
            && (count <= 0 <==> wrong == [InvalidPayload])
            && (count > 0 && |gradients| != |schema| <==> wrong == [OrderMismatch])
            && (count > 0 && |gradients| == |schema| && !Shaped(gradients, schema) <==> wrong == [ShapeMismatch])
            && (wrong == [] || wrong in {[InvalidPayload], [OrderMismatch], [ShapeMismatch]})
  {
  }

  /** What a registered worker of a live job is answered to a push and to a pull, by its step. */
  lemma StepAnswers(job: Job, s: Server, r: Request, checked: real, seen: real)
    requires CheckTimeouts(job, s, checked).lost == {} && r.worker in job.workers && r.worker in s.registered
    ensures var a := Handle(job, s, r, checked, seen).1.answer;
            match r.body
            case Push(count, gradients) =>
              && (a == Error(StaleStep) <==> r.step < s.step)
              && (a == Error(FutureStep) <==> r.step > s.step)
              && (a == Error(DuplicateGradient) <==> r.step == s.step && r.worker in s.pending)
              && (!a.Error? <==> r.step == s.step && r.worker !in s.pending && count > 0 && Shaped(gradients, job.schema))
            case Pull =>
              && (a == Parameters(s.params) <==> r.step <= s.step)
              && (a.Waiting? <==> r.step == s.step + 1)
              && (a == Error(FutureStep) <==> r.step > s.step + 1)
            case Heartbeat => a == Alive
            case Shutdown => a == Acknowledged
            case _ => true
  {
    if r.body.Push? {
      PayloadCodes(job.schema, r.body.count, r.body.gradients);
    }
    hide PayloadError, Average, Expired;
  }

  /** The step advances exactly when the submission that completes the set of workers arrives. */
  lemma AdvancesExactlyOnLastSubmission(job: Job, s: Server, r: Request, checked: real, seen: real)
    requires ValidJob(job) && ServerInv(job, s)
    ensures var c := CheckTimeouts(job, s, checked);
            var after := Handle(job, s, r, checked, seen).0;
            && (after.step == s.step || after.step == s.step + 1)
            && (after.step == s.step + 1 <==>
                && c.lost == {} && r.worker in s.registered && r.body.Push? && r.step == s.step
                && PayloadError(job.schema, r.body.count, r.body.gradients) == []
                && s.pending.Keys == Everyone(job.workers) - {r.worker})
            && (after.step == s.step ==> after.params == s.params && after.memory == s.memory)
  {
    var c := CheckTimeouts(job, s, checked);
    if c.lost == {} && r.worker in job.workers && r.worker in c.registered && r.body.Push? {
      var keys := s.pending.Keys;
      if r.worker !in keys {
        assert r.worker in Everyone(job.workers);
        assert keys + {r.worker} == Everyone(job.workers) <==> keys == Everyone(job.workers) - {r.worker};
        assert s.pending[r.worker := Submission(1, [])].Keys == keys + {r.worker};
      }
    }
  }

  // ----- the object -----

  class ParameterServer {
    const job: Job
    var params: Params
    var memory: Memory
    var registered: set<Id>
    var lastSeen: map<Id, real>
    var pending: map<Id, Submission>
    var lost: set<Id>
    var step: nat

    ghost function View(): Server
      reads this
    {
      Server(params, memory, registered, lastSeen, pending, lost, step)
    }

    ghost predicate Valid()
      reads this
    {
      ValidJob(job) && ServerInv(job, View())
    }

    constructor (job: Job, params: Params, memory: Memory)
      requires ValidJob(job) && Shaped(params, job.schema)
      ensures Valid() && this.job == job
      ensures View() == Server(params, memory, {}, map[], map[], {}, 0)
    {
      this.job, this.params, this.memory := job, params, memory;
      registered, lastSeen, pending, lost, step := {}, map[], map[], {}, 0;
      new;
      assert job.workers[0] in Everyone(job.workers);
    }

    method CheckTimeoutsLocked(now: real) returns (timedOut: set<Id>)
      requires Valid()
      modifies this`lost, this`pending
      ensures View() == CheckTimeouts(job, old(View()), now)
      ensures timedOut == if old(lost) != {} then {} else Expired(job, old(View()), now)
    {
      timedOut := {};
      if job.timeout.Never? || lost != {} {
        return;
      }
      timedOut := set w | w in registered && now - lastSeen[w] > job.timeout.limit;
      assert timedOut == Expired(job, View(), now);
      if timedOut != {} {
        lost, pending := timedOut, map[];
      }
    }

    method TotalSamples() returns (total: nat)
      ensures total == Samples(job.workers, pending)
    {
      total := 0;
      for n := 0 to |job.workers|
        invariant total == Samples(job.workers[..n], pending)
      {
        assert job.workers[..n + 1][..n] == job.workers[..n];
        total := total + if job.workers[n] in pending then pending[job.workers[n]].count else 0;
      }
      assert job.workers[..|job.workers|] == job.workers;
    }

    /** One parameter's average, accumulated in place worker by worker. */
    method Accumulate(index: nat, total: nat) returns (average: array<real>)
      requires index < |job.schema| && total == Samples(job.workers, pending) > 0
      requires forall w | w in job.workers :: w in pending && Shaped(pending[w].gradients, job.schema)
      ensures fresh(average) && average[..] == AverageOf(job, pending, index)
    {
      hide Times, Ratio;
      average := new real[job.schema[index]](_ => 0.0);
      for n := 0 to |job.workers|
        invariant fresh(average) && average.Length == job.schema[index]
        invariant forall j | 0 <= j < average.Length ::
          average[j] == Sum(n, Contribution(job.workers, pending, index, j))
      {
        assert job.workers[n] in job.workers;
        var submission := pending[job.workers[n]];
        var gradient := submission.gradients[index];
        forall j | 0 <= j < average.Length {
          average[j] := average[j] + Times(gradient[j], Ratio(submission.count, total));
        }
      }
    }

    method ApplyPendingGradients()
      requires forall w | w in job.workers :: w in pending && Shaped(pending[w].gradients, job.schema)
      requires Samples(job.workers, pending) > 0
      modifies this`params, this`memory, this`step, this`pending
      ensures View() == Applied(job, old(View()))
    {
      var total := TotalSamples();
      var gradients: Params := [];
      for index := 0 to |job.schema|
        invariant View() == old(View())
        invariant gradients == Average(job, pending)[..index]
      {
        var average := Accumulate(index, total);
        gradients := gradients + [average[..]];
      }
      assert gradients == Average(job, pending);
      var (next, kept) := job.optimize(params, memory, gradients);
      params, memory := next, kept;
      step := step + 1;
      pending := map[];
    }

    method PushGradients(r: Request) returns (answer: Answer)
      requires Valid() && lost == {} && r.body.Push? && r.worker in registered
      modifies this`params, this`memory, this`step, this`pending
      ensures (View(), answer) == Submit(job, old(View()), r)
    {
      if r.step < step {
        return Error(StaleStep);
      }
      if r.step > step {
        return Error(FutureStep);
      }
      if r.worker in pending {
        return Error(DuplicateGradient);
      }
      var wrong := PayloadError(job.schema, r.body.count, r.body.gradients);
      if wrong != [] {
        return Error(wrong[0]);
      }
      pending := pending[r.worker := Submission(r.body.count, r.body.gradients)];
      if pending.Keys != Everyone(job.workers) {
        return Waiting(pending.Keys);
      }
      assert forall w | w in job.workers :: w in Everyone(job.workers);
      SamplesPositive(job.workers, pending);
      ApplyPendingGradients();
      answer := Parameters(params);
    }

    method HandleMessage(r: Request, checked: real, seen: real) returns (reply: Reply)
      requires Valid()
      modifies this
      ensures Valid()
      ensures (View(), reply) == Handle(job, old(View()), r, checked, seen)
    {
      HandleKeepsInv(job, View(), r, checked, seen);
      var answer := Alive;
      var _ := CheckTimeoutsLocked(checked);
      if lost != {} {
        answer := Error(WorkerTimeout);
      } else if r.worker !in job.workers {
        answer := Error(UnknownWorker);
      } else if r.body.Register? {
        if r.body.schema != job.schema {
          answer := Error(SchemaMismatch);
        } else {
          registered := registered + {r.worker};
          lastSeen := lastSeen[r.worker := seen];
          answer := Parameters(params);
        }
      } else if r.worker !in registered {
        answer := Error(NotRegistered);
      } else {
        lastSeen := lastSeen[r.worker := seen];
        match r.body {
          case Heartbeat =>
          case Pull =>
            answer :=
              if r.step > step + 1 then Error(FutureStep)
              else if r.step > step then Waiting(pending.Keys)
              else Parameters(params);
          case Push(_, _) => answer := PushGradients(r);
          case Shutdown => answer := Acknowledged;
          case _ => answer := Error(UnsupportedMessage);
        }
      }
      reply := Reply(r.id, step, answer);
    }
  }

  lemma SamplesPositive(ws: seq<Id>, pending: map<Id, Submission>)
    requires ws != [] && forall w | w in ws :: w in pending && pending[w].count > 0
    ensures Samples(ws, pending) > 0
  {
    assert ws[|ws| - 1] in ws;
  }
}
