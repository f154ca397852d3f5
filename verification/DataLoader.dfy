/**
 The data loader: how an epoch is ordered, the synchronous iterator, and the threads of the
 asynchronous one. A turn is one atomic action of one thread; a thread that would have to wait
 does nothing in its turn, so every schedule of the threads is a run.
 */
module DataLoader {
  import opened Arithmetic
  import opened Batching

  datatype Fetched = Samples(data: seq<int>) | FetchFailed(error: nat)

  datatype Converted = Tensors(values: seq<int>) | ConvertFailed(error: nat)

  datatype Answer = Batch(values: seq<int>) | Raised(error: nat) | Exhausted

  datatype Epoch = Epoch(ordering: seq<seq<nat>>, fetch: seq<nat> -> Fetched, convert: seq<int> -> Converted)

  // ----- the order of an epoch -----

  function Stop(n: nat, size: nat, dropLast: bool): (stop: nat)
    requires size > 0
    ensures stop <= n
  {
    if dropLast then n - n % size else n
  }

  function MakeOrdering(indices: seq<nat>, size: nat, dropLast: bool): seq<seq<nat>>
    requires size > 0
  {
    Chop(indices[..Stop(|indices|, size, dropLast)], size)
  }

  function Length(n: nat, size: nat, dropLast: bool): nat
    requires size > 0
  {
    if dropLast then n / size else (n + size - 1) / size
  }

  /** The loader's length is the number of batches, which cover the shuffled indices in order. */
  lemma OrderingExact(indices: seq<nat>, size: nat, dropLast: bool)
    requires size > 0
    ensures var list := MakeOrdering(indices, size, dropLast);
            && |list| == Length(|indices|, size, dropLast)
            && Concat(list) == indices[..Stop(|indices|, size, dropLast)]
            && (forall i | 0 <= i < |list| :: 0 < |list[i]| <= size)
            && (dropLast ==> forall i | 0 <= i < |list| :: |list[i]| == size)
            && (if dropLast then |indices| - size < |Concat(list)| <= |indices| else Concat(list) == indices)
  {
    var kept := indices[..Stop(|indices|, size, dropLast)];
    ChopCovers(kept, size);
    ChopCount(kept, size);
    if kept != [] {
      ChopSizes(kept, size);
    }
    if dropLast {
      WholeBatches(|indices|, size);
    }
    hide Chop, Concat;
  }

  lemma WholeBatches(n: nat, size: nat)
    requires size > 0
    ensures (n - n % size) % size == 0 && (n - n % size + size - 1) / size == n / size
  {
    var q, r := n / size, n % size;
    assert n - r == q * size;
    DivModUnique(n - r, size, q, 0);
    DivModUnique(n - r + size - 1, size, q, size - 1);
  }

  // ----- what a caller sees -----

  /** Fetching and converting one batch. */
  function Outcome(c: Epoch, i: nat): (a: Answer)
    requires i < |c.ordering|
    ensures !a.Exhausted?
  {
    match c.fetch(c.ordering[i])
    case FetchFailed(e) => Raised(e)
    case Samples(data) => ConvertOne(c, data)
  }

  function ConvertOne(c: Epoch, data: seq<int>): (a: Answer)
    ensures !a.Exhausted?
  {
    match c.convert(data)
    case Tensors(values) => Batch(values)
    case ConvertFailed(e) => Raised(e)
  }

  /** What a caller that stops at the first error has received from the first n batches. */
  function Answers(c: Epoch, n: nat): seq<Answer>
    requires n <= |c.ordering|
  {
    if n == 0 then []
    else
      var before := Answers(c, n - 1);
      if before != [] && before[|before| - 1].Raised? then before else before + [Outcome(c, n - 1)]
  }

  lemma {:induction false} AnswersGrow(c: Epoch, m: nat, n: nat)
    requires m <= n <= |c.ordering|
    ensures Answers(c, m) <= Answers(c, n)
    ensures Answers(c, m) != [] && Answers(c, m)[|Answers(c, m)| - 1].Raised? ==> Answers(c, n) == Answers(c, m)
  {
    if m < n {
      AnswersGrow(c, m, n - 1);
    }
  }

  /** What answer i is: the batch fetched and converted, or the error of the first of these that failed. */
  ghost predicate AnswerIs(c: Epoch, i: nat, a: Answer)
    requires i < |c.ordering|
  {
    var fetched := c.fetch(c.ordering[i]);
    match a
    case Batch(values) => fetched.Samples? && c.convert(fetched.data) == Tensors(values)
    case Raised(e) => fetched == FetchFailed(e) || (fetched.Samples? && c.convert(fetched.data) == ConvertFailed(e))
    case Exhausted => false
  }

  /** The answers are those of the batches in order, up to the first error or to the last batch asked for. */
  lemma {:induction false} AnswersAre(c: Epoch, n: nat)
    requires n <= |c.ordering|
    ensures var seen := Answers(c, n);
      && |seen| <= n && (|seen| == n || (seen != [] && seen[|seen| - 1].Raised?))
      && (forall i | 0 <= i < |seen| :: AnswerIs(c, i, seen[i]))
      && (forall i | 0 <= i < |seen| - 1 :: seen[i].Batch?)
  {
    if n > 0 {
      AnswersAre(c, n - 1);
    }
  }

  class SyncIterator {
    const epoch: Epoch
    var index: nat

    constructor (epoch: Epoch)
      ensures this.epoch == epoch && index == 0
    {
      this.epoch, index := epoch, 0;
    }

    method Next() returns (a: Answer)
      modifies this
      ensures a == if old(index) < |epoch.ordering| then Outcome(epoch, old(index)) else Exhausted
      ensures index == if old(index) < |epoch.ordering| then old(index) + 1 else old(index)
    {
      if index >= |epoch.ordering| {
        return Exhausted;
      }
      var indices := epoch.ordering[index];
      index := index + 1;
      match epoch.fetch(indices) {
        case FetchFailed(e) => a := Raised(e);
        case Samples(data) => a := ConvertOne(epoch, data);
      }
    }
  }

  /** A caller of the synchronous iterator that stops at the first error. */
  method ReadSynchronously(c: Epoch) returns (seen: seq<Answer>)
    ensures seen == Answers(c, |c.ordering|)
  {
    var it := new SyncIterator(c);
    seen := [];
    var a := Exhausted;
    while it.index < |c.ordering| && (seen == [] || !seen[|seen| - 1].Raised?)
      invariant fresh(it) && it.epoch == c && it.index <= |c.ordering| && seen == Answers(c, it.index)
      decreases |c.ordering| - it.index
    {
      a := it.Next();
      seen := seen + [a];
    }
    AnswersGrow(c, it.index, |c.ordering|);
  }

  // ----- the threads of the asynchronous iterator -----

  datatype Task = Work(sequence: nat) | StopToken

  datatype Result = Result(sequence: nat, fetched: Fetched)

  datatype Producer = Acquiring(next: nat) | Putting(hand: nat) | Stopping(sent: nat) | Done

  datatype Worker = Idle | Busy(task: nat) | Holding(result: Result) | Exited

  datatype Status = Running | Failed | Finished

  datatype Loader = Loader(
    producer: Producer, workers: seq<Worker>, tasks: seq<Task>, results: seq<Result>, free: nat,
    buffer: map<nat, Result>, next: nat, delivered: seq<Answer>, status: Status)

  datatype Thread = ProducerThread | WorkerThread(w: nat) | ConsumerThread

  function Initial(c: Epoch, workers: nat, capacity: nat): Loader {
    Loader(Acquiring(0), seq(workers, _ => Idle), [], [], capacity, map[], 0, [],
           if c.ordering == [] then Finished else Running)
  }

  function ProducerTurn(c: Epoch, capacity: nat, s: Loader): Loader {
    match s.producer
    case Acquiring(n) =>
      if n >= |c.ordering| then s.(producer := Stopping(0))
      else if s.free == 0 then s
      else s.(producer := Putting(n), free := s.free - 1)
    case Putting(n) =>
      if |s.tasks| >= capacity then s
      else s.(producer := Acquiring(n + 1), tasks := s.tasks + [Work(n)])
    case Stopping(k) =>
      if k >= |s.workers| then s.(producer := Done)
      else if |s.tasks| >= capacity then s
      else s.(producer := Stopping(k + 1), tasks := s.tasks + [StopToken])
    case Done => s
  }

  function WorkerTurn(c: Epoch, capacity: nat, s: Loader, w: nat): Loader {
    if w >= |s.workers| then s
    else match s.workers[w]
      case Idle =>
        if s.tasks == [] then s
        else
          var now := if s.tasks[0].Work? then Busy(s.tasks[0].sequence) else Exited;
          s.(workers := s.workers[w := now], tasks := s.tasks[1..])
      case Busy(n) =>
        if n >= |c.ordering| then s
        else s.(workers := s.workers[w := Holding(Result(n, c.fetch(c.ordering[n])))])
      case Holding(r) =>
        if |s.results| >= capacity then s
        else s.(workers := s.workers[w := Idle], results := s.results + [r])
      case Exited => s
  }

  /** The consumer inside a call of next: it takes results until its own is there, then answers. */
  function ConsumerTurn(c: Epoch, s: Loader): Loader {
    if s.next >= |c.ordering| then s
    else if s.next in s.buffer then
      var r := s.buffer[s.next];
      var a := if r.fetched.FetchFailed? then Raised(r.fetched.error) else ConvertOne(c, r.fetched.data);
      s.(buffer := s.buffer - {s.next}, next := s.next + 1, free := s.free + 1, delivered := s.delivered + [a],
         status := if a.Raised? then Failed else if s.next + 1 >= |c.ordering| then Finished else Running)
    else if s.results == [] then s
    else s.(buffer := s.buffer[s.results[0].sequence := s.results[0]], results := s.results[1..])
  }

  /** Once a batch has failed or the last one was delivered the loader is closed. */
  function Turn(c: Epoch, capacity: nat, s: Loader, t: Thread): Loader {
    if !s.status.Running? then s
    else match t
      case ProducerThread => ProducerTurn(c, capacity, s)
      case WorkerThread(w) => WorkerTurn(c, capacity, s, w)
      case ConsumerThread => ConsumerTurn(c, s)
  }

  function Run(c: Epoch, workers: nat, capacity: nat, turns: seq<Thread>): Loader {
    if turns == [] then Initial(c, workers, capacity)
    else Turn(c, capacity, Run(c, workers, capacity, turns[..|turns| - 1]), turns[|turns| - 1])
  }

  // ----- where a sequence number is -----

  function One(b: bool): nat { if b then 1 else 0 }

  /** How often a sequence number stands in the task queue. */
  function InTasks(tasks: seq<Task>, n: nat): nat {
    if tasks == [] then 0 else InTasks(tasks[..|tasks| - 1], n) + One(tasks[|tasks| - 1] == Work(n))
  }

  function HasTask(w: Worker, n: nat): bool {
    match w
    case Busy(m) => m == n
    case Holding(r) => r.sequence == n
    case _ => false
  }

  function InWorkers(workers: seq<Worker>, n: nat): nat {
    if workers == [] then 0 else InWorkers(workers[..|workers| - 1], n) + One(HasTask(workers[|workers| - 1], n))
  }

  function InResults(results: seq<Result>, n: nat): nat {
    if results == [] then 0 else InResults(results[..|results| - 1], n) + One(results[|results| - 1].sequence == n)
  }

  /** How often a sequence number is held anywhere between the producer and the caller. */
  function Places(s: Loader, n: nat): nat {
    One(s.producer == Putting(n)) + InTasks(s.tasks, n) + InWorkers(s.workers, n) + InResults(s.results, n)
    + One(n in s.buffer)
  }

  function Tokens(tasks: seq<Task>): nat {
    if tasks == [] then 0 else Tokens(tasks[..|tasks| - 1]) + One(tasks[|tasks| - 1].StopToken?)
  }

  function Exits(workers: seq<Worker>): nat {
    if workers == [] then 0 else Exits(workers[..|workers| - 1]) + One(workers[|workers| - 1].Exited?)
  }

  function Carries(w: Worker): bool { w.Busy? || w.Holding? }

  function Loads(workers: seq<Worker>): nat {
    if workers == [] then 0 else Loads(workers[..|workers| - 1]) + One(Carries(workers[|workers| - 1]))
  }

  /** The number of sequences held, which is the number of slots in use. */
  function Held(s: Loader): int {
    One(s.producer.Putting?) + (|s.tasks| - Tokens(s.tasks)) + Loads(s.workers) + |s.results| + |s.buffer|
  }

  function Submitted(c: Epoch, p: Producer): nat {
    match p
    case Acquiring(n) => n
    case Putting(n) => n + 1
    case _ => |c.ordering|
  }

  lemma {:induction false} TasksHead(tasks: seq<Task>, n: nat)
    requires tasks != []
    ensures InTasks(tasks, n) == One(tasks[0] == Work(n)) + InTasks(tasks[1..], n)
    ensures Tokens(tasks) == One(tasks[0].StopToken?) + Tokens(tasks[1..])
  {
    var last := |tasks| - 1;
    if last > 0 {
      var tail := tasks[1..];
      TasksHead(tasks[..last], n);
      assert tail[..last - 1] == tasks[..last][1..] && tail[last - 1] == tasks[last];
    }
  }

  lemma TasksAppend(tasks: seq<Task>, t: Task, n: nat)
    ensures InTasks(tasks + [t], n) == InTasks(tasks, n) + One(t == Work(n))
    ensures Tokens(tasks + [t]) == Tokens(tasks) + One(t.StopToken?)
  {
    assert (tasks + [t])[..|tasks|] == tasks;
  }

  lemma {:induction false} ResultsHead(results: seq<Result>, n: nat)
    requires results != []
    ensures InResults(results, n) == One(results[0].sequence == n) + InResults(results[1..], n)
  {
    var last := |results| - 1;
    if last > 0 {
      var tail := results[1..];
      ResultsHead(results[..last], n);
      assert tail[..last - 1] == results[..last][1..] && tail[last - 1] == results[last];
    }
  }

  lemma ResultsAppend(results: seq<Result>, r: Result, n: nat)
    ensures InResults(results + [r], n) == InResults(results, n) + One(r.sequence == n)
  {
    assert (results + [r])[..|results|] == results;
  }

  lemma {:induction false} WorkersChange(workers: seq<Worker>, w: nat, now: Worker, n: nat)
    requires w < |workers|
    ensures InWorkers(workers[w := now], n) + One(HasTask(workers[w], n)) == InWorkers(workers, n) + One(HasTask(now, n))
    ensures Exits(workers[w := now]) + One(workers[w].Exited?) == Exits(workers) + One(now.Exited?)
    ensures Loads(workers[w := now]) + One(Carries(workers[w])) == Loads(workers) + One(Carries(now))
  {
    hide HasTask, Carries;
    var last := |workers| - 1;
    var changed := workers[w := now];
    if w < last {
      WorkersChange(workers[..last], w, now, n);
      assert changed[..last] == workers[..last][w := now];
    } else {
      assert changed[..last] == workers[..last];
    }
  }

  lemma {:induction false} IdleHoldNothing(workers: seq<Worker>, n: nat)
    requires forall w | 0 <= w < |workers| :: workers[w].Idle?
    ensures InWorkers(workers, n) == 0 && Exits(workers) == 0 && Loads(workers) == 0
  {
    if workers != [] {
      IdleHoldNothing(workers[..|workers| - 1], n);
    }
  }

  // ----- the invariant -----

  function Sent(p: Producer, workers: nat): nat {
    match p
    case Stopping(k) => k
    case Done => workers
    case _ => 0
  }

  ghost predicate GoodResult(c: Epoch, r: Result) {
    r.sequence < |c.ordering| && r.fetched == c.fetch(c.ordering[r.sequence])
  }

  ghost predicate Contents(c: Epoch, s: Loader) {
    && (forall i | 0 <= i < |s.results| :: GoodResult(c, s.results[i]))
    && (forall w | 0 <= w < |s.workers| && s.workers[w].Holding? :: GoodResult(c, s.workers[w].result))
    && (forall n | n in s.buffer :: GoodResult(c, s.buffer[n]) && s.buffer[n].sequence == n)
  }

  /** Stop tokens follow all the work, and a worker leaves only by taking one. */
  ghost predicate Ordered(s: Loader) {
    && (forall i, j | 0 <= i < j < |s.tasks| && s.tasks[i].StopToken? :: s.tasks[j].StopToken?)
    && Tokens(s.tasks) + Exits(s.workers) == Sent(s.producer, |s.workers|) <= |s.workers|
    && (s.producer.Acquiring? || s.producer.Putting? ==> forall i | 0 <= i < |s.tasks| :: s.tasks[i].Work?)
    && (Exits(s.workers) > 0 ==> forall i | 0 <= i < |s.tasks| :: s.tasks[i].StopToken?)
  }

  /** Every submitted sequence not yet delivered is in exactly one place, and no other is anywhere. */
  ghost predicate OnePlace(c: Epoch, s: Loader) {
    forall n: nat :: Places(s, n) == One(s.next <= n < Submitted(c, s.producer))
  }

  /** Free slots and held sequences make up the capacity. */
  ghost predicate SlotsKept(c: Epoch, capacity: nat, s: Loader) {
    s.free + Held(s) == capacity && Held(s) == Submitted(c, s.producer) - s.next
  }

  ghost predicate Progressing(c: Epoch, s: Loader) {
    && s.next <= Submitted(c, s.producer) <= |c.ordering|
    && s.delivered == Answers(c, s.next)
    && (s.status.Running? ==> s.next < |c.ordering|)
    && (s.status.Failed? <==> s.delivered != [] && s.delivered[|s.delivered| - 1].Raised?)
    && (s.status.Finished? ==> s.next == |c.ordering|)
  }

  ghost predicate Inv(c: Epoch, workers: nat, capacity: nat, s: Loader) {
    && |s.workers| == workers
    && Contents(c, s) && Ordered(s) && OnePlace(c, s) && SlotsKept(c, capacity, s) && Progressing(c, s)
  }

  lemma InitialInv(c: Epoch, workers: nat, capacity: nat)
    requires capacity > 0
    ensures Inv(c, workers, capacity, Initial(c, workers, capacity))
  {
    var s := Initial(c, workers, capacity);
    forall n: nat ensures InWorkers(s.workers, n) == 0 && Exits(s.workers) == 0 && Loads(s.workers) == 0 {
      IdleHoldNothing(s.workers, n);
    }
    IdleHoldNothing(s.workers, 0);
    hide InWorkers, Exits, Loads;
  }

  // ----- what each turn moves -----

  lemma AcquireMoves(c: Epoch, capacity: nat, s: Loader)
    requires OnePlace(c, s) && SlotsKept(c, capacity, s) && s.producer.Acquiring? && s.producer.next < |c.ordering|
    requires s.free > 0 && s.next <= s.producer.next
    ensures OnePlace(c, ProducerTurn(c, capacity, s)) && SlotsKept(c, capacity, ProducerTurn(c, capacity, s))
  {
    hide InTasks, InWorkers, InResults, Tokens, Loads;
    var t := ProducerTurn(c, capacity, s);
    forall n: nat ensures Places(t, n) == Places(s, n) + One(n == s.producer.next) {
    }
    hide Places;
  }

  lemma PutMoves(c: Epoch, capacity: nat, s: Loader)
    requires OnePlace(c, s) && SlotsKept(c, capacity, s) && s.producer.Putting?
    ensures OnePlace(c, ProducerTurn(c, capacity, s)) && SlotsKept(c, capacity, ProducerTurn(c, capacity, s))
  {
    hide InTasks, InWorkers, InResults, Tokens, Loads;
    var t := ProducerTurn(c, capacity, s);
    forall n: nat ensures Places(t, n) == Places(s, n) {
      TasksAppend(s.tasks, Work(s.producer.hand), n);
    }
    TasksAppend(s.tasks, Work(s.producer.hand), 0);
    hide Places;
  }

  lemma SendStopMoves(c: Epoch, capacity: nat, s: Loader)
    requires OnePlace(c, s) && SlotsKept(c, capacity, s)
    requires s.producer.Stopping? || s.producer.Done? || (s.producer.Acquiring? && s.producer.next == |c.ordering|)
    ensures OnePlace(c, ProducerTurn(c, capacity, s)) && SlotsKept(c, capacity, ProducerTurn(c, capacity, s))
  {
    hide InTasks, InWorkers, InResults, Tokens, Loads;
    var t := ProducerTurn(c, capacity, s);
    forall n: nat ensures Places(t, n) == Places(s, n) {
      TasksAppend(s.tasks, StopToken, n);
    }
    TasksAppend(s.tasks, StopToken, 0);
    hide Places;
  }

  lemma TakeMoves(c: Epoch, capacity: nat, s: Loader, w: nat)
    requires OnePlace(c, s) && SlotsKept(c, capacity, s) && w < |s.workers| && s.workers[w].Idle? && s.tasks != []
    ensures OnePlace(c, WorkerTurn(c, capacity, s, w)) && SlotsKept(c, capacity, WorkerTurn(c, capacity, s, w))
  {
    hide InTasks, InWorkers, InResults, Tokens, Loads, Exits;
    var t := WorkerTurn(c, capacity, s, w);
    forall n: nat ensures Places(t, n) == Places(s, n) {
      TasksHead(s.tasks, n);
      WorkersChange(s.workers, w, t.workers[w], n);
    }
    TasksHead(s.tasks, 0);
    WorkersChange(s.workers, w, t.workers[w], 0);
    hide Places;
  }

  lemma WorkMoves(c: Epoch, capacity: nat, s: Loader, w: nat)
    requires OnePlace(c, s) && SlotsKept(c, capacity, s) && w < |s.workers| && Carries(s.workers[w])
    ensures OnePlace(c, WorkerTurn(c, capacity, s, w)) && SlotsKept(c, capacity, WorkerTurn(c, capacity, s, w))
  {
    hide InTasks, InWorkers, InResults, Tokens, Loads, Exits;
    var t := WorkerTurn(c, capacity, s, w);
    forall n: nat ensures Places(t, n) == Places(s, n) {
      WorkersChange(s.workers, w, t.workers[w], n);
      if s.workers[w].Holding? {
        ResultsAppend(s.results, s.workers[w].result, n);
      }
    }
    WorkersChange(s.workers, w, t.workers[w], 0);
    hide Places;
  }

  lemma GetMoves(c: Epoch, capacity: nat, s: Loader)
    requires OnePlace(c, s) && SlotsKept(c, capacity, s) && s.next < |c.ordering| && s.next !in s.buffer && s.results != []
    ensures s.results[0].sequence !in s.buffer
    ensures OnePlace(c, ConsumerTurn(c, s)) && SlotsKept(c, capacity, ConsumerTurn(c, s))
  {
    hide InTasks, InWorkers, InResults, Tokens, Loads;
    var t := ConsumerTurn(c, s);
    var r := s.results[0];
    ResultsHead(s.results, r.sequence);
    assert Places(s, r.sequence) <= 1;
    forall n: nat ensures Places(t, n) == Places(s, n) {
      ResultsHead(s.results, n);
    }
    hide Places;
    assert |s.buffer[r.sequence := r]| == |s.buffer| + 1;
  }

  lemma YieldMoves(c: Epoch, capacity: nat, s: Loader)
    requires OnePlace(c, s) && SlotsKept(c, capacity, s) && s.next < |c.ordering| && s.next in s.buffer
    ensures s.next < Submitted(c, s.producer)
    ensures OnePlace(c, ConsumerTurn(c, s)) && SlotsKept(c, capacity, ConsumerTurn(c, s))
  {
    hide InTasks, InWorkers, InResults, Tokens, Loads;
    var t := ConsumerTurn(c, s);
    assert Places(s, s.next) >= 1;
    forall n: nat ensures Places(t, n) + One(n == s.next) == Places(s, n) {
    }
    hide Places;
    assert t.buffer == s.buffer - {s.next};
    assert s.buffer == t.buffer[s.next := s.buffer[s.next]];
  }

  // ----- the rest of the invariant -----

  lemma ProducerOrdered(c: Epoch, capacity: nat, s: Loader)
    requires Ordered(s)
    ensures Ordered(ProducerTurn(c, capacity, s))
  {
    hide Tokens, Exits;
    match s.producer
    case Putting(n) =>
      TasksAppend(s.tasks, Work(n), 0);
      PutOrdered(s, n);
    case Stopping(_) => TasksAppend(s.tasks, StopToken, 0);
    case _ =>
  }

  /** While the producer still puts work, no worker has left. */
  lemma PutOrdered(s: Loader, n: nat)
    requires Ordered(s) && s.producer == Putting(n)
    ensures Exits(s.workers) == 0
  {
    hide Tokens, Exits;
  }

  lemma ProducerKeeps(c: Epoch, workers: nat, capacity: nat, s: Loader)
    requires Inv(c, workers, capacity, s) && s.status.Running?
    ensures Inv(c, workers, capacity, ProducerTurn(c, capacity, s))
  {
    ProducerOrdered(c, capacity, s);
    hide OnePlace, SlotsKept, Answers, Ordered;
    match s.producer
    case Acquiring(n) =>
      if n >= |c.ordering| {
        SendStopMoves(c, capacity, s);
      } else if s.free > 0 {
        AcquireMoves(c, capacity, s);
      }
    case Putting(n) => PutMoves(c, capacity, s);
    case _ => SendStopMoves(c, capacity, s);
  }

  lemma WorkerOrdered(c: Epoch, capacity: nat, s: Loader, w: nat)
    requires Ordered(s) && w < |s.workers|
    ensures Ordered(WorkerTurn(c, capacity, s, w))
  {
    hide Tokens, Exits;
    WorkersChange(s.workers, w, WorkerTurn(c, capacity, s, w).workers[w], 0);
    if s.tasks != [] {
      TasksHead(s.tasks, 0);
    }
  }

  lemma WorkerKeeps(c: Epoch, workers: nat, capacity: nat, s: Loader, w: nat)
    requires Inv(c, workers, capacity, s) && s.status.Running? && w < workers
    ensures Inv(c, workers, capacity, WorkerTurn(c, capacity, s, w))
  {
    WorkerOrdered(c, capacity, s, w);
    hide OnePlace, SlotsKept, Answers, Ordered;
    if s.workers[w].Idle? && s.tasks != [] {
      TakeMoves(c, capacity, s, w);
    } else if Carries(s.workers[w]) {
      WorkMoves(c, capacity, s, w);
    }
  }

  lemma YieldAnswers(c: Epoch, s: Loader)
    requires Contents(c, s) && Progressing(c, s) && s.status.Running? && s.next in s.buffer
    requires s.next < Submitted(c, s.producer)
    ensures Progressing(c, ConsumerTurn(c, s))
  {
    assert GoodResult(c, s.buffer[s.next]);
    assert Answers(c, s.next + 1) == s.delivered + [Outcome(c, s.next)];
    hide Answers, Contents;
    assert ConsumerTurn(c, s).delivered == s.delivered + [Outcome(c, s.next)];
  }

  lemma ConsumerKeeps(c: Epoch, workers: nat, capacity: nat, s: Loader)
    requires Inv(c, workers, capacity, s) && s.status.Running?
    ensures Inv(c, workers, capacity, ConsumerTurn(c, s))
  {
    hide OnePlace, SlotsKept, Answers;
    if s.next in s.buffer {
      YieldMoves(c, capacity, s);
      YieldAnswers(c, s);
      hide Progressing;
    } else if s.results != [] {
      GetMoves(c, capacity, s);
    }
    hide Tokens, Exits, GoodResult;
  }

  lemma TurnKeeps(c: Epoch, workers: nat, capacity: nat, s: Loader, t: Thread)
    requires Inv(c, workers, capacity, s)
    ensures Inv(c, workers, capacity, Turn(c, capacity, s, t))
  {
    hide OnePlace, SlotsKept, Tokens, Exits, Answers, Ordered, Contents, Progressing;
    if s.status.Running? {
      match t
      case ProducerThread => ProducerKeeps(c, workers, capacity, s);
      case WorkerThread(w) => if w < workers { WorkerKeeps(c, workers, capacity, s, w); }
      case ConsumerThread => ConsumerKeeps(c, workers, capacity, s);
    }
  }

  lemma {:induction false} RunInv(c: Epoch, workers: nat, capacity: nat, turns: seq<Thread>)
    requires capacity > 0
    ensures Inv(c, workers, capacity, Run(c, workers, capacity, turns))
  {
    hide Inv, Turn;
    if turns == [] {
      InitialInv(c, workers, capacity);
    } else {
      RunInv(c, workers, capacity, turns[..|turns| - 1]);
      TurnKeeps(c, workers, capacity, Run(c, workers, capacity, turns[..|turns| - 1]), turns[|turns| - 1]);
    }
  }

  // ----- main results -----

  /**
   Whatever the schedule, the asynchronous iterator has delivered what the synchronous one
   delivers first; when it closes it has delivered all of it, or up to the same first error.
   */
  lemma SameAsSynchronous(c: Epoch, workers: nat, capacity: nat, turns: seq<Thread>)
    requires capacity > 0
    ensures var s := Run(c, workers, capacity, turns);
            && s.delivered <= Answers(c, |c.ordering|)
            && (!s.status.Running? ==> s.delivered == Answers(c, |c.ordering|))
            && (s.status.Failed? <==> s.delivered != [] && s.delivered[|s.delivered| - 1].Raised?)
            && (forall i | 0 <= i < |s.delivered| :: i < |c.ordering| && AnswerIs(c, i, s.delivered[i]))
  {
    RunInv(c, workers, capacity, turns);
    AnswersAre(c, |c.ordering|);
    hide AnswerIs;
    AnswersGrow(c, Run(c, workers, capacity, turns).next, |c.ordering|);
    hide Run, Answers, OnePlace, SlotsKept, Contents, Ordered;
  }

  /** No sequence is lost or duplicated, and the slots in use are the sequences held. */
  lemma SlotsAreConserved(c: Epoch, workers: nat, capacity: nat, turns: seq<Thread>)
    requires capacity > 0
    ensures var s := Run(c, workers, capacity, turns);
            && s.free + Held(s) == capacity
            && forall n: nat :: Places(s, n) == One(s.next <= n < Submitted(c, s.producer))
  {
    RunInv(c, workers, capacity, turns);
    hide Run, Places, Held, Contents, Ordered, Progressing;
  }

  lemma {:induction false} CarrierLoads(workers: seq<Worker>, w: nat)
    requires w < |workers| && Carries(workers[w])
    ensures Loads(workers) > 0
  {
    hide Carries;
    if w < |workers| - 1 {
      CarrierLoads(workers[..|workers| - 1], w);
    }
  }

  lemma {:induction false} TokensAtMost(tasks: seq<Task>)
    ensures Tokens(tasks) <= |tasks|
    ensures (forall i | 0 <= i < |tasks| :: tasks[i].Work?) ==> Tokens(tasks) == 0
    ensures tasks != [] && tasks[0].StopToken? ==> Tokens(tasks) > 0
  {
    if tasks != [] {
      TokensAtMost(tasks[..|tasks| - 1]);
    }
  }

  /** The slots keep both queues from filling up: no finished result and no task ever has to wait for room. */
  lemma QueuesHaveRoom(c: Epoch, workers: nat, capacity: nat, turns: seq<Thread>)
    requires capacity > 0
    ensures var s := Run(c, workers, capacity, turns);
            && (s.producer.Putting? ==> |s.tasks| < capacity)
            && forall w | 0 <= w < |s.workers| && s.workers[w].Holding? :: |s.results| < capacity
  {
    RunInv(c, workers, capacity, turns);
    var s := Run(c, workers, capacity, turns);
    TokensAtMost(s.tasks);
    hide Run, Places, Contents, Progressing, Tokens, Exits, Loads;
    forall w | 0 <= w < |s.workers| && s.workers[w].Holding? ensures |s.results| < capacity {
      CarrierLoads(s.workers, w);
    }
  }

  // ----- progress -----

  function Burden(w: Worker): nat {
    match w
    case Busy(_) => 4
    case Holding(_) => 3
    case _ => 0
  }

  function Burdens(workers: seq<Worker>): nat {
    if workers == [] then 0 else Burdens(workers[..|workers| - 1]) + Burden(workers[|workers| - 1])
  }

  lemma {:induction false} BurdensChange(workers: seq<Worker>, w: nat, now: Worker)
    requires w < |workers|
    ensures Burdens(workers[w := now]) + Burden(workers[w]) == Burdens(workers) + Burden(now)
  {
    hide Burden;
    var last := |workers| - 1;
    var changed := workers[w := now];
    if w < last {
      BurdensChange(workers[..last], w, now);
      assert changed[..last] == workers[..last][w := now];
    } else {
      assert changed[..last] == workers[..last];
    }
  }

  function ProducerLeft(c: Epoch, p: Producer, workers: nat): int {
    match p
    case Acquiring(n) => 7 * (|c.ordering| - n) + 2 * workers + 2
    case Putting(n) => 7 * (|c.ordering| - n) - 1 + 2 * workers + 2
    case Stopping(k) => 2 * (workers - k) + 1
    case Done => 0
  }

  /** How many actions are left: each sequence passes through six places. */
  function Left(c: Epoch, s: Loader): int {
    ProducerLeft(c, s.producer, |s.workers|) + 5 * (|s.tasks| - Tokens(s.tasks)) + Tokens(s.tasks)
    + Burdens(s.workers) + 2 * |s.results| + |s.buffer|
  }

  lemma LeftIsNatural(c: Epoch, workers: nat, capacity: nat, s: Loader)
    requires Inv(c, workers, capacity, s)
    ensures Left(c, s) >= 0
  {
    TokensAtMost(s.tasks);
    hide Tokens, Burdens, Places, Contents, Exits;
  }

  lemma ProducerShrinks(c: Epoch, capacity: nat, s: Loader)
    requires ProducerTurn(c, capacity, s) != s
    requires Submitted(c, s.producer) <= |c.ordering| && Sent(s.producer, |s.workers|) <= |s.workers|
    ensures Left(c, ProducerTurn(c, capacity, s)) < Left(c, s)
  {
    TasksAppend(s.tasks, StopToken, 0);
    if s.producer.Putting? {
      TasksAppend(s.tasks, Work(s.producer.hand), 0);
    }
    hide Tokens, Burdens, InTasks;
  }

  lemma WorkerShrinks(c: Epoch, capacity: nat, s: Loader, w: nat)
    requires w < |s.workers| && WorkerTurn(c, capacity, s, w) != s
    ensures Left(c, WorkerTurn(c, capacity, s, w)) < Left(c, s)
  {
    BurdensChange(s.workers, w, WorkerTurn(c, capacity, s, w).workers[w]);
    if s.tasks != [] {
      TasksHead(s.tasks, 0);
    }
    hide Tokens, Burdens, InTasks;
  }

  lemma ConsumerShrinks(c: Epoch, s: Loader)
    requires ConsumerTurn(c, s) != s
    ensures Left(c, ConsumerTurn(c, s)) < Left(c, s)
  {
    hide Tokens, Burdens;
    var t := ConsumerTurn(c, s);
    if s.next in s.buffer {
      assert s.buffer == t.buffer[s.next := s.buffer[s.next]];
    } else {
      assert |t.buffer| <= |s.buffer| + 1;
    }
  }

  lemma TurnShrinks(c: Epoch, workers: nat, capacity: nat, s: Loader, t: Thread)
    requires Inv(c, workers, capacity, s) && Turn(c, capacity, s, t) != s
    ensures Left(c, Turn(c, capacity, s, t)) < Left(c, s)
  {
    hide Left, ProducerTurn, ConsumerTurn;
    match t
    case ProducerThread => ProducerShrinks(c, capacity, s);
    case WorkerThread(w) => WorkerShrinks(c, capacity, s, w);
    case ConsumerThread => ConsumerShrinks(c, s);
  }

  lemma {:induction false} NobodyCarries(workers: seq<Worker>, n: nat)
    requires forall w | 0 <= w < |workers| :: !Carries(workers[w])
    ensures InWorkers(workers, n) == 0 && Loads(workers) == 0
  {
    if workers != [] {
      NobodyCarries(workers[..|workers| - 1], n);
    }
  }

  lemma {:induction false} EverybodyLeft(workers: seq<Worker>)
    requires forall w | 0 <= w < |workers| :: workers[w].Exited?
    ensures Exits(workers) == |workers|
  {
    if workers != [] {
      EverybodyLeft(workers[..|workers| - 1]);
    }
  }

  lemma {:induction false} WorkerHolds(workers: seq<Worker>, w: nat, n: nat)
    requires w < |workers| && HasTask(workers[w], n)
    ensures InWorkers(workers, n) > 0
  {
    hide HasTask;
    if w < |workers| - 1 {
      WorkerHolds(workers[..|workers| - 1], w, n);
    }
  }

  /** With nothing in the queues and no worker busy, the producer can move. */
  lemma ProducerCanMove(c: Epoch, workers: nat, capacity: nat, s: Loader)
    requires Inv(c, workers, capacity, s) && s.status.Running? && capacity > 0
    requires s.results == [] && s.tasks == [] && s.next !in s.buffer
    requires forall w | 0 <= w < workers :: !Carries(s.workers[w])
    ensures ProducerTurn(c, capacity, s) != s
  {
    NobodyCarries(s.workers, s.next);
    assert Places(s, s.next) == One(s.producer == Putting(s.next));
    hide Places, Answers, Contents, Ordered, InWorkers, Loads;
  }

  lemma SomeoneTakes(c: Epoch, workers: nat, capacity: nat, s: Loader) returns (w: nat)
    requires Inv(c, workers, capacity, s) && workers > 0 && s.tasks != []
    requires forall w | 0 <= w < workers :: !Carries(s.workers[w])
    ensures w < workers && WorkerTurn(c, capacity, s, w) != s
  {
    hide Places, Answers, Contents, OnePlace, SlotsKept, Tokens, Exits;
    if forall v | 0 <= v < workers :: s.workers[v].Exited? {
      EverybodyLeft(s.workers);
      TokensAtMost(s.tasks);
      assert false;
    }
    w :| 0 <= w < workers && !s.workers[w].Exited?;
    assert WorkerTurn(c, capacity, s, w).tasks == s.tasks[1..];
  }

  /** Until the loader closes, some thread has an action that is not a timed-out wait. */
  lemma NoDeadlock(c: Epoch, workers: nat, capacity: nat, s: Loader) returns (t: Thread)
    requires Inv(c, workers, capacity, s) && s.status.Running? && workers > 0 && capacity > 0
    ensures Turn(c, capacity, s, t) != s
  {
    if s.next in s.buffer || s.results != [] {
      t := ConsumerThread;
      assert ConsumerTurn(c, s).next != s.next || ConsumerTurn(c, s).results == s.results[1..];
    } else if w :| 0 <= w < workers && Carries(s.workers[w]) {
      t := WorkerThread(w);
      if s.workers[w].Busy? {
        WorkerHolds(s.workers, w, s.workers[w].task);
        assert Places(s, s.workers[w].task) > 0;
      }
      assert WorkerTurn(c, capacity, s, w).workers[w] != s.workers[w];
    } else if s.tasks != [] {
      var w := SomeoneTakes(c, workers, capacity, s);
      t := WorkerThread(w);
    } else {
      ProducerCanMove(c, workers, capacity, s);
      t := ProducerThread;
    }
  }

  function Actions(c: Epoch, workers: nat, capacity: nat, turns: seq<Thread>): nat {
    if turns == [] then 0
    else
      var before := Run(c, workers, capacity, turns[..|turns| - 1]);
      Actions(c, workers, capacity, turns[..|turns| - 1])
      + One(Turn(c, capacity, before, turns[|turns| - 1]) != before)
  }

  /** In any schedule the number of actions, waits aside, is bounded. */
  lemma {:induction false} ActionsAreBounded(c: Epoch, workers: nat, capacity: nat, turns: seq<Thread>)
    requires capacity > 0
    ensures Actions(c, workers, capacity, turns) + Left(c, Run(c, workers, capacity, turns))
            <= Left(c, Initial(c, workers, capacity))
    ensures Actions(c, workers, capacity, turns) <= Left(c, Initial(c, workers, capacity))
  {
    RunInv(c, workers, capacity, turns);
    LeftIsNatural(c, workers, capacity, Run(c, workers, capacity, turns));
    hide Left, Turn, Initial, Inv;
    if turns != [] {
      var most := turns[..|turns| - 1];
      ActionsAreBounded(c, workers, capacity, most);
      RunInv(c, workers, capacity, most);
      var before := Run(c, workers, capacity, most);
      if Turn(c, capacity, before, turns[|turns| - 1]) != before {
        TurnShrinks(c, workers, capacity, before, turns[|turns| - 1]);
      }
    }
  }

  /** A schedule in which no thread can act any more has delivered everything. */
  lemma StuckMeansDone(c: Epoch, workers: nat, capacity: nat, turns: seq<Thread>)
    requires workers > 0 && capacity > 0
    requires forall t: Thread ::
               Turn(c, capacity, Run(c, workers, capacity, turns), t) == Run(c, workers, capacity, turns)
    ensures Run(c, workers, capacity, turns).delivered == Answers(c, |c.ordering|)
  {
    var s := Run(c, workers, capacity, turns);
    RunInv(c, workers, capacity, turns);
    SameAsSynchronous(c, workers, capacity, turns);
    hide Run, Turn, Inv;
    if s.status.Running? {
      var t := NoDeadlock(c, workers, capacity, s);
    }
  }

  // ----- the shared state, updated in place -----

  class LoaderState {
    const epoch: Epoch
    const capacity: nat
    var producer: Producer
    var workers: seq<Worker>
    var tasks: seq<Task>
    var results: seq<Result>
    var free: nat
    var buffer: map<nat, Result>
    var next: nat
    var delivered: seq<Answer>
    var status: Status

    ghost function View(): Loader
      reads this
    {
      Loader(producer, workers, tasks, results, free, buffer, next, delivered, status)
    }

    constructor (epoch: Epoch, workers: nat, capacity: nat)
      ensures this.epoch == epoch && this.capacity == capacity
      ensures View() == Initial(epoch, workers, capacity)
    {
      this.epoch, this.capacity := epoch, capacity;
      producer, tasks, results, free, buffer, next, delivered := Acquiring(0), [], [], capacity, map[], 0, [];
      this.workers := seq(workers, _ => Idle);
      status := if epoch.ordering == [] then Finished else Running;
    }

    method Produce()
      requires status == Running
      modifies this`producer, this`tasks, this`free
      ensures View() == Turn(epoch, capacity, old(View()), ProducerThread)
    {
      match producer {
        case Acquiring(n) =>
          if n >= |epoch.ordering| {
            producer := Stopping(0);
          } else if free > 0 {
            free := free - 1;
            producer := Putting(n);
          }
        case Putting(n) =>
          if |tasks| < capacity {
            tasks := tasks + [Work(n)];
            producer := Acquiring(n + 1);
          }
        case Stopping(k) =>
          if k >= |workers| {
            producer := Done;
          } else if |tasks| < capacity {
            tasks := tasks + [StopToken];
            producer := Stopping(k + 1);
          }
        case Done =>
      }
    }

    method Serve(w: nat)
      requires status == Running && w < |workers|
      modifies this`workers, this`tasks, this`results
      ensures View() == Turn(epoch, capacity, old(View()), WorkerThread(w))
    {
      match workers[w] {
        case Idle =>
          if tasks != [] {
            var task := tasks[0];
            tasks := tasks[1..];
            workers := workers[w := if task.Work? then Busy(task.sequence) else Exited];
          }
        case Busy(n) =>
          if n < |epoch.ordering| {
            workers := workers[w := Holding(Result(n, epoch.fetch(epoch.ordering[n])))];
          }
        case Holding(r) =>
          if |results| < capacity {
            results := results + [r];
            workers := workers[w := Idle];
          }
        case Exited =>
      }
    }

    method Consume()
      requires status == Running && next < |epoch.ordering|
      modifies this`buffer, this`results, this`next, this`free, this`delivered, this`status
      ensures View() == Turn(epoch, capacity, old(View()), ConsumerThread)
    {
      if next !in buffer {
        if results != [] {
          buffer := buffer[results[0].sequence := results[0]];
          results := results[1..];
        }
        return;
      }
      var result := buffer[next];
      buffer := buffer - {next};
      next := next + 1;
      free := free + 1;
      var a := if result.fetched.FetchFailed? then Raised(result.fetched.error) else ConvertOne(epoch, result.fetched.data);
      delivered := delivered + [a];
      status := if a.Raised? then Failed else if next >= |epoch.ordering| then Finished else Running;
    }
  }
}
