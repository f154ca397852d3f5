/**
 The worker's side of the dense protocol: a replica of the parameters, the checks on every
 response, and the client loop that pushes one gradient and polls until the next version.
 */
module DenseWorker {
  import opened DenseServer

  datatype Replica = Replica(version: nat, registered: bool, params: Params, counter: nat)

  datatype Verdict = Installed | NotYet | Acked | Raised

  /** What accepting a response does; a misshapen entry raises after the entries before it were copied. */
  function Install(schema: seq<nat>, r: Replica, reply: Reply): (Replica, Verdict)
    requires |r.params| == |schema|
  {
    if !reply.answer.Parameters? || reply.version < r.version || |reply.answer.params| != |schema| then (r, Raised)
    else
      var good := FirstMisfit(reply.answer.params, schema);
      var copied := r.(params := reply.answer.params[..good] + r.params[good..]);
      if good < |schema| then (copied, Raised)
      else (copied.(version := reply.version, registered := true), Installed)
  }

  function Receive(schema: seq<nat>, r: Replica, request: Request, reply: Reply): (Replica, Verdict)
    requires |r.params| == |schema|
  {
    if reply.id != request.id then (r, Raised)
    else match reply.answer
      case Error(_) => (r, Raised)
      case Parameters(_) => Install(schema, r, reply)
      case Waiting(_) => (r, NotYet)
      case Alive => (r, NotYet)
      case Acknowledged => (r, Acked)
  }

  ghost predicate CopiedUpTo(schema: seq<nat>, r: Replica, answer: Answer, params: Params)
    requires |r.params| == |schema|
  {
    && answer.Parameters? && |answer.params| == |schema|
    && exists misfit: nat :: misfit < |schema| && |answer.params[misfit]| != schema[misfit]
         && params == answer.params[..misfit] + r.params[misfit..]
  }

  /**
   Parameters are installed exactly when they answer the request that was sent, are no older than the
   ones held, and have the schema's shapes; the version moves only then. Of misshapen parameters the
   entries before the first misfit have been copied.
   */
  lemma InstallsExactly(schema: seq<nat>, r: Replica, request: Request, reply: Reply)
    requires |r.params| == |schema|
    ensures var (after, verdict) := Receive(schema, r, request, reply);
            && (verdict == Installed <==>
                  reply.id == request.id && reply.answer.Parameters? && reply.version >= r.version
                  && Shaped(reply.answer.params, schema))
            && (verdict == Installed ==> after == Replica(reply.version, true, reply.answer.params, r.counter))
            && (verdict == NotYet <==> reply.id == request.id && (reply.answer.Waiting? || reply.answer.Alive?))
            && (verdict == Acked <==> reply.id == request.id && reply.answer.Acknowledged?)
            && (verdict == NotYet || verdict == Acked ==> after == r)
            && (verdict == Raised ==> after == r.(params := after.params)
                                      && (after == r || CopiedUpTo(schema, r, reply.answer, after.params)))
  {
    if reply.answer.Parameters? && |reply.answer.params| == |schema| {
      var p, good := reply.answer.params, FirstMisfit(reply.answer.params, schema);
      if good == |schema| {
        assert p[..good] + r.params[good..] == p;
      }
    }
  }

  lemma ReceiveKeepsSize(schema: seq<nat>, r: Replica, request: Request, reply: Reply)
    requires |r.params| == |schema|
    ensures |Receive(schema, r, request, reply).0.params| == |schema|
  {
  }

  /** The next request takes the next request number. */
  function Ask(w: Id, r: Replica, step: int, body: Body): (Replica, Request) {
    (r.(counter := r.counter + 1), Request(r.counter + 1, w, step, body))
  }

  function AskNext(w: Id, r: Replica): (Replica, Request) {
    Ask(w, r, r.version + 1, Pull)
  }

  /** One reply handled by the client loop, and the next poll if the wait is not over. */
  datatype Wait = Wait(replica: Replica, sent: seq<Request>, verdict: Verdict)

  function OneReply(w: Id, schema: seq<nat>, s: Wait, reply: Reply): Wait
    requires |s.replica.params| == |schema| && s.sent != []
  {
    if s.verdict == Installed || s.verdict == Raised then s
    else
      var (r, verdict) := Receive(schema, s.replica, s.sent[|s.sent| - 1], reply);
      if verdict == Installed || verdict == Raised then Wait(r, s.sent, verdict)
      else
        var (next, request) := AskNext(w, r);
        Wait(next, s.sent + [request], verdict)
  }

  /** The client loop over the replies that arrive; it stops early when the wait is over. */
  function Waited(w: Id, schema: seq<nat>, s: Wait, replies: seq<Reply>): (end: Wait)
    requires |s.replica.params| == |schema| && s.sent != []
    ensures |end.replica.params| == |schema| && end.sent != []
    decreases |replies|
  {
    if replies == [] then s
    else Waited(w, schema, OneReply(w, schema, s, replies[0]), replies[1..])
  }

  lemma {:induction false} WaitedIsFinal(w: Id, schema: seq<nat>, s: Wait, replies: seq<Reply>)
    requires |s.replica.params| == |schema| && s.sent != []
    requires s.verdict == Installed || s.verdict == Raised
    ensures Waited(w, schema, s, replies) == s
    decreases |replies|
  {
    if replies != [] {
      WaitedIsFinal(w, schema, s, replies[1..]);
    }
  }

  ghost predicate PollsUntilInstalled(schema: seq<nat>, r: Replica, first: nat, replies: seq<Reply>) {
    && replies != []
    && (forall i | 0 <= i < |replies| :: replies[i].id == first + i)
    && (forall i | 0 <= i < |replies| - 1 :: replies[i].answer.Waiting? || replies[i].answer.Alive?)
    && var last := replies[|replies| - 1];
       last.answer.Parameters? && last.version >= r.version && Shaped(last.answer.params, schema)
  }

  /**
   Any number of "waiting" answers followed by parameters: the loop sends one poll for each
   wait, always for the version after its own, and ends holding exactly the parameters sent.
   */
  lemma {:induction false} PollingInstalls(w: Id, schema: seq<nat>, s: Wait, replies: seq<Reply>)
    requires |s.replica.params| == |schema| && s.sent != [] && s.verdict == NotYet
    requires s.sent[|s.sent| - 1].id == s.replica.counter
    requires PollsUntilInstalled(schema, s.replica, s.replica.counter, replies)
    ensures var end := Waited(w, schema, s, replies);
            var last := replies[|replies| - 1];
            && end.verdict == Installed
            && end.replica == Replica(last.version, true, last.answer.params, s.replica.counter + |replies| - 1)
            && |end.sent| == |s.sent| + |replies| - 1 && s.sent <= end.sent
            && forall i | |s.sent| <= i < |end.sent| ::
                 end.sent[i] == Request(s.replica.counter + 1 + i - |s.sent|, w, s.replica.version + 1, Pull)
    decreases |replies|
  {
    var next := OneReply(w, schema, s, replies[0]);
    if |replies| == 1 {
      var p := replies[0].answer.params;
      assert FirstMisfit(p, schema) == |schema|;
      assert p[..|schema|] + s.replica.params[|schema|..] == p;
      WaitedIsFinal(w, schema, next, []);
      assert replies[1..] == [];
    } else {
      PollingInstalls(w, schema, next, replies[1..]);
    }
  }

  class Worker {
    const id: Id
    const schema: seq<nat>
    var version: nat
    var registered: bool
    var params: Params
    var counter: nat

    ghost function View(): Replica
      reads this
    {
      Replica(version, registered, params, counter)
    }

    ghost predicate Valid()
      reads this
    {
      |params| == |schema|
    }

    constructor (id: Id, params: Params)
      ensures Valid() && Shaped(params, schema) && this.id == id
      ensures View() == Replica(0, false, params, 0)
    {
      this.id, this.params := id, params;
      schema := seq(|params|, i requires 0 <= i < |params| => |params[i]|);
      version, registered, counter := 0, false, 0;
    }

    method Message(body: Body, step: int) returns (request: Request)
      modifies this`counter
      ensures (View(), request) == Ask(id, old(View()), step, body)
    {
      counter := counter + 1;
      request := Request(counter, id, step, body);
    }

    method PullMessage() returns (request: Request)
      modifies this`counter
      ensures (View(), request) == AskNext(id, old(View()))
    {
      request := Message(Pull, version + 1);
    }

    method AcceptParameters(reply: Reply) returns (verdict: Verdict)
      requires Valid()
      modifies this`params, this`version, this`registered
      ensures Valid() && (View(), verdict) == Install(schema, old(View()), reply)
    {
      if !reply.answer.Parameters? || reply.version < version || |reply.answer.params| != |schema| {
        return Raised;
      }
      var values := reply.answer.params;
      ghost var before := params;
      for i := 0 to |schema|
        invariant Valid() && params == values[..i] + before[i..]
        invariant version == old(version) && registered == old(registered) && counter == old(counter)
        invariant forall k | 0 <= k < i :: |values[k]| == schema[k]
      {
        if |values[i]| != schema[i] {
          assert FirstMisfit(values, schema) == i;
          return Raised;
        }
        params := params[i := values[i]];
      }
      assert FirstMisfit(values, schema) == |schema|;
      version, registered := reply.version, true;
      verdict := Installed;
    }

    method HandleResponse(request: Request, reply: Reply) returns (verdict: Verdict)
      requires Valid()
      modifies this`params, this`version, this`registered
      ensures Valid() && (View(), verdict) == Receive(schema, old(View()), request, reply)
    {
      if reply.id != request.id {
        return Raised;
      }
      match reply.answer {
        case Error(_) => verdict := Raised;
        case Parameters(_) => verdict := AcceptParameters(reply);
        case Waiting(_) => verdict := NotYet;
        case Alive => verdict := NotYet;
        case Acknowledged => verdict := Acked;
      }
    }

    /** `replies` are the frames that arrive; running out of them is the connection closing. */
    method PushGradientsAndWait(count: nat, gradients: Params, replies: seq<Reply>)
      returns (sent: seq<Request>, verdict: Verdict)
      requires Valid() && count > 0
      modifies this`params, this`version, this`registered, this`counter
      ensures Valid()
      ensures var (asked, push) := Ask(id, old(View()), old(version), Push(count, gradients));
              Wait(View(), sent, verdict) == Waited(id, schema, Wait(asked, [push], NotYet), replies)
    {
      var request := Message(Push(count, gradients), version);
      sent, verdict := [request], NotYet;
      ghost var start := Wait(View(), sent, verdict);
      var used := 0;
      assert replies[0..] == replies;
      while used < |replies|
        invariant used <= |replies| && Valid() && sent != [] && request == sent[|sent| - 1]
        invariant verdict == NotYet || verdict == Acked
        invariant Waited(id, schema, start, replies)
                  == Waited(id, schema, Wait(View(), sent, verdict), replies[used..])
      {
        var reply := replies[used];
        ghost var now := Wait(View(), sent, verdict);
        assert replies[used..][0] == reply && replies[used..][1..] == replies[used + 1..];
        used := used + 1;
        verdict := HandleResponse(request, reply);
        if verdict == Installed || verdict == Raised {
          assert OneReply(id, schema, now, reply) == Wait(View(), sent, verdict);
          WaitedIsFinal(id, schema, Wait(View(), sent, verdict), replies[used..]);
          return;
        }
        request := PullMessage();
        sent := sent + [request];
        assert OneReply(id, schema, now, reply) == Wait(View(), sent, verdict);
      }
    }
  }
}
