/** The home-directory task protocol between session requests, the daemon's task handler
    and the privileged worker: a bounded queue, one-shot acknowledgements, one worker
    connection at a time, and re-queueing when a send fails. Every interleaving of
    requests, time-outs, sends, replies and reconnections is a sequence of actions. */
module HomeTasks {

  const CHANNEL: nat := 16

  datatype Response = Success | Failure

  // What the task handler is doing: waiting for a worker to connect, for a request, or
  // holding one request that it is sending or has sent.
  datatype Handler = Accepting | Idle | Sending(req: nat) | Awaiting(req: nat)

  // Requests are numbered. `inbox` and `outbox` are the two directions of the present
  // connection; replies carry no request number. `orphans` went out on connections the
  // daemon has given up. `done` are the requests for which the worker produced Success,
  // `fired` the one-shots fired, in order.
  datatype System = System(
    queue: seq<nat>, handler: Handler, inbox: seq<nat>, outbox: seq<Response>, orphans: multiset<nat>,
    submitted: set<nat>, dropped: set<nat>, fired: seq<nat>, done: set<nat>,
    waiting: set<nat>, notified: set<nat>, answeredOk: set<nat>, answeredError: set<nat>)

  const START := System([], Accepting, [], [], multiset{}, {}, {}, [], {}, {}, {}, {}, {})

  datatype Action =
    | Submit(r: nat)          // the request enters the channel
    | Refuse(r: nat)          // the channel stayed full too long
    | ReplyOk(r: nat)         // the client saw its one-shot fire
    | GiveUp(r: nat)          // the client timed out
    | SeeDrop(r: nat)         // the client saw its one-shot dropped
    | Connect
    | Receive
    | Sent
    | SendFails(delivered: bool, room: bool)
    | Work(resp: Response)    // the worker handles the next request on the connection
    | WorkOrphan(r: nat, resp: Response)
    | Acknowledge             // the handler reads Success
    | Abandon                 // it reads anything else, or the connection ends, with any reply lost

  predicate Known(s: System, r: nat) {
    r in s.submitted || r in s.waiting || r in s.answeredOk || r in s.answeredError
  }

  predicate Enabled(s: System, a: Action) {
    match a
    case Submit(r) => !Known(s, r) && |s.queue| < CHANNEL
    case Refuse(r) => !Known(s, r)
    case ReplyOk(r) => r in s.waiting && r in s.notified
    case GiveUp(r) => r in s.waiting && r !in s.notified
    case SeeDrop(r) => r in s.waiting && r in s.dropped
    case Connect => s.handler.Accepting?
    case Receive => s.handler.Idle? && s.queue != []
    case Sent => s.handler.Sending?
    case SendFails(_, room) => s.handler.Sending? && (room ==> |s.queue| < CHANNEL)
    case Work(_) => s.inbox != []
    case WorkOrphan(r, _) => r in s.orphans
    case Acknowledge => s.handler.Awaiting? && s.outbox != [] && s.outbox[0] == Success
    case Abandon => s.handler.Awaiting?
  }

  function Next(s: System, a: Action): System
    requires Enabled(s, a)
  {
    match a
    case Submit(r) => s.(queue := s.queue + [r], submitted := s.submitted + {r}, waiting := s.waiting + {r})
    case Refuse(r) => s.(answeredError := s.answeredError + {r})
    case ReplyOk(r) => s.(waiting := s.waiting - {r}, answeredOk := s.answeredOk + {r})
    case GiveUp(r) => s.(waiting := s.waiting - {r}, answeredError := s.answeredError + {r})
    case SeeDrop(r) => s.(waiting := s.waiting - {r}, answeredError := s.answeredError + {r})
    case Connect => s.(handler := Idle, inbox := [], outbox := [])
    case Receive => s.(handler := Sending(s.queue[0]), queue := s.queue[1..])
    case Sent => s.(handler := Awaiting(s.handler.req), inbox := s.inbox + [s.handler.req])
    case SendFails(delivered, room) =>
      // Re-queue if the client still waits and there is room in time.
      var r := s.handler.req;
      var s' := s.(handler := Accepting, inbox := [], outbox := [],
                   orphans := s.orphans + multiset(s.inbox) + if delivered then multiset{r} else multiset{});
      if r in s.waiting && room then s'.(queue := s.queue + [r]) else s'.(dropped := s.dropped + {r})
    case Work(resp) =>
      s.(inbox := s.inbox[1..], outbox := s.outbox + [resp],
         done := if resp == Success then s.done + {s.inbox[0]} else s.done)
    case WorkOrphan(r, resp) =>
      s.(orphans := s.orphans - multiset{r}, done := if resp == Success then s.done + {r} else s.done)
    case Acknowledge =>
      var r := s.handler.req;
      s.(handler := Idle, outbox := s.outbox[1..], fired := s.fired + [r],
         notified := if r in s.waiting then s.notified + {r} else s.notified)
    case Abandon =>
      s.(handler := Accepting, inbox := [], outbox := [], orphans := s.orphans + multiset(s.inbox),
         dropped := s.dropped + {s.handler.req})
  }

  // --------------------------------------------------------------------- the invariant

  function Held(h: Handler): seq<nat> {
    match h
    case Sending(r) => [r]
    case Awaiting(r) => [r]
    case _ => []
  }

  // Queued, in flight and acknowledged requests, each with its multiplicity.
  function Places(s: System): multiset<nat> {
    multiset(s.queue) + multiset(Held(s.handler)) + multiset(s.fired) + multiset(s.dropped)
  }

  // Every submitted request is in exactly one place.
  ghost predicate Partition(s: System) {
    Places(s) == multiset(s.submitted)
  }

  // The untagged reply on the connection, if any, is for the request awaited.
  ghost predicate InStep(s: System) {
    match s.handler
    case Accepting => true
    case Idle => s.inbox == [] && s.outbox == []
    case Sending(_) => s.inbox == [] && s.outbox == []
    case Awaiting(r) =>
      (s.inbox == [r] && s.outbox == []) ||
      (s.inbox == [] && |s.outbox| == 1 && (s.outbox[0] == Success ==> r in s.done))
  }

  ghost predicate Clients(s: System) {
    && s.waiting !! s.answeredOk && s.waiting !! s.answeredError && s.answeredOk !! s.answeredError
    && s.waiting <= s.submitted
    && s.answeredOk <= s.notified && (forall r | r in s.notified :: r in s.fired)
    && (forall r | r in s.fired :: r in s.done)
  }

  ghost predicate Inv(s: System) {
    |s.queue| <= CHANNEL && Partition(s) && InStep(s) && Clients(s)
  }

  lemma {:induction false} SubmitPartition(s: System, r: nat)
    requires Partition(s) && Enabled(s, Submit(r))
    ensures Partition(Next(s, Submit(r)))
  {
    assert multiset(s.submitted + {r}) == multiset(s.submitted) + multiset{r};
    assert multiset(s.queue + [r]) == multiset(s.queue) + multiset{r};
  }

  lemma {:induction false} ReceivePartition(s: System)
    requires Partition(s) && Enabled(s, Receive)
    ensures Partition(Next(s, Receive))
  {
    var r, rest := s.queue[0], s.queue[1..];
    assert s.queue == [r] + rest;
    assert multiset(s.queue) == multiset{r} + multiset(rest);
    assert multiset(Held(Next(s, Receive).handler)) == multiset{r};
  }

  lemma {:induction false} AcknowledgePartition(s: System)
    requires Partition(s) && Enabled(s, Acknowledge)
    ensures Partition(Next(s, Acknowledge))
  {
    var r := s.handler.req;
    assert multiset(s.fired + [r]) == multiset(s.fired) + multiset{r};
    assert multiset(Held(s.handler)) == multiset{r};
  }

  lemma {:induction false} LosePartition(s: System, a: Action)
    requires Partition(s) && Enabled(s, a) && (a.SendFails? || a.Abandon?)
    ensures Partition(Next(s, a))
  {
    NotYetDropped(s, s.handler.req);
  }

  lemma {:induction false} PartitionStep(s: System, a: Action)
    requires Inv(s) && Enabled(s, a)
    ensures Partition(Next(s, a))
  {
    match a
    case Submit(r) => SubmitPartition(s, r);
    case Receive => ReceivePartition(s);
    case Acknowledge => AcknowledgePartition(s);
    case SendFails(_, _) => LosePartition(s, a);
    case Abandon => LosePartition(s, a);
    case _ => assert Places(Next(s, a)) == Places(s);
  }

  // A request in flight has not been dropped.
  lemma {:induction false} NotYetDropped(s: System, r: nat)
    requires Partition(s) && r in Held(s.handler)
    ensures r !in s.dropped && multiset(s.dropped + {r}) == multiset(s.dropped) + multiset{r}
  {
    assert Places(s)[r] <= 1;
  }

  lemma {:induction false} InStepStep(s: System, a: Action)
    requires Inv(s) && Enabled(s, a)
    ensures InStep(Next(s, a))
  {
  }

  lemma {:induction false} ClientsStep(s: System, a: Action)
    requires Inv(s) && Enabled(s, a)
    ensures Clients(Next(s, a))
  {
  }

  lemma {:induction false} InvStep(s: System, a: Action)
    requires Inv(s) && Enabled(s, a)
    ensures Inv(Next(s, a))
  {
    PartitionStep(s, a);
    InStepStep(s, a);
    ClientsStep(s, a);
  }

  // ------------------------------------------------------------------------- all runs

  ghost predicate StepAt(states: seq<System>, actions: seq<Action>, i: int)
    requires 0 <= i < |actions| && |states| == |actions| + 1
  {
    Enabled(states[i], actions[i]) && states[i + 1] == Next(states[i], actions[i])
  }

  ghost predicate IsRun(states: seq<System>, actions: seq<Action>) {
    && |states| == |actions| + 1 && states[0] == START
    && forall i | 0 <= i < |actions| :: StepAt(states, actions, i)
  }

  lemma {:induction false} RunInv(states: seq<System>, actions: seq<Action>, k: nat)
    requires IsRun(states, actions) && k < |states|
    ensures Inv(states[k])
  {
    if k > 0 {
      RunInv(states, actions, k - 1);
      assert StepAt(states, actions, k - 1);
      InvStep(states[k - 1], actions[k - 1]);
    }
  }

  // In every run: a session is answered Ok only if the worker produced Success for that
  // very request, no one-shot fires twice, the channel holds at most 16 requests, and
  // each submitted request is in exactly one place.
  lemma {:induction false} TaskAcknowledgement(states: seq<System>, actions: seq<Action>, k: nat)
    requires IsRun(states, actions) && k < |states|
    ensures var s := states[k];
            && s.answeredOk <= s.done
            && (forall r :: multiset(s.fired)[r] <= 1)
            && |s.queue| <= CHANNEL
            && |s.submitted| == |s.queue| + |Held(s.handler)| + |s.fired| + |s.dropped|
            && (forall r | r in s.submitted ::
                  multiset(s.queue)[r] + multiset(Held(s.handler))[r]
                  + multiset(s.fired)[r] + multiset(s.dropped)[r] == 1)
  {
    RunInv(states, actions, k);
    var s := states[k];
    assert |Places(s)| == |multiset(s.submitted)|;
    forall r ensures multiset(s.fired)[r] <= 1 {
      assert Places(s)[r] <= 1;
    }
    forall r | r in s.submitted
      ensures multiset(s.queue)[r] + multiset(Held(s.handler))[r] + multiset(s.fired)[r] + multiset(s.dropped)[r] == 1
    {
      assert Places(s)[r] == 1;
    }
  }

  // ------------------------------------------------- the order in which requests are done

  // The request that the worker carries out in this step.
  function Works(s: System, a: Action): seq<nat> {
    match a
    case Work(_) => if s.inbox == [] then [] else [s.inbox[0]]
    case WorkOrphan(r, _) => [r]
    case _ => []
  }

  function Order(states: seq<System>, actions: seq<Action>, k: nat): seq<nat>
    requires k <= |actions| <= |states|
  {
    if k == 0 then [] else Order(states, actions, k - 1) + Works(states[k - 1], actions[k - 1])
  }

  // A system in which every client still waits.
  function Waiting(
    queue: seq<nat>, handler: Handler, inbox: seq<nat>, outbox: seq<Response>, orphans: multiset<nat>,
    submitted: set<nat>, fired: seq<nat>, done: set<nat>, notified: set<nat>): System
  {
    System(queue, handler, inbox, outbox, orphans, submitted, {}, fired, done, submitted, notified, {}, {})
  }

  // Two requests wait. The first is sent and arrives, and yet the send is reported failed,
  // so it queues up again behind the second.
  function OvertakingAct(i: nat): Action {
    match i
    case 0 => Submit(0)
    case 1 => Submit(1)
    case 2 => Connect
    case 3 => Receive
    case 4 => SendFails(true, true)
    case 5 => WorkOrphan(0, Success)
    case 6 => Connect
    case 7 => Receive
    case 8 => Sent
    case 9 => Work(Success)
    case 10 => Acknowledge
    case 11 => Receive
    case 12 => Sent
    case _ => Work(Success)
  }

  function OvertakingState(i: nat): System {
    match i
    case 0 => Waiting([], Accepting, [], [], multiset{}, {}, [], {}, {})
    case 1 => Waiting([0], Accepting, [], [], multiset{}, {0}, [], {}, {})
    case 2 => Waiting([0, 1], Accepting, [], [], multiset{}, {0, 1}, [], {}, {})
    case 3 => Waiting([0, 1], Idle, [], [], multiset{}, {0, 1}, [], {}, {})
    case 4 => Waiting([1], Sending(0), [], [], multiset{}, {0, 1}, [], {}, {})
    case 5 => Waiting([1, 0], Accepting, [], [], multiset{0}, {0, 1}, [], {}, {})
    case 6 => Waiting([1, 0], Accepting, [], [], multiset{}, {0, 1}, [], {0}, {})
    case 7 => Waiting([1, 0], Idle, [], [], multiset{}, {0, 1}, [], {0}, {})
    case 8 => Waiting([0], Sending(1), [], [], multiset{}, {0, 1}, [], {0}, {})
    case 9 => Waiting([0], Awaiting(1), [1], [], multiset{}, {0, 1}, [], {0}, {})
    case 10 => Waiting([0], Awaiting(1), [], [Success], multiset{}, {0, 1}, [], {0, 1}, {})
    case 11 => Waiting([0], Idle, [], [], multiset{}, {0, 1}, [1], {0, 1}, {1})
    case 12 => Waiting([], Sending(0), [], [], multiset{}, {0, 1}, [1], {0, 1}, {1})
    case 13 => Waiting([], Awaiting(0), [0], [], multiset{}, {0, 1}, [1], {0, 1}, {1})
    case _ => Waiting([], Awaiting(0), [], [Success], multiset{}, {0, 1}, [1], {0, 1}, {1})
  }

  ghost predicate Fits(i: nat) {
    && Enabled(OvertakingState(i), OvertakingAct(i))
    && Next(OvertakingState(i), OvertakingAct(i)) == OvertakingState(i + 1)
  }

  lemma {:induction false} Queued(i: nat)
    requires i < 4
    ensures Fits(i)
  {
  }

  lemma {:induction false} Requeued()
    ensures Fits(4)
  {
    var s := OvertakingState(4);
    assert multiset(s.inbox) == multiset{} && s.orphans + multiset(s.inbox) + multiset{0} == multiset{0};
    assert s.queue + [0] == [1, 0];
  }

  lemma {:induction false} Arrived(i: nat)
    requires 5 <= i < 7
    ensures Fits(i)
  {
  }

  lemma {:induction false} OthersTurn(i: nat)
    requires 7 <= i < 11
    ensures Fits(i)
  {
    var none: seq<nat> := [];
    if i == 7 {
      assert [1, 0][1..] == [0];
    } else if i == 8 {
      assert none + [1] == [1];
    } else if i == 9 {
      assert [1][1..] == none && {0} + {1} == {0, 1};
    } else {
      assert [Success][1..] == [] && none + [1] == [1];
    }
  }

  lemma {:induction false} OnceMore(i: nat)
    requires 11 <= i < 14
    ensures Fits(i)
  {
    var none: seq<nat> := [];
    if i == 11 {
      assert [0][1..] == none;
    } else if i == 12 {
      assert none + [0] == [0];
    } else {
      assert [0][1..] == none && {0, 1} + {0} == {0, 1};
    }
  }

  lemma {:induction false} OvertakingWorks(i: nat)
    requires i < 14
    ensures Works(OvertakingState(i), OvertakingAct(i)) == if i == 9 then [1] else if i == 5 || i == 13 then [0] else []
  {
  }

  lemma {:induction false} OvertakingOrder(states: seq<System>, actions: seq<Action>, k: nat)
    requires |actions| == 14 && |states| == 15 && k <= 14
    requires forall i | 0 <= i < 14 :: actions[i] == OvertakingAct(i)
    requires forall i | 0 <= i < 15 :: states[i] == OvertakingState(i)
    ensures Order(states, actions, k) ==
            if k < 6 then [] else if k < 10 then [0] else if k < 14 then [0, 1] else [0, 1, 0]
  {
    if k > 0 {
      OvertakingOrder(states, actions, k - 1);
      OvertakingWorks(k - 1);
    }
  }

  // So in some run a request is carried out, then another, then the first again.
  lemma {:induction false} RequeueOvertakes() returns (states: seq<System>, actions: seq<Action>)
    ensures IsRun(states, actions) && Order(states, actions, |actions|) == [0, 1, 0]
  {
    states, actions := seq(15, i requires i >= 0 => OvertakingState(i)), seq(14, i requires i >= 0 => OvertakingAct(i));
    forall i | 0 <= i < 14 ensures StepAt(states, actions, i) {
      if i < 4 {
        Queued(i);
      } else if i == 4 {
        Requeued();
      } else if i < 7 {
        Arrived(i);
      } else if i < 11 {
        OthersTurn(i);
      } else {
        OnceMore(i);
      }
    }
    OvertakingOrder(states, actions, 14);
  }
}
