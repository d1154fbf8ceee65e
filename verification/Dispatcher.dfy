/** `LogicSystem`'s queue: many posters, one consumer, a condition variable that is signalled
    only when the queue stops being empty, and a destructor that stops the consumer. */
module Dispatcher {

  const MAX_RECVQUE := 10000

  type Node = nat   // stands for one posted message; posts of equal messages are told apart

  /** Where the consumer is. Woken: it has been signalled, or woke by itself, and has yet to
      take the lock and test its condition. */
  datatype Consumer = Woken | Blocked | Handling(node: Node) | Exited

  datatype State = State(
    que: seq<Node>,
    stop: bool,
    consumer: Consumer,
    signals: nat,            // threads past their critical section, about to notify
    accepted: seq<Node>,     // every node the queue took, in order
    handled: seq<Node>)      // every node the consumer took off, in order

  const START := State([], false, Woken, 0, [], [])

  datatype Event =
    | Post(node: Node)
    | Stop
    | Notify
    | SpuriousWake
    | TestCondition
    | FinishHandling

  predicate Enabled(s: State, e: Event) {
    match e
    case Post(_) => true
    case Stop => !s.stop
    case Notify => s.signals > 0
    case SpuriousWake => s.consumer.Blocked?
    case TestCondition => s.consumer.Woken?
    case FinishHandling => s.consumer.Handling?
  }

  predicate Refuses(que: seq<Node>, stop: bool) {
    stop || |que| >= MAX_RECVQUE
  }

  function Step(s: State, e: Event): State
    requires Enabled(s, e)
  {
    match e
    case Post(n) =>
      if Refuses(s.que, s.stop) then s
      else
        s.(que := s.que + [n], accepted := s.accepted + [n],
           signals := if s.que == [] then s.signals + 1 else s.signals)
    case Stop => s.(stop := true, signals := s.signals + 1)
    case Notify =>
      s.(signals := s.signals - 1, consumer := if s.consumer.Blocked? then Woken else s.consumer)
    case SpuriousWake => s.(consumer := Woken)
    case TestCondition =>
      if s.que != [] then
        s.(consumer := Handling(s.que[0]), que := s.que[1..], handled := s.handled + [s.que[0]])
      else
        s.(consumer := if s.stop then Exited else Blocked)
    case FinishHandling => s.(consumer := Woken)
  }

  ghost predicate Possible(s: State, run: seq<Event>)
    decreases |run|
  {
    run == [] || (Enabled(s, run[0]) && Possible(Step(s, run[0]), run[1..]))
  }

  ghost function End(s: State, run: seq<Event>): State
    requires Possible(s, run)
    decreases |run|
  {
    if run == [] then s else End(Step(s, run[0]), run[1..])
  }

  ghost predicate Inv(s: State) {
    && s.accepted == s.handled + s.que
    && |s.que| <= MAX_RECVQUE
    && (s.consumer.Blocked? && (s.que != [] || s.stop) ==> s.signals > 0)
    && (s.consumer.Exited? ==> s.stop && s.que == [])
    && (s.consumer.Handling? ==> s.handled != [] && s.handled[|s.handled| - 1] == s.consumer.node)
  }

  lemma StepKeeps(s: State, e: Event)
    requires Inv(s) && Enabled(s, e)
    ensures Inv(Step(s, e))
    ensures s.accepted <= Step(s, e).accepted && s.handled <= Step(s, e).handled
    ensures s.consumer.Exited? ==> Step(s, e).consumer.Exited? && Step(s, e).accepted == s.accepted
  {
    if e.TestCondition? && s.que != [] {
      assert s.que == [s.que[0]] + s.que[1..];
      assert s.handled + s.que == s.handled + [s.que[0]] + s.que[1..];
    }
  }

  lemma {:induction false} RunKeeps(s: State, run: seq<Event>)
    requires Inv(s) && Possible(s, run)
    ensures Inv(End(s, run)) && s.accepted <= End(s, run).accepted && s.handled <= End(s, run).handled
    ensures s.consumer.Exited? ==> End(s, run).consumer.Exited? && End(s, run).accepted == s.accepted
    decreases |run|
  {
    if run != [] {
      StepKeeps(s, run[0]);
      RunKeeps(Step(s, run[0]), run[1..]);
    }
  }

  /** Anybody may post, and the destructor stop, at any moment; and a sleeper may wake by itself. */
  lemma MayHappen(s: State, n: Node)
    ensures Enabled(s, Post(n)) && (!s.stop ==> Enabled(s, Stop))
    ensures s.consumer.Blocked? ==> Enabled(s, SpuriousWake)
    ensures s.signals > 0 ==> Enabled(s, Notify)
    ensures s.consumer.Woken? ==> Enabled(s, TestCondition)
    ensures s.consumer.Handling? ==> Enabled(s, FinishHandling)
  {
  }

  /** What each step does. A post joins the back unless there is a stop or 10000 wait, and signals
      when nobody waited; a signal wakes a sleeper; a consumer that holds the lock takes the first
      node, sleeps while there is none, and leaves only after a stop. */
  lemma EachStepDoes(s: State, e: Event)
    requires Enabled(s, e)
    ensures var t := Step(s, e);
            match e
            case Post(n) =>
              if s.stop || |s.que| >= 10000 then t == s
              else t == s.(que := s.que + [n], accepted := s.accepted + [n],
                           signals := s.signals + if s.que == [] then 1 else 0)
            case Stop => t == s.(stop := true, signals := s.signals + 1)
            case Notify =>
              t == s.(consumer := t.consumer, signals := s.signals - 1)
              && (s.consumer.Blocked? ==> t.consumer.Woken?) && (!s.consumer.Blocked? ==> t.consumer == s.consumer)
            case SpuriousWake => s.consumer.Blocked? && t == s.(consumer := Woken)
            case TestCondition =>
              if s.que == [] then t == s.(consumer := if s.stop then Exited else Blocked)
              else t.consumer == Handling(s.que[0]) && s.que == [s.que[0]] + t.que
                   && t.handled == s.handled + [s.que[0]] && t.accepted == s.accepted
                   && t.stop == s.stop && t.signals == s.signals
            case FinishHandling => s.consumer.Handling? && t == s.(consumer := Woken)
  {
    if e.TestCondition? && s.que != [] {
      assert s.que == [s.que[0]] + s.que[1..];
    }
  }

  /** First in, first out, each node once: what was handled, then what waits, is what was
      accepted; and the queue keeps its bound. */
  lemma ExactlyOnceInOrder(run: seq<Event>)
    requires Possible(START, run)
    ensures var s := End(START, run);
            && s.accepted == s.handled + s.que && |s.que| <= MAX_RECVQUE
            && forall i | 0 <= i < |s.handled| :: s.handled[i] == s.accepted[i]
  {
    RunKeeps(START, run);
  }

  /** A consumer that sleeps while there is work, or a stop to obey, is about to be signalled. */
  lemma NoLostWakeUp(run: seq<Event>)
    requires Possible(START, run)
    ensures var s := End(START, run);
            s.consumer.Blocked? && (s.que != [] || s.stop) ==> Enabled(s, Notify) && Step(s, Notify).consumer.Woken?
  {
    RunKeeps(START, run);
  }

  /** The consumer leaves only after a stop and with everything accepted handled, and nothing
      is accepted after that. */
  lemma DrainedAtExit(run: seq<Event>, more: seq<Event>)
    requires Possible(START, run) && End(START, run).consumer.Exited? && Possible(End(START, run), more)
    ensures var s := End(End(START, run), more);
            s.stop && s.consumer.Exited? && s.handled == s.accepted == End(START, run).accepted
  {
    RunKeeps(START, run);
    RunKeeps(End(START, run), more);
    var s := End(End(START, run), more);
    assert s.handled + [] == s.handled;
  }

  // ---- after a stop, the consumer gets out in a bounded number of steps of its own ----

  /** The steps still needed, counting signals under way, until the consumer has left. */
  function Remaining(s: State): nat {
    2 * |s.que| + s.signals + match s.consumer
                             case Exited => 0
                             case Woken => 1
                             case Blocked => 2
                             case Handling(_) => 2
  }

  /** The steps that can change a stopped system. */
  predicate Settling(e: Event) {
    !e.Post? && !e.Stop?
  }

  /** Once stopped, the system is never stuck before the consumer has left, and whatever
      settling step is taken, fewer remain: the destructor's join returns. */
  lemma StopTerminates(s: State)
    requires Inv(s) && s.stop
    ensures !s.consumer.Exited? ==> exists e :: Settling(e) && Enabled(s, e)
    ensures forall e | Settling(e) && Enabled(s, e) ::
              Step(s, e).stop && Remaining(Step(s, e)) < Remaining(s)
  {
    if !s.consumer.Exited? {
      var e := match s.consumer
        case Woken => TestCondition
        case Blocked => Notify
        case Handling(_) => FinishHandling
        case Exited => Notify;
      assert Settling(e) && Enabled(s, e);
    }
  }

  /** Every run of settling steps is that short. */
  lemma {:induction false} StopIsBounded(s: State, run: seq<Event>)
    requires Inv(s) && s.stop && Possible(s, run) && forall i | 0 <= i < |run| :: Settling(run[i])
    ensures |run| <= Remaining(s)
    ensures End(s, run).consumer.Exited? || exists e :: Settling(e) && Enabled(End(s, run), e)
    decreases |run|
  {
    StopTerminates(s);
    if run != [] {
      assert Settling(run[0]);
      StepKeeps(s, run[0]);
      StopIsBounded(Step(s, run[0]), run[1..]);
    }
  }

  // ---- the queue as the threads update it ----

  class LogicQueue {
    var msgQue: seq<Node>
    var stop: bool
    ghost var accepted: seq<Node>
    ghost var handled: seq<Node>

    ghost predicate Valid()
      reads this
    {
      accepted == handled + msgQue && |msgQue| <= MAX_RECVQUE
    }

    constructor ()
      ensures Valid() && msgQue == [] && !stop && accepted == [] && handled == []
    {
      msgQue, stop, accepted, handled := [], false, [], [];
    }

    /** `PostMsgToQue`: a refused post closes its session; an accepted one goes to the back,
        and is signalled exactly when the queue was empty. */
    method PostMsgToQue(node: Node) returns (close: bool, notify: bool)
      requires Valid()
      modifies this`msgQue, this`accepted
      ensures Valid()
      ensures close <==> old(stop) || |old(msgQue)| >= 10000
      ensures msgQue == old(msgQue) + (if close then [] else [node])
      ensures accepted == old(accepted) + (if close then [] else [node])
      ensures notify <==> !close && old(msgQue) == []
    {
      if stop || |msgQue| >= MAX_RECVQUE {
        return true, false;
      }
      msgQue, accepted := msgQue + [node], accepted + [node];
      assert accepted == handled + msgQue;
      close, notify := false, |msgQue| == 1;
    }

    /** The destructor's half of the protocol. */
    method RequestStop() returns (notify: bool)
      modifies this`stop
      ensures stop && notify
    {
      stop, notify := true, true;
    }

    /** The first node leaves the queue for its handler. */
    method TakeFront() returns (node: Node)
      requires Valid() && msgQue != []
      modifies this`msgQue, this`handled
      ensures Valid() && node == old(msgQue)[0] && msgQue == old(msgQue)[1..]
      ensures handled == old(handled) + [node]
    {
      node := msgQue[0];
      assert msgQue == [node] + msgQue[1..];
      msgQue, handled := msgQue[1..], handled + [node];
    }

    /** What other threads do while the worker does not hold the lock. */
    method Arrive(nodes: seq<Node>)
      requires Valid()
      modifies this`msgQue, this`accepted
      ensures Valid() && accepted == old(accepted) + Taken(nodes, |old(msgQue)|, stop)
      ensures |msgQue| == |old(msgQue)| + |Taken(nodes, |old(msgQue)|, stop)|
    {
      var i := 0;
      while i < |nodes|
        invariant 0 <= i <= |nodes| && Valid()
        invariant Arrived(accepted, nodes[i..], |msgQue|, stop)
               == Arrived(old(accepted), nodes, |old(msgQue)|, stop)
      {
        assert nodes[i..][1..] == nodes[i + 1..];
        ghost var before := accepted;
        var close, notify := PostMsgToQue(nodes[i]);
        assert accepted == if close then before else before + [nodes[i]];
        i := i + 1;
      }
      ArrivedIsTaken(old(accepted), nodes, |old(msgQue)|, stop);
    }

    /** What happens between two turns of the worker: the next arrivals, and the destructor's stop
        behind the last of them. */
    method Meanwhile(arrivals: seq<seq<Node>>, turn: nat, ghost coming: seq<Node>)
        returns (next: nat, ghost later: seq<Node>)
      requires Valid() && turn <= |arrivals| + 1 && (turn == |arrivals| + 1 ==> stop)
      requires coming == AllTaken(From(arrivals, turn), |msgQue|, stop)
      modifies this`msgQue, this`accepted, this`stop
      ensures Valid() && next <= |arrivals| + 1 && (next == |arrivals| + 1 ==> stop)
      ensures if turn <= |arrivals| then next == turn + 1 else next == turn && msgQue == old(msgQue)
      ensures accepted + later == old(accepted) + coming
      ensures later == AllTaken(From(arrivals, next), if |msgQue| == 0 then 0 else |msgQue| - 1, stop)
    {
      next, later := turn, coming;
      if turn < |arrivals| {
        ghost var before, now := accepted, Taken(arrivals[turn], |msgQue|, stop);
        Arrive(arrivals[turn]);
        next := turn + 1;
        assert From(arrivals, turn)[1..] == From(arrivals, next);
        later := AllTaken(From(arrivals, next), if |msgQue| == 0 then 0 else |msgQue| - 1, stop);
        Regrouped(before, now, later);
      } else if turn == |arrivals| {
        var notify := RequestStop();
        next := turn + 1;
      }
    }

    /** The worker's whole loop. `arrivals` lists what is posted between its turns, and the
        destructor's stop comes after the last of them. With an empty queue and no stop it
        sleeps until the next arrivals. Every node taken goes to its handler once, in the order
        of the posts, and the loop ends with none left. */
    method DealMsg(arrivals: seq<seq<Node>>) returns (dealt: seq<Node>)
      requires Valid()
      modifies this
      ensures Valid() && stop && msgQue == [] && handled == accepted && old(accepted) <= accepted
      ensures old(handled) + dealt == accepted
      ensures accepted == old(accepted) + AllTaken(arrivals, |old(msgQue)|, old(stop))
    {
      dealt := [];
      var turn := 0;
      ghost var coming := AllTaken(arrivals, |msgQue|, stop);
      while true
        invariant Valid() && turn <= |arrivals| + 1 && (turn == |arrivals| + 1 ==> stop)
        invariant handled == old(handled) + dealt
        invariant coming == AllTaken(From(arrivals, turn), |msgQue|, stop)
        invariant accepted + coming == old(accepted) + AllTaken(arrivals, |old(msgQue)|, old(stop))
        decreases |arrivals| + 1 - turn, |msgQue|
      {
        turn, coming := Meanwhile(arrivals, turn, coming);
        if stop && |msgQue| == 0 {
          NoneAfterStop(From(arrivals, turn), 0);
          break;
        }
        if |msgQue| > 0 {
          var node := TakeFront();
          Regrouped(old(handled), dealt, [node]);
          dealt := dealt + [node];
        }
      }
    }
  }

  /** The arrivals from a turn on; none once the stop has come. */
  function From(arrivals: seq<seq<Node>>, turn: nat): seq<seq<Node>> {
    if turn <= |arrivals| then arrivals[turn..] else []
  }

  lemma Regrouped(a: seq<Node>, b: seq<Node>, c: seq<Node>)
    ensures a + (b + c) == a + b + c
  {
  }

  /** The posts the queue takes, of these in a row. */
  function Taken(nodes: seq<Node>, waiting: nat, stop: bool): seq<Node>
    decreases |nodes|
  {
    if nodes == [] then []
    else if stop || waiting >= MAX_RECVQUE then Taken(nodes[1..], waiting, stop)
    else [nodes[0]] + Taken(nodes[1..], waiting + 1, stop)
  }

  /** The posts taken over the worker's turns, each of which takes one node off. */
  function AllTaken(arrivals: seq<seq<Node>>, waiting: nat, stop: bool): seq<Node>
    decreases |arrivals|
  {
    if arrivals == [] then []
    else
      var now := Taken(arrivals[0], waiting, stop);
      var left := waiting + |now|;
      now + AllTaken(arrivals[1..], if left == 0 then 0 else left - 1, stop)
  }

  function Flat(arrivals: seq<seq<Node>>): seq<Node> {
    if arrivals == [] then [] else arrivals[0] + Flat(arrivals[1..])
  }

  lemma {:induction false} NoneTaken(nodes: seq<Node>, waiting: nat)
    ensures Taken(nodes, waiting, true) == []
    decreases |nodes|
  {
    if nodes != [] { NoneTaken(nodes[1..], waiting); }
  }

  lemma {:induction false} NoneAfterStop(arrivals: seq<seq<Node>>, waiting: nat)
    ensures AllTaken(arrivals, waiting, true) == []
    decreases |arrivals|
  {
    if arrivals != [] {
      NoneTaken(arrivals[0], waiting);
      NoneAfterStop(arrivals[1..], if waiting == 0 then 0 else waiting - 1);
    }
  }

  lemma {:induction false} RoomTakes(nodes: seq<Node>, waiting: nat)
    requires waiting + |nodes| <= 10000
    ensures Taken(nodes, waiting, false) == nodes
    decreases |nodes|
  {
    if nodes != [] {
      RoomTakes(nodes[1..], waiting + 1);
      assert nodes == [nodes[0]] + nodes[1..];
    }
  }

  /** Until the stop, whatever finds room is taken: all of it if it never comes to 10000. */
  lemma {:induction false} RoomTakesAll(arrivals: seq<seq<Node>>, waiting: nat)
    requires waiting + |Flat(arrivals)| <= 10000
    ensures AllTaken(arrivals, waiting, false) == Flat(arrivals)
    decreases |arrivals|
  {
    if arrivals != [] {
      RoomTakes(arrivals[0], waiting);
      var left := waiting + |arrivals[0]|;
      RoomTakesAll(arrivals[1..], if left == 0 then 0 else left - 1);
    }
  }

  /** The same, added to what was taken before. */
  function Arrived(accepted: seq<Node>, nodes: seq<Node>, waiting: nat, stop: bool): seq<Node>
    decreases |nodes|
  {
    if nodes == [] then accepted
    else if stop || waiting >= MAX_RECVQUE then Arrived(accepted, nodes[1..], waiting, stop)
    else Arrived(accepted + [nodes[0]], nodes[1..], waiting + 1, stop)
  }

  lemma {:induction false} ArrivedIsTaken(accepted: seq<Node>, nodes: seq<Node>, waiting: nat, stop: bool)
    ensures Arrived(accepted, nodes, waiting, stop) == accepted + Taken(nodes, waiting, stop)
    decreases |nodes|
  {
    if nodes != [] {
      ArrivedIsTaken(accepted, nodes[1..], waiting, stop);
      ArrivedIsTaken(accepted + [nodes[0]], nodes[1..], waiting + 1, stop);
    }
  }
}
