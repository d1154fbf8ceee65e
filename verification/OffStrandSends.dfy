/** Sends from other threads: a counter bounds how many may be waiting for the strand. Every
    atomic operation is one step, and any number of threads interleave freely. */
module OffStrandSends {
  import opened Framing
  import opened SendStream

  /** A message handed to `Send` on the strand: by a lambda, or by the strand's own code. */
  datatype Offer = ByLambda(m: Message) | Directly(m: Message)

  datatype State = State(
    writer: Writer,
    counter: int,                      // _scheduledSends
    dispatching: map<int, Message>,    // threads that won a slot and have yet to dispatch
    rolling: set<int>,                 // threads over the bound that have yet to decrement
    closing: set<int>,                 // threads that have yet to close the session
    pending: seq<Message>,             // lambdas waiting for the strand, in order
    running: seq<Message>,             // the lambda the strand is in, past its decrement
    dispatched: seq<Message>,          // every message ever dispatched, in order
    offers: seq<Offer>)                // every message `Send` was handed on the strand, in order

  const START := State(FRESH, 0, map[], {}, {}, [], [], [], [])

  datatype Event =
    | FetchAdd(thread: int, m: Message)
    | Rollback(thread: int)
    | CloseAfter(thread: int)
    | Dispatch(thread: int)
    | BeginLambda
    | LambdaSends(closedMeanwhile: bool)
    | SendOnStrand(m: Message, closedMeanwhile: bool)
    | SocketTakes(n: nat)
    | WriteDone(error: bool, closedMeanwhile: bool)
    | AnyoneCloses

  predicate Busy(s: State, t: int) {
    t in s.dispatching || t in s.rolling || t in s.closing
  }

  predicate Enabled(s: State, e: Event) {
    match e
    case FetchAdd(t, m) => !Busy(s, t) && Sendable(m.body)
    case Rollback(t) => t in s.rolling
    case CloseAfter(t) => t in s.closing
    case Dispatch(t) => t in s.dispatching
    case BeginLambda => s.running == [] && s.pending != []
    case LambdaSends(_) => s.running != []
    case SendOnStrand(_, _) => s.running == []
    case SocketTakes(n) => s.writer.writing && s.writer.que != [] && s.writer.offset + n <= |s.writer.que[0]|
    case WriteDone(error, _) =>
      && s.running == [] && s.writer.writing && s.writer.que != [] && s.writer.kept != []
      && (!error ==> s.writer.offset == |s.writer.que[0]|)
    case AnyoneCloses => true
  }

  function Step(s: State, e: Event): State
    requires Enabled(s, e)
  {
    match e
    case FetchAdd(t, m) =>
      var c := s.(counter := s.counter + 1);
      if s.counter >= MAX_SENDQUE then c.(rolling := s.rolling + {t}) else c.(dispatching := s.dispatching[t := m])
    case Rollback(t) =>
      s.(counter := s.counter - 1, rolling := s.rolling - {t}, closing := s.closing + {t})
    case CloseAfter(t) =>
      s.(closing := s.closing - {t}, writer := s.writer.(closed := true))
    case Dispatch(t) =>
      s.(dispatching := s.dispatching - {t}, pending := s.pending + [s.dispatching[t]],
         dispatched := s.dispatched + [s.dispatching[t]])
    case BeginLambda =>
      s.(counter := s.counter - 1, pending := s.pending[1..], running := [s.pending[0]])
    case LambdaSends(c) =>
      s.(running := s.running[1..], writer := AfterSend(s.writer, s.running[0], c),
         offers := s.offers + [ByLambda(s.running[0])])
    case SendOnStrand(m, c) => s.(writer := AfterSend(s.writer, m, c), offers := s.offers + [Directly(m)])
    case SocketTakes(n) => s.(writer := AfterSome(s.writer, n))
    case WriteDone(error, c) => s.(writer := AfterWrite(s.writer, error, c))
    case AnyoneCloses => s.(writer := s.writer.(closed := true))
  }

  ghost predicate Possible(s: State, run: seq<Event>)
    decreases |run|
  {
    run == [] || (Enabled(s, run[0]) && Possible(Step(s, run[0]), run[1..]))
  }

  ghost function End(s: State, run: seq<Event>): State
    requires Possible(s, run)
    decreases |run|
  {
    if run == [] then s else End(Step(s, run[0]), run[1..])
  }

  /** The counter is what waits for the strand plus the threads in the middle of the protocol. */
  ghost predicate Counted(s: State) {
    && s.counter == |s.pending| + |s.dispatching| + |s.rolling|
    && |s.pending| + |s.dispatching| <= MAX_SENDQUE
    && |s.running| <= 1
  }

  lemma StepCounts(s: State, e: Event)
    requires Counted(s) && Enabled(s, e)
    ensures Counted(Step(s, e))
  {
    if e.Dispatch? {
      assert s.dispatching.Keys == (s.dispatching - {e.thread}).Keys + {e.thread};
    } else if e.FetchAdd? {
      FetchCounts(s, e.thread, e.m);
    }
  }

  /** A thread that gets a slot adds itself to those about to dispatch, the others roll back. */
  lemma FetchCounts(s: State, t: int, m: Message)
    requires Counted(s) && Enabled(s, FetchAdd(t, m))
    ensures Counted(Step(s, FetchAdd(t, m)))
  {
    assert s.dispatching[t := m].Keys == s.dispatching.Keys + {t};
  }

  lemma StepWrites(s: State, e: Event)
    requires Inv(s.writer) && Enabled(s, e)
    ensures Inv(Step(s, e).writer)
  {
    match e
    case LambdaSends(c) => SendKeeps(s.writer, s.running[0], c);
    case SendOnStrand(m, c) => SendKeeps(s.writer, m, c);
    case SocketTakes(n) => WriteSomeKeeps(s.writer, n);
    case WriteDone(error, c) => HandleWriteKeeps(s.writer, error, c);
    case _ =>
  }

  /** The messages that lambdas have handed over. */
  function FromLambdas(offers: seq<Offer>): seq<Message> {
    if offers == [] then []
    else
      var last := offers[|offers| - 1];
      FromLambdas(offers[..|offers| - 1]) + (if last.ByLambda? then [last.m] else [])
  }

  function Messages(offers: seq<Offer>): seq<Message> {
    if offers == [] then [] else Messages(offers[..|offers| - 1]) + [offers[|offers| - 1].m]
  }

  lemma Offered(offers: seq<Offer>, o: Offer)
    ensures FromLambdas(offers + [o]) == FromLambdas(offers) + (if o.ByLambda? then [o.m] else [])
    ensures Messages(offers + [o]) == Messages(offers) + [o.m]
  {
    assert (offers + [o])[..|offers|] == offers;
  }

  /** Nothing dispatched is lost on its way to the strand, and nothing handed over on the strand
      is lost while the session is open: only a close ends what the writer takes. */
  ghost predicate Delivered(s: State) {
    && FromLambdas(s.offers) + s.running + s.pending == s.dispatched
    && s.writer.Accepted() <= Messages(s.offers)
    && (!s.writer.closed ==> s.writer.Accepted() == Messages(s.offers))
    && |s.running| <= 1
  }

  lemma HandOver(s: State, o: Offer, closedMeanwhile: bool)
    requires s.writer.Accepted() <= Messages(s.offers)
    requires !s.writer.closed ==> s.writer.Accepted() == Messages(s.offers)
    ensures var w, offers := AfterSend(s.writer, o.m, closedMeanwhile), s.offers + [o];
            && w.Accepted() <= Messages(offers) && (!w.closed ==> w.Accepted() == Messages(offers))
  {
    Offered(s.offers, o);
    SendSays(s.writer, o.m, closedMeanwhile);
  }

  lemma LambdaDelivers(s: State, closedMeanwhile: bool)
    requires Delivered(s) && Enabled(s, LambdaSends(closedMeanwhile))
    ensures Delivered(Step(s, LambdaSends(closedMeanwhile)))
  {
    HandOver(s, ByLambda(s.running[0]), closedMeanwhile);
    Offered(s.offers, ByLambda(s.running[0]));
  }

  lemma StrandDelivers(s: State, m: Message, closedMeanwhile: bool)
    requires Delivered(s) && Enabled(s, SendOnStrand(m, closedMeanwhile))
    ensures Delivered(Step(s, SendOnStrand(m, closedMeanwhile)))
  {
    HandOver(s, Directly(m), closedMeanwhile);
    Offered(s.offers, Directly(m));
  }

  lemma StepDelivers(s: State, e: Event)
    requires Delivered(s) && Inv(s.writer) && Enabled(s, e)
    ensures Delivered(Step(s, e))
  {
    match e
    case LambdaSends(c) => LambdaDelivers(s, c);
    case SendOnStrand(m, c) => StrandDelivers(s, m, c);
    case WriteDone(error, c) => WriteKeepsAccepted(s.writer, error, c);
    case BeginLambda => assert s.pending == [s.pending[0]] + s.pending[1..];
    case _ =>
  }

  lemma {:induction false} RunKeeps(s: State, run: seq<Event>)
    requires Counted(s) && Inv(s.writer) && Delivered(s) && Possible(s, run)
    ensures Counted(End(s, run)) && Inv(End(s, run).writer) && Delivered(End(s, run))
    decreases |run|
  {
    if run != [] {
      StepCounts(s, run[0]);
      StepWrites(s, run[0]);
      StepDelivers(s, run[0]);
      RunKeeps(Step(s, run[0]), run[1..]);
    }
  }

  /** On every run: at most 1000 sends wait for the strand, at most 1000 frames are queued,
      the counter is exact, and the byte stream is conserved. */
  lemma SendsBounded(run: seq<Event>)
    requires Possible(START, run)
    ensures var s := End(START, run);
            && |s.pending| <= 1000 && |s.writer.que| <= 1000
            && s.counter == |s.pending| + |s.dispatching| + |s.rolling|
            && s.writer.wire + Unstarted(s.writer) + Joined(if s.writer.que == [] then [] else s.writer.que[1..])
               == EncodeAll(s.writer.Accepted())
            && (!s.writer.closed ==> (s.writer.que != [] <==> s.writer.writing))
  {
    RunKeeps(START, run);
    Conservation(End(START, run).writer);
  }

  /** On every run: what lambdas have handed over, the one running and those waiting are the
      dispatched messages, in order; and the writer has taken a prefix of what it was handed,
      all of it as long as the session is open. */
  lemma DispatchedAreSent(run: seq<Event>)
    requires Possible(START, run)
    ensures var s := End(START, run);
            && FromLambdas(s.offers) + s.running + s.pending == s.dispatched
            && s.writer.Accepted() <= Messages(s.offers)
            && (!s.writer.closed ==> s.writer.Accepted() == Messages(s.offers))
  {
    RunKeeps(START, run);
  }

  /** What each step does, for each thread that takes it. */
  ghost predicate Does(s: State, e: Event, t: State) {
    match e
    case FetchAdd(x, m) =>
      // a slot exactly while fewer than 1000 are taken
      && t.counter == s.counter + 1 && t.writer == s.writer && t.pending == s.pending
      && (if s.counter < 1000 then x in t.dispatching && t.dispatching[x] == m && t.rolling == s.rolling
          else x in t.rolling && t.dispatching == s.dispatching)
    case Rollback(x) =>
      t.counter == s.counter - 1 && x !in t.rolling && x in t.closing && t.writer == s.writer
    case CloseAfter(x) => x !in t.closing && t.writer == s.writer.(closed := true)
    case Dispatch(x) =>
      && x in s.dispatching && x !in t.dispatching && t.writer == s.writer && t.counter == s.counter
      && t.pending == s.pending + [s.dispatching[x]]
    case BeginLambda =>
      && s.pending != [] && t.running == [s.pending[0]] && t.pending == s.pending[1..]
      && t.counter == s.counter - 1 && t.writer == s.writer
    case LambdaSends(c) => s.running != [] && t.running == [] && HandedOver(s.writer, s.running[0], c, t.writer)
    case SendOnStrand(m, c) => HandedOver(s.writer, m, c, t.writer) && t.running == s.running
    case SocketTakes(n) =>
      && n <= |Unstarted(s.writer)| && t.writer.wire == s.writer.wire + Unstarted(s.writer)[..n]
      && t.writer.que == s.writer.que && t.writer.closed == s.writer.closed
    case WriteDone(error, c) =>
      && (t.writer.closed <==> s.writer.closed || error || c)
      && t.writer.que == (if s.writer.closed || error || s.writer.que == [] then s.writer.que else s.writer.que[1..])
    case AnyoneCloses => t.writer == s.writer.(closed := true)
  }

  /** A message joins the back of the queue exactly when the session is open, the message can be
      sent and there is room; otherwise the session ends closed. */
  ghost predicate HandedOver(w: Writer, m: Message, closedMeanwhile: bool, v: Writer) {
    if !w.closed && 1 <= |m.body| <= 32763 && |w.que| < 1000 then
      v.que == w.que + [Frame(m)] && v.Accepted() == w.Accepted() + [m] && (v.closed <==> closedMeanwhile)
    else
      v.closed && v.que == w.que && v.Accepted() == w.Accepted()
  }

  lemma EachStepDoes(s: State, e: Event)
    requires Counted(s) && Inv(s.writer) && Enabled(s, e)
    ensures Does(s, e, Step(s, e))
  {
    match e
    case LambdaSends(c) => SendSays(s.writer, s.running[0], c);
    case SendOnStrand(m, c) => SendSays(s.writer, m, c);
    case SocketTakes(n) => WriteSomeSays(s.writer, n);
    case _ =>
  }

  /** No thread and no lambda ever gets stuck on its way; a thread with nothing under way may send
      any body of 1 to 32763 bytes, and the socket may take any part of the frame in flight. */
  lemma NobodyIsStuck(s: State, x: int, m: Message, n: nat, closedMeanwhile: bool)
    ensures x !in s.dispatching && x !in s.rolling && x !in s.closing && 1 <= |m.body| <= 32763 ==>
              Enabled(s, FetchAdd(x, m))
    ensures s.running == [] ==> Enabled(s, SendOnStrand(m, closedMeanwhile))
    ensures s.writer.writing && s.writer.que != [] && s.writer.offset + n <= |s.writer.que[0]| ==>
              Enabled(s, SocketTakes(n))
    ensures s.writer.writing && s.writer.que != [] && s.writer.kept != [] && s.running == [] ==>
              Enabled(s, WriteDone(true, closedMeanwhile))
              && (s.writer.offset == |s.writer.que[0]| ==> Enabled(s, WriteDone(false, closedMeanwhile)))
    ensures Enabled(s, AnyoneCloses)
    ensures x in s.dispatching ==> Enabled(s, Dispatch(x))
    ensures x in s.rolling ==> Enabled(s, Rollback(x))
    ensures x in s.closing ==> Enabled(s, CloseAfter(x))
    ensures s.pending != [] && s.running == [] ==> Enabled(s, BeginLambda)
    ensures s.running != [] ==> Enabled(s, LambdaSends(closedMeanwhile))
  {
  }

  /** No step takes a frame out of the queue before the whole of it is on the wire, and none
      does once the session was closed. */
  lemma InFlightStays(s: State, e: Event)
    requires Counted(s) && Inv(s.writer) && Enabled(s, e)
    ensures var w, v := s.writer, Step(s, e).writer;
            || w.que <= v.que
            || (!w.closed && w.que != [] && w.offset == |w.que[0]| && v.que == w.que[1..])
  {
  }
}
