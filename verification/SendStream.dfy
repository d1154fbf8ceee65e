/** The writing half of `CSession`: a bounded FIFO of frames with one socket write in flight,
    fed on the strand or, through an atomic counter, by any number of other threads. */
module SendStream {
  import opened Common
  import opened Framing

  const MAX_SENDQUE := 1000

  /** The writer's fields, with what has left by the socket and the messages whose frames
      have left the queue (`gone`) or are still in it (`kept`). */
  datatype Writer = Writer(closed: bool, que: seq<seq<byte>>, writing: bool, offset: nat,
                           wire: seq<byte>, gone: seq<Message>, kept: seq<Message>)
  {
    /** Every message `Send` has taken. */
    function Accepted(): seq<Message> {
      gone + kept
    }
  }

  const FRESH := Writer(false, [], false, 0, [], [], [])

  predicate Sendable(msg: seq<byte>) {
    1 <= |msg| <= MAX_SEND
  }

  /** `Send` on the strand. Another thread may set the close flag after it was tested. */
  function AfterSend(w: Writer, m: Message, closedMeanwhile: bool): Writer {
    if w.closed then
      w
    else if !Sendable(m.body) || |w.que| >= MAX_SENDQUE then
      w.(closed := true)
    else
      var v := w.(closed := closedMeanwhile, que := w.que + [Frame(m)], kept := w.kept + [m]);
      if |w.que| > 0 then v else v.(writing := true, offset := 0)
  }

  /** The socket takes some of the front frame. */
  function AfterSome(w: Writer, n: nat): Writer
    requires w.writing && w.que != [] && w.offset + n <= |w.que[0]|
  {
    w.(wire := w.wire + w.que[0][w.offset..w.offset + n], offset := w.offset + n)
  }

  /** The write on the front frame has completed; without error, all of it went out. */
  function AfterWrite(w: Writer, error: bool, closedMeanwhile: bool): Writer
    requires w.que != [] && w.kept != []
  {
    if w.closed then
      w.(writing := false)
    else if error then
      w.(closed := true, writing := false)
    else
      w.(closed := closedMeanwhile, que := w.que[1..], writing := |w.que| > 1, offset := 0,
         gone := w.gone + [w.kept[0]], kept := w.kept[1..])
  }

  /** The part of the front frame that is on the wire, and the part that is not. */
  ghost function Started(w: Writer): seq<byte> {
    if w.que == [] || w.offset > |w.que[0]| then [] else w.que[0][..w.offset]
  }

  ghost function Unstarted(w: Writer): seq<byte> {
    if w.que == [] || w.offset > |w.que[0]| then [] else w.que[0][w.offset..]
  }

  /** The bytes of a list of frames. */
  function Joined(frames: seq<seq<byte>>): seq<byte> {
    if frames == [] then [] else frames[0] + Joined(frames[1..])
  }

  ghost predicate FramesOf(que: seq<seq<byte>>, kept: seq<Message>) {
    |que| == |kept| && forall i | 0 <= i < |que| :: que[i] == Frame(kept[i])
  }

  ghost predicate Inv(w: Writer) {
    && |w.que| <= MAX_SENDQUE && FramesOf(w.que, w.kept)
    && (w.que == [] ==> !w.writing && w.offset == 0)
    && (w.que != [] ==> w.offset <= |w.que[0]|)
    && w.wire == EncodeAll(w.gone) + Started(w)
    && (!w.closed ==> (w.que != [] <==> w.writing))
  }

  lemma {:induction false} EncodeConcat(a: seq<Message>, b: seq<Message>)
    ensures EncodeAll(a + b) == EncodeAll(a) + EncodeAll(b)
  {
    if a == [] {
      assert a + b == b;
    } else {
      assert (a + b)[1..] == a[1..] + b;
      EncodeConcat(a[1..], b);
    }
  }

  lemma {:induction false} JoinedIsEncoded(que: seq<seq<byte>>, kept: seq<Message>)
    requires FramesOf(que, kept)
    ensures Joined(que) == EncodeAll(kept)
  {
    if que != [] {
      JoinedIsEncoded(que[1..], kept[1..]);
    }
  }

  /** Conservation: the wire, the rest of the frame in flight and the frames behind it are the
      accepted sends, in order, byte for byte. */
  lemma Conservation(w: Writer)
    requires Inv(w)
    ensures w.wire + Unstarted(w) + Joined(if w.que == [] then [] else w.que[1..]) == EncodeAll(w.Accepted())
  {
    EncodeConcat(w.gone, w.kept);
    if w.que != [] {
      JoinedIsEncoded(w.que[1..], w.kept[1..]);
      Rejoin(EncodeAll(w.gone), w.que[0], w.offset, Joined(w.que[1..]));
    }
  }

  lemma Rejoin(before: seq<byte>, front: seq<byte>, n: nat, behind: seq<byte>)
    requires n <= |front|
    ensures before + front[..n] + front[n..] + behind == before + (front + behind)
  {
  }

  lemma SendKeeps(w: Writer, m: Message, closedMeanwhile: bool)
    requires Inv(w)
    ensures Inv(AfterSend(w, m, closedMeanwhile))
  {
  }

  /** What a send does to the queue, the close flag and the wire. */
  lemma SendSays(w: Writer, m: Message, closedMeanwhile: bool)
    ensures var v := AfterSend(w, m, closedMeanwhile);
            && v.wire == w.wire && (v.closed <==> w.closed || !TakenBy(w, m.body) || closedMeanwhile)
            && v.que == w.que + (if TakenBy(w, m.body) then [Frame(m)] else [])
            && v.Accepted() == w.Accepted() + (if TakenBy(w, m.body) then [m] else [])
  {
    assert w.gone + (w.kept + [m]) == w.gone + w.kept + [m];
  }

  /** The socket takes the next bytes of the front frame, and nothing else changes. */
  lemma WriteSomeSays(w: Writer, n: nat)
    requires Inv(w) && w.writing && w.offset + n <= |w.que[0]|
    ensures var v := AfterSome(w, n);
            && v.wire == w.wire + Unstarted(w)[..n] && Unstarted(v) == Unstarted(w)[n..]
            && v.que == w.que && v.closed == w.closed && v.writing && v.Accepted() == w.Accepted()
  {
    assert w.que[0][w.offset..][..n] == w.que[0][w.offset..w.offset + n];
    assert w.que[0][w.offset..][n..] == w.que[0][w.offset + n..];
  }

  lemma WriteSomeKeeps(w: Writer, n: nat)
    requires Inv(w) && w.writing && w.offset + n <= |w.que[0]|
    ensures Inv(AfterSome(w, n))
  {
    MoreOfFront(EncodeAll(w.gone), w.que[0], w.offset, n);
  }

  lemma MoreOfFront(before: seq<byte>, front: seq<byte>, k: nat, n: nat)
    requires k + n <= |front|
    ensures before + front[..k] + front[k..k + n] == before + front[..k + n]
  {
  }

  lemma HandleWriteKeeps(w: Writer, error: bool, closedMeanwhile: bool)
    requires Inv(w) && w.writing && (!error ==> w.offset == |w.que[0]|)
    ensures Inv(AfterWrite(w, error, closedMeanwhile))
  {
    if !w.closed && !error {
      EncodeAppend(w.gone, w.kept[0]);
      assert Started(w) == Frame(w.kept[0]);
    }
  }

  lemma WriteKeepsAccepted(w: Writer, error: bool, closedMeanwhile: bool)
    requires Inv(w) && w.que != []
    ensures AfterWrite(w, error, closedMeanwhile).Accepted() == w.Accepted()
  {
    assert w.gone + [w.kept[0]] + w.kept[1..] == w.gone + w.kept;
  }

  /** What the peer's reader makes of the wire: the sends in order, none of them altered. */
  lemma WireReadsBack(w: Writer)
    requires Inv(w) && AllReadable(w.Accepted())
    ensures Parse(w.wire).msgs <= w.Accepted() && !Parse(w.wire).bad
    ensures w.que == [] ==> Parse(w.wire) == Parsed(w.Accepted(), false, [])
  {
    ReadableParts(w.gone, w.kept);
    ParseEncoded(w.gone, Started(w));
    if w.que != [] {
      StartedReads(w.kept[0], w.offset);
      PrefixOf(w.gone, w.kept);
    } else {
      assert Parse([]) == Parsed([], false, []);
      assert w.gone + [] == w.gone;
    }
  }

  lemma ReadableParts(a: seq<Message>, b: seq<Message>)
    requires AllReadable(a + b)
    ensures AllReadable(a) && AllReadable(b)
  {
    forall i | 0 <= i < |a| ensures Readable(a[i]) { assert a[i] == (a + b)[i]; }
    forall i | 0 <= i < |b| ensures Readable(b[i]) { assert b[i] == (a + b)[|a| + i]; }
  }

  lemma PrefixOf(a: seq<Message>, b: seq<Message>)
    requires b != []
    ensures a + [] <= a + b && a + [b[0]] <= a + b
  {
  }

  lemma StartedReads(m: Message, n: nat)
    requires Readable(m) && n <= |Frame(m)|
    ensures var p := Parse(Frame(m)[..n]); !p.bad && p.msgs == if n < |Frame(m)| then [] else [m]
  {
    var s := Frame(m)[..n];
    HeadOfFrame(m, []);
    assert Frame(m) + [] == Frame(m);
    if n == |Frame(m)| {
      assert s == Frame(m);
      ParseFrame(m, []);
    } else if n >= HEAD_TOTAL_LEN {
      assert HeadId(s) == HeadId(Frame(m)) && HeadLen(s) == HeadLen(Frame(m));
    }
  }

  /** The strand's view of the queue, updated in place. */
  class SendQueue {
    var closed: bool
    var que: seq<seq<byte>>
    var writing: bool
    ghost var offset: nat
    ghost var wire: seq<byte>
    ghost var gone: seq<Message>
    ghost var kept: seq<Message>

    ghost function State(): Writer
      reads this
    {
      Writer(closed, que, writing, offset, wire, gone, kept)
    }

    constructor ()
      ensures State() == FRESH && Inv(State())
    {
      closed, que, writing, offset, wire, gone, kept := false, [], false, 0, [], [], [];
    }

    /** A send that is taken joins the back of the queue; one that is empty, too long or finds
        the queue full closes the session instead. */
    method Send(msg: seq<byte>, msgId: int, closedMeanwhile: bool)
      requires Inv(State())
      modifies this
      ensures Inv(State()) && State() == AfterSend(old(State()), Message(msgId, msg), closedMeanwhile)
      ensures que == old(que) + (if TakenBy(old(State()), msg) then [Frame(Message(msgId, msg))] else [])
      ensures closed <==> old(closed) || !TakenBy(old(State()), msg) || closedMeanwhile
      ensures !old(closed) ==> (TakenBy(old(State()), msg) <==> 1 <= |msg| <= 32763 && |old(que)| < 1000)
      ensures State().Accepted() == old(State().Accepted())
                + (if TakenBy(old(State()), msg) then [Message(msgId, msg)] else [])
      ensures wire == old(wire)
    {
      SendKeeps(State(), Message(msgId, msg), closedMeanwhile);
      SendSays(State(), Message(msgId, msg), closedMeanwhile);
      SendOnStrand(msg, msgId, closedMeanwhile);
    }

    /** The steps of a send, which need no invariant. */
    method SendOnStrand(msg: seq<byte>, msgId: int, closedMeanwhile: bool)
      modifies this
      ensures State() == AfterSend(old(State()), Message(msgId, msg), closedMeanwhile)
    {
      if closed { return; }
      if |msg| == 0 || |msg| > MAX_SEND {
        closed := true;
        return;
      }
      var size := |que|;
      if size >= MAX_SENDQUE {
        closed := true;
        return;
      }
      closed := closedMeanwhile;
      que, kept := que + [Frame(Message(msgId, msg))], kept + [Message(msgId, msg)];
      if size > 0 { return; }
      writing, offset := true, 0;
    }

    /** A finished frame leaves the queue, and only then; after a close nothing leaves it. */
    method HandleWrite(error: bool, closedMeanwhile: bool)
      requires Inv(State()) && writing && (!error ==> offset == |que[0]|)
      modifies this
      ensures Inv(State()) && State() == AfterWrite(old(State()), error, closedMeanwhile)
      ensures que == if old(closed) || error then old(que) else old(que)[1..]
      ensures closed <==> old(closed) || error || closedMeanwhile
      ensures State().Accepted() == old(State().Accepted()) && wire == old(wire)
      ensures !closed ==> (writing <==> que != [])
    {
      HandleWriteKeeps(State(), error, closedMeanwhile);
      WriteKeepsAccepted(State(), error, closedMeanwhile);
      if closed {
        writing := false;
        return;
      }
      if !error {
        closed := closedMeanwhile;
        que, offset := que[1..], 0;
        gone, kept := gone + [kept[0]], kept[1..];
        writing := que != [];
      } else {
        closed, writing := true, false;
      }
    }
  }

  predicate TakenBy(w: Writer, msg: seq<byte>) {
    !w.closed && Sendable(msg) && |w.que| < MAX_SENDQUE
  }
}
