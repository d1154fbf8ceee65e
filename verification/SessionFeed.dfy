/** A whole conversation: the frames of a list of messages reach a session in pieces of any
    size, at any times. No deadline passes meanwhile and no read fails. */
module SessionFeed {
  import opened Common
  import opened Framing
  import opened PacketBudget
  import opened SessionReader

  lemma BadStaysBad(s: seq<byte>, more: seq<byte>)
    requires Parse(s).bad
    ensures Parse(s + more).bad
  {
    RestIsBad(s);
    ParseAppend(s, more);
    var rest := Parse(s).rest;
    assert HeadId(rest + more) == HeadId(rest) && HeadLen(rest + more) == HeadLen(rest);
  }

  lemma {:induction false} RestIsBad(s: seq<byte>)
    requires Parse(s).bad
    ensures BadHead(Parse(s).rest)
    decreases |s|
  {
    if !Unfinished(s) {
      var m, tail := FirstFrame(s);
      RestIsBad(tail);
    }
  }

  lemma WholeIsGood(sent: seq<Message>)
    requires AllReadable(sent)
    ensures Parse(EncodeAll(sent)) == Parsed(sent, false, [])
  {
    ParseEncoded(sent, []);
    assert EncodeAll(sent) + [] == EncodeAll(sent) && sent + [] == sent;
  }

  /** A prefix of a good stream is good, and its messages are a prefix of the stream's. */
  lemma PrefixIsGood(s: seq<byte>, more: seq<byte>)
    requires !Parse(s + more).bad
    ensures !Parse(s).bad && Parse(s).msgs <= Parse(s + more).msgs
  {
    ParseAppend(s, more);
    if Parse(s).bad { BadStaysBad(s, more); }
  }

  lemma PartOfWire(received: seq<byte>, sent: seq<Message>)
    requires AllReadable(sent) && received <= EncodeAll(sent)
    ensures !Parse(received).bad && Parse(received).msgs <= sent
  {
    var more := EncodeAll(sent)[|received|..];
    WholeIsGood(sent);
    assert received + more == EncodeAll(sent);
    PrefixIsGood(received, more);
  }

  /** No part of a good stream closes the session by a bad header, and posts stay in order. */
  lemma NoBadHeader(s: Session, sent: seq<Message>)
    requires s.Valid() && AllReadable(sent) && s.h.received <= EncodeAll(sent)
    ensures s.h.closedBy != BadHeader && s.h.posted <= sent
    ensures Refused(s.h) ==> s.h.posted < sent
  {
    PartOfWire(s.h.received, sent);
    PostsAreTheStream(s);
  }

  /** Why a session may have been closed: each cause has its reason in what happened. */
  ghost predicate Explained(h: History, steps: nat, room: nat -> bool, closes: nat -> bool) {
    && (h.closedBy == QueueFull ==> exists i: nat :: i < steps && !room(i))
    && (h.closedBy == Caller ==> exists i: nat :: i < steps && closes(i))
    && h.closedBy != ReadFault
  }

  lemma StillExplained(h: History, k: History, i: nat, room: nat -> bool, closes: nat -> bool, full: Bucket)
    requires Explained(h, i, room, closes) && h.closedBy == Nobody && Onward(h, k, room(i), closes(i), full)
    ensures Explained(k, i + 1, room, closes)
  {
    if k.closedBy == QueueFull { assert !room(i); }
    if k.closedBy == Caller { assert closes(i); }
  }

  /** The n-th read delivers as many bytes as `cuts` says, or as were asked for, at time
      `times(n)`; `room` says whether the queue has room then, `closes` whether another thread
      closes the session. An open session ends with exactly `sent` posted. A closed one was
      closed by another thread, by the full queue, or for its rate: and for its rate exactly
      when its arrivals broke the window law. */
  method Feed(s: Session, sent: seq<Message>, cuts: nat -> nat, times: nat -> real,
              room: nat -> bool, closes: nat -> bool)
    requires s.Valid() && !s.closed && s.phase.ReadingHead? && s.h.received == [] && AllReadable(sent)
    requires forall i: nat :: s.h.clock <= times(i)
    requires forall i: nat, j: nat | i <= j :: times(i) <= times(j)
    modifies s, s.data
    ensures s.Valid() && s.h.posted <= sent && (Refused(s.h) ==> s.h.posted < sent)
    ensures !s.closed ==> s.h.posted == sent && s.h.pending == []
    ensures s.closed ==> s.h.closedBy in {OverBudget, QueueFull, Caller}
    ensures s.h.closedBy == OverBudget <==> !WindowLaw(s.h.arrivals)
    ensures s.h.closedBy == QueueFull ==> exists i: nat :: !room(i)
    ensures s.h.closedBy == Caller ==> exists i: nat :: closes(i)
  {
    var wire := EncodeAll(sent);
    var step, at := 0, 0;
    while at < |wire| && !s.closed
      invariant s.Valid() && at <= |wire| && s.h.received == wire[..at]
      invariant s.h.clock <= times(step)
      invariant !s.closed ==> !s.phase.NoRead?
      invariant Explained(s.h, step, room, closes)
      decreases |wire| - at
    {
      at := FeedSome(s, wire, at, cuts(step), step, times(step), room, closes);
      step := step + 1;
    }
    NoBadHeader(s, sent);
    BudgetClosesByLaw(s);
    if !s.closed {
      assert wire[..at] == wire;
      FramingRoundTrip(s, sent);
    }
  }

  method FeedSome(s: Session, wire: seq<byte>, at: nat, cut: nat, step: nat, now: real,
                  room: nat -> bool, closes: nat -> bool) returns (next: nat)
    requires s.Valid() && at < |wire| && s.h.received == wire[..at] && s.h.clock <= now
    requires !s.closed && !s.phase.NoRead? && Explained(s.h, step, room, closes)
    modifies s, s.data
    ensures s.Valid() && at < next <= |wire| && s.h.received == wire[..next] && s.h.clock == now
    ensures !s.closed ==> !s.phase.NoRead?
    ensures Explained(s.h, step + 1, room, closes)
  {
    ghost var before := s.h;
    var n := Size(cut, s.totalLen - s.readLen, |wire| - at);
    next := at + n;
    assert wire[..at] + wire[at..next] == wire[..next];
    s.OnReadSome(wire[at..next], now, room(step), closes(step));
    StillExplained(before, s.h, step, room, closes, s.full);
  }

  /** A read delivers at least a byte and no more than is asked for or there. */
  function Size(cut: nat, asked: int, there: int): (n: nat)
    requires asked > 0 && there > 0
    ensures 1 <= n <= asked && n <= there
  {
    var most := if asked < there then asked else there;
    if cut == 0 then 1 else if cut < most then cut else most
  }

  /** With room in the queue and nobody closing, the budget alone decides: the session is open
      and has posted exactly what was sent, unless its arrivals broke the window law. */
  method FeedUndisturbed(s: Session, sent: seq<Message>, cuts: nat -> nat, times: nat -> real)
    requires s.Valid() && !s.closed && s.phase.ReadingHead? && s.h.received == [] && AllReadable(sent)
    requires forall i: nat :: s.h.clock <= times(i)
    requires forall i: nat, j: nat | i <= j :: times(i) <= times(j)
    modifies s, s.data
    ensures s.Valid() && (s.closed <==> !WindowLaw(s.h.arrivals))
    ensures !s.closed ==> s.h.posted == sent
    ensures s.closed ==> s.h.closedBy == OverBudget && s.h.posted < sent
  {
    Feed(s, sent, cuts, times, _ => true, _ => false);
  }
}
