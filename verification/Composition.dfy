/** Results that hold across the parts: replies on the wire, pushes under every interleaving. */
module Composition {
  import Common
  import Framing
  import OffStrandSends
  import SendStream
  import SessionFeed
  import SessionReader
  import JsonText
  import Registry
  import MessageStore
  import TextDelivery

  /** A reply object no longer than a frame's body may be is never refused by `Send` for its
      size, and its frame is read back whole by a reader with the same limits as this server's. */
  lemma ReplyGetsThrough(reply: JsonText.Json, id: int, body: seq<Common.byte>, w: SendStream.Writer)
    requires reply.Obj? && |JsonText.Compact(reply)| <= Framing.MAX_LENGTH && |body| == |JsonText.Compact(reply)|
    requires 1 <= id <= Framing.SHORT_MAX
    ensures SendStream.TakenBy(w, body) <==> !w.closed && |w.que| < SendStream.MAX_SENDQUE
    ensures var m := Framing.Message(id, body);
            Framing.Parse(Framing.Frame(m)) == Framing.Parsed([m], false, [])
  {
    Framing.FrameRoundTrip(Framing.Message(id, body));
  }

  /** From end to end: when a part of what a writer has put on the wire has reached a session,
      in whatever pieces, what the session posted is a prefix of the sends the writer took, none
      of them altered; and all of them, once everything has arrived at an open session. */
  lemma SendsArePosted(w: SendStream.Writer, s: SessionReader.Session)
    requires SendStream.Inv(w) && Framing.AllReadable(w.Accepted())
    requires s.Valid() && s.h.received <= w.wire
    ensures s.h.posted <= w.Accepted() && s.h.closedBy != SessionReader.BadHeader
    ensures !s.closed && w.que == [] && s.h.received == w.wire ==> s.h.posted == w.Accepted()
  {
    SendStream.WireReadsBack(w);
    SessionReader.PostsAreTheStream(s);
    PartIsGood(s.h.received, w.wire);
  }

  lemma PartIsGood(part: seq<Common.byte>, wire: seq<Common.byte>)
    requires part <= wire && !Framing.Parse(wire).bad
    ensures !Framing.Parse(part).bad && Framing.Parse(part).msgs <= Framing.Parse(wire).msgs
  {
    assert part + wire[|part|..] == wire;
    SessionFeed.PrefixIsGood(part, wire[|part|..]);
  }

  /** And so after any interleaving of sends from any threads, writes and closes: what is
      posted is a prefix of all that was handed over on the strand; and all of it, once the
      queue is empty and everything has arrived, if both sessions are still open. */
  lemma AnySendsArePosted(run: seq<OffStrandSends.Event>, s: SessionReader.Session)
    requires OffStrandSends.Possible(OffStrandSends.START, run)
    requires Framing.AllReadable(OffStrandSends.End(OffStrandSends.START, run).writer.Accepted())
    requires s.Valid() && s.h.received <= OffStrandSends.End(OffStrandSends.START, run).writer.wire
    ensures var t := OffStrandSends.End(OffStrandSends.START, run);
            && s.h.posted <= OffStrandSends.Messages(t.offers)
            && (!s.closed && !t.writer.closed && t.writer.que == [] && s.h.received == t.writer.wire ==>
                  s.h.posted == OffStrandSends.Messages(t.offers))
  {
    var t := OffStrandSends.End(OffStrandSends.START, run);
    OffStrandSends.RunKeeps(OffStrandSends.START, run);
    SendsArePosted(t.writer, s);
    Prefixes(s.h.posted, t.writer.Accepted(), OffStrandSends.Messages(t.offers));
  }

  lemma Prefixes(a: seq<Framing.Message>, b: seq<Framing.Message>, c: seq<Framing.Message>)
    requires a <= b && b <= c
    ensures a <= c
  {
  }

  /** The online sessions as they are in a state of the registry. */
  function OnlineIn(s: Registry.State, current: set<Common.Sid>): TextDelivery.Online {
    TextDelivery.Online(s.users, map x | x in s.sessions :: s.sessions[x].uid, current)
  }

  /** Whatever logins, closes and cleanups have interleaved before it, the push of a committed
      message goes to a session whose user is the receiver stored with it. */
  lemma PushReachesReceiver(run: seq<Registry.Event>, current: set<Common.Sid>, fromuid: int,
                            s: TextDelivery.Submission, r: MessageStore.Record, route: TextDelivery.Route)
    requires Registry.Possible(Registry.START, run)
    requires r.touid == s.touid
    ensures var state := Registry.End(Registry.START, run);
            && TextDelivery.OnlineOk(OnlineIn(state, current))
            && forall e | e in TextDelivery.Deliver(r, s, fromuid, route, OnlineIn(state, current)) && e.Push? ::
                 && e.target in state.sessions && state.sessions[e.target].uid == r.touid
                 && e.target in current && e.body == TextDelivery.Notification(r)
  {
    Registry.MapIsSafe(run);
    var state := Registry.End(Registry.START, run);
    var online := OnlineIn(state, current);
    forall u | u in online.users ensures online.users[u] in online.uidOf && online.uidOf[online.users[u]] == u {
      assert state.users[u] in state.sessions;
    }
  }
}
