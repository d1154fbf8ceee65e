/** `ChatSync`: history, receipts, statuses, conversations and deletions, all answered from the
    database under one body limit. */
module ChatSync {
  import opened Common
  import opened Numbers
  import opened JsonText
  import opened ChatWire
  import opened Cursors

  const HISTORY := 1020
  const RECEIPT := 1022
  const STATUS := 1024
  const CONVERSATIONS := 1026
  const DELETE := 1044
  const DELETION_EVENTS := 1046

  /** The database calls a request may lead to; each answers with a JSON object. */
  datatype Query =
    | NoQuery
    | DeleteMessage(actor: int, message: nat, everyone: bool)
    | DeletionEvents(actor: int, after: nat)
    | ChatHistory(actor: int, peer: int, after: nat)
    | ChatConversations(actor: int, after: nat)
    | RecordReceipt(actor: int, message: nat, read: bool)
    | MessageStates(actor: int, ids: seq<string>)

  /** The tests every request must pass before its own fields are looked at. */
  predicate Decodable(actor: int, bodyLen: nat, req: Json) {
    && actor > 0 && bodyLen <= BODY_LIMIT && req.Obj?
    && Get(req, "request_id").Str? && IsUuid(Get(req, "request_id").text)
  }

  function Refusal(): Members {
    Member("error", Int(CHAT_DATA_INVALID), End)
  }

  function RefusalOf(requestId: string): Json {
    Obj(Put(Refusal(), "request_id", Str(requestId)))
  }

  lemma RefusalFits(requestId: string)
    requires IsUuid(requestId)
    ensures |Compact(Obj(Refusal()))| <= BODY_LIMIT && |Compact(RefusalOf(requestId))| <= BODY_LIMIT
    ensures Get(RefusalOf(requestId), "request_id") == Str(requestId)
    ensures Get(RefusalOf(requestId), "error") == Int(CHAT_DATA_INVALID)
  {
    PlainSyncNames();
    RefusalSize();
    UuidLength(requestId);
    var last := Member("request_id", Str(requestId), End);
    TwoMembers("error", Int(CHAT_DATA_INVALID), "request_id", Str(requestId));
    assert |"error"| != |"request_id"|;
    assert Put(End, "request_id", Str(requestId)) == last;
    assert Put(Refusal(), "request_id", Str(requestId)) == Member("error", Int(CHAT_DATA_INVALID), last);
    assert Lookup(last, "request_id") == Str(requestId);
  }

  lemma PlainSyncNames()
    ensures Plain("error") && Plain("request_id")
  {
  }

  lemma RefusalSize()
    ensures |Compact(Int(CHAT_DATA_INVALID))| == 4 && |Compact(Obj(Refusal()))| <= BODY_LIMIT
  {
    PlainSyncNames();
    FourDigits(CHAT_DATA_INVALID);
    Sized("error", Int(CHAT_DATA_INVALID), End);
    ObjectSize(Refusal());
  }

  lemma TwoMembers(a: string, u: Json, b: string, v: Json)
    requires Plain(a) && Plain(b) && !u.Noted? && !v.Noted?
    ensures |Compact(Obj(Member(a, u, Member(b, v, End))))| == 9 + |a| + |b| + |Compact(u)| + |Compact(v)|
  {
    var last := Member(b, v, End);
    Sized(b, v, End);
    Sized(a, u, last);
    ObjectSize(Member(a, u, last));
  }

  // ---- which query a request means ----

  predicate CursorAt(req: Json, name: string) {
    Get(req, name).Str? && IsCursor(Get(req, name).text)
  }

  function Cursor(req: Json, name: string): nat
    requires CursorAt(req, name)
  {
    Value(Get(req, name).text)
  }

  predicate IsPeer(v: Json, actor: int) {
    IsIntValue(v) && v.num > 0 && v.num != actor
  }

  predicate IsIdList(v: Json) {
    v.Arr? && 1 <= |v.items| <= 4
    && forall i | 0 <= i < |v.items| :: v.items[i].Str? && 1 <= |v.items[i].text| <= 64
  }

  function Texts(items: seq<Json>): seq<string>
    requires forall i | 0 <= i < |items| :: items[i].Str?
  {
    if items == [] then [] else Texts(items[..|items| - 1]) + [items[|items| - 1].text]
  }

  function QueryOf(id: int, actor: int, req: Json): Query {
    if id == DELETE then
      if CursorAt(req, "message_id") && Cursor(req, "message_id") != 0 && Get(req, "for_everyone").Bool? then
        DeleteMessage(actor, Cursor(req, "message_id"), Get(req, "for_everyone").truth)
      else NoQuery
    else if id == DELETION_EVENTS then
      if CursorAt(req, "after_event") then DeletionEvents(actor, Cursor(req, "after_event")) else NoQuery
    else if id == HISTORY then
      if IsPeer(Get(req, "peer_uid"), actor) && CursorAt(req, "after_seq") then
        ChatHistory(actor, Get(req, "peer_uid").num, Cursor(req, "after_seq"))
      else NoQuery
    else if id == CONVERSATIONS then
      if CursorAt(req, "after_thread") then ChatConversations(actor, Cursor(req, "after_thread")) else NoQuery
    else if id == RECEIPT then
      if CursorAt(req, "message_id") && Cursor(req, "message_id") != 0
         && Get(req, "receipt") in {Str("delivered"), Str("read")} then
        RecordReceipt(actor, Cursor(req, "message_id"), Get(req, "receipt") == Str("read"))
      else NoQuery
    else if id == STATUS && IsIdList(Get(req, "msgids")) then
      MessageStates(actor, Texts(Get(req, "msgids").items))
    else NoQuery
  }

  /** What every query keeps to: the caller as actor, cursors of 64 bits, messages that exist
      by number, a peer who is somebody else, one to four short ids. */
  predicate Sound(q: Query, actor: int) {
    match q
    case NoQuery => true
    case DeleteMessage(a, message, _) => a == actor && 0 < message <= UINT64_MAX
    case DeletionEvents(a, after) => a == actor && after <= UINT64_MAX
    case ChatHistory(a, peer, after) => a == actor && 0 < peer <= INT_MAX && peer != actor && after <= UINT64_MAX
    case ChatConversations(a, after) => a == actor && after <= UINT64_MAX
    case RecordReceipt(a, message, _) => a == actor && 0 < message <= UINT64_MAX
    case MessageStates(a, ids) =>
      a == actor && 1 <= |ids| <= 4 && forall i | 0 <= i < |ids| :: 1 <= |ids[i]| <= 64
  }

  lemma {:induction false} TextsAre(items: seq<Json>)
    requires forall i | 0 <= i < |items| :: items[i].Str?
    ensures |Texts(items)| == |items| && forall i | 0 <= i < |items| :: Texts(items)[i] == items[i].text
  {
    if items != [] { TextsAre(items[..|items| - 1]); }
  }

  /** No request, however malformed, leads to any other database call. */
  lemma QueriesAreSound(id: int, actor: int, req: Json)
    ensures Sound(QueryOf(id, actor, req), actor)
  {
    if id == STATUS && IsIdList(Get(req, "msgids")) {
      TextsAre(Get(req, "msgids").items);
    }
  }

  /** The request carries this query: its id and fields say so, and nothing is malformed. */
  predicate Carries(id: int, req: Json, q: Query) {
    match q
    case NoQuery => false
    case DeleteMessage(_, message, everyone) =>
      id == 1044 && Denotes(Get(req, "message_id"), message) && Get(req, "for_everyone") == Bool(everyone)
    case DeletionEvents(_, after) => id == 1046 && Denotes(Get(req, "after_event"), after)
    case ChatHistory(_, peer, after) =>
      id == 1020 && Get(req, "peer_uid") == Int(peer) && Denotes(Get(req, "after_seq"), after)
    case ChatConversations(_, after) => id == 1026 && Denotes(Get(req, "after_thread"), after)
    case RecordReceipt(_, message, read) =>
      id == 1022 && Denotes(Get(req, "message_id"), message)
      && Get(req, "receipt") == Str(if read then "read" else "delivered")
    case MessageStates(_, ids) => id == 1024 && Get(req, "msgids") == Arr(Strings(ids))
  }

  /** A string of 1 to 20 digits for this number. */
  predicate Denotes(v: Json, n: nat) {
    v.Str? && 1 <= |v.text| <= 20 && AllDigits(v.text) && Value(v.text) == n
  }

  /** A request leads to a database call if and only if it carries it and the call is sound. */
  lemma QueryIff(id: int, actor: int, req: Json, q: Query)
    requires !q.NoQuery?
    ensures QueryOf(id, actor, req) == q <==> Sound(q, actor) && Carries(id, req, q)
  {
    if QueryOf(id, actor, req) == q {
      QueriesAreSound(id, actor, req);
      QueryIsCarried(id, actor, req);
    }
    if Sound(q, actor) && Carries(id, req, q) {
      CarriedIsQuery(id, actor, req, q);
    }
  }

  lemma QueryIsCarried(id: int, actor: int, req: Json)
    ensures QueryOf(id, actor, req).NoQuery? || Carries(id, req, QueryOf(id, actor, req))
  {
    if id == STATUS && IsIdList(Get(req, "msgids")) {
      var items := Get(req, "msgids").items;
      TextsAre(items);
      assert Strings(Texts(items)) == items;
    }
  }

  lemma CarriedIsQuery(id: int, actor: int, req: Json, q: Query)
    requires Sound(q, actor) && Carries(id, req, q)
    ensures QueryOf(id, actor, req) == q
  {
    match q
    case RecordReceipt(_, _, _) => assert |"read"| != |"delivered"|;
    case MessageStates(_, ids) => SameTexts(ids);
    case _ =>
  }

  function Strings(ids: seq<string>): (items: seq<Json>)
    ensures |items| == |ids| && forall i | 0 <= i < |ids| :: items[i] == Str(ids[i])
  {
    seq(|ids|, i requires 0 <= i < |ids| => Str(ids[i]))
  }

  /** A request that asks for a query, and its id. */
  function RequestFor(q: Query): (int, Json) {
    match q
    case NoQuery => (STATUS, Null)
    case DeleteMessage(_, message, everyone) =>
      (DELETE, Obj(Member("message_id", Str(Digits(message)), Member("for_everyone", Bool(everyone), End))))
    case DeletionEvents(_, after) => (DELETION_EVENTS, Obj(Member("after_event", Str(Digits(after)), End)))
    case ChatHistory(_, peer, after) =>
      (HISTORY, Obj(Member("peer_uid", Int(peer), Member("after_seq", Str(Digits(after)), End))))
    case ChatConversations(_, after) => (CONVERSATIONS, Obj(Member("after_thread", Str(Digits(after)), End)))
    case RecordReceipt(_, message, read) =>
      var state := Str(if read then "read" else "delivered");
      (RECEIPT, Obj(Member("message_id", Str(Digits(message)), Member("receipt", state, End))))
    case MessageStates(_, ids) => (STATUS, Obj(Member("msgids", Arr(Strings(ids)), End)))
  }

  lemma PairGet(a: string, u: Json, b: string, v: Json)
    requires |a| != |b|
    ensures Get(Obj(Member(a, u, Member(b, v, End))), a) == u
    ensures Get(Obj(Member(a, u, Member(b, v, End))), b) == v
  {
    assert Lookup(Member(b, v, End), b) == v;
  }

  lemma OneGet(a: string, u: Json)
    ensures Get(Obj(Member(a, u, End)), a) == u
  {
  }

  lemma SameTexts(ids: seq<string>)
    ensures Texts(Strings(ids)) == ids
  {
    TextsAre(Strings(ids));
  }

  lemma CursorGet(req: Json, name: string, n: nat)
    requires n <= UINT64_MAX && Get(req, name) == Str(Digits(n))
    ensures CursorAt(req, name) && Cursor(req, name) == n
  {
    CursorRoundTrip(n);
  }

  lemma AsksToDelete(q: Query)
    requires q.DeleteMessage? && Sound(q, q.actor)
    ensures QueryOf(RequestFor(q).0, q.actor, RequestFor(q).1) == q
  {
    PairGet("message_id", Str(Digits(q.message)), "for_everyone", Bool(q.everyone));
    CursorGet(RequestFor(q).1, "message_id", q.message);
  }

  lemma AsksForDeletions(q: Query)
    requires q.DeletionEvents? && Sound(q, q.actor)
    ensures QueryOf(RequestFor(q).0, q.actor, RequestFor(q).1) == q
  {
    OneGet("after_event", Str(Digits(q.after)));
    CursorGet(RequestFor(q).1, "after_event", q.after);
  }

  lemma AsksForHistory(q: Query)
    requires q.ChatHistory? && Sound(q, q.actor)
    ensures QueryOf(RequestFor(q).0, q.actor, RequestFor(q).1) == q
  {
    PairGet("peer_uid", Int(q.peer), "after_seq", Str(Digits(q.after)));
    CursorGet(RequestFor(q).1, "after_seq", q.after);
  }

  lemma AsksForConversations(q: Query)
    requires q.ChatConversations? && Sound(q, q.actor)
    ensures QueryOf(RequestFor(q).0, q.actor, RequestFor(q).1) == q
  {
    OneGet("after_thread", Str(Digits(q.after)));
    CursorGet(RequestFor(q).1, "after_thread", q.after);
  }

  lemma AsksForReceipt(q: Query)
    requires q.RecordReceipt? && Sound(q, q.actor)
    ensures QueryOf(RequestFor(q).0, q.actor, RequestFor(q).1) == q
  {
    PairGet("message_id", Str(Digits(q.message)), "receipt", Str(if q.read then "read" else "delivered"));
    CursorGet(RequestFor(q).1, "message_id", q.message);
    assert |"read"| != |"delivered"|;
  }

  lemma AsksForStates(q: Query)
    requires q.MessageStates? && Sound(q, q.actor)
    ensures QueryOf(RequestFor(q).0, q.actor, RequestFor(q).1) == q
  {
    OneGet("msgids", Arr(Strings(q.ids)));
    SameTexts(q.ids);
  }

  /** And each of these calls can be asked for, with every argument it may take. */
  lemma EveryQueryHasItsRequest(q: Query, actor: int)
    requires Sound(q, actor)
    ensures QueryOf(RequestFor(q).0, actor, RequestFor(q).1) == q
  {
    match q
    case NoQuery =>
    case DeleteMessage(_, _, _) => AsksToDelete(q);
    case DeletionEvents(_, _) => AsksForDeletions(q);
    case ChatHistory(_, _, _) => AsksForHistory(q);
    case ChatConversations(_, _) => AsksForConversations(q);
    case RecordReceipt(_, _, _) => AsksForReceipt(q);
    case MessageStates(_, _) => AsksForStates(q);
  }

  /** The request fields an answer repeats, with the comments the parser found at them. */
  function Echoing(q: Query, req: Json, notes: string -> Note, rsp: Json): Json {
    match q
    case DeletionEvents(_, _) => Copied(rsp, req, notes, "after_event")
    case ChatHistory(_, _, _) => Copied(Copied(rsp, req, notes, "peer_uid"), req, notes, "after_seq")
    case ChatConversations(_, _) => Copied(rsp, req, notes, "after_thread")
    case _ => rsp
  }

  /** `rsp[name] = req[name]`, which copies the value's comments. */
  function Copied(rsp: Json, req: Json, notes: string -> Note, name: string): Json {
    Set(rsp, name, Noted(Get(req, name), notes(name)))
  }

  /** The last two steps: stamp the request id, and give up on an answer that is too long. */
  function Capped(rsp: Json, requestId: string): Json {
    var stamped := Set(rsp, "request_id", Str(requestId));
    if |Compact(stamped)| > BODY_LIMIT then RefusalOf(requestId) else stamped
  }

  /** The field is one that this query's answer repeats. */
  predicate Repeats(q: Query, name: string) {
    || (q.DeletionEvents? && name == "after_event")
    || (q.ChatHistory? && name in {"peer_uid", "after_seq"})
    || (q.ChatConversations? && name == "after_thread")
  }

  /** The answer before it is capped holds the request's id, the repeated fields with their
      comments, and otherwise what the database said. */
  lemma StampedSays(q: Query, req: Json, notes: string -> Note, answer: Members, requestId: string, name: string)
    ensures Get(Set(Echoing(q, req, notes, Obj(answer)), "request_id", Str(requestId)), name)
         == if name == "request_id" then Str(requestId)
            else if Repeats(q, name) then Noted(Get(req, name), notes(name))
            else Lookup(answer, name)
  {
    var echoed := Echoing(q, req, notes, Obj(answer));
    LookupPut(echoed.members, "request_id", Str(requestId), name);
    match q
    case DeletionEvents(_, _) =>
      LookupPut(answer, "after_event", Noted(Get(req, "after_event"), notes("after_event")), name);
    case ChatConversations(_, _) =>
      LookupPut(answer, "after_thread", Noted(Get(req, "after_thread"), notes("after_thread")), name);
    case ChatHistory(_, _, _) =>
      var peer := Copied(Obj(answer), req, notes, "peer_uid");
      LookupPut(answer, "peer_uid", Noted(Get(req, "peer_uid"), notes("peer_uid")), name);
      LookupPut(peer.members, "after_seq", Noted(Get(req, "after_seq"), notes("after_seq")), name);
      assert "peer_uid" != "after_seq" by { assert |"peer_uid"| != |"after_seq"|; }
    case _ =>
  }

  method IdList(v: Json) returns (ok: bool, ids: seq<string>)
    ensures ok <==> IsIdList(v)
    ensures ok ==> ids == Texts(v.items)
  {
    ok, ids := false, [];
    if !v.Arr? || |v.items| == 0 || |v.items| > 4 { return; }
    var i := 0;
    while i < |v.items|
      invariant 0 <= i <= |v.items|
      invariant forall k | 0 <= k < i :: v.items[k].Str? && 1 <= |v.items[k].text| <= 64
      invariant ids == Texts(v.items[..i])
    {
      var x := v.items[i];
      if !x.Str? || |x.text| == 0 || |x.text| > 64 { return; }
      assert v.items[..i + 1][..i] == v.items[..i];
      ids, i := ids + [x.text], i + 1;
    }
    ok := true;
    assert v.items[..|v.items|] == v.items;
  }

  /** The branches that pick the query. */
  method Decide(id: int, actor: int, req: Json) returns (q: Query)
    ensures q == QueryOf(id, actor, req)
  {
    q := NoQuery;
    if id == DELETE {
      var ok, n := Number(Get(req, "message_id"));
      var flag := Get(req, "for_everyone");
      if !ok || n == 0 || !flag.Bool? { return; }
      q := DeleteMessage(actor, n, flag.truth);
    } else if id == DELETION_EVENTS {
      var ok, n := Number(Get(req, "after_event"));
      if !ok { return; }
      q := DeletionEvents(actor, n);
    } else if id == HISTORY {
      var peer := Get(req, "peer_uid");
      if !IsIntValue(peer) || peer.num <= 0 || peer.num == actor { return; }
      var ok, n := Number(Get(req, "after_seq"));
      if !ok { return; }
      q := ChatHistory(actor, peer.num, n);
    } else if id == CONVERSATIONS {
      var ok, n := Number(Get(req, "after_thread"));
      if !ok { return; }
      q := ChatConversations(actor, n);
    } else if id == RECEIPT {
      var ok, n := Number(Get(req, "message_id"));
      var state := Get(req, "receipt");
      if !ok || n == 0 || !state.Str? { return; }
      if state.text != "delivered" && state.text != "read" { return; }
      q := RecordReceipt(actor, n, state.text == "read");
    } else if id == STATUS {
      var ok, ids := IdList(Get(req, "msgids"));
      if !ok { return; }
      q := MessageStates(actor, ids);
    }
  }

  /** The handler, whatever the database answers: the reply never breaks the body limit and
      always carries the id of a request that had one. */
  method Sync(id: int, actor: int, bodyLen: nat, req: Json, notes: string -> Note, database: Query -> Members)
      returns (rsp: Json)
    requires id in {HISTORY, RECEIPT, STATUS, CONVERSATIONS, DELETE, DELETION_EVENTS}
    ensures |Compact(rsp)| <= 1800
    ensures Decodable(actor, bodyLen, req)
            <==> && actor > 0 && bodyLen <= 1800 && req.Obj?
                 && Get(req, "request_id").Str? && IsUuid(Get(req, "request_id").text)
    ensures Decodable(actor, bodyLen, req) ==> Get(rsp, "request_id") == Get(req, "request_id")
    // error 1103 without asking the database, or for an answer that is too long
    ensures !Decodable(actor, bodyLen, req) || QueryOf(id, actor, req).NoQuery? ==> Get(rsp, "error") == Int(1103)
    ensures Decodable(actor, bodyLen, req) && !QueryOf(id, actor, req).NoQuery? ==>
              var q := QueryOf(id, actor, req);
              var stamped := Set(Echoing(q, req, notes, Obj(database(q))), "request_id", Get(req, "request_id"));
              if |Compact(stamped)| <= 1800 then rsp == stamped else Get(rsp, "error") == Int(1103)
    ensures rsp ==
      if !Decodable(actor, bodyLen, req) then Obj(Refusal())
      else
        var requestId, q := Get(req, "request_id").text, QueryOf(id, actor, req);
        if q.NoQuery? then RefusalOf(requestId) else Capped(Echoing(q, req, notes, Obj(database(q))), requestId)
  {
    RefusalSize();
    rsp := Obj(Refusal());
    if actor <= 0 || bodyLen > BODY_LIMIT || !req.Obj? { return; }
    var name := Get(req, "request_id");
    if !name.Str? { return; }
    var isUuid := Uuid(name.text);
    if !isUuid { return; }
    RefusalFits(name.text);
    rsp := RefusalOf(name.text);
    var q := Decide(id, actor, req);
    if q.NoQuery? { return; }
    rsp := Echoing(q, req, notes, Obj(database(q)));
    LookupPut(if rsp.Obj? then rsp.members else End, "request_id", name, "request_id");
    rsp := Set(rsp, "request_id", name);
    if |Compact(rsp)| > BODY_LIMIT {
      rsp := RefusalOf(name.text);
    }
  }
}
