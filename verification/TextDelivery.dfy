/** Submitting a text message and pushing it to its receiver, on this server or, by RPC, on
    another. */
module TextDelivery {
  import opened Common
  import opened Numbers
  import opened JsonText
  import opened ChatWire
  import opened MessageStore

  /** Escaped content, with the braces and name around it, may take this much. */
  const ENCODED_LIMIT := 850

  /** What a handler does to the outside, in order. */
  datatype Effect =
    | Respond(body: Json)
    | Push(target: Sid, body: Json)
    | Rpc(server: string, fromuid: int, touid: int, msgid: string, content: string)

  /** The online sessions as `GetSession` finds them: who is mapped, which user each session
      is, and whose stored token digest still is the session's. */
  datatype Online = Online(users: map<int, Sid>, uidOf: map<Sid, int>, current: set<Sid>)

  /** The map names each user's own session: the registry's invariant. */
  ghost predicate OnlineOk(o: Online) {
    forall u | u in o.users :: o.users[u] in o.uidOf && o.uidOf[o.users[u]] == u
  }

  function GetSession(o: Online, uid: int): Option<Sid> {
    if uid in o.users && o.users[uid] in o.current then Some(o.users[uid]) else None
  }

  function Notification(r: Record): Json {
    Obj(Member("error", Int(SUCCESS), Member("message", Obj(RecordMembers(r)), End)))
  }

  function Acknowledgement(r: Record): Json {
    Set(Obj(Without(RecordMembers(r), "content")), "error", Int(SUCCESS))
  }

  function ErrorReply(error: int, fromuid: int, touid: int, msgid: string): Json {
    Obj(Member("error", Int(error), Member("fromuid", Int(fromuid),
        Member("msgid", Str(msgid), Member("touid", Int(touid), End)))))
  }

  // ---- sizes ----

  lemma PlainNotificationNames()
    ensures Plain("error") && Plain("message") && Plain("content")
  {
  }

  /** A push of a record whose content kept to the encoded limit fits a body. */
  lemma NotificationFits(r: Record)
    requires RecordOk(r) && |Quoted(r.content)| <= ENCODED_LIMIT
    ensures |Compact(Notification(r))| <= BODY_LIMIT
  {
    PlainNotificationNames();
    RecordSize(r);
    ObjectSize(RecordMembers(r));
    var message := Obj(RecordMembers(r));
    Sized("message", message, End);
    Sized("error", Int(SUCCESS), Member("message", message, End));
    ObjectSize(Member("error", Int(SUCCESS), Member("message", message, End)));
  }

  lemma PlainErrorNames()
    ensures Plain("error") && Plain("fromuid") && Plain("msgid") && Plain("touid")
  {
  }

  lemma ErrorReplyFits(error: int, fromuid: int, touid: int, msgid: string)
    requires IsInt(error) && IsInt(fromuid) && IsInt(touid) && (msgid == "" || IsUuid(msgid))
    ensures |Compact(ErrorReply(error, fromuid, touid, msgid))| <= BODY_LIMIT
  {
    PlainErrorNames();
    SignedLength(error);
    SignedLength(fromuid);
    SignedLength(touid);
    if msgid != "" { UuidLength(msgid); }
    var c := Member("touid", Int(touid), End);
    var b := Member("msgid", Str(msgid), c);
    var a := Member("fromuid", Int(fromuid), b);
    Sized("touid", c.value, End);
    Sized("msgid", b.value, c);
    Sized("fromuid", a.value, b);
    Sized("error", Int(error), a);
    ObjectSize(Member("error", Int(error), a));
  }

  lemma AcknowledgementFits(r: Record)
    requires RecordOk(r) && |Quoted(r.content)| <= ENCODED_LIMIT
    ensures |Compact(Acknowledgement(r))| <= BODY_LIMIT
  {
    RecordSize(r);
    PlainErrorNames();
    var ms := Without(RecordMembers(r), "content");
    WithoutShrinks(RecordMembers(r), "content");
    PutGrows(ms, "error", Int(SUCCESS));
    ObjectSize(Put(ms, "error", Int(SUCCESS)));
  }

  lemma EncodedSize(content: string)
    ensures |Compact(Obj(Member("content", Str(content), End)))| == 12 + |Quoted(content)|
  {
    PlainNotificationNames();
    ObjectSize(Member("content", Str(content), End));
    Sized("content", Str(content), End);
  }

  /** The acknowledgement shows the record without its content, and error 0. */
  lemma AcknowledgementSays(r: Record)
    ensures Shows(Acknowledgement(r), r)
    ensures Get(Acknowledgement(r), "error") == Int(0) && Get(Acknowledgement(r), "content") == Null
  {
    RecordSays(r);
    assert "error" != "content" by { assert |"error"| != |"content"|; }
    NamesDiffer();
    var ms := Without(RecordMembers(r), "content");
    forall name
      ensures Get(Acknowledgement(r), name)
           == if name == "error" then Int(0) else if name == "content" then Null else Lookup(RecordMembers(r), name)
    {
      LookupPut(ms, "error", Int(SUCCESS), name);
      LookupWithout(RecordMembers(r), "content", name);
    }
  }

  /** A push shows the whole record, under `message`. */
  lemma NotificationSays(r: Record)
    ensures Get(Notification(r), "error") == Int(0)
    ensures var message := Get(Notification(r), "message");
            Shows(message, r) && Get(message, "content") == Str(r.content)
  {
    RecordSays(r);
    var message := Obj(RecordMembers(r));
    assert |"error"| != |"message"|;
    assert Lookup(Member("message", message, End), "message") == message;
  }

  // ---- submission ----

  datatype Submission = Submission(touid: int, msgid: string, content: string)

  /** The request's shape, before any value in it is judged. */
  function Decode(fromuid: int, bodyLen: nat, request: Json): Option<Submission> {
    var texts := Get(request, "text_array");
    if fromuid > 0 && bodyLen <= BODY_LIMIT && request.Obj? && IsIntValue(Get(request, "touid"))
       && texts.Arr? && |texts.items| == 1 && texts.items[0].Obj?
       && Get(texts.items[0], "msgid").Str? && Get(texts.items[0], "content").Str?
    then
      var id, content := Get(texts.items[0], "msgid").text, Get(texts.items[0], "content").text;
      Some(Submission(Get(request, "touid").num, id, content))
    else None
  }

  /** A client's request to send a text. */
  function TextMessage(touid: int, msgid: string, content: string): Json {
    Obj(Member("text_array", Arr([Obj(Member("content", Str(content), Member("msgid", Str(msgid), End)))]),
        Member("touid", Int(touid), End)))
  }

  /** It is read as such, in any body short enough, if its receiver is a 32-bit number. */
  lemma TextMessageIsRead(fromuid: int, bodyLen: nat, touid: int, msgid: string, content: string)
    ensures Decode(fromuid, bodyLen, TextMessage(touid, msgid, content))
         == if fromuid > 0 && bodyLen <= 1800 && -0x8000_0000 <= touid <= 0x7FFF_FFFF
            then Some(Submission(touid, msgid, content)) else None
  {
    var item := Obj(Member("content", Str(content), Member("msgid", Str(msgid), End)));
    var request := TextMessage(touid, msgid, content);
    assert |"content"| != |"msgid"| && |"text_array"| != |"touid"|;
    assert Lookup(Member("msgid", Str(msgid), End), "msgid") == Str(msgid);
    assert Lookup(Member("touid", Int(touid), End), "touid") == Int(touid);
    assert Get(item, "content") == Str(content) && Get(item, "msgid") == Str(msgid);
    assert Get(request, "text_array") == Arr([item]) && Get(request, "touid") == Int(touid);
  }

  /** And a request is read as a submission only if it carries exactly one text and says so. */
  lemma DecodeIff(fromuid: int, bodyLen: nat, request: Json, s: Submission)
    ensures Decode(fromuid, bodyLen, request) == Some(s)
            <==> && fromuid > 0 && bodyLen <= 1800 && request.Obj?
                 && Get(request, "touid") == Int(s.touid) && -0x8000_0000 <= s.touid <= 0x7FFF_FFFF
                 && Get(request, "text_array").Arr? && |Get(request, "text_array").items| == 1
                 && var item := Get(request, "text_array").items[0];
                    item.Obj? && Get(item, "msgid") == Str(s.msgid) && Get(item, "content") == Str(s.content)
  {
  }

  /** The values that may go to the database. */
  predicate Acceptable(fromuid: int, s: Submission) {
    s.touid > 0 && s.touid != fromuid && Text(s.msgid, s.content) && 12 + |Quoted(s.content)| <= ENCODED_LIMIT
  }

  /** Where the receiver is, as far as Redis says, and whether the push can be made at all. */
  datatype Route = Route(server: Option<string>, self: string, broken: bool)

  /** What submission does after the commit: push here, ask another server, or leave it to the
      next history sync. */
  function Deliver(r: Record, s: Submission, fromuid: int, route: Route, online: Online): seq<Effect> {
    if route.broken || route.server.None? then []
    else if route.server.value == route.self then
      match GetSession(online, s.touid)
      case Some(x) => [Push(x, Notification(r))]
      case None => []
    else [Rpc(route.server.value, fromuid, s.touid, s.msgid, s.content)]
  }

  /** The message the database holds for this sender and id is this one. */
  ghost predicate Committed(db: Table, fromuid: int, s: Submission, r: Record) {
    && Key(fromuid, s.msgid) in db && db[Key(fromuid, s.msgid)] == r
    && r.fromuid == fromuid && r.touid == s.touid && Fold(r.msgid) == Fold(s.msgid)
    && r.content == if r.status == 0 then s.content else ""
  }

  ghost predicate IsCommitted(db: Table, fromuid: int, s: Submission) {
    Key(fromuid, s.msgid) in db && Committed(db, fromuid, s, db[Key(fromuid, s.msgid)])
  }

  /** Exactly this submission was added. */
  ghost predicate AddedOnly(db: Table, after: Table, fromuid: int, s: Submission) {
    && Key(fromuid, s.msgid) !in db && IsCommitted(after, fromuid, s)
    && after == db[Key(fromuid, s.msgid) := after[Key(fromuid, s.msgid)]]
  }

  /** What a success is: the acknowledgement of the committed record, then its delivery. */
  ghost predicate Delivers(effects: seq<Effect>, after: Table, fromuid: int, s: Submission,
                           route: Route, online: Online)
  {
    && IsCommitted(after, fromuid, s)
    && var r := after[Key(fromuid, s.msgid)];
       effects == [Respond(Acknowledgement(r))] + Deliver(r, s, fromuid, route, online)
  }

  /** What a failure is: one response, and nothing stored; or, when the database did not answer
      after its commit, an error about a message that is stored all the same. */
  ghost predicate Fails(effects: seq<Effect>, db: Table, after: Table, fromuid: int, s: Submission) {
    && |effects| == 1
    && (after == db || (AddedOnly(db, after, fromuid, s)
                        && effects == [Respond(ErrorReply(CHAT_DATABASE_FAILED, fromuid, s.touid, s.msgid))]))
  }

  /** One response, first; whatever follows is no response. */
  ghost predicate OneResponse(effects: seq<Effect>) {
    effects != [] && effects[0].Respond? && forall i | 1 <= i < |effects| :: !effects[i].Respond?
  }

  /** A push carries a stored record, to a session of its receiver, and fits a body. */
  ghost predicate PushOk(e: Effect, db: Table, online: Online) {
    e.Push? ==>
      && e.target in online.uidOf && |Compact(e.body)| <= BODY_LIMIT
      && exists k :: k in db && e.body == Notification(db[k]) && online.uidOf[e.target] == db[k].touid
  }

  /** No response breaks the body limit. */
  predicate AllFit(effects: seq<Effect>) {
    forall i | 0 <= i < |effects| && effects[i].Respond? :: |Compact(effects[i].body)| <= BODY_LIMIT
  }

  predicate Succeeds(e: Effect) {
    e.Respond? && Get(e.body, "error") == Int(SUCCESS)
  }

  method DealChatTextMsg(fromuid: int, bodyLen: nat, request: Json, db: Table, outage: bool, verdict: Verdict,
                         route: Route, online: Online) returns (effects: seq<Effect>, after: Table)
    requires TableOk(db) && VerdictOk(verdict) && OnlineOk(online) && IsInt(fromuid)
    // exactly one response, before anything else, and nothing committed is ever lost
    ensures OneResponse(effects) && AllFit(effects)
    ensures TableOk(after) && forall k | k in db :: k in after && after[k] == db[k]
    // error 0 exactly when the message is committed and the database answered
    ensures Succeeds(effects[0]) <==>
              var s := Decode(fromuid, bodyLen, request);
              && s.Some? && Acceptable(fromuid, s.value) && IsCommitted(after, fromuid, s.value)
              && Answers(db, fromuid, s.value.msgid, outage, verdict)
    ensures Succeeds(effects[0]) ==>
              Delivers(effects, after, fromuid, Decode(fromuid, bodyLen, request).value, route, online)
    ensures !Succeeds(effects[0]) ==>
              var s := Decode(fromuid, bodyLen, request);
              |effects| == 1 && (after == db || (s.Some? && Fails(effects, db, after, fromuid, s.value)))
    // the acknowledged id is the submitted one exactly when it was not used in another spelling
    ensures Succeeds(effects[0]) ==>
              var id := Decode(fromuid, bodyLen, request).value.msgid;
              Get(effects[0].body, "msgid") == Str(id) <==> !OtherSpelling(db, fromuid, id)
    // an error for a stored message: exactly when it was admitted but not read back
    ensures !Succeeds(effects[0]) && after != db <==>
              var s := Decode(fromuid, bodyLen, request);
              s.Some? && Acceptable(fromuid, s.value) && CommitsUnread(db, fromuid, s.value.msgid, outage, verdict)
    // a local push carries a stored record, to a session of its receiver, and fits a body
    ensures forall i | 0 <= i < |effects| :: PushOk(effects[i], after, online)
    // which error, naming whom
    ensures Decode(fromuid, bodyLen, request).None? ==> effects == [Respond(ErrorReply(1103, fromuid, 0, ""))]
    ensures Decode(fromuid, bodyLen, request).Some? && !Succeeds(effects[0]) ==>
              var s := Decode(fromuid, bodyLen, request).value;
              effects == [Respond(ErrorReply(ErrorOf(fromuid, s, db, outage, verdict), fromuid, s.touid,
                                             if IsUuid(s.msgid) then s.msgid else ""))]
  {
    after := db;
    effects := Refused(CHAT_DATA_INVALID, fromuid, 0, "");
    if fromuid <= 0 || bodyLen > BODY_LIMIT || !request.Obj? { return; }
    var to, texts := Get(request, "touid"), Get(request, "text_array");
    if !IsIntValue(to) || !texts.Arr? || |texts.items| != 1 || !texts.items[0].Obj? { return; }
    var id, text := Get(texts.items[0], "msgid"), Get(texts.items[0], "content");
    if !id.Str? || !text.Str? { return; }

    var s := Submission(to.num, id.text, text.text);
    assert Decode(fromuid, bodyLen, request) == Some(s);
    effects, after := Submit(fromuid, s, db, outage, verdict, route, online);
  }

  /** The error of a submission that does not succeed: 1103 for what may not be stored or is
      stored differently, 1104 when the database does not answer, or the store's own verdict. */
  function ErrorOf(fromuid: int, s: Submission, db: Table, outage: bool, verdict: Verdict): int {
    if s.touid <= 0 || s.touid == fromuid || !IsUuid(s.msgid) || !(1 <= |s.content| <= 512)
       || |Compact(Obj(Member("content", Str(s.content), End)))| > 850 then 1103
    else if outage then 1104
    else if Key(fromuid, s.msgid) in db then 1103
    else if verdict.Refuse? then verdict.error
    else 1104
  }

  method Submit(fromuid: int, s: Submission, db: Table, outage: bool, verdict: Verdict,
                route: Route, online: Online) returns (effects: seq<Effect>, after: Table)
    requires TableOk(db) && VerdictOk(verdict) && OnlineOk(online) && 0 < fromuid <= INT_MAX && IsInt(s.touid)
    ensures OneResponse(effects) && AllFit(effects)
    ensures TableOk(after) && forall k | k in db :: k in after && after[k] == db[k]
    ensures Succeeds(effects[0]) <==>
              Acceptable(fromuid, s) && IsCommitted(after, fromuid, s) && Answers(db, fromuid, s.msgid, outage, verdict)
    ensures Succeeds(effects[0]) ==> Delivers(effects, after, fromuid, s, route, online)
    ensures !Succeeds(effects[0]) ==> Fails(effects, db, after, fromuid, s)
    ensures Succeeds(effects[0]) ==>
              (Get(effects[0].body, "msgid") == Str(s.msgid) <==> !OtherSpelling(db, fromuid, s.msgid))
    ensures !Succeeds(effects[0]) && after != db
            <==> Acceptable(fromuid, s) && CommitsUnread(db, fromuid, s.msgid, outage, verdict)
    ensures forall i | 0 <= i < |effects| :: PushOk(effects[i], after, online)
    ensures !Succeeds(effects[0]) ==>
              effects == [Respond(ErrorReply(ErrorOf(fromuid, s, db, outage, verdict), fromuid, s.touid,
                                             if IsUuid(s.msgid) then s.msgid else ""))]
  {
    var isUuid := Uuid(s.msgid);
    var shownId := if isUuid then s.msgid else "";
    EncodedSize(s.content);
    var encoded := Compact(Obj(Member("content", Str(s.content), End)));
    if s.touid <= 0 || s.touid == fromuid || !Text(s.msgid, s.content) || |encoded| > ENCODED_LIMIT {
      effects := Refused(CHAT_DATA_INVALID, fromuid, s.touid, shownId);
      return effects, db;
    }
    var stored := StoreTextMessage(db, fromuid, s.touid, s.msgid, s.content, outage, verdict);
    StoreCommits(db, fromuid, s.touid, s.msgid, s.content, outage, verdict);
    StoredIff(db, fromuid, s.touid, s.msgid, s.content, outage, verdict);
    StoreSays(db, fromuid, s.touid, s.msgid, s.content, outage, verdict);
    after := stored.0;
    HoldsIsCommitted(after, fromuid, s);
    if stored.1.Failed? {
      effects := Refused(stored.1.error, fromuid, s.touid, shownId);
      return;
    }
    assert Committed(after, fromuid, s, stored.1.record);
    effects := Accept(stored.1.record, s, fromuid, route, online, after);
  }

  lemma HoldsIsCommitted(db: Table, fromuid: int, s: Submission)
    requires TableOk(db)
    ensures Holds(db, fromuid, s.touid, s.msgid, s.content) <==> IsCommitted(db, fromuid, s)
  {
  }

  method Refused(error: int, fromuid: int, touid: int, msgid: string) returns (effects: seq<Effect>)
    requires error != SUCCESS && IsInt(error) && IsInt(fromuid) && IsInt(touid) && (msgid == "" || IsUuid(msgid))
    ensures OneResponse(effects) && AllFit(effects) && |effects| == 1 && !Succeeds(effects[0])
    ensures effects == [Respond(ErrorReply(error, fromuid, touid, msgid))]
  {
    ErrorSays(error, fromuid, touid, msgid);
    ErrorReplyFits(error, fromuid, touid, msgid);
    effects := [Respond(ErrorReply(error, fromuid, touid, msgid))];
  }

  /** The commit, not the push, is what the response reports. */
  method Accept(r: Record, s: Submission, fromuid: int, route: Route, online: Online, ghost db: Table)
      returns (effects: seq<Effect>)
    requires Committed(db, fromuid, s, r) && RecordOk(r) && OnlineOk(online) && |Quoted(s.content)| <= ENCODED_LIMIT
    ensures OneResponse(effects) && AllFit(effects) && Succeeds(effects[0])
    ensures effects == [Respond(Acknowledgement(r))] + Deliver(r, s, fromuid, route, online)
    ensures Get(effects[0].body, "msgid") == Str(r.msgid)
    ensures forall i | 0 <= i < |effects| :: PushOk(effects[i], db, online)
  {
    AcknowledgementSays(r);
    assert |Quoted("")| == 2;
    AcknowledgementFits(r);
    var pushes := PushOnline(r, s, fromuid, route, online);
    effects := [Respond(Acknowledgement(r))] + pushes;
    assert db[Key(fromuid, s.msgid)] == r;
    forall i | 0 <= i < |effects| ensures PushOk(effects[i], db, online) {
      if i > 0 { assert effects[i] == pushes[i - 1]; }
    }
  }

  /** The part behind the response, inside the handler's own try block. */
  method PushOnline(r: Record, s: Submission, fromuid: int, route: Route, online: Online) returns (pushes: seq<Effect>)
    requires RecordOk(r) && r.touid == s.touid && OnlineOk(online) && |Quoted(s.content)| <= ENCODED_LIMIT
    requires r.content == if r.status == 0 then s.content else ""
    ensures pushes == Deliver(r, s, fromuid, route, online) && |pushes| <= 1
    // here to the receiver's checked session, there by RPC, and nowhere if Redis names no server
    ensures pushes ==
              if route.broken || route.server.None? then []
              else if route.server != Some(route.self) then
                [Rpc(route.server.value, fromuid, s.touid, s.msgid, s.content)]
              else if s.touid in online.users && online.users[s.touid] in online.current then
                [Push(online.users[s.touid], Notification(r))]
              else []
    ensures forall i | 0 <= i < |pushes| :: !pushes[i].Respond?
    ensures forall i | 0 <= i < |pushes| && pushes[i].Push? ::
              && r.touid in online.users && online.users[r.touid] == pushes[i].target
              && pushes[i].target in online.uidOf && online.uidOf[pushes[i].target] == r.touid
              && pushes[i].body == Notification(r) && |Compact(pushes[i].body)| <= BODY_LIMIT
  {
    pushes := [];
    if route.broken || route.server.None? { return; }
    if route.server.value == route.self {
      var target := GetSession(online, s.touid);
      if target.Some? {
        assert |Quoted("")| == 2;
        NotificationFits(r);
        pushes := [Push(target.value, Notification(r))];
      }
      return;
    }
    pushes := [Rpc(route.server.value, fromuid, s.touid, s.msgid, s.content)];
  }

  lemma ErrorSays(error: int, fromuid: int, touid: int, msgid: string)
    ensures var v := ErrorReply(error, fromuid, touid, msgid);
            && Get(v, "error") == Int(error) && Get(v, "fromuid") == Int(fromuid)
            && Get(v, "msgid") == Str(msgid) && Get(v, "touid") == Int(touid)
  {
    NamesDiffer();
    ThreeLookups("error", Int(error), "fromuid", Int(fromuid), "msgid", Str(msgid), Member("touid", Int(touid), End));
  }

  // ---- the push asked for by another server ----

  datatype TextRequest = TextRequest(fromuid: int, touid: int, texts: seq<(string, string)>)

  datatype RpcAnswer = PermissionDenied | Answered(error: int)

  /** The request names two users and one good text, and the receiver's privacy lets it through. */
  predicate Welcome(request: TextRequest, privacyAllows: bool) {
    && request.fromuid > 0 && request.touid > 0 && request.fromuid != request.touid
    && |request.texts| == 1 && privacyAllows
    && IsUuid(request.texts[0].0) && 1 <= |request.texts[0].1| <= 512
  }

  /** Trusts nothing it is told: what it pushes is the record it reads back itself. */
  method NotifyTextChatMsg(allowed: bool, request: TextRequest, privacyAllows: bool, friends: bool,
                           db: Table, outage: bool, online: Online) returns (answer: RpcAnswer, effects: seq<Effect>)
    requires TableOk(db) && OnlineOk(online)
    ensures |effects| <= 1 && (answer == Answered(SUCCESS) <==> effects != [])
    ensures effects != [] ==>
              && allowed && privacyAllows && friends && !outage && |request.texts| == 1
              && var k := Key(request.fromuid, request.texts[0].0);
                 && k in db && db[k].touid == request.touid && db[k].content == request.texts[0].1
                 && GetSession(online, request.touid).Some?
                 && effects == [Push(GetSession(online, request.touid).value, Notification(db[k]))]
                 && online.uidOf[GetSession(online, request.touid).value] == db[k].touid
                 && |Compact(Notification(db[k]))| <= BODY_LIMIT
    // the other answers
    ensures answer == PermissionDenied <==> !allowed
    ensures answer == Answered(1101) <==> allowed && Welcome(request, privacyAllows) && !friends
    ensures answer == Answered(1102)
            <==> allowed && Welcome(request, privacyAllows) && friends && GetSession(online, request.touid).None?
    ensures answer == Answered(1104)
            <==> && allowed && Welcome(request, privacyAllows) && friends && GetSession(online, request.touid).Some?
                 && (outage
                     || var k := Key(request.fromuid, request.texts[0].0);
                        k !in db || db[k].touid != request.touid || db[k].content != request.texts[0].1)
    // and it does push whenever all of that is so
    ensures (&& allowed && privacyAllows && friends && !outage && |request.texts| == 1
             && request.fromuid > 0 && request.touid > 0 && request.fromuid != request.touid
             && Text(request.texts[0].0, request.texts[0].1)
             && GetSession(online, request.touid).Some?
             && var k := Key(request.fromuid, request.texts[0].0);
                k in db && db[k].touid == request.touid && db[k].content == request.texts[0].1
                && |Compact(Notification(db[k]))| <= BODY_LIMIT) ==>
              effects != []
  {
    effects := [];
    if !allowed { return PermissionDenied, []; }
    answer := Answered(CHAT_DATA_INVALID);
    if request.fromuid <= 0 || request.touid <= 0 || request.fromuid == request.touid { return; }
    if |request.texts| != 1 { return; }
    var (msgid, content) := request.texts[0];
    if !privacyAllows { return; }
    if !Text(msgid, content) { return; }
    if !friends { return Answered(CHAT_NOT_FRIEND), []; }
    var target := GetSession(online, request.touid);
    if target.None? { return Answered(CHAT_TARGET_OFFLINE), []; }
    if outage { return Answered(CHAT_DATABASE_FAILED), []; }
    var stored := StoredText(db, request.fromuid, msgid);
    if stored.Failed? || stored.record.touid != request.touid || stored.record.content != content {
      return Answered(CHAT_DATABASE_FAILED), [];
    }
    var wire := Notification(stored.record);
    if |Compact(wire)| > BODY_LIMIT { return; }
    return Answered(SUCCESS), [Push(target.value, wire)];
  }

  /** The record of an accepted submission passes the other server's checks unless it was
      erased in between: the RPC then pushes it, and never one that is too long. */
  lemma RpcPushesWhatWasSubmitted(db: Table, fromuid: int, s: Submission, r: Record)
    requires TableOk(db) && Acceptable(fromuid, s) && Committed(db, fromuid, s, r) && RecordOk(r)
    ensures StoredText(db, fromuid, s.msgid) == Stored(r)
    ensures r.touid == s.touid && (r.content == s.content <==> r.status == 0)
    ensures |Compact(Notification(r))| <= BODY_LIMIT
  {
    assert |Quoted("")| == 2;
    NotificationFits(r);
  }
}
