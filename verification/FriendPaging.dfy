/** `GetFriendList`: one page of friends, packed greedily under the body limit, and the client
    that follows `next_uid` from page to page. */
module FriendPaging {
  import opened Common
  import Framing
  import opened Numbers
  import opened JsonText
  import opened ChatWire

  const PAGE := 10

  datatype FriendInfo = FriendInfo(uid: int, name: string, nick: string, icon: string, remark: string, gender: int)

  /** What `MysqlMgr::GetFriendPage` answers. */
  datatype FriendPage = FriendPage(ok: bool, hasMore: bool, items: seq<FriendInfo>)

  /** A request id and the comments around it in the request: both are copied to the reply. */
  datatype RequestId = RequestId(text: string, note: Note)

  /** The fields a reply gains once the request has been decoded. */
  datatype Echo = NoEcho | Echo(requestId: RequestId, after: int, next: int)

  datatype Reply = Reply(error: int, friends: seq<FriendInfo>, hasMore: bool, echo: Echo)

  /** One list entry; a friend whose profile policy shuts the reader out shows less. */
  function ItemJson(f: FriendInfo, visible: int -> bool): Json {
    var open := visible(f.uid);
    Obj(Member("gender", Int(if open then f.gender else 0),
        Member("icon", Str(if open then f.icon else ""),
        Member("name", Str(f.name),
        Member("nick", Str(if open then f.nick else ""),
        Member("remark", Str(f.remark),
        Member("uid", Int(f.uid), End)))))))
  }

  function ItemsJson(fs: seq<FriendInfo>, visible: int -> bool): (r: seq<Json>)
    ensures |r| == |fs|
  {
    if fs == [] then [] else ItemsJson(fs[..|fs| - 1], visible) + [ItemJson(fs[|fs| - 1], visible)]
  }

  function ListJson(fs: seq<FriendInfo>, visible: int -> bool): Json {
    Arr(ItemsJson(fs, visible))
  }

  function IdJson(id: RequestId): Json {
    Noted(Str(id.text), id.note)
  }

  function ToJson(r: Reply, visible: int -> bool): Json {
    match r.echo
    case NoEcho =>
      Obj(Member("error", Int(r.error),
          Member("friend_list", ListJson(r.friends, visible),
          Member("has_more", Bool(r.hasMore), End))))
    case Echo(id, after, next) =>
      Obj(Member("after_uid", Int(after),
          Member("error", Int(r.error),
          Member("friend_list", ListJson(r.friends, visible),
          Member("has_more", Bool(r.hasMore),
          Member("next_uid", Int(next),
          Member("request_id", IdJson(id), End)))))))
  }

  /** What a reader finds in an entry: uid, name and remark always, the rest if the profile is open. */
  lemma ItemSays(f: FriendInfo, visible: int -> bool)
    ensures var item, open := ItemJson(f, visible), visible(f.uid);
            && Get(item, "uid") == Int(f.uid) && Get(item, "name") == Str(f.name)
            && Get(item, "remark") == Str(f.remark)
            && Get(item, "nick") == Str(if open then f.nick else "")
            && Get(item, "icon") == Str(if open then f.icon else "")
            && Get(item, "gender") == Int(if open then f.gender else 0)
  {
    var first := ItemJson(f, visible).members;
    var third := first.rest.rest;
    var fourth := third.rest;
    ThreeLookups(first.name, first.value, first.rest.name, first.rest.value, third.name, third.value, fourth);
    ThreeLookups(fourth.name, fourth.value, fourth.rest.name, fourth.rest.value,
                 fourth.rest.rest.name, fourth.rest.rest.value, End);
    assert "icon"[0] != "name"[0] && "icon"[0] != "nick"[0] && "name"[1] != "nick"[1];
    assert "gender"[0] != "remark"[0];
  }

  /** What a reader finds in a reply. */
  lemma ReplySays(r: Reply, visible: int -> bool)
    ensures var v := ToJson(r, visible);
            && Get(v, "error") == Int(r.error) && Get(v, "has_more") == Bool(r.hasMore)
            && Get(v, "friend_list").Arr?
            && |Get(v, "friend_list").items| == |r.friends|
            && (forall i | 0 <= i < |r.friends| :: Get(v, "friend_list").items[i] == ItemJson(r.friends[i], visible))
            && (r.echo.NoEcho? ==>
                  Get(v, "after_uid") == Get(v, "next_uid") == Get(v, "request_id") == Null)
            && (r.echo.Echo? ==>
                  && Get(v, "after_uid") == Int(r.echo.after) && Get(v, "next_uid") == Int(r.echo.next)
                  && Get(v, "request_id") == Noted(Str(r.echo.requestId.text), r.echo.requestId.note))
  {
    ItemsAre(r.friends, visible);
    var first := ToJson(r, visible).members;
    var third := first.rest.rest;
    var fourth := third.rest;
    ThreeLookups(first.name, first.value, first.rest.name, first.rest.value, third.name, third.value, fourth);
    if r.echo.Echo? {
      ThreeLookups(fourth.name, fourth.value, fourth.rest.name, fourth.rest.value,
                   fourth.rest.rest.name, fourth.rest.rest.value, End);
    }
    assert "has_more"[0] != "next_uid"[0];
  }

  lemma {:induction false} ItemsAre(fs: seq<FriendInfo>, visible: int -> bool)
    ensures forall i | 0 <= i < |fs| :: ItemsJson(fs, visible)[i] == ItemJson(fs[i], visible)
  {
    if fs != [] { ItemsAre(fs[..|fs| - 1], visible); }
  }

  function Size(r: Reply, visible: int -> bool): nat {
    |Compact(ToJson(r, visible))|
  }

  // ---- sizes ----

  function ListSize(fs: seq<FriendInfo>, visible: int -> bool): nat {
    |Compact(ListJson(fs, visible))|
  }

  function ItemSize(f: FriendInfo, visible: int -> bool): nat {
    |Compact(ItemJson(f, visible))|
  }

  function BoolSize(b: bool): nat {
    if b then 4 else 5
  }

  lemma PlainReplyNames()
    ensures Plain("after_uid") && Plain("error") && Plain("friend_list")
    ensures Plain("has_more") && Plain("next_uid") && Plain("request_id")
  {
  }

  lemma SixMembers(a: string, u: Json, b: string, v: Json, c: string, w: Json, ms: Members)
    requires Plain(a) && Plain(b) && Plain(c) && PlainNames(ms) && !u.Noted? && !v.Noted? && !w.Noted?
    ensures var all := Member(a, u, Member(b, v, Member(c, w, ms)));
            |Compact(Obj(all))| == 13 + |a| + |b| + |c| + |Compact(u)| + |Compact(v)| + |Compact(w)| + MembersSize(ms)
  {
    var last := Member(c, w, ms);
    var middle := Member(b, v, last);
    Sized(c, w, ms);
    Sized(b, v, last);
    Sized(a, u, middle);
    ObjectSize(Member(a, u, middle));
  }

  lemma ThreeMembers(a: string, u: Json, b: string, v: Json, c: string, w: Json)
    requires Plain(a) && Plain(b) && Plain(c) && !u.Noted? && !v.Noted?
    ensures var ms := Member(a, u, Member(b, v, Member(c, w, End)));
            && PlainNames(ms)
            && MembersSize(ms) == 12 + |a| + |b| + |c| + |Compact(u)| + |Compact(v)| + |Compact(w)| + NoteSize(w)
  {
    var last := Member(c, w, End);
    Sized(c, w, End);
    Sized(b, v, last);
    Sized(a, u, Member(b, v, last));
  }

  /** The whole reply, counted: punctuation and names take 76 bytes, comments what they print. */
  lemma EchoedSize(r: Reply, visible: int -> bool)
    requires r.echo.Echo?
    ensures Size(r, visible)
         == 76 + |Decimal(r.echo.after)| + |Decimal(r.error)| + ListSize(r.friends, visible)
          + BoolSize(r.hasMore) + |Decimal(r.echo.next)| + |Compact(Str(r.echo.requestId.text))|
          + Printed(r.echo.requestId.note)
  {
    PlainReplyNames();
    var more, next, id := Bool(r.hasMore), Int(r.echo.next), IdJson(r.echo.requestId);
    ThreeMembers("has_more", more, "next_uid", next, "request_id", id);
    SixMembers("after_uid", Int(r.echo.after), "error", Int(r.error), "friend_list", ListJson(r.friends, visible),
               Member("has_more", more, Member("next_uid", next, Member("request_id", id, End))));
  }

  lemma BareSize(r: Reply, visible: int -> bool)
    requires r.echo.NoEcho?
    ensures Size(r, visible) == 37 + |Decimal(r.error)| + ListSize(r.friends, visible) + BoolSize(r.hasMore)
  {
    PlainReplyNames();
    SixMembers("error", Int(r.error), "friend_list", ListJson(r.friends, visible), "has_more", Bool(r.hasMore), End);
  }

  lemma ItemSizeAtLeast(f: FriendInfo, visible: int -> bool)
    ensures ItemSize(f, visible) >= 20
  {
    var ms := ItemJson(f, visible).members;
    PlainItemNames();
    var second := ms.rest;
    var third := second.rest;
    ThreeNames(ms.name, ms.value, second.name, second.value, third.name, third.value, third.rest);
  }

  lemma PlainItemNames()
    ensures Plain("gender") && Plain("icon") && Plain("name")
  {
  }

  lemma ThreeNames(a: string, u: Json, b: string, v: Json, c: string, w: Json, rest: Members)
    requires Plain(a) && Plain(b) && Plain(c)
    ensures |Compact(Obj(Member(a, u, Member(b, v, Member(c, w, rest)))))| >= 11 + |a| + |b| + |c|
  {
    PlainText(a);
    PlainText(b);
    PlainText(c);
    var last := Member(c, w, rest);
    assert |CompactMembers(last)| >= |c| + 3;
    assert |CompactMembers(Member(b, v, last))| >= |b| + 4 + |CompactMembers(last)|;
  }

  lemma ListSizeAppend(fs: seq<FriendInfo>, f: FriendInfo, visible: int -> bool)
    ensures ListSize(fs + [f], visible) == ListSize(fs, visible) + ItemSize(f, visible) + (if fs == [] then 0 else 1)
    ensures ListSize([], visible) == 2
  {
    assert (fs + [f])[..|fs|] == fs;
    ItemsAppend(ItemsJson(fs, visible), ItemJson(f, visible));
  }

  lemma ErrorLength(error: int)
    requires 0 <= error <= 9999
    ensures |Decimal(error)| <= 4
  {
    assert Pow10(4) == 10 * Pow10(3) == 100 * Pow10(2) == 1000 * Pow10(1) == 10000 * Pow10(0);
    DigitsLength(error, 4);
  }

  // ---- the packer ----

  /** The reply with one more friend, as the loop tries it. */
  function Grown(r: Reply, f: FriendInfo): Reply
    requires r.echo.Echo?
  {
    r.(friends := r.friends + [f], echo := r.echo.(next := f.uid))
  }

  /** The test each candidate reply must pass. */
  function Fitting(visible: int -> bool): Reply -> bool {
    r => Size(r, visible) <= BODY_LIMIT
  }

  /** The greedy packing of a page into a reply; the flag says that more friends remain. */
  function Pack(r: Reply, items: seq<FriendInfo>, more: bool, fits: Reply -> bool): (Reply, bool)
    requires r.echo.Echo?
    decreases |items|
  {
    if items == [] then (r, more)
    else if fits(Grown(r, items[0])) then
      Pack(Grown(r, items[0]), items[1..], more, fits)
    else if r.friends == [] then (r.(error := CHAT_DATA_INVALID), more)
    else (r, true)
  }

  function Finish(packed: (Reply, bool)): Reply {
    packed.0.(hasMore := packed.0.error == 0 && packed.1)
  }

  /** A reply with nothing in it yet. */
  function Opening(error: int, requestId: RequestId, after: int): Reply {
    Reply(error, [], false, Echo(requestId, after, after))
  }

  function PageReply(page: FriendPage, requestId: RequestId, after: int, fits: Reply -> bool): Reply {
    if !page.ok then Opening(CHAT_DATABASE_FAILED, requestId, after)
    else Finish(Pack(Opening(SUCCESS, requestId, after), page.items, page.hasMore, fits))
  }

  /** The request, once it has passed every test that needs no database. */
  predicate GoodRequest(bodyLen: nat, request: Json) {
    && bodyLen <= BODY_LIMIT && request.Obj?
    && Get(request, "request_id").Str? && IsUuid(Get(request, "request_id").text)
    && IsIntValue(Get(request, "after_uid"))
  }

  method DecodeRequest(bodyLen: nat, request: Json) returns (ok: bool, id: string, after: int)
    ensures ok <==> GoodRequest(bodyLen, request)
    ensures ok ==> id == Get(request, "request_id").text && after == Get(request, "after_uid").num
    ensures ok ==> IsUuid(id) && IsInt(after)
  {
    ok, id, after := false, "", 0;
    if bodyLen > BODY_LIMIT || !request.Obj? { return; }
    var requestId, afterUid := Get(request, "request_id"), Get(request, "after_uid");
    if !requestId.Str? { return; }
    var isUuid := Uuid(requestId.text);
    if !isUuid || !IsIntValue(afterUid) { return; }
    return true, requestId.text, afterUid.num;
  }

  /** The reply to a request; the page is what the database answers, and `note` the comments at
      the request's id. */
  function ReplyTo(bodyLen: nat, request: Json, note: Note, uid: int, page: FriendPage, visible: int -> bool): Reply {
    if !GoodRequest(bodyLen, request) then Reply(CHAT_DATA_INVALID, [], false, NoEcho)
    else
      var id, after := RequestId(Get(request, "request_id").text, note), Get(request, "after_uid").num;
      if uid <= 0 || after < 0 then Opening(CHAT_DATA_INVALID, id, after)
      else PageReply(page, id, after, Fitting(visible))
  }

  /** A body of this length has room for such comments: besides them it holds two names, two
      colons, a comma, the braces, the quoted id and at least one byte of number. */
  predicate NoteInBody(bodyLen: nat, note: Note) {
    |note.before| + |note.after| + 67 <= bodyLen
  }

  /** The bytes of the longest reply without friends. */
  function Bare(after: int, note: Note): nat {
    125 + 2 * |Decimal(after)| + Printed(note)
  }

  /** The handler. `request` is the parsed body, null when it did not parse. A reply that lists
      friends, or echoes no comment, keeps to the body limit; and every reply, whatever comments
      it echoes, can be sent and fits a frame. */
  method GetFriendList(bodyLen: nat, request: Json, note: Note, uid: int, page: FriendPage, visible: int -> bool)
      returns (response: Reply)
    ensures response == ReplyTo(bodyLen, request, note, uid, page, visible)
    ensures note == NO_NOTE || response.friends != [] ==> Size(response, visible) <= BODY_LIMIT
    ensures GoodRequest(bodyLen, request) && Bare(Get(request, "after_uid").num, note) <= BODY_LIMIT ==>
              Size(response, visible) <= BODY_LIMIT
    ensures NoteInBody(bodyLen, note) ==> Size(response, visible) <= Framing.MAX_LENGTH
  {
    ReplySize(bodyLen, request, note, uid, page, visible);
    response := Reply(CHAT_DATA_INVALID, [], false, NoEcho);
    var ok, id, after := DecodeRequest(bodyLen, request);
    if !ok { return; }
    response := Opening(CHAT_DATA_INVALID, RequestId(id, note), after);
    if uid <= 0 || after < 0 { return; }
    if !page.ok {
      response := response.(error := CHAT_DATABASE_FAILED);
      return;
    }
    response := response.(error := SUCCESS);
    response := FillPage(response, page.items, page.hasMore, visible);
  }

  /** The packing loop. */
  method FillPage(opening: Reply, items: seq<FriendInfo>, hasMore: bool, visible: int -> bool) returns (response: Reply)
    requires opening.echo.Echo? && opening == Opening(SUCCESS, opening.echo.requestId, opening.echo.after)
    ensures response == Finish(Pack(opening, items, hasMore, Fitting(visible)))
    ensures response.friends != [] ==> Size(response, visible) <= BODY_LIMIT
  {
    response := opening;
    var more := hasMore;
    var i := 0;
    while i < |items|
      invariant 0 <= i <= |items|
      invariant response.error == SUCCESS && !response.hasMore && response.echo.Echo?
      invariant response.friends == [] || Fitting(visible)(response)
      invariant Pack(opening, items, hasMore, Fitting(visible)) == Pack(response, items[i..], more, Fitting(visible))
    {
      var candidate := Grown(response, items[i]);
      PackAt(response, items, i, more, Fitting(visible));
      if |Compact(ToJson(candidate, visible))| > BODY_LIMIT {
        if response.friends == [] {
          response := response.(error := CHAT_DATA_INVALID);
        } else {
          more := true;
        }
        break;
      }
      response := candidate;
      i := i + 1;
    }
    FlagShrinks(response, response.error == 0 && more, visible);
    response := response.(hasMore := response.error == 0 && more);
  }

  /** One turn of the packer. */
  lemma PackAt(r: Reply, items: seq<FriendInfo>, i: nat, more: bool, fits: Reply -> bool)
    requires r.echo.Echo? && i < |items|
    ensures Pack(r, items[i..], more, fits)
         == if fits(Grown(r, items[i])) then Pack(Grown(r, items[i]), items[i + 1..], more, fits)
            else if r.friends == [] then (r.(error := CHAT_DATA_INVALID), more)
            else (r, true)
  {
    assert items[i..][1..] == items[i + 1..];
  }

  /** What the packer leaves: a reply that fits, or one without friends. */
  lemma {:induction false} PackFits(r: Reply, items: seq<FriendInfo>, more: bool, fits: Reply -> bool)
    requires r.echo.Echo? && !r.hasMore && (r.friends == [] || fits(r))
    ensures var p := Pack(r, items, more, fits).0;
            && !p.hasMore && p.echo.Echo?
            && (p.friends != [] ==> fits(p))
            && (p.friends == [] ==> p == r || p == r.(error := CHAT_DATA_INVALID))
    decreases |items|
  {
    if items != [] && fits(Grown(r, items[0])) {
      PackFits(Grown(r, items[0]), items[1..], more, fits);
    }
  }

  /** Which error each reply carries, what it echoes, and that an error comes without friends. */
  lemma ErrorsAre(bodyLen: nat, request: Json, note: Note, uid: int, page: FriendPage, visible: int -> bool)
    ensures var r, id, after := ReplyTo(bodyLen, request, note, uid, page, visible),
                                Get(request, "request_id"), Get(request, "after_uid");
            if bodyLen > 1800 || !request.Obj? || !id.Str? || !IsUuid(id.text)
               || !after.Int? || !(-0x8000_0000 <= after.num <= 0x7FFF_FFFF) then
              r == Reply(1103, [], false, NoEcho)
            else
              var bare := Echo(RequestId(id.text, note), after.num, after.num);
              if uid <= 0 || after.num < 0 then r == Reply(1103, [], false, bare)
              else if !page.ok then r == Reply(1104, [], false, bare)
              else if page.items != []
                      && Size(Reply(0, [page.items[0]], false, bare.(next := page.items[0].uid)), visible) > 1800
              then r == Reply(1103, [], false, bare)
              else r.error == 0 && r.echo.Echo? && r.echo == bare.(next := r.echo.next)
                   && (page.items != [] ==> r.friends != [])
  {
    if GoodRequest(bodyLen, request) && page.ok {
      var id, after := RequestId(Get(request, "request_id").text, note), Get(request, "after_uid").num;
      PageErrors(page, id, after, Fitting(visible));
    }
  }

  /** A page is refused exactly if its first friend does not fit. */
  lemma PageErrors(page: FriendPage, id: RequestId, after: int, fits: Reply -> bool)
    requires page.ok
    ensures var r := PageReply(page, id, after, fits);
            if page.items != [] && !fits(Reply(0, [page.items[0]], false, Echo(id, after, page.items[0].uid)))
            then r == Reply(1103, [], false, Echo(id, after, after))
            else r.error == 0 && r.echo.Echo? && r.echo == Echo(id, after, r.echo.next)
                 && (page.items != [] ==> r.friends != [])
  {
    if page.items != [] {
      var open, f := Opening(SUCCESS, id, after), page.items[0];
      assert Grown(open, f) == Reply(0, [f], false, Echo(id, after, f.uid));
      if fits(Grown(open, f)) {
        PackGrows(Grown(open, f), page.items[1..], page.hasMore, fits);
      }
    }
  }

  /** Friends once packed stay packed. */
  lemma {:induction false} PackGrows(r: Reply, items: seq<FriendInfo>, more: bool, fits: Reply -> bool)
    requires r.echo.Echo? && r.friends != []
    ensures var p := Pack(r, items, more, fits).0;
            p.error == r.error && r.friends <= p.friends && p.echo.Echo? && p.echo == r.echo.(next := p.echo.next)
    decreases |items|
  {
    if items != [] && fits(Grown(r, items[0])) {
      PackGrows(Grown(r, items[0]), items[1..], more, fits);
    }
  }

  /** The size of every reply: within the limit if it lists friends or echoes nothing, else the
      size of its few fields. */
  lemma ReplySize(bodyLen: nat, request: Json, note: Note, uid: int, page: FriendPage, visible: int -> bool)
    ensures var r := ReplyTo(bodyLen, request, note, uid, page, visible);
            && (r.friends != [] || r.echo.NoEcho? ==> Size(r, visible) <= BODY_LIMIT)
            && (GoodRequest(bodyLen, request) && r.friends == [] ==>
                  Size(r, visible) <= Bare(Get(request, "after_uid").num, note) <= 147 + Printed(note))
  {
    BareFits(visible);
    if GoodRequest(bodyLen, request) {
      var id, after := RequestId(Get(request, "request_id").text, note), Get(request, "after_uid").num;
      SignedLength(after);
      FewFields(CHAT_DATA_INVALID, id, after, visible);
      FewFields(CHAT_DATABASE_FAILED, id, after, visible);
      FewFields(SUCCESS, id, after, visible);
      var open := Opening(SUCCESS, id, after);
      PackFits(open, page.items, page.hasMore, Fitting(visible));
      var packed := Pack(open, page.items, page.hasMore, Fitting(visible));
      FlagShrinks(packed.0, packed.0.error == 0 && packed.1, visible);
    }
  }

  lemma BareFits(visible: int -> bool)
    ensures Size(Reply(CHAT_DATA_INVALID, [], false, NoEcho), visible) <= BODY_LIMIT
  {
    BareSize(Reply(CHAT_DATA_INVALID, [], false, NoEcho), visible);
    ErrorLength(CHAT_DATA_INVALID);
    ListSizeAppend([], FriendInfo(0, "", "", "", "", 0), visible);
  }

  /** The size of a reply without friends. */
  lemma FewFields(error: int, id: RequestId, after: int, visible: int -> bool)
    requires IsUuid(id.text) && 0 <= error <= 9999
    ensures Size(Opening(error, id, after), visible)
         == 121 + |Decimal(error)| + 2 * |Decimal(after)| + Printed(id.note) <= Bare(after, id.note)
  {
    EchoedSize(Opening(error, id, after), visible);
    ListSizeAppend([], FriendInfo(0, "", "", "", "", 0), visible);
    ErrorLength(error);
    UuidLength(id.text);
  }

  /** `true` is shorter than `false`: setting the flag last never breaks the limit. */
  lemma FlagShrinks(r: Reply, more: bool, visible: int -> bool)
    requires r.echo.Echo? && !r.hasMore
    ensures Size(r.(hasMore := more), visible) <= Size(r, visible)
  {
    EchoedSize(r, visible);
    EchoedSize(r.(hasMore := more), visible);
  }

  /** Exactly which requests have all their replies within the body limit: those whose comments
      leave room for a reply without friends, which is not measured before it is sent. */
  lemma RepliesFitIff(bodyLen: nat, request: Json, note: Note, visible: int -> bool)
    requires GoodRequest(bodyLen, request)
    ensures (forall uid, page :: Size(ReplyTo(bodyLen, request, note, uid, page, visible), visible) <= BODY_LIMIT)
            <==> Bare(Get(request, "after_uid").num, note) <= BODY_LIMIT
  {
    var id, after := RequestId(Get(request, "request_id").text, note), Get(request, "after_uid").num;
    var none := FriendPage(false, false, []);
    assert ReplyTo(bodyLen, request, note, 0, none, visible) == Opening(CHAT_DATA_INVALID, id, after);
    FewFields(CHAT_DATA_INVALID, id, after, visible);
    FourDigits(CHAT_DATA_INVALID);
    forall uid, page | Bare(after, note) <= BODY_LIMIT
      ensures Size(ReplyTo(bodyLen, request, note, uid, page, visible), visible) <= BODY_LIMIT
    {
      ReplySize(bodyLen, request, note, uid, page, visible);
    }
  }

  /** A comment of 1732 bytes does break it: the reply to such a request takes 1862. */
  lemma CommentBreaksLimit(id: string, note: Note, page: FriendPage, visible: int -> bool)
    requires IsUuid(id) && note.before == [] && |note.after| == 1732
    ensures var request := Obj(Member("after_uid", Int(-1), Member("request_id", Str(id), End)));
            && GoodRequest(1800, request) && NoteInBody(1800, note)
            && Size(ReplyTo(1800, request, note, 7, page, visible), visible) == 1862
  {
    var request := Obj(Member("after_uid", Int(-1), Member("request_id", Str(id), End)));
    assert |"after_uid"| != |"request_id"|;
    assert Lookup(Member("request_id", Str(id), End), "request_id") == Str(id);
    assert |Decimal(-1)| == 1 + |Digits(1)| == 2;
    FourDigits(CHAT_DATA_INVALID);
    FewFields(CHAT_DATA_INVALID, RequestId(id, note), -1, visible);
  }
}
