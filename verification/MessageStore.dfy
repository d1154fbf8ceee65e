/** The stored text messages, as far as submission and delivery see them. */
module MessageStore {
  import opened Common
  import opened Numbers
  import opened JsonText
  import opened ChatWire

  /** A message as the database hands it out; once erased, its content reads as empty. */
  datatype Record = Record(messageId: nat, threadId: nat, seqNo: nat, msgid: string, fromuid: int, touid: int,
                           content: string, status: int, createdMs: nat, expiresMs: nat, state: string)

  /** The numbers a new row gets. */
  datatype Numbering = Numbering(messageId: nat, threadId: nat, seqNo: nat, createdMs: nat, expiresMs: nat)

  /** Messages by sender and the sender's own message id, as the column compares ids: without
      regard to case. */
  type Table = map<(int, string), Record>

  function Lower(c: char): char {
    if 'A' <= c <= 'Z' then c + 32 as char else c
  }

  function Fold(id: string): (f: string)
    ensures |f| == |id|
  {
    seq(|id|, i requires 0 <= i < |id| => Lower(id[i]))
  }

  /** Ids meet exactly when they differ in the case of letters at most. */
  lemma FoldsMeet(id: string, other: string)
    ensures Fold(id) == Fold(other) <==>
              && |id| == |other|
              && forall i | 0 <= i < |id| ::
                   || id[i] == other[i]
                   || ('a' <= id[i] <= 'z' && other[i] as int == id[i] as int - 32)
                   || ('a' <= other[i] <= 'z' && id[i] as int == other[i] as int - 32)
  {
    if Fold(id) == Fold(other) {
      forall i | 0 <= i < |id|
        ensures Lower(id[i]) == Lower(other[i])
      {
        assert Fold(id)[i] == Fold(other)[i];
      }
    }
  }

  function Key(sender: int, id: string): (int, string) {
    (sender, Fold(id))
  }

  /** What becomes of a message not stored before. One that is admitted is committed; whether
      it can then be read back, in this attempt or a retry, is another matter. */
  datatype Verdict = Refuse(error: int) | Admit(row: Numbering, readBack: bool)

  datatype Saved = Failed(error: int) | Stored(record: Record)

  ghost predicate RecordOk(r: Record) {
    && r.messageId <= UINT64_MAX && r.threadId <= UINT64_MAX && r.seqNo <= UINT64_MAX
    && r.createdMs <= UINT64_MAX && r.expiresMs <= UINT64_MAX
    && IsUuid(r.msgid) && 0 < r.fromuid <= INT_MAX && 0 < r.touid <= INT_MAX && r.fromuid != r.touid
    && 0 <= r.status <= INT_MAX && r.state in {"accepted", "delivered", "read"}
    && (r.status != 0 ==> r.content == "")
  }

  ghost predicate TableOk(db: Table) {
    forall k | k in db :: RecordOk(db[k]) && db[k].fromuid == k.0 && Fold(db[k].msgid) == k.1
  }

  predicate VerdictOk(v: Verdict) {
    match v
    case Refuse(error) => error in {CHAT_NOT_FRIEND, CHAT_DATA_INVALID, CHAT_DATABASE_FAILED}
    case Admit(row, _) =>
      && row.messageId <= UINT64_MAX && row.threadId <= UINT64_MAX && row.seqNo <= UINT64_MAX
      && row.createdMs <= UINT64_MAX && row.expiresMs <= UINT64_MAX
  }

  predicate Storable(sender: int, receiver: int, id: string, text: string) {
    sender > 0 && receiver > 0 && sender != receiver && Text(id, text)
  }

  function NewRecord(n: Numbering, sender: int, receiver: int, id: string, text: string): Record {
    Record(n.messageId, n.threadId, n.seqNo, id, sender, receiver, text, 0, n.createdMs, n.expiresMs, "accepted")
  }

  /** `StoreTextMessage`: a message already accepted stays accepted, whatever the friendship is
      now; a second message under the same id is refused. */
  function StoreTextMessage(db: Table, sender: int, receiver: int, id: string, text: string,
                            outage: bool, verdict: Verdict): (Table, Saved)
  {
    if !Storable(sender, receiver, id, text) then (db, Failed(CHAT_DATA_INVALID))
    else if outage then (db, Failed(CHAT_DATABASE_FAILED))
    else if Key(sender, id) in db then
      var prior := db[Key(sender, id)];
      if prior.touid != receiver || (prior.status == 0 && prior.content != text) then (db, Failed(CHAT_DATA_INVALID))
      else (db, Stored(prior))
    else
      match verdict
      case Refuse(error) => (db, Failed(error))
      case Admit(row, readBack) =>
        var r := NewRecord(row, sender, receiver, id, text);
        (db[Key(sender, id) := r], if readBack then Stored(r) else Failed(CHAT_DATABASE_FAILED))
  }

  /** The sender has a message under this id in another spelling. */
  ghost predicate OtherSpelling(db: Table, sender: int, id: string) {
    exists k :: k in db && db[k].fromuid == sender && Fold(db[k].msgid) == Fold(id) && db[k].msgid != id
  }

  /** `StoredText`: none when there is no such message. */
  function StoredText(db: Table, sender: int, id: string): Saved {
    if Key(sender, id) in db then Stored(db[Key(sender, id)]) else Failed(0)
  }

  /** The table holds this very message, its text unless that was erased since. */
  predicate Holds(db: Table, sender: int, receiver: int, id: string, text: string) {
    && Key(sender, id) in db && db[Key(sender, id)].touid == receiver
    && (db[Key(sender, id)].status == 0 ==> db[Key(sender, id)].content == text)
  }

  /** The database can be reached, and reads back what it has committed. */
  predicate Answers(db: Table, sender: int, id: string, outage: bool, verdict: Verdict) {
    !outage && (Key(sender, id) !in db && verdict.Admit? ==> verdict.readBack)
  }

  /** A success is committed and can be read back, addressed as asked, with the text asked for
      unless that was erased since, and with the id as asked exactly when the sender had not
      used it in another spelling. No store disturbs any other record. A failure leaves the
      table alone, except that an admitted message stays committed when it was not read back. */
  lemma StoreCommits(db: Table, sender: int, receiver: int, id: string, text: string, outage: bool, verdict: Verdict)
    requires TableOk(db) && VerdictOk(verdict) && sender <= INT_MAX && receiver <= INT_MAX
    ensures var (after, saved) := StoreTextMessage(db, sender, receiver, id, text, outage, verdict);
            && TableOk(after)
            && (forall k | k in db :: k in after && after[k] == db[k])
            && (saved.Stored? ==>
                  && StoredText(after, sender, id) == saved && RecordOk(saved.record)
                  && saved.record.fromuid == sender && saved.record.touid == receiver
                  && Fold(saved.record.msgid) == Fold(id)
                  && (saved.record.msgid == id <==> !OtherSpelling(db, sender, id))
                  && saved.record.content == if saved.record.status == 0 then text else "")
            && (saved.Failed? ==>
                  saved.error != 0 && (after == db || CommittedUnread(db, after, sender, receiver, id, text)))
  {
    var (after, saved) := StoreTextMessage(db, sender, receiver, id, text, outage, verdict);
    if saved.Stored? { SpellingOf(db, after, sender, id); }
  }

  /** One record at most answers to an id, so its spelling is the only other one. */
  lemma SpellingOf(db: Table, after: Table, sender: int, id: string)
    requires TableOk(db) && Key(sender, id) in after
    requires if Key(sender, id) in db then after[Key(sender, id)] == db[Key(sender, id)]
             else after[Key(sender, id)].msgid == id
    ensures after[Key(sender, id)].msgid == id <==> !OtherSpelling(db, sender, id)
  {
    forall k | k in db && db[k].fromuid == sender && Fold(db[k].msgid) == Fold(id)
      ensures k == Key(sender, id)
    {
    }
  }

  /** Exactly this message was added. */
  ghost predicate CommittedUnread(db: Table, after: Table, sender: int, receiver: int, id: string, text: string) {
    && Key(sender, id) !in db && Holds(after, sender, receiver, id, text)
    && after == db[Key(sender, id) := after[Key(sender, id)]]
  }

  /** Exactly when a store succeeds: the message is well formed, the table ends up holding it,
      and the database answered; and, from the inputs alone, when it succeeds and when it fails
      with the message stored. */
  lemma StoredIff(db: Table, sender: int, receiver: int, id: string, text: string, outage: bool, verdict: Verdict)
    ensures var (after, saved) := StoreTextMessage(db, sender, receiver, id, text, outage, verdict);
            saved.Stored? <==> Storable(sender, receiver, id, text) && Holds(after, sender, receiver, id, text)
                               && Answers(db, sender, id, outage, verdict)
    ensures StoreTextMessage(db, sender, receiver, id, text, outage, verdict).1.Stored?
            <==> Storable(sender, receiver, id, text) && !outage
                 && (Holds(db, sender, receiver, id, text)
                     || (Key(sender, id) !in db && verdict.Admit? && verdict.readBack))
    ensures var (after, saved) := StoreTextMessage(db, sender, receiver, id, text, outage, verdict);
            saved.Failed? && after != db
            <==> Storable(sender, receiver, id, text) && CommitsUnread(db, sender, id, outage, verdict)
  {
    var (after, saved) := StoreTextMessage(db, sender, receiver, id, text, outage, verdict);
    assert Key(sender, id) in after && Key(sender, id) !in db ==> after != db;
  }

  /** Which record a success hands out, and which error each failure carries. */
  lemma StoreSays(db: Table, sender: int, receiver: int, id: string, text: string, outage: bool, verdict: Verdict)
    ensures var saved, k := StoreTextMessage(db, sender, receiver, id, text, outage, verdict).1, (sender, Fold(id));
            if sender <= 0 || receiver <= 0 || sender == receiver || !IsUuid(id) || !(1 <= |text| <= 512)
            then saved == Failed(1103)
            else if outage then saved == Failed(1104)
            else if k in db then
              if db[k].touid == receiver && (db[k].status != 0 || db[k].content == text) then saved == Stored(db[k])
              else saved == Failed(1103)
            else match verdict
              case Refuse(error) => saved == Failed(error)
              case Admit(n, true) =>
                var r := saved.record;
                && saved.Stored? && r.msgid == id && r.fromuid == sender && r.touid == receiver && r.content == text
                && r.status == 0 && r.state == "accepted" && r.messageId == n.messageId && r.threadId == n.threadId
                && r.seqNo == n.seqNo && r.createdMs == n.createdMs && r.expiresMs == n.expiresMs
              case Admit(_, false) => saved == Failed(1104)
  {
  }

  /** A new message is admitted and committed, but not read back. */
  predicate CommitsUnread(db: Table, sender: int, id: string, outage: bool, verdict: Verdict) {
    !outage && Key(sender, id) !in db && verdict.Admit? && !verdict.readBack
  }

  /** So a failure need not mean that nothing was stored. */
  lemma FailureMayHaveCommitted()
    ensures var id := "00000000-0000-0000-0000-000000000000";
            var verdict := Admit(Numbering(1, 1, 1, 1, 0), false);
            var (after, saved) := StoreTextMessage(map[], 1, 2, id, "hello", false, verdict);
            saved == Failed(CHAT_DATABASE_FAILED) && Holds(after, 1, 2, id, "hello")
  {
    var id := "00000000-0000-0000-0000-000000000000";
    assert |id| == 36;
    assert IsUuid(id);
  }

  /** Sending a stored message again under another spelling of its id gets error 0, the first
      record, and no second one. */
  lemma SpellingsMeet(db: Table, sender: int, receiver: int, id: string, other: string, text: string, verdict: Verdict)
    requires Holds(db, sender, receiver, id, text)
    requires Fold(id) == Fold(other) && Storable(sender, receiver, other, text)
    ensures StoreTextMessage(db, sender, receiver, other, text, false, verdict) == (db, StoredText(db, sender, id))
  {
  }

  /** And there are such spellings: the record acknowledged then carries another id than the
      one sent. */
  lemma SpellingMayDiffer(row: Numbering, verdict: Verdict)
    ensures var low, high := Spelled('a'), Spelled('A');
            var (db, first) := StoreTextMessage(map[], 1, 2, low, "hello", false, Admit(row, true));
            && low != high && IsUuid(low) && IsUuid(high) && first.Stored? && first.record.msgid == low
            && StoreTextMessage(db, 1, 2, high, "hello", false, verdict) == (db, first)
  {
    var low, high := Spelled('a'), Spelled('A');
    assert low[0] != high[0];
    assert IsUuid(low) && IsUuid(high);
    assert Fold(high) == Fold(low) == low;
    var db := StoreTextMessage(map[], 1, 2, low, "hello", false, Admit(row, true)).0;
    SpellingsMeet(db, 1, 2, low, high, "hello", verdict);
  }

  /** A uuid of one letter, such as aaaaaaaa-aaaa-aaaa-aaaa-aaaaaaaaaaaa. */
  function Spelled(c: char): string {
    seq(36, i => if DashAt(i) then '-' else c)
  }

  /** Submitting again recovers: once a message is committed, whatever the first answer was and
      whatever the friendship is by now, it succeeds with that record and changes nothing. */
  lemma ResubmissionRecovers(db: Table, sender: int, receiver: int, id: string, text: string,
                             outage: bool, verdict: Verdict, later: Verdict)
    requires Storable(sender, receiver, id, text)
    ensures var after := StoreTextMessage(db, sender, receiver, id, text, outage, verdict).0;
            Holds(after, sender, receiver, id, text) ==>
              StoreTextMessage(after, sender, receiver, id, text, false, later)
              == (after, Stored(after[Key(sender, id)]))
    ensures var (after, saved) := StoreTextMessage(db, sender, receiver, id, text, outage, verdict);
            && (saved.Stored? || after != db ==> Holds(after, sender, receiver, id, text))
            && (saved.Stored? ==> saved == Stored(after[Key(sender, id)]))
  {
  }

  // ---- the record on the wire ----

  function NumberText(n: nat): Json {
    Str(Digits(n))
  }

  function RecordMembers(r: Record): Members {
    Member("content", Str(r.content),
    Member("created_at_ms", NumberText(r.createdMs),
    Member("expires_at_ms", NumberText(r.expiresMs),
    Member("fromuid", Int(r.fromuid), RecordTail(r)))))
  }

  function RecordTail(r: Record): Members {
    Member("message_id", NumberText(r.messageId),
    Member("message_status", Int(r.status),
    Member("msgid", Str(r.msgid), RecordEnd(r))))
  }

  function RecordEnd(r: Record): Members {
    Member("seq", NumberText(r.seqNo),
    Member("state", Str(r.state),
    Member("thread_id", NumberText(r.threadId),
    Member("touid", Int(r.touid), End))))
  }

  /** The value shows the record, all but its content: numbers beyond 32 bits as text. */
  predicate Shows(v: Json, r: Record) {
    && Get(v, "fromuid") == Int(r.fromuid) && Get(v, "touid") == Int(r.touid)
    && Get(v, "msgid") == Str(r.msgid) && Get(v, "state") == Str(r.state)
    && Get(v, "message_status") == Int(r.status)
    && Get(v, "message_id") == Str(Digits(r.messageId)) && Get(v, "thread_id") == Str(Digits(r.threadId))
    && Get(v, "seq") == Str(Digits(r.seqNo)) && Get(v, "created_at_ms") == Str(Digits(r.createdMs))
    && Get(v, "expires_at_ms") == Str(Digits(r.expiresMs))
  }

  lemma RecordSays(r: Record)
    ensures Shows(Obj(RecordMembers(r)), r) && Get(Obj(RecordMembers(r)), "content") == Str(r.content)
    ensures Get(Obj(RecordMembers(r)), "error") == Null
  {
    HeadSays(r);
    TailSays(r);
    EndSays(r);
    NamesDiffer();
  }

  lemma NamesDiffer()
    ensures "content" != "fromuid" && "created_at_ms" != "expires_at_ms"
    ensures "msgid" != "state" && "msgid" != "touid" && "state" != "touid"
    ensures "error" != "msgid" && "error" != "state" && "error" != "touid"
  {
    assert "content"[1] != "fromuid"[1] && "created_at_ms"[0] != "expires_at_ms"[0];
    assert "msgid"[0] != "state"[0] && "msgid"[0] != "touid"[0] && "state"[0] != "touid"[0];
    assert "error"[0] != "msgid"[0] && "error"[0] != "state"[0] && "error"[0] != "touid"[0];
  }

  lemma HeadSays(r: Record)
    ensures forall name :: Lookup(RecordMembers(r), name) ==
              if name == "content" then Str(r.content) else if name == "created_at_ms" then Str(Digits(r.createdMs))
              else if name == "expires_at_ms" then Str(Digits(r.expiresMs))
              else if name == "fromuid" then Int(r.fromuid) else Lookup(RecordTail(r), name)
  {
    var last := Member("fromuid", Int(r.fromuid), RecordTail(r));
    ThreeLookups("content", Str(r.content), "created_at_ms", NumberText(r.createdMs),
                 "expires_at_ms", NumberText(r.expiresMs), last);
  }

  lemma TailSays(r: Record)
    ensures forall name :: Lookup(RecordTail(r), name) ==
              if name == "message_id" then Str(Digits(r.messageId)) else if name == "message_status" then Int(r.status)
              else if name == "msgid" then Str(r.msgid) else Lookup(RecordEnd(r), name)
  {
    ThreeLookups("message_id", NumberText(r.messageId), "message_status", Int(r.status),
                 "msgid", Str(r.msgid), RecordEnd(r));
  }

  lemma EndSays(r: Record)
    ensures forall name :: Lookup(RecordEnd(r), name) ==
              if name == "seq" then Str(Digits(r.seqNo)) else if name == "state" then Str(r.state)
              else if name == "thread_id" then Str(Digits(r.threadId))
              else if name == "touid" then Int(r.touid) else Null
  {
    var last := Member("touid", Int(r.touid), End);
    ThreeLookups("seq", NumberText(r.seqNo), "state", Str(r.state), "thread_id", NumberText(r.threadId), last);
    assert forall name :: Lookup(last, name) == if "touid" == name then Int(r.touid) else Null;
  }

  lemma PlainRecordNames()
    ensures Plain("content") && Plain("created_at_ms") && Plain("expires_at_ms") && Plain("fromuid")
  {
  }

  lemma PlainTailNames()
    ensures Plain("message_id") && Plain("message_status") && Plain("msgid")
  {
  }

  lemma PlainEndNames()
    ensures Plain("seq") && Plain("state") && Plain("thread_id") && Plain("touid")
  {
  }

  lemma NumberTextSize(n: nat)
    requires n <= UINT64_MAX
    ensures |Compact(NumberText(n))| <= 22
  {
    UInt64Length(n);
    assert Plain(Digits(n));
    PlainText(Digits(n));
  }

  lemma StateSize(state: string)
    requires state in {"accepted", "delivered", "read"}
    ensures |Compact(Str(state))| <= 11
  {
    assert Plain(state);
    PlainText(state);
  }

  lemma EndSize(r: Record)
    requires RecordOk(r)
    ensures PlainNames(RecordEnd(r)) && MembersSize(RecordEnd(r)) <= 103
  {
    PlainEndNames();
    NumberTextSize(r.seqNo);
    NumberTextSize(r.threadId);
    StateSize(r.state);
    IntLength(r.touid);
    var d := Member("touid", Int(r.touid), End);
    var c := Member("thread_id", NumberText(r.threadId), d);
    var b := Member("state", Str(r.state), c);
    Sized("touid", d.value, End);
    Sized("thread_id", c.value, d);
    Sized("state", b.value, c);
    Sized("seq", NumberText(r.seqNo), b);
    assert RecordEnd(r) == Member("seq", NumberText(r.seqNo), b);
  }

  lemma TailSize(r: Record)
    requires RecordOk(r)
    ensures PlainNames(RecordTail(r)) && MembersSize(RecordTail(r)) <= 214
  {
    PlainTailNames();
    EndSize(r);
    NumberTextSize(r.messageId);
    IntLength(r.status);
    UuidLength(r.msgid);
    var b := Member("msgid", Str(r.msgid), RecordEnd(r));
    var a := Member("message_status", Int(r.status), b);
    Sized("msgid", b.value, RecordEnd(r));
    Sized("message_status", a.value, b);
    Sized("message_id", NumberText(r.messageId), a);
    assert RecordTail(r) == Member("message_id", NumberText(r.messageId), a);
  }

  /** Everything but the content adds at most 324 bytes. */
  lemma RecordSize(r: Record)
    requires RecordOk(r)
    ensures PlainNames(RecordMembers(r)) && MembersSize(RecordMembers(r)) <= 324 + |Quoted(r.content)|
    ensures RecordMembers(r).Member? && RecordMembers(r).name == "content"
  {
    PlainRecordNames();
    TailSize(r);
    NumberTextSize(r.createdMs);
    NumberTextSize(r.expiresMs);
    IntLength(r.fromuid);
    var c := Member("fromuid", Int(r.fromuid), RecordTail(r));
    var b := Member("expires_at_ms", NumberText(r.expiresMs), c);
    var a := Member("created_at_ms", NumberText(r.createdMs), b);
    Sized("fromuid", c.value, RecordTail(r));
    Sized("expires_at_ms", b.value, c);
    Sized("created_at_ms", a.value, b);
    Sized("content", Str(r.content), a);
    assert RecordMembers(r) == Member("content", Str(r.content), a);
  }
}
