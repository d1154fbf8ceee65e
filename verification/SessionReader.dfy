/** The reading half of `CSession`: frames arrive through partial reads, pass the packet
    budget and are posted to the logic queue, under a read deadline per phase. Everything
    here runs on the session's strand except `Close`, which any thread may call. */
module SessionReader {
  import opened Common
  import opened Framing
  import opened PacketBudget

  const UINT64 := 0x1_0000_0000_0000_0000
  const LOGIN_TIMEOUT := 15.0
  const HEAD_TIMEOUT := 120.0
  const BODY_TIMEOUT := 15.0

  /** Which completion handler the pending read will run. */
  datatype Phase = NoRead | ReadingHead | ReadingBody

  /** Why the close flag was first set. */
  datatype ClosedBy = Nobody | Caller | ReadFault | BadHeader | OverBudget | QueueFull

  datatype Arm = Arm(at: real, timeout: real)

  /** What has happened to a session so far. */
  datatype History = History(
    clock: real,              // the latest time seen; steady_clock never goes back
    closedBy: ClosedBy,
    received: seq<byte>,      // every byte delivered
    framed: seq<Message>,     // the complete frames among them
    pending: seq<byte>,       // the bytes after the last complete frame
    posted: seq<Message>,     // what the logic queue took
    arrivals: seq<real>,      // when packets were offered to the budget
    arms: seq<Arm>,           // every read deadline armed
    phaseSince: real)         // when the current phase began

  ghost predicate BudgetOk(h: History, full: Bucket, now: Bucket) {
    && Ordered(full.at, h.arrivals)
    && full.at <= now.at <= h.clock
    && After(full, h.arrivals) == now
    && (AdmitsAll(full, h.arrivals) <==> h.closedBy != OverBudget)
  }

  ghost predicate DeadlineOk(h: History, phase: Phase, generation: int) {
    && generation == |h.arms| % UINT64
    && (!phase.NoRead? ==> h.arms != [] && h.arms[|h.arms| - 1] == Arm(h.phaseSince, Timeout(phase)))
  }

  function Timeout(phase: Phase): real {
    if phase.ReadingBody? then BODY_TIMEOUT else HEAD_TIMEOUT
  }

  ghost predicate FramesOk(h: History) {
    && h.received == EncodeAll(h.framed) + h.pending
    && AllReadable(h.framed)
    && Unfinished(h.pending)
  }

  /** The buffer holds what the pending frame has brought in this phase. */
  ghost predicate BufferOk(pending: seq<byte>, phase: Phase, msgId: int, totalLen: nat, got: seq<byte>) {
    match phase
    case NoRead => true
    case ReadingHead => |got| < totalLen == HEAD_TOTAL_LEN && pending == got
    case ReadingBody =>
      && |got| < totalLen <= MAX_LENGTH && 1 <= msgId <= SHORT_MAX
      && pending == Big16(msgId) + Big16(totalLen) + got
  }

  /** The same with all the bytes of the phase there. */
  ghost predicate FullOk(pending: seq<byte>, phase: Phase, msgId: int, totalLen: nat, got: seq<byte>) {
    && |got| == totalLen
    && (phase.ReadingHead? ==> totalLen == HEAD_TOTAL_LEN && pending == got)
    && (phase.ReadingBody? ==>
          0 < totalLen <= MAX_LENGTH && 1 <= msgId <= SHORT_MAX && pending == Big16(msgId) + Big16(totalLen) + got)
  }

  /** What arrives belongs to the pending frame. */
  lemma MoreArrived(h: History, phase: Phase, msgId: int, totalLen: nat, got: seq<byte>, chunk: seq<byte>)
    requires h.received == EncodeAll(h.framed) + h.pending && !phase.NoRead?
    requires BufferOk(h.pending, phase, msgId, totalLen, got) && |got| + |chunk| <= totalLen
    ensures h.received + chunk == EncodeAll(h.framed) + (h.pending + chunk)
    ensures |got + chunk| < totalLen ==> BufferOk(h.pending + chunk, phase, msgId, totalLen, got + chunk)
    ensures |got + chunk| == totalLen ==> FullOk(h.pending + chunk, phase, msgId, totalLen, got + chunk)
  {
    Regroup(EncodeAll(h.framed), h.pending, chunk);
    if phase.ReadingBody? {
      Regroup(Big16(msgId) + Big16(totalLen), got, chunk);
    }
  }

  lemma Regroup(a: seq<byte>, b: seq<byte>, c: seq<byte>)
    ensures a + b + c == a + (b + c)
  {
  }

  /** Posts are the frames in order; only a close may hold one back. */
  ghost predicate PostsOk(h: History) {
    && h.posted <= h.framed
    && (h.closedBy in {Nobody, BadHeader} ==> h.posted == h.framed)
    && (Refused(h) ==> |h.framed| == |h.posted| + 1)
    && |h.arrivals| == |h.posted| + (if Refused(h) then 1 else 0)
    && (h.closedBy == BadHeader ==> BadHead(h.pending))
  }

  ghost predicate Refused(h: History) {
    h.closedBy == OverBudget || h.closedBy == QueueFull
  }

  /** A message completes the pending frame. */
  ghost function Framed(h: History, m: Message): History {
    h.(framed := h.framed + [m], pending := [])
  }

  lemma FramedKeepsFrames(h: History, m: Message)
    requires h.received == EncodeAll(h.framed) + h.pending && AllReadable(h.framed)
    requires Readable(m) && h.pending == Frame(m)
    ensures FramesOk(Framed(h, m))
  {
    EncodeAppend(h.framed, m);
    assert EncodeAll(h.framed + [m]) + [] == EncodeAll(h.framed + [m]);
  }

  lemma SameGeneration(n: nat, m: nat)
    requires n <= m && n % UINT64 == m % UINT64 && m - n < UINT64
    ensures n == m
  {
    assert n == n / UINT64 * UINT64 + n % UINT64;
    assert m == m / UINT64 * UINT64 + m % UINT64;
  }

  lemma NextGeneration(n: nat)
    ensures (n % UINT64 + 1) % UINT64 == (n + 1) % UINT64
  {
  }

  ghost function Armed(h: History, timeout: real, now: real): History {
    h.(arms := h.arms + [Arm(now, timeout)], phaseSince := now)
  }

  /** Fewer bytes than the header announced are no message yet. */
  lemma IncompleteBody(id: int, len: nat, part: seq<byte>)
    requires 1 <= id <= SHORT_MAX && |part| < len <= MAX_LENGTH
    ensures var s := Big16(id) + Big16(len) + part; Unfinished(s) && !BadHead(s)
  {
    var s := Big16(id) + Big16(len) + part;
    assert s[0] == Big16(id)[0] && s[1] == Big16(id)[1];
    assert s[2] == Big16(len)[0] && s[3] == Big16(len)[1];
  }

  class Session {
    const data: array<byte>
    var closed: bool
    var readGeneration: int
    var packetBudget: real
    var budgetAt: real
    var phase: Phase
    var readLen: nat
    var totalLen: nat
    var msgId: int
    ghost const full: Bucket      // the budget the constructor sets up
    ghost var loginArmed: Option<real>   // when the login deadline was armed
    ghost var h: History

    ghost predicate Valid()
      reads this, data
    {
      && Settled()
      && readLen <= MAX_LENGTH && BufferOk(h.pending, phase, msgId, totalLen, data[..readLen])
      && Unfinished(h.pending)
      && (phase.NoRead? && !closed ==> h.received == [] && h.arms == [])
      && (h.closedBy == BadHeader || Refused(h) ==> phase.NoRead?)
    }

    /** What also holds inside a handler, between two phases. */
    ghost predicate Settled()
      reads this
    {
      && data.Length == MAX_LENGTH
      && full.budget == CAPACITY
      && BudgetOk(h, full, Bucket(packetBudget, budgetAt))
      && DeadlineOk(h, phase, readGeneration)
      && h.received == EncodeAll(h.framed) + h.pending && AllReadable(h.framed)
      && PostsOk(h)
      && (closed <==> h.closedBy != Nobody)
    }

    constructor (now: real)
      ensures Valid() && fresh(data) && !closed && phase.NoRead? && loginArmed.None?
      ensures full == Bucket(CAPACITY, now) && h == History(now, Nobody, [], [], [], [], [], [], now)
    {
      data := new byte[MAX_LENGTH](_ => 0);
      closed, readGeneration, packetBudget, budgetAt := false, 0, CAPACITY, now;
      phase, readLen, totalLen, msgId := NoRead, 0, 0, 0;
      loginArmed := None;
      full, h := Bucket(CAPACITY, now), History(now, Nobody, [], [], [], [], [], [], now);
    }

    /** Any thread may close at any moment; only the first caller counts. */
    method Close(ghost why: ClosedBy)
      requires why != Nobody
      modifies this`closed, this`h
      ensures closed && h == if old(closed) then old(h) else old(h).(closedBy := why)
    {
      if closed { return; }
      closed, h := true, h.(closedBy := why);
    }

    method CloseByAnyThread()
      requires Valid()
      modifies this`closed, this`h
      ensures Valid() && closed && h == if old(closed) then old(h) else old(h).(closedBy := Caller)
    {
      Close(Caller);
    }

    method ArmReadDeadline(timeout: real, now: real)
      requires readGeneration == |h.arms| % UINT64
      modifies this`readGeneration, this`h
      ensures h == Armed(old(h), timeout, now) && readGeneration == |h.arms| % UINT64
    {
      NextGeneration(|h.arms|);
      readGeneration := (readGeneration + 1) % UINT64;
      h := Armed(h, timeout, now);
    }

    method Tick(now: real)
      requires Valid() && h.clock <= now
      modifies this`h
      ensures Valid() && h == old(h).(clock := now)
    {
      h := h.(clock := now);
    }

    /** The timer of the n-th arming completes, perhaps long after it expired. Unless 2^64 or
        more armings followed it, it closes only the phase it was armed for, and only after
        that phase has lasted its full timeout. */
    method OnReadDeadline(ghost n: nat, generation: int, aborted: bool, now: real)
      requires Valid() && h.clock <= now
      requires 1 <= n <= |h.arms| && generation == n % UINT64
      requires !aborted ==> h.arms[n - 1].at + h.arms[n - 1].timeout <= now
      modifies this`closed, this`h
      ensures Valid() && h.clock == now && h.posted == old(h.posted)
      ensures closed <==> old(closed) || (!aborted && generation == readGeneration)
      ensures !old(closed) && closed && |h.arms| - n < UINT64 ==>
                n == |h.arms| && !phase.NoRead? && now - h.phaseSince >= (if phase.ReadingBody? then 15.0 else 120.0)
    {
      Tick(now);
      if !aborted && generation == readGeneration {
        CloseByAnyThread();
        if |h.arms| - n < UINT64 { SameGeneration(n, |h.arms|); }
      }
    }

    /** Takes a token for a complete packet: granted exactly while no window of the session's
        arrivals breaks the bucket's law. */
    method AcceptPacket(now: real) returns (ok: bool)
      requires BudgetOk(h, full, Bucket(packetBudget, budgetAt)) && full.budget == CAPACITY
      requires h.clock == now && !closed && h.closedBy == Nobody
      modifies this`packetBudget, this`budgetAt, this`h, this`closed
      ensures BudgetOk(h, full, Bucket(packetBudget, budgetAt))
      ensures h == old(h).(arrivals := old(h.arrivals) + [now], closedBy := if ok then Nobody else OverBudget)
      ensures closed == !ok
      ensures ok <==> AdmitsAll(full, h.arrivals)
      ensures ok <==> WindowLaw(h.arrivals)
      ensures 0.0 <= packetBudget <= 80.0
    {
      ghost var arrivals := h.arrivals + [now];
      AfterAppend(full, h.arrivals, now);
      LastArrival(full, h.arrivals);
      OrderedAppend(full.at, h.arrivals, now);
      OrderedMeans(full.at, arrivals);
      BucketIsWindowLaw(full.at, arrivals);
      BudgetBounded(full, arrivals);
      h := h.(arrivals := arrivals);

      var refilled := packetBudget + (now - budgetAt) * REFILL;
      packetBudget := if refilled < CAPACITY then refilled else CAPACITY;
      budgetAt := now;
      if packetBudget < 1.0 {
        Close(OverBudget);
        return false;
      }
      packetBudget := packetBudget - 1.0;
      return true;
    }

    /** Arms the login deadline and begins to read, unless the session was closed before. */
    method Start(now: real)
      requires Valid() && h.clock <= now && phase.NoRead? && h.received == []
      modifies this, data
      ensures Valid() && closed == old(closed)
      ensures closed ==> h == old(h).(clock := now) && loginArmed == old(loginArmed)
      ensures !closed ==> phase.ReadingHead? && h == Armed(old(h).(clock := now), 120.0, now)
      ensures !closed ==> loginArmed == Some(now)
    {
      h := h.(clock := now);
      if closed { return; }
      loginArmed := Some(now);
      AsyncReadHead(now);
    }

    /** The login timer completes: it closes exactly a session that has no user yet, and only
        15 s after it was started. */
    method OnLoginDeadline(aborted: bool, uid: int, now: real)
      requires Valid() && h.clock <= now && loginArmed.Some?
      requires !aborted ==> loginArmed.value + LOGIN_TIMEOUT <= now
      modifies this`closed, this`h
      ensures Valid() && h.clock == now && h.posted == old(h.posted)
      ensures closed <==> old(closed) || (!aborted && uid <= 0)
      ensures !old(closed) && closed ==> now - loginArmed.value >= 15.0
    {
      Tick(now);
      if !aborted && uid <= 0 { CloseByAnyThread(); }
    }

    /** Arms the deadline, then reads the 4 header bytes of the next frame. */
    method AsyncReadHead(now: real)
      requires Settled() && phase.NoRead? && h.pending == []
      modifies this`phase, this`readLen, this`totalLen, this`readGeneration, this`h, data
      ensures closed ==> h == old(h) && phase == old(phase) && readLen == old(readLen) && Settled()
      ensures !closed ==> Valid() && phase.ReadingHead? && h == Armed(old(h), 120.0, now)
    {
      if closed { return; }
      ArmReadDeadline(HEAD_TIMEOUT, now);
      var started := AsyncReadFull(HEAD_TOTAL_LEN, ReadingHead);
    }

    method AsyncReadBody(len: nat, now: real)
      requires Settled() && phase.NoRead? && 1 <= len <= MAX_LENGTH && 1 <= msgId <= SHORT_MAX
      requires h.pending == Big16(msgId) + Big16(len)
      modifies this`phase, this`readLen, this`totalLen, this`readGeneration, this`h, data
      ensures closed ==> h == old(h) && phase == old(phase) && readLen == old(readLen) && Settled()
      ensures !closed ==> Valid() && phase.ReadingBody? && totalLen == len && h == Armed(old(h), 15.0, now)
    {
      if closed { return; }
      ArmReadDeadline(BODY_TIMEOUT, now);
      var started := AsyncReadFull(len, ReadingBody);
      assert h.pending == Big16(msgId) + Big16(len) + [];
      IncompleteBody(msgId, len, []);
    }

    /** Clears the buffer and asks the socket for `maxLength` bytes; an impossible length is an
        invalid argument instead. */
    method AsyncReadFull(maxLength: nat, next: Phase) returns (started: bool)
      requires data.Length == MAX_LENGTH
      modifies this`phase, this`readLen, this`totalLen, data
      ensures started <==> 0 < maxLength <= MAX_LENGTH
      ensures started ==> phase == next && readLen == 0 && totalLen == maxLength
      ensures !started ==> phase == old(phase) && readLen == old(readLen) && totalLen == old(totalLen)
      ensures !started ==> data[..] == old(data[..])
    {
      if maxLength == 0 || maxLength > data.Length { return false; }
      forall i | 0 <= i < MAX_LENGTH { data[i] := 0; }
      phase, readLen, totalLen := next, 0, maxLength;
      started := true;
    }

    /** The pending read completes with an error. */
    method OnReadError(now: real)
      requires Valid() && !phase.NoRead? && h.clock <= now
      modifies this`closed, this`h, this`phase
      ensures Valid() && closed && phase.NoRead?
      ensures h == old(h).(clock := now, closedBy := if old(closed) then old(h.closedBy) else ReadFault)
    {
      h := h.(clock := now);
      Close(ReadFault);
      phase := NoRead;
    }

    /** The pending read delivers at most the bytes asked for. `queueOpen` says whether the
        logic queue has room; `closedMeanwhile`, whether another thread closes the session
        after its close flag was first tested here. */
    method OnReadSome(chunk: seq<byte>, now: real, queueOpen: bool, closedMeanwhile: bool)
      requires Valid() && !phase.NoRead? && h.clock <= now && |chunk| <= totalLen - readLen
      modifies this`phase, this`readLen, this`totalLen, this`msgId, this`closed, this`readGeneration
      modifies this`packetBudget, this`budgetAt, this`h, data
      ensures Valid() && h.clock == now && h.received == old(h.received) + chunk
      ensures Onward(old(h), h, queueOpen, closedMeanwhile, full)
      // a fragment that completes neither header nor body prolongs no deadline, the last one of
      // either starts the next phase's
      ensures old(readLen) + |chunk| == old(totalLen) && !closed ==> h.phaseSince == now
      ensures old(readLen) + |chunk| < old(totalLen) ==>
                phase == old(phase) && h.arms == old(h.arms) && h.phaseSince == old(h.phaseSince)
    {
      h := h.(clock := now);
      MoreArrived(h, phase, msgId, totalLen, data[..readLen], chunk);
      Deliver(chunk);
      if readLen < totalLen {
        KeepReading();
      } else {
        OnReadFull(now, queueOpen, closedMeanwhile);
      }
    }

    /** All the bytes asked for have arrived: the handler of this phase runs. */
    method OnReadFull(now: real, queueOpen: bool, closedMeanwhile: bool)
      requires Settled() && h.clock == now && !phase.NoRead? && h.closedBy != BadHeader && !Refused(h)
      requires readLen == totalLen <= MAX_LENGTH && FullOk(h.pending, phase, msgId, totalLen, data[..readLen])
      modifies this`phase, this`readLen, this`totalLen, this`msgId, this`closed, this`readGeneration
      modifies this`packetBudget, this`budgetAt, this`h, data
      ensures Valid() && h.clock == now && h.received == old(h.received)
      ensures Onward(old(h), h, queueOpen, closedMeanwhile, full)
      ensures !closed ==> h.phaseSince == now
    {
      if phase.ReadingHead? {
        HandleHead(now, closedMeanwhile);
      } else {
        HandleBody(now, queueOpen, closedMeanwhile);
      }
    }

    /** `asyncReadLen` asks again for what is still missing; nothing else changes. */
    lemma KeepReading()
      requires Settled() && !phase.NoRead? && h.closedBy != BadHeader && !Refused(h)
      requires readLen < totalLen <= MAX_LENGTH && BufferOk(h.pending, phase, msgId, totalLen, data[..readLen])
      ensures Valid() && !BadHead(h.pending)
    {
      if phase.ReadingBody? {
        IncompleteBody(msgId, totalLen, data[..readLen]);
      }
    }

    /** The socket fills the buffer from where the previous partial read stopped. */
    method Deliver(chunk: seq<byte>)
      requires readLen + |chunk| <= totalLen <= data.Length
      modifies this`readLen, this`h, data
      ensures readLen == old(readLen) + |chunk|
      ensures data[..readLen] == old(data[..readLen]) + chunk
      ensures h == old(h).(received := old(h.received) + chunk, pending := old(h.pending) + chunk)
    {
      forall i | 0 <= i < |chunk| { data[readLen + i] := chunk[i]; }
      h := h.(received := h.received + chunk, pending := h.pending + chunk);
      readLen := readLen + |chunk|;
    }

    /** The id and the length in the buffer, in this order: `good` unless one is out of range. */
    method ReadHead() returns (good: bool, id: int, len: nat)
      requires data.Length == MAX_LENGTH && |h.pending| == HEAD_TOTAL_LEN && h.pending == data[..HEAD_TOTAL_LEN]
      ensures good <==> GoodHead(h.pending)
      ensures good ==> id == h.pending[0] as int * 256 + h.pending[1] as int
      ensures good ==> len == h.pending[2] as int * 256 + h.pending[3] as int
      ensures good ==> 1 <= id <= SHORT_MAX && 1 <= len <= MAX_LENGTH && h.pending == Big16(id) + Big16(len)
    {
      good, len := false, 0;
      id := Word(data[0], data[1]);
      if id == 0 || id > SHORT_MAX { return; }
      len := Word(data[2], data[3]);
      if len == 0 || len > MAX_LENGTH { return; }
      good := true;
      Big16OfWord(data[0], data[1]);
      Big16OfWord(data[2], data[3]);
    }

    method HandleHead(now: real, closedMeanwhile: bool)
      requires Settled() && phase.ReadingHead? && readLen == |h.pending| == HEAD_TOTAL_LEN
      requires h.pending == data[..HEAD_TOTAL_LEN]
      requires h.closedBy != BadHeader && !Refused(h)
      modifies this`phase, this`readLen, this`totalLen, this`msgId, this`closed, this`readGeneration, this`h, data
      ensures Valid() && h.framed == old(h.framed)
      ensures h.clock == old(h.clock) && h.received == old(h.received) && Stayed(old(h), h, closedMeanwhile)
      ensures !closed ==> h.phaseSince == now
    {
      phase := NoRead;
      if closed { return; }
      var good, id, len := ReadHead();
      if !good {
        Close(BadHeader);
        return;
      }
      msgId := id;
      if closedMeanwhile { Close(Caller); }
      AsyncReadBody(len, now);
    }

    /** A complete packet goes to the budget and, if that admits it, to the logic queue, which
        closes the session when it has no room. */
    method Offer(m: Message, now: real, queueOpen: bool) returns (ok: bool)
      requires BudgetOk(h, full, Bucket(packetBudget, budgetAt)) && full.budget == CAPACITY
      requires h.clock == now && !closed && h.closedBy == Nobody
      requires h.framed == h.posted + [m] && |h.arrivals| == |h.posted|
      modifies this`packetBudget, this`budgetAt, this`h, this`closed
      ensures BudgetOk(h, full, Bucket(packetBudget, budgetAt)) && PostsOk(h)
      ensures ok <==> AdmitsAll(full, h.arrivals)
      ensures closed <==> h.closedBy != Nobody
      ensures h == old(h).(arrivals := old(h.arrivals) + [now],
                           posted := if ok && queueOpen then old(h.framed) else old(h.posted),
                           closedBy := if !ok then OverBudget else if !queueOpen then QueueFull else Nobody)
    {
      ok := AcceptPacket(now);
      if !ok { return; }
      if queueOpen {
        h := h.(posted := h.posted + [m]);
      } else {
        Close(QueueFull);
      }
    }

    method HandleBody(now: real, queueOpen: bool, closedMeanwhile: bool)
      requires Settled() && h.clock == now && phase.ReadingBody? && readLen == totalLen
      requires 0 < totalLen <= MAX_LENGTH && 1 <= msgId <= SHORT_MAX
      requires h.pending == Big16(msgId) + Big16(totalLen) + data[..totalLen]
      requires h.closedBy != BadHeader && !Refused(h)
      modifies this`phase, this`readLen, this`totalLen, this`closed, this`readGeneration
      modifies this`packetBudget, this`budgetAt, this`h, data
      ensures Valid() && h.clock == now && h.received == old(h.received) && h.pending == []
      ensures |h.framed| == |old(h.framed)| + 1
      ensures h.framed == old(h.framed) + [Message(old(msgId), old(data[..totalLen]))]
      ensures Completed(old(h), h, queueOpen, closedMeanwhile, full)
      ensures !closed ==> h.phaseSince == now
    {
      var m := Message(msgId, data[..totalLen]);
      assert h.pending == Frame(m);
      FramedKeepsFrames(h, m);
      h := Framed(h, m);
      phase := NoRead;
      if closed { return; }
      var ok := Offer(m, now, queueOpen);
      if !ok { return; }
      if closedMeanwhile { Close(Caller); }
      AsyncReadHead(now);
    }
  }

  /** What a complete frame does: posted while the session is open, within budget and the
      queue has room; otherwise nothing more is ever posted. */
  ghost predicate Completed(h: History, k: History, queueOpen: bool, closedMeanwhile: bool, full: Bucket) {
    if h.closedBy != Nobody then
      k.closedBy == h.closedBy && k.posted == h.posted && k.arrivals == h.arrivals
    else
      && k.arrivals == h.arrivals + [k.clock]
      && k.posted == (if AdmitsAll(full, k.arrivals) && queueOpen then k.framed else h.posted)
      && k.closedBy == (if !AdmitsAll(full, k.arrivals) then OverBudget
                        else if !queueOpen then QueueFull
                        else if closedMeanwhile then Caller else Nobody)
  }

  /** Bytes that complete no frame: of themselves they close the session only by a bad header. */
  ghost predicate Stayed(h: History, k: History, closedMeanwhile: bool) {
    && k.posted == h.posted && k.arrivals == h.arrivals
    && (h.closedBy == Nobody && BadHead(k.pending) ==> k.closedBy == BadHeader)
    && (h.closedBy != Nobody || !BadHead(k.pending) ==>
          k.closedBy == h.closedBy || (closedMeanwhile && h.closedBy == Nobody && k.closedBy == Caller))
  }

  /** What one completion of a read does. */
  ghost predicate Onward(h: History, k: History, queueOpen: bool, closedMeanwhile: bool, full: Bucket) {
    if |k.framed| == |h.framed| then Stayed(h, k, closedMeanwhile)
    else Completed(h, k, queueOpen, closedMeanwhile, full)
  }

  lemma ReadingOf(h: History)
    requires FramesOk(h)
    ensures Parse(h.received) == Parsed(h.framed, BadHead(h.pending), h.pending)
  {
    ParseEncoded(h.framed, h.pending);
    assert h.framed + [] == h.framed;
  }

  /** In every state a session can reach, its posts are read off the byte stream alone. */
  lemma PostsAreTheStream(s: Session)
    requires s.Valid()
    ensures var p := Parse(s.h.received);
            && s.h.posted <= p.msgs
            && (s.h.closedBy in {Nobody, BadHeader} ==> s.h.posted == p.msgs)
            && (s.h.closedBy == BadHeader ==> p.bad)
            && (Refused(s.h) ==> |s.h.posted| + 1 == |p.msgs|)
  {
    ReadingOf(s.h);
  }

  lemma SentIsFramed(h: History, sent: seq<Message>)
    requires FramesOk(h) && AllReadable(sent) && h.received == EncodeAll(sent)
    ensures h.framed == sent && h.pending == [] && !BadHead(h.pending)
  {
    ParseEncoded(sent, []);
    assert EncodeAll(sent) + [] == EncodeAll(sent) && sent + [] == sent;
    ReadingOf(h);
  }

  /** Whatever the partial reads were: once the frames of `sent` have arrived, exactly they
      are posted, in order, unless somebody closed the session or its last packet was refused. */
  lemma FramingRoundTrip(s: Session, sent: seq<Message>)
    requires s.Valid() && AllReadable(sent) && s.h.received == EncodeAll(sent)
    ensures s.h.closedBy != BadHeader && s.h.posted <= sent
    ensures !s.closed ==> s.h.posted == sent && s.h.pending == []
    ensures Refused(s.h) ==> sent != [] && s.h.posted == sent[..|sent| - 1]
  {
    SentIsFramed(s.h, sent);
  }

  /** The budget closes a session exactly when its packets broke the window law. */
  lemma BudgetClosesByLaw(s: Session)
    requires s.Valid()
    ensures s.h.closedBy == OverBudget <==> !WindowLaw(s.h.arrivals)
    ensures |s.h.arrivals| == |s.h.posted| + (if Refused(s.h) then 1 else 0)
  {
    OrderedMeans(s.full.at, s.h.arrivals);
    BucketIsWindowLaw(s.full.at, s.h.arrivals);
  }

  /** Two sessions fed the same bytes, however cut, post the same as long as both are open. */
  lemma FragmentationInvisible(s: Session, t: Session)
    requires s.Valid() && t.Valid() && s.h.received == t.h.received && !s.closed && !t.closed
    ensures s.h.posted == t.h.posted && s.h.pending == t.h.pending
  {
    ReadingOf(s.h);
    ReadingOf(t.h);
  }
}
