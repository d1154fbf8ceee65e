/** Who may have a request handled. On every chat server one logic worker takes one message at
    a time through the gate of `DealMsg`; the servers share a Redis, which holds one token
    digest per user. Login services and expiry change those at any moment. */
module AuthGate {
  import opened Common

  type Server = nat
  type Digest = string

  const MSG_CHAT_LOGIN := 1005
  const MSG_LOGOUT := 1042

  /** The ids `RegisterCallBacks` fills in. */
  const REGISTERED: set<int> :=
    {1042, 1040, 1020, 1022, 1024, 1026, 1044, 1046, 1005, 1007, 1009, 1012, 1018, 1015}

  datatype Session = Session(server: Server, closed: bool, uid: int, digest: Digest)

  /** How far a worker is with the message it took. */
  datatype Worker =
    | Idle
    | Reading(sid: Sid, id: int)                        // past the first test, token not read yet
    | Admitted(sid: Sid, id: int)                       // through the gate
    | LoggingIn(sid: Sid, uid: int, digest: Digest)     // the login's digest matched

  datatype Log =
    | Wrote(uid: int, digest: Digest)                                   // the token key was set
    | Passed(at: Server, sid: Sid, uid: int, digest: Digest)            // a check found this digest stored
    | Handled(at: Server, sid: Sid, id: int, uid: int, digest: Digest)  // a handler began under it
    | LoggedIn(at: Server, sid: Sid, uid: int, digest: Digest)          // a session was given it
    | LoggedOut(at: Server, uid: int, digest: Digest)                   // a logout revoked it

  datatype State = State(
    sessions: map<Sid, Session>,
    tokens: map<int, Digest>,       // the `_utoken<uid>` keys
    workers: map<Server, Worker>,   // those that are not idle
    log: seq<Log>)

  const START := State(map[], map[], map[], [])

  datatype Event =
    | Connect(server: Server, sid: Sid)
    | AnyoneCloses(sid: Sid)
    | TokenSet(uid: int, digest: Digest)
    | TokenGone(uid: int)
    | Take(sid: Sid, id: int)
    | ReadToken(at: Server, answered: bool)           // false: Redis gave no answer
    | Run(at: Server, reached: bool)                  // false: the logout's delete did not reach Redis
    | LoginReads(at: Server, uid: int, digest: Digest, answered: bool)
    | LoginStores(at: Server)
    | LoginFails(at: Server)

  function Work(s: State, v: Server): Worker {
    if v in s.workers then s.workers[v] else Idle
  }

  function WithWork(s: State, v: Server, w: Worker): State {
    s.(workers := if w.Idle? then s.workers - {v} else s.workers[v := w])
  }

  predicate Expected(tokens: map<int, Digest>, uid: int, digest: Digest) {
    uid in tokens && tokens[uid] == digest
  }

  /** The test before the token is read: known id, and logged in unless this is the login. */
  predicate Eligible(s: Session, id: int) {
    id in REGISTERED && if id == MSG_CHAT_LOGIN then s.uid == 0 else s.uid > 0
  }

  predicate Enabled(s: State, e: Event) {
    match e
    case Connect(_, x) => x !in s.sessions
    case AnyoneCloses(x) => x in s.sessions
    case TokenSet(_, _) => true
    case TokenGone(_) => true
    case Take(x, _) => x in s.sessions && Work(s, s.sessions[x].server).Idle?
    case ReadToken(v, _) => Work(s, v).Reading? && Work(s, v).sid in s.sessions
    case Run(v, _) => Work(s, v).Admitted? && Work(s, v).id != MSG_CHAT_LOGIN && Work(s, v).sid in s.sessions
    case LoginReads(v, u, _, _) => Work(s, v).Admitted? && Work(s, v).id == MSG_CHAT_LOGIN && u > 0
    case LoginStores(v) => Work(s, v).LoggingIn? && Work(s, v).sid in s.sessions
    case LoginFails(v) => Work(s, v).LoggingIn? || (Work(s, v).Admitted? && Work(s, v).id == MSG_CHAT_LOGIN)
  }

  function CloseSession(s: State, x: Sid): State
    requires x in s.sessions
  {
    s.(sessions := s.sessions[x := s.sessions[x].(closed := true)])
  }

  /** `DealMsg` up to the token: skip, close or go on. A closed session is skipped, except
      that its logout still counts. */
  function AfterTake(s: State, x: Sid, id: int): State
    requires x in s.sessions
  {
    var c := s.sessions[x];
    if c.closed && id != MSG_LOGOUT then s
    else if !Eligible(c, id) then CloseSession(s, x)
    else WithWork(s, c.server, if id == MSG_CHAT_LOGIN then Admitted(x, id) else Reading(x, id))
  }

  function AfterReadToken(s: State, v: Server, answered: bool): State
    requires Work(s, v).Reading? && Work(s, v).sid in s.sessions
  {
    var x, id := Work(s, v).sid, Work(s, v).id;
    var c := s.sessions[x];
    if answered && Expected(s.tokens, c.uid, c.digest) then
      WithWork(s, v, Admitted(x, id)).(log := s.log + [Passed(v, x, c.uid, c.digest)])
    else
      WithWork(CloseSession(s, x), v, Idle)
  }

  /** A handler runs. A logout deletes the token key if it still holds the session's digest,
      in one step, and closes the session whether or not Redis could be reached. */
  function AfterRun(s: State, v: Server, reached: bool): State
    requires Work(s, v).Admitted? && Work(s, v).sid in s.sessions
  {
    var x, id := Work(s, v).sid, Work(s, v).id;
    var c := s.sessions[x];
    var t := WithWork(s, v, Idle).(log := s.log + [Handled(v, x, id, c.uid, c.digest)]);
    if id != MSG_LOGOUT then t
    else
      var gone := if reached then Revoking(s.tokens, c.uid, c.digest) else s.tokens;
      CloseSession(t, x).(tokens := gone,
        log := if reached then t.log + [LoggedOut(v, c.uid, c.digest)] else t.log)
  }

  function AfterLoginReads(s: State, v: Server, uid: int, digest: Digest, answered: bool): State
    requires Work(s, v).Admitted?
  {
    var x := Work(s, v).sid;
    if answered && Expected(s.tokens, uid, digest) then
      WithWork(s, v, LoggingIn(x, uid, digest)).(log := s.log + [Passed(v, x, uid, digest)])
    else
      WithWork(s, v, Idle)
  }

  function AfterLoginStores(s: State, v: Server): State
    requires Work(s, v).LoggingIn? && Work(s, v).sid in s.sessions
  {
    var x, u, d := Work(s, v).sid, Work(s, v).uid, Work(s, v).digest;
    WithWork(s, v, Idle).(sessions := s.sessions[x := s.sessions[x].(uid := u, digest := d)],
                          log := s.log + [LoggedIn(v, x, u, d)])
  }

  function Step(s: State, e: Event): State
    requires Enabled(s, e)
  {
    match e
    case Connect(v, x) => s.(sessions := s.sessions[x := Session(v, false, 0, "")])
    case AnyoneCloses(x) => CloseSession(s, x)
    case TokenSet(u, d) => s.(tokens := s.tokens[u := d], log := s.log + [Wrote(u, d)])
    case TokenGone(u) => s.(tokens := s.tokens - {u})
    case Take(x, id) => AfterTake(s, x, id)
    case ReadToken(v, answered) => AfterReadToken(s, v, answered)
    case Run(v, reached) => AfterRun(s, v, reached)
    case LoginReads(v, u, d, answered) => AfterLoginReads(s, v, u, d, answered)
    case LoginStores(v) => AfterLoginStores(s, v)
    case LoginFails(v) => WithWork(s, v, Idle)
  }

  ghost predicate Possible(s: State, run: seq<Event>)
    decreases |run|
  {
    run == [] || (Enabled(s, run[0]) && Possible(Step(s, run[0]), run[1..]))
  }

  ghost function End(s: State, run: seq<Event>): State
    requires Possible(s, run)
    decreases |run|
  {
    if run == [] then s else End(Step(s, run[0]), run[1..])
  }

  // ---- the invariant ----

  /** The last thing the log says about this digest of this user is that it was revoked. */
  ghost predicate Revoked(log: seq<Log>, uid: int, digest: Digest)
    decreases |log|
  {
    log != [] &&
      var last := log[|log| - 1];
      IsLogout(last, uid, digest) || (last != Wrote(uid, digest) && Revoked(log[..|log| - 1], uid, digest))
  }

  predicate IsLogout(l: Log, uid: int, digest: Digest) {
    l.LoggedOut? && l.uid == uid && l.digest == digest
  }

  /** The entry was made by this server's worker. */
  predicate Own(l: Log, v: Server) {
    !l.Wrote? && l.at == v
  }

  /** A worker's own last entry. */
  ghost function LastOwn(log: seq<Log>, v: Server): seq<Log>
    decreases |log|
  {
    if log == [] then []
    else if Own(log[|log| - 1], v) then [log[|log| - 1]]
    else LastOwn(log[..|log| - 1], v)
  }

  /** The entry acts on a digest that was checked before: in a handler or in a login. */
  predicate Acts(l: Log) {
    l.Handled? || l.LoggedIn?
  }

  /** The check that must lie behind such an entry. */
  function GateOf(l: Log): Log
    requires Acts(l)
  {
    Passed(l.at, l.sid, l.uid, l.digest)
  }

  /** Whoever acts passed its own check right before, as a known user; and no check finds a
      revoked digest. */
  ghost predicate EntryOk(before: seq<Log>, l: Log) {
    && (Acts(l) ==> l.uid > 0 && LastOwn(before, l.at) == [GateOf(l)])
    && (l.Handled? ==> l.id != MSG_CHAT_LOGIN)
    && (l.Passed? ==> !Revoked(before, l.uid, l.digest))
  }

  ghost predicate LogOk(log: seq<Log>)
    decreases |log|
  {
    log == [] || (EntryOk(log[..|log| - 1], log[|log| - 1]) && LogOk(log[..|log| - 1]))
  }

  ghost predicate WorkerOk(s: State, v: Server) {
    match Work(s, v)
    case Idle => true
    case Reading(x, id) => x in s.sessions && s.sessions[x].server == v && s.sessions[x].uid > 0 && id != MSG_CHAT_LOGIN
    case Admitted(x, id) =>
      && x in s.sessions && s.sessions[x].server == v
      && var c := s.sessions[x];
         if id == MSG_CHAT_LOGIN then c.uid == 0
         else c.uid > 0 && LastOwn(s.log, v) == [Passed(v, x, c.uid, c.digest)]
    case LoggingIn(x, u, d) =>
      && x in s.sessions && s.sessions[x].server == v && s.sessions[x].uid == 0
      && u > 0 && LastOwn(s.log, v) == [Passed(v, x, u, d)]
  }

  ghost predicate RevokedAreGone(log: seq<Log>, tokens: map<int, Digest>) {
    forall u, d | Revoked(log, u, d) :: !Expected(tokens, u, d)
  }

  ghost predicate Inv(s: State) {
    && LogOk(s.log) && RevokedAreGone(s.log, s.tokens)
    && (forall v :: WorkerOk(s, v))
    && (forall x | x in s.sessions :: s.sessions[x].uid >= 0)
  }

  lemma Appended(log: seq<Log>, l: Log)
    ensures forall u, d :: Revoked(log + [l], u, d)
                           <==> IsLogout(l, u, d) || (l != Wrote(u, d) && Revoked(log, u, d))
    ensures forall v :: LastOwn(log + [l], v) == if Own(l, v) then [l] else LastOwn(log, v)
    ensures LogOk(log + [l]) <==> LogOk(log) && EntryOk(log, l)
  {
    assert (log + [l])[..|log + [l]| - 1] == log;
  }

  lemma RunHandlerKeeps(s: State, v: Server, reached: bool)
    requires Inv(s) && Enabled(s, Run(v, reached))
    ensures Inv(Step(s, Run(v, reached)))
  {
    var x, id := Work(s, v).sid, Work(s, v).id;
    var t := HandledKeeps(s, v);
    if id == MSG_LOGOUT {
      if reached { LogoutKeeps(t, v, x); } else { PlainKeeps(t, AnyoneCloses(x)); }
    }
  }

  lemma HandledKeeps(s: State, v: Server) returns (t: State)
    requires Inv(s) && Work(s, v).Admitted? && Work(s, v).id != MSG_CHAT_LOGIN && Work(s, v).sid in s.sessions
    ensures var x, id := Work(s, v).sid, Work(s, v).id;
            var c := s.sessions[x];
            t == WithWork(s, v, Idle).(log := s.log + [Handled(v, x, id, c.uid, c.digest)])
    ensures Inv(t) && Work(t, v).Idle?
  {
    assert WorkerOk(s, v);
    var x, id := Work(s, v).sid, Work(s, v).id;
    var l := Handled(v, x, id, s.sessions[x].uid, s.sessions[x].digest);
    t := WithWork(s, v, Idle).(log := s.log + [l]);
    ActLog(s.log, s.tokens, l);
    OthersKeep(s, t, v);
    assert Work(t, v).Idle? && WorkerOk(t, v);
  }

  lemma ActLog(log: seq<Log>, tokens: map<int, Digest>, l: Log)
    requires LogOk(log) && RevokedAreGone(log, tokens) && Acts(l) && EntryOk(log, l)
    ensures LogOk(log + [l]) && RevokedAreGone(log + [l], tokens)
    ensures forall w | w != l.at :: LastOwn(log + [l], w) == LastOwn(log, w)
  {
    Appended(log, l);
  }

  /** What a logout that reaches Redis does after it was noted as handled. */
  lemma LogoutKeeps(s: State, v: Server, x: Sid)
    requires Inv(s) && Work(s, v).Idle? && x in s.sessions
    ensures var c := s.sessions[x];
            Inv(CloseSession(s, x).(tokens := Revoking(s.tokens, c.uid, c.digest),
                                    log := s.log + [LoggedOut(v, c.uid, c.digest)]))
  {
    var c := s.sessions[x];
    var l := LoggedOut(v, c.uid, c.digest);
    var t := CloseSession(s, x).(tokens := Revoking(s.tokens, c.uid, c.digest), log := s.log + [l]);
    LogoutLog(s.log, s.tokens, l);
    OthersKeep(s, t, v);
    assert Work(t, v).Idle? && WorkerOk(t, v);
  }

  /** Compare and delete. */
  function Revoking(tokens: map<int, Digest>, uid: int, digest: Digest): map<int, Digest> {
    if Expected(tokens, uid, digest) then tokens - {uid} else tokens
  }

  lemma LogoutLog(log: seq<Log>, tokens: map<int, Digest>, l: Log)
    requires LogOk(log) && RevokedAreGone(log, tokens) && l.LoggedOut?
    ensures LogOk(log + [l]) && RevokedAreGone(log + [l], Revoking(tokens, l.uid, l.digest))
    ensures forall w | w != l.at :: LastOwn(log + [l], w) == LastOwn(log, w)
  {
    Appended(log, l);
  }

  /** A step of one worker leaves the others where they were. */
  lemma OthersKeep(s: State, t: State, v: Server)
    requires forall w :: WorkerOk(s, w)
    requires forall w | w != v :: Work(t, w) == Work(s, w) && LastOwn(t.log, w) == LastOwn(s.log, w)
    requires forall x | x in s.sessions :: x in t.sessions && t.sessions[x].server == s.sessions[x].server
    requires forall x | x in s.sessions && s.sessions[x].server != v ::
               t.sessions[x].uid == s.sessions[x].uid && t.sessions[x].digest == s.sessions[x].digest
    ensures forall w | w != v :: WorkerOk(t, w)
  {
    forall w | w != v ensures WorkerOk(t, w) { assert WorkerOk(s, w); }
  }

  lemma GateKeeps(s: State, v: Server, answered: bool)
    requires Inv(s) && Enabled(s, ReadToken(v, answered))
    ensures Inv(Step(s, ReadToken(v, answered)))
  {
    assert WorkerOk(s, v);
    var x, id := Work(s, v).sid, Work(s, v).id;
    var c := s.sessions[x];
    if answered && Expected(s.tokens, c.uid, c.digest) {
      PassKeeps(s, v, Admitted(x, id), c.uid, c.digest);
    } else {
      OthersKeep(s, Step(s, ReadToken(v, answered)), v);
    }
  }

  /** A check that finds its digest stored moves its worker on. */
  lemma PassKeeps(s: State, v: Server, w: Worker, uid: int, digest: Digest)
    requires Inv(s) && Expected(s.tokens, uid, digest) && uid > 0 && !w.Idle?
    requires w.sid in s.sessions && s.sessions[w.sid].server == v
    requires w.LoggingIn? ==> s.sessions[w.sid].uid == 0 && w.uid == uid && w.digest == digest
    requires !w.LoggingIn? ==> w.Admitted? && w.id != MSG_CHAT_LOGIN
    requires !w.LoggingIn? ==> s.sessions[w.sid].uid == uid && s.sessions[w.sid].digest == digest
    ensures Inv(WithWork(s, v, w).(log := s.log + [Passed(v, w.sid, uid, digest)]))
  {
    var l := Passed(v, w.sid, uid, digest);
    var t := WithWork(s, v, w).(log := s.log + [l]);
    PassLog(s.log, s.tokens, l);
    OthersKeep(s, t, v);
    PassedWorkerOk(t, v, w, uid, digest);
  }

  lemma PassedWorkerOk(t: State, v: Server, w: Worker, uid: int, digest: Digest)
    requires !w.Idle? && Work(t, v) == w && w.sid in t.sessions && t.sessions[w.sid].server == v && uid > 0
    requires LastOwn(t.log, v) == [Passed(v, w.sid, uid, digest)]
    requires w.LoggingIn? ==> t.sessions[w.sid].uid == 0 && w.uid == uid && w.digest == digest
    requires !w.LoggingIn? ==> w.Admitted? && w.id != MSG_CHAT_LOGIN
    requires !w.LoggingIn? ==> t.sessions[w.sid].uid == uid && t.sessions[w.sid].digest == digest
    ensures WorkerOk(t, v)
  {
  }

  lemma PassLog(log: seq<Log>, tokens: map<int, Digest>, l: Log)
    requires LogOk(log) && RevokedAreGone(log, tokens) && l.Passed? && Expected(tokens, l.uid, l.digest)
    ensures LogOk(log + [l]) && RevokedAreGone(log + [l], tokens)
    ensures LastOwn(log + [l], l.at) == [l]
    ensures forall w | w != l.at :: LastOwn(log + [l], w) == LastOwn(log, w)
  {
    Appended(log, l);
  }

  lemma LoginReadsKeeps(s: State, v: Server, uid: int, digest: Digest, answered: bool)
    requires Inv(s) && Enabled(s, LoginReads(v, uid, digest, answered))
    ensures Inv(Step(s, LoginReads(v, uid, digest, answered)))
  {
    assert WorkerOk(s, v);
    if answered && Expected(s.tokens, uid, digest) {
      PassKeeps(s, v, LoggingIn(Work(s, v).sid, uid, digest), uid, digest);
    } else {
      PlainKeeps(s, LoginFails(v));
    }
  }

  lemma LoginStoresKeeps(s: State, v: Server)
    requires Inv(s) && Enabled(s, LoginStores(v))
    ensures Inv(Step(s, LoginStores(v)))
  {
    assert WorkerOk(s, v);
    Appended(s.log, LoggedIn(v, Work(s, v).sid, Work(s, v).uid, Work(s, v).digest));
    OthersKeep(s, Step(s, LoginStores(v)), v);
  }

  lemma TokenSetKeeps(s: State, uid: int, digest: Digest)
    requires Inv(s)
    ensures Inv(Step(s, TokenSet(uid, digest)))
  {
    Appended(s.log, Wrote(uid, digest));
    forall v ensures WorkerOk(Step(s, TokenSet(uid, digest)), v) { assert WorkerOk(s, v); }
  }

  lemma TakeKeeps(s: State, x: Sid, id: int)
    requires Inv(s) && Enabled(s, Take(x, id))
    ensures Inv(Step(s, Take(x, id)))
  {
    OthersKeep(s, Step(s, Take(x, id)), s.sessions[x].server);
  }

  /** Steps that neither write to the log nor move a worker on. */
  lemma PlainKeeps(s: State, e: Event)
    requires Inv(s) && Enabled(s, e) && (e.Connect? || e.AnyoneCloses? || e.TokenGone? || e.LoginFails?)
    ensures Inv(Step(s, e))
  {
    forall v ensures WorkerOk(Step(s, e), v) { assert WorkerOk(s, v); }
  }

  lemma StepKeeps(s: State, e: Event)
    requires Inv(s) && Enabled(s, e)
    ensures Inv(Step(s, e))
  {
    match e
    case TokenSet(u, d) => TokenSetKeeps(s, u, d);
    case Take(x, id) => TakeKeeps(s, x, id);
    case ReadToken(v, answered) => GateKeeps(s, v, answered);
    case Run(v, reached) => RunHandlerKeeps(s, v, reached);
    case LoginReads(v, u, d, answered) => LoginReadsKeeps(s, v, u, d, answered);
    case LoginStores(v) => LoginStoresKeeps(s, v);
    case _ => PlainKeeps(s, e);
  }

  /** The session has its user and its digest for good. */
  ghost predicate StillAs(c: Session, s: State, x: Sid) {
    c.uid > 0 ==> x in s.sessions && s.sessions[x].uid == c.uid && s.sessions[x].digest == c.digest
  }

  lemma StepGrows(s: State, e: Event, x: Sid)
    requires Inv(s) && Enabled(s, e)
    ensures s.log <= Step(s, e).log
    ensures x in s.sessions ==> StillAs(s.sessions[x], Step(s, e), x)
  {
    if e.LoginStores? { assert WorkerOk(s, e.at); }
  }

  lemma {:induction false} RunKeeps(s: State, run: seq<Event>)
    requires Inv(s) && Possible(s, run)
    ensures Inv(End(s, run))
    decreases |run|
  {
    if run != [] {
      StepKeeps(s, run[0]);
      RunKeeps(Step(s, run[0]), run[1..]);
    }
  }

  lemma {:induction false} RunGrows(s: State, run: seq<Event>, x: Sid)
    requires Inv(s) && Possible(s, run)
    ensures s.log <= End(s, run).log
    ensures x in s.sessions ==> StillAs(s.sessions[x], End(s, run), x)
    decreases |run|
  {
    if run != [] {
      StepGrows(s, run[0], x);
      StepKeeps(s, run[0]);
      RunGrows(Step(s, run[0]), run[1..], x);
    }
  }

  lemma {:induction false} EntryOfLog(log: seq<Log>, i: nat)
    requires LogOk(log) && i < |log|
    ensures EntryOk(log[..i], log[i])
    decreases |log|
  {
    var front := log[..|log| - 1];
    if i < |front| {
      EntryOfLog(front, i);
      assert front[..i] == log[..i];
    }
  }

  // ---- what holds on every run ----

  lemma {:induction false} LastOwnIsInLog(log: seq<Log>, v: Server, l: Log) returns (g: nat)
    requires LastOwn(log, v) == [l]
    ensures g < |log| && log[g] == l && forall k | g < k < |log| :: !Own(log[k], v)
    decreases |log|
  {
    g := |log| - 1;
    if !Own(log[g], v) {
      g := LastOwnIsInLog(log[..|log| - 1], v, l);
    }
  }

  /** The check behind entry i of a log: entry g, with nothing of that server's in between. */
  ghost predicate Behind(log: seq<Log>, g: nat, i: nat)
    requires i < |log| && Acts(log[i])
  {
    && g < i && log[g] == GateOf(log[i])
    && forall k | g < k < i :: !Own(log[k], log[i].at)
  }

  lemma GateBehind(log: seq<Log>, i: nat) returns (g: nat)
    requires LogOk(log) && i < |log| && Acts(log[i])
    ensures Behind(log, g, i)
  {
    EntryOfLog(log, i);
    g := LastOwnIsInLog(log[..i], log[i].at, GateOf(log[i]));
    assert log[g] == log[..i][g];
    forall k | g < k < i ensures !Own(log[k], log[i].at) { assert !Own(log[..i][k], log[i].at); }
  }

  /** No request is handled and no session logged in unless the user is known and that server's
      worker found the stored digest to be this one, with nothing else of its own in between. */
  lemma HandledOnlyThroughGate(run: seq<Event>, i: nat)
    requires Possible(START, run) && i < |End(START, run).log| && Acts(End(START, run).log[i])
    ensures var log := End(START, run).log; log[i].uid > 0 && exists g: nat :: Behind(log, g, i)
  {
    RunKeeps(START, run);
    var log := End(START, run).log;
    EntryOfLog(log, i);
    var g := GateBehind(log, i);
  }

  lemma {:induction false} RevokedUntilWritten(log: seq<Log>, i: nat, uid: int, digest: Digest)
    requires i < |log| && IsLogout(log[i], uid, digest)
    requires forall k | i < k < |log| :: log[k] != Wrote(uid, digest)
    ensures Revoked(log, uid, digest)
    decreases |log|
  {
    if i < |log| - 1 {
      RevokedUntilWritten(log[..|log| - 1], i, uid, digest);
    }
  }

  /** The digest was written to its user's token key between two entries. */
  ghost predicate WrittenBetween(log: seq<Log>, i: nat, j: nat, uid: int, digest: Digest) {
    exists k :: i < k < j && k < |log| && log[k] == Wrote(uid, digest)
  }

  lemma NoPassWhileRevoked(log: seq<Log>, i: nat, j: nat, uid: int, digest: Digest)
    requires LogOk(log) && i < j < |log| && IsLogout(log[i], uid, digest)
    requires log[j].Passed? && log[j].uid == uid && log[j].digest == digest
    ensures WrittenBetween(log, i, j, uid, digest)
  {
    EntryOfLog(log, j);
    if !WrittenBetween(log, i, j, uid, digest) {
      assert log[..j][i] == log[i];
      forall k | i < k < j ensures log[..j][k] != Wrote(uid, digest) { assert log[..j][k] == log[k]; }
      RevokedUntilWritten(log[..j], i, uid, digest);
      assert false;
    }
  }

  /** After a logout has revoked a digest, no check on any server finds it, no handler runs and
      no login completes under it, until it is written to the user's token key again; except
      that another server finishes the one message it had checked before. */
  lemma LogoutIsFinal(run: seq<Event>, i: nat, j: nat, uid: int, digest: Digest)
    requires Possible(START, run) && i < j < |End(START, run).log|
    requires IsLogout(End(START, run).log[i], uid, digest)
    ensures var log := End(START, run).log;
            log[j].Passed? && log[j].uid == uid && log[j].digest == digest ==>
              WrittenBetween(log, i, j, uid, digest)
    ensures var log := End(START, run).log;
            Acts(log[j]) && log[j].uid == uid && log[j].digest == digest ==>
              || WrittenBetween(log, i, j, uid, digest)
              || (log[j].at != log[i].at && exists g: nat :: g < i && Behind(log, g, j))
  {
    RunKeeps(START, run);
    var log := End(START, run).log;
    if log[j].Passed? && log[j].uid == uid && log[j].digest == digest {
      NoPassWhileRevoked(log, i, j, uid, digest);
    }
    if Acts(log[j]) && log[j].uid == uid && log[j].digest == digest {
      var g := GateBehind(log, j);
      if g > i {
        NoPassWhileRevoked(log, i, g, uid, digest);
      } else {
        assert g != i && !Own(log[i], log[j].at);
      }
    }
  }

  /** Exactly when a logout revokes: its result is not looked at, so a delete that does not
      reach Redis leaves the digest good while the session closes all the same. */
  lemma LogoutRevokesIff(s: State, v: Server, reached: bool)
    requires Enabled(s, Run(v, reached)) && Work(s, v).id == MSG_LOGOUT
    ensures var x, t := Work(s, v).sid, Step(s, Run(v, reached));
            var c := s.sessions[x];
            && t.sessions[x].closed
            && (!Expected(t.tokens, c.uid, c.digest) <==> reached || !Expected(s.tokens, c.uid, c.digest))
            && (forall u | u != c.uid :: u in t.tokens <==> u in s.tokens)
  {
  }

  /** One such run: a user logs in and out, Redis is away at that moment, and the token of the
      closed session still opens the gate. */
  lemma LogoutMayNotRevoke()
    ensures exists run ::
              && Possible(START, run)
              && var s := End(START, run);
                 1 in s.sessions && s.sessions[1].closed && s.sessions[1].uid == 7 && s.log != []
                 && s.log[|s.log| - 1] == Handled(0, 1, MSG_LOGOUT, 7, "d") && Expected(s.tokens, 7, "d")
  {
    var login := A_LOGIN;
    var c := Session(0, false, 7, "d");
    var log := [Wrote(7, "d"), Passed(0, 1, 7, "d"), LoggedIn(0, 1, 7, "d")];
    var s := State(map[1 := c], map[7 := "d"], map[], log);
    LoginRun();
    var logout := [Take(1, MSG_LOGOUT), ReadToken(0, true), Run(0, false)];
    var t := State(map[1 := c.(closed := true)], map[7 := "d"], map[],
                   log + [Passed(0, 1, 7, "d")] + [Handled(0, 1, MSG_LOGOUT, 7, "d")]);
    assert WithWork(WithWork(s, 0, Reading(1, MSG_LOGOUT)), 0, Idle) == s;
    ThreeSteps(s, logout[0], logout[1], logout[2]);
    assert End(s, logout) == t;
    Joined(START, login, logout);
    assert Possible(START, login + logout) && End(START, login + logout) == t;
  }

  const A_LOGIN: seq<Event> :=
    [Connect(0, 1), TokenSet(7, "d"), Take(1, MSG_CHAT_LOGIN), LoginReads(0, 7, "d", true), LoginStores(0)]

  lemma LoginRun()
    ensures Possible(START, A_LOGIN)
    ensures End(START, A_LOGIN) == State(map[1 := Session(0, false, 7, "d")], map[7 := "d"], map[],
                                          [Wrote(7, "d"), Passed(0, 1, 7, "d"), LoggedIn(0, 1, 7, "d")])
  {
    var first := [Connect(0, 1), TokenSet(7, "d")];
    var second := [Take(1, MSG_CHAT_LOGIN), LoginReads(0, 7, "d", true), LoginStores(0)];
    var s := State(map[1 := Session(0, false, 0, "")], map[7 := "d"], map[], [Wrote(7, "d")]);
    TokenReady();
    LoginSteps(s);
    ThreeSteps(s, second[0], second[1], second[2]);
    Joined(START, first, second);
    assert first + second == A_LOGIN;
  }

  lemma TokenReady()
    ensures var run := [Connect(0, 1), TokenSet(7, "d")];
            && Possible(START, run)
            && End(START, run) == State(map[1 := Session(0, false, 0, "")], map[7 := "d"], map[], [Wrote(7, "d")])
  {
    TwoSteps(START, Connect(0, 1), TokenSet(7, "d"));
  }

  /** The three steps of a login that succeeds. */
  lemma LoginSteps(s: State)
    requires s.sessions == map[1 := Session(0, false, 0, "")] && s.tokens == map[7 := "d"] && s.workers == map[]
    ensures var t := s.(workers := map[0 := Admitted(1, MSG_CHAT_LOGIN)]);
            var u := s.(workers := map[0 := LoggingIn(1, 7, "d")], log := s.log + [Passed(0, 1, 7, "d")]);
            && Enabled(s, Take(1, MSG_CHAT_LOGIN)) && Step(s, Take(1, MSG_CHAT_LOGIN)) == t
            && Enabled(t, LoginReads(0, 7, "d", true)) && Step(t, LoginReads(0, 7, "d", true)) == u
            && Enabled(u, LoginStores(0))
            && Step(u, LoginStores(0)) == State(map[1 := Session(0, false, 7, "d")], s.tokens, map[],
                                                s.log + [Passed(0, 1, 7, "d")] + [LoggedIn(0, 1, 7, "d")])
  {
    var t := s.(workers := map[0 := Admitted(1, MSG_CHAT_LOGIN)]);
    assert AfterTake(s, 1, MSG_CHAT_LOGIN) == t;
    var u := s.(workers := map[0 := LoggingIn(1, 7, "d")], log := s.log + [Passed(0, 1, 7, "d")]);
    assert AfterLoginReads(t, 0, 7, "d", true) == u;
    assert u.workers - {0} == map[];
    assert s.sessions[1 := Session(0, false, 7, "d")] == map[1 := Session(0, false, 7, "d")];
  }

  lemma TwoSteps(s: State, e: Event, f: Event)
    requires Enabled(s, e) && Enabled(Step(s, e), f)
    ensures Possible(s, [e, f]) && End(s, [e, f]) == Step(Step(s, e), f)
  {
    var run := [e, f];
    assert run[1..] == [f] && run[1..][1..] == [];
    assert Possible(Step(Step(s, e), f), []);
    assert Possible(Step(s, e), [f]) && End(Step(s, e), [f]) == Step(Step(s, e), f);
  }

  lemma ThreeSteps(s: State, e: Event, f: Event, g: Event)
    requires Enabled(s, e) && Enabled(Step(s, e), f) && Enabled(Step(Step(s, e), f), g)
    ensures Possible(s, [e, f, g]) && End(s, [e, f, g]) == Step(Step(Step(s, e), f), g)
  {
    assert [e, f, g][1..] == [f, g];
    TwoSteps(Step(s, e), f, g);
  }

  lemma {:induction false} Joined(s: State, run: seq<Event>, more: seq<Event>)
    requires Possible(s, run) && Possible(End(s, run), more)
    ensures Possible(s, run + more) && End(s, run + more) == End(End(s, run), more)
    decreases |run|
  {
    if run == [] {
      assert run + more == more;
    } else {
      Joined(Step(s, run[0]), run[1..], more);
      assert (run + more)[1..] == run[1..] + more;
    }
  }

  /** A session's user and digest are stored at most once. */
  lemma LoginIsFinal(run: seq<Event>, more: seq<Event>, x: Sid)
    requires Possible(START, run) && Possible(End(START, run), more)
    requires x in End(START, run).sessions && End(START, run).sessions[x].uid > 0
    ensures var s, t := End(START, run), End(End(START, run), more);
            && x in t.sessions && t.sessions[x].uid == s.sessions[x].uid && t.sessions[x].digest == s.sessions[x].digest
            && s.log <= t.log
  {
    RunKeeps(START, run);
    RunGrows(End(START, run), more, x);
  }

  // ---- what each step does ----

  /** The requests that have a handler: login and logout, search, friends, texts, privacy, and
      the six that `ChatSync` answers. */
  lemma HandledIds(id: int)
    ensures id in REGISTERED <==> id in {1005, 1042} + {1007, 1009, 1012, 1015, 1018} + {1040}
                                        + {1020, 1022, 1024, 1026, 1044, 1046}
  {
  }

  /** Others act at any moment, and a worker with nothing in hand takes any message. */
  lemma MayHappen(s: State, v: Server, x: Sid, id: int, u: int, d: Digest)
    ensures x !in s.sessions ==> Enabled(s, Connect(v, x))
    ensures x in s.sessions ==> Enabled(s, AnyoneCloses(x))
    ensures Enabled(s, TokenSet(u, d)) && Enabled(s, TokenGone(u))
    ensures x in s.sessions && s.sessions[x].server !in s.workers ==> Enabled(s, Take(x, id))
  {
  }

  /** Another thread's step: a new session is open and nobody's; a close closes; a token key is
      set or gone. Everything else stays. */
  lemma OthersDo(s: State, e: Event)
    requires Enabled(s, e)
    ensures e.Connect? ==>
              Step(s, e) == s.(sessions := s.sessions[e.sid := Session(e.server, false, 0, "")]) && e.sid !in s.sessions
    ensures e.AnyoneCloses? ==>
              && e.sid in s.sessions
              && var c := s.sessions[e.sid];
                 Step(s, e) == s.(sessions := s.sessions[e.sid := Session(c.server, true, c.uid, c.digest)])
    ensures e.TokenSet? ==>
              && Step(s, e) == s.(tokens := Step(s, e).tokens, log := s.log + [Wrote(e.uid, e.digest)])
              && forall u, d :: Expected(Step(s, e).tokens, u, d)
                                <==> if u == e.uid then d == e.digest else Expected(s.tokens, u, d)
    ensures e.TokenGone? ==>
              && Step(s, e) == s.(tokens := Step(s, e).tokens)
              && forall u, d :: Expected(Step(s, e).tokens, u, d) <==> u != e.uid && Expected(s.tokens, u, d)
  {
  }

  /** The worker's tests: which session goes on, which is closed, and that its check is in the
      log exactly when the stored digest is the session's or the login's. Only the worker's own
      server and the message's session are touched. */
  lemma WorkerDoes(s: State, e: Event)
    requires Inv(s) && Enabled(s, e) && (e.Take? || e.ReadToken? || e.LoginReads? || e.LoginFails?)
    ensures var t, v := Step(s, e), if e.Take? then s.sessions[e.sid].server else e.at;
            var x := if e.Take? then e.sid else Work(s, v).sid;
            && x in s.sessions && t.tokens == s.tokens
            && t.sessions.Keys == s.sessions.Keys
            && (forall y | y in s.sessions && y != x :: t.sessions[y] == s.sessions[y])
            && (forall w | w != v :: Work(t, w) == Work(s, w))
            && t.sessions[x].(closed := s.sessions[x].closed) == s.sessions[x]
            && var c, shut, now := s.sessions[x], t.sessions[x].closed, Work(t, v);
               match e
               case Take(_, id) =>
                 && t.log == s.log
                 && (if c.closed && id != 1042 then shut && now.Idle?
                     else if id !in REGISTERED then shut && now.Idle?
                     else if id == 1005 then
                       if c.uid == 0 then shut == c.closed && now == Admitted(x, id) else shut && now.Idle?
                     else
                       if c.uid > 0 then shut == c.closed && now == Reading(x, id) else shut && now.Idle?)
               case ReadToken(_, answered) =>
                 if answered && c.uid in s.tokens && s.tokens[c.uid] == c.digest then
                   now == Admitted(x, Work(s, v).id) && shut == c.closed
                   && t.log == s.log + [Passed(v, x, c.uid, c.digest)]
                 else now.Idle? && shut && t.log == s.log
               case LoginReads(_, u, d, answered) =>
                 && shut == c.closed
                 && (if answered && u in s.tokens && s.tokens[u] == d then
                       now == LoggingIn(x, u, d) && t.log == s.log + [Passed(v, x, u, d)]
                     else now.Idle? && t.log == s.log)
               case _ => now.Idle? && shut == c.closed && t.log == s.log
  {
    if !e.Take? {
      assert WorkerOk(s, e.at);
    }
  }

  /** A worker acts: a checked login gives its session the user and digest it checked; a handler
      runs, and only a logout closes its session, and takes the token if that is still there and
      Redis is reached. */
  lemma WorkerActs(s: State, e: Event)
    requires Inv(s) && Enabled(s, e) && (e.LoginStores? || e.Run?)
    ensures var t, v, w := Step(s, e), e.at, Work(s, e.at);
            && w.sid in s.sessions
            && (forall y | y in s.sessions && y != w.sid :: y in t.sessions && t.sessions[y] == s.sessions[y])
            && Work(t, v).Idle? && (forall o | o != v :: Work(t, o) == Work(s, o))
            && var c := s.sessions[w.sid];
               if e.LoginStores? then
                 && w.LoggingIn? && t.sessions[w.sid] == Session(v, c.closed, w.uid, w.digest)
                 && t.tokens == s.tokens && t.log == s.log + [LoggedIn(v, w.sid, w.uid, w.digest)]
               else
                 && w.Admitted? && t.sessions[w.sid] == Session(v, c.closed || w.id == 1042, c.uid, c.digest)
                 && (forall u, d :: Expected(t.tokens, u, d) <==>
                       Expected(s.tokens, u, d) && !(w.id == 1042 && e.reached && u == c.uid && d == c.digest))
                 && t.log == s.log + [Handled(v, w.sid, w.id, c.uid, c.digest)]
                             + if w.id == 1042 && e.reached then [LoggedOut(v, c.uid, c.digest)] else []
  {
    assert WorkerOk(s, e.at);
  }

  // ---- one turn of a worker's loop, with nothing coming between ----

  /** What a turn meets: the login request if it is one (none when it is malformed), whether
      Redis answers, whether the user's profile is found, and whether a logout reaches Redis. */
  datatype Meets = Meets(login: Option<(int, Digest)>, answered: bool, known: bool, reached: bool)

  /** The events of a turn. A malformed login closes its session. */
  function TurnOf(s: State, x: Sid, id: int, m: Meets): seq<Event>
    requires x in s.sessions
  {
    var c := s.sessions[x];
    var v := c.server;
    if (c.closed && id != MSG_LOGOUT) || !Eligible(c, id) then [Take(x, id)]
    else if id != MSG_CHAT_LOGIN then
      if m.answered && Expected(s.tokens, c.uid, c.digest)
      then [Take(x, id), ReadToken(v, m.answered), Run(v, m.reached)]
      else [Take(x, id), ReadToken(v, m.answered)]
    else if m.login.None? || m.login.value.0 <= 0 then [Take(x, id), LoginFails(v), AnyoneCloses(x)]
    else
      var (u, d) := m.login.value;
      if !m.answered || !Expected(s.tokens, u, d) then [Take(x, id), LoginReads(v, u, d, m.answered)]
      else [Take(x, id), LoginReads(v, u, d, m.answered), if m.known then LoginStores(v) else LoginFails(v)]
  }

  /** The turn of a message whose handler runs. */
  lemma HandledTurn(s: State, x: Sid, id: int, m: Meets)
    requires x in s.sessions && s.workers == map[] && id != MSG_CHAT_LOGIN
    requires !s.sessions[x].closed || id == MSG_LOGOUT
    requires Eligible(s.sessions[x], id) && m.answered && Expected(s.tokens, s.sessions[x].uid, s.sessions[x].digest)
    ensures var c, turn := s.sessions[x], TurnOf(s, x, id, m);
            var v, u, d := c.server, c.uid, c.digest;
            var log := s.log + [Passed(v, x, u, d)] + [Handled(v, x, id, u, d)];
            && Possible(s, turn)
            && End(s, turn) == if id != MSG_LOGOUT then s.(log := log)
                               else s.(sessions := s.sessions[x := c.(closed := true)],
                                       tokens := if m.reached then s.tokens - {u} else s.tokens,
                                       log := if m.reached then log + [LoggedOut(v, u, d)] else log)
  {
    var turn := TurnOf(s, x, id, m);
    assert s.workers - {s.sessions[x].server} == map[];
    ThreeSteps(s, turn[0], turn[1], turn[2]);
  }

  /** The login request could not be read, or names no user. */
  predicate Malformed(m: Meets) {
    m.login.None? || m.login.value.0 <= 0
  }

  /** The login carries the digest stored for its user. */
  predicate MayLogIn(tokens: map<int, Digest>, m: Meets) {
    && m.login.Some? && m.login.value.0 > 0 && m.answered
    && m.login.value.0 in tokens && tokens[m.login.value.0] == m.login.value.1
  }

  class LogicWorker {
    var sessions: map<Sid, Session>
    var tokens: map<int, Digest>
    ghost var log: seq<Log>

    ghost function View(): State
      reads this
    {
      State(sessions, tokens, map[], log)
    }

    constructor (tokens: map<int, Digest>)
      ensures View() == State(map[], tokens, map[], [])
    {
      this.tokens, sessions, log := tokens, map[], [];
    }

    /** Takes one message through the gate, and to its handler if it passes. */
    method DealMsg(x: Sid, id: int, m: Meets) returns (ran: bool)
      requires x in sessions
      modifies this
      ensures ran <==>
                var c := old(sessions)[x];
                && (!c.closed || id == MSG_LOGOUT) && Eligible(c, id)
                && (id != MSG_CHAT_LOGIN ==> m.answered && Expected(old(tokens), c.uid, c.digest))
      // who the session is afterwards, and whether it is open
      ensures x in sessions && sessions == old(sessions)[x := sessions[x]]
      ensures var c, t := old(sessions)[x], sessions[x];
              && t.server == c.server
              && (if ran && id == 1005 && MayLogIn(old(tokens), m) && m.known
                  then t.uid == m.login.value.0 && t.digest == m.login.value.1
                  else t.uid == c.uid && t.digest == c.digest)
              && (t.closed <==>
                    || c.closed || id !in REGISTERED || id == 1042
                    || (if id == 1005 then c.uid != 0 || Malformed(m)
                        else c.uid <= 0 || !m.answered || c.uid !in old(tokens) || old(tokens)[c.uid] != c.digest))
      ensures var c := old(sessions)[x];
              tokens == if ran && id == 1042 && m.reached then old(tokens) - {c.uid} else old(tokens)
      // what was checked and done
      ensures var c := old(sessions)[x];
              log == old(log) +
                if !ran || (id == 1005 && !MayLogIn(old(tokens), m)) then []
                else if id == 1005 then
                  var (u, d) := m.login.value;
                  [Passed(c.server, x, u, d)] + if m.known then [LoggedIn(c.server, x, u, d)] else []
                else
                  [Passed(c.server, x, c.uid, c.digest), Handled(c.server, x, id, c.uid, c.digest)]
                  + if id == 1042 && m.reached then [LoggedOut(c.server, c.uid, c.digest)] else []
      ensures var turn := TurnOf(old(View()), x, id, m);
              Possible(old(View()), turn) && View() == End(old(View()), turn)
    {
      ran := false;
      var c := sessions[x];
      ghost var s, v, turn := View(), c.server, TurnOf(View(), x, id, m);
      if c.closed && id != MSG_LOGOUT {
        OneStep(s, turn[0]);
        return;
      }
      if id !in REGISTERED || (if id == MSG_CHAT_LOGIN then c.uid != 0 else c.uid <= 0) {
        sessions := sessions[x := c.(closed := true)];
        OneStep(s, turn[0]);
        return;
      }
      if id == MSG_CHAT_LOGIN {
        ran := true;
        LoginHandler(x, m);
        return;
      }
      if !m.answered || !(c.uid in tokens) || tokens[c.uid] != c.digest {
        sessions := sessions[x := c.(closed := true)];
        TwoSteps(s, turn[0], turn[1]);
        return;
      }
      log := log + [Passed(v, x, c.uid, c.digest)];
      ran := true;
      log := log + [Handled(v, x, id, c.uid, c.digest)];
      if id == MSG_LOGOUT { Logout(x, m.reached); }
      HandledTurn(s, x, id, m);
    }

    /** The logout callback. */
    method Logout(x: Sid, reached: bool)
      requires x in sessions
      modifies this
      ensures sessions == old(sessions)[x := old(sessions)[x].(closed := true)]
      ensures var c := old(sessions)[x];
              && tokens == (if reached && Expected(old(tokens), c.uid, c.digest) then old(tokens) - {c.uid}
                            else old(tokens))
              && log == (if reached then old(log) + [LoggedOut(c.server, c.uid, c.digest)] else old(log))
    {
      var c := sessions[x];
      if reached {
        if c.uid in tokens && tokens[c.uid] == c.digest { tokens := tokens - {c.uid}; }
        log := log + [LoggedOut(c.server, c.uid, c.digest)];
      }
      sessions := sessions[x := c.(closed := true)];
    }

    /** `LoginHandler`, as far as it decides who the session is. */
    method LoginHandler(x: Sid, m: Meets)
      requires x in sessions && !sessions[x].closed && Eligible(sessions[x], MSG_CHAT_LOGIN)
      modifies this
      // logged in exactly with a positive id, an answer, the stored digest and a known profile
      ensures var c := old(sessions)[x];
              sessions == old(sessions)[x :=
                if m.login.None? || m.login.value.0 <= 0 then Session(c.server, true, 0, c.digest)
                else if m.answered && m.known && m.login.value.0 in old(tokens)
                        && old(tokens)[m.login.value.0] == m.login.value.1
                then Session(c.server, false, m.login.value.0, m.login.value.1)
                else Session(c.server, false, 0, c.digest)]
      ensures tokens == old(tokens)
      ensures log == old(log) +
                if !MayLogIn(old(tokens), m) then []
                else
                  var (u, d) := m.login.value;
                  [Passed(old(sessions)[x].server, x, u, d)]
                  + if m.known then [LoggedIn(old(sessions)[x].server, x, u, d)] else []
      ensures var turn := TurnOf(old(View()), x, MSG_CHAT_LOGIN, m);
              Possible(old(View()), turn) && View() == End(old(View()), turn)
    {
      var c := sessions[x];
      ghost var s, turn := View(), TurnOf(View(), x, MSG_CHAT_LOGIN, m);
      if m.login.None? || m.login.value.0 <= 0 {
        sessions := sessions[x := c.(closed := true)];
        ThreeSteps(s, turn[0], turn[1], turn[2]);
        return;
      }
      var (u, d) := m.login.value;
      if !m.answered || !(u in tokens) || tokens[u] != d {
        TwoSteps(s, turn[0], turn[1]);
        return;
      }
      log := log + [Passed(c.server, x, u, d)];
      if m.known {
        sessions := sessions[x := c.(uid := u, digest := d)];
        log := log + [LoggedIn(c.server, x, u, d)];
      }
      ThreeSteps(s, turn[0], turn[1], turn[2]);
    }
  }

  lemma OneStep(s: State, e: Event)
    requires Enabled(s, e)
    ensures Possible(s, [e]) && End(s, [e]) == Step(s, e)
  {
    assert [e][1..] == [];
    assert Possible(Step(s, e), []);
  }
}
