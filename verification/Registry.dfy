/** Which session speaks for which user: `UserMgr`'s map, `CServer`'s table and the close flag,
    raced over by the logic worker, cleanups and anybody who closes. */
module Registry {
  import opened Common

  const MAX_SESSIONS := 4096

  // ---- the critical sections, as the threads run them ----

  /** What `RmvUserSession` leaves: the entry goes only if it still is this session's. */
  function Unmapped(users: map<int, Sid>, uid: int, sid: Sid): map<int, Sid> {
    if uid in users && users[uid] == sid then users - {uid} else users
  }

  /** `UserMgr`: the user-to-session map, each method one critical section under its mutex. */
  class UserMgr {
    var uidToSession: map<int, Sid>

    constructor ()
      ensures uidToSession == map[]
    {
      uidToSession := map[];
    }

    /** The locked part of `SetUserSession`; the caller closes what it hands back. */
    method SetUserSession(uid: int, sid: Sid, closed: bool) returns (previous: Option<Sid>)
      modifies this
      ensures uidToSession == if closed then old(uidToSession) else old(uidToSession)[uid := sid]
      ensures previous == if closed || uid !in old(uidToSession) || old(uidToSession)[uid] == sid then None
                          else Some(old(uidToSession)[uid])
      ensures forall s: State | s.users == old(uidToSession) && s.worker == Checking(sid, uid)
                                && sid in s.sessions && s.sessions[sid].closed == closed ::
                var t := CheckAndInsert(s);
                t.users == uidToSession && t.worker == if previous.Some? then ClosingPrevious(previous.value) else Idle
    {
      if closed { return None; }
      previous := if uid in uidToSession then Some(uidToSession[uid]) else None;
      uidToSession := uidToSession[uid := sid];
      if previous == Some(sid) { previous := None; }
    }

    method RmvUserSession(uid: int, sid: Sid)
      modifies this
      ensures uidToSession == Unmapped(old(uidToSession), uid, sid)
      ensures uid in uidToSession ==> uidToSession[uid] != sid
    {
      if uid !in uidToSession { return; }
      if uidToSession[uid] != sid { return; }
      uidToSession := uidToSession - {uid};
    }

    /** A session is handed out only when the stored token digest is the one it logged in
        with; otherwise it is closed. `stored` is what Redis answers, `digests` the sessions'. */
    method GetSession(uid: int, stored: Option<string>, digests: Sid -> string)
        returns (session: Option<Sid>, toClose: Option<Sid>)
      ensures session.Some? <==> uid in uidToSession && stored == Some(digests(uidToSession[uid]))
      ensures session.Some? ==> session.value == uidToSession[uid] && toClose.None?
      ensures session.None? ==> toClose == if uid in uidToSession then Some(uidToSession[uid]) else None
    {
      if uid !in uidToSession { return None, None; }
      var found := uidToSession[uid];
      if stored.None? || stored.value != digests(found) { return None, Some(found); }
      return Some(found), None;
    }
  }

  /** `CServer`: the table of live sessions, bounded. */
  class CServer {
    var sessions: set<Sid>

    constructor ()
      ensures sessions == {}
    {
      sessions := {};
    }

    method HandleAccept(sid: Sid, error: bool) returns (started: bool, closed: bool)
      requires sid !in sessions && |sessions| <= MAX_SESSIONS
      modifies this
      ensures |sessions| <= MAX_SESSIONS
      ensures started <==> !error && |old(sessions)| < MAX_SESSIONS
      ensures closed <==> !error && |old(sessions)| >= MAX_SESSIONS
      ensures sessions == if started then old(sessions) + {sid} else old(sessions)
      ensures !error ==> forall s: State | s.table == old(sessions) && Enabled(s, Accept(sid)) ::
                           var t := Step(s, Accept(sid)); t.table == sessions && t.sessions[sid].closed == closed
    {
      started, closed := false, false;
      if !error {
        if |sessions| >= MAX_SESSIONS {
          closed := true;
          return;
        }
        sessions, started := sessions + {sid}, true;
      }
    }

    /** Unmaps the session under the uid read for it, then forgets it. */
    method ClearSession(sid: Sid, uid: int, users: UserMgr)
      modifies this, users
      ensures sessions == old(sessions) - {sid}
      ensures users.uidToSession == if sid in old(sessions) then Unmapped(old(users.uidToSession), uid, sid)
                                    else old(users.uidToSession)
      ensures forall s: State, owed: bool | Enabled(s, BeginCleanup(sid, owed)) && !s.worker.Inserting?
                                && s.table == old(sessions) && s.users == old(users.uidToSession)
                                && s.sessions[sid].uid == uid ::
                Cleared(s, sid, owed).table == sessions && Cleared(s, sid, owed).users == users.uidToSession
    {
      if sid in sessions {
        users.RmvUserSession(uid, sid);
      }
      sessions := sessions - {sid};
    }
  }

  // ---- the same operations, cut at every point where another thread can come between ----

  datatype Session = Session(closed: bool, uid: int)

  /** Where the logic worker is in a login. */
  datatype Worker =
    | Idle
    | SettingUid(sid: Sid, uid: int)        // digest checked, uid not stored yet
    | Checking(sid: Sid, uid: int)          // uid stored, map lock not taken yet
    | Inserting(sid: Sid, uid: int)         // holds the map lock, saw the session open
    | ClosingPrevious(sid: Sid)             // lock released, predecessor still to be closed
    | Aborting(sid: Sid)                    // an exception is about to close the session

  /** The `ClearSession` in progress, if any; it holds the server lock throughout. */
  datatype Cleaner = NoOne | Cleaning(sid: Sid, owed: bool, stage: Stage)
  datatype Stage = ReadUid | Remove(uid: int) | Erase

  datatype State = State(
    sessions: map<Sid, Session>,
    table: set<Sid>,         // CServer::_sessions
    users: map<int, Sid>,    // UserMgr::_uid_to_session
    worker: Worker,
    cleaner: Cleaner,
    owed: set<Sid>,          // closed, with the cleanup `Close` dispatched still to finish
    passed: set<Sid>)        // a cleanup has got past the removal step

  const START := State(map[], {}, map[], Idle, NoOne, {}, {})

  datatype Event =
    | Accept(sid: Sid)
    | AnyoneCloses(sid: Sid)
    | BeginCleanup(sid: Sid, owed: bool)
    | CleanupReadsUid
    | CleanupRemoves
    | CleanupErases
    | BeginLogin(sid: Sid, uid: int)
    | StoreUid
    | CheckOpen
    | Insert
    | ClosePrevious
    | Throw
    | AbortCloses

  predicate Enabled(s: State, e: Event) {
    match e
    case Accept(x) => s.cleaner.NoOne? && x !in s.sessions
    case AnyoneCloses(x) => x in s.sessions
    case BeginCleanup(x, owed) =>
      s.cleaner.NoOne? && x in s.sessions && s.sessions[x].closed && (owed ==> x in s.owed)
    case CleanupReadsUid => s.cleaner.Cleaning? && s.cleaner.stage.ReadUid? && s.cleaner.sid in s.sessions
    case CleanupRemoves => s.cleaner.Cleaning? && s.cleaner.stage.Remove? && !s.worker.Inserting?
    case CleanupErases => s.cleaner.Cleaning? && s.cleaner.stage.Erase?
    case BeginLogin(x, u) => s.worker.Idle? && x in s.sessions && u > 0 && s.sessions[x].uid == 0
    case StoreUid => s.worker.SettingUid? && s.worker.sid in s.sessions
    case CheckOpen => s.worker.Checking? && s.worker.sid in s.sessions
    case Insert => s.worker.Inserting?
    case ClosePrevious => s.worker.ClosingPrevious? && s.worker.sid in s.sessions
    case Throw => s.worker.SettingUid? || s.worker.Checking? || s.worker.Inserting?
    case AbortCloses => s.worker.Aborting? && s.worker.sid in s.sessions
  }

  /** The close flag goes up once; its first setter dispatches a cleanup. */
  function Close(s: State, x: Sid): State
    requires x in s.sessions
  {
    if s.sessions[x].closed then s
    else s.(sessions := s.sessions[x := s.sessions[x].(closed := true)], owed := s.owed + {x})
  }

  function Step(s: State, e: Event): State
    requires Enabled(s, e)
  {
    match e
    case Accept(x) =>
      if |s.table| < MAX_SESSIONS then
        s.(sessions := s.sessions[x := Session(false, 0)], table := s.table + {x})
      else
        s.(sessions := s.sessions[x := Session(true, 0)], owed := s.owed + {x})
    case AnyoneCloses(x) => Close(s, x)
    case BeginCleanup(x, owed) => s.(cleaner := Cleaning(x, owed, ReadUid))
    case CleanupReadsUid =>
      var x := s.cleaner.sid;
      if x in s.table then s.(cleaner := s.cleaner.(stage := Remove(s.sessions[x].uid)))
      else s.(cleaner := s.cleaner.(stage := Erase), passed := s.passed + {x})
    case CleanupRemoves =>
      var x := s.cleaner.sid;
      s.(users := Unmapped(s.users, s.cleaner.stage.uid, x),
         cleaner := s.cleaner.(stage := Erase), passed := s.passed + {x})
    case CleanupErases =>
      s.(table := s.table - {s.cleaner.sid}, cleaner := NoOne,
         owed := if s.cleaner.owed then s.owed - {s.cleaner.sid} else s.owed)
    case BeginLogin(x, u) => s.(worker := SettingUid(x, u))
    case StoreUid =>
      var x := s.worker.sid;
      s.(sessions := s.sessions[x := s.sessions[x].(uid := s.worker.uid)], worker := Checking(x, s.worker.uid))
    case CheckOpen =>
      s.(worker := if s.sessions[s.worker.sid].closed then Idle else Inserting(s.worker.sid, s.worker.uid))
    case Insert =>
      var x, u := s.worker.sid, s.worker.uid;
      s.(users := s.users[u := x],
         worker := if u in s.users && s.users[u] != x then ClosingPrevious(s.users[u]) else Idle)
    case ClosePrevious => Close(s, s.worker.sid).(worker := Idle)
    case Throw => s.(worker := Aborting(s.worker.sid))
    case AbortCloses => Close(s, s.worker.sid).(worker := Idle)
  }

  ghost predicate Possible(s: State, run: seq<Event>)
    decreases |run|
  {
    run == [] || (Enabled(s, run[0]) && Possible(Step(s, run[0]), run[1..]))
  }

  ghost function End(s: State, run: seq<Event>): State
    requires Possible(s, run)
    decreases |run|
  {
    if run == [] then s else End(Step(s, run[0]), run[1..])
  }

  // ---- the invariant ----

  /** The session is the one the map holds for its own uid. */
  ghost predicate Held(s: State, x: Sid) {
    x in s.sessions && s.sessions[x].uid in s.users && s.users[s.sessions[x].uid] == x
  }

  /** The map entry of user u belongs to a listed session of user u, which is open or has its
      cleanup still ahead of it. */
  ghost predicate EntryOk(s: State, u: int)
    requires u in s.users
  {
    var x := s.users[u];
    && u > 0 && x in s.sessions && s.sessions[x].uid == u && x in s.table
    && (s.sessions[x].closed ==> x in s.owed) && x !in s.passed
  }

  ghost predicate SessionOk(s: State, x: Sid)
    requires x in s.sessions
  {
    && s.sessions[x].uid >= 0
    && (s.sessions[x].closed ==> x in s.owed || x in s.passed)
    && (x in s.owed ==> s.sessions[x].closed)
    && (x in s.passed ==> s.sessions[x].closed && !(s.worker.Inserting? && s.worker.sid == x))
    && (x in s.passed && x in s.table ==> s.cleaner.Cleaning? && s.cleaner.sid == x && s.cleaner.stage.Erase?)
    && (x !in s.table ==> s.sessions[x].closed && !(s.worker.Inserting? && s.worker.sid == x))
    && (!s.sessions[x].closed && s.sessions[x].uid > 0 ==> Held(s, x) || InHand(s.worker, x))
  }

  /** The worker is about to list this session or to close it. */
  ghost predicate InHand(w: Worker, x: Sid) {
    (w.Checking? || w.Inserting? || w.ClosingPrevious? || w.Aborting?) && w.sid == x
  }

  ghost predicate WorkerOk(s: State) {
    match s.worker
    case Idle => true
    case SettingUid(x, u) => x in s.sessions && u > 0 && s.sessions[x].uid == 0
    case Checking(x, u) => x in s.sessions && u > 0 && s.sessions[x].uid == u && !Held(s, x)
    case Inserting(x, u) => x in s.sessions && u > 0 && s.sessions[x].uid == u && !Held(s, x) && x in s.table
    case ClosingPrevious(x) => x in s.sessions && !Held(s, x)
    case Aborting(x) => x in s.sessions
  }

  /** A cleanup that read an outdated uid belongs to a session the map does not hold and,
      being closed before that uid was stored, never will. */
  ghost predicate CleanerOk(s: State) {
    s.cleaner.Cleaning? ==>
      var x := s.cleaner.sid;
      && x in s.sessions && s.sessions[x].closed && (s.cleaner.owed ==> x in s.owed)
      && (s.cleaner.stage.Remove? ==> x in s.table && x !in s.passed)
      && (s.cleaner.stage.Remove? && s.cleaner.stage.uid != s.sessions[x].uid ==>
            !Held(s, x) && !(s.worker.Inserting? && s.worker.sid == x))
      && (s.cleaner.stage.Erase? ==> x in s.passed)
  }

  ghost predicate Inv(s: State) {
    && s.table <= s.sessions.Keys && s.owed <= s.sessions.Keys && s.passed <= s.sessions.Keys
    && |s.table| <= MAX_SESSIONS
    && (forall u | u in s.users :: EntryOk(s, u))
    && (forall x | x in s.sessions :: SessionOk(s, x))
    && WorkerOk(s) && CleanerOk(s)
  }

  lemma CloseKeeps(s: State, x: Sid)
    requires Inv(s) && x in s.sessions
    ensures Inv(Close(s, x))
  {
    var t := Close(s, x);
    forall u | u in t.users ensures EntryOk(t, u) { assert EntryOk(s, u); }
    forall y | y in t.sessions ensures SessionOk(t, y) { assert SessionOk(s, y); }
  }

  predicate IsCleanup(e: Event) {
    e.BeginCleanup? || e.CleanupReadsUid? || e.CleanupRemoves? || e.CleanupErases?
  }

  predicate IsClose(e: Event) {
    e.AnyoneCloses? || e.ClosePrevious? || e.AbortCloses?
  }

  lemma CleanupKeeps(s: State, e: Event)
    requires Inv(s) && Enabled(s, e) && IsCleanup(e)
    ensures Inv(Step(s, e))
  {
    var t := Step(s, e);
    forall u | u in t.users ensures EntryOk(t, u) { assert EntryOk(s, u); }
    forall y | y in t.sessions ensures SessionOk(t, y) { assert SessionOk(s, y); }
  }

  lemma AcceptKeeps(s: State, x: Sid)
    requires Inv(s) && Enabled(s, Accept(x))
    ensures Inv(Step(s, Accept(x)))
  {
    var t := Step(s, Accept(x));
    forall u | u in t.users ensures EntryOk(t, u) { assert EntryOk(s, u); }
    forall y | y in t.sessions ensures SessionOk(t, y) {
      if y in s.sessions { assert SessionOk(s, y); }
    }
  }

  lemma InsertKeeps(s: State)
    requires Inv(s) && Enabled(s, Insert)
    ensures Inv(Step(s, Insert))
  {
    var t := Step(s, Insert);
    forall u | u in t.users ensures EntryOk(t, u) {
      if u in s.users { assert EntryOk(s, u); }
      assert SessionOk(s, s.worker.sid);
    }
    forall y | y in t.sessions ensures SessionOk(t, y) { assert SessionOk(s, y); }
  }

  lemma WorkerKeeps(s: State, e: Event)
    requires Inv(s) && Enabled(s, e)
    requires e.BeginLogin? || e.StoreUid? || e.CheckOpen? || e.Throw?
    ensures Inv(Step(s, e))
  {
    var t := Step(s, e);
    forall u | u in t.users ensures EntryOk(t, u) { assert EntryOk(s, u); }
    forall y | y in t.sessions ensures SessionOk(t, y) { assert SessionOk(s, y); }
  }

  lemma StepKeeps(s: State, e: Event)
    requires Inv(s) && Enabled(s, e)
    ensures Inv(Step(s, e))
  {
    if IsCleanup(e) {
      CleanupKeeps(s, e);
    } else if IsClose(e) {
      CloseKeeps(s, if e.AnyoneCloses? then e.sid else s.worker.sid);
    } else if e.Accept? {
      AcceptKeeps(s, e.sid);
    } else if e.Insert? {
      InsertKeeps(s);
    } else {
      WorkerKeeps(s, e);
    }
  }

  lemma {:induction false} RunKeeps(s: State, run: seq<Event>)
    requires Inv(s) && Possible(s, run)
    ensures Inv(End(s, run))
    decreases |run|
  {
    if run != [] {
      StepKeeps(s, run[0]);
      RunKeeps(Step(s, run[0]), run[1..]);
    }
  }

  // ---- what each step achieves ----

  /** Nothing holds a step back but a lock: connections and cleanups wait for the server's, an open
      or closed session can be closed at any moment, and an idle worker takes any first login. */
  lemma MayHappen(s: State, x: Sid, u: int)
    ensures x !in s.sessions && s.cleaner.NoOne? ==> Enabled(s, Accept(x))
    ensures x in s.sessions ==> Enabled(s, AnyoneCloses(x))
    ensures x in s.sessions && s.sessions[x].closed && s.cleaner.NoOne? ==>
              Enabled(s, BeginCleanup(x, false)) && (x in s.owed ==> Enabled(s, BeginCleanup(x, true)))
    ensures x in s.sessions && s.worker.Idle? && u > 0 && s.sessions[x].uid == 0 ==> Enabled(s, BeginLogin(x, u))
    ensures s.worker.SettingUid? || s.worker.Checking? || s.worker.Inserting? ==> Enabled(s, Throw)
  {
  }

  /** A close closes, whoever makes it: the session is closed from then on, its cleanup is owed
      if it was open, and nothing else changes. */
  lemma CloseCloses(s: State, x: Sid)
    requires Enabled(s, AnyoneCloses(x))
    ensures var t := Step(s, AnyoneCloses(x));
            && t.sessions == s.sessions[x := Session(true, s.sessions[x].uid)]
            && (if s.sessions[x].closed then t.owed == s.owed else t.owed == s.owed + {x})
            && t.table == s.table && t.users == s.users && t.passed == s.passed
            && t.worker == s.worker && t.cleaner == s.cleaner
  {
    if s.sessions[x].closed {
      assert s.sessions[x] == Session(true, s.sessions[x].uid);
    }
  }

  /** A predecessor in the worker's hand is closed the same way, and so is the session of a login
      that throws half-way. */
  lemma WorkerCloses(s: State)
    requires Inv(s) && !s.worker.Idle?
    ensures Enabled(s, AnyoneCloses(s.worker.sid))
    ensures s.worker.ClosingPrevious? ==>
              Step(s, ClosePrevious) == Step(s, AnyoneCloses(s.worker.sid)).(worker := Idle)
    ensures s.worker.Aborting? ==> Step(s, AbortCloses) == Step(s, AnyoneCloses(s.worker.sid)).(worker := Idle)
    ensures Enabled(s, Throw) ==>
              Step(Step(s, Throw), AbortCloses) == Step(s, AnyoneCloses(s.worker.sid)).(worker := Idle)
  {
  }

  /** A new connection is listed and open below 4096 sessions; at the limit it is closed,
      unlisted, with its cleanup owed. It has no user yet, and no other session is touched. */
  lemma AcceptLists(s: State, x: Sid)
    requires Enabled(s, Accept(x))
    ensures var t, full := Step(s, Accept(x)), |s.table| >= 4096;
            && t.sessions == s.sessions[x := Session(full, 0)]
            && t.table == (if full then s.table else s.table + {x})
            && t.owed == (if full then s.owed + {x} else s.owed)
            && t.users == s.users && t.worker == s.worker && t.cleaner == s.cleaner && t.passed == s.passed
  {
  }

  /** The worker's steps of a login: the session gets the user; a session still open then
      becomes that user's entry, and only another session it replaces is left to be closed. */
  lemma LoginLists(s: State, x: Sid, u: int)
    requires Inv(s) && Enabled(s, BeginLogin(x, u))
    ensures var t := Step(Step(s, BeginLogin(x, u)), StoreUid);
            && t.sessions == s.sessions[x := Session(s.sessions[x].closed, u)]
            && t.worker == Checking(x, u) && t.users == s.users && t.table == s.table && t.owed == s.owed
            && var v := CheckAndInsert(t);
               && v.users == (if s.sessions[x].closed then s.users else s.users[u := x])
               && v.sessions == t.sessions && v.table == s.table && v.owed == s.owed
               && v.worker == if !s.sessions[x].closed && u in s.users then ClosingPrevious(s.users[u]) else Idle
  {
    if u in s.users {
      assert EntryOk(s, u);
    }
  }

  /** The end of a login, when nothing comes between its two steps. */
  function CheckAndInsert(s: State): State
    requires Enabled(s, CheckOpen)
  {
    var t := Step(s, CheckOpen);
    if t.worker.Inserting? then Step(t, Insert) else t
  }

  /** A whole cleanup that nothing comes between: the session is listed and mapped no more,
      whichever user it had, every other session stays listed and mapped as it was, and the
      session's own owed cleanup is done. */
  lemma CleanupClears(s: State, x: Sid, owed: bool)
    requires Inv(s) && Enabled(s, BeginCleanup(x, owed)) && !s.worker.Inserting?
    ensures var t := Cleared(s, x, owed);
            && t.table == s.table - {x} && t.sessions == s.sessions && t.worker == s.worker && t.cleaner.NoOne?
            && t.owed == (if owed then s.owed - {x} else s.owed) && t.passed == s.passed + {x}
            && t.users == map u | u in s.users && s.users[u] != x :: s.users[u]
  {
    var t := Cleared(s, x, owed);
    forall u | u in s.users ensures s.users[u] == x ==> u == s.sessions[x].uid && x in s.table { assert EntryOk(s, u); }
  }

  function Cleared(s: State, x: Sid, owed: bool): State
    requires Enabled(s, BeginCleanup(x, owed)) && !s.worker.Inserting?
  {
    var t := Step(Step(s, BeginCleanup(x, owed)), CleanupReadsUid);
    Step(if t.cleaner.stage.Remove? then Step(t, CleanupRemoves) else t, CleanupErases)
  }

  // ---- what holds on every run ----

  /** A mapped session is that user's, and open or about to be cleaned up. */
  lemma MapIsSafe(run: seq<Event>)
    requires Possible(START, run)
    ensures var s := End(START, run);
            forall u | u in s.users :: var x := s.users[u];
              && x in s.sessions && s.sessions[x].uid == u
              && (!s.sessions[x].closed || (x in s.owed && x !in s.passed))
  {
    RunKeeps(START, run);
    var s := End(START, run);
    forall u | u in s.users
      ensures s.users[u] in s.sessions && s.sessions[s.users[u]].uid == u
      ensures !s.sessions[s.users[u]].closed || (s.users[u] in s.owed && s.users[u] !in s.passed)
    {
      assert EntryOk(s, u);
    }
  }

  /** Between requests each online user has one open session: the mapped one. */
  lemma OneOnlineSession(run: seq<Event>)
    requires Possible(START, run) && End(START, run).worker.Idle?
    ensures var s := End(START, run);
            forall x | x in s.sessions && !s.sessions[x].closed && s.sessions[x].uid > 0 ::
              s.sessions[x].uid in s.users && s.users[s.sessions[x].uid] == x
    ensures var s := End(START, run);
            forall x, y | x in s.sessions && y in s.sessions && !s.sessions[x].closed && !s.sessions[y].closed
                          && s.sessions[x].uid == s.sessions[y].uid > 0 :: x == y
  {
    RunKeeps(START, run);
    var s := End(START, run);
    forall x | x in s.sessions && !s.sessions[x].closed && s.sessions[x].uid > 0 ensures Held(s, x) {
      assert SessionOk(s, x);
    }
  }

  /** What one state has settled about a session, the other has not unsettled. */
  ghost predicate StillSettled(s: State, t: State, x: Sid) {
    && (x in s.passed ==> x in t.passed)
    && (x in s.sessions ==> x in t.sessions && (s.sessions[x].closed ==> t.sessions[x].closed))
    && (x in s.sessions && s.sessions[x].uid != 0 ==> t.sessions[x].uid == s.sessions[x].uid)
  }

  lemma StepSettles(s: State, e: Event, x: Sid)
    requires Inv(s) && Enabled(s, e)
    ensures StillSettled(s, Step(s, e), x)
  {
  }

  lemma {:induction false} RunSettles(s: State, run: seq<Event>, x: Sid)
    requires Inv(s) && Possible(s, run)
    ensures StillSettled(s, End(s, run), x)
    decreases |run|
  {
    if run != [] {
      StepSettles(s, run[0], x);
      StepKeeps(s, run[0]);
      RunSettles(Step(s, run[0]), run[1..], x);
    }
  }

  /** Once a cleanup has passed its removal, the session is in no later map. */
  lemma CleanedNeverReturns(run: seq<Event>, more: seq<Event>, x: Sid)
    requires Possible(START, run) && x in End(START, run).passed && Possible(End(START, run), more)
    ensures var s := End(End(START, run), more); forall u | u in s.users :: s.users[u] != x
  {
    RunKeeps(START, run);
    RunKeeps(End(START, run), more);
    RunSettles(End(START, run), more, x);
    var s := End(End(START, run), more);
    forall u | u in s.users ensures s.users[u] != x { assert EntryOk(s, u); }
  }

  /** A session's user id is stored at most once. */
  lemma UidIsFinal(run: seq<Event>, more: seq<Event>, x: Sid)
    requires Possible(START, run) && Possible(End(START, run), more)
    requires x in End(START, run).sessions && End(START, run).sessions[x].uid != 0
    ensures var s := End(End(START, run), more);
            x in s.sessions && s.sessions[x].uid == End(START, run).sessions[x].uid
  {
    RunKeeps(START, run);
    RunSettles(End(START, run), more, x);
  }

  /** The only ways an entry goes: its own closed session's cleanup, or a newer login of the
      same user, which leaves the predecessor in the worker's hand to be closed. In
      particular a kicked predecessor's cleanup never takes its successor's entry. */
  lemma EntryGoesOnlyBy(s: State, e: Event, u: int)
    requires Inv(s) && Enabled(s, e) && u in s.users
    ensures var t, x := Step(s, e), s.users[u];
            || (u in t.users && t.users[u] == x)
            || (e.CleanupRemoves? && s.cleaner.sid == x && s.sessions[x].closed && u !in t.users)
            || (e.Insert? && s.worker.uid == u && t.users[u] == s.worker.sid && t.worker == ClosingPrevious(x))
  {
    assert EntryOk(s, u);
  }

  /** When every dispatched cleanup has run, nothing closed is left in the table or the map. */
  lemma NothingLeaks(run: seq<Event>)
    requires Possible(START, run)
    requires End(START, run).owed == {} && End(START, run).cleaner.NoOne?
    ensures var s := End(START, run);
            && s.table == (set x | x in s.sessions && !s.sessions[x].closed)
            && (forall u | u in s.users :: s.users[u] in s.table)
  {
    RunKeeps(START, run);
    var s := End(START, run);
    forall x | x in s.sessions ensures x in s.table <==> !s.sessions[x].closed { assert SessionOk(s, x); }
    forall u | u in s.users ensures s.users[u] in s.table { assert EntryOk(s, u); }
  }

  // ---- what is owed gets done ----

  /** The steps of cleanups that were dispatched and of a login under way: all that is left to
      happen when nobody connects, closes or logs in any more. */
  predicate Settling(e: Event) {
    !e.Accept? && !e.AnyoneCloses? && !e.BeginLogin? && (e.BeginCleanup? ==> e.owed)
  }

  predicate Settled(s: State) {
    s.owed == {} && s.cleaner.NoOne? && s.worker.Idle?
  }

  /** The steps still ahead at most. */
  function Remaining(s: State): int {
    4 * |s.owed|
    + (match s.worker
       case Idle => 0
       case SettingUid(_, _) => 8
       case Checking(_, _) => 7
       case Inserting(_, _) => 6
       case ClosingPrevious(_) => 5
       case Aborting(_) => 5)
    + (match s.cleaner
       case NoOne => 0
       case Cleaning(_, owed, stage) =>
         (match stage case ReadUid => 3 case Remove(_) => 2 case Erase => 1) - if owed then 4 else 0)
  }

  /** Neither the map's lock nor the server's leaves anybody stuck. */
  lemma NeverStuck(s: State)
    requires Inv(s) && !Settled(s)
    ensures exists e :: Settling(e) && Enabled(s, e)
  {
    var e := match s.worker
      case SettingUid(_, _) => StoreUid
      case Checking(_, _) => CheckOpen
      case Inserting(_, _) => Insert
      case ClosingPrevious(_) => ClosePrevious
      case Aborting(_) => AbortCloses
      case Idle =>
        match s.cleaner
        case Cleaning(_, _, ReadUid) => CleanupReadsUid
        case Cleaning(_, _, Remove(_)) => CleanupRemoves
        case Cleaning(_, _, Erase) => CleanupErases
        case NoOne => var x :| x in s.owed; assert SessionOk(s, x); BeginCleanup(x, true);
    assert Settling(e) && Enabled(s, e);
  }

  lemma SettlingShrinks(s: State, e: Event)
    requires Inv(s) && Settling(e) && Enabled(s, e)
    ensures Remaining(Step(s, e)) < Remaining(s)
  {
    if IsCleanup(e) {
      CleanupShrinks(s, e);
    } else if IsClose(e) {
      CloseOwesOne(s, s.worker.sid);
    }
  }

  lemma CleanupShrinks(s: State, e: Event)
    requires CleanerOk(s) && Settling(e) && Enabled(s, e) && IsCleanup(e)
    ensures Remaining(Step(s, e)) < Remaining(s)
  {
    if e.CleanupErases? && s.cleaner.owed {
      assert s.cleaner.sid in s.owed;
      assert |s.owed - {s.cleaner.sid}| == |s.owed| - 1;
    }
  }

  lemma CloseOwesOne(s: State, x: Sid)
    requires x in s.sessions
    ensures |Close(s, x).owed| <= |s.owed| + 1
  {
  }

  lemma RemainingIsNat(s: State)
    requires Inv(s)
    ensures Remaining(s) >= 0
  {
    if s.cleaner.Cleaning? && s.cleaner.owed {
      assert s.cleaner.sid in s.owed;
    }
  }

  /** From every state a run can reach: however what is under way is carried on, it is over
      after boundedly many steps, and then the table lists the open sessions and the map holds
      each of them that is logged in, under its user, and nothing else. */
  lemma EverythingSettles(run: seq<Event>, more: seq<Event>)
    requires Possible(START, run) && Possible(End(START, run), more)
    requires forall i | 0 <= i < |more| :: Settling(more[i])
    ensures |more| <= Remaining(End(START, run))
    ensures var s := End(End(START, run), more);
            (exists e :: Settling(e) && Enabled(s, e)) || (Settled(s) && Accurate(s))
  {
    RunKeeps(START, run);
    SettlingIsBounded(End(START, run), more);
    var s := End(End(START, run), more);
    RunKeeps(End(START, run), more);
    if Settled(s) {
      SettledIsAccurate(s);
    } else {
      NeverStuck(s);
    }
  }

  ghost predicate Accurate(s: State) {
    && (forall x :: x in s.table <==> x in s.sessions && !s.sessions[x].closed)
    && (forall u, x :: u in s.users && s.users[u] == x
                       <==> u > 0 && x in s.sessions && !s.sessions[x].closed && s.sessions[x].uid == u)
  }

  lemma SettledIsAccurate(s: State)
    requires Inv(s) && Settled(s)
    ensures Accurate(s)
  {
    forall x | x in s.sessions ensures SessionOk(s, x) {}
    forall u | u in s.users ensures EntryOk(s, u) {}
  }

  lemma {:induction false} SettlingIsBounded(s: State, run: seq<Event>)
    requires Inv(s) && Possible(s, run) && forall i | 0 <= i < |run| :: Settling(run[i])
    ensures |run| <= Remaining(s)
    decreases |run|
  {
    RemainingIsNat(s);
    if run != [] {
      assert Settling(run[0]);
      StepKeeps(s, run[0]);
      SettlingShrinks(s, run[0]);
      SettlingIsBounded(Step(s, run[0]), run[1..]);
    }
  }
}
