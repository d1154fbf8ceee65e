/** Single steps of the mail-code scripts and short runs of them, on any keys. */
module ReservationSteps {
  import opened Common
  import opened Numbers
  import opened Redis
  import opened Reservation

  /** The number of a key's latest grant. */
  function GrantOf(s: State, k: string): Option<nat> {
    if k in s.issues then Some(s.issues[k].grant) else None
  }

  ghost predicate SameGrants(s: State, t: State) {
    t.grants == s.grants && forall k :: GrantOf(t, k) == GrantOf(s, k)
  }

  lemma ConsumeGrantsNothing(s: State, key: string, code: Value, at: int)
    ensures SameGrants(s, Step(s, Consuming(key, code, at)))
  {
  }

  lemma {:induction false} Joined(s: State, run: seq<Event>, more: seq<Event>, keys: set<string>)
    requires Possible(s, run, keys) && Possible(End(s, run), more, keys)
    ensures Possible(s, run + more, keys) && End(s, run + more) == End(End(s, run), more)
    decreases |run|
  {
    if run == [] {
      assert run + more == more;
    } else {
      Joined(Step(s, run[0]), run[1..], more, keys);
      assert (run + more)[1..] == run[1..] + more;
    }
  }

  lemma OneStep(s: State, e: Event, keys: set<string>)
    requires Enabled(s, e, keys)
    ensures Possible(s, [e], keys) && End(s, [e]) == Step(s, e)
  {
    assert [e][1..] == [];
    assert Possible(Step(s, e), [], keys) && End(Step(s, e), []) == Step(s, e);
  }

  /** A run so far and one more step. */
  lemma OneMore(run: seq<Event>, e: Event, keys: set<string>)
    requires Possible(START, run, keys) && Enabled(End(START, run), e, keys)
    ensures Possible(START, run + [e], keys) && End(START, run + [e]) == Step(End(START, run), e)
  {
    OneStep(End(START, run), e, keys);
    Joined(START, run, [e], keys);
  }

  ghost predicate Reached(s: State, keys: set<string>) {
    exists run :: Possible(START, run, keys) && End(START, run) == s
  }

  lemma StartReached(keys: set<string>)
    ensures Reached(START, keys)
  {
    assert Possible(START, [], keys) && End(START, []) == START;
  }

  lemma ReachOn(s: State, more: seq<Event>, keys: set<string>)
    requires Reached(s, keys) && Possible(s, more, keys)
    ensures Reached(End(s, more), keys)
  {
    var run :| Possible(START, run, keys) && End(START, run) == s;
    Joined(START, run, more, keys);
  }

  lemma ReachStep(s: State, e: Event, keys: set<string>)
    requires Reached(s, keys) && Enabled(s, e, keys)
    ensures Reached(Step(s, e), keys)
  {
    OneStep(s, e, keys);
    ReachOn(s, [e], keys);
  }

  // ---- grants ----

  /** The global counter lets one more through. */
  predicate HasRoom(st: Store, now: int) {
    Live(st, GLOBAL, now) ==> st[GLOBAL].value.Num? && 1 <= st[GLOBAL].value.n < GLOBAL_LIMIT
  }

  function Counted(st: Store, now: int): Entry {
    if Live(st, GLOBAL, now) && st[GLOBAL].value.Num? then Entry(Num(st[GLOBAL].value.n + 1), st[GLOBAL].expiry)
    else Entry(Num(1), Some(now + 1000 * WINDOW))
  }

  lemma ReserveGrants(st: Store, key: string, code: Value, now: int)
    requires !Live(st, Cooldown(key), now) && HasRoom(st, now)
    ensures Reserve(st, key, code, now).1 == Yes
    ensures key != GLOBAL ==>
              GLOBAL in Reserve(st, key, code, now).0 && Reserve(st, key, code, now).0[GLOBAL] == Counted(st, now)
  {
    NamesApart(key, key);
  }

  lemma Granting(s: State, key: string, code: Value, at: int) returns (t: State)
    requires !Live(s.store, Cooldown(key), at) && HasRoom(s.store, at)
    ensures t == Step(s, Reserving(key, code, at)) && t.now == at
    ensures |t.grants| == |s.grants| + 1 && t.grants[..|s.grants|] == s.grants
    ensures var g := t.grants[|s.grants|]; g.key == key && g.code == code && g.at == at
    ensures GrantOf(t, key) == Some(|s.grants|)
    ensures key in t.store && t.store[key] == Entry(code, Some(at + 1000 * LIFETIME))
    ensures Cooldown(key) in t.store && t.store[Cooldown(key)] == Entry(Num(1), Some(at + 1000 * COOLDOWN))
    ensures Attempts(key) !in t.store
    ensures key != GLOBAL ==> GLOBAL in t.store && t.store[GLOBAL] == Counted(s.store, at)
    ensures forall y | y !in {GLOBAL, key, Cooldown(key), Attempts(key)} :: SameAt(s.store, t.store, y)
  {
    t := Step(s, Reserving(key, code, at));
    ReserveGrants(s.store, key, code, at);
    GrantedEntries(s.store, key, code, at);
    forall y | y !in {GLOBAL, key, Cooldown(key), Attempts(key)} ensures SameAt(s.store, t.store, y) {
      ReserveFrame(s.store, key, code, at, y);
    }
  }

  // ---- looks ----

  /** The right code, on the first look. */
  lemma Matching(s: State, key: string, code: Value, at: int) returns (t: State)
    requires Live(s.store, key, at) && s.store[key].value == code && Attempts(key) !in s.store
    ensures t == Step(s, Consuming(key, code, at)) && t.now == at && SameGrants(s, t)
    ensures key !in t.store
    ensures forall y | y !in {key, Attempts(key)} :: SameAt(s.store, t.store, y)
  {
    NamesApart(key, key);
    t := Step(s, Consuming(key, code, at));
    ConsumeGrantsNothing(s, key, code, at);
    forall y | y !in {key, Attempts(key)} ensures SameAt(s.store, t.store, y) {
      ConsumeFrame(s.store, key, code, at, y);
    }
  }

  function Looks(key: string, code: Value, at: int, n: nat): seq<Event> {
    if n == 0 then [] else [Consuming(key, code, at)] + Looks(key, code, at, n - 1)
  }

  /** The store with a count of looks at this key. */
  function WithLooks(st: Store, key: string, n: int, until: int): Store {
    st[Attempts(key) := Entry(Num(n), Some(until))]
  }

  /** One wrong look, of at most five. */
  lemma WrongLook(s: State, key: string, code: Value, at: int, n: nat, until: int)
    requires Live(s.store, key, at) && s.store[key].value != code && n < ATTEMPTS
    requires if n == 0 then !Live(s.store, Attempts(key), at) && until == at + 1000 * LIFETIME
             else Attempts(key) in s.store && s.store[Attempts(key)] == Entry(Num(n), Some(until)) && at < until
    ensures var t := Step(s, Consuming(key, code, at));
            t.store == WithLooks(s.store, key, n + 1, until) && t.now == at && SameGrants(s, t)
  {
    NamesApart(key, key);
    ConsumeGrantsNothing(s, key, code, at);
  }

  lemma {:induction false} WrongLooks(s: State, key: string, code: Value, at: int, n: nat, more: nat, until: int,
                                      keys: set<string>)
    requires key in keys && s.now <= at && Canonical(code)
    requires Live(s.store, key, at) && s.store[key].value != code && 1 <= n && n + more <= ATTEMPTS
    requires Attempts(key) in s.store && s.store[Attempts(key)] == Entry(Num(n), Some(until)) && at < until
    ensures var t := End(s, Looks(key, code, at, more));
            && Possible(s, Looks(key, code, at, more), keys) && SameGrants(s, t) && t.now <= at
            && t.store == WithLooks(s.store, key, n + more, until)
    decreases more
  {
    if more == 0 {
      assert WithLooks(s.store, key, n, until) == s.store;
    } else {
      NamesApart(key, key);
      WrongLook(s, key, code, at, n, until);
      var t := Step(s, Consuming(key, code, at));
      assert Looks(key, code, at, more)[1..] == Looks(key, code, at, more - 1);
      WrongLooks(t, key, code, at, n + 1, more - 1, until, keys);
      assert WithLooks(t.store, key, n + more, until) == WithLooks(s.store, key, n + more, until);
    }
  }

  /** Five wrong looks at once, the first since the count ran out. */
  lemma FiveLooks(s: State, key: string, code: Value, at: int, keys: set<string>) returns (t: State)
    requires key in keys && s.now <= at && Canonical(code)
    requires Live(s.store, key, at) && s.store[key].value != code && !Live(s.store, Attempts(key), at)
    ensures Possible(s, Looks(key, code, at, 5), keys) && t == End(s, Looks(key, code, at, 5))
    ensures SameGrants(s, t) && t.now <= at
    ensures t.store == WithLooks(s.store, key, 5, at + 1000 * LIFETIME)
  {
    NamesApart(key, key);
    var until := at + 1000 * LIFETIME;
    WrongLook(s, key, code, at, 0, until);
    var u := Step(s, Consuming(key, code, at));
    assert Looks(key, code, at, 5)[1..] == Looks(key, code, at, 4);
    WrongLooks(u, key, code, at, 1, 4, until, keys);
    assert WithLooks(u.store, key, 5, until) == WithLooks(s.store, key, 5, until);
    t := End(s, Looks(key, code, at, 5));
  }

  /** The sixth look deletes what it looks at, whatever that is. */
  lemma SixthLook(s: State, key: string, code: Value, at: int, until: int) returns (t: State)
    requires Live(s.store, key, at) && at < until
    requires Attempts(key) in s.store && s.store[Attempts(key)] == Entry(Num(5), Some(until))
    ensures t == Step(s, Consuming(key, code, at)) && t.now == at && SameGrants(s, t)
    ensures t.store == WithLooks(s.store, key, 6, until) - {key}
  {
    NamesApart(key, key);
    ConsumeGrantsNothing(s, key, code, at);
    t := Step(s, Consuming(key, code, at));
  }

  // ---- the same, for states that can be reached ----

  lemma GrantReached(s: State, key: string, code: Value, at: int, keys: set<string>) returns (t: State)
    requires Reached(s, keys) && key in keys && Canonical(code) && s.now <= at
    requires !Live(s.store, Cooldown(key), at) && HasRoom(s.store, at)
    ensures Reached(t, keys) && t.now == at
    ensures |t.grants| == |s.grants| + 1 && t.grants[..|s.grants|] == s.grants
    ensures var g := t.grants[|s.grants|]; g.key == key && g.code == code && g.at == at
    ensures key in t.store && t.store[key] == Entry(code, Some(at + 1000 * LIFETIME))
    ensures Cooldown(key) in t.store && t.store[Cooldown(key)] == Entry(Num(1), Some(at + 1000 * COOLDOWN))
    ensures Attempts(key) !in t.store
    ensures key != GLOBAL ==> GLOBAL in t.store && t.store[GLOBAL] == Counted(s.store, at)
    ensures forall y | y !in {GLOBAL, key, Cooldown(key), Attempts(key)} :: SameAt(s.store, t.store, y)
  {
    t := Granting(s, key, code, at);
    ReachStep(s, Reserving(key, code, at), keys);
  }

  lemma MatchReached(s: State, key: string, code: Value, at: int, keys: set<string>) returns (t: State)
    requires Reached(s, keys) && key in keys && Canonical(code) && s.now <= at
    requires Live(s.store, key, at) && s.store[key].value == code && Attempts(key) !in s.store
    ensures Reached(t, keys) && t.now == at && t.grants == s.grants && key !in t.store
    ensures forall y | y !in {key, Attempts(key)} :: SameAt(s.store, t.store, y)
  {
    t := Matching(s, key, code, at);
    ReachStep(s, Consuming(key, code, at), keys);
  }

  lemma FiveReached(s: State, key: string, code: Value, at: int, keys: set<string>) returns (t: State)
    requires Reached(s, keys) && key in keys && Canonical(code) && s.now <= at
    requires Live(s.store, key, at) && s.store[key].value != code && !Live(s.store, Attempts(key), at)
    ensures Reached(t, keys) && t.now <= at && t.grants == s.grants
    ensures t.store == WithLooks(s.store, key, 5, at + 1000 * LIFETIME)
  {
    t := FiveLooks(s, key, code, at, keys);
    ReachOn(s, Looks(key, code, at, 5), keys);
  }

  lemma SixthReached(s: State, key: string, code: Value, at: int, until: int, keys: set<string>) returns (t: State)
    requires Reached(s, keys) && key in keys && Canonical(code) && s.now <= at
    requires Live(s.store, key, at) && at < until
    requires Attempts(key) in s.store && s.store[Attempts(key)] == Entry(Num(5), Some(until))
    ensures Reached(t, keys) && t.now == at && t.grants == s.grants
    ensures t.store == WithLooks(s.store, key, 6, until) - {key}
  {
    t := SixthLook(s, key, code, at, until);
    ReachStep(s, Consuming(key, code, at), keys);
  }

  /** A key is none of the names derived twice from it, nor is one of those the other. */
  lemma NamesFarApart(k: string)
    ensures k != Attempts(Attempts(k)) && k != Attempts(Cooldown(k)) && k != Cooldown(Attempts(k))
    ensures Attempts(k) != Attempts(Cooldown(k)) && Attempts(k) != Attempts(Attempts(k))
  {
    assert |Attempts(Attempts(k))| == |k| + 18 && |Attempts(Cooldown(k))| == |k| + 18;
  }
}
