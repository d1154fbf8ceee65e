/** What holds on every timed run of the mail-code scripts. */
module ReservationBounds {
  import opened Common
  import opened Redis
  import opened Reservation

  lemma StartOk(keys: set<string>)
    ensures Inv(START, keys)
  {
  }

  /** A refused reservation never prolongs the global window, nor starts a cooldown or a code. */
  lemma RefusalsChangeLittle(st: Store, key: string, code: Value, now: int, other: string)
    requires Reserve(st, key, code, now).1 != Yes && key != GLOBAL
    ensures var after := Reserve(st, key, code, now).0;
            && (other != GLOBAL ==> SameAt(st, after, other))
            && (Live(st, GLOBAL, now) ==> GLOBAL in after && after[GLOBAL].expiry == st[GLOBAL].expiry)
  {
  }

  // ---- the stored code ----

  /** The code a reader should find: the latest grant's, for its lifetime. */
  function Latest(grants: seq<Grant>, key: string, now: int): Option<Value>
    decreases |grants|
  {
    if grants == [] then None
    else
      var last := grants[|grants| - 1];
      if last.key != key then Latest(grants[..|grants| - 1], key, now)
      else if now < last.at + 180000 then Some(last.code)
      else None
  }

  lemma {:induction false} LatestIs(grants: seq<Grant>, i: nat, key: string, now: int)
    requires i < |grants| && grants[i].key == key && forall j | i < j < |grants| :: grants[j].key != key
    ensures Latest(grants, key, now)
         == if now < grants[i].at + 1000 * LIFETIME then Some(grants[i].code) else None
    decreases |grants|
  {
    if i < |grants| - 1 { LatestIs(grants[..|grants| - 1], i, key, now); }
  }

  lemma {:induction false} LatestNone(grants: seq<Grant>, key: string, now: int)
    requires forall i | 0 <= i < |grants| :: grants[i].key != key
    ensures Latest(grants, key, now) == None
    decreases |grants|
  {
    if grants != [] { LatestNone(grants[..|grants| - 1], key, now); }
  }

  /** On every run, at every later moment: the live code under a key is that of its latest
      grant, for exactly 180 s, unless a look since then matched it or was the sixth; and a
      fresh grant starts with no attempts counted. */
  lemma CodeIsLatestGrant(run: seq<Event>, keys: set<string>, k: string, now: int)
    requires NoAlias(keys) && Possible(START, run, keys) && k in keys && End(START, run).now <= now
    ensures var s := End(START, run);
            && Get(s.store, k, now) == (if k in s.issues && s.issues[k].gone then None else Latest(s.grants, k, now))
            && (k in s.issues && s.issues[k].looks == 0 ==> !Live(s.store, Attempts(k), now))
  {
    StartOk(keys);
    RunKeeps(START, run, keys);
    var s := End(START, run);
    assert KeyOk(s, k);
    if k in s.issues {
      LatestIs(s.grants, s.issues[k].grant, k, now);
    } else {
      LatestNone(s.grants, k, now);
    }
  }

  /** Exactly when a consumption succeeds: the code is that of the key's latest grant, within
      180 s, neither matched nor looked at five times before. */
  lemma ConsumptionIff(run: seq<Event>, keys: set<string>, k: string, code: Value, now: int)
    requires NoAlias(keys) && Possible(START, run, keys) && k in keys && End(START, run).now <= now && Canonical(code)
    ensures var s := End(START, run);
            && Consume(s.store, k, code, now).1 != Failed
            && (Consume(s.store, k, code, now).1 == Yes
                <==> Latest(s.grants, k, now) == Some(code)
                     && k in s.issues && !s.issues[k].gone && s.issues[k].looks < 5)
  {
    StartOk(keys);
    RunKeeps(START, run, keys);
    CodeIsLatestGrant(run, keys, k, now);
    assert KeyOk(End(START, run), k);
  }

  /** The codes the mail service draws: six digits, which Redis keeps as text when the first
      is a zero. */
  predicate IsMailCode(code: Value) {
    match code
    case Num(n) => 100000 <= n <= 999999
    case Text(s) => |s| == 6 && s[0] == '0' && forall i | 0 <= i < 6 :: '0' <= s[i] <= '9'
  }

  ghost predicate MailsOnly(run: seq<Event>) {
    forall i | 0 <= i < |run| :: run[i].Reserving? && IsMailCode(run[i].code)
  }

  lemma {:induction false} NothingConsumed(s: State, run: seq<Event>, k: string)
    requires MailsOnly(run) && (k in s.issues ==> !s.issues[k].gone)
    ensures k in End(s, run).issues ==> !End(s, run).issues[k].gone
    decreases |run|
  {
    if run != [] { NothingConsumed(Step(s, run[0]), run[1..], k); }
  }

  /** The store is right about every key: it holds what the grants say. */
  ghost predicate StoreRight(s: State, keys: set<string>) {
    forall k | k in keys :: Get(s.store, k, s.now) == Latest(s.grants, k, s.now)
  }

  /** The store is right on every run of reservations of mail codes over these keys. */
  ghost predicate AlwaysRight(keys: set<string>) {
    forall run | Possible(START, run, keys) && MailsOnly(run) :: StoreRight(End(START, run), keys)
  }

  lemma CooldownAliasBreaks(keys: set<string>, l: string)
    requires l in keys && Cooldown(l) in keys
    ensures !AlwaysRight(keys)
  {
    NamesApart(l, l);
    if l == GLOBAL {
      GlobalAliasBreaks(keys);
    } else {
      var e := Reserving(l, Num(100500), 0);
      var s := FirstGrant(l, Num(100500));
      OneStepRun(e, keys);
      LatestNone(s.grants, Cooldown(l), 0);
      assert MailsOnly([e]) && !StoreRight(End(START, [e]), keys);
    }
  }

  lemma OneStepRun(e: Event, keys: set<string>)
    requires Enabled(START, e, keys)
    ensures Possible(START, [e], keys) && End(START, [e]) == Step(START, e)
  {
    var run, s := [e], Step(START, e);
    assert run[1..] == [];
    assert Possible(s, [], keys) && End(s, []) == s;
  }

  lemma TwoStepRun(e: Event, f: Event, keys: set<string>)
    requires Enabled(START, e, keys) && Enabled(Step(START, e), f, keys)
    ensures Possible(START, [e, f], keys) && End(START, [e, f]) == Step(Step(START, e), f)
  {
    var run := [e, f];
    assert run[1..] == [f] && run[1..][1..] == [];
    var s := Step(START, e);
    var t := Step(s, f);
    assert Possible(t, [], keys) && End(t, []) == t;
    assert Possible(s, run[1..], keys) && End(s, run[1..]) == t;
  }

  lemma AttemptsAliasBreaks(keys: set<string>, l: string)
    requires l in keys && Attempts(l) in keys
    ensures !AlwaysRight(keys)
  {
    var k := Attempts(l);
    var e, f := Reserving(k, Num(200700), 0), Reserving(l, Num(100500), 0);
    var t := AliasedGrants(l, Num(200700), Num(100500));
    TwoStepRun(e, f, keys);
    LatestIs(t.grants, 0, k, 0);
    assert MailsOnly([e, f]) && End(START, [e, f]) == t;
  }

  /** The first grant under a key, at time 0. */
  lemma FirstGrant(k: string, code: Value) returns (s: State)
    requires k != GLOBAL
    ensures s == Step(START, Reserving(k, code, 0)) && s.now == 0 && s.grants == [Grant(k, code, 0, 0, 1)]
    ensures GLOBAL in s.store && s.store[GLOBAL] == Entry(Num(1), Some(60000))
    ensures s.store.Keys == {GLOBAL, k, Cooldown(k)} && Get(s.store, Cooldown(k), 0) == Some(Num(1))
  {
    NamesApart(k, k);
    s := Step(START, Reserving(k, code, 0));
  }

  /** A grant for l, right after one for the key that counts attempts at l, deletes the code
      of that one. */
  lemma AliasedGrants(l: string, first: Value, second: Value) returns (t: State)
    ensures t == Step(Step(START, Reserving(Attempts(l), first, 0)), Reserving(l, second, 0))
    ensures |t.grants| == 2 && t.grants[0] == Grant(Attempts(l), first, 0, 0, 1)
    ensures t.grants[1].key == l && Get(t.store, Attempts(l), 0) == None
  {
    NamesApart(l, l);
    NamesApart(l, Attempts(l));
    NamesApart(Attempts(l), l);
    var s := FirstGrant(Attempts(l), first);
    t := Step(s, Reserving(l, second, 0));
  }

  lemma GlobalAliasBreaks(keys: set<string>)
    requires GLOBAL in keys
    ensures !AlwaysRight(keys)
  {
    var e, f := Reserving(GLOBAL, Num(100500), 0), Reserving(GLOBAL, Num(100500), 60000);
    NamesApart(GLOBAL, GLOBAL);
    var s := Step(START, e);
    assert Get(s.store, GLOBAL, 60000) == Some(Num(100500)) && !Live(s.store, Cooldown(GLOBAL), 60000);
    var t := Step(s, f);
    assert Get(t.store, GLOBAL, 60000) == Some(Num(100501)) && t.grants == s.grants == [s.grants[0]];
    assert s.grants[0].key == GLOBAL && s.grants[0].at == 0 && s.grants[0].code == Num(100500);
    TwoStepRun(e, f, keys);
    LatestIs(t.grants, 0, GLOBAL, 60000);
    assert MailsOnly([e, f]) && End(START, [e, f]) == t;
  }

  /** Exactly when the store can be trusted: on every run of reservations over a set of keys it
      holds the latest codes if and only if no key of the set is another's cooldown or
      attempts key or the global counter. */
  lemma RightIffNoAlias(keys: set<string>)
    ensures AlwaysRight(keys) <==> NoAlias(keys)
  {
    if NoAlias(keys) {
      forall run | Possible(START, run, keys) && MailsOnly(run) ensures StoreRight(End(START, run), keys) {
        var s := End(START, run);
        forall k | k in keys ensures Get(s.store, k, s.now) == Latest(s.grants, k, s.now) {
          CodeIsLatestGrant(run, keys, k, s.now);
          NothingConsumed(START, run, k);
        }
      }
    } else if GLOBAL in keys {
      GlobalAliasBreaks(keys);
    } else {
      var k, l :| k in keys && l in keys && (k == Cooldown(l) || k == Attempts(l));
      if k == Cooldown(l) { CooldownAliasBreaks(keys, l); } else { AttemptsAliasBreaks(keys, l); }
    }
  }
}
