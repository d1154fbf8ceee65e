/** Mail verification codes: the reserving script of the mail service and the consuming script
    of the account service, over the same expiring keys. */
module Reservation {
  import opened Common
  import opened Redis

  const GLOBAL := "limit:mail:global"
  const COOLDOWN := 60
  const WINDOW := 60
  const LIFETIME := 180
  const GLOBAL_LIMIT := 100
  const ATTEMPTS := 5

  function Cooldown(key: string): string {
    key + ":cooldown"
  }

  function Attempts(key: string): string {
    key + ":attempts"
  }

  /** What a script returns; a failing command ends it with an error. */
  datatype Outcome = Yes | No | Failed

  /** `ReserveCode`'s script. */
  function Reserve(st: Store, key: string, code: Value, now: int): (Store, Outcome) {
    if Live(st, Cooldown(key), now) then (st, No)
    else
      var counted := Incr(st, GLOBAL, now);
      if counted.1.None? then (st, Failed)
      else
        var s1 := if counted.1.value == 1 then Expire(counted.0, GLOBAL, WINDOW, now) else counted.0;
        if counted.1.value > GLOBAL_LIMIT then (s1, No)
        else
          var s2 := SetEx(s1, Cooldown(key), Num(1), COOLDOWN, now);
          var s3 := SetEx(s2, key, code, LIFETIME, now);
          (Del(s3, Attempts(key)), Yes)
  }

  /** `ConsumeCode`'s script: each look at a live code is counted before it is compared, the
      sixth deletes it, and so does the first that matches. */
  function Consume(st: Store, key: string, code: Value, now: int): (Store, Outcome) {
    var found := Get(st, key, now);
    if found.None? then (st, No)
    else
      var counted := Incr(st, Attempts(key), now);
      if counted.1.None? then (st, Failed)
      else
        var s1 := if counted.1.value == 1 then Expire(counted.0, Attempts(key), LIFETIME, now) else counted.0;
        if counted.1.value > ATTEMPTS then (Del(s1, key), No)
        else if found.value != code then (s1, No)
        else (Del(s1, key), Yes)
  }

  /** The scripts as Redis runs them, command by command. */
  class Database {
    var store: Store

    constructor ()
      ensures store == map[]
    {
      store := map[];
    }

    method ReserveCode(key: string, code: Value, now: int) returns (outcome: Outcome)
      modifies this
      ensures (store, outcome) == Reserve(old(store), key, code, now)
      ensures outcome == No && Live(old(store), GLOBAL, now) ==>
                Live(store, GLOBAL, now) && store[GLOBAL].expiry == old(store)[GLOBAL].expiry
    {
      if Live(store, Cooldown(key), now) { return No; }
      var counted := Incr(store, GLOBAL, now);
      if counted.1.None? { return Failed; }
      store := counted.0;
      var n := counted.1.value;
      if n == 1 { store := Expire(store, GLOBAL, WINDOW, now); }
      if n > GLOBAL_LIMIT { return No; }
      store := SetEx(store, Cooldown(key), Num(1), COOLDOWN, now);
      store := SetEx(store, key, code, LIFETIME, now);
      store := Del(store, Attempts(key));
      return Yes;
    }

    method ConsumeCode(key: string, code: Value, now: int) returns (outcome: Outcome)
      modifies this
      ensures (store, outcome) == Consume(old(store), key, code, now)
      ensures outcome == Yes ==> Get(old(store), key, now) == Some(code) && Get(store, key, now) == None
    {
      var found := Get(store, key, now);
      if found.None? { return No; }
      var counted := Incr(store, Attempts(key), now);
      if counted.1.None? { return Failed; }
      store := counted.0;
      var n := counted.1.value;
      if n == 1 { store := Expire(store, Attempts(key), LIFETIME, now); }
      if n > ATTEMPTS {
        store := Del(store, key);
        return No;
      }
      if found.value != code { return No; }
      store := Del(store, key);
      return Yes;
    }
  }

  // ---- runs ----

  /** A granted reservation, with the global window it fell in and its count there. */
  datatype Grant = Grant(key: string, code: Value, at: int, window: int, count: int)

  /** What became of a key's latest grant: how often its code was looked at while it lived, and
      whether a look has used it up. */
  datatype Issue = Issue(grant: nat, looks: nat, gone: bool)

  datatype State = State(store: Store, now: int, grants: seq<Grant>, issues: map<string, Issue>)

  const START := State(map[], 0, [], map[])

  datatype Event = Reserving(key: string, code: Value, at: int) | Consuming(key: string, code: Value, at: int)

  ghost predicate Enabled(s: State, e: Event, keys: set<string>) {
    e.key in keys && s.now <= e.at && Canonical(e.code)
  }

  /** When the global window that is live now began. */
  function WindowStart(st: Store): int {
    if GLOBAL in st && st[GLOBAL].expiry.Some? then st[GLOBAL].expiry.value - 1000 * WINDOW else 0
  }

  function CountNow(st: Store): int {
    if GLOBAL in st && st[GLOBAL].value.Num? then st[GLOBAL].value.n else 0
  }

  function AfterReserve(s: State, key: string, code: Value, at: int): State {
    var r := Reserve(s.store, key, code, at);
    if r.1 != Yes then s.(store := r.0, now := at)
    else
      State(r.0, at, s.grants + [Grant(key, code, at, WindowStart(r.0), CountNow(r.0))],
            s.issues[key := Issue(|s.grants|, 0, false)])
  }

  function AfterConsume(s: State, key: string, code: Value, at: int): State {
    s.(store := Consume(s.store, key, code, at).0, now := at, issues := Looked(s.grants, s.issues, key, code, at))
  }

  /** A look at a code that was granted within its lifetime and not used up; it uses the code
      up if it matches or is the sixth. The store is not consulted. */
  function Looked(grants: seq<Grant>, issues: map<string, Issue>, key: string, code: Value, at: int)
      : map<string, Issue>
  {
    if key in issues && issues[key].grant < |grants| && !issues[key].gone
       && at < grants[issues[key].grant].at + 1000 * LIFETIME
    then
      var issue := issues[key];
      var usedUp := grants[issue.grant].code == code || issue.looks + 1 > ATTEMPTS;
      issues[key := issue.(looks := issue.looks + 1, gone := usedUp)]
    else issues
  }

  function Step(s: State, e: Event): State {
    match e
    case Reserving(key, code, at) => AfterReserve(s, key, code, at)
    case Consuming(key, code, at) => AfterConsume(s, key, code, at)
  }

  ghost predicate Possible(s: State, run: seq<Event>, keys: set<string>)
    decreases |run|
  {
    run == [] || (Enabled(s, run[0], keys) && Possible(Step(s, run[0]), run[1..], keys))
  }

  ghost function End(s: State, run: seq<Event>): State
    decreases |run|
  {
    if run == [] then s else End(Step(s, run[0]), run[1..])
  }

  // ---- names ----

  /** No key in use is another's cooldown or attempts key, or the global one. */
  ghost predicate NoAlias(keys: set<string>) {
    && GLOBAL !in keys
    && forall k, l | k in keys && l in keys :: k != Cooldown(l) && k != Attempts(l)
  }

  lemma NamesApart(k: string, l: string)
    ensures Cooldown(k) != Attempts(l) && Cooldown(k) != GLOBAL && Attempts(k) != GLOBAL
    ensures Cooldown(k) == Cooldown(l) ==> k == l
    ensures Attempts(k) == Attempts(l) ==> k == l
    ensures k != Cooldown(k) && k != Attempts(k)
  {
    var c, a := Cooldown(k), Attempts(l);
    assert c[|c| - 1] == 'n' && a[|a| - 1] == 's' && GLOBAL[|GLOBAL| - 1] == 'l';
    assert Attempts(k)[|Attempts(k)| - 1] == 's';
    assert Cooldown(k)[..|k|] == k && Cooldown(l)[..|l|] == l;
    assert Attempts(k)[..|k|] == k && Attempts(l)[..|l|] == l;
  }

  // ---- the invariant ----

  /** A key's own entries are what its latest grant and the looks since then have made them. */
  ghost predicate KeyOk(s: State, k: string) {
    if k !in s.issues then
      k !in s.store && Cooldown(k) !in s.store && Attempts(k) !in s.store
      && forall i | 0 <= i < |s.grants| :: s.grants[i].key != k
    else
      var issue := s.issues[k];
      && issue.grant < |s.grants|
      && var g := s.grants[issue.grant];
         && g.key == k && g.at <= s.now && (forall j | issue.grant < j < |s.grants| :: s.grants[j].key != k)
         && Cooldown(k) in s.store && s.store[Cooldown(k)].expiry == Some(g.at + 1000 * COOLDOWN)
         && (if issue.gone then k !in s.store
             else k in s.store && s.store[k] == Entry(g.code, Some(g.at + 1000 * LIFETIME)))
         && (issue.looks == 0 ==> Attempts(k) !in s.store)
         && (issue.looks > 0 ==>
               && Attempts(k) in s.store && s.store[Attempts(k)].value == Num(issue.looks)
               && s.store[Attempts(k)].expiry.Some? && s.store[Attempts(k)].expiry.value >= g.at + 1000 * LIFETIME)
         && issue.looks <= (if issue.gone then ATTEMPTS + 1 else ATTEMPTS)
  }

  ghost predicate Inv(s: State, keys: set<string>) {
    forall k | k in keys :: KeyOk(s, k)
  }

  /** The entry is the same in both stores, or missing from both. */
  ghost predicate SameAt(a: Store, b: Store, x: string) {
    (x in a <==> x in b) && (x in a ==> a[x] == b[x])
  }

  // ---- what the scripts do ----

  /** What the counter shows a script: nothing live counts from 0, and a text cannot be counted. */
  function Counter(st: Store, key: string, now: int): Option<int> {
    match Get(st, key, now)
    case None => Some(0)
    case Some(Num(n)) => Some(n)
    case Some(Text(_)) => None
  }

  /** When a counter that has been counted up ends: the first count starts the window. */
  predicate CountedUp(st: Store, after: Store, key: string, now: int, seconds: int) {
    && key in after && Counter(st, key, now).Some?
    && var n := Counter(st, key, now).value;
       && after[key].value == Num(n + 1)
       && after[key].expiry == if n == 0 then Some(now + 1000 * seconds) else st[key].expiry
  }

  /** A code is granted exactly when its key is not cooling down and fewer than a hundred were in
      the window; then the code lives for 180 s, the cooldown for 60 s, and no attempt is counted.
      A refusal in the cooldown changes nothing, any other only the counter. */
  lemma ReserveSays(st: Store, key: string, code: Value, now: int)
    requires key != "limit:mail:global"
    ensures var (after, outcome), n := Reserve(st, key, code, now), Counter(st, "limit:mail:global", now);
            var cooldown, attempts := key + ":cooldown", key + ":attempts";
            if Live(st, cooldown, now) then outcome == No && after == st
            else if n.None? then outcome == Failed && after == st
            else
              && CountedUp(st, after, "limit:mail:global", now, 60)
              && (outcome == if n.value < 100 then Yes else No)
              && (outcome == Yes ==>
                    && key in after && after[key] == Entry(code, Some(now + 180000))
                    && cooldown in after && after[cooldown] == Entry(Num(1), Some(now + 60000))
                    && attempts !in after
                    && forall x | x !in {"limit:mail:global", key, cooldown, attempts} :: SameAt(st, after, x))
              && (outcome == No ==> forall x | x != "limit:mail:global" :: SameAt(st, after, x))
  {
    NamesApart(key, key);
  }

  /** A code is looked at only while one lives under the key, and each look is counted, for 180 s
      from the first. Up to the fifth it is compared: a match deletes it, anything else leaves it.
      The sixth deletes it unseen. */
  lemma ConsumeSays(st: Store, key: string, code: Value, now: int)
    ensures var (after, outcome), attempts := Consume(st, key, code, now), key + ":attempts";
            var found, n := Get(st, key, now), Counter(st, attempts, now);
            if found.None? then outcome == No && after == st
            else if n.None? then outcome == Failed && after == st
            else
              && CountedUp(st, after, attempts, now, 180)
              && (outcome == if n.value < 5 && found.value == code then Yes else No)
              && (if n.value >= 5 || found.value == code then key !in after else SameAt(st, after, key))
              && forall x | x !in {key, attempts} :: SameAt(st, after, x)
  {
    NamesApart(key, key);
  }

  lemma ReserveFrame(st: Store, key: string, code: Value, now: int, x: string)
    requires x !in {GLOBAL, key, Cooldown(key), Attempts(key)}
    ensures SameAt(st, Reserve(st, key, code, now).0, x)
  {
  }

  lemma ConsumeFrame(st: Store, key: string, code: Value, now: int, x: string)
    requires x !in {key, Attempts(key)}
    ensures SameAt(st, Consume(st, key, code, now).0, x)
  {
  }

  lemma ConsumeKeepsOwn(s: State, key: string, code: Value, at: int, keys: set<string>)
    requires Inv(s, keys) && NoAlias(keys) && key in keys && s.now <= at
    ensures KeyOk(AfterConsume(s, key, code, at), key)
  {
    NamesApart(key, key);
    assert KeyOk(s, key);
  }

  lemma ConsumeKeepsOther(s: State, key: string, code: Value, at: int, keys: set<string>, k: string)
    requires Inv(s, keys) && NoAlias(keys) && key in keys && s.now <= at && k in keys && k != key
    ensures KeyOk(AfterConsume(s, key, code, at), k)
  {
    NamesApart(key, k);
    NamesApart(k, key);
    ConsumeFrame(s.store, key, code, at, k);
    ConsumeFrame(s.store, key, code, at, Cooldown(k));
    ConsumeFrame(s.store, key, code, at, Attempts(k));
    assert KeyOk(s, k);
  }

  /** A key the script does not touch keeps its story. */
  lemma ReserveKeepsOther(s: State, key: string, code: Value, at: int, keys: set<string>, k: string)
    requires Inv(s, keys) && NoAlias(keys) && key in keys && s.now <= at && k in keys && k != key
    ensures KeyOk(AfterReserve(s, key, code, at), k)
  {
    NamesApart(key, k);
    NamesApart(k, key);
    ReserveFrame(s.store, key, code, at, k);
    ReserveFrame(s.store, key, code, at, Cooldown(k));
    ReserveFrame(s.store, key, code, at, Attempts(k));
    assert KeyOk(s, k);
    OtherStory(s, AfterReserve(s, key, code, at), k);
  }

  lemma OtherStory(s: State, t: State, k: string)
    requires KeyOk(s, k) && s.now <= t.now && SameAt(s.store, t.store, k)
    requires SameAt(s.store, t.store, Cooldown(k)) && SameAt(s.store, t.store, Attempts(k))
    requires k in s.issues <==> k in t.issues
    requires k in s.issues ==> s.issues[k] == t.issues[k]
    requires s.grants <= t.grants && forall j | |s.grants| <= j < |t.grants| :: t.grants[j].key != k
    ensures KeyOk(t, k)
  {
  }

  /** A refused reservation leaves all but the global counter alone. */
  lemma RefusedFrame(st: Store, key: string, code: Value, now: int, x: string)
    requires Reserve(st, key, code, now).1 != Yes && x != GLOBAL
    ensures SameAt(st, Reserve(st, key, code, now).0, x)
  {
  }

  /** What a granted reservation leaves, on any store. */
  lemma GrantedEntries(st: Store, key: string, code: Value, now: int)
    requires Reserve(st, key, code, now).1 == Yes
    ensures var after := Reserve(st, key, code, now).0;
            && key in after && after[key] == Entry(code, Some(now + 1000 * LIFETIME))
            && Cooldown(key) in after && after[Cooldown(key)] == Entry(Num(1), Some(now + 1000 * COOLDOWN))
            && Attempts(key) !in after
    ensures !Live(st, Cooldown(key), now)
  {
    NamesApart(key, key);
  }

  lemma ReserveKeepsOwn(s: State, key: string, code: Value, at: int, keys: set<string>)
    requires Inv(s, keys) && NoAlias(keys) && key in keys && s.now <= at
    ensures KeyOk(AfterReserve(s, key, code, at), key)
  {
    if Reserve(s.store, key, code, at).1 == Yes {
      GrantedEntries(s.store, key, code, at);
    } else {
      NamesApart(key, key);
      RefusedFrame(s.store, key, code, at, key);
      RefusedFrame(s.store, key, code, at, Cooldown(key));
      RefusedFrame(s.store, key, code, at, Attempts(key));
      OtherStory(s, AfterReserve(s, key, code, at), key);
    }
  }

  lemma StepKeeps(s: State, e: Event, keys: set<string>)
    requires Inv(s, keys) && NoAlias(keys) && Enabled(s, e, keys)
    ensures Inv(Step(s, e), keys)
  {
    match e
    case Consuming(key, code, at) =>
      ConsumeKeepsOwn(s, key, code, at, keys);
      forall k | k in keys && k != key ensures KeyOk(AfterConsume(s, key, code, at), k) {
        ConsumeKeepsOther(s, key, code, at, keys, k);
      }
    case Reserving(key, code, at) =>
      ReserveKeepsOwn(s, key, code, at, keys);
      forall k | k in keys && k != key ensures KeyOk(AfterReserve(s, key, code, at), k) {
        ReserveKeepsOther(s, key, code, at, keys, k);
      }
  }

  lemma {:induction false} RunKeeps(s: State, run: seq<Event>, keys: set<string>)
    requires Inv(s, keys) && NoAlias(keys) && Possible(s, run, keys)
    ensures Inv(End(s, run), keys)
    decreases |run|
  {
    if run != [] {
      StepKeeps(s, run[0], keys);
      RunKeeps(Step(s, run[0]), run[1..], keys);
    }
  }
}
