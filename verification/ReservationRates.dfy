/** How fast mail codes are granted: the global rate and the spacing per key, on every timed run
    of both scripts, for any keys. */
module ReservationRates {
  import opened Common
  import opened Numbers
  import opened Redis
  import opened Reservation
  import opened ReservationSteps

  // ---- the global counter ----

  ghost predicate GlobalOk(s: State) {
    if GLOBAL !in s.store then s.grants == []
    else
      var e := s.store[GLOBAL];
      && e.value.Num? && e.value.n >= 1 && e.expiry.Some? && WindowStart(s.store) <= s.now
      && (s.grants != [] ==>
            var g := s.grants[|s.grants| - 1];
            (g.window == WindowStart(s.store) && g.count <= e.value.n)
            || g.window + 1000 * WINDOW <= WindowStart(s.store))
  }

  ghost predicate GrantOk(s: State, g: Grant) {
    1 <= g.count <= GLOBAL_LIMIT && g.window <= g.at < g.window + 1000 * WINDOW && g.at <= s.now
  }

  /** Two grants in the order they were made: the later is in the same window with a higher
      count, or in a window that began after the first had ended. */
  ghost predicate InOrder(g: Grant, h: Grant) {
    && g.at <= h.at
    && ((g.window == h.window && g.count < h.count) || g.window + 1000 * WINDOW <= h.window)
  }

  ghost predicate GrantsInOrder(grants: seq<Grant>) {
    forall i, j | 0 <= i < j < |grants| :: InOrder(grants[i], grants[j])
  }

  ghost predicate RateInv(s: State) {
    GlobalOk(s) && GrantsInOrder(s.grants) && forall i | 0 <= i < |s.grants| :: GrantOk(s, s.grants[i])
  }

  /** What the script does to the global counter, on a store in order. */
  lemma ReserveCounts(s: State, key: string, code: Value, at: int)
    requires GlobalOk(s) && s.now <= at && key != GLOBAL
    ensures var t := AfterReserve(s, key, code, at);
            var r := Reserve(s.store, key, code, at);
            && (GLOBAL !in t.store ==> GLOBAL !in s.store && r.1 != Yes)
            && (GLOBAL in t.store ==>
                  && t.store[GLOBAL].value.Num? && t.store[GLOBAL].value.n >= 1 && t.store[GLOBAL].expiry.Some?
                  && WindowStart(t.store) <= at
                  && (r.1 == Yes ==> at < WindowStart(t.store) + 1000 * WINDOW && CountNow(t.store) <= GLOBAL_LIMIT)
                  && (GLOBAL in s.store ==>
                        || (WindowStart(t.store) == WindowStart(s.store) && CountNow(s.store) <= CountNow(t.store)
                            && (r.1 == Yes ==> CountNow(s.store) < CountNow(t.store)))
                        || WindowStart(s.store) + 1000 * WINDOW <= WindowStart(t.store)))
  {
    NamesApart(key, key);
  }

  lemma NewGrantInOrder(s: State, key: string, code: Value, at: int)
    requires RateInv(s) && key != GLOBAL && s.now <= at && Reserve(s.store, key, code, at).1 == Yes
    ensures var t := AfterReserve(s, key, code, at);
            forall i | 0 <= i < |s.grants| :: InOrder(s.grants[i], t.grants[|s.grants|])
  {
    ReserveCounts(s, key, code, at);
    var h := AfterReserve(s, key, code, at).grants[|s.grants|];
    forall i | 0 <= i < |s.grants| ensures InOrder(s.grants[i], h) {
      var g, last := s.grants[i], s.grants[|s.grants| - 1];
      assert GrantOk(s, g);
      assert g == last || InOrder(g, last);
    }
  }

  lemma ReserveKeepsRate(s: State, key: string, code: Value, at: int)
    requires RateInv(s) && key != GLOBAL && s.now <= at
    ensures RateInv(AfterReserve(s, key, code, at))
  {
    ReserveCounts(s, key, code, at);
    var t := AfterReserve(s, key, code, at);
    if t.grants != s.grants {
      NewGrantInOrder(s, key, code, at);
      forall i, j | 0 <= i < j < |t.grants| ensures InOrder(t.grants[i], t.grants[j]) {
        if j < |s.grants| { assert InOrder(s.grants[i], s.grants[j]); }
      }
    }
    forall i | 0 <= i < |t.grants| ensures GrantOk(t, t.grants[i]) {
      if i < |s.grants| { assert GrantOk(s, s.grants[i]); }
    }
  }

  lemma ConsumeKeepsRate(s: State, key: string, code: Value, at: int)
    requires RateInv(s) && key != GLOBAL && s.now <= at
    ensures RateInv(AfterConsume(s, key, code, at))
  {
    NamesApart(key, key);
    ConsumeFrame(s.store, key, code, at, GLOBAL);
    var t := AfterConsume(s, key, code, at);
    forall i | 0 <= i < |t.grants| ensures GrantOk(t, t.grants[i]) { assert GrantOk(s, s.grants[i]); }
  }

  lemma {:induction false} RunKeepsRate(s: State, run: seq<Event>, keys: set<string>)
    requires RateInv(s) && GLOBAL !in keys && Possible(s, run, keys)
    ensures RateInv(End(s, run))
    decreases |run|
  {
    if run != [] {
      if run[0].Reserving? {
        ReserveKeepsRate(s, run[0].key, run[0].code, run[0].at);
      } else {
        ConsumeKeepsRate(s, run[0].key, run[0].code, run[0].at);
      }
      RunKeepsRate(Step(s, run[0]), run[1..], keys);
    }
  }

  /** How many whole windows cover a time span. */
  function Windows(span: int): int {
    (span + 1000 * WINDOW - 1) / (1000 * WINDOW)
  }

  ghost predicate Counts(grants: seq<Grant>) {
    forall i | 0 <= i < |grants| ::
      1 <= grants[i].count <= GLOBAL_LIMIT && grants[i].window <= grants[i].at
  }

  /** The grants of one window: at most 100, for each counts higher than the one before. */
  lemma {:induction false} OneWindow(grants: seq<Grant>, lo: nat, hi: nat) returns (m: nat)
    requires GrantsInOrder(grants) && Counts(grants) && lo < hi <= |grants|
    ensures lo < m <= hi && m - lo <= GLOBAL_LIMIT
    ensures forall i | m <= i < hi :: grants[i].window >= grants[lo].window + 1000 * WINDOW
  {
    m := lo + 1;
    while m < hi && grants[m].window == grants[lo].window
      invariant lo < m <= hi && grants[m - 1].window == grants[lo].window
      invariant m - lo <= grants[m - 1].count
    {
      assert InOrder(grants[m - 1], grants[m]);
      m := m + 1;
    }
    forall i | m <= i < hi ensures grants[i].window >= grants[lo].window + 1000 * WINDOW {
      assert InOrder(grants[lo], grants[m]);
      assert i == m || InOrder(grants[m], grants[i]);
    }
  }

  /** Grants whose windows all began at `from` or later. */
  lemma {:induction false} FreshWindows(grants: seq<Grant>, lo: nat, hi: nat, from: int, to: int)
    requires GrantsInOrder(grants) && Counts(grants) && lo <= hi <= |grants|
    requires forall i | lo <= i < hi :: from <= grants[i].window && grants[i].at < to
    requires from <= to
    ensures hi - lo <= GLOBAL_LIMIT * Windows(to - from)
    decreases hi - lo
  {
    if lo < hi {
      var m := OneWindow(grants, lo, hi);
      assert grants[lo].window <= grants[lo].at;
      if m < hi {
        assert grants[m].window <= grants[m].at;
        FreshWindows(grants, m, hi, from + 1000 * WINDOW, to);
        assert Windows(to - from) == Windows(to - (from + 1000 * WINDOW)) + 1;
      } else {
        assert Windows(to - from) >= 1;
      }
    }
  }

  /** One window may have begun before the interval; the others begin inside it. */
  lemma RateOf(grants: seq<Grant>, lo: nat, hi: nat, from: int, span: nat)
    requires GrantsInOrder(grants) && Counts(grants) && lo < hi <= |grants|
    requires grants[lo].at < grants[lo].window + 1000 * WINDOW
    requires forall i | lo <= i < hi :: from <= grants[i].at < from + span
    ensures hi - lo <= GLOBAL_LIMIT * (Windows(span) + 1)
  {
    var m := OneWindow(grants, lo, hi);
    FreshWindows(grants, m, hi, from, from + span);
  }

  /** The grants numbered lo to hi were made in this interval. */
  ghost predicate Within(grants: seq<Grant>, lo: nat, hi: nat, from: int, span: nat) {
    lo <= hi <= |grants| && forall i | lo <= i < hi :: from <= grants[i].at < from + span
  }

  /** Any half-open interval of T milliseconds holds at most 100 * (ceil(T / 60 s) + 1) grants,
      over all keys together, whatever their names, but for the counter's own. */
  lemma GlobalRate(run: seq<Event>, keys: set<string>, lo: nat, hi: nat, from: int, span: nat)
    requires GLOBAL !in keys && Possible(START, run, keys) && Within(End(START, run).grants, lo, hi, from, span)
    ensures hi - lo <= 100 * ((span + 59999) / 60000 + 1)
  {
    RunKeepsRate(START, run, keys);
    GrantsCount(End(START, run));
    if lo < hi { RateOf(End(START, run).grants, lo, hi, from, span); }
  }

  lemma GrantsCount(s: State)
    requires RateInv(s)
    ensures GrantsInOrder(s.grants) && Counts(s.grants)
    ensures forall i | 0 <= i < |s.grants| :: s.grants[i].at < s.grants[i].window + 1000 * WINDOW
  {
    forall i | 0 <= i < |s.grants|
      ensures 1 <= s.grants[i].count <= GLOBAL_LIMIT
      ensures s.grants[i].window <= s.grants[i].at < s.grants[i].window + 1000 * WINDOW
    {
      assert GrantOk(s, s.grants[i]);
    }
  }

  // ---- the counter's own key ----

  const CODE := Num(100500)

  /** Any number of addresses to send to. */
  function Name(i: nat): string {
    "m" + Digits(i)
  }

  lemma NameFacts(i: nat, x: string)
    ensures Name(i) != GLOBAL && Name(i) != Cooldown(x) && Name(i) != Attempts(x)
  {
    assert IsDigit(Name(i)[|Name(i)| - 1]);
    assert Cooldown(x)[|Cooldown(x)| - 1] == 'n' && Attempts(x)[|Attempts(x)| - 1] == 's';
  }

  lemma NamesDiffer(i: nat, j: nat)
    ensures Name(i) == Name(j) ==> i == j
  {
    ValueOfDigits(i);
    ValueOfDigits(j);
    assert Name(i)[1..] == Digits(i) && Name(j)[1..] == Digits(j);
  }

  /** These addresses, from the i-th on, have not been reserved. */
  ghost predicate Untouched(st: Store, i: nat) {
    forall j: nat | i <= j :: Cooldown(Name(j)) !in st
  }

  /** The counter's own cooldown key stands as it stood. */
  ghost predicate SameBeside(a: Store, b: Store) {
    SameAt(a, b, Cooldown(GLOBAL))
  }

  lemma GrantName(s: State, i: nat, at: int, keys: set<string>) returns (t: State)
    requires Reached(s, keys) && Name(i) in keys && s.now <= at && Untouched(s.store, i) && HasRoom(s.store, at)
    ensures Reached(t, keys) && t.now == at
    ensures Untouched(t.store, i + 1) && SameBeside(s.store, t.store)
    ensures Extends(s.grants, t.grants, 1, at)
    ensures GLOBAL in t.store && t.store[GLOBAL] == Counted(s.store, at)
  {
    NameFacts(i, GLOBAL);
    t := GrantReached(s, Name(i), CODE, at, keys);
    forall j: nat | i + 1 <= j ensures Cooldown(Name(j)) !in t.store {
      NamesDiffer(i, j);
      StaysUntouched(i, Name(j));
      assert SameAt(s.store, t.store, Cooldown(Name(j)));
    }
    StaysUntouched(i, GLOBAL);
  }

  /** A grant for one address writes none of another's derived names. */
  lemma StaysUntouched(i: nat, x: string)
    requires x != Name(i)
    ensures Cooldown(x) !in {GLOBAL, Name(i), Cooldown(Name(i)), Attempts(Name(i))}
    ensures Attempts(x) !in {GLOBAL, Name(i), Cooldown(Name(i)), Attempts(Name(i))}
  {
    NameFacts(i, x);
    NamesApart(x, Name(i));
    NamesApart(Name(i), x);
  }

  /** This many more grants, all at one instant. */
  ghost predicate Extends(before: seq<Grant>, after: seq<Grant>, n: nat, at: int) {
    && |after| == |before| + n && after[..|before|] == before
    && forall j | |before| <= j < |after| :: after[j].at == at
  }

  lemma ExtendsTwice(a: seq<Grant>, b: seq<Grant>, c: seq<Grant>, m: nat, n: nat, at: int)
    requires Extends(a, b, m, at) && Extends(b, c, n, at)
    ensures Extends(a, c, m + n, at)
  {
    forall j | 0 <= j < |b| ensures c[j] == b[j] { assert c[j] == c[..|b|][j]; }
    assert c[..|a|] == b[..|a|];
  }

  /** As many grants at one instant as the counter has room for. */
  lemma {:induction false} BatchGrants(s: State, i: nat, n: nat, at: int, count: int, until: int, keys: set<string>)
      returns (t: State)
    requires s.now <= at < until && Untouched(s.store, i) && 1 <= count && count + n <= GLOBAL_LIMIT
    requires GLOBAL in s.store && s.store[GLOBAL] == Entry(Num(count), Some(until))
    requires Reached(s, keys) && forall j | i <= j < i + n :: Name(j) in keys
    ensures Reached(t, keys) && t.now <= at
    ensures Extends(s.grants, t.grants, n, at)
    ensures Untouched(t.store, i + n) && SameBeside(s.store, t.store)
    ensures GLOBAL in t.store && t.store[GLOBAL] == Entry(Num(count + n), Some(until))
    decreases n
  {
    if n == 0 {
      t := s;
    } else {
      var u := GrantName(s, i, at, keys);
      t := BatchGrants(u, i + 1, n - 1, at, count + 1, until, keys);
      ExtendsTwice(s.grants, u.grants, t.grants, 1, n - 1, at);
    }
  }

  ghost function Names(n: nat): set<string> {
    set i | 0 <= i < n :: Name(i)
  }

  ghost predicate RateHeld(grants: seq<Grant>) {
    forall lo: nat, hi: nat, from: int, span: nat | Within(grants, lo, hi, from, span) ::
      hi - lo <= 100 * ((span + 59999) / 60000 + 1)
  }

  /** All grants but the first fell around the turn of the first window. */
  ghost predicate AtTurn(s: State, n: nat) {
    |s.grants| == n && forall j | 1 <= j < n :: 59999 <= s.grants[j].at <= 60000
  }

  lemma StillAtTurn(s: State, t: State, n: nat, m: nat, at: int)
    requires AtTurn(s, n) && n >= 1 && Extends(s.grants, t.grants, m, at) && 59999 <= at <= 60000
    ensures AtTurn(t, n + m)
  {
    forall j | 1 <= j < n ensures t.grants[j] == s.grants[j] { assert t.grants[j] == t.grants[..n][j]; }
  }

  lemma NameIn(i: nat, keys: set<string>)
    requires i < 300 && Names(300) <= keys
    ensures Name(i) in keys
  {
    assert Name(i) in Names(300);
  }

  /** One address reserved at the turn. */
  lemma TurnGrant(s: State, n: nat, i: nat, keys: set<string>) returns (t: State)
    requires Reached(s, keys) && AtTurn(s, n) && n >= 1 && s.now <= 60000 && i < 300 && Names(300) <= keys
    requires Untouched(s.store, i) && !Live(s.store, GLOBAL, 60000)
    ensures Reached(t, keys) && AtTurn(t, n + 1) && t.now == 60000 && Untouched(t.store, i + 1)
    ensures SameBeside(s.store, t.store)
    ensures GLOBAL in t.store && t.store[GLOBAL] == Entry(Num(1), Some(120000))
  {
    NameIn(i, keys);
    t := GrantName(s, i, 60000, keys);
    StillAtTurn(s, t, n, 1, 60000);
  }

  /** A batch of addresses reserved at the turn. */
  lemma TurnBatch(s: State, n: nat, i: nat, m: nat, at: int, until: int, keys: set<string>) returns (t: State)
    requires Reached(s, keys) && AtTurn(s, n) && n >= 1 && s.now <= at < until && 59999 <= at <= 60000
    requires i + m <= 300 && Names(300) <= keys && Untouched(s.store, i) && 1 + m <= GLOBAL_LIMIT
    requires GLOBAL in s.store && s.store[GLOBAL] == Entry(Num(1), Some(until))
    ensures Reached(t, keys) && AtTurn(t, n + m) && t.now <= at && Untouched(t.store, i + m)
    ensures SameBeside(s.store, t.store)
    ensures GLOBAL in t.store && t.store[GLOBAL] == Entry(Num(1 + m), Some(until))
  {
    forall j | i <= j < i + m ensures Name(j) in keys { NameIn(j, keys); }
    t := BatchGrants(s, i, m, at, 1, until, keys);
    StillAtTurn(s, t, n, m, at);
  }

  /** A hundred grants in the first window, all but one at its very end. */
  lemma FirstHundred(keys: set<string>) returns (s: State)
    requires Names(300) <= keys
    ensures Reached(s, keys) && AtTurn(s, 100) && s.now <= 59999 && Untouched(s.store, 100)
    ensures SameBeside(START.store, s.store) && !Live(s.store, GLOBAL, 60000)
  {
    NameIn(0, keys);
    StartReached(keys);
    var a := GrantName(START, 0, 0, keys);
    assert AtTurn(a, 1);
    s := TurnBatch(a, 1, 1, 99, 59999, 60000, keys);
  }

  /** The counter's own key reserved and used up: the count is gone. */
  lemma CounterUsedUp(s: State, n: nat, keys: set<string>) returns (t: State)
    requires Reached(s, keys) && AtTurn(s, n) && n >= 1 && s.now <= 60000 && GLOBAL in keys
    requires Cooldown(GLOBAL) !in s.store && HasRoom(s.store, 60000) && Untouched(s.store, 199)
    ensures Reached(t, keys) && AtTurn(t, n + 1) && t.now == 60000
    ensures Untouched(t.store, 199) && GLOBAL !in t.store
  {
    var a := CounterGranted(s, keys);
    StillAtTurn(s, a, n, 1, 60000);
    t := MatchReached(a, GLOBAL, CODE, 60000, keys);
    CounterLeavesNames(a.store, t.store);
  }

  lemma CounterGranted(s: State, keys: set<string>) returns (t: State)
    requires Reached(s, keys) && GLOBAL in keys && s.now <= 60000
    requires Cooldown(GLOBAL) !in s.store && HasRoom(s.store, 60000) && Untouched(s.store, 199)
    ensures Reached(t, keys) && t.now == 60000
    ensures Extends(s.grants, t.grants, 1, 60000) && Untouched(t.store, 199)
    ensures Live(t.store, GLOBAL, 60000) && t.store[GLOBAL].value == CODE && Attempts(GLOBAL) !in t.store
  {
    t := GrantReached(s, GLOBAL, CODE, 60000, keys);
    CounterLeavesNames(s.store, t.store);
  }

  lemma CounterLeavesNames(a: Store, b: Store)
    requires Untouched(a, 199)
    requires forall y | y !in {GLOBAL, Cooldown(GLOBAL), Attempts(GLOBAL)} :: SameAt(a, b, y)
    ensures Untouched(b, 199)
  {
    forall j: nat | 199 <= j ensures Cooldown(Name(j)) !in b {
      NameFacts(j, GLOBAL);
      NamesApart(Name(j), GLOBAL);
      NamesApart(GLOBAL, Name(j));
      assert SameAt(a, b, Cooldown(Name(j)));
    }
  }

  /** A hundred more at the turn, the last one under the counter's own key, and the count gone. */
  lemma SecondHundred(keys: set<string>) returns (s: State)
    requires Names(300) <= keys && GLOBAL in keys
    ensures Reached(s, keys) && AtTurn(s, 200) && s.now == 60000
    ensures Untouched(s.store, 199) && GLOBAL !in s.store
  {
    NamesApart(GLOBAL, GLOBAL);
    var a := FirstHundred(keys);
    var b := TurnGrant(a, 100, 100, keys);
    var c := TurnBatch(b, 101, 101, 98, 60000, 120000, keys);
    s := CounterUsedUp(c, 199, keys);
  }

  /** With the counter's key in use, almost three hundred grants fall within two milliseconds. */
  lemma CounterKeyBreaksRate(keys: set<string>)
    requires Names(300) <= keys && GLOBAL in keys
    ensures exists s :: Reached(s, keys) && !RateHeld(s.grants)
  {
    var a := SecondHundred(keys);
    var b := TurnGrant(a, 200, 199, keys);
    var c := TurnBatch(b, 201, 200, 99, 60000, 120000, keys);
    TooMany(c);
  }

  lemma TooMany(s: State)
    requires AtTurn(s, 300)
    ensures !RateHeld(s.grants)
  {
    assert Within(s.grants, 1, 300, 59999, 2) && Windows(2) == 1;
  }

  /** Exactly when the rate holds over these keys together with any others in use: when the
      counter's own key is not among them. */
  lemma RateIff(keys: set<string>)
    ensures (forall others: set<string>, s | GLOBAL !in others && Reached(s, keys + others) :: RateHeld(s.grants))
            <==> GLOBAL !in keys
  {
    if GLOBAL in keys {
      NamesWithoutCounter();
      CounterKeyBreaksRate(keys + Names(300));
    } else {
      forall others: set<string>, s | GLOBAL !in others && Reached(s, keys + others) ensures RateHeld(s.grants) {
        var run :| Possible(START, run, keys + others) && End(START, run) == s;
        forall lo: nat, hi: nat, from: int, span: nat | Within(s.grants, lo, hi, from, span)
          ensures hi - lo <= 100 * ((span + 59999) / 60000 + 1)
        {
          GlobalRate(run, keys + others, lo, hi, from, span);
        }
      }
    }
  }

  lemma NamesWithoutCounter()
    ensures GLOBAL !in Names(300)
  {
    forall i | 0 <= i < 300 ensures Name(i) != GLOBAL { NameFacts(i, GLOBAL); }
  }

  // ---- spacing per key ----

  ghost predicate Spaced(grants: seq<Grant>) {
    forall i, j | 0 <= i < j < |grants| && grants[i].key == grants[j].key ::
      grants[i].at + 60000 <= grants[j].at
  }

  /** The cooldown entry a grant wrote, or a later one, is still there. */
  ghost predicate Cooling(s: State, g: Grant) {
    && g.at <= s.now && Cooldown(g.key) in s.store
    && s.store[Cooldown(g.key)].expiry.Some? && g.at + 1000 * COOLDOWN <= s.store[Cooldown(g.key)].expiry.value
  }

  ghost predicate SpacingInv(s: State, keys: set<string>) {
    Spaced(s.grants) && forall i | 0 <= i < |s.grants| :: s.grants[i].key in keys && Cooling(s, s.grants[i])
  }

  /** No look is taken at a cooldown key of these. */
  ghost predicate LeavesCooldowns(e: Event, keys: set<string>) {
    e.Consuming? ==> forall l | l in keys :: e.key != Cooldown(l)
  }

  lemma ReserveKeepsCooling(s: State, key: string, code: Value, at: int, g: Grant)
    requires Cooling(s, g) && s.now <= at
    ensures Cooling(AfterReserve(s, key, code, at), g)
  {
    NamesApart(g.key, key);
    NamesApart(key, g.key);
    var x := Cooldown(g.key);
    if Reserve(s.store, key, code, at).1 != Yes {
      RefusedFrame(s.store, key, code, at, x);
    } else {
      GrantedEntries(s.store, key, code, at);
      if x != key && g.key != key { ReserveFrame(s.store, key, code, at, x); }
    }
  }

  lemma ConsumeKeepsCooling(s: State, key: string, code: Value, at: int, g: Grant)
    requires Cooling(s, g) && s.now <= at && key != Cooldown(g.key)
    ensures Cooling(AfterConsume(s, key, code, at), g)
  {
    NamesApart(g.key, key);
    ConsumeFrame(s.store, key, code, at, Cooldown(g.key));
  }

  lemma ReserveKeepsSpacing(s: State, key: string, code: Value, at: int, keys: set<string>)
    requires SpacingInv(s, keys) && key in keys && s.now <= at
    ensures SpacingInv(AfterReserve(s, key, code, at), keys)
  {
    var t := AfterReserve(s, key, code, at);
    forall i | 0 <= i < |s.grants| ensures Cooling(t, s.grants[i]) {
      assert Cooling(s, s.grants[i]);
      ReserveKeepsCooling(s, key, code, at, s.grants[i]);
    }
    if t.grants != s.grants {
      GrantedEntries(s.store, key, code, at);
      forall i | 0 <= i < |s.grants| && s.grants[i].key == key ensures s.grants[i].at + 1000 * COOLDOWN <= at {
        assert Cooling(s, s.grants[i]);
      }
    }
  }

  lemma {:induction false} RunKeepsSpacing(s: State, run: seq<Event>, keys: set<string>)
    requires SpacingInv(s, keys) && Possible(s, run, keys)
    requires forall i | 0 <= i < |run| :: LeavesCooldowns(run[i], keys)
    ensures SpacingInv(End(s, run), keys)
    decreases |run|
  {
    if run != [] {
      var e, t := run[0], Step(s, run[0]);
      if e.Reserving? {
        ReserveKeepsSpacing(s, e.key, e.code, e.at, keys);
      } else {
        forall i | 0 <= i < |t.grants| ensures Cooling(t, t.grants[i]) {
          assert LeavesCooldowns(e, keys) && Cooling(s, s.grants[i]);
          ConsumeKeepsCooling(s, e.key, e.code, e.at, s.grants[i]);
        }
      }
      RunKeepsSpacing(t, run[1..], keys);
    }
  }

  /** Two grants for one key are at least a cooldown apart, on every run of reservations over any
      keys; and with consumptions too, as long as none of them is tried on a cooldown key. */
  lemma SameKeySpacing(run: seq<Event>, keys: set<string>, i: nat, j: nat)
    requires Possible(START, run, keys) && forall k | 0 <= k < |run| :: LeavesCooldowns(run[k], keys)
    requires i < j < |End(START, run).grants| && End(START, run).grants[i].key == End(START, run).grants[j].key
    ensures End(START, run).grants[j].at - End(START, run).grants[i].at >= 60000
  {
    RunKeepsSpacing(START, run, keys);
  }

  ghost predicate NoCooldownAlias(keys: set<string>) {
    forall l | l in keys :: Cooldown(l) !in keys
  }

  ghost predicate AlwaysSpaced(keys: set<string>) {
    forall run | Possible(START, run, keys) :: Spaced(End(START, run).grants)
  }

  /** A key, its cooldown key, and wrong codes tried on the latter: five at once, a sixth a
      minute later. That one deletes the new cooldown, and the third code is granted one second
      after the second. */
  lemma LooksEndCooldown(keys: set<string>, l: string) returns (s: State)
    requires l in keys && Cooldown(l) in keys
    ensures Reached(s, keys) && |s.grants| == 3 && s.grants[1].key == s.grants[2].key == l
    ensures s.grants[1].at == 60000 && s.grants[2].at == 61000
  {
    NamesApart(l, l);
    NamesFarApart(l);
    var a := SecondGrant(keys, l);
    var b := SixthReached(a, Cooldown(l), CODE, 61000, 180000, keys);
    s := GrantReached(b, l, CODE, 61000, keys);
    assert s.grants[1] == s.grants[..2][1];
  }

  /** On to the second grant, whose code is used a second later. */
  lemma SecondGrant(keys: set<string>, l: string) returns (s: State)
    requires l in keys && Cooldown(l) in keys
    ensures Reached(s, keys) && s.now == 61000
    ensures |s.grants| == 2 && s.grants[1].key == l && s.grants[1].at == 60000
    ensures HasRoom(s.store, 61000) && Live(s.store, Cooldown(l), 61000)
    ensures Attempts(Cooldown(l)) in s.store
    ensures s.store[Attempts(Cooldown(l))] == Entry(Num(5), Some(180000))
  {
    NamesApart(l, l);
    NamesFarApart(l);
    NamesApart(Cooldown(l), l);
    var a := FirstGrantUsed(keys, l);
    var b := GrantReached(a, l, CODE, 60000, keys);
    assert SameAt(a.store, b.store, Attempts(Cooldown(l)));
    s := MatchReached(b, l, CODE, 61000, keys);
    assert SameAt(b.store, s.store, Cooldown(l)) && SameAt(b.store, s.store, Attempts(Cooldown(l)));
    assert SameAt(b.store, s.store, GLOBAL) || l == GLOBAL;
  }

  /** Up to the minute: the first grant, five looks at its cooldown, and its code used. */
  lemma FirstGrantUsed(keys: set<string>, l: string) returns (s: State)
    requires l in keys && Cooldown(l) in keys
    ensures Reached(s, keys) && s.now == 60000 && |s.grants| == 1
    ensures !Live(s.store, Cooldown(l), 60000) && !Live(s.store, GLOBAL, 60000)
    ensures Attempts(Cooldown(l)) in s.store
    ensures s.store[Attempts(Cooldown(l))] == Entry(Num(5), Some(180000))
  {
    NamesApart(l, l);
    NamesFarApart(l);
    NamesApart(Cooldown(l), l);
    StartReached(keys);
    var a := GrantReached(START, l, CODE, 0, keys);
    assert SameAt(START.store, a.store, Attempts(Cooldown(l)));
    var b := FiveReached(a, Cooldown(l), CODE, 0, keys);
    s := MatchReached(b, l, CODE, 60000, keys);
    assert SameAt(b.store, s.store, Cooldown(l)) && SameAt(b.store, s.store, Attempts(Cooldown(l)));
    assert SameAt(b.store, s.store, GLOBAL) || l == GLOBAL;
  }

  /** Exactly when grants are always spaced, over all runs of both scripts: when no key is
      another's cooldown key. */
  lemma SpacedIff(keys: set<string>)
    ensures AlwaysSpaced(keys) <==> NoCooldownAlias(keys)
  {
    if NoCooldownAlias(keys) {
      forall run | Possible(START, run, keys) ensures Spaced(End(START, run).grants) {
        EventsLeaveCooldowns(START, run, keys);
        RunKeepsSpacing(START, run, keys);
      }
    } else {
      var l :| l in keys && Cooldown(l) in keys;
      var s := LooksEndCooldown(keys, l);
      var run :| Possible(START, run, keys) && End(START, run) == s;
      assert !Spaced(s.grants);
    }
  }

  lemma {:induction false} EventsLeaveCooldowns(s: State, run: seq<Event>, keys: set<string>)
    requires NoCooldownAlias(keys) && Possible(s, run, keys)
    ensures forall i | 0 <= i < |run| :: LeavesCooldowns(run[i], keys)
    decreases |run|
  {
    if run != [] {
      EventsLeaveCooldowns(Step(s, run[0]), run[1..], keys);
      forall i | 0 <= i < |run| ensures LeavesCooldowns(run[i], keys) {
        if i > 0 { assert run[i] == run[1..][i - 1]; }
      }
    }
  }
}
