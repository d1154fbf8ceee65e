/** How often a mail code can be tried: on every timed run of both scripts, for any keys. */
module ReservationGuesses {
  import opened Common
  import opened Redis
  import opened Reservation
  import opened ReservationSteps

  /** The entry that the grant numbered g wrote under its key. */
  function EntryOf(s: State, g: nat): Entry
    requires g < |s.grants|
  {
    Entry(s.grants[g].code, Some(s.grants[g].at + 1000 * LIFETIME))
  }

  /** The code of the grant numbered g, k's latest, is what k still holds. */
  predicate Current(s: State, k: string, g: nat) {
    GrantOf(s, k) == Some(g) && g < |s.grants| && k in s.store && s.store[k] == EntryOf(s, g)
  }

  /** The event compares a guess with that code. */
  predicate Compares(s: State, e: Event, k: string, g: nat) {
    && e.Consuming? && e.key == k && Current(s, k, g) && Live(s.store, k, e.at)
    && var n := Incr(s.store, Attempts(k), e.at).1; n.Some? && n.value <= ATTEMPTS
  }

  predicate Matches(s: State, e: Event, k: string, g: nat) {
    Compares(s, e, k, g) && e.code == s.grants[g].code
  }

  /** A run's comparisons with that code, and those that match it. */
  function Checks(s: State, run: seq<Event>, k: string, g: nat): nat
    decreases |run|
  {
    if run == [] then 0 else (if Compares(s, run[0], k, g) then 1 else 0) + Checks(Step(s, run[0]), run[1..], k, g)
  }

  function Hits(s: State, run: seq<Event>, k: string, g: nat): nat
    decreases |run|
  {
    if run == [] then 0 else (if Matches(s, run[0], k, g) then 1 else 0) + Hits(Step(s, run[0]), run[1..], k, g)
  }

  /** A match is a consumption that succeeds. */
  lemma MatchSucceeds(s: State, e: Event, k: string, g: nat)
    requires Compares(s, e, k, g)
    ensures e.code == s.grants[g].code <==> Consume(s.store, k, e.code, e.at).1 == Yes
  {
  }

  ghost predicate IssuesOk(s: State) {
    forall k | k in s.issues :: s.issues[k].grant < |s.grants|
  }

  /** Grant g is k's latest. */
  predicate Latest(s: State, k: string, g: nat) {
    GrantOf(s, k) == Some(g)
  }

  lemma StepIssues(s: State, e: Event, k: string, g: nat)
    requires IssuesOk(s)
    ensures var t := Step(s, e);
            && IssuesOk(t) && |s.grants| <= |t.grants| && t.grants[..|s.grants|] == s.grants
            && (g < |s.grants| && Latest(t, k, g) ==> Latest(s, k, g))
            && (|s.grants| <= g < |t.grants| && Latest(t, k, g) ==>
                  e.Reserving? && e.key == k && Reserve(s.store, k, e.code, e.at).1 == Yes && t.grants[g].at == e.at)
  {
  }

  // ---- comparisons ----

  /** The attempts counter says how often the live code was looked at. */
  ghost predicate CountIs(s: State, k: string, g: nat, n: nat)
    requires g < |s.grants|
  {
    var until := s.grants[g].at + 1000 * LIFETIME;
    && s.grants[g].at <= s.now
    && (s.now < until ==>
          if n == 0 then Attempts(k) !in s.store
          else
            && Attempts(k) in s.store && s.store[Attempts(k)].value == Num(n)
            && s.store[Attempts(k)].expiry.Some? && until <= s.store[Attempts(k)].expiry.value)
  }

  /** Where the story of grant g stands: to come, under way with n looks taken, or over. */
  ghost predicate Story(s: State, k: string, g: nat, n: nat) {
    && IssuesOk(s)
    && (g >= |s.grants| ==> n == 0)
    && (g < |s.grants| && Latest(s, k, g) ==> CountIs(s, k, g, n))
  }

  lemma CountersApart(k: string, keys: set<string>, key: string)
    requires k in keys && Attempts(k) !in keys && key in keys && key != k
    ensures Attempts(k) !in {GLOBAL, key, Cooldown(key), Attempts(key)}
  {
    NamesApart(k, key);
    NamesApart(key, k);
  }

  /** A step on another key leaves k's counter alone. */
  lemma ElsewhereKeepsCount(s: State, e: Event, k: string, keys: set<string>)
    requires k in keys && Attempts(k) !in keys && e.key in keys && e.key != k
    ensures SameAt(s.store, Step(s, e).store, Attempts(k))
  {
    CountersApart(k, keys, e.key);
    if e.Reserving? {
      ReserveFrame(s.store, e.key, e.code, e.at, Attempts(k));
    } else {
      ConsumeFrame(s.store, e.key, e.code, e.at, Attempts(k));
    }
  }

  /** A look at k counts itself. */
  lemma LookCounts(s: State, e: Event, k: string, g: nat, n: nat) returns (m: nat)
    requires e.Consuming? && e.key == k && s.now <= e.at && g < |s.grants| && CountIs(s, k, g, n)
    ensures n <= m && CountIs(Step(s, e), k, g, m)
    ensures Compares(s, e, k, g) ==> n < ATTEMPTS && m == n + 1
  {
    NamesApart(k, k);
    m := if Live(s.store, k, e.at) then n + 1 else n;
  }

  /** A reservation of k that is refused leaves its counter alone, a granted one starts it. */
  lemma ReserveCounts(s: State, e: Event, k: string, g: nat, n: nat)
    requires e.Reserving? && e.key == k && s.now <= e.at && Story(s, k, g, n)
    ensures Story(Step(s, e), k, g, n)
  {
    NamesApart(k, k);
    var r := Reserve(s.store, k, e.code, e.at);
    if r.1 == Yes {
      GrantedEntries(s.store, k, e.code, e.at);
    } else {
      RefusedFrame(s.store, k, e.code, e.at, Attempts(k));
    }
  }

  lemma StoryGoesOn(s: State, e: Event, k: string, g: nat, n: nat, keys: set<string>) returns (m: nat)
    requires Story(s, k, g, n) && k in keys && Attempts(k) !in keys && Enabled(s, e, keys)
    ensures n <= m && Story(Step(s, e), k, g, m)
    ensures Compares(s, e, k, g) ==> n < ATTEMPTS && m == n + 1
  {
    StepIssues(s, e, k, g);
    m := n;
    if e.key != k {
      ElsewhereKeepsCount(s, e, k, keys);
    } else if e.Reserving? {
      ReserveCounts(s, e, k, g, n);
    } else if g < |s.grants| && Latest(s, k, g) {
      m := LookCounts(s, e, k, g, n);
    }
  }

  lemma {:induction false} ChecksLeft(s: State, run: seq<Event>, k: string, g: nat, n: nat, keys: set<string>)
    requires Story(s, k, g, n) && k in keys && Attempts(k) !in keys && Possible(s, run, keys)
    ensures Checks(s, run, k, g) <= if n < ATTEMPTS then ATTEMPTS - n else 0
    decreases |run|
  {
    if run != [] {
      var m := StoryGoesOn(s, run[0], k, g, n, keys);
      ChecksLeft(Step(s, run[0]), run[1..], k, g, m, keys);
    }
  }

  /** On every run, whatever else happens on whatever other keys: the code of each grant is
      compared at most five times, unless codes are also tried on its counter's key. */
  lemma FiveGuesses(run: seq<Event>, keys: set<string>, k: string, g: nat)
    requires Possible(START, run, keys) && k in keys && Attempts(k) !in keys
    ensures Checks(START, run, k, g) <= 5
  {
    ChecksLeft(START, run, k, g, 0, keys);
  }

  // ---- matches ----

  /** The key is nobody's cooldown or attempts key, nor the global counter. */
  ghost predicate Underived(k: string, keys: set<string>) {
    k != GLOBAL && forall l | l in keys :: k != Cooldown(l) && k != Attempts(l)
  }

  /** The code of grant g has been used up. */
  ghost predicate UsedUp(s: State, k: string, g: nat) {
    IssuesOk(s) && g < |s.grants| && (Latest(s, k, g) ==> k !in s.store)
  }

  lemma StaysUsedUp(s: State, e: Event, k: string, g: nat, keys: set<string>)
    requires UsedUp(s, k, g) && Underived(k, keys) && Enabled(s, e, keys)
    ensures UsedUp(Step(s, e), k, g) && !Matches(s, e, k, g)
  {
    StepIssues(s, e, k, g);
    if e.Reserving? {
      if e.key != k {
        ReserveFrame(s.store, e.key, e.code, e.at, k);
      } else if Reserve(s.store, k, e.code, e.at).1 != Yes {
        RefusedFrame(s.store, k, e.code, e.at, k);
      }
    } else if e.key != k {
      ConsumeFrame(s.store, e.key, e.code, e.at, k);
    }
  }

  lemma {:induction false} NoMoreHits(s: State, run: seq<Event>, k: string, g: nat, keys: set<string>)
    requires UsedUp(s, k, g) && Underived(k, keys) && Possible(s, run, keys)
    ensures Hits(s, run, k, g) == 0
    decreases |run|
  {
    if run != [] {
      StaysUsedUp(s, run[0], k, g, keys);
      NoMoreHits(Step(s, run[0]), run[1..], k, g, keys);
    }
  }

  lemma MatchUsesUp(s: State, e: Event, k: string, g: nat)
    requires IssuesOk(s) && Matches(s, e, k, g)
    ensures UsedUp(Step(s, e), k, g)
  {
    NamesApart(k, k);
    StepIssues(s, e, k, g);
  }

  lemma {:induction false} HitsLeft(s: State, run: seq<Event>, k: string, g: nat, keys: set<string>)
    requires IssuesOk(s) && Underived(k, keys) && Possible(s, run, keys)
    ensures Hits(s, run, k, g) <= 1
    decreases |run|
  {
    if run != [] {
      StepIssues(s, run[0], k, g);
      if Matches(s, run[0], k, g) {
        MatchUsesUp(s, run[0], k, g);
        NoMoreHits(Step(s, run[0]), run[1..], k, g, keys);
      } else {
        HitsLeft(Step(s, run[0]), run[1..], k, g, keys);
      }
    }
  }

  /** On every run, the code of each grant matches at most once, under a key that no other is
      derived into. */
  lemma OneMatch(run: seq<Event>, keys: set<string>, k: string, g: nat)
    requires Possible(START, run, keys) && Underived(k, keys)
    ensures Hits(START, run, k, g) <= 1
  {
    HitsLeft(START, run, k, g, keys);
  }

  // ---- the run that gets a sixth guess ----

  const CODE := Num(100500)
  const WRONG := Num(200700)

  lemma {:induction false} ChecksJoin(s: State, run: seq<Event>, more: seq<Event>, k: string, g: nat)
    ensures Checks(s, run + more, k, g) == Checks(s, run, k, g) + Checks(End(s, run), more, k, g)
    decreases |run|
  {
    if run == [] {
      assert run + more == more;
    } else {
      assert (run + more)[1..] == run[1..] + more;
      ChecksJoin(Step(s, run[0]), run[1..], more, k, g);
    }
  }

  lemma CheckOnce(s: State, e: Event, k: string, g: nat)
    ensures Checks(s, [e], k, g) == if Compares(s, e, k, g) then 1 else 0
  {
    assert [e][1..] == [];
    assert Checks(Step(s, e), [], k, g) == 0;
  }

  /** Wrong looks within the allowance are all comparisons. */
  lemma {:induction false} LooksCompare(s: State, k: string, at: int, n: nat, more: nat, until: int, g: nat)
    requires Current(s, k, g) && Live(s.store, k, at) && s.store[k].value != WRONG && n + more <= ATTEMPTS
    requires if n == 0 then !Live(s.store, Attempts(k), at) && until == at + 1000 * LIFETIME
             else Attempts(k) in s.store && s.store[Attempts(k)] == Entry(Num(n), Some(until)) && at < until
    ensures Checks(s, Looks(k, WRONG, at, more), k, g) == more
    decreases more
  {
    if more > 0 {
      NamesApart(k, k);
      var e := Consuming(k, WRONG, at);
      WrongLook(s, k, WRONG, at, n, until);
      assert Looks(k, WRONG, at, more)[1..] == Looks(k, WRONG, at, more - 1);
      LooksCompare(Step(s, e), k, at, n + 1, more - 1, if n == 0 then at + 1000 * LIFETIME else until, g);
    }
  }

  /** The first minute: a code granted, and five wrong guesses. */
  lemma FirstMinute(keys: set<string>, k: string) returns (run: seq<Event>, s: State)
    requires k in keys && Attempts(k) in keys
    ensures Possible(START, run, keys) && s == End(START, run) && s.now <= 0
    ensures Checks(START, run, k, 0) == 5 && Current(s, k, 0) && s.grants[0].at == 0 && s.grants[0].code == CODE
    ensures Attempts(k) in s.store && s.store[Attempts(k)] == Entry(Num(5), Some(180000))
    ensures Attempts(Attempts(k)) !in s.store
  {
    NamesApart(k, k);
    NamesFarApart(k);
    var early, a := CodeGranted(keys, k);
    s := FiveLooks(a, k, WRONG, 0, keys);
    LooksCompare(a, k, 0, 0, 5, 180000, 0);
    var looks := Looks(k, WRONG, 0, 5);
    Joined(START, early, looks, keys);
    ChecksJoin(START, early, looks, k, 0);
    run := early + looks;
  }

  lemma CodeGranted(keys: set<string>, k: string) returns (run: seq<Event>, s: State)
    requires k in keys
    ensures Possible(START, run, keys) && s == End(START, run) && s.now == 0 && Checks(START, run, k, 0) == 0
    ensures Current(s, k, 0) && |s.grants| == 1 && s.grants[0].at == 0 && s.grants[0].code == CODE
    ensures Attempts(k) !in s.store && Attempts(Attempts(k)) !in s.store
  {
    NamesApart(k, k);
    NamesFarApart(k);
    s := Granting(START, k, CODE, 0);
    assert SameAt(START.store, s.store, Attempts(Attempts(k)));
    OneStep(START, Reserving(k, CODE, 0), keys);
    CheckOnce(START, Reserving(k, CODE, 0), k, 0);
    run := [Reserving(k, CODE, 0)];
  }

  lemma {:induction false} NoChecksElsewhere(s: State, key: string, code: Value, at: int, n: nat, k: string, g: nat)
    requires key != k
    ensures Checks(s, Looks(key, code, at, n), k, g) == 0
    decreases n
  {
    if n > 0 {
      assert Looks(key, code, at, n)[1..] == Looks(key, code, at, n - 1);
      NoChecksElsewhere(Step(s, Consuming(key, code, at)), key, code, at, n - 1, k, g);
    }
  }

  /** The next two minutes: six guesses at the counter's key, the sixth of which deletes it. */
  lemma CounterDeleted(keys: set<string>, k: string) returns (run: seq<Event>, s: State)
    requires k in keys && Attempts(k) in keys
    ensures Possible(START, run, keys) && s == End(START, run) && s.now == 120000
    ensures Checks(START, run, k, 0) == 5 && Current(s, k, 0) && s.grants[0].at == 0 && s.grants[0].code == CODE
    ensures Attempts(k) !in s.store
  {
    NamesApart(k, k);
    NamesApart(Attempts(k), k);
    NamesFarApart(k);
    var first, a := FirstMinute(keys, k);

    var looks := Looks(Attempts(k), CODE, 60000, 5);
    var b := FiveLooks(a, Attempts(k), CODE, 60000, keys);
    Joined(START, first, looks, keys);
    ChecksJoin(START, first, looks, k, 0);
    NoChecksElsewhere(a, Attempts(k), CODE, 60000, 5, k, 0);

    var e := Consuming(Attempts(k), CODE, 120000);
    s := SixthLook(b, Attempts(k), CODE, 120000, 240000);
    OneMore(first + looks, e, keys);
    ChecksJoin(START, first + looks, [e], k, 0);
    CheckOnce(b, e, k, 0);
    run := first + looks + [e];
  }

  /** After two minutes, with never more than five tries a minute on either key, a sixth guess
      is compared, and matches. */
  lemma SixthGuess(keys: set<string>, k: string) returns (run: seq<Event>)
    requires k in keys && Attempts(k) in keys
    ensures Possible(START, run + [Consuming(k, CODE, 120000)], keys)
    ensures Checks(START, run + [Consuming(k, CODE, 120000)], k, 0) == 6
    ensures Consume(End(START, run).store, k, CODE, 120000).1 == Yes
  {
    NamesApart(k, k);
    var s: State;
    run, s := CounterDeleted(keys, k);
    var e := Consuming(k, CODE, 120000);
    OneMore(run, e, keys);
    ChecksJoin(START, run, [e], k, 0);
    CheckOnce(s, e, k, 0);
  }

  ghost predicate AtMostFive(keys: set<string>) {
    forall run, k, g: nat | Possible(START, run, keys) && k in keys :: Checks(START, run, k, g) <= 5
  }

  /** Exactly when no code is ever compared more than five times: when no key is another's
      attempts key. */
  lemma FiveIff(keys: set<string>)
    ensures AtMostFive(keys) <==> (forall k | k in keys :: Attempts(k) !in keys)
  {
    if forall k | k in keys :: Attempts(k) !in keys {
      forall run, k, g: nat | Possible(START, run, keys) && k in keys ensures Checks(START, run, k, g) <= 5 {
        FiveGuesses(run, keys, k, g);
      }
    } else {
      var k :| k in keys && Attempts(k) in keys;
      var run := SixthGuess(keys, k);
      assert Checks(START, run + [Consuming(k, CODE, 120000)], k, 0) > ATTEMPTS;
    }
  }
}
