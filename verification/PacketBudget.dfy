/** The per-session token bucket: 80 packets at most, refilled at 40 a second. */
module PacketBudget {

  const CAPACITY := 80.0
  const REFILL := 40.0

  datatype Bucket = Bucket(budget: real, at: real)

  function Refilled(b: Bucket, now: real): real {
    var r := b.budget + (now - b.at) * REFILL;
    if r < CAPACITY then r else CAPACITY
  }

  /** The bucket after one arrival at `now`; a refused packet takes no token. */
  function Take(b: Bucket, now: real): Bucket {
    var r := Refilled(b, now);
    Bucket(if r < 1.0 then r else r - 1.0, now)
  }

  predicate Admits(b: Bucket, now: real) {
    Refilled(b, now) >= 1.0
  }

  function After(b: Bucket, ts: seq<real>): Bucket
    decreases |ts|
  {
    if ts == [] then b else After(Take(b, ts[0]), ts[1..])
  }

  predicate AdmitsAll(b: Bucket, ts: seq<real>)
    decreases |ts|
  {
    ts == [] || (Admits(b, ts[0]) && AdmitsAll(Take(b, ts[0]), ts[1..]))
  }

  ghost predicate NonDecreasing(ts: seq<real>) {
    forall i, j | 0 <= i <= j < |ts| :: ts[i] <= ts[j]
  }

  /** The same, said along the sequence: no arrival before `from`, none earlier than the last. */
  predicate Ordered(from: real, ts: seq<real>)
    decreases |ts|
  {
    ts == [] || (from <= ts[0] && Ordered(ts[0], ts[1..]))
  }

  lemma {:induction false} OrderedMeans(from: real, ts: seq<real>)
    requires Ordered(from, ts)
    ensures NonDecreasing(ts) && (ts != [] ==> from <= ts[0])
    decreases |ts|
  {
    if ts != [] {
      OrderedMeans(ts[0], ts[1..]);
      forall i, j | 0 <= i <= j < |ts| ensures ts[i] <= ts[j] {
        if i > 0 {
          assert ts[i] == ts[1..][i - 1] && ts[j] == ts[1..][j - 1];
        } else if j > 0 {
          assert ts[1..][0] <= ts[1..][j - 1];
        }
      }
    }
  }

  lemma {:induction false} OrderedAppend(from: real, ts: seq<real>, t: real)
    requires Ordered(from, ts) && (if ts == [] then from else ts[|ts| - 1]) <= t
    ensures Ordered(from, ts + [t])
    decreases |ts|
  {
    if ts == [] {
      assert [t][1..] == [];
    } else {
      assert (ts + [t])[1..] == ts[1..] + [t];
      OrderedAppend(ts[0], ts[1..], t);
    }
  }

  /** No window of arrivals holds more than a full bucket plus what flowed in during it. */
  ghost predicate WindowLaw(ts: seq<real>) {
    forall i, j | 0 <= i <= j < |ts| :: (j - i + 1) as real <= 80.0 + 40.0 * (ts[j] - ts[i])
  }

  /** The first arrivals must also fit what the bucket held to begin with. */
  ghost predicate StartLaw(b: Bucket, ts: seq<real>) {
    forall j | 0 <= j < |ts| :: (j + 1) as real <= b.budget + REFILL * (ts[j] - b.at)
  }

  lemma StartLawStep(b: Bucket, ts: seq<real>)
    requires ts != [] && NonDecreasing(ts) && b.at <= ts[0] && Admits(b, ts[0])
    ensures WindowLaw(ts[1..]) && StartLaw(Take(b, ts[0]), ts[1..]) <==> WindowLaw(ts) && StartLaw(b, ts)
  {
    var c, rest := Take(b, ts[0]), ts[1..];
    if WindowLaw(rest) && StartLaw(c, rest) {
      forall i, j | 0 <= i <= j < |ts|
        ensures (j - i + 1) as real <= CAPACITY + REFILL * (ts[j] - ts[i])
      {
        if i > 0 {
          assert ts[i] == rest[i - 1] && ts[j] == rest[j - 1];
        } else if j > 0 {
          assert ts[j] == rest[j - 1];
        }
      }
      forall j | 0 <= j < |ts| ensures (j + 1) as real <= b.budget + REFILL * (ts[j] - b.at) {
        if j > 0 { assert ts[j] == rest[j - 1]; }
      }
    }
    if WindowLaw(ts) && StartLaw(b, ts) {
      forall i, j | 0 <= i <= j < |rest|
        ensures (j - i + 1) as real <= CAPACITY + REFILL * (rest[j] - rest[i])
      {
        assert rest[i] == ts[i + 1] && rest[j] == ts[j + 1];
      }
      forall j | 0 <= j < |rest| ensures (j + 1) as real <= c.budget + REFILL * (rest[j] - c.at) {
        assert rest[j] == ts[j + 1] && ts[0] <= ts[j + 1];
        assert ((j + 1) - 0 + 1) as real <= CAPACITY + REFILL * (ts[j + 1] - ts[0]);
      }
    }
  }

  lemma {:induction false} AdmitsAllLaw(b: Bucket, ts: seq<real>)
    requires NonDecreasing(ts) && (ts != [] ==> b.at <= ts[0])
    ensures AdmitsAll(b, ts) <==> WindowLaw(ts) && StartLaw(b, ts)
    decreases |ts|
  {
    if ts != [] {
      if Admits(b, ts[0]) {
        AdmitsAllLaw(Take(b, ts[0]), ts[1..]);
        StartLawStep(b, ts);
      } else {
        assert Refilled(b, ts[0]) < 1.0;
        assert !StartLaw(b, ts) by {
          assert !((0 + 1) as real <= b.budget + REFILL * (ts[0] - b.at));
        }
      }
    }
  }

  /** A session's bucket, full when it is made, admits every packet exactly when no window of
      arrivals breaks the law. */
  lemma BucketIsWindowLaw(made: real, ts: seq<real>)
    requires NonDecreasing(ts) && (ts != [] ==> made <= ts[0])
    ensures AdmitsAll(Bucket(CAPACITY, made), ts) <==> WindowLaw(ts)
  {
    var b := Bucket(CAPACITY, made);
    AdmitsAllLaw(b, ts);
    if WindowLaw(ts) {
      forall j | 0 <= j < |ts| ensures (j + 1) as real <= b.budget + REFILL * (ts[j] - b.at) {
        assert (j - 0 + 1) as real <= CAPACITY + REFILL * (ts[j] - ts[0]);
      }
    }
  }

  lemma {:induction false} AfterAppend(b: Bucket, ts: seq<real>, t: real)
    ensures After(b, ts + [t]) == Take(After(b, ts), t)
    ensures AdmitsAll(b, ts + [t]) <==> AdmitsAll(b, ts) && Admits(After(b, ts), t)
    decreases |ts|
  {
    if ts == [] {
      assert ts + [t] == [t];
      assert [t][1..] == [];
    } else {
      assert (ts + [t])[1..] == ts[1..] + [t];
      AfterAppend(Take(b, ts[0]), ts[1..], t);
    }
  }

  lemma {:induction false} LastArrival(b: Bucket, ts: seq<real>)
    ensures After(b, ts).at == if ts == [] then b.at else ts[|ts| - 1]
    decreases |ts|
  {
    if ts != [] {
      LastArrival(Take(b, ts[0]), ts[1..]);
    }
  }

  /** The budget never leaves [0, 80], through refused packets too. */
  lemma {:induction false} BudgetBounded(b: Bucket, ts: seq<real>)
    requires 0.0 <= b.budget <= CAPACITY && Ordered(b.at, ts)
    ensures 0.0 <= After(b, ts).budget <= CAPACITY
    decreases |ts|
  {
    if ts != [] {
      BudgetBounded(Take(b, ts[0]), ts[1..]);
    }
  }
}
