/** The part of Redis the mail-code scripts use: string keys with an optional expiry, on a
    millisecond clock that stands still while a script runs. */
module Redis {

  import opened Common
  import opened Numbers

  /** A string value; one that spells an integer is kept as that integer, as Redis does. */
  datatype Value = Num(n: int) | Text(s: string)

  function TextOf(v: Value): string {
    match v
    case Num(n) => Decimal(n)
    case Text(s) => s
  }

  /** A text that spells no integer, or an integer: the one value that stands for a string. */
  ghost predicate Canonical(v: Value) {
    v.Text? ==> forall n :: Decimal(n) != v.s
  }

  lemma OneValuePerText(v: Value, w: Value)
    requires Canonical(v) && Canonical(w)
    ensures TextOf(v) == TextOf(w) <==> v == w
  {
    if v.Num? && w.Num? && Decimal(v.n) == Decimal(w.n) { DecimalInjective(v.n, w.n); }
  }

  datatype Entry = Entry(value: Value, expiry: Option<int>)

  type Store = map<string, Entry>

  predicate Live(st: Store, key: string, now: int) {
    key in st && (st[key].expiry.None? || now < st[key].expiry.value)
  }

  function Get(st: Store, key: string, now: int): Option<Value> {
    if Live(st, key, now) then Some(st[key].value) else None
  }

  /** INCR: a missing key counts from 0, an existing one keeps its expiry; no number, no result. */
  function Incr(st: Store, key: string, now: int): (Store, Option<int>) {
    if !Live(st, key, now) then (st[key := Entry(Num(1), None)], Some(1))
    else
      match st[key].value
      case Num(n) => (st[key := Entry(Num(n + 1), st[key].expiry)], Some(n + 1))
      case Text(_) => (st, None)
  }

  function Expire(st: Store, key: string, seconds: int, now: int): Store {
    if Live(st, key, now) then st[key := Entry(st[key].value, Some(now + 1000 * seconds))] else st
  }

  function SetEx(st: Store, key: string, value: Value, seconds: int, now: int): Store {
    st[key := Entry(value, Some(now + 1000 * seconds))]
  }

  function Del(st: Store, key: string): Store {
    st - {key}
  }
}
