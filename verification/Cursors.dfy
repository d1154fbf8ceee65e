/** Reading an unsigned 64-bit cursor out of a JSON string, as `ChatSync` does. */
module Cursors {
  import opened Numbers
  import opened JsonText

  datatype Errc = Fine | InvalidArgument | OutOfRange

  /** The strings that denote a cursor: 1 to 20 digits below 2^64. */
  predicate IsCursor(s: string) {
    1 <= |s| <= 20 && AllDigits(s) && Value(s) <= UINT64_MAX
  }

  /** `std::from_chars` into a `uint64_t`: the longest digit prefix, if there is one and it
      fits. */
  method FromChars(s: string) returns (ec: Errc, ptr: nat, value: nat)
    ensures ptr <= |s| && AllDigits(s[..ptr]) && (ptr < |s| ==> !IsDigit(s[ptr]))
    ensures ec == if ptr == 0 then InvalidArgument else if Value(s[..ptr]) > UINT64_MAX then OutOfRange else Fine
    ensures ec.Fine? ==> value == Value(s[..ptr])
  {
    ptr, value := 0, 0;
    var over := false;
    while ptr < |s| && IsDigit(s[ptr])
      invariant ptr <= |s| && AllDigits(s[..ptr])
      invariant over <==> Value(s[..ptr]) > UINT64_MAX
      invariant !over ==> value == Value(s[..ptr])
    {
      var d := DigitValue(s[ptr]);
      assert s[..ptr + 1][..ptr] == s[..ptr];
      over := over || value > (UINT64_MAX - d) / 10;
      value := if over then 0 else value * 10 + d;
      ptr := ptr + 1;
    }
    ec := if ptr == 0 then InvalidArgument else if over then OutOfRange else Fine;
  }

  /** The parser accepts exactly the cursor strings, and returns what they denote. */
  method Number(value: Json) returns (ok: bool, out: nat)
    ensures ok <==> value.Str? && IsCursor(value.text)
    ensures ok ==> out == Value(value.text) <= UINT64_MAX
  {
    if !value.Str? { return false, 0; }
    var s := value.text;
    if |s| == 0 || |s| > 20 { return false, 0; }
    var ec, ptr, n := FromChars(s);
    out := n;
    ok := ec.Fine? && ptr == |s|;
    if ptr == |s| {
      assert s[..ptr] == s;
    } else {
      assert !IsDigit(s[ptr]);
    }
  }

  /** Printing any 64-bit cursor and parsing it gives it back. */
  lemma CursorRoundTrip(n: nat)
    ensures n <= UINT64_MAX <==> IsCursor(Digits(n)) && Value(Digits(n)) == n
  {
    ValueOfDigits(n);
    if n <= UINT64_MAX { UInt64Length(n); }
  }
}
