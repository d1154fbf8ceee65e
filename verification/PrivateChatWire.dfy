/** The request schema of private chats. Objects are the parsed kind: no name twice. */
module PrivateChatWire {
  import opened Common
  import opened Numbers
  import opened JsonText
  import opened ChatWire

  const UINT_MAX := 0xFFFF_FFFF
  const CIPHER_MAX := 87384

  // ---- objects as name sets ----

  function NameSet(ms: Members): set<string> {
    match ms
    case End => {}
    case Member(name, _, rest) => {name} + NameSet(rest)
  }

  function Count(ms: Members): nat {
    match ms
    case End => 0
    case Member(_, _, rest) => 1 + Count(rest)
  }

  predicate Distinct(ms: Members) {
    ms.Member? ==> ms.name !in NameSet(ms.rest) && Distinct(ms.rest)
  }

  lemma {:induction false} CountIsSize(ms: Members)
    requires Distinct(ms)
    ensures |NameSet(ms)| == Count(ms)
  {
    if ms.Member? { CountIsSize(ms.rest); }
  }

  lemma {:induction false} PresentIfNotNull(ms: Members, name: string)
    ensures Lookup(ms, name) != Null ==> name in NameSet(ms)
  {
    if ms.Member? { PresentIfNotNull(ms.rest, name); }
  }

  /** The loop over `getMemberNames`. */
  method NamesWithin(ms: Members, fields: set<string>) returns (ok: bool)
    ensures ok <==> NameSet(ms) <= fields
  {
    var left := ms;
    while left.Member?
      invariant NameSet(ms) <= fields <==> NameSet(left) <= fields
      decreases left
    {
      if left.name !in fields { return false; }
      left := left.rest;
    }
    return true;
  }

  // ---- byte arrays ----

  predicate IsBytes(v: Json, length: nat) {
    v.Arr? && |v.items| == length && forall i | 0 <= i < length :: v.items[i].Int? && 0 <= v.items[i].num <= 255
  }

  predicate IsUInt(v: Json) {
    v.Int? && 0 <= v.num <= UINT_MAX
  }

  method Bytes(v: Json, length: nat) returns (ok: bool)
    ensures ok <==> IsBytes(v, length)
  {
    if !v.Arr? || |v.items| != length { return false; }
    for i := 0 to |v.items|
      invariant forall k | 0 <= k < i :: v.items[k].Int? && 0 <= v.items[k].num <= 255
    {
      var x := v.items[i];
      if !IsUInt(x) || x.num > 255 { return false; }
    }
    return true;
  }

  // ---- bundles ----

  const BUNDLE: set<string> :=
    {"registration", "id", "identity", "prekey", "signed", "signature", "kyber", "kyber_signature"}

  predicate BundleValues(v: Json) {
    && IsUInt(Get(v, "registration")) && 0 < Get(v, "registration").num < 16384
    && IsUInt(Get(v, "id")) && 0 < Get(v, "id").num
    && IsBytes(Get(v, "identity"), 33) && IsBytes(Get(v, "prekey"), 33)
    && IsBytes(Get(v, "signed"), 33) && IsBytes(Get(v, "signature"), 64)
    && IsBytes(Get(v, "kyber"), 1569) && IsBytes(Get(v, "kyber_signature"), 64)
  }

  lemma BundleSize()
    ensures |BUNDLE| == 8
  {
    var a := {"registration", "id", "identity", "prekey"};
    var b := {"signed", "signature", "kyber", "kyber_signature"};
    assert |"registration"| == 12 && |"id"| == 2 && |"identity"| == 8 && |"prekey"| == 6;
    assert |"signed"| == 6 && |"signature"| == 9 && |"kyber"| == 5 && |"kyber_signature"| == 15;
    assert "prekey"[0] != "signed"[0];
    assert |a| == 4 && |b| == 4 && a !! b;
    assert BUNDLE == a + b;
  }

  /** Eight names, all among the eight fields, are the eight fields. */
  lemma EightWithinAreAll(ms: Members)
    requires Distinct(ms)
    ensures Count(ms) == 8 && NameSet(ms) <= BUNDLE <==> NameSet(ms) == BUNDLE
  {
    BundleSize();
    CountIsSize(ms);
    if Count(ms) == 8 && NameSet(ms) <= BUNDLE {
      SubsetOfSameSize(NameSet(ms), BUNDLE);
    }
  }

  lemma SubsetOfSameSize(a: set<string>, b: set<string>)
    requires a <= b && |a| == |b|
    ensures a == b
  {
    assert b == a + (b - a) && |b| == |a| + |b - a|;
  }

  predicate IsBundle(v: Json) {
    v.Obj? && NameSet(v.members) == BUNDLE && BundleValues(v)
  }

  method Bundle(v: Json) returns (ok: bool)
    requires v.Obj? ==> Distinct(v.members)
    ensures ok <==> IsBundle(v)
  {
    BundleSize();
    if !v.Obj? { return false; }
    EightWithinAreAll(v.members);
    if Count(v.members) != 8 { return false; }
    var within := NamesWithin(v.members, BUNDLE);
    if !within { return false; }
    var identity := Bytes(Get(v, "identity"), 33);
    var prekey := Bytes(Get(v, "prekey"), 33);
    var signed := Bytes(Get(v, "signed"), 33);
    var signature := Bytes(Get(v, "signature"), 64);
    var kyber := Bytes(Get(v, "kyber"), 1569);
    var kyberSignature := Bytes(Get(v, "kyber_signature"), 64);
    ok := && IsUInt(Get(v, "registration")) && Get(v, "registration").num > 0 && Get(v, "registration").num < 16384
          && IsUInt(Get(v, "id")) && Get(v, "id").num > 0
          && identity && prekey && signed && signature && kyber && kyberSignature;
  }

  // ---- ciphertexts ----

  predicate CipherChar(c: char) {
    'A' <= c <= 'Z' || 'a' <= c <= 'z' || '0' <= c <= '9' || c == '+' || c == '/' || c == '='
  }

  predicate CipherOk(s: string) {
    1 <= |s| <= CIPHER_MAX && |s| % 4 == 0 && forall i | 0 <= i < |s| :: CipherChar(s[i])
  }

  method Cipher(s: string) returns (ok: bool)
    ensures ok <==> CipherOk(s)
  {
    if |s| == 0 || |s| > CIPHER_MAX || |s| % 4 != 0 { return false; }
    for i := 0 to |s|
      invariant forall k | 0 <= k < i :: CipherChar(s[k])
    {
      if !CipherChar(s[i]) { return false; }
    }
    return true;
  }

  // ---- requests ----

  /** The members a request of this kind has: exactly these. */
  function Fields(op: string): set<string> {
    var common := {"op", "request_id", "identity"};
    if op == "publish" then common + {"bundle"}
    else if op == "identity" || op == "claim" then common + {"peer"}
    else if op == "send" then common + {"peer", "peer_identity", "id", "kind", "ciphertext"}
    else if op == "ack" then common + {"sequence"}
    else common
  }

  predicate KnownOp(op: string) {
    op in {"register", "poll", "publish", "identity", "claim", "send", "ack"}
  }

  predicate HasPeer(op: string) {
    op == "identity" || op == "claim" || op == "send"
  }

  /** What the members of a request of this kind hold. */
  predicate Values(r: Json, op: string) {
    && IsBytes(Get(r, "identity"), 33)
    && (HasPeer(op) ==> IsIntValue(Get(r, "peer")) && Get(r, "peer").num > 0)
    && (op == "publish" ==> IsBundle(Get(r, "bundle")) && Get(Get(r, "bundle"), "identity") == Get(r, "identity"))
    && (op == "send" ==> SendValues(r))
    && (op == "ack" ==> SequenceOk(Get(r, "sequence")))
  }

  predicate SendValues(r: Json) {
    && IsBytes(Get(r, "peer_identity"), 33) && Get(r, "id").Str? && IsUuid(Get(r, "id").text)
    && Get(r, "kind") in {Int(2), Int(3)} && Get(r, "ciphertext").Str? && CipherOk(Get(r, "ciphertext").text)
  }

  predicate SequenceOk(v: Json) {
    v.Str? && 1 <= |v.text| <= 20 && AllDigits(v.text)
  }

  /** The schema: a known kind, exactly its members, and each of them well formed. */
  predicate Schema(r: Json) {
    && r.Obj? && Get(r, "op").Str? && KnownOp(Get(r, "op").text)
    && Get(r, "request_id").Str? && IsUuid(Get(r, "request_id").text)
    && NameSet(r.members) == Fields(Get(r, "op").text)
    && Values(r, Get(r, "op").text)
  }

  /** Names within the fields and every field well formed leave no field out. */
  lemma WellFormedIsComplete(r: Json, op: string)
    requires r.Obj? && NameSet(r.members) <= Fields(op) && Values(r, op) && KnownOp(op)
    requires Get(r, "op") == Str(op) && Get(r, "request_id").Str?
    ensures NameSet(r.members) == Fields(op)
  {
    forall name | name in Fields(op) ensures name in NameSet(r.members) {
      PresentIfNotNull(r.members, name);
    }
  }

  method Digits20(v: Json) returns (ok: bool)
    ensures ok <==> SequenceOk(v)
  {
    if !v.Str? || |v.text| == 0 || |v.text| > 20 { return false; }
    for i := 0 to |v.text|
      invariant forall k | 0 <= k < i :: IsDigit(v.text[k])
    {
      if !IsDigit(v.text[i]) { return false; }
    }
    return true;
  }

  method SendFields(r: Json) returns (ok: bool)
    ensures ok <==> SendValues(r)
  {
    var identity := Bytes(Get(r, "peer_identity"), 33);
    var id, kind, text := Get(r, "id"), Get(r, "kind"), Get(r, "ciphertext");
    if !identity || !id.Str? { return false; }
    var isUuid := Uuid(id.text);
    if !isUuid || !IsIntValue(kind) || (kind.num != 2 && kind.num != 3) || !text.Str? { return false; }
    ok := Cipher(text.text);
  }

  /** `fields`, built up by kind. */
  method FieldsFor(op: string) returns (known: bool, fields: set<string>)
    ensures known <==> KnownOp(op)
    ensures known ==> fields == Fields(op)
  {
    fields, known := {"op", "request_id", "identity"}, true;
    if op == "register" || op == "poll" {
    } else if op == "publish" {
      fields := fields + {"bundle"};
    } else if op == "identity" || op == "claim" {
      fields := fields + {"peer"};
    } else if op == "send" {
      fields := fields + {"peer"} + {"peer_identity"} + {"id"} + {"kind"} + {"ciphertext"};
    } else if op == "ack" {
      fields := fields + {"sequence"};
    } else {
      known := false;
    }
  }

  method ValuesOf(r: Json, op: string) returns (ok: bool)
    requires Get(r, "bundle").Obj? ==> Distinct(Get(r, "bundle").members)
    ensures ok <==> Values(r, op)
  {
    var identity := Bytes(Get(r, "identity"), 33);
    if !identity { return false; }
    if HasPeer(op) && (!IsIntValue(Get(r, "peer")) || Get(r, "peer").num <= 0) { return false; }
    if op == "publish" {
      var bundle := Bundle(Get(r, "bundle"));
      if !bundle || Get(Get(r, "bundle"), "identity") != Get(r, "identity") { return false; }
    }
    if op == "send" {
      var send := SendFields(r);
      if !send { return false; }
    }
    if op == "ack" {
      var sequence := Digits20(Get(r, "sequence"));
      if !sequence { return false; }
    }
    return true;
  }

  /** `valid` accepts exactly the schema: in particular never a member too many. */
  method Valid(r: Json) returns (ok: bool)
    requires r.Obj? ==> Distinct(r.members)
    requires Get(r, "bundle").Obj? ==> Distinct(Get(r, "bundle").members)
    ensures ok <==> Schema(r)
  {
    if !r.Obj? || !Get(r, "op").Str? || !Get(r, "request_id").Str? { return false; }
    var isUuid := Uuid(Get(r, "request_id").text);
    if !isUuid { return false; }
    var op := Get(r, "op").text;
    var known, fields := FieldsFor(op);
    if !known { return false; }
    var within := NamesWithin(r.members, fields);
    if !within { return false; }
    ok := ValuesOf(r, op);
    if ok { WellFormedIsComplete(r, op); }
  }
}
