/** The private-chat requests a client can make, and that the schema is exactly these. */
module PrivateChatRequests {
  import opened Numbers
  import opened JsonText
  import opened ChatWire
  import opened PrivateChatWire

  datatype Keys = Keys(registration: int, id: int, identity: seq<int>, prekey: seq<int>, signed: seq<int>,
                       signature: seq<int>, kyber: seq<int>, kyberSignature: seq<int>)

  datatype Ask =
    | Register
    | Poll
    | Publish(keys: Keys)
    | Identify(peer: int)
    | Claim(peer: int)
    | Send(peer: int, peerIdentity: seq<int>, id: string, kind: int, ciphertext: string)
    | Ack(sequence: string)

  function Ints(b: seq<int>): Json {
    Arr(seq(|b|, i requires 0 <= i < |b| => Int(b[i])))
  }

  function Op(a: Ask): string {
    match a
    case Register => "register"
    case Poll => "poll"
    case Publish(_) => "publish"
    case Identify(_) => "identity"
    case Claim(_) => "claim"
    case Send(_, _, _, _, _) => "send"
    case Ack(_) => "ack"
  }

  function KeyTail(k: Keys): Members {
    Member("signature", Ints(k.signature), Member("kyber", Ints(k.kyber),
    Member("kyber_signature", Ints(k.kyberSignature), End)))
  }

  function KeyMiddle(k: Keys): Members {
    Member("prekey", Ints(k.prekey), Member("signed", Ints(k.signed), KeyTail(k)))
  }

  function KeyMembers(k: Keys): Members {
    Member("registration", Int(k.registration), Member("id", Int(k.id),
    Member("identity", Ints(k.identity), KeyMiddle(k))))
  }

  /** What a request has beside its kind, its id and the caller's identity. */
  function Extra(a: Ask): Members {
    match a
    case Register => End
    case Poll => End
    case Publish(keys) => Member("bundle", Obj(KeyMembers(keys)), End)
    case Identify(peer) => Member("peer", Int(peer), End)
    case Claim(peer) => Member("peer", Int(peer), End)
    case Send(peer, peerIdentity, id, kind, ciphertext) =>
      Member("peer", Int(peer), Member("peer_identity", Ints(peerIdentity), Member("id", Str(id),
      Member("kind", Int(kind), Member("ciphertext", Str(ciphertext), End)))))
    case Ack(sequence) => Member("sequence", Str(sequence), End)
  }

  function Request(a: Ask, requestId: string, identity: seq<int>): Json {
    Obj(Member("op", Str(Op(a)), Member("request_id", Str(requestId), Member("identity", Ints(identity), Extra(a)))))
  }

  // ---- which of them are good ----

  predicate AreBytes(b: seq<int>, length: nat) {
    |b| == length && forall i | 0 <= i < length :: 0 <= b[i] < 256
  }

  predicate GoodKeys(k: Keys) {
    && 1 <= k.registration <= 16383 && 1 <= k.id <= 0xFFFF_FFFF
    && AreBytes(k.identity, 33) && AreBytes(k.prekey, 33) && AreBytes(k.signed, 33)
    && AreBytes(k.signature, 64) && AreBytes(k.kyber, 1569) && AreBytes(k.kyberSignature, 64)
  }

  predicate GoodExtra(a: Ask, identity: seq<int>) {
    match a
    case Register => true
    case Poll => true
    case Publish(keys) => GoodKeys(keys) && keys.identity == identity
    case Identify(peer) => 1 <= peer <= 0x7FFF_FFFF
    case Claim(peer) => 1 <= peer <= 0x7FFF_FFFF
    case Send(peer, peerIdentity, id, kind, ciphertext) =>
      && 1 <= peer <= 0x7FFF_FFFF && AreBytes(peerIdentity, 33) && IsUuid(id) && 2 <= kind <= 3
      && 4 <= |ciphertext| <= 87384 && |ciphertext| % 4 == 0
      && forall i | 0 <= i < |ciphertext| :: CipherChar(ciphertext[i])
    case Ack(sequence) => 1 <= |sequence| <= 20 && forall i | 0 <= i < |sequence| :: '0' <= sequence[i] <= '9'
  }

  predicate Good(a: Ask, requestId: string, identity: seq<int>) {
    IsUuid(requestId) && AreBytes(identity, 33) && GoodExtra(a, identity)
  }

  // ---- the schema accepts exactly the good ones ----

  lemma IntsAreBytes(b: seq<int>, length: nat)
    ensures IsBytes(Ints(b), length) <==> AreBytes(b, length)
  {
    var items := Ints(b).items;
    if IsBytes(Ints(b), length) {
      forall i | 0 <= i < length ensures 0 <= b[i] < 256 { assert items[i] == Int(b[i]); }
    }
  }

  lemma IntsDiffer(b: seq<int>, c: seq<int>)
    ensures Ints(b) == Ints(c) <==> b == c
  {
    if Ints(b) == Ints(c) {
      forall i | 0 <= i < |b| ensures b[i] == c[i] { assert Ints(b).items[i] == Ints(c).items[i]; }
    }
  }

  lemma HeadReads(a: Ask, requestId: string, identity: seq<int>)
    ensures var r := Request(a, requestId, identity);
            && Get(r, "op") == Str(Op(a)) && Get(r, "request_id") == Str(requestId)
            && Get(r, "identity") == Ints(identity)
            && NameSet(r.members) == {"op", "request_id", "identity"} + NameSet(Extra(a))
            && (forall name | name !in {"op", "request_id", "identity"} :: Get(r, name) == Lookup(Extra(a), name))
  {
    ThreeLookups("op", Str(Op(a)), "request_id", Str(requestId), "identity", Ints(identity), Extra(a));
    assert |"op"| == 2 && |"request_id"| == 10 && |"identity"| == 8;
    var second := Member("identity", Ints(identity), Extra(a));
    assert NameSet(second) == {"identity"} + NameSet(Extra(a));
    assert NameSet(Member("request_id", Str(requestId), second)) == {"request_id"} + NameSet(second);
  }

  lemma KeysRead(k: Keys)
    ensures var v := Obj(KeyMembers(k));
            && Get(v, "registration") == Int(k.registration) && Get(v, "id") == Int(k.id)
            && Get(v, "identity") == Ints(k.identity) && Get(v, "prekey") == Ints(k.prekey)
            && Get(v, "signed") == Ints(k.signed) && Get(v, "signature") == Ints(k.signature)
            && Get(v, "kyber") == Ints(k.kyber) && Get(v, "kyber_signature") == Ints(k.kyberSignature)
  {
    var signed := Member("signed", Ints(k.signed), KeyTail(k));
    ThreeLookups("registration", Int(k.registration), "id", Int(k.id), "identity", Ints(k.identity), KeyMiddle(k));
    ThreeLookups("signature", Ints(k.signature), "kyber", Ints(k.kyber),
                 "kyber_signature", Ints(k.kyberSignature), End);
    assert forall name :: Lookup(KeyMiddle(k), name)
                       == if "prekey" == name then Ints(k.prekey) else Lookup(signed, name);
    assert forall name :: Lookup(signed, name) == if "signed" == name then Ints(k.signed) else Lookup(KeyTail(k), name);
    KeyNamesDiffer();
  }

  /** Names of different lengths are told apart by that alone. */
  lemma KeyNamesDiffer()
    ensures "prekey" != "signed"
  {
    assert "prekey"[0] != "signed"[0];
  }

  lemma KeysNamed(k: Keys)
    ensures NameSet(KeyMembers(k)) == BUNDLE
  {
    var third := Member("kyber_signature", Ints(k.kyberSignature), End);
    assert NameSet(third) == {"kyber_signature"};
    assert NameSet(KeyTail(k)) == {"signature", "kyber", "kyber_signature"};
    assert NameSet(KeyMiddle(k)) == {"prekey", "signed"} + NameSet(KeyTail(k)) by {
      assert NameSet(Member("signed", Ints(k.signed), KeyTail(k))) == {"signed"} + NameSet(KeyTail(k));
    }
    var second := Member("identity", Ints(k.identity), KeyMiddle(k));
    assert NameSet(second) == {"identity"} + NameSet(KeyMiddle(k));
    assert NameSet(Member("id", Int(k.id), second)) == {"id"} + NameSet(second);
  }

  lemma KeysPass(k: Keys)
    ensures IsBundle(Obj(KeyMembers(k))) <==> GoodKeys(k)
  {
    KeysRead(k);
    KeysNamed(k);
    IntsAreBytes(k.identity, 33);
    IntsAreBytes(k.prekey, 33);
    IntsAreBytes(k.signed, 33);
    IntsAreBytes(k.signature, 64);
    IntsAreBytes(k.kyber, 1569);
    IntsAreBytes(k.kyberSignature, 64);
  }

  lemma OpsDiffer()
    ensures "register" != "identity" && "poll" != "send"
  {
    assert "register"[0] != "identity"[0] && "poll"[0] != "send"[0];
  }

  lemma ExtraNamesDiffer()
    ensures "peer" != "kind" && "id" != "op" && "ciphertext" != "request_id" && "sequence" != "identity"
  {
    assert "peer"[0] != "kind"[0] && "id"[0] != "op"[0];
    assert "ciphertext"[0] != "request_id"[0] && "sequence"[0] != "identity"[0];
  }

  lemma SendReads(a: Ask)
    requires a.Send?
    ensures NameSet(Extra(a)) == {"peer", "peer_identity", "id", "kind", "ciphertext"}
    ensures Lookup(Extra(a), "peer") == Int(a.peer) && Lookup(Extra(a), "peer_identity") == Ints(a.peerIdentity)
    ensures Lookup(Extra(a), "id") == Str(a.id) && Lookup(Extra(a), "kind") == Int(a.kind)
    ensures Lookup(Extra(a), "ciphertext") == Str(a.ciphertext)
  {
    var last := Member("ciphertext", Str(a.ciphertext), End);
    var tail := Member("kind", Int(a.kind), last);
    ThreeLookups("peer", Int(a.peer), "peer_identity", Ints(a.peerIdentity), "id", Str(a.id), tail);
    ExtraNamesDiffer();
    assert Lookup(tail, "kind") == Int(a.kind) && Lookup(last, "ciphertext") == Str(a.ciphertext);
    assert NameSet(tail) == {"kind", "ciphertext"} by { assert NameSet(last) == {"ciphertext"}; }
    var third := Member("id", Str(a.id), tail);
    assert NameSet(third) == {"id"} + NameSet(tail);
    assert NameSet(Member("peer_identity", Ints(a.peerIdentity), third)) == {"peer_identity"} + NameSet(third);
  }

  lemma SendPasses(a: Ask, requestId: string, identity: seq<int>)
    requires a.Send?
    ensures Values(Request(a, requestId, identity), "send") <==> AreBytes(identity, 33) && GoodExtra(a, identity)
  {
    HeadReads(a, requestId, identity);
    ExtraNamesDiffer();
    OpsDiffer();
    SendReads(a);
    IntsAreBytes(identity, 33);
    IntsAreBytes(a.peerIdentity, 33);
  }

  lemma OthersPass(a: Ask, requestId: string, identity: seq<int>)
    requires !a.Send?
    ensures Values(Request(a, requestId, identity), Op(a)) <==> AreBytes(identity, 33) && GoodExtra(a, identity)
    ensures {"op", "request_id", "identity"} + NameSet(Extra(a)) == Fields(Op(a))
  {
    HeadReads(a, requestId, identity);
    ExtraNamesDiffer();
    OpsDiffer();
    IntsAreBytes(identity, 33);
    match a
    case Publish(keys) =>
      KeysPass(keys);
      KeysRead(keys);
      IntsDiffer(keys.identity, identity);
      assert Get(Request(a, requestId, identity), "bundle") == Obj(KeyMembers(keys));
    case Identify(peer) => assert Get(Request(a, requestId, identity), "peer") == Int(peer);
    case Claim(peer) => assert Get(Request(a, requestId, identity), "peer") == Int(peer);
    case Ack(sequence) => assert Get(Request(a, requestId, identity), "sequence") == Str(sequence);
    case _ =>
  }

  /** A request of any kind passes if and only if everything in it is good. */
  lemma RequestPasses(a: Ask, requestId: string, identity: seq<int>)
    ensures Schema(Request(a, requestId, identity)) <==> Good(a, requestId, identity)
  {
    HeadReads(a, requestId, identity);
    OpsDiffer();
    if a.Send? {
      SendReads(a);
      SendPasses(a, requestId, identity);
    } else {
      OthersPass(a, requestId, identity);
    }
  }

  // ---- and nothing else passes ----

  lemma {:induction false} AbsentIsNull(ms: Members, name: string)
    requires name !in NameSet(ms)
    ensures Lookup(ms, name) == Null
  {
    if ms.Member? { AbsentIsNull(ms.rest, name); }
  }

  function IntsOf(v: Json): (b: seq<int>)
    requires v.Arr? && forall i | 0 <= i < |v.items| :: v.items[i].Int?
    ensures Ints(b) == v
  {
    var b := seq(|v.items|, i requires 0 <= i < |v.items| => v.items[i].num);
    assert Ints(b).items == v.items;
    b
  }

  function KeysOf(v: Json): Keys
    requires IsBundle(v)
  {
    Keys(Get(v, "registration").num, Get(v, "id").num, IntsOf(Get(v, "identity")), IntsOf(Get(v, "prekey")),
         IntsOf(Get(v, "signed")), IntsOf(Get(v, "signature")), IntsOf(Get(v, "kyber")),
         IntsOf(Get(v, "kyber_signature")))
  }

  function AskOf(r: Json): Ask
    requires Schema(r)
  {
    var op := Get(r, "op").text;
    if op == "publish" then Publish(KeysOf(Get(r, "bundle")))
    else if op == "identity" then Identify(Get(r, "peer").num)
    else if op == "claim" then Claim(Get(r, "peer").num)
    else if op == "send" then
      Send(Get(r, "peer").num, IntsOf(Get(r, "peer_identity")), Get(r, "id").text, Get(r, "kind").num,
           Get(r, "ciphertext").text)
    else if op == "ack" then Ack(Get(r, "sequence").text)
    else if op == "poll" then Poll
    else Register
  }

  /** Two objects hold the same under every name. */
  ghost predicate Same(v: Json, w: Json) {
    v.Obj? && w.Obj? && NameSet(v.members) == NameSet(w.members) && forall name :: Get(v, name) == Get(w, name)
  }

  lemma SameByNames(v: Json, w: Json)
    requires v.Obj? && w.Obj? && NameSet(v.members) == NameSet(w.members)
    requires forall name | name in NameSet(v.members) :: Get(v, name) == Get(w, name)
    ensures Same(v, w)
  {
    forall name ensures Get(v, name) == Get(w, name) {
      if name !in NameSet(v.members) {
        AbsentIsNull(v.members, name);
        AbsentIsNull(w.members, name);
      }
    }
  }

  lemma BundleIsKeys(v: Json)
    requires IsBundle(v)
    ensures GoodKeys(KeysOf(v)) && Same(v, Obj(KeyMembers(KeysOf(v))))
    ensures Ints(KeysOf(v).identity) == Get(v, "identity")
  {
    var k := KeysOf(v);
    KeysRead(k);
    KeysNamed(k);
    SameByNames(v, Obj(KeyMembers(k)));
    IntsAreBytes(k.identity, 33);
    IntsAreBytes(k.prekey, 33);
    IntsAreBytes(k.signed, 33);
    IntsAreBytes(k.signature, 64);
    IntsAreBytes(k.kyber, 1569);
    IntsAreBytes(k.kyberSignature, 64);
  }

  /** Whatever passes is such a request with everything in it good: member by member, whatever
      their order, and a bundle in it likewise. */
  lemma PassingIsRequest(r: Json)
    requires Schema(r)
    ensures var a, requestId, identity := AskOf(r), Get(r, "request_id").text, IntsOf(Get(r, "identity"));
            var w := Request(a, requestId, identity);
            && Good(a, requestId, identity) && NameSet(r.members) == NameSet(w.members)
            && (forall name | name != "bundle" :: Get(r, name) == Get(w, name))
            && (a.Publish? ==> Same(Get(r, "bundle"), Get(w, "bundle")))
  {
    var a, requestId, identity := AskOf(r), Get(r, "request_id").text, IntsOf(Get(r, "identity"));
    var w := Request(a, requestId, identity);
    AskIsGood(r);
    HeadReads(a, requestId, identity);
    AskReads(r);
    forall name | name != "bundle" ensures Get(r, name) == Get(w, name) {
      if name !in NameSet(r.members) {
        AbsentIsNull(r.members, name);
        AbsentIsNull(w.members, name);
      }
    }
  }

  lemma AskIsGood(r: Json)
    requires Schema(r)
    ensures Op(AskOf(r)) == Get(r, "op").text
    ensures Good(AskOf(r), Get(r, "request_id").text, IntsOf(Get(r, "identity")))
  {
    OpsDiffer();
    IntsAreBytes(IntsOf(Get(r, "identity")), 33);
    var a := AskOf(r);
    match a
    case Publish(keys) =>
      BundleIsKeys(Get(r, "bundle"));
      IntsDiffer(keys.identity, IntsOf(Get(r, "identity")));
    case Send(_, peerIdentity, _, _, _) => IntsAreBytes(peerIdentity, 33);
    case _ =>
  }

  /** The members behind the first three are the request's own. */
  lemma AskReads(r: Json)
    requires Schema(r)
    ensures var a := AskOf(r);
            && NameSet(r.members) == {"op", "request_id", "identity"} + NameSet(Extra(a))
            && (forall name | name in NameSet(Extra(a)) && name != "bundle" :: Get(r, name) == Lookup(Extra(a), name))
            && (a.Publish? ==> Same(Get(r, "bundle"), Lookup(Extra(a), "bundle")))
  {
    var a := AskOf(r);
    AskIsGood(r);
    OpsDiffer();
    if a.Send? {
      SendReads(a);
    } else {
      OthersPass(a, "", []);
      if a.Publish? { BundleIsKeys(Get(r, "bundle")); }
    }
  }
}
