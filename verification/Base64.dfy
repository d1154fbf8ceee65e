/** Which ciphertext texts are base64 encodings, as section 4 of RFC 4648 defines them. The
    arithmetic is done on symbols, 6-bit values and one for padding; texts spell them. */
module Base64 {
  import opened Common
  import opened PrivateChatWire

  const PAD := 64

  function Letter(i: int): (c: char)
    requires 0 <= i <= PAD
    ensures CipherChar(c)
  {
    if i < 26 then 'A' + i as char
    else if i < 52 then 'a' + (i - 26) as char
    else if i < 62 then '0' + (i - 52) as char
    else if i == 62 then '+'
    else if i == 63 then '/'
    else '='
  }

  function Index(c: char): (i: int)
    requires CipherChar(c)
    ensures 0 <= i <= PAD && Letter(i) == c
  {
    if 'A' <= c <= 'Z' then (c - 'A') as int
    else if 'a' <= c <= 'z' then 26 + (c - 'a') as int
    else if '0' <= c <= '9' then 52 + (c - '0') as int
    else if c == '+' then 62
    else if c == '/' then 63
    else PAD
  }

  lemma IndexOfLetter(i: int)
    requires 0 <= i <= PAD
    ensures Index(Letter(i)) == i
  {
  }

  predicate Symbols(v: seq<int>) {
    forall i | 0 <= i < |v| :: 0 <= v[i] <= PAD
  }

  predicate AllCipher(s: string) {
    forall i | 0 <= i < |s| :: CipherChar(s[i])
  }

  function Spell(v: seq<int>): (s: string)
    requires Symbols(v)
    ensures |s| == |v| && AllCipher(s)
  {
    seq(|v|, i requires 0 <= i < |v| => Letter(v[i]))
  }

  function Read(s: string): (v: seq<int>)
    requires AllCipher(s)
    ensures |v| == |s| && Symbols(v)
  {
    seq(|s|, i requires 0 <= i < |s| => Index(s[i]))
  }

  lemma SpellRead(s: string)
    requires AllCipher(s)
    ensures Spell(Read(s)) == s
  {
  }

  lemma ReadSpell(v: seq<int>)
    requires Symbols(v)
    ensures Read(Spell(v)) == v
  {
    forall i | 0 <= i < |v| ensures Read(Spell(v))[i] == v[i] { IndexOfLetter(v[i]); }
  }

  // ---- encoding ----

  /** Three bytes make four symbols; a last group of one or two bytes is padded. */
  function Group(b: seq<byte>): (v: seq<int>)
    requires 1 <= |b| <= 3
    ensures |v| == 4 && Symbols(v)
  {
    if |b| == 1 then [b[0] / 4, b[0] % 4 * 16, PAD, PAD]
    else if |b| == 2 then [b[0] / 4, b[0] % 4 * 16 + b[1] / 16, b[1] % 16 * 4, PAD]
    else [b[0] / 4, b[0] % 4 * 16 + b[1] / 16, b[1] % 16 * 4 + b[2] / 64, b[2] % 64]
  }

  function Sextets(b: seq<byte>): (v: seq<int>)
    ensures Symbols(v) && |v| % 4 == 0 && (b != [] ==> |v| >= 4)
  {
    if |b| == 0 then []
    else if |b| <= 3 then Group(b)
    else Group(b[..3]) + Sextets(b[3..])
  }

  function Encode(b: seq<byte>): string {
    Spell(Sextets(b))
  }

  lemma {:induction false} SextetsLength(b: seq<byte>)
    ensures |Sextets(b)| == 4 * ((|b| + 2) / 3)
  {
    if |b| > 3 {
      SextetsLength(b[3..]);
      assert (|b| + 2) / 3 == 1 + (|b| - 3 + 2) / 3;
    }
  }

  lemma LengthDecides(s: string, n: nat)
    requires |s| == 4 * ((n + 2) / 3) && AllCipher(s)
    ensures CipherOk(s) <==> 1 <= n <= 65538
  {
  }

  /** The ciphertext check passes an encoding exactly when it encodes 1 to 65538 bytes. */
  lemma EncodingsPass(b: seq<byte>)
    ensures CipherOk(Encode(b)) <==> 1 <= |b| <= 65538
  {
    SextetsLength(b);
    LengthDecides(Encode(b), |b|);
  }

  /** The test vectors of section 10 of RFC 4648 ... */
  lemma EncodingVectors()
    ensures Encode([]) == "" && Encode([0x66]) == "Zg==" && Encode([0x66, 0x6f]) == "Zm8="
    ensures Encode([0x66, 0x6f, 0x6f]) == "Zm9v" && Encode([0x66, 0x6f, 0x6f, 0x62, 0x61, 0x72]) == "Zm9vYmFy"
  {
    var b: seq<byte> := [0x66, 0x6f, 0x6f, 0x62, 0x61, 0x72];
    assert b[..3] == [0x66, 0x6f, 0x6f] && b[3..] == [0x62, 0x61, 0x72];
    assert Sextets(b) == [25, 38, 61, 47] + [24, 38, 5, 50];
  }

  /** ... and the alphabet of its table 1, by ASCII code. */
  lemma Alphabet(i: int)
    requires 0 <= i <= 64
    ensures Letter(i) as int
         == if i < 26 then 65 + i else if i < 52 then 97 + (i - 26) else if i < 62 then 48 + (i - 52)
            else [43, 47, 61][i - 62]
  {
  }

  // ---- decoding ----

  /** Padding only as the last one or two symbols, behind one whose unused bits are zero. */
  predicate Padded(v: seq<int>)
    requires |v| >= 4
  {
    && (forall i | 0 <= i < |v| - 2 :: v[i] != PAD)
    && (v[|v| - 2] == PAD ==> v[|v| - 1] == PAD && v[|v| - 3] % 16 == 0)
    && (v[|v| - 2] != PAD && v[|v| - 1] == PAD ==> v[|v| - 2] % 4 == 0)
  }

  function Ungroup(v: seq<int>): (b: seq<byte>)
    requires |v| == 4 && Symbols(v) && Padded(v)
    ensures 1 <= |b| <= 3 && Group(b) == v
  {
    SplitBits(v[0], v[1], if v[2] == PAD then 0 else v[2], if v[3] == PAD then 0 else v[3]);
    var first := v[0] * 4 + v[1] / 16;
    if v[2] == PAD then [first]
    else
      var second := v[1] % 16 * 16 + v[2] / 4;
      if v[3] == PAD then [first, second] else [first, second, v[2] % 4 * 64 + v[3]]
  }

  lemma SplitBits(w: int, x: int, y: int, z: int)
    requires 0 <= w < 64 && 0 <= x < 64 && 0 <= y < 64 && 0 <= z < 64
    ensures var a, b, c := w * 4 + x / 16, x % 16 * 16 + y / 4, y % 4 * 64 + z;
            && 0 <= a < 256 && 0 <= b < 256 && 0 <= c < 256
            && a / 4 == w && a % 4 * 16 + b / 16 == x && b % 16 * 4 + c / 64 == y && c % 64 == z
  {
  }

  lemma UngroupGroup(b: seq<byte>)
    requires 1 <= |b| <= 3
    ensures Padded(Group(b)) && Ungroup(Group(b)) == b
  {
  }

  function Bytes(v: seq<int>): seq<byte>
    requires |v| >= 4 && |v| % 4 == 0 && Symbols(v) && Padded(v)
  {
    if |v| == 4 then Ungroup(v) else Ungroup(v[..4]) + Bytes(v[4..])
  }

  lemma SextetsJoin(group: seq<byte>, rest: seq<byte>)
    requires |group| == 3 && rest != []
    ensures Sextets(group + rest) == Group(group) + Sextets(rest)
  {
    assert (group + rest)[..3] == group && (group + rest)[3..] == rest;
  }

  lemma WholeGroup(v: seq<int>)
    requires |v| == 4 && Symbols(v) && PAD !in v
    ensures Padded(v) && |Ungroup(v)| == 3
  {
  }

  lemma BytesJoin(group: seq<int>, rest: seq<int>)
    requires |group| == 4 && Symbols(group) && PAD !in group
    requires |rest| >= 4 && |rest| % 4 == 0 && Symbols(rest) && Padded(rest)
    ensures Symbols(group + rest) && Padded(group + rest) && Padded(group)
    ensures Bytes(group + rest) == Ungroup(group) + Bytes(rest)
  {
    WholeGroup(group);
    PaddedBehind(group, rest);
    assert (group + rest)[..4] == group && (group + rest)[4..] == rest;
  }

  lemma PaddedBehind(group: seq<int>, rest: seq<int>)
    requires |group| == 4 && Symbols(group) && PAD !in group && |rest| >= 4 && Symbols(rest) && Padded(rest)
    ensures Symbols(group + rest) && Padded(group + rest)
  {
  }

  lemma TailPadded(v: seq<int>)
    requires |v| > 4 && |v| % 4 == 0 && Symbols(v) && Padded(v)
    ensures Symbols(v[..4]) && PAD !in v[..4] && Symbols(v[4..]) && Padded(v[4..])
  {
  }

  lemma SextetsStep(v: seq<int>, group: seq<int>, tail: seq<int>, rest: seq<byte>)
    requires |v| > 4 && |v| % 4 == 0 && Symbols(v) && Padded(v) && group == v[..4] && tail == v[4..]
    requires PAD !in group && Padded(tail) && rest == Bytes(tail) && Sextets(rest) == tail
    ensures Sextets(Bytes(v)) == v
  {
    WholeGroup(group);
    SextetsJoin(Ungroup(group), rest);
    assert group + tail == v;
  }

  lemma {:induction false} SextetsOfBytes(v: seq<int>)
    requires |v| >= 4 && |v| % 4 == 0 && Symbols(v) && Padded(v)
    ensures Sextets(Bytes(v)) == v
  {
    if |v| > 4 {
      TailPadded(v);
      SextetsOfBytes(v[4..]);
      SextetsStep(v, v[..4], v[4..], Bytes(v[4..]));
    }
  }

  lemma BytesBehind(group: seq<byte>, rest: seq<byte>, v: seq<int>)
    requires |group| == 3 && |v| >= 4 && |v| % 4 == 0 && Symbols(v) && Padded(v) && Bytes(v) == rest
    ensures Symbols(Group(group) + v) && Padded(Group(group) + v) && Bytes(Group(group) + v) == group + rest
  {
    UngroupGroup(group);
    NoPadding(group);
    BytesJoin(Group(group), v);
  }

  lemma BytesStep(b: seq<byte>, rest: seq<byte>, v: seq<int>)
    requires |b| > 3 && rest == b[3..] && v == Sextets(rest) && Padded(v) && Bytes(v) == rest
    ensures Padded(Sextets(b)) && Bytes(Sextets(b)) == b
  {
    var group := b[..3];
    SextetsJoin(group, rest);
    assert group + rest == b;
    BytesBehind(group, rest, v);
  }

  lemma NoPadding(b: seq<byte>)
    requires |b| == 3
    ensures PAD !in Group(b)
  {
  }

  lemma {:induction false} BytesOfSextets(b: seq<byte>)
    requires b != []
    ensures Padded(Sextets(b)) && Bytes(Sextets(b)) == b
  {
    if |b| <= 3 {
      UngroupGroup(b);
    } else {
      BytesOfSextets(b[3..]);
      BytesStep(b, b[3..], Sextets(b[3..]));
    }
  }

  /** The same, of a text. */
  predicate Canonical(s: string)
    requires CipherOk(s)
  {
    && (forall i | 0 <= i < |s| - 2 :: s[i] != '=')
    && (s[|s| - 2] == '=' ==> s[|s| - 1] == '=' && Index(s[|s| - 3]) % 16 == 0)
    && (s[|s| - 2] != '=' && s[|s| - 1] == '=' ==> Index(s[|s| - 2]) % 4 == 0)
  }

  lemma CanonicalIsPadded(s: string)
    requires CipherOk(s)
    ensures Canonical(s) <==> Padded(Read(s))
  {
    var v := Read(s);
    forall i | 0 <= i < |s| ensures s[i] == '=' <==> v[i] == PAD { assert v[i] == Index(s[i]); }
  }

  function Decode(s: string): seq<byte>
    requires CipherOk(s) && Canonical(s)
  {
    CanonicalIsPadded(s);
    Bytes(Read(s))
  }

  /** An encoding is canonical and decodes to what was encoded. */
  lemma DecodeEncoded(b: seq<byte>)
    requires CipherOk(Encode(b))
    ensures Canonical(Encode(b)) && Decode(Encode(b)) == b
  {
    EncodingsPass(b);
    ReadSpell(Sextets(b));
    BytesOfSextets(b);
    CanonicalIsPadded(Encode(b));
  }

  /** A canonical text is the encoding of what it decodes to. */
  lemma EncodeDecoded(s: string)
    requires CipherOk(s) && Canonical(s)
    ensures Encode(Decode(s)) == s
  {
    CanonicalIsPadded(s);
    SextetsOfBytes(Read(s));
    SpellRead(s);
  }

  /** Exactly which texts that pass the check are encodings; and each is the encoding of one
      byte string only. */
  lemma PassingIsEncodingIff(s: string)
    requires CipherOk(s)
    ensures (exists b: seq<byte> :: Encode(b) == s) <==> Canonical(s)
    ensures forall b: seq<byte> | Encode(b) == s :: b == Decode(s)
  {
    if Canonical(s) { EncodeDecoded(s); }
    forall b: seq<byte> | Encode(b) == s ensures Canonical(s) && b == Decode(s) {
      DecodeEncoded(b);
    }
  }

  /** So the check lets through texts that encode nothing. */
  lemma PassingIsNotEncoding()
    ensures CipherOk("====") && forall b: seq<byte> :: Encode(b) != "===="
  {
    PassingIsEncodingIff("====");
  }
}
