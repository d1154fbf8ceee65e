/** The wire format of one chat frame: a 2-byte big-endian id, a 2-byte big-endian body
    length, then the body. `Parse` is the reference reading of a whole byte stream; the
    session reader is proved against it in SessionReader.dfy. */
module Framing {
  import opened Common

  const MAX_LENGTH := 2048
  const HEAD_TOTAL_LEN := 4
  const HEAD_ID_LEN := 2
  const SHORT_MAX := 32767
  const SHORT_MIN := -32768

  /** The largest body `CSession::Send` lets through: the whole frame must fit a short. */
  const MAX_SEND := SHORT_MAX - HEAD_TOTAL_LEN

  datatype Message = Message(id: int, body: seq<byte>)

  /** What the reader accepts as a frame. */
  predicate Readable(m: Message) {
    1 <= m.id <= SHORT_MAX && 1 <= |m.body| <= MAX_LENGTH
  }

  predicate AllReadable(ms: seq<Message>) {
    forall i | 0 <= i < |ms| :: Readable(ms[i])
  }

  /** A value's 16-bit pattern; a negative short is two's complement. */
  function Unsigned16(v: int): (u: int)
    ensures 0 <= u < 0x1_0000 && (u - v) % 0x1_0000 == 0
  {
    if 0 <= v < 0x1_0000 then v else if SHORT_MIN <= v < 0 then v + 0x1_0000 else v % 0x1_0000
  }

  /** The two network-order bytes of a 16-bit value: the high one first. */
  function Big16(v: int): (r: seq<byte>)
    ensures |r| == 2 && r[0] == Unsigned16(v) / 256 && r[1] == Unsigned16(v) % 256
    ensures Word(r[0], r[1]) == Unsigned16(v)
  {
    var u := Unsigned16(v);
    [u / 0x100, u % 0x100]
  }

  function Word(hi: byte, lo: byte): (r: int)
    ensures 0 <= r < 0x1_0000
  {
    hi * 0x100 + lo
  }

  lemma Digits(hi: byte, lo: byte)
    ensures (hi * 0x100 + lo) / 0x100 == hi && (hi * 0x100 + lo) % 0x100 == lo
  {
  }

  lemma Big16OfWord(hi: byte, lo: byte)
    ensures Big16(Word(hi, lo)) == [hi, lo]
  {
    Digits(hi, lo);
  }

  /** The bytes of a message on the wire. */
  function Frame(m: Message): (r: seq<byte>)
    ensures |r| == 4 + |m.body| && r[4..] == m.body
    ensures r[0] == Unsigned16(m.id) / 256 && r[1] == Unsigned16(m.id) % 256
    ensures |m.body| < 0x1_0000 ==> r[2] == |m.body| / 256 && r[3] == |m.body| % 256
  {
    Big16(m.id) + Big16(|m.body|) + m.body
  }

  function EncodeAll(ms: seq<Message>): seq<byte> {
    if ms == [] then [] else Frame(ms[0]) + EncodeAll(ms[1..])
  }

  lemma {:induction false} EncodeAppend(ms: seq<Message>, m: Message)
    ensures EncodeAll(ms + [m]) == EncodeAll(ms) + Frame(m)
  {
    if ms == [] {
      assert [m][1..] == [];
    } else {
      assert (ms + [m])[1..] == ms[1..] + [m];
      EncodeAppend(ms[1..], m);
    }
  }

  datatype Parsed = Parsed(msgs: seq<Message>, bad: bool, rest: seq<byte>) {
    /** The same reading with messages found before it. */
    function After(earlier: seq<Message>): Parsed {
      Parsed(earlier + msgs, bad, rest)
    }
  }

  /** The id and the body length a 4-byte header announces. */
  function HeadId(s: seq<byte>): (id: int)
    requires |s| >= HEAD_TOTAL_LEN
    ensures id == s[0] as int * 256 + s[1] as int
  {
    Word(s[0], s[1])
  }

  function HeadLen(s: seq<byte>): (len: nat)
    requires |s| >= HEAD_TOTAL_LEN
    ensures len == s[2] as int * 256 + s[3] as int
  {
    Word(s[2], s[3])
  }

  predicate GoodHead(s: seq<byte>)
    requires |s| >= HEAD_TOTAL_LEN
  {
    1 <= HeadId(s) <= SHORT_MAX && 1 <= HeadLen(s) <= MAX_LENGTH
  }

  /** Bytes that hold no complete frame yet, and never will if their header is bad. */
  predicate Unfinished(s: seq<byte>) {
    |s| < HEAD_TOTAL_LEN || BadHead(s) || |s| < HEAD_TOTAL_LEN + HeadLen(s)
  }

  predicate BadHead(s: seq<byte>) {
    |s| >= HEAD_TOTAL_LEN && !GoodHead(s)
  }

  /** Reads frames until the bytes run out or a header is invalid. */
  function Parse(s: seq<byte>): Parsed {
    if |s| < HEAD_TOTAL_LEN then
      Parsed([], false, s)
    else if !GoodHead(s) then
      Parsed([], true, s)
    else
      var end := HEAD_TOTAL_LEN + HeadLen(s);
      if |s| < end then
        Parsed([], false, s)
      else
        Parse(s[end..]).After([Message(HeadId(s), s[HEAD_TOTAL_LEN..end])])
  }

  lemma HeadOfFrame(m: Message, tail: seq<byte>)
    requires |m.body| < 0x1_0000
    ensures HeadId(Frame(m) + tail) == Unsigned16(m.id)
    ensures HeadLen(Frame(m) + tail) == |m.body|
  {
    var id, len, s := Big16(m.id), Big16(|m.body|), Frame(m) + tail;
    assert s[0] == id[0] && s[1] == id[1] && s[2] == len[0] && s[3] == len[1];
  }

  lemma FrameOfHead(s: seq<byte>)
    requires |s| >= HEAD_TOTAL_LEN && |s| == HEAD_TOTAL_LEN + HeadLen(s)
    ensures Frame(Message(HeadId(s), s[HEAD_TOTAL_LEN..])) == s
  {
    Big16OfWord(s[0], s[1]);
    Big16OfWord(s[2], s[3]);
  }

  /** A readable frame at the head of a stream is read back whole. */
  lemma ParseFrame(m: Message, tail: seq<byte>)
    requires Readable(m)
    ensures Parse(Frame(m) + tail) == Parse(tail).After([m])
  {
    HeadOfFrame(m, tail);
    var s, end := Frame(m) + tail, HEAD_TOTAL_LEN + |m.body|;
    assert s[HEAD_TOTAL_LEN..end] == m.body;
    assert s[end..] == tail;
  }

  lemma EncodeSplit(ms: seq<Message>, tail: seq<byte>)
    requires ms != []
    ensures EncodeAll(ms) + tail == Frame(ms[0]) + (EncodeAll(ms[1..]) + tail)
  {
    var first, others := Frame(ms[0]), EncodeAll(ms[1..]);
    assert (first + others) + tail == first + (others + tail);
  }

  lemma AfterAfter(p: Parsed, ms: seq<Message>)
    requires ms != []
    ensures p.After(ms[1..]).After([ms[0]]) == p.After(ms)
  {
    assert [ms[0]] + (ms[1..] + p.msgs) == ms + p.msgs;
  }

  /** Parsing undoes encoding, whatever bytes follow. */
  lemma {:induction false} ParseEncoded(ms: seq<Message>, tail: seq<byte>)
    requires AllReadable(ms)
    ensures Parse(EncodeAll(ms) + tail) == Parse(tail).After(ms)
  {
    if ms == [] {
      assert EncodeAll(ms) + tail == tail;
    } else {
      ParseEncoded(ms[1..], tail);
      EncodeSplit(ms, tail);
      ParseFrame(ms[0], EncodeAll(ms[1..]) + tail);
      AfterAfter(Parse(tail), ms);
    }
  }

  lemma EncodeCons(m: Message, ms: seq<Message>)
    ensures EncodeAll([m] + ms) == Frame(m) + EncodeAll(ms)
  {
    assert ([m] + ms)[1..] == ms;
  }

  /** The first frame of a stream, when it is complete. */
  lemma FirstFrame(s: seq<byte>) returns (m: Message, tail: seq<byte>)
    requires !Unfinished(s)
    ensures Readable(m) && s == Frame(m) + tail && |tail| < |s|
    ensures Parse(s) == Parse(tail).After([m])
  {
    var end := HEAD_TOTAL_LEN + HeadLen(s);
    m, tail := Message(HeadId(s), s[HEAD_TOTAL_LEN..end]), s[end..];
    FrameOfHead(s[..end]);
    assert s[..end][HEAD_TOTAL_LEN..] == m.body;
    assert s == s[..end] + s[end..];
  }

  /** Encoding undoes parsing: a stream is the encoding of its messages plus the rest. */
  lemma {:induction false} EncodeParsed(s: seq<byte>)
    ensures AllReadable(Parse(s).msgs)
    ensures s == EncodeAll(Parse(s).msgs) + Parse(s).rest
    decreases |s|
  {
    if !Unfinished(s) {
      var m, tail := FirstFrame(s);
      EncodeParsed(tail);
      EncodeCons(m, Parse(tail).msgs);
    }
  }

  /** Reading on: only the unfinished rest matters for the bytes that follow. */
  lemma ParseAppend(s: seq<byte>, more: seq<byte>)
    ensures Parse(s + more) == Parse(Parse(s).rest + more).After(Parse(s).msgs)
  {
    var p := Parse(s);
    EncodeParsed(s);
    assert s + more == EncodeAll(p.msgs) + (p.rest + more);
    ParseEncoded(p.msgs, p.rest + more);
  }

  /** Exactly which single frames survive the trip through `SendNode` and the reader. Every
      other frame the sender may emit is refused at its header and posts nothing. */
  lemma FrameRoundTrip(m: Message)
    requires SHORT_MIN <= m.id <= SHORT_MAX && 1 <= |m.body| <= MAX_SEND
    ensures Readable(m) <==> 1 <= m.id <= 32767 && 1 <= |m.body| <= 2048
    ensures Readable(m) <==> Parse(Frame(m)) == Parsed([m], false, [])
    ensures !Readable(m) ==> Parse(Frame(m)) == Parsed([], true, Frame(m))
  {
    assert Frame(m) + [] == Frame(m);
    HeadOfFrame(m, []);
    if Readable(m) {
      ParseFrame(m, []);
    }
  }

  /** A login with a body of two bytes, byte for byte. */
  lemma LoginFrame()
    ensures Frame(Message(1005, [104, 105])) == [0x03, 0xED, 0x00, 0x02, 104, 105]
    ensures Parse([0x03, 0xED, 0x00, 0x02, 104, 105]) == Parsed([Message(1005, [104, 105])], false, [])
  {
    var m := Message(1005, [104, 105]);
    assert Frame(m) == [0x03, 0xED, 0x00, 0x02, 104, 105];
    FrameRoundTrip(m);
  }
}
