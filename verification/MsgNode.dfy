/** The message buffers of MsgNode.cpp. */
module MessageNodes {
  import opened Common
  import opened Framing

  /** The value an int takes when it is narrowed to a 16-bit short. */
  function ToShort(v: int): (r: int)
    ensures SHORT_MIN <= r <= SHORT_MAX && (r - v) % 0x1_0000 == 0
  {
    var u := v % 0x1_0000;
    if u > SHORT_MAX then u - 0x1_0000 else u
  }

  class MsgNode {
    const totalLen: int
    const msgId: int
    const data: array<byte>
    var curLen: int

    ghost predicate Valid()
      reads this
    {
      0 < totalLen <= SHORT_MAX && data.Length == totalLen + 1
    }

    /** A zeroed buffer with one byte to spare; the guard is `New`'s. */
    constructor (maxLen: int, msgId: int)
      requires 0 < maxLen <= SHORT_MAX
      ensures Valid() && fresh(data)
      ensures totalLen == maxLen && this.msgId == msgId && curLen == 0
      ensures forall i | 0 <= i < data.Length :: data[i] == 0
    {
      totalLen, this.msgId, curLen := maxLen, msgId, 0;
      data := new byte[maxLen + 1](_ => 0);
    }

    method Clear()
      requires Valid()
      modifies this, data
      ensures Valid() && curLen == 0
      ensures forall i | 0 <= i < totalLen :: data[i] == 0
      ensures data[totalLen] == old(data[totalLen])
    {
      forall i | 0 <= i < totalLen { data[i] := 0; }
      curLen := 0;
    }
  }

  /** The base constructor; null stands for the exception on a non-positive length. */
  method New(maxLen: int, msgId: int) returns (node: MsgNode?)
    requires SHORT_MIN <= maxLen <= SHORT_MAX
    ensures node == null <==> maxLen <= 0
    ensures node != null ==> fresh(node) && fresh(node.data) && node.Valid()
    ensures node != null ==> node.totalLen == maxLen && node.msgId == msgId
    ensures node != null ==> forall i | 0 <= i < node.data.Length :: node.data[i] == 0
  {
    if maxLen <= 0 { return null; }
    node := new MsgNode(maxLen, msgId);
  }

  /** The outgoing node holds exactly the frame of its message and a closing zero byte. The
      length is narrowed to a short first, so the four longest shorts throw. */
  method SendNode(msg: seq<byte>, msgId: int) returns (node: MsgNode?)
    requires |msg| <= SHORT_MAX && SHORT_MIN <= msgId <= SHORT_MAX
    ensures node == null <==> |msg| > 32763
    ensures node != null ==> fresh(node) && fresh(node.data) && node.Valid() && node.msgId == msgId
    ensures node != null ==> node.data[..node.totalLen] == Frame(Message(msgId, msg))
    ensures node != null ==> node.data[0] == Unsigned16(msgId) / 256 && node.data[1] == Unsigned16(msgId) % 256
    ensures node != null ==> node.data[2] == |msg| / 256 && node.data[3] == |msg| % 256
    ensures node != null ==> node.totalLen == 4 + |msg| && node.data[4..node.totalLen] == msg
    ensures node != null ==> node.data[node.totalLen] == 0
  {
    var maxLen := |msg|;
    node := New(ToShort(maxLen + HEAD_TOTAL_LEN), msgId);
    if node == null { return; }
    var m := Message(msgId, msg);
    FillFrame(node.data, m);
    assert node.data[..node.totalLen] == Frame(m);
    assert forall i | 0 <= i < 4 :: node.data[i] == Frame(m)[i];
    assert node.data[4..node.totalLen] == node.data[..node.totalLen][4..];
  }

  method FillFrame(dest: array<byte>, m: Message)
    requires dest.Length == HEAD_TOTAL_LEN + |m.body| + 1
    modifies dest
    ensures dest[..HEAD_TOTAL_LEN + |m.body|] == Frame(m)
    ensures dest[HEAD_TOTAL_LEN + |m.body|] == old(dest[HEAD_TOTAL_LEN + |m.body|])
  {
    CopyInto(dest, 0, Big16(m.id));
    CopyInto(dest, HEAD_ID_LEN, Big16(|m.body|));
    assert dest[..HEAD_TOTAL_LEN] == Big16(m.id) + Big16(|m.body|);
    CopyInto(dest, HEAD_TOTAL_LEN, m.body);
    assert dest[HEAD_TOTAL_LEN + |m.body|..][0] == dest[HEAD_TOTAL_LEN + |m.body|];
  }

  /** memcpy into the middle of a buffer. */
  method CopyInto(dest: array<byte>, at: nat, src: seq<byte>)
    requires at + |src| <= dest.Length
    modifies dest
    ensures dest[..at + |src|] == old(dest[..at]) + src
    ensures dest[at + |src|..] == old(dest[at + |src|..])
  {
    forall i | 0 <= i < |src| { dest[at + i] := src[i]; }
  }
}
