/** The limits and id format of ChatWire.h. */
module ChatWire {
  import opened JsonText

  const BODY_LIMIT := 1800

  predicate IsHex(c: char) {
    '0' <= c <= '9' || 'a' <= c <= 'f' || 'A' <= c <= 'F'
  }

  predicate DashAt(i: int) {
    i == 8 || i == 13 || i == 18 || i == 23
  }

  /** A uuid in its 8-4-4-4-12 form. */
  predicate IsUuid(s: string) {
    |s| == 36 && forall i | 0 <= i < 36 :: if DashAt(i) then s[i] == '-' else IsHex(s[i])
  }

  lemma UuidSample()
    ensures IsUuid("01234567-89ab-cdef-ABCD-EF0123456789") && !IsUuid("01234567-89ab-cdef-ABCD-EF012345678g")
  {
    var id, other := "01234567-89ab-cdef-ABCD-EF0123456789", "01234567-89ab-cdef-ABCD-EF012345678g";
    assert |id| == |other| == 36 && other[35] == 'g' && !DashAt(35);
  }

  /** The early-exit loop of `Uuid`, the same in both wire headers. */
  method Uuid(id: string) returns (ok: bool)
    ensures ok <==> IsUuid(id)
  {
    if |id| != 36 { return false; }
    var i := 0;
    while i < |id|
      invariant 0 <= i <= 36
      invariant forall k | 0 <= k < i :: if DashAt(k) then id[k] == '-' else IsHex(id[k])
    {
      if i == 8 || i == 13 || i == 18 || i == 23 {
        if id[i] != '-' { return false; }
      } else {
        var c := id[i];
        if !(('0' <= c && c <= '9') || ('a' <= c && c <= 'f') || ('A' <= c && c <= 'F')) { return false; }
      }
      i := i + 1;
    }
    return true;
  }

  predicate Text(id: string, content: string) {
    IsUuid(id) && content != [] && |content| <= 512
  }

  lemma UuidLength(s: string)
    requires IsUuid(s)
    ensures |Compact(Str(s))| == 38
  {
    assert Plain(s);
    PlainText(s);
  }
}
