/** JSON values and their compact text. Strings are byte strings, one `char` a byte. The text
    is what jsoncpp's stream writer prints with empty indentation and `emitUTF8`; it sorts
    members by name, here they stay in the order given, which no length depends on. */
module JsonText {
  import opened Numbers

  datatype Json =
    | Null
    | Bool(truth: bool)
    | Int(num: int)
    | Str(text: string)
    | Arr(items: seq<Json>)
    | Obj(members: Members)
    | Noted(value: Json, note: Note)   // a parsed value copied together with its comments

  /** The comments the parser attached to a value: before it, and after it on the same line. */
  datatype Note = Note(before: string, after: string)

  const NO_NOTE := Note("", "")

  datatype Members = End | Member(name: string, value: Json, rest: Members)

  function Escaped(c: char): string {
    if c == '\"' then "\\\""
    else if c == '\\' then "\\\\"
    else if c == '\U{08}' then "\\b"
    else if c == '\U{0C}' then "\\f"
    else if c == '\n' then "\\n"
    else if c == '\r' then "\\r"
    else if c == '\t' then "\\t"
    else if c < ' ' then "\\u00" + Hex2(c)
    else [c]
  }

  function Hex2(c: char): (h: string)
    requires c < ' '
    ensures |h| == 2
  {
    var hi, lo := c as int / 16, c as int % 16;
    [HexChar(hi), HexChar(lo)]
  }

  function HexChar(d: int): char
    requires 0 <= d < 16
  {
    if d < 10 then '0' + d as char else 'a' + (d - 10) as char
  }

  function EscapedAll(s: string): string {
    if s == [] then [] else Escaped(s[0]) + EscapedAll(s[1..])
  }

  function Quoted(s: string): (r: string)
    ensures |r| == |EscapedAll(s)| + 2
  {
    "\"" + EscapedAll(s) + "\""
  }

  function Compact(v: Json): string
    decreases v, 1
  {
    match v
    case Null => "null"
    case Bool(b) => if b then "true" else "false"
    case Int(n) => Decimal(n)
    case Str(s) => Quoted(s)
    case Arr(items) => "[" + CompactItems(items) + "]"
    case Obj(ms) => "{" + CompactMembers(ms) + "}"
    case Noted(value, _) => Compact(value)
  }

  function CompactItems(items: seq<Json>): string
    decreases items, 0
  {
    if items == [] then []
    else if |items| == 1 then Compact(items[0])
    else Compact(items[0]) + "," + CompactItems(items[1..])
  }

  function CompactMembers(ms: Members): string
    decreases ms, 0
  {
    match ms
    case End => []
    case Member(name, value, rest) =>
      Before(value) + Quoted(name) + ":" + Compact(value)
      + (if rest.End? then After(value) else "," + After(value) + CompactMembers(rest))
  }

  /** The writer prints a member's comments too: in front of its name, and behind its value
      and comma after a space. */
  function Before(v: Json): string {
    if v.Noted? then v.note.before else []
  }

  function After(v: Json): string {
    if v.Noted? && v.note.after != [] then " " + v.note.after else []
  }

  function Printed(n: Note): nat {
    |n.before| + if n.after == [] then 0 else 1 + |n.after|
  }

  function NoteSize(v: Json): nat {
    if v.Noted? then Printed(v.note) else 0
  }

  /** Texts of an array and an object, written out. */
  lemma CompactSamples()
    ensures Compact(Arr([Int(7), Null])) == "[7,null]"
    ensures Quoted("b") == [34 as char, 'b', 34 as char]
    ensures CompactMembers(Member("b", Arr([]), End)) == Quoted("b") + ":[]"
  {
    assert [Int(7), Null][1..] == [Null];
    assert CompactItems([Null]) == "null";
    assert CompactItems([Int(7), Null]) == "7" + "," + CompactItems([Null]);
    PlainText("b");
    assert Compact(Arr([])) == "[]";
  }

  /** A member with comments: the first before its name, the second behind its comma and a space. */
  lemma NotedMember(name: string, value: Json, note: Note, rest: Members)
    requires rest.Member? && note.after != []
    ensures CompactMembers(Member(name, Noted(value, note), rest))
         == (note.before + Quoted(name) + ":" + Compact(value)) + (", " + note.after + CompactMembers(rest))
  {
    var v := Noted(value, note);
    assert Before(v) == note.before && After(v) == " " + note.after && Compact(v) == Compact(value);
    assert "," + (" " + note.after) + CompactMembers(rest) == ", " + note.after + CompactMembers(rest);
  }

  /** How the characters get written that JSON does not take as they are, by ASCII code. */
  lemma EscapeSamples()
    ensures Escaped(34 as char) == [92 as char, 34 as char] && Escaped(92 as char) == [92 as char, 92 as char]
    ensures Escaped(8 as char) == [92 as char, 'b'] && Escaped(9 as char) == [92 as char, 't']
    ensures Escaped(10 as char) == [92 as char, 'n'] && Escaped(12 as char) == [92 as char, 'f']
    ensures Escaped(13 as char) == [92 as char, 'r']
    ensures Escaped(31 as char) == [92 as char, 'u', '0', '0', '1', 'f']
    ensures forall c: char | c as int >= 32 && c as int != 34 && c as int != 92 :: Escaped(c) == [c]
  {
  }

  // ---- reading and updating objects ----

  predicate Has(ms: Members, name: string) {
    ms.Member? && (ms.name == name || Has(ms.rest, name))
  }

  /** `v[name]`: null when there is no such member, or no object. */
  function Get(v: Json, name: string): Json {
    if v.Obj? then Lookup(v.members, name) else Null
  }

  function Lookup(ms: Members, name: string): Json {
    match ms
    case End => Null
    case Member(n, value, rest) => if n == name then value else Lookup(rest, name)
  }

  lemma ThreeLookups(a: string, u: Json, b: string, v: Json, c: string, w: Json, ms: Members)
    ensures forall name :: Lookup(Member(a, u, Member(b, v, Member(c, w, ms))), name)
                        == if a == name then u else if b == name then v else if c == name then w else Lookup(ms, name)
  {
    forall name
      ensures Lookup(Member(a, u, Member(b, v, Member(c, w, ms))), name)
           == if a == name then u else if b == name then v else if c == name then w else Lookup(ms, name)
    {
      assert Lookup(Member(b, v, Member(c, w, ms)), name)
          == if b == name then v else Lookup(Member(c, w, ms), name);
    }
  }

  function Put(ms: Members, name: string, value: Json): Members {
    match ms
    case End => Member(name, value, End)
    case Member(n, v, rest) => if n == name then Member(n, value, rest) else Member(n, v, Put(rest, name, value))
  }

  function Without(ms: Members, name: string): Members {
    match ms
    case End => End
    case Member(n, v, rest) => if n == name then Without(rest, name) else Member(n, v, Without(rest, name))
  }

  /** `v[name] = value` on an object. */
  function Set(v: Json, name: string, value: Json): Json {
    Obj(Put(if v.Obj? then v.members else End, name, value))
  }

  lemma {:induction false} LookupPut(ms: Members, name: string, value: Json, other: string)
    ensures Lookup(Put(ms, name, value), other) == if other == name then value else Lookup(ms, other)
  {
    match ms
    case End =>
    case Member(n, v, rest) => LookupPut(rest, name, value, other);
  }

  lemma {:induction false} LookupWithout(ms: Members, name: string, other: string)
    ensures Lookup(Without(ms, name), other) == if other == name then Null else Lookup(ms, other)
  {
    match ms
    case End =>
    case Member(n, v, rest) => LookupWithout(rest, name, other);
  }

  predicate IsIntValue(v: Json) {
    v.Int? && IsInt(v.num)
  }

  /** Printable ASCII without quote and backslash prints as itself. */
  predicate Plain(s: string) {
    forall i | 0 <= i < |s| :: s[i] >= ' ' && s[i] != '\"' && s[i] != '\\'
  }

  lemma {:induction false} PlainText(s: string)
    requires Plain(s)
    ensures EscapedAll(s) == s
  {
    if s != [] {
      PlainText(s[1..]);
      assert s == [s[0]] + s[1..];
    }
  }

  predicate PlainNames(ms: Members) {
    ms.Member? ==> Plain(ms.name) && PlainNames(ms.rest)
  }

  /** The length of an object's text: per member, its name and value and four more bytes, of
      which the last member's comma and the braces leave one over, and its comments. */
  function MembersSize(ms: Members): nat {
    match ms
    case End => 0
    case Member(name, value, rest) => |name| + 4 + |Compact(value)| + NoteSize(value) + MembersSize(rest)
  }

  lemma {:induction false} ObjectSize(ms: Members)
    requires PlainNames(ms)
    ensures |CompactMembers(ms)| == if ms.End? then 0 else MembersSize(ms) - 1
    ensures |Compact(Obj(ms))| == if ms.End? then 2 else MembersSize(ms) + 1
  {
    if ms.Member? {
      PlainText(ms.name);
      ObjectSize(ms.rest);
    }
  }

  lemma Sized(name: string, value: Json, rest: Members)
    requires Plain(name) && PlainNames(rest)
    ensures var ms := Member(name, value, rest);
            PlainNames(ms) && MembersSize(ms) == |name| + 4 + |Compact(value)| + NoteSize(value) + MembersSize(rest)
  {
  }

  lemma {:induction false} WithoutShrinks(ms: Members, name: string)
    requires PlainNames(ms)
    ensures PlainNames(Without(ms, name)) && MembersSize(Without(ms, name)) <= MembersSize(ms)
  {
    if ms.Member? { WithoutShrinks(ms.rest, name); }
  }

  lemma {:induction false} PutGrows(ms: Members, name: string, value: Json)
    requires PlainNames(ms) && Plain(name)
    ensures PlainNames(Put(ms, name, value))
    ensures MembersSize(Put(ms, name, value)) <= MembersSize(ms) + |name| + 4 + |Compact(value)| + NoteSize(value)
  {
    match ms
    case End => Sized(name, value, End);
    case Member(n, v, rest) => PutGrows(rest, name, value);
  }

  lemma {:induction false} ItemsAppend(items: seq<Json>, v: Json)
    ensures |CompactItems(items + [v])|
         == |CompactItems(items)| + |Compact(v)| + (if items == [] then 0 else 1)
  {
    if items == [] {
      assert items + [v] == [v];
    } else {
      ItemsAppend(items[1..], v);
      assert (items + [v])[1..] == items[1..] + [v];
      if |items| == 1 {
        assert items[1..] + [v] == [v];
      }
    }
  }
}
