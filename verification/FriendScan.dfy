/** The client's side of paging: start at 0 and follow `next_uid` while `has_more` is set. */
module FriendScan {
  import opened Common
  import opened Numbers
  import opened JsonText
  import opened ChatWire
  import opened FriendPaging

  /** A user's friends as the database lists them: by ascending positive uid. */
  ghost predicate Listed(fs: seq<FriendInfo>) {
    && (forall i | 0 <= i < |fs| :: 0 < fs[i].uid <= INT_MAX)
    && (forall i, j | 0 <= i < j < |fs| :: fs[i].uid < fs[j].uid)
  }

  function Beyond(fs: seq<FriendInfo>, after: int): seq<FriendInfo> {
    if fs == [] then []
    else if fs[0].uid > after then [fs[0]] + Beyond(fs[1..], after)
    else Beyond(fs[1..], after)
  }

  /** `MysqlDao::GetFriendPage`: the first ten friends past the cursor; more than ten means
      there are more. */
  function GetFriendPage(fs: seq<FriendInfo>, after: int): FriendPage {
    var rest := Beyond(fs, after);
    FriendPage(true, |rest| > PAGE, if |rest| > PAGE then rest[..PAGE] else rest)
  }

  function PageAt(fs: seq<FriendInfo>, after: int, id: RequestId, fits: Reply -> bool): Reply {
    PageReply(GetFriendPage(fs, after), id, after, fits)
  }

  /** What the client collects, and whether it got to the end without an error. */
  function Scan(fs: seq<FriendInfo>, after: int, id: RequestId, fits: Reply -> bool): (seq<FriendInfo>, bool)
    decreases |Beyond(fs, after)|
  {
    var reply := PageAt(fs, after, id, fits);
    if reply.error != SUCCESS then (reply.friends, false)
    else if !reply.hasMore then (reply.friends, true)
    else
      PageAdvances(fs, after, id, fits);
      var rest := Scan(fs, reply.echo.next, id, fits);
      (reply.friends + rest.0, rest.1)
  }

  // ---- what one page holds ----

  function GrownAll(r: Reply, fs: seq<FriendInfo>): Reply
    requires r.echo.Echo?
  {
    if fs == [] then r else r.(friends := r.friends + fs, echo := r.echo.(next := fs[|fs| - 1].uid))
  }

  /** How many of the items the greedy loop takes. */
  function Taken(r: Reply, items: seq<FriendInfo>, fits: Reply -> bool): (k: nat)
    requires r.echo.Echo?
    ensures k <= |items|
    decreases |items|
  {
    if items != [] && fits(Grown(r, items[0])) then
      1 + Taken(Grown(r, items[0]), items[1..], fits)
    else 0
  }

  lemma {:induction false} PackTakes(r: Reply, items: seq<FriendInfo>, more: bool, fits: Reply -> bool)
    requires r.echo.Echo?
    ensures var k := Taken(r, items, fits);
            Pack(r, items, more, fits)
            == if k == |items| then (GrownAll(r, items), more)
               else if k == 0 && r.friends == [] then (r.(error := CHAT_DATA_INVALID), more)
               else (GrownAll(r, items[..k]), true)
    decreases |items|
  {
    var k := Taken(r, items, fits);
    if k > 0 {
      var g := Grown(r, items[0]);
      PackTakes(g, items[1..], more, fits);
      assert items[..k] == [items[0]] + items[1..][..k - 1];
      assert items == [items[0]] + items[1..];
      GrownTwice(r, items[0], items[1..][..k - 1]);
      GrownTwice(r, items[0], items[1..]);
    }
  }

  lemma GrownTwice(r: Reply, f: FriendInfo, fs: seq<FriendInfo>)
    requires r.echo.Echo?
    ensures GrownAll(Grown(r, f), fs) == GrownAll(r, [f] + fs)
  {
    assert r.friends + [f] + fs == r.friends + ([f] + fs);
  }

  /** Every taken item fits on top of those before it. */
  lemma {:induction false} TakenFits(r: Reply, items: seq<FriendInfo>, j: nat, fits: Reply -> bool)
    requires r.echo.Echo? && j < Taken(r, items, fits)
    ensures fits(Grown(GrownAll(r, items[..j]), items[j]))
    decreases |items|
  {
    if j > 0 {
      TakenFits(Grown(r, items[0]), items[1..], j - 1, fits);
      assert items[..j] == [items[0]] + items[1..][..j - 1];
      GrownTwice(r, items[0], items[1..][..j - 1]);
    }
  }

  /** The first item left behind did not fit on top of those taken. */
  lemma {:induction false} TakenStops(r: Reply, items: seq<FriendInfo>, fits: Reply -> bool)
    requires r.echo.Echo? && Taken(r, items, fits) < |items|
    ensures var k := Taken(r, items, fits); !fits(Grown(GrownAll(r, items[..k]), items[k]))
    decreases |items|
  {
    var k := Taken(r, items, fits);
    if k > 0 {
      TakenStops(Grown(r, items[0]), items[1..], fits);
      assert items[..k] == [items[0]] + items[1..][..k - 1];
      GrownTwice(r, items[0], items[1..][..k - 1]);
    }
  }

  /** The reply that lists the first j items of a page. */
  function Listing(items: seq<FriendInfo>, j: nat, id: RequestId, after: int): Reply
    requires 0 < j <= |items|
  {
    Reply(0, items[..j], false, Echo(id, after, items[j - 1].uid))
  }

  lemma GrownLists(items: seq<FriendInfo>, j: nat, id: RequestId, after: int)
    requires j < |items|
    ensures Grown(GrownAll(Opening(SUCCESS, id, after), items[..j]), items[j]) == Listing(items, j + 1, id, after)
  {
    assert [] + items[..j] + [items[j]] == items[..j + 1];
  }

  /** Each prefix of what the greedy loop takes fitted ... */
  lemma TakenListingFits(items: seq<FriendInfo>, j: nat, id: RequestId, after: int, fits: Reply -> bool)
    requires 0 < j <= Taken(Opening(SUCCESS, id, after), items, fits)
    ensures fits(Listing(items, j, id, after))
  {
    TakenFits(Opening(SUCCESS, id, after), items, j - 1, fits);
    GrownLists(items, j - 1, id, after);
  }

  /** ... and with one item more it would not. */
  lemma NextListingDoesNot(items: seq<FriendInfo>, k: nat, id: RequestId, after: int, fits: Reply -> bool)
    requires k == Taken(Opening(SUCCESS, id, after), items, fits) && k < |items|
    ensures !fits(Listing(items, k + 1, id, after))
  {
    var open := Opening(SUCCESS, id, after);
    TakenStops(open, items, fits);
    assert !fits(Grown(GrownAll(open, items[..k]), items[k]));
    GrownLists(items, k, id, after);
  }

  lemma PageOfTaken(page: FriendPage, id: RequestId, after: int, fits: Reply -> bool)
    requires page.ok
    ensures var k := Taken(Opening(SUCCESS, id, after), page.items, fits);
            PageReply(page, id, after, fits)
            == if k == 0 && page.items != [] then Reply(1103, [], false, Echo(id, after, after))
               else Reply(0, page.items[..k], page.hasMore || k < |page.items|,
                          Echo(id, after, if k == 0 then after else page.items[k - 1].uid))
  {
    var open := Opening(SUCCESS, id, after);
    var k := Taken(open, page.items, fits);
    PackTakes(open, page.items, page.hasMore, fits);
    if k == |page.items| {
      assert page.items[..k] == page.items;
      GrownFromNone(open, page.items, k);
    } else if k > 0 {
      GrownFromNone(open, page.items, k);
    }
  }

  lemma GrownFromNone(open: Reply, items: seq<FriendInfo>, k: nat)
    requires open.echo.Echo? && open.friends == [] && k <= |items|
    ensures GrownAll(open, items[..k])
         == open.(friends := items[..k],
                  echo := open.echo.(next := if k == 0 then open.echo.next else items[k - 1].uid))
  {
    assert [] + items[..k] == items[..k];
  }

  /** The page's friends are the first k, with each prefix of them fitting and one more not. */
  ghost predicate Greedy(r: Reply, page: FriendPage, id: RequestId, after: int, fits: Reply -> bool) {
    var k := |r.friends|;
    && k <= |page.items| && r.friends == page.items[..k]
    && (forall j | 0 < j <= k :: fits(Listing(page.items, j, id, after)))
    && (k < |page.items| ==> !fits(Listing(page.items, k + 1, id, after)))
    && r.echo == Echo(id, after, if k == 0 then after else page.items[k - 1].uid)
    && r.error == (if k == 0 && page.items != [] then 1103 else 0)
    && (r.hasMore <==> r.error == 0 && (page.hasMore || k < |page.items|))
  }

  lemma PackIsGreedy(page: FriendPage, id: RequestId, after: int, fits: Reply -> bool)
    requires page.ok
    ensures Greedy(PageReply(page, id, after, fits), page, id, after, fits)
  {
    var k := Taken(Opening(SUCCESS, id, after), page.items, fits);
    PageOfTaken(page, id, after, fits);
    forall j | 0 < j <= k ensures fits(Listing(page.items, j, id, after)) {
      TakenListingFits(page.items, j, id, after, fits);
    }
    if k < |page.items| { NextListingDoesNot(page.items, k, id, after, fits); }
  }

  /** A page holds as many friends as fit: they are the first k the database gave, each prefix of
      them kept to 1800 bytes, and one more would not have. `has_more` is set exactly when friends
      are left, here or in the database. */
  lemma PageIsGreedy(page: FriendPage, id: RequestId, after: int, visible: int -> bool)
    requires page.ok
    ensures Greedy(PageReply(page, id, after, Fitting(visible)), page, id, after, r => Size(r, visible) <= 1800)
  {
    PackIsGreedy(page, id, after, Fitting(visible));
  }

  // ---- progress ----

  lemma {:induction false} BeyondMember(fs: seq<FriendInfo>, after: int, i: nat)
    requires i < |Beyond(fs, after)|
    ensures Beyond(fs, after)[i].uid > after
    ensures Beyond(fs, after)[i] in fs
  {
    if fs[0].uid > after {
      if i > 0 { BeyondMember(fs[1..], after, i - 1); }
    } else {
      BeyondMember(fs[1..], after, i);
    }
  }

  lemma {:induction false} BeyondShrinks(fs: seq<FriendInfo>, after: int, next: int)
    requires after <= next
    ensures |Beyond(fs, next)| <= |Beyond(fs, after)|
    ensures (exists f :: f in fs && after < f.uid <= next) ==> |Beyond(fs, next)| < |Beyond(fs, after)|
  {
    if fs != [] {
      BeyondShrinks(fs[1..], after, next);
      if exists f :: f in fs && after < f.uid <= next {
        var f :| f in fs && after < f.uid <= next;
        assert f == fs[0] || f in fs[1..];
      }
    }
  }

  /** `has_more` means the cursor has moved on, past friends already delivered: for every list
      and cursor, following it comes to an end. */
  lemma PageAdvances(fs: seq<FriendInfo>, after: int, id: RequestId, fits: Reply -> bool)
    ensures var reply := PageAt(fs, after, id, fits);
            && reply.echo.Echo?
            && (reply.hasMore ==> reply.echo.next > after && |Beyond(fs, reply.echo.next)| < |Beyond(fs, after)|)
  {
    var page := GetFriendPage(fs, after);
    var open := Opening(SUCCESS, id, after);
    PackTakes(open, page.items, page.hasMore, fits);
    var reply := PageAt(fs, after, id, fits);
    if reply.hasMore {
      var k := Taken(open, page.items, fits);
      assert k > 0 && reply.echo.next == page.items[k - 1].uid;
      BeyondMember(fs, after, k - 1);
      BeyondShrinks(fs, after, reply.echo.next);
    }
  }

  // ---- the refinement ----

  /** The cursor a client holds when it has collected the first i friends. */
  function Cursor(fs: seq<FriendInfo>, i: nat): int
    requires i <= |fs|
  {
    if i == 0 then 0 else fs[i - 1].uid
  }

  /** The i-th friend fits a reply of its own, asked for right after its predecessor. */
  predicate FitsAlone(fs: seq<FriendInfo>, i: nat, id: RequestId, fits: Reply -> bool)
    requires i < |fs|
  {
    fits(Grown(Opening(SUCCESS, id, Cursor(fs, i)), fs[i]))
  }

  /** The j-th friend fits behind friends i to j on one page. */
  predicate FitsBehind(fs: seq<FriendInfo>, i: nat, j: nat, id: RequestId, fits: Reply -> bool)
    requires i < j < |fs|
  {
    fits(Grown(GrownAll(Opening(SUCCESS, id, Cursor(fs, i)), fs[i..j]), fs[j]))
  }

  ghost predicate AloneIsEasier(fs: seq<FriendInfo>, id: RequestId, fits: Reply -> bool) {
    forall i, j | 0 <= i < j < |fs| && FitsBehind(fs, i, j, id, fits) :: FitsAlone(fs, j, id, fits)
  }

  lemma {:induction false} BeyondCursor(fs: seq<FriendInfo>, after: int, i: nat)
    requires i <= |fs|
    requires forall j | 0 <= j < i :: fs[j].uid <= after
    requires forall j | i <= j < |fs| :: fs[j].uid > after
    ensures Beyond(fs, after) == fs[i..]
  {
    if fs != [] {
      if i == 0 {
        BeyondCursor(fs[1..], after, 0);
        assert fs[0..] == [fs[0]] + fs[1..];
      } else {
        BeyondCursor(fs[1..], after, i - 1);
        assert fs[1..][i - 1..] == fs[i..];
      }
    }
  }

  /** Anything that fits behind other friends fits alone as well: it is they who weigh more
      than the few digits the cursor may gain. */
  lemma BehindFitsAlone(fs: seq<FriendInfo>, i: nat, j: nat, id: RequestId, visible: int -> bool)
    requires Listed(fs) && IsUuid(id.text) && i < j < |fs| && FitsBehind(fs, i, j, id, Fitting(visible))
    ensures FitsAlone(fs, j, id, Fitting(visible))
  {
    PagedSize(id, Cursor(fs, i), fs[i..j], fs[j], visible);
    PagedSize(id, Cursor(fs, j), [], fs[j], visible);
    IntLength(Cursor(fs, j));
    NonEmptyList(fs[i..j], visible);
  }

  /** The size of a page of some friends and one more. */
  lemma PagedSize(id: RequestId, after: int, before: seq<FriendInfo>, f: FriendInfo, visible: int -> bool)
    ensures Size(Grown(GrownAll(Opening(SUCCESS, id, after), before), f), visible)
         == 76 + |Decimal(after)| + |Decimal(SUCCESS)| + BoolSize(false) + |Decimal(f.uid)| + |Compact(Str(id.text))|
          + Printed(id.note)
          + ListSize(before, visible) + ItemSize(f, visible) + (if before == [] then 0 else 1)
    ensures ListSize([], visible) == 2
  {
    var paged := Grown(GrownAll(Opening(SUCCESS, id, after), before), f);
    EchoedSize(paged, visible);
    assert [] + before == before;
    ListSizeAppend(before, f, visible);
  }

  lemma NonEmptyList(fs: seq<FriendInfo>, visible: int -> bool)
    requires fs != []
    ensures ListSize(fs, visible) >= 22
  {
    var front, last := fs[..|fs| - 1], fs[|fs| - 1];
    assert fs == front + [last];
    ListSizeAppend(front, last, visible);
    ItemSizeAtLeast(last, visible);
    assert ListSize(front, visible) >= 2;
  }

  /** What the database hands over at position i. */
  function ItemsAt(fs: seq<FriendInfo>, i: nat): (items: seq<FriendInfo>)
    requires i <= |fs|
    ensures |items| <= |fs| - i
  {
    if |fs| - i > PAGE then fs[i..i + PAGE] else fs[i..]
  }

  lemma PageAtCursor(fs: seq<FriendInfo>, i: nat, id: RequestId, fits: Reply -> bool)
    requires Listed(fs) && i <= |fs|
    ensures PageAt(fs, Cursor(fs, i), id, fits)
         == Finish(Pack(Opening(SUCCESS, id, Cursor(fs, i)), ItemsAt(fs, i), |fs| - i > PAGE, fits))
  {
    BeyondCursor(fs, Cursor(fs, i), i);
    assert |fs| - i > PAGE ==> fs[i..][..PAGE] == fs[i..i + PAGE];
  }

  /** The database's page behind the i-th friend: the next ten, and whether there is an eleventh. */
  lemma DatabasePage(fs: seq<FriendInfo>, i: nat)
    requires Listed(fs) && i <= |fs|
    ensures var page := GetFriendPage(fs, if i == 0 then 0 else fs[i - 1].uid);
            && page.ok && (page.hasMore <==> |fs| - i > 10)
            && page.items == if |fs| - i > 10 then fs[i..i + 10] else fs[i..]
  {
    BeyondCursor(fs, Cursor(fs, i), i);
    assert |fs| - i > PAGE ==> fs[i..][..PAGE] == fs[i..i + PAGE];
  }

  lemma ItemsSlice(fs: seq<FriendInfo>, i: nat, n: nat)
    requires i <= |fs| && n <= |ItemsAt(fs, i)|
    ensures ItemsAt(fs, i)[..n] == fs[i..i + n] && (n < |ItemsAt(fs, i)| ==> ItemsAt(fs, i)[n] == fs[i + n])
  {
  }

  /** How far a page reaches from position i. */
  function Reach(fs: seq<FriendInfo>, i: nat, id: RequestId, fits: Reply -> bool): (j: nat)
    requires i <= |fs|
    ensures i <= j <= |fs|
  {
    i + Taken(Opening(SUCCESS, id, Cursor(fs, i)), ItemsAt(fs, i), fits)
  }

  lemma ReachedIsBehind(fs: seq<FriendInfo>, i: nat, k: nat, id: RequestId, fits: Reply -> bool)
    requires i < k < |fs| && k < Reach(fs, i, id, fits)
    ensures FitsBehind(fs, i, k, id, fits)
  {
    TakenFits(Opening(SUCCESS, id, Cursor(fs, i)), ItemsAt(fs, i), k - i, fits);
    ItemsSlice(fs, i, k - i);
  }

  lemma ReachStopsAtMisfit(fs: seq<FriendInfo>, i: nat, k: nat, id: RequestId, fits: Reply -> bool)
    requires i < k < |fs| && AloneIsEasier(fs, id, fits) && !FitsAlone(fs, k, id, fits)
    ensures Reach(fs, i, id, fits) <= k
  {
    if k < Reach(fs, i, id, fits) {
      ReachedIsBehind(fs, i, k, id, fits);
    }
  }

  /** The page asked for at position i, when item i fits: it delivers what it reaches and flags
      exactly what is left. */
  ghost predicate Delivered(fs: seq<FriendInfo>, i: nat, j: nat, id: RequestId, reply: Reply)
    requires i <= |fs|
  {
    && i < j <= |fs| && reply.error == SUCCESS && reply.friends == fs[i..j]
    && reply.echo == Echo(id, Cursor(fs, i), Cursor(fs, j)) && (reply.hasMore <==> j < |fs|)
  }

  lemma PageDelivers(fs: seq<FriendInfo>, i: nat, id: RequestId, fits: Reply -> bool) returns (reply: Reply)
    requires Listed(fs) && i < |fs| && FitsAlone(fs, i, id, fits)
    ensures reply == PageAt(fs, Cursor(fs, i), id, fits)
    ensures Delivered(fs, i, Reach(fs, i, id, fits), id, reply)
  {
    var packed := PageIs(fs, i, id, fits);
    FinishDelivers(fs, i, |packed.0.friends|, id, packed);
    reply := Finish(packed);
  }

  lemma PageIs(fs: seq<FriendInfo>, i: nat, id: RequestId, fits: Reply -> bool) returns (packed: (Reply, bool))
    requires Listed(fs) && i < |fs| && FitsAlone(fs, i, id, fits)
    ensures var j := Reach(fs, i, id, fits);
            && i < j <= i + |ItemsAt(fs, i)| && |packed.0.friends| == j - i
            && packed.0 == Reply(SUCCESS, fs[i..j], false, Echo(id, Cursor(fs, i), Cursor(fs, j)))
            && (packed.1 <==> j - i < |ItemsAt(fs, i)| || |fs| - i > PAGE)
    ensures PageAt(fs, Cursor(fs, i), id, fits) == Finish(packed)
  {
    packed := Pack(Opening(SUCCESS, id, Cursor(fs, i)), ItemsAt(fs, i), |fs| - i > PAGE, fits);
    PagePacks(fs, i, id, fits);
    PageAtCursor(fs, i, id, fits);
  }

  lemma PagePacks(fs: seq<FriendInfo>, i: nat, id: RequestId, fits: Reply -> bool)
    requires i < |fs| && FitsAlone(fs, i, id, fits)
    ensures var j, more := Reach(fs, i, id, fits), |fs| - i > PAGE;
            && i < j <= i + |ItemsAt(fs, i)|
            && Pack(Opening(SUCCESS, id, Cursor(fs, i)), ItemsAt(fs, i), more, fits)
               == (Reply(SUCCESS, fs[i..j], false, Echo(id, Cursor(fs, i), Cursor(fs, j))),
                   j - i < |ItemsAt(fs, i)| || more)
  {
    var items, open, more := ItemsAt(fs, i), Opening(SUCCESS, id, Cursor(fs, i)), |fs| - i > PAGE;
    PackTakes(open, items, more, fits);
    FirstTaken(open, items, fits);
    DeliveredSlice(fs, i, Taken(open, items, fits), open);
  }

  lemma FinishDelivers(fs: seq<FriendInfo>, i: nat, n: nat, id: RequestId, packed: (Reply, bool))
    requires i < |fs| && 0 < n <= |ItemsAt(fs, i)|
    requires packed.0 == Reply(SUCCESS, fs[i..i + n], false, Echo(id, Cursor(fs, i), Cursor(fs, i + n)))
    requires packed.1 <==> n < |ItemsAt(fs, i)| || |fs| - i > PAGE
    ensures Delivered(fs, i, i + n, id, Finish(packed))
  {
  }

  lemma FirstTaken(r: Reply, items: seq<FriendInfo>, fits: Reply -> bool)
    requires r.echo.Echo? && items != [] && fits(Grown(r, items[0]))
    ensures Taken(r, items, fits) > 0
  {
  }

  lemma DeliveredSlice(fs: seq<FriendInfo>, i: nat, n: nat, open: Reply)
    requires i < |fs| && 0 < n <= |ItemsAt(fs, i)| && open.echo.Echo? && open.friends == []
    ensures GrownAll(open, ItemsAt(fs, i)[..n])
         == open.(friends := fs[i..i + n], echo := open.echo.(next := Cursor(fs, i + n)))
    ensures n == |ItemsAt(fs, i)| ==> ItemsAt(fs, i)[..n] == ItemsAt(fs, i)
  {
    ItemsSlice(fs, i, n);
    assert [] + fs[i..i + n] == fs[i..i + n];
  }

  lemma PageOfMisfit(fs: seq<FriendInfo>, i: nat, id: RequestId, fits: Reply -> bool)
    requires Listed(fs) && i <= |fs| && (i < |fs| ==> !FitsAlone(fs, i, id, fits))
    ensures Scan(fs, Cursor(fs, i), id, fits) == ([], i == |fs|)
  {
    BeyondCursor(fs, Cursor(fs, i), i);
    if i < |fs| {
      assert GetFriendPage(fs, Cursor(fs, i)).items[0] == fs[i];
    }
  }

  /** One page of the scan. */
  lemma ScanOnce(fs: seq<FriendInfo>, after: int, id: RequestId, fits: Reply -> bool, reply: Reply)
    requires reply == PageAt(fs, after, id, fits) && reply.error == SUCCESS && reply.echo.Echo?
    ensures !reply.hasMore ==> Scan(fs, after, id, fits) == (reply.friends, true)
    ensures reply.hasMore ==>
              var rest := Scan(fs, reply.echo.next, id, fits);
              Scan(fs, after, id, fits) == (reply.friends + rest.0, rest.1)
  {
  }

  lemma Collected(fs: seq<FriendInfo>, i: nat, j: nat, k: nat, id: RequestId, reply: Reply,
                  here: (seq<FriendInfo>, bool), rest: (seq<FriendInfo>, bool))
    requires i < j <= k <= |fs| && Delivered(fs, i, j, id, reply)
    requires here == if reply.hasMore then (reply.friends + rest.0, rest.1) else (reply.friends, true)
    requires j < |fs| ==> rest == (fs[j..k], k == |fs|)
    ensures here == (fs[i..k], k == |fs|)
  {
    assert fs[i..j] + fs[j..k] == fs[i..k];
  }

  /** A delivered page and what the client collects behind it. */
  lemma ScanBehind(fs: seq<FriendInfo>, i: nat, j: nat, k: nat, id: RequestId, fits: Reply -> bool, reply: Reply)
    requires i < j <= k <= |fs| && Delivered(fs, i, j, id, reply) && reply == PageAt(fs, Cursor(fs, i), id, fits)
    requires j < |fs| ==> Scan(fs, Cursor(fs, j), id, fits) == (fs[j..k], k == |fs|)
    ensures Scan(fs, Cursor(fs, i), id, fits) == (fs[i..k], k == |fs|)
  {
    ScanOnce(fs, Cursor(fs, i), id, fits, reply);
    Collected(fs, i, j, k, id, reply, Scan(fs, Cursor(fs, i), id, fits), Scan(fs, reply.echo.next, id, fits));
  }

  /** From position i on, the client collects everything up to the first misfit k. */
  lemma {:induction false} ScanFrom(fs: seq<FriendInfo>, i: nat, k: nat, id: RequestId, fits: Reply -> bool)
    requires Listed(fs) && AloneIsEasier(fs, id, fits) && i <= k <= |fs|
    requires forall j | i <= j < k :: FitsAlone(fs, j, id, fits)
    requires k < |fs| ==> !FitsAlone(fs, k, id, fits)
    ensures Scan(fs, Cursor(fs, i), id, fits) == (fs[i..k], k == |fs|)
    decreases k - i
  {
    if i == k {
      PageOfMisfit(fs, i, id, fits);
      assert fs[i..k] == [];
    } else {
      var reply := PageDelivers(fs, i, id, fits);
      var j := Reach(fs, i, id, fits);
      if k < |fs| { ReachStopsAtMisfit(fs, i, k, id, fits); }
      if j < |fs| { ScanFrom(fs, j, k, id, fits); }
      ScanBehind(fs, i, j, k, id, fits, reply);
    }
  }

  lemma PackerAloneIsEasier(fs: seq<FriendInfo>, id: RequestId, visible: int -> bool)
    requires Listed(fs) && IsUuid(id.text)
    ensures AloneIsEasier(fs, id, Fitting(visible))
  {
    forall i, j | 0 <= i < j < |fs| && FitsBehind(fs, i, j, id, Fitting(visible))
      ensures FitsAlone(fs, j, id, Fitting(visible))
    {
      BehindFitsAlone(fs, i, j, id, visible);
    }
  }

  /** Paging refines the full scan: for every friend list, the client that starts at 0 ends
      with exactly the list, in order and without an error, if and only if each friend fits a
      reply alone, asked for right after its predecessor. */
  lemma PagingIsFullScan(fs: seq<FriendInfo>, id: RequestId, visible: int -> bool)
    requires Listed(fs) && IsUuid(id.text)
    ensures Scan(fs, 0, id, Fitting(visible)) == (fs, true)
        <==> (forall i | 0 <= i < |fs| :: FitsAlone(fs, i, id, Fitting(visible)))
  {
    PackerAloneIsEasier(fs, id, visible);
    var k := FirstMisfit(fs, id, Fitting(visible));
    ScanFrom(fs, 0, k, id, Fitting(visible));
    assert fs[0..|fs|] == fs;
  }

  /** And otherwise it gets every friend before the first that does not fit, and an error. */
  lemma PagingStopsAtMisfit(fs: seq<FriendInfo>, k: nat, id: RequestId, visible: int -> bool)
    requires Listed(fs) && IsUuid(id.text) && k < |fs| && !FitsAlone(fs, k, id, Fitting(visible))
    requires forall i | 0 <= i < k :: FitsAlone(fs, i, id, Fitting(visible))
    ensures Scan(fs, 0, id, Fitting(visible)) == (fs[..k], false)
  {
    PackerAloneIsEasier(fs, id, visible);
    ScanFrom(fs, 0, k, id, Fitting(visible));
  }

  /** Such a friend can exist: an icon that takes up the body limit by itself does it. */
  lemma LargeIconIsMisfit(fs: seq<FriendInfo>, i: nat, id: RequestId, visible: int -> bool)
    requires i < |fs| && visible(fs[i].uid) && Plain(fs[i].icon) && |fs[i].icon| >= BODY_LIMIT
    ensures !FitsAlone(fs, i, id, Fitting(visible))
  {
    var alone := Grown(Opening(SUCCESS, id, Cursor(fs, i)), fs[i]);
    EchoedSize(alone, visible);
    assert alone.friends == [] + [fs[i]];
    ListSizeAppend([], fs[i], visible);
    PlainText(fs[i].icon);
    SecondMember(ItemJson(fs[i], visible).members);
  }

  lemma SecondMember(ms: Members)
    requires ms.Member? && ms.rest.Member?
    ensures |Compact(Obj(ms))| >= |Compact(ms.rest.value)|
  {
    assert |CompactMembers(ms)| >= |CompactMembers(ms.rest)| >= |Compact(ms.rest.value)|;
  }

  // ---- the scan through the handler ----

  /** The client's request for the page behind a cursor. */
  function Asking(id: string, after: int): Json {
    Obj(Member("after_uid", Int(after), Member("request_id", Str(id), End)))
  }

  /** The handler's answer, as the client reads it. */
  function Answer(fs: seq<FriendInfo>, uid: int, id: string, after: int, visible: int -> bool): Json {
    var request := Asking(id, after);
    ToJson(ReplyTo(|Compact(request)|, request, NO_NOTE, uid, GetFriendPage(fs, after), visible), visible)
  }

  /** The client: it asks behind a cursor, keeps the entries of the answer, and goes on behind
      `next_uid` while there is no error and `has_more` is set. */
  function Collect(fs: seq<FriendInfo>, uid: int, id: string, after: int, visible: int -> bool): (seq<Json>, bool)
    decreases |Beyond(fs, after)|
  {
    var answer := Answer(fs, uid, id, after, visible);
    AnswerSays(fs, uid, id, after, visible);
    var entries := Get(answer, "friend_list").items;
    if Get(answer, "error") != Int(0) then (entries, false)
    else if Get(answer, "has_more") != Bool(true) then (entries, true)
    else
      var rest := Collect(fs, uid, id, Get(answer, "next_uid").num, visible);
      (entries + rest.0, rest.1)
  }

  lemma AskingIsGood(id: string, after: int)
    requires IsUuid(id) && IsInt(after)
    ensures GoodRequest(|Compact(Asking(id, after))|, Asking(id, after))
    ensures Get(Asking(id, after), "request_id") == Str(id) && Get(Asking(id, after), "after_uid") == Int(after)
  {
    AskingReads(id, after);
    PlainReplyNames();
    Sized("request_id", Str(id), End);
    Sized("after_uid", Int(after), Member("request_id", Str(id), End));
    ObjectSize(Asking(id, after).members);
    UuidLength(id);
    SignedLength(after);
  }

  lemma AskingReads(id: string, after: int)
    ensures Get(Asking(id, after), "request_id") == Str(id) && Get(Asking(id, after), "after_uid") == Int(after)
  {
    assert |"after_uid"| != |"request_id"|;
    assert Lookup(Member("request_id", Str(id), End), "request_id") == Str(id);
  }

  /** An answer is an error, or the page itself. */
  lemma AnswerSays(fs: seq<FriendInfo>, uid: int, id: string, after: int, visible: int -> bool)
    ensures var answer := Answer(fs, uid, id, after, visible);
            && Get(answer, "friend_list").Arr?
            && (Get(answer, "error") == Int(0) && Get(answer, "has_more") == Bool(true) ==>
                  && Get(answer, "next_uid").Int? && Get(answer, "next_uid").num > after
                  && |Beyond(fs, Get(answer, "next_uid").num)| < |Beyond(fs, after)|)
  {
    var request := Asking(id, after);
    AskingReads(id, after);
    PageAdvances(fs, after, RequestId(id, NO_NOTE), Fitting(visible));
    ReplySays(ReplyTo(|Compact(request)|, request, NO_NOTE, uid, GetFriendPage(fs, after), visible), visible);
  }

  lemma {:induction false} ItemsJoin(fs: seq<FriendInfo>, gs: seq<FriendInfo>, visible: int -> bool)
    ensures ItemsJson(fs + gs, visible) == ItemsJson(fs, visible) + ItemsJson(gs, visible)
  {
    ItemsAre(fs, visible);
    ItemsAre(gs, visible);
    ItemsAre(fs + gs, visible);
  }

  /** A good request behind a cursor of the list is answered with the page behind it. */
  lemma AnswerIsPage(fs: seq<FriendInfo>, uid: int, id: string, after: int, visible: int -> bool)
    requires uid > 0 && IsUuid(id) && 0 <= after <= INT_MAX
    ensures Answer(fs, uid, id, after, visible)
         == ToJson(PageAt(fs, after, RequestId(id, NO_NOTE), Fitting(visible)), visible)
  {
    AskingIsGood(id, after);
  }

  lemma {:induction false} CollectIsScan(fs: seq<FriendInfo>, uid: int, id: string, after: int, visible: int -> bool)
    requires Listed(fs) && uid > 0 && IsUuid(id) && 0 <= after <= INT_MAX
    ensures var scan := Scan(fs, after, RequestId(id, NO_NOTE), Fitting(visible));
            Collect(fs, uid, id, after, visible) == (ItemsJson(scan.0, visible), scan.1)
    decreases |Beyond(fs, after)|
  {
    var rid := RequestId(id, NO_NOTE);
    var reply := PageAt(fs, after, rid, Fitting(visible));
    AnswerIsPage(fs, uid, id, after, visible);
    ReplySays(reply, visible);
    ItemsAre(reply.friends, visible);
    assert Get(ToJson(reply, visible), "friend_list").items == ItemsJson(reply.friends, visible);
    if reply.error == SUCCESS && reply.hasMore {
      PageAdvances(fs, after, rid, Fitting(visible));
      NextIsCursor(fs, after, rid, Fitting(visible));
      CollectIsScan(fs, uid, id, reply.echo.next, visible);
      ItemsJoin(reply.friends, Scan(fs, reply.echo.next, rid, Fitting(visible)).0, visible);
    }
  }

  lemma NextIsCursor(fs: seq<FriendInfo>, after: int, id: RequestId, fits: Reply -> bool)
    requires Listed(fs) && PageAt(fs, after, id, fits).hasMore
    ensures PageAt(fs, after, id, fits).echo.Echo? && 0 < PageAt(fs, after, id, fits).echo.next <= INT_MAX
  {
    var page := GetFriendPage(fs, after);
    var open := Opening(SUCCESS, id, after);
    PackTakes(open, page.items, page.hasMore, fits);
    var k := Taken(open, page.items, fits);
    BeyondMember(fs, after, k - 1);
  }

  /** The friend's entry and the two cursors beside it leave room for the rest of a reply. */
  predicate HasRoom(fs: seq<FriendInfo>, i: nat, visible: int -> bool)
    requires i < |fs|
  {
    ItemSize(fs[i], visible) + |Decimal(if i == 0 then 0 else fs[i - 1].uid)| + |Decimal(fs[i].uid)| <= 1678
  }

  lemma AloneMeans(fs: seq<FriendInfo>, i: nat, id: string, visible: int -> bool)
    requires i < |fs| && IsUuid(id)
    ensures FitsAlone(fs, i, RequestId(id, NO_NOTE), Fitting(visible)) <==> HasRoom(fs, i, visible)
  {
    PagedSize(RequestId(id, NO_NOTE), Cursor(fs, i), [], fs[i], visible);
    UuidLength(id);
  }

  /** The whole scan, request by request through the handler: the client that starts at 0 and
      follows `next_uid` gets the entries of the friends before the first without room, in order,
      and ends without an error exactly when that is everybody. */
  lemma ClientGets(fs: seq<FriendInfo>, uid: int, id: string, k: nat, visible: int -> bool)
    requires Listed(fs) && uid > 0 && IsUuid(id) && k <= |fs|
    requires (forall i | 0 <= i < k :: HasRoom(fs, i, visible)) && (k < |fs| ==> !HasRoom(fs, k, visible))
    ensures Collect(fs, uid, id, 0, visible) == (ItemsJson(fs[..k], visible), k == |fs|)
  {
    var rid, fits := RequestId(id, NO_NOTE), Fitting(visible);
    forall i | 0 <= i < |fs| ensures FitsAlone(fs, i, rid, fits) <==> HasRoom(fs, i, visible) {
      AloneMeans(fs, i, id, visible);
    }
    PackerAloneIsEasier(fs, rid, visible);
    ScanFrom(fs, 0, k, rid, fits);
    CollectIsScan(fs, uid, id, 0, visible);
  }

  /** So it gets exactly the list, without an error, if and only if each friend has room. */
  lemma ClientGetsAll(fs: seq<FriendInfo>, uid: int, id: string, visible: int -> bool)
    requires Listed(fs) && uid > 0 && IsUuid(id)
    ensures Collect(fs, uid, id, 0, visible) == (ItemsJson(fs, visible), true)
        <==> (forall i | 0 <= i < |fs| :: HasRoom(fs, i, visible))
  {
    var k := 0;
    while k < |fs| && HasRoom(fs, k, visible)
      invariant k <= |fs| && forall i | 0 <= i < k :: HasRoom(fs, i, visible)
    {
      k := k + 1;
    }
    ClientGets(fs, uid, id, k, visible);
    assert fs[..|fs|] == fs;
  }

  /** One friend whose icon is 500 characters of four bytes each, within the 512 characters of
      its column: the client gets nothing but an error, and so never gets past this friend. */
  lemma LargeIconStopsPaging(uid: int, id: string, visible: int -> bool)
    requires uid > 0 && IsUuid(id) && visible(7)
    ensures var icon := seq(2000, k => if k % 4 == 0 then '\U{F0}' else '\U{9F}');
            var fs := [FriendInfo(7, "ann", "", icon, "", 0)];
            Listed(fs) && Collect(fs, uid, id, 0, visible) == ([], false)
  {
    var icon := seq(2000, k => if k % 4 == 0 then '\U{F0}' else '\U{9F}');
    var fs := [FriendInfo(7, "ann", "", icon, "", 0)];
    assert Plain(icon);
    LargeIconIsMisfit(fs, 0, RequestId(id, NO_NOTE), visible);
    AloneMeans(fs, 0, id, visible);
    ClientGets(fs, uid, id, 0, visible);
  }

  lemma FirstMisfit(fs: seq<FriendInfo>, id: RequestId, fits: Reply -> bool) returns (k: nat)
    ensures k <= |fs| && (forall i | 0 <= i < k :: FitsAlone(fs, i, id, fits))
    ensures k < |fs| ==> !FitsAlone(fs, k, id, fits)
  {
    k := 0;
    while k < |fs| && FitsAlone(fs, k, id, fits)
      invariant k <= |fs| && forall i | 0 <= i < k :: FitsAlone(fs, i, id, fits)
    {
      k := k + 1;
    }
  }
}
