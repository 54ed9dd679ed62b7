/** Wallet histories (src/RPC.h, `getTransfers` in src/RPC.cpp) and the search
    for new transactions (`processNewTransactions` in src/RPCManager.cpp).

    Histories are multisets ordered by block height alone, newest first, and
    items of one height stay in the order the wallet listed them. */
module Transfers {
  import opened Numbers
  import opened Sets
  import opened Wrappers

  datatype TransferItem = TransferItem(txHash: string, amount: nat, paymentId: nat, blockHeight: nat)

  /** One entry as the wallet lists it: the amount may be missing. */
  datatype RpcEntry = RpcEntry(txid: string, amount: Option<nat>, paymentId: nat, height: nat)

  /** The order of the multiset, and of `set_difference`. */
  predicate Precedes(a: TransferItem, b: TransferItem) {
    a.blockHeight > b.blockHeight
  }

  ghost predicate Sorted(s: seq<TransferItem>) {
    forall i, j :: 0 <= i < j < |s| ==> s[i].blockHeight >= s[j].blockHeight
  }

  /** The items of one height, in order. */
  ghost function AtHeight(s: seq<TransferItem>, h: nat): (r: seq<TransferItem>)
    ensures forall i :: 0 <= i < |r| ==> r[i].blockHeight == h
  {
    if s == [] then [] else (if s[0].blockHeight == h then [s[0]] else []) + AtHeight(s[1..], h)
  }

  // ------------------------------------------------ building a history

  /** `std::multiset::insert`: after every item that does not come later. */
  function Insert(s: seq<TransferItem>, x: TransferItem): seq<TransferItem> {
    if s == [] || Precedes(x, s[0]) then [x] + s else [s[0]] + Insert(s[1..], x)
  }

  function FromEntry(e: RpcEntry): TransferItem {
    TransferItem(e.txid, if e.amount.Some? then e.amount.value else 0, e.paymentId, e.height)
  }

  /** The history in the order the wallet listed it. */
  function Listed(entries: seq<RpcEntry>): seq<TransferItem> {
    seq(|entries|, i requires 0 <= i < |entries| => FromEntry(entries[i]))
  }

  /** The multiset after inserting a list from left to right. */
  function Ordered(list: seq<TransferItem>): seq<TransferItem> {
    if list == [] then [] else Insert(Ordered(list[..|list| - 1]), list[|list| - 1])
  }

  lemma {:induction false} InsertSorted(s: seq<TransferItem>, x: TransferItem)
    requires Sorted(s)
    ensures Sorted(Insert(s, x))
    ensures forall i :: 0 <= i < |Insert(s, x)| ==>
              Insert(s, x)[i].blockHeight <= x.blockHeight ||
              (s != [] && Insert(s, x)[i].blockHeight <= s[0].blockHeight)
  {
    if s != [] && !Precedes(x, s[0]) {
      InsertSorted(s[1..], x);
    }
  }

  lemma {:induction false} OrderedIsSorted(list: seq<TransferItem>)
    ensures Sorted(Ordered(list))
  {
    if list != [] {
      OrderedIsSorted(list[..|list| - 1]);
      InsertSorted(Ordered(list[..|list| - 1]), list[|list| - 1]);
    }
  }

  lemma {:induction false} AtHeightAppend(a: seq<TransferItem>, b: seq<TransferItem>, h: nat)
    ensures AtHeight(a + b, h) == AtHeight(a, h) + AtHeight(b, h)
  {
    if a == [] {
      assert a + b == b;
    } else {
      assert (a + b)[1..] == a[1..] + b;
      AtHeightAppend(a[1..], b, h);
    }
  }

  lemma {:induction false} NoneBelow(s: seq<TransferItem>, h: nat)
    requires forall i :: 0 <= i < |s| ==> s[i].blockHeight < h
    ensures AtHeight(s, h) == []
  {
    if s != [] {
      NoneBelow(s[1..], h);
    }
  }

  lemma {:induction false} InsertAtHeight(s: seq<TransferItem>, x: TransferItem, h: nat)
    requires Sorted(s)
    ensures AtHeight(Insert(s, x), h) == AtHeight(s, h) + if x.blockHeight == h then [x] else []
  {
    if s == [] {
      assert [x][1..] == [];
    } else if Precedes(x, s[0]) {
      InsertInFront(s, x, h);
    } else {
      InsertAtHeight(s[1..], x, h);
      InsertBehind(s, x, h);
    }
  }

  lemma InsertInFront(s: seq<TransferItem>, x: TransferItem, h: nat)
    requires Sorted(s) && s != [] && Precedes(x, s[0])
    ensures AtHeight([x] + s, h) == AtHeight(s, h) + if x.blockHeight == h then [x] else []
  {
    if x.blockHeight == h {
      NoneBelow(s, h);
    }
    hide AtHeight, Sorted;
    ConsAtHeight(x, s, h);
  }

  lemma InsertBehind(s: seq<TransferItem>, x: TransferItem, h: nat)
    requires s != [] && !Precedes(x, s[0])
    requires AtHeight(Insert(s[1..], x), h) == AtHeight(s[1..], h) + if x.blockHeight == h then [x] else []
    ensures AtHeight(Insert(s, x), h) == AtHeight(s, h) + if x.blockHeight == h then [x] else []
  {
    assert s == [s[0]] + s[1..];
    hide AtHeight;
    ConsAtHeight(s[0], Insert(s[1..], x), h);
    ConsAtHeight(s[0], s[1..], h);
  }

  lemma ConsAtHeight(x: TransferItem, s: seq<TransferItem>, h: nat)
    ensures AtHeight([x] + s, h) == (if x.blockHeight == h then [x] else []) + AtHeight(s, h)
  {
    assert ([x] + s)[1..] == s;
  }

  /** Ordering by height keeps the listed order within each height. */
  lemma {:induction false} OrderedIsStable(list: seq<TransferItem>, h: nat)
    ensures AtHeight(Ordered(list), h) == AtHeight(list, h)
  {
    if list != [] {
      var init, last := list[..|list| - 1], list[|list| - 1];
      OrderedIsStable(init, h);
      OrderedIsSorted(init);
      InsertAtHeight(Ordered(init), last, h);
      AtHeightAppend(init, [last], h);
      assert list == init + [last] && [last][1..] == [];
    }
  }

  // ------------------------------------------------ the difference of two histories

  /** `std::set_difference` under the order of heights. */
  function SetDifference(a: seq<TransferItem>, b: seq<TransferItem>): seq<TransferItem>
    decreases |a| + |b|
  {
    if a == [] || b == [] then a
    else if Precedes(a[0], b[0]) then [a[0]] + SetDifference(a[1..], b)
    else if Precedes(b[0], a[0]) then SetDifference(a, b[1..])
    else SetDifference(a[1..], b[1..])
  }

  ghost function DropAt(a: seq<TransferItem>, b: seq<TransferItem>, h: nat): seq<TransferItem> {
    AtHeight(a, h)[Min(|AtHeight(b, h)|, |AtHeight(a, h)|)..]
  }

  /** At each height the difference drops as many items as the old history has
      there, whatever those items are. */
  lemma {:induction false} DifferenceAtHeight(a: seq<TransferItem>, b: seq<TransferItem>, h: nat)
    requires Sorted(a) && Sorted(b)
    ensures AtHeight(SetDifference(a, b), h) == DropAt(a, b, h)
    decreases |a| + |b|
  {
    if a == [] || b == [] {
    } else if Precedes(a[0], b[0]) {
      DifferenceAtHeight(a[1..], b, h);
      hide AtHeight, Sorted, DropAt;
      KeptAtHeight(a, b, h);
    } else if Precedes(b[0], a[0]) {
      DifferenceAtHeight(a, b[1..], h);
      hide AtHeight, Sorted, Precedes, DropAt;
      PassedAtHeight(a, b, h);
    } else {
      DifferenceAtHeight(a[1..], b[1..], h);
      hide AtHeight, Sorted, DropAt;
      MetAtHeight(a, b, h);
    }
  }

  lemma MetAtHeight(a: seq<TransferItem>, b: seq<TransferItem>, h: nat)
    requires a != [] && b != [] && a[0].blockHeight == b[0].blockHeight
    ensures DropAt(a, b, h) == DropAt(a[1..], b[1..], h)
  {
    assert a == [a[0]] + a[1..] && b == [b[0]] + b[1..];
    hide AtHeight;
    ConsAtHeight(a[0], a[1..], h);
    ConsAtHeight(b[0], b[1..], h);
  }

  lemma KeptAtHeight(a: seq<TransferItem>, b: seq<TransferItem>, h: nat)
    requires Sorted(a) && Sorted(b) && a != [] && b != [] && Precedes(a[0], b[0])
    ensures DropAt(a, b, h) == (if a[0].blockHeight == h then [a[0]] else []) + DropAt(a[1..], b, h)
    ensures AtHeight([a[0]] + SetDifference(a[1..], b), h) ==
            (if a[0].blockHeight == h then [a[0]] else []) + AtHeight(SetDifference(a[1..], b), h)
  {
    hide SetDifference;
    assert ([a[0]] + SetDifference(a[1..], b))[1..] == SetDifference(a[1..], b);
    if a[0].blockHeight == h {
      NoneBelow(b, h);
    }
  }

  lemma PassedAtHeight(a: seq<TransferItem>, b: seq<TransferItem>, h: nat)
    requires Sorted(a) && Sorted(b) && a != [] && b != [] && Precedes(b[0], a[0])
    ensures DropAt(a, b[1..], h) == DropAt(a, b, h)
  {
    if b[0].blockHeight == h {
      NoneBelow(a, h);
    }
  }

  lemma {:induction false} DifferenceSorted(a: seq<TransferItem>, b: seq<TransferItem>)
    requires Sorted(a) && Sorted(b)
    ensures Sorted(SetDifference(a, b))
    ensures a != [] ==> forall i :: 0 <= i < |SetDifference(a, b)| ==>
                          SetDifference(a, b)[i].blockHeight <= a[0].blockHeight
    ensures a == [] ==> SetDifference(a, b) == []
    decreases |a| + |b|
  {
    if a == [] || b == [] {
    } else if Precedes(a[0], b[0]) {
      DifferenceSorted(a[1..], b);
    } else if Precedes(b[0], a[0]) {
      DifferenceSorted(a, b[1..]);
    } else {
      DifferenceSorted(a[1..], b[1..]);
    }
  }

  lemma TailAtHeight(s: seq<TransferItem>, h: nat)
    requires s != []
    ensures s[0].blockHeight == h ==> AtHeight(s, h) != [] && AtHeight(s, h)[0] == s[0]
    ensures AtHeight(s[1..], h) == if s[0].blockHeight == h then AtHeight(s, h)[1..] else AtHeight(s, h)
  {
  }

  lemma HeadIsNewest(a: seq<TransferItem>, b: seq<TransferItem>)
    requires a != [] && Sorted(b)
    requires AtHeight(a, a[0].blockHeight) == AtHeight(b, a[0].blockHeight)
    ensures b != [] && b[0].blockHeight >= a[0].blockHeight
  {
    TailAtHeight(a, a[0].blockHeight);
    if b == [] || b[0].blockHeight < a[0].blockHeight {
      NoneBelow(b, a[0].blockHeight);
    }
  }

  /** A history in order is determined by its items at each height. */
  lemma {:induction false} SortedDetermined(a: seq<TransferItem>, b: seq<TransferItem>)
    requires Sorted(a) && Sorted(b)
    requires forall h: nat :: AtHeight(a, h) == AtHeight(b, h)
    ensures a == b
  {
    if a != [] {
      HeadIsNewest(a, b);
    }
    if b != [] {
      HeadIsNewest(b, a);
      forall k: nat ensures AtHeight(a[1..], k) == AtHeight(b[1..], k) {
        TailAtHeight(a, k);
        TailAtHeight(b, k);
      }
      TailAtHeight(a, a[0].blockHeight);
      TailAtHeight(b, a[0].blockHeight);
      SortedDetermined(a[1..], b[1..]);
    }
  }

  // ------------------------------------------------ exactness of the search

  /** The new history lists, at every height, the old items and then more. */
  ghost predicate Extends(now: seq<TransferItem>, was: seq<TransferItem>, added: seq<TransferItem>) {
    forall h: nat :: AtHeight(now, h) == AtHeight(was, h) + AtHeight(added, h)
  }

  /** What one poll reports, given what the wallet listed before and lists now. */
  function Reported(now: seq<TransferItem>, was: seq<TransferItem>): seq<TransferItem> {
    SetDifference(Ordered(now), Ordered(was))
  }

  /** If items are only ever appended within their height, a poll reports
      exactly the added items, newest first. */
  lemma PollReportsExactlyTheAdded(now: seq<TransferItem>, was: seq<TransferItem>, added: seq<TransferItem>)
    requires Extends(now, was, added)
    ensures Reported(now, was) == Ordered(added)
  {
    OrderedIsSorted(now);
    OrderedIsSorted(was);
    OrderedIsSorted(added);
    DifferenceSorted(Ordered(now), Ordered(was));
    forall h: nat ensures AtHeight(Reported(now, was), h) == AtHeight(Ordered(added), h) {
      DifferenceAtHeight(Ordered(now), Ordered(was), h);
      OrderedIsStable(now, h);
      OrderedIsStable(was, h);
      OrderedIsStable(added, h);
      assert AtHeight(now, h) == AtHeight(was, h) + AtHeight(added, h);
    }
    SortedDetermined(Reported(now, was), Ordered(added));
  }

  lemma {:induction false} CountAtHeight(s: seq<TransferItem>, x: TransferItem)
    ensures multiset(AtHeight(s, x.blockHeight))[x] == multiset(s)[x]
  {
    if s != [] {
      var head := if s[0].blockHeight == x.blockHeight then [s[0]] else [];
      CountAtHeight(s[1..], x);
      assert s == [s[0]] + s[1..];
      assert multiset(head + AtHeight(s[1..], x.blockHeight)) ==
             multiset(head) + multiset(AtHeight(s[1..], x.blockHeight));
      assert multiset(s) == multiset([s[0]]) + multiset(s[1..]);
    }
  }

  lemma CountOtherHeight(s: seq<TransferItem>, h: nat, x: TransferItem)
    requires x.blockHeight != h
    ensures multiset(AtHeight(s, h))[x] == 0
  {
    assert x !in AtHeight(s, h);
  }

  lemma {:induction false} OrderedSameItems(list: seq<TransferItem>)
    ensures multiset(Ordered(list)) == multiset(list)
  {
    forall x: TransferItem ensures multiset(Ordered(list))[x] == multiset(list)[x] {
      CountAtHeight(Ordered(list), x);
      CountAtHeight(list, x);
      OrderedIsStable(list, x.blockHeight);
    }
  }

  /** A poll is exact when it reports the items that are now listed and were not before. */
  ghost predicate Exact(now: seq<TransferItem>, was: seq<TransferItem>) {
    multiset(Reported(now, was)) == multiset(now) - multiset(was)
  }

  /** Within every height the old items are still listed first, in whatever order. */
  ghost predicate OldItemsFirst(now: seq<TransferItem>, was: seq<TransferItem>) {
    forall h: nat :: |AtHeight(was, h)| <= |AtHeight(now, h)| &&
                     multiset(AtHeight(now, h)[..|AtHeight(was, h)|]) == multiset(AtHeight(was, h))
  }

  lemma ReportedCount(now: seq<TransferItem>, was: seq<TransferItem>, x: TransferItem)
    ensures multiset(Reported(now, was))[x] == multiset(DropAt(now, was, x.blockHeight))[x]
  {
    var h := x.blockHeight;
    CountAtHeight(Reported(now, was), x);
    OrderedIsSorted(now);
    OrderedIsSorted(was);
    DifferenceAtHeight(Ordered(now), Ordered(was), h);
    OrderedIsStable(now, h);
    OrderedIsStable(was, h);
  }

  lemma SplitCount(s: seq<TransferItem>, m: nat, x: TransferItem)
    requires m <= |s|
    ensures multiset(s)[x] == multiset(s[..m])[x] + multiset(s[m..])[x]
  {
    assert s == s[..m] + s[m..];
  }

  lemma {:induction false} SubsetAtHeight(now: seq<TransferItem>, was: seq<TransferItem>, h: nat)
    requires multiset(was) <= multiset(now)
    ensures multiset(AtHeight(was, h)) <= multiset(AtHeight(now, h))
    ensures |AtHeight(was, h)| <= |AtHeight(now, h)|
  {
    forall x: TransferItem ensures multiset(AtHeight(was, h))[x] <= multiset(AtHeight(now, h))[x] {
      if x.blockHeight == h {
        CountAtHeight(was, x);
        CountAtHeight(now, x);
      } else {
        CountOtherHeight(was, h, x);
      }
    }
    SubmultisetSize(multiset(AtHeight(was, h)), multiset(AtHeight(now, h)));
  }

  /** Comparing heights alone finds exactly the new items if and only if the
      wallet still lists the old ones first within each height. */
  lemma ExactIffOldItemsFirst(now: seq<TransferItem>, was: seq<TransferItem>)
    requires multiset(was) <= multiset(now)
    ensures Exact(now, was) <==> OldItemsFirst(now, was)
  {
    if OldItemsFirst(now, was) {
      forall x: TransferItem
        ensures multiset(Reported(now, was))[x] == (multiset(now) - multiset(was))[x]
      {
        var h := x.blockHeight;
        ReportedCount(now, was, x);
        CountAtHeight(now, x);
        CountAtHeight(was, x);
        SplitCount(AtHeight(now, h), |AtHeight(was, h)|, x);
        assert multiset(AtHeight(now, h)[..|AtHeight(was, h)|])[x] == multiset(AtHeight(was, h))[x];
      }
    }
    if Exact(now, was) {
      forall h: nat
        ensures |AtHeight(was, h)| <= |AtHeight(now, h)| &&
                multiset(AtHeight(now, h)[..|AtHeight(was, h)|]) == multiset(AtHeight(was, h))
      {
        SubsetAtHeight(now, was, h);
        FirstItemsWere(now, was, h);
      }
    }
  }

  lemma FirstItemsCount(now: seq<TransferItem>, was: seq<TransferItem>, h: nat, x: TransferItem)
    requires multiset(was) <= multiset(now) && Exact(now, was)
    requires |AtHeight(was, h)| <= |AtHeight(now, h)|
    ensures multiset(AtHeight(now, h)[..|AtHeight(was, h)|])[x] == multiset(AtHeight(was, h))[x]
  {
    SplitCount(AtHeight(now, h), |AtHeight(was, h)|, x);
    if x.blockHeight == h {
      ReportedCount(now, was, x);
      CountAtHeight(now, x);
      CountAtHeight(was, x);
      assert multiset(Reported(now, was))[x] == multiset(now)[x] - multiset(was)[x];
    } else {
      CountOtherHeight(now, h, x);
      CountOtherHeight(was, h, x);
    }
  }

  lemma SameMultiset<T(!new)>(a: multiset<T>, b: multiset<T>)
    requires forall x: T :: a[x] == b[x]
    ensures a == b
  {
  }

  lemma FirstItemsWere(now: seq<TransferItem>, was: seq<TransferItem>, h: nat)
    requires multiset(was) <= multiset(now) && Exact(now, was)
    requires |AtHeight(was, h)| <= |AtHeight(now, h)|
    ensures multiset(AtHeight(now, h)[..|AtHeight(was, h)|]) == multiset(AtHeight(was, h))
  {
    var first := AtHeight(now, h)[..|AtHeight(was, h)|];
    forall x: TransferItem ensures multiset(first)[x] == multiset(AtHeight(was, h))[x] {
      FirstItemsCount(now, was, h, x);
    }
    SameMultiset(multiset(first), multiset(AtHeight(was, h)));
  }

  /** The condition can fail: a new item listed ahead of an old one of its own
      height stays unreported, and the old one is reported again. */
  lemma PollCanReportTheWrongItem()
    ensures var was := [TransferItem("old", 1, 0, 5)];
            var now := [TransferItem("new", 2, 0, 5), TransferItem("old", 1, 0, 5)];
            Reported(now, was) == was
  {
    var was := [TransferItem("old", 1, 0, 5)];
    var now := [TransferItem("new", 2, 0, 5), TransferItem("old", 1, 0, 5)];
    assert now[..1] == [now[0]] && now[..1][..0] == [] && was[..0] == [];
    assert Ordered(was) == was;
    assert Ordered(now[..1]) == now[..1];
    assert Ordered(now) == now;
    assert now[1..] == was;
    assert SetDifference(now, was) == SetDifference(now[1..], was[1..]);
  }

  // ------------------------------------------------ conservation over many polls

  ghost function Amount(s: seq<TransferItem>): nat {
    if s == [] then 0 else s[0].amount + Amount(s[1..])
  }

  lemma {:induction false} AmountAppend(a: seq<TransferItem>, b: seq<TransferItem>)
    ensures Amount(a + b) == Amount(a) + Amount(b)
  {
    if a == [] {
      assert a + b == b;
    } else {
      assert (a + b)[1..] == a[1..] + b;
      AmountAppend(a[1..], b);
    }
  }

  lemma ItemsOfTail(s: seq<TransferItem>)
    requires s != []
    ensures multiset(s[1..]) == multiset(s) - multiset{s[0]}
  {
    assert s == [s[0]] + s[1..];
  }

  lemma ItemsWithout(s: seq<TransferItem>, i: nat)
    requires i < |s|
    ensures multiset(s[..i] + s[i + 1..]) == multiset(s) - multiset{s[i]}
  {
    assert s == s[..i] + [s[i]] + s[i + 1..];
  }

  lemma AmountWithout(s: seq<TransferItem>, i: nat)
    requires i < |s|
    ensures Amount(s) == s[i].amount + Amount(s[..i] + s[i + 1..])
  {
    var head, tail := s[..i], s[i + 1..];
    assert s == head + ([s[i]] + tail);
    hide Amount;
    AmountCons(s[i], tail);
    AmountAppend(head, [s[i]] + tail);
    AmountAppend(head, tail);
  }

  lemma AmountCons(x: TransferItem, s: seq<TransferItem>)
    ensures Amount([x] + s) == x.amount + Amount(s)
  {
    assert ([x] + s)[1..] == s;
  }

  lemma FindItem(s: seq<TransferItem>, x: TransferItem) returns (i: nat)
    requires multiset(s)[x] > 0
    ensures i < |s| && s[i] == x
  {
    assert x in s;
    i :| i < |s| && s[i] == x;
  }

  /** Amounts depend on the items, not on their order. */
  lemma {:induction false} AmountOfItems(a: seq<TransferItem>, b: seq<TransferItem>)
    requires multiset(a) == multiset(b)
    ensures Amount(a) == Amount(b)
  {
    assert |multiset(a)| == |a| && |multiset(b)| == |b|;
    if a != [] {
      assert multiset(a)[a[0]] > 0;
      var i := FindItem(b, a[0]);
      ItemsOfTail(a);
      ItemsWithout(b, i);
      AmountOfItems(a[1..], b[..i] + b[i + 1..]);
      AmountWithout(b, i);
    }
  }

  /** Fewer items, no greater amount. */
  lemma {:induction false} AmountOfFewer(a: seq<TransferItem>, b: seq<TransferItem>)
    requires multiset(a) <= multiset(b)
    ensures Amount(a) <= Amount(b)
  {
    if a != [] {
      assert multiset(a)[a[0]] > 0;
      var i := FindItem(b, a[0]);
      ItemsOfTail(a);
      ItemsWithout(b, i);
      AmountOfFewer(a[1..], b[..i] + b[i + 1..]);
      AmountWithout(b, i);
    }
  }

  /** One exact poll accounts for every item and for every amount. */
  lemma PollConserves(now: seq<TransferItem>, was: seq<TransferItem>)
    requires multiset(was) <= multiset(now) && OldItemsFirst(now, was)
    ensures multiset(was) + multiset(Reported(now, was)) == multiset(now)
    ensures Amount(was) + Amount(Reported(now, was)) == Amount(now)
  {
    ExactIffOldItemsFirst(now, was);
    hide OldItemsFirst;
    assert multiset(was + Reported(now, was)) == multiset(was) + multiset(Reported(now, was));
    AmountOfItems(was + Reported(now, was), now);
    AmountAppend(was, Reported(now, was));
  }

  /** All reports of a run of polls, in order: the wallet lists `lists[k]` at poll k,
      and the snapshot at opening was `lists[0]`. */
  ghost function AllReports(lists: seq<seq<TransferItem>>): seq<TransferItem>
    requires lists != []
  {
    if |lists| == 1 then [] else
      AllReports(lists[..|lists| - 1]) + Reported(lists[|lists| - 1], lists[|lists| - 2])
  }

  ghost predicate Grows(lists: seq<seq<TransferItem>>) {
    forall k :: 0 < k < |lists| ==>
                  multiset(lists[k - 1]) <= multiset(lists[k]) && OldItemsFirst(lists[k], lists[k - 1])
  }

  /** Over any run of polls, every item listed after the opening snapshot is
      reported exactly once, and the reported amounts add up. */
  lemma {:induction false} EachNewItemReportedOnce(lists: seq<seq<TransferItem>>)
    requires lists != [] && Grows(lists)
    ensures multiset(lists[0]) + multiset(AllReports(lists)) == multiset(lists[|lists| - 1])
    ensures Amount(lists[0]) + Amount(AllReports(lists)) == Amount(lists[|lists| - 1])
  {
    var last := |lists| - 1;
    if last > 0 {
      var init := lists[..last];
      var report := Reported(lists[last], lists[last - 1]);
      GrowsInit(lists);
      EachNewItemReportedOnce(init);
      PollConserves(lists[last], lists[last - 1]);
      hide Grows, OldItemsFirst, Amount, Reported;
      OneMorePoll(lists[0], AllReports(init), lists[last - 1], report, lists[last]);
    }
  }

  lemma GrowsInit(lists: seq<seq<TransferItem>>)
    requires |lists| > 1 && Grows(lists)
    ensures var last := |lists| - 1;
            Grows(lists[..last]) && multiset(lists[last - 1]) <= multiset(lists[last]) &&
            OldItemsFirst(lists[last], lists[last - 1])
  {
    hide OldItemsFirst;
  }

  lemma OneMorePoll(first: seq<TransferItem>, all: seq<TransferItem>, was: seq<TransferItem>,
                    report: seq<TransferItem>, now: seq<TransferItem>)
    requires multiset(first) + multiset(all) == multiset(was) && multiset(was) + multiset(report) == multiset(now)
    requires Amount(first) + Amount(all) == Amount(was) && Amount(was) + Amount(report) == Amount(now)
    ensures multiset(first) + multiset(all + report) == multiset(now)
    ensures Amount(first) + Amount(all + report) == Amount(now)
  {
    hide Amount;
    AmountAppend(all, report);
  }

  // ------------------------------------------------ a history says what the wallet listed

  /** The item has the entry's hash, payment id, height and amount, zero if none is given. */
  predicate IsEntry(x: TransferItem, e: RpcEntry) {
    && x.txHash == e.txid && x.paymentId == e.paymentId && x.blockHeight == e.height
    && x.amount == match e.amount { case Some(amount) => amount case None => 0 }
  }

  /** How many entries are the item. */
  ghost function Occurrences(entries: seq<RpcEntry>, x: TransferItem): nat {
    if entries == [] then 0 else
      Occurrences(entries[1..], x) + if IsEntry(x, entries[0]) then 1 else 0
  }

  /** The entries of one height, in the order listed. */
  ghost function EntriesAt(entries: seq<RpcEntry>, h: nat): (r: seq<RpcEntry>)
    ensures forall i :: 0 <= i < |r| ==> r[i].height == h
  {
    if entries == [] then [] else
      (if entries[0].height == h then [entries[0]] else []) + EntriesAt(entries[1..], h)
  }

  ghost function ListedAmount(entries: seq<RpcEntry>): nat {
    if entries == [] then 0 else
      ListedAmount(entries[1..]) + if entries[0].amount.Some? then entries[0].amount.value else 0
  }

  ghost predicate AreEntries(items: seq<TransferItem>, entries: seq<RpcEntry>) {
    |items| == |entries| && forall i :: 0 <= i < |items| ==> IsEntry(items[i], entries[i])
  }

  /** The history holds each listed entry as often as it is listed, newest first, entries
      of one height in the order listed, and adds up to the listed amounts. */
  ghost predicate Mirrors(history: seq<TransferItem>, entries: seq<RpcEntry>) {
    && (forall x: TransferItem :: multiset(history)[x] == Occurrences(entries, x))
    && (forall i, j :: 0 <= i < j < |history| ==> history[i].blockHeight >= history[j].blockHeight)
    && (forall h: nat :: AreEntries(AtHeight(history, h), EntriesAt(entries, h)))
    && Amount(history) == ListedAmount(entries)
  }

  lemma ListedTail(entries: seq<RpcEntry>)
    requires entries != []
    ensures Listed(entries) == [FromEntry(entries[0])] + Listed(entries[1..])
  {
  }

  lemma {:induction false} ListedOccurs(entries: seq<RpcEntry>, x: TransferItem)
    ensures multiset(Listed(entries))[x] == Occurrences(entries, x)
  {
    if entries != [] {
      ListedOccurs(entries[1..], x);
      ListedTail(entries);
      OneEntry(entries[0], x);
      hide IsEntry, FromEntry, Listed;
      var head, tail := FromEntry(entries[0]), Listed(entries[1..]);
      assert multiset([head] + tail) == multiset{head} + multiset(tail);
    }
  }

  lemma OneEntry(e: RpcEntry, x: TransferItem)
    ensures IsEntry(x, e) <==> x == FromEntry(e)
  {
  }

  lemma {:induction false} ListedAtHeight(entries: seq<RpcEntry>, h: nat)
    ensures AreEntries(AtHeight(Listed(entries), h), EntriesAt(entries, h))
  {
    if entries != [] {
      ListedAtHeight(entries[1..], h);
      ListedTail(entries);
      ConsAtHeight(FromEntry(entries[0]), Listed(entries[1..]), h);
      OneEntry(entries[0], FromEntry(entries[0]));
      hide AtHeight, Listed;
    }
  }

  lemma {:induction false} ListedAmounts(entries: seq<RpcEntry>)
    ensures Amount(Listed(entries)) == ListedAmount(entries)
  {
    if entries != [] {
      ListedAmounts(entries[1..]);
      ListedTail(entries);
      hide Amount, Listed;
      AmountCons(FromEntry(entries[0]), Listed(entries[1..]));
    } else {
      assert Listed(entries) == [];
    }
  }

  /** What is stored is what the wallet listed, ordered. */
  lemma HistoryMirrorsEntries(entries: seq<RpcEntry>)
    ensures Mirrors(Ordered(Listed(entries)), entries)
  {
    var list := Listed(entries);
    OrderedSameItems(list);
    OrderedIsSorted(list);
    hide Ordered, Listed, AreEntries, IsEntry;
    forall x: TransferItem ensures multiset(Ordered(list))[x] == Occurrences(entries, x) {
      ListedOccurs(entries, x);
    }
    forall h: nat ensures AreEntries(AtHeight(Ordered(list), h), EntriesAt(entries, h)) {
      OrderedIsStable(list, h);
      ListedAtHeight(entries, h);
    }
    hide AtHeight, Amount;
    AmountOfItems(Ordered(list), list);
    ListedAmounts(entries);
  }

  /** `processList`: one item reused for every entry, inserted as a copy. */
  method ProcessList(entries: seq<RpcEntry>) returns (tx: seq<TransferItem>)
    ensures tx == Ordered(Listed(entries)) && Mirrors(tx, entries)
  {
    tx := [];
    var ts := TransferItem("", 0, 0, 0);
    for i := 0 to |entries|
      invariant tx == Ordered(Listed(entries)[..i])
    {
      ts := ts.(txHash := entries[i].txid);
      ts := ts.(paymentId := entries[i].paymentId);
      ts := ts.(blockHeight := entries[i].height);
      if entries[i].amount.Some? {
        ts := ts.(amount := entries[i].amount.value);
      } else {
        ts := ts.(amount := 0);
      }
      assert Listed(entries)[..i + 1][..i] == Listed(entries)[..i];
      tx := Insert(tx, ts);
    }
    assert Listed(entries)[..|entries|] == Listed(entries);
    HistoryMirrorsEntries(entries);
  }
}
