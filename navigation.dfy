/**
 * The navigation page: items listed ascending by `order`, moved up or down by
 * exchanging `order` with a neighbour, and deleted after confirmation.
 */
module Navigation {
  import opened Wrappers
  import opened Lists
  import opened ApiRoutes

  /** `label` is a reserved word here, so the label is `text`. */
  datatype NavItem = NavItem(id: string, text: string, url: string, order: int, isActive: bool)

  datatype Direction = Up | Down

  predicate SortedByOrder(s: seq<NavItem>) {
    forall i, j :: 0 <= i < j < |s| ==> s[i].order <= s[j].order
  }

  predicate StrictlyIncreasing(s: seq<NavItem>) {
    forall i, j :: 0 <= i < j < |s| ==> s[i].order < s[j].order
  }

  function Ids(s: seq<NavItem>): seq<string> {
    MapSeq(s, (x: NavItem) => x.id)
  }

  function Orders(s: seq<NavItem>): seq<int> {
    MapSeq(s, (x: NavItem) => x.order)
  }

  /** `findIndex` by id: a position carrying `id`, or -1; `IndexOfFirst` shows it is the first. */
  function IndexOf(s: seq<NavItem>, id: string): (k: int)
    ensures -1 <= k < |s|
    ensures k >= 0 ==> s[k].id == id
  {
    if s == [] then -1
    else if s[0].id == id then 0
    else
      var k := IndexOf(s[1..], id);
      if k == -1 then -1 else k + 1
  }

  /** No position before the one `IndexOf` finds carries the id, and -1 means that no position does. */
  lemma {:induction false} IndexOfFirst(s: seq<NavItem>, id: string)
    ensures IndexOf(s, id) >= 0 ==> forall j :: 0 <= j < IndexOf(s, id) ==> s[j].id != id
    ensures IndexOf(s, id) == -1 ==> forall j :: 0 <= j < |s| ==> s[j].id != id
  {
    if s != [] && s[0].id != id {
      IndexOfFirst(s[1..], id);
      assert forall j :: 1 <= j < |s| ==> s[j] == s[1..][j - 1];
    }
  }

  /** The first item cannot move up and the last cannot move down. */
  predicate AtBoundary(s: seq<NavItem>, current: int, dir: Direction) {
    (dir == Up && current == 0) || (dir == Down && current == |s| - 1)
  }

  function Neighbour(current: int, dir: Direction): int {
    if dir == Up then current - 1 else current + 1
  }

  /**
   * The list before sorting: the moved item takes its neighbour's `order`, the
   * neighbour takes the moved item's, and every other position is untouched.
   */
  function Swapped(s: seq<NavItem>, current: nat, target: nat, item: NavItem): (r: seq<NavItem>)
    requires current < |s| && target < |s| && current != target
    ensures |r| == |s|
    ensures r[current] == item.(order := s[target].order)
    ensures r[target] == s[target].(order := item.order)
    ensures forall k :: 0 <= k < |s| && k != current && k != target ==> r[k] == s[k]
  {
    s[current := item.(order := s[target].order)][target := s[target].(order := item.order)]
  }

  /** The moved item in its neighbour's place and the neighbour in its place; the orders stay per position. */
  function Exchanged(s: seq<NavItem>, current: nat, target: nat): (r: seq<NavItem>)
    requires current < |s| && target < |s| && current != target
    ensures Orders(r) == Orders(s) && |r| == |s|
    ensures forall k :: 0 <= k < |s| && k != current && k != target ==> r[k] == s[k]
  {
    s[target := s[current].(order := s[target].order)][current := s[target].(order := s[current].order)]
  }

  /** The first `n` entries of `a` are sorted by `order`. */
  ghost predicate SortedPrefix(a: array<NavItem>, n: int)
    reads a
  {
    forall p, q :: 0 <= p < q < n && q < a.Length ==> a[p].order <= a[q].order
  }

  /** Exchanges `a[j - 1]` and `a[j]`. */
  method SwapDown(a: array<NavItem>, j: int)
    requires 0 < j < a.Length
    modifies a
    ensures a[j - 1] == old(a[j]) && a[j] == old(a[j - 1])
    ensures forall k :: 0 <= k < a.Length && k != j - 1 && k != j ==> a[k] == old(a[k])
    ensures multiset(a[..]) == old(multiset(a[..]))
  {
    a[j - 1], a[j] := a[j], a[j - 1];
  }

  /** Moves `a[i]` left past every larger `order`, so that the first `i + 1` entries are sorted. */
  method InsertInto(a: array<NavItem>, i: int)
    requires 0 <= i < a.Length && SortedPrefix(a, i)
    modifies a
    ensures SortedPrefix(a, i + 1)
    ensures forall k :: i < k < a.Length ==> a[k] == old(a[k])
    ensures multiset(a[..]) == old(multiset(a[..]))
  {
    var j := i;
    while j > 0 && a[j - 1].order > a[j].order
      invariant 0 <= j <= i
      invariant forall p, q :: 0 <= p < q <= i && p != j && q != j ==> a[p].order <= a[q].order
      invariant forall q :: j < q <= i ==> a[j].order < a[q].order
      invariant forall k :: i < k < a.Length ==> a[k] == old(a[k])
      invariant multiset(a[..]) == old(multiset(a[..]))
    {
      SwapDown(a, j);
      j := j - 1;
    }
  }

  /** Insertion sort by `order` in place: the array ends sorted and holds the same items. */
  method SortByOrder(a: array<NavItem>)
    modifies a
    ensures SortedByOrder(a[..])
    ensures multiset(a[..]) == old(multiset(a[..]))
  {
    var i := 0;
    while i < a.Length
      invariant 0 <= i <= a.Length
      invariant SortedPrefix(a, i)
      invariant multiset(a[..]) == old(multiset(a[..]))
    {
      InsertInto(a, i);
      i := i + 1;
    }
  }

  /**
   * `moveItem`: at a boundary nothing changes and no update is issued.
   * Otherwise the result holds the swapped items, sorted by `order` (so the
   * same ids and the same multiset of orders as before), and the two updates
   * carry exactly the exchanged orders. When the orders were strictly
   * increasing, the two items have exchanged places and nothing else moved.
   */
  method MoveItem(items: seq<NavItem>, item: NavItem, dir: Direction)
    returns (result: seq<NavItem>, updates: seq<NavItem>)
    requires IndexOf(items, item.id) >= 0
    ensures var current := IndexOf(items, item.id);
      AtBoundary(items, current, dir) ==> result == items && updates == []
    ensures var current := IndexOf(items, item.id);
      var target := Neighbour(current, dir);
      !AtBoundary(items, current, dir) ==>
        && 0 <= target < |items|
        && SortedByOrder(result)
        && multiset(result) == multiset(Swapped(items, current, target, item))
        && multiset(Ids(result)) == multiset(Ids(items))
        && (item == items[current] ==> multiset(Orders(result)) == multiset(Orders(items)))
        && (item == items[current] && StrictlyIncreasing(items) ==> result == Exchanged(items, current, target))
        && updates == [item.(order := items[target].order), items[target].(order := item.order)]
  {
    var currentIndex := IndexOf(items, item.id);
    if (dir == Up && currentIndex == 0) || (dir == Down && currentIndex == |items| - 1) {
      return items, [];
    }
    var newItems := new NavItem[|items|](k requires 0 <= k < |items| => items[k]);
    var targetIndex := if dir == Up then currentIndex - 1 else currentIndex + 1;
    var targetItem := newItems[targetIndex];
    var tempOrder := item.order;
    newItems[currentIndex] := item.(order := targetItem.order);
    newItems[targetIndex] := targetItem.(order := tempOrder);
    assert newItems[..] == Swapped(items, currentIndex, targetIndex, item) by {
      assert targetItem == items[targetIndex];
    }
    SortByOrder(newItems);
    result := newItems[..];
    updates := [item.(order := targetItem.order), targetItem.(order := tempOrder)];
    MoveKeepsIds(items, currentIndex, targetIndex, item, result);
    if item == items[currentIndex] {
      MoveKeepsOrders(items, currentIndex, targetIndex, result);
      if StrictlyIncreasing(items) {
        MoveExchangesNeighbours(items, currentIndex, targetIndex, result);
      }
    }
  }

  /** The swap keeps every id where it was, so any sorting of it has the ids of the input. */
  lemma MoveKeepsIds(s: seq<NavItem>, current: nat, target: nat, item: NavItem, result: seq<NavItem>)
    requires current < |s| && target < |s| && current != target && item.id == s[current].id
    requires multiset(result) == multiset(Swapped(s, current, target, item))
    ensures multiset(Ids(result)) == multiset(Ids(s))
  {
    var w := Swapped(s, current, target, item);
    assert Ids(w) == Ids(s);
    MapSeqPermutation(result, w, (x: NavItem) => x.id);
  }

  /** Exchanging the orders of two items keeps the multiset of orders. */
  lemma MoveKeepsOrders(s: seq<NavItem>, current: nat, target: nat, result: seq<NavItem>)
    requires current < |s| && target < |s| && current != target
    requires multiset(result) == multiset(Swapped(s, current, target, s[current]))
    ensures multiset(Orders(result)) == multiset(Orders(s))
  {
    var w := Swapped(s, current, target, s[current]);
    var o := Orders(s);
    assert Orders(w) == o[current := o[target]][target := o[current]];
    ExchangeIsPermutation(o, current, target);
    MapSeqPermutation(result, w, (x: NavItem) => x.order);
  }

  /** A sorted sequence with the same items as a strictly increasing one is that sequence. */
  lemma {:induction false} SortedUnique(a: seq<NavItem>, b: seq<NavItem>)
    requires SortedByOrder(a) && StrictlyIncreasing(b)
    requires multiset(a) == multiset(b)
    ensures a == b
  {
    assert |a| == |multiset(a)| == |multiset(b)| == |b|;
    if a != [] {
      assert a[0] in multiset(b) && b[0] in multiset(a);
      var k :| 0 <= k < |b| && b[k] == a[0];
      var m :| 0 <= m < |a| && a[m] == b[0];
      assert a[0].order <= a[m].order;
      assert k == 0;
      assert a[0] == b[0];
      Tail(a);
      Tail(b);
      SortedUnique(a[1..], b[1..]);
    }
  }

  /** With strictly increasing orders, sorting the swapped list exchanges the two items' places. */
  lemma MoveExchangesNeighbours(s: seq<NavItem>, current: nat, target: nat, result: seq<NavItem>)
    requires current < |s| && target < |s| && current != target
    requires StrictlyIncreasing(s)
    requires SortedByOrder(result)
    requires multiset(result) == multiset(Swapped(s, current, target, s[current]))
    ensures result == Exchanged(s, current, target)
  {
    var w := Swapped(s, current, target, s[current]);
    var e := Exchanged(s, current, target);
    assert e == w[current := w[target]][target := w[current]];
    ExchangeIsPermutation(w, current, target);
    forall i, j | 0 <= i < j < |e| ensures e[i].order < e[j].order {
      assert Orders(e)[i] == Orders(s)[i] && Orders(e)[j] == Orders(s)[j];
    }
    SortedUnique(result, e);
  }

  function ItemId(x: NavItem): string {
    x.id
  }

  /** The page's state, and the service calls it has issued. */
  class NavigationPage {
    var navItems: seq<NavItem>
    var isDeleteDialogOpen: bool
    var itemToDelete: Option<NavItem>
    var calls: seq<ServiceCall>

    constructor ()
      ensures navItems == [] && !isDeleteDialogOpen && itemToDelete == None && calls == []
    {
      navItems := [];
      isDeleteDialogOpen := false;
      itemToDelete := None;
      calls := [];
    }

    /**
     * `fetchNavItems`: `fetched` is the list the server returned, or None when
     * the request failed. A fetched list is sorted in place by `order` and
     * shown; a failure leaves the list as it was.
     */
    method FetchNavItems(fetched: Option<seq<NavItem>>)
      modifies this
      ensures calls == old(calls) + [Crud(Navigation, GetAll)]
      ensures fetched.Some? ==> SortedByOrder(navItems) && multiset(navItems) == multiset(fetched.value)
      ensures fetched.None? ==> navItems == old(navItems)
      ensures isDeleteDialogOpen == old(isDeleteDialogOpen) && itemToDelete == old(itemToDelete)
    {
      calls := calls + [Crud(Navigation, GetAll)];
      if fetched.Some? {
        var results := fetched.value;
        var a := new NavItem[|results|](k requires 0 <= k < |results| => results[k]);
        assert a[..] == results;
        SortByOrder(a);
        navItems := a[..];
      }
    }

    /** `handleDeleteClick`: remembers the item and opens the dialog. */
    method HandleDeleteClick(item: NavItem)
      modifies this
      ensures itemToDelete == Some(item) && isDeleteDialogOpen
      ensures navItems == old(navItems) && calls == old(calls)
    {
      itemToDelete := Some(item);
      isDeleteDialogOpen := true;
    }

    /**
     * `confirmDelete`: with nothing selected, nothing happens. Otherwise one
     * delete call; when it succeeds the items with that id leave the list;
     * either way the dialog ends closed with nothing selected.
     */
    method ConfirmDelete(deleted: bool)
      modifies this
      ensures old(itemToDelete).None? ==>
        navItems == old(navItems) && isDeleteDialogOpen == old(isDeleteDialogOpen)
        && itemToDelete == None && calls == old(calls)
      ensures old(itemToDelete).Some? ==>
        && var id := old(itemToDelete).value.id;
        && calls == old(calls) + [Crud(Navigation, Remove(id))]
        && navItems == (if deleted then Without(old(navItems), ItemId, id) else old(navItems))
        && !isDeleteDialogOpen && itemToDelete == None
    {
      if itemToDelete.None? {
        return;
      }
      var id := itemToDelete.value.id;
      calls := calls + [Crud(Navigation, Remove(id))];
      if deleted {
        navItems := Without(navItems, ItemId, id);
      }
      isDeleteDialogOpen := false;
      itemToDelete := None;
    }

    /**
     * The move buttons: at a boundary nothing happens. Otherwise the list
     * shows the reordered items and one update per moved item is issued; when
     * an update fails, the list is fetched again (`refetched`).
     */
    method Move(item: NavItem, dir: Direction, updated: bool, refetched: Option<seq<NavItem>>)
      requires IndexOf(navItems, item.id) >= 0
      modifies this
      ensures AtBoundary(old(navItems), IndexOf(old(navItems), item.id), dir) ==>
        navItems == old(navItems) && calls == old(calls)
      ensures !AtBoundary(old(navItems), IndexOf(old(navItems), item.id), dir) ==>
        && var target := old(navItems)[Neighbour(IndexOf(old(navItems), item.id), dir)];
        && var updates := [Crud(Navigation, Update(item.id)), Crud(Navigation, Update(target.id))];
        && (updated ==> calls == old(calls) + updates)
        && (updated || refetched.None? ==>
              && SortedByOrder(navItems)
              && multiset(navItems) == multiset(Swapped(old(navItems), IndexOf(old(navItems), item.id),
                                                        Neighbour(IndexOf(old(navItems), item.id), dir), item))
              && multiset(Ids(navItems)) == multiset(Ids(old(navItems))))
        && (!updated ==> calls == old(calls) + updates + [Crud(Navigation, GetAll)])
        && (!updated && refetched.Some? ==> SortedByOrder(navItems) && multiset(navItems) == multiset(refetched.value))
      ensures isDeleteDialogOpen == old(isDeleteDialogOpen) && itemToDelete == old(itemToDelete)
    {
      var result, updates := MoveItem(navItems, item, dir);
      var current := IndexOf(navItems, item.id);
      if (dir == Up && current == 0) || (dir == Down && current == |navItems| - 1) {
        return;
      }
      navItems := result;
      calls := calls + [Crud(Navigation, Update(updates[0].id)), Crud(Navigation, Update(updates[1].id))];
      if updated {
        return;
      }
      ghost var moved := navItems;
      FetchNavItems(refetched);
      assert refetched.None? ==> navItems == moved;
    }
  }

  /** In the exchanged list each of the two items sits at the other's position, carrying that position's order. */
  lemma ExchangedEntries(s: seq<NavItem>, current: nat, target: nat)
    requires current < |s| && target < |s| && current != target
    ensures Exchanged(s, current, target)[target] == s[current].(order := s[target].order)
    ensures Exchanged(s, current, target)[current] == s[target].(order := s[current].order)
  {
  }
}
