/** The child lists of app/cJSON.c: items linked both ways, the first one's prev
    pointing at the last, changed in place; and the deep copy of a tree of them. */
module JsonList {
  import opened Prelude
  import opened Bytes

  /** What an item holds besides its links. */
  datatype Payload = Payload(kind: int, number: int, text: Option<seq<byte>>, key: Option<seq<byte>>)

  class Node {
    var next: Node?
    var prev: Node?
    var child: Node?
    const payload: Payload

    constructor (p: Payload)
      ensures next == null && prev == null && child == null && payload == p
    {
      payload := p;
      next, prev, child := null, null, null;
    }
  }

  function Members(items: seq<Node>): set<Node> {
    set n | n in items
  }

  predicate NoRepeats(items: seq<Node>) {
    forall i, j | 0 <= i < j < |items| :: items[i] != items[j]
  }

  /** The item after the k-th, and the item its prev points at. */
  function NextOf(items: seq<Node>, k: nat): Node?
    requires k < |items|
  {
    if k + 1 < |items| then items[k + 1] else null
  }

  function PrevOf(items: seq<Node>, k: nat): Node?
    requires k < |items|
  {
    if k > 0 then items[k - 1] else Last(items)
  }

  ghost predicate Linked(items: seq<Node>)
    reads Members(items)`next, Members(items)`prev
  {
    NoRepeats(items)
    && forall k | 0 <= k < |items| :: items[k].next == NextOf(items, k) && items[k].prev == PrevOf(items, k)
  }

  /** The children of parent are items, in this order. */
  ghost predicate IsList(parent: Node, items: seq<Node>)
    reads parent`child, Members(items)`next, Members(items)`prev
  {
    parent.child == (if items == [] then null else items[0]) && Linked(items)
  }

  // ----- The operations -----

  /** get_array_item. */
  method GetItem(parent: Node, index: nat, ghost items: seq<Node>) returns (item: Node?)
    requires IsList(parent, items)
    ensures item == if index < |items| then items[index] else null
  {
    item := parent.child;
    var left := index;
    ghost var k := 0;
    while item != null && left > 0
      invariant 0 <= left && k + left == index && k <= |items|
      invariant item == if k < |items| then items[k] else null
      decreases left
    {
      item := item.next;
      left := left - 1;
      k := k + 1;
    }
  }

  /** cJSON_GetArraySize. */
  method Size(parent: Node, ghost items: seq<Node>) returns (n: nat)
    requires IsList(parent, items)
    ensures n == |items|
  {
    n := 0;
    var child := parent.child;
    while child != null
      invariant n <= |items| && child == if n < |items| then items[n] else null
      decreases |items| - n
    {
      n := n + 1;
      child := child.next;
    }
  }

  function Only(n: Node?): set<Node> {
    if n == null then {} else {n}
  }

  /** add_item_to_array. It does not look at the item's own links, so behind a list
      that is not empty the result is a list exactly when the item's next is null,
      and never when the item is in the list already. */
  method Append(parent: Node, item: Node?, ghost items: seq<Node>) returns (ok: bool)
    requires IsList(parent, items)
    modifies parent`child, Members(items)`next, Members(items)`prev, Only(item)`next, Only(item)`prev
    ensures ok <==> item != null && item != parent
    ensures !ok ==> IsList(parent, items)
    ensures ok ==> (IsList(parent, items + [item]) <==> item !in items && (items == [] || old(item.next) == null))
  {
    if item == null || parent == item {
      return false;
    }
    if parent.child == null {
      parent.child := item;
      item.prev := item;
      item.next := null;
    } else if parent.child.prev != null {
      AppendBehind(parent, item, items);
    }
    return true;
  }

  /** The branch of add_item_to_array for a list that is not empty. */
  method AppendBehind(parent: Node, item: Node, ghost items: seq<Node>)
    requires IsList(parent, items) && items != []
    modifies Members(items)`next, Members(items)`prev, item`prev
    ensures IsList(parent, items + [item]) <==> item !in items && old(item.next) == null
  {
    var child := parent.child;
    var last := child.prev;
    ghost var n := |items|;
    assert last == items[n - 1];
    last.next := item;
    item.prev := last;
    child.prev := item;
    ghost var longer := items + [item];
    if item in items {
      RepeatsAtEnd(items, item);
    } else {
      LinksBehind(items, item);
    }
  }

  lemma RepeatsAtEnd(items: seq<Node>, item: Node)
    requires item in items
    ensures !NoRepeats(items + [item])
  {
    var k :| 0 <= k < |items| && items[k] == item;
    assert (items + [item])[k] == (items + [item])[|items|];
  }

  /** The links that make a list of the items with one more behind them; the new
      item's own next is the one link the source does not write. */
  lemma LinksBehind(items: seq<Node>, item: Node)
    requires items != [] && NoRepeats(items) && item !in items && item.prev == Last(items)
    requires forall k | 0 <= k < |items| :: items[k].next == if k == |items| - 1 then item else NextOf(items, k)
    requires forall k | 0 <= k < |items| :: items[k].prev == if k == 0 then item else PrevOf(items, k)
    ensures Linked(items + [item]) <==> item.next == null
  {
    var n, longer := |items|, items + [item];
    forall k | 0 <= k < n ensures longer[k].next == NextOf(longer, k) && longer[k].prev == PrevOf(longer, k) {
      assert longer[k] == items[k];
    }
    assert longer[n] == item && PrevOf(longer, n) == items[n - 1] && NextOf(longer, n) == null;
  }

  /** The list without its k-th item. */
  function Without(items: seq<Node>, k: nat): (r: seq<Node>)
    requires k < |items|
    ensures |r| == |items| - 1 && forall j | 0 <= j < |r| :: r[j] == items[if j < k then j else j + 1]
  {
    items[..k] + items[k + 1..]
  }

  /** The links that make a list of the items other than the k-th. */
  lemma ClosesGap(items: seq<Node>, k: nat)
    requires k < |items| && NoRepeats(items)
    requires forall j | 0 <= j < |items| && j != k ::
      items[j].next == if j + 1 == k then NextOf(items, k) else NextOf(items, j)
    requires forall j | 0 <= j < |items| && j != k ::
      items[j].prev == if j == k + 1 || (j == 0 && k + 1 == |items|) then PrevOf(items, k) else PrevOf(items, j)
    ensures Linked(Without(items, k))
  {
    var r := Without(items, k);
    forall j | 0 <= j < |r| ensures r[j].next == NextOf(r, j) && r[j].prev == PrevOf(r, j) {
      var i := if j < k then j else j + 1;
      assert r[j] == items[i];
    }
  }

  /** The links of items, except that the one before the k-th points at ahead, the
      one behind it back at behind, and the first one back at last. */
  ghost predicate Nexts(items: seq<Node>, k: nat, ahead: Node?)
    reads Members(items)`next
  {
    forall j | 0 <= j < |items| :: items[j].next == if j + 1 == k then ahead else NextOf(items, j)
  }

  ghost predicate Prevs(items: seq<Node>, k: nat, behind: Node?, last: Node)
    reads Members(items)`prev
  {
    forall j | 0 <= j < |items| ::
      items[j].prev == if j == k + 1 then behind else if j == 0 then last else PrevOf(items, j)
  }

  /** cJSON_DetachItemViaPointer. */
  method Detach(parent: Node, item: Node, ghost items: seq<Node>, ghost k: nat)
    requires IsList(parent, items) && k < |items| && items[k] == item
    modifies parent`child, Members(items)`next, Members(items)`prev
    ensures IsList(parent, Without(items, k))
    ensures item.next == null && item.prev == null
  {
    ghost var rest := Without(items, k);
    assert k == 0 ==> NextOf(items, 0) == if rest == [] then null else rest[0];
    Unlink(parent, item, items, k);
    DropEnds(parent, item, items, k);
    Clear(item, items, k, NextOf(items, k), PrevOf(items, k), EndOf(items, k));
    ClosesGap(items, k);
  }

  /** The last item of those that stay, the item itself when it is alone. */
  ghost function EndOf(items: seq<Node>, k: nat): Node
    requires k < |items|
  {
    if 0 < k == |items| - 1 then items[k - 1] else Last(items)
  }

  /** The first two steps of detaching: the neighbours point past the item. */
  method Unlink(parent: Node, item: Node, ghost items: seq<Node>, ghost k: nat)
    requires IsList(parent, items) && k < |items| && items[k] == item
    modifies Members(items)`next, Members(items)`prev
    ensures Nexts(items, k, NextOf(items, k)) && Prevs(items, k, PrevOf(items, k), Last(items))
  {
    if item != parent.child {
      UnlinkAhead(item, items, k);
    }
    UnlinkBehind(item, items, k);
  }

  method UnlinkAhead(item: Node, ghost items: seq<Node>, ghost k: nat)
    requires Linked(items) && 0 < k < |items| && items[k] == item
    modifies Members(items)`next
    ensures Nexts(items, k, NextOf(items, k)) && Prevs(items, k, item, Last(items))
  {
    assert item.prev == items[k - 1];
    item.prev.next := item.next;
  }

  method UnlinkBehind(item: Node, ghost items: seq<Node>, ghost k: nat)
    requires NoRepeats(items) && k < |items| && items[k] == item
    requires Nexts(items, k, NextOf(items, k)) && Prevs(items, k, item, Last(items))
    modifies Members(items)`prev
    ensures Nexts(items, k, NextOf(items, k)) && Prevs(items, k, PrevOf(items, k), Last(items))
  {
    if item.next != null {
      assert item.next == items[k + 1];
      item.next.prev := item.prev;
    }
  }

  /** The other steps: the parent's first child, or the first one's prev. */
  method DropEnds(parent: Node, item: Node, ghost items: seq<Node>, ghost k: nat)
    requires k < |items| && items[k] == item && parent.child == items[0] && NoRepeats(items)
    requires Nexts(items, k, NextOf(items, k)) && Prevs(items, k, PrevOf(items, k), Last(items))
    modifies parent`child, Members(items)`prev
    ensures parent.child == if k == 0 then NextOf(items, 0) else items[0]
    ensures Nexts(items, k, NextOf(items, k)) && Prevs(items, k, PrevOf(items, k), EndOf(items, k))
  {
    if item == parent.child {
      parent.child := item.next;
    } else if item.next == null {
      parent.child.prev := item.prev;
    }
  }

  /** The item that left points nowhere. */
  method Clear(item: Node, ghost items: seq<Node>, ghost k: nat, ghost ahead: Node?, ghost behind: Node?,
    ghost last: Node)
    requires NoRepeats(items) && k < |items| && items[k] == item
    requires Nexts(items, k, ahead) && Prevs(items, k, behind, last)
    modifies item`next, item`prev
    ensures item.next == null && item.prev == null
    ensures forall j | 0 <= j < |items| && j != k :: items[j].next == if j + 1 == k then ahead else NextOf(items, j)
    ensures forall j | 0 <= j < |items| && j != k ::
      items[j].prev == if j == k + 1 then behind else if j == 0 then last else PrevOf(items, j)
  {
    item.next := null;
    item.prev := null;
  }

  /** The list with a new item before the k-th. */
  function With(items: seq<Node>, k: nat, item: Node): (r: seq<Node>)
    requires k < |items|
    ensures |r| == |items| + 1 && r[k] == item
    ensures forall j | 0 <= j <= |items| && j != k :: r[j] == items[if j < k then j else j - 1]
  {
    items[..k] + [item] + items[k..]
  }

  lemma OpensGap(items: seq<Node>, k: nat, item: Node)
    requires k < |items| && NoRepeats(items) && item !in items
    requires item.next == items[k] && item.prev == PrevOf(items, k)
    requires forall j | 0 <= j < |items| :: items[j].next == if j + 1 == k then item else NextOf(items, j)
    requires forall j | 0 <= j < |items| :: items[j].prev == if j == k then item else PrevOf(items, j)
    ensures Linked(With(items, k, item))
  {
    var r := With(items, k, item);
    forall j: nat | j < |r| ensures r[j].next == NextOf(r, j) && r[j].prev == PrevOf(r, j) {
      if j < k {
        NeighboursBefore(items, k, item, j);
      } else if j > k {
        NeighboursBehind(items, k, item, j);
      } else {
        NeighboursOfNew(items, k, item);
      }
    }
    WithNoRepeats(items, k, item);
  }

  lemma WithNoRepeats(items: seq<Node>, k: nat, item: Node)
    requires k < |items| && NoRepeats(items) && item !in items
    ensures NoRepeats(With(items, k, item))
  {
  }

  lemma NeighboursBefore(items: seq<Node>, k: nat, item: Node, j: nat)
    requires j < k < |items|
    ensures var r := With(items, k, item);
      r[j] == items[j] && NextOf(r, j) == (if j + 1 == k then item else NextOf(items, j)) &&
        PrevOf(r, j) == PrevOf(items, j)
  {
  }

  lemma NeighboursOfNew(items: seq<Node>, k: nat, item: Node)
    requires k < |items|
    ensures var r := With(items, k, item); NextOf(r, k) == items[k] && PrevOf(r, k) == PrevOf(items, k)
  {
  }

  lemma NeighboursBehind(items: seq<Node>, k: nat, item: Node, j: nat)
    requires k < j <= |items|
    ensures var r := With(items, k, item);
      r[j] == items[j - 1] && NextOf(r, j) == NextOf(items, j - 1) &&
        PrevOf(r, j) == if j == k + 1 then item else PrevOf(items, j - 1)
  {
  }

  /** cJSON_InsertItemInArray: behind the end it appends. Before an item the result
      is a list exactly when the new item is not in it already. */
  method Insert(parent: Node, which: int, item: Node?, ghost items: seq<Node>) returns (ok: bool)
    requires IsList(parent, items)
    modifies parent`child, Members(items)`next, Members(items)`prev, Only(item)`next, Only(item)`prev
    ensures ok <==> which >= 0 && item != null && (which < |items| || item != parent)
    ensures !ok ==> IsList(parent, items)
    ensures ok && which < |items| ==> (IsList(parent, With(items, which, item)) <==> item !in items)
    ensures ok && which >= |items| ==>
      (IsList(parent, items + [item]) <==> item !in items && (items == [] || old(item.next) == null))
  {
    if which < 0 || item == null {
      return false;
    }
    var after := GetItem(parent, which, items);
    if after == null {
      ok := Append(parent, item, items);
      return;
    }
    if after != parent.child && after.prev == null {
      return false;
    }
    InsertBefore(parent, after, item, items, which);
    return true;
  }

  /** The links written by cJSON_InsertItemInArray. */
  method InsertBefore(parent: Node, after: Node, item: Node, ghost items: seq<Node>, ghost k: nat)
    requires IsList(parent, items) && k < |items| && items[k] == after
    modifies parent`child, Members(items)`next, Members(items)`prev, item`next, item`prev
    ensures IsList(parent, With(items, k, item)) <==> item !in items
  {
    LinkAhead(after, item, items, k);
    if after == parent.child {
      parent.child := item;
    } else {
      LinkBefore(item, items, k);
    }
    if item in items {
      RepeatsWithin(items, k, item);
    } else {
      OpensGap(items, k, item);
      assert With(items, k, item)[0] == if k == 0 then item else items[0];
    }
  }

  /** The new item's own links, and the link back to it. */
  method LinkAhead(after: Node, item: Node, ghost items: seq<Node>, ghost k: nat)
    requires Linked(items) && k < |items| && items[k] == after
    modifies Members(items)`next, Members(items)`prev, item`next, item`prev
    ensures item.prev != null && item.prev in items
    ensures item !in items ==> item.next == items[k] && item.prev == PrevOf(items, k)
    ensures item !in items ==> forall j | 0 <= j < |items| :: items[j].next == NextOf(items, j)
    ensures item !in items ==>
      forall j | 0 <= j < |items| :: items[j].prev == if j == k then item else PrevOf(items, j)
  {
    assert after.prev == PrevOf(items, k);
    item.next := after;
    item.prev := after.prev;
    after.prev := item;
  }

  /** The link to it from the item before, which is not there for the first place. */
  method LinkBefore(item: Node, ghost items: seq<Node>, ghost k: nat)
    requires k < |items| && NoRepeats(items) && item.prev != null && item.prev in items
    requires item !in items ==> item.next == items[k] && item.prev == PrevOf(items, k)
    requires item !in items ==> forall j | 0 <= j < |items| :: items[j].next == NextOf(items, j)
    requires item !in items ==>
      forall j | 0 <= j < |items| :: items[j].prev == if j == k then item else PrevOf(items, j)
    modifies Members(items)`next
    ensures item !in items ==> item.next == items[k] && item.prev == PrevOf(items, k)
    ensures item !in items && k > 0 ==>
      forall j | 0 <= j < |items| :: items[j].next == if j + 1 == k then item else NextOf(items, j)
    ensures item !in items ==>
      forall j | 0 <= j < |items| :: items[j].prev == if j == k then item else PrevOf(items, j)
  {
    assert item !in items && k > 0 ==> item.prev == items[k - 1];
    item.prev.next := item;
  }

  lemma RepeatsWithin(items: seq<Node>, k: nat, item: Node)
    requires k < |items| && item in items
    ensures !NoRepeats(With(items, k, item))
  {
    var r := With(items, k, item);
    var j :| 0 <= j < |items| && items[j] == item;
    assert r[k] == item && r[if j < k then j else j + 1] == item;
  }

  lemma TakesPlace(items: seq<Node>, k: nat, item: Node)
    requires k < |items| && NoRepeats(items) && item !in items
    requires item.next == NextOf(items, k) && item.prev == if |items| == 1 then item else PrevOf(items, k)
    requires forall j | 0 <= j < |items| && j != k :: items[j].next == if j + 1 == k then item else NextOf(items, j)
    requires forall j | 0 <= j < |items| && j != k ::
      items[j].prev == if j == k + 1 || (j == 0 && k + 1 == |items|) then item else PrevOf(items, j)
    ensures Linked(items[k := item])
  {
    var r := items[k := item];
    forall j: nat | j < |r| ensures r[j].next == NextOf(r, j) && r[j].prev == PrevOf(r, j) {
      NeighboursInPlace(items, k, item, j);
    }
  }

  lemma NeighboursInPlace(items: seq<Node>, k: nat, item: Node, j: nat)
    requires k < |items| && j < |items|
    ensures var r := items[k := item];
      && r[j] == (if j == k then item else items[j])
      && NextOf(r, j) == (if j + 1 == k then item else NextOf(items, j))
      && PrevOf(r, j) == if j == k + 1 || (j == 0 && k + 1 == |items|) then item else PrevOf(items, j)
  {
  }

  /** cJSON_ReplaceItemViaPointer; the old item leaves the list. */
  method Replace(parent: Node, item: Node, replacement: Node, ghost items: seq<Node>, ghost k: nat)
    requires IsList(parent, items) && k < |items| && items[k] == item
    requires replacement == item || replacement !in items
    modifies parent`child, Members(items)`next, Members(items)`prev, replacement`next, replacement`prev
    ensures IsList(parent, items[k := replacement])
    ensures replacement != item ==> item.next == null && item.prev == null
  {
    if replacement == item {
      assert items[k := replacement] == items;
      return;
    }
    if parent.child == item {
      ReplaceFirst(parent, item, replacement, items);
    } else {
      ReplaceLater(parent, item, replacement, items, k);
    }
  }

  /** The links written when the replaced item is the first. */
  method ReplaceFirst(parent: Node, item: Node, replacement: Node, ghost items: seq<Node>)
    requires IsList(parent, items) && items != [] && items[0] == item && replacement !in items
    modifies parent`child, Members(items)`next, Members(items)`prev, replacement`next, replacement`prev
    ensures IsList(parent, items[0 := replacement])
    ensures item.next == null && item.prev == null
  {
    replacement.next := item.next;
    replacement.prev := item.prev;
    if replacement.next != null {
      assert replacement.next == items[1];
      replacement.next.prev := replacement;
    }
    if parent.child.prev == parent.child {
      replacement.prev := replacement;
    }
    parent.child := replacement;
    item.next := null;
    item.prev := null;
    TakesPlace(items, 0, replacement);
  }

  /** The links written when it is not. */
  method ReplaceLater(parent: Node, item: Node, replacement: Node, ghost items: seq<Node>, ghost k: nat)
    requires IsList(parent, items) && 0 < k < |items| && items[k] == item && replacement !in items
    modifies Members(items)`next, Members(items)`prev, replacement`next, replacement`prev
    ensures IsList(parent, items[k := replacement])
    ensures item.next == null && item.prev == null
  {
    TakeLinks(parent, item, replacement, items, k);
    Retire(parent, item, replacement, items, k);
  }

  /** The replaced item lets go. */
  method Retire(parent: Node, item: Node, replacement: Node, ghost items: seq<Node>, ghost k: nat)
    requires NoRepeats(items) && 0 < k < |items| && items[k] == item && replacement !in items
    requires parent.child == items[0]
    requires replacement.next == NextOf(items, k) && replacement.prev == PrevOf(items, k)
    requires Nexts(items, k, replacement)
    requires Prevs(items, k, replacement, if k + 1 == |items| then replacement else Last(items))
    modifies item`next, item`prev
    ensures IsList(parent, items[k := replacement])
    ensures item.next == null && item.prev == null
  {
    Clear(item, items, k, replacement, replacement, if k + 1 == |items| then replacement else Last(items));
    TakesPlace(items, k, replacement);
  }

  method TakeLinks(parent: Node, item: Node, replacement: Node, ghost items: seq<Node>, ghost k: nat)
    requires IsList(parent, items) && 0 < k < |items| && items[k] == item && replacement !in items
    modifies Members(items)`next, Members(items)`prev, replacement`next, replacement`prev
    ensures parent.child == items[0]
    ensures replacement.next == NextOf(items, k) && replacement.prev == PrevOf(items, k)
    ensures Nexts(items, k, replacement)
    ensures Prevs(items, k, replacement, if k + 1 == |items| then replacement else Last(items))
  {
    TakeAfter(item, replacement, items, k);
    TakeEnds(parent, replacement, items, k);
  }

  method TakeEnds(parent: Node, replacement: Node, ghost items: seq<Node>, ghost k: nat)
    requires NoRepeats(items) && 0 < k < |items| && parent.child == items[0] && replacement !in items
    requires replacement.next == NextOf(items, k) && replacement.prev == PrevOf(items, k)
    requires Nexts(items, k, items[k]) && Prevs(items, k, replacement, Last(items))
    modifies Members(items)`next, Members(items)`prev
    ensures replacement.next == NextOf(items, k) && replacement.prev == PrevOf(items, k)
    ensures Nexts(items, k, replacement)
    ensures Prevs(items, k, replacement, if k + 1 == |items| then replacement else Last(items))
  {
    TakeBefore(replacement, items, k);
    TakeLast(parent, replacement, items, k);
  }

  /** The first one's prev, when the replaced item was the last. */
  method TakeLast(parent: Node, replacement: Node, ghost items: seq<Node>, ghost k: nat)
    requires NoRepeats(items) && 0 < k < |items| && parent.child == items[0] && replacement !in items
    requires replacement.next == NextOf(items, k) && replacement.prev == PrevOf(items, k)
    requires Nexts(items, k, replacement) && Prevs(items, k, replacement, Last(items))
    modifies Members(items)`prev
    ensures replacement.next == NextOf(items, k) && replacement.prev == PrevOf(items, k)
    ensures Nexts(items, k, replacement)
    ensures Prevs(items, k, replacement, if k + 1 == |items| then replacement else Last(items))
  {
    if replacement.next == null {
      parent.child.prev := replacement;
    }
  }

  /** The link from the item before it. */
  method TakeBefore(replacement: Node, ghost items: seq<Node>, ghost k: nat)
    requires NoRepeats(items) && 0 < k < |items| && replacement !in items
    requires replacement.next == NextOf(items, k) && replacement.prev == PrevOf(items, k)
    requires Nexts(items, k, items[k]) && Prevs(items, k, replacement, Last(items))
    modifies Members(items)`next
    ensures replacement.next == NextOf(items, k) && replacement.prev == PrevOf(items, k)
    ensures Nexts(items, k, replacement) && Prevs(items, k, replacement, Last(items))
  {
    if replacement.prev != null {
      replacement.prev.next := replacement;
    }
  }

  /** The replacement's own links, and the link back from the item behind it. */
  method TakeAfter(item: Node, replacement: Node, ghost items: seq<Node>, ghost k: nat)
    requires Linked(items) && 0 < k < |items| && items[k] == item && replacement !in items
    modifies Members(items)`prev, replacement`next, replacement`prev
    ensures replacement.next == NextOf(items, k) && replacement.prev == PrevOf(items, k)
    ensures Nexts(items, k, item) && Prevs(items, k, replacement, Last(items))
  {
    replacement.next := item.next;
    replacement.prev := item.prev;
    if replacement.next != null {
      assert replacement.next == items[k + 1];
      replacement.next.prev := replacement;
    }
  }
}
