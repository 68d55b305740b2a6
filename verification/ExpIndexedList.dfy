/**
  The timing wheel on the heap: buckets are intrusive doubly linked lists whose
  nodes point back to the head cell of their bucket.  The methods are proved
  against the wheel of module TimingWheel.
*/
module ExpIndexedList {
  import opened Prelude
  import opened Radix
  import opened TimingWheel
  import opened DueCalendar

  /** An item with its links; `lst` is the cell that heads its bucket, null when it is in no bucket. */
  class Item {
    var lst: Bucket?
    var prev: Item?
    var next: Item?
    var offset: nat

    constructor ()
      ensures lst == null
    {
      lst, prev, next, offset := null, null, null, 0;
    }
  }

  ghost function Nth(s: seq<Item>, i: int): Item? {
    if 0 <= i < |s| then s[i] else null
  }

  /** The cell that heads one bucket. */
  class Bucket {
    ghost const pos: Pos
    var head: Item?
    ghost var items: seq<Item>

    constructor (ghost pos: Pos)
      ensures this.pos == pos && head == null && items == []
    {
      this.pos := pos;
      head, items := null, [];
    }

    ghost predicate Linked()
      reads this, items
    {
      && NoDup(items)
      && head == Nth(items, 0)
      && (forall i {:trigger items[i].lst} | 0 <= i < |items| :: items[i].lst == this)
      && (forall i {:trigger items[i].prev} | 0 <= i < |items| :: items[i].prev == Nth(items, i - 1))
      && (forall i {:trigger items[i].next} | 0 <= i < |items| :: items[i].next == Nth(items, i + 1))
    }

    /** Links depend on nothing but the cell and its items. */
    twostate lemma StillLinked()
      requires old(Linked()) && unchanged(this)
      requires forall x | x in items :: old(allocated(x)) && x.lst == old(x.lst) && x.prev == old(x.prev) && x.next == old(x.next)
      ensures Linked()
    {
    }

    lemma HeadsItems()
      requires Linked()
      ensures forall x | x in items :: x.lst == this
    {
    }

    method PushFront(item: Item)
      requires Linked() && item !in items
      modifies this, item`lst, item`prev, item`next, items`prev
      ensures Linked() && items == [item] + old(items)
    {
      if head != null {
        head.prev := item;
      }
      item.prev := null;
      item.lst := this;
      item.next := head;
      head := item;
      items := [item] + items;
    }

    method Unlink(item: Item) returns (ghost i: nat)
      requires Linked() && item in items
      modifies this, item`lst, items`prev, items`next
      ensures i < |old(items)| && old(items)[i] == item
      ensures Linked() && items == Without(old(items), i)
      ensures forall x :: x in items <==> x in old(items) && x != item
      ensures item.lst == null && item !in items
    {
      hide Without, Skip;
      i :| 0 <= i < |items| && items[i] == item;
      ghost var s := items;
      item.lst := null;
      if item.prev != null {
        item.prev.next := item.next;
      } else {
        head := item.next;
      }
      if item.next != null {
        item.next.prev := item.prev;
      }
      Relinked(s, i);
      items := Without(s, i);
    }

    /** Links that step over the element at `i` are the links of the sequence without it. */
    lemma Relinked(s: seq<Item>, i: nat)
      requires i < |s| && NoDup(s)
      requires forall m {:trigger s[m].lst} | 0 <= m < |s| && m != i :: s[m].lst == this
      requires forall m {:trigger s[m].next} | 0 <= m < |s| && m != i ::
                 s[m].next == Nth(s, if m + 1 == i then i + 1 else m + 1)
      requires forall m {:trigger s[m].prev} | 0 <= m < |s| && m != i ::
                 s[m].prev == Nth(s, if m == i + 1 then i - 1 else m - 1)
      ensures var w := Without(s, i);
        && NoDup(w) && (forall x :: x in w <==> x in s && x != s[i])
        && Nth(w, 0) == Nth(s, if i == 0 then 1 else 0)
        && (forall j {:trigger w[j].lst} | 0 <= j < |w| :: w[j].lst == this)
        && (forall j {:trigger w[j].prev} | 0 <= j < |w| :: w[j].prev == Nth(w, j - 1))
        && (forall j {:trigger w[j].next} | 0 <= j < |w| :: w[j].next == Nth(w, j + 1))
    {
      var w := Without(s, i);
      WithoutDistinct(s, i);
      WithoutNth(s, i);
      forall j | 0 <= j < |w|
        ensures w[j].lst == this && w[j].prev == Nth(w, j - 1) && w[j].next == Nth(w, j + 1)
      {
        assert w[j] == s[Skip(i, j)];
      }
    }
  }

  /** The place in the old sequence of what is at `j` once the element at `i` is gone. */
  ghost function Skip(i: nat, j: nat): nat {
    if j < i then j else j + 1
  }

  ghost function Without(s: seq<Item>, i: nat): seq<Item>
    requires i < |s|
  {
    s[..i] + s[i + 1..]
  }

  lemma WithoutNth(s: seq<Item>, i: nat)
    requires i < |s|
    ensures var w := Without(s, i);
      && |w| == |s| - 1
      && (forall j | 0 <= j < |w| :: w[j] == s[Skip(i, j)])
      && (forall j | -1 <= j <= |w| :: Nth(w, j) == Nth(s, if j < i then j else j + 1))
  {
  }

  lemma WithoutDistinct(s: seq<Item>, i: nat)
    requires i < |s| && NoDup(s)
    ensures NoDup(Without(s, i)) && s[i] !in Without(s, i)
    ensures forall x :: x in Without(s, i) <==> x in s && x != s[i]
  {
    var w := Without(s, i);
    forall j, k | 0 <= j < k < |w| ensures w[j] != w[k] {
      assert w[j] == s[Skip(i, j)] && w[k] == s[Skip(i, k)];
    }
    forall j | 0 <= j < |w| ensures w[j] != s[i] {
      assert w[j] == s[Skip(i, j)];
    }
    forall x | x in s && x != s[i] ensures x in w {
      var j :| 0 <= j < |s| && s[j] == x;
      assert w[if j < i then j else j - 1] == x;
    }
  }

  lemma DropFirst(m: map<Item, Node>, s: seq<Item>)
    requires s != [] && NoDup(s) && s[0] in m
    ensures forall x | x in s[1..] :: x in s
    ensures Elems(s[1..]) == Elems(s) - {s[0]}
    ensures (m - Elems(s))[s[0] := m[s[0]]] == m - Elems(s[1..])
  {
    assert s == [s[0]] + s[1..];
  }

  class ExpIndexedList {
    const sa: nat
    const nb: nat
    const sub_lists: seq<seq<Bucket>>
    const last: Bucket
    var cur_list: seq<nat>
    var offset: nat

    ghost const start: nat           // the offset the list was created with
    ghost const repr: set<Bucket>    // all the cells
    ghost var at: map<Item, Node>    // the items of the list, but for those of the slot being drained
    ghost var drained: Bucket?       // the cell being drained, if any
    ghost var waiting: seq<Item>     // the items of that cell that have not been handed out yet

    ghost predicate Geometry() {
      && sa >= 1 && nb >= 1 && |sub_lists| == nb
      && forall k | 0 <= k < nb :: |sub_lists[k]| == sa
    }

    function Cell(p: Pos): Bucket
      requires Geometry() && OkPos(sa, nb, p)
    {
      match p
      case Slot(k, s) => sub_lists[k][s]
      case Last => last
    }

    ghost predicate Cells() {
      && Geometry()
      && (forall p | OkPos(sa, nb, p) :: Cell(p) in repr && Cell(p).pos == p)
      && (forall b | b in repr :: OkPos(sa, nb, b.pos) && Cell(b.pos) == b)
    }

    /** Each item of the list is in the one cell its node says, with the due tick its node says. */
    ghost predicate Filed()
      reads `at, repr, at.Keys
    {
      forall x | x in at :: x.lst != null && x.lst in repr && Files(x.lst, x, at[x])
    }

    ghost predicate Files(b: Bucket, x: Item, n: Node)
      reads b, x
    {
      x.lst == b && b.pos == n.pos && x in b.items && x.offset == n.due
    }

    /** Every cell that is not being drained heads a well-formed doubly linked list of items of the list. */
    ghost predicate Listed()
      reads `at, `drained, repr, at.Keys
    {
      forall b | b in repr :: (forall x | x in b.items :: x in at) && (b != drained ==> b.Linked())
    }

    /** What is left of the slot being drained is a chain through `next`. */
    ghost predicate Queued()
      reads `at, `drained, `waiting, repr, waiting
    {
      && (if drained == null then waiting == [] else drained in repr && drained.items == [])
      && Chained(drained, waiting)
      && forall x | x in waiting :: x !in at
    }

    ghost predicate Chained(b: Bucket?, s: seq<Item>)
      reads s
    {
      && NoDup(s)
      && (forall x | x in s :: x.lst == b)
      && (forall i {:trigger s[i].next} | 0 <= i < |s| :: s[i].next == Nth(s, i + 1))
    }

    ghost predicate Linkage()
      reads `at, `drained, `waiting, repr, at.Keys, waiting
    {
      Cells() && Filed() && Listed() && Queued()
    }

    ghost function W(): Wheel<Item>
      reads this
    {
      Wheel(sa, nb, offset, cur_list, at)
    }

    /** The invariant, which also holds whenever a callback runs. */
    ghost predicate Valid()
      reads this, repr, at.Keys, waiting
    {
      && Linkage() && Good(W(), start)
      && (drained != null ==> cur_list[0] >= 1 && drained == Cell(Slot(0, cur_list[0] - 1)))
    }

    constructor (sa: nat, nb: nat, offset: nat)
      requires sa >= 1 && nb >= 1
      ensures Valid() && drained == null && start == offset && fresh(repr)
      ensures W() == Fresh(sa, nb, offset)
    {
      var levels: seq<seq<Bucket>> := [];
      var over := new Bucket(Last);
      ghost var cells := {over};
      var k := 0;
      while k < nb
        invariant k == |levels| <= nb && fresh(cells) && over in cells
        invariant over.pos == Last
        invariant forall j | 0 <= j < k :: |levels[j]| == sa
        invariant forall j, s | 0 <= j < k && 0 <= s < sa ::
                    levels[j][s] in cells && levels[j][s].pos == Slot(j, s)
        invariant forall b | b in cells :: b.head == null && b.items == []
        invariant forall b | b in cells ::
                    b == over || (b.pos.Slot? && b.pos.k < k && b.pos.s < sa && levels[b.pos.k][b.pos.s] == b)
      {
        var row: seq<Bucket> := [];
        while |row| < sa
          invariant |row| <= sa && fresh(cells) && over in cells
          invariant forall j, s | 0 <= j < k && 0 <= s < sa :: levels[j][s] in cells
          invariant forall s | 0 <= s < |row| :: row[s] in cells && row[s].pos == Slot(k, s)
          invariant forall b | b in cells :: b.head == null && b.items == []
          invariant forall b | b in cells ::
                      b == over
                      || (b.pos.Slot? && b.pos.k < k && b.pos.s < sa && levels[b.pos.k][b.pos.s] == b)
                      || (b.pos.Slot? && b.pos.k == k && b.pos.s < |row| && row[b.pos.s] == b)
        {
          var b := new Bucket(Slot(k, |row|));
          cells := cells + {b};
          row := row + [b];
        }
        levels := levels + [row];
        k := k + 1;
      }
      this.sa, this.nb, this.offset, this.start := sa, nb, offset, offset;
      sub_lists, last, repr := levels, over, cells;
      cur_list := seq(nb, _ => 0);
      at, drained, waiting := map[], null, [];
      new;
      FreshGood<Item>(sa, nb, offset);
    }

    /** A change to one bucket leaves the lists of the others, and the queue, as they were. */
    twostate lemma Untouched(cell: Bucket)
      requires old(Linkage()) && drained == old(drained) && waiting == old(waiting) && cell in repr
      requires forall b | b in repr && b != cell :: unchanged(b)
      requires forall x | x in old(at) && x !in old(cell.items) :: unchanged(x)
      requires forall x | x in waiting :: unchanged(x)
      requires drained != cell && forall x | x in waiting :: x !in at
      ensures forall b | b in repr && b != cell && b != drained :: b.Linked()
      ensures forall x | x in old(at) && x !in old(cell.items) ::
                x.lst != null && x.lst in repr && Files(x.lst, x, old(at)[x])
      ensures Queued()
    {
      forall b | b in repr && b != cell && b != drained
        ensures b.Linked()
      {
        assert old(b.Linked());
        assert forall x | x in b.items :: x in old(at) && x !in old(cell.items) by {
          assert old(cell.Linked());
        }
        b.StillLinked();
      }
      forall i | 0 <= i < |waiting|
        ensures waiting[i].next == old(waiting[i].next)
      {
        assert waiting[i] in waiting;
      }
    }

    method Link(cell: Bucket, item: Item, ghost n: Node)
      requires Linkage() && cell in repr && cell != drained && cell.pos == n.pos
      requires item !in at && item !in waiting && item.offset == n.due
      modifies cell, item`lst, item`prev, item`next, cell.items`prev, `at
      ensures Linkage() && at == old(at)[item := n]
      ensures forall b | b in repr && b.pos != n.pos :: b.items == old(b.items)
    {
      hide Bucket.Linked, Queued, Chained;
      CellLinked(cell);
      ApartFrom(item);
      cell.PushFront(item);
      at := at[item := n];
      cell.HeadsItems();
      Untouched(cell);
      assert Filed();
      assert Listed();
    }

    lemma CellLinked(cell: Bucket)
      requires Linkage() && cell in repr && cell != drained
      ensures cell.Linked() && forall x | x in cell.items :: x in at
    {
    }

    lemma ApartFrom(item: Item)
      requires Linkage() && item !in at && item !in waiting
      ensures forall x | x in waiting :: x !in at && x != item
      ensures forall b | b in repr :: item !in b.items
    {
    }

    method Detach(item: Item) returns (ghost i: nat)
      requires Linkage() && item in at
      modifies repr, item`lst, at.Keys`prev, at.Keys`next, `at
      ensures Linkage() && at == old(at) - {item} && item.lst == null
      ensures var cell := old(item.lst);
        cell in repr && i < |old(cell.items)| && old(cell.items)[i] == item
        && cell.items == Without(old(cell.items), i)
    {
      hide Bucket.Linked, Queued, Cells, Listed;
      Home(item);
      var cell := item.lst;
      i := cell.Unlink(item);
      at := at - {item};
      Untouched(cell);
      forall x | x in at && x in old(cell.items)
        ensures x.lst == cell && Files(cell, x, at[x])
      {
        assert old(x.lst) == cell && old(Files(cell, x, at[x]));
      }
      DetachedListed(cell);
    }

    /** The cell of an item of the list. */
    lemma Home(item: Item)
      requires Linkage() && item in at
      ensures item.lst != null && item.lst in repr && item.lst != drained && item.lst.Linked()
      ensures item in item.lst.items && item.lst.pos == at[item].pos
      ensures forall x | x in at :: x in item.lst.items <==> x.lst == item.lst
      ensures forall x | x in item.lst.items :: x in at
      ensures forall b, x | b in repr && b != item.lst && x in b.items :: x !in item.lst.items
      ensures forall x | x in waiting :: x !in at
    {
      assert Files(item.lst, item, at[item]);
      InCell(item.lst);
      assert item.lst.Linked();
      forall b, x | b in repr && b != item.lst && x in b.items ensures x !in item.lst.items {
        if b != drained {
          InCell(b);
        }
      }
    }

    twostate lemma DetachedListed(cell: Bucket)
      requires old(Listed()) && drained == old(drained) && cell in repr
      requires cell.Linked() && forall x | x in cell.items :: x in at
      requires forall b | b in repr && b != cell :: b.items == old(b.items) && (b != drained ==> b.Linked())
      requires forall x | x in old(at) && x !in old(cell.items) :: x in at
      requires forall b, x | b in repr && b != cell && x in old(b.items) :: x !in old(cell.items)
      ensures Listed()
    {
    }

    /** Puts an item into the slot of level `k` that lies `index` ticks ahead. */
    method AddLoc(k: nat, item: Item, index: nat, ghost n: Node)
      requires Linkage() && |cur_list| == nb && k < nb && n.pos == Landing(sa, cur_list, k, index)
      requires Cell(n.pos) != drained
      requires item !in at && item !in waiting && item.offset == n.due
      modifies repr, item`lst, item`prev, item`next, at.Keys`prev, `at
      ensures Linkage() && at == old(at)[item := n]
      ensures forall b | b in repr && b.pos != n.pos :: b.items == old(b.items)
    {
      var s := (cur_list[k] + index / Pow(sa, k)) % sa;
      assert Cell(Slot(k, s)) == sub_lists[k][s];
      Link(sub_lists[k][s], item, n);
    }

    /** `add`, from level `k` on: a level that does not reach `index` passes it to the next one. */
    method AddFrom(k: nat, item: Item, index: nat, ghost n: Node)
      requires Linkage() && Cursors(sa, cur_list) && |cur_list| == nb && k <= nb && First(sa, k) <= index
      requires n.pos == (var l := LevelFrom(sa, nb, k, index);
                         if l == nb then Last else Landing(sa, cur_list, l, index - First(sa, l)))
      requires Cell(n.pos) != drained
      requires item !in at && item !in waiting && item.offset == n.due
      modifies repr, item`lst, item`prev, item`next, at.Keys`prev, `at
      ensures Linkage() && at == old(at)[item := n]
      decreases nb - k
    {
      if k == nb {
        assert Cell(Last) == last;
        Link(last, item, n);
      } else if index >= First(sa, k + 1) {
        AddFrom(k + 1, item, index, n);
      } else {
        AddLoc(k, item, index - First(sa, k), n);
      }
    }

    /**
      Adds an item, unless it is linked already.  Also callable from a callback; then the index must
      not be that of the slot being drained.
    */
    method Add(item: Item, index: nat)
      requires Valid()
      requires item.lst != null ==> item in at || item in waiting
      requires drained != null ==> index + 1 != sa
      modifies this`at, repr, item, at.Keys`prev
      ensures Valid() && W() == old(W().Do(TimingWheel.Add(item, index), Elems(waiting)))
    {
      hide Synced, Wheel.Timed, Listed, Filed, Bucket.Linked, Wheel.Plan;
      ghost var op := TimingWheel.Add(item, index);
      ghost var w' := W().Do(op, Elems(waiting));
      DoKeeps(W(), start, op, Elems(waiting));
      Strangers();
      if item.lst == null {
        ghost var n := Node(W().Place(index), offset + index, 0);
        assert w' == W().(at := at[item := n]);
        if drained != null {
          PoliteMisses(W(), index);
        }
        AddNew(item, index, n);
      }
      assert W() == w' && Good(W(), start);
    }

    /** What is linked nowhere is neither in the list nor waiting. */
    lemma Strangers()
      requires Linkage()
      ensures forall x | x in at :: x.lst != null
      ensures forall x | x in waiting :: x !in at && x.lst == drained && drained != null
      ensures NoDup(waiting) && (drained == null ==> waiting == [])
    {
    }

    method AddNew(item: Item, index: nat, ghost n: Node)
      requires Linkage() && W().Shape() && n == Node(W().Place(index), offset + index, 0)
      requires Cell(n.pos) != drained && item !in at && item !in waiting
      modifies this`at, repr, item, at.Keys`prev
      ensures Linkage() && at == old(at)[item := n]
    {
      item.offset := offset + index;
      AddFrom(0, item, index, n);
    }

    /** Removes an item if it is linked; in a callback, not one still waiting in the drained slot. */
    method Rem(item: Item)
      requires Valid()
      requires item.lst != null ==> item in at
      modifies this`at, repr, item`lst, at.Keys`prev, at.Keys`next
      ensures Valid() && item.lst == null
      ensures W() == old(W().Do(TimingWheel.Rem(item), Elems(waiting)))
    {
      hide Synced, Wheel.Timed, Listed, Queued, Cells;
      ghost var w' := W().Do(TimingWheel.Rem(item), Elems(waiting));
      DoKeeps(W(), start, TimingWheel.Rem(item), Elems(waiting));
      if item.lst != null {
        ghost var i := Detach(item);
      }
      assert W() == w' && Good(W(), start);
    }

    /** The items of `lst` leave the list, to be handed out one by one. */
    ghost method StartDrain(lst: Bucket)
      requires Linkage() && drained == null && lst in repr
      modifies lst`items, `at, `drained, `waiting
      ensures Linkage() && drained == lst && waiting == old(lst.items)
      ensures lst.head == Nth(waiting, 0)
      ensures Elems(waiting) == old(AtPos(lst.pos))
      ensures forall x | x in waiting :: x.offset == old(at)[x].due
      ensures at == old(at) - Elems(waiting)
    {
      InCell(lst);
      assert lst.Linked();
      drained := lst;
      waiting := lst.items;
      assert Chained(lst, waiting);
      lst.items := [];
      at := at - Elems(waiting);
      Emptied(lst);
    }

    /** Emptying one cell, its items gone from the list, leaves the others alone. */
    twostate lemma Emptied(lst: Bucket)
      requires old(Linkage()) && old(drained) == null && drained == lst && lst in repr && lst.items == []
      requires at == old(at) - old(Elems(lst.items))
      requires forall x | x in old(at) :: unchanged(x)
      requires forall b | b in repr && b != lst :: unchanged(b)
      ensures Filed() && Listed()
    {
      assert old(lst.Linked());
      forall x | x in at ensures x.lst != null && x.lst in repr && Files(x.lst, x, at[x]) {
        assert x.lst != lst;
      }
      forall b | b in repr && b != lst ensures (forall x | x in b.items :: x in at) && b.Linked() {
        assert old(b.Linked());
        assert forall x | x in b.items :: x in old(at) && x.lst == b;
        assert forall x | x in old(lst.items) :: old(x.lst) == lst;
        b.StillLinked();
      }
    }

    lemma InCell(b: Bucket)
      requires Linkage() && b in repr && b != drained
      ensures forall x :: x in b.items <==> x in at && at[x].pos == b.pos
      ensures forall x | x in at :: x in b.items <==> x.lst == b
      ensures forall x | x in b.items :: x.offset == at[x].due
      ensures NoDup(b.items)
    {
      assert b.Linked();
      forall x | x in b.items ensures x in at && at[x].pos == b.pos && x.lst == b && x.offset == at[x].due {
        assert b.Linked();
        assert Files(x.lst, x, at[x]);
      }
      forall x | x in at && at[x].pos == b.pos ensures x in b.items {
        assert Files(x.lst, x, at[x]);
      }
    }

    /** The head of a drain loop: the first waiting item is unlinked, its successor is next. */
    method TakeNext(item: Item) returns (next: Item?)
      requires Linkage() && drained != null && waiting != [] && item == waiting[0]
      modifies item`lst, `waiting
      ensures Linkage() && waiting == old(waiting)[1..] && next == Nth(waiting, 0)
      ensures item.lst == null && item !in at && item !in waiting
    {
      hide Listed, Cells;
      next := item.next;
      item.lst := null;
      waiting := waiting[1..];
      assert forall i {:trigger waiting[i]} | 0 <= i < |waiting| :: waiting[i] == old(waiting)[i + 1];
    }

    method FinishDrain(lst: Bucket)
      requires Linkage() && drained == lst && waiting == []
      modifies lst`head, `drained
      ensures Linkage() && drained == null
    {
      lst.head := null;
      drained := null;
    }

    /** `target` has a place on level `k` for each item of `s`, at the distance it is due at. */
    ghost predicate Placed(target: map<Item, Node>, s: set<Item>, cur: seq<nat>, k: nat, t: nat)
      requires sa >= 1 && k < |cur|
    {
      forall x | x in s ::
        x in target && t <= target[x].due && target[x].pos == Landing(sa, cur, k, target[x].due - t)
    }

    /** One round of a drain loop: the first waiting item goes where `target` has a place for it on level `k`. */
    method Redispatch(item: Item, k: nat, globOffset: nat, ghost target: map<Item, Node>) returns (next: Item?)
      requires Linkage() && drained != null && drained.pos != Last && drained.pos.k != k && k < |cur_list| == nb
      requires waiting != [] && item == waiting[0]
      requires Placed(target, {item}, cur_list, k, globOffset) && item.offset == target[item].due
      requires at == target - Elems(waiting)
      modifies repr, item`lst, item`prev, item`next, at.Keys`prev, `at, `waiting
      ensures Linkage() && waiting == old(waiting)[1..] && next == Nth(waiting, 0)
      ensures at == target - Elems(waiting)
    {
      hide Landing, Filed, Listed;
      DropFirst(target, waiting);
      next := TakeNext(item);
      AddLoc(k, item, item.offset - globOffset, target[item]);
    }

    /** The drain loop: the waiting items go, one by one, to the places that `target` has for them on level `k`. */
    method DrainLoop(lst: Bucket, k: nat, globOffset: nat, ghost target: map<Item, Node>)
      requires Linkage() && drained == lst && lst.head == Nth(waiting, 0)
      requires k < |cur_list| == nb && lst.pos != Last && lst.pos.k != k
      requires Placed(target, Elems(waiting), cur_list, k, globOffset) && at == target - Elems(waiting)
      requires forall x | x in waiting :: x.offset == target[x].due
      modifies repr, waiting, at.Keys, `at, `waiting
      ensures Linkage() && drained == lst && waiting == [] && at == target
    {
      hide Landing, Filed, Listed, Cells;
      ghost var all := Elems(waiting);
      var ptr := lst.head;
      while ptr != null
        invariant Linkage() && drained == lst && ptr == Nth(waiting, 0)
        invariant Elems(waiting) <= all && at == target - Elems(waiting)
        invariant forall x | x in all :: x.offset == target[x].due
        decreases |waiting|
      {
        assert ptr in waiting && ptr in all;
        DropFirst(target, waiting);
        ptr := Redispatch(ptr, k, globOffset, target);
      }
    }

    ghost function AtPos(p: Pos): set<Item>
      reads `at
    {
      set x | x in at && at[x].pos == p
    }

    /** What a drain of level `k` asks of the list: the items of its slot go down one level, the others stay. */
    lemma SlotPlaces(k: nat, t: nat)
      requires Cells() && W().Shape() && k < nb && CanDrain(sa, cur_list, k) && W().Timed(t, k)
      ensures cur_list[k] < sa && sub_lists[k][cur_list[k]] in repr
      ensures sub_lists[k][cur_list[k]].pos == Slot(k, cur_list[k])
      ensures var (w, s, cur) := (W().DrainInto(t, k), AtPos(Slot(k, cur_list[k])), cur_list[k := cur_list[k] + 1]);
        && w == W().(cur := cur, at := w.at)
        && w.at - s == at - s
        && Placed(w.at, s, cur, k - 1, t)
        && forall x | x in s :: w.at[x].due == at[x].due
    {
      var (w, s, cur) := (W().DrainInto(t, k), AtPos(Slot(k, cur_list[k])), cur_list[k := cur_list[k] + 1]);
      assert Cell(Slot(k, cur_list[k])) == sub_lists[k][cur_list[k]];
      forall x | x in s
        ensures t <= at[x].due && w.at[x].pos == Landing(sa, cur, k - 1, at[x].due - t)
      {
        W().DrainMoved(t, k, at[x]);
      }
    }

    /** `shift` of level `1 <= k < nb` past its wrap: its slot goes down to level `k - 1`. */
    method DrainSlot(k: nat, globOffset: nat)
      requires Linkage() && drained == null && 1 <= k < nb
      requires W().Shape() && CanDrain(sa, cur_list, k) && W().Timed(globOffset, k)
      modifies repr, at.Keys, `at, `cur_list, `drained, `waiting
      ensures Linkage() && drained == null && W() == old(W().DrainInto(globOffset, k))
    {
      hide Wheel.DrainInto, Landing, Filed, Listed, Wheel.Timed, Placed;
      SlotPlaces(k, globOffset);
      ghost var target := W().DrainInto(globOffset, k).at;
      var lst := sub_lists[k][cur_list[k]];
      cur_list := cur_list[k := cur_list[k] + 1];
      StartDrain(lst);
      DrainLoop(lst, k - 1, globOffset, target);
      FinishDrain(lst);
    }

    /** What a drain of the overflow bucket asks of the list: its ripe items go down one level, the others stay. */
    lemma LastPlaces(t: nat)
      requires Linkage() && drained == null && W().Shape() && CanDrain(sa, cur_list, nb) && W().Timed(t, nb)
      ensures var w := W().DrainInto(t, nb);
        && w == W().(at := w.at)
        && LastTarget(at, w.at, cur_list, t)
        && Walking(at, w.at, [], last.items)
      ensures last.head == Nth(last.items, 0)
    {
      var w := W().DrainInto(t, nb);
      LastTargetHolds(t);
      assert Cell(Last) == last;
      InCell(last);
      assert last.Linked();
    }

    lemma LastTargetHolds(t: nat)
      requires Cells() && W().Shape() && CanDrain(sa, cur_list, nb) && W().Timed(t, nb)
      ensures LastTarget(at, W().DrainInto(t, nb).at, cur_list, t)
    {
      hide Wheel.Timed, Wheel.Next;
      W().LastMoves(t);
    }

    /** One item of the overflow bucket goes where `target` has a place for it. */
    method LastRound(item: Item, globOffset: nat, ghost target: map<Item, Node>, ghost kept: seq<Item>, ghost rest: seq<Item>)
      requires Linkage() && drained == null && last in repr && last.pos == Last && |cur_list| == nb
      requires last.items == kept + rest && rest != [] && item == rest[0]
      requires item in at && Placed(target, {item}, cur_list, nb - 1, globOffset)
      requires item.offset == target[item].due
      modifies repr, at.Keys`lst, at.Keys`prev, at.Keys`next, `at
      ensures Linkage() && drained == null && last.items == kept + rest[1..]
      ensures at == old(at)[item := target[item]]
    {
      hide Landing, Listed, Filed, Bucket.Linked, Placed;
      InCell(last);
      PlacedOne(target, item, globOffset);
      assert item == last.items[|kept|];
      ghost var all := last.items;
      ghost var n := target[item];
      ghost var i := Detach(item);
      assert i == |kept|;
      assert Without(all, i) == kept + rest[1..];
      AddLoc(nb - 1, item, item.offset - globOffset, n);
    }

    lemma PlacedOne(target: map<Item, Node>, item: Item, t: nat)
      requires nb >= 1 && sa >= 1 && |cur_list| == nb && Placed(target, {item}, cur_list, nb - 1, t)
      ensures item in target && t <= target[item].due
      ensures target[item].pos == Landing(sa, cur_list, nb - 1, target[item].due - t)
    {
      assert item in {item};
    }

    /** The overflow bucket has been walked up to `rest`; the items of `ripe` that were met are at their new place. */
    ghost predicate Walking(before: map<Item, Node>, target: map<Item, Node>, kept: seq<Item>, rest: seq<Item>)
      reads `at, `drained, `waiting, repr, at.Keys, waiting, last
    {
      && Linkage() && drained == null && last in repr && last.pos == Last
      && last.items == kept + rest
      && before.Keys == target.Keys == at.Keys
      && forall x | x in at :: at[x] == if x in rest then before[x] else target[x]
    }

    /** `target` says what the drain of the overflow bucket does to `before`. */
    ghost predicate LastTarget(before: map<Item, Node>, target: map<Item, Node>, cur: seq<nat>, t: nat)
      requires sa >= 1 && nb >= 1 && |cur| == nb
    {
      && before.Keys == target.Keys
      && (forall x | x in before && !(before[x].pos == Last && before[x].due < t + Pow(sa, nb)) :: target[x] == before[x])
      && (forall x | x in before && before[x].pos == Last && before[x].due < t + Pow(sa, nb) ::
            target[x].due == before[x].due && Placed(target, {x}, cur, nb - 1, t))
    }

    /** One round of the walk over the overflow bucket. */
    method LastStep(item: Item, globOffset: nat, ghost before: map<Item, Node>, ghost target: map<Item, Node>,
                    ghost kept: seq<Item>, ghost rest: seq<Item>)
      returns (next: Item?, ghost kept': seq<Item>)
      requires |cur_list| == nb && nb >= 1 && sa >= 1 && LastTarget(before, target, cur_list, globOffset)
      requires Walking(before, target, kept, rest) && rest != [] && item == rest[0]
      modifies repr, at.Keys`lst, at.Keys`prev, at.Keys`next, `at
      ensures Walking(before, target, kept', rest[1..]) && next == Nth(rest[1..], 0)
    {
      hide Landing, Filed, Listed, Bucket.Linked, Placed, Cells, Queued;
      InCell(last);
      Parts(kept, rest);
      next := NextOf(item, kept, rest);
      if item.offset < globOffset + Pow(sa, nb) {
        LastRound(item, globOffset, target, kept, rest);
        kept' := kept;
      } else {
        kept' := kept + [item];
      }
    }

    lemma Parts(kept: seq<Item>, rest: seq<Item>)
      requires rest != [] && NoDup(kept + rest)
      ensures rest[0] in kept + rest
      ensures kept + rest == kept + [rest[0]] + rest[1..]
      ensures forall x :: x in rest <==> x == rest[0] || x in rest[1..]
      ensures rest[0] !in rest[1..]
    {
      var all := kept + rest;
      assert all[|kept|] == rest[0];
      assert rest == [rest[0]] + rest[1..];
      forall i | 0 <= i < |rest[1..]| ensures rest[1..][i] != rest[0] {
        assert all[|kept| + 1 + i] == rest[1..][i];
      }
    }

    method NextOf(item: Item, ghost kept: seq<Item>, ghost rest: seq<Item>) returns (next: Item?)
      requires Linkage() && drained == null && last in repr && last.items == kept + rest && rest != [] && item == rest[0]
      ensures next == Nth(rest[1..], 0) && item in at && item.offset == at[item].due
    {
      InCell(last);
      assert last.Linked();
      assert last.items[|kept|] == item;
      next := item.next;
    }

    /** `shift` of the overflow bucket: the items due within one step of it go down to the last level. */
    method ShiftLast(globOffset: nat)
      requires Linkage() && drained == null
      requires W().Shape() && CanDrain(sa, cur_list, nb) && W().Timed(globOffset, nb)
      modifies repr, at.Keys`lst, at.Keys`prev, at.Keys`next, `at
      ensures Linkage() && drained == null && W() == old(W().DrainInto(globOffset, nb))
    {
      hide Wheel.DrainInto, Landing, Filed, Listed, Wheel.Timed, Bucket.Linked, LastTarget;
      ghost var before, target := at, W().DrainInto(globOffset, nb).at;
      LastPlaces(globOffset);
      ghost var kept: seq<Item>, rest := [], last.items;
      var ptr := last.head;
      while ptr != null
        invariant Walking(before, target, kept, rest) && ptr == Nth(rest, 0)
        decreases |rest|
      {
        ptr, kept := LastStep(ptr, globOffset, before, target, kept, rest);
        rest := rest[1..];
      }
    }

    /** `shift` of level `k >= 1`, with the level below as its receiver. */
    method ShiftLevel(k: nat, globOffset: nat)
      requires Linkage() && drained == null && 1 <= k <= nb
      requires W().Shape() && Reset(cur_list, k) && W().Timed(globOffset, k)
      modifies repr, at.Keys, `at, `cur_list, `drained, `waiting
      ensures Linkage() && drained == null && W() == old(W().Cascade(globOffset, k))
      decreases nb - k
    {
      hide Wheel.DrainInto, Filed, Listed, Queued, Cells, Wheel.Timed, Wheel.Plan;
      if k == nb {
        ShiftLast(globOffset);
      } else {
        if cur_list[k] == sa {
          W().WrapKeeps(globOffset, k);
          cur_list := cur_list[k := 0];
          ShiftLevel(k + 1, globOffset);
        }
        DrainSlot(k, globOffset);
      }
    }

    /** The requests of one callback, on items that are in this list or in none. */
    method RunScript(ops: seq<Op<Item>>, ghost used: set<Item>)
      requires Valid() && drained != null && Polite(sa, nb, ops, Elems(waiting))
      requires forall op | op in ops :: op.x in used
      requires forall x | x in used && x.lst != null :: x in at || x in waiting
      modifies `at, repr, at.Keys, used
      ensures Valid() && W() == old(W().DoAll(ops, Elems(waiting)))
      ensures at.Keys <= old(at.Keys) + used
      ensures forall x | x in used && x.lst != null :: x in at || x in waiting
    {
      hide Synced, Wheel.Timed, Filed, Listed, Queued, Wheel.Plan, Wheel.Place, NoDup;
      ghost var keys, late := at.Keys, Elems(waiting);
      var i := 0;
      while i < |ops|
        invariant 0 <= i <= |ops| && Valid() && at.Keys <= keys + used
        invariant W().DoAll(ops[i..], late) == old(W().DoAll(ops, late))
        invariant forall x | x in used && x.lst != null :: x in at || x in waiting
      {
        assert ops[i] in ops && ops[i..][0] == ops[i] && ops[i..][1..] == ops[i + 1..];
        match ops[i] {
          case Add(x, index) => Add(x, index);
          case Rem(x) => Rem(x);
        }
        i := i + 1;
      }
    }

    /** Advances the offset and, if level 0 has come to its end, runs the cascade. */
    method CascadeIn()
      requires Valid() && drained == null
      modifies this, repr, at.Keys
      ensures Linkage() && drained == null
      ensures W() == old(W().Opened()).(offset := old(offset) + 1)
    {
      hide Filed, Listed, Queued, Wheel.Timed, Wheel.Carries, Wheel.Cascade, Synced;
      var globOffset := offset;
      offset := offset + 1;
      W().(offset := globOffset).TimedOffset(globOffset, 0, offset);
      if cur_list[0] == sa {
        ghost var w := W().(offset := globOffset);
        w.WrapKeeps(globOffset, 0);
        W().WrapKeeps(globOffset, 0);
        w.Wrap(0).CascadeOffset(globOffset, 1, offset);
        cur_list := cur_list[0 := 0];
        assert W() == w.Wrap(0).(offset := offset);
        ShiftLevel(1, globOffset);
      }
    }

    /** The drain of level 0 takes the items of the slot under the cursor. */
    lemma TakenSlot(w: Wheel<Item>)
      requires Geometry() && Cells() && w.sa == sa && w.nb == nb && Good(w, start)
      ensures var (o, c) := (w.Opened(), w.Opened().cur);
        && |c| == nb && c[0] < sa && sub_lists[0][c[0]] in repr && sub_lists[0][c[0]].pos == Slot(0, c[0])
        && w.Fired() == (set x | x in o.at && o.at[x].pos == Slot(0, c[0]))
        && w.Taken() == o.(offset := w.offset + 1, cur := c[0 := c[0] + 1], at := o.at - w.Fired())
        && w.Fired() <= w.at.Keys && o.at.Keys == w.at.Keys
    {
      assert Cell(Slot(0, w.Opened().cur[0])) == sub_lists[0][w.Opened().cur[0]];
    }

    /** Starts the drain of level 0: the wheel is the one of the specification with the fired items taken out. */
    method OpenLevel0() returns (lst: Bucket)
      requires Valid() && drained == null
      modifies this, repr, at.Keys
      ensures Valid() && drained == lst && lst.head == Nth(waiting, 0)
      ensures W() == old(W().Taken()) && Elems(waiting) == old(W().Fired())
    {
      hide Filed, Listed, Queued, Wheel.Opened, Wheel.Fired, Wheel.Taken, Wheel.Timed, Synced, Wheel.Plan, Wheel.Carries, Bucket.Linked;
      ghost var w := W();
      TakenSlot(w);
      TakenGood(w, start);
      CascadeIn();
      lst := sub_lists[0][cur_list[0]];
      cur_list := cur_list[0 := cur_list[0] + 1];
      StartDrain(lst);
      assert W() == w.Taken();
    }

    /** The callbacks keep to the rules of a drain: no `rem` of another item that fires now, no `add` at `sa - 1`. */
    ghost predicate Courteous(script: Item -> seq<Op<Item>>, used: set<Item>, fired: set<Item>)
      requires sa >= 1
    {
      forall x, op | x in fired && op in script(x) ::
        && op.x in used
        && match op
           case Add(_, index) => index + 1 != sa
           case Rem(y) => y == x || y !in fired
    }

    lemma CourteousIsPolite(script: Item -> seq<Op<Item>>, used: set<Item>, order: seq<Item>)
      requires sa >= 1 && NoDup(order) && Courteous(script, used, Elems(order))
      ensures AllPolite(sa, nb, order, script)
    {
      forall i | 0 <= i < |order|
        ensures Polite(sa, nb, script(order[i]), Elems(order[i + 1..]))
      {
        assert order[i] in order && order[i] !in order[i + 1..];
        assert forall x | x in order[i + 1..] :: x in order;
      }
    }

    /** Every item of `used` is in this list or in none. */
    ghost predicate Ours(used: set<Item>)
      reads `at, `waiting, used
    {
      forall x | x in used && x.lst != null :: x in at || x in waiting
    }

    /** An item is linked after the drain has begun only if it is in the list or waits. */
    twostate lemma StillOurs(used: set<Item>)
      requires old(Ours(used)) && old(waiting) == [] && at.Keys == old(at.Keys) - Elems(waiting)
      requires forall x | x in used && x !in old(at) :: x.lst == old(x.lst)
      ensures Ours(used)
    {
      forall x | x in used && x.lst != null ensures x in at || x in waiting {
        assert x in old(at.Keys) ==> x in at.Keys || x in Elems(waiting);
      }
    }

    /** One round of the drain of level 0: the first waiting item is unlinked and its callback runs. */
    method FireRound(item: Item, script: Item -> seq<Op<Item>>, ghost used: set<Item>) returns (next: Item?)
      requires Valid() && drained != null && waiting != [] && item == waiting[0] && Ours(used)
      requires AllPolite(sa, nb, waiting, script) && forall op | op in script(item) :: op.x in used
      modifies `at, `waiting, repr, at.Keys, used, item`lst
      ensures Valid() && waiting == old(waiting)[1..] && next == Nth(waiting, 0)
      ensures W() == old(W()).DoAll(script(item), Elems(old(waiting)[1..]))
      ensures at.Keys <= old(at.Keys) + used && Ours(used)
    {
      hide Filed, Listed, Cells, Queued, NoDup, Synced, Wheel.Timed, Wheel.DoAll, Wheel.Plan, Polite, AllPolite, Cursors, Nth;
      PoliteTail(sa, nb, waiting, script);
      ghost var rest := waiting;
      assert forall x | x in rest :: x == item || x in rest[1..] by {
        assert rest == [item] + rest[1..];
      }
      next := TakeNext(item);
      RunScript(script(item), used);
    }

    /** The drain of level 0, with a callback on each waiting item. */
    method FireLoop(lst: Bucket, script: Item -> seq<Op<Item>>, ghost used: set<Item>) returns (fired: seq<Item>)
      requires Valid() && drained == lst && lst.head == Nth(waiting, 0) && Ours(used)
      requires AllPolite(sa, nb, waiting, script) && forall x, op | x in waiting && op in script(x) :: op.x in used
      modifies `at, `waiting, repr, at.Keys, used, waiting
      ensures Valid() && drained == lst && waiting == [] && fired == old(waiting)
      ensures W() == old(W().Deliver(waiting, script)) && Ours(used)
    {
      hide Filed, Listed, Cells, Queued, Synced, Wheel.Timed, AllPolite, Ours, Wheel.DoAll;
      ghost var all, keys := waiting, at.Keys;
      var ptr := lst.head;
      fired := [];
      while ptr != null
        invariant Valid() && drained == lst && ptr == Nth(waiting, 0)
        invariant fired + waiting == all && Ours(used) && AllPolite(sa, nb, waiting, script)
        invariant forall x | x in waiting :: x in all
        invariant at.Keys <= keys + used
        invariant W().Deliver(waiting, script) == old(W().Deliver(waiting, script))
        decreases |waiting|
      {
        var item: Item := ptr;
        assert item == waiting[0] && waiting == [item] + waiting[1..] && item in all;
        PoliteTail(sa, nb, waiting, script);
        fired := fired + [item];
        ptr := FireRound(item, script, used);
      }
    }

    /**
      One tick: the cascade, then the drain of level 0 with a callback on each item.  The callback on `x`
      runs the requests `script(x)` on this list; `used` holds the items they are about.
    */
    method Shift(script: Item -> seq<Op<Item>>, ghost used: set<Item>) returns (fired: seq<Item>)
      requires Valid() && drained == null && Ours(used)
      requires Courteous(script, used, W().Fired())
      modifies this, repr, at.Keys, used
      ensures Valid() && drained == null && Ours(used)
      ensures old(W()).Enabled(TimingWheel.Shift(fired, script))
      ensures W() == old(W()).Apply(TimingWheel.Shift(fired, script))
    {
      hide Filed, Listed, Queued, Wheel.Opened, Wheel.Fired, Wheel.Taken, Wheel.Timed, Synced, Landing, Wheel.Deliver, Wheel.Swept, Bucket.Linked, Wheel.Plan;
      ghost var w := W();
      TakenSlot(w);
      w.TakenItems();
      Strangers();
      var lst := OpenLevel0();
      Strangers();
      StillOurs(used);
      CourteousIsPolite(script, used, waiting);
      DeliverSwept(W(), waiting, script);
      fired := FireLoop(lst, script, used);
      FinishDrain(lst);
    }

    ghost predicate Before(p: Pos, k: nat, s: nat) {
      p.Slot? && (p.k < k || (p.k == k && p.s < s))
    }

    ghost function Seen(k: nat, s: nat): set<Item>
      reads `at
    {
      set x | x in at && Before(at[x].pos, k, s)
    }

    method CountCell(b: Bucket) returns (n: nat)
      requires Linkage() && drained == null && b in repr
      ensures n == |AtPos(b.pos)|
    {
      InCell(b);
      assert b.Linked();
      n := 0;
      var ptr := b.head;
      while ptr != null
        invariant n <= |b.items| && ptr == Nth(b.items, n)
        decreases |b.items| - n
      {
        ptr := ptr.next;
        n := n + 1;
      }
      DistinctCount(b.items);
      assert Elems(b.items) == AtPos(b.pos);
    }

    /** The number of items in the list. */
    method Size() returns (n: nat)
      requires Valid() && drained == null
      ensures n == |at|
    {
      hide Filed, Listed, Queued, Good, Seen, AtPos;
      n := 0;
      SeenNone();
      var k := 0;
      while k < nb
        invariant k <= nb && n == |Seen(k, 0)|
      {
        var s := 0;
        while s < sa
          invariant s <= sa && n == |Seen(k, s)|
        {
          assert Cell(Slot(k, s)) == sub_lists[k][s];
          var c := CountCell(sub_lists[k][s]);
          SeenMore(k, s);
          n := n + c;
          s := s + 1;
        }
        SeenRow(k);
        k := k + 1;
      }
      assert Cell(Last) == last;
      var c := CountCell(last);
      n := n + c;
      SeenAll();
    }

    lemma SeenNone()
      ensures |Seen(0, 0)| == 0
    {
      assert Seen(0, 0) == {};
    }

    lemma SeenMore(k: nat, s: nat)
      ensures |Seen(k, s + 1)| == |Seen(k, s)| + |AtPos(Slot(k, s))|
    {
      assert Seen(k, s + 1) == Seen(k, s) + AtPos(Slot(k, s));
    }

    lemma SeenRow(k: nat)
      requires Linkage() && drained == null
      ensures Seen(k, sa) == Seen(k + 1, 0)
    {
      forall x | x in at ensures at[x].pos.Slot? ==> at[x].pos.s < sa {
        Home(x);
      }
    }

    lemma SeenAll()
      requires Linkage() && drained == null
      ensures |at| == |Seen(nb, 0)| + |AtPos(Last)|
    {
      forall x | x in at ensures at[x].pos.Slot? ==> at[x].pos.k < nb {
        Home(x);
      }
      assert at.Keys == Seen(nb, 0) + AtPos(Last);
    }
  }

  lemma DistinctCount(s: seq<Item>)
    requires NoDup(s)
    ensures |Elems(s)| == |s|
  {
    if s != [] {
      DistinctCount(s[1..]);
      assert s == [s[0]] + s[1..];
      assert Elems(s) == {s[0]} + Elems(s[1..]);
    }
  }
}
