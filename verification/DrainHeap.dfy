/**
  The drain of a slot on the heap, with callbacks that remove items still waiting in it: what the pointers lead
  to is what module DrainRemoval says.
*/
module DrainHeap {
  import opened Prelude
  import opened ExpIndexedList
  import opened DrainRemoval

  type Links = map<Item, Item?>

  /** The `next`, the `prev` and the `lst` of the items of a slot. */
  datatype View = View(next: Links, prev: Links, linked: set<Item>)

  /** Each item of `w` leads to the one behind it, the last one nowhere. */
  ghost predicate Leads(next: Links, w: seq<Item>) {
    forall i | 0 <= i < |w| :: w[i] in next && next[w[i]] == Nth(w, i + 1)
  }

  /** Each item of `left` leads back to the one before it, the first one to `anchor`. */
  ghost predicate Back(prev: Links, left: seq<Item>, anchor: Item?) {
    forall i | 0 <= i < |left| :: left[i] in prev && prev[left[i]] == Before(left, anchor, i)
  }

  ghost function Before(left: seq<Item>, anchor: Item?, i: nat): Item?
    requires i < |left|
  {
    if i == 0 then anchor else left[i - 1]
  }

  function Elems(s: seq<Item>): set<Item> {
    set x | x in s
  }

  /** The way of the loop; its linked part leads back to an item that has left, which is `anchor`. */
  ghost predicate Trail(slot: set<Item>, v: View, a: Ahead<Item>, anchor: Item?) {
    && v.next.Keys == slot && v.prev.Keys == slot && Elems(Way(a)) <= slot
    && NoDup(Way(a)) && anchor !in Way(a)
    && (anchor != null ==> anchor in slot) && (a.lost != [] ==> anchor != null)
    && Leads(v.next, Way(a)) && Back(v.prev, a.left, anchor) && v.linked == Elems(a.left)
  }

  /** What `rem` does to the pointers of a linked item. */
  ghost function Unlinked(v: View, y: Item): View
    requires y in v.prev && y in v.next
  {
    var p, n := v.prev[y], v.next[y];
    View(if p != null then v.next[p := n] else v.next, if n != null then v.prev[n := p] else v.prev, v.linked - {y})
  }

  // ----- the links of a sequence

  lemma LeadsElsewhere(next: Links, w: seq<Item>, p: Item, n: Item?)
    requires Leads(next, w) && p !in w
    ensures Leads(next[p := n], w)
  {
  }

  lemma BackRest(prev: Links, left: seq<Item>, anchor: Item?)
    requires Back(prev, left, anchor) && NoDup(left) && left != []
    ensures var n := Nth(left, 1);
      Back(if n != null then prev[n := anchor] else prev, left[1..], anchor)
  {
    var rest, n := left[1..], Nth(left, 1);
    var prev' := if n != null then prev[n := anchor] else prev;
    forall i | 0 <= i < |rest| ensures rest[i] in prev' && prev'[rest[i]] == Before(rest, anchor, i) {
      assert rest[i] == left[i + 1];
    }
  }

  lemma SkippingAt(s: seq<Item>, m: nat, i: nat)
    requires m < |s| && i + 1 < |s|
    ensures |Skipping(s, m)| == |s| - 1 && Skipping(s, m)[i] == if i < m then s[i] else s[i + 1]
  {
  }

  lemma LeadsPast(next: Links, w: seq<Item>, m: nat)
    requires Leads(next, w) && NoDup(w) && 0 < m < |w|
    ensures Leads(next[w[m - 1] := next[w[m]]], Skipping(w, m))
  {
    hide Skipping;
    var u, next' := Skipping(w, m), next[w[m - 1] := next[w[m]]];
    SkippingAt(w, m, 0);
    forall i | 0 <= i < |u| ensures u[i] in next' && next'[u[i]] == Nth(u, i + 1) {
      SkippingAt(w, m, i);
      if i + 1 < |u| {
        SkippingAt(w, m, i + 1);
      }
    }
  }

  lemma BackPast(prev: Links, left: seq<Item>, anchor: Item?, m: nat)
    requires Back(prev, left, anchor) && NoDup(left) && 0 < m < |left|
    ensures var n := Nth(left, m + 1);
      Back(if n != null then prev[n := prev[left[m]]] else prev, Skipping(left, m), anchor)
  {
    hide Skipping;
    var u, n := Skipping(left, m), Nth(left, m + 1);
    var prev' := if n != null then prev[n := prev[left[m]]] else prev;
    SkippingAt(left, m, 0);
    forall i | 0 <= i < |u| ensures u[i] in prev' && prev'[u[i]] == Before(u, anchor, i) {
      SkippingAt(left, m, i);
      if i > 0 {
        SkippingAt(left, m, i - 1);
      }
    }
  }

  // ----- removing on the way

  /** Where the linked items stand on the way. */
  lemma LeftAt(a: Ahead<Item>, i: nat)
    requires NoDup(Way(a)) && i < |a.left|
    ensures Way(a)[|a.lost| + i] == a.left[i] && a.left[i] in Way(a)
    ensures NoDup(a.left) && Nth(Way(a), |a.lost| + i + 1) == Nth(a.left, i + 1)
    ensures i > 0 ==> Way(a)[|a.lost| + i - 1] == a.left[i - 1]
  {
    HalvesApart(a);
  }

  /** The first linked item is removed: only an item that has left loses its way to it. */
  lemma FirstUnlinked(slot: set<Item>, v: View, a: Ahead<Item>, anchor: Item)
    requires Trail(slot, v, a, anchor) && a.left != []
    ensures Trail(slot, Unlinked(v, a.left[0]), Removed(a, a.left[0]), anchor)
  {
    hide NoDup, Leads, Back;
    var y, n := a.left[0], Nth(a.left, 1);
    LeftAt(a, 0);
    assert v.prev[y] == anchor && v.next[y] == n by { FirstLinks(v, a, anchor); }
    LeadsElsewhere(v.next, Way(a), anchor, n);
    BackRest(v.prev, a.left, anchor);
    assert Way(Removed(a, y)) == Way(a);
    assert Elems(a.left[1..]) == Elems(a.left) - {y} by { RestElems(a.left); }
  }

  lemma FirstLinks(v: View, a: Ahead<Item>, anchor: Item?)
    requires Leads(v.next, Way(a)) && Back(v.prev, a.left, anchor) && a.left != [] && NoDup(Way(a))
    ensures a.left[0] in v.prev && v.prev[a.left[0]] == anchor
    ensures a.left[0] in v.next && v.next[a.left[0]] == Nth(a.left, 1)
  {
    LeftAt(a, 0);
  }

  lemma RestElems(s: seq<Item>)
    requires NoDup(s) && s != []
    ensures Elems(s[1..]) == Elems(s) - {s[0]}
  {
    assert s == [s[0]] + s[1..];
  }

  /** A later linked item is removed: the item before it, to which the loop will come, leads past it. */
  lemma LaterUnlinked(slot: set<Item>, v: View, a: Ahead<Item>, anchor: Item, m: nat)
    requires Trail(slot, v, a, anchor) && 0 < m < |a.left|
    ensures Trail(slot, Unlinked(v, a.left[m]), Removed(a, a.left[m]), anchor)
  {
    hide NoDup, Leads, Back, Skipping;
    var y, n, k := a.left[m], Nth(a.left, m + 1), |a.lost| + m;
    LeftAt(a, m);
    assert v.prev[y] == a.left[m - 1] && v.next[y] == n by { LaterLinks(v, a, anchor, m); }
    LeadsPast(v.next, Way(a), k);
    BackPast(v.prev, a.left, anchor, m);
    SkipWay(a, m);
    assert y != a.left[0] by { FirstOther(a.left, m); }
    OmitAt(a.left, m);
    SkipElems(a.left, m);
    SkipElems(Way(a), k);
    var u, r := Unlinked(v, y), Removed(a, y);
    assert r == a.(left := Skipping(a.left, m)) && Way(r) == Skipping(Way(a), k);
    assert Elems(Way(r)) <= Elems(Way(a)) && anchor !in Elems(Way(r));
    assert u.next == v.next[Way(a)[k - 1] := v.next[Way(a)[k]]];
    assert Leads(u.next, Way(r));
    assert Back(u.prev, r.left, anchor);
    assert u.linked == Elems(r.left);
  }

  lemma LaterLinks(v: View, a: Ahead<Item>, anchor: Item?, m: nat)
    requires Leads(v.next, Way(a)) && Back(v.prev, a.left, anchor) && 0 < m < |a.left| && NoDup(Way(a))
    ensures a.left[m] in v.prev && v.prev[a.left[m]] == a.left[m - 1]
    ensures a.left[m] in v.next && v.next[a.left[m]] == Nth(a.left, m + 1)
  {
    LeftAt(a, m);
  }

  lemma FirstOther(s: seq<Item>, m: nat)
    requires NoDup(s) && 0 < m < |s|
    ensures s[m] != s[0]
  {
  }

  lemma SkipWay(a: Ahead<Item>, m: nat)
    requires m < |a.left|
    ensures Skipping(Way(a), |a.lost| + m) == a.lost + Skipping(a.left, m)
  {
  }

  lemma SkipElems(s: seq<Item>, m: nat)
    requires NoDup(s) && m < |s|
    ensures Elems(Skipping(s, m)) == Elems(s) - {s[m]} && NoDup(Skipping(s, m))
  {
    OmitAt(s, m);
    OmitMembers(s, {s[m]});
  }

  /** A `rem` in the code's pointers is a removal in the sense of the sequence. */
  lemma RemTrail(slot: set<Item>, v: View, a: Ahead<Item>, anchor: Item, y: Item)
    requires Trail(slot, v, a, anchor) && y in a.left
    ensures Trail(slot, Unlinked(v, y), Removed(a, y), anchor)
  {
    hide Trail, Unlinked, Removed;
    var m := IndexOf(a.left, y);
    if m == 0 {
      FirstUnlinked(slot, v, a, anchor);
    } else {
      LaterUnlinked(slot, v, a, anchor, m);
    }
  }

  /** The loop visits the next item, which is linked no more; its own callback finds an item before every linked one. */
  lemma NextTrail(slot: set<Item>, v: View, a: Ahead<Item>, anchor: Item?)
    requires Trail(slot, v, a, anchor) && Way(a) != []
    ensures var x := Way(a)[0];
      && x in v.next && v.next[x] == Nth(Way(Next(a)), 0)
      && Trail(slot, v.(linked := v.linked - {x}), Next(a), if a.lost != [] then anchor else x)
  {
    hide NoDup, Leads, Back;
    var x := Way(a)[0];
    NextWay(a);
    HalvesApart(a);
    LeadsRest(v.next, Way(a));
    if a.lost == [] {
      assert x == a.left[0];
      BackTail(v.prev, a.left, anchor);
      RestElems(a.left);
    } else {
      assert x == a.lost[0] && x in a.lost;
    }
  }

  lemma LeadsRest(next: Links, w: seq<Item>)
    requires Leads(next, w) && w != []
    ensures Leads(next, w[1..]) && next[w[0]] == Nth(w[1..], 0)
  {
    var rest := w[1..];
    forall i | 0 <= i < |rest| ensures rest[i] in next && next[rest[i]] == Nth(rest, i + 1) {
      assert rest[i] == w[i + 1];
    }
  }

  lemma BackTail(prev: Links, left: seq<Item>, anchor: Item?)
    requires Back(prev, left, anchor) && left != []
    ensures Back(prev, left[1..], left[0])
  {
    var rest := left[1..];
    forall i | 0 <= i < |rest| ensures rest[i] in prev && prev[rest[i]] == Before(rest, left[0], i) {
      assert rest[i] == left[i + 1];
    }
  }

  // ----- the code

  /** The pointers `u` are those of the heap. */
  ghost predicate Shows(u: View, slot: set<Item>)
    reads slot
  {
    && u.next.Keys == slot && u.prev.Keys == slot
    && forall x | x in slot :: x.next == u.next[x] && x.prev == u.prev[x] && (x.lst != null <==> x in u.linked)
  }

  /** The writes of ExpIndexedList::rem. */
  method Unlink(y: Item, b: Bucket, ghost slot: set<Item>, ghost v: View)
    requires Shows(v, slot) && y in slot
    requires y.prev != null ==> y.prev in slot && y.prev != y
    requires y.next != null ==> y.next in slot && y.next != y
    modifies b`head, slot
    ensures Shows(Unlinked(v, y), slot)
  {
    y.lst := null;
    if y.prev != null {
      y.prev.next := y.next;
    } else {
      b.head := y.next;
    }
    if y.next != null {
      y.next.prev := y.prev;
    }
  }

  /** ExpIndexedList::rem, on an item of the slot being drained. */
  method Rem(y: Item, b: Bucket, ghost slot: set<Item>, ghost v: View, ghost a: Ahead<Item>, ghost anchor: Item)
    returns (ghost v': View)
    requires Shows(v, slot) && Trail(slot, v, a, anchor) && y in slot
    modifies b`head, slot
    ensures Shows(v', slot) && Trail(slot, v', Removed(a, y), anchor)
  {
    hide Trail, Removed, Unlinked;
    LinkedWhen(slot, v, a, anchor, y);
    v' := v;
    if y.lst != null {
      RemTrail(slot, v, a, anchor, y);
      Unlink(y, b, slot, v);
      v' := Unlinked(v, y);
    }
  }

  /** What `rem` looks at. */
  lemma LinkedWhen(slot: set<Item>, v: View, a: Ahead<Item>, anchor: Item, y: Item)
    requires Trail(slot, v, a, anchor)
    ensures y in v.linked <==> y in a.left
    ensures y !in a.left ==> Removed(a, y) == a
    ensures y in a.left ==>
      && y in v.prev && v.prev[y] != null && v.prev[y] in slot && v.prev[y] != y
      && y in v.next && v.next[y] != y && (v.next[y] != null ==> v.next[y] in slot)
  {
    hide NoDup, Leads, Back;
    if y in a.left {
      var m := IndexOf(a.left, y);
      LeftAt(a, m);
      if m == 0 {
        FirstLinks(v, a, anchor);
      } else {
        LaterLinks(v, a, anchor, m);
        FirstOther(a.left[m - 1..], 1);
      }
    }
  }

  /** A callback that removes `ys`. */
  method CallBack(ys: seq<Item>, b: Bucket, ghost slot: set<Item>, ghost v: View, ghost a: Ahead<Item>, ghost anchor: Item)
    returns (ghost v': View)
    requires Shows(v, slot) && Trail(slot, v, a, anchor) && forall y | y in ys :: y in slot
    modifies b`head, slot
    ensures Shows(v', slot) && Trail(slot, v', AllRemoved(a, ys), anchor)
  {
    hide Trail, Removed, Shows;
    v' := v;
    ghost var c := a;
    var i := 0;
    assert ys[0..] == ys;
    while i < |ys|
      invariant i <= |ys| && Shows(v', slot) && Trail(slot, v', c, anchor)
      invariant AllRemoved(c, ys[i..]) == AllRemoved(a, ys)
    {
      assert ys[i..][0] == ys[i] && ys[i..][1..] == ys[i + 1..] && ys[i] in ys;
      v' := Rem(ys[i], b, slot, v', c, anchor);
      c := Removed(c, ys[i]);
      i := i + 1;
    }
  }

  /** One turn of the loop: the item leaves, its successor is taken, and then its callback runs. */
  method Visit(item: Item, b: Bucket, script: Item -> seq<Item>, ghost slot: set<Item>, ghost v: View,
               ghost a: Ahead<Item>, ghost anchor: Item?)
    returns (ptr: Item?, ghost v': View, ghost anchor': Item)
    requires Shows(v, slot) && Trail(slot, v, a, anchor) && Way(a) != [] && item == Way(a)[0]
    requires forall y | y in script(item) :: y in slot
    modifies b`head, slot
    ensures Shows(v', slot) && Trail(slot, v', After(a, script), anchor')
    ensures ptr == Nth(Way(After(a, script)), 0)
  {
    hide Trail, Next, Way, AllRemoved;
    FirstStays(Next(a), script(item));
    NextTrail(slot, v, a, anchor);
    anchor' := if a.lost != [] then TrailAnchor(slot, v, a, anchor) else item;
    VisitedInSlot(slot, v, a, anchor);
    ptr := item.next;
    item.lst := null;
    v' := CallBack(script(item), b, slot, v.(linked := v.linked - {item}), Next(a), anchor');
  }

  ghost function TrailAnchor(slot: set<Item>, v: View, a: Ahead<Item>, anchor: Item?): (r: Item)
    requires Trail(slot, v, a, anchor) && a.lost != []
    ensures r == anchor
  {
    anchor
  }

  lemma VisitedInSlot(slot: set<Item>, v: View, a: Ahead<Item>, anchor: Item?)
    requires Trail(slot, v, a, anchor) && Way(a) != []
    ensures Way(a)[0] in slot
  {
    assert Way(a)[0] in Elems(Way(a));
  }

  /** The item that the loop has taken is the one it goes on with, whatever the callback removes. */
  lemma {:induction false} FirstStays(a: Ahead<Item>, ys: seq<Item>)
    ensures Nth(Way(AllRemoved(a, ys)), 0) == Nth(Way(a), 0)
    decreases |ys|
  {
    hide Skipping, IndexOf;
    if ys != [] {
      FirstOfRemoved(a, ys[0]);
      FirstStays(Removed(a, ys[0]), ys[1..]);
    }
  }

  lemma FirstOfRemoved(a: Ahead<Item>, y: Item)
    ensures Nth(Way(Removed(a, y)), 0) == Nth(Way(a), 0)
  {
    if y in a.left && y != a.left[0] {
      var m := IndexOf(a.left, y);
      assert Skipping(a.left, m)[0] == a.left[0];
    }
  }

  /** Before the drain: a well-formed bucket. */
  lemma TrailStarts(b: Bucket, slot: set<Item>) returns (v: View)
    requires b.Linked() && slot == Elems(b.items)
    ensures Shows(v, slot) && Trail(slot, v, Ahead([], b.items), null) && b.head == Nth(b.items, 0)
  {
    hide Leads, Back, Bucket.Linked, NoDup;
    v := View(map x | x in slot :: x.next, map x | x in slot :: x.prev, set x | x in slot && x.lst != null);
    StartsOnce(b);
    StartLinks(b, v.next, v.prev);
    LinkedAll(b);
    assert v.linked == slot;
  }

  lemma LinkedAll(b: Bucket)
    requires b.Linked()
    ensures b.head == Nth(b.items, 0) && forall x | x in b.items :: x.lst == b
  {
  }

  lemma StartLinks(b: Bucket, next: Links, prev: Links)
    requires b.Linked() && forall x | x in b.items :: x in next && next[x] == x.next && x in prev && prev[x] == x.prev
    ensures Leads(next, b.items) && Back(prev, b.items, null)
  {
    var items := b.items;
    forall i | 0 <= i < |items|
      ensures items[i] in next && next[items[i]] == Nth(items, i + 1)
      ensures items[i] in prev && prev[items[i]] == Before(items, null, i)
    {
      assert items[i] in items && items[i].next == Nth(items, i + 1) && items[i].prev == Nth(items, i - 1);
    }
  }

  /**
    The drain of a slot whose callbacks remove items of the slot, in the code's own pointers: the items that fire
    are those of the slot, in order, without those that a callback removes while a linked item of the slot stands
    before them.
  */
  method Drain(b: Bucket, script: Item -> seq<Item>, ghost slot: set<Item>) returns (fired: seq<Item>)
    requires b.Linked() && slot == Elems(b.items)
    requires forall x, y | x in slot && y in script(x) :: y in slot
    modifies b`head, slot
    ensures b.head == null && forall x | x in slot :: x.lst == null
    ensures var a := Ahead([], old(b.items));
      fired == Fires(a, script) == Omit(old(b.items), Spared(a, script))
  {
    hide Trail, Shows, After, Fires, Bucket.Linked, NoDup, Way, Omit, Spared, SparedBy, Next;
    ghost var a := Ahead([], b.items);
    ghost var all := a;
    ghost var anchor: Item? := null;
    ghost var v := TrailStarts(b, slot);
    StartsOnce(b);
    fired := [];
    var ptr := b.head;
    while ptr != null
      invariant Shows(v, slot) && Trail(slot, v, a, anchor) && ptr == Nth(Way(a), 0)
      invariant fired + Fires(a, script) == Fires(all, script)
      decreases |Way(a)|
    {
      var item: Item := ptr;
      fired := fired + [item];
      VisitedInSlot(slot, v, a, anchor);
      StepsOf(a, script);
      ptr, v, anchor := Visit(item, b, script, slot, v, a, anchor);
      a := After(a, script);
    }
    b.head := null;
    StepsOf(a, script);
    FiresWhen(all, script);
    AllGone(slot, v, a, anchor);
  }

  lemma StartsOnce(b: Bucket)
    requires b.Linked()
    ensures Way(Ahead([], b.items)) == b.items && NoDup(Way(Ahead([], b.items)))
  {
    assert [] + b.items == b.items;
  }

  lemma AllGone(slot: set<Item>, v: View, a: Ahead<Item>, anchor: Item?)
    requires Trail(slot, v, a, anchor) && Shows(v, slot) && Way(a) == []
    ensures forall x | x in slot :: x.lst == null
  {
  }
}