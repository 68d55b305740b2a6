/**
  The singly linked intrusive queue: the last element points to itself, so an
  element is linked exactly when its `next` is not null.
*/
module CiList {
  import opened Prelude

  class Node {
    var next: Node?
    var alive: bool     // false once the node has been deleted

    constructor ()
      ensures next == null && alive
    {
      next, alive := null, true;
    }
  }

  /** The node that follows `s[i]` in a chain: the next one, or `s[i]` itself at the end. */
  ghost function Succ(s: seq<Node>, i: nat): Node
    requires i < |s|
  {
    if i + 1 < |s| then s[i + 1] else s[i]
  }

  /** The nodes of `s` are linked one to the next, the last one to itself. */
  ghost predicate Chain(s: seq<Node>)
    reads s
  {
    && NoDup(s)
    && forall i {:trigger s[i].next} | 0 <= i < |s| :: s[i].next == Succ(s, i)
  }

  ghost function Nodes(s: seq<Node>): set<Node> {
    set x | x in s
  }

  lemma NodesConcat(s: seq<Node>, t: seq<Node>)
    ensures Nodes(s + t) == Nodes(s) + Nodes(t)
    ensures |t| == 1 ==> Nodes(t) == {t[0]}
  {
  }

  /** Two sequences form one chain when the last node of the first points to the first of the second. */
  lemma ChainJoin(p: seq<Node>, q: seq<Node>)
    requires NoDup(p) && NoDup(q) && Nodes(p) !! Nodes(q)
    requires forall i {:trigger p[i].next} | 0 <= i < |p| ::
               p[i].next == if i + 1 < |p| || q == [] then Succ(p, i) else q[0]
    requires forall i {:trigger q[i].next} | 0 <= i < |q| :: q[i].next == Succ(q, i)
    ensures Chain(p + q)
  {
    var s := p + q;
    forall i | 0 <= i < |s| ensures s[i].next == Succ(s, i) {
      if i < |p| {
        assert s[i] == p[i];
      } else {
        assert s[i] == q[i - |p|];
      }
    }
    forall i, j | 0 <= i < j < |s| ensures s[i] != s[j] {
      if i < |p| <= j {
        assert s[i] in Nodes(p) && s[j] in Nodes(q);
      }
    }
  }

  lemma Extended(s: seq<Node>, x: Node)
    requires NoDup(s) && x !in Nodes(s) && x.next == x
    requires forall i {:trigger s[i].next} | 0 <= i < |s| :: s[i].next == if i + 1 < |s| then s[i + 1] else x
    ensures Chain(s + [x])
  {
    assert [x][0].next == Succ([x], 0);
    NodesConcat([], [x]);
    ChainJoin(s, [x]);
  }

  class CiList {
    var head: Node?
    var tail: Node?
    ghost var items: seq<Node>
    ghost var members: set<Node>

    ghost predicate Valid()
      reads this, members
    {
      && members == Nodes(items)
      && Chain(items)
      && head == (if items == [] then null else items[0])
      && tail == (if items == [] then null else items[|items| - 1])
    }

    constructor ()
      ensures Valid() && items == [] && members == {}
    {
      head, tail, items, members := null, null, [], {};
    }

    /** Appends a node unless it is linked already, here or in another list. */
    method PushBack(item: Node)
      requires Valid()
      modifies this, item`next, members`next
      ensures Valid()
      ensures old(item.next) == null ==> items == old(items) + [item] && members == old(members) + {item}
      ensures old(item.next) != null ==> unchanged(this) && unchanged(item) && unchanged(old(members))
    {
      if item.next == null {
        LinkedIffNext(this);
        if tail != null {
          PushLast(item);
        } else {
          head := item;
          item.next := item;
          tail := item;
          items := [item];
          members := {item};
        }
      }
    }

    method PushLast(item: Node)
      requires Valid() && tail != null && item.next == null && item !in members
      modifies this, item`next, members`next
      ensures Valid() && items == old(items) + [item] && members == old(members) + {item}
    {
      hide Nodes, NoDup, Chain;
      LinkedIffNext(this);
      NodesConcat(items, [item]);
      tail.next := item;
      item.next := item;
      tail := item;
      Lengthened(item);
      items, members := items + [item], members + {item};
    }

    /** The last node of the chain has been made to point to `item`. */
    twostate lemma Lengthened(item: Node)
      requires old(Valid()) && items == old(items) && items != [] && members == old(members)
      requires old(item.next) == null && item !in members && item.next == item
      requires items[|items| - 1].next == item
      requires forall x | x in members && x != items[|items| - 1] :: x.next == old(x.next)
      ensures Chain(items + [item])
    {
      hide NoDup;
      assert NoDup(items) by { assert old(Chain(items)); }
      forall i | 0 <= i < |items| ensures items[i].next == if i + 1 < |items| then items[i + 1] else item {
        assert items[i] in members;
        Apart(items, i);
      }
      Extended(items, item);
    }

    lemma Apart(s: seq<Node>, i: nat)
      requires NoDup(s) && i < |s|
      ensures i + 1 < |s| ==> s[i] != s[|s| - 1]
    {
    }

    method PopFront() returns (res: Node?)
      requires Valid()
      modifies this, members`next
      ensures Valid()
      ensures old(items) == [] ==> res == null && items == []
      ensures old(items) != [] ==> res == old(items)[0] && items == old(items)[1..] && res.next == null
    {
      res := head;
      if res != null {
        if res.next == res {
          head := null;
          tail := null;
        } else {
          head := res.next;
        }
        res.next := null;
        ghost var s := items;
        items := s[1..];
        members := Nodes(items);
        assert s == [s[0]] + items;
      }
    }

    method Empty() returns (b: bool)
      requires Valid()
      ensures b <==> items == []
    {
      b := head == null;
    }

    /** Puts the nodes of `a` in front.  `a` is left pointing at them and must not be used any more. */
    method Prepend(a: CiList)
      requires Valid() && a.Valid() && a != this
      requires a.members !! members
      modifies this, a.members`next
      ensures Valid() && items == a.items + old(items) && members == a.members + old(members)
      ensures a.Valid() <==> a.items == [] || old(items) == []
    {
      if head != null {
        if a.head != null {
          a.tail.next := head;
          head := a.head;
        }
      } else {
        head := a.head;
        tail := a.tail;
      }
      ghost var p, q := a.items, items;
      ChainJoin(p, q);
      NodesConcat(p, q);
      items := p + q;
      members := a.members + members;
      if p != [] && q != [] {
        assert p[|p| - 1].next == q[0] && q[0] in Nodes(q) && p[|p| - 1] in Nodes(p);
      }
    }

    /** Empties the list and hands out its chain, which stays linked. */
    method Disconnect() returns (res: Node?)
      requires Valid()
      modifies this
      ensures Valid() && items == [] && members == {}
      ensures Chain(old(items)) && res == (if old(items) == [] then null else old(items)[0])
    {
      res := head;
      head := null;
      tail := null;
      items := [];
      members := {};
    }
  }

  /** Every member has a non-null `next`, and only the last one points to itself. */
  lemma LinkedIffNext(l: CiList)
    requires l.Valid()
    ensures forall x | x in l.members :: x.next != null && x.next in l.members && (x.next == x <==> x == l.tail)
    ensures l.head != null ==> l.head in l.members && l.tail in l.members
    ensures forall i | 0 <= i < |l.items| :: l.items[i] in l.members && (l.items[i] == l.tail <==> i + 1 == |l.items|)
  {
    var s := l.items;
    forall x | x in l.members
      ensures x.next != null && x.next in l.members && (x.next == x <==> x == l.tail)
    {
      var i :| 0 <= i < |s| && s[i] == x;
      assert s[i].next == Succ(s, i) && Succ(s, i) in s;
    }
  }
}
