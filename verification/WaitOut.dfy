/** One pass of the wait-out timer over the events whose descriptors still had output to flush. */
module WaitOut {
  import opened Prelude
  import opened CiList

  /** The nodes of `s` on which `p` answers `want`, in order. */
  ghost function Filter(p: Node -> bool, want: bool, s: seq<Node>): seq<Node> {
    if s == [] then []
    else
      var last := s[|s| - 1];
      Filter(p, want, s[..|s| - 1]) + if p(last) == want then [last] else []
  }

  /** `xs` appended one by one, each unless it is there already. */
  ghost function Append(s: seq<Node>, xs: seq<Node>): seq<Node> {
    if xs == [] then s
    else
      var s' := Append(s, xs[..|xs| - 1]);
      if xs[|xs| - 1] in s' then s' else s' + [xs[|xs| - 1]]
  }

  /** What other threads push during round `i` of a pass. */
  function During(arrivals: seq<seq<Node>>, i: nat): seq<Node> {
    if i < |arrivals| then arrivals[i] else []
  }

  /** What is not in the chain that the pass has taken; an event of the chain is linked, and is not pushed again. */
  ghost function NewOf(xs: seq<Node>, chain: seq<Node>): seq<Node> {
    if xs == [] then []
    else
      var last := xs[|xs| - 1];
      NewOf(xs[..|xs| - 1], chain) + if last in chain then [] else [last]
  }

  /** The list that they build in `n` rounds. */
  ghost function Arrived(chain: seq<Node>, arrivals: seq<seq<Node>>, n: nat): seq<Node> {
    if n == 0 then [] else Append(Arrived(chain, arrivals, n - 1), NewOf(During(arrivals, n - 1), chain))
  }

  lemma {:induction false} FilterMembers(p: Node -> bool, want: bool, s: seq<Node>)
    ensures forall x :: x in Filter(p, want, s) <==> x in s && p(x) == want
    decreases |s|
  {
    if s != [] {
      FilterMembers(p, want, s[..|s| - 1]);
      assert s == s[..|s| - 1] + [s[|s| - 1]];
    }
  }

  /** Each node of `s` is either kept or dropped, exactly once. */
  lemma {:induction false} FilterPartitions(p: Node -> bool, s: seq<Node>)
    ensures multiset(Filter(p, true, s)) + multiset(Filter(p, false, s)) == multiset(s)
    decreases |s|
  {
    if s != [] {
      var init, last := s[..|s| - 1], s[|s| - 1];
      FilterPartitions(p, init);
      assert s == init + [last];
      assert multiset(s) == multiset(init) + multiset{last};
      assert Filter(p, p(last), s) == Filter(p, p(last), init) + [last];
      assert Filter(p, !p(last), s) == Filter(p, !p(last), init);
    }
  }

  lemma FilterStep(p: Node -> bool, want: bool, s: seq<Node>, i: nat)
    requires i < |s|
    ensures Filter(p, want, s[..i + 1]) == Filter(p, want, s[..i]) + if p(s[i]) == want then [s[i]] else []
  {
    assert s[..i + 1][..i] == s[..i];
  }

  /** The nodes that other threads may push: linked just when they are in the list. */
  ghost predicate Outside(l: CiList, others: set<Node>)
    reads l, others
  {
    forall x | x in others :: x.alive && (x.next == null <==> x !in l.members)
  }

  /** Pushes a node of `others`, or one of the chain in `nodes`, which is linked and stays as it is. */
  method PushOne(l: CiList, x: Node, ghost nodes: set<Node>, ghost others: set<Node>)
    requires l.Valid() && Outside(l, others) && l.members <= others && others !! nodes
    requires x in others || (x in nodes && x.next != null)
    modifies l, others`next, nodes`next
    ensures l.Valid() && Outside(l, others) && l.members <= others
    ensures l.items == if x in nodes || x in old(l.items) then old(l.items) else old(l.items) + [x]
    ensures forall y | y in nodes :: y.next == old(y.next)
  {
    hide Chain, Nodes, CiList.Valid;
    MemberIff(l, x);
    ghost var before := l.members;
    l.PushBack(x);
    LinkedIffNext(l);
    forall y | y in others ensures y.alive && (y.next == null <==> y !in l.members) {
      if y !in l.members {
        assert y !in before && (x in nodes || y != x);
      }
    }
  }

  lemma MemberIff(l: CiList, x: Node)
    requires l.Valid()
    ensures x in l.members <==> x in l.items
  {
  }

  method PushAll(l: CiList, xs: seq<Node>, ghost chain: seq<Node>, ghost nodes: set<Node>, ghost others: set<Node>)
    requires l.Valid() && Outside(l, others) && l.members <= others && nodes == Nodes(chain) && others !! nodes
    requires forall x | x in xs :: x in others || (x in nodes && x.next != null)
    modifies l, others`next, nodes`next
    ensures l.Valid() && Outside(l, others) && l.members <= others
    ensures l.items == Append(old(l.items), NewOf(xs, chain))
    ensures forall y | y in nodes :: y.next == old(y.next)
  {
    hide Outside, Append, NewOf, CiList.Valid;
    AppendNone(l.items, chain);
    var i := 0;
    while i < |xs|
      invariant 0 <= i <= |xs| && l.Valid() && Outside(l, others) && l.members <= others
      invariant l.items == Append(old(l.items), NewOf(xs[..i], chain))
      invariant forall y | y in nodes :: y.next == old(y.next)
    {
      assert xs[i] in xs && (xs[i] in nodes <==> xs[i] in chain);
      NewOne(old(l.items), xs, chain, i);
      PushOne(l, xs[i], nodes, others);
      i := i + 1;
    }
    assert xs[..i] == xs;
  }

  lemma AppendNone(s: seq<Node>, chain: seq<Node>)
    ensures Append(s, NewOf([], chain)) == s
  {
  }

  lemma NewOne(s: seq<Node>, xs: seq<Node>, chain: seq<Node>, i: nat)
    requires i < |xs|
    ensures var s' := Append(s, NewOf(xs[..i], chain));
      Append(s, NewOf(xs[..i + 1], chain)) == if xs[i] in chain || xs[i] in s' then s' else s' + [xs[i]]
  {
    assert xs[..i + 1][..i] == xs[..i];
    var init := NewOf(xs[..i], chain);
    assert (init + [xs[i]])[..|init|] == init && init + [] == init;
  }

  /** The pass has dealt with the first `i` events of `chain`; the others are linked as they were. */
  ghost predicate Settled(chain: seq<Node>, nodes: set<Node>, i: nat, pending: Node -> bool, renewed: CiList, deleted: seq<Node>)
    requires i <= |chain|
    reads renewed, renewed.members, nodes
  {
    && nodes == Nodes(chain) && NoDup(chain)
    && renewed.Valid() && renewed.items == Filter(pending, true, chain[..i])
    && (forall j | i <= j < |chain| :: chain[j] !in renewed.members)
    && renewed.members <= nodes
    && deleted == Filter(pending, false, chain[..i])
    && (forall j {:trigger chain[j].alive} | 0 <= j < |chain| :: chain[j].alive <==> i <= j || pending(chain[j]))
    && (forall j {:trigger chain[j].next} | i <= j < |chain| :: chain[j].next == Succ(chain, j))
  }

  /** One event of the chain: put on the new list if it has output pending, deleted otherwise. */
  method Settle(ev: Node, pending: Node -> bool, renewed: CiList, deleted: seq<Node>,
                ghost chain: seq<Node>, ghost nodes: set<Node>, ghost i: nat)
    returns (deleted': seq<Node>)
    requires i < |chain| && ev == chain[i] && Settled(chain, nodes, i, pending, renewed, deleted)
    modifies renewed, nodes
    ensures Settled(chain, nodes, i + 1, pending, renewed, deleted')
  {
    hide Filter, Chain;
    FilterStep(pending, true, chain, i);
    FilterStep(pending, false, chain, i);
    assert ev in nodes;
    if pending(ev) {
      ev.next := null;
      renewed.PushBack(ev);
      deleted' := deleted;
    } else {
      ev.alive := false;
      deleted' := deleted + [ev];
    }
  }

  /** What may be pushed in round `i`: an event of `others`, or one of the chain that has not been deleted. */
  ghost predicate Pushable(arriving: seq<Node>, chain: seq<Node>, pending: Node -> bool, i: nat, others: set<Node>)
    requires i < |chain|
  {
    forall x | x in arriving :: x in others || (x in chain && (pending(x) || x !in chain[..i + 1]))
  }

  /** The events of the chain that exist are linked. */
  lemma SettledLinked(chain: seq<Node>, nodes: set<Node>, i: nat, pending: Node -> bool, renewed: CiList, deleted: seq<Node>)
    requires i <= |chain| && Settled(chain, nodes, i, pending, renewed, deleted)
    ensures forall x | x in chain && (pending(x) || x !in chain[..i]) :: x in nodes && x.next != null
  {
    hide NoDup, Filter;
    LinkedIffNext(renewed);
    FilterMembers(pending, true, chain[..i]);
    forall x | x in chain && (pending(x) || x !in chain[..i]) ensures x in nodes && x.next != null {
      var j :| 0 <= j < |chain| && chain[j] == x;
      if j < i {
        assert chain[..i][j] == x;
        assert x in renewed.items;
      } else {
        assert chain[j].next == Succ(chain, j);
      }
    }
  }

  /** One event of the chain, and what other threads push meanwhile. */
  method Round(ev: Node, l: CiList, pending: Node -> bool, renewed: CiList, deleted: seq<Node>, arriving: seq<Node>,
               ghost chain: seq<Node>, ghost nodes: set<Node>, ghost i: nat, ghost others: set<Node>)
    returns (deleted': seq<Node>)
    requires i < |chain| && ev == chain[i] && Settled(chain, nodes, i, pending, renewed, deleted)
    requires l != renewed && l.Valid() && Outside(l, others)
    requires others !! nodes && l.members <= others && Pushable(arriving, chain, pending, i, others)
    modifies renewed, nodes, l, others`next
    ensures Settled(chain, nodes, i + 1, pending, renewed, deleted')
    ensures l.Valid() && Outside(l, others) && l.members <= others
    ensures l.items == Append(old(l.items), NewOf(arriving, chain))
  {
    hide Filter, Append, Settled, Chain, NoDup, Nodes, NewOf;
    deleted' := Settle(ev, pending, renewed, deleted, chain, nodes, i);
    SettledMembers(chain, nodes, i + 1, pending, renewed, deleted');
    SettledLinked(chain, nodes, i + 1, pending, renewed, deleted');
    Pushes(l, pending, renewed, deleted', arriving, chain, nodes, i + 1, others);
  }

  /** What other threads push between two events of the chain. */
  method Pushes(l: CiList, pending: Node -> bool, ghost renewed: CiList, ghost deleted: seq<Node>, arriving: seq<Node>,
                ghost chain: seq<Node>, ghost nodes: set<Node>, ghost i: nat, ghost others: set<Node>)
    requires i <= |chain| && Settled(chain, nodes, i, pending, renewed, deleted) && nodes == Nodes(chain)
    requires l != renewed && l.Valid() && Outside(l, others) && others !! nodes && l.members <= others
    requires forall x | x in arriving :: x in others || (x in nodes && x.next != null)
    modifies l, others`next, nodes`next
    ensures Settled(chain, nodes, i, pending, renewed, deleted)
    ensures l.Valid() && Outside(l, others) && l.members <= others
    ensures l.items == Append(old(l.items), NewOf(arriving, chain))
  {
    hide Filter, Outside, Append, NewOf, NoDup;
    assert forall j | 0 <= j < |chain| :: chain[j] in nodes;
    assert forall j | 0 <= j < |renewed.items| :: renewed.items[j] in renewed.members;
    PushAll(l, arriving, chain, nodes, others);
  }

  /** The walk over the chain that the pass has taken. */
  method Walk(first: Node, l: CiList, pending: Node -> bool, arrivals: seq<seq<Node>>, renewed: CiList,
              ghost chain: seq<Node>, ghost nodes: set<Node>, ghost others: set<Node>)
    returns (deleted: seq<Node>)
    requires chain != [] && first == chain[0] && Settled(chain, nodes, 0, pending, renewed, [])
    requires l != renewed && l.Valid() && l.items == [] && Outside(l, others) && l.members <= others && others !! nodes
    requires forall i | 0 <= i < |chain| :: Pushable(During(arrivals, i), chain, pending, i, others)
    modifies renewed, nodes, l, others`next
    ensures Settled(chain, nodes, |chain|, pending, renewed, deleted)
    ensures l.Valid() && Outside(l, others) && l.members <= others
    ensures l.items == Arrived(chain, arrivals, |chain|)
  {
    hide Filter, Append, Arrived, Settled, NoDup, Nodes, Chain, Pushable, NewOf;
    deleted := [];
    var i := 0;
    var ev: Node := first;
    var more := true;
    ArrivedStep(chain, arrivals, 0);
    while more
      invariant 0 <= i <= |chain| && (more <==> i < |chain|) && (more ==> ev == chain[i])
      invariant Settled(chain, nodes, i, pending, renewed, deleted)
      invariant l.Valid() && Outside(l, others) && l.members <= others
      invariant l.items == Arrived(chain, arrivals, i)
      decreases |chain| - i
    {
      SettledLinks(chain, nodes, i, pending, renewed, deleted);
      var nx := ev.next;
      ArrivedStep(chain, arrivals, i);
      deleted := Round(ev, l, pending, renewed, deleted, During(arrivals, i), chain, nodes, i, others);
      i := i + 1;
      if nx == ev {
        more := false;
      } else {
        ev := nx;
      }
    }
  }

  /**
    The pass: it takes the whole chain, deletes the events with nothing pending, puts the others back in
    front of what other threads have pushed meanwhile, and says whether the timer is retired. Other threads may
    push anything but deleted events, and also events of the chain, which changes nothing.
  */
  method Timeout(l: CiList, pending: Node -> bool, arrivals: seq<seq<Node>>, ghost others: set<Node>)
    returns (deleted: seq<Node>, retired: bool)
    requires l.Valid() && forall x | x in l.members :: x.alive
    requires Outside(l, others) && others !! l.members
    requires forall i | 0 <= i < |l.items| :: Pushable(During(arrivals, i), l.items, pending, i, others)
    modifies l, l.members, others`next
    ensures l.Valid() && forall x | x in l.members :: x.alive
    ensures var chain := old(l.items);
      chain != [] ==> l.items == Filter(pending, true, chain) + Arrived(chain, arrivals, |chain|)
    ensures old(l.items) == [] ==> l.items == [] && !retired
    ensures deleted == Filter(pending, false, old(l.items))
    ensures forall x | x in old(l.members) :: x.alive <==> pending(x)
    ensures retired <==> old(l.items) != [] && l.items == []
  {
    hide Filter, Append, Arrived, Settled, NoDup, Nodes, Chain, Pushable;
    ghost var chain, nodes := l.items, l.members;
    deleted, retired := [], false;
    FilterEmpty(pending);
    EmptyMembers(l);
    var first := l.Disconnect();
    if first != null {
      var renewed := new CiList();
      SettledNone(chain, nodes, pending, renewed);
      deleted := Walk(first, l, pending, arrivals, renewed, chain, nodes, others);
      SettledAll(chain, nodes, pending, renewed, deleted);
      l.Prepend(renewed);
      var empty := l.Empty();
      retired := empty;
    }
  }

  lemma EmptyMembers(l: CiList)
    requires l.Valid()
    ensures l.items == [] <==> l.members == {}
    ensures Nodes(l.items) == l.members && NoDup(l.items)
  {
    LinkedIffNext(l);
  }

  lemma ArrivedStep(chain: seq<Node>, arrivals: seq<seq<Node>>, n: nat)
    ensures Arrived(chain, arrivals, n + 1) == Append(Arrived(chain, arrivals, n), NewOf(During(arrivals, n), chain))
    ensures Arrived(chain, arrivals, 0) == []
  {
  }

  lemma SettledNone(chain: seq<Node>, nodes: set<Node>, pending: Node -> bool, renewed: CiList)
    requires Chain(chain) && nodes == Nodes(chain) && (forall x | x in nodes :: x.alive)
    requires renewed.Valid() && renewed.items == []
    ensures Settled(chain, nodes, 0, pending, renewed, [])
  {
    assert forall j | 0 <= j < |chain| :: chain[j] in nodes;
  }

  lemma SettledMembers(chain: seq<Node>, nodes: set<Node>, i: nat, pending: Node -> bool, renewed: CiList, deleted: seq<Node>)
    requires i <= |chain| && Settled(chain, nodes, i, pending, renewed, deleted)
    ensures renewed.members <= nodes && nodes == Nodes(chain)
  {
  }

  lemma SettledLinks(chain: seq<Node>, nodes: set<Node>, i: nat, pending: Node -> bool, renewed: CiList, deleted: seq<Node>)
    requires i < |chain| && Settled(chain, nodes, i, pending, renewed, deleted)
    ensures chain[i].next == Succ(chain, i) && (chain[i].next == chain[i] <==> i + 1 == |chain|)
  {
  }

  lemma SettledAll(chain: seq<Node>, nodes: set<Node>, pending: Node -> bool, renewed: CiList, deleted: seq<Node>)
    requires Settled(chain, nodes, |chain|, pending, renewed, deleted)
    ensures renewed.Valid() && renewed.items == Filter(pending, true, chain)
    ensures deleted == Filter(pending, false, chain)
    ensures forall x | x in nodes :: x.alive <==> pending(x)
    ensures forall x | x in renewed.members :: x in nodes && x.alive
  {
    assert chain[..|chain|] == chain;
    FilterMembers(pending, true, chain);
    assert forall j | 0 <= j < |chain| :: chain[j].alive <==> pending(chain[j]);
  }

  lemma FilterEmpty(p: Node -> bool)
    ensures Filter(p, false, []) == []
  {
  }

  /** What other threads build is free of duplicates, whatever they push and however often. */
  lemma {:induction false} AppendDistinct(s: seq<Node>, xs: seq<Node>)
    requires NoDup(s)
    ensures NoDup(Append(s, xs)) && s <= Append(s, xs)
    ensures Nodes(Append(s, xs)) == Nodes(s) + Nodes(xs)
    decreases |xs|
  {
    if xs != [] {
      var init, last := xs[..|xs| - 1], xs[|xs| - 1];
      AppendDistinct(s, init);
      assert xs == init + [last];
      NodesConcat(init, [last]);
      NodesConcat(Append(s, init), [last]);
      assert last in Append(s, init) <==> last in Nodes(Append(s, init));
    }
  }
}
