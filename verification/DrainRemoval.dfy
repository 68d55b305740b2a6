/**
  What a drain does when its callbacks remove items that still wait in the drained slot.  The loop has taken
  the successor before the callback runs, so that an item may fire although it has been removed.
*/
module DrainRemoval {
  import opened Prelude

  /** What the loop will still visit: `lost` are removed items that it has a way to, `left` those still linked. */
  datatype Ahead<T> = Ahead(lost: seq<T>, left: seq<T>)

  function Way<T(==)>(a: Ahead<T>): seq<T> {
    a.lost + a.left
  }

  function IndexOf<T(==)>(s: seq<T>, x: T): (i: nat)
    requires x in s
    ensures i < |s| && s[i] == x
  {
    if s[0] == x then 0 else 1 + IndexOf(s[1..], x)
  }

  /** `s` without its element at `j`. */
  function Skipping<T(==)>(s: seq<T>, j: nat): seq<T>
    requires j < |s|
  {
    s[..j] + s[j + 1..]
  }

  /** One `rem`: the first of the linked items is still visited, any other one is stepped over. */
  function Removed<T(==)>(a: Ahead<T>, y: T): Ahead<T> {
    if y !in a.left then a
    else if y == a.left[0] then Ahead(a.lost + [y], a.left[1..])
    else a.(left := Skipping(a.left, IndexOf(a.left, y)))
  }

  function AllRemoved<T(==)>(a: Ahead<T>, ys: seq<T>): Ahead<T>
    decreases |ys|
  {
    if ys == [] then a else AllRemoved(Removed(a, ys[0]), ys[1..])
  }

  lemma {:induction false} FewerAhead<T>(a: Ahead<T>, ys: seq<T>)
    ensures |Way(AllRemoved(a, ys))| <= |Way(a)|
    decreases |ys|
  {
    if ys != [] {
      FewerAhead(Removed(a, ys[0]), ys[1..]);
    }
  }

  /** The item visited next leaves. */
  function Next<T(==)>(a: Ahead<T>): Ahead<T>
    requires Way(a) != []
  {
    if a.lost != [] then a.(lost := a.lost[1..]) else a.(left := a.left[1..])
  }

  /** What is ahead once the next item has fired and its callback has run. */
  function After<T(==)>(a: Ahead<T>, script: T -> seq<T>): (b: Ahead<T>)
    requires Way(a) != []
    ensures |Way(b)| < |Way(a)|
  {
    FewerAhead(Next(a), script(Way(a)[0]));
    AllRemoved(Next(a), script(Way(a)[0]))
  }

  /** The items that fire, in order. */
  function Fires<T(==)>(a: Ahead<T>, script: T -> seq<T>): seq<T>
    decreases |Way(a)|
  {
    if Way(a) == [] then [] else [Way(a)[0]] + Fires(After(a, script), script)
  }

  // ----- the exact condition

  /** The item is linked, and so is some item before it. */
  predicate Behind<T(==)>(a: Ahead<T>, y: T) {
    y in a.left && y != a.left[0]
  }

  /** The items that a callback removes while a linked item stands before them. */
  function SparedBy<T(==)>(a: Ahead<T>, ys: seq<T>): set<T>
    decreases |ys|
  {
    if ys == [] then {}
    else (if Behind(a, ys[0]) then {ys[0]} else {}) + SparedBy(Removed(a, ys[0]), ys[1..])
  }

  /** ... over the whole drain. */
  function Spared<T(==)>(a: Ahead<T>, script: T -> seq<T>): set<T>
    decreases |Way(a)|
  {
    if Way(a) == [] then {}
    else SparedBy(Next(a), script(Way(a)[0])) + Spared(After(a, script), script)
  }

  /** `s` without the elements of `out`. */
  function Omit<T(==)>(s: seq<T>, out: set<T>): seq<T> {
    if s == [] then [] else (if s[0] in out then [] else [s[0]]) + Omit(s[1..], out)
  }

  lemma {:induction false} OmitMembers<T>(s: seq<T>, out: set<T>)
    ensures forall x :: x in Omit(s, out) <==> x in s && x !in out
    ensures NoDup(s) ==> NoDup(Omit(s, out))
  {
    if s != [] {
      OmitMembers(s[1..], out);
      assert s == [s[0]] + s[1..];
    }
  }

  lemma OmitFrom<T>(s: seq<T>, out: set<T>, x: T)
    requires x in Omit(s, out)
    ensures x in s
  {
    OmitMembers(s, out);
  }

  lemma {:induction false} OmitNone<T>(s: seq<T>, out: set<T>)
    requires forall x | x in s :: x !in out
    ensures Omit(s, out) == s
  {
    if s != [] {
      assert s == [s[0]] + s[1..];
      OmitNone(s[1..], out);
    }
  }

  lemma {:induction false} OmitTwice<T>(s: seq<T>, out: set<T>, more: set<T>)
    ensures Omit(Omit(s, out), more) == Omit(s, out + more)
  {
    if s != [] {
      OmitTwice(s[1..], out, more);
      if s[0] !in out {
        assert Omit(s, out)[1..] == Omit(s[1..], out);
      } else {
        assert Omit(s, out) == Omit(s[1..], out);
      }
    }
  }

  lemma {:induction false} OmitAt<T>(s: seq<T>, j: nat)
    requires NoDup(s) && j < |s|
    ensures Omit(s, {s[j]}) == Skipping(s, j) && IndexOf(s, s[j]) == j
  {
    var rest := s[1..];
    if j == 0 {
      assert forall x | x in rest :: x != s[0];
      OmitNone(rest, {s[0]});
      assert [] + rest == rest && Skipping(s, 0) == rest;
    } else {
      OmitAt(rest, j - 1);
      assert s[0] != s[j] && rest[j - 1] == s[j];
      assert [s[0]] + Skipping(rest, j - 1) == Skipping(s, j);
    }
  }

  lemma OmitStep<T>(s: seq<T>, out: set<T>)
    requires s != []
    ensures Omit(s, out) == if s[0] in out then Omit(s[1..], out) else [s[0]] + Omit(s[1..], out)
  {
    assert [] + Omit(s[1..], out) == Omit(s[1..], out);
  }

  lemma ConcatFacts<T>(x: T, s: seq<T>, t: seq<T>)
    ensures [x] + (s + t) == ([x] + s) + t && [] + t == t
  {
  }

  lemma {:induction false} OmitConcat<T>(s: seq<T>, t: seq<T>, out: set<T>)
    ensures Omit(s + t, out) == Omit(s, out) + Omit(t, out)
  {
    hide Omit;
    if s == [] {
      assert s + t == t && Omit(s, out) + Omit(t, out) == Omit(t, out) by { OmitNone(s, out); }
    } else {
      assert (s + t)[0] == s[0] && (s + t)[1..] == s[1..] + t;
      OmitConcat(s[1..], t, out);
      OmitStep(s, out);
      OmitStep(s + t, out);
      ConcatFacts(s[0], Omit(s[1..], out), Omit(t, out));
    }
  }

  /** One removal takes an item off the way exactly when it is behind a linked one. */
  lemma RemovedWay<T>(a: Ahead<T>, y: T)
    requires NoDup(Way(a))
    ensures Way(Removed(a, y)) == Omit(Way(a), if Behind(a, y) then {y} else {})
    ensures NoDup(Way(Removed(a, y)))
  {
    hide Omit, Skipping, NoDup;
    OmitMembers(Way(a), if Behind(a, y) then {y} else {});
    OmitNone<T>(Way(a), {});
    if Behind(a, y) {
      var i := IndexOf(a.left, y);
      HalvesApart(a);
      assert y !in a.lost;
      OmitConcat(a.lost, a.left, {y});
      OmitNone(a.lost, {y});
      OmitAt(a.left, i);
    } else if y in a.left {
      assert a.lost + [y] + a.left[1..] == a.lost + a.left;
    }
  }

  lemma HalvesApart<T>(a: Ahead<T>)
    requires NoDup(Way(a))
    ensures NoDup(a.lost) && NoDup(a.left) && forall x | x in a.left :: x !in a.lost
  {
    var v := Way(a);
    assert forall i | 0 <= i < |a.lost| :: a.lost[i] == v[i];
    assert forall i | 0 <= i < |a.left| :: a.left[i] == v[|a.lost| + i];
  }

  lemma {:induction false} AllRemovedWay<T>(a: Ahead<T>, ys: seq<T>)
    requires NoDup(Way(a))
    ensures Way(AllRemoved(a, ys)) == Omit(Way(a), SparedBy(a, ys)) && NoDup(Way(AllRemoved(a, ys)))
    ensures forall x | x in SparedBy(a, ys) :: x in Way(a)
    decreases |ys|
  {
    hide NoDup, Removed, Omit;
    if ys == [] {
      OmitNone<T>(Way(a), {});
    } else {
      var out := if Behind(a, ys[0]) then {ys[0]} else {};
      RemovedWay(a, ys[0]);
      OmitMembers(Way(a), out);
      AllRemovedWay(Removed(a, ys[0]), ys[1..]);
      OmitTwice(Way(a), out, SparedBy(Removed(a, ys[0]), ys[1..]));
    }
  }

  lemma NextWay<T>(a: Ahead<T>)
    requires NoDup(Way(a)) && Way(a) != []
    ensures Way(Next(a)) == Way(a)[1..] && NoDup(Way(Next(a))) && Way(a)[0] !in Way(Next(a))
  {
    if a.lost != [] {
      assert (a.lost + a.left)[1..] == a.lost[1..] + a.left;
    } else {
      assert a.lost + a.left == a.left;
    }
  }

  /**
    Whatever the callbacks remove: the items that fire are those of the slot, in order, without those that a
    callback removes while a linked item still stands before them.
  */
  lemma {:induction false} FiresWhen<T>(a: Ahead<T>, script: T -> seq<T>)
    requires NoDup(Way(a))
    ensures Fires(a, script) == Omit(Way(a), Spared(a, script))
    ensures forall x :: x in Fires(a, script) <==> x in Way(a) && x !in Spared(a, script)
    ensures forall x | x in Spared(a, script) :: x in Way(a)
    decreases |Way(a)|
  {
    hide NoDup, AllRemoved, Next, Way, SparedBy, Omit, After;
    StepsOf(a, script);
    OmitMembers(Way(a), Spared(a, script));
    if Way(a) != [] {
      var x, b := Way(a)[0], After(a, script);
      var now, later := SparedBy(Next(a), script(x)), Spared(b, script);
      NextWay(a);
      AllRemovedWay(Next(a), script(x));
      assert b == AllRemoved(Next(a), script(x)) by { AfterIs(a, script); }
      FiresWhen(b, script);
      OmitMembers(Way(Next(a)), now);
      OmitTwice(Way(Next(a)), now, later);
      assert Way(b) == Omit(Way(Next(a)), now);
      forall z | z in now + later ensures z in Way(Next(a)) {
        if z in later {
          assert z in Way(b);
          OmitFrom(Way(Next(a)), now, z);
        }
      }
      assert forall z | z in Way(a)[1..] :: z in Way(a);
      OmitFirst(Way(a), now + later);
    } else {
      OmitNone(Way(a), {});
    }
  }

  lemma StepsOf<T>(a: Ahead<T>, script: T -> seq<T>)
    ensures Way(a) == [] ==> Fires(a, script) == [] && Spared(a, script) == {}
    ensures Way(a) != [] ==>
      && Fires(a, script) == [Way(a)[0]] + Fires(After(a, script), script)
      && Spared(a, script) == SparedBy(Next(a), script(Way(a)[0])) + Spared(After(a, script), script)
  {
  }

  lemma AfterIs<T>(a: Ahead<T>, script: T -> seq<T>)
    requires Way(a) != []
    ensures After(a, script) == AllRemoved(Next(a), script(Way(a)[0]))
  {
  }

  lemma OmitFirst<T>(s: seq<T>, out: set<T>)
    requires s != [] && s[0] !in out
    ensures Omit(s, out) == [s[0]] + Omit(s[1..], out)
  {
  }

  // ----- one removal, and two

  /** The callback of the item at `i` removes `y`; the others remove nothing. */
  predicate OneRemoves<T(==)>(items: seq<T>, i: nat, y: T, script: T -> seq<T>)
    requires i < |items|
  {
    script(items[i]) == [y] && forall k | 0 <= k < |items| && k != i :: script(items[k]) == []
  }

  lemma {:induction false} SilentSpare<T>(a: Ahead<T>, script: T -> seq<T>)
    requires forall x | x in Way(a) :: script(x) == []
    ensures Spared(a, script) == {}
    decreases |Way(a)|
  {
    if Way(a) != [] {
      assert forall x | x in Way(Next(a)) :: x in Way(a);
      SilentSpare(After(a, script), script);
    }
  }

  lemma QuietStep<T>(items: seq<T>, script: T -> seq<T>)
    requires items != [] && script(items[0]) == []
    ensures Spared(Ahead([], items), script) == Spared(Ahead([], items[1..]), script)
  {
    assert [] + items == items;
  }

  lemma FirstSpares<T>(items: seq<T>, script: T -> seq<T>)
    requires items != []
    ensures Spared(Ahead([], items), script) == SparedBy(Ahead([], items[1..]), script(items[0]))
         + Spared(AllRemoved(Ahead([], items[1..]), script(items[0])), script)
  {
    assert [] + items == items;
  }

  lemma SparedByOne<T>(a: Ahead<T>, y: T)
    ensures SparedBy(a, [y]) == (if Behind(a, y) then {y} else {}) && AllRemoved(a, [y]) == Removed(a, y)
  {
    assert [y][1..] == [];
  }

  lemma RestOf<T>(items: seq<T>)
    requires items != []
    ensures forall k | 0 <= k < |items[1..]| :: items[1..][k] == items[k + 1]
    ensures NoDup(items) ==> NoDup(items[1..]) && items[0] !in items[1..]
  {
  }

  /** The case of the first callback. */
  lemma FirstSpared<T>(items: seq<T>, j: nat, script: T -> seq<T>)
    requires NoDup(items) && j < |items| && OneRemoves(items, 0, items[j], script)
    ensures Spared(Ahead([], items), script) == if j > 1 then {items[j]} else {}
  {
    hide Spared, SparedBy, Removed, NoDup, Omit;
    var a, y := Ahead([], items[1..]), items[j];
    RestOf(items);
    FirstSpares(items, script);
    SparedByOne(a, y);
    assert Behind(a, y) <==> j > 1 by { BehindWhen(items, j); }
    assert Way(a) == items[1..];
    RemovedWay(a, y);
    OmitMembers(Way(a), if Behind(a, y) then {y} else {});
    forall x | x in Way(Removed(a, y)) ensures script(x) == [] {
      assert x in items[1..];
    }
    SilentSpare(Removed(a, y), script);
  }

  lemma BehindWhen<T>(items: seq<T>, j: nat)
    requires NoDup(items) && j < |items|
    ensures Behind(Ahead([], items[1..]), items[j]) <==> j > 1
  {
    RestOf(items);
    if j > 1 {
      assert items[1..][j - 1] == items[j];
    }
  }

  /**
    One callback, of the item at `i`, removes one item of the slot, the one at `j`: it is spared exactly when it
    is behind the direct successor of `i`.
  */
  lemma {:induction false} OneSpared<T>(items: seq<T>, i: nat, j: nat, script: T -> seq<T>)
    requires NoDup(items) && i < |items| && j < |items| && OneRemoves(items, i, items[j], script)
    ensures Spared(Ahead([], items), script) == if j > i + 1 then {items[j]} else {}
    decreases i
  {
    hide Spared, SparedBy, Removed, NoDup;
    var rest, y := items[1..], items[j];
    RestOf(items);
    if i == 0 {
      FirstSpared(items, j, script);
    } else if j > 0 {
      QuietStep(items, script);
      OneSpared(rest, i - 1, j - 1, script);
    } else {
      QuietStep(items, script);
      StrangerSpares(rest, i - 1, y, script);
    }
  }

  /** An item that has fired is linked nowhere: removing it does nothing. */
  lemma {:induction false} StrangerSpares<T>(items: seq<T>, i: nat, y: T, script: T -> seq<T>)
    requires i < |items| && y !in items && OneRemoves(items, i, y, script)
    ensures Spared(Ahead([], items), script) == {}
    decreases i
  {
    hide Spared, SparedBy;
    var rest := items[1..];
    assert forall k | 0 <= k < |rest| :: rest[k] == items[k + 1];
    if i == 0 {
      FirstSpares(items, script);
      SparedByOne(Ahead([], rest), y);
      assert [] + rest == rest;
      SilentSpare(Ahead([], rest), script);
    } else {
      QuietStep(items, script);
      StrangerSpares(rest, i - 1, y, script);
    }
  }

  /** ... and all the others fire, in order. */
  lemma RemovedFiresWhen<T>(items: seq<T>, i: nat, j: nat, script: T -> seq<T>)
    requires NoDup(items) && i < |items| && j < |items| && OneRemoves(items, i, items[j], script)
    ensures Fires(Ahead([], items), script) == if j > i + 1 then Skipping(items, j) else items
  {
    hide Fires, Spared, Omit, NoDup, Skipping;
    assert [] + items == items;
    FiresWhen(Ahead([], items), script);
    OneSpared(items, i, j, script);
    OmitNone(items, {});
    OmitAt(items, j);
  }

  /** A callback that removes the two items behind its own, the nearer one first, sees them both fire. */
  lemma TwoRemoved<T>(items: seq<T>, script: T -> seq<T>)
    requires NoDup(items) && |items| >= 3
    requires script(items[0]) == [items[1], items[2]] && forall k | 0 < k < |items| :: script(items[k]) == []
    ensures Fires(Ahead([], items), script) == items
  {
    hide Fires, Spared, Omit, SparedBy, AllRemoved, NoDup, Removed;
    var rest, y, z := items[1..], items[1], items[2];
    var a, b, c := Ahead([], rest), Ahead([y], rest[1..]), Ahead([y, z], rest[1..][1..]);
    assert [] + items == items;
    FiresWhen(Ahead([], items), script);
    FirstSpares(items, script);
    RemovesFirst(a);
    RemovesFirst(b);
    assert [] + [y] == [y] && [y] + [z] == [y, z] && rest[0] == y && rest[1..][0] == z;
    assert Removed(a, y) == b && Removed(b, z) == c;
    TwoSteps(a, y, z);
    forall x | x in Way(c) ensures script(x) == [] {
      RestIndex(items, x);
    }
    SilentSpare(c, script);
    assert Spared(Ahead([], items), script) == {};
    OmitNone(items, {});
  }

  lemma RemovesFirst<T>(a: Ahead<T>)
    requires a.left != []
    ensures Removed(a, a.left[0]) == Ahead(a.lost + [a.left[0]], a.left[1..]) && !Behind(a, a.left[0])
  {
  }

  lemma TwoSteps<T>(a: Ahead<T>, y: T, z: T)
    requires !Behind(a, y) && !Behind(Removed(a, y), z)
    ensures SparedBy(a, [y, z]) == {} && AllRemoved(a, [y, z]) == Removed(Removed(a, y), z)
  {
    assert [y, z][1..] == [z];
    SparedByOne(Removed(a, y), z);
  }

  lemma RestIndex<T>(items: seq<T>, x: T)
    requires |items| >= 3 && x in [items[1], items[2]] + items[1..][1..][1..]
    ensures exists k | 0 < k < |items| :: items[k] == x
  {
    var rest := items[1..][1..][1..];
    assert forall i | 0 <= i < |rest| :: rest[i] == items[i + 3];
  }
}
