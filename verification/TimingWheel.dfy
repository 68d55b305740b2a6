/**
  The hierarchical timing wheel as a value: `nb` levels of `sa` slots and one
  overflow bucket.  Level `k` has step `sa^k`; its cursor `cur[k]` is the next
  slot to drain, and the value `sa` means that a wrap is pending.

  Times are absolute ticks.  Inside one `shift` the levels are drained from the
  top down, so the state is always read with a *frontier* `f`: the levels below
  `f` have cursor 0 and are about to be drained, and level `f` is drained now.
*/
module TimingWheel {
  import opened Prelude
  import opened Radix

  datatype Pos = Slot(k: nat, s: nat) | Last

  /** Where an item sits, the tick it is due at, and how often it was re-linked since its `add`. */
  datatype Node = Node(pos: Pos, due: nat, moves: nat)

  /** What a callback, or the code around the wheel, may ask for. */
  datatype Op<T> = Add(x: T, index: nat) | Rem(x: T)

  /** One request, or one `shift` that hands the items of `order`, in turn, to a callback running `script`. */
  datatype Step<!T> = Call(op: Op<T>) | Shift(order: seq<T>, script: T -> seq<Op<T>>)

  /**
    What a callback must respect while level 0 is drained: it does not remove an item that is still
    waiting in the drained slot, and it does not add at index `sa - 1`, which is that very slot.
  */
  predicate Polite<T(==)>(sa: nat, nb: nat, ops: seq<Op<T>>, waiting: set<T>) {
    forall op | op in ops ::
      match op
      case Add(_, index) => nb >= 1 ==> index + 1 != sa
      case Rem(x) => x !in waiting
  }

  predicate AllPolite<T(==)>(sa: nat, nb: nat, order: seq<T>, script: T -> seq<Op<T>>) {
    forall i | 0 <= i < |order| :: Polite(sa, nb, script(order[i]), Elems(order[i + 1..]))
  }

  function Elems<T(==)>(s: seq<T>): set<T> {
    set x | x in s
  }

  lemma PoliteTail<T>(sa: nat, nb: nat, order: seq<T>, script: T -> seq<Op<T>>)
    requires order != [] && AllPolite(sa, nb, order, script)
    ensures Polite(sa, nb, script(order[0]), Elems(order[1..])) && AllPolite(sa, nb, order[1..], script)
  {
    forall i | 0 <= i < |order[1..]|
      ensures Polite(sa, nb, script(order[1..][i]), Elems(order[1..][i + 1..]))
    {
      assert order[1..][i] == order[i + 1] && order[1..][i + 1..] == order[i + 2..];
    }
  }

  // ----- levels, cursors and drain ticks

  /** First index served by level `k`: sa + sa^2 + ... + sa^k. */
  function First(sa: nat, k: nat): (r: nat)
    requires sa >= 1
  {
    if k == 0 then 0 else First(sa, k - 1) + Pow(sa, k)
  }

  /** The level that takes `index`, searched from level `k` upwards. */
  function LevelFrom(sa: nat, nb: nat, k: nat, index: nat): (l: nat)
    requires sa >= 1 && k <= nb && First(sa, k) <= index
    ensures k <= l <= nb && First(sa, l) <= index
    ensures l < nb ==> index < First(sa, l + 1)
    decreases nb - k
  {
    if k == nb then nb
    else if index >= First(sa, k + 1) then LevelFrom(sa, nb, k + 1, index)
    else k
  }

  ghost predicate Cursors(sa: nat, cur: seq<nat>) {
    sa >= 1 && forall k | 0 <= k < |cur| :: cur[k] <= sa
  }

  predicate OkPos(sa: nat, nb: nat, p: Pos) {
    p.Slot? ==> p.k < nb && p.s < sa
  }

  /** Ticks before the next drain of level `j`, seen from frontier `f`. */
  ghost function Lag(sa: nat, cur: seq<nat>, f: nat, j: nat): nat
    requires Cursors(sa, cur) && j <= |cur|
  {
    if j <= f then 0 else Lag(sa, cur, f, j - 1) + Times(sa - cur[j - 1], Pow(sa, j - 1))
  }

  /** How many drains of its own level slot `s` has to wait for when the cursor is `c`. */
  function Turns(sa: nat, c: nat, s: nat): (r: nat)
    requires s < sa && c <= sa
    ensures r < sa
  {
    if c <= s then s - c else s + sa - c
  }

  /** The tick at which position `p` is drained next, seen from tick `t` and frontier `f`. */
  ghost function DrainTick(sa: nat, cur: seq<nat>, t: nat, f: nat, p: Pos): nat
    requires Cursors(sa, cur) && OkPos(sa, |cur|, p)
  {
    match p
    case Slot(k, s) => t + Lag(sa, cur, f, k) + Times(Turns(sa, cur[k], s), Pow(sa, k))
    case Last => t + Lag(sa, cur, f, |cur|)
  }

  /** The tick at which an item that sits on `p`, drained at `d`, leaves the wheel. */
  ghost function FireTick(sa: nat, d: nat, p: Pos, due: nat): nat
    requires sa >= 1 && d <= due
  {
    match p
    case Slot(k, _) => d + (due - d) % Pow(sa, k)
    case Last => due
  }

  predicate Reset(cur: seq<nat>, f: nat) {
    forall j | 0 <= j < f && j < |cur| :: cur[j] == 0
  }

  lemma {:induction false} LagWrap(sa: nat, cur: seq<nat>, f: nat, j: nat)
    requires Cursors(sa, cur) && f < |cur| && cur[f] == sa && j <= |cur|
    ensures Lag(sa, cur[f := 0], f + 1, j) == Lag(sa, cur, f, j)
  {
    if j > f + 1 {
      LagWrap(sa, cur, f, j - 1);
    }
  }

  /** A wrap changes no drain tick. */
  lemma WrapTick(sa: nat, cur: seq<nat>, t: nat, f: nat, p: Pos)
    requires Cursors(sa, cur) && f < |cur| && cur[f] == sa && OkPos(sa, |cur|, p)
    ensures DrainTick(sa, cur[f := 0], t, f + 1, p) == DrainTick(sa, cur, t, f, p)
  {
    LagWrap(sa, cur, f, if p.Slot? then p.k else |cur|);
  }

  /** The cursors after the drain of level `k`; the overflow bucket has none. */
  function Advance(cur: seq<nat>, k: nat): (r: seq<nat>)
    ensures |r| == |cur|
  {
    if k < |cur| then cur[k := cur[k] + 1] else cur
  }

  /** Level `k` may be drained into level `k - 1`. */
  ghost predicate CanDrain(sa: nat, cur: seq<nat>, k: nat) {
    Cursors(sa, cur) && 1 <= k <= |cur| && Reset(cur, k) && (k < |cur| ==> cur[k] < sa)
  }

  lemma {:induction false} LagDrain(sa: nat, cur: seq<nat>, k: nat, j: nat)
    requires CanDrain(sa, cur, k) && j <= |cur|
    ensures Lag(sa, Advance(cur, k), k - 1, j) == if j == k then Pow(sa, k) else Lag(sa, cur, k, j)
  {
    if j > k {
      LagDrain(sa, cur, k, j - 1);
      if j == k + 1 {
        MulLinear(sa - cur[k], 1, Pow(sa, k));
      }
    }
  }

  /** The bucket that the drain of level `k` takes its items from. */
  function Drained(cur: seq<nat>, k: nat): Pos {
    if k < |cur| then Slot(k, cur[k]) else Last
  }

  /** A bucket that is not drained keeps its drain tick. */
  lemma DrainTickKept(sa: nat, cur: seq<nat>, t: nat, k: nat, p: Pos)
    requires CanDrain(sa, cur, k) && OkPos(sa, |cur|, p) && p != Drained(cur, k)
    ensures DrainTick(sa, Advance(cur, k), t, k - 1, p) == DrainTick(sa, cur, t, k, p)
  {
    LagDrain(sa, cur, k, if p.Slot? then p.k else |cur|);
    if p.Slot? && p.k == k {
      MulLinear(Turns(sa, cur[k], p.s), 1, Pow(sa, k));
    }
  }

  /** Re-dispatch of an item that is due in `left` ticks, into level `k`. */
  function Landing(sa: nat, cur: seq<nat>, k: nat, left: nat): (p: Pos)
    requires sa >= 1 && k < |cur|
    ensures OkPos(sa, |cur|, p) && p.Slot? && p.k == k
  {
    Slot(k, (cur[k] + left / Pow(sa, k)) % sa)
  }

  lemma LandingTick(sa: nat, cur: seq<nat>, t: nat, k: nat, left: nat, s: nat)
    requires CanDrain(sa, cur, k) && s == left / Pow(sa, k - 1) % sa
    ensures Landing(sa, cur, k - 1, left) == Slot(k - 1, s)
    ensures DrainTick(sa, Advance(cur, k), t, k - 1, Slot(k - 1, s)) == t + s * Pow(sa, k - 1)
  {
  }

  lemma FireAfterDigit(sa: nat, t: nat, k: nat, s: nat, due: nat)
    requires sa >= 1 && k >= 1 && t <= due && s == (due - t) / Pow(sa, k - 1) % sa
    ensures t + s * Pow(sa, k - 1) <= due
    ensures FireTick(sa, t + s * Pow(sa, k - 1), Slot(k - 1, s), due) == t + (due - t) % Pow(sa, k)
  {
    TakeDigit(due - t, Pow(sa, k - 1), sa, s);
  }

  /** A re-linked item stays timely and leaves the wheel when it would have. */
  lemma RelinkTick(sa: nat, cur: seq<nat>, t: nat, k: nat, due: nat, p: Pos)
    requires CanDrain(sa, cur, k) && t <= due && p == Landing(sa, cur, k - 1, due - t)
    ensures var d := DrainTick(sa, Advance(cur, k), t, k - 1, p);
      d <= due && FireTick(sa, d, p, due) == t + (due - t) % Pow(sa, k)
  {
    ghost var s := (due - t) / Pow(sa, k - 1) % sa;
    LandingTick(sa, cur, t, k, due - t, s);
    FireAfterDigit(sa, t, k, s, due);
    assert p == Slot(k - 1, s);
  }

  // ----- the wheel

  datatype Wheel<T(==)> = Wheel(sa: nat, nb: nat, offset: nat, cur: seq<nat>, at: map<T, Node>) {

    ghost predicate Shape() {
      && Cursors(sa, cur)
      && |cur| == nb
      && forall x | x in at :: OkPos(sa, nb, at[x].pos)
    }

    ghost function Next(t: nat, f: nat, n: Node): nat
      requires Shape() && OkPos(sa, nb, n.pos)
    {
      DrainTick(sa, cur, t, f, n.pos)
    }

    /** No item is due before the next drain of its bucket. */
    ghost predicate Timed(t: nat, f: nat)
      requires Shape()
    {
      forall x | x in at :: Next(t, f, at[x]) <= at[x].due
    }

    ghost function Leaves(t: nat, f: nat, n: Node): nat
      requires Shape() && OkPos(sa, nb, n.pos) && Next(t, f, n) <= n.due
    {
      FireTick(sa, Next(t, f, n), n.pos, n.due)
    }

    /** The tick at which each item will leave the wheel. */
    ghost function Plan(t: nat, f: nat): map<T, nat>
      requires Shape() && Timed(t, f)
    {
      map x | x in at :: Leaves(t, f, at[x])
    }

    /** The items that the drain of level `k` at tick `t` takes out. */
    predicate Ripe(t: nat, k: nat, n: Node)
      requires sa >= 1
    {
      n.pos == Drained(cur, k) && (k >= |cur| ==> n.due < t + Pow(sa, k))
    }

    /** Drain of level `k >= 1` into level `k - 1`. */
    ghost function DrainInto(t: nat, k: nat): Wheel<T>
      requires Shape() && CanDrain(sa, cur, k) && Timed(t, k)
    {
      var at' := map x | x in at ::
                   if Ripe(t, k, at[x]) then
                     Node(Landing(sa, cur, k - 1, at[x].due - t), at[x].due, at[x].moves + 1)
                   else at[x];
      this.(cur := Advance(cur, k), at := at')
    }

    /** The wrap of level `k`: its cursor goes back to 0 before the level above is drained. */
    function Wrap(k: nat): Wheel<T>
      requires k < |cur|
    {
      this.(cur := cur[k := 0])
    }

    /** The level of a node, the overflow bucket counting as level `nb`, plus the re-links it has behind it. */
    function Budget(n: Node): nat {
      n.moves + match n.pos { case Slot(k, _) => k case Last => nb }
    }

    ghost predicate SameItems(w: Wheel<T>) {
      && w.sa == sa && w.nb == nb && w.offset == offset && w.at.Keys == at.Keys
      && forall x | x in at :: w.at[x].due == at[x].due && w.Budget(w.at[x]) == Budget(at[x])
    }

    /** `w`, seen from frontier `g`, has the same items leaving at the same ticks as this wheel seen from `f`. */
    ghost predicate Carries(t: nat, f: nat, w: Wheel<T>, g: nat)
      requires Shape() && Timed(t, f)
    {
      w.Shape() && SameItems(w) && w.Timed(t, g) && w.Plan(t, g) == Plan(t, f)
    }

    lemma CarriesOn(t: nat, f: nat, a: Wheel<T>, g: nat, b: Wheel<T>, h: nat)
      requires Shape() && Timed(t, f) && Carries(t, f, a, g) && a.Carries(t, g, b, h)
      ensures Carries(t, f, b, h)
    {
    }

    lemma WrapKeeps(t: nat, f: nat)
      requires Shape() && Timed(t, f) && f < nb && cur[f] == sa && Reset(cur, f)
      ensures Carries(t, f, Wrap(f), f + 1) && Reset(Wrap(f).cur, f + 1)
    {
      forall x | x in at
        ensures Wrap(f).Next(t, f + 1, at[x]) == Next(t, f, at[x])
      {
        WrapTick(sa, cur, t, f, at[x].pos);
      }
    }

    /** What the drain of level `k` does to one node, and that it leaves the wheel when it would have. */
    ghost predicate SameExit(t: nat, k: nat, n: Node, p: Pos)
      requires Shape() && CanDrain(sa, cur, k) && OkPos(sa, nb, n.pos) && Next(t, k, n) <= n.due
    {
      && OkPos(sa, nb, p)
      && var d := DrainTick(sa, Advance(cur, k), t, k - 1, p);
      && d <= n.due
      && FireTick(sa, d, p, n.due) == Leaves(t, k, n)
    }

    lemma DrainMoved(t: nat, k: nat, n: Node)
      requires Shape() && CanDrain(sa, cur, k) && OkPos(sa, nb, n.pos) && Next(t, k, n) <= n.due
      requires Ripe(t, k, n)
      ensures t <= n.due && SameExit(t, k, n, Landing(sa, cur, k - 1, n.due - t))
    {
      RelinkTick(sa, cur, t, k, n.due, Landing(sa, cur, k - 1, n.due - t));
      if k == nb {
        DivModUnique(n.due - t, Pow(sa, k), 0, n.due - t);
      } else {
        assert Next(t, k, n) == t;
      }
    }

    /** A drain of the overflow bucket moves its ripe items one level down and leaves the others. */
    lemma LastMoves(t: nat)
      requires Shape() && CanDrain(sa, cur, nb) && Timed(t, nb)
      ensures var m := DrainInto(t, nb).at;
        && m.Keys == at.Keys
        && (forall x | x in at && !(at[x].pos == Last && at[x].due < t + Pow(sa, nb)) :: m[x] == at[x])
        && (forall x | x in at && at[x].pos == Last && at[x].due < t + Pow(sa, nb) ::
              t <= at[x].due && m[x].due == at[x].due && m[x].pos == Landing(sa, cur, nb - 1, at[x].due - t))
    {
      forall x | x in at && at[x].pos == Last && at[x].due < t + Pow(sa, nb) ensures t <= at[x].due {
        DrainMoved(t, nb, at[x]);
      }
    }

    lemma DrainKept(t: nat, k: nat, n: Node)
      requires Shape() && CanDrain(sa, cur, k) && OkPos(sa, nb, n.pos) && Next(t, k, n) <= n.due
      requires !Ripe(t, k, n)
      ensures SameExit(t, k, n, n.pos)
    {
      if n.pos == Drained(cur, k) {
        LagDrain(sa, cur, nb, nb);
      } else {
        DrainTickKept(sa, cur, t, k, n.pos);
      }
    }

    lemma DrainExits(t: nat, k: nat)
      requires Shape() && CanDrain(sa, cur, k) && Timed(t, k)
      ensures var w := DrainInto(t, k);
        && w.Shape() && SameItems(w)
        && forall x | x in at :: SameExit(t, k, at[x], w.at[x].pos)
    {
      var w := DrainInto(t, k);
      forall x | x in at
        ensures SameExit(t, k, at[x], w.at[x].pos) && w.at[x].due == at[x].due && w.Budget(w.at[x]) == Budget(at[x])
      {
        if Ripe(t, k, at[x]) {
          DrainMoved(t, k, at[x]);
        } else {
          DrainKept(t, k, at[x]);
        }
      }
    }

    lemma DrainKeeps(t: nat, k: nat)
      requires Shape() && CanDrain(sa, cur, k) && Timed(t, k)
      ensures Carries(t, k, DrainInto(t, k), k - 1) && Reset(DrainInto(t, k).cur, k)
    {
      DrainExits(t, k);
      var w := DrainInto(t, k);
      assert w.Timed(t, k - 1) by {
        forall x | x in w.at ensures w.Next(t, k - 1, w.at[x]) <= w.at[x].due {
          assert SameExit(t, k, at[x], w.at[x].pos);
        }
      }
      forall x | x in at ensures w.Leaves(t, k - 1, w.at[x]) == Leaves(t, k, at[x]) {
        assert SameExit(t, k, at[x], w.at[x].pos);
      }
    }

    lemma WrapReady(t: nat, k: nat)
      requires Shape() && Timed(t, k) && k < nb && cur[k] == sa && Reset(cur, k)
      ensures var w := Wrap(k); w.Shape() && w.nb == nb && Reset(w.cur, k + 1) && w.Timed(t, k + 1)
    {
      WrapKeeps(t, k);
    }

    /** A wrap, the cascade of the level above, and the drain that follows. */
    lemma WrappedDrain(t: nat, k: nat, w: Wheel<T>)
      requires Shape() && Timed(t, k) && 1 <= k < nb && cur[k] == sa && Reset(cur, k)
      requires Wrap(k).Shape() && Wrap(k).Timed(t, k + 1) && Wrap(k).Carries(t, k + 1, w, k) && Reset(w.cur, k + 1)
      ensures w.Shape() && CanDrain(w.sa, w.cur, k) && w.Timed(t, k)
      ensures Carries(t, k, w.DrainInto(t, k), k - 1) && Reset(w.DrainInto(t, k).cur, k)
    {
      hide Wheel.Plan, Wheel.SameItems, Wheel.Next, Wheel.DrainInto;
      WrapKeeps(t, k);
      CarriesOn(t, k, Wrap(k), k + 1, w, k);
      WrappedCan(t, k, w);
      w.DrainKeeps(t, k);
      CarriesOn(t, k, w, k, w.DrainInto(t, k), k - 1);
    }

    lemma WrappedCan(t: nat, k: nat, w: Wheel<T>)
      requires Shape() && Timed(t, k) && 1 <= k < nb && cur[k] == sa && Reset(cur, k)
      requires Wrap(k).Shape() && Wrap(k).Timed(t, k + 1) && Wrap(k).Carries(t, k + 1, w, k) && Reset(w.cur, k + 1)
      ensures w.Shape() && w.sa == sa && w.nb == nb && w.Timed(t, k) && CanDrain(sa, w.cur, k)
    {
    }

    /** The two cases of a cascade. */
    lemma CascadeStep(t: nat, k: nat)
      requires Shape() && 1 <= k <= nb && Reset(cur, k) && Timed(t, k)
      ensures k < nb && cur[k] == sa ==>
        && Wrap(k).Shape() && Wrap(k).Timed(t, k + 1) && Reset(Wrap(k).cur, k + 1)
        && var w := Wrap(k).Cascade(t, k + 1);
           w.Shape() && w.sa == sa && w.nb == nb && w.Timed(t, k) && CanDrain(sa, w.cur, k) && Cascade(t, k) == w.DrainInto(t, k)
      ensures !(k < nb && cur[k] == sa) ==> CanDrain(sa, cur, k) && Cascade(t, k) == DrainInto(t, k)
    {
      hide Wheel.Plan, Wheel.Next, Wheel.DrainInto;
      if k < nb && cur[k] == sa {
        WrapReady(t, k);
        WrappedCan(t, k, Wrap(k).Cascade(t, k + 1));
      }
    }

    /**
      `shift` of level `k >= 1`: it wraps first if it has to, then hands its slot down to level `k - 1`.
      No item is lost and none changes the tick at which it leaves the wheel.
    */
    ghost function Cascade(t: nat, k: nat): (w: Wheel<T>)
      requires Shape() && 1 <= k <= nb && Reset(cur, k) && Timed(t, k)
      ensures Carries(t, k, w, k - 1) && Reset(w.cur, k)
      decreases nb - k
    {
      if k < nb && cur[k] == sa then
        WrapReady(t, k);
        var w := Wrap(k).Cascade(t, k + 1);
        WrappedDrain(t, k, w);
        w.DrainInto(t, k)
      else
        DrainKeeps(t, k);
        DrainInto(t, k)
    }

    /** The cascade that comes before the drain of level 0. */
    ghost function Opened(): (w: Wheel<T>)
      requires Shape() && Timed(offset, 0)
      ensures Carries(offset, 0, w, 0) && (nb >= 1 ==> w.cur[0] < sa)
    {
      if nb >= 1 && cur[0] == sa then
        WrapKeeps(offset, 0);
        CarriesOn(offset, 0, Wrap(0), 1, Wrap(0).Cascade(offset, 1), 0);
        Wrap(0).Cascade(offset, 1)
      else this
    }

    /** The items a `shift` hands to its callback. */
    ghost function Fired(): set<T>
      requires Shape() && Timed(offset, 0)
    {
      var w := Opened();
      set x | x in w.at && w.Ripe(offset, 0, w.at[x])
    }

    /** The wheel after the drain of level 0, with cursor and offset advanced and no callback run yet. */
    ghost function Taken(): Wheel<T>
      requires Shape() && Timed(offset, 0)
    {
      var w := Opened();
      w.(offset := offset + 1, cur := Advance(w.cur, 0), at := w.at - Fired())
    }

    lemma TakenOne(n: Node, t: nat)
      requires Shape() && OkPos(sa, nb, n.pos) && Next(t, 0, n) <= n.due && (nb >= 1 ==> cur[0] < sa)
      ensures Leaves(t, 0, n) >= t && (Ripe(t, 0, n) <==> Leaves(t, 0, n) == t)
      ensures !Ripe(t, 0, n) ==>
                && DrainTick(sa, Advance(cur, 0), t + 1, 0, n.pos) <= n.due
                && FireTick(sa, DrainTick(sa, Advance(cur, 0), t + 1, 0, n.pos), n.pos, n.due) == Leaves(t, 0, n)
    {
      if n.pos.Slot? {
        var k, s := n.pos.k, n.pos.s;
        LagTop(sa, cur, k);
        if k == 0 {
          assert Pow(sa, 0) == 1;
        }
      } else {
        LagTop(sa, cur, nb);
      }
    }

    /** A `shift` fires exactly the items that leave at this tick. */
    lemma FiredIsDue()
      requires Shape() && Timed(offset, 0)
      ensures Fired() == set x | x in at && Plan(offset, 0)[x] == offset
    {
      var o := Opened();
      forall x | x in o.at
        ensures o.Ripe(offset, 0, o.at[x]) <==> Plan(offset, 0)[x] == offset
      {
        o.TakenOne(o.at[x], offset);
        assert o.Leaves(offset, 0, o.at[x]) == o.Plan(offset, 0)[x];
      }
    }

    /** An item that stays keeps the tick at which it leaves. */
    ghost predicate Stays(o: Wheel<T>, w: Wheel<T>, x: T)
      requires o.Shape() && x in o.at && x in w.at && OkPos(o.sa, o.nb, o.at[x].pos)
      requires o.Next(offset, 0, o.at[x]) <= o.at[x].due && Cursors(o.sa, w.cur) && |w.cur| == o.nb
    {
      w.at[x] == o.at[x]
      && var d := DrainTick(o.sa, w.cur, w.offset, 0, o.at[x].pos);
         d <= o.at[x].due && FireTick(o.sa, d, o.at[x].pos, o.at[x].due) == o.Leaves(offset, 0, o.at[x])
    }

    lemma TakenStays()
      requires Shape() && Timed(offset, 0)
      ensures var o, w := Opened(), Taken();
        && w.sa == sa && w.nb == nb && Cursors(sa, w.cur) && |w.cur| == nb && w.at.Keys <= o.at.Keys
        && forall x | x in w.at :: Stays(o, w, x)
    {
      hide Wheel.Opened, Wheel.Plan;
      var o, w := Opened(), Taken();
      forall x | x in w.at ensures Stays(o, w, x) {
        o.TakenOne(o.at[x], offset);
      }
    }

    lemma TakenShape()
      requires Shape() && Timed(offset, 0)
      ensures Taken().Shape() && Taken().Timed(Taken().offset, 0)
    {
      hide Wheel.Opened, Wheel.Taken, Wheel.Plan, Wheel.Leaves;
      TakenStays();
      assert forall x | x in Taken().at :: Stays(Opened(), Taken(), x);
    }

    /** The items that stay keep the tick at which they leave. */
    lemma TakenKeeps()
      requires Shape() && Timed(offset, 0)
      ensures var w := Taken();
        && w.Shape() && w.Timed(w.offset, 0) && w.Plan(w.offset, 0) == Plan(offset, 0) - Fired()
    {
      hide Wheel.Opened, DrainTick, FireTick, Wheel.SameItems;
      TakenStays();
      TakenShape();
      var o, w := Opened(), Taken();
      forall x | x in w.at ensures w.Plan(w.offset, 0)[x] == o.Plan(offset, 0)[x] {
        assert Stays(o, w, x);
      }
    }

    lemma TakenItems()
      requires Shape() && Timed(offset, 0)
      ensures var w := Taken();
        && w.sa == sa && w.nb == nb && w.offset == offset + 1
        && w.at.Keys == at.Keys - Fired()
        && (forall x | x in w.at :: w.at[x].due == at[x].due && w.Budget(w.at[x]) == Budget(at[x]))
        && (nb >= 1 ==> 1 <= w.cur[0] && w.Clear(Slot(0, w.cur[0] - 1)))
    {
    }

    // ----- requests and callbacks

    /** The bucket that `add` picks for `index`. */
    function Place(index: nat): (p: Pos)
      requires sa >= 1 && |cur| == nb
      ensures OkPos(sa, nb, p)
    {
      var k := LevelFrom(sa, nb, 0, index);
      if k == nb then Last else Landing(sa, cur, k, index - First(sa, k))
    }

    /** One request; an item of `waiting` is still linked into the slot being drained. */
    function Do(op: Op<T>, waiting: set<T>): Wheel<T>
      requires sa >= 1 && |cur| == nb
    {
      match op
      case Add(x, index) =>
        if x in at || x in waiting then this
        else this.(at := at[x := Node(Place(index), offset + index, 0)])
      case Rem(x) => this.(at := at - {x})
    }

    function DoAll(ops: seq<Op<T>>, waiting: set<T>): (w: Wheel<T>)
      requires sa >= 1 && |cur| == nb
      ensures w.sa == sa && w.cur == cur && w.nb == nb && w.offset == offset
      decreases |ops|
    {
      if ops == [] then this else Do(ops[0], waiting).DoAll(ops[1..], waiting)
    }

    /** The callbacks of one `shift`, on the items of `order` in turn. */
    function Deliver(order: seq<T>, script: T -> seq<Op<T>>): (w: Wheel<T>)
      requires sa >= 1 && |cur| == nb
      ensures w.sa == sa && w.cur == cur && w.nb == nb && w.offset == offset
      decreases |order|
    {
      if order == [] then this
      else DoAll(script(order[0]), Elems(order[1..])).Deliver(order[1..], script)
    }

    /** The end of a drain forgets whatever is linked into the drained slot of level 0. */
    function Swept(): Wheel<T>
      requires nb >= 1 ==> |cur| == nb && cur[0] >= 1
    {
      if nb == 0 then this
      else this.(at := map x | x in at && at[x].pos != Slot(0, cur[0] - 1) :: at[x])
    }

    ghost predicate Enabled(step: Step<T>)
      requires Shape() && Timed(offset, 0)
    {
      match step
      case Call(_) => true
      case Shift(order, script) =>
        NoDup(order) && Elems(order) == Fired() && AllPolite(sa, nb, order, script)
    }

    ghost function Apply(step: Step<T>): Wheel<T>
      requires Shape() && Timed(offset, 0)
    {
      match step
      case Call(op) => Do(op, {})
      case Shift(order, script) =>
        TakenItems();
        TakenKeeps();
        Taken().Deliver(order, script).Swept()
    }

    /** The cascade goes by the tick it is given, not by the offset of the wheel. */
    lemma {:induction false} CascadeOffset(t: nat, k: nat, n: nat)
      requires Shape() && 1 <= k <= nb && Reset(cur, k) && Timed(t, k)
      ensures this.(offset := n).Shape() && this.(offset := n).Timed(t, k)
      ensures this.(offset := n).Cascade(t, k) == Cascade(t, k).(offset := n)
      decreases nb - k
    {
      hide Wheel.Cascade, Wheel.Shape, Wheel.Timed, Wheel.DrainInto, Wheel.Carries;
      TimedOffset(t, k, n);
      CascadeStep(t, k);
      this.(offset := n).CascadeStep(t, k);
      if k < nb && cur[k] == sa {
        assert this.(offset := n).Wrap(k) == Wrap(k).(offset := n);
        Wrap(k).CascadeOffset(t, k + 1, n);
        Wrap(k).Cascade(t, k + 1).DrainOffset(t, k, n);
      } else {
        DrainOffset(t, k, n);
      }
    }

    lemma TimedOffset(t: nat, k: nat, n: nat)
      requires Shape() && Timed(t, k)
      ensures this.(offset := n).Shape() && this.(offset := n).Timed(t, k)
    {
      assert forall x | x in at :: this.(offset := n).Next(t, k, at[x]) == Next(t, k, at[x]);
    }

    lemma DrainOffset(t: nat, k: nat, n: nat)
      requires Shape() && CanDrain(sa, cur, k) && Timed(t, k)
      ensures this.(offset := n).Shape() && this.(offset := n).Timed(t, k)
      ensures this.(offset := n).DrainInto(t, k) == DrainInto(t, k).(offset := n)
    {
      TimedOffset(t, k, n);
      assert this.(offset := n).DrainInto(t, k).at == DrainInto(t, k).at;
    }

    /** A cascade from level `k` drains the levels whose wait is over, and those wait a full step again. */
    lemma {:induction false} CascadeLag(t: nat, k: nat, j: nat)
      requires Shape() && 1 <= k <= nb && Reset(cur, k) && Timed(t, k) && k <= j <= nb
      ensures Lag(sa, Cascade(t, k).cur, k - 1, j) == Renewed(sa, Lag(sa, cur, k, j), j)
      decreases nb - k
    {
      hide Wheel.Cascade, Wheel.Carries, Wheel.Plan, Wheel.Timed;
      CascadeStep(t, k);
      if k < nb && cur[k] == sa {
        LagWrap(sa, cur, k, j);
        var w := Wrap(k).Cascade(t, k + 1);
        LagDrain(sa, w.cur, k, j);
        if j > k {
          Wrap(k).CascadeLag(t, k + 1, j);
        }
      } else {
        LagDrain(sa, cur, k, j);
        LagPositive(sa, cur, k, j);
      }
    }

    /** One `shift` takes one tick off the wait of every level, or starts it anew. */
    lemma TakenLag(j: nat)
      requires Shape() && Timed(offset, 0) && 1 <= j <= nb
      ensures Cursors(sa, Taken().cur) && |Taken().cur| == nb
      ensures Lag(sa, Taken().cur, 0, j) + 1 == Renewed(sa, Lag(sa, cur, 0, j), j)
    {
      TakenKeeps();
      TakenItems();
      LagTop(sa, Opened().cur, j);
      if cur[0] == sa {
        WrapKeeps(offset, 0);
        LagWrap(sa, cur, 0, j);
        Wrap(0).CascadeLag(offset, 1, j);
      } else {
        LagPositive(sa, cur, 0, j);
      }
    }

    ghost predicate Clear(p: Pos) {
      forall x | x in at :: at[x].pos != p
    }
  }

  /** The drain of level 0 brings every other level one tick closer. */
  lemma {:induction false} LagTop(sa: nat, cur: seq<nat>, j: nat)
    requires Cursors(sa, cur) && j <= |cur| && (|cur| >= 1 ==> cur[0] < sa)
    ensures j >= 1 ==> Lag(sa, Advance(cur, 0), 0, j) + 1 == Lag(sa, cur, 0, j)
  {
    if j >= 2 {
      LagTop(sa, cur, j - 1);
    } else if j == 1 {
      assert Pow(sa, 0) == 1;
    }
  }

  function Renewed(sa: nat, lag: nat, j: nat): nat
    requires sa >= 1
  {
    if lag == 0 then Pow(sa, j) else lag
  }

  /** Without a pending wrap on level `f`, no level above it is drained now. */
  lemma {:induction false} LagPositive(sa: nat, cur: seq<nat>, f: nat, j: nat)
    requires Cursors(sa, cur) && j <= |cur| && (f < |cur| ==> cur[f] < sa)
    ensures j > f ==> Lag(sa, cur, f, j) > 0
  {
    if j > f {
      if j > f + 1 {
        LagPositive(sa, cur, f, j - 1);
      }
      MulMonotone(if j == f + 1 then 1 else 0, sa - cur[j - 1], Pow(sa, j - 1));
    }
  }
}
