/**
  The plain reference for the timing wheel: a map from items to ticks and a
  clock.  It has no levels, no slots and no cursors; the only trace of the
  wheel in it is `Early`, a closed form in the number of ticks elapsed.
*/
module DueCalendar {
  import opened Prelude
  import opened Radix
  import opened TimingWheel

  /** Ticks before the next drain of level `j`, after `n` calls of `shift`. */
  function Countdown(sa: nat, n: nat, j: nat): nat
    requires sa >= 1
  {
    if n <= First(sa, j) then First(sa, j) - n
    else
      var r := (n - First(sa, j)) % Pow(sa, j);
      if r == 0 then 0 else Pow(sa, j) - r
  }

  lemma {:induction false} FirstStep(sa: nat, j: nat)
    requires sa >= 1 && j >= 1
    ensures First(sa, j) >= Pow(sa, j)
  {
  }

  lemma CountdownBound(sa: nat, n: nat, j: nat)
    requires sa >= 1
    ensures Countdown(sa, n, j) <= First(sa, j)
  {
    if j >= 1 {
      FirstStep(sa, j);
    }
  }

  lemma CountdownNext(sa: nat, n: nat, j: nat)
    requires sa >= 1
    ensures Countdown(sa, n + 1, j) + 1 == Renewed(sa, Countdown(sa, n, j), j)
  {
    var f, p := First(sa, j), Pow(sa, j);
    if n >= f {
      NextMod(n - f, p);
      if n == f {
        DivModUnique(0, p, 0, 0);
      }
    }
  }

  /**
    What is left of `index` when level `k` next drains the slot it was put in:
    the part below the step of the level, and the ticks by which the lower cursors had moved.
  */
  function Left(sa: nat, n: nat, k: nat, index: nat): (r: nat)
    requires sa >= 1 && First(sa, k) <= index
    ensures r <= index
  {
    CountdownBound(sa, n, k);
    ModAtMost(index - First(sa, k), Pow(sa, k));
    (index - First(sa, k)) % Pow(sa, k) + (First(sa, k) - Countdown(sa, n, k))
  }

  /** How many ticks before its due tick the wheel fires an item added at `index` after `n` shifts. */
  function Early(sa: nat, nb: nat, n: nat, index: nat): (r: nat)
    requires sa >= 1
    ensures r <= index
  {
    var k := LevelFrom(sa, nb, 0, index);
    if k == nb then 0
    else
      var left := Left(sa, n, k, index);
      ModAtMost(left, Pow(sa, k));
      left - left % Pow(sa, k)
  }

  /** The reference: items with the tick at which they leave.  `exact` makes it the plain map item -> due tick. */
  datatype Calendar<T(==)> =
    Calendar(sa: nat, nb: nat, start: nat, now: nat, exact: bool, plan: map<T, nat>)
  {
    ghost predicate Valid() {
      sa >= 1 && start <= now
    }

    function Delay(index: nat): nat
      requires sa >= 1 && start <= now
    {
      if exact then index else index - Early(sa, nb, now - start, index)
    }

    function Do(op: Op<T>, waiting: set<T>): Calendar<T>
      requires sa >= 1 && start <= now
    {
      match op
      case Add(x, index) =>
        if x in plan || x in waiting then this else this.(plan := plan[x := now + Delay(index)])
      case Rem(x) => this.(plan := plan - {x})
    }

    function DoAll(ops: seq<Op<T>>, waiting: set<T>): (c: Calendar<T>)
      requires sa >= 1 && start <= now
      ensures c == this.(plan := c.plan)
      decreases |ops|
    {
      if ops == [] then this else Do(ops[0], waiting).DoAll(ops[1..], waiting)
    }

    function Deliver(order: seq<T>, script: T -> seq<Op<T>>): (c: Calendar<T>)
      requires sa >= 1 && start <= now
      ensures c == this.(plan := c.plan)
      decreases |order|
    {
      if order == [] then this
      else DoAll(script(order[0]), Elems(order[1..])).Deliver(order[1..], script)
    }

    function Due(): set<T> {
      set x | x in plan && plan[x] == now
    }

    ghost predicate Enabled(step: Step<T>) {
      match step
      case Call(_) => true
      case Shift(order, script) =>
        NoDup(order) && Elems(order) == Due() && AllPolite(sa, nb, order, script)
    }

    function Apply(step: Step<T>): (c: Calendar<T>)
      requires sa >= 1 && start <= now
      ensures c == this.(now := c.now, plan := c.plan) && start <= c.now
    {
      match step
      case Call(op) => Do(op, {})
      case Shift(order, script) =>
        this.(now := now + 1, plan := plan - Due()).Deliver(order, script)
    }
  }

  // ----- the wheel refines the calendar

  /** The waits of all levels are what the number of shifts since `start` says. */
  ghost predicate Synced<T>(w: Wheel<T>, start: nat)
    requires w.Shape()
  {
    start <= w.offset
    && forall j | 0 <= j <= w.nb :: Lag(w.sa, w.cur, 0, j) == Countdown(w.sa, w.offset - start, j)
  }

  /** Every state that a run of the wheel reaches satisfies this. */
  ghost predicate Good<T>(w: Wheel<T>, start: nat) {
    && w.Shape() && w.Timed(w.offset, 0) && Synced(w, start)
    && forall x | x in w.at :: w.Budget(w.at[x]) <= w.nb
  }

  ghost function Abs<T>(w: Wheel<T>, start: nat): Calendar<T>
    requires Good(w, start)
  {
    Calendar(w.sa, w.nb, start, w.offset, false, w.Plan(w.offset, 0))
  }

  /** The slot that `add` picks on level `k` is as many turns away as the index is steps into the level. */
  lemma PlaceSlot<T>(w: Wheel<T>, index: nat, k: nat) returns (s: nat)
    requires w.Shape() && k == LevelFrom(w.sa, w.nb, 0, index) && k < w.nb
    ensures s < w.sa && w.Place(index) == Slot(k, s)
    ensures Turns(w.sa, w.cur[k], s) == (index - First(w.sa, k)) / Pow(w.sa, k)
  {
    ghost var q := SlotNumber(w.sa, k, index);
    s := LandingTurns(w.sa, w.cur, k, index - First(w.sa, k), q);
  }

  lemma SlotNumber(sa: nat, k: nat, index: nat) returns (q: nat)
    requires sa >= 1 && First(sa, k) <= index < First(sa, k + 1)
    ensures q == (index - First(sa, k)) / Pow(sa, k) && q < sa
  {
    var r, p := index - First(sa, k), Pow(sa, k);
    assert First(sa, k + 1) == First(sa, k) + Times(sa, p);
    QuotientBelow(r, p, sa);
    q := r / p;
  }

  lemma SlotTick(sa: nat, cur: seq<nat>, t: nat, n: nat, k: nat, s: nat, index: nat)
    requires Cursors(sa, cur) && k < |cur| && s < sa && First(sa, k) <= index
    requires Lag(sa, cur, 0, k) == Countdown(sa, n, k)
    requires Turns(sa, cur[k], s) == (index - First(sa, k)) / Pow(sa, k)
    ensures DrainTick(sa, cur, t, 0, Slot(k, s)) == t + index - Left(sa, n, k, index)
  {
    DivMod(index - First(sa, k), Pow(sa, k));
  }

  lemma LandingTurns(sa: nat, cur: seq<nat>, k: nat, r: nat, q: nat) returns (s: nat)
    requires Cursors(sa, cur) && k < |cur| && q == r / Pow(sa, k) && q < sa
    ensures s < sa && Landing(sa, cur, k, r) == Slot(k, s) && Turns(sa, cur[k], s) == q
  {
    s := (cur[k] + q) % sa;
    TurnsOf(sa, cur[k], q);
  }

  lemma TurnsOf(sa: nat, c: nat, q: nat)
    requires c <= sa && q < sa
    ensures Turns(sa, c, (c + q) % sa) == q
  {
    if c + q < sa {
      DivModUnique(c + q, sa, 0, c + q);
    } else {
      DivModUnique(c + q, sa, 1, c + q - sa);
    }
  }

  /** Drained with `Left` ticks to go, an item leaves `Early` ticks before it is due. */
  lemma LeavesEarly(sa: nat, nb: nat, n: nat, t: nat, index: nat, s: nat)
    requires sa >= 1 && LevelFrom(sa, nb, 0, index) < nb
    ensures var k := LevelFrom(sa, nb, 0, index);
      FireTick(sa, t + index - Left(sa, n, k, index), Slot(k, s), t + index)
      == t + index - Early(sa, nb, n, index)
  {
  }

  /** At `p` an item added now at `index` is timely, and leaves `Early` ticks before it is due. */
  ghost predicate Leaving<T>(w: Wheel<T>, start: nat, index: nat, p: Pos)
    requires Good(w, start) && OkPos(w.sa, w.nb, p)
  {
    var n := Node(p, w.offset + index, 0);
    && w.Next(w.offset, 0, n) <= n.due
    && w.Leaves(w.offset, 0, n) == w.offset + Abs(w, start).Delay(index)
  }

  lemma LastLeaves<T>(w: Wheel<T>, start: nat, index: nat)
    requires Good(w, start) && LevelFrom(w.sa, w.nb, 0, index) == w.nb
    ensures Leaving(w, start, index, Last)
  {
    assert Lag(w.sa, w.cur, 0, w.nb) == Countdown(w.sa, w.offset - start, w.nb);
    CountdownBound(w.sa, w.offset - start, w.nb);
  }

  lemma SlotLeaves<T>(w: Wheel<T>, start: nat, index: nat, k: nat, s: nat)
    requires Good(w, start) && k == LevelFrom(w.sa, w.nb, 0, index) && k < w.nb
    requires s < w.sa && Turns(w.sa, w.cur[k], s) == (index - First(w.sa, k)) / Pow(w.sa, k)
    ensures Leaving(w, start, index, Slot(k, s))
  {
    assert Lag(w.sa, w.cur, 0, k) == Countdown(w.sa, w.offset - start, k);
    SlotTick(w.sa, w.cur, w.offset, w.offset - start, k, s, index);
    LeavesEarly(w.sa, w.nb, w.offset - start, w.offset, index, s);
  }

  lemma PlaceLeaves<T>(w: Wheel<T>, start: nat, index: nat)
    requires Good(w, start)
    ensures Leaving(w, start, index, w.Place(index))
    ensures w.Budget(Node(w.Place(index), w.offset + index, 0)) <= w.nb
  {
    var k := LevelFrom(w.sa, w.nb, 0, index);
    if k == w.nb {
      LastLeaves(w, start, index);
    } else {
      var s := PlaceSlot(w, index, k);
      SlotLeaves(w, start, index, k, s);
    }
  }

  lemma AddKeeps<T>(w: Wheel<T>, start: nat, x: T, n: Node)
    requires Good(w, start) && x !in w.at
    requires OkPos(w.sa, w.nb, n.pos) && w.Next(w.offset, 0, n) <= n.due && w.Budget(n) <= w.nb
    ensures var w' := w.(at := w.at[x := n]);
      Good(w', start) && w'.Plan(w.offset, 0) == w.Plan(w.offset, 0)[x := w.Leaves(w.offset, 0, n)]
  {
    var w' := w.(at := w.at[x := n]);
    assert w'.Shape();
    assert forall y | y in w'.at :: w'.Next(w.offset, 0, w'.at[y]) == w.Next(w.offset, 0, w'.at[y]);
    assert w'.Timed(w.offset, 0);
    assert Synced(w', start);
  }

  lemma RemKeeps<T>(w: Wheel<T>, start: nat, x: T)
    requires Good(w, start)
    ensures var w' := w.(at := w.at - {x});
      Good(w', start) && w'.Plan(w.offset, 0) == w.Plan(w.offset, 0) - {x}
  {
    var w' := w.(at := w.at - {x});
    assert w'.Shape();
    assert forall y | y in w'.at :: w'.Next(w.offset, 0, w'.at[y]) == w.Next(w.offset, 0, w'.at[y]);
    assert w'.Timed(w.offset, 0);
    assert Synced(w', start);
  }

  /** A new item leaves when the calendar says. */
  lemma AddDelay<T>(w: Wheel<T>, start: nat, x: T, index: nat)
    requires Good(w, start) && x !in w.at
    ensures var w' := w.(at := w.at[x := Node(w.Place(index), w.offset + index, 0)]);
      && Good(w', start)
      && w'.Plan(w.offset, 0) == w.Plan(w.offset, 0)[x := w.offset + Abs(w, start).Delay(index)]
  {
    hide Wheel.Plan, Wheel.Place, Calendar.Delay, Synced, Wheel.Leaves, Wheel.Next, Wheel.Timed;
    PlaceLeaves(w, start, index);
    AddKeeps(w, start, x, Node(w.Place(index), w.offset + index, 0));
  }

  lemma DoKeeps<T>(w: Wheel<T>, start: nat, op: Op<T>, waiting: set<T>)
    requires Good(w, start)
    ensures Good(w.Do(op, waiting), start)
    ensures Abs(w.Do(op, waiting), start) == Abs(w, start).Do(op, waiting)
  {
    hide Wheel.Place, Calendar.Delay, Synced, Wheel.Leaves, Wheel.Next, Wheel.Timed;
    match op
    case Rem(x) =>
      RemKeeps(w, start, x);
    case Add(x, index) =>
      if x !in w.at && x !in waiting {
        AddDelay(w, start, x, index);
      }
  }

  lemma {:induction false} DoAllKeeps<T>(w: Wheel<T>, start: nat, ops: seq<Op<T>>, waiting: set<T>)
    requires Good(w, start)
    ensures Good(w.DoAll(ops, waiting), start)
    ensures Abs(w.DoAll(ops, waiting), start) == Abs(w, start).DoAll(ops, waiting)
    decreases |ops|
  {
    if ops != [] {
      DoKeeps(w, start, ops[0], waiting);
      DoAllKeeps(w.Do(ops[0], waiting), start, ops[1..], waiting);
    }
  }

  lemma {:induction false} DeliverKeeps<T>(w: Wheel<T>, start: nat, order: seq<T>, script: T -> seq<Op<T>>)
    requires Good(w, start)
    ensures Good(w.Deliver(order, script), start)
    ensures Abs(w.Deliver(order, script), start) == Abs(w, start).Deliver(order, script)
    decreases |order|
  {
    if order != [] {
      var ops, waiting := script(order[0]), Elems(order[1..]);
      DoAllKeeps(w, start, ops, waiting);
      DeliverKeeps(w.DoAll(ops, waiting), start, order[1..], script);
    }
  }

  // ----- the sweep at the end of a drain is harmless

  /** A polite request never lands in the slot that level 0 has just drained. */
  lemma PoliteMisses<T>(w: Wheel<T>, index: nat)
    requires w.Shape() && w.nb >= 1 && w.cur[0] >= 1
    ensures w.Place(index) == Slot(0, w.cur[0] - 1) <==> index + 1 == w.sa
  {
    var sa, c := w.sa, w.cur[0];
    if index < First(sa, 1) {
      assert First(sa, 0) == 0 && Pow(sa, 0) == 1 && First(sa, 1) == sa;
      TurnsOf(sa, c, index);
      assert w.Place(index) == Slot(0, (c + index) % sa);
    }
  }

  lemma {:induction false} DoAllClear<T>(w: Wheel<T>, ops: seq<Op<T>>, waiting: set<T>)
    requires w.Shape() && w.nb >= 1 && w.cur[0] >= 1 && w.Clear(Slot(0, w.cur[0] - 1))
    requires Polite(w.sa, w.nb, ops, waiting)
    ensures var w' := w.DoAll(ops, waiting); w'.Shape() && w'.Clear(Slot(0, w.cur[0] - 1))
    decreases |ops|
  {
    if ops != [] {
      var op := ops[0];
      assert op in ops;
      if op.Add? {
        PoliteMisses(w, op.index);
      }
      assert forall o | o in ops[1..] :: o in ops;
      DoAllClear(w.Do(op, waiting), ops[1..], waiting);
    }
  }

  lemma {:induction false} DeliverClear<T>(w: Wheel<T>, order: seq<T>, script: T -> seq<Op<T>>)
    requires w.Shape() && w.nb >= 1 && w.cur[0] >= 1 && w.Clear(Slot(0, w.cur[0] - 1))
    requires AllPolite(w.sa, w.nb, order, script)
    ensures w.Deliver(order, script).Clear(Slot(0, w.cur[0] - 1))
    decreases |order|
  {
    if order != [] {
      var ops, waiting := script(order[0]), Elems(order[1..]);
      PoliteTail(w.sa, w.nb, order, script);
      DoAllClear(w, ops, waiting);
      DeliverClear(w.DoAll(ops, waiting), order[1..], script);
    }
  }

  lemma DeliverSwept<T>(w: Wheel<T>, order: seq<T>, script: T -> seq<Op<T>>)
    requires w.Shape() && (w.nb >= 1 ==> w.cur[0] >= 1 && w.Clear(Slot(0, w.cur[0] - 1)))
    requires AllPolite(w.sa, w.nb, order, script)
    ensures w.Deliver(order, script).Swept() == w.Deliver(order, script)
  {
    if w.nb >= 1 {
      DeliverClear(w, order, script);
    }
    var w' := w.Deliver(order, script);
    assert w'.Swept().at == w'.at;
  }

  // ----- main results

  lemma TakenGood<T>(w: Wheel<T>, start: nat)
    requires Good(w, start)
    ensures Good(w.Taken(), start)
    ensures w.Fired() == Abs(w, start).Due()
    ensures Abs(w.Taken(), start) == Abs(w, start).(now := w.offset + 1, plan := Abs(w, start).plan - w.Fired())
  {
    w.FiredIsDue();
    w.TakenItems();
    w.TakenKeeps();
    var w' := w.Taken();
    forall j | 0 <= j <= w.nb
      ensures Lag(w.sa, w'.cur, 0, j) == Countdown(w.sa, w'.offset - start, j)
    {
      assert Lag(w.sa, w.cur, 0, j) == Countdown(w.sa, w.offset - start, j);
      CountdownNext(w.sa, w.offset - start, j);
      if j >= 1 {
        w.TakenLag(j);
      }
    }
    assert Synced(w', start);
  }

  /** A `shift` with polite callbacks: nothing is swept away, and the callbacks mean the same to the calendar. */
  lemma ShiftRefines<T>(w: Wheel<T>, start: nat, order: seq<T>, script: T -> seq<Op<T>>)
    requires Good(w, start) && AllPolite(w.sa, w.nb, order, script)
    ensures var w', c := w.Apply(Shift(order, script)), Abs(w, start);
      && Good(w', start)
      && Abs(w', start) == c.(now := c.now + 1, plan := c.plan - w.Fired()).Deliver(order, script)
  {
    TakenGood(w, start);
    w.TakenItems();
    DeliverKeeps(w.Taken(), start, order, script);
    DeliverSwept(w.Taken(), order, script);
  }

  /**
    One step of the wheel is one step of the calendar: the same steps are possible, so each `shift` fires
    exactly the items the calendar says, and the two end in corresponding states.
  */
  lemma StepRefines<T>(w: Wheel<T>, start: nat, step: Step<T>)
    requires Good(w, start)
    ensures w.Enabled(step) <==> Abs(w, start).Enabled(step)
    ensures w.Enabled(step) ==> Good(w.Apply(step), start)
    ensures w.Enabled(step) ==> Abs(w.Apply(step), start) == Abs(w, start).Apply(step)
  {
    match step
    case Call(op) =>
      DoKeeps(w, start, op, {});
    case Shift(order, script) =>
      w.FiredIsDue();
      assert w.Fired() == Abs(w, start).Due();
      if w.Enabled(step) {
        ShiftRefines(w, start, order, script);
      }
  }

  ghost predicate Runs<T>(c: Calendar<T>, steps: seq<Step<T>>)
    requires c.Valid()
    decreases |steps|
  {
    steps == [] || (c.Enabled(steps[0]) && Runs(c.Apply(steps[0]), steps[1..]))
  }

  function After<T>(c: Calendar<T>, steps: seq<Step<T>>): (c': Calendar<T>)
    requires c.sa >= 1 && c.start <= c.now
    ensures c' == c.(now := c'.now, plan := c'.plan) && c.start <= c'.now
    decreases |steps|
  {
    if steps == [] then c else After(c.Apply(steps[0]), steps[1..])
  }

  ghost predicate WheelRuns<T>(w: Wheel<T>, steps: seq<Step<T>>)
    decreases |steps|
  {
    steps == [] ||
    (w.Shape() && w.Timed(w.offset, 0) && w.Enabled(steps[0]) && WheelRuns(w.Apply(steps[0]), steps[1..]))
  }

  ghost function WheelAfter<T>(w: Wheel<T>, steps: seq<Step<T>>): Wheel<T>
    requires WheelRuns(w, steps)
    decreases |steps|
  {
    if steps == [] then w else WheelAfter(w.Apply(steps[0]), steps[1..])
  }

  function Blank<T>(sa: nat, nb: nat, start: nat, exact: bool): Calendar<T> {
    Calendar(sa, nb, start, start, exact, map[])
  }

  function Fresh<T>(sa: nat, nb: nat, start: nat): Wheel<T> {
    Wheel(sa, nb, start, seq(nb, _ => 0), map[])
  }

  lemma {:induction false} FreshLag(sa: nat, cur: seq<nat>, j: nat)
    requires Cursors(sa, cur) && Reset(cur, |cur|) && j <= |cur|
    ensures Lag(sa, cur, 0, j) == First(sa, j)
  {
    if j > 0 {
      FreshLag(sa, cur, j - 1);
    }
  }

  lemma FreshGood<T>(sa: nat, nb: nat, start: nat)
    requires sa >= 1
    ensures Good(Fresh<T>(sa, nb, start), start)
    ensures Abs(Fresh<T>(sa, nb, start), start) == Blank<T>(sa, nb, start, false)
  {
    var w := Fresh<T>(sa, nb, start);
    forall j | 0 <= j <= nb ensures Lag(sa, w.cur, 0, j) == Countdown(sa, 0, j) {
      FreshLag(sa, w.cur, j);
    }
    assert Synced(w, start);
  }

  /** The runs of the wheel are the runs of the calendar, with the same firings at the same ticks. */
  lemma {:induction false} RunRefines<T>(w: Wheel<T>, start: nat, steps: seq<Step<T>>)
    requires Good(w, start)
    ensures WheelRuns(w, steps) <==> Runs(Abs(w, start), steps)
    ensures WheelRuns(w, steps) ==>
              Good(WheelAfter(w, steps), start) && Abs(WheelAfter(w, steps), start) == After(Abs(w, start), steps)
    decreases |steps|
  {
    if steps != [] {
      StepRefines(w, start, steps[0]);
      if w.Enabled(steps[0]) {
        RunRefines(w.Apply(steps[0]), start, steps[1..]);
      }
    }
  }
}
