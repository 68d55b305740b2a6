/** What the refinement says about timers: never late, when exact, how early, and for how long. */
module WheelTheorems {
  import opened Prelude
  import opened Radix
  import opened TimingWheel
  import opened DueCalendar

  // ----- never late

  lemma FireInWindow(sa: nat, d: nat, p: Pos, due: nat)
    requires sa >= 1 && d <= due
    ensures d <= FireTick(sa, d, p, due) <= due
  {
    if p.Slot? {
      ModAtMost(due - d, Pow(sa, p.k));
    }
  }

  /** An item in the wheel is not overdue, leaves between now and its due tick, and has moved at most `nb` times. */
  lemma InWindow<T>(w: Wheel<T>, start: nat, x: T)
    requires Good(w, start) && x in w.at
    ensures w.offset <= w.Plan(w.offset, 0)[x] <= w.at[x].due && w.at[x].moves <= w.nb
  {
    var n := w.at[x];
    assert w.Next(w.offset, 0, n) <= n.due;
    assert w.Budget(n) <= w.nb;
    FireInWindow(w.sa, w.Next(w.offset, 0, n), n.pos, n.due);
    NextIsAhead(w.sa, w.cur, w.offset, n.pos);
  }

  lemma NextIsAhead(sa: nat, cur: seq<nat>, t: nat, p: Pos)
    requires Cursors(sa, cur) && OkPos(sa, |cur|, p)
    ensures t <= DrainTick(sa, cur, t, 0, p)
  {
  }

  /** The same, over every run of a new wheel. */
  lemma NeverLate<T>(sa: nat, nb: nat, start: nat, steps: seq<Step<T>>, x: T)
    requires sa >= 1 && WheelRuns(Fresh<T>(sa, nb, start), steps)
    requires x in WheelAfter(Fresh<T>(sa, nb, start), steps).at
    ensures var w := WheelAfter(Fresh<T>(sa, nb, start), steps);
      w.offset <= w.at[x].due && w.at[x].moves <= nb
  {
    var w0 := Fresh<T>(sa, nb, start);
    FreshGood<T>(sa, nb, start);
    RunRefines(w0, start, steps);
    assert Abs(WheelAfter(w0, steps), start).nb == After(Abs(w0, start), steps).nb == nb;
    InWindow(WheelAfter(w0, steps), start, x);
  }

  // ----- how early

  lemma {:induction false} FirstIsSmall(sa: nat, k: nat)
    requires sa >= 2
    ensures First(sa, k) + 2 <= 2 * Pow(sa, k)
  {
    if k > 0 {
      FirstIsSmall(sa, k - 1);
      MulMonotone(2, sa, Pow(sa, k - 1));
    }
  }

  lemma LeftIsSmall(sa: nat, n: nat, k: nat, index: nat)
    requires sa >= 2 && First(sa, k) <= index
    ensures Left(sa, n, k, index) < 3 * Pow(sa, k)
    ensures k == 0 ==> Left(sa, n, k, index) == 0
  {
    FirstIsSmall(sa, k);
  }

  lemma WholeSteps(left: nat, p: nat) returns (a: nat)
    requires p >= 1 && left < 3 * p
    ensures a <= 2 && left - left % p == a * p
  {
    a := left / p;
    DivMod(left, p);
    if a >= 3 {
      MulMonotone(3, a, p);
    }
  }

  lemma MultipleOfStep(a: nat, b: nat, p: nat)
    requires b >= 1
    ensures a * (b * p) % b == 0
  {
    assert a * (b * p) == a * p * b + 0;
    DivModUnique(a * (b * p), b, a * p, 0);
  }

  lemma LeftSteps(sa: nat, n: nat, k: nat, index: nat) returns (a: nat)
    requires sa >= 2 && First(sa, k) <= index
    ensures a <= 2 && Left(sa, n, k, index) - Left(sa, n, k, index) % Pow(sa, k) == a * Pow(sa, k)
    ensures a * Pow(sa, k) % sa == 0
  {
    LeftIsSmall(sa, n, k, index);
    if k == 0 {
      a := 0;
    } else {
      a := WholeSteps(Left(sa, n, k, index), Pow(sa, k));
      MultipleOfStep(a, sa, Pow(sa, k - 1));
    }
  }

  /** The firing is early by 0, 1 or 2 steps of the level the item was put on, hence by a multiple of `sa`. */
  lemma EarlyIsFewSteps(sa: nat, nb: nat, n: nat, index: nat) returns (k: nat, a: nat)
    requires sa >= 2
    ensures k == LevelFrom(sa, nb, 0, index) && a <= 2
    ensures Early(sa, nb, n, index) == if k < nb then a * Pow(sa, k) else 0
    ensures Early(sa, nb, n, index) % sa == 0
  {
    k, a := LevelFrom(sa, nb, 0, index), 0;
    if k < nb {
      a := LeftSteps(sa, n, k, index);
    }
  }

  /** The firing is exact just when the lower cursors have not moved past what the level rounds off. */
  lemma ExactWhen(sa: nat, nb: nat, n: nat, index: nat)
    requires sa >= 1
    ensures var k := LevelFrom(sa, nb, 0, index);
      Early(sa, nb, n, index) == 0 <==> k == nb || Left(sa, n, k, index) < Pow(sa, k)
  {
    var k := LevelFrom(sa, nb, 0, index);
    if k < nb {
      ZeroSteps(Left(sa, n, k, index), Pow(sa, k));
    }
  }

  lemma ZeroSteps(left: nat, p: nat)
    requires p >= 1
    ensures left - left % p == 0 <==> left < p
  {
    if left < p {
      DivModUnique(left, p, 0, left);
    }
  }

  /** Exact: before the first shift, on level 0, and in the overflow bucket. */
  lemma ExactCases(sa: nat, nb: nat, n: nat, index: nat)
    requires sa >= 1
    requires n == 0 || index < sa || First(sa, nb) <= index
    ensures Early(sa, nb, n, index) == 0
  {
    var k := LevelFrom(sa, nb, 0, index);
    ExactWhen(sa, nb, n, index);
    if k < nb {
      if n > 0 {
        FirstMonotone(sa, 1, k);
        FirstMonotone(sa, k + 1, nb);
        assert First(sa, 1) == First(sa, 0) + Pow(sa, 1) && Pow(sa, 1) == sa * Pow(sa, 0);
      }
    }
  }

  lemma {:induction false} FirstMonotone(sa: nat, i: nat, j: nat)
    requires sa >= 1
    ensures i <= j ==> First(sa, i) <= First(sa, j)
  {
    if i < j {
      FirstMonotone(sa, i, j - 1);
    }
  }

  /** With four slots per level, index 7 asked for after one shift fires at tick 4 instead of tick 8. */
  lemma EarlyExample(nb: nat)
    requires nb >= 2
    ensures Early(4, nb, 1, 7) == 4
    ensures Early(2, nb, 6, 9) == if nb >= 3 then 8 else 0
  {
    assert Pow(4, 1) == 4 * Pow(4, 0) && Pow(4, 2) == 4 * Pow(4, 1);
    assert First(4, 0) == 0 && First(4, 1) == 4 && First(4, 2) == 20;
    assert LevelFrom(4, nb, 0, 7) == LevelFrom(4, nb, 1, 7) == 1;
    assert Left(4, 1, 1, 7) == 4;
    assert Pow(2, 1) == 2 && Pow(2, 2) == 2 * Pow(2, 1) && Pow(2, 3) == 2 * Pow(2, 2);
    assert First(2, 1) == 2 && First(2, 2) == 6 && First(2, 3) == 14;
    assert LevelFrom(2, nb, 0, 9) == LevelFrom(2, nb, 1, 9) == LevelFrom(2, nb, 2, 9) == 2;
    assert nb >= 3 ==> Left(2, 6, 2, 9) == 9;
  }

  // ----- exact runs

  ghost predicate ExactOps<T>(c: Calendar<T>, ops: seq<Op<T>>)
    requires c.Valid()
  {
    forall op | op in ops && op.Add? :: Early(c.sa, c.nb, c.now - c.start, op.index) == 0
  }

  /** Every `add` of the step is one that the wheel serves exactly. */
  ghost predicate ExactStep<T>(c: Calendar<T>, step: Step<T>)
    requires c.Valid()
  {
    match step
    case Call(op) => ExactOps(c, [op])
    case Shift(order, script) => forall x | x in order :: ExactOps(c.(now := c.now + 1), script(x))
  }

  ghost predicate ExactRun<T>(c: Calendar<T>, steps: seq<Step<T>>)
    requires c.Valid()
    decreases |steps|
  {
    steps == [] || (ExactStep(c, steps[0]) && ExactRun(c.Apply(steps[0]), steps[1..]))
  }

  lemma {:induction false} DoAllExact<T>(c: Calendar<T>, ops: seq<Op<T>>, waiting: set<T>)
    requires c.Valid() && ExactOps(c, ops)
    ensures c.(exact := true).DoAll(ops, waiting) == c.DoAll(ops, waiting).(exact := true)
    decreases |ops|
  {
    hide Early;
    if ops != [] {
      assert ops[0] in ops;
      assert forall o | o in ops[1..] :: o in ops;
      DoAllExact(c.Do(ops[0], waiting), ops[1..], waiting);
    }
  }

  lemma {:induction false} DeliverExact<T>(c: Calendar<T>, order: seq<T>, script: T -> seq<Op<T>>)
    requires c.Valid() && forall x | x in order :: ExactOps(c, script(x))
    ensures c.(exact := true).Deliver(order, script) == c.Deliver(order, script).(exact := true)
    decreases |order|
  {
    if order != [] {
      assert order[0] in order;
      assert forall x | x in order[1..] :: x in order;
      var ops, waiting := script(order[0]), Elems(order[1..]);
      DoAllExact(c, ops, waiting);
      DeliverExact(c.DoAll(ops, waiting), order[1..], script);
    }
  }

  /**
    On runs whose adds are all exact, the calendar of the wheel is the plain map from items to due ticks:
    the same steps are possible and the same items fire at the same ticks.
  */
  lemma {:induction false} PlainMap<T>(c: Calendar<T>, steps: seq<Step<T>>)
    requires c.Valid() && ExactRun(c, steps)
    ensures Runs(c.(exact := true), steps) <==> Runs(c, steps)
    ensures After(c.(exact := true), steps) == After(c, steps).(exact := true)
    decreases |steps|
  {
    if steps != [] {
      var plain := c.(exact := true);
      match steps[0] {
        case Call(op) =>
          DoAllExact(c, [op], {});
          assert [op][1..] == [];
          assert c.DoAll([op], {}) == c.Do(op, {}) && plain.DoAll([op], {}) == plain.Do(op, {});
        case Shift(order, script) =>
          DeliverExact(c.(now := c.now + 1, plan := c.plan - c.Due()), order, script);
      }
      assert plain.Apply(steps[0]) == c.Apply(steps[0]).(exact := true);
      PlainMap(c.Apply(steps[0]), steps[1..]);
    }
  }

  /** The wheel is the plain map item -> due tick on every run whose adds are exact. */
  lemma WheelIsPlainMap<T>(sa: nat, nb: nat, start: nat, steps: seq<Step<T>>)
    requires sa >= 1
    requires ExactRun(Blank<T>(sa, nb, start, false), steps)
    ensures var plain := Blank<T>(sa, nb, start, true);
      && (WheelRuns(Fresh<T>(sa, nb, start), steps) <==> Runs(plain, steps))
      && (WheelRuns(Fresh<T>(sa, nb, start), steps) ==>
            var w := WheelAfter(Fresh<T>(sa, nb, start), steps);
            Good(w, start) && w.Plan(w.offset, 0) == After(plain, steps).plan)
  {
    var w0 := Fresh<T>(sa, nb, start);
    FreshGood<T>(sa, nb, start);
    RunRefines(w0, start, steps);
    PlainMap(Abs(w0, start), steps);
  }

  // ----- removed items and periodic items

  ghost predicate Asks<T>(step: Step<T>, op: Op<T>) {
    match step
    case Call(o) => o == op
    case Shift(order, script) => exists x | x in order :: op in script(x)
  }

  /** No step asks for `x` to be added. */
  ghost predicate NoAdd<T>(steps: seq<Step<T>>, x: T) {
    forall i, index | 0 <= i < |steps| :: !Asks(steps[i], Add(x, index))
  }

  lemma {:induction false} DoAllAbsent<T>(c: Calendar<T>, ops: seq<Op<T>>, waiting: set<T>, x: T)
    requires c.Valid() && x !in c.plan && forall index :: Add(x, index) !in ops
    ensures x !in c.DoAll(ops, waiting).plan
    decreases |ops|
  {
    if ops != [] {
      assert ops[0] in ops;
      assert forall o | o in ops[1..] :: o in ops;
      assert ops[0].Add? ==> ops[0] == Add(ops[0].x, ops[0].index);
      DoAllAbsent(c.Do(ops[0], waiting), ops[1..], waiting, x);
    }
  }

  lemma {:induction false} DeliverAbsent<T>(c: Calendar<T>, order: seq<T>, script: T -> seq<Op<T>>, x: T)
    requires c.Valid() && x !in c.plan && forall index :: !Asks(Shift(order, script), Add(x, index))
    ensures x !in c.Deliver(order, script).plan
    decreases |order|
  {
    if order != [] {
      assert order[0] in order;
      assert forall y | y in order[1..] :: y in order;
      var ops, waiting := script(order[0]), Elems(order[1..]);
      forall index ensures Add(x, index) !in ops && !Asks(Shift(order[1..], script), Add(x, index)) {
        assert !Asks(Shift(order, script), Add(x, index));
      }
      DoAllAbsent(c, ops, waiting, x);
      DeliverAbsent(c.DoAll(ops, waiting), order[1..], script, x);
    }
  }

  /** A removed item never fires, however the run goes on, until something adds it again. */
  lemma {:induction false} RemovedNeverFires<T>(c: Calendar<T>, steps: seq<Step<T>>, x: T)
    requires c.Valid() && Runs(c, steps) && x !in c.plan && NoAdd(steps, x)
    ensures x !in After(c, steps).plan
    ensures forall i | 0 <= i < |steps| && steps[i].Shift? :: x !in steps[i].order
    decreases |steps|
  {
    if steps != [] {
      var step := steps[0];
      assert forall index :: !Asks(step, Add(x, index));
      match step {
        case Call(op) =>
          assert op.Add? ==> op == Add(op.x, op.index);
        case Shift(order, script) =>
          assert x !in Elems(order);
          DeliverAbsent(c.(now := c.now + 1, plan := c.plan - c.Due()), order, script, x);
      }
      forall i, index | 0 <= i < |steps[1..]| ensures !Asks(steps[1..][i], Add(x, index)) {
        assert steps[1..][i] == steps[i + 1];
      }
      RemovedNeverFires(c.Apply(step), steps[1..], x);
    }
  }

  /** `x` asks for itself again at index `i`, and nobody removes it. */
  ghost predicate Periodic<T>(order: seq<T>, script: T -> seq<Op<T>>, x: T, i: nat) {
    && script(x) == [Add(x, i)]
    && forall y | y in order :: Rem(x) !in script(y)
  }

  lemma {:induction false} DoAllStays<T>(c: Calendar<T>, ops: seq<Op<T>>, waiting: set<T>, x: T)
    requires c.Valid() && (x in c.plan || x in waiting) && Rem(x) !in ops
    ensures var c' := c.DoAll(ops, waiting);
      (x in c'.plan <==> x in c.plan) && (x in c.plan ==> c'.plan[x] == c.plan[x])
    decreases |ops|
  {
    if ops != [] {
      assert ops[0] in ops;
      assert forall o | o in ops[1..] :: o in ops;
      DoAllStays(c.Do(ops[0], waiting), ops[1..], waiting, x);
    }
  }

  /** The callbacks of one shift leave a member alone, and put back an item that asks for itself. */
  lemma {:induction false} DeliverStays<T>(c: Calendar<T>, order: seq<T>, script: T -> seq<Op<T>>, x: T, i: nat)
    requires c.Valid() && NoDup(order) && Periodic(order, script, x, i)
    requires x in c.plan <==> x !in order
    ensures var c' := c.Deliver(order, script);
      x in c'.plan && c'.plan[x] == if x in order then c.now + c.Delay(i) else c.plan[x]
    decreases |order|
  {
    hide Calendar.Delay, Calendar.DoAll, Calendar.Do;
    if order != [] {
      var y, ops, rest := order[0], script(order[0]), order[1..];
      assert y in order && forall z | z in rest :: z in order;
      assert order == [y] + rest;
      if y == x {
        assert x !in rest;
        SelfAdds(c, Elems(rest), x, i);
      } else {
        assert x in order <==> x in rest;
        DoAllStays(c, ops, Elems(rest), x);
      }
      SameDelay(c, c.DoAll(ops, Elems(rest)), i);
      DeliverStays(c.DoAll(ops, Elems(rest)), rest, script, x, i);
    }
  }

  lemma SelfAdds<T>(c: Calendar<T>, waiting: set<T>, x: T, i: nat)
    requires c.Valid() && x !in c.plan && x !in waiting
    ensures c.DoAll([Add(x, i)], waiting).plan == c.plan[x := c.now + c.Delay(i)]
  {
    hide Calendar.Delay;
    assert [Add(x, i)][1..] == [];
  }

  lemma SameDelay<T>(c: Calendar<T>, d: Calendar<T>, i: nat)
    requires c.Valid() && d == c.(plan := d.plan)
    ensures d.Delay(i) == c.Delay(i)
  {
  }

  /** On which of the coming shifts an item due in `d` ticks, with period `i + 1`, fires. */
  predicate Strikes(d: nat, i: nat, j: nat)
    requires d <= i
  {
    (j + (i + 1 - d)) % (i + 1) == 0
  }

  lemma StrikeNow(d: nat, i: nat)
    requires d <= i
    ensures Strikes(d, i, 0) <==> d == 0
  {
    if d == 0 {
      DivModUnique(i + 1, i + 1, 1, 0);
    } else {
      DivModUnique(i + 1 - d, i + 1, 0, i + 1 - d);
    }
  }

  lemma StrikeLater(d: nat, i: nat, j: nat)
    requires d <= i && j >= 1
    ensures Strikes(d, i, j) <==> Strikes(if d == 0 then i else d - 1, i, j - 1)
  {
    if d == 0 {
      ModOfMultiple(1, i + 1, j);
    }
  }

  /** The number of shifts among the first `j` steps. */
  function Ticks<T>(steps: seq<Step<T>>, j: nat): (n: nat)
    requires j <= |steps|
    ensures n <= j
  {
    if j == 0 then 0 else (if steps[0].Shift? then 1 else 0) + Ticks(steps[1..], j - 1)
  }

  /** The step leaves `x` to its own callback. */
  ghost predicate LeavesPeriodic<T>(step: Step<T>, x: T, i: nat) {
    match step
    case Call(op) => op != Rem(x)
    case Shift(order, script) => Periodic(order, script, x, i)
  }

  /** After one step `x` is still there, due in one tick less, or in `i` if it has fired. */
  lemma PeriodicStep<T>(c: Calendar<T>, step: Step<T>, x: T, i: nat, d: nat)
    requires c.Valid() && c.nb >= 1 && i + 1 < c.sa && !c.exact && c.Enabled(step) && LeavesPeriodic(step, x, i)
    requires d <= i && x in c.plan && c.plan[x] == c.now + d
    ensures var c' := c.Apply(step);
      && x in c'.plan && (step.Shift? ==> (x in step.order <==> d == 0))
      && c'.plan[x] == c'.now + if step.Call? then d else if d == 0 then i else d - 1
  {
    match step
    case Call(op) =>
    case Shift(order, script) =>
      var taken := c.(now := c.now + 1, plan := c.plan - c.Due());
      assert x in Elems(order) <==> d == 0;
      DeliverStays(taken, order, script, x, i);
      ExactCases(c.sa, c.nb, taken.now - taken.start, i);
  }

  /**
    An item whose callback re-adds it at a fixed index `i` of level 0, short of the slot being drained, fires
    on every `i + 1`-th shift and on no other, however long the run and whatever is asked, between the shifts or
    by callbacks, except that it be removed.
  */
  lemma {:induction false} PeriodicTimer<T>(c: Calendar<T>, steps: seq<Step<T>>, x: T, i: nat, d: nat)
    requires c.Valid() && c.nb >= 1 && i + 1 < c.sa && !c.exact && Runs(c, steps)
    requires forall j | 0 <= j < |steps| :: LeavesPeriodic(steps[j], x, i)
    requires d <= i && x in c.plan && c.plan[x] == c.now + d
    ensures forall j | 0 <= j < |steps| && steps[j].Shift? :: x in steps[j].order <==> Strikes(d, i, Ticks(steps, j))
    decreases |steps|
  {
    hide LeavesPeriodic, Strikes;
    if steps != [] {
      assert LeavesPeriodic(steps[0], x, i);
      PeriodicStep(c, steps[0], x, i, d);
      var c' := c.Apply(steps[0]);
      var d' := if steps[0].Call? then d else if d == 0 then i else d - 1;
      assert forall j | 0 <= j < |steps[1..]| :: steps[1..][j] == steps[j + 1];
      PeriodicTimer(c', steps[1..], x, i, d');
      forall j | 0 <= j < |steps| && steps[j].Shift?
        ensures x in steps[j].order <==> Strikes(d, i, Ticks(steps, j))
      {
        if j == 0 {
          StrikeNow(d, i);
        } else {
          assert steps[1..][j - 1] == steps[j];
          if steps[0].Shift? {
            StrikeLater(d, i, Ticks(steps, j));
          }
        }
      }
    }
  }

  // ----- an item that re-adds itself

  /** The callbacks of `order` ask nothing of `x`. */
  ghost predicate Silent<T>(order: seq<T>, script: T -> seq<Op<T>>, x: T) {
    forall y, op | y in order && op in script(y) :: op.x != x
  }

  lemma {:induction false} DoAllSilent<T>(w: Wheel<T>, ops: seq<Op<T>>, waiting: set<T>, x: T)
    requires w.sa >= 1 && |w.cur| == w.nb && forall op | op in ops :: op.x != x
    ensures var w' := w.DoAll(ops, waiting); (x in w'.at <==> x in w.at) && (x in w.at ==> w'.at[x] == w.at[x])
    decreases |ops|
  {
    hide Wheel.Place;
    if ops != [] {
      assert ops[0] in ops && forall op | op in ops[1..] :: op in ops;
      DoAllSilent(w.Do(ops[0], waiting), ops[1..], waiting, x);
    }
  }

  lemma {:induction false} DeliverSilent<T>(w: Wheel<T>, order: seq<T>, script: T -> seq<Op<T>>, x: T)
    requires w.sa >= 1 && |w.cur| == w.nb && Silent(order, script, x)
    ensures var w' := w.Deliver(order, script); (x in w'.at <==> x in w.at) && (x in w.at ==> w'.at[x] == w.at[x])
    decreases |order|
  {
    hide Wheel.Do;
    if order != [] {
      assert order[0] in order && forall y | y in order[1..] :: y in order;
      DoAllSilent(w, script(order[0]), Elems(order[1..]), x);
      DeliverSilent(w.DoAll(script(order[0]), Elems(order[1..])), order[1..], script, x);
    }
  }

  /** Of the callbacks of one shift only the item's own speaks of it: it is put where that asks. */
  lemma {:induction false} DeliverAdds<T>(w: Wheel<T>, order: seq<T>, script: T -> seq<Op<T>>, x: T, index: nat)
    requires w.sa >= 1 && |w.cur| == w.nb && NoDup(order) && x in order && x !in w.at
    requires script(x) == [Add(x, index)] && forall y, op | y in order && y != x && op in script(y) :: op.x != x
    ensures var w' := w.Deliver(order, script); x in w'.at && w'.at[x].pos == w.Place(index)
    decreases |order|
  {
    hide Wheel.Place;
    var y, rest := order[0], order[1..];
    assert order == [y] + rest && forall z | z in rest :: z in order;
    var w1 := w.DoAll(script(y), Elems(rest));
    if y == x {
      assert x !in rest;
      assert script(x)[0] == Add(x, index) && script(x)[1..] == [];
      assert w1 == w.Do(Add(x, index), Elems(rest)).DoAll([], Elems(rest));
      DeliverSilent(w1, rest, script, x);
    } else {
      DoAllSilent(w, script(y), Elems(rest), x);
      DeliverAdds(w1, rest, script, x, index);
      assert w1.Place(index) == w.Place(index) by { PlaceSame(w, w1, index); }
    }
  }

  lemma PlaceSame<T>(w: Wheel<T>, w': Wheel<T>, index: nat)
    requires w.sa >= 1 && |w.cur| == w.nb && w'.sa == w.sa && w'.cur == w.cur && w'.nb == w.nb
    ensures w'.Place(index) == w.Place(index)
  {
  }

  /** All callbacks but that of `x` respect the drain. */
  ghost predicate OthersPolite<T>(sa: nat, nb: nat, order: seq<T>, script: T -> seq<Op<T>>, x: T) {
    forall i | 0 <= i < |order| && order[i] != x :: Polite(sa, nb, script(order[i]), Elems(order[i + 1..]))
  }

  /**
    An item re-adds itself from its own callback, the other callbacks of the shift do not speak of it, and they
    respect the drain: then it is in the list after the shift exactly when it does not ask for index `sa - 1`.
    Callbacks that do not, as one that removes an item still waiting and adds it elsewhere, may take the loop away.
  */
  lemma SelfAddSurvives<T>(w: Wheel<T>, start: nat, order: seq<T>, script: T -> seq<Op<T>>, x: T, index: nat)
    requires Good(w, start) && NoDup(order) && Elems(order) == w.Fired() && x in order
    requires OthersPolite(w.sa, w.nb, order, script, x)
    requires script(x) == [Add(x, index)] && forall y, op | y in order && y != x && op in script(y) :: op.x != x
    ensures x in w.Apply(Shift(order, script)).at <==> w.nb == 0 || index + 1 != w.sa
  {
    hide Wheel.Deliver, Wheel.Fired, Wheel.Taken, Wheel.Place, Synced, Wheel.Timed;
    w.TakenItems();
    w.TakenKeeps();
    var taken := w.Taken();
    assert x in Elems(order);
    DeliverAdds(taken, order, script, x, index);
    if w.nb >= 1 {
      PoliteMisses(taken, index);
    }
  }
}
