/**
  The wait-out timer and the threads that push events, step by step.  A pusher
  appends its event, reads the loop from it to call check_wait_out, and there, under
  the mutex, makes sure that there is a timer; the timer empties the list without
  the mutex, and under the mutex retires if it finds the list empty.
*/
module WaitOutProtocol {
  import opened Prelude

  /** Where a thread is that has pushed `e`. */
  datatype PusherPc<E> = Idle | Pushed(e: E) | Calling(e: E) | Locked(e: E) | Checked(e: E)

  datatype TimerPc = Resting | Walking | Wanting | Looking | Retiring | Releasing

  datatype Owner = Free | Timer | Pusher(p: nat)

  datatype State<!E(==)> = State(
    list: seq<E>,            // wait_out_list
    chain: seq<E>,           // what the pass has detached and not looked at yet
    hand: Option<E>,         // the event whose link is cleared before it is put on the new list
    kept: seq<E>,            // the new list of the pass
    deleted: seq<E>,
    arrived: seq<E>,         // every event ever accepted, in order
    timer: bool,             // wait_out_timer is set
    timerPc: TimerPc,
    pushers: map<nat, PusherPc<E>>,
    lock: Owner,
    late: seq<E>)            // the events that a thread read after they were deleted
  {
    function Pc(p: nat): PusherPc<E> {
      if p in pushers then pushers[p] else Idle
    }

    predicate Linked(e: E) {
      e in list || e in chain || e in kept
    }
  }

  datatype Step<E> =
    | Push(p: nat, e: E)     // push_back
    | Call(p: nat)           // the loop is read from the event
    | Lock(p: nat)           // check_wait_out takes the mutex
    | Check(p: nat)          // ... creates the timer if there is none
    | Unlock(p: nat)
    | Detach                 // the timer fires and disconnects the list
    | Take(pending: bool)    // one event: its link is cleared, or it is deleted
    | PutBack                // ... and it is pushed on the new list
    | Merge                  // the new list goes in front
    | TimerLock
    | Look                   // is the list empty ?
    | Retire                 // forget the timer
    | TimerUnlock

  predicate Enabled<E(==)>(s: State<E>, step: Step<E>) {
    match step
    case Push(p, e) => s.Pc(p) == Idle && e !in s.deleted
    case Call(p) => s.Pc(p).Pushed?
    case Lock(p) => s.Pc(p).Calling? && s.lock == Free
    case Check(p) => s.Pc(p).Locked?
    case Unlock(p) => s.Pc(p).Checked?
    case Detach => s.timer && s.timerPc == Resting
    case Take(_) => s.timerPc == Walking && s.hand == None && s.chain != []
    case PutBack => s.timerPc == Walking && s.hand != None
    case Merge => s.timerPc == Walking && s.hand == None && s.chain == []
    case TimerLock => s.timerPc == Wanting && s.lock == Free
    case Look => s.timerPc == Looking
    case Retire => s.timerPc == Retiring
    case TimerUnlock => s.timerPc == Releasing
  }

  function Apply<E(==)>(s: State<E>, step: Step<E>): State<E>
    requires Enabled(s, step)
  {
    match step
    case Push(p, e) =>
      var s' := s.(pushers := s.pushers[p := Pushed(e)]);
      if s.Linked(e) then s'
      else s'.(list := s.list + [e], arrived := if s.hand == Some(e) then s.arrived else s.arrived + [e])
    case Call(p) =>
      var e := s.Pc(p).e;
      s.(pushers := s.pushers[p := Calling(e)], late := if e in s.deleted then s.late + [e] else s.late)
    case Lock(p) => s.(pushers := s.pushers[p := Locked(s.Pc(p).e)], lock := Pusher(p))
    case Check(p) => s.(pushers := s.pushers[p := Checked(s.Pc(p).e)], timer := true)
    case Unlock(p) => s.(pushers := s.pushers[p := Idle], lock := Free)
    case Detach => if s.list == [] then s else s.(chain := s.list, list := [], timerPc := Walking)
    case Take(pending) =>
      var s' := s.(chain := s.chain[1..]);
      if pending then s'.(hand := Some(s.chain[0])) else s'.(deleted := s.deleted + [s.chain[0]])
    case PutBack =>
      var s' := s.(hand := None);
      if s.Linked(s.hand.value) then s' else s'.(kept := s.kept + [s.hand.value])
    case Merge => s.(list := s.kept + s.list, kept := [], timerPc := Wanting)
    case TimerLock => s.(lock := Timer, timerPc := Looking)
    case Look => s.(timerPc := if s.list == [] then Retiring else Releasing)
    case Retire => s.(timer := false, timerPc := Releasing)
    case TimerUnlock => s.(lock := Free, timerPc := Resting)
  }

  function Start<E(==)>(): State<E> {
    State([], [], None, [], [], [], false, Resting, map[], Free, [])
  }

  predicate Runs<E(==)>(s: State<E>, steps: seq<Step<E>>)
    decreases |steps|
  {
    steps == [] || (Enabled(s, steps[0]) && Runs(Apply(s, steps[0]), steps[1..]))
  }

  function After<E(==)>(s: State<E>, steps: seq<Step<E>>): State<E>
    requires Runs(s, steps)
    decreases |steps|
  {
    if steps == [] then s else After(Apply(s, steps[0]), steps[1..])
  }

  // ----- the invariant

  predicate Looks<E>(pc: PusherPc<E>) {
    pc.Pushed? || pc.Calling? || pc.Locked?
  }

  predicate Holds<E>(pc: PusherPc<E>) {
    pc.Locked? || pc.Checked?
  }

  /** Some thread has pushed and is still going to look at the timer. */
  ghost predicate Coming<E>(s: State<E>) {
    exists p :: Looks(s.Pc(p))
  }

  /** The mutex is held by the one thread that is between its lock and its unlock. */
  ghost predicate LockInv<E>(s: State<E>) {
    && (s.lock == Timer <==> s.timerPc in {Looking, Retiring, Releasing})
    && forall p :: s.lock == Pusher(p) <==> Holds(s.Pc(p))
  }

  ghost predicate TimerInv<E>(s: State<E>) {
    && (s.timerPc in {Walking, Wanting, Looking, Retiring} ==> s.timer)
    && (s.chain != [] || s.hand != None || s.kept != [] ==> s.timerPc == Walking)
  }

  ghost predicate WakeInv<E>(s: State<E>) {
    s.list != [] && (!s.timer || s.timerPc == Retiring) ==> Coming(s)
  }

  ghost function Bag<E>(s: State<E>): multiset<E> {
    multiset(s.list) + multiset(s.chain) + multiset(s.kept) + multiset(s.deleted) +
    if s.hand.Some? && s.hand.value !in s.list then multiset{s.hand.value} else multiset{}
  }

  /** Every event that ever came is in exactly one place. */
  ghost predicate OnceInv<E>(s: State<E>) {
    && NoDup(s.arrived) && Bag(s) == multiset(s.arrived)
    && (s.hand.Some? ==> s.hand.value !in s.chain && s.hand.value !in s.kept && s.hand.value !in s.deleted)
  }

  /** A thread that has pushed an event has got it to arrive. */
  ghost predicate PusherInv<E>(s: State<E>) {
    forall p :: s.Pc(p) != Idle ==> s.Pc(p).e in s.arrived
  }

  ghost predicate Inv<E>(s: State<E>) {
    LockInv(s) && TimerInv(s) && WakeInv(s) && OnceInv(s) && PusherInv(s)
  }

  lemma LockStep<E>(s: State<E>, step: Step<E>)
    requires LockInv(s) && Enabled(s, step)
    ensures LockInv(Apply(s, step))
  {
    var s' := Apply(s, step);
    forall p ensures s'.lock == Pusher(p) <==> Holds(s'.Pc(p)) {
      assert s.lock == Pusher(p) <==> Holds(s.Pc(p));
      if step.Lock? || step.Check? || step.Unlock? || step.Push? || step.Call? {
        assert s.lock == Pusher(step.p) <==> Holds(s.Pc(step.p));
      }
    }
  }

  lemma PusherStep<E>(s: State<E>, step: Step<E>)
    requires OnceInv(s) && PusherInv(s) && Enabled(s, step)
    ensures PusherInv(Apply(s, step))
  {
    hide NoDup;
    var s' := Apply(s, step);
    assert s.arrived <= s'.arrived;
    if step.Push? {
      BagMembers(s, step.e);
    }
    forall p | s'.Pc(p) != Idle ensures s'.Pc(p).e in s'.arrived {
      assert s.Pc(p) != Idle ==> s.Pc(p).e in s.arrived;
    }
  }

  lemma TimerStep<E>(s: State<E>, step: Step<E>)
    requires LockInv(s) && TimerInv(s) && Enabled(s, step)
    ensures TimerInv(Apply(s, step))
  {
  }

  /** A thread that still has to look at the timer keeps the wake-up alive until it has looked. */
  lemma WakeStep<E>(s: State<E>, step: Step<E>)
    requires LockInv(s) && TimerInv(s) && WakeInv(s) && Enabled(s, step)
    ensures WakeInv(Apply(s, step))
  {
    var s' := Apply(s, step);
    if step.Check? {
      Holder(s, step.p);
    } else if s'.list != [] && (!s'.timer || s'.timerPc == Retiring) {
      if step.Push? {
        assert Looks(s'.Pc(step.p));
      } else {
        assert s.list != [];
        var p :| Looks(s.Pc(p));
        assert step.Unlock? ==> p != step.p;
        assert Looks(s'.Pc(p));
      }
    }
  }

  lemma Holder<E>(s: State<E>, p: nat)
    requires LockInv(s)
    ensures s.lock == Pusher(p) <==> Holds(s.Pc(p))
  {
  }

  lemma BagMembers<E>(s: State<E>, e: E)
    requires Bag(s) == multiset(s.arrived)
    ensures e in s.arrived <==> e in s.list || e in s.chain || e in s.kept || e in s.deleted || s.hand == Some(e)
    ensures NoDup(s.arrived) ==> Bag(s)[e] <= 1
  {
    assert e in multiset(s.arrived) <==> e in s.arrived;
    assert e in Bag(s) <==> e in s.list || e in s.chain || e in s.kept || e in s.deleted || s.hand == Some(e);
    if NoDup(s.arrived) {
      CountOnce(s.arrived, e);
    }
  }

  lemma {:induction false} CountOnce<E>(s: seq<E>, e: E)
    requires NoDup(s)
    ensures multiset(s)[e] <= 1
  {
    if s != [] {
      CountOnce(s[1..], e);
      assert s == [s[0]] + s[1..];
    }
  }

  lemma OnceStep<E>(s: State<E>, step: Step<E>)
    requires TimerInv(s) && OnceInv(s) && Enabled(s, step)
    ensures OnceInv(Apply(s, step))
  {
    hide Bag, NoDup;
    match step
    case Push(p, e) => PushBag(s, p, e);
    case Take(pending) => TakeBag(s, pending);
    case PutBack => PutBag(s);
    case Merge => MergeBag(s);
    case _ => SameBag(s, step);
  }

  lemma MergeBag<E>(s: State<E>)
    requires TimerInv(s) && OnceInv(s) && Enabled(s, Merge)
    ensures OnceInv(Apply(s, Merge))
  {
    hide NoDup;
    assert multiset(s.kept + s.list) == multiset(s.kept) + multiset(s.list);
  }

  lemma SameBag<E>(s: State<E>, step: Step<E>)
    requires TimerInv(s) && OnceInv(s) && Enabled(s, step)
    requires !step.Push? && !step.Take? && !step.PutBack? && !step.Merge?
    ensures OnceInv(Apply(s, step))
  {
    hide NoDup;
  }

  lemma PushKeepsBag<E>(s: State<E>, p: nat, e: E)
    requires Enabled(s, Push(p, e)) && !s.Linked(e)
    ensures Bag(Apply(s, Push(p, e))) == Bag(s) + if s.hand == Some(e) then multiset{} else multiset{e}
  {
    assert multiset(s.list + [e]) == multiset(s.list) + multiset{e};
  }

  lemma PushBag<E>(s: State<E>, p: nat, e: E)
    requires OnceInv(s) && Enabled(s, Push(p, e))
    ensures OnceInv(Apply(s, Push(p, e)))
  {
    BagMembers(s, e);
    if s.Linked(e) {
      assert Bag(Apply(s, Push(p, e))) == Bag(s);
    } else {
      hide Bag;
      PushKeepsBag(s, p, e);
      assert multiset(s.arrived + [e]) == multiset(s.arrived) + multiset{e};
    }
  }

  lemma PutBag<E>(s: State<E>)
    requires OnceInv(s) && Enabled(s, PutBack)
    ensures OnceInv(Apply(s, PutBack))
  {
    hide NoDup;
    assert multiset(s.kept + [s.hand.value]) == multiset(s.kept) + multiset{s.hand.value};
  }

  /** The event taken is nowhere else. */
  lemma TakeApart<E>(s: State<E>)
    requires OnceInv(s) && s.chain != []
    ensures var e := s.chain[0];
      e !in s.chain[1..] && e !in s.list && e !in s.kept && e !in s.deleted && s.hand != Some(e)
  {
    var e, rest := s.chain[0], s.chain[1..];
    assert s.chain == [e] + rest;
    BagMembers(s, e);
    assert Bag(s)[e] >= 1 + multiset(rest)[e] + multiset(s.list)[e] + multiset(s.kept)[e] + multiset(s.deleted)[e];
  }

  lemma ChainBag<E>(chain: seq<E>)
    requires chain != []
    ensures multiset(chain) == multiset{chain[0]} + multiset(chain[1..])
  {
    assert chain == [chain[0]] + chain[1..];
  }

  lemma TakeKeepsBag<E>(s: State<E>, pending: bool)
    requires Enabled(s, Take(pending)) && s.chain[0] !in s.list
    ensures Bag(Apply(s, Take(pending))) == Bag(s)
  {
    ChainBag(s.chain);
    assert multiset(s.deleted + [s.chain[0]]) == multiset(s.deleted) + multiset{s.chain[0]};
  }

  lemma TakeBag<E>(s: State<E>, pending: bool)
    requires OnceInv(s) && Enabled(s, Take(pending))
    ensures OnceInv(Apply(s, Take(pending)))
  {
    hide Bag, NoDup;
    TakeApart(s);
    TakeKeepsBag(s, pending);
  }

  lemma InvStep<E>(s: State<E>, step: Step<E>)
    requires Inv(s) && Enabled(s, step)
    ensures Inv(Apply(s, step))
  {
    LockStep(s, step);
    TimerStep(s, step);
    WakeStep(s, step);
    OnceStep(s, step);
    PusherStep(s, step);
  }

  lemma {:induction false} InvRuns<E>(s: State<E>, steps: seq<Step<E>>)
    requires Inv(s) && Runs(s, steps)
    ensures Inv(After(s, steps))
    decreases |steps|
  {
    if steps != [] {
      InvStep(s, steps[0]);
      InvRuns(Apply(s, steps[0]), steps[1..]);
    }
  }

  lemma Reached<E>(steps: seq<Step<E>>)
    requires Runs(Start<E>(), steps)
    ensures Inv(After(Start<E>(), steps))
  {
    InvRuns(Start<E>(), steps);
  }

  // ----- main results

  /**
    No lost wake-up: in every interleaving, whenever an event waits to be flushed there is a timer,
    or a thread that has pushed and will still make sure that there is one.
  */
  lemma NoLostWakeUp<E>(steps: seq<Step<E>>)
    requires Runs(Start<E>(), steps)
    ensures var s := After(Start<E>(), steps);
      s.list != [] || s.chain != [] || s.hand != None || s.kept != [] ==> s.timer || Coming(s)
  {
    InvRuns(Start<E>(), steps);
  }

  /** No event is lost, linked twice or deleted twice. */
  lemma EachEventOnce<E>(steps: seq<Step<E>>, e: E)
    requires Runs(Start<E>(), steps)
    ensures var s := After(Start<E>(), steps);
      && Bag(s)[e] == (if e in s.arrived then 1 else 0)
      && multiset(s.deleted)[e] <= 1
      && (e in s.deleted ==> !s.Linked(e) && s.hand != Some(e))
  {
    InvRuns(Start<E>(), steps);
    var s := After(Start<E>(), steps);
    BagMembers(s, e);
    assert e in s.arrived <==> e in multiset(s.arrived);
  }

  /** Nothing to flush, nobody at work, and yet a timer. */
  ghost predicate Stale<E>(s: State<E>) {
    && s.list == s.chain == s.kept == [] && s.hand == None
    && s.timer && s.timerPc == Resting && s.lock == Free
    && forall p :: s.Pc(p) == Idle
  }

  lemma StaleStep<E>(s: State<E>, step: Step<E>)
    requires Stale(s) && Enabled(s, step) && !step.Push?
    ensures Apply(s, step) == s
  {
  }

  /** A stale timer is never retired: on every run in which nobody pushes, no step changes anything. */
  lemma {:induction false} StaleForever<E>(s: State<E>, steps: seq<Step<E>>)
    requires Stale(s) && Runs(s, steps) && forall step | step in steps :: !step.Push?
    ensures After(s, steps) == s
    decreases |steps|
  {
    if steps != [] {
      assert steps[0] in steps && forall step | step in steps[1..] :: step in steps;
      StaleStep(s, steps[0]);
      StaleForever(s, steps[1..]);
    }
  }

  // ----- a thread and its event

  /** A step of others: nothing is pushed, and `p` does not read the loop from its event yet. */
  predicate Others<E>(step: Step<E>, p: nat) {
    !step.Push? && step != Call(p)
  }

  /** Without further pushes, and without any other late read, `e` can be deleted before `p` reads the loop from it. */
  ghost predicate Loses<E(!new)>(s: State<E>, p: nat, e: E) {
    exists steps | Runs(s, steps) && forall step | step in steps :: Others(step, p) ::
      LostAfter(s, After(s, steps), p, e)
  }

  ghost predicate LostAfter<E>(s: State<E>, s': State<E>, p: nat, e: E) {
    s'.Pc(p) == Pushed(e) && e in s'.deleted && s'.late == s.late
  }

  /** A thread that can go on to look at the timer: it does not have to read a deleted event for that. */
  predicate MayLook<E(==)>(s: State<E>, q: nat) {
    var pc := s.Pc(q);
    Looks(pc) && (pc.Pushed? ==> pc.e !in s.deleted)
  }

  ghost predicate OtherLooks<E>(s: State<E>, p: nat) {
    exists q | q != p :: MayLook(s, q)
  }

  /** A pass is still to come: there is a timer that has not made up its mind to go. */
  predicate PassComes<E>(s: State<E>) {
    s.timer && s.timerPc != Retiring
  }

  lemma LosesNow<E(!new)>(s: State<E>, p: nat, e: E)
    requires s.Pc(p) == Pushed(e) && e in s.deleted
    ensures Loses(s, p, e)
  {
    assert Runs(s, []) && LostAfter(s, After(s, []), p, e);
  }

  lemma LosesOn<E(!new)>(s: State<E>, step: Step<E>, p: nat, e: E)
    requires Enabled(s, step) && Others(step, p) && Apply(s, step).late == s.late && Loses(Apply(s, step), p, e)
    ensures Loses(s, p, e)
  {
    var s' := Apply(s, step);
    var steps :| Runs(s', steps) && (forall x | x in steps :: Others(x, p)) && LostAfter(s', After(s', steps), p, e);
    var all := [step] + steps;
    assert all[0] == step && all[1..] == steps;
    assert Runs(s, all) && After(s, all) == After(s', steps);
  }

  /** How far a pass that will reach `e` has to go. */
  function Phase<E(==)>(s: State<E>, e: E): nat {
    match s.timerPc
    case Walking => if e in s.chain then 0 else 5
    case Wanting => 4
    case Looking => 3
    case Releasing => 2
    case Resting => 1
    case Retiring => 6
  }

  /** How far the thread at the mutex, or the event in hand, is from being out of the way. */
  function Delay<E>(s: State<E>): nat {
    if s.timerPc == Walking then if s.hand == None then 0 else 1
    else
      match s.lock
      case Pusher(q) => if s.Pc(q).Locked? then 2 else 1
      case _ => 0
  }

  /** The next step of others on the way to a pass over `e`. */
  function Onward<E(==)>(s: State<E>): Step<E> {
    match s.timerPc
    case Walking => if s.hand != None then PutBack else if s.chain != [] then Take(false) else Merge
    case Wanting =>
      (match s.lock
       case Pusher(q) => if s.Pc(q).Locked? then Check(q) else Unlock(q)
       case _ => TimerLock)
    case Looking => Look
    case Releasing => TimerUnlock
    case Resting => Detach
    case Retiring => Retire
  }

  /** An event that a thread has pushed is somewhere on its way to a pass. */
  lemma Somewhere<E>(s: State<E>, p: nat, e: E)
    requires Inv(s) && s.Pc(p) == Pushed(e) && e !in s.deleted
    ensures e in s.list || e in s.chain || e in s.kept || s.hand == Some(e)
    ensures s.timerPc != Walking ==> e in s.list
  {
    hide NoDup, Bag;
    BagMembers(s, e);
  }

  lemma OnwardStep<E>(s: State<E>, p: nat, e: E)
    requires Inv(s) && s.Pc(p) == Pushed(e) && e !in s.deleted && PassComes(s)
    ensures var step := Onward(s);
      && Enabled(s, step) && Others(step, p)
      && var s' := Apply(s, step);
         && s'.Pc(p) == Pushed(e) && s'.late == s.late && PassComes(s')
         && (e in s'.deleted || Phase(s', e) < Phase(s, e)
             || (Phase(s', e) == Phase(s, e) && |s'.chain| < |s.chain|)
             || (Phase(s', e) == Phase(s, e) && |s'.chain| == |s.chain| && Delay(s') < Delay(s)))
  {
    hide OnceInv, WakeInv, PusherInv;
    Somewhere(s, p, e);
    if s.timerPc == Walking && s.hand == None && s.chain != [] {
      assert s.chain == [s.chain[0]] + s.chain[1..];
    }
    if s.lock.Pusher? {
      Holder(s, s.lock.p);
    }
    Holder(s, p);
  }

  lemma {:induction false} PassLoses<E(!new)>(s: State<E>, p: nat, e: E)
    requires Inv(s) && s.Pc(p) == Pushed(e) && PassComes(s)
    ensures Loses(s, p, e)
    decreases Phase(s, e), |s.chain|, Delay(s)
  {
    hide Inv, Onward, Phase, Delay;
    if e in s.deleted {
      LosesNow(s, p, e);
    } else {
      var step := Onward(s);
      OnwardStep(s, p, e);
      InvStep(s, step);
      var s' := Apply(s, step);
      if e in s'.deleted {
        LosesNow(s', p, e);
      } else {
        PassLoses(s', p, e);
      }
      LosesOn(s, step, p, e);
    }
  }

  // ----- another thread that is about to look

  /** How far the looker, and whoever is at the mutex, are from the look. */
  function Wait<E(==)>(s: State<E>, q: nat): nat {
    match s.Pc(q)
    case Pushed(_) => 2
    case Calling(_) => 1
    case _ => 0
  }

  function Held<E(==)>(s: State<E>): nat {
    match s.lock
    case Free => 0
    case Timer => if s.timerPc == Retiring then 3 else 2
    case Pusher(r) => 1
  }

  /** The next step towards the look of `q`. */
  function Toward<E(==)>(s: State<E>, q: nat): Step<E> {
    match s.Pc(q)
    case Pushed(_) => Call(q)
    case Calling(_) =>
      (match s.lock
       case Free => Lock(q)
       case Timer => if s.timerPc == Retiring then Retire else TimerUnlock
       case Pusher(r) => if s.Pc(r).Locked? then Check(r) else Unlock(r))
    case _ => Check(q)
  }

  lemma TowardStep<E>(s: State<E>, p: nat, e: E, q: nat)
    requires Inv(s) && s.Pc(p) == Pushed(e) && q != p && MayLook(s, q) && !PassComes(s)
    ensures var step := Toward(s, q);
      && Enabled(s, step) && Others(step, p)
      && var s' := Apply(s, step);
         && s'.Pc(p) == Pushed(e) && s'.late == s.late
         && (PassComes(s') || (MayLook(s', q) && (Wait(s', q) < Wait(s, q) || (Wait(s', q) == Wait(s, q) && Held(s') < Held(s)))))
  {
    hide OnceInv, WakeInv, PusherInv;
    Holder(s, p);
    Holder(s, q);
    if s.lock.Pusher? {
      Holder(s, s.lock.p);
    }
  }

  lemma {:induction false} LookerLoses<E(!new)>(s: State<E>, p: nat, e: E, q: nat)
    requires Inv(s) && s.Pc(p) == Pushed(e) && q != p && MayLook(s, q)
    ensures Loses(s, p, e)
    decreases Wait(s, q), Held(s)
  {
    hide Inv, MayLook, Toward, Wait, Held;
    if PassComes(s) {
      PassLoses(s, p, e);
    } else {
      var step := Toward(s, q);
      TowardStep(s, p, e, q);
      InvStep(s, step);
      if PassComes(Apply(s, step)) {
        PassLoses(Apply(s, step), p, e);
      } else {
        LookerLoses(Apply(s, step), p, e, q);
      }
      LosesOn(s, step, p, e);
    }
  }

  // ----- without either

  lemma {:induction false} LateGrows<E>(s: State<E>, steps: seq<Step<E>>)
    requires Runs(s, steps)
    ensures s.late <= After(s, steps).late
    decreases |steps|
  {
    if steps != [] {
      LateGrows(Apply(s, steps[0]), steps[1..]);
    }
  }

  lemma SafeStep<E>(s: State<E>, p: nat, step: Step<E>)
    requires LockInv(s) && TimerInv(s) && s.Pc(p).Pushed? && !PassComes(s) && !OtherLooks(s, p)
    requires Enabled(s, step) && Others(step, p) && Apply(s, step).late == s.late
    ensures var s' := Apply(s, step);
      s'.Pc(p) == s.Pc(p) && s'.deleted == s.deleted && !PassComes(s') && !OtherLooks(s', p)
  {
    var s' := Apply(s, step);
    if (step.Call? || step.Lock? || step.Check?) && step.p != p && MayLook(s, step.p) {
      assert false;
    }
    forall q | q != p ensures !MayLook(s', q) {
      assert !MayLook(s, q);
    }
  }

  /** No timer that will pass, and nobody to make one: nothing is deleted until `p` has read the loop. */
  lemma {:induction false} SafeRun<E>(s: State<E>, p: nat, steps: seq<Step<E>>)
    requires Inv(s) && s.Pc(p).Pushed? && !PassComes(s) && !OtherLooks(s, p)
    requires Runs(s, steps) && (forall step | step in steps :: Others(step, p)) && After(s, steps).late == s.late
    ensures After(s, steps).deleted == s.deleted
    decreases |steps|
  {
    hide OnceInv, WakeInv, PusherInv, OtherLooks, PassComes;
    if steps != [] {
      var s' := Apply(s, steps[0]);
      assert steps[0] in steps && forall step | step in steps[1..] :: step in steps;
      LateGrows(s', steps[1..]);
      LateStep(s, steps[0]);
      SafeStep(s, p, steps[0]);
      InvStep(s, steps[0]);
      SafeRun(s', p, steps[1..]);
    }
  }

  lemma LateStep<E>(s: State<E>, step: Step<E>)
    requires Enabled(s, step)
    ensures s.late <= Apply(s, step).late
  {
  }

  /**
    A thread that pushes an event can lose it before it reads the loop from it, so that it reads a deleted event,
    without further pushes and without any other late read: exactly when, at the push, there is a timer that is
    not about to go, or another thread can go on to look for one.
  */
  lemma LosesEventWhen<E(!new)>(before: seq<Step<E>>, p: nat, e: E)
    requires Runs(Start<E>(), before) && Enabled(After(Start<E>(), before), Push(p, e))
    ensures var s := After(Start<E>(), before);
      Loses(Apply(s, Push(p, e)), p, e) <==> PassComes(s) || OtherLooks(s, p)
  {
    hide Inv, MayLook, Runs;
    Reached(before);
    var s := After(Start<E>(), before);
    var s0 := Apply(s, Push(p, e));
    InvStep(s, Push(p, e));
    PushedState(s, p, e);
    if PassComes(s) {
      PassLoses(s0, p, e);
    } else if q :| q != p && MayLook(s, q) {
      LookerLoses(s0, p, e, q);
    } else if Loses(s0, p, e) {
      var steps :| Runs(s0, steps) && (forall step | step in steps :: Others(step, p))
        && LostAfter(s0, After(s0, steps), p, e);
      SafeRun(s0, p, steps);
    }
  }

  lemma PushedState<E>(s: State<E>, p: nat, e: E)
    requires Enabled(s, Push(p, e))
    ensures var s0 := Apply(s, Push(p, e));
      && s0.Pc(p) == Pushed(e) && e !in s0.deleted && (PassComes(s0) <==> PassComes(s))
      && (forall q | q != p :: MayLook(s0, q) == MayLook(s, q))
  {
  }

  /** A look at the timer makes one although nothing is left to flush. */
  predicate Useless<E(==)>(s: State<E>, p: nat) {
    s.Pc(p).Locked? && !s.timer && s.list == []
  }

  /**
    Over every run, a look makes a useless timer exactly when there is none and every event that ever came, the
    thread's own included, has been deleted.
  */
  lemma UselessWhen<E>(steps: seq<Step<E>>, p: nat)
    requires Runs(Start<E>(), steps) && Enabled(After(Start<E>(), steps), Check(p))
    ensures var s := After(Start<E>(), steps);
      && (Useless(s, p) <==> !s.timer && forall e | e in s.arrived :: e in s.deleted)
      && (Useless(s, p) ==> s.Pc(p).e in s.deleted)
  {
    hide OnceInv, LockInv, TimerInv, WakeInv;
    Reached(steps);
    var s := After(Start<E>(), steps);
    if !s.timer {
      AllDeleted(s);
    }
  }

  lemma AllDeleted<E>(s: State<E>)
    requires Inv(s) && !s.timer
    ensures s.list == [] <==> forall e | e in s.arrived :: e in s.deleted
  {
    hide NoDup, Bag;
    forall e ensures e in s.arrived <==> e in s.list || e in s.deleted {
      BagMembers(s, e);
    }
    if s.list != [] {
      var e := s.list[0];
      BagMembers(s, e);
      assert e in s.list && e !in s.deleted by { InOnePlace(s, e); }
    }
  }

  lemma InOnePlace<E>(s: State<E>, e: E)
    requires OnceInv(s) && e in s.list
    ensures e !in s.deleted
  {
    BagMembers(s, e);
    assert Bag(s)[e] >= multiset(s.list)[e] + multiset(s.deleted)[e];
  }

  // ----- reachable states

  /** `b` can be reached from `a`. */
  ghost predicate Leads<E(!new)>(a: State<E>, b: State<E>) {
    exists steps :: Runs(a, steps) && After(a, steps) == b
  }

  lemma {:induction false} RunsOn<E>(s: State<E>, steps: seq<Step<E>>, step: Step<E>)
    requires Runs(s, steps) && Enabled(After(s, steps), step)
    ensures Runs(s, steps + [step]) && After(s, steps + [step]) == Apply(After(s, steps), step)
    decreases |steps|
  {
    var all := steps + [step];
    if steps == [] {
      assert all[0] == step && all[1..] == [];
      assert Runs(Apply(s, step), []);
    } else {
      assert all[0] == steps[0] && all[1..] == steps[1..] + [step];
      RunsOn(Apply(s, steps[0]), steps[1..], step);
    }
  }

  lemma LeadsOn<E(!new)>(a: State<E>, b: State<E>, step: Step<E>)
    requires Leads(a, b) && Enabled(b, step)
    ensures Leads(a, Apply(b, step))
  {
    var steps :| Runs(a, steps) && After(a, steps) == b;
    RunsOn(a, steps, step);
  }

  /** The first event has its timer; a thread has pushed the second one. */
  ghost const SECOND: State<nat> :=
    State([10, 11], [], None, [], [], [10, 11], true, Resting, map[0 := Idle, 1 := Pushed(11)], Free, [])

  lemma SecondReachable()
    ensures Leads(Start<nat>(), SECOND)
  {
    var s0 := Start<nat>();
    assert Runs(s0, []) && After(s0, []) == s0;
    var s1 := State([10], [], None, [], [], [10], false, Resting, map[0 := Pushed(10)], Free, []);
    assert s1 == Apply(s0, Push(0, 10));
    LeadsOn(s0, s0, Push(0, 10));
    var s2 := s1.(pushers := map[0 := Calling(10)]);
    assert s2 == Apply(s1, Call(0));
    LeadsOn(s0, s1, Call(0));
    var s3 := s2.(pushers := map[0 := Locked(10)], lock := Pusher(0));
    assert s3 == Apply(s2, Lock(0));
    LeadsOn(s0, s2, Lock(0));
    TimerMade(s0, s3);
  }

  lemma TimerMade(s0: State<nat>, s3: State<nat>)
    requires s3 == State([10], [], None, [], [], [10], false, Resting, map[0 := Locked(10)], Pusher(0), [])
    requires Leads(s0, s3)
    ensures Leads(s0, SECOND)
  {
    var s4 := s3.(pushers := map[0 := Checked(10)], timer := true);
    assert s4 == Apply(s3, Check(0));
    LeadsOn(s0, s3, Check(0));
    var s5 := s4.(pushers := map[0 := Idle], lock := Free);
    assert s5 == Apply(s4, Unlock(0));
    LeadsOn(s0, s4, Unlock(0));
    assert SECOND == Apply(s5, Push(1, 11));
    LeadsOn(s0, s5, Push(1, 11));
  }

  /** A whole pass that deletes both events and retires, whatever the second thread does meanwhile. */
  lemma PassRetires(s0: State<nat>, s: State<nat>)
    requires Leads(s0, s) && s == SECOND.(pushers := s.pushers)
    ensures Leads(s0, s.(list := [], deleted := [10, 11], timer := false))
  {
    var s1 := s.(chain := [10, 11], list := [], timerPc := Walking);
    assert s1 == Apply(s, Detach);
    LeadsOn(s0, s, Detach);
    var s2 := s1.(chain := [11], deleted := [10]);
    assert s2 == Apply(s1, Take(false));
    LeadsOn(s0, s1, Take(false));
    var s3 := s2.(chain := [], deleted := [10, 11]);
    assert s3 == Apply(s2, Take(false));
    LeadsOn(s0, s2, Take(false));
    var s4 := s3.(timerPc := Wanting);
    assert s4 == Apply(s3, Merge);
    LeadsOn(s0, s3, Merge);
    Retires(s0, s4);
  }

  lemma Retires(s0: State<nat>, s4: State<nat>)
    requires Leads(s0, s4) && s4.timerPc == Wanting && s4.lock == Free && s4.list == [] && s4.timer
    ensures Leads(s0, s4.(timer := false, timerPc := Resting))
  {
    var s5 := s4.(timerPc := Looking, lock := Timer);
    assert s5 == Apply(s4, TimerLock);
    LeadsOn(s0, s4, TimerLock);
    var s6 := s5.(timerPc := Retiring);
    assert s6 == Apply(s5, Look);
    LeadsOn(s0, s5, Look);
    var s7 := s6.(timerPc := Releasing, timer := false);
    assert s7 == Apply(s6, Retire);
    LeadsOn(s0, s6, Retire);
    assert s4.(timer := false, timerPc := Resting) == Apply(s7, TimerUnlock);
    LeadsOn(s0, s7, TimerUnlock);
  }

  /** The pass comes before the thread has read the loop from its event: the thread reads a deleted event. */
  lemma LateRead()
    ensures exists s :: Leads(Start<nat>(), s) && s.late != []
  {
    var s0 := Start<nat>();
    SecondReachable();
    PassRetires(s0, SECOND);
    var s := SECOND.(list := [], deleted := [10, 11], timer := false);
    LeadsOn(s0, s, Call(1));
    assert Apply(s, Call(1)).late == [11];
  }

  /**
    A stale timer can come about, without any late read: a thread has pushed and read the loop, the pass of the
    timer that is there handles the event and retires, and only then does the thread get the mutex.
  */
  lemma StaleTimer()
    ensures exists s :: Leads(Start<nat>(), s) && Stale(s) && s.late == []
  {
    var s0 := Start<nat>();
    SecondReachable();
    var t0 := SECOND.(pushers := map[0 := Idle, 1 := Calling(11)]);
    assert t0 == Apply(SECOND, Call(1));
    LeadsOn(s0, SECOND, Call(1));
    PassRetires(s0, t0);
    LooksTooLate(s0, t0.(list := [], deleted := [10, 11], timer := false));
  }

  lemma LooksTooLate(s0: State<nat>, t1: State<nat>)
    requires Leads(s0, t1)
    requires t1 == State([], [], None, [], [10, 11], [10, 11], false, Resting, map[0 := Idle, 1 := Calling(11)], Free, [])
    ensures exists s :: Leads(s0, s) && Stale(s) && s.late == []
  {
    var t2 := t1.(pushers := map[0 := Idle, 1 := Locked(11)], lock := Pusher(1));
    assert t2 == Apply(t1, Lock(1));
    LeadsOn(s0, t1, Lock(1));
    var t3 := t2.(pushers := map[0 := Idle, 1 := Checked(11)], timer := true);
    assert t3 == Apply(t2, Check(1));
    LeadsOn(s0, t2, Check(1));
    LeadsOn(s0, t3, Unlock(1));
    assert Stale(Apply(t3, Unlock(1)));
  }
}
