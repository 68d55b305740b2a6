/** The event loop as it changes its own fields; `RunLoop` is EvLoop::run. */
module EvLoop {
  import opened Prelude
  import opened EvLoopSpec
  import Theorems = EvLoopTheorems
  import Runs = EvLoopRuns
  import Dangling = EvLoopDangling

  class EvLoop {
    var events: map<nat, Ev>
    var nbWaitingEvents: int
    var dns: nat
    var workList: seq<nat>
    var delList: seq<nat>
    var waitOutList: seq<nat>
    var waitOutTimer: Option<nat>
    var epoll: set<nat>
    var cnt: bool
    var gone: seq<Dead>
    var worked: seq<nat>
    var inputs: seq<nat>
    var fate: Fate

    ghost function L(): Loop
      reads this
    {
      Loop(events, nbWaitingEvents, dns, workList, delList, waitOutList, waitOutTimer, epoll, cnt, gone, worked, inputs, fate)
    }

    constructor ()
      ensures L() == FRESH
    {
      events, nbWaitingEvents, dns := map[], 0, 0;
      workList, delList, waitOutList, waitOutTimer, epoll := [], [], [], None, {};
      cnt, gone, worked, inputs, fate := true, [], [], [], Fine;
    }

    /** The fields of an event; one that does not exist has none set. */
    method Look(id: nat) returns (e: Ev)
      ensures e == Get(L(), id)
    {
      if id in events {
        e := events[id];
      } else {
        e := NewEv(-1, false, false);
      }
    }

    /** Whether push_back would write to an event that is gone. */
    method TailGone(list: seq<nat>) returns (r: bool)
      ensures r == DeadTail(L(), list)
    {
      r := list != [] && list[|list| - 1] !in events;
    }

    method PushBackWork(id: nat)
      modifies this`workList, this`fate
      ensures L() == old(PushWork(L(), id))
    {
      if id !in workList {
        var lost := TailGone(workList);
        if lost {
          fate := Freed(InWork);
        } else {
          workList := workList + [id];
        }
      }
    }

    method PushBackDel(id: nat)
      modifies this`delList, this`fate
      ensures L() == old(PushDel(L(), id))
    {
      if id !in delList {
        var lost := TailGone(delList);
        if lost {
          fate := Freed(InDel);
        } else {
          delList := delList + [id];
        }
      }
    }

    method PushBackOut(id: nat)
      modifies this`waitOutList, this`fate
      ensures L() == old(PushOut(L(), id))
    {
      if id !in waitOutList {
        var lost := TailGone(waitOutList);
        if lost {
          fate := Freed(InWaitOut);
        } else {
          waitOutList := waitOutList + [id];
        }
      }
    }

    /** rem_event_obj, from the destructor. */
    method RemEventObj(id: nat, e: Ev)
      requires e.fd > 2
      modifies this`nbWaitingEvents, this`epoll, this`fate
      ensures !e.registered ==> fate == Aborted && nbWaitingEvents == old(nbWaitingEvents) && epoll == old(epoll)
      ensures e.registered ==>
        fate == old(fate) && nbWaitingEvents == old(nbWaitingEvents) - One(e.needWait) && epoll == old(epoll) - {id}
    {
      if !e.registered {
        fate := Aborted;
        return;
      }
      epoll := epoll - {id};
      if e.needWait {
        nbWaitingEvents := nbWaitingEvents - 1;
      }
    }

    method Delete(id: nat)
      requires id in events
      modifies this`events, this`gone, this`nbWaitingEvents, this`epoll, this`fate
      ensures L() == old(Destroy(L(), id))
    {
      var e := events[id];
      if e.fd > 2 && e.looped {
        RemEventObj(id, e);
      }
      events := events - {id};
      gone := gone + [Dead(id, e)];
    }

    method SetUp(id: nat, accepted: bool)
      modifies this`events, this`nbWaitingEvents, this`epoll
      ensures L() == old(Install(L(), id, accepted))
    {
      var e := Look(id);
      events := events[id := e.(looped := true, installed := true, registered := accepted)];
      if accepted {
        epoll := epoll + {id};
      }
      if e.needWait {
        nbWaitingEvents := nbWaitingEvents + 1;
      }
    }

    method CheckWaitOutTimer(spare: Spare)
      modifies this`events, this`nbWaitingEvents, this`waitOutTimer, this`epoll
      ensures L() == old(CheckWaitOut(L(), spare))
    {
      if waitOutTimer == None {
        events := events[spare.id := NewEv(spare.fd, true, false)];
        SetUp(spare.id, true);
        waitOutTimer := Some(spare.id);
      }
    }

    method DelEvent(id: nat, pending: bool, spare: Spare)
      modifies this`events, this`nbWaitingEvents, this`waitOutTimer, this`waitOutList, this`delList, this`epoll, this`fate
      ensures L() == old(Del(L(), id, pending, spare))
    {
      var e := Look(id);
      if !e.looped {
        events := events[id := e.(delOnInstall := true)];
        return;
      }
      if e.fd >= 0 && !e.hasError && e.mayHaveOut && pending {
        PushBackOut(id);
        if fate == Fine {
          CheckWaitOutTimer(spare);
        }
      } else {
        PushBackDel(id);
      }
    }

    method CloseEvent(id: nat, sent: bool, pending: bool, spare: Spare)
      modifies this`events, this`nbWaitingEvents, this`waitOutTimer, this`waitOutList, this`delList, this`epoll, this`fate
      ensures L() == old(CloseFd(L(), id, sent, pending, spare))
    {
      hide Del, Flushing;
      var e := Look(id);
      if e.hasError {
        DelEvent(id, pending, spare);
        return;
      }
      if e.wantClose {
        return;
      }
      events := events[id := e.(wantClose := true)];
      if sent {
        DelEvent(id, pending, spare);
      }
    }

    method ErrorEvent(id: nat)
      modifies this`events, this`nbWaitingEvents, this`waitOutTimer, this`waitOutList, this`delList, this`epoll, this`fate
      ensures L() == old(FailFd(L(), id))
    {
      hide CloseFd;
      var e := Look(id);
      events := events[id := e.(hasError := true)];
      CloseEvent(id, true, false, Spare(0, 0));
    }

    method AddEventObj(id: nat, accepted: bool, pending: bool, spare: Spare)
      modifies this`events, this`nbWaitingEvents, this`waitOutTimer, this`waitOutList, this`delList, this`epoll, this`fate
      ensures L() == old(AddObj(L(), id, accepted, pending, spare))
    {
      hide Del;
      var e := Look(id);
      if e.looped {
        return;
      }
      SetUp(id, accepted);
      if e.delOnInstall {
        DelEvent(id, pending, spare);
      }
    }

    method RegisterWork(id: nat)
      modifies this`events, this`workList, this`fate
      ensures L() == old(if Get(L(), id).looped then PushWork(L(), id) else Put(L(), id, Get(L(), id).(workOnInstall := true)))
    {
      hide PushWork;
      var e := Look(id);
      if e.looped {
        PushBackWork(id);
      } else {
        events := events[id := e.(workOnInstall := true)];
      }
    }

    /** Walks over the events taken from the list, deletes those that have flushed and returns the others. */
    method SweepChain(taken: seq<nat>, unsent: set<nat>) returns (renewed: seq<nat>)
      requires fate == Fine
      modifies this`events, this`gone, this`nbWaitingEvents, this`epoll, this`fate
      ensures L() == old(Sweep(L(), taken, unsent))
      ensures fate == Fine ==> renewed == Kept(taken, unsent)
    {
      hide Destroy;
      ghost var goal := Sweep(L(), taken, unsent);
      renewed := [];
      var i := 0;
      assert taken[0..] == taken && [] + Kept(taken, unsent) == Kept(taken, unsent);
      while i < |taken|
        invariant i <= |taken| && fate == Fine
        invariant Sweep(L(), taken[i..], unsent) == goal
        invariant renewed + Kept(taken[i..], unsent) == Kept(taken, unsent)
      {
        var id := taken[i];
        assert taken[i..][0] == id && taken[i..][1..] == taken[i + 1..];
        if id !in events {
          fate := Freed(InWaitOut);
          return;
        }
        KeptOne(taken[i..], unsent);
        if id in unsent {
          assert renewed + ([id] + Kept(taken[i + 1..], unsent)) == renewed + [id] + Kept(taken[i + 1..], unsent);
          renewed := renewed + [id];
        } else {
          Delete(id);
          if fate != Fine {
            return;
          }
        }
        i := i + 1;
      }
    }

    /** One pass of the wait-out timer: takes the list, deletes what has flushed, puts the others in front. */
    method Timeout(unsent: set<nat>)
      requires fate == Fine
      modifies this
      ensures L() == old(WaitPass(L(), unsent))
    {
      hide Sweep, CloseFd, Kept;
      if waitOutList == [] || waitOutTimer == None {
        return;
      }
      var taken := waitOutList;
      waitOutList := [];
      var renewed := SweepChain(taken, unsent);
      if fate != Fine {
        return;
      }
      waitOutList := renewed + waitOutList;
      if waitOutList == [] {
        var id := waitOutTimer.value;
        waitOutTimer := None;
        CloseEvent(id, true, false, Spare(0, 0));
      }
    }

    method Perform(op: Op)
      modifies this
      ensures L() == old(Do(L(), op))
    {
      hide AddObj, CloseFd, Del, FailFd, PushWork;
      if fate != Fine {
        return;
      }
      match op {
        case New(id, fd, needWait, mayHaveOut) => events := events[id := NewEv(fd, needWait, mayHaveOut)];
        case Add(id, accepted, pending, spare) => AddEventObj(id, accepted, pending, spare);
        case AddTimeout(id) =>
          var e := Look(id);
          events := events[id := e.(looped := true)];
        case CloseEv(id, sent, pending, spare) => CloseEvent(id, sent, pending, spare);
        case DelEv(id, pending, spare) => DelEvent(id, pending, spare);
        case Fail(id) => ErrorEvent(id);
        case RegWork(id) => RegisterWork(id);
        case Inc =>
          nbWaitingEvents, dns := nbWaitingEvents + 1, dns + 1;
        case Dec =>
          nbWaitingEvents := nbWaitingEvents - 1;
          if dns > 0 {
            dns := dns - 1;
          }
        case Stop => cnt := false;
      }
    }

    /** What a callback does. */
    method CallBack(ops: seq<Op>)
      modifies this
      ensures L() == old(DoAll(L(), ops))
    {
      hide Do;
      var i := 0;
      assert ops[0..] == ops;
      while i < |ops|
        invariant i <= |ops|
        invariant DoAll(L(), ops[i..]) == old(DoAll(L(), ops))
      {
        assert ops[i..][0] == ops[i] && ops[i..][1..] == ops[i + 1..];
        Perform(ops[i]);
        i := i + 1;
      }
    }

    /**
      One entry of the answer of epoll. The invariant is kept, and an event that closes, or was deleted, still
      does, and gets no input.
    */
    method HandleEvent(r: Ready)
      modifies this
      ensures L() == old(Handle(L(), r))
      ensures old(Theorems.Inv(L()) && Runs.LegalHandle(L(), r)) ==> Runs.Kind(old(L()), L())
    {
      hide HandleOut, HandleInp, FailIf, WaitPass, Theorems.Inv, Runs.LegalHandle, Runs.Kind;
      if Theorems.Inv(L()) && Runs.LegalHandle(L(), r) {
        Runs.HandleKind(L(), r);
      }
      if fate != Fine {
        return;
      }
      if r.id !in events {
        fate := Freed(InBatch);
        return;
      }
      if r.id in delList {
        return;
      }
      if waitOutTimer == Some(r.id) {
        var e := Look(r.id);
        if r.inp.Some? && !e.wantClose {
          inputs := inputs + [r.id];
          Timeout(r.unsent);
        }
        return;
      }
      CallOut(r);
      CallInp(r);
      FailWhen(r, r.rdhup);
      FailWhen(r, r.hup);
      FailWhen(r, r.err);
    }

    method CallOut(r: Ready)
      modifies this
      ensures L() == old(HandleOut(L(), r))
    {
      hide DoAll, Del;
      if r.out.Some? {
        CallBack(r.out.value);
        var e := Look(r.id);
        if fate == Fine && e.wantClose && r.sent {
          DelEvent(r.id, r.pending, r.spare);
        }
      }
    }

    method CallInp(r: Ready)
      modifies this
      ensures L() == old(HandleInp(L(), r))
    {
      hide DoAll;
      var e := Look(r.id);
      if r.inp.Some? && fate == Fine && !e.wantClose && r.id !in delList {
        inputs := inputs + [r.id];
        CallBack(r.inp.value);
      }
    }

    method FailWhen(r: Ready, fails: bool)
      modifies this
      ensures L() == old(FailIf(L(), r, fails))
    {
      hide FailFd;
      if fails && fate == Fine {
        ErrorEvent(r.id);
      }
    }

    /** The work that events have registered. */
    method DoWork(works: seq<seq<Op>>)
      modifies this
      ensures L() == old(WorkPhase(L(), works))
    {
      hide DoAll;
      var left := works;
      while fate == Fine && workList != []
        invariant WorkPhase(L(), left) == old(WorkPhase(L(), works))
        decreases |left|, |workList|
      {
        Runs.WorkMeasure(L(), left);
        if workList[0] !in events {
          fate := Freed(InWork);
          return;
        }
        worked := worked + [workList[0]];
        workList := workList[1..];
        CallBack(Head(left));
        left := Tail(left);
      }
    }

    /** The actual deletions. */
    method DoDeletions()
      modifies this
      ensures L() == old(DelPhase(L()))
    {
      hide Destroy;
      while fate == Fine && delList != []
        invariant DelPhase(L()) == old(DelPhase(L()))
        decreases |delList|
      {
        var id := delList[0];
        delList := delList[1..];
        if id in events {
          Delete(id);
        } else {
          fate := Freed(InDel);
        }
      }
    }

    method HandleEvents(batch: seq<Ready>)
      modifies this
      ensures L() == old(HandleAll(L(), batch))
    {
      hide Handle;
      var i := 0;
      assert batch[0..] == batch;
      while i < |batch|
        invariant i <= |batch|
        invariant HandleAll(L(), batch[i..]) == old(HandleAll(L(), batch))
      {
        assert batch[i..][0] == batch[i] && batch[i..][1..] == batch[i + 1..];
        HandleEvent(batch[i]);
        i := i + 1;
      }
    }

    /**
      EvLoop::run. Legal callers get what `EndMeans` says; and unless the program aborts, a deleted event was
      followed, or is left listed, exactly when the run slipped, or began with one.
    */
    method RunLoop(turns: seq<Turn>) returns (end: End)
      modifies this
      ensures (L(), end) == old(Run(L(), turns))
      ensures old(Theorems.Inv(L()) && Runs.LegalTurns(L().(cnt := true), turns)) ==>
        && Theorems.Inv(L()) && Runs.EndMeans(L(), end)
        && (fate != Aborted ==> (Dangling.Dangles(L()) <==> old(Dangling.Dangles(L()) || Dangling.Slips(L().(cnt := true), turns))))
    {
      hide DelPhase, WorkPhase, HandleAll, Theorems.Inv, Runs.LegalTurns, Runs.EndMeans, Runs.Kind, Dangling.Slips, Dangling.Dangles;
      ghost var s := L().(cnt := true);
      ghost var ok := Theorems.Inv(L()) && Runs.LegalTurns(s, turns);
      if ok {
        Restarted(L());
        Runs.TurnsKind(s, turns);
        Runs.KindInv(s, Turns(s, turns).0);
        Runs.TurnsEnd(s, turns);
        if !Turns(s, turns).0.fate.Aborted? {
          Dangling.TurnsDangle(s, turns);
        }
      }
      cnt := true;
      var i := 0;
      assert turns[0..] == turns;
      while true
        invariant i <= |turns|
        invariant Turns(L(), turns[i..]) == Turns(s, turns)
        decreases |turns| - i
      {
        ghost var left := turns[i..];
        assert i < |turns| ==> left[0] == turns[i] && left[1..] == turns[i + 1..];
        DoWork(if i < |turns| then turns[i].works else []);
        DoDeletions();
        if fate != Fine {
          return Crashed;
        }
        if nbWaitingEvents == 0 {
          return Idle;
        }
        if i == |turns| {
          return Waiting;
        }
        match turns[i].poll {
          case Broken => return Failed;
          case Interrupted =>
          case Got(batch) => HandleEvents(batch);
        }
        if fate != Fine {
          return Crashed;
        }
        if !cnt {
          return Asked;
        }
        i := i + 1;
      }
    }
  }

  lemma Restarted(s: Loop)
    requires Theorems.Inv(s)
    ensures Theorems.Inv(s.(cnt := true)) && (Dangling.Dangles(s.(cnt := true)) <==> Dangling.Dangles(s))
  {
  }

  lemma KeptOne(ids: seq<nat>, unsent: set<nat>)
    requires ids != []
    ensures Kept(ids, unsent) == if ids[0] in unsent then [ids[0]] + Kept(ids[1..], unsent) else Kept(ids[1..], unsent)
  {
  }
}
