/** The invariant of the event loop, and what each operation keeps of it. */
module EvLoopTheorems {
  import opened Prelude
  import opened EvLoopSpec

  // ----- counting

  /** Counted by add_event_obj, which the destructor undoes only for descriptors above 2. */
  predicate Counts(e: Ev) {
    e.installed && e.needWait
  }

  function Live(m: map<nat, Ev>): set<nat> {
    set id | id in m && Counts(m[id])
  }

  predicate Leaky(e: Ev) {
    Counts(e) && e.fd <= 2
  }

  function Leaks(gone: seq<Dead>): nat {
    if gone == [] then 0
    else Leaks(gone[..|gone| - 1]) + if Leaky(gone[|gone| - 1].ev) then 1 else 0
  }

  lemma LeaksOne(gone: seq<Dead>, d: Dead)
    ensures Leaks(gone + [d]) == Leaks(gone) + if Leaky(d.ev) then 1 else 0
  {
    assert (gone + [d])[..|gone|] == gone;
  }

  lemma LivePut(m: map<nat, Ev>, id: nat, e: Ev)
    ensures |Live(m[id := e])| == |Live(m)| + One(Counts(e)) - One(id in m && Counts(m[id]))
  {
    var rest := Live(m) - {id};
    assert Live(m[id := e]) == if Counts(e) then rest + {id} else rest;
    assert Live(m) == if id in m && Counts(m[id]) then rest + {id} else rest;
  }

  lemma LiveTake(m: map<nat, Ev>, id: nat)
    requires id in m
    ensures |Live(m - {id})| == |Live(m)| - One(Counts(m[id]))
  {
    var rest := Live(m) - {id};
    assert Live(m - {id}) == rest;
    assert Live(m) == if Counts(m[id]) then rest + {id} else rest;
  }

  // ----- the invariant

  ghost predicate Past(gone: seq<Dead>, id: nat) {
    exists d | d in gone :: d.id == id
  }

  ghost predicate Unused(s: Loop, id: nat) {
    id !in s.events && !Past(s.gone, id)
  }

  ghost predicate Flags(m: map<nat, Ev>) {
    forall id | id in m ::
      var e := m[id]; (e.installed ==> e.looped) && (e.registered ==> e.installed && e.fd >= 0)
  }

  /** A listed event exists, or existed. */
  ghost predicate Listed(s: Loop, list: seq<nat>) {
    NoDup(list) && forall id | id in list :: if id in s.events then s.events[id].looped else Past(s.gone, id)
  }

  ghost predicate Lists(s: Loop) {
    && Listed(s, s.work) && Listed(s, s.del) && Listed(s, s.waitOut)
    && forall id | id in s.waitOut && id in s.events :: s.events[id].mayHaveOut
  }

  ghost predicate IsTimer(e: Ev) {
    e.installed && e.looped && e.registered && e.needWait && e.fd > 2 && !e.mayHaveOut && !e.wantClose && !e.hasError
  }

  ghost predicate TimerKnown(s: Loop) {
    s.timer.Some? ==>
      s.timer.value in s.events && s.timer.value !in s.del && IsTimer(s.events[s.timer.value])
  }

  /** While events wait for their output, the wait-out timer is there. */
  ghost predicate TimerThere(s: Loop) {
    s.timer.None? ==> s.waitOut == []
  }

  ghost predicate Counted(s: Loop) {
    s.nb == |Live(s.events)| + s.dns + Leaks(s.gone)
  }

  /** Each event is deleted once. */
  ghost predicate Once(s: Loop) {
    && (forall i, j | 0 <= i < j < |s.gone| :: s.gone[i].id != s.gone[j].id)
    && forall d | d in s.gone :: d.id !in s.events
  }

  /** epoll knows the registered events, and those that were deleted with a descriptor of at most 2. */
  ghost predicate Watched(s: Loop) {
    && (forall id | id in s.events && s.events[id].registered :: id in s.epoll)
    && (forall id | id in s.epoll && id in s.events :: s.events[id].registered)
    && (forall id | id in s.epoll && id !in s.events :: LeftOpen(s.gone, id))
  }

  ghost predicate LeftOpen(gone: seq<Dead>, id: nat) {
    exists d | d in gone :: d.id == id && d.ev.registered && d.ev.fd <= 2
  }

  /** An event that epoll did not know has been deleted. */
  ghost predicate Aborting(gone: seq<Dead>) {
    exists d | d in gone :: Unknown(d.ev)
  }

  ghost predicate Core(s: Loop) {
    && s.fate.Fine? && !Aborting(s.gone)
    && Flags(s.events) && Lists(s) && TimerKnown(s) && Counted(s) && Once(s) && Watched(s)
  }

  ghost predicate Inv(s: Loop) {
    match s.fate
    case Fine => Core(s) && TimerThere(s)
    case Aborted => Aborting(s.gone)
    case Freed(_) => !Aborting(s.gone)
  }

  // ----- what the loop asks of its callers

  /** check_wait_out gets a timer that is new, with a descriptor of its own. */
  ghost predicate SpareOk(s: Loop, spare: Spare) {
    s.timer.None? ==> Unused(s, spare.id) && spare.fd > 2
  }

  /** An event that exists, and not the timer of the loop. */
  ghost predicate Theirs(s: Loop, id: nat) {
    id in s.events && s.timer != Some(id)
  }

  ghost predicate Legal(s: Loop, op: Op) {
    s.fate.Fine? ==>
    match op
    case New(id, _, _, _) => Unused(s, id)
    case Add(id, accepted, _, spare) => Theirs(s, id) && SpareOk(s, spare) && (accepted ==> s.events[id].fd >= 0)
    case AddTimeout(id) => Theirs(s, id)
    case CloseEv(id, _, _, spare) => Theirs(s, id) && SpareOk(s, spare)
    case DelEv(id, _, spare) => Theirs(s, id) && SpareOk(s, spare)
    case Fail(id) => Theirs(s, id)
    case RegWork(id) => Theirs(s, id)
    case Inc => true
    case Dec => s.dns > 0
    case Stop => true
  }

  // ----- one step keeps the invariant

  /** Fields of an event that later operations leave alone. */
  ghost predicate SameKind(was: Ev, e: Ev) {
    && e.fd == was.fd && e.needWait == was.needWait && e.mayHaveOut == was.mayHaveOut
    && (was.looped ==> e.looped) && e.installed == was.installed && e.registered == was.registered
  }

  /** Events may come, and keep what they are. */
  ghost predicate Richer(m: map<nat, Ev>, m': map<nat, Ev>) {
    forall id | id in m ::
      id in m' && (m[id].looped ==> m'[id].looped) && m'[id].mayHaveOut == m[id].mayHaveOut
  }

  lemma ListedRicher(s: Loop, s': Loop, list: seq<nat>)
    requires Listed(s, list) && Richer(s.events, s'.events) && s'.gone == s.gone
    requires forall id | id in s'.events && id !in s.events :: Unused(s, id)
    ensures Listed(s', list)
  {
    hide NoDup;
  }

  lemma ListsRicher(s: Loop, s': Loop)
    requires Lists(s) && Richer(s.events, s'.events) && s'.gone == s.gone
    requires forall id | id in s'.events && id !in s.events :: Unused(s, id)
    requires s'.work == s.work && s'.del == s.del && s'.waitOut == s.waitOut
    ensures Lists(s')
  {
    ListedRicher(s, s', s.work);
    ListedRicher(s, s', s.del);
    ListedRicher(s, s', s.waitOut);
    hide NoDup;
  }

  lemma CountedPut(s: Loop, id: nat, e: Ev)
    requires Counted(s) && id in s.events && Counts(e) == Counts(s.events[id])
    ensures Counted(Put(s, id, e))
  {
    hide Leaks, Live;
    LivePut(s.events, id, e);
  }

  lemma WatchedPut(s: Loop, id: nat, e: Ev)
    requires Watched(s) && id in s.events && e.registered == s.events[id].registered
    ensures Watched(Put(s, id, e))
  {
    hide LeftOpen;
  }

  lemma PutKeeps(s: Loop, id: nat, e: Ev)
    requires Core(s) && Theirs(s, id) && SameKind(s.events[id], e)
    ensures Core(Put(s, id, e))
  {
    hide Past, Aborting, IsTimer, Lists, Counted, Watched;
    CountedPut(s, id, e);
    WatchedPut(s, id, e);
    ListsRicher(s, Put(s, id, e));
  }

  lemma InstallKeeps(s: Loop, id: nat, accepted: bool)
    requires Core(s) && Theirs(s, id) && !s.events[id].looped && (accepted ==> s.events[id].fd >= 0)
    ensures Core(Install(s, id, accepted))
  {
    hide Past, LeftOpen, Aborting, IsTimer, Lists;
    LivePut(s.events, id, Install(s, id, accepted).events[id]);
    ListsRicher(s, Install(s, id, accepted));
  }

  lemma NewKeeps(s: Loop, id: nat, e: Ev)
    requires Core(s) && Unused(s, id) && !e.installed && !e.registered
    ensures Core(Put(s, id, e))
  {
    hide LeftOpen, Aborting, IsTimer, Lists;
    LivePut(s.events, id, e);
    ListsRicher(s, Put(s, id, e));
    NotWatched(s, id);
  }

  lemma NotListed(s: Loop, id: nat, list: seq<nat>)
    requires Unused(s, id) && Listed(s, list)
    ensures id !in list
  {
  }

  lemma NotWatched(s: Loop, id: nat)
    requires Unused(s, id) && Watched(s)
    ensures id !in s.epoll
  {
    assert LeftOpen(s.gone, id) ==> Past(s.gone, id);
  }

  lemma CheckWaitOutKeeps(s: Loop, spare: Spare)
    requires Core(s) && SpareOk(s, spare)
    ensures Core(CheckWaitOut(s, spare)) && CheckWaitOut(s, spare).timer.Some?
  {
    hide Counted, Once, Flags, Lists, Watched;
    if s.timer.None? {
      var s' := Put(s, spare.id, NewEv(spare.fd, true, false));
      NewKeeps(s, spare.id, NewEv(spare.fd, true, false));
      InstallKeeps(s', spare.id, true);
      assert spare.id !in s.del by { UnlistedSpare(s, spare.id); }
      TimerSet(Install(s', spare.id, true), spare.id);
    }
  }

  lemma UnlistedSpare(s: Loop, id: nat)
    requires Lists(s) && Unused(s, id)
    ensures id !in s.del
  {
    NotListed(s, id, s.del);
  }

  lemma TimerSet(s: Loop, id: nat)
    requires Core(s) && id in s.events && IsTimer(s.events[id]) && id !in s.del
    ensures Core(s.(timer := Some(id)))
  {
    hide Past, LeftOpen, Aborting, IsTimer, NoDup, Live, Leaks;
  }

  lemma ListedPush(s: Loop, list: seq<nat>, id: nat)
    requires Listed(s, list) && id in s.events && s.events[id].looped
    ensures id !in list ==> Listed(s, list + [id])
  {
    hide Past;
  }

  lemma PushWorkKeeps(s: Loop, id: nat)
    requires Core(s) && id in s.events && s.events[id].looped
    ensures Inv2(PushWork(s, id))
  {
    hide Past, LeftOpen, IsTimer, Live, Leaks, NoDup, Aborting;
    ListedPush(s, s.work, id);
  }

  lemma PushDelKeeps(s: Loop, id: nat)
    requires Core(s) && id in s.events && s.events[id].looped && s.timer != Some(id)
    ensures Inv2(PushDel(s, id))
  {
    hide Past, LeftOpen, IsTimer, Live, Leaks, NoDup, Aborting;
    ListedPush(s, s.del, id);
  }

  lemma PushOutKeeps(s: Loop, id: nat)
    requires Core(s) && id in s.events && s.events[id].looped && s.events[id].mayHaveOut
    ensures Inv2(PushOut(s, id))
  {
    hide Past, LeftOpen, IsTimer, Live, Leaks, NoDup, Aborting;
    ListedPush(s, s.waitOut, id);
  }

  /** The invariant while the timer may be missing. */
  ghost predicate Inv2(s: Loop) {
    match s.fate
    case Fine => Core(s)
    case Aborted => Aborting(s.gone)
    case Freed(_) => !Aborting(s.gone)
  }

  lemma DelKeeps(s: Loop, id: nat, pending: bool, spare: Spare)
    requires Core(s) && TimerThere(s) && Theirs(s, id) && (SpareOk(s, spare) || !pending)
    ensures Inv(Del(s, id, pending, spare))
  {
    hide Counted, Once, Flags, Lists, TimerKnown, Watched, Aborting, CheckWaitOut, DeadTail;
    var e := s.events[id];
    if !e.looped {
      PutKeeps(s, id, e.(delOnInstall := true));
    } else if Flushing(s, id, pending) {
      PushOutKeeps(s, id);
      if PushOut(s, id).fate.Fine? {
        CheckWaitOutKeeps(PushOut(s, id), spare);
      }
    } else {
      PushDelKeeps(s, id);
    }
  }

  lemma CloseKeeps(s: Loop, id: nat, sent: bool, pending: bool, spare: Spare)
    requires Core(s) && TimerThere(s) && Theirs(s, id) && (SpareOk(s, spare) || !pending)
    ensures Inv(CloseFd(s, id, sent, pending, spare))
  {
    hide Counted, Once, Flags, Lists, TimerKnown, Watched, Aborting, Del;
    var e := s.events[id];
    PutKeeps(s, id, e.(wantClose := true));
    if e.hasError {
      DelKeeps(s, id, pending, spare);
    } else if !e.wantClose && sent {
      DelKeeps(Put(s, id, e.(wantClose := true)), id, pending, spare);
    }
  }

  /** An event that has failed is never asked for its output, so that no timer is made. */
  lemma FailKeeps(s: Loop, id: nat)
    requires Core(s) && TimerThere(s) && Theirs(s, id)
    ensures Inv(FailFd(s, id))
  {
    hide Counted, Once, Flags, Lists, TimerKnown, Watched, Aborting, DeadTail;
    var e := s.events[id].(hasError := true);
    var s' := Put(s, id, e);
    PutKeeps(s, id, e);
    if e.looped {
      PushDelKeeps(s', id);
    } else {
      PutKeeps(s', id, e.(delOnInstall := true));
    }
  }

  lemma AddKeeps(s: Loop, id: nat, accepted: bool, pending: bool, spare: Spare)
    requires Core(s) && TimerThere(s) && Theirs(s, id) && SpareOk(s, spare) && (accepted ==> s.events[id].fd >= 0)
    ensures Inv(AddObj(s, id, accepted, pending, spare))
  {
    hide Counted, Once, Flags, Lists, TimerKnown, Watched, Aborting, Del;
    if !s.events[id].looped {
      InstallKeeps(s, id, accepted);
      var s' := Install(s, id, accepted);
      if s'.events[id].delOnInstall {
        DelKeeps(s', id, pending, spare);
      }
    }
  }

  lemma CountKeeps(s: Loop, op: Op)
    requires Core(s) && TimerThere(s) && (op.Inc? || op.Stop? || (op.Dec? && s.dns > 0))
    ensures Inv(Do(s, op))
  {
    hide Live, Leaks, Aborting, Past, LeftOpen;
  }

  /** Every operation keeps the invariant. */
  lemma DoKeeps(s: Loop, op: Op)
    requires Inv(s) && Legal(s, op)
    ensures Inv(Do(s, op))
  {
    hide Counted, Once, Flags, Lists, TimerKnown, Watched, Aborting, AddObj, CloseFd, Del, FailFd, PushWork;
    if s.fate.Fine? {
      match op
      case New(id, fd, needWait, mayHaveOut) => NewKeeps(s, id, NewEv(fd, needWait, mayHaveOut));
      case Add(id, accepted, pending, spare) => AddKeeps(s, id, accepted, pending, spare);
      case AddTimeout(id) => PutKeeps(s, id, s.events[id].(looped := true));
      case CloseEv(id, sent, pending, spare) => CloseKeeps(s, id, sent, pending, spare);
      case DelEv(id, pending, spare) => DelKeeps(s, id, pending, spare);
      case Fail(id) => FailKeeps(s, id);
      case RegWork(id) =>
        PutKeeps(s, id, s.events[id].(workOnInstall := true));
        if s.events[id].looped {
          PushWorkKeeps(s, id);
          assert TimerThere(PushWork(s, id)) by { PushWorkTimer(s, id); }
        }
      case Inc => CountKeeps(s, op);
      case Dec => CountKeeps(s, op);
      case Stop => CountKeeps(s, op);
    }
  }

  lemma PushWorkTimer(s: Loop, id: nat)
    requires TimerThere(s)
    ensures TimerThere(PushWork(s, id))
  {
  }

  // ----- deleting

  lemma PastGrows(gone: seq<Dead>, d: Dead)
    ensures forall id :: Past(gone + [d], id) <==> Past(gone, id) || id == d.id
    ensures forall id | LeftOpen(gone, id) :: LeftOpen(gone + [d], id)
    ensures Aborting(gone + [d]) <==> Aborting(gone) || Unknown(d.ev)
  {
    hide Unknown;
    forall id ensures Past(gone + [d], id) <==> Past(gone, id) || id == d.id {
      assert d in gone + [d];
      assert forall x | x in gone + [d] :: x in gone || x == d;
    }
    assert d in gone + [d] && forall x | x in gone :: x in gone + [d];
  }

  lemma DestroyWatched(s: Loop, id: nat)
    requires Flags(s.events) && Watched(s) && id in s.events && !Unknown(s.events[id])
    ensures Watched(Destroy(s, id))
  {
    hide Past, Aborting;
    var e := s.events[id];
    PastGrows(s.gone, Dead(id, e));
    assert Dead(id, e) in Destroy(s, id).gone;
    assert e.registered && e.fd <= 2 ==> LeftOpen(s.gone + [Dead(id, e)], id);
  }

  lemma DestroyLists(s: Loop, id: nat)
    requires Lists(s) && id in s.events
    ensures Lists(Destroy(s, id))
  {
    hide LeftOpen, Aborting, NoDup, Past;
    PastGrows(s.gone, Dead(id, s.events[id]));
  }

  lemma DestroyCounted(s: Loop, id: nat)
    requires Counted(s) && Once(s) && Flags(s.events) && id in s.events && !Unknown(s.events[id])
    ensures Counted(Destroy(s, id)) && Once(Destroy(s, id))
  {
    hide Leaks, Live;
    LiveTake(s.events, id);
    LeaksOne(s.gone, Dead(id, s.events[id]));
    assert s.gone + [Dead(id, s.events[id])] == Destroy(s, id).gone;
  }

  /** The timer is not deleted while it is the timer. */
  lemma DestroyKeeps(s: Loop, id: nat)
    requires Core(s) && Theirs(s, id)
    ensures Inv2(Destroy(s, id)) && (Destroy(s, id).fate.Aborted? <==> Unknown(s.events[id]))
  {
    hide Counted, Once, Watched, Lists, Past, Aborting, LeftOpen;
    PastGrows(s.gone, Dead(id, s.events[id]));
    if !Unknown(s.events[id]) {
      DestroyWatched(s, id);
      DestroyLists(s, id);
      DestroyCounted(s, id);
    }
  }

  /** The chain of a pass: events of which those that still exist may have output. */
  ghost predicate Chain(s: Loop, ids: seq<nat>) {
    Listed(s, ids) && forall id | id in ids && id in s.events :: s.events[id].mayHaveOut
  }

  lemma ChainNext(s: Loop, ids: seq<nat>)
    requires Chain(s, ids) && ids != []
    ensures Chain(s, ids[1..]) && ids[0] !in ids[1..]
    ensures ids[0] in s.events ==> Chain(Destroy(s, ids[0]), ids[1..])
  {
    hide Past, LeftOpen, Aborting;
    assert forall id | id in ids[1..] :: id in ids;
    if ids[0] in s.events {
      PastGrows(s.gone, Dead(ids[0], s.events[ids[0]]));
    }
  }

  lemma {:induction false} SweepKeeps(s: Loop, ids: seq<nat>, unsent: set<nat>)
    requires Core(s) && Chain(s, ids)
    ensures var r := Sweep(s, ids, unsent);
      && Inv2(r) && r.timer == s.timer && r.waitOut == s.waitOut && r.del == s.del && r.work == s.work
      && r.inputs == s.inputs && r.dns == s.dns
    decreases |ids|
  {
    hide Counted, Once, Flags, Lists, Watched, Aborting, Unknown, Chain, Listed, Destroy;
    if ids != [] && ids[0] in s.events {
      ChainNext(s, ids);
      if ids[0] in unsent {
        SweepKeeps(s, ids[1..], unsent);
      } else {
        assert s.events[ids[0]].mayHaveOut by { ChainHead(s, ids); }
        DestroyKeeps(s, ids[0]);
        var s' := Destroy(s, ids[0]);
        DestroyFields(s, ids[0]);
        if s'.fate.Fine? {
          SweepKeeps(s', ids[1..], unsent);
        }
      }
    }
  }

  lemma ChainHead(s: Loop, ids: seq<nat>)
    requires Chain(s, ids) && ids != [] && ids[0] in s.events
    ensures s.events[ids[0]].mayHaveOut
  {
    assert ids[0] in ids;
  }

  lemma DestroyFields(s: Loop, id: nat)
    requires id in s.events
    ensures var r := Destroy(s, id);
      && r.inputs == s.inputs && r.worked == s.worked && r.dns == s.dns && r.cnt == s.cnt
      && r.events == s.events - {id} && r.gone == s.gone + [Dead(id, s.events[id])] && r.epoll <= s.epoll
      && r.fate == if Unknown(s.events[id]) then Aborted else s.fate
  {
  }

  /** Takes ids off the list of waiting events, or puts a chain there. */
  lemma OutKeeps(s: Loop, list: seq<nat>)
    requires Core(s) && Chain(s, list)
    ensures Core(s.(waitOut := list))
  {
    hide Past, LeftOpen, Aborting, Live, Leaks, NoDup;
  }

  lemma TimerDropped(s: Loop)
    requires Core(s)
    ensures Core(s.(timer := None))
  {
    hide Past, LeftOpen, Aborting, Live, Leaks, NoDup;
  }

  lemma {:induction false} KeptOnly(ids: seq<nat>, unsent: set<nat>)
    ensures forall id :: id in Kept(ids, unsent) <==> id in ids && id in unsent
    ensures NoDup(ids) ==> NoDup(Kept(ids, unsent))
  {
    if ids != [] {
      KeptOnly(ids[1..], unsent);
      assert ids == [ids[0]] + ids[1..];
    }
  }

  lemma OutChain(s: Loop)
    requires Lists(s)
    ensures Chain(s.(waitOut := []), s.waitOut)
  {
    hide Past, NoDup;
  }

  /** A pass that comes to its end has found every event, and deleted those whose output is out, and no others. */
  lemma {:induction false} SweepDeletes(s: Loop, ids: seq<nat>, unsent: set<nat>)
    requires Core(s) && Chain(s, ids) && Sweep(s, ids, unsent).fate.Fine?
    ensures var m, m' := s.events, Sweep(s, ids, unsent).events;
      && (forall id | id in ids :: id in m)
      && (forall id :: id in m' <==> id in m && (id in ids ==> id in unsent))
      && (forall id | id in m' :: m'[id] == m[id])
    decreases |ids|
  {
    hide Counted, Once, Flags, Lists, Watched, Aborting, Unknown, Past, Destroy, Chain;
    if ids != [] {
      ChainNext(s, ids);
      var x := ids[0];
      ChainHead(s, ids);
      assert ids == [x] + ids[1..];
      if x in unsent {
        SweepDeletes(s, ids[1..], unsent);
      } else {
        DestroyKeeps(s, x);
        DestroyFields(s, x);
        SweepDeletes(Destroy(s, x), ids[1..], unsent);
      }
    }
  }

  /** What is left of the chain is a chain. */
  lemma SweepChain(s: Loop, ids: seq<nat>, unsent: set<nat>)
    requires Core(s) && Chain(s, ids) && Sweep(s, ids, unsent).fate.Fine?
    ensures Chain(Sweep(s, ids, unsent), Kept(ids, unsent))
  {
    hide Core, Past, Sweep, Kept;
    SweepDeletes(s, ids, unsent);
    KeptOnly(ids, unsent);
  }

  lemma PassKeeps(s: Loop, unsent: set<nat>)
    requires Core(s) && TimerThere(s)
    ensures Inv(WaitPass(s, unsent))
  {
    hide Counted, Once, Flags, Lists, Watched, Aborting, Sweep, Kept, FailFd, PushDel;
    if s.waitOut != [] && s.timer.Some? {
      var s0 := s.(waitOut := []);
      OutChain(s);
      assert Chain(s0, []);
      assert Core(s0) by { OutKeeps(s, []); }
      SweepKeeps(s0, s.waitOut, unsent);
      var s' := Sweep(s0, s.waitOut, unsent);
      if s'.fate.Fine? {
        SweepChain(s0, s.waitOut, unsent);
        OutKeeps(s', Kept(s.waitOut, unsent));
        TimerDropped(s');
        CloseKeeps(s'.(timer := None), s.timer.value, true, false, Spare(0, 0));
      }
    }
  }
}
