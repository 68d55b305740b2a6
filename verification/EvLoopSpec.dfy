/**
  The event loop: which events it knows, its three lists, and the phases of `run`.  What epoll, ioctl and
  the callbacks do comes from a script; when the script is used up, callbacks do nothing and epoll waits.

  A pointer to an event may outlive the event: on a list, in the answer of epoll being handled, or in epoll
  itself.  The model goes on until such a pointer is followed, which `Freed` records.
*/
module EvLoopSpec {
  import opened Prelude

  datatype Ev = Ev(
    fd: int, needWait: bool, mayHaveOut: bool,
    looped: bool,           // ev_loop is set
    installed: bool,        // add_event_obj has taken it
    registered: bool,       // epoll has its descriptor
    delOnInstall: bool, workOnInstall: bool, wantClose: bool, hasError: bool)

  function NewEv(fd: int, needWait: bool, mayHaveOut: bool): Ev {
    Ev(fd, needWait, mayHaveOut, false, false, false, false, false, false, false)
  }

  /** A deleted event, as it was. */
  datatype Dead = Dead(id: nat, ev: Ev)

  /** Where a pointer to a deleted event was followed. */
  datatype Place = InWork | InDel | InWaitOut | InBatch

  datatype Fate = Fine | Aborted | Freed(place: Place)

  datatype Loop = Loop(
    events: map<nat, Ev>,     // the events that exist
    nb: int,                  // nb_waiting_events
    dns: nat,                 // pending DNS requests
    work: seq<nat>, del: seq<nat>, waitOut: seq<nat>,
    timer: Option<nat>,       // wait_out_timer
    epoll: set<nat>,          // the events that epoll_wait may name
    cnt: bool,
    gone: seq<Dead>,          // the deleted events, in order
    worked: seq<nat>,         // the calls of work
    inputs: seq<nat>,         // the calls of on_inp
    fate: Fate)

  /** The descriptor and the name of the timer that check_wait_out makes if it has to. */
  datatype Spare = Spare(id: nat, fd: int)

  /** What callbacks, and the program before it runs the loop, may ask. */
  datatype Op =
    | New(id: nat, fd: int, needWait: bool, mayHaveOut: bool)
    | Add(id: nat, accepted: bool, pending: bool, spare: Spare)   // accepted: what epoll_ctl answers
    | AddTimeout(id: nat)
    | CloseEv(id: nat, sent: bool, pending: bool, spare: Spare)
    | DelEv(id: nat, pending: bool, spare: Spare)
    | Fail(id: nat)
    | RegWork(id: nat)
    | Inc
    | Dec
    | Stop

  function Get(s: Loop, id: nat): Ev {
    if id in s.events then s.events[id] else NewEv(-1, false, false)
  }

  function Put(s: Loop, id: nat, e: Ev): Loop {
    s.(events := s.events[id := e])
  }

  function One(b: bool): int {
    if b then 1 else 0
  }

  // ----- the lists; push_back writes to the last event of the list

  predicate DeadTail(s: Loop, list: seq<nat>) {
    list != [] && list[|list| - 1] !in s.events
  }

  function PushWork(s: Loop, id: nat): Loop {
    if id in s.work then s
    else if DeadTail(s, s.work) then s.(fate := Freed(InWork))
    else s.(work := s.work + [id])
  }

  function PushDel(s: Loop, id: nat): Loop {
    if id in s.del then s
    else if DeadTail(s, s.del) then s.(fate := Freed(InDel))
    else s.(del := s.del + [id])
  }

  function PushOut(s: Loop, id: nat): Loop {
    if id in s.waitOut then s
    else if DeadTail(s, s.waitOut) then s.(fate := Freed(InWaitOut))
    else s.(waitOut := s.waitOut + [id])
  }

  // ----- events come and go

  /** Taking an event off the loop needs epoll to know its descriptor: otherwise the program aborts. */
  predicate Unknown(e: Ev) {
    e.fd > 2 && e.looped && !e.registered
  }

  /** The destructor, with rem_event_obj. Descriptors of at most 2 stay open, and stay with epoll. */
  function Destroy(s: Loop, id: nat): (r: Loop)
    requires id in s.events
    ensures r.del == s.del && r.work == s.work && r.waitOut == s.waitOut && r.timer == s.timer
  {
    var e := s.events[id];
    var s' := s.(events := s.events - {id}, gone := s.gone + [Dead(id, e)]);
    if Unknown(e) then s'.(fate := Aborted)
    else if e.fd > 2 && e.looped then s'.(nb := s.nb - One(e.needWait), epoll := s.epoll - {id})
    else s'
  }

  function Install(s: Loop, id: nat, accepted: bool): Loop {
    var e := Get(s, id);
    Put(s, id, e.(looped := true, installed := true, registered := accepted)).(
      nb := s.nb + One(e.needWait), epoll := if accepted then s.epoll + {id} else s.epoll)
  }

  function CheckWaitOut(s: Loop, spare: Spare): Loop {
    if s.timer.Some? then s
    else Install(Put(s, spare.id, NewEv(spare.fd, true, false)), spare.id, true).(timer := Some(spare.id))
  }

  /** The kernel is asked only for events that may have output and are in order. */
  predicate Flushing(s: Loop, id: nat, pending: bool) {
    var e := Get(s, id);
    pending && e.fd >= 0 && !e.hasError && e.mayHaveOut
  }

  function Del(s: Loop, id: nat, pending: bool, spare: Spare): Loop {
    if !Get(s, id).looped then Put(s, id, Get(s, id).(delOnInstall := true))
    else if Flushing(s, id, pending) then
      var s' := PushOut(s, id);
      if s'.fate.Fine? then CheckWaitOut(s', spare) else s'
    else PushDel(s, id)
  }

  function CloseFd(s: Loop, id: nat, sent: bool, pending: bool, spare: Spare): Loop {
    var e := Get(s, id);
    if e.hasError then Del(s, id, pending, spare)
    else if e.wantClose then s
    else
      var s' := Put(s, id, e.(wantClose := true));
      if sent then Del(s', id, pending, spare) else s'
  }

  /** on_rd_hup, on_hup, error: with has_error, the kernel is not asked for pending output. */
  function FailFd(s: Loop, id: nat): Loop {
    CloseFd(Put(s, id, Get(s, id).(hasError := true)), id, true, false, Spare(0, 0))
  }

  /** add_event_obj and __on_rdy, but for what `work` and `on_rdy` themselves do. */
  function AddObj(s: Loop, id: nat, accepted: bool, pending: bool, spare: Spare): Loop {
    if Get(s, id).looped then s
    else
      var s' := Install(s, id, accepted);
      if Get(s', id).delOnInstall then Del(s', id, pending, spare) else s'
  }

  function Do(s: Loop, op: Op): Loop {
    if !s.fate.Fine? then s else
    match op
    case New(id, fd, needWait, mayHaveOut) => Put(s, id, NewEv(fd, needWait, mayHaveOut))
    case Add(id, accepted, pending, spare) => AddObj(s, id, accepted, pending, spare)
    case AddTimeout(id) => Put(s, id, Get(s, id).(looped := true))
    case CloseEv(id, sent, pending, spare) => CloseFd(s, id, sent, pending, spare)
    case DelEv(id, pending, spare) => Del(s, id, pending, spare)
    case Fail(id) => FailFd(s, id)
    case RegWork(id) =>
      if Get(s, id).looped then PushWork(s, id)
      else Put(s, id, Get(s, id).(workOnInstall := true))
    case Inc => s.(nb := s.nb + 1, dns := s.dns + 1)
    case Dec => s.(nb := s.nb - 1, dns := if s.dns > 0 then s.dns - 1 else 0)
    case Stop => s.(cnt := false)
  }

  function DoAll(s: Loop, ops: seq<Op>): Loop
    decreases |ops|
  {
    if ops == [] then s else DoAll(Do(s, ops[0]), ops[1..])
  }

  // ----- the wait-out pass

  function Kept(ids: seq<nat>, unsent: set<nat>): seq<nat> {
    if ids == [] then []
    else (if ids[0] in unsent then [ids[0]] else []) + Kept(ids[1..], unsent)
  }

  /** Walks over the chain taken from the list and deletes the events whose output is out. */
  function Sweep(s: Loop, ids: seq<nat>, unsent: set<nat>): Loop
    decreases |ids|
  {
    if ids == [] || !s.fate.Fine? then s
    else if ids[0] !in s.events then s.(fate := Freed(InWaitOut))
    else Sweep(if ids[0] in unsent then s else Destroy(s, ids[0]), ids[1..], unsent)
  }

  /** WaitOut::timeout. The timer goes with the last event. */
  function WaitPass(s: Loop, unsent: set<nat>): Loop {
    if s.waitOut == [] || s.timer.None? then s
    else
      var s' := Sweep(s.(waitOut := []), s.waitOut, unsent);
      var rest := Kept(s.waitOut, unsent);
      if !s'.fate.Fine? then s'
      else if rest != [] then s'.(waitOut := rest)
      else CloseFd(s'.(timer := None), s.timer.value, true, false, Spare(0, 0))
  }

  // ----- the phases of run

  /**
    One entry of epoll: what `on_out` and `on_inp` do if they are called, and what follows. For the wait-out
    timer, `unsent` are the events that still have output in the kernel.
  */
  datatype Ready = Ready(
    id: nat, out: Option<seq<Op>>, inp: Option<seq<Op>>, rdhup: bool, hup: bool, err: bool,
    sent: bool, pending: bool, spare: Spare, unsent: set<nat>)

  function HandleOut(s: Loop, r: Ready): Loop {
    if r.out.None? then s
    else
      var s' := DoAll(s, r.out.value);
      if s'.fate.Fine? && Get(s', r.id).wantClose && r.sent then Del(s', r.id, r.pending, r.spare) else s'
  }

  predicate Wants(s: Loop, r: Ready) {
    r.inp.Some? && s.fate.Fine? && !Get(s, r.id).wantClose && r.id !in s.del
  }

  function Given(s: Loop, id: nat): Loop {
    s.(inputs := s.inputs + [id])
  }

  function HandleInp(s: Loop, r: Ready): Loop {
    if Wants(s, r) then DoAll(Given(s, r.id), r.inp.value) else s
  }

  function FailIf(s: Loop, r: Ready, fails: bool): Loop {
    if fails && s.fate.Fine? then FailFd(s, r.id) else s
  }

  function HandleEnd(s: Loop, r: Ready): Loop {
    FailIf(FailIf(FailIf(s, r, r.rdhup), r, r.hup), r, r.err)
  }

  /** The wait-out timer has input and nothing else. */
  function Handle(s: Loop, r: Ready): Loop {
    if !s.fate.Fine? then s
    else if r.id !in s.events then s.(fate := Freed(InBatch))
    else if r.id in s.del then s
    else if s.timer == Some(r.id) then
      if Wants(s, r) then WaitPass(Given(s, r.id), r.unsent) else s
    else HandleEnd(HandleInp(HandleOut(s, r), r), r)
  }

  function HandleAll(s: Loop, batch: seq<Ready>): Loop
    decreases |batch|
  {
    if batch == [] then s else HandleAll(Handle(s, batch[0]), batch[1..])
  }

  function Head(works: seq<seq<Op>>): seq<Op> {
    if works == [] then [] else works[0]
  }

  function Tail(works: seq<seq<Op>>): seq<seq<Op>> {
    if works == [] then [] else works[1..]
  }

  /** The first event of the list is worked on. */
  function Popped(s: Loop): Loop
    requires s.work != []
  {
    s.(work := s.work[1..], worked := s.worked + [s.work[0]])
  }

  /** Calls `work` on the listed events, oldest first, those put on the list meanwhile included. */
  function WorkPhase(s: Loop, works: seq<seq<Op>>): Loop
    decreases |works|, |s.work|
  {
    if !s.fate.Fine? || s.work == [] then s
    else if s.work[0] !in s.events then s.(fate := Freed(InWork))
    else WorkPhase(DoAll(Popped(s), Head(works)), Tail(works))
  }

  /** Takes the first event off the deletion list, and deletes it. */
  function DelOne(s: Loop): (r: Loop)
    requires s.del != []
    ensures r.del == s.del[1..]
  {
    var s' := s.(del := s.del[1..]);
    if s.del[0] in s.events then Destroy(s', s.del[0]) else s'.(fate := Freed(InDel))
  }

  function DelPhase(s: Loop): Loop
    decreases |s.del|
  {
    if !s.fate.Fine? || s.del == [] then s else DelPhase(DelOne(s))
  }

  datatype Poll = Broken | Interrupted | Got(batch: seq<Ready>)

  /** One turn of the loop: what the pending work does, and what epoll_wait answers. */
  datatype Turn = Turn(works: seq<seq<Op>>, poll: Poll)

  /** How `run` ends: no event to wait for, `stop`, an error of epoll, a crash, or still in epoll_wait. */
  datatype End = Idle | Asked | Failed | Crashed | Waiting

  function Tidied(s: Loop, works: seq<seq<Op>>): Loop {
    DelPhase(WorkPhase(s, works))
  }

  function Works(turns: seq<Turn>): seq<seq<Op>> {
    if turns == [] then [] else turns[0].works
  }

  function Polled(s: Loop, p: Poll): Loop {
    if p.Got? then HandleAll(s, p.batch) else s
  }

  /** `run`, from the head of its loop. */
  function Turns(s: Loop, turns: seq<Turn>): (Loop, End)
    decreases |turns|
  {
    var s1 := Tidied(s, Works(turns));
    if !s1.fate.Fine? then (s1, Crashed)
    else if s1.nb == 0 then (s1, Idle)
    else if turns == [] then (s1, Waiting)
    else if turns[0].poll.Broken? then (s1, Failed)
    else
      var s2 := Polled(s1, turns[0].poll);
      if !s2.fate.Fine? then (s2, Crashed) else if !s2.cnt then (s2, Asked) else Turns(s2, turns[1..])
  }

  function Run(s: Loop, turns: seq<Turn>): (Loop, End) {
    Turns(s.(cnt := true), turns)
  }

  const FRESH := Loop(map[], 0, 0, [], [], [], None, {}, true, [], [], [], Fine)
}
