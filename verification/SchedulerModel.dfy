/** The scheduler's state and its atomic steps. A step is what happens with interrupts disabled,
    or one run of the scheduling interrupt; between two steps the timer may strike. */
module SchedulerModel {
  import opened Basics
  import opened PriorityList
  import opened Waiters

  const LOWEST_PRIORITY := 64
  const HIGHEST_PRIORITY := 0
  const AGING_TICKS := 25

  datatype ThreadState = Running | Ready | Sleeping | Zombie | Joining | Blocked

  datatype BlockType = SemBlock | MutexBlock | QueueBlock | KeyboardBlock

  /** `awaiting` is the argument of the wait_thread call that the thread is inside of. */
  datatype Thread = Thread(state: ThreadState, blockType: BlockType, priority: nat, initPrio: nat,
                           wakeup: nat, lastSched: nat, joiner: Option<Tid>, parent: Tid,
                           children: Line, awaiting: Option<Tid>)

  /** Waiting lists of synchronization objects are named by numbers; `transit` holds the threads
      taken off such a list by a poster that did not unlock them yet. */
  datatype Kernel = Kernel(threads: map<Tid, Thread>, active: Tid, idle: Tid, init: Option<Tid>,
                           ready: Line, sleeping: Line, zombies: Line, all: Line,
                           lastPid: nat, threadCount: int, waiting: map<nat, Line>, transit: set<Tid>)

  function Get(k: Kernel, t: Tid): Thread {
    if t in k.threads then k.threads[t]
    else Thread(Zombie, SemBlock, 0, 0, 0, 0, None, 0, [], None)
  }

  function Put(k: Kernel, t: Tid, th: Thread): Kernel {
    k.(threads := k.threads[t := th])
  }

  function SetState(k: Kernel, t: Tid, state: ThreadState): Kernel {
    Put(k, t, Get(k, t).(state := state))
  }

  function LineOf(k: Kernel, o: nat): Line {
    if o in k.waiting then k.waiting[o] else []
  }

  /** Everything in the active table goes by the thread's priority. */
  function Enlist(k: Kernel, t: Tid): Kernel {
    SetState(k.(ready := Insert(k.ready, Entry(t, Get(k, t).priority))), t, Ready)
  }

  // ----- select_thread --------------------------------------------------------------------------

  /** The node of a sleeper is enlisted with the low 16 bits of its wake time. */
  function SleepKey(k: Kernel, t: Tid): nat {
    Get(k, t).wakeup % UINT16
  }

  function PutAway(k: Kernel): Kernel {
    match Get(k, k.active).state
    case Running => Enlist(k, k.active)
    case Sleeping => k.(sleeping := Insert(k.sleeping, Entry(k.active, SleepKey(k, k.active))))
    case _ => k
  }

  /** Wakes sleepers from the tail of their table until one is not due. */
  function Wake(k: Kernel, now: nat): Kernel
    decreases |k.sleeping|
  {
    if k.sleeping == [] then k
    else
      var t := k.sleeping[|k.sleeping| - 1].item;
      var rest := k.(sleeping := k.sleeping[..|k.sleeping| - 1]);
      if Get(k, t).wakeup < now then Wake(Enlist(rest, t), now)
      else rest.(sleeping := Insert(rest.sleeping, Entry(t, SleepKey(k, t))))
  }

  /** None stands for the panic that an empty active table would cause. */
  function Elect(k: Kernel): Option<Kernel> {
    if k.ready == [] then None
    else
      var t := k.ready[|k.ready| - 1].item;
      Some(SetState(k.(ready := k.ready[..|k.ready| - 1], active := t), t, Running))
  }

  function Select(k: Kernel, now: nat): Option<Kernel> {
    Elect(Wake(PutAway(k), now))
  }

  // ----- aging ----------------------------------------------------------------------------------

  /** One aging pass over one thread in the active table. */
  function AgeThread(th: Thread): Thread {
    if th.lastSched + 1 >= AGING_TICKS then
      th.(lastSched := 0,
          priority := if th.priority > HIGHEST_PRIORITY then th.priority - 1 else th.priority)
    else th.(lastSched := th.lastSched + 1)
  }

  /** The 16-bit priority of the node follows the thread's when that is lowered. */
  function AgePrio(prio: nat, th: Thread): nat {
    if th.lastSched + 1 >= AGING_TICKS && th.priority > HIGHEST_PRIORITY then (prio + UINT16 - 1) % UINT16 else prio
  }

  predicate Exempt(k: Kernel, t: Tid) {
    t == k.idle || Some(t) == k.init
  }

  /** The aging loop, from node i of the active table on. */
  function AgeFrom(k: Kernel, i: nat): Kernel
    requires i <= |k.ready|
    decreases |k.ready| - i
  {
    if i == |k.ready| then k
    else
      var e := k.ready[i];
      if Exempt(k, e.item) then AgeFrom(k, i + 1)
      else
        AgeFrom(Put(k.(ready := k.ready[i := e.(prio := AgePrio(e.prio, Get(k, e.item)))]),
                    e.item, AgeThread(Get(k, e.item))), i + 1)
  }

  /** What schedule_int does before it selects: the active thread gets its initial priority back
      when its time slice is over, and the threads in the active table age. */
  function Age(k: Kernel, quantum: bool): Kernel {
    if Exempt(k, k.active) then k
    else
      var th := Get(k, k.active);
      var k1 := if quantum then Put(k, k.active, th.(priority := th.initPrio)) else k;
      var k2 := AgeFrom(k1, 0);
      Put(k2, k.active, Get(k2, k.active).(lastSched := 0))
  }

  function Schedule(k: Kernel, quantum: bool, now: nat): Option<Kernel> {
    Select(Age(k, quantum), now)
  }

  // ----- the calls ------------------------------------------------------------------------------

  /** How far the allocations of create_thread get. */
  datatype Granted = AllGranted | SomeGranted | NoneGranted

  function Create(k: Kernel, priority: nat, memory: Granted): Kernel {
    if priority > LOWEST_PRIORITY || memory == NoneGranted then k
    else if memory == SomeGranted then k.(lastPid := k.lastPid + 1)
    else
      var t: Tid := k.lastPid + 1;
      var th := Thread(Ready, SemBlock, priority, priority, 0, 0, None, k.active, [], None);
      var a := Get(k, k.active);
      var k1 := Put(k, k.active, a.(children := Insert(a.children, Entry(t, 0))));
      Put(k1.(lastPid := t, ready := Insert(k.ready, Entry(t, priority)),
              all := Insert(k.all, Entry(t, priority)), threadCount := k.threadCount + 1,
              init := if k.active == k.idle && k.init.None? then Some(t) else k.init),
          t, th)
  }

  /** sleep, up to its call of schedule. */
  function Sleep(k: Kernel, now: nat, ms: nat): Kernel {
    if k.active == k.idle then k
    else Put(k, k.active, Get(k, k.active).(wakeup := (now + ms) % 0x1_0000_0000, state := Sleeping))
  }

  /** lock_thread and the enlisting in the waiting list of object o. */
  function Lock(k: Kernel, o: nat, blockType: BlockType): Kernel {
    if k.active == k.idle then k
    else
      Put(k.(waiting := k.waiting[o := Join(LineOf(k, o), k.active)]),
          k.active, Get(k, k.active).(state := Blocked, blockType := blockType))
  }

  /** A poster takes the next thread off the waiting list of object o. */
  function Delist(k: Kernel, o: nat): Kernel {
    k.(waiting := k.waiting[o := Rest(LineOf(k, o))], transit := k.transit + Added(TailOf(LineOf(k, o))))
  }

  function Unlock(k: Kernel, t: Tid, blockType: BlockType): Kernel {
    if t == k.idle || Get(k, t).state != Blocked || Get(k, t).blockType != blockType then k
    else Enlist(k, t).(transit := k.transit - {t})
  }

  /** init takes its oldest child off its list before it waits for it. */
  function TakeChild(k: Kernel): Kernel {
    var a := Get(k, k.active);
    Put(k, k.active, a.(children := Rest(a.children)))
  }

  /** clean_joined_thread by the active thread. */
  function Clean(k: Kernel, t: Tid): Kernel {
    var a := Get(k, k.active);
    var k1 := Put(k, k.active, a.(children := Removed(a.children, t)));
    k1.(zombies := Removed(k.zombies, t), all := Removed(k.all, t),
        threads := k1.threads - {t}, threadCount := k.threadCount - 1)
  }

  /** wait_thread, up to its call of schedule if it makes one. */
  function Wait(k: Kernel, t: Tid): Kernel {
    if Get(k, t).state == Zombie then Clean(k, t)
    else
      var k1 := Put(k, t, Get(k, t).(joiner := Some(k.active)));
      Put(k1, k.active, Get(k1, k.active).(state := Joining, awaiting := Some(t)))
  }

  /** The rest of wait_thread, after schedule returned. */
  function FinishWait(k: Kernel): Kernel
    requires Get(k, k.active).awaiting.Some?
  {
    var t := Get(k, k.active).awaiting.value;
    Clean(Put(k, k.active, Get(k, k.active).(awaiting := None)), t)
  }

  /** thread_exit, up to its call of schedule. */
  function Exit(k: Kernel): Kernel {
    if Some(k.active) == k.init then SetState(k, k.active, Zombie)
    else
      var j := Get(k, k.active).joiner;
      var k1 := if j.Some? && Get(k, j.value).state == Joining then Enlist(k, j.value) else k;
      SetState(k1.(zombies := Insert(k1.zombies, Entry(k.active, 0))), k.active, Zombie)
  }

  /** The kernel as init_scheduler leaves it: idle runs, and nothing else is there. */
  function Boot(): Kernel {
    Kernel(map[0 := Thread(Running, SemBlock, LOWEST_PRIORITY, LOWEST_PRIORITY, 0, 0, None, 0, [], None)],
           0, 0, None, [], [], [], [Entry(0, LOWEST_PRIORITY)], 0, 1, map[], {})
  }
}
