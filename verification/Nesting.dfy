/** How the kernel's calls nest interrupt-disabled sections, and why the one counter is right for all
    threads: they are switched only when it is 0. */
module Nesting {
  import opened Basics
  import opened Interrupts

  datatype Op = Disable | Enable | Schedule

  /** The paths through a piece of the kernel, as far as the counter and schedule are concerned. */
  datatype Prog =
    | Skip
    | Do(op: Op)
    | Then(first: Prog, second: Prog)
    | Choice(left: Prog, right: Prog)
    | Loop(body: Prog)

  /** The value of the counter after p, when all paths of p from n agree on it and none of them
      overflows the counter or calls schedule above 0. */
  function Effect(p: Prog, n: nat): Option<nat> {
    match p
    case Skip => Some(n)
    case Do(Disable) => if n < UINT32_MAX then Some(n + 1) else None
    case Do(Enable) => Some(Lowered(n))
    case Do(Schedule) => if n == 0 then Some(0) else None
    case Then(a, b) => (match Effect(a, n) case None => None case Some(m) => Effect(b, m))
    case Choice(a, b) => if Effect(a, n) == Effect(b, n) then Effect(a, n) else None
    case Loop(b) => if Effect(b, n) == Some(n) then Some(n) else None
  }

  function Block(ps: seq<Prog>): Prog {
    if ps == [] then Skip else Then(ps[0], Block(ps[1..]))
  }

  function Maybe(p: Prog): Prog {
    Choice(Skip, p)
  }

  const OFF := Do(Disable)
  const ON := Do(Enable)
  const RESCHEDULE := Do(Schedule)

  // ----- the calls --------------------------------------------------------------------------------

  /** The three ways out: the size is too large, no class has a chunk, a chunk was found. */
  function Kmalloc(): Prog {
    Then(OFF, Choice(ON, Choice(ON, ON)))
  }

  function Kfree(): Prog {
    Then(OFF, ON)
  }

  function CreateNode(): Prog {
    Kmalloc()
  }

  function DeleteNode(): Prog {
    Maybe(Kfree())
  }

  function CreateList(): Prog {
    Kmalloc()
  }

  function DeleteList(): Prog {
    Maybe(Kfree())
  }

  /** Any of the three enlistings may be answered with an error. */
  function UndoCreation(): Prog {
    Block([DeleteList(), DeleteNode(), DeleteNode(), DeleteNode(), Kfree(), ON])
  }

  /** The two nodes after the list of children, each of which may be refused. */
  function CreateLastNode(): Prog {
    Block([CreateNode(), Choice(Block([DeleteList(), DeleteNode(), DeleteNode(), Kfree(), ON]),
                                Choice(UndoCreation(), Choice(UndoCreation(), Choice(UndoCreation(), ON))))])
  }

  function CreateSecondNode(): Prog {
    Block([CreateNode(), Choice(Block([DeleteList(), DeleteNode(), Kfree(), ON]), CreateLastNode())])
  }

  function CreateThread(): Prog {
    Choice(Skip, Block([OFF, Kmalloc(), CreateNode(),
      Choice(Block([Maybe(Kfree()), ON]),
             Block([CreateList(), Choice(Block([DeleteNode(), Kfree(), ON]), CreateSecondNode())]))]))
  }

  function CleanJoinedThread(): Prog {
    Block([DeleteNode(), DeleteNode(), DeleteNode(), Kfree()])
  }

  /** No thread; a dead one; one that exited; one that is still to exit. */
  function WaitThread(): Prog {
    Choice(Skip, Then(OFF, Choice(ON, Choice(Then(CleanJoinedThread(), ON),
      Block([ON, RESCHEDULE, OFF, CleanJoinedThread(), ON])))))
  }

  function Sleep(): Prog {
    Choice(Skip, RESCHEDULE)
  }

  function LockThread(): Prog {
    Choice(Skip, Then(OFF, ON))
  }

  function UnlockThread(doSchedule: bool): Prog {
    Choice(Skip, Block([OFF, ON, if doSchedule then RESCHEDULE else Skip]))
  }

  /** The loop in which a call waits for its condition, interrupts being off around it. */
  function BlockedLoop(): Prog {
    Loop(Block([LockThread(), ON, RESCHEDULE, OFF]))
  }

  /** sem_pend and mutex_pend: a null pointer, an uninitialized object, one destroyed while the
      thread waited, or the object acquired. */
  function Pend(): Prog {
    Choice(Skip, Then(OFF, Choice(ON, Then(BlockedLoop(), Choice(ON, ON)))))
  }

  /** sem_post, which leaves scheduling alone, and mutex_post, which does not. */
  function Post(doSchedule: bool): Prog {
    Choice(Skip, Then(OFF, Choice(ON, Choice(Then(ON, UnlockThread(doSchedule)), ON))))
  }

  function TryPend(): Prog {
    Choice(Skip, Then(OFF, Choice(ON, Choice(ON, Choice(ON, ON)))))
  }

  function SemDestroy(): Prog {
    Choice(Skip, Then(OFF, Choice(ON, Then(Loop(UnlockThread(false)), ON))))
  }

  function MutexDestroy(): Prog {
    Choice(Skip, Then(OFF, Choice(ON, Block([Loop(UnlockThread(false)), DeleteList(), ON]))))
  }

  /** queue_pend, queue_post, mailbox_pend and mailbox_post. */
  function Transfer(): Prog {
    Choice(Skip, Then(OFF, Choice(ON, Then(BlockedLoop(), Choice(ON, Then(ON, Maybe(UnlockThread(true))))))))
  }

  function QueueDestroy(): Prog {
    Choice(Skip, Then(OFF, Choice(ON, Block([Loop(UnlockThread(false)), Loop(UnlockThread(false)),
      DeleteList(), DeleteList(), Kfree(), ON]))))
  }

  function MailboxDestroy(): Prog {
    Choice(Skip, Then(OFF, Choice(ON, Block([Loop(UnlockThread(false)), Loop(UnlockThread(false)),
      DeleteList(), DeleteList(), ON]))))
  }

  /** sem_init, mutex_init, mailbox_init and queue_init make lists and take memory. */
  function ObjectInit(): Prog {
    Choice(Skip, Then(Maybe(Kmalloc()),
      Choice(Skip, Then(CreateList(), Choice(Skip, Then(CreateList(), Maybe(DeleteList())))))))
  }

  /** init exits without its children; other threads exit after they looked for a joiner. */
  function ThreadExit(): Prog {
    Then(OFF, Choice(Then(ON, RESCHEDULE), Block([DeleteList(), ON, RESCHEDULE])))
  }

  function InitFunc(userMain: Prog): Prog {
    Block([userMain, OFF, Loop(Loop(Block([ON, WaitThread(), DeleteNode(), OFF]))), ON])
  }

  /** Each turn of idle's loop ends by turning interrupts on; one of them turned them off before. */
  function IdleSys(): Prog {
    Block([CreateThread(), ON, Loop(Choice(ON, Then(OFF, ON)))])
  }

  predicate IsCall(p: Prog) {
    p in {Kmalloc(), Kfree(), CreateThread(), WaitThread(), Sleep(), Pend(), Post(false), Post(true),
          TryPend(), SemDestroy(), MutexDestroy(), Transfer(), QueueDestroy(), MailboxDestroy(), ObjectInit()}
  }

  /** What a thread may run: calls of the kernel, in any arrangement. */
  predicate UserProgram(p: Prog)
    decreases p
  {
    IsCall(p)
    || match p
       case Skip => true
       case Do(_) => false
       case Then(a, b) => UserProgram(a) && UserProgram(b)
       case Choice(a, b) => UserProgram(a) && UserProgram(b)
       case Loop(b) => UserProgram(b)
  }

  /** What an interrupt handler may run: the calls that never wait. */
  predicate HandlerProgram(p: Prog)
    decreases p
  {
    p in {Kmalloc(), Kfree(), Post(false), TryPend()}
    || match p
       case Skip => true
       case Do(_) => false
       case Then(a, b) => HandlerProgram(a) && HandlerProgram(b)
       case Choice(a, b) => HandlerProgram(a) && HandlerProgram(b)
       case Loop(b) => HandlerProgram(b)
  }

  // ----- which calls give up the processor ----------------------------------------------------------

  /** Some path through p calls schedule. */
  predicate MaySchedule(p: Prog) {
    match p
    case Skip => false
    case Do(op) => op == Schedule
    case Then(a, b) => MaySchedule(a) || MaySchedule(b)
    case Choice(a, b) => MaySchedule(a) || MaySchedule(b)
    case Loop(b) => MaySchedule(b)
  }

  /** Some path through p does not. */
  predicate MayGoOn(p: Prog) {
    match p
    case Skip => true
    case Do(op) => op != Schedule
    case Then(a, b) => MayGoOn(a) && MayGoOn(b)
    case Choice(a, b) => MayGoOn(a) || MayGoOn(b)
    case Loop(b) => true
  }

  lemma {:induction false} BlockSchedules(ps: seq<Prog>)
    ensures MaySchedule(Block(ps)) <==> exists i :: 0 <= i < |ps| && MaySchedule(ps[i])
    ensures MayGoOn(Block(ps)) <==> forall i :: 0 <= i < |ps| ==> MayGoOn(ps[i])
  {
    if ps != [] {
      BlockSchedules(ps[1..]);
      assert forall i :: 0 < i < |ps| ==> ps[i] == ps[1..][i - 1];
    }
  }

  lemma MemoryNeverSchedules()
    ensures !MaySchedule(Kmalloc()) && !MaySchedule(Kfree()) && !MaySchedule(CreateNode()) && !MaySchedule(CreateList())
    ensures !MaySchedule(DeleteNode()) && !MaySchedule(DeleteList())
    ensures MayGoOn(Kfree()) && MayGoOn(DeleteNode()) && MayGoOn(DeleteList())
  {
  }

  lemma UnlockSchedules()
    ensures MaySchedule(UnlockThread(true)) && MayGoOn(UnlockThread(true)) && !MaySchedule(UnlockThread(false))
  {
    BlockSchedules([OFF, ON, RESCHEDULE]);
    assert [OFF, ON, RESCHEDULE][2] == RESCHEDULE;
    BlockSchedules([OFF, ON, Skip]);
  }

  lemma BlockedSchedules()
    ensures MaySchedule(BlockedLoop()) && MayGoOn(BlockedLoop())
  {
    var turn := [LockThread(), ON, RESCHEDULE, OFF];
    BlockSchedules(turn);
    assert turn[2] == RESCHEDULE;
  }

  lemma WaitSchedules()
    ensures MaySchedule(WaitThread()) && MayGoOn(WaitThread())
  {
    var rest := [ON, RESCHEDULE, OFF, CleanJoinedThread(), ON];
    BlockSchedules(rest);
    assert rest[1] == RESCHEDULE;
  }

  /** thread_exit calls schedule on every path. */
  lemma ExitSchedules()
    ensures MaySchedule(ThreadExit()) && !MayGoOn(ThreadExit())
  {
    var rest := [DeleteList(), ON, RESCHEDULE];
    BlockSchedules(rest);
    assert rest[2] == RESCHEDULE;
  }

  lemma NoneSchedules(ps: seq<Prog>)
    requires forall i :: 0 <= i < |ps| ==> !MaySchedule(ps[i])
    ensures !MaySchedule(Block(ps))
  {
    BlockSchedules(ps);
  }

  lemma ChoiceSchedules(a: Prog, b: Prog)
    ensures MaySchedule(Choice(a, b)) <==> MaySchedule(a) || MaySchedule(b)
    ensures !MaySchedule(Skip) && !MaySchedule(ON) && !MaySchedule(OFF)
  {
  }

  lemma LastNodeNeverSchedules()
    ensures !MaySchedule(CreateLastNode())
  {
    hide MaySchedule, Block, Kfree, DeleteNode, DeleteList, CreateNode;
    MemoryNeverSchedules();
    ChoiceSchedules(UndoCreation(), ON);
    NoneSchedules([DeleteList(), DeleteNode(), DeleteNode(), DeleteNode(), Kfree(), ON]);
    var undo := Block([DeleteList(), DeleteNode(), DeleteNode(), Kfree(), ON]);
    NoneSchedules([DeleteList(), DeleteNode(), DeleteNode(), Kfree(), ON]);
    var enlist := Choice(UndoCreation(), Choice(UndoCreation(), ON));
    ChoiceSchedules(UndoCreation(), Choice(UndoCreation(), ON));
    ChoiceSchedules(UndoCreation(), enlist);
    ChoiceSchedules(undo, Choice(UndoCreation(), enlist));
    NoneSchedules([CreateNode(), Choice(undo, Choice(UndoCreation(), enlist))]);
  }

  lemma SecondNodeNeverSchedules()
    ensures !MaySchedule(CreateSecondNode())
  {
    hide MaySchedule, Block, Kfree, DeleteNode, DeleteList, CreateNode, CreateLastNode;
    MemoryNeverSchedules();
    LastNodeNeverSchedules();
    var undo := Block([DeleteList(), DeleteNode(), Kfree(), ON]);
    ChoiceSchedules(undo, CreateLastNode());
    NoneSchedules([DeleteList(), DeleteNode(), Kfree(), ON]);
    NoneSchedules([CreateNode(), Choice(undo, CreateLastNode())]);
  }

  lemma CreateNeverSchedules()
    ensures !MaySchedule(CreateThread())
  {
    hide MaySchedule, Block, Kfree, Kmalloc, DeleteNode, DeleteList, CreateNode, CreateList, CreateSecondNode;
    MemoryNeverSchedules();
    SecondNodeNeverSchedules();
    var undo := Block([DeleteNode(), Kfree(), ON]);
    ChoiceSchedules(undo, CreateSecondNode());
    NoneSchedules([DeleteNode(), Kfree(), ON]);
    var more := Block([CreateList(), Choice(undo, CreateSecondNode())]);
    NoneSchedules([CreateList(), Choice(undo, CreateSecondNode())]);
    ChoiceSchedules(Skip, Kfree());
    undo := Block([Maybe(Kfree()), ON]);
    NoneSchedules([Maybe(Kfree()), ON]);
    ChoiceSchedules(undo, more);
    NoneSchedules([OFF, Kmalloc(), CreateNode(), Choice(undo, more)]);
    ChoiceSchedules(Skip, Block([OFF, Kmalloc(), CreateNode(), Choice(undo, more)]));
  }

  lemma DestroyNeverSchedules()
    ensures !MaySchedule(SemDestroy()) && !MaySchedule(MutexDestroy())
    ensures !MaySchedule(QueueDestroy()) && !MaySchedule(MailboxDestroy())
  {
    hide Kfree, DeleteList, UnlockThread;
    MemoryNeverSchedules();
    UnlockSchedules();
    BlockSchedules([Loop(UnlockThread(false)), DeleteList(), ON]);
    BlockSchedules([Loop(UnlockThread(false)), Loop(UnlockThread(false)), DeleteList(), DeleteList(), Kfree(), ON]);
    BlockSchedules([Loop(UnlockThread(false)), Loop(UnlockThread(false)), DeleteList(), DeleteList(), ON]);
  }

  /** The calls that may give up the processor are exactly those that wait, sleep, or hand an element or
      a mutex over; each of them may also go on without. */
  lemma WhoSchedules(p: Prog)
    requires IsCall(p)
    ensures MaySchedule(p) <==> p in {WaitThread(), Sleep(), Pend(), Post(true), Transfer()}
    ensures MaySchedule(p) ==> MayGoOn(p)
  {
    MemoryNeverSchedules();
    UnlockSchedules();
    BlockedSchedules();
    WaitSchedules();
    CreateNeverSchedules();
    DestroyNeverSchedules();
    hide BlockedLoop, UnlockThread, WaitThread, CreateThread, SemDestroy, MutexDestroy, QueueDestroy, MailboxDestroy;
  }

  /** Some path through p does nothing. */
  predicate MayBeSilent(p: Prog) {
    match p
    case Skip => true
    case Do(_) => false
    case Then(a, b) => MayBeSilent(a) && MayBeSilent(b)
    case Choice(a, b) => MayBeSilent(a) || MayBeSilent(b)
    case Loop(_) => true
  }

  /** The last thing that some path through p does is to call schedule. */
  predicate MayEndScheduling(p: Prog) {
    match p
    case Skip => false
    case Do(op) => op == Schedule
    case Then(a, b) => MayEndScheduling(b) || (MayBeSilent(b) && MayEndScheduling(a))
    case Choice(a, b) => MayEndScheduling(a) || MayEndScheduling(b)
    case Loop(b) => MayEndScheduling(b)
  }

  lemma UnlockEnds()
    ensures MayEndScheduling(UnlockThread(true)) && !MayEndScheduling(UnlockThread(false))
    ensures MayBeSilent(UnlockThread(true)) && MayBeSilent(UnlockThread(false))
  {
    BlockOfThree(RESCHEDULE);
    BlockOfThree(Skip);
  }

  lemma BlockOfThree(p: Prog)
    ensures Block([OFF, ON, p]) == Then(OFF, Then(ON, Then(p, Skip)))
  {
    assert [OFF, ON, p][1..] == [ON, p] && [ON, p][1..] == [p] && [p][1..] == [];
    assert Block([p]) == Then(p, Block([]));
  }

  lemma ThenEnds(a: Prog, b: Prog)
    ensures MayEndScheduling(Then(a, b)) <==> MayEndScheduling(b) || (MayBeSilent(b) && MayEndScheduling(a))
    ensures MayBeSilent(Then(a, b)) <==> MayBeSilent(a) && MayBeSilent(b)
  {
  }

  lemma ChoiceEnds(a: Prog, b: Prog)
    ensures MayEndScheduling(Choice(a, b)) <==> MayEndScheduling(a) || MayEndScheduling(b)
    ensures MayBeSilent(Choice(a, b)) <==> MayBeSilent(a) || MayBeSilent(b)
    ensures !MayEndScheduling(Skip) && !MayEndScheduling(ON) && !MayBeSilent(ON) && MayEndScheduling(RESCHEDULE)
  {
  }

  /** A call that is refused at once, or goes on with p while interrupts are off. */
  lemma GuardedEnds(p: Prog)
    requires !MayBeSilent(p)
    ensures MayEndScheduling(Choice(Skip, Then(OFF, Choice(ON, p)))) <==> MayEndScheduling(p)
  {
    hide MayEndScheduling, MayBeSilent;
    ChoiceEnds(ON, p);
    ThenEnds(OFF, Choice(ON, p));
    ChoiceEnds(Skip, Then(OFF, Choice(ON, p)));
  }

  lemma PostEnds(doSchedule: bool)
    ensures MayEndScheduling(Post(doSchedule)) <==> doSchedule
  {
    hide MayEndScheduling, MayBeSilent, UnlockThread;
    UnlockEnds();
    var wake := Then(ON, UnlockThread(doSchedule));
    ThenEnds(ON, UnlockThread(doSchedule));
    ChoiceEnds(wake, ON);
    GuardedEnds(Choice(wake, ON));
  }

  lemma TransferEnds()
    ensures MayEndScheduling(Transfer())
  {
    hide MayEndScheduling, MayBeSilent, UnlockThread, BlockedLoop;
    UnlockEnds();
    var wake := Maybe(UnlockThread(true));
    ChoiceEnds(Skip, UnlockThread(true));
    ThenEnds(ON, wake);
    ChoiceEnds(ON, Then(ON, wake));
    ThenEnds(BlockedLoop(), Choice(ON, Then(ON, wake)));
    GuardedEnds(Then(BlockedLoop(), Choice(ON, Then(ON, wake))));
  }

  /** Whoever wakes a thread through mutex_post, a queue or a mailbox may schedule as the last thing that it
      does; sem_post, and the calls that only wait, return instead. */
  lemma WakersEndScheduling()
    ensures MayEndScheduling(Post(true)) && MayEndScheduling(Transfer()) && MayEndScheduling(Sleep())
    ensures !MayEndScheduling(Post(false)) && !MayEndScheduling(Pend())
  {
    hide MayEndScheduling, MayBeSilent, UnlockThread, BlockedLoop, Transfer, Post;
    PostEnds(true);
    PostEnds(false);
    TransferEnds();
    ChoiceEnds(Skip, RESCHEDULE);
    ChoiceEnds(ON, ON);
    ThenEnds(BlockedLoop(), Choice(ON, ON));
    GuardedEnds(Then(BlockedLoop(), Choice(ON, ON)));
  }

  // ----- every call returns where it started ------------------------------------------------------

  const DEEP := UINT32_MAX - 8

  /** p leads from n to m on every path. */
  predicate Leads(p: Prog, n: nat, m: nat) {
    Effect(p, n) == Some(m)
  }

  lemma {:induction false} BlockLeads(ps: seq<Prog>, at: seq<nat>)
    requires |at| == |ps| + 1 && forall i :: 0 <= i < |ps| ==> Leads(ps[i], at[i], at[i + 1])
    ensures Leads(Block(ps), at[0], at[|ps|])
  {
    if ps != [] {
      assert Leads(ps[0], at[0], at[1]);
      BlockLeads(ps[1..], at[1..]);
    }
  }

  lemma ThenLeads(a: Prog, b: Prog, n: nat, m: nat, k: nat)
    requires Leads(a, n, m) && Leads(b, m, k)
    ensures Leads(Then(a, b), n, k)
  {
  }

  lemma ChoiceLeads(a: Prog, b: Prog, n: nat, m: nat)
    requires Leads(a, n, m) && Leads(b, n, m)
    ensures Leads(Choice(a, b), n, m) && Leads(Skip, n, n)
  {
  }

  lemma LoopLeads(b: Prog, n: nat)
    requires Leads(b, n, n)
    ensures Leads(Loop(b), n, n)
  {
  }

  lemma OpsLead(n: nat)
    requires n < UINT32_MAX
    ensures Leads(Skip, n, n) && Leads(OFF, n, n + 1) && Leads(ON, n + 1, n) && Leads(RESCHEDULE, 0, 0)
  {
  }

  /** Memory calls may be made at any depth. */
  lemma MemoryLeads(n: nat)
    requires n <= DEEP
    ensures Leads(Kmalloc(), n, n) && Leads(Kfree(), n, n) && Leads(Maybe(Kfree()), n, n)
  {
    hide Leads;
    OpsLead(n);
    ChoiceLeads(ON, ON, n + 1, n);
    ChoiceLeads(ON, Choice(ON, ON), n + 1, n);
    ThenLeads(OFF, Choice(ON, Choice(ON, ON)), n, n + 1, n);
    ThenLeads(OFF, ON, n, n + 1, n);
    ChoiceLeads(Skip, Kfree(), n, n);
  }

  lemma LockLeads(n: nat)
    requires n <= DEEP
    ensures Leads(LockThread(), n, n) && Leads(UnlockThread(false), n, n)
    ensures Leads(UnlockThread(true), 0, 0)
  {
    hide Leads;
    OpsLead(n);
    OpsLead(0);
    ThenLeads(OFF, ON, n, n + 1, n);
    ChoiceLeads(Skip, Then(OFF, ON), n, n);
    BlockLeads([OFF, ON, Skip], [n, n + 1, n, n]);
    ChoiceLeads(Skip, Block([OFF, ON, Skip]), n, n);
    BlockLeads([OFF, ON, RESCHEDULE], [0, 1, 0, 0]);
    ChoiceLeads(Skip, Block([OFF, ON, RESCHEDULE]), 0, 0);
  }

  lemma LaterNodesLead()
    ensures Leads(CreateSecondNode(), 1, 0)
  {
    hide Leads;
    OpsLead(0);
    MemoryLeads(1);
    BlockLeads([DeleteList(), DeleteNode(), DeleteNode(), DeleteNode(), Kfree(), ON], [1, 1, 1, 1, 1, 1, 0]);
    ChoiceLeads(UndoCreation(), ON, 1, 0);
    ChoiceLeads(UndoCreation(), Choice(UndoCreation(), ON), 1, 0);
    var enlist := Choice(UndoCreation(), Choice(UndoCreation(), Choice(UndoCreation(), ON)));
    ChoiceLeads(UndoCreation(), enlist.right, 1, 0);
    var undo := Block([DeleteList(), DeleteNode(), DeleteNode(), Kfree(), ON]);
    BlockLeads([DeleteList(), DeleteNode(), DeleteNode(), Kfree(), ON], [1, 1, 1, 1, 1, 0]);
    ChoiceLeads(undo, enlist, 1, 0);
    BlockLeads([CreateNode(), Choice(undo, enlist)], [1, 1, 0]);
    undo := Block([DeleteList(), DeleteNode(), Kfree(), ON]);
    BlockLeads([DeleteList(), DeleteNode(), Kfree(), ON], [1, 1, 1, 1, 0]);
    ChoiceLeads(undo, CreateLastNode(), 1, 0);
    BlockLeads([CreateNode(), Choice(undo, CreateLastNode())], [1, 1, 0]);
  }

  lemma CreateLeads()
    ensures Leads(CreateThread(), 0, 0)
  {
    hide Leads;
    OpsLead(0);
    MemoryLeads(1);
    LaterNodesLead();
    var undo := Block([DeleteNode(), Kfree(), ON]);
    BlockLeads([DeleteNode(), Kfree(), ON], [1, 1, 1, 0]);
    ChoiceLeads(undo, CreateSecondNode(), 1, 0);
    var more := Block([CreateList(), Choice(undo, CreateSecondNode())]);
    BlockLeads([CreateList(), Choice(undo, CreateSecondNode())], [1, 1, 0]);
    undo := Block([Maybe(Kfree()), ON]);
    BlockLeads([Maybe(Kfree()), ON], [1, 1, 0]);
    ChoiceLeads(undo, more, 1, 0);
    BlockLeads([OFF, Kmalloc(), CreateNode(), Choice(undo, more)], [0, 1, 1, 1, 0]);
    ChoiceLeads(Skip, Block([OFF, Kmalloc(), CreateNode(), Choice(undo, more)]), 0, 0);
  }

  /** A call that may end at once, or go on with interrupts off and end in one of two ways. */
  lemma GuardedLeads(p: Prog)
    requires Leads(p, 1, 0)
    ensures Leads(Choice(Skip, Then(OFF, Choice(ON, p))), 0, 0)
  {
    hide Leads;
    OpsLead(0);
    ChoiceLeads(ON, p, 1, 0);
    ThenLeads(OFF, Choice(ON, p), 0, 1, 0);
    ChoiceLeads(Skip, Then(OFF, Choice(ON, p)), 0, 0);
  }

  lemma WaitLeads()
    ensures Leads(WaitThread(), 0, 0) && Leads(Sleep(), 0, 0) && Leads(ThreadExit(), 0, 0)
  {
    hide Leads;
    OpsLead(0);
    MemoryLeads(1);
    BlockLeads([DeleteNode(), DeleteNode(), DeleteNode(), Kfree()], [1, 1, 1, 1, 1]);
    ThenLeads(CleanJoinedThread(), ON, 1, 1, 0);
    BlockLeads([ON, RESCHEDULE, OFF, CleanJoinedThread(), ON], [1, 0, 0, 1, 1, 0]);
    ChoiceLeads(Then(CleanJoinedThread(), ON), Block([ON, RESCHEDULE, OFF, CleanJoinedThread(), ON]), 1, 0);
    GuardedLeads(Choice(Then(CleanJoinedThread(), ON), Block([ON, RESCHEDULE, OFF, CleanJoinedThread(), ON])));
    ChoiceLeads(Skip, RESCHEDULE, 0, 0);
    ThenLeads(ON, RESCHEDULE, 1, 0, 0);
    BlockLeads([DeleteList(), ON, RESCHEDULE], [1, 1, 0, 0]);
    ChoiceLeads(Then(ON, RESCHEDULE), Block([DeleteList(), ON, RESCHEDULE]), 1, 0);
    ThenLeads(OFF, Choice(Then(ON, RESCHEDULE), Block([DeleteList(), ON, RESCHEDULE])), 0, 1, 0);
  }

  lemma PendLeads()
    ensures Leads(Pend(), 0, 0) && Leads(Transfer(), 0, 0) && Leads(TryPend(), 0, 0)
  {
    hide Leads;
    OpsLead(0);
    LockLeads(1);
    BlockLeads([LockThread(), ON, RESCHEDULE, OFF], [1, 1, 0, 0, 1]);
    LoopLeads(Block([LockThread(), ON, RESCHEDULE, OFF]), 1);
    ChoiceLeads(ON, ON, 1, 0);
    ThenLeads(BlockedLoop(), Choice(ON, ON), 1, 1, 0);
    GuardedLeads(Then(BlockedLoop(), Choice(ON, ON)));
    ChoiceLeads(Skip, UnlockThread(true), 0, 0);
    ThenLeads(ON, Maybe(UnlockThread(true)), 1, 0, 0);
    ChoiceLeads(ON, Then(ON, Maybe(UnlockThread(true))), 1, 0);
    ThenLeads(BlockedLoop(), Choice(ON, Then(ON, Maybe(UnlockThread(true)))), 1, 1, 0);
    GuardedLeads(Then(BlockedLoop(), Choice(ON, Then(ON, Maybe(UnlockThread(true))))));
    ChoiceLeads(ON, Choice(ON, ON), 1, 0);
    GuardedLeads(Choice(ON, Choice(ON, ON)));
  }

  lemma PostLeads(doSchedule: bool)
    ensures Leads(Post(doSchedule), 0, 0)
  {
    hide Leads;
    OpsLead(0);
    LockLeads(0);
    ThenLeads(ON, UnlockThread(doSchedule), 1, 0, 0);
    ChoiceLeads(Then(ON, UnlockThread(doSchedule)), ON, 1, 0);
    GuardedLeads(Choice(Then(ON, UnlockThread(doSchedule)), ON));
  }

  lemma DestroyLeads()
    ensures Leads(SemDestroy(), 0, 0) && Leads(MutexDestroy(), 0, 0)
    ensures Leads(QueueDestroy(), 0, 0) && Leads(MailboxDestroy(), 0, 0)
  {
    hide Leads;
    OpsLead(0);
    LockLeads(1);
    MemoryLeads(1);
    var wake := Loop(UnlockThread(false));
    LoopLeads(UnlockThread(false), 1);
    ThenLeads(wake, ON, 1, 1, 0);
    GuardedLeads(Then(wake, ON));
    BlockLeads([wake, DeleteList(), ON], [1, 1, 1, 0]);
    GuardedLeads(Block([wake, DeleteList(), ON]));
    BlockLeads([wake, wake, DeleteList(), DeleteList(), Kfree(), ON], [1, 1, 1, 1, 1, 1, 0]);
    GuardedLeads(Block([wake, wake, DeleteList(), DeleteList(), Kfree(), ON]));
    BlockLeads([wake, wake, DeleteList(), DeleteList(), ON], [1, 1, 1, 1, 1, 0]);
    GuardedLeads(Block([wake, wake, DeleteList(), DeleteList(), ON]));
  }

  lemma InitLeads()
    ensures Leads(ObjectInit(), 0, 0)
  {
    hide Leads;
    OpsLead(0);
    MemoryLeads(0);
    ChoiceLeads(Skip, Kmalloc(), 0, 0);
    ChoiceLeads(Skip, DeleteList(), 0, 0);
    ThenLeads(CreateList(), Maybe(DeleteList()), 0, 0, 0);
    ChoiceLeads(Skip, Then(CreateList(), Maybe(DeleteList())), 0, 0);
    ThenLeads(CreateList(), Maybe(Then(CreateList(), Maybe(DeleteList()))), 0, 0, 0);
    ChoiceLeads(Skip, Then(CreateList(), Maybe(Then(CreateList(), Maybe(DeleteList())))), 0, 0);
    ThenLeads(Maybe(Kmalloc()), Maybe(Then(CreateList(), Maybe(Then(CreateList(), Maybe(DeleteList()))))), 0, 0, 0);
    ChoiceLeads(Skip, ObjectInit().right, 0, 0);
  }

  /** Entered at nesting 0, every call reaches schedule only at 0 and returns at 0, on every path. */
  lemma CallsReturnAtZero(p: Prog)
    requires IsCall(p)
    ensures Leads(p, 0, 0)
  {
    hide Leads;
    MemoryLeads(0);
    CreateLeads();
    WaitLeads();
    PendLeads();
    PostLeads(false);
    PostLeads(true);
    DestroyLeads();
    InitLeads();
  }

  lemma {:induction false} UserLeads(p: Prog)
    requires UserProgram(p)
    ensures Leads(p, 0, 0)
    decreases p
  {
    hide IsCall;
    if IsCall(p) {
      CallsReturnAtZero(p);
    } else {
      match p {
        case Skip =>
        case Then(a, b) => UserLeads(a); UserLeads(b);
        case Choice(a, b) => UserLeads(a); UserLeads(b);
        case Loop(b) => UserLeads(b);
      }
    }
  }

  lemma {:induction false} HandlerLeads(p: Prog)
    requires HandlerProgram(p)
    ensures Leads(p, 0, 0)
    decreases p
  {
    if p in {Kmalloc(), Kfree(), Post(false), TryPend()} {
      CallsReturnAtZero(p);
    } else {
      match p {
        case Skip =>
        case Then(a, b) => HandlerLeads(a); HandlerLeads(b);
        case Choice(a, b) => HandlerLeads(a); HandlerLeads(b);
        case Loop(b) => HandlerLeads(b);
      }
    }
  }

  lemma SystemThreadsLead(userMain: Prog)
    requires UserProgram(userMain)
    ensures Leads(InitFunc(userMain), 0, 0) && Leads(IdleSys(), 0, 0)
  {
    UserLeads(userMain);
    CreateLeads();
    WaitLeads();
    MemoryLeads(0);
    OpsLead(0);
    hide Leads;
    var join := Block([ON, WaitThread(), DeleteNode(), OFF]);
    BlockLeads([ON, WaitThread(), DeleteNode(), OFF], [1, 0, 0, 0, 1]);
    LoopLeads(join, 1);
    LoopLeads(Loop(join), 1);
    BlockLeads([userMain, OFF, Loop(Loop(join)), ON], [0, 0, 1, 1, 0]);
    OnLeads();
    ThenLeads(OFF, ON, 0, 1, 0);
    ChoiceLeads(ON, Then(OFF, ON), 0, 0);
    LoopLeads(Choice(ON, Then(OFF, ON)), 0);
    BlockLeads([CreateThread(), ON, Loop(Choice(ON, Then(OFF, ON)))], [0, 0, 0, 0]);
  }

  /** Turning interrupts on when they are on does nothing. */
  lemma OnLeads()
    ensures Leads(ON, 0, 0)
  {
  }

  // ----- all interleavings ------------------------------------------------------------------------

  /** What a thread still has to do, and what its own operations make of the counter. */
  datatype Thread = Thread(todo: seq<Prog>, depth: nat)

  datatype Machine = Machine(threads: map<Tid, Thread>, active: Tid, nesting: nat, panicked: bool)

  /** The active thread goes on, taking one of two branches where there are two, and being replaced
      by thread `to` if it schedules; the timer strikes; another device does; a thread is added. */
  datatype Event =
    | Execute(branch: bool, to: Tid)
    | Tick(line: nat, to: Tid)
    | Device(line: nat, handler: Prog)
    | Spawn(t: Tid, body: Prog)

  predicate HardwareLine(line: nat) {
    MIN_LINE <= line <= MAX_LINE && line != SCHEDULER_LINE && line != PANIC_LINE
  }

  ghost predicate Possible(m: Machine, e: Event) {
    match e
    case Execute(_, to) => m.active in m.threads && to in m.threads
    case Tick(line, to) => to in m.threads && HardwareLine(line)
    case Device(line, handler) => m.active in m.threads && HardwareLine(line) && HandlerProgram(handler)
    case Spawn(t, body) => t !in m.threads && ThreadBody(body)
  }

  ghost predicate ThreadBody(body: Prog) {
    UserProgram(body) || exists p :: UserProgram(p) && body == InitFunc(p)
  }

  function SetActive(m: Machine, th: Thread): Machine {
    m.(threads := m.threads[m.active := th])
  }

  /** schedule raises its interrupt whatever the counter is; the handler panics unless it is 0. */
  function DoOp(m: Machine, th: Thread, op: Op, to: Tid): Machine {
    match op
    case Disable => SetActive(m, th.(depth := Raised(th.depth))).(nesting := Raised(m.nesting))
    case Enable => SetActive(m, th.(depth := Lowered(th.depth))).(nesting := Lowered(m.nesting))
    case Schedule =>
      if Blocks(m.nesting, SCHEDULER_LINE) then SetActive(m, th)
      else if m.nesting != 0 then SetActive(m, th).(panicked := true)
      else SetActive(m, th).(active := to)
  }

  function Continue(m: Machine, th: Thread, branch: bool, to: Tid): Machine {
    if th.todo == [] then m
    else
      var rest := th.todo[1..];
      match th.todo[0]
      case Skip => SetActive(m, th.(todo := rest))
      case Then(a, b) => SetActive(m, th.(todo := [a, b] + rest))
      case Choice(a, b) => SetActive(m, th.(todo := [if branch then a else b] + rest))
      case Loop(b) => SetActive(m, th.(todo := (if branch then [b] + th.todo else rest)))
      case Do(op) => DoOp(m, th.(todo := rest), op, to)
  }

  /** Handlers run on the stack of the thread that they interrupt. */
  function React(m: Machine, e: Event): Machine
    requires Possible(m, e)
  {
    if m.panicked then m
    else
      match e
      case Execute(branch, to) => Continue(m, m.threads[m.active], branch, to)
      case Tick(line, to) =>
        if Blocks(m.nesting, line) then m
        else if m.nesting != 0 then m.(panicked := true)
        else m.(active := to)
      case Device(line, handler) =>
        if Blocks(m.nesting, line) then m
        else
          var th := m.threads[m.active];
          SetActive(m, th.(todo := [handler] + th.todo))
      case Spawn(t, body) => m.(threads := m.threads[t := Thread([body, ThreadExit()], 0)])
  }

  /** The boot code runs with interrupts off until init_scheduler turns them on and idle takes over. */
  function Start(): Machine {
    Machine(map[0 := Thread([ON, RESCHEDULE, IdleSys()], 1)], 0, 1, false)
  }

  ghost predicate Run(m: Machine, events: seq<Event>, r: Machine)
    decreases |events|
  {
    if events == [] then r == m
    else Possible(m, events[0]) && Run(React(m, events[0]), events[1..], r)
  }

  predicate AllLead(todo: seq<Prog>, n: nat)
    decreases |todo|
  {
    if todo == [] then n == 0
    else Effect(todo[0], n).Some? && AllLead(todo[1..], Effect(todo[0], n).value)
  }

  /** The counter is what the active thread's own operations made of it, and every other thread left
      it at 0; nobody can call schedule above 0, or end above 0. */
  ghost predicate Safe(m: Machine) {
    && !m.panicked && m.active in m.threads && m.nesting == m.threads[m.active].depth
    && (forall t :: t in m.threads ==> AllLead(m.threads[t].todo, m.threads[t].depth))
    && (forall t :: t in m.threads && t != m.active ==> m.threads[t].depth == 0)
  }

  lemma LeadOn(p: Prog, todo: seq<Prog>, n: nat, m: nat)
    requires Leads(p, n, m) && AllLead(todo, m)
    ensures AllLead([p] + todo, n)
  {
    assert ([p] + todo)[1..] == todo;
  }

  /** One step of the active thread leaves a program that still ends at 0. */
  lemma UnfoldLeads(todo: seq<Prog>, n: nat, branch: bool)
    requires todo != [] && AllLead(todo, n)
    ensures match todo[0]
      case Skip => AllLead(todo[1..], n)
      case Then(a, b) => AllLead([a, b] + todo[1..], n)
      case Choice(a, b) => AllLead([if branch then a else b] + todo[1..], n)
      case Loop(b) => AllLead(if branch then [b] + todo else todo[1..], n)
      case Do(op) => Effect(Do(op), n).Some? && AllLead(todo[1..], Effect(Do(op), n).value)
  {
    var rest := todo[1..];
    match todo[0] {
      case Then(a, b) =>
        var k := Effect(a, n).value;
        LeadOn(b, rest, k, Effect(b, k).value);
        LeadOn(a, [b] + rest, n, k);
        assert [a] + ([b] + rest) == [a, b] + rest;
      case Choice(a, b) =>
        LeadOn(if branch then a else b, rest, n, Effect(a, n).value);
      case Loop(b) =>
        if branch { LeadOn(b, todo, n, n); }
      case _ =>
    }
  }

  lemma ContinueKeeps(m: Machine, branch: bool, to: Tid)
    requires Safe(m) && to in m.threads
    ensures Safe(Continue(m, m.threads[m.active], branch, to))
  {
    var th := m.threads[m.active];
    if th.todo != [] {
      UnfoldLeads(th.todo, th.depth, branch);
      hide AllLead;
    }
  }

  lemma SpawnLeads(body: Prog)
    requires ThreadBody(body)
    ensures AllLead([body, ThreadExit()], 0)
  {
    if UserProgram(body) {
      UserLeads(body);
    } else {
      var p :| UserProgram(p) && body == InitFunc(p);
      SystemThreadsLead(p);
    }
    WaitLeads();
    hide ThreadExit, UserProgram;
    assert AllLead([], 0);
    LeadOn(ThreadExit(), [], 0, 0);
    LeadOn(body, [ThreadExit()], 0, 0);
    assert [body] + [ThreadExit()] == [body, ThreadExit()];
  }

  lemma ReactKeeps(m: Machine, e: Event)
    requires Safe(m) && Possible(m, e)
    ensures Safe(React(m, e))
  {
    hide AllLead, ThreadBody, HandlerProgram;
    match e {
      case Execute(branch, to) => ContinueKeeps(m, branch, to);
      case Tick(line, to) =>
      case Device(line, handler) =>
        if m.nesting == 0 {
          HandlerLeads(handler);
          LeadOn(handler, m.threads[m.active].todo, 0, 0);
        }
      case Spawn(t, body) => SpawnLeads(body);
    }
  }

  lemma StartSafe()
    ensures Safe(Start())
  {
    assert UserProgram(Skip);
    SystemThreadsLead(Skip);
    OpsLead(0);
    hide IdleSys;
    assert AllLead([], 0);
    LeadOn(IdleSys(), [], 0, 0);
    LeadOn(RESCHEDULE, [IdleSys()], 0, 0);
    LeadOn(ON, [RESCHEDULE] + [IdleSys()], 1, 0);
    assert [ON] + ([RESCHEDULE] + [IdleSys()]) == [ON, RESCHEDULE, IdleSys()];
  }

  lemma {:induction false} RunKeeps(m: Machine, events: seq<Event>, r: Machine)
    requires Safe(m) && Run(m, events, r)
    ensures Safe(r)
    decreases |events|
  {
    hide Safe, React;
    if events != [] {
      ReactKeeps(m, events[0]);
      RunKeeps(React(m, events[0]), events[1..], r);
    }
  }

  /** Over every interleaving of any threads that run any calls: the panic for scheduling with
      interrupts off is never reached, the counter is what the active thread made of it, every
      thread that is not active left it at 0, and so did every thread that has nothing left to do. */
  lemma EveryInterleaving(events: seq<Event>, r: Machine)
    requires Run(Start(), events, r)
    ensures !r.panicked && r.active in r.threads && r.nesting == r.threads[r.active].depth
    ensures forall t :: t in r.threads && (t != r.active || r.threads[t].todo == []) ==> r.threads[t].depth == 0
  {
    StartSafe();
    RunKeeps(Start(), events, r);
  }

  /** Called with interrupts off, a call that schedules does panic: the guard is needed. */
  lemma SleepWithInterruptsOff()
    ensures var m := Machine(map[0 := Thread([OFF, Sleep()], 0)], 0, 0, false);
      exists events, r :: Run(m, events, r) && r.panicked
  {
    var m := Machine(map[0 := Thread([OFF, Sleep()], 0)], 0, 0, false);
    var e := Execute(false, 0);
    var m1 := React(m, e);
    assert m1 == Machine(map[0 := Thread([Sleep()], 1)], 0, 1, false);
    var m2 := React(m1, e);
    assert [RESCHEDULE] + [Sleep()][1..] == [RESCHEDULE];
    assert m2 == Machine(map[0 := Thread([RESCHEDULE], 1)], 0, 1, false);
    var m3 := React(m2, e);
    assert m3.panicked;
    assert [e, e, e][1..] == [e, e] && [e, e][1..] == [e] && [e][1..] == [];
    assert Run(m3, [], m3) && Run(m2, [e], m3) && Run(m1, [e, e], m3);
    assert Run(m, [e, e, e], m3);
  }
}
