/** fork, exit, wait and kill on the process table, as a machine whose steps are the accesses to
    shared memory of any number of processes in any interleaving. A section under one process's
    lock that looks at nothing else is one step. Process 0 is init. */
module ExitWait {
  import opened Options

  datatype RunState = Unused | Used | Sleeping | Runnable | Running | Zombie

  /** Where a process is. */
  datatype Pc =
    | Off                       // an unused slot, or a zombie that has switched away for good
    | Born                      // started by fork, waiting for its first turn
    | Run
      // fork: allocproc looks at slot np; fill it in; acquire wait_lock; set parent; release;
      // make it runnable
    | Alloc(np: nat) | Fill(np: nat) | Adopt(np: nat) | SetParent(np: nat) | Adopted(np: nat) | Start(np: nat)
      // exit: acquire wait_lock; reparent at slot k; wakeup(initproc) at j; wakeup(p->parent)
      // at j; acquire p->lock; become a zombie; release wait_lock; switch away
    | Exit | Reparent(k: nat) | Rouse(k: nat, j: nat) | Notify(j: nat) | LockSelf | Die | Leave | Vanish
      // wait: acquire wait_lock; look at slot k; at a child with its lock held; after freeproc
      // release that; release wait_lock
    | Wait | Look(k: nat, kids: bool) | Child(k: nat) | Freed(k: nat) | Return
      // sleep(p, &wait_lock)
    | Lock | LetGo | SetChan | Doze | Switch | Asleep | ClearChan | Unlock | Again
    | Kill(v: nat)

  datatype Proc = Proc(pc: Pc, state: RunState, parent: Option<nat>, chan: Option<nat>, killed: bool,
                       pid: nat, xstate: int, lock: Option<nat>, maker: Option<nat>)

  /** Process `reaper` has been told the exit status of process `pid`. */
  datatype Reap = Reap(pid: nat, status: int, reaper: nat)

  /** The process table, wait_lock (who holds it) and nextpid, and what has happened: the status
      with which each process exited, and what wait has returned. `maker` is the process
      whose fork is at work on a slot. */
  datatype Machine = Machine(procs: seq<Proc>, waitLock: Option<nat>, nextpid: nat,
                             exits: map<nat, int>, reaps: seq<Reap>)

  ghost function Init(n: nat): (m: Machine)
    requires n > 0
  {
    Machine(seq(n, i => if i == 0 then Proc(Run, Running, None, None, false, 1, 0, None, None)
                        else Proc(Off, Unused, None, None, false, 0, 0, None, None)),
            None, 2, map[], [])
  }

  /** A turn of process p: what it begins if it is running, whether an allocation or a copy out
      succeeds, and the status it exits with. */
  datatype Turn = Turn(p: nat, next: Pc, lucky: bool, status: int)

  // ---------- the steps ----------

  predicate MayBegin(next: Pc, p: nat, n: nat) {
    match next
    case Alloc(np) => np == 0
    case Exit => p != 0           // "init exiting"
    case Wait => true
    case Kill(v) => v < n
    case _ => false
  }

  predicate Frees(m: Machine, t: Turn, k: nat) {
    t.p < |m.procs| && k < |m.procs| && m.procs[t.p].pc == Child(k) && m.procs[k].state == Zombie && t.lucky
  }

  ghost function NextPc(m: Machine, t: Turn): (c: Pc)
    requires t.p < |m.procs|
  {
    var n, p := |m.procs|, m.procs[t.p];
    match p.pc
    case Off => Off
    case Born => Run
    case Run => t.next
    case Alloc(np) => if np >= n then Run else if m.procs[np].state == Unused then Fill(np) else Alloc(np + 1)
    case Fill(np) => if t.lucky then Adopt(np) else Run
    case Adopt(np) => SetParent(np)
    case SetParent(np) => Adopted(np)
    case Adopted(np) => Start(np)
    case Start(np) => Run
    case Exit => Reparent(0)
    case Reparent(k) =>
      if k >= n then Notify(0) else if m.procs[k].parent == Some(t.p) then Rouse(k, 0) else Reparent(k + 1)
    case Rouse(k, j) => if j >= n then Reparent(k + 1) else Rouse(k, j + 1)
    case Notify(j) => if j >= n then LockSelf else Notify(j + 1)
    case LockSelf => Die
    case Die => Leave
    case Leave => Vanish
    case Vanish => Off
    case Wait => Look(0, false)
    case Look(k, kids) =>
      if k >= n then (if !kids || p.killed then Return else Lock)
      else if m.procs[k].parent == Some(t.p) then Child(k) else Look(k + 1, kids)
    case Child(k) =>
      if k < n && m.procs[k].state == Zombie then (if t.lucky then Freed(k) else Return) else Look(k + 1, true)
    case Freed(k) => Return
    case Return => Run
    case Lock => LetGo
    case LetGo => SetChan
    case SetChan => Doze
    case Doze => Switch
    case Switch => Asleep
    case Asleep => ClearChan
    case ClearChan => Unlock
    case Unlock => Again
    case Again => Look(0, false)
    case Kill(v) => Run
  }

  /** What a step does to a spin lock; Touch takes it and releases it again. */
  datatype LockOp = NoLock | Take(i: nat) | Drop(i: nat) | Touch(i: nat)

  function WaitOp(c: Pc): (op: LockOp) {
    match c
    case Adopt(np) => Take(0)
    case Exit => Take(0)
    case Wait => Take(0)
    case Again => Take(0)
    case Adopted(np) => Drop(0)
    case Leave => Drop(0)
    case Return => Drop(0)
    case LetGo => Drop(0)
    case _ => NoLock
  }

  ghost function ProcOp(m: Machine, t: Turn): (op: LockOp)
    requires t.p < |m.procs|
  {
    var n := |m.procs|;
    match m.procs[t.p].pc
    case Born => Touch(t.p)
    case Alloc(np) => if np >= n then NoLock else if m.procs[np].state == Unused then Take(np) else Touch(np)
    case Fill(np) => Drop(np)
    case Start(np) => Touch(np)
    case Rouse(k, j) => if j < n && j != t.p then Touch(j) else NoLock
    case Notify(j) => if j < n && j != t.p then Touch(j) else NoLock
    case LockSelf => Take(t.p)
    case Vanish => Drop(t.p)
    case Look(k, kids) => if k < n && m.procs[k].parent == Some(t.p) then Take(k) else NoLock
    case Child(k) => if Frees(m, t, k) then NoLock else Drop(k)
    case Freed(k) => Drop(k)
    case Lock => Take(t.p)
    case Switch => Drop(t.p)
    case Asleep => Take(t.p)
    case Unlock => Drop(t.p)
    case Kill(v) => Touch(v)
    case _ => NoLock
  }

  function Operate(i: nat, held: Option<nat>, op: LockOp, p: nat): (r: Option<nat>) {
    match op
    case NoLock => held
    case Take(j) => if i == j then Some(p) else held
    case Drop(j) => if i == j then None else held
    case Touch(j) => held
  }

  /** p->state */
  ghost function State(m: Machine, t: Turn, q: nat): (r: RunState)
    requires t.p < |m.procs| && q < |m.procs|
  {
    var x, c := m.procs[q], m.procs[t.p].pc;
    if c == Alloc(q) && x.state == Unused then Used
    else if c == Fill(q) && !t.lucky then Unused
    else if c == Start(q) then Runnable
    else if c == Born && q == t.p then Running
    else if c.Rouse? && c.j == q != t.p && x.state == Sleeping && x.chan == Some(0) then Runnable
    else if c == Notify(q) && q != t.p && x.state == Sleeping && x.chan == m.procs[t.p].parent then Runnable
    else if c == Die && q == t.p then Zombie
    else if Frees(m, t, q) then Unused
    else if c == Doze && q == t.p then Sleeping
    else if c == Asleep && q == t.p then Running
    else if c == Kill(q) && x.state == Sleeping then Runnable
    else x.state
  }

  /** p->parent */
  ghost function Parent(m: Machine, t: Turn, q: nat): (r: Option<nat>)
    requires t.p < |m.procs| && q < |m.procs|
  {
    var x, c := m.procs[q], m.procs[t.p].pc;
    if c == SetParent(q) then Some(t.p)
    else if c == Reparent(q) && x.parent == Some(t.p) then Some(0)
    else if Frees(m, t, q) || (c == Fill(q) && !t.lucky) then None
    else x.parent
  }

  /** Everything about process q after the turn. */
  ghost function Next(m: Machine, t: Turn, q: nat): (r: Proc)
    requires t.p < |m.procs| && q < |m.procs|
  {
    var x, c := m.procs[q], m.procs[t.p].pc;
    var cleared := Frees(m, t, q) || (c == Fill(q) && !t.lucky);
    Proc(if q == t.p then NextPc(m, t) else if c == Start(q) then Born else x.pc,
         State(m, t, q),
         Parent(m, t, q),
         if c == SetChan && q == t.p then Some(q) else if (c == ClearChan && q == t.p) || cleared then None else x.chan,
         if c == Kill(q) then true else if cleared then false else x.killed,
         if c == Alloc(q) && x.state == Unused then m.nextpid else if cleared then 0 else x.pid,
         if c == Die && q == t.p then t.status else if cleared then 0 else x.xstate,
         Operate(q, x.lock, ProcOp(m, t), t.p),
         if c == Alloc(q) && x.state == Unused then Some(t.p) else if c == Start(q) || cleared then None else x.maker)
  }

  ghost predicate Available(m: Machine, t: Turn)
    requires t.p < |m.procs|
  {
    && (WaitOp(m.procs[t.p].pc).Take? ==> m.waitLock == None)
    && (match ProcOp(m, t)
        case NoLock => true
        case Take(i) => i < |m.procs| && m.procs[i].lock == None
        case Touch(i) => i < |m.procs| && m.procs[i].lock == None
        case Drop(i) => i < |m.procs|)
  }

  /** A turn waits until the lock it takes is free, and a sleeper to be woken. */
  ghost predicate Ready(m: Machine, t: Turn) {
    && t.p < |m.procs| && Available(m, t) && m.procs[t.p].pc != Off
    && (m.procs[t.p].pc.Run? ==> MayBegin(t.next, t.p, |m.procs|))
    && (m.procs[t.p].pc.Asleep? ==> m.procs[t.p].state == Runnable)
  }

  ghost function Step(m: Machine, t: Turn): (r: Machine)
    requires Ready(m, t)
    ensures |r.procs| == |m.procs|
    ensures forall q: nat {:trigger r.procs[q]} :: q < |m.procs| ==> r.procs[q] == Next(m, t, q)
  {
    var c := m.procs[t.p].pc;
    Machine(seq(|m.procs|, q requires 0 <= q < |m.procs| => Next(m, t, q)),
            Operate(0, m.waitLock, WaitOp(c), t.p),
            if c.Alloc? && c.np < |m.procs| && m.procs[c.np].state == Unused then m.nextpid + 1 else m.nextpid,
            if c == Die then m.exits[m.procs[t.p].pid := t.status] else m.exits,
            if c.Child? && Frees(m, t, c.k) then m.reaps + [Reap(m.procs[c.k].pid, m.procs[c.k].xstate, t.p)]
                  else m.reaps)
  }

  // ---------- the invariant ----------

  predicate HasWait(c: Pc) {
    match c
    case SetParent(np) => true case Adopted(np) => true
    case Reparent(k) => true case Rouse(k, j) => true case Notify(j) => true
    case LockSelf => true case Die => true case Leave => true
    case Look(k, kids) => true case Child(k) => true case Freed(k) => true case Return => true
    case Lock => true case LetGo => true
    case _ => false
  }

  /** The pcs at which process p holds the lock of process k. */
  predicate HasProc(c: Pc, p: nat, k: nat) {
    match c
    case Fill(np) => k == np
    case Die => k == p case Leave => k == p case Vanish => k == p
    case Child(j) => k == j case Freed(j) => k == j
    case LetGo => k == p case SetChan => k == p case Doze => k == p case Switch => k == p
    case ClearChan => k == p case Unlock => k == p
    case _ => false
  }

  predicate StateOk(c: Pc, p: nat, s: RunState, h: Option<nat>) {
    match c
    case Off => (s == Unused || s == Used || s == Zombie) && h == None
    case Born => s == Runnable && h == None
    case Leave => s == Zombie && h == None
    case Vanish => s == Zombie && h == None
    case Doze => s == Running && h == Some(p)
    case Switch => s == Sleeping && h == Some(p)
    case Asleep => (s == Sleeping || s == Runnable) && h == Some(p)
    case ClearChan => s == Running && h == Some(p)
    case _ => s == Running && h == None
  }

  /** Process p is asleep in wait, or has let go of wait_lock in order to sleep. */
  predicate Committed(x: Proc) {
    match x.pc
    case SetChan => true
    case Doze => true
    case Switch => true
    case Asleep => x.state == Sleeping
    case _ => false
  }

  /** None of the first k slots has a child of p. */
  ghost predicate NoKids(m: Machine, p: nat, k: nat) {
    forall j: nat {:trigger m.procs[j]} :: j < k && j < |m.procs| ==> m.procs[j].parent != Some(p)
  }

  /** None of the first k slots has a child of p that has exited. */
  ghost predicate NoZombie(m: Machine, p: nat, k: nat) {
    forall j: nat {:trigger m.procs[j]} :: j < k && j < |m.procs| ==>
      !(m.procs[j].parent == Some(p) && m.procs[j].state == Zombie)
  }

  /** The first j processes have been told that p is about to exit: p's parent is not going to
      sleep through it. */
  ghost predicate Told(m: Machine, p: nat, j: nat)
    requires p < |m.procs|
  {
    m.procs[p].parent.Some? && m.procs[p].parent.value < j && m.procs[p].parent.value < |m.procs| ==>
      !Committed(m.procs[m.procs[p].parent.value])
  }

  /** Slot np is being set up by p. */
  predicate Making(m: Machine, p: nat, np: nat, parent: Option<nat>) {
    && np < |m.procs| && m.procs[np].state == Used && m.procs[np].maker == Some(p) && m.procs[np].parent == parent
    && np != 0
  }

  ghost predicate PcOk(m: Machine, p: nat)
    requires p < |m.procs|
  {
    var n := |m.procs|;
    match m.procs[p].pc
    case Off => p != 0 && NoKids(m, p, n)
    case Alloc(np) => np <= n
    case Fill(np) => Making(m, p, np, None)
    case Adopt(np) => Making(m, p, np, None)
    case SetParent(np) => Making(m, p, np, None)
    case Adopted(np) => Making(m, p, np, Some(p))
    case Start(np) => Making(m, p, np, Some(p))
    case Exit => p != 0
    case Reparent(k) => p != 0 && NoKids(m, p, k)
    case Rouse(k, j) => p != 0 && k < n && NoKids(m, p, k + 1)
    case Notify(j) => p != 0 && NoKids(m, p, n) && Told(m, p, j)
    case LockSelf => p != 0 && NoKids(m, p, n) && Told(m, p, n)
    case Die => p != 0 && NoKids(m, p, n) && Told(m, p, n)
    case Leave => p != 0 && NoKids(m, p, n)
    case Vanish => p != 0 && NoKids(m, p, n)
    case Look(k, kids) => NoZombie(m, p, k) && (kids <==> !NoKids(m, p, k))
    case Child(k) => k < n && NoZombie(m, p, k) && m.procs[k].parent == Some(p)
    case Freed(k) => k < n && m.reaps != [] && m.reaps[|m.reaps| - 1].reaper == p
    case Lock => NoZombie(m, p, n)
    case LetGo => NoZombie(m, p, n)
    case Kill(v) => v < n
    case _ => true
  }

  predicate InExit(c: Pc) {
    c.Off? || c.Exit? || c.Reparent? || c.Rouse? || c.Notify? || c.LockSelf? || c.Die? || c.Leave? || c.Vanish?
  }

  predicate InWait(c: Pc) {
    c.Wait? || c.Look? || c.Child? || c.Freed? || c.Return? || c.Lock? || c.LetGo? || c.SetChan? || c.Doze?
    || c.Switch? || c.Asleep? || c.ClearChan? || c.Unlock? || c.Again?
  }

  /** What holds of each process. */
  ghost predicate Near(m: Machine, p: nat)
    requires p < |m.procs|
  {
    var x := m.procs[p];
    && PcOk(m, p) && StateOk(x.pc, p, x.state, x.chan)
    && (HasWait(x.pc) <==> m.waitLock == Some(p))
    && (forall k: nat {:trigger m.procs[k]} :: k < |m.procs| ==> (HasProc(x.pc, p, k) <==> m.procs[k].lock == Some(p)))
  }

  /** Who has a parent, and that it is in the table. */
  ghost predicate FamilyOk(m: Machine, p: nat)
    requires p < |m.procs|
  {
    var x := m.procs[p];
    && (x.parent.Some? ==> x.parent.value < |m.procs| && p != 0)
    && (x.parent == None ==> p == 0 || x.state == Unused || x.state == Used)
    && (x.state == Unused ==> x.parent == None)
  }

  /** q does not sleep through the exit of its child c, unless the process that holds wait_lock
      has just given c to it and is about to wake it. */
  ghost predicate NotMissed(m: Machine, c: nat, q: nat)
    requires c < |m.procs| && q < |m.procs|
  {
    m.procs[c].state == Zombie && m.procs[c].parent == Some(q) && Committed(m.procs[q]) ==>
      && q == 0 && m.waitLock.Some? && m.waitLock.value < |m.procs|
      && m.procs[m.waitLock.value].pc.Rouse? && m.procs[m.waitLock.value].pc.j == 0
  }

  ghost predicate Inv(m: Machine) {
    && 0 < |m.procs|
    && (forall p: nat {:trigger m.procs[p]} :: p < |m.procs| ==> Near(m, p) && FamilyOk(m, p))
    && (forall c: nat, q: nat {:trigger NotMissed(m, c, q)} :: c < |m.procs| && q < |m.procs| ==> NotMissed(m, c, q))
    && PidsOk(m)
  }

  /** Process numbers are never used twice, and a process is reaped once, after it has exited. */
  ghost predicate PidsOk(m: Machine) {
    && (forall p: nat {:trigger m.procs[p]} :: p < |m.procs| ==> PidOk(m, p))
    && (forall p: nat, q: nat {:trigger m.procs[p], m.procs[q]} :: p < q < |m.procs| ==>
          m.procs[p].state == Unused || m.procs[q].state == Unused || m.procs[p].pid != m.procs[q].pid)
    && (forall i {:trigger m.reaps[i]} :: 0 <= i < |m.reaps| ==>
          m.reaps[i].pid in m.exits && m.exits[m.reaps[i].pid] == m.reaps[i].status)
    && (forall i, j {:trigger m.reaps[i], m.reaps[j]} :: 0 <= i < j < |m.reaps| ==> m.reaps[i].pid != m.reaps[j].pid)
    && (forall x {:trigger x in m.exits} :: x in m.exits ==> x < m.nextpid)
  }

  ghost predicate PidOk(m: Machine, p: nat)
    requires p < |m.procs|
  {
    var x := m.procs[p];
    x.state != Unused ==>
      && x.pid < m.nextpid && !Reaped(m, x.pid)
      && (if x.state == Zombie then x.pid in m.exits && m.exits[x.pid] == x.xstate else x.pid !in m.exits)
  }

  ghost predicate Reaped(m: Machine, pid: nat) {
    exists i :: 0 <= i < |m.reaps| && m.reaps[i].pid == pid
  }

  // ---------- every step keeps it ----------

  lemma InitOk(n: nat)
    requires n > 0
    ensures Inv(Init(n))
  {
    var m := Init(n);
    forall p: nat | p < n
      ensures Near(m, p) && FamilyOk(m, p) && PidOk(m, p)
    {
    }
  }

  ghost predicate Moves(m: Machine, t: Turn, r: Machine) {
    Ready(m, t) && Near(m, t.p) && FamilyOk(m, t.p) && r == Step(m, t)
  }

  lemma MoverWait(m: Machine, t: Turn, r: Machine)
    requires Moves(m, t, r)
    ensures HasWait(r.procs[t.p].pc) <==> r.waitLock == Some(t.p)
  {
    assert r.procs[t.p].pc == NextPc(m, t);
    if Looking(m.procs[t.p].pc) {
      LookerWait(m, t, r);
    } else if InWait(m.procs[t.p].pc) {
      WaiterWait(m, t, r);
    }
  }

  lemma LookerWait(m: Machine, t: Turn, r: Machine)
    requires Moves(m, t, r) && Looking(m.procs[t.p].pc)
    ensures HasWait(r.procs[t.p].pc) <==> r.waitLock == Some(t.p)
  {
    assert r.procs[t.p].pc == NextPc(m, t);
  }

  lemma WaiterWait(m: Machine, t: Turn, r: Machine)
    requires Moves(m, t, r) && InWait(m.procs[t.p].pc) && !Looking(m.procs[t.p].pc)
    ensures HasWait(r.procs[t.p].pc) <==> r.waitLock == Some(t.p)
  {
    assert r.procs[t.p].pc == NextPc(m, t);
  }

  lemma OthersWait(m: Machine, t: Turn, r: Machine)
    requires Moves(m, t, r)
    ensures r.waitLock == m.waitLock || r.waitLock == Some(t.p) || (r.waitLock == None && m.waitLock == Some(t.p))
    ensures m.waitLock == Some(t.p) || m.waitLock == None || r.waitLock == m.waitLock
  {
  }

  lemma MoverProcs(m: Machine, t: Turn, r: Machine, k: nat)
    requires Moves(m, t, r) && k < |m.procs|
    ensures HasProc(r.procs[t.p].pc, t.p, k) <==> r.procs[k].lock == Some(t.p)
  {
    if Looking(m.procs[t.p].pc) {
      LookerProcs(m, t, r, k);
    } else if InWait(m.procs[t.p].pc) {
      WaiterProcs(m, t, r, k);
    } else {
      assert HasProc(m.procs[t.p].pc, t.p, k) <==> m.procs[k].lock == Some(t.p);
    }
  }

  predicate Looking(c: Pc) {
    c.Wait? || c.Look? || c.Child? || c.Freed? || c.Return?
  }

  lemma LookerProcs(m: Machine, t: Turn, r: Machine, k: nat)
    requires Moves(m, t, r) && k < |m.procs| && Looking(m.procs[t.p].pc)
    ensures HasProc(r.procs[t.p].pc, t.p, k) <==> r.procs[k].lock == Some(t.p)
  {
    assert HasProc(m.procs[t.p].pc, t.p, k) <==> m.procs[k].lock == Some(t.p);
  }

  lemma WaiterProcs(m: Machine, t: Turn, r: Machine, k: nat)
    requires Moves(m, t, r) && k < |m.procs| && InWait(m.procs[t.p].pc) && !Looking(m.procs[t.p].pc)
    ensures HasProc(r.procs[t.p].pc, t.p, k) <==> r.procs[k].lock == Some(t.p)
  {
    assert HasProc(m.procs[t.p].pc, t.p, k) <==> m.procs[k].lock == Some(t.p);
  }

  lemma OthersLocks(m: Machine, t: Turn, r: Machine, k: nat, q: nat)
    requires Moves(m, t, r) && k < |m.procs| && q != t.p
    ensures r.procs[k].lock == Some(q) <==> m.procs[k].lock == Some(q)
  {
    assert HasProc(m.procs[t.p].pc, t.p, k) <==> m.procs[k].lock == Some(t.p);
  }

  /** A parent changes only under wait_lock, and only to the holder or to init. */
  lemma ParentKept(m: Machine, t: Turn, r: Machine, k: nat)
    requires Moves(m, t, r) && k < |m.procs|
    ensures r.procs[k].parent == m.procs[k].parent || m.waitLock == Some(t.p)
    ensures r.procs[k].parent == m.procs[k].parent || r.procs[k].parent == None || r.procs[k].parent == Some(0)
            || (r.procs[k].parent == Some(t.p) && m.procs[t.p].pc == SetParent(k))
  {
  }

  /** A process becomes a zombie only under wait_lock, and only by its own exit. */
  lemma ZombieKept(m: Machine, t: Turn, r: Machine, k: nat)
    requires Moves(m, t, r) && k < |m.procs| && r.procs[k].state == Zombie
    ensures m.procs[k].state == Zombie || (k == t.p && m.procs[k].pc == Die && m.waitLock == Some(t.p))
  {
  }

  /** A process commits itself to sleeping only by its own step. */
  lemma CommittedKept(m: Machine, t: Turn, r: Machine, q: nat)
    requires Moves(m, t, r) && q < |m.procs| && Committed(r.procs[q])
    ensures Committed(m.procs[q]) || (q == t.p && m.procs[q].pc == LetGo)
  {
  }

  /** Of another process only the state changes: it may be woken, or be made, started or freed. */
  lemma OtherKept(m: Machine, t: Turn, r: Machine, q: nat)
    requires Moves(m, t, r) && q < |m.procs| && q != t.p && Near(m, q)
    ensures StateOk(r.procs[q].pc, q, r.procs[q].state, r.procs[q].chan) == true
    ensures r.procs[q].pc == m.procs[q].pc || (m.procs[q].pc == Off && r.procs[q].pc == Born)
  {
    assert HasProc(m.procs[q].pc, q, q) <==> m.procs[q].lock == Some(q);
    assert HasProc(m.procs[t.p].pc, t.p, q) <==> m.procs[q].lock == Some(t.p);
  }

  lemma MoverState(m: Machine, t: Turn, r: Machine)
    requires Moves(m, t, r)
    ensures StateOk(r.procs[t.p].pc, t.p, r.procs[t.p].state, r.procs[t.p].chan) == true
  {
  }

  // ---------- children and zombies ----------

  lemma NoKidsKept(m: Machine, t: Turn, r: Machine, q: nat, k: nat)
    requires Moves(m, t, r) && q != t.p && NoKids(m, q, k) && (q != 0 || m.waitLock != Some(t.p))
    ensures NoKids(r, q, k)
  {
    forall j: nat | j < k && j < |r.procs|
      ensures r.procs[j].parent != Some(q)
    {
      ParentKept(m, t, r, j);
    }
  }

  /** As long as no parent changes the same slots have children. */
  lemma KidsSame(m: Machine, t: Turn, r: Machine, q: nat, k: nat)
    requires Moves(m, t, r) && (m.waitLock != Some(t.p) || m.procs[t.p].pc.Look? || m.procs[t.p].pc.Wait?
                                || m.procs[t.p].pc == Again)
    ensures NoKids(r, q, k) <==> NoKids(m, q, k)
  {
    forall j: nat | j < |m.procs|
      ensures r.procs[j].parent == m.procs[j].parent
    {
      ParentKept(m, t, r, j);
    }
    if NoKids(r, q, k) {
      assert forall j: nat :: j < k && j < |m.procs| ==> m.procs[j].parent == r.procs[j].parent;
    }
  }

  lemma NoZombieKept(m: Machine, t: Turn, r: Machine, q: nat, k: nat)
    requires Moves(m, t, r) && m.waitLock != Some(t.p) && NoZombie(m, q, k)
    ensures NoZombie(r, q, k)
  {
    forall j: nat | j < k && j < |r.procs|
      ensures !(r.procs[j].parent == Some(q) && r.procs[j].state == Zombie)
    {
      ParentKept(m, t, r, j);
      if r.procs[j].state == Zombie {
        ZombieKept(m, t, r, j);
      }
    }
  }

  lemma ToldKept(m: Machine, t: Turn, r: Machine, q: nat, j: nat)
    requires Moves(m, t, r) && q < |m.procs| && m.waitLock == Some(q) && q != t.p && Told(m, q, j)
    ensures Told(r, q, j)
  {
    ParentKept(m, t, r, q);
    var x := r.procs[q].parent;
    if x.Some? && x.value < j && x.value < |m.procs| && Committed(r.procs[x.value]) {
      CommittedKept(m, t, r, x.value);
    }
  }

  /** Any other process after the step. */
  lemma OtherExit(m: Machine, t: Turn, r: Machine, q: nat)
    requires Moves(m, t, r) && q < |m.procs| && q != t.p && Near(m, q) && InExit(m.procs[q].pc)
    ensures PcOk(r, q) == true
  {
    OtherKept(m, t, r, q);
    var n := |m.procs|;
    match m.procs[q].pc {
      case Off => NoKidsKept(m, t, r, q, n);
      case Reparent(k) => NoKidsKept(m, t, r, q, k);
      case Rouse(k, j) => NoKidsKept(m, t, r, q, k + 1);
      case Notify(j) => NoKidsKept(m, t, r, q, n); ToldKept(m, t, r, q, j);
      case LockSelf => NoKidsKept(m, t, r, q, n); ToldKept(m, t, r, q, n);
      case Die => NoKidsKept(m, t, r, q, n); ToldKept(m, t, r, q, n);
      case Leave => NoKidsKept(m, t, r, q, n);
      case Vanish => NoKidsKept(m, t, r, q, n);
      case _ =>
    }
  }

  lemma ReapsKept(m: Machine, t: Turn, r: Machine)
    requires Moves(m, t, r) && m.waitLock != Some(t.p)
    ensures r.reaps == m.reaps
  {
  }

  lemma OtherWaits(m: Machine, t: Turn, r: Machine, q: nat)
    requires Moves(m, t, r) && q < |m.procs| && q != t.p && Near(m, q) && InWait(m.procs[q].pc)
    ensures PcOk(r, q) == true
  {
    if Looking(m.procs[q].pc) {
      OtherLooks(m, t, r, q);
      return;
    }
    OtherKept(m, t, r, q);
    match m.procs[q].pc {
      case Lock => NoZombieKept(m, t, r, q, |m.procs|);
      case LetGo => NoZombieKept(m, t, r, q, |m.procs|);
      case _ =>
    }
  }

  lemma SeenKept(m: Machine, t: Turn, r: Machine, q: nat, k: nat)
    requires Moves(m, t, r) && m.waitLock != Some(t.p) && NoZombie(m, q, k)
    ensures NoZombie(r, q, k) == true && NoKids(r, q, k) == NoKids(m, q, k)
  {
    NoZombieKept(m, t, r, q, k);
    KidsSame(m, t, r, q, k);
  }

  lemma OtherLooks(m: Machine, t: Turn, r: Machine, q: nat)
    requires Moves(m, t, r) && q < |m.procs| && q != t.p && Near(m, q) && Looking(m.procs[q].pc)
    ensures PcOk(r, q) == true
  {
    OtherKept(m, t, r, q);
    match m.procs[q].pc {
      case Look(k, kids) => SeenKept(m, t, r, q, k);
      case Child(k) => SeenKept(m, t, r, q, k); ParentKept(m, t, r, k);
      case Freed(k) => ReapsKept(m, t, r);
      case _ =>
    }
  }

  lemma OtherForks(m: Machine, t: Turn, r: Machine, q: nat)
    requires Moves(m, t, r) && q < |m.procs| && q != t.p && Near(m, q)
    requires !InExit(m.procs[q].pc) && !InWait(m.procs[q].pc)
    ensures PcOk(r, q) == true
  {
    OtherKept(m, t, r, q);
    match m.procs[q].pc {
      case Fill(np) => MakingKept(m, t, r, q, np, None);
      case Adopt(np) => MakingKept(m, t, r, q, np, None);
      case SetParent(np) => MakingKept(m, t, r, q, np, None);
      case Adopted(np) => MakingKept(m, t, r, q, np, Some(q));
      case Start(np) => MakingKept(m, t, r, q, np, Some(q));
      case _ =>
    }
  }

  lemma MakingKept(m: Machine, t: Turn, r: Machine, q: nat, np: nat, parent: Option<nat>)
    requires Moves(m, t, r) && q != t.p && Making(m, q, np, parent) && (parent == None || parent == Some(q))
    ensures Making(r, q, np, parent)
  {
  }

  /** The mover's own step gives it no children, except in fork. */
  lemma MoverKids(m: Machine, t: Turn, r: Machine, k: nat)
    requires Moves(m, t, r) && NoKids(m, t.p, k) && t.p != 0 && !m.procs[t.p].pc.SetParent?
    ensures NoKids(r, t.p, k)
  {
    forall j: nat | j < k && j < |r.procs|
      ensures r.procs[j].parent != Some(t.p)
    {
      ParentKept(m, t, r, j);
    }
  }

  lemma MoverZombies(m: Machine, t: Turn, r: Machine, k: nat)
    requires Moves(m, t, r) && NoZombie(m, t.p, k) && m.procs[t.p].pc != Die && !m.procs[t.p].pc.Reparent?
    ensures NoZombie(r, t.p, k)
  {
    forall j: nat | j < k && j < |r.procs|
      ensures !(r.procs[j].parent == Some(t.p) && r.procs[j].state == Zombie)
    {
      ParentKept(m, t, r, j);
      if r.procs[j].state == Zombie {
        ZombieKept(m, t, r, j);
      }
    }
  }

  /** A slot that fork finds unused is not init's, and has no parent. */
  lemma MoverAlloc(m: Machine, t: Turn, r: Machine, np: nat)
    requires Moves(m, t, r) && m.procs[t.p].pc == Alloc(np) && np < |m.procs| && m.procs[np].state == Unused
    requires Near(m, np) && FamilyOk(m, np)
    ensures Making(r, t.p, np, None)
  {
  }

  /** Going on to the next slot in reparent. */
  lemma MoverReparent(m: Machine, t: Turn, r: Machine, k: nat)
    requires Moves(m, t, r) && m.procs[t.p].pc == Reparent(k) && k < |m.procs|
    ensures NoKids(r, t.p, k + 1)
  {
    MoverKids(m, t, r, k);
    assert r.procs[k].parent != Some(t.p);
  }

  /** wakeup(p->parent) at process j. */
  lemma MoverNotify(m: Machine, t: Turn, r: Machine, j: nat)
    requires Moves(m, t, r) && m.procs[t.p].pc == Notify(j) && j < |m.procs| && Near(m, j)
    ensures Told(r, t.p, j + 1)
  {
    ParentKept(m, t, r, t.p);
    var x := m.procs[t.p].parent;
    assert x != Some(t.p) by {
      assert m.procs[t.p].parent != Some(t.p);
    }
    assert r.procs[t.p].parent == x;
    assert HasProc(m.procs[j].pc, j, j) <==> m.procs[j].lock == Some(j);
    if x.Some? && x.value < j + 1 && x.value < |m.procs| && Committed(r.procs[x.value]) {
      CommittedKept(m, t, r, x.value);
    }
  }

  lemma MoverTold(m: Machine, t: Turn, r: Machine, j: nat)
    requires Moves(m, t, r) && Told(m, t.p, j) && m.procs[t.p].pc != LetGo && !m.procs[t.p].pc.Reparent?
    requires !m.procs[t.p].pc.SetParent? && !m.procs[t.p].pc.Child? && !m.procs[t.p].pc.Fill?
    ensures Told(r, t.p, j)
  {
    var x := r.procs[t.p].parent;
    if x.Some? && x.value < j && x.value < |m.procs| && Committed(r.procs[x.value]) {
      CommittedKept(m, t, r, x.value);
    }
  }

  /** The next slot in wait is not that of a zombie child. */
  lemma MoverLook(m: Machine, t: Turn, r: Machine, k: nat)
    requires Moves(m, t, r) && k < |m.procs| && NoZombie(m, t.p, k)
    requires (m.procs[t.p].pc.Look? && m.procs[t.p].pc.k == k && m.procs[k].parent != Some(t.p))
             || (m.procs[t.p].pc == Child(k) && m.procs[k].state != Zombie)
    ensures NoZombie(r, t.p, k + 1)
  {
    MoverZombies(m, t, r, k);
    ParentKept(m, t, r, k);
    if r.procs[k].state == Zombie {
      ZombieKept(m, t, r, k);
    }
  }

  /** The mover after its step. */
  lemma ReparentOk(m: Machine, t: Turn, r: Machine)
    requires Moves(m, t, r) && (m.procs[t.p].pc.Reparent? || m.procs[t.p].pc.Rouse?)
    ensures PcOk(r, t.p) == true
  {
    var n, c := |m.procs|, m.procs[t.p].pc;
    assert r.procs[t.p].pc == NextPc(m, t);
    if c.Rouse? {
      MoverKids(m, t, r, c.k + 1);
    } else if c.k < n {
      MoverReparent(m, t, r, c.k);
    } else {
      MoverKids(m, t, r, n);
    }
  }

  lemma NotifyOk(m: Machine, t: Turn, r: Machine, j: nat)
    requires Moves(m, t, r) && m.procs[t.p].pc == Notify(j) && (j < |m.procs| ==> Near(m, j))
    ensures PcOk(r, t.p) == true
  {
    assert r.procs[t.p].pc == NextPc(m, t);
    MoverKids(m, t, r, |m.procs|);
    if j < |m.procs| {
      MoverNotify(m, t, r, j);
    } else {
      MoverTold(m, t, r, |m.procs|);
    }
  }

  lemma MoverExit(m: Machine, t: Turn, r: Machine)
    requires Moves(m, t, r) && InExit(m.procs[t.p].pc)
    requires m.procs[t.p].pc.Notify? && m.procs[t.p].pc.j < |m.procs| ==> Near(m, m.procs[t.p].pc.j)
    ensures PcOk(r, t.p) == true
  {
    var c := m.procs[t.p].pc;
    if c.Reparent? || c.Rouse? {
      ReparentOk(m, t, r);
    } else if c.Notify? {
      NotifyOk(m, t, r, c.j);
    } else {
      assert r.procs[t.p].pc == NextPc(m, t);
      if !c.Exit? {
        MoverKids(m, t, r, |m.procs|);
      }
      if c.LockSelf? {
        MoverTold(m, t, r, |m.procs|);
      }
    }
  }

  lemma NextSlot(m: Machine, p: nat, k: nat)
    requires k < |m.procs| && m.procs[k].parent != Some(p)
    ensures NoKids(m, p, k + 1) <==> NoKids(m, p, k)
  {
    if NoKids(m, p, k + 1) {
      assert forall j: nat :: j < k && j < |m.procs| ==> m.procs[j].parent != Some(p);
    }
  }

  lemma LooksOk(m: Machine, t: Turn, r: Machine, k: nat)
    requires Moves(m, t, r) && m.procs[t.p].pc.Look? && m.procs[t.p].pc.k == k
    ensures PcOk(r, t.p) == true
  {
    var n := |m.procs|;
    assert r.procs[t.p].pc == NextPc(m, t);
    if k >= n {
      MoverZombies(m, t, r, n);
    } else if m.procs[k].parent != Some(t.p) {
      MoverLook(m, t, r, k);
      KidsSame(m, t, r, t.p, k);
      ParentKept(m, t, r, k);
      NextSlot(r, t.p, k);
    } else {
      MoverZombies(m, t, r, k);
      ParentKept(m, t, r, k);
    }
  }

  lemma ChildOk(m: Machine, t: Turn, r: Machine, k: nat)
    requires Moves(m, t, r) && m.procs[t.p].pc == Child(k)
    ensures PcOk(r, t.p) == true
  {
    assert r.procs[t.p].pc == NextPc(m, t);
    if m.procs[k].state != Zombie {
      MoverLook(m, t, r, k);
      assert r.procs[k].parent == Some(t.p);
    }
  }

  lemma MoverWaits(m: Machine, t: Turn, r: Machine)
    requires Moves(m, t, r) && InWait(m.procs[t.p].pc)
    ensures PcOk(r, t.p) == true
  {
    var c := m.procs[t.p].pc;
    if c.Look? {
      LooksOk(m, t, r, c.k);
    } else if c.Child? {
      ChildOk(m, t, r, c.k);
    } else if Looking(c) {
      AroundLookOk(m, t, r);
    } else {
      SleepOk(m, t, r);
    }
  }

  lemma AroundLookOk(m: Machine, t: Turn, r: Machine)
    requires Moves(m, t, r) && Looking(m.procs[t.p].pc) && !m.procs[t.p].pc.Look? && !m.procs[t.p].pc.Child?
    ensures PcOk(r, t.p) == true
  {
    assert r.procs[t.p].pc == NextPc(m, t);
  }

  lemma SleepOk(m: Machine, t: Turn, r: Machine)
    requires Moves(m, t, r) && InWait(m.procs[t.p].pc) && !Looking(m.procs[t.p].pc)
    ensures PcOk(r, t.p) == true
  {
    assert r.procs[t.p].pc == NextPc(m, t);
    if m.procs[t.p].pc.Lock? {
      MoverZombies(m, t, r, |m.procs|);
    }
  }

  lemma MoverForks(m: Machine, t: Turn, r: Machine)
    requires Moves(m, t, r) && !InExit(m.procs[t.p].pc) && !InWait(m.procs[t.p].pc)
    requires var c := m.procs[t.p].pc; c.Alloc? && c.np < |m.procs| ==> Near(m, c.np) && FamilyOk(m, c.np)
    ensures PcOk(r, t.p) == true
  {
    assert r.procs[t.p].pc == NextPc(m, t);
    var c := m.procs[t.p].pc;
    if c.Alloc? && c.np < |m.procs| && m.procs[c.np].state == Unused {
      MoverAlloc(m, t, r, c.np);
    }
  }

  lemma PcOkStep(m: Machine, t: Turn, r: Machine, q: nat)
    requires Inv(m) && Moves(m, t, r) && q < |m.procs|
    ensures PcOk(r, q) == true
  {
    var c := m.procs[t.p].pc;
    assert Near(m, q);
    if q == t.p {
      assert c.Alloc? && c.np < |m.procs| ==> Near(m, c.np) && FamilyOk(m, c.np);
      assert c.Notify? && c.j < |m.procs| ==> Near(m, c.j);
      if InExit(c) {
        MoverExit(m, t, r);
      } else if InWait(c) {
        MoverWaits(m, t, r);
      } else {
        MoverForks(m, t, r);
      }
    } else if InExit(m.procs[q].pc) {
      OtherExit(m, t, r, q);
    } else if InWait(m.procs[q].pc) {
      OtherWaits(m, t, r, q);
    } else {
      OtherForks(m, t, r, q);
    }
  }

  lemma NearStep(m: Machine, t: Turn, r: Machine, q: nat)
    requires Inv(m) && Moves(m, t, r) && q < |m.procs|
    ensures Near(r, q)
  {
    assert Near(m, q);
    PcOkStep(m, t, r, q);
    MoverWait(m, t, r);
    OthersWait(m, t, r);
    forall k: nat | k < |m.procs|
      ensures HasProc(r.procs[q].pc, q, k) <==> r.procs[k].lock == Some(q)
    {
      if q == t.p {
        MoverProcs(m, t, r, k);
      } else {
        OtherKept(m, t, r, q);
        OthersLocks(m, t, r, k, q);
      }
    }
    if q == t.p {
      MoverState(m, t, r);
    } else {
      OtherKept(m, t, r, q);
    }
  }

  lemma FamilyStep(m: Machine, t: Turn, r: Machine, q: nat)
    requires Inv(m) && Moves(m, t, r) && q < |m.procs|
    ensures FamilyOk(r, q)
  {
    assert Near(m, q) && FamilyOk(m, q);
  }

  /** A zombie child is never slept through. */
  lemma NotMissedStep(m: Machine, t: Turn, r: Machine, c: nat, q: nat)
    requires Inv(m) && Moves(m, t, r) && c < |m.procs| && q < |m.procs|
    ensures NotMissed(r, c, q)
  {
    assert NotMissed(m, c, q) && Near(m, q) && Near(m, c);
    if r.procs[c].state == Zombie && r.procs[c].parent == Some(q) && Committed(r.procs[q]) {
      ZombieKept(m, t, r, c);
      CommittedKept(m, t, r, q);
      ParentKept(m, t, r, c);
      OthersWait(m, t, r);
    }
  }

  // ---------- process numbers ----------

  lemma ReapedStep(m: Machine, t: Turn, r: Machine, pid: nat)
    requires Moves(m, t, r) && Reaped(r, pid)
    ensures Reaped(m, pid) ||
            (m.procs[t.p].pc.Child? && Frees(m, t, m.procs[t.p].pc.k) && pid == m.procs[m.procs[t.p].pc.k].pid)
  {
    var i :| 0 <= i < |r.reaps| && r.reaps[i].pid == pid;
    assert i < |m.reaps| ==> m.reaps[i].pid == pid;
  }

  lemma PidStep(m: Machine, t: Turn, r: Machine, q: nat)
    requires Inv(m) && Moves(m, t, r) && q < |m.procs|
    ensures PidOk(r, q)
  {
    var x, y, p := m.procs[q], r.procs[q], m.procs[t.p];
    assert PidsOk(m) && PidOk(m, q) && PidOk(m, t.p);
    NextPidFresh(m);
    if y.state != Unused {
      assert (p.pc == Alloc(q) && x.state == Unused) || (x.state != Unused && y.pid == x.pid);
      if Reaped(r, y.pid) {
        ReapedStep(m, t, r, y.pid);
      }
    }
  }

  lemma NextPidFresh(m: Machine)
    requires PidsOk(m)
    ensures !Reaped(m, m.nextpid) && m.nextpid !in m.exits
  {
  }

  lemma DistinctStep(m: Machine, t: Turn, r: Machine, p: nat, q: nat)
    requires Inv(m) && Moves(m, t, r) && p < q < |m.procs|
    ensures r.procs[p].state == Unused || r.procs[q].state == Unused || r.procs[p].pid != r.procs[q].pid
  {
    assert PidsOk(m) && PidOk(m, p) && PidOk(m, q);
  }

  lemma NotReaped(m: Machine, pid: nat, i: nat)
    requires !Reaped(m, pid) && i < |m.reaps|
    ensures m.reaps[i].pid != pid
  {
  }

  lemma HistoryStep(m: Machine, t: Turn, r: Machine)
    requires Inv(m) && Moves(m, t, r)
    ensures forall i {:trigger r.reaps[i]} :: 0 <= i < |r.reaps| ==>
              r.reaps[i].pid in r.exits && r.exits[r.reaps[i].pid] == r.reaps[i].status
    ensures forall i, j {:trigger r.reaps[i], r.reaps[j]} :: 0 <= i < j < |r.reaps| ==> r.reaps[i].pid != r.reaps[j].pid
    ensures forall x {:trigger x in r.exits} :: x in r.exits ==> x < r.nextpid
  {
    assert PidsOk(m) && PidOk(m, t.p);
    var c := m.procs[t.p].pc;
    if c.Child? && Frees(m, t, c.k) {
      assert PidOk(m, c.k);
      forall i | 0 <= i < |m.reaps|
        ensures m.reaps[i].pid != m.procs[c.k].pid
      {
        NotReaped(m, m.procs[c.k].pid, i);
      }
    } else if c == Die {
      forall i | 0 <= i < |m.reaps|
        ensures m.reaps[i].pid != m.procs[t.p].pid
      {
        NotReaped(m, m.procs[t.p].pid, i);
      }
    }
  }

  /** Every step of every process keeps the invariant. */
  lemma StepKeeps(m: Machine, t: Turn)
    requires Inv(m) && Ready(m, t)
    ensures Inv(Step(m, t))
  {
    var r := Step(m, t);
    assert Near(m, t.p) && FamilyOk(m, t.p) && Moves(m, t, r);
    forall q: nat | q < |r.procs|
      ensures Near(r, q) && FamilyOk(r, q) && PidOk(r, q)
    {
      NearStep(m, t, r, q);
      FamilyStep(m, t, r, q);
      PidStep(m, t, r, q);
    }
    forall c: nat, q: nat | c < |r.procs| && q < |r.procs|
      ensures NotMissed(r, c, q)
    {
      NotMissedStep(m, t, r, c, q);
    }
    forall p: nat, q: nat | p < q < |r.procs|
      ensures r.procs[p].state == Unused || r.procs[q].state == Unused || r.procs[p].pid != r.procs[q].pid
    {
      DistinctStep(m, t, r, p, q);
    }
    HistoryStep(m, t, r);
  }

  // ---------- runs ----------

  /** m is reached from the beginning by the given turns. */
  ghost predicate Reached(n: nat, turns: seq<Turn>, m: Machine)
    requires n > 0
    decreases |turns|
  {
    if turns == [] then m == Init(n)
    else
      var rest, t := turns[..|turns| - 1], turns[|turns| - 1];
      exists before: Machine :: Reached(n, rest, before) && Ready(before, t) && m == Step(before, t)
  }

  /** In every run the invariant holds. */
  lemma {:induction false} EveryRun(n: nat, turns: seq<Turn>, m: Machine)
    requires n > 0 && Reached(n, turns, m)
    ensures Inv(m)
    decreases |turns|
  {
    if turns == [] {
      InitOk(n);
    } else {
      var rest, t := turns[..|turns| - 1], turns[|turns| - 1];
      var before: Machine :| Reached(n, rest, before) && Ready(before, t) && m == Step(before, t);
      EveryRun(n, rest, before);
      StepKeeps(before, t);
    }
  }

  // ---------- what the calls come to ----------

  predicate InFork(c: Pc) {
    c.Alloc? || c.Fill? || c.Adopt? || c.SetParent? || c.Adopted? || c.Start?
  }

  /** wait returns with the status of a child, or because the caller has no child, or has been killed, or
      the status cannot be copied out; it goes to sleep only with a child, and not killed. */
  lemma WaitReturns(m: Machine, t: Turn)
    requires Inv(m) && Ready(m, t) && InWait(m.procs[t.p].pc)
    ensures var r, c := Step(m, t), m.procs[t.p].pc;
            var d := r.procs[t.p].pc;
            && (InWait(d) || (c == Return && d == Run))
            && (d == Return ==>
                  || (c.Freed? && m.reaps != [] && m.reaps[|m.reaps| - 1].reaper == t.p)
                  || NoKids(m, t.p, |m.procs|) || m.procs[t.p].killed
                  || (c.Child? && c.k < |m.procs| && m.procs[c.k].state == Zombie && !t.lucky))
            && (c != Lock && d == Lock ==> !NoKids(m, t.p, |m.procs|) && !m.procs[t.p].killed)
            && (c.Child? && c.k < |m.procs| && m.procs[c.k].state == Zombie && t.lucky ==>
                  r.reaps == m.reaps + [Reap(m.procs[c.k].pid, m.procs[c.k].xstate, t.p)])
  {
    assert Near(m, t.p);
    assert Step(m, t).procs[t.p].pc == NextPc(m, t);
    var c := m.procs[t.p].pc;
    if c.Look? && c.k >= |m.procs| {
      assert NoKids(m, t.p, c.k) <==> NoKids(m, t.p, |m.procs|);
    }
  }

  lemma MovesNow(m: Machine, t: Turn)
    requires Inv(m) && Ready(m, t)
    ensures Moves(m, t, Step(m, t)) == true
  {
    assert Near(m, t.p) && FamilyOk(m, t.p);
  }

  lemma ForkStep(m: Machine, t: Turn, r: Machine)
    requires Moves(m, t, r)
    ensures var c, d := m.procs[t.p].pc, r.procs[t.p].pc;
            InFork(c) ==>
              || (InFork(d) && (d.Alloc? ==> c.Alloc? && c.np < |m.procs| && m.procs[c.np].state != Unused
                                             && d.np == c.np + 1))
              || (d == Run && c.Alloc? && c.np >= |m.procs|)
              || (d == Run && c.Fill? && !t.lucky && c.np < |m.procs| && r.procs[c.np].state == Unused)
              || (d == Run && c.Start? && c.np < |m.procs| && r.procs[c.np].state == Runnable
                  && r.procs[c.np].pc == Born && r.procs[c.np].parent == Some(t.p))
  {
    assert PcOk(m, t.p);
    assert r.procs[t.p] == Next(m, t, t.p);
  }

  lemma ExitStep(m: Machine, t: Turn, r: Machine)
    requires Moves(m, t, r)
    ensures var c, x := m.procs[t.p].pc, r.procs[t.p];
            && (InExit(c) ==> InExit(x.pc) && (x.pc == Off ==> x.state == Zombie))
            && (c == Die ==>
                  x.state == Zombie && x.xstate == t.status && x.pid in r.exits && r.exits[x.pid] == t.status)
  {
    assert r.procs[t.p] == Next(m, t, t.p);
  }

  /** fork returns when the new process is runnable, with the caller for its parent, or when it has found every
      slot in use, or there is no memory for it; exit does not return,
            and leaves a zombie with the status it was called with. */
  lemma ForkExitReturn(m: Machine, t: Turn)
    requires Inv(m) && Ready(m, t)
    ensures var r, c := Step(m, t), m.procs[t.p].pc;
            var d := r.procs[t.p].pc;
            && (InFork(c) ==>
                  || (InFork(d) && (d.Alloc? ==> c.Alloc? && c.np < |m.procs| && m.procs[c.np].state != Unused
                                                 && d.np == c.np + 1))
                  || (d == Run && c.Alloc? && c.np >= |m.procs|)
                  || (d == Run && c.Fill? && !t.lucky && c.np < |m.procs| && r.procs[c.np].state == Unused)
                  || (d == Run && c.Start? && c.np < |m.procs| && r.procs[c.np].state == Runnable
                      && r.procs[c.np].pc == Born && r.procs[c.np].parent == Some(t.p)))
            && (InExit(c) ==> InExit(d) && (d == Off ==> r.procs[t.p].state == Zombie))
            && (c == Die ==>
                  var x := r.procs[t.p];
                  x.state == Zombie && x.xstate == t.status && x.pid in r.exits && r.exits[x.pid] == t.status)
  {
    MovesNow(m, t);
    ForkStep(m, t, Step(m, t));
    ExitStep(m, t, Step(m, t));
  }

  /** After kill the victim is killed, and not asleep. */
  lemma KillWorks(m: Machine, t: Turn, v: nat)
    requires Inv(m) && Ready(m, t) && m.procs[t.p].pc == Kill(v)
    ensures var r := Step(m, t);
            && v < |r.procs| && r.procs[v].killed && r.procs[v].state != Sleeping && r.procs[t.p].pc == Run
            && (m.procs[v].state == Sleeping ==> r.procs[v].state == Runnable)
  {
    assert Near(m, t.p);
    KillNext(m, t, v);
    assert Step(m, t).procs[v] == Next(m, t, v) && Step(m, t).procs[t.p] == Next(m, t, t.p);
  }

  lemma KillNext(m: Machine, t: Turn, v: nat)
    requires t.p < |m.procs| && v < |m.procs| && m.procs[t.p].pc == Kill(v)
    ensures NextPc(m, t) == Run && Next(m, t, v).killed && Next(m, t, v).state != Sleeping
    ensures m.procs[v].state == Sleeping ==> Next(m, t, v).state == Runnable
  {
  }

  predicate Started(s: RunState) {
    s != Unused && s != Used
  }

  predicate Alive(s: RunState) {
    s == Runnable || s == Running || s == Sleeping
  }

  /** Every started process other than init has a parent that is alive. */
  lemma ParentsAlive(m: Machine, p: nat)
    requires Inv(m) && p < |m.procs| && p != 0 && Started(m.procs[p].state)
    ensures m.procs[p].parent.Some? && m.procs[p].parent.value < |m.procs|
    ensures Alive(m.procs[m.procs[p].parent.value].state)
  {
    assert FamilyOk(m, p);
    assert Near(m, m.procs[p].parent.value);
  }

  /** When wait_lock is free, no process that is asleep in wait, or on its way to sleep there, has
      a child that has exited. */
  lemma NoZombieMissed(m: Machine, c: nat, q: nat)
    requires Inv(m) && c < |m.procs| && q < |m.procs| && m.waitLock == None
    requires Committed(m.procs[q]) && m.procs[c].parent == Some(q)
    ensures m.procs[c].state != Zombie
  {
    assert NotMissed(m, c, q);
  }

  /** No exit status is handed out twice, and what is handed out is what the process exited with. */
  lemma ReapedOnce(m: Machine, i: nat, j: nat)
    requires Inv(m) && i < |m.reaps| && j < |m.reaps|
    ensures m.reaps[i].pid in m.exits && m.exits[m.reaps[i].pid] == m.reaps[i].status
    ensures m.reaps[i].pid == m.reaps[j].pid ==> i == j
  {
    assert PidsOk(m);
  }

  /** A status is handed out only to the parent that the process then has, and only after it has
      switched away from its kernel stack for good. */
  lemma ReapedByParent(m: Machine, t: Turn)
    requires Inv(m) && Ready(m, t) && Step(m, t).reaps != m.reaps
    ensures exists k: nat :: k < |m.procs| && m.procs[k].parent == Some(t.p) && m.procs[k].pc == Off
              && Step(m, t).reaps == m.reaps + [Reap(m.procs[k].pid, m.procs[k].xstate, t.p)]
  {
    var k := m.procs[t.p].pc.k;
    assert Near(m, t.p) && Near(m, k);
    assert HasProc(m.procs[k].pc, k, k) <==> m.procs[k].lock == Some(k);
    assert HasProc(m.procs[t.p].pc, t.p, k) <==> m.procs[k].lock == Some(t.p);
  }
}
