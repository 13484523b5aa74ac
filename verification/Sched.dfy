/** The hand-off between scheduler and processes: spin locks, push_off and pop_off, scheduler,
    sched, yield, sleep, exit, forkret and what is done to processes under their locks, as a machine
    of any number of CPUs, processes and spin locks. A step is one call of acquire or release, or one
    access to shared memory, by the thread that runs on some CPU; swtch is a change of that thread. */
module Sched {
  import opened Options

  datatype RunState = Unused | Runnable | Running | Sleeping | Zombie

  datatype Thread = Scheduler | Process(p: nat)

  /** Where the scheduler thread of a CPU is, at process k of the table. */
  datatype Place =
    | Top(k: nat)          // about to acquire the lock of process k
    | Holding(k: nat)      // looks at its state
    | Away(k: nat)         // has switched to it
    | Resumed(k: nat)      // has been switched back to
    | Releasing(k: nat)    // about to release its lock

  /** How a process stops running: yield, sleep with a lock to be let go, exit with wait_lock, and yield
      by a timer interrupt that comes just before sleep acquires lk again. */
  datatype Way = Yield | Sleep(lk: nat) | Exit(lk: nat) | Tick(lk: nat)

  /** Where a process is. In Kernel it is anywhere outside the functions modelled here, with `bare`
      calls of push_off of its own outstanding, and holding the spin locks `held`. On its way to
      sched it carries both as they were when it entered yield, sleep or exit. */
  datatype Pc =
    | Never                                          // has not run: will begin in forkret
    | Kernel(bare: nat, held: set<nat>)
    | Locked(w: Way, bare: nat, held: set<nat>)      // has acquired its own lock
    | Dropped(w: Way, bare: nat, held: set<nat>)     // sleep: has released lk
    | Marked(w: Way, bare: nat, held: set<nat>)      // exit: is a zombie, still holds wait_lock
    | Leaving(w: Way, bare: nat, held: set<nat>)     // in sched, before its checks
    | Gone(w: Way)                                   // has switched to the scheduler
    | Back(w: Way)                                   // has been switched back to, in sched
    | Ending(w: Way)                                 // about to release its own lock
    | Relock(lk: nat)                                // sleep: about to acquire lk again

  datatype Cpu = Cpu(noff: nat, intena: bool, intr: bool, proc: Option<nat>, thread: Thread, place: Place)

  /** saved is sched's local variable. Two things that the kernel does not store: `wants`, whether
      interrupts were on before the thread's outermost push_off, and `on`, the CPU it runs on. */
  datatype Proc = Proc(pc: Pc, state: RunState, saved: bool, wants: bool, on: Option<nat>)

  /** For each spin lock the CPU recorded in it; the first ones are the p->lock of the processes. */
  datatype Machine = Machine(cpus: seq<Cpu>, procs: seq<Proc>, locks: seq<Option<nat>>)

  /** What a process in the kernel may do next. Change is what is done to a process under its lock:
      wake it (wakeup, kill), or, if it is unused, start it (fork), or, if it is a zombie, free it
      (wait). */
  datatype Choice =
    | Push | Pop | Interrupts(enabled: bool) | Acquire(l: nat) | Release(l: nat) | Change(q: nat) | Stop(w: Way)

  // ---------- spinlock.c ----------

  function PushOff(c: Cpu): (r: Cpu) {
    c.(intena := if c.noff == 0 then c.intr else c.intena, intr := false, noff := c.noff + 1)
  }

  /** The panics of pop_off are the precondition. */
  function PopOff(c: Cpu): (r: Cpu)
    requires !c.intr && c.noff > 0
  {
    c.(noff := c.noff - 1, intr := c.noff == 1 && c.intena)
  }

  // ---------- the steps ----------

  /** The locks that a way of stopping lets go, and how many they are. */
  function Let(w: Way): (ls: set<nat>) {
    if w.Sleep? || w.Exit? then {w.lk} else {}
  }

  function Lets(w: Way): (n: nat) {
    if w.Sleep? || w.Exit? then 1 else 0
  }

  /** The lock that process p acquires next. */
  function PcAcquires(pc: Pc, x: Choice, p: nat): (l: Option<nat>) {
    match pc
    case Kernel(b, h) => (match x case Acquire(l) => Some(l) case Stop(w) => Some(p) case _ => None)
    case Relock(lk) => Some(if x == Stop(Yield) then p else lk)
    case _ => None
  }

  /** The lock that it releases next. */
  function PcReleases(pc: Pc, x: Choice, p: nat): (l: Option<nat>) {
    match pc
    case Kernel(b, h) => (match x case Release(l) => Some(l) case _ => None)
    case Locked(w, b, h) => if w.Sleep? then Some(w.lk) else None
    case Marked(w, b, h) => if w.Exit? then Some(w.lk) else None
    case Ending(w) => Some(p)
    case _ => None
  }

  /** The lock that a step acquires, if any. */
  ghost function Acquires(m: Machine, c: nat, x: Choice): (l: Option<nat>)
    requires c < |m.cpus|
  {
    match m.cpus[c].thread
    case Scheduler => if m.cpus[c].place.Top? then Some(m.cpus[c].place.k) else None
    case Process(p) => if p < |m.procs| then PcAcquires(m.procs[p].pc, x, p) else None
  }

  /** The lock that a step releases, if any. */
  ghost function Releases(m: Machine, c: nat, x: Choice): (l: Option<nat>)
    requires c < |m.cpus|
  {
    match m.cpus[c].thread
    case Scheduler => if m.cpus[c].place.Releasing? then Some(m.cpus[c].place.k) else None
    case Process(p) => if p < |m.procs| then PcReleases(m.procs[p].pc, x, p) else None
  }

  /** Which steps there are. An acquire waits until the lock is free, unless the CPU holds it: then
      it goes on, to panic. Of its callers the kernel asks here only that push_off and pop_off match,
      that interrupts are not switched with push_offs open, that a process is changed only under its
      lock, that locks exist, and that sleep is not told to let go of the process's own p->lock. */
  ghost predicate Ready(m: Machine, c: nat, x: Choice) {
    && c < |m.cpus|
    && (Acquires(m, c, x).Some? ==>
          var l := Acquires(m, c, x).value; l < |m.locks| && (m.locks[l] == None || m.locks[l] == Some(c)))
    && (Releases(m, c, x).Some? ==> Releases(m, c, x).value < |m.locks|)
    && match m.cpus[c].thread
       case Scheduler => true
       case Process(p) =>
         p < |m.procs| && match m.procs[p].pc
                          case Kernel(b, h) =>
                            (match x
                             case Pop => b > 0
                             case Interrupts(e) => b == 0 && h == {}
                             case Change(q) => q in h && q < |m.procs|
                             case Stop(w) => !w.Tick? && (w.Yield? || p != w.lk < |m.locks|)
                             case _ => true)
                          case _ => true
  }

  /** Nothing that a step does makes the kernel panic: acquire, release and sched find what they
      check, in "acquire", "release", "pop_off - interruptible", "pop_off", "sched p->lock", "sched
      locks", "sched running", "sched interruptible" and "zombie exit"; and scheduler is switched
      back to by the process that it switched to. */
  ghost predicate Sound(m: Machine, c: nat, x: Choice)
    requires c < |m.cpus|
  {
    var u := m.cpus[c];
    && (Acquires(m, c, x).Some? ==> Acquires(m, c, x).value < |m.locks| && m.locks[Acquires(m, c, x).value] != Some(c))
    && (Releases(m, c, x).Some? ==>
          Releases(m, c, x).value < |m.locks| && m.locks[Releases(m, c, x).value] == Some(c) && !u.intr && u.noff > 0)
    && match u.thread
       case Scheduler => true
       case Process(p) =>
         && p < |m.procs| && p < |m.locks|
         && (m.procs[p].pc.Leaving? ==>
               m.locks[p] == Some(c) && u.noff == 1 && m.procs[p].state != Running && !u.intr && u.place == Away(p))
         && (m.procs[p].pc.Kernel? && x == Pop ==> !u.intr && u.noff > 0)
         && (m.procs[p].pc.Back? ==> !m.procs[p].pc.w.Exit?)
  }

  ghost function NextCpu(m: Machine, c: nat, x: Choice): (r: Cpu)
    requires Ready(m, c, x) && Sound(m, c, x)
  {
    var u, n := m.cpus[c], |m.procs|;
    match u.thread
    case Scheduler =>
      (match u.place
       case Top(k) => PushOff(if k == 0 && u.noff == 0 then u.(intr := true) else u).(place := Holding(k))
       case Holding(k) =>
         if k < n && m.procs[k].state == Runnable then u.(proc := Some(k), thread := Process(k), place := Away(k))
         else u.(place := Releasing(k))
       case Away(k) => u
       case Resumed(k) => u.(proc := None, place := Releasing(k))
       case Releasing(k) => PopOff(u).(place := Top(if k + 1 < n then k + 1 else 0)))
    case Process(p) =>
      var y := m.procs[p];
      if Pushes(y.pc, x, p) then PushOff(u)
      else if Pops(y.pc, x, p) then PopOff(u)
      else if y.pc.Kernel? && x.Interrupts? then u.(intr := x.enabled)
      else if y.pc.Leaving? then u.(thread := Scheduler, place := Resumed(p))
      else if y.pc.Back? then u.(intena := y.saved)
      else u
  }

  predicate Pushes(pc: Pc, x: Choice, p: nat) {
    PcAcquires(pc, x, p).Some? || (pc.Kernel? && x == Push)
  }

  predicate Pops(pc: Pc, x: Choice, p: nat) {
    PcReleases(pc, x, p).Some? || (pc.Kernel? && x == Pop)
  }

  /** Does scheduler, on CPU c, switch to process q? */
  ghost predicate Starts(m: Machine, c: nat, q: nat)
    requires c < |m.cpus| && q < |m.procs|
  {
    m.cpus[c].thread == Scheduler && m.cpus[c].place == Holding(q) && m.procs[q].state == Runnable
  }

  /** Does the process on CPU c change process q? */
  ghost predicate Changes(m: Machine, c: nat, x: Choice, q: nat)
    requires c < |m.cpus|
  {
    && m.cpus[c].thread.Process? && m.cpus[c].thread.p < |m.procs|
    && m.procs[m.cpus[c].thread.p].pc.Kernel? && x == Change(q)
  }

  /** Where a step takes the process that makes it. */
  ghost function OwnPc(pc: Pc, x: Choice): (r: Pc) {
    match pc
    case Kernel(b, h) =>
      (match x
       case Push => Kernel(b + 1, h)
       case Pop => if b > 0 then Kernel(b - 1, h) else pc
       case Acquire(l) => Kernel(b, h + {l})
       case Release(l) => Kernel(b, h - {l})
       case Stop(w) => Locked(w, b, h)
       case _ => pc)
    case Locked(w, b, h) =>
      (match w
       case Sleep(lk) => Dropped(w, b, h)
       case Exit(lk) => Marked(w, b, h)
       case _ => Leaving(w, b, h))
    case Dropped(w, b, h) => Leaving(w, b, h)
    case Marked(w, b, h) => Leaving(w, b, h)
    case Leaving(w, b, h) => Gone(w)
    case Back(w) => Ending(w)
    case Ending(w) => if w.Sleep? || w.Tick? then Relock(w.lk) else Kernel(0, {})
    case Relock(lk) => if x == Stop(Yield) then Locked(Tick(lk), 0, {}) else Kernel(0, {lk})
    case _ => pc
  }

  ghost function NextPc(m: Machine, c: nat, x: Choice, q: nat): (r: Pc)
    requires c < |m.cpus| && q < |m.procs|
  {
    var y := m.procs[q];
    if Starts(m, c, q) then (match y.pc case Never => Ending(Yield) case Gone(w) => Back(w) case _ => y.pc)
    else if Changes(m, c, x, q) && y.state == Zombie then Never
    else if m.cpus[c].thread == Process(q) then OwnPc(y.pc, x)
    else y.pc
  }

  /** The state that a process gives itself: in yield and exit with its lock just acquired, in sleep
      after lk is released. */
  ghost function OwnState(y: Proc): (r: RunState) {
    match y.pc
    case Locked(w, b, h) => (match w case Sleep(lk) => y.state case Exit(lk) => Zombie case _ => Runnable)
    case Dropped(w, b, h) => Sleeping
    case _ => y.state
  }

  ghost function NextState(m: Machine, c: nat, x: Choice, q: nat): (r: RunState)
    requires c < |m.cpus| && q < |m.procs|
  {
    var y := m.procs[q];
    if Starts(m, c, q) then Running
    else if Changes(m, c, x, q) then
      match y.state case Sleeping => Runnable case Unused => Runnable case Zombie => Unused case _ => y.state
    else if m.cpus[c].thread == Process(q) then OwnState(y)
    else y.state
  }

  /** Is the step the thread's outermost push_off? */
  ghost predicate Outermost(pc: Pc, x: Choice) {
    || (pc == Kernel(0, {}) && (x == Push || x.Acquire? || x.Stop?))
    || pc.Relock?
  }

  ghost function NextProc(m: Machine, c: nat, x: Choice, q: nat): (r: Proc)
    requires c < |m.cpus| && q < |m.procs|
  {
    var u, y := m.cpus[c], m.procs[q];
    Proc(NextPc(m, c, x, q),
         NextState(m, c, x, q),
         if u.thread == Process(q) && y.pc.Leaving? then u.intena else y.saved,
         if u.thread == Process(q) && Outermost(y.pc, x) then u.intr
         else if Starts(m, c, q) && y.pc == Never then u.intena else y.wants,
         if Starts(m, c, q) then Some(c) else if u.thread == Process(q) && y.pc.Leaving? then None else y.on)
  }

  ghost function NextLock(m: Machine, c: nat, x: Choice, l: nat): (r: Option<nat>)
    requires c < |m.cpus| && l < |m.locks|
  {
    if Acquires(m, c, x) == Some(l) then Some(c) else if Releases(m, c, x) == Some(l) then None else m.locks[l]
  }

  ghost function Step(m: Machine, c: nat, x: Choice): (r: Machine)
    requires Ready(m, c, x) && Sound(m, c, x)
    ensures |r.cpus| == |m.cpus| && |r.procs| == |m.procs| && |r.locks| == |m.locks|
    ensures forall q: nat {:trigger r.procs[q]} :: q < |m.procs| ==> r.procs[q] == NextProc(m, c, x, q)
    ensures forall l: nat {:trigger r.locks[l]} :: l < |m.locks| ==> r.locks[l] == NextLock(m, c, x, l)
  {
    Machine(m.cpus[c := NextCpu(m, c, x)],
            seq(|m.procs|, q requires 0 <= q < |m.procs| => NextProc(m, c, x, q)),
            seq(|m.locks|, l requires 0 <= l < |m.locks| => NextLock(m, c, x, l)))
  }

  // ---------- the invariant ----------

  /** The locks that process p holds. */
  ghost function Held(pc: Pc, p: nat): (ls: set<nat>) {
    match pc
    case Kernel(b, h) => h
    case Locked(w, b, h) => h + {p}
    case Dropped(w, b, h) => h + {p} - Let(w)
    case Marked(w, b, h) => h + {p}
    case Leaving(w, b, h) => h + {p} - Let(w)
    case Back(w) => {p}
    case Ending(w) => {p}
    case _ => {}
  }

  /** The open push_offs of a process that is running: those of its own and one for each lock. */
  ghost function Open(pc: Pc): (n: int) {
    match pc
    case Kernel(b, h) => b + |h|
    case Locked(w, b, h) => b + |h| + 1
    case Dropped(w, b, h) => b + |h| + 1 - Lets(w)
    case Marked(w, b, h) => b + |h| + 1
    case Leaving(w, b, h) => b + |h| + 1 - Lets(w)
    case Relock(lk) => 0
    case _ => 1
  }

  /** The locks that the thread on a CPU holds. */
  ghost predicate Holds(m: Machine, c: nat, l: nat)
    requires c < |m.cpus|
  {
    match m.cpus[c].thread
    case Scheduler => m.cpus[c].place.k == l && !m.cpus[c].place.Top?
    case Process(p) => p < |m.procs| && l in Held(m.procs[p].pc, p)
  }

  /** noff counts the open push_offs of the thread, interrupts are off while there are any, and
      intena is what the thread wants back. */
  ghost predicate CpuOk(m: Machine, c: nat)
    requires c < |m.cpus|
  {
    var u := m.cpus[c];
    && (u.noff > 0 ==> !u.intr)
    && u.place.k < |m.procs|
    && match u.thread
       case Scheduler =>
         && !u.place.Away? && u.noff == (if u.place.Top? then 0 else 1)
         && u.proc == (if u.place.Resumed? then Some(u.place.k) else None)
       case Process(p) =>
         && p < |m.procs| && u.place == Away(p) && u.proc == Some(p) && m.procs[p].on == Some(c)
         && u.noff == Open(m.procs[p].pc)
         && (u.noff > 0 && !m.procs[p].pc.Back? ==> u.intena == m.procs[p].wants)
  }

  /** A process on its way to sched does not hold its own lock when it enters. */
  ghost predicate Entered(w: Way, h: set<nat>, p: nat, locks: nat) {
    p !in h && (w.Yield? || w.lk < locks) && p !in Let(w)
  }

  ghost predicate ProcOk(m: Machine, p: nat)
    requires p < |m.procs|
  {
    var y := m.procs[p];
    && (y.on.Some? ==> y.on.value < |m.cpus| && m.cpus[y.on.value].thread == Process(p))
    && match y.pc
       case Never => y.on == None && (y.state == Unused || y.state == Runnable)
       case Gone(w) =>
         && y.on == None && y.saved == y.wants && (w.Yield? || w.lk < |m.locks|)
         && (if w.Exit? then y.state == Zombie else y.state == Runnable || y.state == Sleeping)
       case Locked(w, b, h) => y.on.Some? && y.state == Running && Entered(w, h, p, |m.locks|)
       case Dropped(w, b, h) =>
         y.on.Some? && y.state == Running && Entered(w, h, p, |m.locks|) && w.Sleep? && w.lk in h
       case Marked(w, b, h) => y.on.Some? && y.state == Zombie && Entered(w, h, p, |m.locks|) && w.Exit?
       case Leaving(w, b, h) =>
         && y.on.Some? && Entered(w, h, p, |m.locks|) && Let(w) <= h
         && y.state == (match w case Sleep(lk) => Sleeping case Exit(lk) => Zombie case _ => Runnable)
       case Back(w) =>
         y.on.Some? && y.state == Running && y.saved == y.wants && !w.Exit? && (w.Yield? || w.lk < |m.locks|)
       case Ending(w) => y.on.Some? && y.state == Running && !w.Exit? && (w.Yield? || w.lk < |m.locks|)
       case Relock(lk) => y.on.Some? && y.state == Running && lk < |m.locks|
       case _ => y.on.Some? && y.state == Running
  }

  ghost predicate Inv(m: Machine) {
    && 0 < |m.procs| <= |m.locks|
    && (forall c: nat {:trigger CpuOk(m, c)} :: c < |m.cpus| ==> CpuOk(m, c))
    && (forall p: nat {:trigger ProcOk(m, p)} :: p < |m.procs| ==> ProcOk(m, p))
    && (forall c: nat, l: nat {:trigger Holds(m, c, l)} :: c < |m.cpus| && l < |m.locks| ==>
          (Holds(m, c, l) <==> m.locks[l] == Some(c)))
    && (forall c: nat, l: nat {:trigger Holds(m, c, l)} :: c < |m.cpus| && Holds(m, c, l) ==> l < |m.locks|)
  }

  // ---------- every step keeps it ----------

  /** n processes that have not run, on CPUs whose schedulers are about to begin. */
  ghost function Init(cpus: nat, n: nat, locks: nat): (m: Machine) {
    Machine(seq(cpus, i => Cpu(0, false, false, None, Scheduler, Top(0))),
            seq(n, i => Proc(Never, if i == 0 then Runnable else Unused, false, false, None)),
            seq(locks, i => None))
  }

  lemma InitOk(cpus: nat, n: nat, locks: nat)
    requires 0 < n <= locks
    ensures Inv(Init(cpus, n, locks))
  {
    var m := Init(cpus, n, locks);
    forall c: nat | c < cpus
      ensures CpuOk(m, c)
    {
    }
    forall p: nat | p < n
      ensures ProcOk(m, p)
    {
    }
  }

  /** What a caller can know before a step that might panic. */
  ghost predicate PcFine(pc: Pc, x: Choice, p: nat) {
    match pc
    case Kernel(b, h) =>
      (match x
       case Acquire(l) => l !in h
       case Release(l) => l in h
       case Stop(w) => p !in h
       case _ => true)
    case Locked(w, b, h) => w.Sleep? ==> w.lk in h
    case Marked(w, b, h) => w.Exit? ==> w.lk in h
    case Leaving(w, b, h) => b + |h| == Lets(w)
    case _ => true
  }

  ghost predicate Fine(m: Machine, c: nat, x: Choice)
    requires c < |m.cpus|
  {
    match m.cpus[c].thread
    case Scheduler => true
    case Process(p) => p < |m.procs| && PcFine(m.procs[p].pc, x, p)
  }

  /** How many push_offs are open after a step of the process itself. */
  lemma OpenNext(pc: Pc, x: Choice, p: nat)
    requires PcFine(pc, x, p) && !pc.Leaving? && !pc.Never? && !pc.Gone?
    requires pc.Kernel? && x == Pop ==> pc.bare > 0
    requires (pc.Dropped? ==> pc.w.Sleep?) && (pc.Marked? ==> pc.w.Exit?)
    ensures Open(OwnPc(pc, x)) == Open(pc) + (if Pushes(pc, x, p) then 1 else 0) - (if Pops(pc, x, p) then 1 else 0)
    ensures !(Pushes(pc, x, p) && Pops(pc, x, p))
  {
    if pc.Kernel? && x.Release? {
      OnlyOne(pc.held, x.l);
    }
  }

  /** A set of one element. */
  lemma OnlyOne(h: set<nat>, l: nat)
    requires l in h
    ensures |h - {l}| == |h| - 1
    ensures |h| == 1 ==> h == {l}
  {
    if |h| == 1 {
      assert |h - {l}| == 0;
    }
  }

  /** Exactly when a step makes the kernel panic: acquire by a thread that holds the lock, release
      by one that does not, and sched by a process that entered yield with any push_off open, or sleep
      or exit with any other than that of the one lock to be let go. No other check ever fails. */
  lemma PanicsExactly(m: Machine, c: nat, x: Choice)
    requires Inv(m) && Ready(m, c, x)
    ensures Sound(m, c, x) <==> Fine(m, c, x)
  {
    var u := m.cpus[c];
    assert CpuOk(m, c);
    if u.thread.Process? {
      assert ProcOk(m, u.thread.p);
      assert Holds(m, c, u.thread.p) <==> m.locks[u.thread.p] == Some(c);
    }
    if Releases(m, c, x).Some? {
      var l := Releases(m, c, x).value;
      assert Holds(m, c, l) <==> m.locks[l] == Some(c);
    }
    if Acquires(m, c, x).Some? {
      var l := Acquires(m, c, x).value;
      assert Holds(m, c, l) <==> m.locks[l] == Some(c);
    }
  }

  ghost predicate Moves(m: Machine, c: nat, x: Choice, r: Machine) {
    Ready(m, c, x) && Sound(m, c, x) && r == Step(m, c, x)
  }

  /** What the step of CPU c does to process q, if q does not run there. */
  lemma OtherProc(m: Machine, c: nat, x: Choice, r: Machine, q: nat)
    requires Inv(m) && Moves(m, c, x, r) && q < |m.procs| && m.cpus[c].thread != Process(q)
    ensures ProcOk(r, q) == true
  {
    assert CpuOk(m, c) && ProcOk(m, q);
    assert Holds(m, c, q) <==> m.locks[q] == Some(c);
    if m.procs[q].on.Some? {
      assert CpuOk(m, m.procs[q].on.value);
      assert Holds(m, m.procs[q].on.value, q) <==> m.locks[q] == m.procs[q].on;
    }
  }

  /** What is known about the process that makes a step. */
  ghost predicate Local(m: Machine, c: nat, x: Choice, p: nat) {
    && c < |m.cpus| && p < |m.procs| && m.cpus[c].thread == Process(p)
    && CpuOk(m, c) && ProcOk(m, p) && PcFine(m.procs[p].pc, x, p)
  }

  lemma Locally(m: Machine, c: nat, x: Choice, p: nat)
    requires Inv(m) && Ready(m, c, x) && Sound(m, c, x) && m.cpus[c].thread == Process(p)
    ensures Local(m, c, x, p) == true
  {
    assert CpuOk(m, c) && ProcOk(m, p);
    PanicsExactly(m, c, x);
  }

  lemma OwnProc(m: Machine, c: nat, x: Choice, r: Machine, p: nat)
    requires Local(m, c, x, p) && Moves(m, c, x, r)
    ensures ProcOk(r, p) == true
  {
  }

  /** A process that scheduler switches to is not running anywhere. */
  lemma StartPc(m: Machine, c: nat, q: nat)
    requires Inv(m) && c < |m.cpus| && q < |m.procs| && Starts(m, c, q)
    ensures m.procs[q].on == None && (m.procs[q].pc.Never? || (m.procs[q].pc.Gone? && !m.procs[q].pc.w.Exit?))
  {
    assert CpuOk(m, c) && ProcOk(m, q);
    assert Holds(m, c, q) <==> m.locks[q] == Some(c);
    if m.procs[q].on.Some? {
      assert CpuOk(m, m.procs[q].on.value);
      assert Holds(m, m.procs[q].on.value, q) <==> m.locks[q] == m.procs[q].on;
    }
  }

  lemma SchedulerCpu(m: Machine, c: nat, x: Choice, r: Machine)
    requires Inv(m) && Moves(m, c, x, r) && m.cpus[c].thread == Scheduler
    ensures CpuOk(r, c) == true
  {
    var k := m.cpus[c].place.k;
    assert CpuOk(m, c) && ProcOk(m, k);
    if Starts(m, c, k) {
      StartPc(m, c, k);
    }
    assert r.cpus[c] == NextCpu(m, c, x);
  }

  lemma ProcessCpu(m: Machine, c: nat, x: Choice, r: Machine, p: nat)
    requires Local(m, c, x, p) && Moves(m, c, x, r)
    ensures CpuOk(r, c) == true
  {
    OwnMove(m, c, x, r, p);
    assert r.cpus[c] == NextCpu(m, c, x);
    if !m.procs[p].pc.Leaving? {
      OpenNext(m.procs[p].pc, x, p);
      assert r.procs[p] == NextProc(m, c, x, p);
    }
  }

  lemma OtherCpu(m: Machine, c: nat, x: Choice, r: Machine, d: nat)
    requires Inv(m) && Moves(m, c, x, r) && d < |m.cpus| && d != c
    ensures CpuOk(r, d) == true
  {
    assert CpuOk(m, c) && CpuOk(m, d);
    if m.cpus[d].thread.Process? {
      var p := m.cpus[d].thread.p;
      assert ProcOk(m, p);
      assert Holds(m, d, p) <==> m.locks[p] == Some(d);
      assert Holds(m, c, p) <==> m.locks[p] == Some(c);
    }
  }

  lemma SchedulerLocks(m: Machine, c: nat, x: Choice, r: Machine, l: nat)
    requires Inv(m) && Moves(m, c, x, r) && l < |m.locks| && m.cpus[c].thread == Scheduler
    ensures Holds(r, c, l) <==> r.locks[l] == Some(c)
  {
    var k := m.cpus[c].place.k;
    assert CpuOk(m, c) && ProcOk(m, k);
    assert Holds(m, c, l) <==> m.locks[l] == Some(c);
    if Starts(m, c, k) {
      StartPc(m, c, k);
    }
    assert r.cpus[c] == NextCpu(m, c, x);
  }

  /** The locks that a process holds change as the step says. */
  lemma HeldNext(pc: Pc, x: Choice, p: nat, l: nat)
    requires PcFine(pc, x, p) && !pc.Never? && !pc.Gone?
    requires pc.Locked? || pc.Dropped? || pc.Marked? || pc.Leaving? ==> p !in pc.held && p !in Let(pc.w)
    requires pc.Dropped? || pc.Leaving? ==> Let(pc.w) <= pc.held
    requires (pc.Dropped? ==> pc.w.Sleep?) && (pc.Marked? ==> pc.w.Exit?)
    ensures !pc.Leaving? ==>
              (l in Held(OwnPc(pc, x), p) <==>
               PcAcquires(pc, x, p) == Some(l) || (PcReleases(pc, x, p) != Some(l) && l in Held(pc, p)))
    ensures pc.Leaving? ==> Held(pc, p) == {p}
  {
    if pc.Leaving? && Lets(pc.w) == 1 {
      OnlyOne(pc.held, pc.w.lk);
    }
  }

  /** Where the process that makes a step and its CPU are after it. */
  lemma OwnMove(m: Machine, c: nat, x: Choice, r: Machine, p: nat)
    requires Local(m, c, x, p) && Moves(m, c, x, r)
    ensures r.procs[p].pc == OwnPc(m.procs[p].pc, x)
    ensures r.cpus[c].thread == if m.procs[p].pc.Leaving? then Scheduler else Process(p)
    ensures m.procs[p].pc.Leaving? ==> r.cpus[c].place == Resumed(p)
  {
    assert r.cpus[c] == NextCpu(m, c, x) && r.procs[p] == NextProc(m, c, x, p);
  }

  lemma ProcessLocks(m: Machine, c: nat, x: Choice, r: Machine, p: nat, l: nat)
    requires Local(m, c, x, p) == true && Moves(m, c, x, r) == true && l < |m.locks| == |r.locks|
    requires Holds(m, c, l) <==> m.locks[l] == Some(c)
    ensures Holds(r, c, l) <==> r.locks[l] == Some(c)
  {
    OwnMove(m, c, x, r, p);
    HeldNext(m.procs[p].pc, x, p, l);
    assert r.locks[l] == NextLock(m, c, x, l);
  }

  lemma OtherLocks(m: Machine, c: nat, x: Choice, r: Machine, d: nat, l: nat)
    requires Inv(m) && Moves(m, c, x, r) && d < |m.cpus| && d != c && l < |m.locks|
    ensures Holds(r, d, l) <==> r.locks[l] == Some(d)
  {
    assert CpuOk(m, c) && CpuOk(m, d);
    assert Holds(m, d, l) <==> m.locks[l] == Some(d);
    assert Holds(m, c, l) <==> m.locks[l] == Some(c);
    if m.cpus[d].thread.Process? {
      OtherPc(m, c, x, d, m.cpus[d].thread.p);
    }
  }

  /** A process that runs on another CPU stays where it is. */
  lemma OtherPc(m: Machine, c: nat, x: Choice, d: nat, p: nat)
    requires Inv(m) && Ready(m, c, x) && d < |m.cpus| && d != c && m.cpus[d].thread == Process(p)
    ensures p < |m.procs| && NextPc(m, c, x, p) == m.procs[p].pc
  {
    assert CpuOk(m, c) && CpuOk(m, d) && ProcOk(m, p);
    assert Holds(m, d, p) <==> m.locks[p] == Some(d);
    assert Holds(m, c, p) <==> m.locks[p] == Some(c);
  }

  /** Every step of every thread keeps the invariant. */
  lemma StepKeeps(m: Machine, c: nat, x: Choice)
    requires Inv(m) && Ready(m, c, x) && Sound(m, c, x)
    ensures Inv(Step(m, c, x))
  {
    var r := Step(m, c, x);
    forall p: nat | p < |r.procs|
      ensures ProcOk(r, p)
    {
      if m.cpus[c].thread == Process(p) {
        Locally(m, c, x, p);
        OwnProc(m, c, x, r, p);
      } else {
        OtherProc(m, c, x, r, p);
      }
    }
    forall d: nat | d < |r.cpus|
      ensures CpuOk(r, d)
    {
      if d != c {
        OtherCpu(m, c, x, r, d);
      } else if m.cpus[c].thread == Scheduler {
        SchedulerCpu(m, c, x, r);
      } else {
        Locally(m, c, x, m.cpus[c].thread.p);
        ProcessCpu(m, c, x, r, m.cpus[c].thread.p);
      }
    }
    forall d: nat, l: nat | d < |r.cpus| && l < |r.locks|
      ensures Holds(r, d, l) <==> r.locks[l] == Some(d)
    {
      if d != c {
        OtherLocks(m, c, x, r, d, l);
      } else if m.cpus[c].thread == Scheduler {
        SchedulerLocks(m, c, x, r, l);
      } else {
        Locally(m, c, x, m.cpus[c].thread.p);
        assert Holds(m, c, l) <==> m.locks[l] == Some(c);
        ProcessLocks(m, c, x, r, m.cpus[c].thread.p, l);
      }
    }
    forall d: nat, l: nat | d < |r.cpus| && Holds(r, d, l)
      ensures l < |r.locks|
    {
      LocksExist(m, c, x, r, d, l);
    }
  }

  lemma LocksExist(m: Machine, c: nat, x: Choice, r: Machine, d: nat, l: nat)
    requires Inv(m) && Moves(m, c, x, r) && d < |m.cpus| && Holds(r, d, l)
    ensures l < |r.locks|
  {
    assert CpuOk(m, c) && CpuOk(m, d) && (Holds(m, d, l) ==> l < |m.locks|);
    if d != c {
      if m.cpus[d].thread.Process? {
        OtherPc(m, c, x, d, m.cpus[d].thread.p);
      }
    } else if m.cpus[c].thread.Process? {
      Locally(m, c, x, m.cpus[c].thread.p);
      OwnMove(m, c, x, r, m.cpus[c].thread.p);
      HeldNext(m.procs[m.cpus[c].thread.p].pc, x, m.cpus[c].thread.p, l);
    } else if Starts(m, c, m.cpus[c].place.k) {
      StartPc(m, c, m.cpus[c].place.k);
    }
  }

  // ---------- runs ----------

  datatype Turn = Turn(c: nat, x: Choice)

  /** The given turns, none of which makes the kernel panic, lead from m to r. */
  ghost predicate Leads(m: Machine, turns: seq<Turn>, r: Machine)
    decreases |turns|
  {
    if turns == [] then r == m
    else
      var rest, t := turns[..|turns| - 1], turns[|turns| - 1];
      exists before: Machine :: Leads(m, rest, before) && Moves(before, t.c, t.x, r)
  }

  ghost predicate Reached(cpus: nat, n: nat, locks: nat, turns: seq<Turn>, m: Machine) {
    Leads(Init(cpus, n, locks), turns, m)
  }

  lemma {:induction false} LeadsOk(m: Machine, turns: seq<Turn>, r: Machine)
    requires Inv(m) && Leads(m, turns, r)
    ensures Inv(r)
    decreases |turns|
  {
    if turns != [] {
      var rest, t := turns[..|turns| - 1], turns[|turns| - 1];
      var before: Machine :| Leads(m, rest, before) && Moves(before, t.c, t.x, r);
      LeadsOk(m, rest, before);
      StepKeeps(before, t.c, t.x);
    }
  }

  lemma EveryRun(cpus: nat, n: nat, locks: nat, turns: seq<Turn>, m: Machine)
    requires 0 < n <= locks && Reached(cpus, n, locks, turns, m)
    ensures Inv(m)
  {
    InitOk(cpus, n, locks);
    LeadsOk(Init(cpus, n, locks), turns, m);
  }

  /** In every run: a process executes on at most one CPU; noff is the number of push_offs that the
      thread on that CPU has open, one for each lock it holds among them, and interrupts are off
      while there are any; the CPU recorded in a lock is the one whose thread holds it; the next step
      panics exactly if its caller has broken a rule that it could have checked; the lock that
      scheduler releases is that of the process which has just switched back, held by this CPU; and a
      process that goes on in sched, on whatever CPU, has interrupts restored as they were for it. */
  lemma HandOffWorks(cpus: nat, n: nat, locks: nat, turns: seq<Turn>, m: Machine, c: nat, d: nat, p: nat, l: nat,
        x: Choice)
    requires 0 < n <= locks && Reached(cpus, n, locks, turns, m)
    requires c < |m.cpus| && d < |m.cpus| && p < |m.procs| && l < |m.locks|
    ensures m.cpus[c].thread == m.cpus[d].thread == Process(p) ==> c == d
    ensures m.cpus[c].thread == Process(p) ==> m.cpus[c].noff == Open(m.procs[p].pc) && m.cpus[c].proc == Some(p)
    ensures m.cpus[c].noff > 0 ==> !m.cpus[c].intr
    ensures Holds(m, c, l) <==> m.locks[l] == Some(c)
    ensures Ready(m, c, x) ==> (Sound(m, c, x) <==> Fine(m, c, x))
    ensures m.cpus[c].thread == Scheduler && m.cpus[c].place.Resumed? ==>
              m.cpus[c].proc == Some(m.cpus[c].place.k) && m.cpus[c].place.k < |m.locks|
              && m.locks[m.cpus[c].place.k] == Some(c)
    ensures m.cpus[c].thread == Process(p) && m.procs[p].pc.Ending? ==> m.cpus[c].intena == m.procs[p].wants
  {
    EveryRun(cpus, n, locks, turns, m);
    assert CpuOk(m, c) && CpuOk(m, d) && ProcOk(m, p);
    if Ready(m, c, x) {
      PanicsExactly(m, c, x);
    }
    if m.cpus[c].thread == Scheduler {
      assert Holds(m, c, m.cpus[c].place.k) <==> m.locks[m.cpus[c].place.k] == Some(c);
    }
  }

  // ---------- from the call to the checks of sched ----------

  predicate OnWay(pc: Pc) {
    pc.Locked? || pc.Dropped? || pc.Marked? || pc.Leaving?
  }

  /** The call of yield, sleep or exit by which a process came to `to`. */
  predicate CalledAs(pc: Pc, x: Choice, to: Pc)
    requires OnWay(to)
  {
    if to.w.Tick? then pc == Relock(to.w.lk) && x == Stop(Yield) && to.bare == 0 && to.held == {}
    else pc == Kernel(to.bare, to.held) && x == Stop(to.w)
  }

  /** A process comes there by a call, and what it carries is what it had open then. */
  lemma WayStep(m: Machine, c: nat, x: Choice, r: Machine, p: nat)
    requires Moves(m, c, x, r) == true && p < |m.procs| && p < |r.procs| && OnWay(r.procs[p].pc)
    ensures c < |m.cpus|
    ensures OnWay(m.procs[p].pc) ==>
              var a, b := m.procs[p].pc, r.procs[p].pc; a.w == b.w && a.bare == b.bare && a.held == b.held
    ensures !OnWay(m.procs[p].pc) ==>
              m.cpus[c].thread == Process(p) && CalledAs(m.procs[p].pc, x, r.procs[p].pc)
  {
    assert r.procs[p].pc == NextPc(m, c, x, p);
  }

  lemma Slices(turns: seq<Turn>, k: nat)
    requires k < |turns|
    ensures var rest := turns[..|turns| - 1];
            rest[..k] == turns[..k] && rest[k..] + [turns[|turns| - 1]] == turns[k..]
    ensures k == |turns| - 1 ==> turns[..|turns| - 1][k..] == []
  {
  }

  lemma LeadsMore(m: Machine, turns: seq<Turn>, before: Machine, t: Turn, r: Machine)
    requires Leads(m, turns, before) == Moves(before, t.c, t.x, r) == true
    ensures Leads(m, turns + [t], r) == true
  {
    var all := turns + [t];
    assert all[..|all| - 1] == turns && all[|all| - 1] == t;
  }

  lemma LeadsBack(m: Machine, turns: seq<Turn>, r: Machine) returns (before: Machine)
    requires Leads(m, turns, r) == true && turns != []
    ensures var t := turns[|turns| - 1];
            Leads(m, turns[..|turns| - 1], before) == Moves(before, t.c, t.x, r) == true
    ensures |before.procs| == |r.procs|
  {
    var t := turns[|turns| - 1];
    before :| Leads(m, turns[..|turns| - 1], before) && Moves(before, t.c, t.x, r);
  }

  /** The last call before a moment on the way. */
  lemma {:induction false} CallOf(m: Machine, turns: seq<Turn>, r: Machine, p: nat) returns (k: nat, before: Machine)
    requires Leads(m, turns, r) == true && p < |m.procs| && |r.procs| == |m.procs|
    requires !OnWay(m.procs[p].pc) && OnWay(r.procs[p].pc) && turns != []
    ensures k < |turns| && Leads(m, turns[..k], before) == Leads(before, turns[k..], r) == true
    ensures |before.procs| == |m.procs|
    ensures turns[k].c < |before.cpus| && before.cpus[turns[k].c].thread == Process(p)
    ensures CalledAs(before.procs[p].pc, turns[k].x, r.procs[p].pc) == true
    decreases |turns|
  {
    var rest, t := turns[..|turns| - 1], turns[|turns| - 1];
    var mid := LeadsBack(m, turns, r);
    WayStep(mid, t.c, t.x, r, p);
    if OnWay(mid.procs[p].pc) {
      assert rest == [] ==> mid == m;
      k, before := CallOf(m, rest, mid, p);
      Slices(turns, k);
      LeadsMore(before, rest[k..], mid, t, r);
    } else {
      k, before := |turns| - 1, mid;
      Slices(turns, k);
      LeadsMore(before, rest[k..], mid, t, r);
    }
  }

  /** The checks of sched pass if and only if noff was 0 when the process called yield, or 1, for the lock
      to be let go, when it called sleep or exit. */
  lemma SchedChecks(cpus: nat, n: nat, locks: nat, turns: seq<Turn>, m: Machine, c: nat, x: Choice, p: nat)
    returns (k: nat, before: Machine)
    requires 0 < n <= locks && Reached(cpus, n, locks, turns, m) == Ready(m, c, x) == true
    requires c < |m.cpus| && m.cpus[c].thread == Process(p) && p < |m.procs| && m.procs[p].pc.Leaving?
    ensures k < |turns| && Reached(cpus, n, locks, turns[..k], before) == Leads(before, turns[k..], m) == true
    ensures turns[k].c < |before.cpus| && before.cpus[turns[k].c].thread == Process(p) && p < |before.procs|
    ensures CalledAs(before.procs[p].pc, turns[k].x, m.procs[p].pc) == true
    ensures Sound(m, c, x) <==> before.cpus[turns[k].c].noff == Lets(m.procs[p].pc.w)
  {
    EveryRun(cpus, n, locks, turns, m);
    SameSize(Init(cpus, n, locks), turns, m);
    k, before := CallOf(Init(cpus, n, locks), turns, m, p);
    EveryRun(cpus, n, locks, turns[..k], before);
    NoffThen(before, turns[k].c, p, turns[k].x, m.procs[p].pc);
    LeavingChecked(m, c, x, p);
  }

  lemma NoffThen(m: Machine, c: nat, p: nat, x: Choice, to: Pc)
    requires Inv(m) == true && c < |m.cpus| && m.cpus[c].thread == Process(p) && p < |m.procs|
    requires OnWay(to) && CalledAs(m.procs[p].pc, x, to) == true
    ensures m.cpus[c].noff == to.bare + |to.held|
  {
    assert CpuOk(m, c);
  }

  lemma LeavingChecked(m: Machine, c: nat, x: Choice, p: nat)
    requires Inv(m) == Ready(m, c, x) == true && c < |m.cpus| && m.cpus[c].thread == Process(p)
    requires p < |m.procs| && m.procs[p].pc.Leaving?
    ensures Sound(m, c, x) <==> m.procs[p].pc.bare + |m.procs[p].pc.held| == Lets(m.procs[p].pc.w)
  {
    PanicsExactly(m, c, x);
  }

  lemma {:induction false} SameSize(m: Machine, turns: seq<Turn>, r: Machine)
    requires Leads(m, turns, r)
    ensures |r.procs| == |m.procs| && |r.cpus| == |m.cpus|
    decreases |turns|
  {
    if turns != [] {
      var rest, t := turns[..|turns| - 1], turns[|turns| - 1];
      var before: Machine :| Leads(m, rest, before) && Moves(before, t.c, t.x, r);
      SameSize(m, rest, before);
    }
  }

  // ---------- what the calls come to ----------

  /** The pcs of sleep on lk, of yield, and of exit, from where p->lock is held. */
  predicate InSleep(pc: Pc, lk: nat) {
    pc == Relock(lk) || (Stopping(pc) && (pc.w == Sleep(lk) || pc.w == Tick(lk)))
  }

  predicate Stopping(pc: Pc) {
    OnWay(pc) || pc.Gone? || pc.Back? || pc.Ending?
  }

  /** sleep returns with lk, and nothing else, held again; yield returns with nothing held; exit does not
      return: what a process is at then is either that or still in the call. (A zombie that wait frees has
      not begun.) */
  lemma WaysEnd(m: Machine, c: nat, x: Choice, p: nat, lk: nat)
    requires Inv(m) && Ready(m, c, x) && Sound(m, c, x) && p < |m.procs|
    ensures var pc, pc' := m.procs[p].pc, Step(m, c, x).procs[p].pc;
            && (InSleep(pc, lk) ==> InSleep(pc', lk) || pc' == Kernel(0, {lk}))
            && (Stopping(pc) && pc.w == Yield ==> (Stopping(pc') && pc'.w == Yield) || pc' == Kernel(0, {}))
            && (Stopping(pc) && pc.w.Exit? ==> (Stopping(pc') && pc'.w == pc.w) || pc' == Never)
  {
    var r := Step(m, c, x);
    assert r.procs[p].pc == NextPc(m, c, x, p);
    assert CpuOk(m, c) && ProcOk(m, p);
    assert Holds(m, c, p) <==> m.locks[p] == Some(c);
    if m.procs[p].on.Some? {
      assert CpuOk(m, m.procs[p].on.value);
      assert Holds(m, m.procs[p].on.value, p) <==> m.locks[p] == m.procs[p].on;
    }
  }

  /** scheduler goes round the table: it runs each process that it finds runnable, and goes on to the next
      one when that has switched back, or is not to be run. */
  lemma GoesRound(m: Machine, c: nat, x: Choice)
    requires Inv(m) && Ready(m, c, x) && Sound(m, c, x) && m.cpus[c].thread == Scheduler
    ensures var k, n, u, r := m.cpus[c].place.k, |m.procs|, m.cpus[c], Step(m, c, x);
            var u' := r.cpus[c];
            && k < n && (u.place.Top? ==> u'.place == Holding(k) && u'.thread == Scheduler)
            && (u.place.Holding? && m.procs[k].state == Runnable ==>
                  u'.thread == Process(k) && u'.proc == Some(k) && r.procs[k].state == Running)
            && (u.place.Holding? && m.procs[k].state != Runnable ==>
                  u'.thread == Scheduler && u'.place == Releasing(k) && u'.proc == None)
            && (u.place.Resumed? ==> u'.thread == Scheduler && u'.place == Releasing(k) && u'.proc == None)
            && (u.place.Releasing? ==>
                  u'.thread == Scheduler && u'.place == Top(if k == n - 1 then 0 else k + 1)
                  && k < |r.locks| && r.locks[k] == None)
  {
    assert CpuOk(m, c);
    var k := m.cpus[c].place.k;
    assert Step(m, c, x).cpus[c] == NextCpu(m, c, x);
    assert Step(m, c, x).procs[k] == NextProc(m, c, x, k);
    assert Step(m, c, x).locks[k] == NextLock(m, c, x, k);
  }

  /** A process that another one wakes or starts is runnable, and one that has been freed can be made
      again. */
  lemma ChangeDoes(m: Machine, c: nat, q: nat)
    requires Inv(m) && Ready(m, c, Change(q)) && Sound(m, c, Change(q)) && m.cpus[c].thread.Process?
    requires m.procs[m.cpus[c].thread.p].pc.Kernel? && q < |m.procs|
    ensures var before, after := m.procs[q].state, Step(m, c, Change(q)).procs[q].state;
            && (before == Sleeping || before == Unused ==> after == Runnable)
            && (before == Zombie ==> after == Unused)
            && (before == Running || before == Runnable ==> after == before)
  {
    assert Step(m, c, Change(q)).procs[q] == NextProc(m, c, Change(q), q);
    assert CpuOk(m, c) && ProcOk(m, q) && ProcOk(m, m.cpus[c].thread.p);
  }

  // ---------- callers that keep the rules ----------

  /** The rules: no lock is acquired twice or released without being held, and yield, sleep and exit
      are called with no lock held but the one to be let go. */
  ghost predicate Polite(m: Machine, c: nat, x: Choice)
    requires c < |m.cpus|
  {
    m.cpus[c].thread.Process? && m.cpus[c].thread.p < |m.procs| ==>
      var p := m.cpus[c].thread.p;
      var pc := m.procs[p].pc;
      pc.Kernel? ==> PcFine(pc, x, p) && (x.Stop? ==> pc.bare + |pc.held| == Lets(x.w) && Let(x.w) <= pc.held)
  }

  predicate Mannerly(pc: Pc) {
    pc.Locked? || pc.Dropped? || pc.Marked? || pc.Leaving? ==>
      pc.bare + |pc.held| == Lets(pc.w) && Let(pc.w) <= pc.held
  }

  ghost predicate PoliteRun(cpus: nat, n: nat, locks: nat, turns: seq<Turn>, m: Machine)
    decreases |turns|
  {
    if turns == [] then m == Init(cpus, n, locks)
    else
      var rest, t := turns[..|turns| - 1], turns[|turns| - 1];
      exists before: Machine :: PoliteRun(cpus, n, locks, rest, before) && Moves(before, t.c, t.x, m)
                                && Polite(before, t.c, t.x)
  }

  lemma MannerlyStep(m: Machine, c: nat, x: Choice, r: Machine, p: nat)
    requires Moves(m, c, x, r) && Polite(m, c, x) && p < |m.procs| && Mannerly(m.procs[p].pc) == true
    ensures Mannerly(r.procs[p].pc) == true
  {
    assert r.procs[p].pc == NextPc(m, c, x, p);
    if m.cpus[c].thread == Process(p) {
      MannerlyOwn(m.procs[p].pc, x);
    }
  }

  lemma MannerlyOwn(pc: Pc, x: Choice)
    requires Mannerly(pc)
    requires pc.Kernel? && x.Stop? ==> pc.bare + |pc.held| == Lets(x.w) && Let(x.w) <= pc.held
    ensures Mannerly(OwnPc(pc, x)) == true
  {
  }

  lemma {:induction false} PoliteRunOk(cpus: nat, n: nat, locks: nat, turns: seq<Turn>, m: Machine)
    requires PoliteRun(cpus, n, locks, turns, m)
    ensures Reached(cpus, n, locks, turns, m)
    ensures forall p: nat {:trigger m.procs[p]} :: p < |m.procs| ==> Mannerly(m.procs[p].pc)
    decreases |turns|
  {
    if turns != [] {
      var rest, t := turns[..|turns| - 1], turns[|turns| - 1];
      var before: Machine :| PoliteRun(cpus, n, locks, rest, before) && Moves(before, t.c, t.x, m)
                             && Polite(before, t.c, t.x);
      PoliteRunOk(cpus, n, locks, rest, before);
      forall p: nat | p < |m.procs|
        ensures Mannerly(m.procs[p].pc)
      {
        assert Mannerly(before.procs[p].pc);
        MannerlyStep(before, t.c, t.x, m, p);
      }
    }
  }

  /** As long as callers keep the rules, nothing panics. */
  lemma NoPanic(cpus: nat, n: nat, locks: nat, turns: seq<Turn>, m: Machine, c: nat, x: Choice)
    requires 0 < n <= locks && PoliteRun(cpus, n, locks, turns, m) && Ready(m, c, x) && Polite(m, c, x)
    ensures Sound(m, c, x)
  {
    PoliteRunOk(cpus, n, locks, turns, m);
    EveryRun(cpus, n, locks, turns, m);
    PanicsExactly(m, c, x);
    if m.cpus[c].thread.Process? {
      assert Mannerly(m.procs[m.cpus[c].thread.p].pc);
    }
  }
}
