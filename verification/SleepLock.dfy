/** Sleep locks over sleep and wakeup, as a machine whose steps are the accesses to shared
    memory of acquiresleep, releasesleep, holdingsleep, sleep, wakeup and kill, in any
    interleaving of any number of processes on any number of locks. */
module SleepLock {
  import opened Options

  datatype RunState = Running | Runnable | Sleeping

  /** Where a process is; l is the sleep lock it works on. */
  datatype Pc =
    | Idle
      // acquiresleep: acquire lk->lk; test lk->locked; set it; set pid; release
    | Enter(l: nat) | Test(l: nat) | Grab(l: nat) | Sign(l: nat) | Leave(l: nat)
      // sleep: acquire p->lock; release lk; set chan; set SLEEPING; switch away; asleep;
      // back with p->lock held: clear chan; release p->lock; acquire lk
    | OwnLock(l: nat) | LetGo(l: nat) | SetChan(l: nat) | Doze(l: nat) | Switch(l: nat)
    | Asleep(l: nat) | ClearChan(l: nat) | Release(l: nat) | Again(l: nat)
      // releasesleep: acquire lk->lk; clear locked; clear pid; wakeup(lk); release
    | Free(l: nat) | Unlock(l: nat) | Unsign(l: nat) | Scan(l: nat, k: nat) | Wake(l: nat, k: nat) | Finish(l: nat)
      // holdingsleep: acquire lk->lk; look; release
    | Ask(l: nat) | Look(l: nat) | Told(l: nat, yes: bool)
      // kill: acquire a process's lock; look at it and release
    | Hunt(k: nat, victim: nat) | Strike(k: nat, victim: nat)

  /** Per process: pc, state, chan, p->lock (who holds it) and the sleep locks it has been
      given. Per sleep lock: lk->lk (who holds it), locked, pid. */
  datatype Machine = Machine(pc: seq<Pc>, state: seq<RunState>, chan: seq<Option<nat>>, plock: seq<Option<nat>>,
                             given: seq<set<nat>>, lk: seq<Option<nat>>, locked: seq<bool>, pid: seq<Option<nat>>)

  ghost predicate Sized(m: Machine) {
    && |m.pc| == |m.state| == |m.chan| == |m.plock| == |m.given|
    && |m.lk| == |m.locked| == |m.pid|
  }

  ghost function Init(n: nat, locks: nat): (m: Machine) {
    Machine(seq(n, i => Idle), seq(n, i => Running), seq(n, i => None), seq(n, i => None), seq(n, i => {}),
            seq(locks, i => None), seq(locks, i => false), seq(locks, i => None))
  }

  // ---------- the steps ----------

  /** What a process may begin when it is idle: a lock is released only by the process that it
      was given to. */
  ghost predicate MayBegin(m: Machine, p: nat, next: Pc)
    requires Sized(m) && p < |m.pc|
  {
    match next
    case Enter(l) => l < |m.lk|
    case Free(l) => l < |m.lk| && l in m.given[p]
    case Ask(l) => l < |m.lk|
    case Hunt(k, v) => k == 0 && v < |m.pc|
    case _ => false
  }

  /** Where a step leads. */
  ghost function NextPc(m: Machine, p: nat, next: Pc): (c: Pc)
    requires Sized(m) && p < |m.pc| && PcOk(m, p)
  {
    match m.pc[p]
    case Idle => next
    case Enter(l) => Test(l)
    case Test(l) => if m.locked[l] then OwnLock(l) else Grab(l)
    case Grab(l) => Sign(l)
    case Sign(l) => Leave(l)
    case Leave(l) => Idle
    case OwnLock(l) => LetGo(l)
    case LetGo(l) => SetChan(l)
    case SetChan(l) => Doze(l)
    case Doze(l) => Switch(l)
    case Switch(l) => Asleep(l)
    case Asleep(l) => ClearChan(l)
    case ClearChan(l) => Release(l)
    case Release(l) => Again(l)
    case Again(l) => Test(l)
    case Free(l) => Unlock(l)
    case Unlock(l) => Unsign(l)
    case Unsign(l) => Scan(l, 0)
    case Scan(l, k) => if k >= |m.pc| then Finish(l) else if k == p then Scan(l, k + 1) else Wake(l, k)
    case Wake(l, k) => Scan(l, k + 1)
    case Finish(l) => Idle
    case Ask(l) => Look(l)
    case Look(l) => Told(l, m.locked[l] && m.pid[l] == Some(p))
    case Told(l, yes) => Idle
    case Hunt(k, v) => if k >= |m.pc| then Idle else Strike(k, v)
    case Strike(k, v) => if k == v then Idle else Hunt(k + 1, v)
  }

  /** What a step does to spin locks. */
  datatype LockOp = NoLock | Take(i: nat) | Drop(i: nat)

  /** The step's operation on the spin lock of a sleep lock. */
  function LkOp(c: Pc): (op: LockOp) {
    match c
    case Enter(l) => Take(l)
    case Again(l) => Take(l)
    case Free(l) => Take(l)
    case Ask(l) => Take(l)
    case Leave(l) => Drop(l)
    case Finish(l) => Drop(l)
    case LetGo(l) => Drop(l)
    case Told(l, yes) => Drop(l)
    case _ => NoLock
  }

  /** The operation on the lock of a process; the scheduler takes it to resume a process, and
      drops it when the process has switched away. */
  function ProcOp(c: Pc, p: nat, n: nat): (op: LockOp) {
    match c
    case OwnLock(l) => Take(p)
    case Switch(l) => Drop(p)
    case Asleep(l) => Take(p)
    case Release(l) => Drop(p)
    case Scan(l, k) => if k < n && k != p then Take(k) else NoLock
    case Wake(l, k) => Drop(k)
    case Hunt(k, v) => if k < n then Take(k) else NoLock
    case Strike(k, v) => Drop(k)
    case _ => NoLock
  }

  predicate Available(locks: seq<Option<nat>>, op: LockOp) {
    match op
    case NoLock => true
    case Take(i) => i < |locks| && locks[i] == None
    case Drop(i) => i < |locks|
  }

  function Operate(locks: seq<Option<nat>>, op: LockOp, p: nat): (r: seq<Option<nat>>)
    requires Available(locks, op)
    ensures |r| == |locks|
  {
    match op
    case NoLock => locks
    case Take(i) => locks[i := Some(p)]
    case Drop(i) => locks[i := None]
  }

  /** lk->locked */
  ghost function Locked(m: Machine, c: Pc): (r: seq<bool>)
    ensures |r| == |m.locked|
  {
    match c
    case Grab(l) => if l < |m.locked| then m.locked[l := true] else m.locked
    case Unlock(l) => if l < |m.locked| then m.locked[l := false] else m.locked
    case _ => m.locked
  }

  /** lk->pid */
  ghost function Pid(m: Machine, c: Pc, p: nat): (r: seq<Option<nat>>)
    ensures |r| == |m.pid|
  {
    match c
    case Sign(l) => if l < |m.pid| then m.pid[l := Some(p)] else m.pid
    case Unsign(l) => if l < |m.pid| then m.pid[l := None] else m.pid
    case _ => m.pid
  }

  /** The sleep locks that process p has been given. */
  ghost function Given(c: Pc, g: set<nat>): (r: set<nat>) {
    match c
    case Grab(l) => g + {l}
    case Unlock(l) => g - {l}
    case _ => g
  }

  /** p->chan */
  function Chan(c: Pc, h: Option<nat>): (r: Option<nat>) {
    match c
    case SetChan(l) => Some(l)
    case ClearChan(l) => None
    case _ => h
  }

  /** p->state of process q when process p takes a step: its own changes in sleep and when it
      is scheduled, another's when it is woken or killed. */
  ghost function State(m: Machine, p: nat, q: nat): (r: RunState)
    requires Sized(m) && p < |m.pc| && q < |m.pc|
  {
    match m.pc[p]
    case Doze(l) => if q == p then Sleeping else m.state[q]
    case Asleep(l) => if q == p then Running else m.state[q]
    case Wake(l, k) => if q == k && m.state[k] == Sleeping && m.chan[k] == Some(l) then Runnable else m.state[q]
    case Strike(k, v) => if q == k == v && m.state[k] == Sleeping then Runnable else m.state[q]
    case _ => m.state[q]
  }

  /** A step waits until the lock it takes is free, and a sleeping process to be woken. */
  ghost predicate Ready(m: Machine, p: nat, next: Pc)
    requires Sized(m) && p < |m.pc|
  {
    && Available(m.lk, LkOp(m.pc[p])) && Available(m.plock, ProcOp(m.pc[p], p, |m.pc|))
    && (m.pc[p].Idle? ==> MayBegin(m, p, next)) && (m.pc[p].Asleep? ==> m.state[p] == Runnable)
  }

  /** Process p takes its next step; if it is idle it begins with `next`. */
  ghost function Step(m: Machine, p: nat, next: Pc): (r: Machine)
    requires Sized(m) && p < |m.pc| && PcOk(m, p) && Ready(m, p, next)
    ensures Sized(r) && |r.pc| == |m.pc| && |r.lk| == |m.lk|
  {
    var c := m.pc[p];
    Machine(m.pc[p := NextPc(m, p, next)],
            seq(|m.pc|, q requires 0 <= q < |m.pc| => State(m, p, q)),
            m.chan[p := Chan(c, m.chan[p])],
            Operate(m.plock, ProcOp(c, p, |m.pc|), p),
            m.given[p := Given(c, m.given[p])],
            Operate(m.lk, LkOp(c), p),
            Locked(m, c),
            Pid(m, c, p))
  }

  // ---------- the invariant ----------

  /** The pcs at which the spin lock of sleep lock l is held. */
  predicate HasLk(c: Pc, l: nat) {
    match c
    case Test(x) => x == l case Grab(x) => x == l case Sign(x) => x == l case Leave(x) => x == l
    case Finish(x) => x == l
    case OwnLock(x) => x == l case LetGo(x) => x == l
    case Unlock(x) => x == l case Unsign(x) => x == l case Scan(x, k) => x == l case Wake(x, k) => x == l
    case Look(x) => x == l case Told(x, yes) => x == l
    case _ => false
  }

  /** The pcs at which process p holds the lock of process k. */
  predicate HasProc(c: Pc, p: nat, k: nat) {
    match c
    case LetGo(l) => k == p case SetChan(l) => k == p case Doze(l) => k == p case Switch(l) => k == p
    case ClearChan(l) => k == p case Release(l) => k == p
    case Wake(l, j) => j == k
    case Strike(j, v) => j == k
    case _ => false
  }

  /** What a pc says about the lock it works on. */
  ghost predicate PcOk(m: Machine, p: nat)
    requires Sized(m) && p < |m.pc|
  {
    match m.pc[p]
    case Idle => true
    case Enter(l) => l < |m.lk|
    case Test(l) => l < |m.lk|
    case Grab(l) => l < |m.lk| && !m.locked[l]
    case Sign(l) => l < |m.lk| && l in m.given[p]
    case Leave(l) => l < |m.lk| && l in m.given[p]
    case OwnLock(l) => l < |m.lk| && m.locked[l]
    case LetGo(l) => l < |m.lk| && m.locked[l]
    case SetChan(l) => l < |m.lk|
    case Doze(l) => l < |m.lk|
    case Switch(l) => l < |m.lk|
    case Asleep(l) => l < |m.lk|
    case ClearChan(l) => l < |m.lk|
    case Release(l) => l < |m.lk|
    case Again(l) => l < |m.lk|
    case Free(l) => l < |m.lk| && l in m.given[p]
    case Unlock(l) => l < |m.lk| && l in m.given[p]
    case Unsign(l) => l < |m.lk| && !m.locked[l]
    case Scan(l, k) => l < |m.lk| && !m.locked[l]
    case Wake(l, k) => l < |m.lk| && !m.locked[l] && k != p && k < |m.pc|
    case Finish(l) => l < |m.lk| && !m.locked[l]
    case Ask(l) => l < |m.lk|
    case Look(l) => l < |m.lk|
    case Told(l, yes) => l < |m.lk| && (yes <==> l in m.given[p])
    case Hunt(k, v) => k <= v < |m.pc|
    case Strike(k, v) => k <= v < |m.pc|
  }

  /** State and chan of a process at its pc. */
  predicate StateOk(c: Pc, s: RunState, h: Option<nat>) {
    match c
    case Doze(l) => s == Running && h == Some(l)
    case Switch(l) => s == Sleeping && h == Some(l)
    case Asleep(l) => s != Running && h == Some(l)
    case ClearChan(l) => s == Running && h == Some(l)
    case _ => s == Running && h == None
  }

  /** Process p is asleep on l, or has let go of l's spin lock in order to sleep on it. */
  ghost predicate Committed(m: Machine, p: nat, l: nat)
    requires Sized(m) && p < |m.pc|
  {
    match m.pc[p]
    case SetChan(x) => x == l
    case Doze(x) => x == l
    case Switch(x) => x == l
    case Asleep(x) => x == l && m.state[p] == Sleeping
    case _ => false
  }

  /** A releasesleep at c has yet to come to process p. */
  predicate WillWake(c: Pc, l: nat, p: nat) {
    match c
    case Unsign(x) => x == l
    case Scan(x, k) => x == l && k <= p
    case Wake(x, k) => x == l && k <= p
    case _ => false
  }

  /** What holds of each process: its pc, state and chan agree with the locks, and it holds
      exactly the spin locks that its pc says. */
  ghost predicate Near(m: Machine, p: nat)
    requires Sized(m) && p < |m.pc|
  {
    && PcOk(m, p) && StateOk(m.pc[p], m.state[p], m.chan[p])
    && (forall l: nat {:trigger m.lk[l]} :: l < |m.lk| ==> (HasLk(m.pc[p], l) <==> m.lk[l] == Some(p)))
    && (forall k: nat {:trigger m.plock[k]} :: k < |m.pc| ==> (HasProc(m.pc[p], p, k) <==> m.plock[k] == Some(p)))
  }

  ghost predicate Inv(m: Machine) {
    && Sized(m)
    && (forall p: nat {:trigger Near(m, p)} {:trigger m.pc[p]} :: p < |m.pc| ==> Near(m, p))
    && (forall l: nat {:trigger m.lk[l]} :: l < |m.lk| && m.lk[l].Some? ==> m.lk[l].value < |m.pc|)
    && GivenOk(m) && WakeOk(m)
  }

  ghost predicate GivenOk(m: Machine)
    requires Sized(m)
  {
    forall l: nat {:trigger m.locked[l]} :: l < |m.lk| ==> GivenAt(m, l)
  }

  /** A lock is given to one process at a time, which is recorded in pid except while the
      spin lock is held to change it. */
  ghost predicate GivenAt(m: Machine, l: nat)
    requires Sized(m) && l < |m.lk|
  {
    && Exclusive(m, l)
    && (m.locked[l] && !Signing(m, l) ==>
          m.pid[l].Some? && m.pid[l].value < |m.pc| && l in m.given[m.pid[l].value])
  }

  ghost predicate Exclusive(m: Machine, l: nat)
    requires Sized(m) && l < |m.lk|
  {
    && (forall p: nat {:trigger m.given[p]} :: p < |m.pc| && l in m.given[p] ==> m.locked[l])
    && (forall p: nat, q: nat {:trigger m.given[p], m.given[q]} ::
          p < |m.pc| && q < |m.pc| && l in m.given[p] && l in m.given[q] ==> p == q)
  }

  ghost predicate Signing(m: Machine, l: nat)
    requires Sized(m) && l < |m.lk|
  {
    m.lk[l].Some? && m.lk[l].value < |m.pc| && m.pc[m.lk[l].value] == Sign(l)
  }

  /** The lock is taken, or its spin lock is held by a releasesleep that will come to p. */
  ghost predicate WakeAt(m: Machine, p: nat, l: nat)
    requires Sized(m) && l < |m.lk|
  {
    m.locked[l] || (m.lk[l].Some? && m.lk[l].value < |m.pc| && WillWake(m.pc[m.lk[l].value], l, p))
  }

  ghost predicate WakeOk(m: Machine)
    requires Sized(m)
  {
    forall p: nat, l: nat {:trigger Committed(m, p, l)} :: p < |m.pc| && l < |m.lk| && Committed(m, p, l) ==>
      WakeAt(m, p, l)
  }

  // ---------- what the invariant says ----------

  /** At most one process holds a sleep lock. */
  lemma MutualExclusion(m: Machine, p: nat, q: nat, l: nat)
    requires Inv(m) && p < |m.pc| && q < |m.pc| && l < |m.lk| && l in m.given[p] && l in m.given[q]
    ensures p == q
  {
    assert GivenAt(m, l);
  }

  /** When the spin lock is free and the sleep lock is not taken, no process is asleep on it or
      committed to sleeping on it. */
  lemma NoLostWakeup(m: Machine, p: nat, l: nat)
    requires Inv(m) && p < |m.pc| && l < |m.lk| && m.lk[l] == None && !m.locked[l]
    ensures !Committed(m, p, l)
  {
    assert WakeOk(m);
  }

  /** A spin lock is released by the process that holds it, and acquired by one that does not. */
  lemma SpinLocksHeld(m: Machine, p: nat, q: nat, l: nat)
    requires Inv(m) && p < |m.pc| && q < |m.pc| && l < |m.lk|
    ensures LkOp(m.pc[p]) == Drop(l) ==> m.lk[l] == Some(p)
    ensures LkOp(m.pc[p]) == Take(l) ==> m.lk[l] != Some(p)
    ensures ProcOp(m.pc[p], p, |m.pc|) == Drop(q) ==> m.plock[q] == Some(p)
    ensures ProcOp(m.pc[p], p, |m.pc|) == Take(q) ==> m.plock[q] != Some(p)
  {
    assert Near(m, p);
  }

  /** The answer of holdingsleep is right. */
  lemma HoldingSleepRight(m: Machine, p: nat)
    requires Inv(m) && p < |m.pc| && m.pc[p].Told?
    ensures m.pc[p].yes <==> m.pc[p].l in m.given[p]
  {
    assert Near(m, p);
  }

  /** p is somewhere in acquiresleep on l, before it gets the lock. */
  predicate Acquiring(c: Pc, l: nat) {
    match c
    case Enter(x) => x == l case Test(x) => x == l
    case OwnLock(x) => x == l case LetGo(x) => x == l case SetChan(x) => x == l case Doze(x) => x == l
    case Switch(x) => x == l case Asleep(x) => x == l case ClearChan(x) => x == l case Release(x) => x == l
    case Again(x) => x == l
    case _ => false
  }

  /** A process that acquires a lock which it has already stays there, whoever takes steps. */
  lemma SelfDeadlock(m: Machine, p: nat, q: nat, next: Pc, l: nat)
    requires Inv(m) && p < |m.pc| && l < |m.lk| && l in m.given[p] && Acquiring(m.pc[p], l)
    requires q < |m.pc| && PcOk(m, q) && Ready(m, q, next)
    ensures var r := Step(m, q, next); l in r.given[p] && Acquiring(r.pc[p], l)
  {
    assert GivenAt(m, l);
  }

  // ---------- what the calls come to ----------

  /** The pcs of releasesleep on l, of acquiresleep on l, and of kill of v. */
  predicate Releasing(c: Pc, l: nat) {
    match c
    case Free(x) => x == l case Unlock(x) => x == l case Unsign(x) => x == l
    case Scan(x, k) => x == l case Wake(x, k) => x == l case Finish(x) => x == l
    case _ => false
  }

  predicate Getting(c: Pc, l: nat) {
    Acquiring(c, l) || c == Grab(l) || c == Sign(l) || c == Leave(l)
  }

  predicate Killing(c: Pc, v: nat) {
    match c
    case Hunt(k, x) => x == v
    case Strike(k, x) => x == v
    case _ => false
  }

  /** A process that was at c and is now at d, with the locks `given`, has not left acquiresleep on l without
      the lock, nor releasesleep with it. */
  predicate Proper(c: Pc, d: Pc, given: set<nat>, l: nat) {
    && (Getting(c, l) ==> Getting(d, l) || (d == Idle && l in given))
    && (Releasing(c, l) ==> Releasing(d, l) || (d == Idle && l !in given))
  }

  /** acquiresleep returns only with the lock, releasesleep only without it, and kill only when its victim
      is not asleep any more. */
  lemma Returns(m: Machine, p: nat, next: Pc, l: nat)
    requires Inv(m) && p < |m.pc| && PcOk(m, p) && Ready(m, p, next)
    ensures var r := Step(m, p, next);
            && p < |r.pc| && p < |r.given| && Proper(m.pc[p], r.pc[p], r.given[p], l) == true
            && (Killing(m.pc[p], l) ==>
                  Killing(r.pc[p], l) || (r.pc[p] == Idle && l < |r.state| && r.state[l] != Sleeping))
  {
    if l < |m.lk| {
      assert GivenAt(m, l);
    }
    ReturnsNow(m, p, next, l);
  }

  lemma ReturnsNow(m: Machine, p: nat, next: Pc, l: nat)
    requires Sized(m) && p < |m.pc| && PcOk(m, p) && Ready(m, p, next) && (l < |m.lk| ==> GivenAt(m, l))
    ensures var r := Step(m, p, next);
            && p < |r.pc| && p < |r.given| && Proper(m.pc[p], r.pc[p], r.given[p], l) == true
            && (Killing(m.pc[p], l) ==>
                  Killing(r.pc[p], l) || (r.pc[p] == Idle && l < |r.state| && r.state[l] != Sleeping))
  {
  }

  // ---------- every step keeps it ----------

  lemma InitOk(n: nat, locks: nat)
    ensures Inv(Init(n, locks))
  {
    var m := Init(n, locks);
    forall p: nat | p < n
      ensures Near(m, p)
    {
    }
    forall l: nat | l < locks
      ensures GivenAt(m, l)
    {
    }
  }

  /** p is about to take a step to r. */
  ghost predicate Moves(m: Machine, p: nat, next: Pc, r: Machine) {
    Sized(m) && p < |m.pc| && Near(m, p) && Ready(m, p, next) && r == Step(m, p, next)
  }

  /** The mover holds the spin locks that its new pc says, and of the others' none changes. */
  lemma MoverLocks(m: Machine, p: nat, next: Pc, r: Machine, l: nat)
    requires Moves(m, p, next, r) && l < |m.lk|
    ensures HasLk(r.pc[p], l) <==> r.lk[l] == Some(p)
    ensures r.lk[l] == m.lk[l] || r.lk[l] == Some(p) || (r.lk[l] == None && m.lk[l] == Some(p))
    ensures m.lk[l] == Some(p) || m.lk[l] == None || r.lk[l] == m.lk[l]
  {
    assert HasLk(m.pc[p], l) <==> m.lk[l] == Some(p);
  }

  lemma MoverProcs(m: Machine, p: nat, next: Pc, r: Machine, k: nat)
    requires Moves(m, p, next, r) && k < |m.pc|
    ensures HasProc(r.pc[p], p, k) <==> r.plock[k] == Some(p)
    ensures r.plock[k] == m.plock[k] || r.plock[k] == Some(p) || (r.plock[k] == None && m.plock[k] == Some(p))
    ensures m.plock[k] == Some(p) || m.plock[k] == None || r.plock[k] == m.plock[k]
  {
    assert HasProc(m.pc[p], p, k) <==> m.plock[k] == Some(p);
  }

  /** With the spin lock held, locked and pid tell who has the lock. */
  lemma LookRight(m: Machine, p: nat, l: nat)
    requires Sized(m) && p < |m.pc| && Near(m, p) && l < |m.lk| && m.pc[p] == Look(l) && GivenAt(m, l)
    ensures m.locked[l] && m.pid[l] == Some(p) <==> l in m.given[p]
  {
    assert HasLk(m.pc[p], l) && m.lk[l] == Some(p) && !Signing(m, l);
    if l in m.given[p] {
      assert m.locked[l] && l in m.given[m.pid[l].value];
    }
  }

  /** The mover after its step. */
  lemma MoverOk(m: Machine, p: nat, next: Pc, r: Machine)
    requires Moves(m, p, next, r) && GivenOk(m)
    ensures PcOk(r, p) == true
  {
    if m.pc[p].Look? {
      assert GivenAt(m, m.pc[p].l);
      LookRight(m, p, m.pc[p].l);
    } else if m.pc[p].Free? || m.pc[p].Unlock? || m.pc[p].Test? {
      assert GivenAt(m, m.pc[p].l);
    }
  }

  lemma MoverState(m: Machine, p: nat, next: Pc, r: Machine)
    requires Moves(m, p, next, r)
    ensures StateOk(r.pc[p], r.state[p], r.chan[p]) == true
  {
    assert HasProc(m.pc[p], p, p) <==> m.plock[p] == Some(p);
  }

  /** Of a sleep lock whose spin lock the mover does not hold nothing changes, ... */
  lemma LockKept(m: Machine, p: nat, next: Pc, r: Machine, l: nat)
    requires Moves(m, p, next, r) && l < |m.lk|
    ensures m.lk[l] == Some(p) || (r.locked[l] == m.locked[l] && r.pid[l] == m.pid[l])
  {
    assert HasLk(m.pc[p], l) <==> m.lk[l] == Some(p);
  }

  /** ... and of another process nothing but the state, if the mover holds its lock to wake it. */
  lemma OtherKept(m: Machine, p: nat, next: Pc, r: Machine, q: nat)
    requires Moves(m, p, next, r) && q < |m.pc| && q != p
    ensures r.pc[q] == m.pc[q] && r.given[q] == m.given[q] && r.chan[q] == m.chan[q]
    ensures r.state[q] == m.state[q] || (m.state[q] == Sleeping && r.state[q] == Runnable && m.plock[q] == Some(p))
  {
    assert HasProc(m.pc[p], p, q) <==> m.plock[q] == Some(p);
  }

  /** Any other process after the step. */
  lemma OtherOk(m: Machine, p: nat, r: Machine, q: nat)
    requires Sized(m) && Sized(r) && p < |m.pc| == |r.pc| && |r.lk| == |m.lk| && q < |m.pc| && q != p && Near(m, q)
    requires forall l: nat {:trigger r.locked[l]} :: l < |m.lk| && m.lk[l] != Some(p) ==> r.locked[l] == m.locked[l]
    requires r.pc[q] == m.pc[q] && r.given[q] == m.given[q] && r.chan[q] == m.chan[q]
    requires r.state[q] == m.state[q] || (m.state[q] == Sleeping && r.state[q] == Runnable && m.plock[q] == Some(p))
    ensures PcOk(r, q) == StateOk(r.pc[q], r.state[q], r.chan[q]) == true
  {
    assert HasProc(m.pc[q], q, q) <==> m.plock[q] == Some(q);
  }

  lemma ExclusiveStep(m: Machine, p: nat, next: Pc, r: Machine, l: nat)
    requires Moves(m, p, next, r) && l < |m.lk| && Exclusive(m, l)
    ensures Exclusive(r, l) == true
  {
    assert forall q: nat {:trigger r.given[q]} :: q < |m.pc| && q != p ==> r.given[q] == m.given[q];
    assert r.given[p] == Given(m.pc[p], m.given[p]);
  }

  lemma GivenStep(m: Machine, p: nat, next: Pc, r: Machine, l: nat)
    requires Moves(m, p, next, r) && l < |m.lk| && GivenAt(m, l) && Exclusive(r, l) == true
    ensures GivenAt(r, l) == true
  {
    assert HasLk(m.pc[p], l) <==> m.lk[l] == Some(p);
    assert forall q: nat {:trigger r.given[q]} :: q < |m.pc| && q != p ==> r.given[q] == m.given[q];
    assert r.given[p] == Given(m.pc[p], m.given[p]);
    LockKept(m, p, next, r, l);
    MoverLocks(m, p, next, r, l);
  }

  lemma WakeMover(m: Machine, p: nat, next: Pc, r: Machine, l: nat)
    requires Moves(m, p, next, r) && l < |m.lk| && Committed(r, p, l) && (Committed(m, p, l) ==> WakeAt(m, p, l))
    ensures WakeAt(r, p, l)
  {
    assert HasLk(m.pc[p], l) <==> m.lk[l] == Some(p);
    assert Committed(m, p, l) || m.pc[p] == LetGo(l);
    MoverLocks(m, p, next, r, l);
  }

  lemma WakeOther(m: Machine, p: nat, next: Pc, r: Machine, q: nat, l: nat)
    requires Moves(m, p, next, r) && q < |m.pc| && q != p && l < |m.lk| && Committed(r, q, l) && Near(m, q)
    requires Committed(m, q, l) ==> WakeAt(m, q, l)
    ensures WakeAt(r, q, l)
  {
    assert HasLk(m.pc[p], l) <==> m.lk[l] == Some(p);
    assert HasProc(m.pc[q], q, q) <==> m.plock[q] == Some(q);
    assert HasProc(m.pc[p], p, q) <==> m.plock[q] == Some(p);
    OtherKept(m, p, next, r, q);
    LockKept(m, p, next, r, l);
    MoverLocks(m, p, next, r, l);
    assert Committed(m, q, l);
  }

  lemma NearStep(m: Machine, p: nat, next: Pc, r: Machine, q: nat)
    requires Inv(m) && Moves(m, p, next, r) && q < |m.pc|
    ensures Near(r, q)
  {
    if q != p {
      OtherKept(m, p, next, r, q);
    }
    forall l: nat | l < |m.lk|
      ensures HasLk(r.pc[q], l) <==> r.lk[l] == Some(q)
      ensures m.lk[l] == Some(p) || r.locked[l] == m.locked[l]
    {
      MoverLocks(m, p, next, r, l);
      LockKept(m, p, next, r, l);
    }
    forall k: nat | k < |m.pc|
      ensures HasProc(r.pc[q], q, k) <==> r.plock[k] == Some(q)
    {
      MoverProcs(m, p, next, r, k);
    }
    if q == p {
      MoverOk(m, p, next, r);
      MoverState(m, p, next, r);
    } else {
      OtherOk(m, p, r, q);
    }
  }

  /** Every step of every process keeps the invariant. */
  lemma StepKeeps(m: Machine, p: nat, next: Pc)
    requires Inv(m) && p < |m.pc| && PcOk(m, p) && Ready(m, p, next)
    ensures Inv(Step(m, p, next))
  {
    var r := Step(m, p, next);
    assert Near(m, p) && Moves(m, p, next, r);
    forall q: nat | q < |r.pc|
      ensures Near(r, q)
    {
      NearStep(m, p, next, r, q);
    }
    forall l: nat | l < |m.lk|
      ensures GivenAt(r, l) && (r.lk[l].Some? ==> r.lk[l].value < |r.pc|)
    {
      assert GivenAt(m, l);
      ExclusiveStep(m, p, next, r, l);
      GivenStep(m, p, next, r, l);
      MoverLocks(m, p, next, r, l);
    }
    forall q: nat, l: nat | q < |r.pc| && l < |r.lk| && Committed(r, q, l)
      ensures WakeAt(r, q, l)
    {
      assert WakeOk(m) && Near(m, q);
      if q == p {
        WakeMover(m, p, next, r, l);
      } else {
        WakeOther(m, p, next, r, q, l);
      }
    }
  }

  // ---------- runs ----------

  datatype Turn = Turn(p: nat, next: Pc)

  /** m is reached from the beginning by the given turns. (PcOk is what makes a step well
      defined; it holds in every state that is reached, so it excludes no turn.) */
  ghost predicate Reached(n: nat, locks: nat, turns: seq<Turn>, m: Machine)
    decreases |turns|
  {
    if turns == [] then m == Init(n, locks)
    else
      var t := turns[|turns| - 1];
      exists before: Machine ::
        && Reached(n, locks, turns[..|turns| - 1], before)
        && Sized(before) && t.p < |before.pc| && PcOk(before, t.p) && Ready(before, t.p, t.next)
        && m == Step(before, t.p, t.next)
  }

  /** In every run the invariant holds. */
  lemma {:induction false} EveryRun(n: nat, locks: nat, turns: seq<Turn>, m: Machine)
    requires Reached(n, locks, turns, m)
    ensures Inv(m)
    decreases |turns|
  {
    if turns == [] {
      InitOk(n, locks);
    } else {
      var t := turns[|turns| - 1];
      var before: Machine :|
        && Reached(n, locks, turns[..|turns| - 1], before)
        && Sized(before) && t.p < |before.pc| && PcOk(before, t.p) && Ready(before, t.p, t.next)
        && m == Step(before, t.p, t.next);
      EveryRun(n, locks, turns[..|turns| - 1], before);
      StepKeeps(before, t.p, t.next);
    }
  }

  lemma SafeNow(m: Machine, p: nat, q: nat, l: nat)
    requires Inv(m) && p < |m.pc| && q < |m.pc| && l < |m.lk|
    ensures PcOk(m, p) == true
    ensures l in m.given[p] && l in m.given[q] ==> p == q
    ensures m.lk[l] == None && !m.locked[l] ==> Committed(m, p, l) == false
    ensures m.pc[p].Told? ==> (m.pc[p].yes <==> m.pc[p].l in m.given[p])
    ensures LkOp(m.pc[p]) == Drop(l) ==> m.lk[l] == Some(p)
    ensures LkOp(m.pc[p]) == Take(l) ==> m.lk[l] != Some(p)
    ensures ProcOp(m.pc[p], p, |m.pc|) == Drop(q) ==> m.plock[q] == Some(p)
    ensures ProcOp(m.pc[p], p, |m.pc|) == Take(q) ==> m.plock[q] != Some(p)
  {
    assert Near(m, p);
    if l in m.given[p] && l in m.given[q] {
      MutualExclusion(m, p, q, l);
    }
    if m.lk[l] == None && !m.locked[l] {
      NoLostWakeup(m, p, l);
    }
    SpinLocksHeld(m, p, q, l);
  }

  /** The promise of sleep locks: in every interleaving acquiresleep returns only to a process that has got
      the lock, and releasesleep only to one that has it no more; at most one process holds a lock, nobody
      sleeps on a lock that is free, and holdingsleep answers rightly; and a spin lock is released
      only by the process that holds it, and acquired only by one that does not. */
  lemma SleepLocksWork(n: nat, locks: nat, turns: seq<Turn>, m: Machine, p: nat, q: nat, l: nat, next: Pc)
    requires Reached(n, locks, turns, m) && Sized(m) && p < |m.pc| && q < |m.pc| && l < |m.lk|
    ensures PcOk(m, p)
    ensures Ready(m, p, next) ==>
              var r := Step(m, p, next); p < |r.pc| && p < |r.given| && Proper(m.pc[p], r.pc[p], r.given[p], l) == true
    ensures l in m.given[p] && l in m.given[q] ==> p == q
    ensures m.lk[l] == None && !m.locked[l] ==> !Committed(m, p, l)
    ensures m.pc[p].Told? ==> (m.pc[p].yes <==> m.pc[p].l in m.given[p])
    ensures LkOp(m.pc[p]) == Drop(l) ==> m.lk[l] == Some(p)
    ensures LkOp(m.pc[p]) == Take(l) ==> m.lk[l] != Some(p)
    ensures ProcOp(m.pc[p], p, |m.pc|) == Drop(q) ==> m.plock[q] == Some(p)
    ensures ProcOp(m.pc[p], p, |m.pc|) == Take(q) ==> m.plock[q] != Some(p)
  {
    EveryRun(n, locks, turns, m);
    SafeNow(m, p, q, l);
    if Ready(m, p, next) {
      Returns(m, p, next, l);
    }
  }
}
