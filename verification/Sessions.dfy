/** Whole runs on the log and the cache: any number of processes that open operations, get buffers,
    read, change, log and release them, close their operations and commit, in any order. */
module Sessions {
  import opened Options
  import opened Blocks
  import opened RedoLog
  import opened Bio
  import opened Log

  /** What a process does next. */
  datatype Act =
    | Begin(pid: nat)                          // begin_op
    | Get(pid: nat, bno: nat)                  // bread, up to the sleep lock
    | Take(pid: nat, b: nat)                   // the rest of bread
    | Change(pid: nat, b: nat, data: Block)    // a store into a buffer
    | Note(pid: nat, b: nat)                   // log_write
    | Release(pid: nat, b: nat)                // brelse
    | End(pid: nat)                            // end_op, first part
    | Group(pid: nat, alone: bool)             // commit, and the rest of end_op; with others running or not

  /** What has happened, as far as callers can tell. */
  datatype Event =
    | Began(pid: nat) | Ended(pid: nat) | Saw(bno: nat, data: Block) | Wrote(bno: nat, data: Block)
    | Committed(writes: nat)                   // a commit has ended, after so many block writes

  // ---------- stories ----------

  /** A plain array of blocks, after the events. */
  ghost function Contents(init: Image, es: seq<Event>): (r: Image)
    ensures |r| == |init|
  {
    if es == [] then init
    else
      var before, e := Contents(init, es[..|es| - 1]), es[|es| - 1];
      if e.Wrote? && e.bno < |init| then before[e.bno := e.data] else before
  }

  /** The operations that are open after the events. */
  ghost function Open(es: seq<Event>): (r: set<nat>) {
    if es == [] then {}
    else
      var before, e := Open(es[..|es| - 1]), es[|es| - 1];
      if e.Began? then before + {e.pid} else if e.Ended? then before - {e.pid} else before
  }

  /** Every read gave what the plain array had at that moment. */
  ghost predicate Truthful(init: Image, es: seq<Event>) {
    forall i {:trigger es[i]} :: 0 <= i < |es| && es[i].Saw? ==>
      es[i].bno < |init| && es[i].data == Contents(init, es[..i])[es[i].bno]
  }

  /** Every commit that ended after event k ended after block write i, too. */
  ghost predicate Late(es: seq<Event>, k: nat, i: nat) {
    forall j {:trigger es[j]} :: k <= j < |es| && es[j].Committed? ==> i < es[j].writes
  }

  /** From disk d, written by block write i, recovery gives the array as it was at a moment when no
      operation was open, and no earlier than the last commit that had ended. */
  ghost predicate Safe(L: Layout, init: Image, es: seq<Event>, d: Image, i: nat) {
    exists k: nat {:trigger es[..k]} :: k <= |es| && Open(es[..k]) == {} && Late(es, k, i)
                                        && RecoversTo(L, d, Contents(init, es[..k]))
  }

  ghost predicate AllSafe(L: Layout, init: Image, es: seq<Event>, disks: seq<Image>, start: nat) {
    start <= |disks| && forall i: nat {:trigger disks[i]} :: start <= i < |disks| ==> Safe(L, init, es, disks[i], i)
  }

  /** The view is the array after all events; what survives a crash is the array after the first
      `mark` of them, when no operation was open; the last commit is among those. */
  ghost predicate Story(L: Layout, init: Image, es: seq<Event>, mark: nat, view: Image, durable: Image,
        open: set<nat>) {
    && mark <= |es| && Open(es[..mark]) == {} && Open(es) == open && Truthful(init, es)
    && SameHome(L, view, Contents(init, es)) && SameHome(L, durable, Contents(init, es[..mark]))
    && forall j :: mark <= j < |es| ==> !es[j].Committed?
  }

  /** The view and the open operations after one more event. */
  ghost function Shown(view: Image, e: Event): (r: Image) {
    if e.Wrote? && e.bno < |view| then view[e.bno := e.data] else view
  }

  ghost function Counted(open: set<nat>, e: Event): (r: set<nat>) {
    if e.Began? then open + {e.pid} else if e.Ended? then open - {e.pid} else open
  }

  /** One more event that is not a wrong read. */
  lemma StoryMore(L: Layout, init: Image, es: seq<Event>, mark: nat, view: Image, durable: Image, open: set<nat>,
        e: Event)
    requires Story(L, init, es, mark, view, durable, open)
    requires e.Saw? ==> e.bno < |init| && !InLog(L, e.bno) && e.data == view[e.bno]
    requires (e.Wrote? ==> e.bno < |init|) && !e.Committed?
    ensures |view| == |init|
    ensures Story(L, init, es + [e], mark, Shown(view, e), durable, Counted(open, e))
  {
    var more := es + [e];
    assert more[..|more| - 1] == es && more[..mark] == es[..mark];
    forall i | 0 <= i < |more| && more[i].Saw?
      ensures more[i].bno < |init| && more[i].data == Contents(init, more[..i])[more[i].bno]
    {
      assert more[..i] == es[..i] && (i < |es| ==> more[i] == es[i]);
      assert es[..|es|] == es;
    }
  }

  /** A commit: what survives a crash from now on is all there is. */
  lemma StoryCommitted(L: Layout, init: Image, es: seq<Event>, mark: nat, view: Image, durable: Image, after: Image,
                       n: nat)
    requires Story(L, init, es, mark, view, durable, {}) && SameHome(L, after, view)
    ensures Story(L, init, es + [Committed(n)], |es| + 1, after, after, {}) == true
  {
    var more := es + [Committed(n)];
    assert more[..|more| - 1] == es && more[..|more|] == more;
    forall i | 0 <= i < |more| && more[i].Saw?
      ensures more[i].bno < |init| && more[i].data == Contents(init, more[..i])[more[i].bno]
    {
      assert more[..i] == es[..i] && more[i] == es[i];
    }
  }

  lemma SafeMore(L: Layout, init: Image, es: seq<Event>, disks: seq<Image>, start: nat, e: Event)
    requires AllSafe(L, init, es, disks, start) && (e.Committed? ==> |disks| <= e.writes)
    ensures AllSafe(L, init, es + [e], disks, start)
  {
    forall i: nat | start <= i < |disks|
      ensures Safe(L, init, es + [e], disks[i], i)
    {
      assert Safe(L, init, es, disks[i], i);
      var k: nat :| k <= |es| && Open(es[..k]) == {} && Late(es, k, i) &&
            RecoversTo(L, disks[i], Contents(init, es[..k]));
      assert (es + [e])[..k] == es[..k];
    }
  }

  lemma RecoversSame(L: Layout, d: Image, e: Image, f: Image)
    requires RecoversTo(L, d, e) && SameHome(L, e, f)
    ensures RecoversTo(L, d, f)
  {
  }

  /** The block writes of a commit leave disks that are safe. */
  /** What is told when a group commit has come to its end. */
  lemma GroupTold(L: Layout, init: Image, es: seq<Event>, mark: nat, view: Image, durable: Image, after: Image,
                  disks: seq<Image>, start: nat)
    requires Story(L, init, es, mark, view, durable, {}) == true && SameHome(L, after, view) == true
    requires AllSafe(L, init, es, disks, start) == true
    ensures Story(L, init, es + [Committed(|disks|)], |es| + 1, after, after, {}) == true
    ensures AllSafe(L, init, es + [Committed(|disks|)], disks, start) == true
  {
    StoryCommitted(L, init, es, mark, view, durable, after, |disks|);
    SafeMore(L, init, es, disks, start, Committed(|disks|));
  }

  lemma SafeCommit(L: Layout, init: Image, es: seq<Event>, mark: nat, view: Image, durable: Image,
                   old_disks: seq<Image>, disks: seq<Image>, start: nat, n: nat)
    requires Story(L, init, es, mark, view, durable, {}) && AllSafe(L, init, es, old_disks, start)
    requires |old_disks| <= |disks| && disks[..|old_disks|] == old_disks
    requires forall i :: |old_disks| <= i < |disks| ==>
               RecoversTo(L, disks[i], if i - |old_disks| < n then durable else view)
    ensures AllSafe(L, init, es, disks, start)
  {
    assert es[..|es|] == es;
    forall i: nat | start <= i < |disks|
      ensures Safe(L, init, es, disks[i], i)
    {
      if i < |old_disks| {
        assert disks[i] == old_disks[i];
        assert Safe(L, init, es, old_disks[i], i);
      } else if i - |old_disks| < n {
        RecoversSame(L, disks[i], durable, Contents(init, es[..mark]));
      } else {
        RecoversSame(L, disks[i], view, Contents(init, es[..|es|]));
      }
    }
  }

  lemma StorySafe(L: Layout, init: Image, es: seq<Event>, mark: nat, view: Image, durable: Image, open: set<nat>,
                  d: Image, i: nat)
    requires Story(L, init, es, mark, view, durable, open) && Quiet(L, d) && SameHome(L, d, durable)
    ensures Safe(L, init, es, d, i)
  {
    QuietRecovers(L, d);
    assert RecoversTo(L, d, Contents(init, es[..mark])) && Late(es, mark, i);
  }

  // ---------- sessions ----------

  /** What was changed is logged, but for some buffers. */
  ghost predicate Noted(s: Snap, unlogged: set<nat>) {
    Inv(s) && forall b: nat {:trigger Dirty(s, b)} :: b < NBUF && Dirty(s, b) ==> b in unlogged
  }

  lemma NotedStep(s: Snap, t: Snap, unlogged: set<nat>, b: nat, still: set<nat>)
    requires Noted(s, unlogged) && Inv(t) && b < NBUF && OthersKept(s, t, b) && t.blocks == s.blocks
    requires forall c: nat :: c < NBUF && c != b ==> t.pins[c] == s.pins[c]
    requires (Dirty(t, b) ==> b in still) && unlogged - {b} <= still
    ensures Noted(t, still) == true
  {
    forall c: nat | c < NBUF && Dirty(t, c)
      ensures c in still
    {
      if c != b {
        assert Dirty(s, c);
      }
    }
  }

  /** The block in the buffer that an act is about. */
  ghost function Block0(a: Act, s: Snap): (bno: nat) {
    if (a.Take? || a.Change?) && a.b < |s.bufs| then s.bufs[a.b].blockno else 0
  }

  /** What each act adds to the story. */
  ghost predicate EventFits(L: Layout, a: Act, bno: nat, es: seq<Event>, more: seq<Event>) {
    match a
    case Begin(pid) => more == es || more == es + [Began(pid)]
    case Take(pid, b) =>
      if InLog(L, bno) then more == es
      else |more| == |es| + 1 && more[|es|].Saw? && more == es + [Saw(bno, more[|es|].data)]
    case Change(pid, b, data) => more == es + [Wrote(bno, data)]
    case End(pid) => more == es + [Ended(pid)]
    case Group(pid, alone) =>
      more == es || (|more| == |es| + 1 && more[|es|].Committed? && more == es + [Committed(more[|es|].writes)])
    case _ => more == es
  }

  /** A session at a moment. */
  datatype Moment = Moment(s: Snap, left: map<nat, nat>, lh: seq<nat>, committing: bool, unlogged: set<nat>,
                           es: seq<Event>)

  /** Process pid holds buffer b, and has read it. */
  ghost predicate HasAt(s: Snap, pid: nat, b: nat) {
    b < NBUF && b < |s.bufs| && s.bufs[b].owner == pid && s.bufs[b].valid
  }

  /** Session.May, at that moment. */
  ghost predicate MayAt(L: Layout, m: Moment, a: Act) {
    && a.pid != 0 && |m.s.bufs| == NBUF == |m.s.users|
    && match a
       case Begin(pid) => pid !in m.left
       case Get(pid, bno) => bno < |m.s.blocks|
       case Take(pid, b) => b < NBUF && pid in m.s.users[b] && m.s.bufs[b].owner == 0
       case Change(pid, b, data) => pid in m.left && HasAt(m.s, pid, b) && !InLog(L, m.s.bufs[b].blockno)
       case Note(pid, b) =>
         && pid in m.left && HasAt(m.s, pid, b) && !InLog(L, m.s.bufs[b].blockno)
         && (m.left[pid] > 0 || m.s.bufs[b].blockno in m.lh)
       case Release(pid, b) => b < NBUF && m.s.bufs[b].owner == pid && b !in m.unlogged
       case End(pid) => pid in m.left && forall b :: b in m.unlogged && b < NBUF ==> m.s.bufs[b].owner != pid
       case Group(pid, alone) => m.committing && forall b: nat :: b < NBUF ==> pid !in m.s.users[b]
  }

  ghost predicate GotOne(s: Snap, t: Snap, pid: nat, bno: nat, b: nat) {
    && b < |t.bufs| && b < |s.users| && Holds(t.bufs[b], bno)
    && t.users == s.users[b := s.users[b] + multiset{pid}]
  }

  /** What an act has done. */
  ghost predicate ActDone(L: Layout, m: Moment, a: Act, n: Moment) {
    && EventFits(L, a, Block0(a, m.s), m.es, n.es)
    && match a
       case Begin(pid) =>
         if Admits(|m.lh|, |m.left|, m.committing) then
           n.left == m.left[pid := MAXOPBLOCKS] && n.es == m.es + [Began(pid)]
         else n.left == m.left && n.es == m.es
       case Get(pid, bno) => n.left == m.left && exists b: nat :: GotOne(m.s, n.s, pid, bno, b)
       case Take(pid, b) => n.left == m.left && b < |n.s.bufs| && n.s.bufs[b].owner == pid
       case Change(pid, b, data) =>
         && n.left == m.left && b < |m.s.bufs| && m.s.bufs[b].blockno < |m.s.view|
         && n.s.view == m.s.view[m.s.bufs[b].blockno := data] && n.unlogged == m.unlogged + {b}
       case Note(pid, b) => b < |m.s.bufs| && m.s.bufs[b].blockno in n.lh && n.unlogged == m.unlogged - {b}
       case Release(pid, b) => n.left == m.left && b < |n.s.bufs| && n.s.bufs[b].owner == 0
       case End(pid) => n.left == m.left - {pid} && (n.committing <==> n.left == map[])
       case Group(pid, alone) => n.left == m.left && n.lh == [] && !n.committing && |n.es| > |m.es|
  }

  /** Acts that may not be done are not. */
  ghost predicate Acted(L: Layout, m: Moment, a: Act, n: Moment) {
    if MayAt(L, m, a) then ActDone(L, m, a, n) else n == m
  }

  /** The moments of a run: each of its acts so far has been done, unless it could not be. */
  ghost predicate History(L: Layout, script: seq<Act>, ms: seq<Moment>) {
    |ms| <= |script| + 1 && forall i :: 0 <= i < |ms| - 1 ==> Acted(L, ms[i], script[i], ms[i + 1]) == true
  }

  lemma HistoryMore(L: Layout, script: seq<Act>, ms: seq<Moment>, m: Moment)
    requires History(L, script, ms) && 1 <= |ms| <= |script| && Acted(L, ms[|ms| - 1], script[|ms| - 1], m) == true
    ensures History(L, script, ms + [m]) == true
  {
  }

  lemma FitsAfter(L: Layout, a: Act, bno: nat, es: seq<Event>, more: seq<Event>)
    requires EventFits(L, a, bno, es, more)
    ensures es <= more
  {
  }

  lemma KeyAdded(m: map<nat, nat>, k: nat, v: nat)
    ensures m[k := v].Keys == m.Keys + {k}
  {
  }

  class Session {
    const w: WriteAheadLog
    ghost const init: Image
    ghost const start: nat       // the disk writes before the session
    var left: map<nat, nat>      // what each open operation has left to spend
    var unlogged: set<nat>       // the buffers that were changed and not logged since
    ghost var es: seq<Event>
    ghost var mark: nat          // the events before the last commit

    ghost predicate Told()
      reads this, w, w.cache, w.cache.disk
    {
      Truthful(init, es) && AllSafe(w.L, init, es, w.cache.disk.trace, start)
    }

    ghost predicate Valid()
      reads this, w, w.cache, w.cache.buf, w.cache.list, w.cache.list.prev, w.cache.list.next, w.cache.disk
    {
      && w.Valid() == true && left == w.units
      && Noted(w.cache.Now(), unlogged) == true
      && Story(w.L, init, es, mark, w.cache.view, w.durable, left.Keys) == true
      && AllSafe(w.L, init, es, w.cache.disk.trace, start) == true
    }

    /** After a boot: see RecoverFromLog. */
    constructor (w: WriteAheadLog)
      requires w.Valid() && w.units == map[] && w.durable == w.cache.view
      ensures Valid() && this.w == w && init == w.cache.view && es == [] && start == |w.cache.disk.trace|
    {
      this.w, init, start, left, unlogged, es, mark := w, w.cache.view, |w.cache.disk.trace|, map[], {}, [], 0;
      new;
      var noEvents: seq<Event> := [];
      assert noEvents[..0] == [];
    }

    /** One more event. */
    lemma Telling(e: Event)
      requires Story(w.L, init, es, mark, w.cache.view, w.durable, left.Keys) == true
      requires AllSafe(w.L, init, es, w.cache.disk.trace, start) == true
      requires e.Saw? ==> e.bno < |w.cache.view| && !InLog(w.L, e.bno) && e.data == w.cache.view[e.bno]
      requires (e.Wrote? ==> e.bno < |w.cache.view|) && !e.Committed?
      ensures Story(w.L, init, es + [e], mark, Shown(w.cache.view, e), w.durable, Counted(left.Keys, e)) == true
      ensures AllSafe(w.L, init, es + [e], w.cache.disk.trace, start) == true
    {
      StoryMore(w.L, init, es, mark, w.cache.view, w.durable, left.Keys, e);
      SafeMore(w.L, init, es, w.cache.disk.trace, start, e);
    }

    /** begin_op: the operation is open, or has to wait. */
    method Begins(pid: nat) returns (admitted: bool)
      requires Valid() && pid != 0 && pid !in left
      modifies this`left, this`es, w`outstanding, w`units
      ensures Valid() == true && es == (if admitted then old(es) + [Began(pid)] else old(es))
      ensures admitted == Admits(|w.lh|, old(w.outstanding), w.committing)
      ensures left == (if admitted then old(left)[pid := MAXOPBLOCKS] else old(left)) &&
                old(w.outstanding) == |old(left)|
    {
      Telling(Began(pid));
      KeyAdded(left, pid, MAXOPBLOCKS);
      admitted := Admit(pid);
      if admitted {
        Opens(Began(pid), left[pid := MAXOPBLOCKS]);
      }
    }

    method Admit(pid: nat) returns (admitted: bool)
      requires w.Valid() == true && left == w.units && pid != 0 && pid !in left
      modifies w`outstanding, w`units
      ensures w.Valid() == true && w.units == (if admitted then left[pid := MAXOPBLOCKS] else left)
      ensures admitted == Admits(|w.lh|, old(w.outstanding), w.committing)
    {
      admitted := w.BeginOp(pid);
    }

    method Opens(ghost e: Event, more: map<nat, nat>)
      requires w.Valid() == true && more == w.units && Noted(w.cache.Now(), unlogged) == true
      requires Story(w.L, init, es + [e], mark, w.cache.view, w.durable, more.Keys) == true
      requires AllSafe(w.L, init, es + [e], w.cache.disk.trace, start) == true
      modifies this`left, this`es
      ensures w.Valid() == true && left == w.units && Noted(w.cache.Now(), unlogged) == true
      ensures Story(w.L, init, es, mark, w.cache.view, w.durable, left.Keys) == true
      ensures AllSafe(w.L, init, es, w.cache.disk.trace, start) == true
      ensures es == old(es) + [e] && left == more
    {
      left, es := more, es + [e];
    }

    /** The first half of bread: a reference to a buffer for the block, unless there is none. */
    method Gets(pid: nat, bno: nat) returns (r: Option<nat>)
      requires Valid() && pid != 0 && bno < |w.cache.disk.blocks|
      modifies w.cache`users, w.cache.buf
      ensures Valid() == true
      ensures r.None? ==> w.cache.Now() == old(w.cache.Now()) && NoBuffer(w.cache.Now(), bno)
      ensures r.Some? ==> NoBuffer(old(w.cache.Now()), bno) == false
      ensures r.Some? ==>
                && r.value < w.cache.buf.Length && r.value < |old(w.cache.users)| && Holds(w.cache.buf[r.value], bno)
                && w.cache.users == old(w.cache.users)[r.value := old(w.cache.users)[r.value] + multiset{pid}]
    {
      ghost var s := w.cache.Now();
      r := w.OpGet(pid, bno);
      if r.Some? {
        NotedStep(s, w.cache.Now(), unlogged, r.value, unlogged);
      } else {
        NoneThere(s, pid, bno);
      }
    }

    /** What a process reads is what was last written. */
    method Takes(pid: nat, b: nat)
      requires Valid() && pid != 0 && b < NBUF && pid in w.cache.users[b] && w.cache.buf[b].owner == 0
      modifies this`es, w.cache.buf
      ensures Valid() == true && w.cache.buf[b].owner == pid
      ensures es == if InLog(w.L, w.cache.buf[b].blockno) then old(es)
                    else old(es) + [Saw(w.cache.buf[b].blockno, w.cache.buf[b].data)]
      ensures EventFits(w.L, Take(pid, b), Block0(Take(pid, b), old(w.cache.Now())), old(es), es) == true
    {
      Reads(pid, b);
      if !InLog(w.L, w.cache.buf[b].blockno) {
        ghost var e := Saw(w.cache.buf[b].blockno, w.cache.buf[b].data);
        Telling(e);
        Adds(e);
      }
    }

    /** The second half of bread. */
    method Reads(pid: nat, b: nat)
      requires Valid() && pid != 0 && b < NBUF && pid in w.cache.users[b] && w.cache.buf[b].owner == 0
      modifies w.cache.buf
      ensures w.Valid() == true && Noted(w.cache.Now(), unlogged) == true && b < w.cache.buf.Length
      ensures w.cache.buf[b].owner == pid && w.cache.buf[b].blockno == old(w.cache.buf[b].blockno) < |w.cache.view|
      ensures w.cache.buf[b].data == w.cache.view[w.cache.buf[b].blockno]
    {
      ghost var s := w.cache.Now();
      w.OpTake(pid, b);
      NotedStep(s, w.cache.Now(), unlogged, b, unlogged);
    }

    ghost method Adds(e: Event)
      requires w.Valid() == true && left == w.units && Noted(w.cache.Now(), unlogged) == true
      requires Story(w.L, init, es + [e], mark, w.cache.view, w.durable, left.Keys) == true
      requires AllSafe(w.L, init, es + [e], w.cache.disk.trace, start) == true
      modifies this`es
      ensures w.Valid() == true && left == w.units && Noted(w.cache.Now(), unlogged) == true
      ensures Story(w.L, init, es, mark, w.cache.view, w.durable, left.Keys) == true
      ensures AllSafe(w.L, init, es, w.cache.disk.trace, start) == true
      ensures es == old(es) + [e]
    {
      es := es + [e];
    }

    method Changes(pid: nat, b: nat, data: Block)
      requires Valid() && pid in left && b < NBUF && w.cache.buf[b].owner == pid && w.cache.buf[b].valid
      requires !InLog(w.L, w.cache.buf[b].blockno)
      modifies this`es, this`unlogged, w.cache`view, w.cache.buf
      ensures Valid() == true && es == old(es) + [Wrote(old(w.cache.buf[b].blockno), data)]
      ensures old(w.cache.buf[b].blockno) < |old(w.cache.view)| && unlogged == old(unlogged) + {b}
      ensures w.cache.view == old(w.cache.view)[old(w.cache.buf[b].blockno) := data]
    {
      ghost var e := Wrote(w.cache.buf[b].blockno, data);
      assert BufOk(w.cache.Now(), b);
      Telling(e);
      Stores(pid, b, data);
      Records(e, unlogged + {b});
    }

    method Records(ghost e: Event, more: set<nat>)
      requires w.Valid() == true && left == w.units && Noted(w.cache.Now(), more) == true
      requires Story(w.L, init, es + [e], mark, w.cache.view, w.durable, left.Keys) == true
      requires AllSafe(w.L, init, es + [e], w.cache.disk.trace, start) == true
      modifies this`es, this`unlogged
      ensures w.Valid() == true && left == w.units && Noted(w.cache.Now(), unlogged) == true
      ensures Story(w.L, init, es, mark, w.cache.view, w.durable, left.Keys) == true
      ensures AllSafe(w.L, init, es, w.cache.disk.trace, start) == true
      ensures es == old(es) + [e] && unlogged == more
    {
      es, unlogged := es + [e], more;
    }

    method Stores(pid: nat, b: nat, data: Block)
      requires Valid() && pid in left && b < NBUF && w.cache.buf[b].owner == pid && w.cache.buf[b].valid
      requires !InLog(w.L, w.cache.buf[b].blockno)
      modifies w.cache`view, w.cache.buf
      ensures w.Valid() == true && Noted(w.cache.Now(), unlogged + {b}) == true
      ensures old(w.cache.buf[b].blockno) < |old(w.cache.view)|
      ensures w.cache.view == old(w.cache.view)[old(w.cache.buf[b].blockno) := data]
    {
      ghost var s := w.cache.Now();
      w.OpModify(pid, b, data);
      NotedStep(s, w.cache.Now(), unlogged, b, unlogged + {b});
    }

    /** log_write: with a unit left it cannot fail. */
    method Notes(pid: nat, b: nat) returns (ok: bool)
      requires Valid() && pid in left && b < NBUF && w.cache.buf[b].owner == pid && w.cache.buf[b].valid
      requires !InLog(w.L, w.cache.buf[b].blockno) && (left[pid] > 0 || w.cache.buf[b].blockno in w.lh)
      modifies this`left, this`unlogged, w`lh, w`units, w.cache`pins, w.cache.buf
      ensures Valid() == true && (old(left[pid]) > 0 ==> ok)
      ensures ok ==> unlogged == old(unlogged) - {b} && old(w.cache.buf[b].blockno) in w.lh
      ensures !ok ==> |w.lh| == LOGSIZE
    {
      var spent;
      ok, spent := WriteLog(pid, b);
      if ok {
        ghost var keys := left.Keys;
        var rest := if spent then left[pid := left[pid] - 1] else left;
        assert rest.Keys == keys;
        Logged(b, rest);
      }
    }

    method Logged(b: nat, rest: map<nat, nat>)
      requires w.Valid() == true && rest == w.units && Noted(w.cache.Now(), unlogged - {b}) == true
      requires Story(w.L, init, es, mark, w.cache.view, w.durable, rest.Keys) == true
      requires AllSafe(w.L, init, es, w.cache.disk.trace, start) == true
      modifies this`left, this`unlogged
      ensures Valid() == true && unlogged == old(unlogged) - {b} && left == rest
    {
      unlogged, left := unlogged - {b}, rest;
    }

    method WriteLog(pid: nat, b: nat) returns (ok: bool, spent: bool)
      requires Valid() && pid in left && b < NBUF && w.cache.buf[b].owner == pid && w.cache.buf[b].valid
      requires !InLog(w.L, w.cache.buf[b].blockno) && (left[pid] > 0 || w.cache.buf[b].blockno in w.lh)
      modifies w`lh, w`units, w.cache`pins, w.cache.buf
      ensures w.Valid() == true && w.cache.view == old(w.cache.view) && (left[pid] > 0 ==> ok)
      ensures !ok ==> w.units == old(w.units) && Noted(w.cache.Now(), unlogged) == true
      ensures ok ==> Noted(w.cache.Now(), unlogged - {b}) == true && (spent ==> left[pid] > 0)
      ensures ok ==> old(w.cache.buf[b].blockno) in w.lh
      ensures ok ==> w.units == if spent then left[pid := left[pid] - 1] else left
      ensures !ok ==> |w.lh| == LOGSIZE
    {
      ghost var s := w.cache.Now();
      var lh := w.lh;
      var r := w.LogWrite(pid, b);
      ok, spent := r.Ok?, w.lh != lh;
      if ok {
        NotedStep(s, w.cache.Now(), unlogged, b, unlogged - {b});
      }
    }

    method Releases(pid: nat, b: nat)
      requires Valid() && pid != 0 && b < NBUF && w.cache.buf[b].owner == pid && b !in unlogged
      modifies w.cache`users, w.cache`stamp, w.cache`clock, w.cache.buf,
               w.cache.list`order, w.cache.list.prev, w.cache.list.next
      ensures Valid() == true && w.cache.buf[b].owner == 0
    {
      ghost var s := w.cache.Now();
      assert Noted(s, unlogged);
      w.OpRelease(pid, b);
      NotedStep(s, w.cache.Now(), unlogged, b, unlogged);
    }

    method Ends(pid: nat)
      requires Valid() && pid in left
      requires forall b: nat {:trigger b in unlogged} :: b < NBUF && b in unlogged ==> w.cache.buf[b].owner != pid
      modifies this`left, this`es, w`outstanding, w`committing, w`units
      ensures Valid() == true && es == old(es) + [Ended(pid)]
      ensures left == old(left) - {pid} && (w.committing <==> left == map[])
    {
      Telling(Ended(pid));
      assert Noted(w.cache.Now(), unlogged);
      var last := w.EndOp(pid);
      left, es := left - {pid}, es + [Ended(pid)];
      assert left.Keys == old(left.Keys) - {pid};
    }

    /** commit: everything so far survives a crash from now on. */
    method Groups(pid: nat, alone: bool) returns (ok: bool)
      requires Valid() && w.committing && pid != 0
      requires forall b: nat :: b < NBUF ==> pid !in w.cache.users[b]
      modifies this`mark, this`es, w`lh, w`durable, w`committing, w.cache, w.cache.buf,
               w.cache.list`order, w.cache.list.prev, w.cache.list.next, w.cache.disk
      ensures Told() == true
      ensures ok ==> Valid() == true && mark == |es| && !w.committing && w.lh == []
      ensures es == if ok then old(es) + [Committed(|w.cache.disk.trace|)] else old(es)
      ensures !ok ==> Stuck(w.cache.Now(), pid) == true
      ensures alone && NoUsers(old(w.cache.Now())) ==> (ok <==> |old(w.lh)| < NBUF)
    {
      ghost var view, durable := w.cache.view, w.durable;
      assert left == map[] && left.Keys == {};
      ok := Commits(pid, alone);
      if ok {
        ghost var e := Committed(|w.cache.disk.trace|);
        GroupTold(w.L, init, es, mark, view, durable, w.cache.view, w.cache.disk.trace, start);
        Settles(e);
      }
    }

    method Commits(pid: nat, alone: bool) returns (ok: bool)
      requires w.Valid() == true && w.committing && pid != 0
      requires forall b: nat :: b < NBUF ==> pid !in w.cache.users[b]
      requires Story(w.L, init, es, mark, w.cache.view, w.durable, {}) == true
      requires AllSafe(w.L, init, es, w.cache.disk.trace, start) == true
      modifies w`lh, w`durable, w`committing, w.cache, w.cache.buf,
               w.cache.list`order, w.cache.list.prev, w.cache.list.next, w.cache.disk
      ensures AllSafe(w.L, init, es, w.cache.disk.trace, start) == true
      ensures ok ==> w.Valid() == true && Noted(w.cache.Now(), unlogged) == true && !w.committing && w.lh == []
      ensures ok ==> w.durable == w.cache.view && SameHome(w.L, w.cache.view, old(w.cache.view)) == true
      ensures !ok ==> Stuck(w.cache.Now(), pid) == true
      ensures alone && NoUsers(old(w.cache.Now())) ==> (ok <==> |old(w.lh)| < NBUF)
    {
      ghost var view, durable, disks, n := w.cache.view, w.durable, w.cache.disk.trace, |w.lh|;
      ok := w.Commit(pid, alone);
      assert Served(old(w.cache.Now()), w.cache.Now(), pid, alone, |old(w.lh)| < NBUF, ok);
      SafeCommit(w.L, init, es, mark, view, durable, disks, w.cache.disk.trace, start, n);
      if ok {
        w.EndCommit();
      }
    }

    ghost method Settles(e: Event)
      requires w.Valid() == true && left == w.units && Noted(w.cache.Now(), unlogged) == true
      requires Story(w.L, init, es + [e], |es| + 1, w.cache.view, w.durable, left.Keys) == true
      requires AllSafe(w.L, init, es + [e], w.cache.disk.trace, start) == true
      modifies this`es, this`mark
      ensures w.Valid() == true && left == w.units && Noted(w.cache.Now(), unlogged) == true
      ensures Story(w.L, init, es, mark, w.cache.view, w.durable, left.Keys) == true
      ensures AllSafe(w.L, init, es, w.cache.disk.trace, start) == true
      ensures es == old(es) + [e] && mark == |es|
    {
      es, mark := es + [e], |es| + 1;
    }

    /** May the act be done now? A process waits for a lock or an admission that it does not get, and
        callers keep the rules: buffers are changed by open operations that hold them, and logged
        before they are released. */
    predicate May(a: Act)
      reads this, w, w.cache, w.cache.buf, w.cache.disk
    {
      && a.pid != 0 && w.cache.buf.Length == NBUF == |w.cache.users|
      && match a
         case Begin(pid) => pid !in left
         case Get(pid, bno) => bno < |w.cache.disk.blocks|
         case Take(pid, b) => b < NBUF && pid in w.cache.users[b] && w.cache.buf[b].owner == 0
         case Change(pid, b, data) => pid in left && Has(pid, b) && !InLog(w.L, w.cache.buf[b].blockno)
         case Note(pid, b) =>
           && pid in left && Has(pid, b) && !InLog(w.L, w.cache.buf[b].blockno)
           && (left[pid] > 0 || w.cache.buf[b].blockno in w.lh)
         case Release(pid, b) => b < NBUF && w.cache.buf[b].owner == pid && b !in unlogged
         case End(pid) => pid in left && forall b :: b in unlogged && b < NBUF ==> w.cache.buf[b].owner != pid
         case Group(pid, alone) => w.committing && forall b: nat :: b < NBUF ==> pid !in w.cache.users[b]
    }

    predicate Has(pid: nat, b: nat)
      requires w.cache.buf.Length == NBUF
      reads this, w, w.cache, w.cache.buf
    {
      b < NBUF && w.cache.buf[b].owner == pid && w.cache.buf[b].valid
    }

    /** Why the kernel panics in an act, or never ends it: for want of a buffer, or of room in the log. */
    ghost predicate Halts(a: Act)
      reads this, w, w.cache, w.cache.buf, w.cache.disk
    {
      match a
      case Get(pid, bno) => NoBuffer(w.cache.Now(), bno)
      case Note(pid, b) => |w.lh| == LOGSIZE
      case Group(pid, alone) => Stuck(w.cache.Now(), pid)
      case _ => false
    }

    ghost function Here(): (m: Moment)
      reads this, w, w.cache, w.cache.buf, w.cache.disk
    {
      Moment(w.cache.Now(), left, w.lh, w.committing, unlogged, es)
    }

    lemma MayNow(a: Act)
      requires w.cache.buf.Length == NBUF == |w.cache.users|
      ensures May(a) <==> MayAt(w.L, Here(), a)
    {
    }

    method DoBegin(ghost a: Act, pid: nat)
      requires Valid() && a == Begin(pid) && May(a)
      modifies this`left, this`es, w`outstanding, w`units
      ensures Valid() == true && ActDone(w.L, old(Here()), a, Here()) == true
    {
      var admitted := Begins(pid);
    }

    method DoGet(ghost a: Act, pid: nat, bno: nat) returns (ok: bool)
      requires Valid() && a == Act.Get(pid, bno) && May(a)
      modifies w.cache`users, w.cache.buf
      ensures Valid() == true && (!ok ==> Halts(a) == true)
      ensures ok ==> ActDone(w.L, old(Here()), a, Here()) == true
    {
      var r := Gets(pid, bno);
      ok := r.Some?;
      assert ok ==> GotOne(old(w.cache.Now()), w.cache.Now(), pid, bno, r.value);
    }

    method DoTake(ghost a: Act, pid: nat, b: nat)
      requires Valid() && a == Take(pid, b) && May(a)
      modifies this`es, w.cache.buf
      ensures Valid() == true && ActDone(w.L, old(Here()), a, Here()) == true
    {
      Takes(pid, b);
    }

    method DoChange(ghost a: Act, pid: nat, b: nat, data: Block)
      requires Valid() && a == Change(pid, b, data) && May(a)
      modifies this`es, this`unlogged, w.cache`view, w.cache.buf
      ensures Valid() == true && ActDone(w.L, old(Here()), a, Here()) == true
    {
      Changes(pid, b, data);
    }

    method DoNote(ghost a: Act, pid: nat, b: nat) returns (ok: bool)
      requires Valid() && a == Note(pid, b) && May(a)
      modifies this`left, this`unlogged, w`lh, w`units, w.cache`pins, w.cache.buf
      ensures Valid() == true && (!ok ==> Halts(a) == true)
      ensures ok ==> ActDone(w.L, old(Here()), a, Here()) == true
    {
      ok := Notes(pid, b);
    }

    method DoRelease(ghost a: Act, pid: nat, b: nat)
      requires Valid() && a == Act.Release(pid, b) && May(a)
      modifies w.cache`users, w.cache`stamp, w.cache`clock, w.cache.buf,
               w.cache.list`order, w.cache.list.prev, w.cache.list.next
      ensures Valid() == true && ActDone(w.L, old(Here()), a, Here()) == true
    {
      Releases(pid, b);
    }

    method DoEnd(ghost a: Act, pid: nat)
      requires Valid() && a == End(pid) && May(a)
      modifies this`left, this`es, w`outstanding, w`committing, w`units
      ensures Valid() == true && ActDone(w.L, old(Here()), a, Here()) == true
    {
      Ends(pid);
    }

    method DoGroup(ghost a: Act, pid: nat, alone: bool) returns (ok: bool)
      requires Valid() && a == Group(pid, alone) && May(a)
      modifies this`mark, this`es, w`lh, w`durable, w`committing, w.cache, w.cache.buf,
               w.cache.list`order, w.cache.list.prev, w.cache.list.next, w.cache.disk
      ensures Told() == true && (!ok ==> Halts(a) == true && es == old(es))
      ensures ok ==> Valid() == true && ActDone(w.L, old(Here()), a, Here()) == true
      ensures ok ==> es == old(es) + [Committed(|w.cache.disk.trace|)]
    {
      ok := Groups(pid, alone);
    }

    /** One act, or a panic for want of buffers or of room in the log. */
    method Do(a: Act) returns (ok: bool)
      requires Valid() && May(a)
      modifies this, w, w.cache, w.cache.buf, w.cache.list`order, w.cache.list.prev, w.cache.list.next, w.cache.disk
      ensures Told() == true && (!ok ==> Halts(a) == true && es == old(es))
      ensures ok ==> Valid() == true && ActDone(w.L, old(Here()), a, Here()) == true
      ensures a.Group? && ok ==> es == old(es) + [Committed(|w.cache.disk.trace|)]
    {
      ok := true;
      match a
      case Begin(pid) => DoBegin(a, pid); ToldNow();
      case Get(pid, bno) => ok := DoGet(a, pid, bno); ToldNow();
      case Take(pid, b) => DoTake(a, pid, b); ToldNow();
      case Change(pid, b, data) => DoChange(a, pid, b, data); ToldNow();
      case Note(pid, b) => ok := DoNote(a, pid, b); ToldNow();
      case Release(pid, b) => DoRelease(a, pid, b); ToldNow();
      case End(pid) => DoEnd(a, pid); ToldNow();
      case Group(pid, alone) => ok := DoGroup(a, pid, alone);
    }

    /** The act, if it may be done. */
    method Try(a: Act) returns (ok: bool)
      requires Valid()
      modifies this, w, w.cache, w.cache.buf, w.cache.list`order, w.cache.list.prev, w.cache.list.next, w.cache.disk
      ensures Told() == true && old(es) <= es
      ensures ok ==> Valid() == true && Acted(w.L, old(Here()), a, Here()) == true
      ensures !ok ==> MayAt(w.L, old(Here()), a) == Halts(a) == true && es == old(es)
    {
      ok := true;
      MayNow(a);
      if May(a) {
        ghost var m := Here();
        ok := Do(a);
        if ok {
          FitsAfter(w.L, a, Block0(a, m.s), m.es, es);
        }
      } else {
        ToldNow();
      }
    }

    lemma ToldNow()
      requires Valid()
      ensures Told() == true
    {
    }

    /** The disk as it is now is safe, too. */
    lemma SafeNow()
      requires Valid()
      ensures Safe(w.L, init, es, w.cache.disk.blocks, |w.cache.disk.trace|) == true
    {
      assert Quiet(w.L, w.cache.disk.blocks) && SameHome(w.L, w.cache.disk.blocks, w.durable);
      StorySafe(w.L, init, es, mark, w.cache.view, w.durable, left.Keys, w.cache.disk.blocks, |w.cache.disk.trace|);
    }

    /** The acts one after the other, and what is there after each. */
    method Acts(script: seq<Act>) returns (ok: bool, ghost ms: seq<Moment>)
      requires Valid()
      modifies this, w, w.cache, w.cache.buf, w.cache.list`order, w.cache.list.prev, w.cache.list.next, w.cache.disk
      ensures Told() == true && old(es) <= es && (ok ==> Valid() == true)
      ensures ms != [] && ms[0] == old(Here()) && ms[|ms| - 1].es == es && History(w.L, script, ms) == true
      ensures ok ==> |ms| == |script| + 1 && ms[|script|] == Here()
      ensures !ok ==> |ms| <= |script| && MayAt(w.L, ms[|ms| - 1], script[|ms| - 1]) == Halts(script[|ms| - 1]) == true
    {
      ghost var m, start := Here(), Here();
      ok, ms := true, [m];
      for i := 0 to |script|
        invariant Valid() == true && start.es <= es && ok && m == Here()
        invariant |ms| == i + 1 && ms[0] == start && ms[i] == m && History(w.L, script, ms) == true
      {
        ok := Try(script[i]);
        if !ok {
          return;
        }
        m := Here();
        HistoryMore(w.L, script, ms, m);
        ms := ms + [m];
      }
      ToldNow();
    }

    lemma KeptNow()
      requires Valid()
      ensures forall bno :: bno in w.lh ==> Kept(w.cache.Now(), bno)
    {
      assert w.Valid();
      forall bno | bno in w.lh
        ensures Kept(w.cache.Now(), bno)
      {
        KeptThere(w.cache.Now(), w.lh, bno);
      }
    }

    /** Any acts of any processes in any order: reads give what was last written; what survives a crash
        at any moment is the writes of whole operations, with all that were committed before; and blocks
        in the log stay in the cache. */
    method Run(script: seq<Act>) returns (ok: bool, ghost ms: seq<Moment>)
      requires Valid()
      modifies this, w, w.cache, w.cache.buf, w.cache.list`order, w.cache.list.prev, w.cache.list.next, w.cache.disk
      ensures Told() && old(es) <= es && (ok ==> Valid())
      ensures ok ==> Safe(w.L, init, es, w.cache.disk.blocks, |w.cache.disk.trace|)
      ensures ok ==> forall bno :: bno in w.lh ==> Kept(w.cache.Now(), bno)
      ensures ms != [] && ms[0] == old(Here()) && ms[|ms| - 1].es == es && History(w.L, script, ms)
      ensures ok ==> |ms| == |script| + 1 && ms[|script|] == Here()
      ensures !ok ==> |ms| <= |script| && MayAt(w.L, ms[|ms| - 1], script[|ms| - 1]) && Halts(script[|ms| - 1])
    {
      ok, ms := Acts(script);
      if ok {
        SafeNow();
        KeptNow();
      }
    }
  }

  /** Some buffer that cannot be recycled has the contents of the block. */
  ghost predicate Kept(s: Snap, bno: nat) {
    && |s.bufs| == NBUF && bno < |s.view|
    && exists b: nat :: b < NBUF && Holds(s.bufs[b], bno) && s.bufs[b].valid && s.bufs[b].refcnt > 0 &&
                        s.bufs[b].data == s.view[bno]
  }

  lemma KeptThere(s: Snap, homes: seq<nat>, bno: nat)
    requires Inv(s) && PinsOk(s, homes) && bno in homes
    ensures Kept(s, bno)
  {
    assert Pinned(s, bno);
    var b: nat :| b < NBUF && s.pins[b] > 0 && Holds(s.bufs[b], bno);
    assert BufOk(s, b);
  }

  /** A boot: recovery, while no other process is there, and then a session on what it gives. */
  method Boot(disk: Disk, L: Layout) returns (s: Session)
    requires WellFormed(L, disk.blocks)
    modifies disk
    ensures fresh(s) && fresh(s.w) && s.w.cache.disk == disk && s.w.L == L && s.Valid() && s.es == []
    ensures s.init == Recovered(L, old(disk.blocks)) == disk.blocks
    ensures |disk.trace| == |old(disk.trace)| + HeaderCount(old(disk.blocks)[L.start]) + 1
    ensures forall i :: |old(disk.trace)| <= i < |disk.trace| ==>
              disk.trace[i] == RecoverState(L, old(disk.blocks), i - |old(disk.trace)| + 1)
  {
    var w := StartLog(disk, L, 1);
    s := new Session(w);
  }
}
