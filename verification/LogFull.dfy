/** A log that operations fill as they are entitled to, and what log_write does then. */
module LogFull {
  import opened Options
  import opened Blocks
  import opened Counting
  import opened RedoLog
  import opened Bio
  import opened Log
  import opened Stores
  import Sessions

  /** Nobody has a buffer. */
  ghost predicate Unused(s: Snap) {
    Inv(s) && forall b: nat :: b < NBUF ==> s.users[b] == multiset{} && s.bufs[b].owner == 0
  }

  /** Only process pid has a buffer, b. */
  ghost predicate OneUsed(s: Snap, b: nat, pid: nat) {
    && Inv(s) && b < NBUF && s.users[b] == multiset{pid}
    && forall c: nat :: c < NBUF && c != b ==> s.users[c] == multiset{} && s.bufs[c].owner == 0
  }

  lemma OneUsedStill(s: Snap, t: Snap, b: nat, pid: nat)
    requires OneUsed(s, b, pid) && Inv(t) && t.users == s.users && OthersKept(s, t, b)
    ensures OneUsed(t, b, pid) == true
  {
  }

  lemma FirstUsed(s: Snap, t: Snap, b: nat, pid: nat)
    requires Unused(s) && Inv(t) && b < NBUF && OthersKept(s, t, b)
    requires t.users == s.users[b := s.users[b] + multiset{pid}] &&
              (t.bufs[b].owner == 0 || t.bufs[b].owner == s.bufs[b].owner)
    ensures OneUsed(t, b, pid) == true && t.bufs[b].owner == 0
  {
    assert s.users[b] + multiset{pid} == multiset{pid};
  }

  /** bget finds a buffer. */
  lemma SomeBuffer(s: Snap, homes: seq<nat>, bno: nat)
    requires Unused(s) && PinsOk(s, homes) && (|homes| < NBUF || bno in homes)
    ensures exists x :: x in s.bufs && (Holds(x, bno) || x.refcnt == 0)
  {
    if bno in homes {
      assert Pinned(s, bno);
      var x: nat :| x < NBUF && s.pins[x] > 0 && Holds(s.bufs[x], bno);
      assert s.bufs[x] in s.bufs;
    } else {
      Spare(s, homes, bno);
      var x: nat :| x < |s.bufs| && (Holds(s.bufs[x], bno) || s.bufs[x].refcnt == 0);
      assert s.bufs[x] in s.bufs;
    }
  }

  method GetOne(w: WriteAheadLog, pid: nat, bno: nat) returns (b: nat)
    requires w.Valid() && Unused(w.cache.Now()) && pid != 0 && bno < |w.cache.view|
    requires |w.lh| < NBUF || bno in w.lh
    modifies w.cache`users, w.cache.buf
    ensures w.Valid() && OneUsed(w.cache.Now(), b, pid) == true && w.cache.view == old(w.cache.view)
    ensures b < w.cache.buf.Length && w.cache.buf[b].owner == pid && w.cache.buf[b].valid &&
              w.cache.buf[b].blockno == bno
    ensures !Dirty(w.cache.Now(), b)
  {
    ghost var s := w.cache.Now();
    SomeBuffer(s, w.lh, bno);
    var r := w.OpGet(pid, bno);
    b := r.value;
    ghost var t := w.cache.Now();
    FirstUsed(s, t, b, pid);
    w.OpTake(pid, b);
    OneUsedStill(t, w.cache.Now(), b, pid);
  }

  method PutOne(w: WriteAheadLog, pid: nat, b: nat)
    requires w.Valid() && OneUsed(w.cache.Now(), b, pid) && w.cache.buf[b].owner == pid && pid != 0
    requires !Dirty(w.cache.Now(), b)
    modifies w.cache`users, w.cache`stamp, w.cache`clock, w.cache.buf,
             w.cache.list`order, w.cache.list.prev, w.cache.list.next
    ensures w.Valid() && Unused(w.cache.Now()) && w.cache.view == old(w.cache.view)
  {
    ghost var s := w.cache.Now();
    w.OpRelease(pid, b);
    assert s.users[b] - multiset{pid} == multiset{};
  }

  /** bread, log_write and brelse of a block that is not in the log yet. */
  method LogOne(w: WriteAheadLog, pid: nat, bno: nat)
    requires w.Valid() && Unused(w.cache.Now()) && pid in w.units && w.units[pid] > 0
    requires bno < |w.cache.view| && !InLog(w.L, bno) && bno !in w.lh
    modifies w`lh, w`units, w.cache, w.cache.buf, w.cache.list`order, w.cache.list.prev, w.cache.list.next
    ensures w.Valid() && Unused(w.cache.Now()) && w.cache.view == old(w.cache.view)
    ensures w.lh == old(w.lh) + [bno] && w.units == old(w.units)[pid := old(w.units)[pid] - 1]
  {
    SumWithout(w.units, pid);
    var b := GetOne(w, pid, bno);
    ghost var s := w.cache.Now();
    var r := w.LogWrite(pid, b);
    OneUsedStill(s, w.cache.Now(), b, pid);
    PutOne(w, pid, b);
  }

  /** Different blocks outside the log area. */
  ghost predicate HomesOk(L: Layout, n: nat, homes: seq<nat>) {
    Distinct(homes) && forall i :: 0 <= i < |homes| ==> homes[i] < n && !InLog(L, homes[i])
  }

  /** Ten of them, with which the operation has spent what it was promised. */
  method LogTen(w: WriteAheadLog, pid: nat, homes: seq<nat>, from: nat)
    requires w.Valid() == true && Unused(w.cache.Now()) == true && pid in w.units && w.units[pid] == 10
    requires from + 10 <= |homes| && w.lh == homes[..from]
    requires HomesOk(w.L, |w.cache.view|, homes) == true
    modifies w`lh, w`units, w.cache, w.cache.buf, w.cache.list`order, w.cache.list.prev, w.cache.list.next
    ensures w.Valid() == true && Unused(w.cache.Now()) == true && w.cache.view == old(w.cache.view)
    ensures w.lh == homes[..from + 10] && w.units == old(w.units)[pid := 0]
  {
    assert HomesOk(w.L, |w.cache.view|, homes);
    for i := 0 to 10
      invariant w.Valid() == true && Unused(w.cache.Now()) == true && w.cache.view == old(w.cache.view)
      invariant w.lh == homes[..from + i] && w.units == old(w.units)[pid := 10 - i]
    {
      LogOne(w, pid, homes[from + i]);
    }
  }

  /** Three operations are admitted together, each logs ten blocks, and the log is full: logging a
      block again that is in the log, which would be absorbed, then fails, because log_write looks at
      the size first. */
  method RelogFails(w: WriteAheadLog, homes: seq<nat>, p: nat, q: nat, r: nat) returns (result: LogResult)
    requires w.Valid() && Unused(w.cache.Now()) && w.lh == [] && w.units == map[] && !w.committing
    requires p != 0 && q != 0 && r != 0 && p != q && p != r && q != r
    requires |homes| == LOGSIZE
    requires HomesOk(w.L, |w.cache.view|, homes) == true
    modifies w, w.cache, w.cache.buf, w.cache.list`order, w.cache.list.prev, w.cache.list.next
    ensures w.Valid() && w.lh == homes && p in w.units && result == TooBig
  {
    AdmitThree(w, p, q, r);
    var pids := [p, q, r];
    FillLog(w, homes, pids);
    assert pids[0] in w.units;
    result := LogAgain(w, p, homes[0]);
  }

  method AdmitThree(w: WriteAheadLog, p: nat, q: nat, r: nat)
    requires w.Valid() && w.lh == [] && w.units == map[] && !w.committing
    requires p != 0 && q != 0 && r != 0 && p != q && p != r && q != r
    modifies w`outstanding, w`units
    ensures w.Valid() && w.units == map[p := 10, q := 10, r := 10]
  {
    var first := w.BeginOp(p);
    var second := w.BeginOp(q);
    var third := w.BeginOp(r);
  }

  method FillLog(w: WriteAheadLog, homes: seq<nat>, pids: seq<nat>)
    requires w.Valid() && Unused(w.cache.Now()) && w.lh == [] && Distinct(pids) && |pids| == 3 && |homes| == LOGSIZE
    requires forall k :: 0 <= k < 3 ==> pids[k] in w.units && w.units[pids[k]] == 10
    requires HomesOk(w.L, |w.cache.view|, homes) == true
    modifies w`lh, w`units, w.cache, w.cache.buf, w.cache.list`order, w.cache.list.prev, w.cache.list.next
    ensures w.Valid() && Unused(w.cache.Now()) && w.cache.view == old(w.cache.view)
    ensures w.lh == homes && (forall k :: 0 <= k < 3 ==> pids[k] in w.units) && w.units.Keys == old(w.units).Keys
  {
    for j := 0 to 3
      invariant w.units.Keys == old(w.units).Keys
      invariant w.Valid() == true && Unused(w.cache.Now()) == true && w.cache.view == old(w.cache.view)
      invariant w.lh == homes[..10 * j]
      invariant forall k :: 0 <= k < 3 ==> pids[k] in w.units && (j <= k ==> w.units[pids[k]] == 10)
    {
      LogTen(w, pids[j], homes, 10 * j);
    }
    assert homes[..30] == homes;
  }

  /** When the three have ended, the commit finds every buffer pinned: bread of the first log block has none
      to take, where the kernel panics, and nothing has been written. */
  method FullCommitFails(w: WriteAheadLog, homes: seq<nat>, p: nat, q: nat, r: nat) returns (ok: bool)
    requires w.Valid() && Unused(w.cache.Now()) && w.lh == [] && w.units == map[] && !w.committing
    requires p != 0 && q != 0 && r != 0 && p != q && p != r && q != r
    requires |homes| == LOGSIZE
    requires HomesOk(w.L, |w.cache.view|, homes) == true
    modifies w, w.cache, w.cache.buf, w.cache.list`order, w.cache.list.prev, w.cache.list.next, w.cache.disk
    ensures !ok && w.cache.disk.trace == old(w.cache.disk.trace)
  {
    AdmitThree(w, p, q, r);
    FillLog(w, homes, [p, q, r]);
    EndAll(w, p, q, r);
    ok := w.Commit(r, true);
  }

  method EndAll(w: WriteAheadLog, p: nat, q: nat, r: nat)
    requires w.Valid() && Unused(w.cache.Now()) && w.units.Keys == {p, q, r} && p != q && p != r && q != r
    requires p != 0 && q != 0 && r != 0
    modifies w`outstanding, w`committing, w`units
    ensures w.Valid() && w.committing && w.units == map[]
  {
    var first := w.EndOp(p);
    assert w.units.Keys == {q, r};
    assert q in w.units;
    var second := w.EndOp(q);
    assert w.units.Keys == {r};
    assert r in w.units;
    var third := w.EndOp(r);
    assert w.units.Keys == {};
  }

  /** log_write of a block that is in a full log. */
  method LogAgain(w: WriteAheadLog, pid: nat, bno: nat) returns (result: LogResult)
    requires w.Valid() && Unused(w.cache.Now()) && pid in w.units && bno in w.lh && |w.lh| == LOGSIZE
    modifies w`lh, w`units, w.cache, w.cache.buf
    ensures w.Valid() && w.lh == old(w.lh) && w.units == old(w.units) && result == TooBig
  {
    var b := GetOne(w, pid, bno);
    result := w.LogWrite(pid, b);
  }

  /** Logging a block again fails exactly when the log is full, and then every open operation has spent
      all that it was promised. */
  lemma RelogPanics(w: WriteAheadLog, bno: nat, pid: nat)
    requires w.Valid() && bno in w.lh && pid in w.units
    ensures LogAppend(w.lh, w.L.size, w.outstanding, bno).TooBig? <==> |w.lh| == LOGSIZE
    ensures |w.lh| == LOGSIZE ==> w.units[pid] == 0
  {
    SumWithout(w.units, pid);
  }

  // ---------- one operation ----------

  /** No buffer has a change that is not logged. */
  ghost predicate Clean(s: Snap) {
    Sessions.Noted(s, {})
  }

  /** bread, which may find no buffer, or may have to wait for it. */
  method TryBread(w: WriteAheadLog, pid: nat, bno: nat) returns (r: Option<nat>)
    requires w.Valid() == true && pid != 0 && bno < |w.cache.view| && Clean(w.cache.Now()) == true
    modifies w.cache`users, w.cache.buf
    ensures w.Valid() == true && w.cache.view == old(w.cache.view)
    ensures r.Some? ==> r.value < w.cache.buf.Length == NBUF && w.cache.buf[r.value].owner == pid &&
                        w.cache.buf[r.value].valid && w.cache.buf[r.value].blockno == bno
    ensures r.Some? ==> Clean(w.cache.Now()) == true && |old(w.cache.users)| == NBUF
    ensures r.Some? ==> w.cache.users == old(w.cache.users)[r.value := old(w.cache.users)[r.value] + multiset{pid}]
    ensures r.None? && Idle(old(w.cache.Now()), pid) ==> Stuck(w.cache.Now(), pid) == true
    ensures NoUsers(old(w.cache.Now())) && |w.lh| < NBUF ==> r.Some?
  {
    ghost var s := w.cache.Now();
    r := w.OpGet(pid, bno);
    if r.None? {
      NoneThere(s, pid, bno);
      if NoUsers(s) && |w.lh| < NBUF {
        Spare(s, w.lh, bno);
      }
      return;
    }
    ghost var t := w.cache.Now();
    Sessions.NotedStep(s, t, {}, r.value, {});
    if w.cache.buf[r.value].owner != 0 {
      LockedElsewhere(s, t, pid, r.value, bno);
      return None;
    }
    assert w.cache.users[r.value][pid] > 0;
    w.OpTake(pid, r.value);
    Sessions.NotedStep(t, w.cache.Now(), {}, r.value, {});
  }

  lemma LockedElsewhere(s: Snap, t: Snap, pid: nat, b: nat, bno: nat)
    requires Inv(s) && Inv(t) && b < NBUF && Holds(t.bufs[b], bno) && t.bufs[b].owner != 0 && bno < |t.view|
    requires t.bufs[b].owner == s.bufs[b].owner
    ensures !NoUsers(s) && (Idle(s, pid) ==> Stuck(t, pid) == true)
  {
    assert BufOk(s, b);
    if Idle(s, pid) {
      assert Elsewhere(t, bno, pid);
      assert NoBuffer(t, bno) || Elsewhere(t, bno, pid);
    }
  }

  /** The list with one more block, and the units after it has been logged. */
  ghost function Listing(lh: seq<nat>, bno: nat): (r: seq<nat>) {
    if bno in lh then lh else lh + [bno]
  }

  ghost function Paying(units: map<nat, nat>, pid: nat, lh: seq<nat>, bno: nat): (r: map<nat, nat>)
    requires pid in units && units[pid] > 0
  {
    if bno in lh then units else units[pid := units[pid] - 1]
  }

  /** A store and log_write, by an operation with a unit left: log_write cannot fail. */
  method StoreAndLog(w: WriteAheadLog, pid: nat, b: nat, data: Block)
    requires w.Valid() == true && pid in w.units && pid != 0 && w.units[pid] > 0 && b < w.cache.buf.Length == NBUF
    requires w.cache.buf[b].owner == pid && w.cache.buf[b].valid && !InLog(w.L, w.cache.buf[b].blockno)
    requires Clean(w.cache.Now()) == true
    modifies w`lh, w`units, w.cache`pins, w.cache`view, w.cache.buf
    ensures w.Valid() == true && old(w.cache.buf[b].blockno) < |old(w.cache.view)| && w.cache.buf[b].owner == pid
    ensures w.cache.view == old(w.cache.view)[old(w.cache.buf[b].blockno) := data]
    ensures w.lh == Listing(old(w.lh), old(w.cache.buf[b].blockno))
    ensures w.units == Paying(old(w.units), pid, old(w.lh), old(w.cache.buf[b].blockno))
    ensures Clean(w.cache.Now()) == true
  {
    ghost var s := w.cache.Now();
    w.OpModify(pid, b, data);
    ghost var t := w.cache.Now();
    Sessions.NotedStep(s, t, {}, b, {b});
    var result := w.LogWrite(pid, b);
    Sessions.NotedStep(t, w.cache.Now(), {b}, b, {});
  }

  /** All of it. */
  method LogStore(w: WriteAheadLog, pid: nat, bno: nat, data: Block) returns (done: bool)
    requires w.Valid() == true && pid in w.units && pid != 0 && w.units[pid] > 0 && bno < |w.cache.view| &&
              !InLog(w.L, bno) && Clean(w.cache.Now()) == true
    modifies w`lh, w`units, w.cache, w.cache.buf, w.cache.list`order, w.cache.list.prev, w.cache.list.next
    ensures w.Valid() == true && |w.cache.view| == |old(w.cache.view)| && pid in w.units
    ensures done ==> w.cache.view == old(w.cache.view)[bno := data]
    ensures done ==> w.lh == Listing(old(w.lh), bno) && w.units == Paying(old(w.units), pid, old(w.lh), bno)
    ensures done ==> Clean(w.cache.Now()) == true && w.cache.users == old(w.cache.users)
    ensures !done && Idle(old(w.cache.Now()), pid) ==> Stuck(w.cache.Now(), pid) == true
    ensures NoUsers(old(w.cache.Now())) ==> done
  {
    UnitRoom(w, pid);
    var r := TryBread(w, pid, bno);
    if r.None? {
      return false;
    }
    StoreAndLog(w, pid, r.value, data);
    LetGo(w, pid, r.value, old(w.cache.users));
    done := true;
  }

  /** With a unit left the log is not full. */
  lemma UnitRoom(w: WriteAheadLog, pid: nat)
    requires w.Valid() == true && pid in w.units && w.units[pid] > 0
    ensures |w.lh| < LOGSIZE
  {
    SumWithout(w.units, pid);
  }

  /** brelse gives back what bread took. */
  method LetGo(w: WriteAheadLog, pid: nat, b: nat, ghost users: seq<multiset<nat>>)
    requires w.Valid() == true && pid != 0 && b < w.cache.buf.Length == NBUF && w.cache.buf[b].owner == pid
    requires Clean(w.cache.Now()) == true && |users| == NBUF && w.cache.users == users[b := users[b] + multiset{pid}]
    modifies w.cache`users, w.cache`stamp, w.cache`clock, w.cache.buf,
             w.cache.list`order, w.cache.list.prev, w.cache.list.next
    ensures w.Valid() == true && Clean(w.cache.Now()) == true
    ensures w.cache.view == old(w.cache.view) && w.cache.users == users
  {
    ghost var s := w.cache.Now();
    assert !Dirty(s, b);
    w.OpRelease(pid, b);
    Sessions.NotedStep(s, w.cache.Now(), {}, b, {});
    assert users[b] + multiset{pid} - multiset{pid} == users[b];
  }

  /** Stores that an operation can afford all go into the log, and it spends at most a unit for each
      different block. */
  method LogMany(w: WriteAheadLog, pid: nat, ws: seq<(nat, Block)>) returns (done: bool)
    requires w.Valid() == true && pid in w.units && pid != 0 && Affordable(ws, w.units[pid])
    requires forall k :: 0 <= k < |ws| ==> ws[k].0 < |w.cache.view| && !InLog(w.L, ws[k].0)
    requires Clean(w.cache.Now()) == true
    modifies w`lh, w`units, w.cache, w.cache.buf, w.cache.list`order, w.cache.list.prev, w.cache.list.next
    ensures w.Valid() == true && pid in w.units
    ensures done ==> w.units[pid] + Spent(ws, |ws|) >= old(w.units[pid]) && w.units.Keys == old(w.units).Keys
    ensures done ==> Listed(ws, |ws|, w.lh) && w.cache.view == Applied(old(w.cache.view), ws)
    ensures done ==> Clean(w.cache.Now()) == true && w.cache.users == old(w.cache.users)
    ensures done ==> |w.lh| + w.units[pid] == |old(w.lh)| + old(w.units[pid])
    ensures !done && Idle(old(w.cache.Now()), pid) ==> Stuck(w.cache.Now(), pid) == true
    ensures NoUsers(old(w.cache.Now())) ==> done
  {
    ghost var u, keys, view := w.units[pid], w.units.Keys, w.cache.view;
    assert ws[..0] == [];
    for k := 0 to |ws|
      invariant w.Valid() == true && pid in w.units && w.units.Keys == keys
      invariant Midway(ws, k, w.lh, w.units[pid], u, view, w.cache.view) == true
      invariant Clean(w.cache.Now()) == true && w.cache.users == old(w.cache.users)
      invariant |w.lh| + w.units[pid] == |old(w.lh)| + u
    {
      ghost var lh, left, v := w.lh, w.units[pid], w.cache.view;
      UnitLeft(ws, k, lh, left, u, view, v);
      done := LogStore(w, pid, ws[k].0, ws[k].1);
      if !done {
        return;
      }
      MidwayNext(ws, k, lh, left, u, view, v, w.lh, w.units[pid], w.cache.view);
    }
    assert ws[..|ws|] == ws;
    done := true;
  }

  /** After k stores: their blocks are in the log, each different one has cost at most a unit, and the
      view has changed by them. */
  ghost predicate Midway(ws: seq<(nat, Block)>, k: nat, lh: seq<nat>, left: nat, u: nat, view: seq<Block>,
                         v: seq<Block>) {
    k <= |ws| && Listed(ws, k, lh) && left + Spent(ws, k) >= u && v == Applied(view, ws[..k])
  }

  lemma UnitLeft(ws: seq<(nat, Block)>, k: nat, lh: seq<nat>, left: nat, u: nat, view: seq<Block>, v: seq<Block>)
    requires Midway(ws, k, lh, left, u, view, v) && k < |ws| && Affordable(ws, u)
    ensures left > 0 && |v| == |view|
  {
    assert Spent(ws, k) < u;
  }

  lemma MidwayNext(ws: seq<(nat, Block)>, k: nat, lh: seq<nat>, left: nat, u: nat, view: seq<Block>, v: seq<Block>,
                   more: seq<nat>, less: nat, next: seq<Block>)
    requires Midway(ws, k, lh, left, u, view, v) && k < |ws| && ws[k].0 < |view| && next == v[ws[k].0 := ws[k].1]
    requires more == (if ws[k].0 in lh then lh else lh + [ws[k].0]) && less == left - if ws[k].0 in lh then 0 else 1
    ensures Midway(ws, k + 1, more, less, u, view, next) == true
  {
    SpentMore(ws, k, lh);
    ListedMore(ws, k, lh, more);
    AppliedNext(view, ws, k);
  }

  /** A block that is not in the log yet is another one. */
  lemma SpentMore(ws: seq<(nat, Block)>, k: nat, lh: seq<nat>)
    requires k < |ws| && Listed(ws, k, lh)
    ensures Spent(ws, k + 1) >= Spent(ws, k) + if ws[k].0 in lh then 0 else 1
  {
    SpentNext(ws, k);
    InLogAlready(ws, k, lh);
    Subset(Elements(Numbers(ws[..k])), Elements(Numbers(ws[..k + 1])));
  }

  ghost predicate Listed(ws: seq<(nat, Block)>, k: nat, lh: seq<nat>) {
    k <= |ws| && forall i :: 0 <= i < k ==> ws[i].0 in lh
  }

  lemma ListedMore(ws: seq<(nat, Block)>, k: nat, lh: seq<nat>, more: seq<nat>)
    requires k < |ws| && Listed(ws, k, lh) && more == (if ws[k].0 in lh then lh else lh + [ws[k].0])
    ensures Listed(ws, k + 1, more) == true
  {
  }

  lemma InLogAlready(ws: seq<(nat, Block)>, k: nat, lh: seq<nat>)
    requires k < |ws| && forall i :: 0 <= i < k ==> ws[i].0 in lh
    ensures ws[k].0 in Elements(Numbers(ws[..k])) ==> ws[k].0 in lh
  {
    if ws[k].0 in Elements(Numbers(ws[..k])) {
      var a := Numbers(ws[..k]);
      var i :| 0 <= i < |a| && a[i] == ws[k].0;
      assert ws[i].0 == a[i];
    }
  }
}
