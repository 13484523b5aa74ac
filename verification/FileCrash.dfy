/** filewrite on the log: each chunk of it is one operation, whose stores are logged and committed. A
    crash at any moment leaves a whole number of chunks. What the chunk does to the blocks is computed
    first, and its stores then go through the log in their order. */
module FileCrash {
  import opened Options
  import opened Blocks
  import opened Counting
  import opened Stores
  import opened FsTree
  import opened Fs
  import FsDisk
  import RedoLog
  import Bio
  import Log
  import LogFull

  type Layout = RedoLog.Layout
  type Superblock = FsDisk.Superblock

  // ---------- the files on a disk ----------

  /** The file system of a disk, with the inodes read from it. */
  ghost function OnDisk(sb: Superblock, d: seq<Block>): (s: State)
    requires FsDisk.Fits(sb, d)
    ensures Good(sb, s)
  {
    State(d, seq(sb.ninodes, i requires 0 <= i < sb.ninodes => FsDisk.GetInode(sb, d, i)))
  }

  ghost predicate AllSynced(sb: Superblock, s: State)
    requires Good(sb, s)
  {
    forall i: nat {:trigger Synced(sb, s, i)} :: i < sb.ninodes ==> Synced(sb, s, i)
  }

  /** The log comes before the inode table. */
  predicate LogFirst(L: Layout, sb: Superblock) {
    L.start + L.size <= sb.inodestart
  }

  /** The disk has the blocks of s, but for the log. */
  ghost predicate Twin(sb: Superblock, L: Layout, s: State, owner: map<nat, Place>, d: seq<Block>) {
    Inv(sb, s, owner) && AllSynced(sb, s) && LogFirst(L, sb) && RedoLog.SameHome(L, d, s.blocks)
  }

  lemma SameInodes(sb: Superblock, L: Layout, s: State, owner: map<nat, Place>, d: seq<Block>)
    requires Twin(sb, L, s, owner, d)
    ensures FsDisk.Fits(sb, d) && OnDisk(sb, d).inodes == s.inodes
  {
    forall i: nat | i < sb.ninodes
      ensures FsDisk.GetInode(sb, d, i) == s.inodes[i]
    {
      FsDisk.Regions(sb, 0, i);
      assert Synced(sb, s, i);
    }
  }

  lemma SameAddr(sb: Superblock, L: Layout, s: State, owner: map<nat, Place>, d: seq<Block>, i: nat, k: nat)
    requires Twin(sb, L, s, owner, d) && i < sb.ninodes && k < SLOTS && FsDisk.Fits(sb, d)
    ensures Addr(sb, OnDisk(sb, d), i, k) == Addr(sb, s, i, k)
  {
    SameInodes(sb, L, s, owner, d);
    var ind := Addr(sb, s, i, FsDisk.NDIRECT);
    assert ind != 0 ==> ind in owner;
  }

  lemma SamePeek(sb: Superblock, L: Layout, s: State, owner: map<nat, Place>, d: seq<Block>, i: nat, o: nat)
    requires Twin(sb, L, s, owner, d) && i < sb.ninodes && o < MAXBYTES && FsDisk.Fits(sb, d)
    ensures Peek(sb, OnDisk(sb, d), i, o) == Peek(sb, s, i, o)
  {
    SameAddr(sb, L, s, owner, d, i, Slot(o / 1024));
    var a := Addr(sb, s, i, Slot(o / 1024));
    assert a != 0 ==> a in owner;
  }

  lemma SameMark(sb: Superblock, L: Layout, s: State, owner: map<nat, Place>, d: seq<Block>, b: nat)
    requires Twin(sb, L, s, owner, d) && b < sb.size && FsDisk.Fits(sb, d)
    ensures FsDisk.Marked(sb, d, b) <==> FsDisk.Marked(sb, s.blocks, b)
  {
  }

  /** The same files are on the disk, and it is consistent. */
  lemma SameFiles(sb: Superblock, L: Layout, s: State, owner: map<nat, Place>, d: seq<Block>)
    requires Twin(sb, L, s, owner, d)
    ensures FsDisk.Fits(sb, d) && Inv(sb, OnDisk(sb, d), owner) == true
    ensures forall j: nat {:trigger Contents(sb, OnDisk(sb, d), j)} :: j < sb.ninodes ==>
              Contents(sb, OnDisk(sb, d), j) == Contents(sb, s, j)
  {
    SameInv(sb, L, s, owner, d);
    var t := OnDisk(sb, d);
    forall i: nat, o: nat | i < sb.ninodes && o < MAXBYTES
      ensures Peek(sb, t, i, o) == Peek(sb, s, i, o)
    {
      SamePeek(sb, L, s, owner, d, i, o);
    }
    SameContents(sb, s, t);
  }

  lemma SameInv(sb: Superblock, L: Layout, s: State, owner: map<nat, Place>, d: seq<Block>)
    requires Twin(sb, L, s, owner, d)
    ensures FsDisk.Fits(sb, d) && Inv(sb, OnDisk(sb, d), owner) == true && OnDisk(sb, d).inodes == s.inodes
  {
    SameInodes(sb, L, s, owner, d);
    var t := OnDisk(sb, d);
    forall i: nat, k: nat | i < sb.ninodes && k < SLOTS
      ensures Addr(sb, t, i, k) == Addr(sb, s, i, k)
    {
      SameAddr(sb, L, s, owner, d, i, k);
    }
    forall b: nat | b < sb.size
      ensures FsDisk.Marked(sb, d, b) <==> FsDisk.Marked(sb, s.blocks, b)
    {
      SameMark(sb, L, s, owner, d, b);
    }
    InvSame(sb, s, t, owner);
  }

  // ---------- what a crash leaves ----------

  /** The files of t are those of s, with the first k bytes of src written into file i at off. */
  ghost predicate Files(sb: Superblock, s: State, i: nat, off: nat, src: seq<Byte>, k: nat, t: State) {
    && Good(sb, s) && Filled(sb, s) && Good(sb, t) && Filled(sb, t) && i < sb.ninodes && k <= |src|
    && (off > s.inodes[i].size ==> k == 0)
    && forall j: nat {:trigger Contents(sb, t, j)} :: j < sb.ninodes ==>
         Contents(sb, t, j) == if j == i && off <= s.inodes[i].size then Overwrite(Contents(sb, s, i), off, src[..k])
                               else Contents(sb, s, j)
  }

  /** Recovery makes of disk d a consistent file system with these files. */
  ghost predicate Leaves(sb: Superblock, L: Layout, s: State, i: nat, off: nat, src: seq<Byte>, k: nat,
                         d: seq<Block>) {
    && RedoLog.WellFormed(L, d)
    && var r := RedoLog.Recovered(L, d);
    Consistent(sb, r) && Files(sb, s, i, off, src, k, OnDisk(sb, r))
  }

  ghost predicate Consistent(sb: Superblock, d: seq<Block>) {
    FsDisk.Fits(sb, d) && exists owner :: Inv(sb, OnDisk(sb, d), owner)
  }

  /** A chunk has been written to the blocks t, and disk d recovers to them. */
  lemma ChunkLeaves(sb: Superblock, L: Layout, s: State, i: nat, off: nat, src: seq<Byte>, k: nat, t: State,
                    owner: map<nat, Place>, v: seq<Block>, d: seq<Block>)
    requires Filing(sb, s, i, off, src, k, t, owner) && AllSynced(sb, s) && LogFirst(L, sb)
    requires RedoLog.SameHome(L, v, t.blocks) && Log.RecoversTo(L, d, v)
    ensures Leaves(sb, L, s, i, off, src, k, d) == true
  {
    var r := RedoLog.Recovered(L, d);
    FilingSynced(sb, s, i, off, src, k, t, owner);
    assert Twin(sb, L, t, owner, r);
    SameFiles(sb, L, t, owner, r);
  }

  lemma FilingSynced(sb: Superblock, s: State, i: nat, off: nat, src: seq<Byte>, k: nat, t: State,
                     owner: map<nat, Place>)
    requires Filing(sb, s, i, off, src, k, t, owner) && AllSynced(sb, s)
    ensures AllSynced(sb, t) && Files(sb, s, i, off, src, k, t)
  {
    forall j: nat | j < sb.ninodes
      ensures Synced(sb, t, j)
    {
      assert Synced(sb, s, j);
    }
  }

  // ---------- one operation ----------

  /** Nothing is open, logged or uncommitted, and the process has no buffer. */
  ghost predicate Resting(w: Log.WriteAheadLog, pid: nat)
    reads w, w.cache, w.cache.buf, w.cache.list, w.cache.list.prev, w.cache.list.next, w.cache.disk
  {
    && w.Valid() && pid != 0 && w.units == map[] && !w.committing && w.lh == [] && w.durable == w.cache.view
    && Log.Idle(w.cache.Now(), pid)
  }

  /** The stores of an operation, up to where end_op commits. */
  method Logs(w: Log.WriteAheadLog, pid: nat, ws: seq<(nat, Block)>) returns (ok: bool)
    requires Resting(w, pid) && Affordable(ws, 10)
    requires forall k :: 0 <= k < |ws| ==> ws[k].0 < |w.cache.view| && !RedoLog.InLog(w.L, ws[k].0)
    modifies w, w.cache, w.cache.buf, w.cache.list`order, w.cache.list.prev, w.cache.list.next
    ensures ok ==> w.Valid() == true && w.committing && w.units == map[] && w.durable == old(w.cache.view)
    ensures ok ==> w.cache.view == Applied(old(w.cache.view), ws) && Log.Idle(w.cache.Now(), pid) == true
    ensures ok ==> |w.lh| <= 10 && w.cache.users == old(w.cache.users)
    ensures !ok ==> Log.Stuck(w.cache.Now(), pid) == true
    ensures Log.NoUsers(old(w.cache.Now())) ==> ok
  {
    var admitted := w.BeginOp(pid);
    ok := LogFull.LogMany(w, pid, ws);
    if ok {
      var last := w.EndOp(pid);
    }
  }

  /** The stores of an operation, from begin_op to the end of its commit. */
  method Perform(w: Log.WriteAheadLog, pid: nat, ws: seq<(nat, Block)>, alone: bool) returns (ok: bool)
    requires Resting(w, pid) && Affordable(ws, 10)
    requires forall k :: 0 <= k < |ws| ==> ws[k].0 < |w.cache.view| && !RedoLog.InLog(w.L, ws[k].0)
    modifies w, w.cache, w.cache.buf, w.cache.list`order, w.cache.list.prev, w.cache.list.next, w.cache.disk
    ensures |old(w.cache.disk.trace)| <= |w.cache.disk.trace|
    ensures w.cache.disk.trace[..|old(w.cache.disk.trace)|] == old(w.cache.disk.trace)
    ensures forall x :: |old(w.cache.disk.trace)| <= x < |w.cache.disk.trace| ==>
              || Log.RecoversTo(w.L, w.cache.disk.trace[x], old(w.cache.view))
              || Log.RecoversTo(w.L, w.cache.disk.trace[x], Applied(old(w.cache.view), ws))
    ensures ok ==> Resting(w, pid) && RedoLog.SameHome(w.L, w.cache.view, Applied(old(w.cache.view), ws))
    ensures Log.Served(old(w.cache.Now()), w.cache.Now(), pid, alone, true, ok) == true
  {
    ghost var s := w.cache.Now();
    ok := Logs(w, pid, ws);
    if !ok {
      return;
    }
    ghost var t := w.cache.Now();
    ok := w.Commit(pid, alone);
    LogThenCommit(s, t, w.cache.Now(), pid, alone, ok);
    if ok {
      w.EndCommit();
    }
  }

  lemma LogThenCommit(s: Bio.Snap, t: Bio.Snap, u: Bio.Snap, pid: nat, alone: bool, ok: bool)
    requires t.users == s.users && Log.Served(t, u, pid, alone, true, ok)
    ensures Log.Served(s, u, pid, alone, true, ok) == true
  {
    assert Log.NoUsers(s) ==> Log.NoUsers(t);
  }

  // ---------- filewrite ----------

  /** How much is written after c chunks. */
  function After(c: nat, n: nat): (k: nat) {
    if 3072 * c < n then 3072 * c else n
  }

  ghost function Ended(ends: seq<nat>, n: nat): (r: seq<nat>) {
    ends + [n]
  }

  lemma AfterNext(c: nat, n: nat)
    requires After(c, n) < n
    ensures After(c + 1, n) == After(c, n) + Chunk(n - After(c, n))
  {
  }

  /** Disk d, written by block write x, recovers to some number of whole chunks, and to no fewer than had
      been committed: chunk c + 1 ended before block write ends[c]. */
  ghost predicate WholeChunks(sb: Superblock, L: Layout, s: State, i: nat, off: nat, src: seq<Byte>,
                              ends: seq<nat>, d: seq<Block>, x: nat) {
    exists c: nat {:trigger After(c, |src|)} :: c <= |ends| + 1 && Leaves(sb, L, s, i, off, src, After(c, |src|), d)
                  && forall e {:trigger ends[e]} :: c <= e < |ends| ==> x < ends[e]
  }

  ghost predicate AllWhole(sb: Superblock, L: Layout, s: State, i: nat, off: nat, src: seq<Byte>, ends: seq<nat>,
                           disks: seq<seq<Block>>, start: nat) {
    && start <= |disks| && (forall e :: 0 <= e < |ends| ==> ends[e] <= |disks|)
    && forall x: nat {:trigger disks[x]} :: start <= x < |disks| ==>
         WholeChunks(sb, L, s, i, off, src, ends, disks[x], x)
  }

  /** One more chunk: the new disks recover to the chunks before, or to one more. */
  lemma MoreWhole(sb: Superblock, L: Layout, s: State, i: nat, off: nat, src: seq<Byte>, ends: seq<nat>,
                  before: seq<seq<Block>>, disks: seq<seq<Block>>, start: nat)
    requires AllWhole(sb, L, s, i, off, src, ends, before, start)
    requires |before| <= |disks| && disks[..|before|] == before
    requires forall x :: |before| <= x < |disks| ==>
               || Leaves(sb, L, s, i, off, src, After(|ends|, |src|), disks[x])
               || Leaves(sb, L, s, i, off, src, After(|ends| + 1, |src|), disks[x])
    ensures AllWhole(sb, L, s, i, off, src, ends, disks, start)
    ensures AllWhole(sb, L, s, i, off, src, Ended(ends, |disks|), disks, start)
  {
    forall x: nat | start <= x < |disks|
      ensures WholeChunks(sb, L, s, i, off, src, ends, disks[x], x)
      ensures WholeChunks(sb, L, s, i, off, src, Ended(ends, |disks|), disks[x], x)
    {
      if x < |before| {
        assert disks[x] == before[x] && WholeChunks(sb, L, s, i, off, src, ends, before[x], x);
        StillWhole(sb, L, s, i, off, src, ends, disks[x], x, |disks|);
      } else if Leaves(sb, L, s, i, off, src, After(|ends|, |src|), disks[x]) {
        NowWhole(sb, L, s, i, off, src, ends, disks[x], x, |disks|, |ends|);
      } else {
        NowWhole(sb, L, s, i, off, src, ends, disks[x], x, |disks|, |ends| + 1);
      }
    }
  }

  lemma StillWhole(sb: Superblock, L: Layout, s: State, i: nat, off: nat, src: seq<Byte>, ends: seq<nat>,
                   d: seq<Block>, x: nat, n: nat)
    requires WholeChunks(sb, L, s, i, off, src, ends, d, x) && x < n
    ensures WholeChunks(sb, L, s, i, off, src, Ended(ends, n), d, x)
  {
    var c: nat :| c <= |ends| + 1 && Leaves(sb, L, s, i, off, src, After(c, |src|), d) == true
                  && forall e {:trigger ends[e]} :: c <= e < |ends| ==> x < ends[e];
    assert forall e :: c <= e < |Ended(ends, n)| ==> x < Ended(ends, n)[e];
  }

  lemma NowWhole(sb: Superblock, L: Layout, s: State, i: nat, off: nat, src: seq<Byte>, ends: seq<nat>,
                 d: seq<Block>, x: nat, n: nat, c: nat)
    requires Leaves(sb, L, s, i, off, src, After(c, |src|), d) == true && |ends| <= c <= |ends| + 1 && x < n
    ensures WholeChunks(sb, L, s, i, off, src, ends, d, x)
    ensures WholeChunks(sb, L, s, i, off, src, Ended(ends, n), d, x)
  {
    assert forall e :: c <= e < |Ended(ends, n)| ==> x < Ended(ends, n)[e];
  }

  /** Stores outside the log keep two disks the same that differ only there. */
  lemma {:induction false} AppliedHome(L: Layout, a: seq<Block>, b: seq<Block>, ws: seq<(nat, Block)>)
    requires RedoLog.SameHome(L, a, b)
    ensures RedoLog.SameHome(L, Applied(a, ws), Applied(b, ws))
    decreases |ws|
  {
    if ws != [] {
      AppliedHome(L, a, b, ws[..|ws| - 1]);
    }
  }

  lemma StoresHome(L: Layout, sb: Superblock, ws: seq<(nat, Block)>, n: nat)
    requires LogFirst(L, sb) && forall b :: b in Elements(Numbers(ws)) ==> sb.inodestart <= b < n
    ensures forall k :: 0 <= k < |ws| ==> ws[k].0 < n && !RedoLog.InLog(L, ws[k].0)
  {
    forall k | 0 <= k < |ws|
      ensures ws[k].0 < n && !RedoLog.InLog(L, ws[k].0)
    {
      assert Numbers(ws)[k] in Elements(Numbers(ws));
    }
  }

  /** What the chunk that comes next does: from state t, with k bytes written, its stores lead to state u,
      with end bytes written. */
  ghost predicate NextChunk(sb: Superblock, L: Layout, s: State, i: nat, off: nat, src: seq<Byte>, c: nat,
                            t: State, own0: map<nat, Place>, u: State, own1: map<nat, Place>,
                            ws: seq<(nat, Block)>) {
    && Filing(sb, s, i, off, src, After(c, |src|), t, own0) == true
    && Filing(sb, s, i, off, src, After(c + 1, |src|), u, own1) == true
    && Good(sb, s) && AllSynced(sb, s) && LogFirst(L, sb) && u.blocks == Applied(t.blocks, ws)
  }

  lemma DisksLeave(sb: Superblock, L: Layout, s: State, i: nat, off: nat, src: seq<Byte>, c: nat,
                   t: State, own0: map<nat, Place>, u: State, own1: map<nat, Place>, ws: seq<(nat, Block)>,
                   view: seq<Block>, d: seq<Block>)
    requires NextChunk(sb, L, s, i, off, src, c, t, own0, u, own1, ws) && RedoLog.SameHome(L, view, t.blocks)
    requires Log.RecoversTo(L, d, view) || Log.RecoversTo(L, d, Applied(view, ws))
    ensures || Leaves(sb, L, s, i, off, src, After(c, |src|), d)
            || Leaves(sb, L, s, i, off, src, After(c + 1, |src|), d)
  {
    AppliedHome(L, view, t.blocks, ws);
    if Log.RecoversTo(L, d, view) {
      ChunkLeaves(sb, L, s, i, off, src, After(c, |src|), t, own0, view, d);
    } else {
      ChunkLeaves(sb, L, s, i, off, src, After(c + 1, |src|), u, own1, Applied(view, ws), d);
    }
  }

  /** The chunk's stores go through the log. */
  method CommitChunk(w: Log.WriteAheadLog, pid: nat, ws: seq<(nat, Block)>, ghost sb: Superblock, ghost s: State,
                     ghost i: nat, ghost off: nat, ghost src: seq<Byte>, ghost ends: seq<nat>, ghost start: nat,
                     ghost t: State, ghost own0: map<nat, Place>, ghost u: State, ghost own1: map<nat, Place>,
                     alone: bool)
    returns (ok: bool)
    requires Resting(w, pid) == true && Affordable(ws, 10)
    requires forall k :: 0 <= k < |ws| ==> ws[k].0 < |w.cache.view| && !RedoLog.InLog(w.L, ws[k].0)
    requires NextChunk(sb, w.L, s, i, off, src, |ends|, t, own0, u, own1, ws) == true
    requires RedoLog.SameHome(w.L, w.cache.view, t.blocks) == true
    requires AllWhole(sb, w.L, s, i, off, src, ends, w.cache.disk.trace, start) == true
    modifies w, w.cache, w.cache.buf, w.cache.list`order, w.cache.list.prev, w.cache.list.next, w.cache.disk
    ensures AllWhole(sb, w.L, s, i, off, src, ends, w.cache.disk.trace, start) == true
    ensures AllWhole(sb, w.L, s, i, off, src, Ended(ends, |w.cache.disk.trace|), w.cache.disk.trace, start) == true
    ensures ok ==> Resting(w, pid) == true && RedoLog.SameHome(w.L, w.cache.view, u.blocks) == true
    ensures Log.Served(old(w.cache.Now()), w.cache.Now(), pid, alone, true, ok) == true
  {
    ghost var view, disks := w.cache.view, w.cache.disk.trace;
    ok := Perform(w, pid, ws, alone);
    forall x | |disks| <= x < |w.cache.disk.trace|
      ensures || Leaves(sb, w.L, s, i, off, src, After(|ends|, |src|), w.cache.disk.trace[x])
              || Leaves(sb, w.L, s, i, off, src, After(|ends| + 1, |src|), w.cache.disk.trace[x])
    {
      DisksLeave(sb, w.L, s, i, off, src, |ends|, t, own0, u, own1, ws, view, w.cache.disk.trace[x]);
    }
    MoreWhole(sb, w.L, s, i, off, src, ends, disks, w.cache.disk.trace, start);
    AppliedHome(w.L, view, t.blocks, ws);
  }

  datatype Outcome = Done(ret: int) | NoBlocks | NoBuffers

  /** n bytes fit into file i at off. */
  ghost predicate Room(s: State, i: nat, off: nat, n: nat) {
    i < |s.inodes| && off <= s.inodes[i].size && off + n <= MAXBYTES
  }

  /** Between two chunks: k bytes are written and committed. */
  ghost predicate Between(fs: FileSystem, w: Log.WriteAheadLog, pid: nat, s: State, i: nat, off: nat,
                          src: seq<Byte>, k: nat)
    reads fs, w, w.cache, w.cache.buf, w.cache.list, w.cache.list.prev, w.cache.list.next, w.cache.disk
  {
    && Filing(fs.sb, s, i, off, src, k, fs.Now(), fs.owner) == true
    && Good(fs.sb, s) && AllSynced(fs.sb, s) && LogFirst(w.L, fs.sb)
    && Resting(w, pid) == true && RedoLog.SameHome(w.L, w.cache.view, fs.blocks) == true
  }

  /** The disk is then safe as it is. */
  lemma RestLeaves(fs: FileSystem, w: Log.WriteAheadLog, pid: nat, s: State, i: nat, off: nat, src: seq<Byte>, k: nat)
    requires Between(fs, w, pid, s, i, off, src, k) == true
    ensures Leaves(fs.sb, w.L, s, i, off, src, k, w.cache.disk.blocks) == true
  {
    RedoLog.QuietRecovers(w.L, w.cache.disk.blocks);
    ChunkLeaves(fs.sb, w.L, s, i, off, src, k, fs.Now(), fs.owner, w.cache.view, w.cache.disk.blocks);
  }

  lemma BetweenFirst(fs: FileSystem, w: Log.WriteAheadLog, pid: nat, i: nat, off: nat, src: seq<Byte>)
    requires fs.Valid() && AllSynced(fs.sb, fs.Now()) == true && i < fs.sb.ninodes
    requires Resting(w, pid) == true && LogFirst(w.L, fs.sb) && RedoLog.SameHome(w.L, w.cache.view, fs.blocks) == true
    ensures Between(fs, w, pid, fs.Now(), i, off, src, 0) == true
  {
    FilingStart(fs.sb, fs.Now(), i, off, src, fs.owner);
  }

  /** What the chunk stores. */
  method ChunkStores(fs: FileSystem, ghost L: Layout, ghost s: State, i: nat, ghost off: nat,
                     src: seq<Byte>, k: nat, pos: Word, end: nat, ghost c: nat)
    returns (ok: bool, n: Option<nat>)
    requires Filing(fs.sb, s, i, off, src, k, fs.Now(), fs.owner) == true && i < |s.inodes|
    requires Good(fs.sb, s) == true && AllSynced(fs.sb, s) == true && LogFirst(L, fs.sb)
    requires pos == off + k && k < end <= k + 3072 && end <= |src| < 0x8000_0000
    requires k == After(c, |src|) && end == After(c + 1, |src|)
    modifies fs
    ensures !ok ==> Full(fs.sb, fs.blocks) == true
    ensures ok ==> (n.Some? <==> Room(s, i, off, end))
    ensures ok && n.None? ==> fs.Now() == old(fs.Now()) && fs.owner == old(fs.owner)
    ensures ok && n.Some? ==>
              && n.value == end - k && Affordable(fs.stores, 10) == true && |fs.blocks| == |old(fs.blocks)|
              && (forall j :: 0 <= j < |fs.stores| ==>
                    fs.stores[j].0 < |fs.blocks| && !RedoLog.InLog(L, fs.stores[j].0))
              && NextChunk(fs.sb, L, s, i, off, src, c, old(fs.Now()), old(fs.owner), fs.Now(), fs.owner, fs.stores)
                 == true
  {
    ghost var before;
    ok, n, before := fs.FileChunk(s, i, off, src, k, pos, end);
    if ok && n.Some? {
      StoresHome(L, fs.sb, fs.stores, |fs.blocks|);
    }
  }

  /** One chunk: Done(-1) if it does not fit into the file. */
  method WriteChunk(fs: FileSystem, w: Log.WriteAheadLog, pid: nat, ghost s: State, i: nat, ghost off: nat,
                    src: seq<Byte>, k: nat, pos: Word, end: nat, ghost ends: seq<nat>, ghost start: nat, alone: bool)
    returns (r: Outcome)
    requires Between(fs, w, pid, s, i, off, src, k) == true && i < |s.inodes| && |src| < 0x8000_0000
    requires pos == off + k && k < end <= k + 3072 && end <= |src|
    requires k == After(|ends|, |src|) && end == After(|ends| + 1, |src|)
    requires AllWhole(fs.sb, w.L, s, i, off, src, ends, w.cache.disk.trace, start) == true
    modifies fs, w, w.cache, w.cache.buf, w.cache.list`order, w.cache.list.prev, w.cache.list.next, w.cache.disk
    ensures AllWhole(fs.sb, w.L, s, i, off, src, ends, w.cache.disk.trace, start) == true
    ensures r.NoBlocks? ==> Full(fs.sb, fs.blocks) == true
    ensures r.Done? ==> r.ret == (if Room(s, i, off, end) then end - k else -1)
    ensures r.Done? ==> Between(fs, w, pid, s, i, off, src, if r.ret == -1 then k else end) == true
    ensures r.Done? && r.ret != -1 ==>
              AllWhole(fs.sb, w.L, s, i, off, src, Ended(ends, |w.cache.disk.trace|), w.cache.disk.trace, start) == true
    ensures !r.NoBlocks? ==> Log.Served(old(w.cache.Now()), w.cache.Now(), pid, alone, true, !r.NoBuffers?) == true
  {
    ghost var t, own := fs.Now(), fs.owner;
    var ok, n := ChunkStores(fs, w.L, s, i, off, src, k, pos, end, |ends|);
    if !ok {
      return NoBlocks;
    } else if n.None? {
      return Done(-1);
    }
    ok := CommitChunk(w, pid, fs.stores, fs.sb, s, i, off, src, ends, start, t, own, fs.Now(), fs.owner,
                      alone);
    r := if ok then Done(n.value) else NoBuffers;
  }

  /** filewrite when k bytes are written, in the chunks that ended as `ends` says. */
  ghost predicate Going(fs: FileSystem, w: Log.WriteAheadLog, pid: nat, s: State, i: nat, off: nat, src: seq<Byte>,
                        k: nat, ends: seq<nat>, start: nat, s0: Bio.Snap, alone: bool)
    reads fs, w, w.cache, w.cache.buf, w.cache.list, w.cache.list.prev, w.cache.list.next, w.cache.disk
  {
    && Between(fs, w, pid, s, i, off, src, k) == true
    && AllWhole(fs.sb, w.L, s, i, off, src, ends, w.cache.disk.trace, start) == true
    && Log.Served(s0, w.cache.Now(), pid, alone, true, true) == true
    && k == After(|ends|, |src|) && (k == 0 || Room(s, i, off, k)) && i < |s.inodes| && |src| < 0x8000_0000
  }

  /** One round of its loop. */
  method WriteNext(fs: FileSystem, w: Log.WriteAheadLog, pid: nat, ghost s: State, i: nat, off: Word,
                   src: seq<Byte>, k: nat, ghost ends: seq<nat>, ghost start: nat, ghost s0: Bio.Snap, alone: bool)
    returns (r: Outcome, k': nat, ghost ends': seq<nat>)
    requires Going(fs, w, pid, s, i, off, src, k, ends, start, s0, alone) && k < |src|
    modifies fs, w, w.cache, w.cache.buf, w.cache.list`order, w.cache.list.prev, w.cache.list.next, w.cache.disk
    ensures !r.Done? ==> AllWhole(fs.sb, w.L, s, i, off, src, ends', w.cache.disk.trace, start) == true
    ensures r.NoBlocks? ==> Full(fs.sb, fs.blocks) == true
    ensures r.NoBuffers? ==> Log.Served(s0, w.cache.Now(), pid, alone, true, false) == true
    ensures r.Done? ==> Going(fs, w, pid, s, i, off, src, k', ends', start, s0, alone) == true
    ensures r.Done? ==> if r.ret == -1 then k' == k && !Room(s, i, off, |src|) else k < k' <= |src|
  {
    k', ends' := k, ends;
    var end := k + Chunk(|src| - k);
    AfterNext(|ends|, |src|);
    ghost var t := w.cache.Now();
    r := WriteChunk(fs, w, pid, s, i, off, src, k, off + k, end, ends, start, alone);
    if !r.NoBlocks? {
      Log.ServedTwice(s0, t, w.cache.Now(), pid, alone, true, !r.NoBuffers?);
    }
    if r.Done? && r.ret != -1 {
      k', ends' := end, Ended(ends, |w.cache.disk.trace|);
    }
  }

  /** The loop of filewrite. */
  method WriteChunks(fs: FileSystem, w: Log.WriteAheadLog, pid: nat, ghost s: State, i: nat, off: Word,
                     src: seq<Byte>, ghost start: nat, ghost s0: Bio.Snap, alone: bool)
    returns (r: Outcome, k: nat, ghost ends: seq<nat>)
    requires Going(fs, w, pid, s, i, off, src, 0, [], start, s0, alone) == true
    modifies fs, w, w.cache, w.cache.buf, w.cache.list`order, w.cache.list.prev, w.cache.list.next, w.cache.disk
    ensures !r.Done? ==> AllWhole(fs.sb, w.L, s, i, off, src, ends, w.cache.disk.trace, start) == true
    ensures r.NoBlocks? ==> Full(fs.sb, fs.blocks) == true
    ensures r.NoBuffers? ==> Log.Served(s0, w.cache.Now(), pid, alone, true, false) == true
    ensures r.Done? ==> Going(fs, w, pid, s, i, off, src, k, ends, start, s0, alone) == true
    ensures r.Done? && k != |src| ==> !Room(s, i, off, |src|)
  {
    k, ends, r := 0, [], Done(0);
    while k < |src|
      invariant r.Done? && k <= |src| && Going(fs, w, pid, s, i, off, src, k, ends, start, s0, alone) == true
      decreases |src| - k
    {
      r, k, ends := WriteNext(fs, w, pid, s, i, off, src, k, ends, start, s0, alone);
      if !r.Done? || r.ret == -1 {
        return;
      }
    }
  }

  /** filewrite of all of src at offset off of file i: whatever disk a crash finds, recovery gives a
      consistent file system in which a whole number of chunks is written, those that were committed
      among them, and no other file is changed. */
  method WriteFile(fs: FileSystem, w: Log.WriteAheadLog, pid: nat, i: nat, off: Word, src: seq<Byte>, alone: bool)
    returns (r: Outcome, ghost ends: seq<nat>)
    requires fs.Valid() && AllSynced(fs.sb, fs.Now()) == true && i < fs.sb.ninodes && |src| < 0x8000_0000
    requires Resting(w, pid) == true && LogFirst(w.L, fs.sb) && RedoLog.SameHome(w.L, w.cache.view, fs.blocks) == true
    modifies fs, w, w.cache, w.cache.buf, w.cache.list`order, w.cache.list.prev, w.cache.list.next, w.cache.disk
    ensures AllWhole(fs.sb, w.L, old(fs.Now()), i, off, src, ends, w.cache.disk.trace,
              |old(w.cache.disk.trace)|) == true
    ensures r.NoBlocks? ==> Full(fs.sb, fs.blocks) == true
    ensures !r.NoBlocks? ==> Log.Served(old(w.cache.Now()), w.cache.Now(), pid, alone, true, !r.NoBuffers?) == true
    ensures r.Done? ==>
              && Between(fs, w, pid, old(fs.Now()), i, off, src, After(|ends|, |src|)) == true
              && Leaves(fs.sb, w.L, old(fs.Now()), i, off, src, After(|ends|, |src|), w.cache.disk.blocks) == true
    ensures r.Done? ==> (r.ret == |src| <==> After(|ends|, |src|) == |src|) && (r.ret == |src| || r.ret == -1)
    ensures r.Done? ==> (r.ret == |src| <==> src == [] || Room(old(fs.Now()), i, off, |src|))
  {
    ghost var s, s0, start := fs.Now(), w.cache.Now(), |w.cache.disk.trace|;
    BetweenFirst(fs, w, pid, i, off, src);
    assert Going(fs, w, pid, s, i, off, src, 0, [], start, s0, alone);
    var k;
    r, k, ends := WriteChunks(fs, w, pid, s, i, off, src, start, s0, alone);
    if r.Done? {
      RestLeaves(fs, w, pid, s, i, off, src, k);
      r := Done(if k == |src| then |src| else -1);
    }
  }

  // ---------- after a crash ----------

  /** Every inode as ilock reads it. */
  method ReadFiles(sb: Superblock, blocks: seq<Block>) returns (fs: FileSystem)
    requires Consistent(sb, blocks)
    ensures fresh(fs) && fs.sb == sb && fs.Valid() == true && fs.Now() == OnDisk(sb, blocks)
    ensures AllSynced(sb, OnDisk(sb, blocks)) == true
  {
    var inodes := seq(sb.ninodes, i requires 0 <= i < sb.ninodes => FsDisk.GetInode(sb, blocks, i));
    ghost var owner :| Inv(sb, OnDisk(sb, blocks), owner);
    fs := new FileSystem(sb, blocks, inodes, owner);
  }

  /** A boot on any disk that recovers to a consistent file system, such as one that WriteFile leaves
      when it is cut off: WriteFile can be called on the result. */
  method Mount(disk: Bio.Disk, sb: Superblock, L: Layout, pid: nat) returns (fs: FileSystem, w: Log.WriteAheadLog)
    requires RedoLog.WellFormed(L, disk.blocks) && Consistent(sb, RedoLog.Recovered(L, disk.blocks)) == true
    requires LogFirst(L, sb) && pid != 0
    modifies disk
    ensures fresh(fs) && fresh(w) && fs.sb == sb && w.L == L && w.cache.disk == disk
    ensures fs.Valid() && AllSynced(sb, fs.Now()) && Resting(w, pid) && Log.NoUsers(w.cache.Now())
    ensures RedoLog.SameHome(L, w.cache.view, fs.blocks)
    ensures fs.Now() == OnDisk(sb, RedoLog.Recovered(L, old(disk.blocks)))
  {
    w := Log.StartLog(disk, L, pid);
    fs := ReadFiles(sb, disk.blocks);
  }

  lemma {:induction false} ZeroNumber(bytes: seq<Byte>)
    requires forall k :: 0 <= k < |bytes| ==> bytes[k] == 0
    ensures Number(bytes) == 0
  {
    if bytes != [] {
      ZeroNumber(bytes[1..]);
    }
  }

  lemma ZeroWord(i: nat)
    requires i < NWORDS
    ensures GetWord(ZeroBlock(), i) == 0
  {
    ZeroNumber(ZeroBlock()[4 * i..4 * i + 4]);
  }

  lemma ZeroInode(p: nat)
    requires p < FsDisk.IPB
    ensures FsDisk.GetSlot(ZeroBlock(), p) == FsDisk.Inode(0, 0, 0, 0, 0, NoAddrs())
  {
    var ws := FsDisk.GetWords(ZeroBlock(), 16 * p, FsDisk.INODEWORDS);
    forall k | 0 <= k < |ws|
      ensures ws[k] == 0
    {
      ZeroWord(16 * p + k);
    }
    assert ws[3..] == NoAddrs();
  }

  /** An empty disk can be mounted, too. */
  method Blank(sb: Superblock, L: Layout) returns (disk: Bio.Disk)
    requires FsDisk.GoodLayout(sb) && LogFirst(L, sb) && RedoLog.LOGSIZE + 1 <= L.size
    ensures fresh(disk) && RedoLog.WellFormed(L, disk.blocks) && Consistent(sb, RedoLog.Recovered(L, disk.blocks))
  {
    var fs := Format(sb);
    disk := new Bio.Disk(fs.blocks);
    ghost var d := disk.blocks;
    ZeroWord(0);
    RedoLog.QuietRecovers(L, d);
    forall i: nat | i < sb.ninodes
      ensures Synced(sb, fs.Now(), i)
    {
      FsDisk.Regions(sb, 0, i);
      ZeroInode(i % 16);
    }
    SameFiles(sb, L, fs.Now(), fs.owner, RedoLog.Recovered(L, d));
  }
}
