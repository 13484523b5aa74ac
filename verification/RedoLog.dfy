/** The on-disk side of the write-ahead log: what recovery makes of a disk, which disk
    states a commit passes through, one state per block write, and the theorem that a
    crash after any one of those writes leaves either all of a transaction or none of it. */
module RedoLog {
  import opened Blocks

  const MAXOPBLOCKS: nat := 10
  const LOGSIZE: nat := 30

  /** The contents of the whole disk. */
  type Image = seq<Block>

  /** Where the superblock puts the log: a header block followed by `size - 1` log blocks. */
  datatype Layout = Layout(start: nat, size: nat)

  /** The blocks one group commit writes, and their new contents. */
  datatype Txn = Txn(homes: seq<nat>, vals: seq<Block>)

  predicate InLog(L: Layout, i: nat) {
    L.start <= i < L.start + L.size
  }

  predicate Fits(L: Layout, d: Image) {
    LOGSIZE + 1 <= L.size && L.start + L.size <= |d| <= 0x1_0000_0000
  }

  /** Two disks agree on every block outside the log area. */
  ghost predicate SameHome(L: Layout, d: Image, e: Image) {
    |d| == |e| && forall i: nat :: i < |d| && !InLog(L, i) ==> d[i] == e[i]
  }

  // ---------- the header block ----------

  function HeaderCount(b: Block): (n: Word) {
    GetWord(b, 0)
  }

  function HeaderHomes(b: Block): (homes: seq<nat>)
    requires HeaderCount(b) <= LOGSIZE
  {
    seq(HeaderCount(b), i requires 0 <= i < HeaderCount(b) => GetWord(b, i + 1))
  }

  /** write_head stores the count first and then the first k block numbers; words past
      them keep whatever an earlier, longer transaction left there. */
  function PutHeader(b: Block, homes: seq<nat>, k: nat): (r: Block)
    requires k <= |homes| <= LOGSIZE
    requires forall i :: 0 <= i < |homes| ==> homes[i] < 0x1_0000_0000
    ensures HeaderCount(r) == |homes|
    ensures forall i: nat :: i < k ==> GetWord(r, i + 1) == homes[i]
  {
    if k == 0 then PutWord(b, 0, |homes|)
    else PutWord(PutHeader(b, homes, k - 1), k, homes[k - 1])
  }

  lemma HeaderRoundTrip(b: Block, homes: seq<nat>)
    requires |homes| <= LOGSIZE
    requires forall i :: 0 <= i < |homes| ==> homes[i] < 0x1_0000_0000
    ensures HeaderCount(PutHeader(b, homes, |homes|)) == |homes|
    ensures HeaderHomes(PutHeader(b, homes, |homes|)) == homes
  {
    var r := PutHeader(b, homes, |homes|);
    assert forall i: nat :: i < |homes| ==> HeaderHomes(r)[i] == GetWord(r, i + 1);
  }

  ghost predicate GoodHomes(L: Layout, d: Image, homes: seq<nat>) {
    && |homes| <= LOGSIZE
    && (forall i :: 0 <= i < |homes| ==> homes[i] < |d| && !InLog(L, homes[i]))
  }

  /** A disk that recovery can run on. */
  ghost predicate WellFormed(L: Layout, d: Image) {
    && Fits(L, d)
    && HeaderCount(d[L.start]) <= LOGSIZE
    && GoodHomes(L, d, HeaderHomes(d[L.start]))
  }

  /** A disk whose log is empty. */
  ghost predicate Quiet(L: Layout, d: Image) {
    Fits(L, d) && HeaderCount(d[L.start]) == 0
  }

  // ---------- recovery ----------

  /** install_trans after its first k block writes. */
  function Install(L: Layout, d: Image, homes: seq<nat>, k: nat): (r: Image)
    requires Fits(L, d) && k <= |homes| <= LOGSIZE
    requires forall i :: 0 <= i < |homes| ==> homes[i] < |d|
    ensures |r| == |d|
  {
    if k == 0 then d
    else Install(L, d, homes, k - 1)[homes[k - 1] := d[L.start + k]]
  }

  function Cleared(L: Layout, d: Image): (r: Image)
    requires Fits(L, d)
    ensures Quiet(L, r) && SameHome(L, r, d)
  {
    d[L.start := PutWord(d[L.start], 0, 0)]
  }

  /** What a completed recover_from_log leaves on disk. */
  ghost function Recovered(L: Layout, d: Image): (r: Image)
    requires WellFormed(L, d)
    ensures Quiet(L, r)
  {
    var homes := HeaderHomes(d[L.start]);
    Cleared(L, Install(L, d, homes, |homes|))
  }

  /** The disk after the first j block writes of recover_from_log. */
  ghost function RecoverState(L: Layout, d: Image, j: nat): (r: Image)
    requires WellFormed(L, d) && j <= HeaderCount(d[L.start]) + 1
  {
    var homes := HeaderHomes(d[L.start]);
    if j <= |homes| then Install(L, d, homes, j) else Recovered(L, d)
  }

  // ---------- commit ----------

  ghost predicate GoodTxn(L: Layout, d: Image, t: Txn) {
    && GoodHomes(L, d, t.homes)
    && |t.vals| == |t.homes| > 0
    && (forall i, j :: 0 <= i < j < |t.homes| ==> t.homes[i] != t.homes[j])
  }

  /** write_log after its first k block writes. */
  function Logged(L: Layout, d: Image, vals: seq<Block>, k: nat): (r: Image)
    requires Fits(L, d) && k <= |vals| <= LOGSIZE
    ensures |r| == |d|
  {
    if k == 0 then d else Logged(L, d, vals, k - 1)[L.start + k := vals[k - 1]]
  }

  /** The disk just after the commit point. */
  ghost function HeadWritten(L: Layout, d: Image, t: Txn): (r: Image)
    requires Fits(L, d) && GoodTxn(L, d, t)
    ensures |r| == |d|
  {
    var e := Logged(L, d, t.vals, |t.vals|);
    e[L.start := PutHeader(e[L.start], t.homes, |t.homes|)]
  }

  /** The number of block writes commit() issues for a transaction. */
  ghost function CommitLength(t: Txn): (n: nat) {
    2 * |t.homes| + 2
  }

  /** The disk after the first j block writes of commit(). */
  ghost function CommitState(L: Layout, d: Image, t: Txn, j: nat): (r: Image)
    requires Fits(L, d) && GoodTxn(L, d, t) && j <= CommitLength(t)
    ensures |r| == |d|
  {
    var m := |t.homes|;
    if j <= m then Logged(L, d, t.vals, j)
    else if j <= 2 * m + 1 then Install(L, HeadWritten(L, d, t), t.homes, j - m - 1)
    else Cleared(L, Install(L, HeadWritten(L, d, t), t.homes, m))
  }

  /** The transaction done directly on the home blocks. */
  function Overlay(d: Image, homes: seq<nat>, vals: seq<Block>): (r: Image)
    requires |homes| == |vals|
    ensures |r| == |d|
    decreases |homes|
  {
    if |homes| == 0 then d
    else
      var e := Overlay(d, homes[..|homes| - 1], vals[..|homes| - 1]);
      var h := homes[|homes| - 1];
      if h < |d| then e[h := vals[|homes| - 1]] else e
  }

  // ---------- facts about the pieces ----------

  lemma {:induction false} LoggedContents(L: Layout, d: Image, vals: seq<Block>, k: nat)
    requires Fits(L, d) && k <= |vals| <= LOGSIZE
    ensures var e := Logged(L, d, vals, k);
            && (forall i: nat :: i < k ==> e[L.start + i + 1] == vals[i])
            && (forall i: nat :: i < |d| && !(L.start < i <= L.start + k) ==> e[i] == d[i])
  {
    if k > 0 {
      LoggedContents(L, d, vals, k - 1);
    }
  }

  /** Install never touches the log area. */
  lemma {:induction false} InstallKeepsLog(L: Layout, d: Image, homes: seq<nat>, k: nat)
    requires Fits(L, d) && GoodHomes(L, d, homes) && k <= |homes|
    ensures forall i: nat :: i < |d| && (InLog(L, i) || i !in homes[..k]) ==> Install(L, d, homes, k)[i] == d[i]
  {
    if k > 0 {
      InstallKeepsLog(L, d, homes, k - 1);
      assert homes[..k] == homes[..k - 1] + [homes[k - 1]];
    }
  }

  /** Installing the whole log after a prefix of it has been installed already gives the
      same result as installing it once: replay may be repeated. */
  lemma {:induction false} Replay(L: Layout, d: Image, homes: seq<nat>, j: nat, k: nat)
    requires Fits(L, d) && GoodHomes(L, d, homes) && j <= |homes| && k <= |homes|
    ensures forall i: nat :: i < |d| && (i in homes[..k] || i !in homes[..j]) ==>
              Install(L, Install(L, d, homes, j), homes, k)[i] == Install(L, d, homes, k)[i]
  {
    InstallKeepsLog(L, d, homes, j);
    if k == 0 {
    } else {
      Replay(L, d, homes, j, k - 1);
      assert InLog(L, L.start + k);
      assert homes[..k] == homes[..k - 1] + [homes[k - 1]];
    }
  }

  lemma ReplayWhole(L: Layout, d: Image, homes: seq<nat>, j: nat)
    requires Fits(L, d) && GoodHomes(L, d, homes) && j <= |homes|
    ensures Install(L, Install(L, d, homes, j), homes, |homes|) == Install(L, d, homes, |homes|)
  {
    Replay(L, d, homes, j, |homes|);
    assert homes[..|homes|] == homes;
    assert forall i: nat :: i < |d| && i in homes[..j] ==> i in homes;
  }

  /** Installing a log that holds exactly vals is the overlay of vals on the homes. */
  lemma {:induction false} InstallIsOverlay(L: Layout, d: Image, homes: seq<nat>, vals: seq<Block>, k: nat)
    requires Fits(L, d) && GoodHomes(L, d, homes) && k <= |homes| == |vals|
    requires forall i: nat :: i < |vals| ==> d[L.start + i + 1] == vals[i]
    ensures Install(L, d, homes, k) == Overlay(d, homes[..k], vals[..k])
  {
    if k > 0 {
      InstallIsOverlay(L, d, homes, vals, k - 1);
      assert homes[..k][..k - 1] == homes[..k - 1];
      assert vals[..k][..k - 1] == vals[..k - 1];
    }
  }

  lemma {:induction false} OverlayContents(d: Image, homes: seq<nat>, vals: seq<Block>)
    requires |homes| == |vals|
    requires forall i, j :: 0 <= i < j < |homes| ==> homes[i] != homes[j]
    requires forall i :: 0 <= i < |homes| ==> homes[i] < |d|
    ensures forall i :: 0 <= i < |homes| ==> Overlay(d, homes, vals)[homes[i]] == vals[i]
    ensures forall h: nat :: h < |d| && h !in homes ==> Overlay(d, homes, vals)[h] == d[h]
    decreases |homes|
  {
    if |homes| > 0 {
      var m := |homes| - 1;
      OverlayContents(d, homes[..m], vals[..m]);
      assert forall i :: 0 <= i < m ==> homes[..m][i] == homes[i];
    }
  }

  lemma {:induction false} OverlaySameHome(L: Layout, d: Image, e: Image, homes: seq<nat>, vals: seq<Block>)
    requires |homes| == |vals| && SameHome(L, d, e)
    ensures SameHome(L, Overlay(d, homes, vals), Overlay(e, homes, vals))
    decreases |homes|
  {
    if |homes| > 0 {
      OverlaySameHome(L, d, e, homes[..|homes| - 1], vals[..|homes| - 1]);
    }
  }

  // ---------- crash atomicity ----------

  lemma QuietRecovers(L: Layout, d: Image)
    requires Quiet(L, d)
    ensures WellFormed(L, d) && SameHome(L, Recovered(L, d), d)
  {
    assert HeaderHomes(d[L.start]) == [];
  }

  /** Recovery itself may crash after any of its writes: every state it passes through
      recovers to the same disk. */
  lemma RecoveryRestartable(L: Layout, d: Image, j: nat)
    requires WellFormed(L, d) && j <= HeaderCount(d[L.start]) + 1
    ensures WellFormed(L, RecoverState(L, d, j))
    ensures SameHome(L, Recovered(L, RecoverState(L, d, j)), Recovered(L, d))
  {
    var homes := HeaderHomes(d[L.start]);
    if j <= |homes| {
      InstallKeepsLog(L, d, homes, j);
      assert InLog(L, L.start);
      ReplayWhole(L, d, homes, j);
    }
  }

  /** The last write of commit() is a write_head with an empty list. */
  lemma LastCommitState(L: Layout, d: Image, t: Txn, e: Image)
    requires Fits(L, d) && GoodTxn(L, d, t) && e == Install(L, HeadWritten(L, d, t), t.homes, |t.homes|)
    ensures CommitState(L, d, t, CommitLength(t)) == e[L.start := PutHeader(e[L.start], [], 0)]
  {
  }

  lemma HeadHoldsVals(L: Layout, d: Image, t: Txn)
    requires Fits(L, d) && GoodTxn(L, d, t)
    ensures forall i :: 0 <= i < |t.vals| ==> HeadWritten(L, d, t)[L.start + i + 1] == t.vals[i]
  {
    LoggedContents(L, d, t.vals, |t.vals|);
  }

  /** Once the header is on disk the log holds the whole transaction. */
  lemma HeadWrittenRecovers(L: Layout, d: Image, t: Txn)
    requires Fits(L, d) && GoodTxn(L, d, t)
    ensures var e := HeadWritten(L, d, t);
            && WellFormed(L, e) && HeaderHomes(e[L.start]) == t.homes && SameHome(L, e, d)
            && SameHome(L, Install(L, e, t.homes, |t.homes|), Overlay(d, t.homes, t.vals))
  {
    var m := |t.homes|;
    var f := Logged(L, d, t.vals, m);
    var e := HeadWritten(L, d, t);
    LoggedContents(L, d, t.vals, m);
    HeaderRoundTrip(f[L.start], t.homes);
    assert forall i: nat :: i < |d| && i != L.start ==> e[i] == f[i];
    InstallIsOverlay(L, e, t.homes, t.vals, m);
    assert t.homes[..m] == t.homes && t.vals[..m] == t.vals;
    OverlaySameHome(L, e, d, t.homes, t.vals);
  }

  /** A crash after the first j writes of commit(): before the header write recovery
      restores the old home blocks, from the header write on it completes the
      transaction, and no j gives a mixture. */
  lemma CommitAtomic(L: Layout, d: Image, t: Txn, j: nat)
    requires Quiet(L, d) && GoodTxn(L, d, t) && j <= CommitLength(t)
    ensures WellFormed(L, CommitState(L, d, t, j))
    ensures SameHome(L, Recovered(L, CommitState(L, d, t, j)),
                     if j <= |t.homes| then d else Overlay(d, t.homes, t.vals))
  {
    var m := |t.homes|;
    if j <= m {
      LoggedContents(L, d, t.vals, j);
      QuietRecovers(L, Logged(L, d, t.vals, j));
    } else {
      var e := HeadWritten(L, d, t);
      HeadWrittenRecovers(L, d, t);
      if j <= 2 * m + 1 {
        assert CommitState(L, d, t, j) == RecoverState(L, e, j - m - 1);
        RecoveryRestartable(L, e, j - m - 1);
      } else {
        QuietRecovers(L, CommitState(L, d, t, j));
      }
    }
  }

  // ---------- whole runs ----------

  /** One event in the life of the disk. `Commit` and `Recover` run to the end; the
      `Crash` forms are cut off after the first `writes` block writes. */
  datatype Event =
    | Commit(t: Txn)
    | CommitCrash(t: Txn, writes: nat)
    | IdleCrash
    | RecoverCrash(writes: nat)
    | Recover

  /** `history` lists the transactions whose header has reached the disk. */
  datatype Machine = Machine(disk: Image, up: bool, history: seq<Txn>)

  ghost predicate Enabled(L: Layout, s: Machine, e: Event) {
    match e
    case Commit(t) => s.up && Quiet(L, s.disk) && GoodTxn(L, s.disk, t)
    case CommitCrash(t, j) => s.up && Quiet(L, s.disk) && GoodTxn(L, s.disk, t) && j <= CommitLength(t)
    case IdleCrash => s.up
    case RecoverCrash(j) => !s.up && WellFormed(L, s.disk) && j <= HeaderCount(s.disk[L.start]) + 1
    case Recover => !s.up && WellFormed(L, s.disk)
  }

  ghost function Next(L: Layout, s: Machine, e: Event): (r: Machine)
    requires Enabled(L, s, e)
  {
    match e
    case Commit(t) => Machine(CommitState(L, s.disk, t, CommitLength(t)), true, s.history + [t])
    case CommitCrash(t, j) =>
      Machine(CommitState(L, s.disk, t, j), false, if j <= |t.homes| then s.history else s.history + [t])
    case IdleCrash => s.(up := false)
    case RecoverCrash(j) => s.(disk := RecoverState(L, s.disk, j))
    case Recover => Machine(Recovered(L, s.disk), true, s.history)
  }

  ghost function ApplyAll(d: Image, history: seq<Txn>): (r: Image)
    requires forall t :: t in history ==> |t.homes| == |t.vals|
    ensures |r| == |d|
  {
    if |history| == 0 then d
    else
      var t := history[|history| - 1];
      Overlay(ApplyAll(d, history[..|history| - 1]), t.homes, t.vals)
  }

  /** A run of the machine: states[i] takes events[i] to states[i + 1]. */
  ghost predicate IsRun(L: Layout, states: seq<Machine>, events: seq<Event>) {
    && |states| == |events| + 1
    && (forall i :: 0 <= i < |events| ==>
          Enabled(L, states[i], events[i]) && states[i + 1] == Next(L, states[i], events[i]))
  }

  /** What holds between any two events, the system up or down. */
  ghost predicate Durable(L: Layout, d0: Image, s: Machine) {
    && WellFormed(L, s.disk)
    && (forall t :: t in s.history ==> |t.homes| == |t.vals|)
    && SameHome(L, Recovered(L, s.disk), ApplyAll(d0, s.history))
    && (s.up ==> Quiet(L, s.disk) && SameHome(L, s.disk, ApplyAll(d0, s.history)))
  }

  lemma ApplyOne(L: Layout, d0: Image, d: Image, history: seq<Txn>, t: Txn)
    requires forall u :: u in history ==> |u.homes| == |u.vals|
    requires |t.homes| == |t.vals| && SameHome(L, d, ApplyAll(d0, history))
    ensures forall u :: u in history + [t] ==> |u.homes| == |u.vals|
    ensures SameHome(L, Overlay(d, t.homes, t.vals), ApplyAll(d0, history + [t]))
  {
    assert (history + [t])[..|history|] == history;
    OverlaySameHome(L, d, ApplyAll(d0, history), t.homes, t.vals);
  }

  lemma DurableStep(L: Layout, d0: Image, s: Machine, e: Event)
    requires Durable(L, d0, s) && Enabled(L, s, e)
    ensures Durable(L, d0, Next(L, s, e))
  {
    var r := Next(L, s, e);
    match e
    case Commit(t) =>
      CommitAtomic(L, s.disk, t, CommitLength(t));
      ApplyOne(L, d0, s.disk, s.history, t);
      QuietRecovers(L, r.disk);
    case CommitCrash(t, j) =>
      CommitAtomic(L, s.disk, t, j);
      ApplyOne(L, d0, s.disk, s.history, t);
    case IdleCrash =>
    case RecoverCrash(j) =>
      RecoveryRestartable(L, s.disk, j);
    case Recover =>
      QuietRecovers(L, r.disk);
  }

  /** Crash atomicity over whole runs: however many commits were made, wherever they and
      any number of recoveries were cut off, completing recovery gives the initial home
      blocks with exactly the transactions applied whose header reached the disk. */
  lemma {:induction false} CrashAtomicity(L: Layout, d0: Image, states: seq<Machine>, events: seq<Event>, i: nat)
    requires Quiet(L, d0) && IsRun(L, states, events) && i <= |events|
    requires states[0] == Machine(d0, true, [])
    ensures Durable(L, d0, states[i])
  {
    if i == 0 {
      QuietRecovers(L, d0);
    } else {
      CrashAtomicity(L, d0, states, events, i - 1);
      DurableStep(L, d0, states[i - 1], events[i - 1]);
    }
  }
}
