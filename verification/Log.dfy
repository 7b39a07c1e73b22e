/** The write-ahead log (log.c): the block writes a commit and a recovery issue, and
    what a crash between any two of them leaves behind. */
module Log {
  import opened Blocks

  const MAXOPBLOCKS: nat := 10     // blocks an operation reserves
  const LOGSIZE: nat := 30         // MAXOPBLOCKS * 3

  /** Where the log lies: the header at `start`, then size - 1 slots. */
  datatype Geometry = Geometry(start: nat, size: nat)

  predicate InLog(g: Geometry, k: int) {
    g.start <= k < g.start + g.size
  }

  /** The log block that carries the i-th logged block. */
  function Slot(g: Geometry, i: nat): nat {
    g.start + 1 + i
  }

  // ---------------------------------------------------------------- the header block

  function HeaderCount(h: Block): nat {
    h.words[0]
  }

  function HeaderBlocks(h: Block): seq<nat> {
    if HeaderCount(h) < WORDS then seq(HeaderCount(h), i requires 0 <= i < HeaderCount(h) => h.words[1 + i]) else []
  }

  /** The header buffer after `blocks` were stored behind the count. */
  function FillHeader(h: Block, blocks: seq<nat>): Block {
    if blocks == [] then h
    else SetWord(FillHeader(h, blocks[..|blocks| - 1]), |blocks|, blocks[|blocks| - 1])
  }

  function MakeHeader(h: Block, blocks: seq<nat>): Block {
    FillHeader(SetWord(h, 0, |blocks|), blocks)
  }

  lemma {:induction false} FillHeaderWord(h: Block, blocks: seq<nat>, j: nat)
    requires |blocks| < WORDS && j <= |blocks|
    ensures FillHeader(h, blocks).words[j] == if j == 0 then h.words[0] else blocks[j - 1]
  {
    if j < |blocks| {
      FillHeaderWord(h, blocks[..|blocks| - 1], j);
    }
  }

  /** read_head reads back what write_head stored, whatever the buffer held before. */
  lemma HeaderRoundTrip(h: Block, blocks: seq<nat>)
    requires |blocks| <= LOGSIZE
    ensures HeaderCount(MakeHeader(h, blocks)) == |blocks|
    ensures HeaderBlocks(MakeHeader(h, blocks)) == blocks
  {
    var h0 := SetWord(h, 0, |blocks|);
    FillHeaderWord(h0, blocks, 0);
    forall j | 0 <= j < |blocks|
      ensures MakeHeader(h, blocks).words[1 + j] == blocks[j]
    {
      FillHeaderWord(h0, blocks, j + 1);
    }
  }

  // ---------------------------------------------------------------- commit and recovery

  /** Block numbers the log can carry: distinct, home blocks of the device, within its slots. */
  predicate Loggable(g: Geometry, limit: nat, blocks: seq<nat>) {
    && |blocks| <= LOGSIZE
    && |blocks| < g.size
    && g.start + g.size <= limit
    && (forall i :: 0 <= i < |blocks| ==> blocks[i] < limit && !InLog(g, blocks[i]))
    && (forall i, j :: 0 <= i < j < |blocks| ==> blocks[i] != blocks[j])
  }

  /** A device whose header names a set of blocks that recovery can install. */
  predicate Recoverable(g: Geometry, d: Disk) {
    var h := ReadBlock(d, g.start);
    HeaderCount(h) <= LOGSIZE && Loggable(g, |d|, HeaderBlocks(h))
  }

  /** A device whose log is empty. */
  predicate Quiet(g: Geometry, d: Disk) {
    1 <= g.size && g.start + g.size <= |d| && HeaderCount(ReadBlock(d, g.start)) == 0
  }

  /** What bread returns: the pinned buffer if there is one, the device otherwise. */
  function ReadThrough(d: Disk, cache: map<nat, Block>, k: nat): Block {
    if k in cache then cache[k] else ReadBlock(d, k)
  }

  /** B_DIRTY pins in the cache exactly the logged blocks. */
  ghost predicate Pins(cache: map<nat, Block>, blocks: seq<nat>) {
    forall k :: k in cache <==> k in blocks
  }

  /** write_log: the cached blocks go to the slots, in order. */
  function LogWrites(g: Geometry, d: Disk, cache: map<nat, Block>, blocks: seq<nat>): (ws: seq<Write>)
    ensures |ws| == |blocks|
  {
    seq(|blocks|, i requires 0 <= i < |blocks| => Write(Slot(g, i), ReadThrough(d, cache, blocks[i])))
  }

  /** install_trans: slot i goes to home block blocks[i]. */
  function InstallWrites(g: Geometry, d: Disk, blocks: seq<nat>): (ws: seq<Write>)
    ensures |ws| == |blocks|
  {
    seq(|blocks|, i requires 0 <= i < |blocks| => Write(blocks[i], ReadBlock(d, Slot(g, i))))
  }

  /** write_head. */
  function HeadWrite(g: Geometry, d: Disk, blocks: seq<nat>): Write {
    Write(g.start, MakeHeader(ReadBlock(d, g.start), blocks))
  }

  /** install_trans followed by the write_head that clears the log. */
  function InstallAndClear(g: Geometry, d: Disk, blocks: seq<nat>): (ws: seq<Write>)
    ensures |ws| == |blocks| + 1
  {
    var iw := InstallWrites(g, d, blocks);
    iw + [HeadWrite(g, Apply(d, iw), [])]
  }

  /** write_log and the write_head that makes the commit record. */
  function RecordWrites(g: Geometry, d: Disk, cache: map<nat, Block>, blocks: seq<nat>): (ws: seq<Write>)
    ensures |ws| == |blocks| + 1
  {
    var lw := LogWrites(g, d, cache, blocks);
    lw + [HeadWrite(g, Apply(d, lw), blocks)]
  }

  /** The device at the moment the commit record has been written. */
  function Committed(g: Geometry, d: Disk, cache: map<nat, Block>, blocks: seq<nat>): (r: Disk)
    ensures |r| == |d|
  {
    Apply(d, RecordWrites(g, d, cache, blocks))
  }

  /** Every bwrite of commit(), in order. */
  function CommitWrites(g: Geometry, d: Disk, cache: map<nat, Block>, blocks: seq<nat>): (ws: seq<Write>)
    ensures |ws| == 2 * |blocks| + 2
  {
    RecordWrites(g, d, cache, blocks) + InstallAndClear(g, Committed(g, d, cache, blocks), blocks)
  }

  /** Every bwrite of recover_from_log(), in order. */
  function RecoveryWrites(g: Geometry, d: Disk): (ws: seq<Write>) {
    InstallAndClear(g, d, HeaderBlocks(ReadBlock(d, g.start)))
  }

  function Recovered(g: Geometry, d: Disk): (r: Disk)
    ensures |r| == |d|
  {
    Apply(d, RecoveryWrites(g, d))
  }

  /** Equal outside the log region. */
  predicate HomeEq(g: Geometry, a: Disk, b: Disk) {
    |a| == |b| && forall k :: 0 <= k < |a| && !InLog(g, k) ==> ReadBlock(a, k) == ReadBlock(b, k)
  }

  /** The home blocks with all pending cache contents in place. */
  function Installed(d: Disk, cache: map<nat, Block>): (r: Disk)
    ensures |r| == |d|
    ensures forall k :: 0 <= k < |d| ==> ReadBlock(r, k) == ReadThrough(d, cache, k)
  {
    seq(|d|, k requires 0 <= k < |d| => ReadThrough(d, cache, k))
  }

  lemma InstallAt(g: Geometry, d: Disk, blocks: seq<nat>, i: nat, m: nat)
    requires Loggable(g, |d|, blocks) && m < i <= |blocks|
    ensures ReadBlock(Apply(d, InstallWrites(g, d, blocks)[..i]), blocks[m]) == ReadBlock(d, Slot(g, m))
  {
    hide Apply, ReadBlock, InLog;
    var ws := InstallWrites(g, d, blocks)[..i];
    forall j | 0 <= j < |ws| && j != m ensures ws[j].no != ws[m].no {
      assert ws[j].no == blocks[j];
    }
    ApplyWritten(d, ws, m);
  }

  // After i installs the first i home blocks have their slot's contents, nothing else moved.
  lemma InstallPrefix(g: Geometry, d: Disk, blocks: seq<nat>, i: nat)
    requires Loggable(g, |d|, blocks) && i <= |blocks|
    ensures var e := Apply(d, InstallWrites(g, d, blocks)[..i]);
      && (forall k :: 0 <= k < |d| && k !in blocks[..i] ==> ReadBlock(e, k) == ReadBlock(d, k))
      && (forall m :: 0 <= m < i ==> ReadBlock(e, blocks[m]) == ReadBlock(d, Slot(g, m)))
  {
    hide Apply, ReadBlock, Loggable;
    var ws := InstallWrites(g, d, blocks)[..i];
    forall k | 0 <= k < |d| && k !in blocks[..i]
      ensures ReadBlock(Apply(d, ws), k) == ReadBlock(d, k)
    {
      forall j | 0 <= j < |ws| ensures ws[j].no != k {
        assert ws[j].no == blocks[..i][j];
      }
      ApplyUntouched(d, ws, k);
    }
    forall m | 0 <= m < i
      ensures ReadBlock(Apply(d, ws), blocks[m]) == ReadBlock(d, Slot(g, m))
    {
      InstallAt(g, d, blocks, i, m);
    }
  }

  // What recovery puts in each home block.
  lemma RecoveredAt(g: Geometry, d: Disk)
    requires Recoverable(g, d)
    ensures var blocks, r := HeaderBlocks(ReadBlock(d, g.start)), Recovered(g, d);
      && (forall k :: 0 <= k < |d| && !InLog(g, k) && k !in blocks ==> ReadBlock(r, k) == ReadBlock(d, k))
      && (forall m :: 0 <= m < |blocks| ==> ReadBlock(r, blocks[m]) == ReadBlock(d, Slot(g, m)))
      && Quiet(g, r)
  {
    var blocks := HeaderBlocks(ReadBlock(d, g.start));
    var iw := InstallWrites(g, d, blocks);
    var e := Apply(d, iw);
    InstallPrefix(g, d, blocks, |blocks|);
    assert iw[..|blocks|] == iw && blocks[..|blocks|] == blocks;
    assert (iw + [HeadWrite(g, e, [])])[..|iw|] == iw;
    HeaderRoundTrip(ReadBlock(e, g.start), []);
  }

  /** Recovering an empty log changes no home block. */
  lemma QuietRecovery(g: Geometry, d: Disk)
    requires Quiet(g, d)
    ensures Recoverable(g, d) && HomeEq(g, Recovered(g, d), d)
  {
    assert HeaderBlocks(ReadBlock(d, g.start)) == [];
    RecoveredAt(g, d);
  }

  /** A crash after any j writes of a recovery is itself recoverable, to the same home blocks. */
  lemma RecoveryCrash(g: Geometry, d: Disk, j: nat)
    requires Recoverable(g, d) && j <= |RecoveryWrites(g, d)|
    ensures var e := Apply(d, RecoveryWrites(g, d)[..j]);
      Recoverable(g, e) && HomeEq(g, Recovered(g, e), Recovered(g, d))
  {
    var ws := RecoveryWrites(g, d);
    var blocks := HeaderBlocks(ReadBlock(d, g.start));
    var e := Apply(d, ws[..j]);
    RecoveredAt(g, d);
    if j == |ws| {
      assert ws[..j] == ws;
      QuietRecovery(g, e);
    } else {
      assert ws[..j] == InstallWrites(g, d, blocks)[..j];
      InstallPrefix(g, d, blocks, j);
      assert ReadBlock(e, g.start) == ReadBlock(d, g.start);
      RecoveredAt(g, e);
      forall k | 0 <= k < |d| && !InLog(g, k)
        ensures ReadBlock(Recovered(g, e), k) == ReadBlock(Recovered(g, d), k)
      {
        if k in blocks {
          var m :| 0 <= m < |blocks| && blocks[m] == k;
          assert ReadBlock(e, Slot(g, m)) == ReadBlock(d, Slot(g, m));
        } else {
          assert k !in blocks[..j];
        }
      }
    }
  }

  /** Crashing recovery again and again: the crash points js, one behind the other. */
  function Interrupted(g: Geometry, d: Disk, js: seq<nat>): Disk
    decreases |js|
  {
    if js == [] then d
    else
      var e, j := Interrupted(g, d, js[..|js| - 1]), js[|js| - 1];
      var ws := RecoveryWrites(g, e);
      Apply(e, if j <= |ws| then ws[..j] else ws)
  }

  /** After these crashes, one recovery that completes. */
  function AfterCrashes(g: Geometry, d: Disk, js: seq<nat>): Disk {
    Recovered(g, Interrupted(g, d, js))
  }

  lemma {:induction false} InterruptedKeeps(g: Geometry, d: Disk, js: seq<nat>)
    requires Recoverable(g, d)
    ensures var e := Interrupted(g, d, js);
      Recoverable(g, e) && HomeEq(g, Recovered(g, e), Recovered(g, d))
    decreases |js|
  {
    hide Recoverable, Recovered, HomeEq, Apply, RecoveryWrites;
    if js == [] {
      HomeEqSelf(g, Recovered(g, d));
    } else {
      var e, j := Interrupted(g, d, js[..|js| - 1]), js[|js| - 1];
      var ws := RecoveryWrites(g, e);
      InterruptedKeeps(g, d, js[..|js| - 1]);
      assert ws[..|ws|] == ws;
      RecoveryCrash(g, e, if j <= |ws| then j else |ws|);
      HomeEqTrans(g, Recovered(g, Interrupted(g, d, js)), Recovered(g, e), Recovered(g, d));
    }
  }

  lemma HomeEqSelf(g: Geometry, d: Disk)
    ensures HomeEq(g, d, d)
  {
  }

  lemma HomeEqTrans(g: Geometry, a: Disk, b: Disk, c: Disk)
    requires HomeEq(g, a, b) && HomeEq(g, b, c)
    ensures HomeEq(g, a, c)
  {
  }

  /** However often recovery is interrupted, completing it gives what one recovery gives. */
  lemma RecoveryIsCrashProof(g: Geometry, d: Disk, js: seq<nat>)
    requires Recoverable(g, d)
    ensures HomeEq(g, AfterCrashes(g, d, js), Recovered(g, d))
    ensures Quiet(g, AfterCrashes(g, d, js))
  {
    InterruptedKeeps(g, d, js);
    hide Recovered, Interrupted, HomeEq;
    RecoveredAt(g, Interrupted(g, d, js));
  }

  lemma SlotAt(g: Geometry, d: Disk, cache: map<nat, Block>, blocks: seq<nat>, i: nat, m: nat)
    requires Loggable(g, |d|, blocks) && m < i <= |blocks|
    ensures ReadBlock(Apply(d, LogWrites(g, d, cache, blocks)[..i]), Slot(g, m)) == ReadThrough(d, cache, blocks[m])
  {
    hide Apply, ReadBlock, ReadThrough, InLog;
    ApplyWritten(d, LogWrites(g, d, cache, blocks)[..i], m);
  }

  // While only slots were written the header still says the log is empty.
  lemma LogPrefix(g: Geometry, d: Disk, cache: map<nat, Block>, blocks: seq<nat>, i: nat)
    requires Loggable(g, |d|, blocks) && i <= |blocks|
    ensures var e := Apply(d, LogWrites(g, d, cache, blocks)[..i]);
      && HomeEq(g, e, d)
      && ReadBlock(e, g.start) == ReadBlock(d, g.start)
      && (forall m :: 0 <= m < i ==> ReadBlock(e, Slot(g, m)) == ReadThrough(d, cache, blocks[m]))
  {
    hide Apply, ReadBlock, ReadThrough;
    var ws := LogWrites(g, d, cache, blocks)[..i];
    forall k | 0 <= k < |d| && (k == g.start || !InLog(g, k))
      ensures ReadBlock(Apply(d, ws), k) == ReadBlock(d, k)
    {
      ApplyUntouched(d, ws, k);
    }
    forall m | 0 <= m < i
      ensures ReadBlock(Apply(d, ws), Slot(g, m)) == ReadThrough(d, cache, blocks[m])
    {
      SlotAt(g, d, cache, blocks, i, m);
    }
  }

  lemma CommittedAt(g: Geometry, d: Disk, cache: map<nat, Block>, blocks: seq<nat>)
    requires Loggable(g, |d|, blocks)
    ensures var e := Committed(g, d, cache, blocks);
      && HomeEq(g, e, d)
      && Recoverable(g, e)
      && HeaderBlocks(ReadBlock(e, g.start)) == blocks
      && (forall m :: 0 <= m < |blocks| ==> ReadBlock(e, Slot(g, m)) == ReadThrough(d, cache, blocks[m]))
  {
    var lw := LogWrites(g, d, cache, blocks);
    var logged := Apply(d, lw);
    assert lw[..|blocks|] == lw;
    LogPrefix(g, d, cache, blocks, |blocks|);
    HeaderRoundTrip(ReadBlock(logged, g.start), blocks);
    assert (lw + [HeadWrite(g, logged, blocks)])[..|lw|] == lw;
    assert InLog(g, g.start);
  }

  /** Once the commit record is on the device, recovery produces all of the new contents. */
  lemma CommittedRecovers(g: Geometry, d: Disk, cache: map<nat, Block>, blocks: seq<nat>)
    requires Loggable(g, |d|, blocks) && Pins(cache, blocks)
    ensures var e := Committed(g, d, cache, blocks);
      Recoverable(g, e) && HomeEq(g, Recovered(g, e), Installed(d, cache))
  {
    var e := Committed(g, d, cache, blocks);
    CommittedAt(g, d, cache, blocks);
    RecoveredAt(g, e);
    forall k | 0 <= k < |d| && !InLog(g, k)
      ensures ReadBlock(Recovered(g, e), k) == ReadThrough(d, cache, k)
    {
      if k in blocks {
        var m :| 0 <= m < |blocks| && blocks[m] == k;
      }
    }
  }

  // A crash among the first writes of a commit, before its record is on the device.
  lemma CrashBeforeRecord(g: Geometry, d: Disk, cache: map<nat, Block>, blocks: seq<nat>, i: nat)
    requires Loggable(g, |d|, blocks) && Quiet(g, d) && i <= |blocks|
    ensures var e := Apply(d, CommitWrites(g, d, cache, blocks)[..i]);
      Recoverable(g, e) && HomeEq(g, Recovered(g, e), d)
  {
    var ws := LogWrites(g, d, cache, blocks)[..i];
    assert CommitWrites(g, d, cache, blocks)[..i] == ws by {
      hide LogWrites, Apply, InstallAndClear;
      var lw, record := LogWrites(g, d, cache, blocks), RecordWrites(g, d, cache, blocks);
      TakeFirst(record, InstallAndClear(g, Committed(g, d, cache, blocks), blocks), i);
      TakeFirst(lw, [HeadWrite(g, Apply(d, lw), blocks)], i);
    }
    hide Apply, CommitWrites, LogWrites;
    LogPrefix(g, d, cache, blocks, i);
    QuietRecovery(g, Apply(d, ws));
  }

  // The writes of a commit up to its record and j more lead where j writes of a recovery lead.
  lemma CommitPrefix(g: Geometry, d: Disk, cache: map<nat, Block>, blocks: seq<nat>, n: nat, j: nat)
    requires Loggable(g, |d|, blocks) && j <= |blocks| + 1 && n == |blocks| + 1 + j
    ensures var c := Committed(g, d, cache, blocks);
      && |RecoveryWrites(g, c)| == |blocks| + 1
      && Apply(d, CommitWrites(g, d, cache, blocks)[..n]) == Apply(c, RecoveryWrites(g, c)[..j])
  {
    hide Apply, InstallAndClear, RecordWrites, Loggable, Recoverable, HomeEq, ReadThrough, ReadBlock, HeaderBlocks;
    var c := Committed(g, d, cache, blocks);
    var rest := InstallAndClear(g, c, blocks);
    assert RecoveryWrites(g, c) == rest by { CommittedAt(g, d, cache, blocks); }
    ApplyTake(d, RecordWrites(g, d, cache, blocks), rest, n, j);
  }

  /** Crash atomicity of commit: after any i of its writes, any number of interrupted
      recoveries and a completed one, the home blocks are all old or all new; they are
      new exactly when the commit record was among the i writes. */
  lemma CommitCrashAtomic(g: Geometry, d: Disk, cache: map<nat, Block>, blocks: seq<nat>, i: nat, js: seq<nat>)
    requires Loggable(g, |d|, blocks) && Quiet(g, d) && Pins(cache, blocks)
    requires i <= |CommitWrites(g, d, cache, blocks)|
    ensures var e := Apply(d, CommitWrites(g, d, cache, blocks)[..i]);
      && HomeEq(g, AfterCrashes(g, e, js), if i <= |blocks| then d else Installed(d, cache))
      && Quiet(g, AfterCrashes(g, e, js))
  {
    var e := Apply(d, CommitWrites(g, d, cache, blocks)[..i]);
    if i <= |blocks| {
      CrashBeforeRecord(g, d, cache, blocks, i);
    } else {
      var j := i - |blocks| - 1;
      CommitPrefix(g, d, cache, blocks, i, j);
      CommittedRecovers(g, d, cache, blocks);
      RecoveryCrash(g, Committed(g, d, cache, blocks), j);
    }
    RecoveryIsCrashProof(g, e, js);
  }

  /** A commit that is not interrupted installs the new contents and clears the log. */
  lemma CommitCompletes(g: Geometry, d: Disk, cache: map<nat, Block>, blocks: seq<nat>)
    requires Loggable(g, |d|, blocks) && Pins(cache, blocks)
    ensures var e := Apply(d, CommitWrites(g, d, cache, blocks));
      HomeEq(g, e, Installed(d, cache)) && Quiet(g, e)
  {
    var ws, c := CommitWrites(g, d, cache, blocks), Committed(g, d, cache, blocks);
    assert Apply(d, ws) == Recovered(g, c) by {
      hide CommitWrites, InstallAndClear, Apply, ReadBlock, HeaderBlocks;
      CommitPrefix(g, d, cache, blocks, |ws|, |blocks| + 1);
      assert ws[..|ws|] == ws;
      assert RecoveryWrites(g, c)[..|blocks| + 1] == RecoveryWrites(g, c);
    }
    hide CommitWrites, InstallAndClear, Apply, RecoveryWrites, Committed;
    CommittedRecovers(g, d, cache, blocks);
    RecoveredAt(g, c);
  }
}
