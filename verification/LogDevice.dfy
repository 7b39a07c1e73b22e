/** The code of log.c: loops over the in-memory header that read buffers and issue bwrites.
    Each method is tied to the list of writes, and the device, that Log specifies. */
module LogDevice {
  import opened Blocks
  import opened Log
  import LogRun

  class LogState {
    const g: Geometry
    var disk: Disk
    var cache: map<nat, Block>       // buffers pinned by B_DIRTY
    var n: nat                       // log.lh.n
    var block: array<nat>            // log.lh.block
    var outstanding: nat
    var committing: bool
    var asleep: set<nat>             // operations asleep on &log in begin_op
    ghost var used: seq<nat>         // the blocks each outstanding operation added
    ghost var issued: seq<Write>     // every bwrite so far

    ghost predicate Valid()
      reads this
    {
      block.Length == LOGSIZE && n <= LOGSIZE && |used| == outstanding
    }

    function Lh(): seq<nat>
      requires n <= block.Length
      reads this, block
    {
      block[..n]
    }

    /** The state that the steps of LogRun are about. */
    ghost function State(): LogRun.Sys
      requires n <= block.Length
      reads this, block
    {
      LogRun.Sys(disk, cache, Lh(), used, committing, asleep)
    }

    constructor (g: Geometry, d: Disk)
      ensures Valid() && this.g == g && fresh(block) && State() == LogRun.Init(d) && issued == []
    {
      this.g := g;
      disk, cache, issued := d, map[], [];
      n, outstanding, committing, asleep, used := 0, 0, false, {}, [];
      block := new nat[LOGSIZE];
    }

    method Bread(no: nat) returns (b: Block)
      ensures b == ReadThrough(disk, cache, no)
    {
      if no in cache {
        b := cache[no];
      } else if no < |disk| {
        b := disk[no];
      } else {
        b := ZeroBlock();
      }
    }

    /** The device write clears B_DIRTY, so the buffer is no longer pinned. */
    method Bwrite(no: nat, data: Block)
      modifies this`disk, this`cache, this`issued
      ensures disk == WriteBlock(old(disk), Write(no, data))
      ensures cache == old(cache) - {no}
      ensures issued == old(issued) + [Write(no, data)]
    {
      if no < |disk| {
        disk := disk[no := data];
      }
      cache := cache - {no};
      issued := issued + [Write(no, data)];
    }

    method WriteLog()
      requires Valid() && Loggable(g, |disk|, Lh()) && Pins(cache, Lh())
      modifies this`disk, this`cache, this`issued
      ensures var ws := LogWrites(g, old(disk), old(cache), Lh());
        disk == Apply(old(disk), ws) && issued == old(issued) + ws
      ensures cache == old(cache)
    {
      hide Apply, Loggable, Pins, InLog, ReadBlock;
      ghost var d0, blocks := disk, Lh();
      ghost var ws := LogWrites(g, d0, cache, blocks);
      assert ws[..0] == [];
      LoggedArePinned(g, |disk|, cache, blocks);
      ApplyNothing(disk);
      for tail := 0 to n
        invariant cache == old(cache)
        invariant disk == Apply(d0, ws[..tail]) && issued == old(issued) + ws[..tail]
      {
        var from := Bread(block[tail]);
        assert from == cache[blocks[tail]];
        Bwrite(Slot(g, tail), from);
        TakeOneMore(d0, ws, tail);
      }
      assert ws[..n] == ws;
    }

    method WriteHead()
      requires Valid()
      requires g.start !in cache
      modifies this`disk, this`cache, this`issued
      ensures disk == WriteBlock(old(disk), HeadWrite(g, old(disk), Lh()))
      ensures issued == old(issued) + [HeadWrite(g, old(disk), Lh())]
      ensures cache == old(cache)
    {
      var buf := Bread(g.start);
      ghost var h := buf;
      buf := SetWord(buf, 0, n);
      for i := 0 to n
        invariant buf == FillHeader(SetWord(h, 0, n), Lh()[..i])
      {
        assert Lh()[..i + 1][..i] == Lh()[..i];
        buf := SetWord(buf, i + 1, block[i]);
      }
      assert Lh()[..n] == Lh();
      Bwrite(g.start, buf);
    }

    /** Every pinned buffer is a home block of the header, so all of them get written and unpinned. */
    method InstallTrans()
      requires Valid() && Loggable(g, |disk|, Lh())
      requires forall k :: k in cache ==> !InLog(g, k) && k in Lh()
      modifies this`disk, this`cache, this`issued
      ensures disk == Apply(old(disk), InstallWrites(g, old(disk), Lh()))
      ensures issued == old(issued) + InstallWrites(g, old(disk), Lh())
      ensures cache == map[]
    {
      ghost var d0, blocks := disk, Lh();
      ghost var ws := InstallWrites(g, d0, blocks);
      assert ws[..0] == [];
      hide Apply, Loggable, ReadBlock;
      for tail := 0 to n
        invariant forall k :: k in cache ==> !InLog(g, k) && k in blocks[tail..]
        invariant disk == Apply(d0, ws[..tail]) && issued == old(issued) + ws[..tail]
      {
        SlotSurvives(g, d0, blocks, tail);
        var lbuf := Bread(Slot(g, tail));
        Bwrite(block[tail], lbuf);
        TakeOneMore(d0, ws, tail);
        assert blocks[tail..] == [blocks[tail]] + blocks[tail + 1..];
      }
      assert ws[..n] == ws;
    }

    /** The three statements that end both commit() and recover_from_log(). */
    method InstallAndErase()
      requires Valid() && Loggable(g, |disk|, Lh())
      requires forall k :: k in cache ==> !InLog(g, k) && k in Lh()
      modifies this`disk, this`cache, this`issued, this`n
      ensures Valid() && n == 0 && cache == map[]
      ensures disk == Apply(old(disk), InstallAndClear(g, old(disk), old(Lh())))
      ensures issued == old(issued) + InstallAndClear(g, old(disk), old(Lh()))
    {
      ghost var d0, blocks := disk, Lh();
      InstallTrans();
      n := 0;
      assert Lh() == [] && cache == map[];
      hide Apply, InstallWrites, HeadWrite, WriteBlock;
      WriteHead();
      ClearAssembled(g, d0, blocks);
    }

    /** commit(): the writes are CommitWrites, in that order. */
    method Commit()
      requires Valid() && Loggable(g, |disk|, Lh()) && Pins(cache, Lh())
      modifies this`disk, this`cache, this`issued, this`n
      ensures Valid() && n == 0 && cache == map[]
      ensures disk == Apply(old(disk), CommitIssues(g, old(disk), old(cache), old(Lh())))
      ensures issued == old(issued) + CommitIssues(g, old(disk), old(cache), old(Lh()))
    {
      hide Apply, LogWrites, HeadWrite, CommitWrites, WriteBlock, Loggable, Pins;
      ghost var d0, c0, blocks := disk, cache, Lh();
      LoggedArePinned(g, |disk|, cache, blocks);
      if n > 0 {
        WriteLog();
        WriteHead();
        InstallAndErase();
        CommitAssembled(g, d0, c0, blocks);
      } else {
        ApplyNothing(disk);
        assert cache == map[];
      }
    }

    method ReadHead()
      requires Valid() && Recoverable(g, disk) && g.start !in cache
      modifies this`n, block
      ensures Valid() && Lh() == HeaderBlocks(ReadBlock(disk, g.start))
    {
      var buf := Bread(g.start);
      n := buf.words[0];
      for i := 0 to n
        invariant block.Length == LOGSIZE && n == buf.words[0] <= LOGSIZE
        invariant block[..i] == buf.words[1..1 + i]
      {
        block[i] := buf.words[1 + i];
      }
    }

    /** recover_from_log(), started with nothing cached: the writes are RecoveryWrites. */
    method Recover()
      requires Valid() && Recoverable(g, disk) && cache == map[]
      modifies this`disk, this`cache, this`issued, this`n, block
      ensures Valid() && n == 0 && cache == map[]
      ensures disk == Recovered(g, old(disk))
      ensures issued == old(issued) + RecoveryWrites(g, old(disk))
    {
      ReadHead();
      InstallAndErase();
    }

    /** One pass of the loop in begin_op, under the lock: admitted, or put to sleep. */
    method TryBegin(op: nat) returns (admitted: bool)
      requires Valid()
      modifies this`outstanding, this`asleep, this`used
      ensures Valid() && LogRun.Step(g, old(State()), LogRun.BeginOp(op)) == LogRun.Ran(State())
      ensures admitted <==> !committing && n + (old(outstanding) + 1) * MAXOPBLOCKS <= LOGSIZE
      ensures if admitted then outstanding == old(outstanding) + 1 && op !in asleep
              else outstanding == old(outstanding) && asleep == old(asleep) + {op}
    {
      admitted := false;
      if committing {
        asleep := asleep + {op};              // sleep(&log)
      } else if n + (outstanding + 1) * MAXOPBLOCKS > LOGSIZE {
        asleep := asleep + {op};              // sleep(&log)
      } else {
        outstanding, asleep, used := outstanding + 1, asleep - {op}, used + [0];
        admitted := true;
      }
    }

    /** The locked part of end_op; `panics` stands for the "log.committing" panic. */
    method EndOp(ghost slot: nat) returns (doCommit: bool, panics: bool)
      requires Valid() && slot < outstanding
      modifies this`outstanding, this`committing, this`asleep, this`used
      ensures Valid() && LogRun.Step(g, old(State()), LogRun.EndOp(slot)) == if panics then LogRun.Panic else LogRun.Ran(State())
      ensures doCommit <==> !panics && committing
    {
      doCommit := false;
      outstanding, used := outstanding - 1, LogRun.Remove(used, slot);
      panics := committing;
      if !panics {
        if outstanding == 0 {
          doCommit := true;
          committing := true;
        } else {
          asleep := {};                       // wakeup(&log)
        }
      }
    }

    /** What end_op does then: the commit, and the wakeup of everybody in begin_op. */
    method FinishCommit()
      requires Valid() && Loggable(g, |disk|, Lh()) && Pins(cache, Lh()) && committing && outstanding == 0
      modifies this`disk, this`cache, this`issued, this`n, this`committing, this`asleep
      ensures Valid() && LogRun.Step(g, old(State()), LogRun.CommitDone) == LogRun.Ran(State())
    {
      hide Apply, CommitWrites, Loggable, Pins;
      Commit();
      committing := false;
      asleep := {};                           // wakeup(&log)
    }

    /** log_write on a buffer holding `data`, by the operation at `slot`: absorbed or appended, and pinned. */
    method LogWrite(ghost slot: nat, no: nat, data: Block) returns (panics: bool)
      requires Valid() && (outstanding >= 1 ==> slot < outstanding)
      modifies this`n, this`cache, this`used, block
      ensures Valid()
      ensures LogRun.Step(g, old(State()), LogRun.LogWrite(slot, no, data)) == if panics then LogRun.Panic else LogRun.Ran(State())
      ensures panics ==> State() == old(State())
    {
      if n >= LOGSIZE || n >= g.size - 1 || outstanding < 1 {
        panics := true;
        return;
      }
      panics := false;
      var i := 0;
      while i < n && block[i] != no
        invariant 0 <= i <= n
        invariant no !in block[..i]
      {
        i := i + 1;
      }
      used := used[slot := used[slot] + if i == n then 1 else 0];
      block[i] := no;
      if i == n {
        n := n + 1;
      }
      cache := cache[no := data];
    }
  }

  lemma SlotSurvives(g: Geometry, d: Disk, blocks: seq<nat>, i: nat)
    requires Loggable(g, |d|, blocks) && i < |blocks|
    ensures InLog(g, Slot(g, i))
    ensures ReadBlock(Apply(d, InstallWrites(g, d, blocks)[..i]), Slot(g, i)) == ReadBlock(d, Slot(g, i))
  {
    InstallPrefix(g, d, blocks, i);
  }

  lemma LoggedArePinned(g: Geometry, limit: nat, cache: map<nat, Block>, blocks: seq<nat>)
    requires Loggable(g, limit, blocks) && Pins(cache, blocks)
    ensures forall i :: 0 <= i < |blocks| ==> blocks[i] in cache
    ensures forall i :: 0 <= i < |blocks| ==> Slot(g, i) !in cache
    ensures forall k :: k in cache ==> !InLog(g, k) && k in blocks
    ensures g.start !in cache
  {
    assert InLog(g, g.start);
    forall i | 0 <= i < |blocks| ensures InLog(g, Slot(g, i)) {
    }
  }

  /** What commit() writes: nothing when nothing was logged. */
  function CommitIssues(g: Geometry, d: Disk, cache: map<nat, Block>, blocks: seq<nat>): seq<Write> {
    if blocks == [] then [] else CommitWrites(g, d, cache, blocks)
  }

  // The phases of a commit, put together.
  lemma CommitAssembled(g: Geometry, d: Disk, cache: map<nat, Block>, blocks: seq<nat>)
    ensures var lw := LogWrites(g, d, cache, blocks);
      var d1 := Apply(d, lw);
      var d2 := WriteBlock(d1, HeadWrite(g, d1, blocks));
      var rest := InstallAndClear(g, d2, blocks);
      var all := CommitWrites(g, d, cache, blocks);
      Apply(d2, rest) == Apply(d, all) && (lw + [HeadWrite(g, d1, blocks)]) + rest == all
  {
    hide Apply, LogWrites, InstallAndClear, HeadWrite, WriteBlock;
    var lw, record := LogWrites(g, d, cache, blocks), RecordWrites(g, d, cache, blocks);
    ApplyOneMore(d, lw, HeadWrite(g, Apply(d, lw), blocks));
    ApplyConcat(d, record, InstallAndClear(g, Committed(g, d, cache, blocks), blocks));
  }

  lemma ApplyOneMore(d: Disk, ws: seq<Write>, w: Write)
    ensures Apply(d, ws + [w]) == WriteBlock(Apply(d, ws), w)
  {
    assert (ws + [w])[..|ws|] == ws;
  }

  lemma TakeOneMore(d: Disk, ws: seq<Write>, i: nat)
    requires i < |ws|
    ensures ws[..i + 1] == ws[..i] + [ws[i]]
    ensures Apply(d, ws[..i + 1]) == WriteBlock(Apply(d, ws[..i]), ws[i])
  {
    assert ws[..i + 1] == ws[..i] + [ws[i]];
    ApplyOneMore(d, ws[..i], ws[i]);
  }

  lemma ClearAssembled(g: Geometry, d: Disk, blocks: seq<nat>)
    ensures var installed := Apply(d, InstallWrites(g, d, blocks));
      Apply(d, InstallAndClear(g, d, blocks)) == WriteBlock(installed, HeadWrite(g, installed, []))
  {
    hide Apply, InstallWrites, HeadWrite, WriteBlock;
    var iw := InstallWrites(g, d, blocks);
    ApplyOneMore(d, iw, HeadWrite(g, Apply(d, iw), []));
  }
}
