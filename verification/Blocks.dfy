/** Disk blocks as arrays of 32-bit words, the view the log header takes of them. */
module Blocks {

  const WORDS: nat := 128          // BSIZE / sizeof(int)

  type Words = ws: seq<nat> | |ws| == WORDS witness seq(WORDS, _ => 0)
  datatype Block = Block(words: Words)

  function ZeroBlock(): Block {
    Block(seq(WORDS, _ => 0))
  }

  function SetWord(b: Block, i: nat, w: nat): Block {
    if i < WORDS then Block(b.words[i := w]) else b
  }

  type Disk = seq<Block>

  /** One bwrite, atomic on the device. */
  datatype Write = Write(no: nat, data: Block)

  function ReadBlock(d: Disk, k: nat): Block {
    if k < |d| then d[k] else ZeroBlock()
  }

  function WriteBlock(d: Disk, w: Write): (r: Disk)
    ensures |r| == |d|
  {
    if w.no < |d| then d[w.no := w.data] else d
  }

  /** The device after the writes ws, in order. */
  function Apply(d: Disk, ws: seq<Write>): (r: Disk)
    ensures |r| == |d|
  {
    if ws == [] then d else WriteBlock(Apply(d, ws[..|ws| - 1]), ws[|ws| - 1])
  }

  lemma ApplyNothing(d: Disk)
    ensures Apply(d, []) == d
  {
  }

  lemma {:induction false} ApplyConcat(d: Disk, a: seq<Write>, b: seq<Write>)
    ensures Apply(d, a + b) == Apply(Apply(d, a), b)
  {
    if b == [] {
      assert a + b == a;
    } else {
      assert (a + b)[..|a + b| - 1] == a + b[..|b| - 1];
      ApplyConcat(d, a, b[..|b| - 1]);
    }
  }

  lemma TakeFirst(a: seq<Write>, b: seq<Write>, i: nat)
    requires i <= |a|
    ensures (a + b)[..i] == a[..i]
  {
  }

  lemma ApplyTake(d: Disk, a: seq<Write>, b: seq<Write>, n: nat, j: nat)
    requires j <= |b| && n == |a| + j
    ensures Apply(d, (a + b)[..n]) == Apply(Apply(d, a), b[..j])
  {
    assert (a + b)[..n] == a + b[..j];
    ApplyConcat(d, a, b[..j]);
  }

  lemma {:induction false} ApplyUntouched(d: Disk, ws: seq<Write>, k: nat)
    requires forall i :: 0 <= i < |ws| ==> ws[i].no != k
    ensures ReadBlock(Apply(d, ws), k) == ReadBlock(d, k)
  {
    if ws != [] {
      ApplyUntouched(d, ws[..|ws| - 1], k);
    }
  }

  /** A block written exactly once holds what was written. */
  lemma {:induction false} ApplyWritten(d: Disk, ws: seq<Write>, m: nat)
    requires m < |ws| && ws[m].no < |d|
    requires forall i :: 0 <= i < |ws| && i != m ==> ws[i].no != ws[m].no
    ensures ReadBlock(Apply(d, ws), ws[m].no) == ws[m].data
  {
    var front := ws[..|ws| - 1];
    if m < |front| {
      assert front[m] == ws[m];
      ApplyWritten(d, front, m);
    }
  }
}
