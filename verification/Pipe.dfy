/** pipewrite, piperead and pipeclose (pipe.c): a ring of 512 bytes between two 32-bit counters,
    each method being what a thread does from acquiring the lock to releasing it or sleeping. */
module PipeRing {

  const PIPESIZE: int := 512
  const UINT_LIMIT: int := 0x1_0000_0000

  // ---------------------------------------------------------------- the ring

  /** nwrite - nread, in 32-bit arithmetic. */
  function Count(nread: int, nwrite: int): (n: int)
    ensures 0 <= n < UINT_LIMIT
  {
    (nwrite - nread) % UINT_LIMIT
  }

  predicate RingOk(data: seq<int>, nread: int, nwrite: int) {
    |data| == PIPESIZE && 0 <= nread < UINT_LIMIT && 0 <= nwrite < UINT_LIMIT && Count(nread, nwrite) <= PIPESIZE
  }

  /** The bytes in the ring, oldest first. */
  function Contents(data: seq<int>, nread: int, nwrite: int): (q: seq<int>)
    requires |data| == PIPESIZE
    ensures |q| == Count(nread, nwrite)
  {
    seq(Count(nread, nwrite), k => data[(nread + k) % PIPESIZE])
  }

  lemma CountMore(nread: int, nwrite: int)
    requires 0 <= nread < UINT_LIMIT && 0 <= nwrite < UINT_LIMIT && Count(nread, nwrite) < PIPESIZE
    ensures Count(nread, (nwrite + 1) % UINT_LIMIT) == Count(nread, nwrite) + 1
    ensures nwrite % PIPESIZE == (nread + Count(nread, nwrite)) % PIPESIZE
  {
    var c := Count(nread, nwrite);
    if nwrite >= nread {
      assert c == nwrite - nread;
    } else {
      assert c == nwrite - nread + UINT_LIMIT;
      assert nread + c == nwrite + 8388608 * PIPESIZE;
      Shifted(nwrite, 8388608);
    }
  }

  lemma Shifted(n: int, m: int)
    ensures (n + m * PIPESIZE) % PIPESIZE == n % PIPESIZE
  {
    var q, r := n / PIPESIZE, n % PIPESIZE;
    assert n + m * PIPESIZE == (q + m) * PIPESIZE + r;
  }

  lemma Slots(a: int, k: int, n: int)
    requires 0 <= a && 0 <= k < n <= PIPESIZE
    ensures n < PIPESIZE ==> (a + k) % PIPESIZE != (a + n) % PIPESIZE
  {
  }

  /** data[nwrite++ % PIPESIZE] = b appends b, also where nwrite wraps. */
  lemma StoreAppends(data: seq<int>, nread: int, nwrite: int, b: int)
    requires RingOk(data, nread, nwrite) && Count(nread, nwrite) < PIPESIZE
    ensures var data', nwrite' := data[nwrite % PIPESIZE := b], (nwrite + 1) % UINT_LIMIT;
      RingOk(data', nread, nwrite') && Contents(data', nread, nwrite') == Contents(data, nread, nwrite) + [b]
  {
    hide Count;
    CountMore(nread, nwrite);
    var n := Count(nread, nwrite);
    var data', nwrite' := data[nwrite % PIPESIZE := b], (nwrite + 1) % UINT_LIMIT;
    forall k | 0 <= k < n + 1 ensures Contents(data', nread, nwrite')[k] == (Contents(data, nread, nwrite) + [b])[k] {
      if k < n {
        Slots(nread, k, n);
      }
    }
  }

  lemma CountLess(nread: int, nwrite: int)
    requires 0 <= nread < UINT_LIMIT && 0 <= nwrite < UINT_LIMIT && nread != nwrite
    ensures Count(nread, nwrite) >= 1
    ensures Count((nread + 1) % UINT_LIMIT, nwrite) == Count(nread, nwrite) - 1
  {
  }

  lemma NextSlot(nread: int, k: int)
    requires 0 <= nread < UINT_LIMIT && 0 <= k
    ensures ((nread + 1) % UINT_LIMIT + k) % PIPESIZE == (nread + (k + 1)) % PIPESIZE
  {
    if nread + 1 == UINT_LIMIT {
      assert nread + (k + 1) == k + 8388608 * PIPESIZE;
      Shifted(k, 8388608);
    }
  }

  /** data[nread++ % PIPESIZE] removes the oldest byte, also where nread wraps. */
  lemma LoadRemoves(data: seq<int>, nread: int, nwrite: int)
    requires RingOk(data, nread, nwrite) && nread != nwrite
    ensures var nread' := (nread + 1) % UINT_LIMIT;
      && RingOk(data, nread', nwrite) && Contents(data, nread, nwrite) != []
      && data[nread % PIPESIZE] == Contents(data, nread, nwrite)[0]
      && Contents(data, nread', nwrite) == Contents(data, nread, nwrite)[1..]
  {
    hide Count;
    CountLess(nread, nwrite);
    var nread' := (nread + 1) % UINT_LIMIT;
    forall k | 0 <= k < Count(nread', nwrite)
      ensures Contents(data, nread', nwrite)[k] == Contents(data, nread, nwrite)[1..][k]
    {
      NextSlot(nread, k);
    }
  }

  /** The comparisons of the code decide full and empty. */
  lemma FullAndEmpty(nread: int, nwrite: int)
    requires 0 <= nread < UINT_LIMIT && 0 <= nwrite < UINT_LIMIT && Count(nread, nwrite) <= PIPESIZE
    ensures nwrite == (nread + PIPESIZE) % UINT_LIMIT <==> Count(nread, nwrite) == PIPESIZE
    ensures nread == nwrite <==> Count(nread, nwrite) == 0
  {
  }

  // ---------------------------------------------------------------- one stay under the lock

  /** A call returned a value, or its thread went to sleep and will go on where it stopped. */
  datatype Outcome = Returned(value: int) | Slept

  /** The bytes that fit from addr[i..]. */
  function Room(q: seq<int>, left: int): (n: int)
    ensures |q| <= PIPESIZE && left >= 0 ==> 0 <= n <= left && |q| + n <= PIPESIZE
  {
    if left <= PIPESIZE - |q| then left else PIPESIZE - |q|
  }

  function WriteOutcome(q: seq<int>, n: int, i: int, readopen: bool, killed: bool): Outcome {
    if Room(q, n - i) == n - i then Returned(n)
    else if !readopen || killed then Returned(-1)
    else Slept
  }

  /** Readers are woken unless the call gives up. */
  function WriteWakes(q: seq<int>, n: int, i: int, readopen: bool, killed: bool): bool {
    WriteOutcome(q, n, i, readopen, killed) != Returned(-1)
  }

  function ReadWaits(q: seq<int>, writeopen: bool): bool {
    q == [] && writeopen
  }

  function Least(a: int, b: int): int {
    if a <= b then a else b
  }

  class Pipe {
    const data: array<int>
    var nread: int
    var nwrite: int
    var readopen: bool
    var writeopen: bool
    var readers: set<int>                // threads asleep on &nread
    var writers: set<int>                // threads asleep on &nwrite

    ghost predicate Valid()
      reads this, data
    {
      data.Length == PIPESIZE && RingOk(data[..], nread, nwrite)
    }

    ghost function Queue(): seq<int>
      requires Valid()
      reads this, data
    {
      Contents(data[..], nread, nwrite)
    }

    constructor ()
      ensures Valid() && Queue() == [] && readopen && writeopen && readers == {} && writers == {} && fresh(data)
    {
      data := new int[PIPESIZE](_ => 0);
      nread, nwrite, readopen, writeopen, readers, writers := 0, 0, true, true, {}, {};
    }

    /** pipewrite from its i-th byte on: the queue gets what fits. */
    method Write(me: int, addr: seq<int>, i0: nat, killed: bool) returns (i: nat, o: Outcome)
      requires Valid() && i0 <= |addr|
      modifies data, this`nwrite, this`readers, this`writers
      ensures Valid() && i == i0 + Room(old(Queue()), |addr| - i0) && i <= |addr|
      ensures Queue() == old(Queue()) + addr[i0..i]
      ensures o == WriteOutcome(old(Queue()), |addr|, i0, readopen, killed)
      ensures if |old(Queue())| + (|addr| - i0) <= PIPESIZE then i == |addr| && o == Returned(|addr|)
              else |Queue()| == PIPESIZE && i < |addr| && o == if readopen && !killed then Slept else Returned(-1)
      ensures readers == if WriteWakes(old(Queue()), |addr|, i0, readopen, killed) then {} else old(readers)
      ensures readers == if o == Returned(-1) then old(readers) else {}
      ensures writers == old(writers) + if o == Slept then {me} else {}
    {
      hide Contents, Count;
      ghost var q := Queue();
      i := i0;
      assert addr[i0..i0] == [] && q + [] == q;
      while i < |addr|
        invariant i0 <= i <= |addr| && Valid() && Queue() == q + addr[i0..i]
        invariant readers == old(readers) && writers == old(writers)
      {
        FullAndEmpty(nread, nwrite);
        if nwrite == (nread + PIPESIZE) % UINT_LIMIT {
          if !readopen || killed {
            return i, Returned(-1);
          }
          readers := {};                 // wakeup(&p->nread)
          writers := writers + {me};     // sleep(&p->nwrite)
          return i, Slept;
        }
        StoreAppends(data[..], nread, nwrite, addr[i]);
        AppendOne(q, addr, i0, i);
        data[nwrite % PIPESIZE] := addr[i];
        nwrite := (nwrite + 1) % UINT_LIMIT;
        i := i + 1;
      }
      readers := {};                     // wakeup(&p->nread)
      o := Returned(|addr|);
    }

    /** piperead of at most n bytes, from its first test on. */
    method Read(me: int, n: nat, killed: bool) returns (bytes: seq<int>, o: Outcome)
      requires Valid()
      modifies this`nread, this`readers, this`writers
      ensures Valid() && old(Queue()) == bytes + Queue()
      ensures old(Queue()) == [] && writeopen ==> bytes == [] && writers == old(writers)
      ensures old(Queue()) == [] && writeopen && killed ==> o == Returned(-1) && readers == old(readers)
      ensures old(Queue()) == [] && writeopen && !killed ==> o == Slept && readers == old(readers) + {me}
      ensures old(Queue()) != [] || !writeopen ==>
        && o == Returned(|bytes|) && |bytes| == (if n <= |old(Queue())| then n else |old(Queue())|)
        && writers == {} && readers == old(readers)
    {
      hide Contents, Count;
      ghost var q := Queue();
      FullAndEmpty(nread, nwrite);
      bytes := [];
      assert q == [] + q;
      if nread == nwrite && writeopen {
        if killed {
          return bytes, Returned(-1);
        }
        readers := readers + {me};       // sleep(&p->nread)
        return bytes, Slept;
      }
      var i := 0;
      while i < n
        invariant 0 <= i <= n && i == |bytes| && Valid() && q == bytes + Queue()
        invariant readers == old(readers) && writers == old(writers)
      {
        FullAndEmpty(nread, nwrite);
        if nread == nwrite {
          break;
        }
        LoadRemoves(data[..], nread, nwrite);
        MoveOne(bytes, Queue());
        bytes := bytes + [data[nread % PIPESIZE]];
        nread := (nread + 1) % UINT_LIMIT;
        i := i + 1;
      }
      FullAndEmpty(nread, nwrite);
      writers := {};                     // wakeup(&p->nwrite)
      o := Returned(i);
    }

    /** pipeclose; `gone` tells that the page was freed. */
    method Close(writable: bool) returns (gone: bool)
      requires Valid()
      modifies this`readopen, this`writeopen, this`readers, this`writers
      ensures Valid() && Queue() == old(Queue())
      ensures writeopen == (old(writeopen) && !writable) && readopen == (old(readopen) && writable)
      ensures readers == (if writable then {} else old(readers)) && writers == if writable then old(writers) else {}
      ensures gone <==> !readopen && !writeopen
    {
      if writable {
        writeopen, readers := false, {};
      } else {
        readopen, writers := false, {};
      }
      gone := !readopen && !writeopen;
    }
  }

  lemma AppendOne(q: seq<int>, addr: seq<int>, i0: nat, i: nat)
    requires i0 <= i < |addr|
    ensures q + addr[i0..i] + [addr[i]] == q + addr[i0..i + 1]
  {
  }

  lemma MoveOne(bytes: seq<int>, q: seq<int>)
    requires q != []
    ensures bytes + q == bytes + [q[0]] + q[1..]
  {
  }
}
