/** The ring buffer of kernel/pipe.c: 32-bit counters that wrap, over PIPESIZE bytes. */
module Pipe {
  import opened Basics

  const PIPESIZE := 512

  datatype Pipe = Pipe(data: seq<byte>, nread: nat, nwrite: nat, readopen: bool, writeopen: bool)

  predicate Formed(p: Pipe) { |p.data| == PIPESIZE && p.nread < UINT_LIMIT && p.nwrite < UINT_LIMIT }

  /** nwrite - nread in 32 bits. */
  function Count(p: Pipe): int { if p.nwrite >= p.nread then p.nwrite - p.nread else p.nwrite + UINT_LIMIT - p.nread }

  predicate Valid(p: Pipe) { Formed(p) && Count(p) <= PIPESIZE }

  predicate Empty(p: Pipe) { p.nread == p.nwrite }

  predicate Full(p: Pipe) { p.nwrite == (p.nread + PIPESIZE) % UINT_LIMIT }

  function NewPipe(data: seq<byte>): Pipe { Pipe(data, 0, 0, true, true) }

  /** The slot of the data array a counter stands for. */
  function Slot(c: nat): (r: nat)
    ensures r < PIPESIZE
  {
    c % PIPESIZE
  }

  /** The k bytes from counter value c on. */
  function Bytes(data: seq<byte>, c: nat, k: nat): seq<byte>
    requires |data| == PIPESIZE
    decreases k
  {
    if k == 0 then [] else [data[Slot(c)]] + Bytes(data, c + 1, k - 1)
  }

  /** The bytes waiting to be read, oldest first. */
  function Contents(p: Pipe): seq<byte>
    requires Valid(p)
  {
    Bytes(p.data, p.nread, Count(p))
  }

  function Put(p: Pipe, b: byte): Pipe
    requires Formed(p)
  {
    p.(data := p.data[p.nwrite % PIPESIZE := b], nwrite := (p.nwrite + 1) % UINT_LIMIT)
  }

  function Get(p: Pipe): Pipe { p.(nread := (p.nread + 1) % UINT_LIMIT) }

  // Counters and slots.

  lemma FullIff(p: Pipe)
    requires Valid(p)
    ensures Full(p) <==> Count(p) == PIPESIZE
    ensures Empty(p) <==> Count(p) == 0
  {
  }

  /** PIPESIZE divides 2^32, so a counter that wraps keeps its slot. */
  lemma SlotWraps(c: nat, d: nat)
    requires d == c || d == c + UINT_LIMIT
    ensures c % PIPESIZE == d % PIPESIZE
  {
    assert UINT_LIMIT == 8388608 * PIPESIZE;
  }

  lemma SameSlot(c: nat, d: nat)
    requires d == c || d == c + UINT_LIMIT || c == d + UINT_LIMIT
    ensures Slot(c) == Slot(d)
  {
    SlotWraps(if d >= c then c else d, if d >= c then d else c);
  }

  lemma SlotsDiffer(c: nat, d: nat)
    requires c < d < c + PIPESIZE
    ensures c % PIPESIZE != d % PIPESIZE
  {
    assert d - c == PIPESIZE * (d / PIPESIZE - c / PIPESIZE) + (d % PIPESIZE - c % PIPESIZE);
  }

  lemma {:induction false} BytesShape(data: seq<byte>, c: nat, k: nat)
    requires |data| == PIPESIZE
    ensures |Bytes(data, c, k)| == k
    decreases k
  {
    if k > 0 {
      BytesShape(data, c + 1, k - 1);
    }
  }

  /** Only the slot modulo PIPESIZE matters, so a wrapped counter reads the same bytes. */
  lemma {:induction false} BytesWrap(data: seq<byte>, c: nat, d: nat, k: nat)
    requires |data| == PIPESIZE && (d == c || d == c + UINT_LIMIT || c == d + UINT_LIMIT)
    ensures Bytes(data, c, k) == Bytes(data, d, k)
    decreases k
  {
    hide Slot;
    if k > 0 {
      SameSlot(c, d);
      BytesWrap(data, c + 1, d + 1, k - 1);
    }
  }

  lemma {:induction false} BytesPut(data: seq<byte>, c: nat, k: nat, e: nat, b: byte)
    requires |data| == PIPESIZE && c + k <= e && e < c + PIPESIZE
    ensures Bytes(data[e % PIPESIZE := b], c, k) == Bytes(data, c, k)
    decreases k
  {
    if k > 0 {
      SlotsDiffer(c, e);
      if k > 1 {
        BytesPut(data, c + 1, k - 1, e, b);
      }
    }
  }

  lemma {:induction false} BytesSnoc(data: seq<byte>, c: nat, k: nat)
    requires |data| == PIPESIZE
    ensures Bytes(data, c, k + 1) == Bytes(data, c, k) + [data[(c + k) % PIPESIZE]]
    decreases k
  {
    if k > 0 {
      BytesSnoc(data, c + 1, k - 1);
    }
  }

  // One byte in, one byte out.

  lemma PutContents(p: Pipe, b: byte)
    requires Valid(p) && !Full(p)
    ensures Valid(Put(p, b)) && Contents(Put(p, b)) == Contents(p) + [b]
  {
    var k := Count(p);
    FullIff(p);
    var e := p.nread + k;
    SlotWraps(p.nwrite, e);
    var data := p.data[e % PIPESIZE := b];
    assert Put(p, b).data == data;
    assert Count(Put(p, b)) == k + 1;
    BytesPut(p.data, p.nread, k, e, b);
    BytesSnoc(data, p.nread, k);
  }

  lemma GetContents(p: Pipe)
    requires Valid(p) && !Empty(p)
    ensures Valid(Get(p)) && Contents(p) == [p.data[p.nread % PIPESIZE]] + Contents(Get(p))
  {
    FullIff(p);
    var q := Get(p);
    assert Count(q) == Count(p) - 1;
    if p.nread + 1 < UINT_LIMIT {
      assert q.nread == p.nread + 1;
    } else {
      assert q.nread == 0;
    }
    BytesWrap(p.data, p.nread + 1, q.nread, Count(q));
  }

  lemma ContentsSize(p: Pipe)
    requires Valid(p)
    ensures |Contents(p)| == Count(p)
  {
    BytesShape(p.data, p.nread, Count(p));
  }

  // Runs of bytes.

  /** pipewrite's inner loop: data from index i on, until all is written or the pipe is full. */
  function PutAll(p: Pipe, data: seq<byte>, i: nat): (r: (Pipe, nat))
    requires Valid(p) && i <= |data|
    ensures Valid(r.0) && i <= r.1 <= |data|
    ensures r.0.readopen == p.readopen && r.0.writeopen == p.writeopen
    decreases |data| - i
  {
    if i == |data| || Full(p) then (p, i)
    else
      PutContents(p, data[i]);
      PutAll(Put(p, data[i]), data, i + 1)
  }

  /** It appends the bytes it takes, takes as many as fit, and stops short only when full. */
  lemma {:induction false} PutAllAppends(p: Pipe, data: seq<byte>, i: nat)
    requires Valid(p) && i <= |data|
    ensures var (q, j) := PutAll(p, data, i);
            && Contents(q) == Contents(p) + data[i..j]
            && j - i == Min(|data| - i, PIPESIZE - Count(p))
            && (j < |data| ==> Full(q))
    decreases |data| - i
  {
    hide Contents, Put;
    FullIff(p);
    if i < |data| && !Full(p) {
      PutContents(p, data[i]);
      var p' := Put(p, data[i]);
      PutAllAppends(p', data, i + 1);
      ContentsSize(p);
      ContentsSize(p');
      assert data[i..PutAll(p, data, i).1] == [data[i]] + data[i + 1..PutAll(p, data, i).1];
    }
  }

  /** piperead's copy loop: at most n bytes. */
  function GetAll(p: Pipe, n: nat): (r: (Pipe, seq<byte>))
    requires Valid(p)
    ensures Valid(r.0)
    ensures r.0.readopen == p.readopen && r.0.writeopen == p.writeopen
    decreases n
  {
    if n == 0 || Empty(p) then (p, [])
    else
      GetContents(p);
      var (q, bs) := GetAll(Get(p), n - 1);
      (q, [p.data[p.nread % PIPESIZE]] + bs)
  }

  /** It takes the oldest bytes, as many as there are up to n. */
  lemma {:induction false} GetAllTakes(p: Pipe, n: nat)
    requires Valid(p)
    ensures var (q, bs) := GetAll(p, n);
            && Contents(p) == bs + Contents(q)
            && |bs| == Min(n, Count(p))
    decreases n
  {
    hide Contents;
    FullIff(p);
    if n > 0 && !Empty(p) {
      GetContents(p);
      var b, q := p.data[p.nread % PIPESIZE], Get(p);
      hide Get;
      GetAllTakes(q, n - 1);
      ContentsSize(p);
      ContentsSize(q);
      var (r, bs) := GetAll(q, n - 1);
      assert [b] + (bs + Contents(r)) == [b] + bs + Contents(r);
    }
  }

  // Turns: what a call does between taking the pipe lock and giving it up.

  datatype End = Returned(n: int) | Slept

  /** pipewrite has put bytes up to index upto, and woken the readers if wake. */
  datatype WriteTurn = WriteTurn(pipe: Pipe, upto: nat, wake: bool, end: End)

  function Writing(p: Pipe, bytes: seq<byte>, i: nat, killed: bool): (t: WriteTurn)
    requires Valid(p) && i <= |bytes|
    ensures Valid(t.pipe) && i <= t.upto <= |bytes|
  {
    var (q, j) := PutAll(p, bytes, i);
    if j == |bytes| then WriteTurn(q, j, true, Returned(|bytes|))
    else if !q.readopen || killed then WriteTurn(q, j, false, Returned(-1))
    else WriteTurn(q, j, true, Slept)
  }

  /** piperead has taken out, and woken the writers if wake. */
  datatype ReadTurn = ReadTurn(pipe: Pipe, out: seq<byte>, wake: bool, end: End)

  function Reading(p: Pipe, n: nat, killed: bool): (t: ReadTurn)
    requires Valid(p)
    ensures Valid(t.pipe)
  {
    if Empty(p) && p.writeopen then ReadTurn(p, [], false, if killed then Returned(-1) else Slept)
    else
      var (q, out) := GetAll(p, n);
      ReadTurn(q, out, true, Returned(|out|))
  }

  /** How a turn of pipewrite ends: with the number of bytes given exactly if the rest of them fits,
      otherwise with -1 if nobody can read or the writer was killed, otherwise asleep; and it has put
      in as many bytes as fit. */
  lemma WriteEnds(p: Pipe, bytes: seq<byte>, i: nat, killed: bool)
    requires Valid(p) && i <= |bytes|
    ensures var t := Writing(p, bytes, i, killed);
            var room := PIPESIZE - Count(p);
            && t.end == (if |bytes| - i <= room then Returned(|bytes|)
                         else if !p.readopen || killed then Returned(-1)
                         else Slept)
            && t.upto == i + Min(|bytes| - i, room) && Contents(t.pipe) == Contents(p) + bytes[i..t.upto]
            && t.pipe.readopen == p.readopen && t.pipe.writeopen == p.writeopen
            && (t.wake <==> t.end != Returned(-1))
  {
    hide Contents, Count, Full;
    FullIff(p);
    PutAllAppends(p, bytes, i);
  }

  /** How a turn of piperead ends: an empty pipe with its write end open puts the reader to sleep or
      sends it back with -1 if it was killed; otherwise it returns the number of bytes it took, as
      many as there are up to n. So 0 means that nothing was asked for, or that the pipe is empty and
      closed for writing. */
  lemma ReadEnds(p: Pipe, n: nat, killed: bool)
    requires Valid(p)
    ensures var t := Reading(p, n, killed);
            var wait := |Contents(p)| == 0 && p.writeopen;
            && t.end == (if wait then (if killed then Returned(-1) else Slept) else Returned(|t.out|))
            && |t.out| == (if wait then 0 else Min(n, |Contents(p)|)) && Contents(p) == t.out + Contents(t.pipe)
            && t.pipe.readopen == p.readopen && t.pipe.writeopen == p.writeopen
            && (t.end == Returned(0) <==> !wait && (n == 0 || (|Contents(p)| == 0 && !p.writeopen)))
            && (t.wake <==> !wait)
  {
    hide Contents, Count;
    FullIff(p);
    ContentsSize(p);
    GetAllTakes(p, n);
  }

  // The buffer in place.

  class PipeBuf {
    const data: array<byte>
    var nread: nat
    var nwrite: nat
    var readopen: bool
    var writeopen: bool

    function View(): Pipe
      reads this, data
    {
      Pipe(data[..], nread, nwrite, readopen, writeopen)
    }

    constructor (page: seq<byte>)
      requires |page| == PIPESIZE
      ensures View() == NewPipe(page) && Valid(View()) && Contents(View()) == [] && fresh(data)
    {
      data := new byte[PIPESIZE](i requires 0 <= i < PIPESIZE => page[i]);
      nread, nwrite, readopen, writeopen := 0, 0, true, true;
      new;
      assert data[..] == page;
    }

    /** pipewrite from the lock to the next sleep or return: bytes of addr from index i. */
    method WriteSome(addr: seq<byte>, i: nat) returns (j: nat)
      requires Valid(View()) && i <= |addr|
      modifies this`nwrite, data
      ensures View() == old(PutAll(View(), addr, i)).0 && j == old(PutAll(View(), addr, i)).1
    {
      hide Contents, Count;
      ghost var p := View();
      j := i;
      while j < |addr| && nwrite != (nread + PIPESIZE) % UINT_LIMIT
        invariant i <= j <= |addr| && Valid(View())
        invariant PutAll(p, addr, i) == PutAll(View(), addr, j)
      {
        ghost var q := View();
        PutContents(q, addr[j]);
        data[nwrite % PIPESIZE] := addr[j];
        nwrite := (nwrite + 1) % UINT_LIMIT;
        assert View() == Put(q, addr[j]);
        j := j + 1;
      }
    }

    /** piperead's copy loop. */
    method ReadSome(n: nat) returns (out: seq<byte>)
      requires Valid(View())
      modifies this`nread
      ensures View() == old(GetAll(View(), n)).0 && out == old(GetAll(View(), n)).1
    {
      hide Contents, Count;
      ghost var p := View();
      out := [];
      var i := 0;
      while i < n
        invariant i <= n && Valid(View())
        invariant GetAll(p, n).0 == GetAll(View(), n - i).0
        invariant GetAll(p, n).1 == out + GetAll(View(), n - i).1
      {
        if nread == nwrite {
          assert out + [] == out;
          return;
        }
        GetContents(View());
        ghost var q := View();
        ghost var rest := GetAll(q, n - i).1;
        var b := data[nread % PIPESIZE];
        assert out + rest == out + [b] + rest[1..];
        out := out + [b];
        nread := (nread + 1) % UINT_LIMIT;
        assert View() == Get(q);
        i := i + 1;
      }
      assert out + [] == out;
    }

    method WriteUntilSleep(addr: seq<byte>, i: nat, killed: bool) returns (j: nat, wake: bool, end: End)
      requires Valid(View()) && i <= |addr|
      modifies this`nwrite, data
      ensures WriteTurn(View(), j, wake, end) == old(Writing(View(), addr, i, killed))
    {
      j := WriteSome(addr, i);
      if j == |addr| {
        return j, true, Returned(|addr|);
      } else if !readopen || killed {
        return j, false, Returned(-1);
      } else {
        return j, true, Slept;
      }
    }

    method ReadUntilSleep(n: nat, killed: bool) returns (out: seq<byte>, wake: bool, end: End)
      requires Valid(View())
      modifies this`nread
      ensures ReadTurn(View(), out, wake, end) == old(Reading(View(), n, killed))
    {
      if nread == nwrite && writeopen {
        return [], false, if killed then Returned(-1) else Slept;
      }
      out := ReadSome(n);
      return out, true, Returned(|out|);
    }

    /** pipeclose of one end: whom it wakes, and whether the page can go. */
    method Close(writable: bool) returns (wakeReaders: bool, wakeWriters: bool, done: bool)
      modifies this`readopen, this`writeopen
      ensures writeopen == (old(writeopen) && !writable) && readopen == (old(readopen) && writable)
      ensures wakeReaders == writable && wakeWriters == !writable && (done <==> !readopen && !writeopen)
    {
      if writable {
        writeopen := false;
        wakeReaders, wakeWriters := true, false;
      } else {
        readopen := false;
        wakeReaders, wakeWriters := false, true;
      }
      done := !readopen && !writeopen;
    }
  }
}
