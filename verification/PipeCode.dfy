/** pipewrite and piperead (xv6/kernel/pipe.c) between two sleeps, in place on the ring. */
module PipeCode {
  import opened Options
  import opened Pipe

  class Ring {
    const data: array<Byte>
    var nread: nat
    var nwrite: nat
    var readopen: bool
    var writeopen: bool
    ghost var written: seq<Byte>
    ghost var taken: nat

    /** pipealloc. */
    constructor ()
      ensures Valid() && fresh(data) && nread == nwrite == 0 && readopen && writeopen && written == [] && taken == 0
    {
      data := new Byte[PIPESIZE](_ => 0);
      nread, nwrite, readopen, writeopen := 0, 0, true, true;
      written, taken := [], 0;
    }

    ghost predicate Valid()
      reads this, data
    {
      RingOk(data[..], nread, nwrite, written, taken)
    }

    /** One byte in, unless the ring is full. */
    method Put(ch: Byte)
      requires Valid() && nwrite != (nread + PIPESIZE) % UINT
      modifies this`nwrite, this`written, data
      ensures Valid() && nwrite == (old(nwrite) + 1) % UINT && written == old(written) + [ch]
      ensures data[..] == old(data[..])[old(nwrite) % PIPESIZE := ch]
    {
      FullAndEmpty(data[..], nread, nwrite, written, taken);
      PutOk(data[..], nread, nwrite, written, taken, ch);
      data[nwrite % PIPESIZE] := ch;
      nwrite := (nwrite + 1) % UINT;
      written := written + [ch];
    }

    /** One byte out, unless the ring is empty. */
    method Get() returns (ch: Byte)
      requires Valid() && nread != nwrite
      modifies this`nread, this`taken
      ensures Valid() && nread == (old(nread) + 1) % UINT && taken == old(taken) + 1
      ensures ch == data[old(nread) % PIPESIZE]
    {
      FullAndEmpty(data[..], nread, nwrite, written, taken);
      GetOk(data[..], nread, nwrite, written, taken);
      ch := data[nread % PIPESIZE];
      nread := (nread + 1) % UINT;
      taken := taken + 1;
    }

    /** The loop of pipewrite for `src` from byte `i` on: `fault` bytes of it can be read,
        and a kill is noticed after `kill` more bytes. */
    method WriteStretch(src: seq<Byte>, i: nat, fault: nat, kill: Option<nat>) returns (k: nat, wend: WEnd)
      requires Valid() && i <= |src|
      modifies this, data
      ensures Valid() && nread == old(nread) && readopen == old(readopen) && writeopen == old(writeopen)
              && taken == old(taken)
      ensures CanWrite(PIPESIZE - (|old(written)| - taken), readopen, |src|, i, k, wend)
      ensures data[..] == PutRing(old(data[..]), old(nwrite), src[i..i + k])
      ensures nwrite == (old(nwrite) + k) % UINT && written == old(written) + src[i..i + k]
      ensures wend.WFault? ==> fault <= i + k
      ensures wend.WKilled? ==> kill.Some?
    {
      k := 0;
      ghost var w, ring := written, data[..];
      assert src[i..i] == [];
      while i + k < |src|
        invariant i + k <= |src| && Valid() && nread == old(nread) && readopen == old(readopen)
                  && writeopen == old(writeopen) && taken == old(taken)
        invariant (k > 0 ==> readopen) && written == w + src[i..i + k] && nwrite == (old(nwrite) + k) % UINT
        invariant data[..] == PutRing(ring, old(nwrite), src[i..i + k])
      {
        if !readopen {
          return k, WClosed;
        }
        if kill.Some? && k >= kill.value {
          return k, WKilled;
        }
        FullAndEmpty(data[..], nread, nwrite, written, taken);
        if nwrite == (nread + PIPESIZE) % UINT {
          return k, WSleep;
        }
        if i + k >= fault {
          return k, WFault;
        }
        PutMore(ring, old(nwrite), w, src, i, k);
        Put(src[i + k]);
        k := k + 1;
      }
      wend := WDone;
    }

    /** The copy loop of piperead for `n` bytes, of which `room` can be stored. */
    method CopyOut(n: nat, room: nat) returns (bytes: seq<Byte>)
      requires Valid()
      modifies this
      ensures Valid() && nwrite == old(nwrite) && readopen == old(readopen) && writeopen == old(writeopen)
              && written == old(written)
      ensures |bytes| <= n && bytes == GetRing(data[..], old(nread), |bytes|)
      ensures nread == (old(nread) + |bytes|) % UINT && taken == old(taken) + |bytes|
      ensures |bytes| == n || |bytes| == room || taken == |written|
    {
      bytes := [];
      ghost var r := nread;
      while |bytes| < n
        invariant |bytes| <= n && Valid() && nwrite == old(nwrite) && written == old(written)
                  && readopen == old(readopen) && writeopen == old(writeopen)
        invariant taken == old(taken) + |bytes| && nread == (r + |bytes|) % UINT
                  && bytes == GetRing(data[..], r, |bytes|)
        invariant |bytes| <= room
      {
        FullAndEmpty(data[..], nread, nwrite, written, taken);
        if nread == nwrite || |bytes| >= room {
          break;
        }
        GetSnoc(data[..], r, |bytes|);
        WrapSum(r, |bytes|, 1);
        var ch := Get();
        bytes := bytes + [ch];
      }
    }

    /** piperead: it sleeps while the pipe is empty and open; otherwise it delivers bytes
        from the front, and fails only when it cannot store the first. */
    method ReadStretch(n: nat, killed: bool, room: nat) returns (bytes: seq<Byte>, rend: REnd, ret: int)
      requires Valid()
      modifies this
      ensures Valid() && nwrite == old(nwrite) && readopen == old(readopen) && writeopen == old(writeopen)
              && written == old(written)
      ensures CanRead(|written| - old(taken), writeopen, n, |bytes|, rend)
      ensures bytes == GetRing(data[..], old(nread), |bytes|)
      ensures nread == (old(nread) + |bytes|) % UINT && taken == old(taken) + |bytes|
      ensures rend.RKilled? ==> killed && ret == -1
      ensures rend.RDone? ==>
                ret == (if bytes == [] && n > 0 && room == 0 && old(taken) < |written| then -1 else |bytes|)
      ensures rend.RDone? && |bytes| < n && |bytes| < room ==> taken == |written|
    {
      FullAndEmpty(data[..], nread, nwrite, written, taken);
      if nread == nwrite && writeopen {
        return [], if killed then RKilled else RSleep, -1;
      }
      var some := nread != nwrite;
      bytes := CopyOut(n, room);
      rend := RDone;
      ret := if bytes == [] && n > 0 && some then -1 else |bytes|;
    }
  }

  lemma NextIndex(index: nat, n: nat)
    requires index < UINT && n > 0
    ensures ((index + 1) % UINT + (n - 1)) % UINT == (index + n) % UINT
  {
    WrapSum(index, 1, n - 1);
  }

  lemma GetOne(ring: seq<Byte>, nread: nat)
    requires |ring| == PIPESIZE && nread < UINT
    ensures GetRing(ring, nread, 1) == [ring[nread % UINT % PIPESIZE]]
  {
    assert GetRing(ring, (nread + 1) % UINT, 0) == [];
  }

  lemma GetNext(ring: seq<Byte>, nread: nat, k: nat, last: seq<Byte>)
    requires |ring| == PIPESIZE && k > 0
    requires GetRing(ring, (nread + 1) % UINT, k) == GetRing(ring, (nread + 1) % UINT, k - 1) + last
    ensures GetRing(ring, nread, k + 1) == GetRing(ring, nread, k) + last
  {
    var first, more := [ring[nread % PIPESIZE]], GetRing(ring, (nread + 1) % UINT, k - 1);
    assert first + (more + last) == first + more + last;
  }

  lemma {:induction false} GetSnoc(ring: seq<Byte>, nread: nat, k: nat)
    requires |ring| == PIPESIZE && nread < UINT
    ensures GetRing(ring, nread, k + 1) == GetRing(ring, nread, k) + [ring[(nread + k) % UINT % PIPESIZE]]
    decreases k
  {
    if k == 0 {
      GetOne(ring, nread);
    } else {
      GetSnoc(ring, (nread + 1) % UINT, k - 1);
      NextIndex(nread, k);
      GetNext(ring, nread, k, [ring[(nread + k) % UINT % PIPESIZE]]);
    }
  }

  lemma PutOne(ring: seq<Byte>, nwrite: nat, ch: Byte)
    requires |ring| == PIPESIZE && nwrite < UINT
    ensures PutRing(ring, nwrite, [ch]) == ring[nwrite % UINT % PIPESIZE := ch]
  {
    assert [ch][1..] == [];
  }

  lemma {:induction false} PutSnoc(ring: seq<Byte>, nwrite: nat, bytes: seq<Byte>, ch: Byte)
    requires |ring| == PIPESIZE && nwrite < UINT
    ensures PutRing(ring, nwrite, bytes + [ch]) == PutRing(ring, nwrite,
        bytes)[(nwrite + |bytes|) % UINT % PIPESIZE := ch]
    decreases |bytes|
  {
    if bytes == [] {
      assert bytes + [ch] == [ch];
      PutOne(ring, nwrite, ch);
    } else {
      var more := ring[nwrite % PIPESIZE := bytes[0]];
      var next := (nwrite + 1) % UINT;
      calc {
        PutRing(ring, nwrite, bytes + [ch]);
        { assert (bytes + [ch])[1..] == bytes[1..] + [ch]; }
        PutRing(more, next, bytes[1..] + [ch]);
        { PutSnoc(more, next, bytes[1..], ch); }
        PutRing(more, next, bytes[1..])[(next + (|bytes| - 1)) % UINT % PIPESIZE := ch];
        { NextIndex(nwrite, |bytes|); }
        PutRing(more, next, bytes[1..])[(nwrite + |bytes|) % UINT % PIPESIZE := ch];
        PutRing(ring, nwrite, bytes)[(nwrite + |bytes|) % UINT % PIPESIZE := ch];
      }
    }
  }

  /** What one more byte of `src` does to the ring, the counter and the history. */
  lemma PutMore(ring: seq<Byte>, nwrite: nat, w: seq<Byte>, src: seq<Byte>, i: nat, k: nat)
    requires |ring| == PIPESIZE && nwrite < UINT && i + k < |src|
    ensures PutRing(ring, nwrite, src[i..i + k + 1]) ==
            PutRing(ring, nwrite, src[i..i + k])[(nwrite + k) % UINT % PIPESIZE := src[i + k]]
    ensures ((nwrite + k) % UINT + 1) % UINT == (nwrite + (k + 1)) % UINT
    ensures w + src[i..i + k] + [src[i + k]] == w + src[i..i + k + 1]
  {
    assert src[i..i + k] + [src[i + k]] == src[i..i + k + 1];
    PutSnoc(ring, nwrite, src[i..i + k], src[i + k]);
    WrapSum(nwrite, k, 1);
  }
}
