// Growing byte buffers (core/buf.c) and the write queue of a socket (os/linux/tcpio.c).
module Bufs {
  import opened Chars

  const CHUNK: nat := 256

  lemma CeilDiv(n: nat)
    ensures n <= (n + CHUNK - 1) / CHUNK * CHUNK < n + CHUNK
    ensures (n + CHUNK - 1) / CHUNK * CHUNK % CHUNK == 0
  {
  }

  class Buf {
    var base: array<char>    // of length 0 when nothing is allocated
    var len: nat

    // Whenever there is a block, one byte is left after the contents.
    ghost predicate Valid()
      reads this
    {
      base.Length % CHUNK == 0 && if base.Length == 0 then len == 0 else len < base.Length
    }

    ghost function Contents(): string
      requires Valid()
      reads this, base
    {
      base[..len]
    }

    constructor ()
      ensures Valid() && Contents() == [] && fresh(base)
    {
      base := new char[0];
      len := 0;
    }

    // buf_grow: room for `needed` bytes after the contents, and the byte that ends them. A new
    // block is longer by whole chunks and its tail is cleared.
    method Grow(needed: nat)
      requires Valid()
      modifies this`base
      ensures Valid() && base.Length > len + needed && Contents() == old(Contents())
      ensures if old(base.Length) > len + needed then base == old(base)
              else fresh(base) && base.Length % 256 == 0 && base.Length < len + needed + 1 + 256
                   && forall k :: old(base.Length) <= k < base.Length ==> base[k] == NUL
    {
      var size := base.Length;
      if size < len + needed + 1 {
        size := (len + needed + 1 + CHUNK - 1) / CHUNK * CHUNK;
        CeilDiv(len + needed + 1);
        var block := new char[size](_ => NUL);
        var i := 0;
        while i < base.Length
          invariant 0 <= i <= base.Length <= block.Length
          invariant len == old(len) && base == old(base) && base[..] == old(base[..])
          invariant block[..i] == base[..i] && forall k :: i <= k < block.Length ==> block[k] == NUL
        {
          block[i] := base[i];
          i := i + 1;
        }
        assert block[..len] == block[..i][..len] == base[..len];
        base := block;
      }
    }

    // memcpy
    method Copy(at: nat, data: string)
      requires at + |data| <= base.Length
      modifies base
      ensures base[..] == old(base[..at]) + data + old(base[at + |data|..])
    {
      var i := 0;
      while i < |data|
        invariant 0 <= i <= |data|
        invariant base[..] == old(base[..at]) + data[..i] + old(base[at + i..])
      {
        base[at + i] := data[i];
        i := i + 1;
      }
      assert data[..i] == data;
    }

    // buf_append
    method Append(data: string)
      requires Valid()
      modifies this, base
      ensures Valid() && Contents() == old(Contents()) + data
      ensures base.Length > len && base[len] == NUL
      ensures base == old(base) || fresh(base)
    {
      Grow(|data|);
      Copy(len, data);
      assert base[..len + |data|] == base[..][..len + |data|];
      len := len + |data|;
      base[len] := NUL;
    }

    // buf_set: the contents are replaced, in a block sized for them after the old ones
    method Set(data: string)
      requires Valid()
      modifies this, base
      ensures Valid() && Contents() == data
      ensures base.Length > len && base[len] == NUL
      ensures base == old(base) || fresh(base)
    {
      Grow(|data|);
      Copy(0, data);
      assert base[..|data|] == base[..][..|data|];
      len := |data|;
      base[len] := NUL;
    }

    // buf_shift: drop the first bytes, in place
    method Shift(ofs: int)
      requires Valid()
      modifies this`len, base
      ensures Valid() && base == old(base)
      ensures Contents() == if ofs <= 0 then old(Contents())
                            else if ofs < old(len) then old(Contents())[ofs..] else []
    {
      if ofs > 0 {
        if ofs < len {
          var i := ofs;
          while i < len
            invariant ofs <= i <= len == old(len)
            invariant forall k :: 0 <= k < i - ofs ==> base[k] == old(base[k + ofs])
            invariant forall k :: i - ofs <= k < base.Length ==> base[k] == old(base[k])
          {
            base[i - ofs] := base[i];
            i := i + 1;
          }
          len := len - ofs;
        } else {
          len := 0;
        }
      }
    }
  }

  // Bytes pass from the front of what is left to the end of what was sent.
  lemma Moved(sent: string, left: string, n: nat)
    requires n <= |left|
    ensures sent + left[..n] + left[n..] == sent + left
    ensures n == 0 ==> left[n..] == left && sent + left[..n] == sent
  {
  }

  lemma Left(sent: string, left: string)
    ensures sent + left == sent <==> |left| == 0
  {
  }

  // The sending side of a socket: a queue between the program and the kernel.
  class WriteQueue {
    const wbuf: Buf
    ghost var queued: string   // everything the program wrote
    ghost var sent: string     // everything the kernel took

    // Nothing is lost, duplicated or reordered.
    ghost predicate Valid()
      reads this, wbuf, wbuf.base
    {
      wbuf.Valid() && sent + wbuf.Contents() == queued
    }

    constructor ()
      ensures Valid() && queued == [] && fresh(wbuf) && fresh(wbuf.base)
    {
      wbuf := new Buf();
      queued, sent := [], [];
    }

    // tcp_sock_write; returns whether the write handler was installed
    method Write(data: string) returns (armed: bool)
      requires Valid()
      modifies this, wbuf, wbuf.base
      ensures Valid() && queued == old(queued) + data && sent == old(sent)
      ensures wbuf.base == old(wbuf.base) || fresh(wbuf.base)
      ensures armed <==> sent != queued
    {
      ghost var before := wbuf.Contents();
      wbuf.Append(data);
      queued := queued + data;
      assert sent + (before + data) == (sent + before) + data;
      armed := wbuf.len > 0;
    }

    // tcp_sock_write_event, when the kernel takes `taken` bytes, or fails if it is negative.
    // Returns whether more is to be sent.
    method WriteEvent(taken: int) returns (cont: bool)
      requires Valid() && taken <= wbuf.len
      modifies this`sent, wbuf, wbuf.base
      ensures Valid() && queued == old(queued) && wbuf.base == old(wbuf.base)
      ensures sent == old(sent) + if taken > 0 then old(wbuf.Contents())[..taken] else []
      ensures cont <==> sent != queued && taken >= 0
    {
      cont := false;
      ghost var before := wbuf.Contents();
      Left(sent, before);
      if wbuf.len > 0 {
        if taken >= 0 {
          wbuf.Shift(taken);
          Moved(sent, before, taken);
          sent := sent + before[..taken];
          Left(sent, wbuf.Contents());
          if wbuf.len > 0 {
            cont := true;
          }
        }
      }
    }
  }
}
