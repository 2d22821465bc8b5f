/** kernel_pipe.c as code: the byte array and its positions, updated in the loops of the calls.  A method
    runs from the call, or from a wakeup, to the next sleep or the return. */
module PipeCode {
  import P = Pipe

  class PipeBlock {
    const buf: array<P.Byte>
    var w: nat
    var r: nat
    var len: nat
    var reader: bool
    var writer: bool
    var blocked: bool
    var wAsleep: bool
    var rAsleep: bool
    ghost var frees: nat
    ghost var written: seq<P.Byte>
    ghost var stream: seq<P.Byte>
    ghost var read: seq<P.Byte>

    ghost function View(): P.State
      reads this, buf
    {
      P.State(buf[..], w, r, len, reader, writer, blocked, wAsleep, rAsleep, frees,
              written, stream, read)
    }

    ghost predicate Valid()
      reads this, buf
    {
      P.Inv(View())
    }

    constructor ()
      ensures Valid() && fresh(buf) && View() == P.Fresh(buf[..])
    {
      buf := new P.Byte[P.PIPE_BUFFER_SIZE];
      w, r, len := 0, 0, 0;
      reader, writer, blocked, wAsleep, rAsleep := true, true, false, false, false;
      frees, written, stream, read := 0, [], [], [];
    }

    method PutByte(b: P.Byte)
      requires buf.Length == P.PIPE_BUFFER_SIZE && w < P.RING
      modifies this, buf
      ensures View() == P.Put(old(View()), b)
    {
      written := written + [b];
      stream := if len < P.RING then stream + [b] else P.Overwritten(stream, |read|, b);
      buf[w] := b;
      w := w + 1;
      len := len + 1;
    }

    method Settle()
      modifies this
      ensures View() == P.Settle(old(View()))
    {
      if len == P.PIPE_BUFFER_SIZE {
        blocked, wAsleep := true, true;
      } else {
        if w == P.PIPE_BUFFER_SIZE - 1 { w := 0; }
        rAsleep := false;
      }
    }

    /** Storing one byte, up to the wait for space. */
    method StoreByte(b: P.Byte)
      requires Valid() && writer && !blocked
      modifies this, buf
      ensures Valid() && View() == P.Store(old(View()), b)
    {
      hide P.Inv, P.Put, P.Settle;
      P.StoreInv(View(), b);
      P.InvWf(View());
      PutByte(b);
      Settle();
    }

    /** pipe_write from its start, or from byte `i` after a wait. */
    method WriteBytes(data: seq<P.Byte>, i: nat) returns (count: nat)
      requires Valid() && writer && !blocked && i <= |data|
      modifies this, buf
      ensures Valid() && (View(), count) == P.WriteSection(old(View()), data, i)
      ensures count < |data| ==> blocked || !reader
    {
      ghost var s := View();
      count := i;
      while count < |data| && reader
        invariant i <= count <= |data| && Valid() && writer && !blocked
        invariant P.WriteSection(View(), data, count) == P.WriteSection(s, data, i)
        decreases |data| - count
      {
        StoreByte(data[count]);
        if blocked { return; }
        count := count + 1;
      }
    }

    method Write(data: seq<P.Byte>) returns (ret: int)
      requires Valid() && !blocked
      modifies this, buf
      ensures Valid()
      ensures |data| < 1 || !old(writer) || !old(reader) ==> ret == -1 && View() == old(View())
      ensures |data| >= 1 && old(writer) && old(reader) ==> View() == P.WriteSection(old(View()), data, 0).0
      ensures |data| >= 1 && old(writer) && old(reader) && !blocked ==> ret == |data|
    {
      if |data| < 1 || !writer || !reader { return -1; }
      var count := WriteBytes(data, 0);
      ReaderStays(old(View()), data, 0);
      ret := if !reader && len == |data| then -1 else count;
    }

    /** The wait for space, from a wakeup. */
    method ResumeWrite()
      requires Valid() && blocked
      modifies this
      ensures Valid() && View() == P.Resume(old(View()))
    {
      ghost var s := View();
      P.ResumeInv(s);
      if len == P.PIPE_BUFFER_SIZE {
        wAsleep := true;
      } else {
        blocked, wAsleep := false, false;
        if w == P.PIPE_BUFFER_SIZE - 1 { w := 0; }
        rAsleep := false;
      }
      hide P.Inv;
      assert View() == P.Resume(s);
    }

    /** pipe_write from a wakeup with space, the byte `i` stored: the reader may be gone by now. */
    method WriteAfterWait(data: seq<P.Byte>, i: nat) returns (ret: int)
      requires Valid() && blocked && len < P.PIPE_BUFFER_SIZE && i < |data|
      modifies this, buf
      ensures Valid() && P.Wf(P.Resume(old(View())))
      ensures View() == P.WriteSection(P.Resume(old(View())), data, i + 1).0
      ensures !blocked && reader ==> ret == |data|
      ensures !blocked && !reader ==> ret == if len == |data| then -1 else i + 1
    {
      ResumeWrite();
      ghost var s := View();
      if s.reader { ReaderStays(s, data, i + 1); }
      var count := WriteBytes(data, i + 1);
      ret := if !reader && len == |data| then -1 else count;
    }

    method TakeByte() returns (b: P.Byte)
      requires Valid() && len > 0
      modifies this
      ensures Valid() && b == old(View()).buf[old(r)] && View() == P.Take(old(View()))
    {
      ghost var s := View();
      P.TakeInv(s);
      b := buf[r];
      read := read + [b];
      r := r + 1;
      len := len - 1;
      if r == P.PIPE_BUFFER_SIZE - 1 { r := 0; }
      if len < P.PIPE_BUFFER_SIZE { wAsleep := false; }
      rAsleep := false;
      hide P.Inv;
      assert View() == P.Take(s);
    }

    /** pipe_read from its start, or with `got` read before a wait. */
    method ReadBytes(n: nat, got: seq<P.Byte>) returns (out: seq<P.Byte>)
      requires Valid() && |got| <= n
      modifies this
      ensures Valid() && (View(), out) == P.ReadSection(old(View()), n, got)
    {
      ghost var s := View();
      out := got;
      while |out| < n
        invariant Valid() && |out| <= n
        invariant P.ReadSection(View(), n, out) == P.ReadSection(s, n, got)
        decreases n - |out|
      {
        if len == 0 {
          if writer { rAsleep := true; }
          return;
        }
        var b := TakeByte();
        out := out + [b];
      }
    }

    /** pipe_writer_close; the block is freed when the read end is closed too. */
    method WriterClose() returns (ret: int)
      requires Valid() && !blocked
      modifies this
      ensures Valid() && View() == P.CloseWriter(old(View()))
      ensures ret == if old(writer) then 0 else -1
    {
      if !writer { return -1; }
      writer := false;
      rAsleep := false;
      if !reader { frees := frees + 1; }
      ret := 0;
    }

    /** pipe_reader_close; the block is freed when the write end is closed too. */
    method ReaderClose() returns (ret: int)
      requires Valid()
      modifies this
      ensures Valid() && View() == P.CloseReader(old(View()))
      ensures ret == if old(reader) then 0 else -1
    {
      if !reader { return -1; }
      reader := false;
      if !writer { frees := frees + 1; }
      ret := 0;
    }
  }

  /** Nobody else runs during a section: the reader is still there at its end. */
  lemma {:induction false} ReaderStays(s: P.State, data: seq<P.Byte>, i: nat)
    requires |s.buf| == P.PIPE_BUFFER_SIZE && s.w < P.RING && s.reader && i <= |data| && s.len != P.PIPE_BUFFER_SIZE
    ensures var (t, count) := P.WriteSection(s, data, i);
      t.reader && (t.blocked == s.blocked || t.blocked) && (!t.blocked ==> count == |data|)
    decreases |data| - i
  {
    if i < |data| && !P.Store(s, data[i]).blocked {
      ReaderStays(P.Store(s, data[i]), data, i + 1);
    }
  }
}
