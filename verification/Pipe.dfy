/** The pipe of kernel_pipe.c with one writer and one reader: a ring of bytes whose positions wrap one
    short of the buffer's end, and which blocks its writer only when the whole buffer counts as full. */
module Pipe {
  import opened Sequences

  type Byte = bv8

  const PIPE_BUFFER_SIZE := 16384
  /** Where the positions wrap. */
  const RING := 16383

  /** `blocked`: the writer has stored a byte and waits for space before it moves on.  `wAsleep` and
      `rAsleep`: the writer sleeps on has_space, the reader on has_data.  `frees`, `written`, `stream` and
      `read` are history: how often the block was freed, the bytes stored, the bytes as the reader will
      see them, and the bytes taken. */
  datatype State = State(
    buf: seq<Byte>, w: nat, r: nat, len: nat, reader: bool, writer: bool,
    blocked: bool, wAsleep: bool, rAsleep: bool, frees: nat,
    written: seq<Byte>, stream: seq<Byte>, read: seq<Byte>)

  function Wrap(p: nat): nat {
    if p == RING then 0 else p
  }

  /** pipe_init and sys_Pipe */
  function Fresh(buf: seq<Byte>): State {
    State(buf, 0, 0, 0, true, true, false, false, false, 0, [], [], [])
  }

  // ---------- the steps ----------

  /** Storing a byte at w_position. */
  function Put(s: State, b: Byte): State
    requires s.w < |s.buf|
  {
    s.(buf := s.buf[s.w := b], w := s.w + 1, len := s.len + 1, written := s.written + [b],
       stream := if s.len < RING then s.stream + [b] else Overwritten(s.stream, |s.read|, b))
  }

  /** After a store: wait for space if the buffer counts as full, else wrap and wake the reader. */
  function Settle(s: State): State {
    if s.len == PIPE_BUFFER_SIZE then s.(blocked := true, wAsleep := true)
    else s.(w := Wrap(s.w), rAsleep := false)
  }

  /** One turn of pipe_write's loop, up to the wait for space. */
  function Store(s: State, b: Byte): State
    requires s.w < |s.buf|
  {
    Settle(Put(s, b))
  }

  /** The stream when byte `b` is stored over the oldest unread byte, at place `q`. */
  function Overwritten(stream: seq<Byte>, q: nat, b: Byte): seq<Byte> {
    if q < |stream| then stream[q := b] + [b] else stream + [b]
  }

  /** The writer looks again whether there is space. */
  function Resume(s: State): State {
    if s.len == PIPE_BUFFER_SIZE then s.(wAsleep := true)
    else s.(w := Wrap(s.w), blocked := false, wAsleep := false, rAsleep := false)
  }

  /** One turn of pipe_read's loop, with data there. */
  function Take(s: State): State
    requires s.r < |s.buf| && s.len > 0
  {
    s.(r := Wrap(s.r + 1), len := s.len - 1, read := s.read + [s.buf[s.r]], rAsleep := false,
       wAsleep := if s.len - 1 < PIPE_BUFFER_SIZE then false else s.wAsleep)
  }

  /** pipe_writer_close, which wakes the reader; the last end to close frees the block. */
  function CloseWriter(s: State): State {
    if !s.writer then s
    else s.(writer := false, rAsleep := false, frees := if s.reader then s.frees else s.frees + 1)
  }

  /** pipe_reader_close, which wakes nobody. */
  function CloseReader(s: State): State {
    if !s.reader then s else s.(reader := false, frees := if s.writer then s.frees else s.frees + 1)
  }

  // ---------- the invariant ----------

  /** Place `k` after position `r` on the ring. */
  function Place(r: nat, k: nat): nat {
    if r + k < RING then r + k else if r + k < 2 * RING then r + k - RING else 0
  }

  /** The unread bytes, oldest first. */
  ghost function Content(buf: seq<Byte>, r: nat, len: nat): (c: seq<Byte>)
    requires |buf| == PIPE_BUFFER_SIZE
    ensures |c| == len
  {
    seq(len, k requires 0 <= k < len => buf[Place(r, k)])
  }

  ghost predicate Wf(s: State) {
    && |s.buf| == PIPE_BUFFER_SIZE && s.r < RING
    && s.w <= RING && (s.w == RING ==> s.blocked)
    && s.len <= PIPE_BUFFER_SIZE && (!s.blocked ==> s.len <= RING)
    && Wrap(s.w) == Place(s.r, s.len) % RING
  }

  /** Bytes stored minus bytes taken are the bytes in the buffer, which hold the rest of the stream;
      the reader sleeps only on an empty open pipe, the writer only on a full one. */
  ghost predicate Inv(s: State) {
    && Wf(s)
    && |s.written| == |s.stream| == |s.read| + s.len
    && s.stream == s.read + Content(s.buf, s.r, s.len)
    && (s.rAsleep ==> s.len == 0 && s.writer)
    && (s.wAsleep ==> s.blocked && s.len == PIPE_BUFFER_SIZE)
    && (s.blocked ==> s.writer)
    && s.frees == if s.reader || s.writer then 0 else 1
  }

  /** The positions keep the congruence of the ring. */
  lemma Congruent(s: State)
    requires Wf(s)
    ensures s.w % RING == (s.r + s.len) % RING
  {}

  lemma PlaceNext(r: nat, k: nat)
    requires r < RING && 0 < k <= RING
    ensures Place(Wrap(r + 1), k - 1) == Place(r, k)
  {}

  /** Storing with room on the ring appends; with none it also overwrites the oldest unread byte. */
  lemma StoreContent(s: State, b: Byte)
    requires Wf(s) && !s.blocked
    ensures var t := Store(s, b); var c := Content(s.buf, s.r, s.len);
      Content(t.buf, t.r, t.len) == if s.len < RING then c + [b] else c[0 := b] + [b]
  {
    var t := Store(s, b);
    assert s.w == Place(s.r, s.len);
    var c, c' := Content(s.buf, s.r, s.len), Content(t.buf, t.r, t.len);
    forall k | 0 <= k < t.len
      ensures c'[k] == (if s.len < RING then c + [b] else c[0 := b] + [b])[k]
    {
      assert c'[k] == t.buf[Place(s.r, k)];
      if 0 < k < s.len { assert Place(s.r, k) != s.w; }
    }
  }

  lemma TakeContent(s: State)
    requires Wf(s) && s.len > 0
    ensures var t := Take(s);
      Content(s.buf, s.r, s.len) == [s.buf[s.r]] + Content(t.buf, t.r, t.len)
  {
    var t := Take(s);
    var c, c' := Content(s.buf, s.r, s.len), [s.buf[s.r]] + Content(t.buf, t.r, t.len);
    forall k | 0 <= k < s.len ensures c[k] == c'[k] {
      if k > 0 { PlaceNext(s.r, k); }
    }
  }

  // ---------- preservation ----------

  lemma StoreWf(s: State, b: Byte)
    requires Wf(s) && !s.blocked
    ensures Wf(Store(s, b))
  {}

  lemma StoreStream(s: State, b: Byte)
    requires Wf(s) && !s.blocked && s.stream == s.read + Content(s.buf, s.r, s.len)
    ensures var t := Store(s, b);
      |t.buf| == PIPE_BUFFER_SIZE && t.stream == t.read + Content(t.buf, t.r, t.len)
  {
    StoreContent(s, b);
    hide Content;
    var c, q := Content(s.buf, s.r, s.len), |s.read|;
    if s.len < RING {
      assert s.read + c + [b] == s.read + (c + [b]);
    } else {
      assert (s.read + c)[q := b] + [b] == s.read + (c[0 := b] + [b]);
    }
  }

  lemma StoreInv(s: State, b: Byte)
    requires Inv(s) && s.writer && !s.blocked
    ensures Inv(Store(s, b))
  {
    StoreWf(s, b);
    StoreStream(s, b);
    hide Content, Wf;
  }

  lemma TakeInv(s: State)
    requires Inv(s) && s.len > 0
    ensures Inv(Take(s))
  {
    TakeContent(s);
    hide Content;
    var t := Take(s);
    assert s.read + ([s.buf[s.r]] + Content(t.buf, t.r, t.len)) == t.read + Content(t.buf, t.r, t.len);
  }

  lemma ResumeInv(s: State)
    requires Inv(s) && s.blocked
    ensures Inv(Resume(s))
  {
    hide Content;
  }

  // ---------- runs ----------

  datatype Event =
    | StoreEvent(b: Byte) | ResumeEvent | TakeEvent | StarveEvent
    | WakeReader | WakeWriter | CloseWriterEvent | CloseReaderEvent

  /** A write in flight keeps its end open: it cannot be closed while the writer is blocked. */
  ghost predicate Enabled(s: State, e: Event) {
    match e
    case StoreEvent(b) => s.reader && s.writer && !s.blocked
    case ResumeEvent => s.blocked && !s.wAsleep
    case TakeEvent => s.reader && s.len > 0
    case StarveEvent => s.reader && s.len == 0 && s.writer
    case WakeReader => s.rAsleep
    case WakeWriter => s.wAsleep
    case CloseWriterEvent => s.writer && !s.blocked
    case CloseReaderEvent => s.reader && !s.rAsleep
  }

  ghost function Apply(s: State, e: Event): State
    requires Wf(s) && Enabled(s, e)
  {
    match e
    case StoreEvent(b) => Store(s, b)
    case ResumeEvent => Resume(s)
    case TakeEvent => Take(s)
    case StarveEvent => s.(rAsleep := true)
    case WakeReader => s.(rAsleep := false)
    case WakeWriter => s.(wAsleep := false)
    case CloseWriterEvent => CloseWriter(s)
    case CloseReaderEvent => CloseReader(s)
  }

  lemma StepInv(s: State, e: Event)
    requires Inv(s) && Enabled(s, e)
    ensures Inv(Apply(s, e))
  {
    hide Content;
    match e
    case StoreEvent(b) => StoreInv(s, b);
    case ResumeEvent => ResumeInv(s);
    case TakeEvent => TakeInv(s);
    case _ =>
  }

  ghost predicate Next(s: State, e: Event, s': State) {
    Wf(s) && Enabled(s, e) && s' == Apply(s, e)
  }

  ghost predicate IsRun(ss: seq<State>, es: seq<Event>) {
    |ss| == |es| + 1 && forall i :: 0 <= i < |es| ==> Next(ss[i], es[i], ss[i + 1])
  }

  lemma RunInv(ss: seq<State>, es: seq<Event>, buf: seq<Byte>)
    requires IsRun(ss, es) && |buf| == PIPE_BUFFER_SIZE && ss[0] == Fresh(buf)
    ensures forall i :: 0 <= i < |ss| ==> Inv(ss[i])
  {
    assert Inv(ss[0]);
    for j := 0 to |es|
      invariant forall i :: 0 <= i <= j ==> Inv(ss[i])
    {
      assert Next(ss[j], es[j], ss[j + 1]);
      StepInv(ss[j], es[j]);
    }
  }

  /** The block is freed once, when both ends are closed, and no step uses it any more. */
  lemma FreedOnce(s: State, e: Event)
    requires Inv(s)
    ensures s.frees <= 1 && (s.frees == 1 <==> !s.reader && !s.writer)
    ensures s.frees == 1 ==> !Enabled(s, e)
  {
    hide Content;
  }

  /** A store that finds the ring full of unread bytes. */
  ghost predicate Overruns(s: State, e: Event) {
    e.StoreEvent? && s.len == RING
  }

  lemma StreamStep(s: State, e: Event)
    requires Inv(s) && Enabled(s, e) && !Overruns(s, e) && s.stream == s.written
    ensures Apply(s, e).stream == Apply(s, e).written
  {}

  /** In every run the bytes read are a prefix of the stream and the unread ones are the rest of it; in a
      run that never stores onto a full ring, the stream is exactly the bytes written, in order. */
  lemma RunFifo(ss: seq<State>, es: seq<Event>, buf: seq<Byte>)
    requires IsRun(ss, es) && |buf| == PIPE_BUFFER_SIZE && ss[0] == Fresh(buf)
    ensures var s := ss[|es|];
      && Wf(s) && |s.written| - |s.read| == s.len <= PIPE_BUFFER_SIZE
      && s.read <= s.stream && s.stream == s.read + Content(s.buf, s.r, s.len)
    ensures (forall i :: 0 <= i < |es| ==> !Overruns(ss[i], es[i])) ==>
      ss[|es|].stream == ss[|es|].written && ss[|es|].read <= ss[|es|].written
  {
    RunInv(ss, es, buf);
    if forall i :: 0 <= i < |es| ==> !Overruns(ss[i], es[i]) {
      for j := 0 to |es|
        invariant ss[j].stream == ss[j].written
      {
        assert Next(ss[j], es[j], ss[j + 1]);
        StreamStep(ss[j], es[j]);
      }
    }
    assert Inv(ss[|es|]);
    hide Content, IsRun;
  }

  /** A byte of the stream that is not the one written and that no later store can reach. */
  ghost predicate Spoilt(s: State, k: nat) {
    && k < |s.stream| == |s.written| && s.stream[k] != s.written[k]
    && (k < |s.read| || (k == |s.read| && s.len == PIPE_BUFFER_SIZE))
  }

  lemma SpoiltStays(s: State, e: Event, k: nat)
    requires Inv(s) && Enabled(s, e) && Spoilt(s, k)
    ensures Spoilt(Apply(s, e), k)
  {
    hide Content;
  }

  /** A store onto a full ring of another byte than the oldest unread one. */
  ghost predicate Spoils(s: State, e: Event)
    requires Wf(s)
  {
    Overruns(s, e) && s.buf[s.r] != e.b
  }

  lemma SpoilsAtOnce(s: State, e: Event)
    requires Inv(s) && Enabled(s, e) && s.stream == s.written
    ensures Spoils(s, e) ==> Spoilt(Apply(s, e), |s.read|)
    ensures !Spoils(s, e) ==> Apply(s, e).stream == Apply(s, e).written
  {
    if Overruns(s, e) {
      StoreKeepsIff(s, e.b);
      assert s.stream[|s.read|] == Content(s.buf, s.r, s.len)[0] == s.buf[s.r];
    }
  }

  /** The exact condition: what a run delivers is what was written, in order, iff no store of the run meets a
      full ring whose oldest unread byte is another one. */
  lemma RunFifoIff(ss: seq<State>, es: seq<Event>, buf: seq<Byte>)
    requires IsRun(ss, es) && |buf| == PIPE_BUFFER_SIZE && ss[0] == Fresh(buf)
    ensures forall i :: 0 <= i < |es| ==> Wf(ss[i])
    ensures ss[|es|].stream == ss[|es|].written <==> forall i :: 0 <= i < |es| ==> !Spoils(ss[i], es[i])
  {
    RunInv(ss, es, buf);
    ghost var first := 0;
    while first < |es| && !Spoils(ss[first], es[first])
      invariant 0 <= first <= |es| && ss[first].stream == ss[first].written
      invariant forall i :: 0 <= i < first ==> !Spoils(ss[i], es[i])
    {
      assert Next(ss[first], es[first], ss[first + 1]);
      SpoilsAtOnce(ss[first], es[first]);
      first := first + 1;
    }
    if first < |es| {
      var k := StaysSpoilt(ss, es, first);
      assert Spoilt(ss[|es|], k);
    }
  }

  lemma StaysSpoilt(ss: seq<State>, es: seq<Event>, first: nat) returns (k: nat)
    requires IsRun(ss, es) && (forall i :: 0 <= i < |ss| ==> Inv(ss[i])) && first < |es|
    requires Wf(ss[first]) && ss[first].stream == ss[first].written && Spoils(ss[first], es[first])
    ensures Spoilt(ss[|es|], k)
  {
    hide Inv;
    assert Next(ss[first], es[first], ss[first + 1]);
    SpoilsAtOnce(ss[first], es[first]);
    k := |ss[first].read|;
    for j := first + 1 to |es|
      invariant Spoilt(ss[j], k)
    {
      assert Next(ss[j], es[j], ss[j + 1]);
      SpoiltStays(ss[j], es[j], k);
    }
  }

  /** A store keeps what the reader will see iff the ring has room, or the oldest unread byte happens to
      be the byte stored. */
  lemma StoreKeepsIff(s: State, b: Byte)
    requires Inv(s) && s.writer && !s.blocked
    ensures Store(s, b).stream == s.stream + [b] <==> s.len < RING || s.buf[s.r] == b
  {
    if s.len == RING {
      var q := |s.read|;
      assert s.stream[q] == Content(s.buf, s.r, s.len)[0] == s.buf[s.r];
      assert Store(s, b).stream[q] == b && (s.stream + [b])[q] == s.buf[s.r];
      if s.buf[s.r] == b { assert s.stream[q := b] == s.stream; }
    }
  }

  /** The 16384th unread byte: the writer blocks, and the reader's next byte is that one, not its own. */
  lemma Overrun(s: State, b: Byte)
    requires Inv(s) && s.writer && !s.blocked && s.len == RING
    ensures var t := Store(s, b);
      t.blocked && t.len == PIPE_BUFFER_SIZE && Take(t).read == s.read + [b]
  {}

  /** Closing the read end does not wake a blocked writer, and nothing ever lets it go on. */
  lemma BlockedForever(ss: seq<State>, es: seq<Event>)
    requires IsRun(ss, es) && Inv(ss[0]) && ss[0].blocked && ss[0].len == PIPE_BUFFER_SIZE && !ss[0].reader
    ensures ss[|es|].blocked && ss[|es|].len == PIPE_BUFFER_SIZE
  {
    for j := 0 to |es|
      invariant ss[j].blocked && ss[j].len == PIPE_BUFFER_SIZE && !ss[j].reader
    {
      assert Next(ss[j], es[j], ss[j + 1]);
    }
  }

  /** A store that fills the buffer puts the writer to sleep; any other wakes the reader. */
  lemma StoreEffect(s: State, b: Byte)
    requires Inv(s) && s.writer && !s.blocked
    ensures var t := Store(s, b);
      && t.len == s.len + 1 && t.written == s.written + [b] && t.read == s.read && t.r == s.r
      && (s.len + 1 == 16384 ==> t.blocked && t.wAsleep)
      && (s.len + 1 < 16384 ==> !t.blocked && !t.wAsleep && !t.rAsleep)
      && t.reader == s.reader && t.writer == s.writer && t.frees == s.frees
  {
    hide Content;
  }

  /** A second look goes on, waking the reader, iff there is space. */
  lemma ResumeEffect(s: State)
    requires Inv(s) && s.blocked
    ensures var t := Resume(s);
      && (s.len == 16384 ==> t == s.(wAsleep := true))
      && (s.len < 16384 ==> t == s.(w := if s.w == 16383 then 0 else s.w, blocked := false, rAsleep := false))
  {
    hide Content;
  }

  /** Closing the write end wakes the reader; closing the read end wakes nobody. */
  lemma CloseEffect(s: State)
    requires Inv(s)
    ensures CloseWriter(s) ==
      if !s.writer then s else s.(writer := false, rAsleep := false, frees := if s.reader then 0 else 1)
    ensures CloseReader(s) ==
      if !s.reader then s else s.(reader := false, frees := if s.writer then 0 else 1)
  {
    hide Content;
  }

  lemma ExtendRun(ss: seq<State>, es: seq<Event>, e: Event) returns (ss': seq<State>, es': seq<Event>)
    requires IsRun(ss, es) && Wf(ss[|es|]) && Enabled(ss[|es|], e)
    ensures ss' == ss + [Apply(ss[|es|], e)] && es' == es + [e] && IsRun(ss', es')
  {
    ss', es' := ss + [Apply(ss[|es|], e)], es + [e];
    assert Next(ss[|es|], e, Apply(ss[|es|], e));
    hide Next;
    forall i | 0 <= i < |es'| ensures Next(ss'[i], es'[i], ss'[i + 1]) {
      assert i < |es| ==> Next(ss[i], es[i], ss[i + 1]);
    }
  }

  /** A run that writes `k` bytes into a fresh pipe nobody reads. */
  lemma {:induction false} FillRun(buf: seq<Byte>, b: Byte, k: nat) returns (ss: seq<State>, es: seq<Event>)
    requires |buf| == PIPE_BUFFER_SIZE && k <= PIPE_BUFFER_SIZE
    ensures IsRun(ss, es) && ss[0] == Fresh(buf)
    ensures var s := ss[|es|];
      Inv(s) && s.len == k && s.reader && s.writer && !s.rAsleep && (s.blocked <==> k == PIPE_BUFFER_SIZE)
    decreases k
  {
    hide Content;
    if k == 0 {
      ss, es := [Fresh(buf)], [];
      FreshInv(buf);
    } else {
      ss, es := FillRun(buf, b, k - 1);
      StoreInv(ss[|es|], b);
      ss, es := ExtendRun(ss, es, StoreEvent(b));
      hide IsRun, Inv;
    }
  }

  lemma FreshInv(buf: seq<Byte>)
    requires |buf| == PIPE_BUFFER_SIZE
    ensures Inv(Fresh(buf))
  {}

  /** Such a state is reachable: fill the pipe, and close the read end. */
  lemma BlockedReachable(buf: seq<Byte>, b: Byte) returns (ss: seq<State>, es: seq<Event>)
    requires |buf| == PIPE_BUFFER_SIZE
    ensures IsRun(ss, es) && ss[0] == Fresh(buf) && Inv(ss[|es|])
    ensures ss[|es|].blocked && ss[|es|].len == PIPE_BUFFER_SIZE && !ss[|es|].reader
  {
    ss, es := FillRun(buf, b, PIPE_BUFFER_SIZE);
    StepInv(ss[|es|], CloseReaderEvent);
    ss, es := ExtendRun(ss, es, CloseReaderEvent);
    hide IsRun, Inv;
  }

  /** A blocked writer can go on, in some run, iff the read end is open or there is space already. */
  lemma UnblocksIff(s: State)
    requires Inv(s) && s.blocked
    ensures (exists ss: seq<State>, es: seq<Event> :: IsRun(ss, es) && ss[0] == s && !ss[|es|].blocked) <==>
      s.reader || s.len < PIPE_BUFFER_SIZE
  {
    if s.reader || s.len < PIPE_BUFFER_SIZE {
      var ss, es := UnblockRun(s);
    } else {
      forall ss: seq<State>, es: seq<Event> | IsRun(ss, es) && ss[0] == s ensures ss[|es|].blocked {
        BlockedForever(ss, es);
      }
    }
  }

  /** It takes one byte read, if none is free, and a second look. */
  lemma UnblockRun(s: State) returns (ss: seq<State>, es: seq<Event>)
    requires Inv(s) && s.blocked && (s.reader || s.len < PIPE_BUFFER_SIZE)
    ensures IsRun(ss, es) && ss[0] == s && !ss[|es|].blocked
  {
    hide Content;
    ss, es := [s], [];
    if s.len == PIPE_BUFFER_SIZE {
      TakeInv(s);
      ss, es := ExtendRun(ss, es, TakeEvent);
    }
    ss, es := ExtendRun(ss, es, ResumeEvent);
  }

  /** While the read end is open, neither end sleeps for ever: a full pipe can be read, and an empty one
      that is still open can be written. */
  lemma NobodyStuck(s: State, b: Byte)
    requires Inv(s) && s.reader
    ensures s.wAsleep ==> Enabled(s, TakeEvent) && !Take(s).wAsleep
    ensures s.rAsleep && !s.blocked ==> Enabled(s, StoreEvent(b)) && !Store(s, b).rAsleep
    ensures s.rAsleep && s.blocked ==> Enabled(s, ResumeEvent) && !Resume(s).rAsleep
  {}

  // ---------- whole calls ----------

  /** The turns of pipe_write's loop from byte `i` on, until it blocks or ends. */
  function WriteSection(s: State, data: seq<Byte>, i: nat): (r: (State, nat))
    requires |s.buf| == PIPE_BUFFER_SIZE && s.w < RING && i <= |data|
    decreases |data| - i
  {
    if i == |data| || !s.reader then (s, i)
    else
      var t := Store(s, data[i]);
      if t.blocked then (t, i) else WriteSection(t, data, i + 1)
  }

  /** The turns of pipe_read's loop until it has `n` bytes, or sleeps, or finds the pipe closed. */
  function ReadSection(s: State, n: nat, got: seq<Byte>): (State, seq<Byte>)
    requires |s.buf| == PIPE_BUFFER_SIZE && s.r < RING && |got| <= n
    decreases n - |got|
  {
    if |got| == n then (s, got)
    else if s.len == 0 then (if s.writer then s.(rAsleep := true) else s, got)
    else ReadSection(Take(s), n, got + [s.buf[s.r]])
  }

  /** From `s` to `t` exactly the bytes `q` were written, and all fitted. */
  ghost predicate Wrote(s: State, t: State, q: seq<Byte>) {
    && !t.blocked && t.reader == s.reader && t.writer == s.writer && t.len == s.len + |q| && t.read == s.read
    && t.stream == s.stream + q && t.written == s.written + q
  }

  lemma StoreFits(s: State, b: Byte)
    requires Wf(s) && !s.blocked && s.len < RING
    ensures Wrote(s, Store(s, b), [b])
  {}

  lemma WroteNothing(s: State)
    requires !s.blocked
    ensures Wrote(s, s, [])
  {}

  lemma WroteBoth(s: State, t: State, u: State, p: seq<Byte>, q: seq<Byte>)
    requires Wrote(s, t, p) && Wrote(t, u, q)
    ensures Wrote(s, u, p + q)
  {
    assert s.stream + p + q == s.stream + (p + q) && s.written + p + q == s.written + (p + q);
  }

  lemma InvWf(s: State)
    requires Inv(s)
    ensures Wf(s) && |s.buf| == PIPE_BUFFER_SIZE && (!s.blocked ==> s.w < RING)
  {}

  /** A write that fits stores all its bytes behind the unread ones and does not block. */
  lemma {:induction false} WriteFits(s: State, data: seq<Byte>, i: nat)
    requires Inv(s) && s.reader && s.writer && !s.blocked && i <= |data| && s.len + (|data| - i) <= RING
    ensures var (t, count) := WriteSection(s, data, i);
      Inv(t) && count == |data| && Wrote(s, t, data[i..])
    decreases |data| - i
  {
    hide Inv, Wf, Put, Settle;
    InvWf(s);
    if i < |data| {
      var t := Store(s, data[i]);
      StoreInv(s, data[i]);
      StoreFits(s, data[i]);
      InvWf(t);
      WriteFits(t, data, i + 1);
      WroteBoth(s, t, WriteSection(t, data, i + 1).0, [data[i]], data[i + 1..]);
      assert data[i..] == [data[i]] + data[i + 1..];
    } else {
      WroteNothing(s);
    }
  }

  /** However long the data, a write stores them in order until they are all stored, or until the buffer is
      full; then it blocks on the byte just stored. */
  lemma {:induction false} WriteStores(s: State, data: seq<Byte>, i: nat)
    requires Inv(s) && s.reader && s.writer && !s.blocked && i <= |data|
    ensures s.w < RING && |s.buf| == PIPE_BUFFER_SIZE
    ensures var (t, count) := WriteSection(s, data, i); var room := PIPE_BUFFER_SIZE - s.len;
      && Inv(t) && t.reader && t.writer && t.read == s.read
      && (|data| - i < room ==> count == |data| && !t.blocked && t.written == s.written + data[i..])
      && (|data| - i >= room ==> count == i + room - 1 && t.blocked && t.wAsleep && t.len == PIPE_BUFFER_SIZE
                                 && t.written == s.written + data[i..i + room])
    decreases |data| - i
  {
    InvWf(s);
    InvLen(s);
    hide Inv, Wf, Put, Settle;
    if i < |data| {
      var t := Store(s, data[i]);
      StoreInv(s, data[i]);
      StoreEffect(s, data[i]);
      if t.blocked {
        assert data[i..i + 1] == [data[i]];
      } else {
        InvWf(t);
        WriteStores(t, data, i + 1);
        AppendSome(s.written, data, i, Min(|data|, i + PIPE_BUFFER_SIZE - s.len));
        hide WriteSection;
      }
    } else {
      assert data[i..] == [] && s.written + [] == s.written;
    }
  }

  lemma InvLen(s: State)
    requires Inv(s) && !s.blocked
    ensures s.len < PIPE_BUFFER_SIZE
  {}

  lemma AppendSome(q: seq<Byte>, data: seq<Byte>, i: nat, j: nat)
    requires i < j <= |data|
    ensures q + [data[i]] + data[i + 1..j] == q + data[i..j] && data[..|data|] == data
    ensures data[i + 1..] == data[i + 1..|data|] && data[i..] == data[i..|data|]
  {
    assert data[i..j] == [data[i]] + data[i + 1..j];
  }

  /** With the read end closed a write stores nothing more. */
  lemma WriteStops(s: State, data: seq<Byte>, i: nat)
    requires Inv(s) && !s.reader && !s.blocked && i <= |data|
    ensures s.w < RING && |s.buf| == PIPE_BUFFER_SIZE && WriteSection(s, data, i) == (s, i)
  {
    InvWf(s);
  }

  /** A read takes the oldest unread bytes, as many as it asks for or as there are, and then sleeps only
      if it wants more and the write end is open. */
  lemma {:induction false} ReadTakes(s: State, n: nat, got: seq<Byte>)
    requires Inv(s) && |got| <= n && !s.rAsleep
    ensures var (t, out) := ReadSection(s, n, got);
      && var taken := Content(s.buf, s.r, s.len)[..Min(n - |got|, s.len)];
      && Inv(t) && out == got + taken && t.read == s.read + taken && t.len == s.len - |taken|
      && (t.rAsleep <==> |out| < n && s.writer)
      && t.writer == s.writer && t.stream == s.stream
    decreases n - |got|
  {
    if |got| < n && s.len > 0 {
      TakeInv(s);
      TakeContent(s);
      var t, b := Take(s), s.buf[s.r];
      ReadTakes(t, n, got + [b]);
      ReadJoin(Content(s.buf, s.r, s.len), Content(t.buf, t.r, t.len), b, n - |got|, got, s.read);
      hide Content, Inv;
    } else {
      var c := Content(s.buf, s.r, s.len);
      assert c[..0] == [] && got + [] == got && s.read + [] == s.read;
    }
  }

  lemma ReadJoin(c: seq<Byte>, c': seq<Byte>, b: Byte, n: nat, got: seq<Byte>, read: seq<Byte>)
    requires c == [b] + c' && n > 0
    ensures var m, m' := Min(n, |c|), Min(n - 1, |c'|);
      && m == m' + 1 && got + c[..m] == got + [b] + c'[..m'] && read + c[..m] == read + [b] + c'[..m']
  {
    var m' := Min(n - 1, |c'|);
    assert c[..m' + 1] == [b] + c'[..m'];
  }

  /** What is written into an empty pipe, up to the size of the ring, is read back as it was. */
  lemma RoundTrip(s: State, data: seq<Byte>)
    requires Inv(s) && s.reader && s.writer && !s.blocked && !s.rAsleep && s.len == 0 && |data| <= RING
    ensures var (t, count) := WriteSection(s, data, 0);
      && Wf(t) && count == |data| && ReadSection(t, |data|, []).1 == data
  {
    WriteFits(s, data, 0);
    WriteKeepsAwake(s, data, 0);
    hide Content, WriteSection, ReadSection;
    var (t, count) := WriteSection(s, data, 0);
    ReadTakes(t, |data|, []);
    var c := Content(t.buf, t.r, t.len);
    assert data[0..] == data && s.stream == s.read;
    assert t.read + c == s.read + data && |c| == |data|;
    SameTail(s.read, c, data);
    assert c[..|data|] == data && [] + data == data;
  }

  lemma SameTail(p: seq<Byte>, a: seq<Byte>, b: seq<Byte>)
    requires p + a == p + b
    ensures a == b
  {
    assert a == (p + a)[|p|..] && b == (p + b)[|p|..];
  }

  lemma {:induction false} WriteKeepsAwake(s: State, data: seq<Byte>, i: nat)
    requires Wf(s) && s.w < RING && i <= |data| && !s.rAsleep
    ensures !WriteSection(s, data, i).0.rAsleep
    decreases |data| - i
  {
    if i < |data| && s.reader && !Store(s, data[i]).blocked {
      WriteKeepsAwake(Store(s, data[i]), data, i + 1);
    }
  }

  /** After the write end is closed, reads drain exactly the rest and then return 0, never sleeping. */
  lemma Drain(s: State, n: nat, m: nat)
    requires Inv(s) && !s.writer && s.reader
    ensures var (t, out) := ReadSection(s, n, []);
      && !t.rAsleep && t.read == s.read + out && out <= Content(s.buf, s.r, s.len)
      && (s.len <= n ==> out == Content(s.buf, s.r, s.len) && Wf(t) && ReadSection(t, m, []).1 == [])
  {
    ReadTakes(s, n, []);
    var (t, out) := ReadSection(s, n, []);
    var c := Content(s.buf, s.r, s.len);
    assert [] + c[..Min(n, s.len)] == c[..Min(n, s.len)];
    if s.len <= n {
      assert c[..s.len] == c;
      ReadTakes(t, m, []);
    }
  }
}
