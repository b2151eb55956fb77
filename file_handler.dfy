/** `DefaultFileHandler`: bytes are gathered in a fixed-size buffer and
    written to the file's channel whenever the buffer cannot take more, or on
    request. */
module FileHandlers {
  import opened Common

  /** The length the handler starts counting from: the existing file's length
      when appending, otherwise 0 (the file is deleted first). */
  function InitialSize(existing: Option<seq<byte>>, isAppend: bool): nat
  {
    if isAppend && existing.Some? then |existing.value| else 0
  }

  /** The creation time the handler reports: the existing file's modification
      time when appending to an existing file, otherwise the clock's `now`. */
  function InitialTime(existing: Option<seq<byte>>, isAppend: bool, lastModified: int, now: int): int
  {
    if isAppend && existing.Some? then lastModified else now
  }

  /** `n` zero bytes: what a read finds in the gap a write past the end of a
      file leaves on common file systems (`FileChannel` leaves those bytes
      unspecified). */
  function Zeros(n: nat): (r: seq<byte>)
    ensures |r| == n && forall i :: 0 <= i < n ==> r[i] == 0
  {
    if n == 0 then [] else Zeros(n - 1) + [0]
  }

  /** The file as the constructor is written, once `delivered` has reached
      the channel: the stream is opened without its append flag, which
      truncates the file, and the channel is then positioned at the counted
      length, so the first write leaves a gap of zero bytes in front of it. */
  function AsWrittenFile(existing: Option<seq<byte>>, isAppend: bool, delivered: seq<byte>): seq<byte>
  {
    if delivered == [] then [] else Zeros(InitialSize(existing, isAppend)) + delivered
  }

  /** As written, appending to an existing file loses its contents: before a
      write the file is empty, after one it is as long as the counted length
      plus the bytes delivered, but starts with zero bytes; so it differs from
      the intended file whenever the old file held a non-zero byte. */
  lemma AppendTruncates(existing: Option<seq<byte>>, isAppend: bool, delivered: seq<byte>)
    ensures delivered == [] ==> AsWrittenFile(existing, isAppend, delivered) == []
    ensures delivered != [] ==>
      |AsWrittenFile(existing, isAppend, delivered)| == InitialSize(existing, isAppend) + |delivered|
    ensures delivered != [] ==> forall i :: 0 <= i < InitialSize(existing, isAppend) ==>
      AsWrittenFile(existing, isAppend, delivered)[i] == 0
    ensures isAppend && existing.Some? && (exists i :: 0 <= i < |existing.value| && existing.value[i] != 0) ==>
      AsWrittenFile(existing, isAppend, delivered) != Kept(existing, isAppend) + delivered
  {
    if isAppend && existing.Some? && exists i :: 0 <= i < |existing.value| && existing.value[i] != 0 {
      var i :| 0 <= i < |existing.value| && existing.value[i] != 0;
      var intended := Kept(existing, isAppend) + delivered;
      assert intended[i] == existing.value[i];
      if delivered != [] {
        assert AsWrittenFile(existing, isAppend, delivered)[i] == 0;
      } else {
        assert |intended| > 0;
      }
    }
  }

  /** An existing one-byte file opened for appending: the handler counts one
      byte, and the first byte written lands after a one-byte gap. */
  lemma AppendTruncatesExample()
    ensures InitialSize(Some([7]), true) == 1
    ensures AsWrittenFile(Some([7]), true, [9]) == [0, 9]
    ensures Kept(Some([7]), true) + [9] == [7, 9]
  {
    assert Zeros(1) == [0];
  }

  /** What survives once the channel is opened in append mode, as intended:
      the whole file when appending, nothing otherwise. */
  function Kept(existing: Option<seq<byte>>, isAppend: bool): seq<byte>
  {
    if isAppend && existing.Some? then existing.value else []
  }

  /** The kept contents are exactly as long as the length the handler counts
      from, and are the file itself when appending. */
  lemma KeptMatchesInitialSize(existing: Option<seq<byte>>, isAppend: bool)
    ensures |Kept(existing, isAppend)| == InitialSize(existing, isAppend)
    ensures isAppend && existing.Some? ==> Kept(existing, isAppend) == existing.value
    ensures !isAppend ==> Kept(existing, isAppend) == []
  {
  }

  /** One pass of `write`'s copying loop on a buffer of capacity `cap`
      holding `buf`, with `data` still to copy: the buffers flushed (none, or
      `buf` itself when `data` does not fit in the free space), the buffer
      afterwards, and how many bytes of `data` went into it. */
  function FillStep(cap: nat, buf: seq<byte>, data: seq<byte>): (r: (seq<seq<byte>>, seq<byte>, nat))
    requires |buf| <= cap
    ensures r.2 <= |data| && |r.1| <= cap
    ensures |data| > 0 && cap > 0 ==> r.2 > 0
    ensures r.1 == (if |r.0| == 0 then buf else []) + data[..r.2]
  {
    var flush := |data| > cap - |buf|;
    var kept := if flush then [] else buf;
    var chunk := Min(|data|, cap - |kept|);
    (if flush then [buf] else [], kept + data[..chunk], chunk)
  }

  /** The whole copying loop: every buffer flushed, in order, and what the
      buffer holds at the end. */
  function Fill(cap: nat, buf: seq<byte>, data: seq<byte>): (r: (seq<seq<byte>>, seq<byte>))
    requires |buf| <= cap && (|data| == 0 || cap > 0)
    ensures |r.1| <= cap
    decreases |data|
  {
    if |data| == 0 then ([], buf)
    else
      var s := FillStep(cap, buf, data);
      var rest := Fill(cap, s.1, data[s.2..]);
      (s.0 + rest.0, rest.1)
  }

  /** Copying loses, duplicates and reorders no byte: the bytes flushed,
      followed by those left in the buffer, are the buffer's old contents
      followed by the data. */
  lemma {:induction false} FillConserves(cap: nat, buf: seq<byte>, data: seq<byte>)
    requires |buf| <= cap && (|data| == 0 || cap > 0)
    ensures var r := Fill(cap, buf, data); Flatten(r.0) + r.1 == buf + data
    decreases |data|
  {
    if |data| > 0 {
      var s := FillStep(cap, buf, data);
      var rest := Fill(cap, s.1, data[s.2..]);
      assert Fill(cap, buf, data) == (s.0 + rest.0, rest.1);
      FillConserves(cap, s.1, data[s.2..]);
      FlattenAppend(s.0, rest.0);
      FillStepConserves(cap, buf, data);
      var f, g := Flatten(s.0), Flatten(rest.0);
      AppendAssoc(f, g, rest.1);
      AppendAssoc(f, s.1, data[s.2..]);
      AppendAssoc(buf, data[..s.2], data[s.2..]);
      assert data[..s.2] + data[s.2..] == data;
    } else {
      assert buf + data == buf;
    }
  }

  /** One pass loses, duplicates and reorders no byte either. */
  lemma FillStepConserves(cap: nat, buf: seq<byte>, data: seq<byte>)
    requires |buf| <= cap
    ensures var s := FillStep(cap, buf, data); Flatten(s.0) + s.1 == buf + data[..s.2]
  {
    var s := FillStep(cap, buf, data);
    if |s.0| == 1 {
      assert s.0 == [buf] && s.0[..0] == [];
      assert Flatten(s.0) == buf;
    }
  }

  /** Data that fits in the free space is appended to the buffer, and nothing is flushed. */
  lemma FillFits(cap: nat, buf: seq<byte>, data: seq<byte>)
    requires |buf| <= cap && (|data| == 0 || cap > 0)
    requires |buf| + |data| <= cap
    ensures Fill(cap, buf, data) == ([], buf + data)
  {
    if |data| > 0 {
      var s := FillStep(cap, buf, data);
      assert s.0 == [] && s.2 == |data|;
      assert data[..|data|] == data;
      assert data[|data|..] == [];
      assert s.0 + [] == [];
    } else {
      assert buf + data == buf;
    }
  }

  /** Data that does not fit flushes the old buffer first and then only full
      buffers, and leaves the buffer holding a non-empty tail of the data. */
  lemma {:induction false} FillOverflows(cap: nat, buf: seq<byte>, data: seq<byte>)
    requires |buf| <= cap && cap > 0
    requires |buf| + |data| > cap
    ensures var r := Fill(cap, buf, data);
      |r.0| >= 1 && r.0[0] == buf &&
      (forall j :: 1 <= j < |r.0| ==> |r.0[j]| == cap) &&
      1 <= |r.1| <= |data| && r.1 == data[|data| - |r.1|..]
    decreases |data|
  {
    var s := FillStep(cap, buf, data);
    var rest := Fill(cap, s.1, data[s.2..]);
    if |data| <= cap {
      assert data[|data|..] == [];
      assert data[..|data|] == data;
    } else {
      assert s.1 == data[..cap];
      FillOverflows(cap, s.1, data[s.2..]);
      assert data[s.2..][|data[s.2..]| - |rest.1|..] == data[|data| - |rest.1|..];
    }
  }

  /** What the channel keeps of the flushed buffers `chunks`, the `j`-th of
      them being the channel's `(n + j)`-th write, and how many of those
      writes failed. */
  function Delivered(chunks: seq<seq<byte>>, closed: bool, fails: nat -> bool, n: nat): (seq<byte>, nat)
  {
    DeliveredUpTo(chunks, |chunks|, closed, fails, n)
  }

  /** `Delivered` of the first `k` buffers. */
  function DeliveredUpTo(chunks: seq<seq<byte>>, k: nat, closed: bool, fails: nat -> bool, n: nat): (seq<byte>, nat)
    requires k <= |chunks|
  {
    if k == 0 then ([], 0)
    else
      var init := DeliveredUpTo(chunks, k - 1, closed, fails, n);
      var failed := closed || fails(n + k - 1);
      (init.0 + (if failed then [] else chunks[k - 1]), init.1 + (if failed then 1 else 0))
  }

  /** At most every write fails; a closed channel keeps nothing; without a
      failure the channel keeps every flushed byte, in order. */
  lemma DeliveredFacts(chunks: seq<seq<byte>>, closed: bool, fails: nat -> bool, n: nat)
    ensures var r := Delivered(chunks, closed, fails, n);
      r.1 <= |chunks| && (closed ==> r == ([], |chunks|)) && (r.1 == 0 ==> r.0 == Flatten(chunks))
  {
    DeliveredUpToFacts(chunks, |chunks|, closed, fails, n);
    assert chunks[..|chunks|] == chunks;
  }

  lemma {:induction false} DeliveredUpToFacts(chunks: seq<seq<byte>>, k: nat, closed: bool, fails: nat -> bool, n: nat)
    requires k <= |chunks|
    ensures var r := DeliveredUpTo(chunks, k, closed, fails, n);
      r.1 <= k && (closed ==> r == ([], k)) && (r.1 == 0 ==> r.0 == Flatten(chunks[..k]))
  {
    if k > 0 {
      DeliveredUpToFacts(chunks, k - 1, closed, fails, n);
      var x := DeliveredUpTo(chunks, k - 1, closed, fails, n);
      if closed {
        assert x.0 + [] == [];
      }
      assert chunks[..k][..k - 1] == chunks[..k - 1];
    }
  }

  /** The first `k` writes of `a + b`, for `k` within `a`, are those of `a`. */
  lemma {:induction false} DeliveredUpToPrefix(a: seq<seq<byte>>, b: seq<seq<byte>>, k: nat, closed: bool, fails: nat -> bool, n: nat)
    requires k <= |a|
    ensures DeliveredUpTo(a + b, k, closed, fails, n) == DeliveredUpTo(a, k, closed, fails, n)
  {
    if k > 0 {
      DeliveredUpToPrefix(a, b, k - 1, closed, fails, n);
      assert (a + b)[k - 1] == a[k - 1];
    }
  }

  /** The first `|a| + k` writes of `a + b` are all of `a`, then the first `k` of `b`. */
  lemma {:induction false} DeliveredUpToAppend(a: seq<seq<byte>>, b: seq<seq<byte>>, k: nat, closed: bool, fails: nat -> bool, n: nat)
    requires k <= |b|
    ensures var x, y := Delivered(a, closed, fails, n), DeliveredUpTo(b, k, closed, fails, n + |a|);
      DeliveredUpTo(a + b, |a| + k, closed, fails, n) == (x.0 + y.0, x.1 + y.1)
  {
    var x := Delivered(a, closed, fails, n);
    if k == 0 {
      DeliveredUpToPrefix(a, b, |a|, closed, fails, n);
      assert x.0 + [] == x.0;
    } else {
      DeliveredUpToAppend(a, b, k - 1, closed, fails, n);
      assert (a + b)[|a| + k - 1] == b[k - 1];
      var y := DeliveredUpTo(b, k - 1, closed, fails, n + |a|);
      var last: seq<byte> := if closed || fails(n + |a| + k - 1) then [] else b[k - 1];
      AppendAssoc(x.0, y.0, last);
    }
  }

  /** Delivery of two runs of writes, one after the other. */
  lemma DeliveredAppend(a: seq<seq<byte>>, b: seq<seq<byte>>, closed: bool, fails: nat -> bool, n: nat)
    ensures var x, y := Delivered(a, closed, fails, n), Delivered(b, closed, fails, n + |a|);
      Delivered(a + b, closed, fails, n) == (x.0 + y.0, x.1 + y.1)
  {
    DeliveredUpToAppend(a, b, |b|, closed, fails, n);
  }

  /** What the copying loop changes: the buffered bytes, every byte handed
      to the channel, the number of channel writes, the file, and the number
      of failures reported. */
  datatype Snapshot = Snapshot(buf: seq<byte>, attempted: seq<byte>, flushes: nat, file: seq<byte>, reported: nat)

  /** `flush` on a snapshot: the buffered bytes are one channel write, which
      fails on a closed channel or when `fails` says so. */
  function FlushSpec(h: Snapshot, closed: bool, fails: nat -> bool): Snapshot
  {
    var failed := closed || fails(h.flushes);
    Snapshot([], h.attempted + h.buf, h.flushes + 1,
             if failed then h.file else h.file + h.buf,
             if failed then h.reported + 1 else h.reported)
  }

  /** One pass of the copying loop on a snapshot, and how many bytes it copied. */
  function ChunkSpec(h: Snapshot, cap: nat, closed: bool, fails: nat -> bool, data: seq<byte>): (r: (Snapshot, nat))
    requires |h.buf| <= cap
    ensures |r.0.buf| <= cap && r.1 <= |data|
    ensures |data| > 0 && cap > 0 ==> r.1 > 0
  {
    var h1 := if |data| > cap - |h.buf| then FlushSpec(h, closed, fails) else h;
    var chunk := Min(|data|, cap - |h1.buf|);
    (h1.(buf := h1.buf + data[..chunk]), chunk)
  }

  /** The whole copying loop on a snapshot. */
  function CopySpec(h: Snapshot, cap: nat, closed: bool, fails: nat -> bool, data: seq<byte>): Snapshot
    requires |h.buf| <= cap && (|data| == 0 || cap > 0)
    decreases |data|
  {
    if |data| == 0 then h
    else
      var c := ChunkSpec(h, cap, closed, fails, data);
      CopySpec(c.0, cap, closed, fails, data[c.1..])
  }

  /** The loop's equation, which also holds when there is nothing to copy. */
  lemma CopyUnfold(h: Snapshot, cap: nat, closed: bool, fails: nat -> bool, data: seq<byte>)
    requires |h.buf| <= cap && (|data| == 0 || cap > 0)
    ensures var c := ChunkSpec(h, cap, closed, fails, data);
      CopySpec(h, cap, closed, fails, data) == CopySpec(c.0, cap, closed, fails, data[c.1..])
  {
    if |data| == 0 {
      assert h.buf + data[..0] == h.buf;
      assert data[0..] == data;
    }
  }

  /** One pass changes the snapshot as `FillStep` and `Delivered` say. */
  lemma ChunkMeaning(h: Snapshot, cap: nat, closed: bool, fails: nat -> bool, data: seq<byte>)
    requires |h.buf| <= cap
    ensures var c, s := ChunkSpec(h, cap, closed, fails, data), FillStep(cap, h.buf, data);
      c.1 == s.2 && c.0 == AfterFlushes(h, s.0, s.1, closed, fails)
  {
    var s := FillStep(cap, h.buf, data);
    var d := Delivered(s.0, closed, fails, h.flushes);
    if |data| > cap - |h.buf| {
      assert s.0 == [h.buf];
      assert Flatten(s.0) == h.buf;
      var failed := closed || fails(h.flushes);
      var x := DeliveredUpTo(s.0, 0, closed, fails, h.flushes);
      assert x == ([], 0);
      var kept: seq<byte> := if failed then [] else h.buf;
      assert d == (x.0 + kept, x.1 + (if failed then 1 else 0));
      assert x.0 + kept == kept;
    } else {
      assert s.0 == [] && d == ([], 0);
      assert h.attempted + [] == h.attempted && h.file + [] == h.file;
    }
  }

  /** The snapshot after the buffers `chunks` were flushed from `h`, with
      `buf` left in the buffer. */
  function AfterFlushes(h: Snapshot, chunks: seq<seq<byte>>, buf: seq<byte>, closed: bool, fails: nat -> bool): Snapshot
  {
    var d := Delivered(chunks, closed, fails, h.flushes);
    Snapshot(buf, h.attempted + Flatten(chunks), h.flushes + |chunks|, h.file + d.0, h.reported + d.1)
  }

  /** Flushing `a` and then `b` is flushing `a + b`. */
  lemma AfterFlushesAppend(h: Snapshot, a: seq<seq<byte>>, b: seq<seq<byte>>, mid: seq<byte>, buf: seq<byte>,
                           closed: bool, fails: nat -> bool)
    ensures AfterFlushes(AfterFlushes(h, a, mid, closed, fails), b, buf, closed, fails) ==
            AfterFlushes(h, a + b, buf, closed, fails)
  {
    var d, e := Delivered(a, closed, fails, h.flushes), Delivered(b, closed, fails, h.flushes + |a|);
    FlattenAppend(a, b);
    AppendAssoc(h.attempted, Flatten(a), Flatten(b));
    DeliveredAppend(a, b, closed, fails, h.flushes);
    AppendAssoc(h.file, d.0, e.0);
  }

  /** Flushing keeps the handler's accounting: bytes handed to the channel
      followed by bytes buffered are every byte written, and without a
      failure the file is its original contents followed by every byte handed
      to the channel. */
  lemma CopyKeepsValid(h: Snapshot, chunks: seq<seq<byte>>, buf: seq<byte>, closed: bool, fails: nat -> bool,
                       original: seq<byte>, written: seq<byte>, data: seq<byte>)
    requires h.attempted + h.buf == written && Flatten(chunks) + buf == h.buf + data
    requires h.reported == 0 ==> h.file == original + h.attempted
    ensures var a := AfterFlushes(h, chunks, buf, closed, fails);
      a.attempted + a.buf == written + data && (a.reported == 0 ==> a.file == original + a.attempted)
  {
    AppendAssoc(h.attempted, Flatten(chunks), buf);
    AppendAssoc(h.attempted, h.buf, data);
    DeliveredFacts(chunks, closed, fails, h.flushes);
    AppendAssoc(original, h.attempted, Flatten(chunks));
  }

  /** The copying loop hands the channel the buffers `Fill` flushes, one
      write each, leaves the buffer as `Fill` does, and the file and the
      failures reported are those of `Delivered`. */
  lemma {:induction false} CopyMeaning(h: Snapshot, cap: nat, closed: bool, fails: nat -> bool, data: seq<byte>)
    requires |h.buf| <= cap && (|data| == 0 || cap > 0)
    ensures var f := Fill(cap, h.buf, data);
      CopySpec(h, cap, closed, fails, data) == AfterFlushes(h, f.0, f.1, closed, fails)
    decreases |data|
  {
    if |data| == 0 {
      assert h.attempted + [] == h.attempted && h.file + [] == h.file;
    } else {
      var c, s := ChunkSpec(h, cap, closed, fails, data), FillStep(cap, h.buf, data);
      ChunkMeaning(h, cap, closed, fails, data);
      var rest := data[s.2..];
      assert CopySpec(h, cap, closed, fails, data) == CopySpec(c.0, cap, closed, fails, rest);
      CopyMeaning(c.0, cap, closed, fails, rest);
      var f' := Fill(cap, s.1, rest);
      assert Fill(cap, h.buf, data) == (s.0 + f'.0, f'.1);
      AfterFlushesAppend(h, s.0, f'.0, s.1, f'.1, closed, fails);
    }
  }

  /** `DefaultFileHandler`. `file` is the file's contents; `channelFails(n)`
      says whether the `n`-th channel write fails (a closed channel always
      fails); a failure is reported to the exception handler. */
  class DefaultFileHandler {
    const buffer: array<byte>
    var position: nat
    var size: int
    const initialSize: nat
    const initialTime: int
    var file: seq<byte>
    var closed: bool
    var flushes: nat
    var reported: nat
    const channelFails: nat -> bool
    /** The file's contents when the handler opened it. */
    ghost const original: seq<byte>
    /** Every byte written through the handler. */
    ghost var written: seq<byte>
    /** Every byte a flush handed to the channel, whether or not it got there. */
    ghost var attempted: seq<byte>

    /** Flushed bytes followed by buffered bytes are every byte written; the
        length is the initial length plus every byte written; without a
        failure the file is its original contents followed by every flushed byte. */
    ghost predicate Valid()
      reads this, buffer
    {
      position <= buffer.Length &&
      attempted + buffer[..position] == written &&
      size == initialSize + |written| &&
      FileMatches()
    }

    /** The part of the state the copying loop changes. */
    ghost function Snap(): Snapshot
      requires position <= buffer.Length
      reads this, buffer
    {
      Snapshot(buffer[..position], attempted, flushes, file, reported)
    }

    /** Without a failure the file is its original contents followed by every flushed byte. */
    ghost predicate FileMatches()
      reads this
    {
      reported == 0 ==> file == original + attempted
    }

    /** The constructor, over the existing file (`None` when there is none)
        and its modification time. The channel is opened in append mode, so an
        appended file keeps its contents; `AsWrittenFile` is what the stream
        opened without the append flag leaves instead. */
    constructor (existing: Option<seq<byte>>, isAppend: bool, lastModified: int, now: int,
                 bufferSize: nat, channelFails: nat -> bool)
      ensures Valid() && fresh(buffer)
      ensures buffer.Length == bufferSize && position == 0
      ensures initialSize == InitialSize(existing, isAppend) && size == initialSize
      ensures initialTime == InitialTime(existing, isAppend, lastModified, now)
      ensures file == Kept(existing, isAppend) && original == file
      ensures written == [] && attempted == [] && !closed && flushes == 0 && reported == 0
      ensures this.channelFails == channelFails
    {
      buffer := new byte[bufferSize];
      position := 0;
      initialSize := InitialSize(existing, isAppend);
      size := InitialSize(existing, isAppend);
      initialTime := InitialTime(existing, isAppend, lastModified, now);
      file := Kept(existing, isAppend);
      original := Kept(existing, isAppend);
      closed := false;
      flushes := 0;
      reported := 0;
      this.channelFails := channelFails;
      written := [];
      attempted := [];
    }

    /** `flush`: the buffered bytes go to the channel and the buffer is
        emptied, whether or not the channel write succeeds. */
    method Flush()
      requires position <= buffer.Length
      modifies this
      ensures position == 0 && flushes == old(flushes) + 1
      ensures attempted == old(attempted) + old(buffer[..position])
      ensures closed || channelFails(old(flushes)) ==>
        file == old(file) && reported == old(reported) + 1
      ensures !(closed || channelFails(old(flushes))) ==>
        file == old(file) + old(buffer[..position]) && reported == old(reported)
      ensures closed == old(closed) && size == old(size) && written == old(written)
      ensures old(FileMatches()) ==> FileMatches()
      ensures Snap() == FlushSpec(old(Snap()), closed, channelFails)
    {
      if closed || channelFails(flushes) {
        reported := reported + 1;
      } else {
        file := file + buffer[..position];
      }
      attempted := attempted + buffer[..position];
      flushes := flushes + 1;
      position := 0;
    }

    /** One pass of the copying loop over the bytes `off` up to `end`, as
        `ChunkSpec` describes it. */
    method PutChunk(bytes: seq<byte>, off: int, len: int, ghost end: int) returns (chunk: int)
      requires position <= buffer.Length
      requires 0 <= off && 0 <= len && off + len == end <= |bytes|
      modifies this, buffer
      ensures position <= buffer.Length
      ensures var c := ChunkSpec(old(Snap()), buffer.Length, closed, channelFails, bytes[off..end]);
        Snap() == c.0 && chunk == c.1
      ensures closed == old(closed) && size == old(size) && written == old(written)
    {
      if len > buffer.Length - position {
        Flush();
      }
      chunk := Min(len, buffer.Length - position);
      ghost var before := buffer[..position];
      forall k | 0 <= k < chunk {
        buffer[position + k] := bytes[off + k];
      }
      assert buffer[..position + chunk] == before + bytes[off..off + chunk];
      assert bytes[off..end][..chunk] == bytes[off..off + chunk];
      position := position + chunk;
    }

    /** The copying loop of `write(bytes, offset, length)`, as `CopySpec`
        describes it: a do-while loop, so one pass is made even for no bytes. */
    method CopyChunks(bytes: seq<byte>, offset: int, length: int)
      requires position <= buffer.Length
      requires 0 <= offset && 0 <= length && offset + length <= |bytes|
      requires length == 0 || buffer.Length > 0
      modifies this, buffer
      ensures position <= buffer.Length
      ensures Snap() == CopySpec(old(Snap()), buffer.Length, closed, channelFails, bytes[offset..offset + length])
      ensures closed == old(closed) && size == old(size) && written == old(written)
    {
      ghost var cap := buffer.Length;
      ghost var end := offset + length;
      ghost var rest := bytes[offset..end];
      ghost var h := Snap();
      ghost var target := CopySpec(h, cap, closed, channelFails, rest);
      var off, len := offset, length;
      var more := true;
      while more
        invariant 0 <= len && off + len == end && 0 <= off && rest == bytes[off..end]
        invariant position <= cap && Snap() == h
        invariant !more ==> len == 0
        invariant CopySpec(h, cap, closed, channelFails, rest) == target
        invariant closed == old(closed) && size == old(size) && written == old(written)
        decreases len, if more then 1 else 0
      {
        ghost var c := ChunkSpec(h, cap, closed, channelFails, rest);
        CopyUnfold(h, cap, closed, channelFails, rest);
        var chunk := PutChunk(bytes, off, len, end);
        SliceOfSlice(bytes, off, end, chunk);
        h, rest := c.0, rest[chunk..];
        off := off + chunk;
        len := len - chunk;
        more := len > 0;
      }
    }

    /** `write(bytes, offset, length)`: the length grows by `length` at once,
        and the bytes are copied as `Fill` describes, each buffer flushed being
        one channel write. */
    method WriteRange(bytes: seq<byte>, offset: int, length: int)
      requires Valid()
      requires 0 <= offset && 0 <= length && offset + length <= |bytes|
      requires length == 0 || buffer.Length > 0
      modifies this, buffer
      ensures Valid()
      ensures size == old(size) + length && written == old(written) + bytes[offset..offset + length]
      ensures var f := Fill(buffer.Length, old(buffer[..position]), bytes[offset..offset + length]);
        var d := Delivered(f.0, closed, channelFails, old(flushes));
        buffer[..position] == f.1 && attempted == old(attempted) + Flatten(f.0) &&
        flushes == old(flushes) + |f.0| && file == old(file) + d.0 && reported == old(reported) + d.1
      ensures closed == old(closed)
    {
      ghost var h0, w0 := Snap(), written;
      ghost var data := bytes[offset..offset + length];
      size := size + length;
      CopyChunks(bytes, offset, length);
      CopyMeaning(h0, buffer.Length, closed, channelFails, data);
      ghost var f := Fill(buffer.Length, h0.buf, data);
      assert Snap() == AfterFlushes(h0, f.0, f.1, closed, channelFails);
      FillConserves(buffer.Length, h0.buf, data);
      CopyKeepsValid(h0, f.0, f.1, closed, channelFails, original, w0, data);
      written := written + data;
    }

    /** `write(data)`: `write(data, 0, data.length)`. */
    method Write(data: seq<byte>)
      requires Valid()
      requires |data| == 0 || buffer.Length > 0
      modifies this, buffer
      ensures Valid()
      ensures size == old(size) + |data| && written == old(written) + data
      ensures var f := Fill(buffer.Length, old(buffer[..position]), data);
        var d := Delivered(f.0, closed, channelFails, old(flushes));
        buffer[..position] == f.1 && attempted == old(attempted) + Flatten(f.0) &&
        flushes == old(flushes) + |f.0| && file == old(file) + d.0 && reported == old(reported) + d.1
      ensures closed == old(closed)
    {
      WriteRange(data, 0, |data|);
      assert data[0..|data|] == data;
    }

    /** `close`: flushes, then closes the channel. */
    method Close()
      requires Valid()
      modifies this
      ensures Valid() && closed && position == 0
      ensures flushes == old(flushes) + 1 && size == old(size)
      ensures attempted == old(attempted) + old(buffer[..position]) && written == old(written)
      ensures old(closed) || channelFails(old(flushes)) ==>
        file == old(file) && reported == old(reported) + 1
      ensures !(old(closed) || channelFails(old(flushes))) ==>
        file == old(file) + old(buffer[..position]) && reported == old(reported)
    {
      Flush();
      closed := true;
    }

    /** `length`: the initial length plus every byte written, flushed or not. */
    function Length(): (r: int)
      requires Valid()
      reads this, buffer
      ensures r == initialSize + |written|
    {
      size
    }
  }
}
