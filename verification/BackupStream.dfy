/**
 The zstd-wrapped streams of `src/core/backup_stream.c`.

 libzstd is not part of this model. A frame is its bytes together with the content they decode to, and
 a file that is a concatenation of frames decodes to the concatenation of their contents (section 3 of
 RFC 8878). How many bytes a compressor or decompressor call consumes and produces, how the standard
 library splits writes and reads, and which system calls fail, are arbitrary.
 */
module BackupStream {
  newtype byte = x: int | 0 <= x < 256

  datatype Frame = Frame(bytes: seq<byte>, content: seq<byte>)

  predicate Good(frames: seq<Frame>) { forall k :: 0 <= k < |frames| ==> frames[k].bytes != [] }

  /** The bytes of the first `k` frames, one after the other. */
  ghost function Bytes(frames: seq<Frame>, k: nat): seq<byte>
    requires k <= |frames|
  {
    if k == 0 then [] else Bytes(frames, k - 1) + frames[k - 1].bytes
  }

  /** What the first `k` frames decode to. */
  ghost function Contents(frames: seq<Frame>, k: nat): seq<byte>
    requires k <= |frames|
  {
    if k == 0 then [] else Contents(frames, k - 1) + frames[k - 1].content
  }

  ghost function File(frames: seq<Frame>): seq<byte> { Bytes(frames, |frames|) }

  ghost function Decoded(frames: seq<Frame>): seq<byte> { Contents(frames, |frames|) }

  lemma {:induction false} SameStart(frames: seq<Frame>, more: seq<Frame>, k: nat)
    requires k <= |frames|
    ensures Bytes(frames + more, k) == Bytes(frames, k) && Contents(frames + more, k) == Contents(frames, k)
  {
    if k > 0 {
      SameStart(frames, more, k - 1);
    }
  }

  lemma Snoc(frames: seq<Frame>, f: Frame)
    ensures File(frames + [f]) == File(frames) + f.bytes
    ensures Decoded(frames + [f]) == Decoded(frames) + f.content
  {
    SameStart(frames, [f], |frames|);
  }

  /** The concatenation rule: two files one after the other decode to their two texts one after the other. */
  lemma {:induction false} Concatenation(a: seq<Frame>, b: seq<Frame>)
    ensures File(a + b) == File(a) + File(b) && Decoded(a + b) == Decoded(a) + Decoded(b)
    decreases |b|
  {
    if b == [] {
      assert a + b == a;
    } else {
      var init, last := b[..|b| - 1], b[|b| - 1];
      assert b == init + [last] && a + b == (a + init) + [last];
      Concatenation(a, init);
      Snoc(a + init, last);
      Snoc(init, last);
    }
  }

  lemma {:induction false} BytesGrow(frames: seq<Frame>, a: nat, b: nat)
    requires Good(frames) && a < b <= |frames|
    ensures |Bytes(frames, a)| < |Bytes(frames, b)|
    decreases b
  {
    if a < b - 1 {
      BytesGrow(frames, a, b - 1);
    }
  }

  lemma {:induction false} ContentsGrow(frames: seq<Frame>, a: nat, b: nat)
    requires a <= b <= |frames|
    ensures |Contents(frames, a)| <= |Contents(frames, b)|
    decreases b
  {
    if a < b {
      ContentsGrow(frames, a, b - 1);
    }
  }

  /** A file of `n` bytes ends between two frames. */
  ghost predicate OnBoundary(frames: seq<Frame>, n: nat) { exists k :: 0 <= k <= |frames| && |Bytes(frames, k)| == n }

  lemma InsideFrame(frames: seq<Frame>, k: nat, i: nat)
    requires Good(frames) && k < |frames| && 0 < i < |frames[k].bytes|
    ensures !OnBoundary(frames, |Bytes(frames, k)| + i)
  {
    assert |Bytes(frames, k + 1)| == |Bytes(frames, k)| + |frames[k].bytes|;
    forall d | 0 <= d <= |frames| ensures |Bytes(frames, d)| != |Bytes(frames, k)| + i {
      if d < k { BytesGrow(frames, d, k); }
      if k + 1 < d { BytesGrow(frames, k + 1, d); }
    }
  }

  lemma BoundaryUnique(frames: seq<Frame>, k: nat, d: nat)
    requires Good(frames) && k <= |frames| && d <= |frames| && |Bytes(frames, k)| == |Bytes(frames, d)|
    ensures k == d
  {
    if k < d { BytesGrow(frames, k, d); }
    if d < k { BytesGrow(frames, d, k); }
  }

  // ------------------------------------------------------------------
  // Reading
  // ------------------------------------------------------------------

  ghost predicate TextPoint(frames: seq<Frame>, k: nat, given: nat) {
    k <= |frames| && (given > 0 ==> k < |frames| && given <= |frames[k].content|)
  }

  /** The text of the first `k` frames and `given` bytes of the next one. */
  ghost function Text(frames: seq<Frame>, k: nat, given: nat): seq<byte>
    requires TextPoint(frames, k, given)
  {
    if given == 0 then Contents(frames, k) else Contents(frames, k) + frames[k].content[..given]
  }

  lemma TextGrows(frames: seq<Frame>, k: nat, given: nat, produced: nat)
    requires k < |frames| && given + produced <= |frames[k].content|
    ensures Text(frames, k, given + produced) == Text(frames, k, given) + frames[k].content[given..given + produced]
    ensures given + produced == |frames[k].content| ==> Text(frames, k + 1, 0) == Text(frames, k, given + produced)
  {
    var c := frames[k].content;
    assert c[..given + produced] == c[..given] + c[given..given + produced];
    if given + produced == |c| {
      assert c[..|c|] == c;
    }
  }

  /** The reading half of a stream: `zstream_t` with its decompressor and its raw file. */
  class Reader {
    const frames: seq<Frame>     // what the decompressor finds in the file
    const size: nat              // bytes of the raw file; a truncated file ends before the last frame does
    const intact: nat            // bytes the decompressor accepts; a damaged file has more
    var rawPos: nat              // raw bytes already read into the buffer
    var inSize: nat              // compressed bytes in the buffer
    var inPos: nat               // of which already decoded
    var rawEof: bool
    var frameOpen: bool
    var error: bool
    var frameNo: nat             // decompressor: frames completely decoded
    var taken: nat               // decompressor: bytes consumed of the current frame
    var given: nat               // decompressor: content bytes already produced of the current frame
    ghost var ioFailed: bool

    /** The decompressor stands at the position the consumed bytes give it. */
    ghost predicate Sound()
      reads this
    {
      && Good(frames) && intact <= size && intact <= |File(frames)|
      && rawPos - (inSize - inPos) <= intact
      && frameNo <= |frames| && inPos <= inSize <= rawPos <= size
      && (rawEof ==> rawPos == size)
      && (taken > 0 ==>
           && frameNo < |frames| && taken <= |frames[frameNo].bytes| && given <= |frames[frameNo].content|
           && (taken < |frames[frameNo].bytes| || given < |frames[frameNo].content|))
      && (taken == 0 ==> given == 0)
      && |Bytes(frames, frameNo)| + taken == rawPos - (inSize - inPos)
    }

    ghost predicate Valid()
      reads this
    {
      Sound() && (frameOpen <==> taken > 0) && (ioFailed ==> error)
    }

    /** The file is undamaged and ends between two frames. */
    ghost predicate Complete() { intact == size && OnBoundary(frames, size) }

    /** Everything handed to the caller so far. */
    ghost function Delivered(): seq<byte>
      reads this
      requires Sound()
    {
      Text(frames, frameNo, given)
    }

    constructor (frames: seq<Frame>, size: nat, intact: nat)
      requires Good(frames) && intact <= size && intact <= |File(frames)|
      ensures Valid() && !error && !ioFailed && Delivered() == []
      ensures this.frames == frames && this.size == size && this.intact == intact
    {
      this.frames, this.size, this.intact := frames, size, intact;
      rawPos, inSize, inPos, rawEof, frameOpen, error := 0, 0, 0, false, false, false;
      frameNo, taken, given, ioFailed := 0, 0, 0, false;
    }

    /** `fread` of the raw file: any positive amount up to the buffer size, 0 at the end or on failure. */
    method Fill(cap: nat) returns (got: nat, failed: bool)
      requires Sound() && cap > 0 && inPos == inSize && !rawEof
      modifies this`rawPos, this`inSize, this`inPos, this`ioFailed
      ensures Sound() && inPos == 0 && inSize == got <= cap && rawPos == old(rawPos) + got
      ensures Delivered() == old(Delivered())
      ensures got == 0 ==> failed || rawPos == size
      ensures failed ==> got == 0
      ensures ioFailed == (old(ioFailed) || failed)
    {
      failed := *;
      got := 0;
      if !failed && rawPos < size {
        got :| 0 < got <= cap && rawPos + got <= size;
      }
      rawPos, inSize, inPos := rawPos + got, got, 0;
      ioFailed := ioFailed || failed;
    }

    /** How much of the input in the buffer lies before any damage. */
    method SoundInput() returns (fit: nat)
      requires Sound()
      ensures fit <= inSize - inPos && rawPos - (inSize - inPos) + fit <= intact
      ensures fit == 0 && inPos < inSize ==> intact < size
      ensures fit > 0 && taken == 0 ==> frameNo < |frames|
    {
      var left := inSize - inPos;
      fit := if intact - (rawPos - left) < left then intact - (rawPos - left) else left;
    }

    /**
     One decompressor call: stays within one frame and before any damage, makes progress whenever it has sound input
     to take or content left to flush, produces nothing before a frame's first byte, reports the end of the frame, and
     fails only in front of damage.
     */
    method Decompress(room: nat) returns (out: seq<byte>, consumed: nat, finished: bool, failed: bool)
      requires Sound() && room > 0
      modifies this`inPos, this`frameNo, this`taken, this`given
      ensures Sound() && |out| <= room && inPos == old(inPos) + consumed
      ensures Delivered() == old(Delivered()) + out
      ensures failed ==> intact < size && out == [] && consumed == 0 && taken == old(taken)
      ensures out != [] || consumed > 0 ==> (finished <==> taken == 0)
      ensures out == [] && consumed == 0 && !failed ==>
        && inPos == inSize && taken == old(taken)
        && (taken > 0 ==> taken < |frames[frameNo].bytes|)
    {
      out, consumed, finished, failed := [], 0, false, false;
      var fit := SoundInput();
      if taken == 0 && fit == 0 {
        return out, consumed, finished, inPos < inSize;
      }
      var f := frames[frameNo];
      var produced: nat;
      consumed, produced := Progress(fit, room, f);
      if consumed == 0 && produced == 0 {
        return out, consumed, finished, inPos < inSize;
      }
      out, finished := Advance(consumed, produced);
    }

    /** The decompressor moves on within its frame, and past it when all was taken and flushed. */
    method Advance(consumed: nat, produced: nat) returns (out: seq<byte>, finished: bool)
      requires Sound() && frameNo < |frames| && consumed <= inSize - inPos && taken + consumed > 0
      requires rawPos - (inSize - inPos) + consumed <= intact
      requires taken + consumed <= |frames[frameNo].bytes| && given + produced <= |frames[frameNo].content|
      modifies this`inPos, this`frameNo, this`taken, this`given
      ensures Sound() && |out| == produced && inPos == old(inPos) + consumed
      ensures Delivered() == old(Delivered()) + out && (finished <==> taken == 0)
    {
      var f := frames[frameNo];
      out := f.content[given..given + produced];
      TextGrows(frames, frameNo, given, produced);
      inPos, taken, given := inPos + consumed, taken + consumed, given + produced;
      finished := taken == |f.bytes| && given == |f.content|;
      if finished {
        frameNo, taken, given := frameNo + 1, 0, 0;
      }
    }

    /** What one call takes and gives: any amounts, but not nothing when something can be taken or flushed. */
    method Progress(left: nat, room: nat, f: Frame) returns (consumed: nat, produced: nat)
      requires f.bytes != [] && taken <= |f.bytes| && given <= |f.content| && room > 0
      requires taken == 0 ==> left > 0
      requires taken < |f.bytes| || given < |f.content|
      ensures consumed <= left && taken + consumed <= |f.bytes| && (taken == 0 ==> consumed > 0)
      ensures produced <= room && given + produced <= |f.content|
      ensures consumed == 0 && produced == 0 ==> left == 0 && taken < |f.bytes|
    {
      consumed := if taken == 0 then 1 else 0;
      consumed :| 0 <= consumed <= left && taken + consumed <= |f.bytes| && (taken == 0 ==> consumed > 0);
      produced := 0;
      produced :| produced <= room && given + produced <= |f.content|;
      if consumed == 0 && produced == 0 {
        if left > 0 && taken < |f.bytes| {
          consumed := 1;
        } else if taken == |f.bytes| {
          produced := 1;
        }
      }
    }

    /** Refills the buffer when it is used up; a failed read is an error, an empty one the end of the file. */
    method Refill(cap: nat)
      requires Valid() && cap > 0 && !error
      modifies this
      ensures Valid() && Delivered() == old(Delivered())
      ensures taken == old(taken) && frameNo == old(frameNo)
      ensures error ==> ioFailed
      ensures old(ioFailed) ==> ioFailed
      ensures !error && inPos == inSize ==> rawEof
      ensures rawPos >= old(rawPos) && (old(rawEof) ==> rawEof)
      ensures rawPos == old(rawPos) ==> error || (inPos < inSize && inPos == old(inPos) && inSize == old(inSize)) || rawEof
      ensures rawPos == old(rawPos) && old(rawEof) ==> inPos == old(inPos) && inSize == old(inSize)
    {
      if inPos == inSize && !rawEof {
        var got, failed := Fill(cap);
        if got == 0 {
          if failed {
            error := true;
            return;
          }
          rawEof := true;
        }
      }
    }

    /** One turn of the loop of `zs_read`; `n` is 1 to go on, 0 or -1 to return. */
    method Turn(cap: nat, len: nat) returns (n: int, dst: seq<byte>)
      requires Valid() && cap > 0 && len > 0 && !error
      modifies this
      ensures Valid() && Delivered() == old(Delivered()) + dst && |dst| <= len
      ensures n == 1 || (dst == [] && (n == 0 || n == -1))
      ensures error <==> n == -1
      ensures old(ioFailed) ==> ioFailed
      ensures n == 0 ==> intact == size == |Bytes(frames, frameNo)| && Delivered() == Contents(frames, frameNo)
      ensures n == -1 ==> ioFailed || !Complete()
      ensures n == 1 && dst == [] ==>
        || rawPos > old(rawPos)
        || (rawPos == old(rawPos) && rawEof && !old(rawEof))
        || (rawPos == old(rawPos) && rawEof == old(rawEof) && inSize - inPos < old(inSize - inPos))
    {
      dst := [];
      Refill(cap);
      if error {
        return -1, dst;
      }
      var consumed, finished, failed;
      dst, consumed, finished, failed := Decompress(len);
      if failed {
        error := true;
        return -1, dst;
      }
      n := 1;
      if dst != [] || consumed > 0 {
        frameOpen := !finished;
      } else if inPos == inSize && rawEof {
        if frameOpen {
          error := true;
          InsideFrame(frames, frameNo, taken);
          return -1, dst;
        }
        return 0, dst;
      }
    }

    /**
     `zs_read`: a positive count and that many bytes, 0 at the end of the file between two frames,
     -1 on a read failure, in front of damage, or when the file ends inside a frame.
     */
    method Read(cap: nat, len: nat) returns (n: int, dst: seq<byte>)
      requires Valid() && cap > 0 && len > 0
      modifies this
      ensures Valid() && Delivered() == old(Delivered()) + dst
      ensures n == -1 || n == |dst| <= len
      ensures n == -1 ==> error && dst == []
      ensures n != -1 ==> !error
      ensures n == 0 ==> intact == size == |Bytes(frames, frameNo)| && Delivered() == Contents(frames, frameNo)
      ensures n == -1 && !old(error) ==> ioFailed || !Complete()
      ensures old(error) ==> n == -1
      ensures old(ioFailed) ==> ioFailed
    {
      dst := [];
      if error {
        return -1, dst;
      }
      n := 1;
      while dst == [] && n == 1
        invariant Valid() && (error <==> n == -1) && Delivered() == old(Delivered()) + dst && |dst| <= len
        invariant n == 1 || (dst == [] && (n == 0 || n == -1))
        invariant old(ioFailed) ==> ioFailed
        invariant n == 0 ==> intact == size == |Bytes(frames, frameNo)| && Delivered() == Contents(frames, frameNo)
        invariant n == -1 ==> ioFailed || !Complete()
        decreases dst == [] && n == 1, size - rawPos, !rawEof, inSize - inPos
      {
        n, dst := Turn(cap, len);
      }
      if n == 1 {
        n := |dst|;
      }
    }

    /**
     Reading to the end with any buffer sizes terminates. It ends with 0 exactly when no read failed and the file is
     undamaged and ends between two frames, and has then delivered exactly the contents of those frames.
     */
    method ReadAll(cap: nat) returns (n: int, text: seq<byte>)
      requires Valid() && cap > 0 && !error && !ioFailed && Delivered() == []
      modifies this
      ensures n == 0 || n == -1
      ensures n == 0 <==> !ioFailed && Complete()
      ensures n == 0 ==> forall k :: 0 <= k <= |frames| && |Bytes(frames, k)| == size ==> text == Contents(frames, k)
    {
      n, text := 1, [];
      while n > 0
        invariant Valid() && Delivered() == text && n >= -1
        invariant n >= 0 ==> !error
        invariant n == 0 ==> intact == size == |Bytes(frames, frameNo)| && Delivered() == Contents(frames, frameNo)
        invariant n == -1 ==> ioFailed || !Complete()
        decreases |Decoded(frames)| - |text|, n
      {
        var len: nat :| len > 0;
        var dst;
        n, dst := Read(cap, len);
        DeliveredBound();
        text := text + dst;
      }
      if n == 0 {
        forall k | 0 <= k <= |frames| && |Bytes(frames, k)| == size ensures text == Contents(frames, k) {
          BoundaryUnique(frames, frameNo, k);
        }
      }
    }

    lemma DeliveredBound()
      requires Sound()
      ensures |Delivered()| <= |Decoded(frames)|
    {
      ContentsGrow(frames, frameNo, |frames|);
      if given > 0 {
        ContentsGrow(frames, frameNo + 1, |frames|);
      }
    }
  }

  /** A complete file ends on a boundary, and what must be delivered from it is the whole text. */
  lemma WholeFile(frames: seq<Frame>, k: nat)
    requires Good(frames) && k <= |frames| && |Bytes(frames, k)| == |File(frames)|
    ensures OnBoundary(frames, |File(frames)|) && Contents(frames, k) == Decoded(frames)
  {
    BoundaryUnique(frames, k, |frames|);
  }

  // ------------------------------------------------------------------
  // Writing
  // ------------------------------------------------------------------

  /** The writing half: `zstream_t` with its compressor and raw file, behind a buffered standard stream. */
  class Writer {
    var raw: seq<byte>            // the raw file
    var held: seq<byte>           // what the standard library still retains
    var frameIn: nat              // bytes entrusted to the current frame
    var passed: nat               // frames copied verbatim
    var error: bool
    var backlog: nat              // compressor: output it still keeps back
    var frames: seq<Frame>        // compressor: complete frames in the raw file, with what they hold
    var open: seq<byte>           // compressor: content accepted into the current frame
    var emitted: seq<byte>        // compressor: bytes of the current frame already in the raw file
    ghost var written: seq<byte>  // all bytes written and contents copied, in call order
    ghost var ioFailed: bool      // a compressor call, a write or the closing of the raw file failed

    /**
     The error flag is up exactly when something failed. As long as nothing did: the file is whole frames and a
     started one, which hold everything not still retained.
     */
    ghost predicate Valid()
      reads this
    {
      && (error <==> ioFailed)
      && (!error ==>
        && Good(frames)
        && raw == File(frames) + emitted
        && |open| == frameIn && (frameIn == 0 ==> emitted == [])
        && (passed > 0 <==> frames != []))
    }

    ghost predicate Balanced()
      reads this
    {
      !error ==> Decoded(frames) + open + held == written
    }

    constructor ()
      ensures Valid() && Balanced() && !error && !ioFailed && written == [] && raw == []
    {
      raw, held, frameIn, passed, error, backlog := [], [], 0, 0, false, 0;
      frames, open, emitted, written, ioFailed := [], [], [], [], false;
    }

    /** `fwrite` to the raw file: all of it, or an unknown part and a failure. */
    method WriteRaw(out: seq<byte>) returns (ok: bool)
      modifies this`raw, this`ioFailed
      ensures ok ==> raw == old(raw) + out
      ensures ioFailed == (old(ioFailed) || !ok)
    {
      ok := *;
      if ok {
        raw := raw + out;
      } else {
        var part: nat :| part <= |out|;
        raw := raw + out[..part];
        ioFailed := true;
      }
    }

    /** One compressor call in `continue` mode: takes any amount, gives any output, never stalls for ever. */
    method CompressSome(left: nat) returns (consumed: nat, out: seq<byte>, failed: bool)
      requires left > 0
      modifies this`backlog, this`ioFailed
      ensures consumed <= left && (consumed > 0 || backlog < old(backlog))
      ensures ioFailed == (old(ioFailed) || failed)
    {
      failed, out := *, *;
      ioFailed := ioFailed || failed;
      consumed :| 0 <= consumed <= left;
      if consumed > 0 {
        backlog := *;
      } else if backlog > 0 {
        var less: nat :| less < backlog;
        backlog := less;
      } else {
        consumed := 1;
      }
    }

    /** One compressor call in `end` mode; `remaining` is 0 once the frame is complete, and a complete frame has bytes. */
    method CompressEnd() returns (out: seq<byte>, remaining: nat, failed: bool)
      modifies this`backlog, this`ioFailed
      ensures remaining == backlog && (remaining == 0 || remaining < old(backlog))
      ensures remaining == 0 ==> out != []
      ensures ioFailed == (old(ioFailed) || failed)
    {
      failed, out := *, *;
      ioFailed := ioFailed || failed;
      if backlog > 0 {
        var less: nat :| less < backlog;
        backlog := less;
      }
      remaining := backlog;
      if remaining == 0 && out == [] {
        var last: byte := *;
        out := [last];
      }
    }

    /** `zs_write`: hands `data` to the compressor piece by piece. */
    method ZsWrite(data: seq<byte>) returns (n: int)
      requires Valid()
      modifies this`raw, this`frameIn, this`error, this`backlog, this`open, this`emitted, this`ioFailed
      ensures Valid() && (n == |data| || n == -1) && (n == -1 <==> error)
      ensures old(error) ==> error
      ensures !error ==> open == old(open) + data
    {
      if error {
        return -1;
      }
      frameIn := frameIn + |data|;
      var pos := 0;
      while pos < |data|
        invariant pos <= |data| && !error && !ioFailed
        invariant raw == File(frames) + emitted && open == old(open) + data[..pos]
        invariant frameIn == |old(open)| + |data| && (frameIn == 0 ==> emitted == [])
        decreases |data| - pos, backlog
      {
        var consumed, out, failed := CompressSome(|data| - pos);
        var ok := !failed;
        if ok && out != [] {
          ok := WriteRaw(out);
        }
        if !ok {
          error := true;
          return -1;
        }
        assert (File(frames) + emitted) + out == File(frames) + (emitted + out);
        assert data[..pos + consumed] == data[..pos] + data[pos..pos + consumed];
        emitted := emitted + out;
        open := open + data[pos..pos + consumed];
        pos := pos + consumed;
      }
      assert data[..|data|] == data;
      n := |data|;
    }

    /** `zs_end_frame`: flushes the compressor until the frame is complete. */
    method EndFrame() returns (ok: bool)
      requires Valid() && !error
      modifies this`raw, this`frameIn, this`error, this`backlog, this`frames, this`open, this`emitted, this`ioFailed
      ensures (ok <==> !error) && (error <==> ioFailed)
      ensures ok ==> Good(frames) && raw == File(frames) && Decoded(frames) == old(Decoded(frames) + open) && frames != []
      ensures ok ==> frameIn == 0 && open == [] && emitted == [] && frames[..|frames| - 1] == old(frames)
    {
      var remaining := 1;
      var finished := false;
      while !finished
        invariant !error && !ioFailed && raw == File(frames) + emitted && frames == old(frames) && open == old(open)
        invariant finished ==> emitted != []
        decreases !finished, backlog
      {
        var out, failed;
        out, remaining, failed := CompressEnd();
        var ok1 := !failed;
        if ok1 && out != [] {
          ok1 := WriteRaw(out);
        }
        if !ok1 {
          error := true;
          return false;
        }
        assert (File(frames) + emitted) + out == File(frames) + (emitted + out);
        emitted := emitted + out;
        finished := remaining == 0;
      }
      Snoc(frames, Frame(emitted, open));
      frames := frames + [Frame(emitted, open)];
      frameIn, open, emitted := 0, [], [];
      ok := true;
    }

    /** The standard library hands the first `n` retained bytes to `zs_write`. */
    method HandOver(n: nat) returns (ok: bool)
      requires Valid() && Balanced() && n <= |held|
      modifies this
      ensures Valid() && Balanced() && (ok <==> !error)
      ensures old(error) ==> error
      ensures !error ==> held == old(held)[n..] && written == old(written)
      ensures !error ==> frames == old(frames) && open + held == old(open + held)
    {
      var w := ZsWrite(held[..n]);
      ok := w == n;
      if ok {
        assert held == held[..n] + held[n..];
        held := held[n..];
      }
    }

    /** `fwrite` to the stream: retained, then handed over in whatever pieces the library chooses. */
    method Write(data: seq<byte>) returns (ok: bool)
      requires Valid() && Balanced()
      modifies this
      ensures Valid() && Balanced()
      ensures old(error) ==> error
      ensures !error ==> ok && written == old(written) + data
      ensures !error ==> frames == old(frames) && open + held == old(open + held) + data
    {
      assert !error ==> Decoded(frames) + open + (held + data) == Decoded(frames) + open + held + data;
      assert open + (held + data) == (open + held) + data;
      held, written := held + data, written + data;
      var more := *;
      ok := true;
      while more && held != [] && ok
        invariant Valid() && Balanced() && (old(error) ==> error) && (!ok ==> error)
        invariant !error ==> written == old(written) + data
        invariant !error ==> frames == old(frames) && open + held == old(open + held) + data
        decreases ok, |held|
      {
        var n: nat :| 0 < n <= |held|;
        ok := HandOver(n);
        if error {
          ok := false;
        }
        more := *;
      }
    }

    /** `fflush` of the stream. */
    method Flush() returns (ok: bool)
      requires Valid() && Balanced()
      modifies this
      ensures Valid() && Balanced()
      ensures old(error) ==> error
      ensures !ok ==> error
      ensures !error ==> ok && held == [] && written == old(written)
      ensures !error ==> frames == old(frames) && open == old(open + held)
    {
      ok := true;
      while held != [] && ok
        invariant Valid() && Balanced() && (old(error) ==> error) && (!ok ==> error)
        invariant !error ==> written == old(written)
        invariant !error ==> frames == old(frames) && open + held == old(open + held)
        decreases ok, |held|
      {
        var n: nat :| 0 < n <= |held|;
        ok := HandOver(n);
        if error {
          ok := false;
        }
      }
    }

    /** `backup_stream_write_zstd_frame`: everything written so far first, its frame closed, then the ready frame as it is. */
    method WriteZstdFrame(frame: Frame) returns (r: int)
      requires Valid() && Balanced() && frame.bytes != []
      modifies this
      ensures Valid() && Balanced() && (r == 0 || r == -1)
      ensures old(error) ==> error
      ensures r == -1 <==> error
      ensures r == 0 ==> written == old(written) + frame.content && frameIn == 0 && held == []
      ensures r == 0 ==> frames != [] && frames[|frames| - 1] == frame && raw == File(frames)
      ensures r == 0 ==> |frames| == |old(frames)| + (if old(open + held) == [] then 1 else 2) && old(frames) <= frames
    {
      var flushed := Flush();
      if !flushed || error {
        return -1;
      }
      if frameIn > 0 {
        var ended := EndFrame();
        if !ended {
          return -1;
        }
      }
      assert Decoded(frames) == old(written) && raw == File(frames);
      var ok := WriteRaw(frame.bytes);
      if !ok {
        error := true;
        return -1;
      }
      Snoc(frames, frame);
      passed := passed + 1;
      frames, written := frames + [frame], written + frame.content;
      r := 0;
    }

    /**
     `fclose` of the stream: the library flushes, then `zs_close` ends the started frame (or writes one
     empty frame if the file has none) and closes the raw file. Success means a file of whole frames
     that decodes to everything written, in call order, with no frame more than that needs; it is what every
     stream ends with on which nothing failed.
     */
    method Close() returns (r: int)
      requires Valid() && Balanced()
      modifies this
      ensures r == 0 || r == -1
      ensures r == 0 <==> !ioFailed
      ensures old(ioFailed) ==> ioFailed
      ensures r == 0 ==> old(frames) <= frames
      ensures r == 0 ==> |frames| == |old(frames)| + if old(open + held) == [] && old(frames) != [] then 0 else 1
      ensures r == 0 ==> Good(frames) && frames != [] && raw == File(frames) && Decoded(frames) == old(written)
    {
      var flushed := Flush();
      if !error && (frameIn > 0 || passed == 0) {
        var ended := EndFrame();
      }
      var failed := error;
      var closed := CloseRaw();
      if !closed {
        failed := true;
      }
      r := if failed || !flushed then -1 else 0;
    }

    /** `fclose` of the raw file. */
    method CloseRaw() returns (ok: bool)
      modifies this`ioFailed
      ensures ioFailed == (old(ioFailed) || !ok)
    {
      ok := *;
      ioFailed := ioFailed || !ok;
    }
  }

  /**
   Closing a stream and reading the file back: unless something failed on the stream the closing succeeds, and
   unless the raw file cannot be read it then gives what was written.
   */
  method CloseAndRead(w: Writer, cap: nat) returns (closed: int, n: int, text: seq<byte>, ghost readFailed: bool)
    requires w.Valid() && w.Balanced() && cap > 0
    modifies w
    ensures closed == 0 || closed == -1
    ensures (closed == 0 <==> !w.ioFailed) && (old(w.ioFailed) ==> w.ioFailed)
    ensures closed == 0 ==> (n == 0 <==> !readFailed) && (n == 0 ==> text == old(w.written))
  {
    closed := w.Close();
    n, text, readFailed := -1, [], false;
    if closed == 0 {
      var reader := new Reader(w.frames, |w.raw|, |w.raw|);
      n, text := reader.ReadAll(cap);
      readFailed := reader.ioFailed;
    }
  }
}
