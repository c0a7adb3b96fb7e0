/**
 The per-session scrollback of windows/ptyhost/manager.go: a fixed array with a
 wrap-around write position.  The class keeps the source's three regimes (still
 filling, exactly full with `head == cap`, wrapped), and its contracts tie them
 to a plain byte log cut to its last `cap` bytes.
 */
module RingBuffers {
  import opened Bytes

  /** The cells of a full ring read from the write position round to just before it. */
  ghost function Rotated(cells: bytes, head: nat): (r: bytes)
    requires head <= |cells|
    ensures |r| == |cells|
  {
    cells[head..] + cells[..head]
  }

  /**
   A write that stays inside `cells[head..]`: `a` is before the head, `old` is
   overwritten by `p`, and `c` is after it.
   */
  lemma RotatePastHead(a: bytes, old': bytes, c: bytes, p: bytes)
    requires |old'| == |p|
    ensures LastN(Rotated(a + old' + c, |a|) + p, |a + old' + c|) == Rotated(a + p + c, |a| + |p|)
  {
    assert Rotated(a + p + c, |a| + |p|) == c + (a + p);
    assert Rotated(a + old' + c, |a|) == old' + c + a;
    assert old' + c + a + p == old' + (c + (a + p));
    LastNOfConcat(old', c + (a + p));
  }

  /**
   A write across the end: `x` replaces `c` up to the end of the cells and `y`
   wraps over `a` at the front, leaving `b` as the oldest surviving bytes.
   */
  lemma RotateAcrossEnd(a: bytes, b: bytes, c: bytes, x: bytes, y: bytes)
    requires |c| == |x| && |a| == |y|
    ensures LastN(Rotated(a + b + c, |a| + |b|) + (x + y), |a + b + c|) == Rotated(y + b + x, |y|)
  {
    assert Rotated(y + b + x, |y|) == b + x + y;
    assert Rotated(a + b + c, |a| + |b|) == c + (a + b);
    assert c + (a + b) + (x + y) == (c + a) + (b + x + y);
    LastNOfConcat(c + a, b + x + y);
  }

  /** The same on cells and head position; a head at the very end is a head at the front. */
  lemma InsideWrite(cells: bytes, head: nat, p: bytes)
    requires head + |p| <= |cells|
    ensures
      var cells', head' := cells[..head] + p + cells[head + |p|..], head + |p|;
      && |cells'| == |cells|
      && LastN(Rotated(cells, head) + p, |cells|) == Rotated(cells', head')
      && (head' == |cells| ==> Rotated(cells', head') == Rotated(cells', 0))
  {
    var a, b, c := cells[..head], cells[head..head + |p|], cells[head + |p|..];
    assert a + b + c == cells;
    RotatePastHead(a, b, c, p);
    hide LastN;
  }

  /** Of a chunk at least as long as the cells, the tail fills them. */
  lemma TailSurvives(cells: bytes, was: bytes, p: bytes)
    requires |p| >= |cells|
    ensures
      var tail := p[|p| - |cells|..];
      && cells[..0] + tail + cells[0 + |tail|..] == tail
      && Rotated(tail, 0) == LastN(was + p, |cells|)
  {
    var k := |p| - |cells|;
    assert was + p == (was + p[..k]) + p[k..];
    LastNOfConcat(was + p[..k], p[k..]);
  }

  /** Overwriting the last part, then the first. */
  lemma SpliceEnds(a: bytes, b: bytes, c: bytes, x: bytes, y: bytes)
    requires |x| == |c| && |y| == |a|
    ensures (a + b + c)[..|a + b|] + x + (a + b + c)[|a + b| + |x|..] == a + b + x
    ensures (a + b + x)[..0] + y + (a + b + x)[|y|..] == y + b + x
  {
    assert (a + b + c)[..|a + b|] == a + b;
    assert (a + b + x)[|a|..] == b + x;
  }

  /** A write across the end, on cells and head position. */
  lemma AcrossWrite(cells: bytes, head: nat, p: bytes)
    requires head <= |cells| && |cells| - head <= |p| <= |cells|
    ensures
      var tail := |cells| - head;
      var once := cells[..head] + p[..tail] + cells[head + |p[..tail]|..];
      var twice := once[..0] + p[tail..] + once[0 + |p[tail..]|..];
      && |once| == |twice| == |cells|
      && LastN(Rotated(cells, head) + p, |cells|) == Rotated(twice, |p| - tail)
  {
    var tail := |cells| - head;
    var k := |p| - tail;
    var a, b, c := cells[..k], cells[k..head], cells[head..];
    var x, y := p[..tail], p[tail..];
    assert a + b + c == cells && x + y == p && |a + b| == head;
    SpliceEnds(a, b, c, x, y);
    RotateAcrossEnd(a, b, c, x, y);
    hide Rotated, LastN;
  }

  class RingBuffer {
    const cap: nat
    const buf: array<byte>  // backing storage; only buf[..len] is in use
    var len: nat            // len(r.buf) of the source slice
    var head: nat           // next write index
    var full: bool          // true once buf has been filled

    ghost predicate Valid()
      reads this, buf
    {
      && buf.Length == cap
      && head <= cap
      && len <= cap
      && (full ==> len == cap && 0 < cap)
      && (!full ==> head == len && (len < cap || cap == 0))
    }

    /** What the buffer holds, oldest byte first. */
    ghost function Contents(): (s: bytes)
      requires Valid()
      reads this, buf
      ensures |s| <= cap
    {
      if full then Rotated(buf[..], head) else buf[..len]
    }

    constructor (cap: nat)
      ensures Valid() && this.cap == cap && fresh(buf)
      ensures Contents() == []
    {
      this.cap := cap;
      this.buf := new byte[cap];
      this.len, this.head, this.full := 0, 0, false;
    }

    /** The builtin `copy(r.buf[at:], src)`. */
    method CopyAt(at: nat, src: bytes)
      requires at + |src| <= buf.Length
      modifies buf
      ensures buf[..] == old(buf[..])[..at] + src + old(buf[..])[at + |src|..]
    {
      ghost var was := buf[..];
      for i := 0 to |src|
        invariant buf[..] == was[..at] + src[..i] + was[at + i..]
      {
        buf[at + i] := src[i];
        assert buf[..] == (was[..at] + src[..i] + was[at + i..])[at + i := src[i]];
      }
    }

    method Write(p: bytes)
      requires Valid()
      modifies this, buf
      ensures Valid()
      ensures Contents() == LastN(old(Contents()) + p, cap)
    {
      if cap == 0 {
        return;
      }
      if !full && len + |p| <= cap {
        CopyAt(len, p);
        len := len + |p|;
        head := len;
        if head == cap {
          full := true;
        }
        assert Contents() == old(Contents()) + p;
        return;
      }
      ghost var was := Contents();
      var rest := p;
      if !full {
        var need := cap - len;
        if need > |p| {
          assert false;  // the source's inner branch: excluded by the test above
        }
        CopyAt(len, p[..need]);
        rest := p[need..];
        len, head, full := cap, 0, true;
        assert Contents() == was + p[..need];
        assert was + p == Contents() + rest;
      }
      assert LastN(Contents() + rest, cap) == LastN(was + p, cap);
      Overwrite(rest);
    }

    /** The wrapped regime: `buf` is exactly `cap` long and `p` goes across `head`. */
    method Overwrite(p: bytes)
      requires Valid() && full
      modifies this, buf
      ensures Valid() && full
      ensures Contents() == LastN(old(Contents()) + p, cap)
    {
      hide Rotated, LastN;
      if |p| >= cap {
        OverwriteAll(p);
        return;
      }
      var tail := cap - head;
      if |p| <= tail {
        OverwriteInside(p);
      } else {
        OverwriteAcross(p);
      }
    }

    method OverwriteAll(p: bytes)
      requires Valid() && full && |p| >= cap
      modifies this, buf
      ensures Valid() && full
      ensures Contents() == LastN(old(Contents()) + p, cap)
    {
      hide Rotated, LastN;
      TailSurvives(buf[..], Contents(), p);
      CopyAt(0, p[|p| - cap..]);
      head := 0;
    }

    method OverwriteInside(p: bytes)
      requires Valid() && full && head + |p| <= cap
      modifies this, buf
      ensures Valid() && full
      ensures Contents() == LastN(old(Contents()) + p, cap)
    {
      hide Rotated, LastN;
      InsideWrite(buf[..], head, p);
      CopyAt(head, p);
      head := head + |p|;
      if head == cap {
        head := 0;
      }
    }

    method OverwriteAcross(p: bytes)
      requires Valid() && full && cap - head < |p| < cap
      modifies this, buf
      ensures Valid() && full
      ensures Contents() == LastN(old(Contents()) + p, cap)
    {
      hide Rotated, LastN;
      var tail := cap - head;
      AcrossWrite(buf[..], head, p);
      CopyAt(head, p[..tail]);
      CopyAt(0, p[tail..]);
      head := |p| - tail;
    }

    method Snapshot() returns (out: bytes)
      requires Valid()
      ensures out == Contents()
    {
      if !full {
        return buf[..len];
      }
      out := buf[head..] + buf[..head];
      assert buf[head..] == buf[..][head..] && buf[..head] == buf[..][..head];
    }
  }

  /** A scrollback of capacity `cap` after writing `chunks` one after the other. */
  ghost function WriteAll(cap: nat, held: bytes, chunks: seq<bytes>): (r: bytes)
    decreases chunks
  {
    if chunks == [] then held else WriteAll(cap, LastN(held + chunks[0], cap), chunks[1..])
  }

  /**
   However the output is cut into writes, what the buffer holds is exactly the
   last `cap` bytes of the whole log.
   */
  lemma {:induction false} RingIsLogTail(cap: nat, log: bytes, chunks: seq<bytes>)
    ensures WriteAll(cap, LastN(log, cap), chunks) == LastN(log + Flatten(chunks), cap)
    decreases chunks
  {
    if chunks == [] {
      assert log + Flatten(chunks) == log;
    } else {
      var c, rest := chunks[0], chunks[1..];
      calc {
        WriteAll(cap, LastN(log, cap), chunks);
        WriteAll(cap, LastN(LastN(log, cap) + c, cap), rest);
        { LastNAppend(log, c, cap); }
        WriteAll(cap, LastN(log + c, cap), rest);
        { RingIsLogTail(cap, log + c, rest); }
        LastN((log + c) + Flatten(rest), cap);
        { assert (log + c) + Flatten(rest) == log + Flatten(chunks); }
        LastN(log + Flatten(chunks), cap);
      }
    }
  }
}
