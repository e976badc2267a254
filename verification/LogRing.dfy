/** The in-RAM log: a ring buffer that keeps the tail of everything written since the last clear. */
module LogRing {

  const BUF_BYTES := 65536

  /** The last `n` characters, or all of them. */
  function Tail(s: string, n: nat): (t: string)
    ensures |t| == (if n < |s| then n else |s|)
  {
    if n < |s| then s[|s| - n..] else s
  }

  /** A tail of a tail. */
  lemma TailOfTail(s: string, n: nat, m: nat)
    requires m <= n
    ensures Tail(Tail(s, n), m) == Tail(s, m)
  {
  }

  /** Writing more only needs the tail kept so far. */
  lemma TailOfMore(s: string, t: string, n: nat)
    ensures Tail(s + t, n) == Tail(Tail(s, n) + t, n)
  {
  }

  /** All places of the ring from the oldest to the newest, the next one to write first. */
  function Around(b: string, head: nat): string
    requires head <= |b|
  {
    b[head..] + b[..head]
  }

  /** `memcpy` of `src` to place `at`. */
  function Spliced(b: string, at: nat, src: string): (r: string)
    requires at + |src| <= |b|
    ensures |r| == |b|
  {
    b[..at] + src + b[at + |src|..]
  }

  /** Where the write position moves. */
  function Moved(b: string, head: nat, n: nat): (h: nat)
    requires n < |b| && head < |b|
    ensures h < |b|
  {
    if head + n < |b| then head + n else head + n - |b|
  }

  /** Writing fewer characters than the ring holds, in one piece or in two. */
  function Written(b: string, head: nat, src: string): (r: string)
    requires head < |b| && |src| < |b|
    ensures |r| == |b|
  {
    var first := |b| - head;
    if |src| <= first then Spliced(b, head, src)
    else Spliced(Spliced(b, head, src[..first]), 0, src[first..])
  }

  /** It drops the oldest places and appends. */
  lemma WrittenAround(b: string, head: nat, src: string)
    requires head < |b| && |src| < |b|
    ensures Around(Written(b, head, src), Moved(b, head, |src|)) == Around(b, head)[|src|..] + src
  {
    var first := |b| - head;
    if |src| > first {
      WrittenTwice(b, head, src[..first], src[first..]);
      assert src[..first] + src[first..] == src;
    }
  }

  lemma WrittenTwice(b: string, head: nat, x: string, y: string)
    requires head + |x| == |b| && |y| < head
    ensures Around(Spliced(Spliced(b, head, x), 0, y), |y|) == Around(b, head)[|x + y|..] + (x + y)
  {
    var once := Spliced(b, head, x);
    assert once == b[..head] + x;
    assert Spliced(once, 0, y) == y + b[|y|..head] + x;
  }

  /** What is read into `out`, in one piece or in two. */
  function ReadInto(b: string, head: nat, take: nat, out: string): string
    requires head < |b| && take <= |b| && take <= |out|
  {
    var start := if head < take then head + |b| - take else head - take;
    var first := |b| - start;
    if take <= first then Spliced(out, 0, b[start..start + take])
    else Spliced(Spliced(out, 0, b[start..start + first]), first, b[0..take - first])
  }

  lemma AroundTail(b: string, head: nat, take: nat)
    requires head < |b| && take <= |b|
    ensures Tail(Around(b, head), take)
            == if head < take then b[head + |b| - take..] + b[..head] else b[head - take..head]
  {
  }

  lemma ReadIsTail(b: string, head: nat, take: nat, out: string)
    requires head < |b| && take <= |b| && take <= |out|
    ensures var r := ReadInto(b, head, take, out);
            r[..take] == Tail(Around(b, head), take) && r[take..] == out[take..]
  {
    hide Around, Tail;
    var start := if head < take then head + |b| - take else head - take;
    var first := |b| - start;
    var t := Tail(Around(b, head), take);
    AroundTail(b, head, take);
    if take <= first {
      assert t == b[start..start + take];
      assert Spliced(out, 0, t) == t + out[take..];
    } else {
      assert t == b[start..start + first] + b[0..take - first];
      SplicedTwice(out, b[start..start + first], b[0..take - first]);
    }
  }

  lemma SplicedTwice(out: string, x: string, y: string)
    requires |x| + |y| <= |out|
    ensures Spliced(Spliced(out, 0, x), |x|, y) == x + y + out[|x| + |y|..]
  {
    assert Spliced(out, 0, x) == x + out[|x|..];
  }

  /** Of the ring's last places so many are in use. */
  lemma TailGrows(around: string, used: nat, src: string)
    requires used <= |around|
    ensures |src| < |around| ==>
            var size := |around|;
            Tail(around[|src|..] + src, if used + |src| > size then size else used + |src|)
            == Tail(Tail(around, used) + src, size)
  {
    var size := |around|;
    if |src| < size {
      var more := around[|src|..] + src;
      assert more == (around + src)[|src|..];
      if used + |src| <= size {
        assert Tail(more, used + |src|) == (around + src)[size - used..] == Tail(around, used) + src;
      } else {
        assert Tail(around, used) + src == (around + src)[size - used..];
      }
    }
  }

  class Ring {
    const buf: array<char>
    var head: nat
    var used: nat
    /** Everything written since the last clear. */
    ghost var stream: string

    ghost predicate Valid()
      reads this, buf
    {
      buf.Length == BUF_BYTES && head < BUF_BYTES && used <= BUF_BYTES && Held() == Tail(stream, 65536)
    }

    /** The `used` characters that end at `head`, going backward around the ring. */
    ghost function Held(): (s: string)
      reads this, buf
      requires buf.Length == BUF_BYTES && head < BUF_BYTES && used <= BUF_BYTES
    {
      Tail(Around(buf[..], head), used)
    }

    constructor ()
      ensures Valid() && fresh(buf) && stream == ""
    {
      buf := new char[BUF_BYTES];
      head, used, stream := 0, 0, "";
    }

    method CopyIn(src: string, at: nat)
      requires at + |src| <= buf.Length
      modifies buf
      ensures buf[..] == Spliced(old(buf[..]), at, src)
    {
      for i := 0 to |src|
        invariant buf[..] == old(buf[..at]) + src[..i] + old(buf[at + i..])
      {
        buf[at + i] := src[i];
      }
    }

    /** `buf_write`. */
    method Write(src: string)
      requires Valid()
      modifies this`head, this`used, this`stream, buf
      ensures Valid() && stream == old(stream) + src
    {
      var n := |src|;
      if n == 0 {
        assert stream + src == stream;
        stream := stream + src;
        return;
      }
      TailOfMore(stream, src, BUF_BYTES);
      TailGrows(Around(buf[..], head), used, src);
      if n >= BUF_BYTES {
        WriteLong(src);
      } else {
        WriteShort(src);
      }
      stream := stream + src;
    }

    method WriteLong(src: string)
      requires buf.Length == BUF_BYTES <= |src|
      modifies this`head, this`used, buf
      ensures head == 0 && used == BUF_BYTES && Around(buf[..], head) == Tail(src, BUF_BYTES)
    {
      CopyIn(src[|src| - BUF_BYTES..], 0);
      head, used := 0, BUF_BYTES;
      assert buf[..] == src[|src| - BUF_BYTES..];
    }

    method WriteShort(src: string)
      requires buf.Length == BUF_BYTES && head < BUF_BYTES && used <= BUF_BYTES && 0 < |src| < BUF_BYTES
      modifies this`head, this`used, buf
      ensures head < BUF_BYTES && Around(buf[..], head) == Around(old(buf[..]), old(head))[|src|..] + src
      ensures used == if old(used) + |src| > BUF_BYTES then BUF_BYTES else old(used) + |src|
    {
      hide Spliced, Around;
      var n, first := |src|, BUF_BYTES - head;
      WrittenAround(buf[..], head, src);
      if n <= first {
        CopyIn(src, head);
      } else {
        CopyIn(src[..first], head);
        CopyIn(src[first..], 0);
      }
      head := (head + n) % BUF_BYTES;
      used := if used + n > BUF_BYTES then BUF_BYTES else used + n;
    }

    /** `dd_log_read_tail` into a buffer of `cap` characters. */
    method ReadTail(out: array<char>, cap: nat) returns (take: nat)
      requires Valid() && out != buf && cap <= out.Length
      modifies out
      ensures Valid() && take == |Tail(stream, if cap < 65536 then cap else 65536)|
      ensures out[..take] == Tail(stream, if cap < 65536 then cap else 65536)
      ensures out[take..] == old(out[take..])
    {
      if cap == 0 { return 0; }
      TailOfTail(stream, BUF_BYTES, if cap < BUF_BYTES then cap else BUF_BYTES);
      take := if used < cap then used else cap;
      TailOfTail(Around(buf[..], head), used, take);
      ReadIsTail(buf[..], head, take, out[..]);
      CopyTail(out, take);
    }

    method CopyTail(out: array<char>, take: nat)
      requires buf.Length == BUF_BYTES && head < BUF_BYTES && out != buf && take <= BUF_BYTES && take <= out.Length
      modifies out
      ensures out[..] == ReadInto(buf[..], head, take, old(out[..]))
    {
      hide Spliced;
      var start := (head + BUF_BYTES - take) % BUF_BYTES;
      assert start == if head < take then head + BUF_BYTES - take else head - take;
      ghost var b, was := buf[..], out[..];
      var first := BUF_BYTES - start;
      if take <= first {
        CopyOut(start, take, out, 0);
      } else {
        CopyOut(start, first, out, 0);
        assert out[..] == Spliced(was, 0, b[start..start + first]);
        CopyOut(0, take - first, out, first);
        assert out[..] == Spliced(Spliced(was, 0, b[start..start + first]), first, b[0..take - first]);
      }
    }

    method CopyOut(from: nat, n: nat, out: array<char>, at: nat)
      requires out != buf && from + n <= buf.Length && at + n <= out.Length
      modifies out
      ensures out[..] == Spliced(old(out[..]), at, buf[..][from..from + n])
    {
      for i := 0 to n
        invariant out[..] == old(out[..at]) + buf[from..from + i] + old(out[at + i..])
      {
        out[at + i] := buf[from + i];
      }
    }

    method Clear()
      requires Valid()
      modifies this`head, this`used, this`stream
      ensures Valid() && stream == ""
    {
      head, used, stream := 0, 0, "";
    }
  }
}
