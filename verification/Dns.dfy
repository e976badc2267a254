/** The captive portal's DNS responder. */
module Dns {
  import opened Common

  const HEADER := 12
  const TYPE_A := 1
  const CLASS_IN := 1
  const TTL := 60
  const RR_SIZE := 16

  type Bytes = seq<Byte>

  function U16(s: Bytes, i: nat): (n: nat)
    requires i + 1 < |s|
    ensures n < 65536
  {
    s[i] as nat * 256 + s[i + 1] as nat
  }

  function U16Bytes(n: nat): Bytes
    requires n < 65536
  {
    [(n / 256) as Byte, (n % 256) as Byte]
  }

  // ---------- names as label sequences (section 4.1.2 of RFC 1035) ----------

  type Name = seq<Bytes>

  predicate ValidName(name: Name) {
    forall i :: 0 <= i < |name| ==> 1 <= |name[i]| <= 63
  }

  function EncodeName(name: Name): (s: Bytes)
    requires ValidName(name)
    ensures |s| > 0
  {
    if name == [] then [0] else [|name[0]| as Byte] + name[0] + EncodeName(name[1..])
  }

  // ---------- skip_qname ----------

  /** The end of the name at `pos`, or -1. */
  function Skip(s: Bytes, pos: nat): (end: int)
    ensures end == -1 || pos < end <= |s|
    decreases if pos < |s| then |s| - pos else 0
  {
    if pos >= |s| then -1
    else
      var l := s[pos] as nat;
      if l == 0 then pos + 1 else if l >= 64 then -1 else Skip(s, pos + 1 + l)
  }

  method SkipQname(buf: array<Byte>, len: nat, start: nat) returns (end: int)
    requires len <= buf.Length
    ensures end == Skip(buf[..len], start)
  {
    var pos := start;
    while pos < len
      invariant Skip(buf[..len], start) == Skip(buf[..len], pos)
      decreases len - pos
    {
      var l := buf[pos];
      pos := pos + 1;
      if l == 0 { return pos; }
      if l as nat >= 64 { return -1; }
      pos := pos + l as nat;
    }
    end := -1;
  }

  /** The labels that are skipped. */
  function Labels(s: Bytes, pos: nat): Name
    requires Skip(s, pos) >= 0
    decreases |s| - pos
  {
    var l := s[pos] as nat;
    if l == 0 then [] else [s[pos + 1..pos + 1 + l]] + Labels(s, pos + 1 + l)
  }

  /** What is skipped is an encoded name. */
  lemma {:induction false} SkipsName(s: Bytes, pos: nat)
    requires Skip(s, pos) >= 0
    ensures var name := Labels(s, pos);
            ValidName(name) && s[pos..Skip(s, pos)] == EncodeName(name)
    decreases |s| - pos
  {
    var l := s[pos] as nat;
    if l > 0 {
      var next := pos + 1 + l;
      SkipsName(s, next);
      var part, rest := s[pos + 1..next], Labels(s, next);
      var name := [part] + rest;
      assert name[0] == part && name[1..] == rest;
      assert s[pos..Skip(s, pos)] == [s[pos]] + part + s[next..Skip(s, next)];
    }
  }

  /** Every encoded name is skipped to its end. */
  lemma {:induction false} NameSkipped(pre: Bytes, name: Name, rest: Bytes)
    requires ValidName(name)
    ensures Skip(pre + EncodeName(name) + rest, |pre|) == |pre + EncodeName(name)|
    decreases |name|
  {
    var s := pre + EncodeName(name) + rest;
    if name != [] {
      var pre' := pre + [|name[0]| as Byte] + name[0];
      NameSkipped(pre', name[1..], rest);
      assert s == pre' + EncodeName(name[1..]) + rest;
      assert s[|pre|] == |name[0]| as Byte;
    } else {
      assert s[|pre|] == 0;
    }
  }

  // ---------- build_response ----------

  function QuestionBytes(q: Bytes, end: nat): Bytes
    requires HEADER <= end && end + 4 <= |q|
  {
    q[HEADER..end + 4]
  }

  function Header(q: Bytes, isA: bool): (h: Bytes)
    requires |q| >= HEADER
    ensures |h| == HEADER
  {
    q[..2] + HeaderTail(isA)
  }

  function AnswerRecord(ip: Bytes): (a: Bytes)
    requires |ip| == 4
    ensures |a| == RR_SIZE
  {
    RECORD_HEAD + ip
  }

  /** The end of the question's name when the query is one that is answered. */
  predicate Answerable(q: Bytes) {
    |q| >= HEADER && U16(q, 4) == 1 && Skip(q, HEADER) >= 0 && Skip(q, HEADER) + 4 <= |q|
  }

  function Response(q: Bytes, ip: Bytes): Bytes
    requires Answerable(q) && |ip| == 4
  {
    var end := Skip(q, HEADER);
    var isA := U16(q, end) == TYPE_A;
    Header(q, isA) + QuestionBytes(q, end) + if isA then AnswerRecord(ip) else []
  }

  method CopyBytes(src: array<Byte>, from: nat, n: nat, dst: array<Byte>, to: nat)
    requires src != dst && from + n <= src.Length && to + n <= dst.Length
    modifies dst
    ensures dst[..] == old(dst[..to]) + src[from..from + n] + old(dst[to + n..])
  {
    for i := 0 to n
      invariant dst[..] == old(dst[..to]) + src[from..from + i] + old(dst[to + i..])
    {
      dst[to + i] := src[from + i];
      assert src[from..from + i + 1] == src[from..from + i] + [src[from + i]];
    }
  }

  /** A refused query leaves the output buffer alone; an answered one fills exactly its front. */
  method BuildResponse(q: array<Byte>, qlen: nat, out: array<Byte>, outcap: nat, ip: array<Byte>)
    returns (total: int)
    requires q != out && ip != out && qlen <= q.Length && outcap <= out.Length && ip.Length == 4
    modifies out
    ensures var query := q[..qlen];
            if Answerable(query) && |Response(query, ip[..])| <= outcap then
              total == |Response(query, ip[..])| && out[..] == Response(query, ip[..]) + old(out[..])[total..]
            else total == -1 && out[..] == old(out[..])
  {
    if qlen < HEADER { return -1; }
    var qdcount := q[4] as nat * 256 + q[5] as nat;
    if qdcount != 1 { return -1; }
    var qend := SkipQname(q, qlen, HEADER);
    if qend < 0 || qend + 4 > qlen { return -1; }
    var qtype := q[qend] as nat * 256 + q[qend + 1] as nat;
    var question := qend + 4 - HEADER;
    var rr := if qtype == TYPE_A then RR_SIZE else 0;
    total := HEADER + question + rr;
    if total > outcap { return -1; }
    WriteResponse(q, question, qtype == TYPE_A, out, ip);
    SliceOfPrefix(q[..], qlen, 0, 2);
    SliceOfPrefix(q[..], qlen, HEADER, HEADER + question);
    assert q[..][..qlen] == q[..qlen];
    assert q[..2] == q[..qlen][..2] && q[HEADER..HEADER + question] == QuestionBytes(q[..qlen], qend);
  }

  lemma SliceOfPrefix(s: Bytes, n: nat, i: nat, j: nat)
    requires i <= j <= n <= |s|
    ensures s[..n][i..j] == s[i..j]
  {
  }

  /** Header, question and, for an A query, the answer. */
  method WriteResponse(q: array<Byte>, question: nat, isA: bool, out: array<Byte>, ip: array<Byte>)
    requires q != out && ip != out && ip.Length == 4 && HEADER + question <= q.Length
    requires HEADER + question + (if isA then RR_SIZE else 0) <= out.Length
    modifies out
    ensures var r := q[..2] + HeaderTail(isA) + q[HEADER..HEADER + question]
                     + if isA then AnswerRecord(ip[..]) else [];
            out[..] == r + old(out[..])[|r|..]
  {
    ghost var was, h, body := out[..], q[..2] + HeaderTail(isA), q[HEADER..HEADER + question];
    FillHeader(q, isA, out);
    CopyBytes(q, HEADER, question, out, HEADER);
    Spliced(out[..], h, body, was);
    if isA {
      FillAnswer(out, HEADER + question, ip);
      Spliced(out[..], h + body, AnswerRecord(ip[..]), was);
    } else {
      assert h + body + [] == h + body;
    }
  }

  /** Writing `b` behind a front `a` of a buffer that held `was`. */
  lemma Spliced(s: Bytes, a: Bytes, b: Bytes, was: Bytes)
    requires |a| + |b| <= |was|
    requires s == (a + was[|a|..])[..|a|] + b + (a + was[|a|..])[|a| + |b|..]
    ensures s == a + b + was[|a| + |b|..]
  {
  }

  function HeaderTail(isA: bool): Bytes {
    [0x84, if isA then 0 else 2, 0, 1, 0, if isA then 1 else 0, 0, 0, 0, 0]
  }

  method FillHeader(q: array<Byte>, isA: bool, out: array<Byte>)
    requires q != out && q.Length >= HEADER && out.Length >= HEADER
    modifies out
    ensures out[..] == q[..2] + HeaderTail(isA) + old(out[HEADER..])
  {
    out[0], out[1], out[2] := q[0], q[1], 0x84;
    out[3] := if isA then 0 else 2;
    out[4], out[5], out[6] := 0, 1, 0;
    out[7] := if isA then 1 else 0;
    out[8], out[9], out[10], out[11] := 0, 0, 0, 0;
    assert out[2..HEADER] == HeaderTail(isA);
    assert out[..2] == q[..2] && out[HEADER..] == old(out[HEADER..]);
  }

  const RECORD_HEAD: Bytes := [0xC0, 0x0C, 0, 1, 0, 1, 0, 0, 0, 60, 0, 4]

  method FillRecordHead(out: array<Byte>, a: nat)
    requires a + 12 <= out.Length
    modifies out
    ensures out[..] == old(out[..a]) + RECORD_HEAD + old(out[a + 12..])
  {
    Put2(out, a, 0xC0, 0x0C);
    Put2(out, a + 2, 0, TYPE_A as Byte);
    Put2(out, a + 4, 0, CLASS_IN as Byte);
    Put2(out, a + 6, 0, 0);
    Put2(out, a + 8, 0, TTL as Byte);
    Put2(out, a + 10, 0, 4);
    assert out[a..a + 12] == RECORD_HEAD;
    Framed(out[..], old(out[..]), a, 12);
  }

  /** A buffer that changed only within `n` places from `a` on. */
  lemma Framed(s: Bytes, was: Bytes, a: nat, n: nat)
    requires |s| == |was| && a + n <= |s|
    requires forall i :: 0 <= i < |s| && !(a <= i < a + n) ==> s[i] == was[i]
    ensures s == was[..a] + s[a..a + n] + was[a + n..]
  {
  }

  method Put2(out: array<Byte>, a: nat, x: Byte, y: Byte)
    requires a + 2 <= out.Length
    modifies out
    ensures forall i :: 0 <= i < out.Length ==> out[i] == if i == a then x else if i == a + 1 then y else old(out[i])
  {
    out[a], out[a + 1] := x, y;
  }

  method FillAnswer(out: array<Byte>, a: nat, ip: array<Byte>)
    requires ip != out && ip.Length == 4 && a + RR_SIZE <= out.Length
    modifies out
    ensures out[..] == old(out[..a]) + AnswerRecord(ip[..]) + old(out[a + RR_SIZE..])
  {
    FillRecordHead(out, a);
    CopyBytes(ip, 0, 4, out, a + 12);
    assert ip[0..4] == ip[..];
  }
}
