/** A reader of DNS messages in the form of sections 4.1.1 to 4.1.4 of RFC 1035, and what it makes of the
    responder's output. */
module DnsMessage {
  import opened Common
  import opened Dns

  datatype Question = Question(name: Name, qtype: nat, qclass: nat)
  datatype Record = Record(name: Name, rtype: nat, rclass: nat, ttl: nat, data: Bytes)
  datatype Message = Message(id: nat, flags: nat, questions: seq<Question>, records: seq<Record>)

  datatype Read<T> = Bad | Good(value: T, end: nat)

  function Left(s: Bytes, pos: nat): nat {
    if pos < |s| then |s| - pos else 0
  }

  /** The name at `pos`: labels, ended by a zero byte or by a pointer to a place before `bound`, where this
      run of labels began. */
  function NameAt(s: Bytes, pos: nat, bound: nat): (r: Read<Name>)
    ensures r.Good? ==> r.end <= |s| && pos < r.end
    decreases bound, Left(s, pos)
  {
    if pos >= |s| then Bad
    else
      var l := s[pos] as nat;
      if l == 0 then Good([], pos + 1)
      else if l < 64 then
        if pos + 1 + l > |s| then Bad
        else
          var r := NameAt(s, pos + 1 + l, bound);
          if r.Good? then Good([s[pos + 1..pos + 1 + l]] + r.value, r.end) else Bad
      else if l >= 192 && pos + 1 < |s| && (l - 192) * 256 + s[pos + 1] as nat < bound then
        var target := (l - 192) * 256 + s[pos + 1] as nat;
        var r := NameAt(s, target, target);
        if r.Good? then Good(r.value, pos + 2) else Bad
      else Bad
  }

  function QuestionAt(s: Bytes, pos: nat): (r: Read<Question>)
    ensures r.Good? ==> r.end <= |s| && pos < r.end
  {
    var n := NameAt(s, pos, pos);
    if n.Bad? || n.end + 4 > |s| then Bad
    else Good(Question(n.value, U16(s, n.end), U16(s, n.end + 2)), n.end + 4)
  }

  function RecordAt(s: Bytes, pos: nat): (r: Read<Record>)
    ensures r.Good? ==> r.end <= |s| && pos < r.end
  {
    var n := NameAt(s, pos, pos);
    if n.Bad? || n.end + 10 > |s| then Bad
    else
      var length := U16(s, n.end + 8);
      var data := n.end + 10;
      if data + length > |s| then Bad
      else
        Good(Record(n.value, U16(s, n.end), U16(s, n.end + 2),
                    U16(s, n.end + 4) * 65536 + U16(s, n.end + 6), s[data..data + length]), data + length)
  }

  function QuestionsAt(s: Bytes, pos: nat, count: nat): Read<seq<Question>>
    decreases count
  {
    if count == 0 then Good([], pos)
    else
      var q := QuestionAt(s, pos);
      if q.Bad? then Bad
      else
        var rest := QuestionsAt(s, q.end, count - 1);
        if rest.Bad? then Bad else Good([q.value] + rest.value, rest.end)
  }

  function RecordsAt(s: Bytes, pos: nat, count: nat): Read<seq<Record>>
    decreases count
  {
    if count == 0 then Good([], pos)
    else
      var r := RecordAt(s, pos);
      if r.Bad? then Bad
      else
        var rest := RecordsAt(s, r.end, count - 1);
        if rest.Bad? then Bad else Good([r.value] + rest.value, rest.end)
  }

  /** A whole message; its three record sections are read as one. */
  function Decode(s: Bytes): Option<Message> {
    if |s| < HEADER then None
    else
      var qs := QuestionsAt(s, HEADER, U16(s, 4));
      if qs.Bad? then None
      else
        var rs := RecordsAt(s, qs.end, U16(s, 6) + U16(s, 8) + U16(s, 10));
        if rs.Bad? || rs.end != |s| then None
        else Some(Message(U16(s, 0), U16(s, 2), qs.value, rs.value))
  }

  // ---------- reading the responder's output ----------

  lemma NameStep(s: Bytes, pos: nat, bound: nat, part: Bytes, v: Name, e: nat)
    requires pos < |s| && 1 <= |part| <= 63 && s[pos] == |part| as Byte && pos + 1 + |part| <= |s|
    requires s[pos + 1..pos + 1 + |part|] == part
    requires NameAt(s, pos + 1 + |part|, bound) == Good(v, e)
    ensures NameAt(s, pos, bound) == Good([part] + v, e)
  {
  }

  /** A buffer that starts with `pre` and one label. */
  lemma LabelAt(s: Bytes, pre: Bytes, part: Bytes, rest: Bytes)
    requires 1 <= |part| <= 63 && s == pre + ([|part| as Byte] + part) + rest
    ensures |pre| < |s| && s[|pre|] == |part| as Byte && |pre| + 1 + |part| <= |s|
    ensures s[|pre| + 1..|pre| + 1 + |part|] == part
  {
  }

  lemma Regroup(pre: Bytes, head: Bytes, tail: Bytes, rest: Bytes)
    ensures pre + (head + tail) + rest == (pre + head) + tail + rest == pre + head + (tail + rest)
    ensures |pre + (head + tail)| == |(pre + head) + tail|
  {
  }

  lemma NameDecoded(pre: Bytes, name: Name, rest: Bytes, bound: nat)
    requires ValidName(name)
    ensures NameAt(pre + EncodeName(name) + rest, |pre|, bound) == Good(name, |pre + EncodeName(name)|)
    decreases |name|, 1
  {
    if name == [] {
      assert (pre + [0] + rest)[|pre|] == 0;
    } else {
      LabelDecoded(pre, name[0], name[1..], rest, bound);
      assert [name[0]] + name[1..] == name;
    }
  }

  lemma {:induction false} LabelDecoded(pre: Bytes, part: Bytes, more: Name, rest: Bytes, bound: nat)
    requires 1 <= |part| <= 63 && ValidName(more)
    ensures var n := [|part| as Byte] + part + EncodeName(more);
            NameAt(pre + n + rest, |pre|, bound) == Good([part] + more, |pre + n|)
    decreases |more| + 1, 0
  {
    var head, tail := [|part| as Byte] + part, EncodeName(more);
    var s, e := pre + (head + tail) + rest, |pre + (head + tail)|;
    Regroup(pre, head, tail, rest);
    NameDecoded(pre + head, more, rest, bound);
    assert |pre + head| == |pre| + 1 + |part|;
    assert NameAt(s, |pre| + 1 + |part|, bound) == Good(more, e);
    LabelAt(s, pre, part, tail + rest);
    NameStep(s, |pre|, bound, part, more, e);
  }

  /** A query: any id and flags, one question, then whatever follows it. */
  function Query(id: Bytes, mid: Bytes, tail: Bytes, name: Name, qtype: nat, qclass: nat, rest: Bytes): Bytes
    requires |id| == 2 && |mid| == 2 && |tail| == 6 && ValidName(name) && qtype < 65536 && qclass < 65536
  {
    id + mid + [0, 1] + tail + EncodeName(name) + U16Bytes(qtype) + U16Bytes(qclass) + rest
  }

  lemma U16RoundTrip(n: nat, s: Bytes, i: nat)
    requires n < 65536 && i + 1 < |s| && s[i..i + 2] == U16Bytes(n)
    ensures U16(s, i) == n
  {
    assert s[i] == s[i..i + 2][0] && s[i + 1] == s[i..i + 2][1];
  }

  lemma {:induction false} QueryShape(id: Bytes, mid: Bytes, tail: Bytes, name: Name, qtype: nat, qclass: nat,
                                      rest: Bytes)
    requires |id| == 2 && |mid| == 2 && |tail| == 6 && ValidName(name) && qtype < 65536 && qclass < 65536
    ensures var q := Query(id, mid, tail, name, qtype, qclass, rest);
            var end := HEADER + |EncodeName(name)|;
            Answerable(q) && Skip(q, HEADER) == end && U16(q, end) == qtype && q[..2] == id
            && QuestionBytes(q, end) == EncodeName(name) + U16Bytes(qtype) + U16Bytes(qclass)
  {
    var q := Query(id, mid, tail, name, qtype, qclass, rest);
    var pre, n := id + mid + [0, 1] + tail, EncodeName(name);
    var end := HEADER + |n|;
    var after := U16Bytes(qtype) + U16Bytes(qclass) + rest;
    assert q == pre + n + after;
    NameSkipped(pre, name, after);
    assert q[4] == 0 && q[5] == 1;
    assert q[end..end + 2] == U16Bytes(qtype);
    U16RoundTrip(qtype, q, end);
    assert q[HEADER..end + 4] == n + U16Bytes(qtype) + U16Bytes(qclass);
  }

  /** A front of twelve bytes, a question and further bytes: the question is read back. */
  lemma QuestionDecoded(h: Bytes, name: Name, qtype: nat, qclass: nat, more: Bytes)
    requires |h| == HEADER && ValidName(name) && qtype < 65536 && qclass < 65536
    ensures var s := h + (EncodeName(name) + U16Bytes(qtype) + U16Bytes(qclass)) + more;
            var end := HEADER + |EncodeName(name)| + 4;
            NameAt(s, HEADER, HEADER) == Good(name, end - 4)
            && QuestionsAt(s, HEADER, 1) == Good([Question(name, qtype, qclass)], end)
  {
    var n := EncodeName(name);
    var s := h + (n + U16Bytes(qtype) + U16Bytes(qclass)) + more;
    var end := HEADER + |n|;
    var after := U16Bytes(qtype) + U16Bytes(qclass) + more;
    assert s == h + n + after;
    NameDecoded(h, name, after, HEADER);
    assert s[end..end + 2] == U16Bytes(qtype) && s[end + 2..end + 4] == U16Bytes(qclass);
    U16RoundTrip(qtype, s, end);
    U16RoundTrip(qclass, s, end + 2);
    assert QuestionsAt(s, end + 4, 0) == Good([], end + 4);
    var one := [Question(name, qtype, qclass)];
    assert one + [] == one;
  }

  /** The answer at the end is read as a record for the question's name. */
  lemma AnswerDecoded(front: Bytes, name: Name, end: nat, ip: Bytes)
    requires |front| > HEADER && |ip| == 4
    requires var s := front + AnswerRecord(ip); NameAt(s, HEADER, HEADER) == Good(name, end)
    ensures var s := front + AnswerRecord(ip);
            RecordsAt(s, |front|, 1) == Good([Record(name, TYPE_A, CLASS_IN, TTL, ip)], |s|)
  {
    var p := |front|;
    var s := front + AnswerRecord(ip);
    assert forall i :: 0 <= i < 12 ==> s[p + i] == RECORD_HEAD[i];
    assert s[p] == RECORD_HEAD[0] && s[p + 1] == RECORD_HEAD[1];
    assert NameAt(s, p, p) == Good(name, p + 2);
    assert s[p + 2] == RECORD_HEAD[2] && s[p + 3] == RECORD_HEAD[3] && s[p + 4] == RECORD_HEAD[4]
           && s[p + 5] == RECORD_HEAD[5] && s[p + 6] == RECORD_HEAD[6] && s[p + 7] == RECORD_HEAD[7]
           && s[p + 8] == RECORD_HEAD[8] && s[p + 9] == RECORD_HEAD[9] && s[p + 10] == RECORD_HEAD[10]
           && s[p + 11] == RECORD_HEAD[11];
    assert s[p + 12..p + 16] == ip;
    assert RecordAt(s, p) == Good(Record(name, TYPE_A, CLASS_IN, TTL, ip), |s|);
    var one := [Record(name, TYPE_A, CLASS_IN, TTL, ip)];
    assert one + [] == one;
  }

  /** Reading the response to any query with one question gives the query's id and question; an A query gets
      exactly one A/IN answer for the queried name with the portal's address, any other type SERVFAIL and no
      record. */
  lemma ResponseDecoded(id: Bytes, mid: Bytes, tail: Bytes, name: Name, qtype: nat,
                                           qclass: nat, rest: Bytes, ip: Bytes)
    requires |id| == 2 && |mid| == 2 && |tail| == 6 && ValidName(name) && qtype < 65536 && qclass < 65536
    requires |ip| == 4
    ensures var q := Query(id, mid, tail, name, qtype, qclass, rest);
            Answerable(q)
            && Decode(Response(q, ip))
               == Some(Message(U16(id, 0), if qtype == 1 then 0x8400 else 0x8402,
                               [Question(name, qtype, qclass)],
                               if qtype == 1 then [Record(name, 1, 1, 60, ip)] else []))
  {
    var q := Query(id, mid, tail, name, qtype, qclass, rest);
    QueryShape(id, mid, tail, name, qtype, qclass, rest);
    PartsDecoded(Header(q, qtype == TYPE_A), id, name, qtype, qclass, ip);
  }

  /** The same for the parts of a response. */
  lemma PartsDecoded(h: Bytes, id: Bytes, name: Name, qtype: nat, qclass: nat, ip: Bytes)
    requires |id| == 2 && ValidName(name) && qtype < 65536 && qclass < 65536 && |ip| == 4
    requires h == id + HeaderTail(qtype == TYPE_A)
    ensures var body := EncodeName(name) + U16Bytes(qtype) + U16Bytes(qclass);
            Decode(h + body + if qtype == TYPE_A then AnswerRecord(ip) else [])
            == Some(Message(U16(id, 0), if qtype == TYPE_A then 0x8400 else 0x8402,
                            [Question(name, qtype, qclass)],
                            if qtype == TYPE_A then [Record(name, TYPE_A, CLASS_IN, TTL, ip)] else []))
  {
    var body := EncodeName(name) + U16Bytes(qtype) + U16Bytes(qclass);
    HeaderFields(h, id, qtype == TYPE_A, body, if qtype == TYPE_A then AnswerRecord(ip) else []);
    if qtype == TYPE_A {
      AnsweredMessage(h, name, qtype, qclass, ip);
    } else {
      RefusedMessage(h, name, qtype, qclass);
    }
  }

  lemma AnsweredMessage(h: Bytes, name: Name, qtype: nat, qclass: nat, ip: Bytes)
    requires |h| == HEADER && ValidName(name) && qtype < 65536 && qclass < 65536 && |ip| == 4
    requires var s := h + (EncodeName(name) + U16Bytes(qtype) + U16Bytes(qclass)) + AnswerRecord(ip);
             U16(s, 4) == 1 && U16(s, 6) == 1 && U16(s, 8) == 0 && U16(s, 10) == 0
    ensures var s := h + (EncodeName(name) + U16Bytes(qtype) + U16Bytes(qclass)) + AnswerRecord(ip);
            Decode(s) == Some(Message(U16(s, 0), U16(s, 2), [Question(name, qtype, qclass)],
                                      [Record(name, TYPE_A, CLASS_IN, TTL, ip)]))
  {
    var body := EncodeName(name) + U16Bytes(qtype) + U16Bytes(qclass);
    QuestionDecoded(h, name, qtype, qclass, AnswerRecord(ip));
    AnswerDecoded(h + body, name, HEADER + |body| - 4, ip);
    Assembled(h + body + AnswerRecord(ip), [Question(name, qtype, qclass)], HEADER + |body|,
              [Record(name, TYPE_A, CLASS_IN, TTL, ip)]);
  }

  lemma RefusedMessage(h: Bytes, name: Name, qtype: nat, qclass: nat)
    requires |h| == HEADER && ValidName(name) && qtype < 65536 && qclass < 65536
    requires var s := h + (EncodeName(name) + U16Bytes(qtype) + U16Bytes(qclass)) + [];
             U16(s, 4) == 1 && U16(s, 6) == 0 && U16(s, 8) == 0 && U16(s, 10) == 0
    ensures var s := h + (EncodeName(name) + U16Bytes(qtype) + U16Bytes(qclass)) + [];
            Decode(s) == Some(Message(U16(s, 0), U16(s, 2), [Question(name, qtype, qclass)], []))
  {
    var body := EncodeName(name) + U16Bytes(qtype) + U16Bytes(qclass);
    QuestionDecoded(h, name, qtype, qclass, []);
    assert RecordsAt(h + body + [], HEADER + |body|, 0) == Good([], HEADER + |body|);
    Assembled(h + body + [], [Question(name, qtype, qclass)], HEADER + |body|, []);
  }

  lemma Assembled(s: Bytes, qs: seq<Question>, end: nat, rs: seq<Record>)
    requires |s| >= HEADER && U16(s, 4) == |qs| && U16(s, 6) == |rs| && U16(s, 8) == 0 && U16(s, 10) == 0
    requires QuestionsAt(s, HEADER, |qs|) == Good(qs, end) && RecordsAt(s, end, |rs|) == Good(rs, |s|)
    ensures Decode(s) == Some(Message(U16(s, 0), U16(s, 2), qs, rs))
  {
    hide QuestionsAt, RecordsAt, U16;
  }

  lemma HeaderFields(h: Bytes, id: Bytes, isA: bool, body: Bytes, more: Bytes)
    requires |id| == 2 && h == id + HeaderTail(isA)
    ensures |h| == HEADER
    ensures var s := h + body + more;
            U16(s, 0) == U16(id, 0) && U16(s, 2) == (if isA then 0x8400 else 0x8402) && U16(s, 4) == 1
            && U16(s, 6) == (if isA then 1 else 0) && U16(s, 8) == 0 && U16(s, 10) == 0
  {
    var s := h + body + more;
    assert forall i :: 0 <= i < 10 ==> s[2 + i] == HeaderTail(isA)[i];
    assert s[0] == id[0] && s[1] == id[1];
  }

  /** The queries that are answered are exactly those of that form. */
  lemma AnswerableIsQuery(q: Bytes)
    requires Answerable(q)
    ensures var end := Skip(q, HEADER);
            var name := Labels(q, HEADER);
            ValidName(name)
            && q == Query(q[..2], q[2..4], q[6..HEADER], name, U16(q, end), U16(q, end + 2), q[end + 4..])
  {
    hide Skip, Labels;
    var end := Skip(q, HEADER);
    SkipsName(q, HEADER);
    assert q[4..6] == [0, 1];
    U16Same(q, end);
    U16Same(q, end + 2);
    Pieces(q, end);
  }

  lemma Pieces(q: Bytes, end: nat)
    requires HEADER <= end && end + 4 <= |q|
    ensures q == q[..2] + q[2..4] + q[4..6] + q[6..HEADER] + q[HEADER..end] + q[end..end + 2] + q[end + 2..end + 4]
                 + q[end + 4..]
  {
  }

  lemma U16Same(s: Bytes, i: nat)
    requires i + 1 < |s|
    ensures U16Bytes(U16(s, i)) == s[i..i + 2]
  {
  }
}
