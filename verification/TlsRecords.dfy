/**
 The record layer of the Fake-TLS probe connection (section 5.1 of RFC 8446): framing of written bytes
 and reassembly of read ones. The network under the connection is the bytes it has taken and the bytes
 it still has to deliver; a failed send may have taken any part of a record.
 */
module TlsRecords {
  import opened Options
  import opened Sequences

  type Byte = x: int | 0 <= x < 256

  const CHANGE_CIPHER_SPEC: Byte := 20
  const APPLICATION_DATA: Byte := 23
  const MAX_FRAGMENT := 16384
  const MAX_RECORD := 18432

  function TlsRecord(kind: Byte, p: seq<Byte>): (r: seq<Byte>)
    ensures |r| == 5 + |p|
  {
    [kind, 3, 3, (|p| / 256) % 256, |p| % 256] + p
  }

  datatype Parsed = Got(record: seq<Byte>, rest: seq<Byte>) | Short | Malformed

  /** The first record of a stream, its 5-byte header included. */
  function NextRecord(s: seq<Byte>): (r: Parsed)
    ensures r.Got? ==> r.record + r.rest == s && 5 < |r.record| <= 5 + MAX_RECORD
  {
    if |s| < 5 then Short
    else
      var n: int := s[3] as int * 256 + s[4] as int;
      if s[1] != 3 || s[2] != 3 || n == 0 || n > MAX_RECORD then Malformed
      else if |s| < 5 + n then Short
      else Got(s[..5 + n], s[5 + n..])
  }

  /**
   What is taken as a record is exactly a header of the version 3.3 with a length of 1 to 18432, and as many bytes
   behind it.
   */
  lemma NextRecordIff(s: seq<Byte>, record: seq<Byte>, rest: seq<Byte>)
    ensures NextRecord(s) == Got(record, rest) <==>
              && s == record + rest && 5 < |record| <= 5 + 18432 && record[1] == 3 && record[2] == 3
              && record[3] as int * 256 + record[4] as int == |record| - 5
  {
    if s == record + rest && 5 < |record| {
      assert forall i :: 0 <= i < 5 ==> s[i] == record[i];
      assert s[..|record|] == record && s[|record|..] == rest;
    }
  }

  /** What is refused as one whatever follows: another version, or a length of none or more than 18432 bytes. */
  lemma MalformedIff(s: seq<Byte>)
    ensures NextRecord(s) == Malformed <==>
              |s| >= 5 && (s[1] != 3 || s[2] != 3 || !(1 <= s[3] as int * 256 + s[4] as int <= 18432))
  {
  }

  function FragmentLength(p: seq<Byte>): nat {
    if |p| > MAX_FRAGMENT then MAX_FRAGMENT else |p|
  }

  /** The records one Write puts on the wire after the leading change-cipher-spec. */
  function Records(p: seq<Byte>): seq<Byte>
    decreases |p|
  {
    if p == [] then []
    else var k := FragmentLength(p); TlsRecord(APPLICATION_DATA, p[..k]) + Records(p[k..])
  }

  /** The first record is as full as can be, and the rest are the records of what is left. */
  lemma RecordsAreFull(p: seq<Byte>)
    requires p != []
    ensures var k := if |p| < 16384 then |p| else 16384;
            && NextRecord(Records(p)).Got? && NextRecord(Records(p)).record[5..] == p[..k]
            && NextRecord(Records(p)).rest == Records(p[k..])
  {
    var k := FragmentLength(p);
    RecordIsRead(APPLICATION_DATA, p[..k], Records(p[k..]));
  }

  function Concat(parts: seq<seq<Byte>>): seq<Byte> {
    if parts == [] then [] else parts[0] + Concat(parts[1..])
  }

  /** What a sequence of Writes puts on a fresh connection. */
  function Wire(writes: seq<seq<Byte>>): seq<Byte> {
    if writes == [] then [] else TlsRecord(CHANGE_CIPHER_SPEC, [1]) + AllRecords(writes)
  }

  function AllRecords(writes: seq<seq<Byte>>): seq<Byte> {
    if writes == [] then [] else Records(writes[0]) + AllRecords(writes[1..])
  }

  /** The stream is application-data records with payloads of 1 to `limit` bytes, and nothing else. */
  predicate Framed(s: seq<Byte>, limit: nat)
    decreases |s|
  {
    s == [] || match NextRecord(s) {
      case Got(record, rest) => record[0] == 23 && |record| - 5 <= limit && Framed(rest, limit)
      case _ => false
    }
  }

  /** The payloads of the leading application-data records. */
  function Payload(s: seq<Byte>): seq<Byte>
    decreases |s|
  {
    match NextRecord(s)
    case Got(record, rest) => if record[0] == APPLICATION_DATA then record[5..] + Payload(rest) else []
    case _ => []
  }

  // ---- framing -----------------------------------------------------------------------------

  lemma RecordIsRead(kind: Byte, p: seq<Byte>, rest: seq<Byte>)
    requires 1 <= |p| <= MAX_FRAGMENT
    ensures NextRecord(TlsRecord(kind, p) + rest) == Got(TlsRecord(kind, p), rest)
    ensures TlsRecord(kind, p)[5..] == p
  {
    var s := TlsRecord(kind, p) + rest;
    assert s[3] as int * 256 + s[4] as int == |p|;
    assert s[..5 + |p|] == TlsRecord(kind, p) && s[5 + |p|..] == rest;
  }

  /** A data record in front of a stream adds its payload in front of the stream's. */
  lemma RecordInFront(p: seq<Byte>, rest: seq<Byte>)
    requires 1 <= |p| <= MAX_FRAGMENT
    ensures Payload(TlsRecord(APPLICATION_DATA, p) + rest) == p + Payload(rest)
    ensures Framed(rest, MAX_FRAGMENT) ==> Framed(TlsRecord(APPLICATION_DATA, p) + rest, MAX_FRAGMENT)
  {
    RecordIsRead(APPLICATION_DATA, p, rest);
  }

  lemma FragmentFirst(p: seq<Byte>, rest: seq<Byte>)
    requires p != []
    ensures var k := FragmentLength(p);
            Records(p) + rest == TlsRecord(APPLICATION_DATA, p[..k]) + (Records(p[k..]) + rest)
  {
    var k := FragmentLength(p);
    Regroup(TlsRecord(APPLICATION_DATA, p[..k]), Records(p[k..]), rest);
  }

  lemma {:induction false} RecordsFramed(p: seq<Byte>, rest: seq<Byte>)
    requires Framed(rest, MAX_FRAGMENT)
    ensures Framed(Records(p) + rest, MAX_FRAGMENT)
    decreases |p|
  {
    if p == [] {
      assert Records(p) + rest == rest;
    } else {
      var k := FragmentLength(p);
      RecordsFramed(p[k..], rest);
      RecordInFront(p[..k], Records(p[k..]) + rest);
      FragmentFirst(p, rest);
    }
  }

  lemma {:induction false} RecordsPayload(p: seq<Byte>, rest: seq<Byte>)
    ensures Payload(Records(p) + rest) == p + Payload(rest)
    decreases |p|
  {
    if p == [] {
      assert Records(p) + rest == rest;
    } else {
      var k := FragmentLength(p);
      var head, tail := p[..k], p[k..];
      calc {
        Payload(Records(p) + rest);
        { FragmentFirst(p, rest); }
        Payload(TlsRecord(APPLICATION_DATA, head) + (Records(tail) + rest));
        { RecordInFront(head, Records(tail) + rest); }
        head + Payload(Records(tail) + rest);
        { RecordsPayload(tail, rest); }
        head + (tail + Payload(rest));
        { Regroup(head, tail, Payload(rest)); }
        (head + tail) + Payload(rest);
        { assert head + tail == p; }
        p + Payload(rest);
      }
    }
  }

  lemma {:induction false} AllRecordsFramed(writes: seq<seq<Byte>>)
    ensures Framed(AllRecords(writes), MAX_FRAGMENT) && Payload(AllRecords(writes)) == Concat(writes)
  {
    if writes != [] {
      AllRecordsFramed(writes[1..]);
      RecordsFramed(writes[0], AllRecords(writes[1..]));
      RecordsPayload(writes[0], AllRecords(writes[1..]));
    }
  }

  lemma {:induction false} AllRecordsConcat(a: seq<seq<Byte>>, b: seq<seq<Byte>>)
    ensures AllRecords(a + b) == AllRecords(a) + AllRecords(b)
  {
    if a == [] {
      assert a + b == b;
    } else {
      assert (a + b)[1..] == a[1..] + b;
      AllRecordsConcat(a[1..], b);
    }
  }

  lemma WireOneMore(writes: seq<seq<Byte>>, i: nat)
    requires i < |writes|
    ensures Wire(writes[..i + 1])
         == Wire(writes[..i]) + ((if i > 0 then [] else TlsRecord(CHANGE_CIPHER_SPEC, [1])) + Records(writes[i]))
  {
    var before, last := writes[..i], writes[i];
    assert writes[..i + 1] == before + [last];
    AllRecordsConcat(before, [last]);
    assert AllRecords([last]) == Records(last) + AllRecords([]) == Records(last);
    if i > 0 {
      Regroup(TlsRecord(CHANGE_CIPHER_SPEC, [1]), AllRecords(before), Records(last));
      assert [] + Records(last) == Records(last);
    } else {
      assert before == [];
    }
  }

  /**
   Any sequence of Writes is one change-cipher-spec followed by data records of 1 to 16384 bytes that
   the reader accepts, and their payloads are the bytes written.
   */
  lemma WireIsFramed(writes: seq<seq<Byte>>)
    requires writes != []
    ensures NextRecord(Wire(writes)) == Got([20, 3, 3, 0, 1, 1], AllRecords(writes))
    ensures Framed(AllRecords(writes), 16384) && Payload(AllRecords(writes)) == Concat(writes)
  {
    RecordIsRead(CHANGE_CIPHER_SPEC, [1], AllRecords(writes));
    assert TlsRecord(CHANGE_CIPHER_SPEC, [1]) == [20, 3, 3, 0, 1, 1];
    AllRecordsFramed(writes);
  }

  // ---- reassembly --------------------------------------------------------------------------

  datatype Delivery = Data(bytes: seq<Byte>, pending: seq<Byte>, incoming: seq<Byte>) | Failed

  /** One Read into a buffer of `cap` bytes. */
  function Deliver(pending: seq<Byte>, incoming: seq<Byte>, cap: nat): Delivery
    decreases |incoming|
  {
    if pending != [] then
      var n := if cap < |pending| then cap else |pending|;
      Data(pending[..n], pending[n..], incoming)
    else
      match NextRecord(incoming)
      case Got(record, rest) => if record[0] == APPLICATION_DATA then Deliver(record[5..], rest, cap) else Failed
      case _ => Failed
  }

  /** The bytes a sequence of Reads returns until the first that fails. */
  function DeliverAll(pending: seq<Byte>, incoming: seq<Byte>, caps: seq<nat>): seq<Byte>
    decreases |caps|
  {
    if caps == [] then []
    else
      match Deliver(pending, incoming, caps[0])
      case Data(bytes, pending', incoming') => bytes + DeliverAll(pending', incoming', caps[1..])
      case Failed => []
  }

  lemma FramedStep(s: seq<Byte>, limit: nat)
    requires Framed(s, limit) && s != []
    ensures var next := NextRecord(s);
            && next.Got? && next.record[0] == APPLICATION_DATA && next.record[5..] != []
            && Framed(next.rest, limit) && Payload(s) == next.record[5..] + Payload(next.rest)
  {
  }

  /** What is buffered is handed over first. */
  lemma DeliverPending(pending: seq<Byte>, incoming: seq<Byte>, cap: nat)
    requires pending != []
    ensures var d := Deliver(pending, incoming, cap);
            && d.Data? && d.incoming == incoming && d.bytes + d.pending == pending
            && |d.bytes| <= cap && (cap > 0 ==> d.bytes != [])
  {
  }

  /** A Read takes the next bytes off what is left, at least one if there is room and anything left. */
  lemma DeliverTakes(pending: seq<Byte>, incoming: seq<Byte>, cap: nat)
    requires Framed(incoming, 18432)
    ensures Deliver(pending, incoming, cap).Failed? <==> pending + Payload(incoming) == []
    ensures var d := Deliver(pending, incoming, cap);
            d.Data? ==>
              && Framed(d.incoming, 18432)
              && d.bytes + (d.pending + Payload(d.incoming)) == pending + Payload(incoming)
              && |d.bytes| <= cap && (cap > 0 ==> d.bytes != [])
  {
    if pending != [] {
      DeliverPending(pending, incoming, cap);
      var d := Deliver(pending, incoming, cap);
      Regroup(d.bytes, d.pending, Payload(incoming));
    } else if incoming != [] {
      FramedStep(incoming, MAX_RECORD);
      var next := NextRecord(incoming);
      DeliverPending(next.record[5..], next.rest, cap);
      var d := Deliver(next.record[5..], next.rest, cap);
      assert Deliver(pending, incoming, cap) == d;
      Regroup(d.bytes, d.pending, Payload(d.incoming));
      assert pending + Payload(incoming) == Payload(incoming);
    }
  }

  /**
   Reads with room in their buffers return the payload from its start, in order, without a gap or a
   repetition, and all of it once there are as many of them as there are bytes.
   */
  lemma {:induction false} ReadsReturnThePayload(pending: seq<Byte>, incoming: seq<Byte>, caps: seq<nat>)
    requires Framed(incoming, 18432) && forall i :: 0 <= i < |caps| ==> caps[i] > 0
    ensures DeliverAll(pending, incoming, caps) <= pending + Payload(incoming)
    ensures |caps| >= |pending + Payload(incoming)| ==> DeliverAll(pending, incoming, caps) == pending + Payload(incoming)
    decreases |caps|
  {
    if caps != [] {
      DeliverTakes(pending, incoming, caps[0]);
      var d := Deliver(pending, incoming, caps[0]);
      if d.Data? {
        ReadsReturnThePayload(d.pending, d.incoming, caps[1..]);
      }
    }
  }

  lemma {:induction false} FramedWider(s: seq<Byte>, limit: nat, wider: nat)
    requires Framed(s, limit) && limit <= wider
    ensures Framed(s, wider)
    decreases |s|
  {
    if s != [] {
      FramedWider(NextRecord(s).rest, limit, wider);
    }
  }

  /** The round trip: whatever was written is what the Reads return over the data records. */
  lemma RoundTrip(writes: seq<seq<Byte>>, caps: seq<nat>)
    requires forall i :: 0 <= i < |caps| ==> caps[i] > 0
    ensures DeliverAll([], AllRecords(writes), caps) <= Concat(writes)
    ensures |caps| >= |Concat(writes)| ==> DeliverAll([], AllRecords(writes), caps) == Concat(writes)
  {
    AllRecordsFramed(writes);
    FramedWider(AllRecords(writes), MAX_FRAGMENT, MAX_RECORD);
    assert [] + Payload(AllRecords(writes)) == Concat(writes);
    ReadsReturnThePayload([], AllRecords(writes), caps);
  }

  /** The reader refuses the change-cipher-spec itself, so it has to start behind it. */
  lemma LeadingSpecIsRefused(writes: seq<seq<Byte>>, cap: nat)
    requires writes != []
    ensures Deliver([], Wire(writes), cap) == Failed
  {
    WireIsFramed(writes);
  }

  // ---- the connection ----------------------------------------------------------------------

  class FakeTlsConn {
    var pending: seq<Byte>
    var sentCCS: bool
    // The network: what it has taken, and what it still delivers.
    var sent: seq<Byte>
    var incoming: seq<Byte>
    // Sends that failed.
    ghost var faults: nat

    constructor (stream: seq<Byte>)
      ensures pending == [] && !sentCCS && sent == [] && incoming == stream
    {
      pending, sentCCS, sent, incoming, faults := [], false, [], stream, 0;
    }

    /** A send that fails may have taken part of the bytes. */
    method Send(b: seq<Byte>) returns (ok: bool)
      modifies this`sent, this`faults
      ensures faults >= old(faults) && (ok <==> faults == old(faults))
      ensures ok ==> sent == old(sent) + b
      ensures old(sent) <= sent <= old(sent) + b
    {
      ok := *;
      if ok {
        sent := sent + b;
      } else {
        faults := faults + 1;
        var k: int := *;
        if 0 <= k <= |b| {
          sent := sent + b[..k];
        }
      }
    }

    /** Takes the next record off the stream. */
    method ReadTlsRecord() returns (r: Option<seq<Byte>>)
      modifies this`incoming
      ensures NextRecord(old(incoming)).Got? ==>
                r == Some(NextRecord(old(incoming)).record) && incoming == NextRecord(old(incoming)).rest
      ensures !NextRecord(old(incoming)).Got? ==>
                r == None && incoming == if NextRecord(old(incoming)).Short? then [] else old(incoming)[5..]
    {
      if |incoming| < 5 {
        incoming := [];
        return None;
      }
      var h := incoming[..5];
      var n: int := h[3] as int * 256 + h[4] as int;
      if h[1] != 3 || h[2] != 3 || n == 0 || n > MAX_RECORD {
        incoming := incoming[5..];
        return None;
      }
      if |incoming| < 5 + n {
        incoming := [];
        return None;
      }
      r := Some(h + incoming[5..5 + n]);
      assert h + incoming[5..5 + n] == incoming[..5 + n];
      incoming := incoming[5 + n..];
    }

    /**
     A Write that succeeds has put the records of its bytes on the wire, behind the change-cipher-spec
     if that was still due; one that fails has put some beginning of them there and reports no bytes.
     */
    method Write(p: seq<Byte>) returns (n: nat, ok: bool)
      modifies this`sent, this`sentCCS, this`faults
      ensures faults >= old(faults) && (ok <==> faults == old(faults))
      ensures var due := (if old(sentCCS) then [] else TlsRecord(CHANGE_CIPHER_SPEC, [1])) + Records(p);
              && (ok ==> n == |p| && sentCCS && sent == old(sent) + due)
              && (!ok ==> n == 0 && old(sent) <= sent <= old(sent) + due)
    {
      ghost var all := sent + ((if sentCCS then [] else TlsRecord(CHANGE_CIPHER_SPEC, [1])) + Records(p));
      if !sentCCS {
        ok := Send(TlsRecord(CHANGE_CIPHER_SPEC, [1]));
        TornSend(old(sent), TlsRecord(CHANGE_CIPHER_SPEC, [1]), Records(p), sent);
        if !ok {
          return 0, false;
        }
        sentCCS := true;
      }
      var q := p;
      while q != []
        invariant sentCCS && sent + Records(q) == all && old(sent) <= sent && faults == old(faults)
        decreases |q|
      {
        var k := FragmentLength(q);
        ghost var before := sent;
        ok := Send(TlsRecord(APPLICATION_DATA, q[..k]));
        TornSend(before, TlsRecord(APPLICATION_DATA, q[..k]), Records(q[k..]), sent);
        if !ok {
          return 0, false;
        }
        q := q[k..];
      }
      assert sent == all;
      return |p|, true;
    }

    lemma TornSend(before: seq<Byte>, record: seq<Byte>, rest: seq<Byte>, after: seq<Byte>)
      requires before <= after <= before + record
      ensures after <= before + (record + rest)
      ensures (before + record) + rest == before + (record + rest)
    {
      assert (before + record) + rest == before + (record + rest);
    }

    /** A Read delivers like `Deliver`, or fails when that does. */
    method Read(cap: nat) returns (bytes: seq<Byte>, ok: bool)
      modifies this`pending, this`incoming
      ensures var d := Deliver(old(pending), old(incoming), cap);
              && (ok <==> d.Data?)
              && (ok ==> bytes == d.bytes && pending == d.pending && incoming == d.incoming)
              && (!ok ==> bytes == [])
    {
      bytes := [];
      while pending == []
        invariant Deliver(pending, incoming, cap) == Deliver(old(pending), old(incoming), cap)
        decreases |incoming|, if pending == [] then 1 else 0
      {
        ghost var before := incoming;
        var record := ReadTlsRecord();
        if record.None? || record.value[0] != APPLICATION_DATA {
          return [], false;
        }
        pending := record.value[5..];
        assert Deliver([], before, cap) == Deliver(pending, incoming, cap);
      }
      var n := if cap < |pending| then cap else |pending|;
      bytes := pending[..n];
      pending := pending[n..];
      ok := true;
    }

    /** A sequence of Reads, up to the first that fails. */
    method ReadAll(caps: seq<nat>) returns (bytes: seq<Byte>)
      modifies this`pending, this`incoming
      ensures bytes == DeliverAll(old(pending), old(incoming), caps)
    {
      bytes := [];
      for i := 0 to |caps|
        invariant bytes + DeliverAll(pending, incoming, caps[i..]) == DeliverAll(old(pending), old(incoming), caps)
      {
        ghost var rest := DeliverAll(pending, incoming, caps[i..]);
        assert caps[i..][0] == caps[i] && caps[i..][1..] == caps[i + 1..];
        var next, ok := Read(caps[i]);
        if !ok {
          return;
        }
        assert rest == next + DeliverAll(pending, incoming, caps[i + 1..]);
        Regroup(bytes, next, DeliverAll(pending, incoming, caps[i + 1..]));
        bytes := bytes + next;
      }
    }

    /** Any sequence of Writes on a fresh connection: what a peer finds on the wire. */
    method WriteAll(writes: seq<seq<Byte>>) returns (ok: bool)
      requires !sentCCS && sent == []
      modifies this`sent, this`sentCCS, this`faults
      ensures faults >= old(faults) && (ok <==> faults == old(faults))
      ensures ok ==> sent == Wire(writes)
    {
      for i := 0 to |writes|
        invariant sentCCS <==> i > 0
        invariant sent == Wire(writes[..i]) && faults == old(faults)
      {
        var n;
        n, ok := Write(writes[i]);
        if !ok {
          return;
        }
        WireOneMore(writes, i);
      }
      assert writes[..|writes|] == writes;
      ok := true;
    }
  }
}
