/** A response writer that buffers JSON to compress it, and passes everything else through without losing or
    reordering a byte. */
module CompressWriter {
  import opened Options

  const MAX_BUFFERED: nat := 0x20_0000
  const MIN_COMPRESS: nat := 1024
  const STATUS_OK: int := 200

  type Bytes = seq<bv8>

  /** The two encoders, and what the client does with the result. */
  datatype Codec = Codec(encode: (string, Bytes) -> Bytes, decode: (string, Bytes) -> Bytes, json: string -> bool)

  ghost predicate Lossless(c: Codec) {
    forall e, b {:trigger c.encode(e, b)} :: c.decode(e, c.encode(e, b)) == b
  }

  /** What a handler does with its response. */
  datatype Op = SetType(contentType: string) | WriteHeader(code: int) | Write(data: Bytes) | Flush

  // ---------- what a sequence of calls means ----------

  /** Everything written, in order. */
  ghost function All(ops: seq<Op>): Bytes {
    if ops == [] then []
    else if ops[|ops| - 1].Write? then All(ops[..|ops| - 1]) + ops[|ops| - 1].data
    else All(ops[..|ops| - 1])
  }

  /** The status of the first call that starts the response. */
  ghost function FirstStatus(ops: seq<Op>): Option<int> {
    if ops == [] then None
    else
      var before, op := FirstStatus(ops[..|ops| - 1]), ops[|ops| - 1];
      if before.Some? || op.SetType? then before else if op.WriteHeader? then Some(op.code) else Some(STATUS_OK)
  }

  ghost function CurrentType(ops: seq<Op>): string {
    if ops == [] then ""
    else if ops[|ops| - 1].SetType? then ops[|ops| - 1].contentType else CurrentType(ops[..|ops| - 1])
  }

  /** The content type when the response started. */
  ghost function StartType(ops: seq<Op>): string {
    if ops == [] then ""
    else if FirstStatus(ops[..|ops| - 1]).Some? then StartType(ops[..|ops| - 1]) else CurrentType(ops)
  }

  predicate Starts(op: Op) { !op.SetType? }

  function LastType(ops: seq<Op>): string {
    if ops != [] && ops[|ops| - 1].SetType? then ops[|ops| - 1].contentType else ""
  }

  /** The first call that starts the response decides its status, and the last type set until then its type; calls that
      follow change neither. */
  lemma {:induction false} StartDecides(before: seq<Op>, op: Op, rest: seq<Op>)
    requires Starts(op) && forall i :: 0 <= i < |before| ==> !Starts(before[i])
    ensures var ops := before + [op] + rest;
      && FirstStatus(ops) == Some(if op.WriteHeader? then op.code else 200)
      && StartType(ops) == LastType(before)
  {
    if rest == [] {
      assert before + [op] + rest == before + [op];
      TypesOnly(before);
      OneMore(before, op);
    } else {
      var front, last := before + [op] + rest[..|rest| - 1], rest[|rest| - 1];
      StartDecides(before, op, rest[..|rest| - 1]);
      OneMore(front, last);
      assert before + [op] + rest == front + [last];
    }
  }

  lemma {:induction false} TypesOnly(ops: seq<Op>)
    requires forall i :: 0 <= i < |ops| ==> !Starts(ops[i])
    ensures FirstStatus(ops) == None && All(ops) == [] && CurrentType(ops) == LastType(ops)
  {
    if ops != [] { TypesOnly(ops[..|ops| - 1]); }
  }

  /** Everything written, in order: call by call. */
  lemma {:induction false} AllJoins(a: seq<Op>, b: seq<Op>)
    ensures All(a + b) == All(a) + All(b)
  {
    if b == [] {
      assert a + b == a;
    } else {
      AllJoins(a, b[..|b| - 1]);
      assert (a + b)[..|a + b| - 1] == a + b[..|b| - 1];
    }
  }

  lemma AllOfWrite(data: Bytes)
    ensures All([Write(data)]) == data && All([Flush]) == [] && All([]) == []
  {
    assert [Write(data)][..0] == [] && [Flush][..0] == [];
  }

  ghost predicate Streams(c: Codec, ops: seq<Op>) {
    FirstStatus(ops).Some? && (!c.json(StartType(ops)) || Flush in ops || |All(ops)| > MAX_BUFFERED)
  }

  lemma StreamsIs(c: Codec, ops: seq<Op>)
    ensures FirstStatus(ops).Some? ==> (!Streams(c, ops) <==> c.json(StartType(ops)) && Flush !in ops && |All(ops)| <= MAX_BUFFERED)
  {
  }

  lemma OneMore(ops: seq<Op>, op: Op)
    ensures All(ops + [op]) == if op.Write? then All(ops) + op.data else All(ops)
    ensures FirstStatus(ops + [op]) == if FirstStatus(ops).Some? || op.SetType? then FirstStatus(ops)
                                       else if op.WriteHeader? then Some(op.code) else Some(STATUS_OK)
    ensures CurrentType(ops + [op]) == if op.SetType? then op.contentType else CurrentType(ops)
    ensures StartType(ops + [op]) == if FirstStatus(ops).Some? then StartType(ops) else CurrentType(ops + [op])
    ensures Flush in ops + [op] <==> Flush in ops || op.Flush?
  {
    assert (ops + [op])[..|ops|] == ops;
  }

  /** What one more call changes about streaming. */
  lemma StreamsMore(c: Codec, ops: seq<Op>, op: Op)
    ensures FirstStatus(ops).Some? ==>
      (Streams(c, ops + [op]) <==> Streams(c, ops) || op.Flush? || (op.Write? && |All(ops)| + |op.data| > MAX_BUFFERED))
    ensures FirstStatus(ops).None? ==> All(ops) == []
    ensures FirstStatus(ops).None? && !op.SetType? ==>
      (Streams(c, ops + [op]) <==> !c.json(CurrentType(ops)) || op.Flush? || (op.Write? && |op.data| > MAX_BUFFERED))
    ensures FirstStatus(ops).None? ==> !Streams(c, ops)
    ensures op.SetType? ==> (Streams(c, ops + [op]) <==> Streams(c, ops))
  {
    OneMore(ops, op);
    hide All, FirstStatus, CurrentType, StartType;
    if FirstStatus(ops).None? { NothingWritten(ops); }
  }

  // ---------- the connection ----------

  /** What the client receives; `headers` counts the status lines sent. */
  class Conn {
    var contentType: string
    var status: Option<int>
    var encoding: string
    var body: Bytes
    var headers: nat

    constructor ()
      ensures contentType == "" && status == None && encoding == "" && body == [] && headers == 0
    {
      contentType, status, encoding, body, headers := "", None, "", [], 0;
    }

    method SendHeader(code: int)
      modifies this`status, this`headers
      ensures headers == old(headers) + 1 && status == if old(status).Some? then old(status) else Some(code)
    {
      headers := headers + 1;
      if status.None? { status := Some(code); }
    }

    method Send(data: Bytes)
      modifies this`status, this`headers, this`body
      ensures body == old(body) + data
      ensures if old(status).Some? then status == old(status) && headers == old(headers) else status == Some(STATUS_OK) && headers == old(headers) + 1
    {
      if status.None? { SendHeader(STATUS_OK); }
      body := body + data;
    }
  }

  class Writer {
    const conn: Conn
    const c: Codec
    const negotiated: string
    var buffer: Bytes
    var contentType: string
    var handlerStatus: int
    var wroteHeader: bool
    var emitted: bool
    var forceRaw: bool

    constructor (conn: Conn, c: Codec, negotiated: string)
      requires conn.contentType == "" && conn.status == None && conn.encoding == "" && conn.body == [] && conn.headers == 0
      ensures this.conn == conn && this.c == c && this.negotiated == negotiated && After([])
    {
      this.conn, this.c, this.negotiated := conn, c, negotiated;
      buffer, contentType, handlerStatus, wroteHeader, emitted, forceRaw := [], "", STATUS_OK, false, false, false;
    }

    /** The state after these calls: nothing is lost, reordered, sent twice, or buffered beyond the cap. */
    ghost predicate After(ops: seq<Op>)
      reads this, conn
    {
      && |buffer| <= MAX_BUFFERED
      && conn.body + buffer == All(ops)
      && conn.contentType == CurrentType(ops)
      && (wroteHeader <==> FirstStatus(ops).Some?)
      && (wroteHeader ==> FirstStatus(ops) == Some(handlerStatus) && contentType == StartType(ops))
      && (forceRaw <==> Streams(c, ops))
      && (forceRaw ==> buffer == [])
      && (emitted ==> forceRaw)
      && conn.encoding == ""
      && (if emitted then conn.status == Some(handlerStatus) && conn.headers == 1 else conn.status == None && conn.headers == 0 && conn.body == [])
    }

    method SetType(contentType: string, ghost ops: seq<Op>)
      requires After(ops)
      modifies conn`contentType
      ensures After(ops + [Op.SetType(contentType)])
    {
      hide All, FirstStatus, StartType, CurrentType, Streams;
      OneMore(ops, Op.SetType(contentType));
      StreamsMore(c, ops, Op.SetType(contentType));
      conn.contentType := contentType;
    }

    /** The common start of every call that begins the response. */
    method Start(code: int)
      modifies this`wroteHeader, this`handlerStatus, this`contentType, this`forceRaw
      ensures wroteHeader
      ensures old(wroteHeader) ==> handlerStatus == old(handlerStatus) && contentType == old(contentType) && forceRaw == old(forceRaw)
      ensures !old(wroteHeader) ==> handlerStatus == code && contentType == conn.contentType && forceRaw == (old(forceRaw) || !c.json(contentType))
    {
      if wroteHeader { return; }
      wroteHeader := true;
      handlerStatus := code;
      contentType := conn.contentType;
      if !c.json(contentType) { forceRaw := true; }
    }

    method EmitRaw()
      requires !emitted ==> conn.status == None
      modifies this`emitted, conn`status, conn`headers
      ensures emitted
      ensures if old(emitted) then conn.status == old(conn.status) && conn.headers == old(conn.headers)
              else conn.status == Some(handlerStatus) && conn.headers == old(conn.headers) + 1
    {
      if emitted { return; }
      emitted := true;
      conn.SendHeader(handlerStatus);
    }

    method WriteHeader(code: int, ghost ops: seq<Op>)
      requires After(ops)
      modifies this
      ensures After(ops + [Op.WriteHeader(code)])
    {
      hide All, FirstStatus, StartType, CurrentType, Streams;
      OneMore(ops, Op.WriteHeader(code));
      StreamsMore(c, ops, Op.WriteHeader(code));
      Start(code);
    }

    method Write(data: Bytes, ghost ops: seq<Op>)
      requires After(ops)
      modifies this, conn
      ensures After(ops + [Op.Write(data)])
      ensures !c.json(StartType(ops + [Op.Write(data)])) || |All(ops + [Op.Write(data)])| > MAX_BUFFERED ==> conn.body == All(ops + [Op.Write(data)])
    {
      hide All, FirstStatus, StartType, CurrentType, Streams;
      OneMore(ops, Op.Write(data));
      StreamsMore(c, ops, Op.Write(data));
      StreamsIs(c, ops + [Op.Write(data)]);
      assert conn.body + buffer + data == All(ops + [Op.Write(data)]);
      if !wroteHeader { Start(STATUS_OK); }
      if forceRaw {
        EmitRaw();
        conn.Send(data);
        assert conn.body + buffer == conn.body && old(conn.body) + old(buffer) == old(conn.body);
        return;
      }
      if |buffer| + |data| > MAX_BUFFERED {
        forceRaw := true;
        EmitRaw();
        conn.Send(buffer);
        buffer := [];
        conn.Send(data);
        return;
      }
      buffer := buffer + data;
    }

    method Flush(ghost ops: seq<Op>)
      requires After(ops)
      modifies this, conn
      ensures After(ops + [Op.Flush]) && conn.body == All(ops)
    {
      hide All, FirstStatus, StartType, CurrentType, Streams;
      OneMore(ops, Op.Flush);
      StreamsMore(c, ops, Op.Flush);
      if !wroteHeader { Start(STATUS_OK); }
      forceRaw := true;
      EmitRaw();
      if |buffer| > 0 {
        conn.Send(buffer);
        buffer := [];
      }
    }

    /**
     * The client decodes exactly what the handler wrote, under the first status; the body is compressed if and only
     * if it is JSON of a worthwhile size that was never streamed, and then nothing was sent before.
     */
    method Finish(ghost ops: seq<Op>)
      requires After(ops) && Lossless(c)
      modifies this, conn
      ensures conn.headers <= 1 && conn.status == FirstStatus(ops)
      ensures Received(c, conn.encoding, conn.body) == All(ops)
      ensures conn.encoding != "" <==> negotiated != "" && FirstStatus(ops).Some? && !Streams(c, ops) && |All(ops)| >= MIN_COMPRESS
      ensures conn.encoding != "" ==> conn.encoding == negotiated && conn.body == c.encode(negotiated, All(ops)) && old(conn.body) == []
    {
      hide All, FirstStatus, StartType, CurrentType;
      assert !wroteHeader ==> !Streams(c, ops);
      if !wroteHeader {
        NothingWritten(ops);
        return;
      }
      assert forceRaw ==> conn.body + buffer == conn.body;
      if forceRaw {
        EmitRaw();
        return;
      }
      var body := buffer;
      assert conn.body == [] && conn.body + body == body;
      if negotiated == "" || |body| < MIN_COMPRESS || !c.json(contentType) {
        EmitRaw();
        conn.Send(body);
        return;
      }
      conn.encoding := negotiated;
      conn.SendHeader(handlerStatus);
      conn.Send(c.encode(negotiated, body));
      assert conn.body == c.encode(negotiated, body);
      assert c.decode(negotiated, c.encode(negotiated, body)) == body;
    }
  }

  ghost function Received(c: Codec, encoding: string, body: Bytes): Bytes {
    if encoding == "" then body else c.decode(encoding, body)
  }

  lemma {:induction false} NothingWritten(ops: seq<Op>)
    requires FirstStatus(ops).None?
    ensures All(ops) == [] && Flush !in ops
  {
    if ops != [] {
      assert ops == ops[..|ops| - 1] + [ops[|ops| - 1]];
      NothingWritten(ops[..|ops| - 1]);
    }
  }

  /** A whole response: any calls, then the finish. */
  method Serve(ops: seq<Op>, c: Codec, negotiated: string) returns (conn: Conn)
    requires Lossless(c)
    ensures fresh(conn) && conn.headers <= 1 && conn.status == FirstStatus(ops)
    ensures Received(c, conn.encoding, conn.body) == All(ops)
    ensures conn.encoding != "" <==>
      negotiated != "" && FirstStatus(ops).Some? && c.json(StartType(ops)) && Flush !in ops && 1024 <= |All(ops)| <= 0x20_0000
  {
    hide All, FirstStatus, StartType, CurrentType, Streams, Received;
    conn := new Conn();
    var w := new Writer(conn, c, negotiated);
    for n := 0 to |ops|
      invariant w.conn == conn && w.c == c && w.negotiated == negotiated && fresh(w) && fresh(conn)
      invariant w.After(ops[..n])
    {
      assert ops[..n + 1] == ops[..n] + [ops[n]];
      match ops[n] {
        case SetType(t) => w.SetType(t, ops[..n]);
        case WriteHeader(code) => w.WriteHeader(code, ops[..n]);
        case Write(data) => w.Write(data, ops[..n]);
        case Flush => w.Flush(ops[..n]);
      }
    }
    assert ops[..|ops|] == ops;
    w.Finish(ops);
    StreamsIs(c, ops);
  }
}
