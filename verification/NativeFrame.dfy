/**
 Native dispatch frames: the Rust codec, its TypeScript twin, and the two dispatch paths.
 Text is its UTF-8 bytes; validity and trimming are arbitrary functions of those bytes.
 */
module NativeFrame {
  import opened Common
  import opened Bytes

  const MAX_FRAME_BYTES: nat := 2 * 1024 * 1024
  const VERSION: byte := 1

  function RequestMagic(): (m: seq<byte>) ensures |m| == 4 { [79, 86, 82, 78] }

  function ResponseMagic(): (m: seq<byte>) ensures |m| == 4 { [79, 86, 82, 82] }

  // The bytes of "1.0"
  function Schema(): (s: seq<byte>) ensures |s| == 3 { [49, 46, 48] }

  datatype Encoding = Capnp | Protobuf

  datatype Request = Request(
    unitID: seq<byte>,
    schema: seq<byte>,
    encoding: Encoding,
    payload: seq<byte>,
    metadata: seq<byte>)

  datatype Response = Response(status: nat, payload: seq<byte>, diagnostics: seq<byte>)

  datatype Error =
    | Malformed
    | Oversized
    | UnsupportedVersion
    | UnsupportedEncoding
    | Unauthorized
    | DispatchFailed

  datatype Result<T> = Ok(value: T) | Err(error: Error)

  datatype Text = Text(utf8: seq<byte> -> bool, trimRust: seq<byte> -> seq<byte>, trimJs: seq<byte> -> seq<byte>)

  // What is assumed of text: "1.0" is valid and not blank.
  predicate Sane(t: Text) { t.utf8(Schema()) && t.trimRust(Schema()) != [] }

  function EncodingID(e: Encoding): byte { if e.Capnp? then 1 else 2 }

  function Lengths(req: Request): (s: seq<byte>)
    ensures |s| == 12
  {
    BE(|req.unitID|, 2) + BE(|req.schema|, 2) + BE(|req.payload|, 4) + BE(|req.metadata|, 4)
  }

  function Body(req: Request): (s: seq<byte>)
    ensures |s| == |req.unitID| + |req.schema| + |req.payload| + |req.metadata|
  {
    req.unitID + req.schema + req.payload + req.metadata
  }

  // A request frame with the two reserved bytes left open
  function FrameWith(reserved: seq<byte>, req: Request): (s: seq<byte>)
    requires |reserved| == 2
    ensures |s| == 20 + |Body(req)|
  {
    RequestMagic() + [VERSION, EncodingID(req.encoding)] + reserved + Lengths(req) + Body(req)
  }

  function RequestFrame(req: Request): seq<byte> { FrameWith([0, 0], req) }

  // Encoders

  predicate LengthsFit(req: Request)
  {
    && 0 < |req.unitID| < U16 && 0 < |req.schema| < U16
    && |req.payload| < U32 && |req.metadata| < U32
  }

  /** The Rust encoder appends field by field. */
  method EncodeRust(req: Request) returns (r: Result<seq<byte>>)
    ensures r.Ok? <==> LengthsFit(req)
    ensures r.Ok? ==> r.value == RequestFrame(req)
    ensures r.Err? ==>
              r.error == if 0 < |req.unitID| < U16 && 0 < |req.schema| < U16 then Oversized else Malformed
  {
    hide BE;
    if |req.unitID| == 0 || |req.unitID| > 0xFFFF { return Err(Malformed); }
    if |req.schema| == 0 || |req.schema| > 0xFFFF { return Err(Malformed); }
    if |req.payload| > 0xFFFF_FFFF || |req.metadata| > 0xFFFF_FFFF { return Err(Oversized); }
    var frame: seq<byte> := RequestMagic();
    frame := frame + [VERSION];
    frame := frame + [EncodingID(req.encoding)];
    ZeroWord();
    frame := frame + BE(0, 2);
    frame := frame + BE(|req.unitID|, 2);
    frame := frame + BE(|req.schema|, 2);
    frame := frame + BE(|req.payload|, 4);
    frame := frame + BE(|req.metadata|, 4);
    assert frame == RequestMagic() + [VERSION, EncodingID(req.encoding)] + [0, 0] + Lengths(req);
    frame := frame + req.unitID;
    frame := frame + req.schema;
    frame := frame + req.payload;
    frame := frame + req.metadata;
    r := Ok(frame);
  }

  lemma ZeroWord()
    ensures BE(0, 2) == [0, 0]
    ensures BE(0, 4) == [0, 0, 0, 0]
  {
    assert BE(0, 1) == BE(0, 0) + [0] == [0];
    assert BE(0, 2) == BE(0, 1) + [0];
    assert BE(0, 3) == BE(0, 2) + [0];
  }

  function Trimmed(t: Text, req: Request): Request
  {
    req.(unitID := t.trimJs(req.unitID), schema := t.trimJs(req.schema))
  }

  method Set(a: array<byte>, at: nat, bytes: seq<byte>)
    requires at + |bytes| <= a.Length
    modifies a
    ensures a[..] == Patch(old(a[..]), at, bytes)
  {
    var i := 0;
    while i < |bytes|
      invariant 0 <= i <= |bytes|
      invariant forall k :: 0 <= k < a.Length ==>
                  a[k] == if at <= k < at + i then bytes[k - at] else old(a[..])[k]
    {
      a[at + i] := bytes[i];
      i := i + 1;
    }
  }

  // Copies bytes over the array at the cursor, extending what has been written so far.
  method SetNext(a: array<byte>, ghost s: seq<byte>, ghost done: seq<byte>, at: nat, bytes: seq<byte>)
    requires |s| == a.Length && at == |done| && at + |bytes| <= a.Length
    requires a[..] == Patch(s, 0, done)
    modifies a
    ensures a[..] == Patch(s, 0, done + bytes)
  {
    hide Patch;
    PatchChain(s, 0, done, bytes);
    Set(a, at, bytes);
  }

  lemma PatchNone(s: seq<byte>)
    ensures Patch(s, 0, []) == s
  {
  }

  lemma PatchAll(s: seq<byte>, t: seq<byte>)
    requires |s| == |t|
    ensures Patch(s, 0, t) == t
  {
  }

  /** The TypeScript encoder trims, sizes the frame, then fills it with a moving cursor. */
  method EncodeTs(t: Text, raw: Request) returns (r: Result<seq<byte>>)
    ensures var req := Trimmed(t, raw);
            && (r.Ok? <==> LengthsFit(req) && |RequestFrame(req)| <= MAX_FRAME_BYTES)
            && (r.Ok? ==> r.value == RequestFrame(req))
  {
    hide BE, Patch;
    var req := Trimmed(t, raw);
    if |req.unitID| == 0 || |req.unitID| > 0xFFFF { return Err(Malformed); }
    if |req.schema| == 0 || |req.schema| > 0xFFFF { return Err(Malformed); }
    if |req.payload| > 0xFFFF_FFFF || |req.metadata| > 0xFFFF_FFFF { return Err(Oversized); }
    var length := 20 + |req.unitID| + |req.schema| + |req.payload| + |req.metadata|;
    if length > MAX_FRAME_BYTES { return Err(Oversized); }
    var frame := new byte[length](_ => 0);
    Fill(frame, req);
    r := Ok(frame[..]);
  }

  function Head(req: Request): (s: seq<byte>)
    ensures |s| == 20
  {
    RequestMagic() + [VERSION, EncodingID(req.encoding)] + [0, 0] + Lengths(req)
  }

  method Fill(frame: array<byte>, req: Request)
    requires frame.Length == 20 + |Body(req)|
    modifies frame
    ensures frame[..] == RequestFrame(req)
  {
    hide BE, Patch, Head, Lengths;
    ghost var s := frame[..];
    FillHead(frame, s, req);
    var cursor := 20;
    SetNext(frame, s, Head(req), cursor, req.unitID);
    ghost var done := Head(req) + req.unitID;
    cursor := cursor + |req.unitID|;
    SetNext(frame, s, done, cursor, req.schema);
    done := done + req.schema;
    cursor := cursor + |req.schema|;
    SetNext(frame, s, done, cursor, req.payload);
    done := done + req.payload;
    cursor := cursor + |req.payload|;
    SetNext(frame, s, done, cursor, req.metadata);
    done := done + req.metadata;
    PatchAll(s, done);
    assert done == Head(req) + Body(req);
    HeadAndBody(req);
  }

  lemma HeadAndBody(req: Request)
    ensures Head(req) + Body(req) == RequestFrame(req)
  {
  }

  method FillHead(frame: array<byte>, ghost s: seq<byte>, req: Request)
    requires frame.Length == |s| >= 20 && frame[..] == s
    modifies frame
    ensures frame[..] == Patch(s, 0, Head(req))
  {
    hide BE, Patch;
    ZeroWord();
    PatchNone(s);
    SetNext(frame, s, [], 0, RequestMagic());
    ghost var done := [] + RequestMagic();
    SetNext(frame, s, done, 4, [VERSION, EncodingID(req.encoding)]);
    done := done + [VERSION, EncodingID(req.encoding)];
    SetNext(frame, s, done, 6, BE(0, 2));
    done := done + BE(0, 2);
    SetNext(frame, s, done, 8, BE(|req.unitID|, 2));
    done := done + BE(|req.unitID|, 2);
    SetNext(frame, s, done, 10, BE(|req.schema|, 2));
    done := done + BE(|req.schema|, 2);
    SetNext(frame, s, done, 12, BE(|req.payload|, 4));
    done := done + BE(|req.payload|, 4);
    SetNext(frame, s, done, 16, BE(|req.metadata|, 4));
    done := done + BE(|req.metadata|, 4);
    assert done == Head(req);
  }

  // Request decoding

  function ReadText(t: Text, bytes: seq<byte>): Result<seq<byte>>
  {
    if !t.utf8(bytes) then Err(Malformed)
    else if t.trimRust(bytes) == [] then Err(Malformed)
    else Ok(bytes)
  }

  function EncodingOf(id: byte): Result<Encoding>
  {
    if id == 1 then Ok(Capnp) else if id == 2 then Ok(Protobuf) else Err(UnsupportedEncoding)
  }

  function Decode(t: Text, frame: seq<byte>, max: nat): Result<Request>
  {
    if |frame| > max then Err(Oversized)
    else if |frame| < 20 || frame[0..4] != RequestMagic() then Err(Malformed)
    else if frame[4] != VERSION then Err(UnsupportedVersion)
    else if EncodingOf(frame[5]).Err? then Err(UnsupportedEncoding)
    else
      var u, s := FromBE(frame[8..10]), FromBE(frame[10..12]);
      var p, m := FromBE(frame[12..16]), FromBE(frame[16..20]);
      if 20 + u + s + p + m != |frame| then Err(Malformed)
      else DecodeBody(t, EncodingOf(frame[5]).value, frame[20..], u, s, p)
  }

  function DecodeBody(t: Text, encoding: Encoding, body: seq<byte>, u: nat, s: nat, p: nat): Result<Request>
    requires u + s + p <= |body|
  {
    var unitID := ReadText(t, body[..u]);
    if unitID.Err? then Err(unitID.error)
    else
      var schema := ReadText(t, body[u..u + s]);
      if schema.Err? then Err(schema.error)
      else if schema.value != Schema() then Err(UnsupportedVersion)
      else Ok(Request(unitID.value, schema.value, encoding, body[u + s..u + s + p], body[u + s + p..]))
  }

  // A request a decoder can return
  predicate Acceptable(t: Text, req: Request)
  {
    && t.utf8(req.unitID) && t.trimRust(req.unitID) != [] && req.schema == Schema()
    && |req.unitID| < U16 && |req.payload| < U32 && |req.metadata| < U32
  }

  lemma Sections(reserved: seq<byte>, req: Request)
    requires |reserved| == 2
    ensures var f := FrameWith(reserved, req);
            && f[0..4] == RequestMagic() && f[4] == VERSION && f[5] == EncodingID(req.encoding) && f[6..8] == reserved
            && f[8..20] == Lengths(req) && f[20..] == Body(req)
  {
    hide Lengths, Body;
  }

  lemma LengthSections(req: Request)
    ensures var l := Lengths(req);
            && l[0..2] == BE(|req.unitID|, 2) && l[2..4] == BE(|req.schema|, 2)
            && l[4..8] == BE(|req.payload|, 4) && l[8..12] == BE(|req.metadata|, 4)
  {
    hide BE;
    var a, b, c, d := BE(|req.unitID|, 2), BE(|req.schema|, 2), BE(|req.payload|, 4), BE(|req.metadata|, 4);
    var l := a + b + c + d;
    assert l[0..2] == a && l[2..4] == b;
    assert l[4..8] == c;
    assert l[8..12] == d;
  }

  lemma LengthsRead(reserved: seq<byte>, req: Request)
    requires |reserved| == 2
    requires |req.unitID| < U16 && |req.schema| < U16 && |req.payload| < U32 && |req.metadata| < U32
    ensures var f := FrameWith(reserved, req);
            && FromBE(f[8..10]) == |req.unitID| && FromBE(f[10..12]) == |req.schema|
            && FromBE(f[12..16]) == |req.payload| && FromBE(f[16..20]) == |req.metadata|
  {
    hide BE, FromBE, Lengths, FrameWith;
    var f := FrameWith(reserved, req);
    Sections(reserved, req);
    LengthSections(req);
    Subslice(f, 8, 20, 0, 2);
    Subslice(f, 8, 20, 2, 4);
    Subslice(f, 8, 20, 4, 8);
    Subslice(f, 8, 20, 8, 12);
    Widths();
    BERoundTrip(|req.unitID|, 2);
    BERoundTrip(|req.schema|, 2);
    BERoundTrip(|req.payload|, 4);
    BERoundTrip(|req.metadata|, 4);
  }

  lemma BodySections(req: Request)
    ensures var b, u, s, p := Body(req), |req.unitID|, |req.schema|, |req.payload|;
            && b[..u] == req.unitID && b[u..u + s] == req.schema
            && b[u + s..u + s + p] == req.payload && b[u + s + p..] == req.metadata
  {
  }

  lemma AcceptsFrame(t: Text, reserved: seq<byte>, req: Request, max: nat)
    requires Sane(t) && |reserved| == 2 && Acceptable(t, req) && |FrameWith(reserved, req)| <= max
    ensures Decode(t, FrameWith(reserved, req), max) == Ok(req)
  {
    hide BE, FromBE, Lengths, FrameWith, Body;
    Sections(reserved, req);
    LengthsRead(reserved, req);
    BodySections(req);
  }

  lemma BodyWhole(body: seq<byte>, u: nat, s: nat, p: nat)
    requires u + s + p <= |body|
    ensures body == body[..u] + body[u..u + s] + body[u + s..u + s + p] + body[u + s + p..]
  {
  }

  lemma FrameWhole(f: seq<byte>)
    requires |f| >= 20
    ensures f == f[0..4] + [f[4], f[5]] + f[6..8] + (f[8..10] + f[10..12] + f[12..16] + f[16..20]) + f[20..]
  {
  }

  lemma AcceptedBody(t: Text, encoding: Encoding, body: seq<byte>, u: nat, s: nat, p: nat, req: Request)
    requires u + s + p <= |body| && DecodeBody(t, encoding, body, u, s, p) == Ok(req)
    ensures body == Body(req) && req.encoding == encoding && req.schema == Schema()
    ensures |req.unitID| == u && |req.schema| == s && |req.payload| == p && |req.metadata| == |body| - u - s - p
    ensures t.utf8(req.unitID) && t.trimRust(req.unitID) != []
  {
    BodyWhole(body, u, s, p);
  }

  lemma AcceptedIsAFrame(t: Text, frame: seq<byte>, max: nat, req: Request)
    requires Decode(t, frame, max) == Ok(req)
    ensures 20 <= |frame| <= max && Acceptable(t, req) && frame == FrameWith(frame[6..8], req)
  {
    hide BE, FromBE, DecodeBody, Body;
    var u, s := FromBE(frame[8..10]), FromBE(frame[10..12]);
    var p, m := FromBE(frame[12..16]), FromBE(frame[16..20]);
    Widths();
    BEBounded(frame[8..10]);
    BEBounded(frame[10..12]);
    BEBounded(frame[12..16]);
    BEBounded(frame[16..20]);
    AcceptedBody(t, EncodingOf(frame[5]).value, frame[20..], u, s, p, req);
    FrameWhole(frame);
    assert Lengths(req) == frame[8..10] + frame[10..12] + frame[12..16] + frame[16..20];
  }

  /**
   A frame decodes to a request exactly when the request has a non-blank valid unit id and
   schema "1.0", and the frame is that request's frame up to the two reserved bytes.
   */
  lemma DecodesExactlyItsFrames(t: Text, frame: seq<byte>, max: nat, req: Request)
    requires Sane(t)
    ensures Decode(t, frame, max) == Ok(req) <==>
            20 <= |frame| <= max && Acceptable(t, req) && frame == FrameWith(frame[6..8], req)
  {
    hide Decode, FrameWith, Acceptable;
    if Decode(t, frame, max) == Ok(req) {
      AcceptedIsAFrame(t, frame, max, req);
    } else if 20 <= |frame| <= max && Acceptable(t, req) && frame == FrameWith(frame[6..8], req) {
      AcceptsFrame(t, frame[6..8], req, max);
    }
  }

  /** An encodable request round-trips exactly when its unit id is not blank, its schema is "1.0" and it fits. */
  lemma RequestRoundTrips(t: Text, req: Request, max: nat)
    requires Sane(t) && t.utf8(req.unitID) && LengthsFit(req)
    ensures Decode(t, RequestFrame(req), max) == Ok(req) <==>
            t.trimRust(req.unitID) != [] && req.schema == Schema() && |RequestFrame(req)| <= max
  {
    hide Decode, FrameWith;
    Sections([0, 0], req);
    DecodesExactlyItsFrames(t, RequestFrame(req), max, req);
  }

  /** Both encoders give the same bytes on trimmed fields; only the size limit is TypeScript's own. */
  method EncodeBoth(t: Text, raw: Request) returns (ts: Result<seq<byte>>, rust: Result<seq<byte>>)
    ensures ts.Ok? <==> rust.Ok? && |rust.value| <= MAX_FRAME_BYTES
    ensures ts.Ok? ==> ts.value == rust.value
  {
    ts := EncodeTs(t, raw);
    rust := EncodeRust(Trimmed(t, raw));
  }

  // Reads `length` bytes at the cursor and moves it past them.
  method ReadBytes(frame: seq<byte>, cursor: nat, length: nat) returns (r: Result<seq<byte>>, next: nat)
    requires cursor <= |frame|
    ensures r.Ok? <==> cursor + length <= |frame|
    ensures r.Ok? ==> r.value == frame[cursor..cursor + length] && next == cursor + length
    ensures r.Err? ==> r.error == Malformed
  {
    var end := cursor + length;
    if end > |frame| { return Err(Malformed), cursor; }
    return Ok(frame[cursor..end]), end;
  }

  // The four fields after the header
  method DecodeFields(t: Text, encoding: Encoding, frame: seq<byte>, u: nat, s: nat, p: nat, m: nat)
    returns (r: Result<Request>)
    requires 20 + u + s + p + m == |frame|
    ensures r == DecodeBody(t, encoding, frame[20..], u, s, p)
  {
    ghost var body := frame[20..];
    assert body == frame[20..|frame|];
    Subslice(frame, 20, |frame|, 0, u);
    Subslice(frame, 20, |frame|, u, u + s);
    Subslice(frame, 20, |frame|, u + s, u + s + p);
    Subslice(frame, 20, |frame|, u + s + p, u + s + p + m);
    var cursor := 20;
    var unitBytes, schemaBytes, payload, metadata;
    unitBytes, cursor := ReadBytes(frame, cursor, u);
    if unitBytes.Err? { return Err(Malformed); }
    assert unitBytes.value == body[0..u] == body[..u];
    var unitID := ReadText(t, unitBytes.value);
    if unitID.Err? { return Err(unitID.error); }
    schemaBytes, cursor := ReadBytes(frame, cursor, s);
    if schemaBytes.Err? { return Err(Malformed); }
    assert schemaBytes.value == body[u..u + s];
    var schema := ReadText(t, schemaBytes.value);
    if schema.Err? { return Err(schema.error); }
    if schema.value != Schema() { return Err(UnsupportedVersion); }
    payload, cursor := ReadBytes(frame, cursor, p);
    if payload.Err? { return Err(Malformed); }
    metadata, cursor := ReadBytes(frame, cursor, m);
    if metadata.Err? { return Err(Malformed); }
    assert payload.value == body[u + s..u + s + p];
    assert metadata.value == body[u + s + p..u + s + p + m] == body[u + s + p..];
    r := Ok(Request(unitID.value, schema.value, encoding, payload.value, metadata.value));
  }

  /** The decoder that walks the frame with a cursor. */
  method DecodeView(t: Text, frame: seq<byte>, max: nat) returns (r: Result<Request>)
    ensures r == Decode(t, frame, max)
  {
    hide FromBE;
    if |frame| > max { return Err(Oversized); }
    if |frame| < 20 || frame[0..4] != RequestMagic() { return Err(Malformed); }
    if frame[4] != VERSION { return Err(UnsupportedVersion); }
    var encoding := EncodingOf(frame[5]);
    if encoding.Err? { return Err(encoding.error); }
    var u, s := FromBE(frame[8..10]), FromBE(frame[10..12]);
    var p, m := FromBE(frame[12..16]), FromBE(frame[16..20]);
    if 20 + u + s + p + m != |frame| { return Err(Malformed); }
    r := DecodeFields(t, encoding.value, frame, u, s, p, m);
  }

  // Responses

  function ResponseHead(status: nat, payload: nat, diagnostics: nat): (s: seq<byte>)
    ensures |s| == 16
  {
    ResponseMagic() + [VERSION, 0] + BE(status, 2) + BE(payload, 4) + BE(diagnostics, 4)
  }

  function ResponseFrame(r: Response): seq<byte>
  {
    ResponseHead(r.status, |r.payload|, |r.diagnostics|) + r.payload + r.diagnostics
  }

  function EncodeResponse(r: Response): Result<seq<byte>>
  {
    if |r.payload| >= U32 || |r.diagnostics| >= U32 then Err(Oversized) else Ok(ResponseFrame(r))
  }

  function DecodeResponse(frame: seq<byte>, max: nat): Result<Response>
  {
    if |frame| > max then Err(Oversized)
    else if |frame| < 16 || frame[0..4] != ResponseMagic() then Err(Malformed)
    else if frame[4] != VERSION then Err(UnsupportedVersion)
    else
      var p, d := FromBE(frame[8..12]), FromBE(frame[12..16]);
      if 16 + p + d != |frame| then Err(Malformed)
      else Ok(Response(FromBE(frame[6..8]), frame[16..16 + p], frame[16 + p..]))
  }

  // The TypeScript decoder checks the magic first and the lengths against what remains.
  function DecodeResponseTs(frame: seq<byte>): Result<Response>
  {
    if |frame| < 16 || frame[0..4] != ResponseMagic() then Err(Malformed)
    else if |frame| > MAX_FRAME_BYTES then Err(Oversized)
    else if frame[4] != VERSION then Err(UnsupportedVersion)
    else
      var p, d, remaining := FromBE(frame[8..12]), FromBE(frame[12..16]), |frame| - 16;
      if p > remaining || d > remaining - p then Err(Malformed)
      else if p + d != remaining then Err(Malformed)
      else Ok(Response(FromBE(frame[6..8]), frame[16..16 + p], frame[16 + p..]))
  }

  /** At the 2 MiB limit both response decoders accept the same frames with the same contents. */
  lemma ResponseDecodersAgree(frame: seq<byte>)
    ensures DecodeResponseTs(frame).Ok? <==> DecodeResponse(frame, MAX_FRAME_BYTES).Ok?
    ensures DecodeResponseTs(frame).Ok? ==> DecodeResponseTs(frame) == DecodeResponse(frame, MAX_FRAME_BYTES)
  {
    hide FromBE;
  }

  lemma ResponseSections(status: nat, p: nat, d: nat)
    ensures var h := ResponseHead(status, p, d);
            && h[0..4] == ResponseMagic() && h[4] == VERSION && h[6..8] == BE(status, 2)
            && h[8..12] == BE(p, 4) && h[12..16] == BE(d, 4)
  {
    hide BE;
    var a, b, c := BE(status, 2), BE(p, 4), BE(d, 4);
    var h := ResponseMagic() + [VERSION, 0] + a + b + c;
    assert h[6..8] == a;
    assert h[8..12] == b;
    assert h[12..16] == c;
  }

  /** An encodable response round-trips exactly when its frame fits the limit. */
  lemma ResponseRoundTrips(r: Response, max: nat)
    requires r.status < U16 && EncodeResponse(r).Ok?
    ensures DecodeResponse(EncodeResponse(r).value, max) == Ok(r) <==> |ResponseFrame(r)| <= max
  {
    hide BE, FromBE, ResponseHead;
    var f, p, d := ResponseFrame(r), |r.payload|, |r.diagnostics|;
    var h := ResponseHead(r.status, p, d);
    ResponseSections(r.status, p, d);
    Widths();
    BERoundTrip(r.status, 2);
    BERoundTrip(p, 4);
    BERoundTrip(d, 4);
    assert f[0..4] == h[0..4] && f[4] == h[4] && f[6..8] == h[6..8] && f[8..12] == h[8..12] && f[12..16] == h[12..16];
    assert f[16..16 + p] == r.payload && f[16 + p..] == r.diagnostics;
  }

  // Dispatch. `run` is a registered unit; `runInto` the same unit given room for its output.

  function DispatchFrame(t: Text, allowed: set<seq<byte>>, run: (seq<byte>, seq<byte>) -> Result<seq<byte>>,
                         frame: seq<byte>, max: nat): Result<seq<byte>>
  {
    var request := Decode(t, frame, max);
    if request.Err? then Err(request.error)
    else if request.value.unitID !in allowed then Err(Unauthorized)
    else
      var output := run(request.value.unitID, request.value.payload);
      if output.Err? then Err(DispatchFailed) else EncodeResponse(Response(0, output.value, []))
  }

  /**
   The allocating path refuses what does not decode, then a unit that is not listed, then passes
   on a unit failure; otherwise its bytes decode to status 0, the unit's output and no diagnostics.
   */
  lemma DispatchFrameMeans(t: Text, allowed: set<seq<byte>>, run: (seq<byte>, seq<byte>) -> Result<seq<byte>>,
                           frame: seq<byte>, max: nat)
    ensures var r, request := DispatchFrame(t, allowed, run, frame, max), Decode(t, frame, max);
            if request.Err? then r == Err(request.error)
            else if request.value.unitID !in allowed then r == Err(Unauthorized)
            else
              var output := run(request.value.unitID, request.value.payload);
              if output.Err? then r == Err(DispatchFailed)
              else if |output.value| >= U32 then r == Err(Oversized)
              else
                && r.Ok? && |r.value| == 16 + |output.value|
                && DecodeResponse(r.value, |r.value|) == Ok(Response(0, output.value, []))
  {
    hide Decode, DecodeResponse, ResponseHead;
    var request := Decode(t, frame, max);
    if request.Ok? && request.value.unitID in allowed {
      var output := run(request.value.unitID, request.value.payload);
      if output.Ok? && |output.value| < U32 {
        ResponseRoundTrips(Response(0, output.value, []), 16 + |output.value|);
      }
    }
  }

  // A failed unit leaves zeros in the region it was given.
  method ClearFrom(dest: array<byte>, from: nat)
    requires from <= dest.Length
    modifies dest
    ensures dest[..from] == old(dest[..])[..from] && forall k :: from <= k < dest.Length ==> dest[k] == 0
  {
    var i := from;
    while i < dest.Length
      invariant from <= i <= dest.Length
      invariant dest[..from] == old(dest[..])[..from] && forall k :: from <= k < i ==> dest[k] == 0
    {
      dest[i] := 0;
      i := i + 1;
    }
  }

  /**
   Writes the response into `dest` in place. A unit error clears everything after the header,
   and any earlier failure leaves it alone. When the unit gives the same output on both paths,
   the bytes are those of the allocating path exactly for outputs below 2^32 bytes; past that
   the length field is truncated where the allocating path refuses.
   */
  method DispatchFrameInto(t: Text, allowed: set<seq<byte>>, run: (seq<byte>, seq<byte>) -> Result<seq<byte>>,
                           runInto: (seq<byte>, seq<byte>, nat) -> Result<seq<byte>>,
                           frame: seq<byte>, max: nat, dest: array<byte>)
    returns (r: Result<nat>)
    requires forall u, p, room :: runInto(u, p, room).Ok? ==> |runInto(u, p, room).value| <= room
    modifies dest
    ensures Decode(t, frame, max).Err? ==>
              r == Err(Decode(t, frame, max).error) && dest[..] == old(dest[..])
    ensures Decode(t, frame, max).Ok? && Decode(t, frame, max).value.unitID !in allowed ==>
              r == Err(Unauthorized) && dest[..] == old(dest[..])
    ensures var request := Decode(t, frame, max);
            request.Ok? && request.value.unitID in allowed ==>
              && (dest.Length < 16 ==> r == Err(Oversized) && dest[..] == old(dest[..]))
              && (dest.Length >= 16 ==>
                    var output := runInto(request.value.unitID, request.value.payload, dest.Length - 16);
                    && (output.Err? ==>
                          && r == Err(DispatchFailed) && dest[..16] == old(dest[..])[..16]
                          && forall k :: 16 <= k < dest.Length ==> dest[k] == 0)
                    && (output.Ok? ==>
                          && r == Ok(16 + |output.value|) && r.value <= dest.Length
                          && dest[r.value..] == old(dest[..])[r.value..]
                          && (output == run(request.value.unitID, request.value.payload) ==>
                                (DispatchFrame(t, allowed, run, frame, max) == Ok(dest[..r.value]) <==>
                                 |output.value| < U32))))
  {
    hide Decode, Patch, ResponseHead;
    var request := DecodeView(t, frame, max);
    if request.Err? { return Err(request.error); }
    if request.value.unitID !in allowed { return Err(Unauthorized); }
    if dest.Length < 16 { return Err(Oversized); }
    var output := runInto(request.value.unitID, request.value.payload, dest.Length - 16);
    if output.Err? {
      ClearFrom(dest, 16);
      return Err(DispatchFailed);
    }
    var written := |output.value|;
    ghost var before := dest[..];
    Set(dest, 16, output.value);
    ghost var middle := dest[..];
    Set(dest, 0, ResponseHead(0, written % U32, 0));
    Laid(before, middle, dest[..], ResponseHead(0, written % U32, 0), output.value);
    assert written < U32 ==> ResponseFrame(Response(0, output.value, [])) == dest[..16 + written];
    r := Ok(16 + written);
  }

  lemma Laid(before: seq<byte>, middle: seq<byte>, after: seq<byte>, head: seq<byte>, body: seq<byte>)
    requires |head| == 16 && 16 + |body| <= |before|
    requires middle == Patch(before, 16, body) && after == Patch(middle, 0, head)
    ensures after[..16 + |body|] == head + body && after[16 + |body|..] == before[16 + |body|..]
  {
    PatchElsewhere(before, 16, body, 16 + |body|, |before|);
    PatchElsewhere(middle, 0, head, 16 + |body|, |before|);
    PatchElsewhere(middle, 0, head, 16, 16 + |body|);
    assert after[..16 + |body|] == after[0..16] + after[16..16 + |body|];
  }
}
