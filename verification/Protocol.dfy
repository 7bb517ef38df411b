/** The wire: length-prefixed packets on a byte stream, and the XTG1 frame inside each. */
module Protocol {
  import opened Values

  // -- big-endian numbers ----------------------------------------------------------------

  function Pow256(n: nat): (p: nat)
    ensures p >= 1
  {
    if n == 0 then 1 else 256 * Pow256(n - 1)
  }

  /** A number in n bytes, the most significant first. */
  function Be(n: nat, v: nat): (b: Bytes)
    requires v < Pow256(n)
    ensures |b| == n
  {
    if n == 0 then [] else Be(n - 1, v / 256) + [(v % 256) as byte]
  }

  function FromBe(b: Bytes): (v: nat)
    ensures v < Pow256(|b|)
  {
    if b == [] then 0 else FromBe(b[..|b| - 1]) * 256 + b[|b| - 1] as int
  }

  lemma {:induction false} BeRoundTrip(n: nat, v: nat)
    requires v < Pow256(n)
    ensures FromBe(Be(n, v)) == v
  {
    if n > 0 {
      BeRoundTrip(n - 1, v / 256);
      var b := Be(n - 1, v / 256) + [(v % 256) as byte];
      assert b[..n - 1] == Be(n - 1, v / 256);
    }
  }

  lemma {:induction false} FromBeRoundTrip(b: Bytes)
    ensures Be(|b|, FromBe(b)) == b
  {
    if b != [] {
      var init, last := b[..|b| - 1], b[|b| - 1];
      FromBeRoundTrip(init);
      assert FromBe(b) / 256 == FromBe(init) && FromBe(b) % 256 == last as int;
      assert b == init + [last];
    }
  }

  // -- frames ------------------------------------------------------------------------------

  type Meta(==, 0, !new)

  /** A JSON text is an object, or some other value.  Printing and parsing are opaque inverses. */
  datatype Json = Object(meta: Meta) | NotObject
  datatype JsonCodec = JsonCodec(dumps: Meta -> Bytes, loads: Bytes -> Option<Json>)

  ghost predicate Inverse(json: JsonCodec) {
    forall m :: json.loads(json.dumps(m)) == Some(Object(m))
  }

  const MAGIC: Bytes := [0x58, 0x54, 0x47, 0x31]
  const HEADER: nat := 20

  datatype Frame = Frame(id: nat, meta: Meta, blobs: seq<Bytes>)

  function Table(lens: seq<nat>): (b: Bytes)
    requires forall k :: 0 <= k < |lens| ==> lens[k] < Pow256(8)
    ensures |b| == 8 * |lens|
  {
    if lens == [] then [] else Be(8, lens[0]) + Table(lens[1..])
  }

  function Sizes(blobs: seq<Bytes>): (lens: seq<nat>)
    ensures |lens| == |blobs| && forall k :: 0 <= k < |lens| ==> lens[k] == |blobs[k]|
  {
    seq(|blobs|, k requires 0 <= k < |blobs| => |blobs[k]|)
  }

  function Concat(blobs: seq<Bytes>): Bytes {
    if blobs == [] then [] else blobs[0] + Concat(blobs[1..])
  }

  /** What fits the fields of a frame. */
  predicate Fits(id: nat, text: Bytes, blobs: seq<Bytes>) {
    && id < Pow256(8) && |text| < Pow256(4) && |blobs| < Pow256(2)
    && forall k :: 0 <= k < |blobs| ==> |blobs[k]| < Pow256(8)
  }

  /** The bytes of a frame around a metadata text. */
  function Layout(id: nat, text: Bytes, reserved: Bytes, blobs: seq<Bytes>): Bytes
    requires Fits(id, text, blobs)
  {
    MAGIC + (Be(8, id) + (Be(4, |text|)
        + (Be(2, |blobs|) + (reserved + (Table(Sizes(blobs)) + (text + Concat(blobs)))))))
  }

  function Encode(json: JsonCodec, f: Frame): Bytes
    requires Fits(f.id, json.dumps(f.meta), f.blobs)
  {
    Layout(f.id, json.dumps(f.meta), [0, 0], f.blobs)
  }

  /** A payload is a frame with this id, metadata text and blobs. */
  ghost predicate IsFrame(payload: Bytes, id: nat, text: Bytes, blobs: seq<Bytes>) {
    Fits(id, text, blobs) && exists reserved: Bytes :: |reserved| == 2 && payload == Layout(id, text, reserved, blobs)
  }

  // -- the recursive decoder -----------------------------------------------------------------

  datatype Parsed = Parsed(id: nat, json: Json, blobs: seq<Bytes>)

  function TakeLengths(rest: Bytes, n: nat): Option<(seq<nat>, Bytes)>
    decreases n
  {
    if n == 0 then Some(([], rest))
    else if |rest| < 8 then None
    else
      var (lens, left) :- TakeLengths(rest[8..], n - 1);
      Some(([FromBe(rest[..8])] + lens, left))
  }

  function TakeBlobs(rest: Bytes, lens: seq<nat>): Option<seq<Bytes>> {
    if lens == [] then if rest == [] then Some([]) else None
    else if |rest| < lens[0] then None
    else
      var blobs :- TakeBlobs(rest[lens[0]..], lens[1..]);
      Some([rest[..lens[0]]] + blobs)
  }

  /** Binary pattern matching, piece by piece.  Metadata may be any JSON value. */
  function Decode(json: JsonCodec, payload: Bytes): Option<Parsed> {
    if |payload| < HEADER || payload[..4] != MAGIC then None
    else
      var id, jsonLen, count := FromBe(payload[4..12]), FromBe(payload[12..16]), FromBe(payload[16..18]);
      var (lens, rest) :- TakeLengths(payload[20..], count);
      if |rest| < jsonLen then None
      else
        var meta :- json.loads(rest[..jsonLen]);
        var blobs :- TakeBlobs(rest[jsonLen..], lens);
        Some(Parsed(id, meta, blobs))
  }

  lemma {:induction false} TableTaken(lens: seq<nat>, left: Bytes)
    requires forall k :: 0 <= k < |lens| ==> lens[k] < Pow256(8)
    ensures TakeLengths(Table(lens) + left, |lens|) == Some((lens, left))
  {
    if lens != [] {
      var rest := Table(lens) + left;
      assert rest == Be(8, lens[0]) + (Table(lens[1..]) + left);
      assert rest[..8] == Be(8, lens[0]) && rest[8..] == Table(lens[1..]) + left;
      BeRoundTrip(8, lens[0]);
      TableTaken(lens[1..], left);
      assert [lens[0]] + lens[1..] == lens;
    } else {
      assert Table(lens) + left == left;
    }
  }

  lemma {:induction false} TakenTable(rest: Bytes, n: nat)
    requires TakeLengths(rest, n).Some?
    ensures var (lens, left) := TakeLengths(rest, n).value;
            && |lens| == n && (forall k :: 0 <= k < n ==> lens[k] < Pow256(8))
            && rest == Table(lens) + left
    decreases n
  {
    if n > 0 {
      TakenTable(rest[8..], n - 1);
      var (lens, left) := TakeLengths(rest[8..], n - 1).value;
      var first := FromBe(rest[..8]);
      FromBeRoundTrip(rest[..8]);
      assert ([first] + lens)[1..] == lens;
      assert rest == rest[..8] + rest[8..];
      assert Table([first] + lens) + left == Be(8, first) + (Table(lens) + left);
    } else {
      assert Table([]) + rest == rest;
    }
  }

  lemma {:induction false} BlobsTaken(blobs: seq<Bytes>)
    ensures TakeBlobs(Concat(blobs), Sizes(blobs)) == Some(blobs)
  {
    if blobs != [] {
      var rest := Concat(blobs);
      assert Sizes(blobs)[1..] == Sizes(blobs[1..]) && Sizes(blobs)[0] == |blobs[0]|;
      assert rest[..|blobs[0]|] == blobs[0] && rest[|blobs[0]|..] == Concat(blobs[1..]);
      BlobsTaken(blobs[1..]);
      assert [blobs[0]] + blobs[1..] == blobs;
    }
  }

  lemma {:induction false} TakenBlobs(rest: Bytes, lens: seq<nat>)
    requires TakeBlobs(rest, lens).Some?
    ensures var blobs := TakeBlobs(rest, lens).value; rest == Concat(blobs) && lens == Sizes(blobs)
  {
    if lens != [] {
      TakenBlobs(rest[lens[0]..], lens[1..]);
      var blobs := TakeBlobs(rest[lens[0]..], lens[1..]).value;
      var all := [rest[..lens[0]]] + blobs;
      assert all[1..] == blobs;
      assert rest == rest[..lens[0]] + rest[lens[0]..];
      assert lens == [lens[0]] + lens[1..];
      assert Sizes(all) == [lens[0]] + Sizes(blobs);
    }
  }

  /** A header's fields, by position. */
  lemma Fields(a: Bytes, b: Bytes, c: Bytes, d: Bytes, e: Bytes, f: Bytes)
    requires |a| == 4 && |b| == 8 && |c| == 4 && |d| == 2 && |e| == 2
    ensures var p := a + (b + (c + (d + (e + f))));
            && |p| == HEADER + |f| && p[..4] == a && p[4..12] == b && p[12..16] == c && p[16..18] == d && p[18..20] == e
                && p[20..] == f
  {
    var p := a + (b + (c + (d + (e + f))));
    assert p[4..] == b + (c + (d + (e + f)));
    assert p[12..] == p[4..][8..] == c + (d + (e + f));
    assert p[16..] == p[12..][4..] == d + (e + f);
    assert p[18..] == p[16..][2..] == e + f;
    assert p[20..] == p[18..][2..] == f;
    assert p[4..12] == p[4..][..8] && p[12..16] == p[12..][..4] && p[16..18] == p[16..][..2]
        && p[18..20] == p[18..][..2];
  }

  /** Where a frame's pieces are. */
  lemma LayoutPieces(id: nat, text: Bytes, reserved: Bytes, blobs: seq<Bytes>)
    requires Fits(id, text, blobs) && |reserved| == 2
    ensures var p := Layout(id, text, reserved, blobs);
            && |p| >= HEADER && p[..4] == MAGIC && p[4..12] == Be(8, id) && p[12..16] == Be(4, |text|)
                && p[16..18] == Be(2, |blobs|)
            && p[18..20] == reserved && p[20..] == Table(Sizes(blobs)) + (text + Concat(blobs))
  {
    hide Be, Table, Concat, Sizes, Pow256;
    Fields(MAGIC, Be(8, id), Be(4, |text|), Be(2, |blobs|), reserved, Table(Sizes(blobs)) + (text + Concat(blobs)));
  }

  lemma Joined(p: Bytes)
    requires |p| >= HEADER
    ensures p == p[..4] + (p[4..12] + (p[12..16] + (p[16..18] + (p[18..20] + p[20..]))))
  {
    assert p[18..] == p[18..20] + p[20..];
    assert p[16..] == p[16..18] + p[18..];
    assert p[12..] == p[12..16] + p[16..];
    assert p[4..] == p[4..12] + p[12..];
    assert p == p[..4] + p[4..];
  }

  lemma PiecesLayout(p: Bytes, id: nat, text: Bytes, blobs: seq<Bytes>)
    requires Fits(id, text, blobs) && |p| >= HEADER && p[..4] == MAGIC && p[4..12] == Be(8, id)
    requires p[12..16] == Be(4, |text|) && p[16..18] == Be(2, |blobs|)
    requires p[20..] == Table(Sizes(blobs)) + (text + Concat(blobs))
    ensures p == Layout(id, text, p[18..20], blobs)
  {
    hide Be, Table, Concat, Sizes, Pow256;
    Joined(p);
  }

  /** The decoder accepts exactly the frames, and reads them right; the reserved bytes do not matter. */
  lemma DecodesFrames(json: JsonCodec, payload: Bytes, id: nat, meta: Json, blobs: seq<Bytes>)
    ensures Decode(json, payload) == Some(Parsed(id, meta, blobs)) <==>
        exists text: Bytes :: IsFrame(payload, id, text, blobs) && json.loads(text) == Some(meta)
  {
    if Decode(json, payload) == Some(Parsed(id, meta, blobs)) {
      var text := DecodedFrame(json, payload);
      assert IsFrame(payload, id, text, blobs);
    }
    if text: Bytes :| IsFrame(payload, id, text, blobs) && json.loads(text) == Some(meta) {
      var reserved: Bytes :| |reserved| == 2 && payload == Layout(id, text, reserved, blobs);
      FrameDecoded(json, id, text, reserved, blobs);
    }
  }

  lemma FrameDecoded(json: JsonCodec, id: nat, text: Bytes, reserved: Bytes, blobs: seq<Bytes>)
    requires Fits(id, text, blobs) && |reserved| == 2 && json.loads(text).Some?
    ensures Decode(json, Layout(id, text, reserved, blobs)) == Some(Parsed(id, json.loads(text).value, blobs))
  {
    hide Layout, Pow256, Be, FromBe;
    var p, tail := Layout(id, text, reserved, blobs), text + Concat(blobs);
    LayoutPieces(id, text, reserved, blobs);
    BeRoundTrip(8, id);
    BeRoundTrip(4, |text|);
    BeRoundTrip(2, |blobs|);
    TableTaken(Sizes(blobs), tail);
    assert tail[..|text|] == text && tail[|text|..] == Concat(blobs);
    BlobsTaken(blobs);
  }

  lemma DecodedFrame(json: JsonCodec, payload: Bytes) returns (text: Bytes)
    requires Decode(json, payload).Some?
    ensures var r := Decode(json, payload).value;
        IsFrame(payload, r.id, text, r.blobs) && json.loads(text) == Some(r.json)
  {
    hide Pow256, Be, FromBe, Layout, Table;
    var r := Decode(json, payload).value;
    var jsonLen, count := FromBe(payload[12..16]), FromBe(payload[16..18]);
    var (lens, rest) := TakeLengths(payload[20..], count).value;
    text := rest[..jsonLen];
    TakenTable(payload[20..], count);
    TakenBlobs(rest[jsonLen..], lens);
    FromBeRoundTrip(payload[4..12]);
    FromBeRoundTrip(payload[12..16]);
    FromBeRoundTrip(payload[16..18]);
    assert rest == text + rest[jsonLen..];
    PiecesLayout(payload, r.id, text, r.blobs);
  }

  /** Decode undoes encode. */
  lemma RoundTrip(json: JsonCodec, f: Frame)
    requires Inverse(json) && Fits(f.id, json.dumps(f.meta), f.blobs)
    ensures Decode(json, Encode(json, f)) == Some(Parsed(f.id, Object(f.meta), f.blobs))
  {
    FrameDecoded(json, f.id, json.dumps(f.meta), [0, 0], f.blobs);
  }

  // -- the decoder that walks an offset ----------------------------------------------------------

  datatype FrameError =
    | ShortHeader | BadMagic | TruncatedTable | TruncatedMetadata | BadMetadata | TruncatedBlob | TrailingBytes

  /** A slice that stops at the end, as Python's does. */
  function Slice(b: Bytes, from: nat, to: nat): Bytes
    requires from <= to
  {
    if from >= |b| then [] else if to > |b| then b[from..] else b[from..to]
  }

  function Prepend<A>(a: seq<A>, r: Option<(seq<A>, Bytes)>): Option<(seq<A>, Bytes)> {
    match r
    case None => None
    case Some((x, left)) => Some((a + x, left))
  }

  function PrependAll(a: seq<Bytes>, r: Option<seq<Bytes>>): Option<seq<Bytes>> {
    match r
    case None => None
    case Some(x) => Some(a + x)
  }

  method ReadTable(payload: Bytes, count: nat) returns (lens: seq<nat>, offset: nat)
    requires HEADER + 8 * count <= |payload|
    ensures offset == HEADER + 8 * count && TakeLengths(payload[HEADER..], count) == Some((lens, payload[offset..]))
  {
    hide FromBe, Pow256, TakeLengths;
    lens, offset := [], HEADER;
    TakenTable'(payload[HEADER..], count);
    for k := 0 to count
      invariant offset == HEADER + 8 * k
      invariant TakeLengths(payload[HEADER..], count) == Prepend(lens, TakeLengths(payload[offset..], count - k))
    {
      OneMoreLength(payload, offset, count - k, lens);
      lens := lens + [FromBe(payload[offset..offset + 8])];
      offset := offset + 8;
    }
    NoMoreLengths(payload[offset..], lens);
  }

  lemma OneMoreLength(payload: Bytes, offset: nat, n: nat, lens: seq<nat>)
    requires n > 0 && offset + 8 * n <= |payload|
    ensures Prepend(lens, TakeLengths(payload[offset..], n)) ==
        Prepend(lens + [FromBe(payload[offset..offset + 8])], TakeLengths(payload[offset + 8..], n - 1))
  {
    hide FromBe;
    var rest := payload[offset..];
    assert rest[..8] == payload[offset..offset + 8] && rest[8..] == payload[offset + 8..];
    TakenTable'(rest[8..], n - 1);
    var (more, left) := TakeLengths(rest[8..], n - 1).value;
    var len := FromBe(rest[..8]);
    assert TakeLengths(rest, n) == Some(([len] + more, left));
    assert lens + ([len] + more) == (lens + [len]) + more;
  }

  lemma NoMoreLengths(rest: Bytes, lens: seq<nat>)
    ensures Prepend(lens, TakeLengths(rest, 0)) == Some((lens, rest))
  {
    assert lens + [] == lens;
  }

  /** A table that fits is read. */
  lemma {:induction false} TakenTable'(rest: Bytes, n: nat)
    requires |rest| >= 8 * n
    ensures TakeLengths(rest, n).Some?
    ensures Prepend([], TakeLengths(rest, n)) == TakeLengths(rest, n)
    decreases n
  {
    if n > 0 {
      TakenTable'(rest[8..], n - 1);
    }
    var (lens, left) := TakeLengths(rest, n).value;
    assert [] + lens == lens;
  }

  lemma {:induction false} ShortTable(rest: Bytes, n: nat)
    requires |rest| < 8 * n
    ensures TakeLengths(rest, n) == None
    decreases n
  {
    if |rest| >= 8 {
      ShortTable(rest[8..], n - 1);
    }
  }

  method ReadBlobs(payload: Bytes, start: nat, lens: seq<nat>) returns (r: Result<seq<Bytes>, FrameError>)
    requires start <= |payload|
    ensures TakeBlobs(payload[start..], lens) == if r.Success? then Some(r.value) else None
  {
    var blobs, offset := [], start;
    assert PrependAll([], TakeBlobs(payload[start..], lens)) ==
        TakeBlobs(payload[start..], lens) by { NothingBefore(TakeBlobs(payload[start..], lens)); }
    for k := 0 to |lens|
      invariant start <= offset <= |payload|
      invariant TakeBlobs(payload[start..], lens) == PrependAll(blobs, TakeBlobs(payload[offset..], lens[k..]))
    {
      var blob := Slice(payload, offset, offset + lens[k]);
      assert lens[k..][0] == lens[k] && lens[k..][1..] == lens[k + 1..];
      if |blob| != lens[k] {
        return Failure(TruncatedBlob);
      }
      assert payload[offset..][..lens[k]] == blob && payload[offset..][lens[k]..] == payload[offset + lens[k]..];
      OneMoreBlob(blobs, blob, TakeBlobs(payload[offset + lens[k]..], lens[k + 1..]));
      offset := offset + lens[k];
      blobs := blobs + [blob];
    }
    assert lens[|lens|..] == [];
    if offset != |payload| {
      return Failure(TrailingBytes);
    }
    assert payload[offset..] == [] && blobs + [] == blobs;
    r := Success(blobs);
  }

  lemma NothingBefore(r: Option<seq<Bytes>>)
    ensures PrependAll([], r) == r
  {
    if r.Some? { assert [] + r.value == r.value; }
  }

  lemma OneMoreBlob(a: seq<Bytes>, b: Bytes, r: Option<seq<Bytes>>)
    ensures PrependAll(a, PrependAll([b], r)) == PrependAll(a + [b], r)
  {
    if r.Some? { assert a + ([b] + r.value) == (a + [b]) + r.value; }
  }

  /** Accepts what the other decoder accepts, with the same result, except that the metadata must be an
      object. */
  method DecodeFrame(json: JsonCodec, payload: Bytes) returns (r: Result<Frame, FrameError>)
    ensures var d := Decode(json, payload);
            if d.Some? && d.value.json.Object? then r == Success(Frame(d.value.id, d.value.json.meta, d.value.blobs))
                else r.Failure?
  {
    hide FromBe, TakeLengths, TakeBlobs, Pow256;
    if |payload| < HEADER {
      return Failure(ShortHeader);
    }
    if payload[..4] != MAGIC {
      return Failure(BadMagic);
    }
    var id, jsonLen, count := FromBe(payload[4..12]), FromBe(payload[12..16]), FromBe(payload[16..18]);
    if HEADER + count * 8 > |payload| {
      ShortTable(payload[HEADER..], count);
      return Failure(TruncatedTable);
    }
    var lens, offset := ReadTable(payload, count);
    var text := Slice(payload, offset, offset + jsonLen);
    if |text| != jsonLen {
      return Failure(TruncatedMetadata);
    }
    assert payload[offset..][..jsonLen] == text && payload[offset..][jsonLen..] == payload[offset + jsonLen..];
    var meta := json.loads(text);
    if meta.None? || meta.value.NotObject? {
      return Failure(BadMetadata);
    }
    var blobs := ReadBlobs(payload, offset + jsonLen, lens);
    if blobs.Failure? {
      return Failure(blobs.error);
    }
    r := Success(Frame(id, meta.value.meta, blobs.value));
  }

  // -- packets on a stream --------------------------------------------------------------------------

  const MAX_PACKET: nat := 0x8000_0000

  /** A stream that gives what it has in pieces of any size. */
  class InStream {
    var rest: Bytes

    constructor (data: Bytes)
      ensures rest == data
    {
      rest := data;
    }

    /** At most n bytes; none only at the end. */
    method Read(n: nat) returns (chunk: Bytes)
      modifies this
      ensures |chunk| <= n && old(rest) == chunk + rest && (chunk == [] <==> n == 0 || old(rest) == [])
    {
      var k: nat :| k >= 1;
      k := if k > n then n else k;
      k := if k > |rest| then |rest| else k;
      chunk := rest[..k];
      rest := rest[k..];
    }
  }

  /** Exactly n bytes, however they come, or nothing if the stream ends first. */
  method ReadExact(s: InStream, n: nat) returns (r: Option<Bytes>)
    modifies s
    ensures r.Some? <==> |old(s.rest)| >= n
    ensures r.Some? ==> r.value == old(s.rest)[..n] && s.rest == old(s.rest)[n..]
    ensures r.None? ==> s.rest == []
  {
    var buf: Bytes := [];
    while |buf| < n
      invariant |buf| <= n && old(s.rest) == buf + s.rest
      decreases n - |buf|
    {
      var chunk := s.Read(n - |buf|);
      if chunk == [] {
        return None;
      }
      buf := buf + chunk;
    }
    r := Some(buf);
  }

  datatype Packet = Payload(bytes: Bytes) | Eof | TooLarge | Truncated

  /** What the front of a byte sequence holds.  A header cut short reads as the end. */
  function FirstPacket(data: Bytes): Packet {
    if |data| < 4 then Eof
    else
      var n := FromBe(data[..4]);
      if n > MAX_PACKET then TooLarge
      else if |data| - 4 < n then Truncated
      else Payload(data[4..4 + n])
  }

  method ReadPacket(s: InStream) returns (p: Packet)
    modifies s
    ensures p == FirstPacket(old(s.rest))
    ensures p.Payload? ==> s.rest == old(s.rest)[4 + |p.bytes|..]
    ensures p.Eof? ==> s.rest == []
  {
    var header := ReadExact(s, 4);
    if header.None? {
      return Eof;
    }
    var n := FromBe(header.value);
    if n > MAX_PACKET {
      return TooLarge;
    }
    var payload := ReadExact(s, n);
    if payload.None? {
      return Truncated;
    }
    p := Payload(payload.value);
  }

  function PacketBytes(payload: Bytes): Bytes
    requires |payload| <= MAX_PACKET
  {
    assert MAX_PACKET < Pow256(4);
    Be(4, |payload|) + payload
  }

  function Written(payloads: seq<Bytes>): Bytes
    requires AllFit(payloads)
  {
    if payloads == [] then [] else PacketBytes(payloads[0]) + Written(payloads[1..])
  }

  lemma FirstWritten(payload: Bytes, more: Bytes)
    requires |payload| <= MAX_PACKET
    ensures FirstPacket(PacketBytes(payload) + more) == Payload(payload)
    ensures (PacketBytes(payload) + more)[4 + |payload|..] == more
  {
    assert MAX_PACKET < Pow256(4);
    var data := PacketBytes(payload) + more;
    assert data[..4] == Be(4, |payload|);
    BeRoundTrip(4, |payload|);
    assert data[4..4 + |payload|] == payload;
  }

  /** A packet cut short, after any number of its bytes, reads as a clean end of the stream exactly when
      the cut is in its header; otherwise it is found to be truncated. */
  lemma CutShort(payload: Bytes, n: nat)
    requires |payload| <= MAX_PACKET && n < |PacketBytes(payload)|
    ensures FirstPacket(PacketBytes(payload)[..n]) == if n < 4 then Eof else Truncated
  {
    assert MAX_PACKET < Pow256(4);
    var data := PacketBytes(payload)[..n];
    if n >= 4 {
      assert data[..4] == Be(4, |payload|);
      BeRoundTrip(4, |payload|);
    }
  }

  predicate AllFit(payloads: seq<Bytes>) {
    forall k :: 0 <= k < |payloads| ==> |payloads[k]| <= MAX_PACKET
  }

  lemma NextPacket(left: seq<Bytes>)
    requires AllFit(left)
    ensures FirstPacket(Written(left)) == if left == [] then Eof else Payload(left[0])
    ensures left != [] ==> |Written(left)| >= 4 + |left[0]| && Written(left)[4 + |left[0]|..] == Written(left[1..])
  {
    if left != [] {
      FirstWritten(left[0], Written(left[1..]));
    }
  }

  lemma NextFits(left: seq<Bytes>)
    requires AllFit(left) && left != []
    ensures AllFit(left[1..])
  {
  }

  lemma Shifted(read: seq<Bytes>, left: seq<Bytes>)
    requires left != []
    ensures read + left == (read + [left[0]]) + left[1..]
  {
    assert left == [left[0]] + left[1..];
  }

  /** A list of written packets is read back exactly, whatever sizes the stream gives its bytes in. */
  method ReadAllBack(s: InStream, ghost payloads: seq<Bytes>) returns (read: seq<Bytes>)
    requires AllFit(payloads) && s.rest == Written(payloads)
    modifies s
    ensures read == payloads && s.rest == []
  {
    hide FirstPacket, Written;
    read := [];
    ghost var left := payloads;
    NextPacket(left);
    var p := ReadPacket(s);
    while p.Payload?
      invariant AllFit(left) && payloads == read + left
      invariant p == if left == [] then Eof else Payload(left[0])
      invariant s.rest == if left == [] then [] else Written(left[1..])
      decreases |left|
    {
      NextFits(left);
      Shifted(read, left);
      read := read + [p.bytes];
      left := left[1..];
      NextPacket(left);
      p := ReadPacket(s);
    }
  }
}
