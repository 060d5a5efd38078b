/**
 * The binary layout of a shard split (`ShardInputSplit.write` / `readFields`)
 * over Java's `DataOutput` / `DataInput` conventions: a header field is a
 * 2-byte big-endian length and that many bytes (`writeUTF`, which refuses
 * 65536 bytes or more), an int is 4 bytes big-endian two's complement, and a
 * blob is an int length followed by exactly that many bytes. Text is modelled
 * as its already-encoded bytes.
 */
module SplitCodec {
  import opened EsTypes

  /** A Java byte array: its length is a non-negative `int`. */
  type JavaBytes = b: Bytes | |b| < 0x8000_0000

  /** The seven fields of a split, in the order they are written. */
  datatype SplitFields = SplitFields(
    nodeIp: Bytes,
    httpPort: int32,
    nodeId: Bytes,
    nodeName: Bytes,
    shardId: Bytes,
    mapping: JavaBytes,
    settings: JavaBytes)

  const UTF_LIMIT: nat := 65536

  /** The length prefix of `writeUTF`. */
  function U16(n: nat): (b: Bytes)
    requires n < UTF_LIMIT
    ensures |b| == 2 && b[0] as int * 256 + b[1] as int == n
  {
    [n / 256, n % 256]
  }

  /** `writeUTF`: the length prefix and the bytes; a text of 65536 bytes or more is refused. */
  function EncodeUTF(s: Bytes): (r: Result<Bytes>)
    ensures r.Err? <==> |s| >= UTF_LIMIT
    ensures r.Err? ==> r.error == UtfTooLong
    ensures r.Ok? ==> |r.value| == 2 + |s| && r.value[2..] == s
  {
    if |s| >= UTF_LIMIT then Err(UtfTooLong) else Ok(U16(|s|) + s)
  }

  /** The 32-bit two's complement of an int, as an unsigned number. */
  function Unsigned(x: int32): (u: nat)
    ensures u < 0x1_0000_0000
    ensures x >= 0 ==> u == x
    ensures x < 0 ==> u == x + 0x1_0000_0000
  {
    if x < 0 then x + 0x1_0000_0000 else x
  }

  /** `writeInt`: four bytes, most significant first. */
  function EncodeInt(x: int32): (b: Bytes)
    ensures |b| == 4
  {
    var u := Unsigned(x);
    var v1 := u / 256;
    var v2 := v1 / 256;
    [v2 / 256, v2 % 256, v1 % 256, u % 256]
  }

  /** The int `readInt` assembles from the first four bytes of a stream. */
  function IntOf(b: Bytes): (x: int32)
    requires |b| >= 4
  {
    var u := ((b[0] as int * 256 + b[1] as int) * 256 + b[2] as int) * 256 + b[3] as int;
    if u >= 0x8000_0000 then u - 0x1_0000_0000 else u
  }

  /** A blob: its length as an int, then its bytes. */
  function EncodeBlob(data: JavaBytes): (b: Bytes)
    ensures |b| == 4 + |data| && b[4..] == data
  {
    EncodeInt(|data|) + data
  }

  /** The size of a serialized split: four 2-byte and three 4-byte prefixes, and the field bytes. */
  function SplitSize(f: SplitFields): nat {
    20 + |f.nodeIp| + |f.nodeId| + |f.nodeName| + |f.shardId| + |f.mapping| + |f.settings|
  }

  /** Every header field fits `writeUTF`. */
  predicate Encodable(f: SplitFields) {
    |f.nodeIp| < UTF_LIMIT && |f.nodeId| < UTF_LIMIT && |f.nodeName| < UTF_LIMIT && |f.shardId| < UTF_LIMIT
  }

  /**
   * The bytes `write` emits: all fields in order when every header field fits,
   * otherwise the fields before the first header field that does not fit (the
   * write raises there). Each stage below is what is left to write after the
   * fields before it.
   */
  function Written(f: SplitFields): (b: Bytes)
    ensures Encodable(f) ==> |b| == SplitSize(f)
  {
    if |f.nodeIp| >= UTF_LIMIT then [] else U16(|f.nodeIp|) + f.nodeIp + EncodeInt(f.httpPort) + WrittenFromId(f)
  }

  function WrittenFromId(f: SplitFields): Bytes {
    if |f.nodeId| >= UTF_LIMIT then [] else U16(|f.nodeId|) + f.nodeId + WrittenFromName(f)
  }

  function WrittenFromName(f: SplitFields): Bytes {
    if |f.nodeName| >= UTF_LIMIT then [] else U16(|f.nodeName|) + f.nodeName + WrittenFromShard(f)
  }

  function WrittenFromShard(f: SplitFields): Bytes {
    if |f.shardId| >= UTF_LIMIT then [] else U16(|f.shardId|) + f.shardId + EncodeBlob(f.mapping) + EncodeBlob(f.settings)
  }

  /** The serialized split, or the failure `write` raises. */
  function EncodeSplit(f: SplitFields): (r: Result<Bytes>)
    ensures r.Ok? <==> Encodable(f)
    ensures r.Err? ==> r.error == UtfTooLong
    ensures r.Ok? ==> r.value == Written(f)
    ensures r.Ok? ==> |r.value| == SplitSize(f)
  {
    if Encodable(f) then Ok(Written(f)) else Err(UtfTooLong)
  }

  /*
   * Decoding works on the unread remainder of the stream: each read returns
   * the value and what is left after it.
   */

  /** `readUTF`: the 2-byte length, then that many bytes. */
  function DecodeUTF(b: Bytes): (r: Result<(Bytes, Bytes)>)
    ensures r.Err? ==> r.error == EndOfStream
    ensures r.Err? <==> |b| < 2 || |b| < 2 + b[0] as int * 256 + b[1] as int
    ensures r.Ok? ==> |b| == 2 + |r.value.0| + |r.value.1|
  {
    if |b| < 2 then Err(EndOfStream)
    else
      var n := b[0] as int * 256 + b[1] as int;
      if |b| < 2 + n then Err(EndOfStream) else Ok((b[2..2 + n], b[2 + n..]))
  }

  /** `readInt`: four bytes, or the end of the stream. */
  function DecodeInt(b: Bytes): (r: Result<(int32, Bytes)>)
    ensures r.Err? <==> |b| < 4
    ensures r.Err? ==> r.error == EndOfStream
    ensures r.Ok? ==> |r.value.1| == |b| - 4
  {
    if |b| < 4 then Err(EndOfStream) else Ok((IntOf(b), b[4..]))
  }

  /**
   * A blob: an int length, then exactly that many bytes. A negative length
   * fails when the array is allocated; a short stream fails in `readFully`.
   */
  function DecodeBlob(b: Bytes): (r: Result<(JavaBytes, Bytes)>)
    ensures r.Err? ==> r.error in {EndOfStream, NegativeArraySize}
    ensures r.Err? && |b| >= 4 ==> (r.error == NegativeArraySize <==> IntOf(b) < 0)
    ensures r.Ok? ==> |b| == 4 + |r.value.0| + |r.value.1|
  {
    var n :- DecodeInt(b);
    if n.0 < 0 then Err(NegativeArraySize)
    else if |n.1| < n.0 then Err(EndOfStream)
    else
      var data: JavaBytes := n.1[..n.0];
      Ok((data, n.1[n.0..]))
  }

  /** The five header fields of a split, read before its two blobs. */
  datatype Header = Header(nodeIp: Bytes, httpPort: int32, nodeId: Bytes, nodeName: Bytes, shardId: Bytes)

  function HeaderOf(f: SplitFields): Header {
    Header(f.nodeIp, f.httpPort, f.nodeId, f.nodeName, f.shardId)
  }

  /** The three texts after the port: node id, node name, shard id. */
  function DecodeNames(b: Bytes): (r: Result<((Bytes, Bytes, Bytes), Bytes)>)
    ensures r.Ok? ==> |r.value.1| <= |b|
    ensures r.Err? ==> r.error == EndOfStream
  {
    var id :- DecodeUTF(b);
    var name :- DecodeUTF(id.1);
    var shard :- DecodeUTF(name.1);
    Ok(((id.0, name.0, shard.0), shard.1))
  }

  /** The header part of `readFields`: the node address and port, then the three texts. */
  function DecodeHeader(b: Bytes): (r: Result<(Header, Bytes)>)
    ensures r.Ok? ==> |r.value.1| <= |b|
    ensures r.Err? ==> r.error == EndOfStream
  {
    var ip :- DecodeUTF(b);
    var port :- DecodeInt(ip.1);
    var names :- DecodeNames(port.1);
    Ok((Header(ip.0, port.0, names.0.0, names.0.1, names.0.2), names.1))
  }

  /** `readFields`: the header, then the mapping and the settings blobs, and what follows them. */
  function DecodeSplit(b: Bytes): (r: Result<(SplitFields, Bytes)>)
    ensures r.Ok? ==> |r.value.1| <= |b|
    ensures r.Err? ==> r.error in {EndOfStream, NegativeArraySize}
  {
    var h :- DecodeHeader(b);
    var mapping :- DecodeBlob(h.1);
    var settings :- DecodeBlob(mapping.1);
    var hd := h.0;
    Ok((SplitFields(hd.nodeIp, hd.httpPort, hd.nodeId, hd.nodeName, hd.shardId, mapping.0, settings.0), settings.1))
  }

  lemma UTFRoundTrip(s: Bytes, rest: Bytes)
    requires |s| < UTF_LIMIT
    ensures DecodeUTF(U16(|s|) + s + rest) == Ok((s, rest))
  {
    var b := U16(|s|) + s + rest;
    assert b[0] == U16(|s|)[0] && b[1] == U16(|s|)[1];
    assert b[2..2 + |s|] == s && b[2 + |s|..] == rest;
  }

  lemma IntRoundTrip(x: int32, rest: Bytes)
    ensures DecodeInt(EncodeInt(x) + rest) == Ok((x, rest))
  {
    var b := EncodeInt(x) + rest;
    assert b[0] == EncodeInt(x)[0] && b[1] == EncodeInt(x)[1];
    assert b[2] == EncodeInt(x)[2] && b[3] == EncodeInt(x)[3];
    assert b[4..] == rest;
  }

  lemma BlobRoundTrip(data: JavaBytes, rest: Bytes)
    ensures DecodeBlob(EncodeBlob(data) + rest) == Ok((data, rest))
  {
    assert EncodeBlob(data) + rest == EncodeInt(|data|) + (data + rest);
    IntRoundTrip(|data|, data + rest);
    assert (data + rest)[..|data|] == data && (data + rest)[|data|..] == rest;
  }

  /** The header decodes when each of its five reads succeeds, in order. */
  lemma DecodeHeaderSteps(b: Bytes, h: Header, r1: Bytes, r2: Bytes, r3: Bytes, r4: Bytes, r5: Bytes)
    requires DecodeUTF(b) == Ok((h.nodeIp, r1))
    requires DecodeInt(r1) == Ok((h.httpPort, r2))
    requires DecodeUTF(r2) == Ok((h.nodeId, r3))
    requires DecodeUTF(r3) == Ok((h.nodeName, r4))
    requires DecodeUTF(r4) == Ok((h.shardId, r5))
    ensures DecodeHeader(b) == Ok((h, r5))
  {
    assert DecodeNames(r2) == Ok(((h.nodeId, h.nodeName, h.shardId), r5));
  }

  /** `readFields` succeeds when the header and both blobs decode, in order. */
  lemma DecodeSplitSteps(b: Bytes, f: SplitFields, r5: Bytes, r6: Bytes, r7: Bytes)
    requires DecodeHeader(b) == Ok((HeaderOf(f), r5))
    requires DecodeBlob(r5) == Ok((f.mapping, r6))
    requires DecodeBlob(r6) == Ok((f.settings, r7))
    ensures DecodeSplit(b) == Ok((f, r7))
  {
  }

  /** Regrouping a concatenation. */
  lemma Regroup(a: Bytes, b: Bytes, c: Bytes)
    ensures a + b + c == a + (b + c)
  {
  }

  /** Writing pieces after a prefix, then the rest, is the prefix followed by all of it. */
  lemma Regroup3(s: Bytes, a: Bytes, b: Bytes, w: Bytes)
    ensures s + a + b + w == s + (a + b + w)
  {
  }

  lemma Regroup4(s: Bytes, a: Bytes, b: Bytes, c: Bytes, w: Bytes)
    ensures s + a + b + c + w == s + (a + b + c + w)
  {
  }

  /** What the last stage of `write` appends: the shard id, then the two blobs. */
  lemma LastStage(s: Bytes, f: SplitFields)
    requires |f.shardId| < UTF_LIMIT
    ensures s + U16(|f.shardId|) + f.shardId + EncodeInt(|f.mapping|) + f.mapping + EncodeInt(|f.settings|) + f.settings
         == s + WrittenFromShard(f)
  {
    var h := U16(|f.shardId|) + f.shardId;
    assert WrittenFromShard(f) == h + EncodeBlob(f.mapping) + EncodeBlob(f.settings);
    Regroup3(s, U16(|f.shardId|), f.shardId, EncodeBlob(f.mapping) + EncodeBlob(f.settings));
    assert s + U16(|f.shardId|) + f.shardId + EncodeInt(|f.mapping|) + f.mapping
        == s + U16(|f.shardId|) + f.shardId + EncodeBlob(f.mapping);
  }

  lemma RoundTripFromShard(f: SplitFields, rest: Bytes)
    requires Encodable(f)
    ensures DecodeUTF(WrittenFromShard(f) + rest) == Ok((f.shardId, EncodeBlob(f.mapping) + (EncodeBlob(f.settings) + rest)))
    ensures DecodeBlob(EncodeBlob(f.mapping) + (EncodeBlob(f.settings) + rest)) == Ok((f.mapping, EncodeBlob(f.settings) + rest))
    ensures DecodeBlob(EncodeBlob(f.settings) + rest) == Ok((f.settings, rest))
  {
    var h := U16(|f.shardId|) + f.shardId;
    var t := EncodeBlob(f.mapping) + (EncodeBlob(f.settings) + rest);
    assert WrittenFromShard(f) + rest == h + t;
    UTFRoundTrip(f.shardId, t);
    BlobRoundTrip(f.mapping, EncodeBlob(f.settings) + rest);
    BlobRoundTrip(f.settings, rest);
  }

  lemma RoundTripFromName(f: SplitFields, rest: Bytes)
    requires Encodable(f)
    ensures DecodeUTF(WrittenFromName(f) + rest) == Ok((f.nodeName, WrittenFromShard(f) + rest))
  {
    Regroup(U16(|f.nodeName|) + f.nodeName, WrittenFromShard(f), rest);
    UTFRoundTrip(f.nodeName, WrittenFromShard(f) + rest);
  }

  lemma RoundTripFromId(f: SplitFields, rest: Bytes)
    requires Encodable(f)
    ensures DecodeUTF(WrittenFromId(f) + rest) == Ok((f.nodeId, WrittenFromName(f) + rest))
  {
    Regroup(U16(|f.nodeId|) + f.nodeId, WrittenFromName(f), rest);
    UTFRoundTrip(f.nodeId, WrittenFromName(f) + rest);
  }

  lemma RoundTripHead(f: SplitFields, rest: Bytes)
    requires Encodable(f)
    ensures DecodeUTF(Written(f) + rest) == Ok((f.nodeIp, EncodeInt(f.httpPort) + (WrittenFromId(f) + rest)))
    ensures DecodeInt(EncodeInt(f.httpPort) + (WrittenFromId(f) + rest)) == Ok((f.httpPort, WrittenFromId(f) + rest))
  {
    var h := U16(|f.nodeIp|) + f.nodeIp;
    var t := EncodeInt(f.httpPort) + (WrittenFromId(f) + rest);
    Regroup(h + EncodeInt(f.httpPort), WrittenFromId(f), rest);
    Regroup(h, EncodeInt(f.httpPort), WrittenFromId(f) + rest);
    UTFRoundTrip(f.nodeIp, t);
    IntRoundTrip(f.httpPort, WrittenFromId(f) + rest);
  }

  /**
   * Reading a split back from the bytes written for it restores all seven
   * fields and leaves whatever followed them unread.
   */
  lemma SplitRoundTrip(f: SplitFields, rest: Bytes)
    requires Encodable(f)
    ensures DecodeSplit(Written(f) + rest) == Ok((f, rest))
  {
    RoundTripHead(f, rest);
    RoundTripFromId(f, rest);
    RoundTripFromName(f, rest);
    RoundTripFromShard(f, rest);
    DecodeHeaderSteps(Written(f) + rest, HeaderOf(f), EncodeInt(f.httpPort) + (WrittenFromId(f) + rest),
                      WrittenFromId(f) + rest, WrittenFromName(f) + rest, WrittenFromShard(f) + rest,
                      EncodeBlob(f.mapping) + (EncodeBlob(f.settings) + rest));
    DecodeSplitSteps(Written(f) + rest, f, EncodeBlob(f.mapping) + (EncodeBlob(f.settings) + rest),
                     EncodeBlob(f.settings) + rest, rest);
  }

  /** `Integer.toString` of a non-negative number: its decimal digits, without leading zeros. */
  function DecimalText(n: nat): (s: Bytes)
    ensures |s| > 0
    ensures forall i :: 0 <= i < |s| ==> 48 <= s[i] <= 57
    ensures |s| > 1 ==> s[0] != 48
  {
    if n < 10 then [48 + n] else DecimalText(n / 10) + [48 + n % 10]
  }

  /** The number a text of decimal digits denotes. */
  function ParseDecimal(s: Bytes): nat
    requires forall i :: 0 <= i < |s| ==> 48 <= s[i] <= 57
  {
    if s == [] then 0 else ParseDecimal(s[..|s| - 1]) * 10 + (s[|s| - 1] - 48)
  }

  /** The shard id a split carries names the shard it was made for. */
  lemma {:induction false} DecimalRoundTrip(n: nat)
    ensures ParseDecimal(DecimalText(n)) == n
  {
    if n >= 10 {
      DecimalRoundTrip(n / 10);
      var s := DecimalText(n);
      assert s[..|s| - 1] == DecimalText(n / 10);
    }
  }

  /** The output stream a split is written to. */
  class DataOutput {
    var bytes: Bytes

    constructor ()
      ensures bytes == []
    {
      bytes := [];
    }

    /** `writeUTF`: a text that does not fit the 2-byte prefix raises before anything is written. */
    method WriteUTF(s: Bytes) returns (r: Outcome)
      modifies this
      ensures r.Pass? <==> |s| < UTF_LIMIT
      ensures r.Fail? ==> r.error == UtfTooLong && bytes == old(bytes)
      ensures r.Pass? ==> bytes == old(bytes) + U16(|s|) + s
    {
      if |s| >= UTF_LIMIT {
        return Fail(UtfTooLong);
      }
      bytes := bytes + U16(|s|) + s;
      r := Pass;
    }

    method WriteInt(x: int32)
      modifies this
      ensures bytes == old(bytes) + EncodeInt(x)
    {
      bytes := bytes + EncodeInt(x);
    }

    method WriteBytes(b: Bytes)
      modifies this
      ensures bytes == old(bytes) + b
    {
      bytes := bytes + b;
    }
  }

  /** The input stream a split is read from, as the bytes not yet read. */
  class DataInput {
    var remaining: Bytes

    constructor (source: Bytes)
      ensures remaining == source
    {
      remaining := source;
    }

    /**
     * `readUTF`. A failed read leaves the stream as it was: this is a
     * simplification, since Java's stream has already consumed the bytes it
     * read when it raises.
     */
    method ReadUTF() returns (r: Result<Bytes>)
      modifies this
      ensures r.Ok? ==> DecodeUTF(old(remaining)) == Ok((r.value, remaining))
      ensures r.Err? ==> DecodeUTF(old(remaining)) == Err(r.error) && remaining == old(remaining)
    {
      var d := DecodeUTF(remaining);
      if d.Err? {
        return Err(d.error);
      }
      remaining := d.value.1;
      r := Ok(d.value.0);
    }

    /**
     * `readInt`. A failed read leaves the stream as it was: this is a
     * simplification, since Java's stream has already consumed the bytes it
     * read when it raises.
     */
    method ReadInt() returns (r: Result<int32>)
      modifies this
      ensures r.Ok? ==> DecodeInt(old(remaining)) == Ok((r.value, remaining))
      ensures r.Err? ==> DecodeInt(old(remaining)) == Err(r.error) && remaining == old(remaining)
    {
      var d := DecodeInt(remaining);
      if d.Err? {
        return Err(d.error);
      }
      remaining := d.value.1;
      r := Ok(d.value.0);
    }

    /**
     * `readFully` into an array of `n` bytes: exactly `n` bytes or the
     * end-of-stream failure. A failed read leaves the stream as it was: this
     * is a simplification, since Java's stream has already consumed the
     * bytes that were available when it raises.
     */
    method ReadFully(n: nat) returns (r: Result<Bytes>)
      modifies this
      ensures r.Ok? <==> n <= |old(remaining)|
      ensures r.Ok? ==> old(remaining) == r.value + remaining && |r.value| == n
      ensures r.Err? ==> r.error == EndOfStream && remaining == old(remaining)
    {
      if n > |remaining| {
        return Err(EndOfStream);
      }
      r := Ok(remaining[..n]);
      assert remaining == remaining[..n] + remaining[n..];
      remaining := remaining[n..];
    }
  }
}
