/**
 * `EsInputFormat.ShardInputSplit`: the unit of work of a read job, one shard
 * served by one node. Hadoop ships it to a task by `write` and rebuilds it
 * there with `readFields` on an empty split; the layout is the one of
 * `SplitCodec`.
 */
module ShardSplit {
  import opened EsTypes
  import opened SplitCodec

  class ShardInputSplit {
    var nodeIp: Bytes
    var httpPort: int32
    var nodeId: Bytes
    var nodeName: Bytes
    var shardId: Bytes
    /** The serialized mapping of the read resource. */
    var mapping: JavaBytes
    /** The serialized job settings. */
    var settings: JavaBytes

    /** The fields, in the order they travel. */
    function Fields(): SplitFields
      reads this
    {
      SplitFields(nodeIp, httpPort, nodeId, nodeName, shardId, mapping, settings)
    }

    /** The split for one shard; the shard number is kept as its decimal text. */
    constructor (nodeIp: Bytes, httpPort: int32, nodeId: Bytes, nodeName: Bytes, shard: nat,
                 mapping: JavaBytes, settings: JavaBytes)
      ensures Fields() == SplitFields(nodeIp, httpPort, nodeId, nodeName, DecimalText(shard), mapping, settings)
    {
      this.nodeIp := nodeIp;
      this.httpPort := httpPort;
      this.nodeId := nodeId;
      this.nodeName := nodeName;
      this.shardId := DecimalText(shard);
      this.mapping := mapping;
      this.settings := settings;
    }

    /** The no-argument constructor Hadoop uses before `readFields`. */
    constructor Empty()
      ensures Fields() == SplitFields([], 0, [], [], [], [], [])
    {
      nodeIp, httpPort, nodeId, nodeName, shardId, mapping, settings := [], 0, [], [], [], [], [];
    }

    /** Every split reports the same nominal length. */
    function GetLength(): (n: int)
      ensures n == 1
    {
      1
    }

    /** The only preferred location of a split is the address of the node holding its shard. */
    function GetLocations(): (locations: seq<Bytes>)
      reads this
      ensures |locations| == 1 && locations[0] == Fields().nodeIp
    {
      [nodeIp]
    }

    /**
     * Serializes the split; a header field too long for `writeUTF` raises
     * after the fields before it were written.
     */
    method Write(out: DataOutput) returns (r: Outcome)
      modifies out
      ensures out.bytes == old(out.bytes) + Written(Fields())
      ensures r.Pass? <==> Encodable(Fields())
      ensures r.Fail? ==> r.error == UtfTooLong
    {
      ghost var f := Fields();
      ghost var start := out.bytes;
      r := out.WriteUTF(nodeIp);
      if r.Fail? {
        return;
      }
      out.WriteInt(httpPort);
      Regroup4(start, U16(|nodeIp|), nodeIp, EncodeInt(httpPort), WrittenFromId(f));
      r := WriteFromId(out);
    }

    /** The part of `write` after the address and the port: the node id onwards. */
    method WriteFromId(out: DataOutput) returns (r: Outcome)
      modifies out
      ensures out.bytes == old(out.bytes) + WrittenFromId(Fields())
      ensures r.Pass? <==> |nodeId| < UTF_LIMIT && |nodeName| < UTF_LIMIT && |shardId| < UTF_LIMIT
      ensures r.Fail? ==> r.error == UtfTooLong
    {
      ghost var f := Fields();
      ghost var before := out.bytes;
      r := out.WriteUTF(nodeId);
      if r.Fail? {
        return;
      }
      Regroup3(before, U16(|nodeId|), nodeId, WrittenFromName(f));
      before := out.bytes;
      r := out.WriteUTF(nodeName);
      if r.Fail? {
        return;
      }
      Regroup3(before, U16(|nodeName|), nodeName, WrittenFromShard(f));
      before := out.bytes;
      r := out.WriteUTF(shardId);
      if r.Fail? {
        return;
      }
      out.WriteInt(|mapping|);
      out.WriteBytes(mapping);
      out.WriteInt(|settings|);
      out.WriteBytes(settings);
      LastStage(before, f);
    }

    /** Reads one blob: its length, an array of that length, then exactly that many bytes. */
    static method ReadBlob(inp: DataInput) returns (r: Result<JavaBytes>)
      modifies inp
      ensures r.Ok? ==> DecodeBlob(old(inp.remaining)) == Ok((r.value, inp.remaining))
      ensures r.Err? ==> DecodeBlob(old(inp.remaining)) == Err(r.error)
    {
      var length := inp.ReadInt();
      if length.Err? {
        return Err(length.error);
      }
      if length.value < 0 {
        return Err(NegativeArraySize);
      }
      var utf := inp.ReadFully(length.value);
      if utf.Err? {
        return Err(utf.error);
      }
      assert utf.value == DecodeInt(old(inp.remaining)).value.1[..length.value];
      r := Ok(utf.value);
    }

    /** The header part of `readFields`: each field is assigned as soon as it is read. */
    method ReadHeader(inp: DataInput) returns (r: Outcome)
      modifies this, inp
      ensures mapping == old(mapping) && settings == old(settings)
      ensures r.Pass? ==> DecodeHeader(old(inp.remaining)) == Ok((HeaderOf(Fields()), inp.remaining))
      ensures r.Fail? ==> DecodeHeader(old(inp.remaining)) == Err(r.error)
    {
      var ip := inp.ReadUTF();
      if ip.Err? {
        return Fail(ip.error);
      }
      nodeIp := ip.value;
      var port := inp.ReadInt();
      if port.Err? {
        return Fail(port.error);
      }
      httpPort := port.value;
      r := ReadNames(inp);
    }

    method ReadNames(inp: DataInput) returns (r: Outcome)
      modifies this, inp
      ensures nodeIp == old(nodeIp) && httpPort == old(httpPort)
      ensures mapping == old(mapping) && settings == old(settings)
      ensures r.Pass? ==> DecodeNames(old(inp.remaining)) == Ok(((nodeId, nodeName, shardId), inp.remaining))
      ensures r.Fail? ==> DecodeNames(old(inp.remaining)) == Err(r.error)
    {
      var id := inp.ReadUTF();
      if id.Err? {
        return Fail(id.error);
      }
      nodeId := id.value;
      var name := inp.ReadUTF();
      if name.Err? {
        return Fail(name.error);
      }
      nodeName := name.value;
      var shard := inp.ReadUTF();
      if shard.Err? {
        return Fail(shard.error);
      }
      shardId := shard.value;
      r := Pass;
    }

    /**
     * Rebuilds the split from a stream: the seven fields in the order `write`
     * emits them. Success leaves the stream right after the split.
     */
    method ReadFields(inp: DataInput) returns (r: Outcome)
      modifies this, inp
      ensures var d := DecodeSplit(old(inp.remaining));
              && (r.Pass? <==> d.Ok?)
              && (r.Pass? ==> Fields() == d.value.0 && inp.remaining == d.value.1)
              && (r.Fail? ==> r.error == d.error)
    {
      ghost var b := inp.remaining;
      r := ReadHeader(inp);
      if r.Fail? {
        return;
      }
      ghost var r5 := inp.remaining;
      var m := ReadBlob(inp);
      if m.Err? {
        return Fail(m.error);
      }
      mapping := m.value;
      ghost var r6 := inp.remaining;
      var s := ReadBlob(inp);
      if s.Err? {
        return Fail(s.error);
      }
      settings := s.value;
      DecodeSplitSteps(b, Fields(), r5, r6, inp.remaining);
      r := Pass;
    }
  }
}
