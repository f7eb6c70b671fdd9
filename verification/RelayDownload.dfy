/** Downloading an artifact through the relay, chunk by chunk (artifact-cache.ts, `downloadArtifact`). */
module RelayDownload {
  import opened Options
  import opened Base64

  const CHUNK_LIMIT := 32 * 1024
  const CHUNK_TEXT_LIMIT := 44 * 1024

  // One reply. `sameArtifact` says that identity, digest, size and type in it match what was asked for.
  datatype Chunk = Chunk(sameArtifact: bool, totalBytes: int, text: Option<string>, offset: int, endOffset: int,
                         truncated: bool, next: Option<int>)

  // What a host that holds `content` replies when asked for the bytes at `offset`.
  function HonestChunk(content: seq<Byte>, offset: nat): Chunk
    requires offset <= |content|
  {
    var end := if offset + 32_768 < |content| then offset + 32_768 else |content|;
    Chunk(true, |content|, Some(Encode(content[offset..end])), offset, end, end < |content|,
          if end < |content| then Some(end) else None)
  }

  // The reply is well-formed and brings these bytes, which go at `offset`.
  predicate Brings(c: Chunk, offset: nat, size: nat, bytes: seq<Byte>)
  {
    var end := offset + |bytes|;
    && c.sameArtifact && c.totalBytes == size && c.text.Some? && |c.text.value| <= CHUNK_TEXT_LIMIT
    && c.text.value == Encode(bytes)
    && c.offset == offset && 0 < |bytes| <= CHUNK_LIMIT && end <= size && c.endOffset == end
    && (c.truncated <==> end < size)
    && c.next == (if end < size then Some(end) else None)
  }

  /** A reply brings bytes only if it is about the file asked for, its text is at most 44 KiB, and it brings between 1 and
      32768 bytes from the offset on, all within the file; it says truthfully where they end and whether more follow. */
  lemma BroughtBytesFit(c: Chunk, offset: nat, size: nat, bytes: seq<Byte>)
    requires Brings(c, offset, size, bytes)
    ensures c.sameArtifact && c.totalBytes == size && c.text.Some? && |c.text.value| <= 45_056
    ensures 1 <= |bytes| <= 32_768 && offset + |bytes| <= size
    ensures c.offset == offset && c.endOffset == offset + |bytes|
    ensures c.truncated <==> c.next.Some?
    ensures c.next.Some? <==> c.endOffset < size
    ensures c.next.Some? ==> c.next.value == c.endOffset
    ensures Decode(c.text.value) == Some(bytes)
  {
    DecodingIsBijective(c.text.value, bytes);
    hide Encode, Decode;
  }

  function Prepend(file: seq<Byte>, rest: Option<seq<Byte>>): Option<seq<Byte>>
  {
    if rest.Some? then Some(file + rest.value) else None
  }

  // The bytes from `offset` on that a host replying `serve` delivers; None if some reply is refused.
  ghost function Delivered(serve: nat -> Chunk, offset: nat, size: nat): (r: Option<seq<Byte>>)
    requires offset <= size
    ensures r.Some? ==> |r.value| == size - offset
    decreases size - offset
  {
    if offset == size then Some([])
    else if bytes: seq<Byte> :| Brings(serve(offset), offset, size, bytes) then
      Prepend(bytes, Delivered(serve, offset + |bytes|, size))
    else None
  }

  // A reply brings one thing only.
  lemma BringsOne(c: Chunk, offset: nat, size: nat, a: seq<Byte>, b: seq<Byte>)
    requires Brings(c, offset, size, a) && Brings(c, offset, size, b)
    ensures a == b
  {
    DecodingIsBijective(c.text.value, a);
    DecodingIsBijective(c.text.value, b);
  }

  lemma DeliveredStep(serve: nat -> Chunk, offset: nat, size: nat, bytes: seq<Byte>)
    requires offset < size && Brings(serve(offset), offset, size, bytes)
    ensures var rest := Delivered(serve, offset + |bytes|, size);
      Delivered(serve, offset, size) == Prepend(bytes, rest)
  {
    hide Encode, Decode;
    var chosen: seq<Byte> :| Brings(serve(offset), offset, size, chosen)
      && Delivered(serve, offset, size) == Prepend(chosen, Delivered(serve, offset + |chosen|, size));
    BringsOne(serve(offset), offset, size, chosen, bytes);
  }

  lemma {:induction false} EncodedLength(b: seq<Byte>)
    ensures |Encode(b)| == (|b| + 2) / 3 * 4
  {
    if |b| > 2 {
      EncodedLength(b[3..]);
    }
  }

  /** A host that holds the file and answers every request honestly delivers exactly the rest of the file; no check of
      the client refuses it. */
  lemma {:induction false} HonestHostDelivers(content: seq<Byte>, serve: nat -> Chunk, offset: nat)
    requires offset <= |content|
    requires forall o: nat :: o <= |content| ==> serve(o) == HonestChunk(content, o)
    ensures Delivered(serve, offset, |content|) == Some(content[offset..])
    decreases |content| - offset
  {
    hide Encode, Decode, Brings, HonestChunk;
    if offset < |content| {
      var end := HonestBrings(content, offset);
      HonestHostDelivers(content, serve, end);
      DeliveredStep(serve, offset, |content|, content[offset..end]);
      assert content[offset..end] + content[end..] == content[offset..];
    } else {
      assert content[offset..] == [];
    }
  }

  lemma HonestBrings(content: seq<Byte>, offset: nat) returns (end: nat)
    requires offset < |content|
    ensures offset < end <= |content|
    ensures Brings(HonestChunk(content, offset), offset, |content|, content[offset..end])
  {
    hide Encode, Decode;
    end := HonestChunk(content, offset).endOffset;
    EncodedLength(content[offset..end]);
  }

  // One reply, checked and decoded.
  method AcceptChunk(chunk: Chunk, offset: nat, size: nat) returns (bytes: Option<seq<Byte>>)
    ensures bytes.Some? ==> Brings(chunk, offset, size, bytes.value)
    ensures bytes == None ==> forall b: seq<Byte> :: !Brings(chunk, offset, size, b)
  {
    hide Decode, Encode;
    if !chunk.sameArtifact || chunk.totalBytes != size || chunk.text == None ||
       |chunk.text.value| > CHUNK_TEXT_LIMIT {
      return None;
    }
    var decoded := DecodeChunk(chunk.text.value);
    if decoded == None {
      Undecodable(chunk, offset, size);
      return None;
    }
    var data := decoded.value[..];
    DecodingIsBijective(chunk.text.value, data);
    var end := offset + |data|;
    if chunk.offset != offset || |data| == 0 || |data| > CHUNK_LIMIT || end > size || chunk.endOffset != end ||
       chunk.truncated != (end < size) || (if end < size then chunk.next != Some(end) else chunk.next != None) {
      OnlyItsDecoding(chunk, offset, size, data);
      return None;
    }
    bytes := Some(data);
  }

  lemma NothingDelivered(serve: nat -> Chunk, offset: nat, size: nat, file: seq<Byte>)
    requires offset < size && forall b: seq<Byte> :: !Brings(serve(offset), offset, size, b)
    ensures Prepend(file, Delivered(serve, offset, size)) == None
  {
    hide Brings;
  }

  lemma AllDelivered(serve: nat -> Chunk, size: nat, file: seq<Byte>)
    ensures Prepend(file, Delivered(serve, size, size)) == Some(file)
  {
    assert file + [] == file;
  }

  /** The loop: it writes what the host delivers, in order and without a gap, and stops at the announced size; it throws
      exactly when some reply is refused. With an honest host the file written is the host's file. */
  method ReadChunks(serve: nat -> Chunk, size: nat) returns (written: Option<seq<Byte>>)
    ensures written == Delivered(serve, 0, size)
    ensures written.Some? ==> |written.value| == size
  {
    hide *;
    var file: seq<Byte> := [];
    var offset := 0;
    PrependNothing(Delivered(serve, 0, size));
    while offset < size
      invariant 0 <= offset <= size && |file| == offset
      invariant Delivered(serve, 0, size) == Prepend(file, Delivered(serve, offset, size))
    {
      var bytes := AcceptChunk(serve(offset), offset, size);
      if bytes == None {
        NothingDelivered(serve, offset, size, file);
        return None;
      }
      BringsSome(serve(offset), offset, size, bytes.value);
      DeliveredStep(serve, offset, size, bytes.value);
      PrependTwice(file, bytes.value, Delivered(serve, offset + |bytes.value|, size));
      file := file + bytes.value;
      offset := offset + |bytes.value|;
    }
    AllDelivered(serve, size, file);
    written := Some(file);
  }

  lemma BringsSome(c: Chunk, offset: nat, size: nat, bytes: seq<Byte>)
    requires Brings(c, offset, size, bytes)
    ensures |bytes| > 0 && offset + |bytes| <= size
  {
  }

  lemma PrependNothing(rest: Option<seq<Byte>>)
    ensures Prepend([], rest) == rest
  {
    if rest.Some? {
      assert [] + rest.value == rest.value;
    }
  }

  lemma PrependTwice(a: seq<Byte>, b: seq<Byte>, rest: Option<seq<Byte>>)
    ensures Prepend(a, Prepend(b, rest)) == Prepend(a + b, rest)
  {
    if rest.Some? {
      assert a + (b + rest.value) == a + b + rest.value;
    }
  }

  lemma Undecodable(c: Chunk, offset: nat, size: nat)
    requires c.text.Some? && Decode(c.text.value) == None
    ensures forall bytes: seq<Byte> :: !Brings(c, offset, size, bytes)
  {
    forall bytes: seq<Byte>
      ensures !Brings(c, offset, size, bytes)
    {
      DecodingIsBijective(c.text.value, bytes);
    }
  }

  lemma OnlyItsDecoding(c: Chunk, offset: nat, size: nat, decoded: seq<Byte>)
    requires c.text.Some? && Decode(c.text.value) == Some(decoded) && !Brings(c, offset, size, decoded)
    ensures forall bytes: seq<Byte> :: !Brings(c, offset, size, bytes)
  {
    forall bytes: seq<Byte>
      ensures !Brings(c, offset, size, bytes)
    {
      DecodingIsBijective(c.text.value, bytes);
    }
  }
}
