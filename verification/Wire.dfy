/** Batching and wire packing of chunks: the upload sender, and the unpacking loop of the download side. */
module Wire {
  import opened Common
  import opened Bits
  import opened Bytes
  import Chunker
  import Gear

  const MAX_CHUNK_SIZE: nat := 16384
  const CHUNK_T: nat := 16388

  type Chunk = c: seq<byte> | |c| <= MAX_CHUNK_SIZE

  datatype Message =
    | UploadChunk(itemNum: nat, payload: seq<byte>)
    | RecipeEnd(head: seq<byte>)

  datatype RecipeHead = RecipeHead(fileSize: nat, totalChunkNum: nat)

  datatype Data =
    | DataChunk(chunk: Chunk)
    | DataRecipeEnd(recipeHead: RecipeHead)

  /** Session encryption, as an inverse pair that keeps lengths. */
  datatype Cipher = Cipher(enc: seq<byte> -> seq<byte>, dec: seq<byte> -> seq<byte>)

  ghost predicate IsSession(c: Cipher) {
    forall x :: |c.enc(x)| == |x| && c.dec(c.enc(x)) == x
  }

  // ---------- the layout of a batch ----------

  function Pack(chunks: seq<Chunk>): seq<byte> {
    if chunks == [] then [] else Frame(chunks[0]) + Pack(chunks[1..])
  }

  /** Read n frames off the front of a buffer; None where the source would read or write out of bounds. */
  function Unpack(buf: seq<byte>, n: nat): Option<seq<Chunk>>
    decreases n
  {
    if n == 0 then Some([])
    else if |buf| < 4 then None
    else
      var size := FromLE(buf[..4]);
      if size > MAX_CHUNK_SIZE || |buf| < 4 + size then None
      else
        var chunk: Chunk := buf[4..4 + size];
        match Unpack(buf[4 + size..], n - 1)
        case None => None
        case Some(rest) => Some([chunk] + rest)
  }

  lemma {:induction false} PackSnoc(chunks: seq<Chunk>, c: Chunk)
    ensures Pack(chunks + [c]) == Pack(chunks) + Frame(c)
  {
    if chunks == [] {
      assert (chunks + [c])[1..] == [];
    } else {
      PackSnoc(chunks[1..], c);
      assert (chunks + [c])[1..] == chunks[1..] + [c];
    }
  }

  lemma {:induction false} PackSize(chunks: seq<Chunk>)
    ensures |Pack(chunks)| <= CHUNK_T * |chunks|
  {
    if chunks != [] {
      PackSize(chunks[1..]);
    }
  }

  /** Unpacking undoes packing, whatever follows in the buffer. */
  lemma {:induction false} UnpackPack(chunks: seq<Chunk>, junk: seq<byte>)
    ensures Unpack(Pack(chunks) + junk, |chunks|) == Some(chunks)
  {
    if chunks != [] {
      var rest := Pack(chunks[1..]) + junk;
      Assoc(Frame(chunks[0]), Pack(chunks[1..]), junk);
      assert Pack(chunks) + junk == Frame(chunks[0]) + rest;
      Unframe(chunks[0], rest);
      UnpackPack(chunks[1..], junk);
      assert [chunks[0]] + chunks[1..] == chunks;
    }
  }

  /** Only n * (4 + MAX_CHUNK_SIZE) bytes or more can unpack to n chunks of the maximum size. */
  lemma {:induction false} UnpackNeeds(buf: seq<byte>, n: nat)
    ensures Unpack(buf, n).Some? ==> |Unpack(buf, n).value| == n && |Pack(Unpack(buf, n).value)| <= |buf|
  {
    if n > 0 && |buf| >= 4 {
      var size := FromLE(buf[..4]);
      if size <= MAX_CHUNK_SIZE && |buf| >= 4 + size {
        UnpackNeeds(buf[4 + size..], n - 1);
        var r := Unpack(buf, n);
        if r.Some? {
          assert r.value[1..] == Unpack(buf[4 + size..], n - 1).value;
        }
      }
    }
  }

  // ---------- the 32-bit size field ----------

  /** The header's dataSize after a batch: two 32-bit additions per chunk. */
  function SizeField(chunks: seq<Chunk>): (r: nat)
    ensures r < WORD32
  {
    if chunks == [] then 0
    else
      var c := chunks[|chunks| - 1];
      ((SizeField(chunks[..|chunks| - 1]) + 4) % WORD32 + |c|) % WORD32
  }

  lemma {:induction false} SizeFieldIs(chunks: seq<Chunk>)
    requires CHUNK_T * |chunks| < WORD32
    ensures SizeField(chunks) == |Pack(chunks)|
  {
    if chunks != [] {
      var front, c := chunks[..|chunks| - 1], chunks[|chunks| - 1];
      SizeFieldIs(front);
      PackSnoc(front, c);
      assert front + [c] == chunks;
      PackSize(chunks);
      TwoAdds(|Pack(front)|, |c|);
    }
  }

  lemma TwoAdds(a: nat, b: nat)
    requires a + 4 + b < WORD32
    ensures ((a + 4) % WORD32 + b) % WORD32 == a + 4 + b
  {
  }

  lemma {:induction false} PackFull(chunks: seq<Chunk>)
    requires forall i :: 0 <= i < |chunks| ==> |chunks[i]| == MAX_CHUNK_SIZE
    ensures |Pack(chunks)| == CHUNK_T * |chunks|
  {
    if chunks != [] {
      PackFull(chunks[1..]);
    }
  }

  function FullChunk(): (c: Chunk)
    ensures |c| == MAX_CHUNK_SIZE
  {
    seq(MAX_CHUNK_SIZE, i => 0)
  }

  /** The size field is right for every batch of up to n chunks exactly when a batch of n chunks fits 32 bits. */
  lemma BatchFitsIff(n: nat)
    ensures (forall chunks: seq<Chunk> :: |chunks| <= n ==> SizeField(chunks) == |Pack(chunks)|) <==>
      CHUNK_T * n < WORD32
  {
    if CHUNK_T * n < WORD32 {
      forall chunks: seq<Chunk> | |chunks| <= n
        ensures SizeField(chunks) == |Pack(chunks)|
      {
        SizeFieldIs(chunks);
      }
    } else {
      var chunks: seq<Chunk> := seq(n, i => FullChunk());
      PackFull(chunks);
      assert SizeField(chunks) < |Pack(chunks)|;
    }
  }

  /** A batch of full chunks too big for the size field cannot be read back from the bytes that are sent. */
  lemma OversizedBatchIsLost(n: nat, chunks: seq<Chunk>, payload: seq<byte>)
    requires CHUNK_T * n >= WORD32 && |chunks| == n && |payload| == SizeField(chunks)
    requires forall i :: 0 <= i < n ==> |chunks[i]| == MAX_CHUNK_SIZE
    ensures Unpack(payload, n) != Some(chunks)
  {
    PackFull(chunks);
    UnpackNeeds(payload, n);
  }

  // ---------- batches and messages ----------

  ghost function Flatten(batches: seq<seq<Chunk>>): seq<Chunk> {
    if batches == [] then [] else Flatten(batches[..|batches| - 1]) + batches[|batches| - 1]
  }

  ghost predicate Carries(c: Cipher, m: Message, batch: seq<Chunk>) {
    m == UploadChunk(|batch|, c.enc(Pack(batch)))
  }

  ghost predicate AllCarry(c: Cipher, msgs: seq<Message>, batches: seq<seq<Chunk>>) {
    |msgs| == |batches| && forall i :: 0 <= i < |msgs| ==> Carries(c, msgs[i], batches[i])
  }

  ghost predicate AllFull(batches: seq<seq<Chunk>>, n: nat) {
    forall i :: 0 <= i < |batches| ==> |batches[i]| == n
  }

  function HeadBytes(h: RecipeHead): (r: seq<byte>)
    ensures |r| == 16
  {
    LE(h.fileSize, 8) + LE(h.totalChunkNum, 8)
  }

  /** A whole upload: full batches, then at most one shorter non-empty batch, then one recipe end. */
  ghost predicate IsUpload(c: Cipher, msgs: seq<Message>, batches: seq<seq<Chunk>>, n: nat, head: RecipeHead) {
    && |msgs| == |batches| + 1
    && AllCarry(c, msgs[..|batches|], batches)
    && msgs[|batches|] == RecipeEnd(HeadBytes(head))
    && (batches == [] || (AllFull(batches[..|batches| - 1], n) && 1 <= |batches[|batches| - 1]| <= n))
  }

  /** What a receiver makes of an upload: all chunks in order, provided a recipe end comes once and last. */
  function Received(c: Cipher, msgs: seq<Message>): Option<(seq<Chunk>, seq<byte>)> {
    if msgs == [] then None
    else
      match msgs[0]
      case RecipeEnd(head) => if |msgs| == 1 then Some(([], head)) else None
      case UploadChunk(n, payload) =>
        match Unpack(c.dec(payload), n)
        case None => None
        case Some(chunks) =>
          match Received(c, msgs[1..])
          case None => None
          case Some(rest) => Some((chunks + rest.0, rest.1))
  }

  lemma {:induction false} FlattenCons(b: seq<Chunk>, batches: seq<seq<Chunk>>)
    ensures Flatten([b] + batches) == b + Flatten(batches)
  {
    if batches == [] {
      assert ([b] + batches)[..0] == [];
    } else {
      var k := |batches| - 1;
      FlattenCons(b, batches[..k]);
      assert ([b] + batches)[..k + 1] == [b] + batches[..k];
    }
  }

  lemma CarriedUnpacks(c: Cipher, m: Message, batch: seq<Chunk>)
    requires IsSession(c) && Carries(c, m, batch)
    ensures Unpack(c.dec(m.payload), m.itemNum) == Some(batch) && |m.payload| == |Pack(batch)|
  {
    UnpackPack(batch, []);
    assert Pack(batch) + [] == Pack(batch);
  }

  lemma {:induction false} ReceivedAll(c: Cipher, msgs: seq<Message>, batches: seq<seq<Chunk>>, head: seq<byte>)
    requires IsSession(c) && |msgs| == |batches| + 1
    requires AllCarry(c, msgs[..|batches|], batches) && msgs[|batches|] == RecipeEnd(head)
    ensures Received(c, msgs) == Some((Flatten(batches), head))
  {
    if batches != [] {
      assert msgs[..|batches|][0] == msgs[0];
      CarriedUnpacks(c, msgs[0], batches[0]);
      assert msgs[1..][..|batches| - 1] == msgs[..|batches|][1..];
      ReceivedAll(c, msgs[1..], batches[1..], head);
      FlattenCons(batches[0], batches[1..]);
      assert [batches[0]] + batches[1..] == batches;
    }
  }

  /** Every upload of the chunks of a file reads back as the file, with its size and chunk count, and no message is
      larger than the sender's buffer. */
  lemma UploadCarriesFile(c: Cipher, p: Chunker.Params, file: seq<byte>, msgs: seq<Message>,
      batches: seq<seq<Chunk>>, n: nat)
    requires IsSession(c) && Chunker.Valid(p)
    requires |file| < Pow256(8)
    requires Flatten(batches) == Chunker.Chunks(p, file)
    requires IsUpload(c, msgs, batches, n, RecipeHead(|file|, |Flatten(batches)|))
    ensures Received(c, msgs).Some?
    ensures var (chunks, head) := Received(c, msgs).value;
      && Chunker.Concat(chunks) == file
      && |head| == 16 && FromLE(head[..8]) == |file| && FromLE(head[8..]) == |chunks|
    ensures forall i :: 0 <= i < |batches| ==>
      msgs[i].UploadChunk? && msgs[i].itemNum <= n && |msgs[i].payload| <= CHUNK_T * n
  {
    var chunks := Flatten(batches);
    var h := RecipeHead(|file|, |chunks|);
    assert Chunker.Concat(chunks) == file && |chunks| <= |file| by {
      Chunker.ChunksCoverFile(p, file);
      ChunkCount(chunks);
    }
    ReceivedAll(c, msgs, batches, HeadBytes(h));
    HeadReads(h);
    MessageSizes(c, msgs, batches, n, h);
  }

  lemma HeadReads(h: RecipeHead)
    requires h.fileSize < Pow256(8) && h.totalChunkNum < Pow256(8)
    ensures FromLE(HeadBytes(h)[..8]) == h.fileSize && FromLE(HeadBytes(h)[8..]) == h.totalChunkNum
  {
    assert HeadBytes(h)[..8] == LE(h.fileSize, 8) && HeadBytes(h)[8..] == LE(h.totalChunkNum, 8);
    FromLEOfLE(h.fileSize, 8);
    FromLEOfLE(h.totalChunkNum, 8);
  }

  lemma MessageSizes(c: Cipher, msgs: seq<Message>, batches: seq<seq<Chunk>>, n: nat, h: RecipeHead)
    requires IsSession(c) && IsUpload(c, msgs, batches, n, h)
    ensures forall i :: 0 <= i < |batches| ==>
      msgs[i].UploadChunk? && msgs[i].itemNum <= n && |msgs[i].payload| <= CHUNK_T * n
  {
    forall i | 0 <= i < |batches|
      ensures msgs[i].UploadChunk? && msgs[i].itemNum <= n && |msgs[i].payload| <= CHUNK_T * n
    {
      assert msgs[..|batches|][i] == msgs[i];
      assert i < |batches| - 1 ==> batches[..|batches| - 1][i] == batches[i];
      CarriedUnpacks(c, msgs[i], batches[i]);
      PackSize(batches[i]);
    }
  }

  lemma {:induction false} ChunkCount(chunks: seq<seq<byte>>)
    requires forall k :: 0 <= k < |chunks| ==> 0 < |chunks[k]|
    ensures |chunks| <= |Chunker.Concat(chunks)|
  {
    if chunks != [] {
      ChunkCount(chunks[1..]);
    }
  }

  // ---------- the sender ----------

  method AddFrame(buffer: array<byte>, used: nat, chunk: Chunk)
    requires used + 4 + |chunk| <= buffer.Length
    modifies buffer
    ensures buffer[..used + 4 + |chunk|] == old(buffer[..used]) + Frame(chunk)
  {
    ghost var packed := buffer[..used];
    Append(buffer, used, LE(|chunk|, 4));
    Append(buffer, used + 4, chunk);
    Assoc(packed, LE(|chunk|, 4), chunk);
  }

  lemma FullWhen(count: nat, n: nat)
    requires 1 <= count <= n
    ensures count % n == 0 <==> count == n
  {
    if count < n {
      DivModUnique(count, n, 0, count);
    }
  }

  class DataSender {
    const batchSize: nat
    const cipher: Cipher
    const dataBuffer: array<byte>
    var dataSize: nat
    var currentItemNum: nat
    var channel: seq<Message>
    ghost var batches: seq<seq<Chunk>>
    ghost var pending: seq<Chunk>

    ghost predicate Valid()
      reads this, dataBuffer
    {
      && 1 <= batchSize && CHUNK_T * batchSize < WORD32
      && dataBuffer.Length == CHUNK_T * batchSize
      && currentItemNum == |pending| < batchSize
      && dataSize == |Pack(pending)| <= CHUNK_T * |pending|
      && dataBuffer[..dataSize] == Pack(pending)
      && AllCarry(cipher, channel, batches) && AllFull(batches, batchSize)
    }

    /** The chunks taken so far. */
    ghost function Taken(): seq<Chunk>
      reads this
    {
      Flatten(batches) + pending
    }

    constructor (batchSize: nat, cipher: Cipher)
      requires 1 <= batchSize && CHUNK_T * batchSize < WORD32
      ensures Valid() && fresh(dataBuffer) && this.batchSize == batchSize && this.cipher == cipher
      ensures channel == [] && Taken() == []
    {
      this.batchSize, this.cipher := batchSize, cipher;
      dataBuffer := new byte[CHUNK_T * batchSize](_ => 0);
      dataSize, currentItemNum, channel := 0, 0, [];
      batches, pending := [], [];
    }

    /** Encrypt and send what is in the buffer, and clear it. */
    method SendChunks()
      requires dataSize <= dataBuffer.Length && dataBuffer[..dataSize] == Pack(pending)
      requires currentItemNum == |pending|
      modifies this
      ensures channel == old(channel) + [UploadChunk(|old(pending)|, cipher.enc(Pack(old(pending))))]
      ensures batches == old(batches) + [old(pending)] && pending == []
      ensures dataSize == 0 && currentItemNum == 0
    {
      channel := channel + [UploadChunk(currentItemNum, cipher.enc(dataBuffer[..dataSize]))];
      currentItemNum, dataSize := 0, 0;
      batches, pending := batches + [pending], [];
    }

    /** Append one chunk to the batch; a full batch goes out at once. */
    method ProcessChunk(chunk: Chunk)
      requires Valid()
      modifies this, dataBuffer
      ensures Valid() && Taken() == old(Taken()) + [chunk]
      ensures |channel| == |old(channel)| + (if |old(pending)| + 1 == batchSize then 1 else 0)
    {
      Stow(chunk);
      Assoc(Flatten(batches), old(pending), [chunk]);
      FullWhen(currentItemNum, batchSize);
      if currentItemNum % batchSize == 0 {
        SendChunks();
        assert batches[..|batches| - 1] == old(batches);
      }
    }

    /** Copy the size and the bytes of one chunk behind what is in the buffer. */
    method Stow(chunk: Chunk)
      requires Valid()
      modifies this`dataSize, this`currentItemNum, this`pending, dataBuffer
      ensures pending == old(pending) + [chunk] && currentItemNum == |pending|
      ensures dataSize == |Pack(pending)| <= CHUNK_T * |pending|
      ensures dataBuffer[..dataSize] == Pack(pending)
    {
      PackSnoc(pending, chunk);
      PackSize(pending + [chunk]);
      TwoAdds(dataSize, |chunk|);
      AddFrame(dataBuffer, dataSize, chunk);
      dataSize := (dataSize + 4) % WORD32;
      dataSize := (dataSize + |chunk|) % WORD32;
      currentItemNum := (currentItemNum + 1) % WORD32;
      pending := pending + [chunk];
    }

    /** Send what is left, if anything, then the recipe head. */
    method ProcessRecipeEnd(head: RecipeHead)
      requires Valid()
      modifies this, dataBuffer
      ensures Flatten(batches) == old(Taken())
      ensures IsUpload(cipher, channel, batches, batchSize, head)
    {
      if currentItemNum != 0 {
        SendChunks();
        assert batches[..|batches| - 1] == old(batches);
      }
      assert AllCarry(cipher, channel, batches);
      Append(dataBuffer, 0, HeadBytes(head));
      dataSize := 16;
      channel := channel + [RecipeEnd(dataBuffer[..dataSize])];
      assert channel[..|batches|] == channel[..|channel| - 1];
    }

    /** The consumer loop over what the chunker queued: its chunks and, last, the recipe end. */
    method Run(input: seq<Data>, ghost chunks: seq<Chunk>, head: RecipeHead)
      requires Valid() && channel == [] && Taken() == []
      requires |input| == |chunks| + 1 && input[|chunks|] == DataRecipeEnd(head)
      requires forall i :: 0 <= i < |chunks| ==> input[i] == DataChunk(chunks[i])
      modifies this, dataBuffer
      ensures Flatten(batches) == chunks && IsUpload(cipher, channel, batches, batchSize, head)
    {
      var k := 0;
      while k < |input|
        invariant k <= |input|
        invariant k <= |chunks| ==> Valid() && Taken() == chunks[..k]
        invariant k > |chunks| ==> Flatten(batches) == chunks && IsUpload(cipher, channel, batches, batchSize, head)
      {
        match input[k] {
          case DataChunk(chunk) =>
            ProcessChunk(chunk);
          case DataRecipeEnd(h) =>
            assert k == |chunks| && chunks[..k] == chunks;
            ProcessRecipeEnd(h);
        }
        k := k + 1;
      }
    }
  }

  /** The client's upload pipeline: chunk the file, queue the chunks and the recipe end, and send them in batches. */
  method Upload(p: Chunker.Params, file: seq<byte>, readSize: nat, batchSize: nat, cipher: Cipher)
    returns (msgs: seq<Message>)
    requires Chunker.Valid(p) && p.max <= MAX_CHUNK_SIZE && p.max <= readSize < WORD32
    requires 1 <= batchSize && CHUNK_T * batchSize < WORD32
    requires IsSession(cipher) && |file| < Pow256(8)
    ensures Received(cipher, msgs).Some?
    ensures var (got, head) := Received(cipher, msgs).value;
      && Chunker.Concat(got) == file
      && |head| == 16 && FromLE(head[..8]) == |file| && FromLE(head[8..]) == |got|
    ensures forall i :: 0 <= i < |msgs| - 1 ==>
      msgs[i].UploadChunk? && msgs[i].itemNum <= batchSize && |msgs[i].payload| <= CHUNK_T * batchSize
  {
    var cut, fileSize := Chunker.FastCDC(p, file, readSize);
    Chunker.ChunksCoverFile(p, file);
    var chunks: seq<Chunk> := cut;
    ghost var batches;
    msgs, batches := SendAll(chunks, RecipeHead(fileSize, |chunks|), batchSize, cipher);
    UploadCarriesFile(cipher, p, file, msgs, batches, batchSize);
  }

  /** The queue between the chunker and the sender, and the sender on it. */
  method SendAll(chunks: seq<Chunk>, head: RecipeHead, batchSize: nat, cipher: Cipher)
    returns (msgs: seq<Message>, ghost batches: seq<seq<Chunk>>)
    requires 1 <= batchSize && CHUNK_T * batchSize < WORD32
    ensures Flatten(batches) == chunks && IsUpload(cipher, msgs, batches, batchSize, head)
  {
    var queued := seq(|chunks|, i requires 0 <= i < |chunks| => DataChunk(chunks[i])) + [DataRecipeEnd(head)];
    var sender := new DataSender(batchSize, cipher);
    sender.Run(queued, chunks, head);
    msgs, batches := sender.channel, sender.batches;
  }

  // ---------- the retriever ----------

  /** One turn of the unpacking loop; not ok where the source would read or write out of bounds. */
  method ReadFrame(buf: seq<byte>, offset: nat, ghost n: nat) returns (ok: bool, chunk: Chunk, next: nat)
    requires offset <= |buf| && n > 0
    ensures ok ==> offset < next <= |buf|
    ensures Unpack(buf[offset..], n) ==
      if !ok then None
      else match Unpack(buf[next..], n - 1)
           case None => None
           case Some(rest) => Some([chunk] + rest)
  {
    ghost var rest := buf[offset..];
    ok, chunk, next := false, [], offset;
    if offset + 4 <= |buf| {
      assert buf[offset..offset + 4] == rest[..4];
      var chunkSize := FromLE(buf[offset..offset + 4]);
      next := offset + 4;
      if chunkSize <= MAX_CHUNK_SIZE && next + chunkSize <= |buf| {
        assert buf[next..next + chunkSize] == rest[4..4 + chunkSize];
        ok, chunk := true, buf[next..next + chunkSize];
        next := next + chunkSize;
        assert buf[next..] == rest[4 + chunkSize..];
      }
    }
  }

  /** What is unpacked in all, when `done` is unpacked and the rest gives `more`. */
  ghost function Joined(done: seq<Chunk>, more: Option<seq<Chunk>>): Option<seq<Chunk>> {
    match more
    case None => None
    case Some(rest) => Some(done + rest)
  }

  class DataRetriever {
    const cipher: Cipher
    var outputMQ: seq<Chunk>
    var totalRecvDataSize: nat
    var totalRecvChunkNum: nat

    constructor (cipher: Cipher)
      ensures this.cipher == cipher && outputMQ == [] && totalRecvDataSize == 0 && totalRecvChunkNum == 0
    {
      this.cipher := cipher;
      outputMQ, totalRecvDataSize, totalRecvChunkNum := [], 0, 0;
    }

    /** Decrypt a batch and queue its chunks one by one; not ok exactly when the batch does not unpack within its
        bounds, which the source does not check. */
    method ProcessChunkBatch(chunkNum: nat, payload: seq<byte>) returns (ok: bool)
      modifies this
      ensures ok <==> Unpack(cipher.dec(payload), chunkNum).Some?
      ensures ok ==> var got := Unpack(cipher.dec(payload), chunkNum).value;
        && outputMQ == old(outputMQ) + got
        && totalRecvChunkNum == old(totalRecvChunkNum) + |got|
        && totalRecvDataSize == old(totalRecvDataSize) + |Chunker.Concat(got)|
      ensures old(outputMQ) <= outputMQ
    {
      var decBuffer := cipher.dec(payload);
      var offset := 0;
      ghost var done: seq<Chunk> := [];
      assert decBuffer[0..] == decBuffer && Joined([], Unpack(decBuffer, chunkNum)) == Unpack(decBuffer, chunkNum) by {
        if Unpack(decBuffer, chunkNum).Some? {
          assert [] + Unpack(decBuffer, chunkNum).value == Unpack(decBuffer, chunkNum).value;
        }
      }
      for i := 0 to chunkNum
        invariant offset <= |decBuffer| && |done| == i
        invariant Joined(done, Unpack(decBuffer[offset..], chunkNum - i)) == Unpack(decBuffer, chunkNum)
        invariant outputMQ == old(outputMQ) + done
        invariant totalRecvChunkNum == old(totalRecvChunkNum) + i
        invariant totalRecvDataSize == old(totalRecvDataSize) + |Chunker.Concat(done)|
      {
        var chunk;
        ghost var before := Unpack(decBuffer[offset..], chunkNum - i);
        ok, chunk, offset := ReadFrame(decBuffer, offset, chunkNum - i);
        if !ok {
          return;
        }
        JoinOne(done, chunk, before, Unpack(decBuffer[offset..], chunkNum - i - 1));
        outputMQ := outputMQ + [chunk];
        Assoc(old(outputMQ), done, [chunk]);
        totalRecvDataSize := totalRecvDataSize + |chunk|;
        totalRecvChunkNum := totalRecvChunkNum + 1;
        done := done + [chunk];
      }
      ok := true;
      assert done + [] == done;
    }
  }

  lemma JoinOne(done: seq<Chunk>, chunk: Chunk, before: Option<seq<Chunk>>, more: Option<seq<Chunk>>)
    requires before == match more
             case None => None
             case Some(rest) => Some([chunk] + rest)
    ensures Joined(done + [chunk], more) == Joined(done, before)
    ensures |Chunker.Concat(done + [chunk])| == |Chunker.Concat(done)| + |chunk|
  {
    if more.Some? {
      Assoc(done, [chunk], more.value);
    }
    ConcatAppend(done, [chunk]);
    assert Chunker.Concat([chunk]) == chunk + Chunker.Concat([chunk][1..]);
  }

  /** The payloads of an upload, run through the retriever's unpacking loop in order, give back the chunks. */
  method UnpackUpload(cipher: Cipher, msgs: seq<Message>, ghost batches: seq<seq<Chunk>>, ghost head: RecipeHead,
      ghost n: nat)
    returns (chunks: seq<Chunk>, size: nat, count: nat)
    requires IsSession(cipher) && IsUpload(cipher, msgs, batches, n, head)
    ensures chunks == Flatten(batches) && count == |chunks| && size == |Chunker.Concat(chunks)|
  {
    var retriever := new DataRetriever(cipher);
    ghost var done := [];
    for i := 0 to |msgs| - 1
      invariant retriever.cipher == cipher && done == batches[..i]
      invariant retriever.outputMQ == Flatten(done)
      invariant retriever.totalRecvChunkNum == |Flatten(done)|
        && retriever.totalRecvDataSize == |Chunker.Concat(Flatten(done))|
    {
      assert msgs[..|batches|][i] == msgs[i];
      CarriedUnpacks(cipher, msgs[i], batches[i]);
      assert batches[..i + 1][..i] == done;
      ConcatAppend(Flatten(done), batches[i]);
      var _ := retriever.ProcessChunkBatch(msgs[i].itemNum, msgs[i].payload);
      done := batches[..i + 1];
    }
    assert batches[..|batches|] == batches;
    chunks, size, count := retriever.outputMQ, retriever.totalRecvDataSize, retriever.totalRecvChunkNum;
  }

  lemma {:induction false} ConcatAppend(a: seq<seq<byte>>, b: seq<seq<byte>>)
    ensures Chunker.Concat(a + b) == Chunker.Concat(a) + Chunker.Concat(b)
  {
    if a == [] {
      assert a + b == b;
    } else {
      ConcatAppend(a[1..], b);
      assert (a + b)[0] == a[0] && (a + b)[1..] == a[1..] + b;
      Assoc(a[0], Chunker.Concat(a[1..]), Chunker.Concat(b));
    }
  }

  /** Upload a file and unpack what was sent: the file comes back, byte for byte. */
  method UploadThenUnpack(p: Chunker.Params, file: seq<byte>, readSize: nat, batchSize: nat, cipher: Cipher)
    returns (restored: seq<Chunk>, size: nat)
    requires Chunker.Valid(p) && p.max <= MAX_CHUNK_SIZE && p.max <= readSize < WORD32
    requires 1 <= batchSize && CHUNK_T * batchSize < WORD32 && IsSession(cipher)
    ensures Chunker.Concat(restored) == file && size == |file|
  {
    var cut, fileSize := Chunker.FastCDC(p, file, readSize);
    Chunker.ChunksCoverFile(p, file);
    var chunks: seq<Chunk> := cut;
    var head := RecipeHead(fileSize, |chunks|);
    ghost var batches;
    var msgs;
    msgs, batches := SendAll(chunks, head, batchSize, cipher);
    var count;
    restored, size, count := UnpackUpload(cipher, msgs, batches, head, batchSize);
  }

  /** The same with the Gear table and the shipped configuration. */
  method BackupAsConfigured(file: seq<byte>, cipher: Cipher) returns (restored: seq<Chunk>, size: nat)
    requires IsSession(cipher)
    ensures Chunker.Concat(restored) == file && size == |file|
  {
    var p := Chunker.MakeParams(Gear.GearTable(), 4096, 8192, 16384);
    Chunker.SettingsAreValid(p.gear, 4096, 8192, 16384);
    restored, size := UploadThenUnpack(p, file, 128 * 1024 * 1024, 128, cipher);
  }
}
