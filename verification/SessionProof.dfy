/** What every run of the sessions keeps: no receive is surprised, the recipe head is read before any fingerprint, one
    session per client past the lock, and no deadlock. */
module SessionProof {
  import opened Bits
  import opened Common
  import opened Session
  import opened Traces

  // ---------- one session ----------

  /** The order of messages from the client. */
  ghost predicate UpShape(up: seq<Msg>, op: Op) {
    && (|up| > 0 ==> up[0] == RaNotNeed) && (|up| > 1 ==> up[1] == KeyInit) && (|up| > 2 ==> up[2] == Login(op))
    && (op == Download ==> |up| <= 4 && (|up| > 3 ==> up[3] == RestoreReady))
    && (op != Download ==> forall i :: 3 <= i < |up| ==>
        up[i] == UploadChunk || (up[i] == UploadRecipeEnd && i == |up| - 1))
  }

  /** The order of messages to the client. */
  ghost predicate DownShape(down: seq<Msg>, op: Op) {
    && (|down| > 0 ==> down[0] == KeyReply)
    && (|down| > 1 ==> down[1].LoginResponse? || (op == Download && down[1] == FileNonExist && |down| == 2))
    && (op != Download ==> |down| <= 2)
    && forall i :: 2 <= i < |down| ==> down[i] == RestoreChunk || (down[i] == RestoreFinal && i == |down| - 1)
  }

  ghost predicate Accepted(down: seq<Msg>) {
    |down| >= 2 && down[1].LoginResponse?
  }

  ghost predicate HasFinal(down: seq<Msg>) {
    |down| > 2 && down[|down| - 1] == RestoreFinal
  }

  ghost predicate Ended(up: seq<Msg>) {
    |up| > 3 && up[|up| - 1] == UploadRecipeEnd
  }

  /** Where the client is, by what it sent and received. */
  ghost predicate ClientOk(x: Session) {
    && x.closed == (x.client == ClientDone) && x.downRead <= |x.down|
    && match x.client
       case SendRa => |x.up| == 0 && x.downRead == 0
       case SendKey => |x.up| == 1 && x.downRead == 0
       case WaitKey => |x.up| == 2 && x.downRead == 0
       case SendLogin => |x.up| == 2 && x.downRead == 1
       case WaitLogin => |x.up| == 3 && x.downRead == 1
       case SendChunks => x.op != Download && |x.up| >= 3 && !Ended(x.up) && x.downRead == 2 && Accepted(x.down)
       case Finish => x.op != Download && Ended(x.up) && x.downRead == 2 && Accepted(x.down)
       case SendReady => x.op == Download && |x.up| == 3 && x.downRead == 2 && Accepted(x.down)
       case Receive =>
         && x.op == Download && |x.up| == 4 && x.downRead >= 2 && Accepted(x.down)
         && (HasFinal(x.down) ==> x.downRead < |x.down|)
       case ClientDone =>
         && x.downRead >= 2
         && (x.op != Download ==> Ended(x.up) && Accepted(x.down))
         && (x.op == Download && Accepted(x.down) ==> |x.up| == 4 && HasFinal(x.down))
         && (x.op == Download && !Accepted(x.down) ==> |x.up| == 3)
       case ClientFailed => false
  }

  /** Where the server thread is. */
  ghost predicate MainOk(x: Session) {
    && x.upRead <= |x.up|
    && match x.main
       case RecvRa => x.upRead == 0 && |x.down| == 0 && x.worker == NotSpawned
       case RecvKey => x.upRead == 1 && |x.down| == 0 && x.worker == NotSpawned
       case LockSet | LockClient | UnlockSet | SendReply => x.upRead == 2 && |x.down| == 0 && x.worker == NotSpawned
       case RecvLogin => x.upRead == 2 && |x.down| == 1 && x.worker == NotSpawned
       case CheckFile => x.upRead == 3 && |x.down| == 1 && x.worker == NotSpawned
       case SendReject => x.op == Download && x.upRead == 3 && |x.down| == 1 && x.worker == NotSpawned
       case WaitReject => x.op == Download && x.upRead == 3 && |x.down| == 2 && !Accepted(x.down)
           && x.worker == NotSpawned
       case SpawnReceiver => x.op != Download && x.upRead == 3 && |x.down| == 1 && x.worker == NotSpawned
       case RespondUpload => x.op != Download && |x.down| == 1 && x.worker == RecvChunks
       case SpawnDecoder => x.op == Download && x.upRead == 3 && |x.down| == 1 && x.worker == NotSpawned
       case ReadHead | RespondDownload => x.op == Download && |x.down| == 1 && x.worker == RecvReady
       case Join => Accepted(x.down) && x.worker != NotSpawned
       case UnlockClient | MainDone =>
         if Accepted(x.down) then x.worker == WorkerDone
         else x.op == Download && |x.down| == 2 && x.worker == NotSpawned
       case MainFailed => false
  }

  /** Where the worker is. */
  ghost predicate WorkerOk(x: Session) {
    match x.worker
    case NotSpawned => true
    case RecvChunks => x.op != Download && x.upRead >= 3
    case RecvReady => x.op == Download && x.upRead == 3 && |x.down| <= 2
    case ReadRecipe | SendTail => x.op == Download && x.upRead == 4 && !HasFinal(x.down) && x.main == Join
    case WaitClose => x.op == Download && x.upRead == 4 && HasFinal(x.down) && x.main == Join
    case WorkerDone => x.upRead >= 3 && Accepted(x.down)
      && (if x.op == Download then HasFinal(x.down) else Ended(x.up) && x.upRead == |x.up|)
    case WorkerFailed => false
  }

  /** The read handle: untouched, then past the head, then moved along by the decoder. */
  ghost predicate HandleOk(x: Session) {
    && x.batchSize > 0
    && PosOk(x.main, x.op == Download && Accepted(x.down), x.pos, x.head, x.recipe)
    && FpsOk(x.fps, x.pos, x.recipe) && ReaderOk(x.worker, x.main, x.op, x.pos, |x.recipe|)
    && HeadSent(x.op, x.down, x.recipe)
  }

  ghost predicate PosOk(main: MainPc, reading: bool, pos: nat, head: seq<byte>, recipe: seq<byte>) {
    match main
    case RespondDownload => pos == HeadLen(|recipe|) && head == recipe[..HeadLen(|recipe|)]
    case Join | UnlockClient | MainDone =>
      if reading then HeadLen(|recipe|) <= pos <= |recipe| && head == recipe[..HeadLen(|recipe|)] else pos == 0
    case _ => pos == 0
  }

  ghost predicate FpsOk(fps: seq<byte>, pos: nat, recipe: seq<byte>) {
    var n := HeadLen(|recipe|);
    fps == if n <= pos <= |recipe| then recipe[n..n + Whole(pos - n)] else []
  }

  ghost predicate ReaderOk(worker: WorkerPc, main: MainPc, op: Op, pos: nat, size: nat) {
    && (worker == RecvReady && main == Join ==> pos == HeadLen(size))
    && (worker == ReadRecipe ==> pos >= HeadLen(size) && Whole(pos - HeadLen(size)) == pos - HeadLen(size))
    && (worker == SendTail || worker == WaitClose || (op == Download && worker == WorkerDone) ==> pos == size)
  }

  ghost predicate HeadSent(op: Op, down: seq<Msg>, recipe: seq<byte>) {
    op == Download && Accepted(down) ==> down[1].head == recipe[..HeadLen(|recipe|)]
  }

  ghost predicate SessionOk(x: Session) {
    UpShape(x.up, x.op) && DownShape(x.down, x.op) && ClientOk(x) && MainOk(x) && WorkerOk(x) && HandleOk(x)
  }

  lemma ClientOpens(x: Session)
    requires SessionOk(x) && ClientStep(x).Some? && (x.client == SendRa || x.client == SendKey)
    ensures SessionOk(ClientStep(x).value)
  {
  }

  lemma ClientLogsIn(x: Session)
    requires SessionOk(x) && ClientStep(x).Some? && (x.client == SendLogin)
    ensures SessionOk(ClientStep(x).value)
  {
  }

  lemma ClientGetsKey(x: Session)
    requires SessionOk(x) && ClientStep(x).Some? && (x.client == WaitKey)
    ensures SessionOk(ClientStep(x).value)
  {
  }

  lemma ClientGetsResponse(x: Session)
    requires SessionOk(x) && ClientStep(x).Some? && (x.client == WaitLogin)
    ensures SessionOk(ClientStep(x).value)
  {
    ResponseStep(x);
    if x.down[1].LoginResponse? {
      GetsAccepted(x);
    } else {
      GetsRejected(x);
    }
  }

  lemma ResponseStep(x: Session)
    requires x.client == WaitLogin && ClientStep(x).Some? && x.downRead == 1 && DownShape(x.down, x.op)
    ensures |x.down| > 1 && ClientStep(x) == Some(
      if x.down[1].LoginResponse? then x.(downRead := 2, client := if x.op == Download then SendReady else SendChunks)
      else x.(downRead := 2, client := ClientDone, closed := true))
  {
  }

  lemma GetsAccepted(x: Session)
    requires SessionOk(x) && x.client == WaitLogin && |x.down| > 1 && x.down[1].LoginResponse?
    ensures SessionOk(x.(downRead := 2, client := if x.op == Download then SendReady else SendChunks))
  {
  }

  lemma GetsRejected(x: Session)
    requires SessionOk(x) && x.client == WaitLogin && |x.down| > 1 && !x.down[1].LoginResponse?
    ensures SessionOk(x.(downRead := 2, client := ClientDone, closed := true))
  {
  }

  lemma ClientUploads(x: Session)
    requires SessionOk(x) && ClientStep(x).Some? && (x.client == SendChunks)
    ensures SessionOk(ClientStep(x).value)
  {
    UploadShape(x.up, x.op, if |x.up| < 3 + x.batches then UploadChunk else UploadRecipeEnd);
  }

  lemma UploadShape(up: seq<Msg>, op: Op, m: Msg)
    requires UpShape(up, op) && op != Download && |up| >= 3 && !Ended(up) && (m == UploadChunk || m == UploadRecipeEnd)
    ensures UpShape(up + [m], op) && (Ended(up + [m]) <==> m == UploadRecipeEnd)
  {
  }

  lemma ClientFinishes(x: Session)
    requires SessionOk(x) && ClientStep(x).Some? && (x.client == Finish)
    ensures SessionOk(ClientStep(x).value)
  {
  }

  lemma ClientIsReady(x: Session)
    requires SessionOk(x) && ClientStep(x).Some? && (x.client == SendReady)
    ensures SessionOk(ClientStep(x).value)
  {
  }

  lemma ClientReceives(x: Session)
    requires SessionOk(x) && ClientStep(x).Some? && (x.client == Receive)
    ensures SessionOk(ClientStep(x).value)
  {
    RestoreMessage(x.down, x.downRead);
    ReceiveStep(x);
    if x.down[x.downRead] == RestoreChunk {
      ReceivesChunk(x);
    } else {
      ReceivesFinal(x);
    }
  }

  lemma RestoreMessage(down: seq<Msg>, i: nat)
    requires DownShape(down, Download) && 2 <= i < |down|
    ensures down[i] == RestoreChunk || down[i] == RestoreFinal
  {
  }

  lemma ReceiveStep(x: Session)
    requires x.client == Receive && x.downRead < |x.down|
    requires x.down[x.downRead] == RestoreChunk || x.down[x.downRead] == RestoreFinal
    ensures ClientStep(x) == Some(
      if x.down[x.downRead] == RestoreChunk then x.(downRead := x.downRead + 1)
      else x.(downRead := x.downRead + 1, client := ClientDone, closed := true))
  {
  }

  lemma ReceivesChunk(x: Session)
    requires SessionOk(x) && x.client == Receive && x.downRead < |x.down| && x.down[x.downRead] == RestoreChunk
    ensures SessionOk(x.(downRead := x.downRead + 1))
  {
  }

  lemma ReceivesFinal(x: Session)
    requires SessionOk(x) && x.client == Receive && x.downRead < |x.down| && x.down[x.downRead] == RestoreFinal
    ensures SessionOk(x.(downRead := x.downRead + 1, client := ClientDone, closed := true))
  {
  }

  lemma ClientKeeps(x: Session)
    requires SessionOk(x) && ClientStep(x).Some?
    ensures SessionOk(ClientStep(x).value)
  {
    match x.client {
      case SendRa | SendKey => ClientOpens(x);
      case SendLogin => ClientLogsIn(x);
      case WaitKey => ClientGetsKey(x);
      case WaitLogin => ClientGetsResponse(x);
      case SendChunks => ClientUploads(x);
      case Finish => ClientFinishes(x);
      case SendReady => ClientIsReady(x);
      case Receive => ClientReceives(x);
      case _ =>
    }
  }

  lemma MainOpens(x: Session)
    requires SessionOk(x) && MainStep(x).Some? && (x.main == RecvRa || x.main == RecvKey)
    ensures SessionOk(MainStep(x).value)
  {
  }

  lemma MainReplies(x: Session)
    requires SessionOk(x) && MainStep(x).Some? && (x.main == SendReply)
    ensures SessionOk(MainStep(x).value)
  {
  }

  lemma MainGetsLogin(x: Session)
    requires SessionOk(x) && MainStep(x).Some? && (x.main == RecvLogin || x.main == CheckFile)
    ensures SessionOk(MainStep(x).value)
  {
  }

  lemma MainRejects(x: Session)
    requires SessionOk(x) && MainStep(x).Some? && (x.main == SendReject || x.main == WaitReject)
    ensures SessionOk(MainStep(x).value)
  {
  }

  lemma MainSpawns(x: Session)
    requires SessionOk(x) && MainStep(x).Some? && (x.main == SpawnReceiver || x.main == SpawnDecoder)
    ensures SessionOk(MainStep(x).value)
  {
  }

  lemma MainResponds(x: Session)
    requires SessionOk(x) && MainStep(x).Some? && (x.main == RespondUpload || x.main == RespondDownload)
    ensures SessionOk(MainStep(x).value)
  {
  }

  lemma MainReadsHead(x: Session)
    requires SessionOk(x) && MainStep(x).Some? && (x.main == ReadHead)
    ensures SessionOk(MainStep(x).value)
  {
  }

  lemma MainJoins(x: Session)
    requires SessionOk(x) && MainStep(x).Some? && (x.main == Join)
    ensures SessionOk(MainStep(x).value)
  {
  }

  lemma MainKeepsEarly(x: Session)
    requires SessionOk(x) && MainStep(x).Some?
    requires x.main.RecvRa? || x.main.RecvKey? || x.main.SendReply? || x.main.RecvLogin? || x.main.CheckFile?
    ensures SessionOk(MainStep(x).value)
  {
    match x.main {
      case RecvRa | RecvKey => MainOpens(x);
      case SendReply => MainReplies(x);
      case _ => MainGetsLogin(x);
    }
  }

  lemma MainKeepsLate(x: Session)
    requires SessionOk(x) && MainStep(x).Some?
    requires !(x.main.RecvRa? || x.main.RecvKey? || x.main.SendReply? || x.main.RecvLogin? || x.main.CheckFile?)
    ensures SessionOk(MainStep(x).value)
  {
    match x.main {
      case SendReject | WaitReject => MainRejects(x);
      case SpawnReceiver | SpawnDecoder => MainSpawns(x);
      case RespondUpload | RespondDownload => MainResponds(x);
      case ReadHead => MainReadsHead(x);
      case Join => MainJoins(x);
      case _ =>
    }
  }

  lemma MainKeeps(x: Session)
    requires SessionOk(x) && MainStep(x).Some?
    ensures SessionOk(MainStep(x).value)
  {
    if x.main.RecvRa? || x.main.RecvKey? || x.main.SendReply? || x.main.RecvLogin? || x.main.CheckFile? {
      MainKeepsEarly(x);
    } else {
      MainKeepsLate(x);
    }
  }

  lemma ReceiverKeeps(x: Session)
    requires SessionOk(x) && WorkerStep(x).Some? && (x.worker == RecvChunks)
    ensures SessionOk(WorkerStep(x).value)
  {
  }

  lemma DecoderStarts(x: Session)
    requires SessionOk(x) && WorkerStep(x).Some? && (x.worker == RecvReady)
    ensures SessionOk(WorkerStep(x).value)
  {
  }

  lemma DecoderReads(x: Session)
    requires SessionOk(x) && WorkerStep(x).Some? && (x.worker == ReadRecipe)
    ensures SessionOk(WorkerStep(x).value)
  {
    if x.pos >= |x.recipe| {
      AtEnd(x);
    } else {
      var y := WorkerStep(x).value;
      DecoderReading(x);
      var end := Min(x.pos + CHUNK_HASH_SIZE * x.batchSize, |x.recipe|);
      ReadStep(x, end, y.worker);
      BatchRead(x, y, Made(x), end);
      MoreChunks(x.down, Made(x));
      assert HandleOk(y) by { HandleMoves(x, y); }
      OthersStay(x, y, Made(x));
    }
  }

  /** What reading a batch does to the handle. */
  lemma BatchRead(x: Session, y: Session, n: nat, end: nat)
    requires x.pos < |x.recipe| && end == Min(x.pos + CHUNK_HASH_SIZE * x.batchSize, |x.recipe|)
    requires y == ReadTo(x, end, n, EndPc(x, end))
    requires FpsOk(x.fps, x.pos, x.recipe) && ReaderOk(ReadRecipe, Join, Download, x.pos, |x.recipe|)
    ensures FpsOk(y.fps, y.pos, x.recipe) && ReaderOk(y.worker, Join, Download, y.pos, |x.recipe|)
    ensures x.pos <= y.pos <= |x.recipe| && (y.worker == ReadRecipe || y.worker == SendTail)
    ensures y == x.(pos := y.pos, fps := y.fps, down := x.down + Copies(RestoreChunk, n), calls := y.calls,
      worker := y.worker)
  {
    BatchEnd(x.pos, |x.recipe|, x.batchSize);
    ReadsTo(x.fps, x.pos, end, x.recipe, y.worker, y.fps);
  }

  lemma ReadsTo(fps: seq<byte>, pos: nat, end: nat, recipe: seq<byte>, next: WorkerPc, fps': seq<byte>)
    requires FpsOk(fps, pos, recipe) && ReaderOk(ReadRecipe, Join, Download, pos, |recipe|) && pos <= end <= |recipe|
    requires next == SendTail || next == ReadRecipe
    requires if next == SendTail then end == |recipe| else Whole(end - pos) == end - pos
    requires fps' == fps + recipe[pos..pos + Whole(end - pos)]
    ensures FpsOk(fps', end, recipe) && ReaderOk(next, Join, Download, end, |recipe|)
  {
    assert FpsOk(fps', end, recipe) by { FpsExtend(fps, pos, end, recipe); }
    assert ReaderOk(next, Join, Download, end, |recipe|) by { ReaderMoves(pos, end, |recipe|, next); }
  }

  /** A batch is whole fingerprints, or ends the file. */
  lemma BatchEnd(pos: nat, size: nat, batchSize: nat)
    requires pos <= size
    ensures var end := Min(pos + CHUNK_HASH_SIZE * batchSize, size);
      pos <= end && (if end - pos < CHUNK_HASH_SIZE * batchSize then end == size else Whole(end - pos) == end - pos)
  {
  }

  ghost function EndPc(x: Session, end: nat): WorkerPc {
    if end - x.pos < CHUNK_HASH_SIZE * x.batchSize then SendTail else ReadRecipe
  }

  ghost function ReadTo(x: Session, end: nat, n: nat, next: WorkerPc): Session
    requires x.pos <= end <= |x.recipe|
  {
    x.(pos := end, fps := x.fps + x.recipe[x.pos..x.pos + Whole(end - x.pos)],
        down := x.down + Copies(RestoreChunk, n), calls := x.calls + 1, worker := next)
  }

  lemma ReadStep(x: Session, end: nat, next: WorkerPc)
    requires x.worker == ReadRecipe && x.pos < |x.recipe|
      && end == Min(x.pos + CHUNK_HASH_SIZE * x.batchSize, |x.recipe|)
    requires WorkerStep(x).Some? && WorkerStep(x).value.worker == next
    ensures next == EndPc(x, end)
    ensures WorkerStep(x) == Some(ReadTo(x, end, Made(x), next))
  {
  }

  lemma WholeSum(a: nat, b: nat)
    requires Whole(a) == a
    ensures Whole(a + b) == a + Whole(b)
  {
  }

  lemma AtEnd(x: Session)
    requires SessionOk(x) && x.worker == ReadRecipe && x.pos >= |x.recipe|
    ensures SessionOk(x.(worker := SendTail))
  {
  }

  lemma DecoderReading(x: Session)
    requires SessionOk(x) && x.worker == ReadRecipe
    ensures x.main == Join && x.op == Download && Accepted(x.down) && !HasFinal(x.down) && DownShape(x.down, Download)
  {
  }

  lemma OthersStay(x: Session, y: Session, n: nat)
    requires UpShape(x.up, x.op) && DownShape(x.down, x.op) && ClientOk(x) && MainOk(x) && WorkerOk(x)
    requires x.worker == ReadRecipe && (y.worker == ReadRecipe || y.worker == SendTail) && HandleOk(y)
    requires y == x.(pos := y.pos, fps := y.fps, down := x.down + Copies(RestoreChunk, n), calls := y.calls,
      worker := y.worker)
    ensures SessionOk(y)
  {
    assert DownShape(y.down, Download) && Accepted(y.down) && !HasFinal(y.down) && y.down[1] == x.down[1] by {
      MoreChunks(x.down, n);
    }
    assert MainOk(y) && WorkerOk(y) by { RolesStay(x, y); }
    assert ClientOk(y) by { MoreSent(x, y); }
  }

  lemma RolesStay(x: Session, y: Session)
    requires MainOk(x) && WorkerOk(x) && x.worker == ReadRecipe && (y.worker == ReadRecipe || y.worker == SendTail)
    requires Accepted(x.down) && Accepted(y.down) && !HasFinal(y.down)
    requires y == x.(pos := y.pos, fps := y.fps, down := y.down, calls := y.calls, worker := y.worker)
    ensures MainOk(y) && WorkerOk(y)
  {
  }

  lemma HandleMoves(x: Session, y: Session)
    requires HandleOk(x) && x.main == Join && x.op == Download && Accepted(x.down)
    requires x.pos <= y.pos <= |x.recipe| && Accepted(y.down) && y.down[1] == x.down[1]
    requires FpsOk(y.fps, y.pos, x.recipe) && ReaderOk(y.worker, Join, Download, y.pos, |x.recipe|)
    requires y == x.(pos := y.pos, fps := y.fps, down := y.down, calls := y.calls, worker := y.worker)
    ensures HandleOk(y)
  {
    assert PosOk(Join, true, y.pos, x.head, x.recipe) by { PosMoves(x.pos, y.pos, x.head, x.recipe); }
  }

  lemma PosMoves(pos: nat, end: nat, head: seq<byte>, recipe: seq<byte>)
    requires PosOk(Join, true, pos, head, recipe) && pos <= end <= |recipe|
    ensures PosOk(Join, true, end, head, recipe)
  {
  }

  lemma ReaderMoves(pos: nat, end: nat, size: nat, next: WorkerPc)
    requires ReaderOk(ReadRecipe, Join, Download, pos, size) && pos <= end <= size
    requires (next == ReadRecipe && Whole(end - pos) == end - pos) || (next == SendTail && end == size)
    ensures ReaderOk(next, Join, Download, end, size)
  {
    WholeSum(pos - HeadLen(size), end - pos);
  }

  lemma FpsExtend(fps: seq<byte>, pos: nat, end: nat, recipe: seq<byte>)
    requires var n := HeadLen(|recipe|);
      FpsOk(fps, pos, recipe) && n <= pos <= end <= |recipe| && Whole(pos - n) == pos - n
    ensures FpsOk(fps + recipe[pos..pos + Whole(end - pos)], end, recipe)
  {
    WholeSum(pos - HeadLen(|recipe|), end - pos);
    ReadOn(recipe, HeadLen(|recipe|), pos, pos + Whole(end - pos));
  }

  lemma MoreSent(x: Session, y: Session)
    requires ClientOk(x) && x.op == y.op == Download && !HasFinal(x.down) && !HasFinal(y.down)
    requires Accepted(x.down) && Accepted(y.down) && |x.down| <= |y.down|
    requires y.client == x.client && y.up == x.up && y.downRead == x.downRead && y.closed == x.closed
    ensures ClientOk(y)
  {
  }

  lemma ReadOn<A>(file: seq<A>, from: nat, pos: nat, end: nat)
    requires from <= pos <= end <= |file|
    ensures file[from..pos] + file[pos..end] == file[from..end]
  {
  }

  lemma MoreChunks(down: seq<Msg>, n: nat)
    requires DownShape(down, Download) && Accepted(down) && !HasFinal(down)
    ensures var more := down + Copies(RestoreChunk, n);
      DownShape(more, Download) && Accepted(more) && !HasFinal(more) && more[1] == down[1]
  {
  }

  lemma DecoderSendsTail(x: Session)
    requires SessionOk(x) && WorkerStep(x).Some? && (x.worker == SendTail)
    ensures SessionOk(WorkerStep(x).value)
  {
    FinalShape(x.down, Made(x));
  }

  lemma FinalShape(down: seq<Msg>, n: nat)
    requires DownShape(down, Download) && Accepted(down) && !HasFinal(down)
    ensures var more := down + Copies(RestoreChunk, n) + [RestoreFinal];
      DownShape(more, Download) && Accepted(more) && HasFinal(more) && more[1] == down[1] && |down| < |more|
  {
  }

  lemma DecoderCloses(x: Session)
    requires SessionOk(x) && WorkerStep(x).Some? && (x.worker == WaitClose)
    ensures SessionOk(WorkerStep(x).value)
  {
  }

  lemma WorkerKeeps(x: Session)
    requires SessionOk(x) && WorkerStep(x).Some?
    ensures SessionOk(WorkerStep(x).value)
  {
    match x.worker {
      case RecvChunks => ReceiverKeeps(x);
      case RecvReady => DecoderStarts(x);
      case ReadRecipe => DecoderReads(x);
      case SendTail => DecoderSendsTail(x);
      case WaitClose => DecoderCloses(x);
      case _ =>
    }
  }

  /** A session whose server thread waits for no lock can always go on, until both sides are done. */
  predicate Finished(x: Session) {
    x.client == ClientDone && x.main == MainDone
  }

  predicate CanMove(x: Session) {
    || ClientStep(x).Some? || WorkerStep(x).Some? || MainStep(x).Some?
    || x.main == UnlockSet || x.main == UnlockClient
  }

  lemma SessionProgress(x: Session)
    requires SessionOk(x) && !Finished(x) && x.main != LockSet && x.main != LockClient
    ensures CanMove(x)
  {
    match x.client {
      case WaitKey => assert x.upRead < |x.up| || |x.down| > 0 || x.main == SendReply || x.main == UnlockSet;
      case Receive => assert x.downRead < |x.down| || x.worker == RecvReady || x.worker == ReadRecipe
          || x.worker == SendTail;
      case _ =>
    }
  }

  // ---------- the locks ----------

  predicate HoldsSet(p: MainPc) {
    p == LockClient || p == UnlockSet
  }

  predicate HoldsClient(p: MainPc) {
    match p
    case RecvRa | RecvKey | LockSet | LockClient | MainDone | MainFailed => false
    case _ => true
  }

  ghost predicate SetOk(ss: seq<Session>, holder: Option<nat>) {
    && (holder.Some? ==> holder.value < |ss| && HoldsSet(ss[holder.value].main))
    && forall i :: 0 <= i < |ss| && HoldsSet(ss[i].main) ==> holder == Some(i)
  }

  ghost predicate ClientsOk(ss: seq<Session>, holder: map<nat, nat>) {
    && (forall c :: c in holder ==> holder[c] < |ss| && ss[holder[c]].clientID == c && HoldsClient(ss[holder[c]].main))
    && forall i :: 0 <= i < |ss| && HoldsClient(ss[i].main) ==> ss[i].clientID in holder && holder[ss[i].clientID] == i
  }

  ghost predicate AllOk(ss: seq<Session>) {
    forall i :: 0 <= i < |ss| ==> SessionOk(ss[i])
  }

  ghost predicate Inv(s: State) {
    AllOk(s.sessions) && SetOk(s.sessions, s.setHolder) && ClientsOk(s.sessions, s.clientHolder)
  }

  /** A step of one session that leaves its locks alone. */
  lemma LocalKeeps(s: State, i: nat, y: Session)
    requires Inv(s) && i < |s.sessions| && SessionOk(y)
    requires var x := s.sessions[i];
      y.clientID == x.clientID && HoldsSet(y.main) == HoldsSet(x.main) && HoldsClient(y.main) == HoldsClient(x.main)
    ensures Inv(s.(sessions := s.sessions[i := y]))
  {
    SameSet(s.sessions, s.setHolder, i, y);
    SameClients(s.sessions, s.clientHolder, i, y);
  }

  lemma SameSet(ss: seq<Session>, holder: Option<nat>, i: nat, y: Session)
    requires SetOk(ss, holder) && i < |ss| && HoldsSet(y.main) == HoldsSet(ss[i].main)
    ensures SetOk(ss[i := y], holder)
  {
  }

  lemma SameClients(ss: seq<Session>, holder: map<nat, nat>, i: nat, y: Session)
    requires ClientsOk(ss, holder) && i < |ss| && HoldsClient(y.main) == HoldsClient(ss[i].main)
      && y.clientID == ss[i].clientID
    ensures ClientsOk(ss[i := y], holder)
  {
  }

  lemma TakeSet(ss: seq<Session>, i: nat, y: Session)
    requires SetOk(ss, None) && i < |ss| && HoldsSet(y.main)
    ensures SetOk(ss[i := y], Some(i))
  {
  }

  lemma LeaveSet(ss: seq<Session>, i: nat, y: Session)
    requires SetOk(ss, Some(i)) && i < |ss| && !HoldsSet(y.main)
    ensures SetOk(ss[i := y], None)
  {
  }

  lemma MainKeepsLocks(x: Session)
    requires SessionOk(x) && !AtLock(x.main) && MainStep(x).Some?
    ensures var y := MainStep(x).value;
      y.clientID == x.clientID && HoldsSet(y.main) == HoldsSet(x.main) && HoldsClient(y.main) == HoldsClient(x.main)
  {
    MainMoves(x);
    assert MainStep(x).value.main != MainFailed by { MainKeeps(x); }
  }

  lemma MainMoves(x: Session)
    requires !AtLock(x.main) && MainStep(x).Some?
    ensures var y := MainStep(x).value;
      && y.clientID == x.clientID && HoldsSet(y.main) == HoldsSet(x.main)
      && (HoldsClient(y.main) == HoldsClient(x.main) || y.main == MainFailed)
  {
  }

  lemma LockKeeps(s: State, i: nat)
    requires Inv(s) && i < |s.sessions| && LockStep(s, i).Some?
    ensures Inv(LockStep(s, i).value)
  {
    var x := s.sessions[i];
    assert SessionOk(x);
    var p := if x.main == LockSet then LockClient
             else if x.main == LockClient then UnlockSet
             else if x.main == UnlockSet then SendReply else MainDone;
    MoveOnly(x, p);
    match x.main {
      case LockSet | UnlockSet => LockSetKeeps(s, i);
      case LockClient => LockClientKeeps(s, i);
      case UnlockClient => UnlockClientKeeps(s, i);
      case _ =>
    }
  }

  lemma MoveOnly(x: Session, p: MainPc)
    requires SessionOk(x)
    requires (x.main == LockSet && p == LockClient) || (x.main == LockClient && p == UnlockSet)
          || (x.main == UnlockSet && p == SendReply) || (x.main == UnlockClient && p == MainDone)
    ensures SessionOk(x.(main := p))
  {
  }

  lemma LockSetKeeps(s: State, i: nat)
    requires Inv(s) && i < |s.sessions| && LockStep(s, i).Some?
    requires s.sessions[i].main == LockSet || s.sessions[i].main == UnlockSet
    ensures var s' := LockStep(s, i).value; SetOk(s'.sessions, s'.setHolder) && ClientsOk(s'.sessions, s'.clientHolder)
  {
    var x := s.sessions[i];
    var y := x.(main := if x.main == LockSet then LockClient else SendReply);
    SameClients(s.sessions, s.clientHolder, i, y);
    if x.main == LockSet {
      TakeSet(s.sessions, i, y);
    } else {
      LeaveSet(s.sessions, i, y);
    }
  }

  lemma LockClientKeeps(s: State, i: nat)
    requires Inv(s) && i < |s.sessions| && LockStep(s, i).Some? && s.sessions[i].main == LockClient
    ensures var s' := LockStep(s, i).value; SetOk(s'.sessions, s'.setHolder) && ClientsOk(s'.sessions, s'.clientHolder)
  {
    var y := s.sessions[i].(main := UnlockSet);
    SameSet(s.sessions, s.setHolder, i, y);
    TakeClient(s.sessions, s.clientHolder, i, y);
  }

  lemma TakeClient(ss: seq<Session>, holder: map<nat, nat>, i: nat, y: Session)
    requires ClientsOk(ss, holder) && i < |ss| && ss[i].clientID !in holder && HoldsClient(y.main)
      && y.clientID == ss[i].clientID
    ensures ClientsOk(ss[i := y], holder[y.clientID := i])
  {
  }

  lemma UnlockClientKeeps(s: State, i: nat)
    requires Inv(s) && i < |s.sessions| && LockStep(s, i).Some? && s.sessions[i].main == UnlockClient
    ensures var s' := LockStep(s, i).value; SetOk(s'.sessions, s'.setHolder) && ClientsOk(s'.sessions, s'.clientHolder)
  {
    SameSet(s.sessions, s.setHolder, i, s.sessions[i].(main := MainDone));
    Release(s.sessions, s.clientHolder, i, s.sessions[i].(main := MainDone));
  }

  lemma Release(ss: seq<Session>, holder: map<nat, nat>, i: nat, y: Session)
    requires ClientsOk(ss, holder) && i < |ss| && HoldsClient(ss[i].main) && !HoldsClient(y.main)
    ensures ClientsOk(ss[i := y], holder - {ss[i].clientID})
  {
  }

  lemma DoKeeps(s: State, i: nat, who: Actor)
    requires Inv(s) && i < |s.sessions| && Do(s, i, who).Some?
    ensures Inv(Do(s, i, who).value)
  {
    match who {
      case Client => ClientActs(s, i);
      case Worker => WorkerActs(s, i);
      case Main => MainActs(s, i);
    }
  }

  lemma ClientActs(s: State, i: nat)
    requires Inv(s) && i < |s.sessions| && ClientStep(s.sessions[i]).Some?
    ensures Inv(s.(sessions := s.sessions[i := ClientStep(s.sessions[i]).value]))
  {
    ClientKeeps(s.sessions[i]);
    SameMain(s.sessions[i]);
    LocalKeeps(s, i, ClientStep(s.sessions[i]).value);
  }

  lemma SameMain(x: Session)
    ensures ClientStep(x).Some? ==>
      ClientStep(x).value.clientID == x.clientID && ClientStep(x).value.main == x.main
    ensures WorkerStep(x).Some? ==>
      WorkerStep(x).value.clientID == x.clientID && WorkerStep(x).value.main == x.main
  {
  }

  lemma WorkerActs(s: State, i: nat)
    requires Inv(s) && i < |s.sessions| && WorkerStep(s.sessions[i]).Some?
    ensures Inv(s.(sessions := s.sessions[i := WorkerStep(s.sessions[i]).value]))
  {
    WorkerKeeps(s.sessions[i]);
    SameMain(s.sessions[i]);
    LocalKeeps(s, i, WorkerStep(s.sessions[i]).value);
  }

  lemma MainActs(s: State, i: nat)
    requires Inv(s) && i < |s.sessions| && Do(s, i, Main).Some?
    ensures Inv(Do(s, i, Main).value)
  {
    var x := s.sessions[i];
    if AtLock(x.main) {
      LockKeeps(s, i);
    } else {
      MainKeeps(x);
      MainKeepsLocks(x);
      LocalKeeps(s, i, MainStep(x).value);
    }
  }

  lemma NextKeeps(s: State, s': State)
    requires Inv(s) && Next(s, s')
    ensures Inv(s')
  {
    var i: nat, who :| i < |s.sessions| && Do(s, i, who) == Some(s');
    DoKeeps(s, i, who);
  }

  lemma RunKeeps(run: seq<State>, k: nat)
    requires Trace(run, Init, Next) && k < |run|
    ensures Inv(run[k])
  {
    forall s, s' | Inv(s) && Next(s, s')
      ensures Inv(s')
    {
      NextKeeps(s, s');
    }
    Always(run, Init, Next, Inv, k);
  }

  // ---------- the theorems ----------

  /** In every run, whatever the interleaving, each receive finds a message it accepts. */
  lemma NoReceiveFails(run: seq<State>, k: nat, i: nat)
    requires Trace(run, Init, Next) && k < |run| && i < |run[k].sessions|
    ensures var x := run[k].sessions[i];
      x.client != ClientFailed && x.main != MainFailed && x.worker != WorkerFailed
  {
    RunKeeps(run, k);
    assert SessionOk(run[k].sessions[i]);
  }

  /** The shared handle gives the head to the server thread and only what follows to the decoder; when an accepted
      download is over, the client has the head and the enclave all whole fingerprints, and when an upload is over,
      the server has received everything up to the recipe end, which came last. */
  lemma HeadThenFingerprints(run: seq<State>, k: nat, i: nat)
    requires Trace(run, Init, Next) && k < |run| && i < |run[k].sessions|
    ensures var x := run[k].sessions[i];
      var n := HeadLen(|x.recipe|);
      && x.fps <= x.recipe[n..]
      && (x.op == Download && |x.down| >= 2 && x.down[1].LoginResponse? ==> x.down[1].head == x.recipe[..n])
      && (x.main == MainDone && x.op == Download && |x.down| >= 2 && x.down[1].LoginResponse? ==>
            x.fps == x.recipe[n..n + Whole(|x.recipe| - n)])
      && (x.main == MainDone && x.op != Download ==> x.upRead == |x.up| > 3 && x.up[|x.up| - 1] == UploadRecipeEnd)
  {
    RunKeeps(run, k);
    var x := run[k].sessions[i];
    assert SessionOk(x);
    FpsPrefix(x.fps, x.pos, x.recipe);
  }

  lemma FpsPrefix(fps: seq<byte>, pos: nat, recipe: seq<byte>)
    requires FpsOk(fps, pos, recipe)
    ensures fps <= recipe[HeadLen(|recipe|)..]
  {
  }

  /** At most one session of a client ID is past its lock. */
  lemma OneSessionPerClient(run: seq<State>, k: nat, i: nat, j: nat)
    requires Trace(run, Init, Next) && k < |run| && i < |run[k].sessions| && j < |run[k].sessions|
    requires HoldsClient(run[k].sessions[i].main) && HoldsClient(run[k].sessions[j].main)
    requires run[k].sessions[i].clientID == run[k].sessions[j].clientID
    ensures i == j
  {
    RunKeeps(run, k);
  }

  /** Some thread of session h can take a step. */
  ghost predicate CanStep(s: State, h: nat) {
    h < |s.sessions| && exists who :: Do(s, h, who).Some?
  }

  lemma MoveGives(s: State, h: nat)
    requires h < |s.sessions| && CanMove(s.sessions[h])
    ensures CanStep(s, h)
  {
    var x := s.sessions[h];
    var who := if ClientStep(x).Some? then Client else if WorkerStep(x).Some? then Worker else Main;
    assert Do(s, h, who).Some?;
  }

  lemma LockGives(s: State, h: nat)
    requires h < |s.sessions| && LockStep(s, h).Some?
    ensures CanStep(s, h)
  {
    assert Do(s, h, Main) == LockStep(s, h);
  }

  /** The session that holds the lock session h waits for, or h itself if it waits for none. */
  ghost function Blocker(s: State, h: nat): nat
    requires h < |s.sessions|
  {
    var x := s.sessions[h];
    if x.main == LockSet && s.setHolder.Some? then s.setHolder.value
    else if x.main == LockClient && x.clientID in s.clientHolder then s.clientHolder[x.clientID]
    else h
  }

  /** No session is ever held up for good: it can go on itself, or the session holding the lock it waits for can, or,
      if that one holds the table's lock while it waits for a client's lock, the session holding the client's lock
      can. */
  lemma NeverDeadlocked(run: seq<State>, k: nat, i: nat)
    requires Trace(run, Init, Next) && k < |run| && i < |run[k].sessions| && !Finished(run[k].sessions[i])
    ensures var s := run[k];
      && Blocker(s, i) < |s.sessions| && Blocker(s, Blocker(s, i)) < |s.sessions|
      && CanStep(s, Blocker(s, Blocker(s, i)))
  {
    RunKeeps(run, k);
    var s := run[k];
    var b := Blocker(s, i);
    if s.sessions[i].main == LockSet && s.setHolder.None? {
      LockGives(s, i);
    } else if s.sessions[i].main == LockSet {
      HolderMoves(s, b);
    } else {
      HolderMoves(s, i);
      NeedsNoLock(s, i);
    }
  }

  /** A session that is past the table's lock waits at most for a client's lock, whose holder waits for none. */
  lemma HolderMoves(s: State, j: nat)
    requires Inv(s) && j < |s.sessions| && !Finished(s.sessions[j]) && s.sessions[j].main != LockSet
    ensures Blocker(s, j) < |s.sessions| && CanStep(s, Blocker(s, j))
  {
    var h := Blocker(s, j);
    if s.sessions[j].main == LockClient && h == j {
      LockGives(s, j);
    } else {
      assert SessionOk(s.sessions[h]);
      SessionProgress(s.sessions[h]);
      MoveGives(s, h);
    }
  }

  lemma NeedsNoLock(s: State, j: nat)
    requires Inv(s) && j < |s.sessions| && s.sessions[j].main != LockSet
    ensures Blocker(s, j) < |s.sessions| && Blocker(s, Blocker(s, j)) == Blocker(s, j)
  {
  }
}
