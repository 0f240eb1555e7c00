/** Upload, offline and download sessions: for each session a client, a server thread and the worker thread it spawns,
    joined by a connection; for all sessions together, the table of per-client locks. */
module Session {
  import opened Common
  import opened Bits

  datatype Op = Upload | Offline | Download

  datatype Msg =
    | RaNotNeed | KeyInit | KeyReply
    | Login(op: Op) | LoginResponse(head: seq<byte>) | FileNonExist
    | UploadChunk | UploadRecipeEnd
    | RestoreReady | RestoreChunk | RestoreFinal

  datatype ClientPc =
    | SendRa | SendKey | WaitKey | SendLogin | WaitLogin
    | SendChunks | Finish
    | SendReady | Receive
    | ClientDone | ClientFailed

  datatype MainPc =
    | RecvRa | RecvKey | LockSet | LockClient | UnlockSet | SendReply | RecvLogin | CheckFile
    | SendReject | WaitReject
    | SpawnReceiver | RespondUpload
    | SpawnDecoder | ReadHead | RespondDownload
    | Join | UnlockClient | MainDone | MainFailed

  datatype WorkerPc =
    | NotSpawned
    | RecvChunks
    | RecvReady | ReadRecipe | SendTail | WaitClose
    | WorkerDone | WorkerFailed

  const HEAD: nat := 16
  const CHUNK_HASH_SIZE: nat := 32

  /** How much of a file of this size its head is: a file may be shorter than a whole head. */
  function HeadLen(size: nat): (n: nat)
    ensures n <= size
  {
    Min(HEAD, size)
  }

  /** One session. Given from the start: the operation, the client, how many batches of chunks an upload has, whether
      the recipe file exists when the server looks, its bytes, how many fingerprints are read at once, and how many
      batches of chunks the enclave sends for each of these reads and at the end. A direction of the connection is all
      that was sent and how much of it was received; `pos` is the position of the shared read handle, `head` what the
      server thread read through it, `fps` what the decoder read through it, in `calls` reads, and handed to the
      enclave. */
  datatype Session = Session(
    op: Op, clientID: nat, batches: nat, found: bool, recipe: seq<byte>, batchSize: nat, makes: seq<nat>,
    client: ClientPc, main: MainPc, worker: WorkerPc,
    up: seq<Msg>, upRead: nat, down: seq<Msg>, downRead: nat, closed: bool,
    pos: nat, head: seq<byte>, fps: seq<byte>, calls: nat)

  function Send(x: Session, m: Msg): Session {
    x.(up := x.up + [m])
  }

  function Reply(x: Session, m: Msg): Session {
    x.(down := x.down + [m])
  }

  function Copies(m: Msg, n: nat): (r: seq<Msg>)
    ensures |r| == n && forall i :: 0 <= i < n ==> r[i] == m
  {
    seq(n, _ => m)
  }

  // ---------- the client ----------

  /** None: blocked or finished. */
  function ClientStep(x: Session): Option<Session> {
    match x.client
    case SendRa => Some(Send(x, RaNotNeed).(client := SendKey))
    case SendKey => Some(Send(x, KeyInit).(client := WaitKey))
    case WaitKey =>
      if x.downRead < |x.down| then
        Some(x.(downRead := x.downRead + 1,
                client := if x.down[x.downRead] == KeyReply then SendLogin else ClientFailed))
      else None
    case SendLogin => Some(Send(x, Login(x.op)).(client := WaitLogin))
    case WaitLogin =>
      if x.downRead < |x.down| then
        var got := x.(downRead := x.downRead + 1);
        match x.down[x.downRead]
        case LoginResponse(_) => Some(got.(client := if x.op == Download then SendReady else SendChunks))
        case FileNonExist =>
            Some(if x.op == Download then got.(client := ClientDone, closed := true) else got.(client := ClientFailed))
        case _ => Some(got.(client := ClientFailed))
      else None
    case SendChunks =>
      Some(if |x.up| < 3 + x.batches then Send(x, UploadChunk) else Send(x, UploadRecipeEnd).(client := Finish))
    case Finish => Some(x.(client := ClientDone, closed := true))
    case SendReady => Some(Send(x, RestoreReady).(client := Receive))
    case Receive =>
      if x.downRead < |x.down| then
        var got := x.(downRead := x.downRead + 1);
        match x.down[x.downRead]
        case RestoreChunk => Some(got)
        case RestoreFinal => Some(got.(client := ClientDone, closed := true))
        case _ => Some(got.(client := ClientFailed))
      else None
    case _ => None
  }

  // ---------- the server thread, but for the locks ----------

  function MainStep(x: Session): Option<Session> {
    match x.main
    case RecvRa =>
      if x.upRead < |x.up| then
        Some(x.(upRead := x.upRead + 1, main := if x.up[x.upRead] == RaNotNeed then RecvKey else MainFailed))
      else if x.closed then Some(x.(main := MainFailed)) else None
    case RecvKey =>
      if x.upRead < |x.up| then
        Some(x.(upRead := x.upRead + 1, main := if x.up[x.upRead] == KeyInit then LockSet else MainFailed))
      else if x.closed then Some(x.(main := MainFailed)) else None
    case SendReply => Some(Reply(x, KeyReply).(main := RecvLogin))
    case RecvLogin =>
      if x.upRead < |x.up| then
        Some(x.(upRead := x.upRead + 1, main := if x.up[x.upRead].Login? then CheckFile else MainFailed))
      else if x.closed then Some(x.(main := MainFailed)) else None
    case CheckFile =>
      if x.upRead == 0 || x.upRead > |x.up| || !x.up[x.upRead - 1].Login? then None
      else if x.up[x.upRead - 1].op != Download then Some(x.(main := SpawnReceiver))
      else Some(x.(main := if x.found then SpawnDecoder else SendReject))
    case SendReject => Some(Reply(x, FileNonExist).(main := WaitReject))
    case WaitReject =>
      if x.upRead < |x.up| then Some(x.(main := MainFailed))
      else if x.closed then Some(x.(main := UnlockClient)) else None
    case SpawnReceiver => Some(x.(worker := RecvChunks, main := RespondUpload))
    case RespondUpload => Some(Reply(x, LoginResponse([])).(main := Join))
    case SpawnDecoder => Some(x.(worker := RecvReady, main := ReadHead))
    case ReadHead =>
      var from, to := Min(x.pos, |x.recipe|), Min(x.pos + HEAD, |x.recipe|);
      Some(x.(head := x.recipe[from..to], pos := to, main := RespondDownload))
    case RespondDownload => Some(Reply(x, LoginResponse(x.head)).(main := Join))
    case Join => if x.worker == WorkerDone then Some(x.(main := UnlockClient)) else None
    case _ => None
  }

  // ---------- the worker threads ----------

  /** The bytes of the whole fingerprints among n bytes read. */
  function Whole(n: nat): (r: nat)
    ensures r <= n
  {
    n / CHUNK_HASH_SIZE * CHUNK_HASH_SIZE
  }

  /** How many batches of chunks the enclave sends for what it was handed last. */
  function Made(x: Session): nat {
    if x.calls < |x.makes| then x.makes[x.calls] else 0
  }

  /** The handle reads on from where it is, and the whole fingerprints read go to the enclave, which sends chunks. */
  function WorkerStep(x: Session): Option<Session> {
    match x.worker
    case RecvChunks =>
      if x.upRead < |x.up| then
        var m := x.up[x.upRead];
        Some(x.(upRead := x.upRead + 1,
                worker := if m == UploadChunk || m == UploadRecipeEnd then RecvChunks else WorkerFailed))
      else if x.closed then Some(x.(worker := WorkerDone)) else None
    case RecvReady =>
      if x.upRead < |x.up| then
        Some(x.(upRead := x.upRead + 1, worker := if x.up[x.upRead] == RestoreReady then ReadRecipe else WorkerFailed))
      else if x.closed then Some(x.(worker := WorkerFailed)) else None
    case ReadRecipe =>
      var want := CHUNK_HASH_SIZE * x.batchSize;
      var end := Min(x.pos + want, |x.recipe|);
      if x.pos >= |x.recipe| then Some(x.(worker := SendTail))
      else
        Some(x.(pos := end, fps := x.fps + x.recipe[x.pos..x.pos + Whole(end - x.pos)],
            down := x.down + Copies(RestoreChunk, Made(x)), calls := x.calls + 1,
                worker := if end - x.pos < want then SendTail else ReadRecipe))
    case SendTail => Some(x.(down := x.down + Copies(RestoreChunk, Made(x)) + [RestoreFinal], calls := x.calls + 1,
                             worker := WaitClose))
    case WaitClose =>
      if x.upRead < |x.up| then Some(x.(upRead := x.upRead + 1, worker := WorkerDone))
      else if x.closed then Some(x.(worker := WorkerDone)) else None
    case _ => None
  }

  // ---------- all sessions ----------

  /** The lock on the lock table, and the held client locks: which session holds each. */
  datatype State = State(sessions: seq<Session>, setHolder: Option<nat>, clientHolder: map<nat, nat>)

  datatype Actor = Client | Main | Worker

  function With(s: State, i: nat, r: Option<Session>): Option<State>
    requires i < |s.sessions|
  {
    if r.None? then None else Some(s.(sessions := s.sessions[i := r.value]))
  }

  /** The lock steps of the server thread: the table's lock is held while the client's lock is awaited. */
  function LockStep(s: State, i: nat): Option<State>
    requires i < |s.sessions|
  {
    var x := s.sessions[i];
    match x.main
    case LockSet =>
      if s.setHolder.Some? then None
      else Some(s.(sessions := s.sessions[i := x.(main := LockClient)], setHolder := Some(i)))
    case LockClient =>
      if x.clientID in s.clientHolder then None
      else Some(s.(sessions := s.sessions[i := x.(main := UnlockSet)], clientHolder := s.clientHolder[x.clientID := i]))
    case UnlockSet => Some(s.(sessions := s.sessions[i := x.(main := SendReply)], setHolder := None))
    case UnlockClient =>
        Some(s.(sessions := s.sessions[i := x.(main := MainDone)], clientHolder := s.clientHolder - {x.clientID}))
    case _ => None
  }

  predicate AtLock(p: MainPc) {
    p == LockSet || p == LockClient || p == UnlockSet || p == UnlockClient
  }

  function Do(s: State, i: nat, who: Actor): Option<State>
    requires i < |s.sessions|
  {
    var x := s.sessions[i];
    match who
    case Client => With(s, i, ClientStep(x))
    case Worker => With(s, i, WorkerStep(x))
    case Main => if AtLock(x.main) then LockStep(s, i) else With(s, i, MainStep(x))
  }

  ghost predicate Next(s: State, s': State) {
    exists i: nat, who :: i < |s.sessions| && Do(s, i, who) == Some(s')
  }

  predicate Fresh(x: Session) {
    && x.client == SendRa && x.main == RecvRa && x.worker == NotSpawned
    && x.up == [] && x.upRead == 0 && x.down == [] && x.downRead == 0 && !x.closed
    && x.pos == 0 && x.head == [] && x.fps == [] && x.calls == 0 && x.batchSize > 0
  }

  ghost predicate Init(s: State) {
    s.setHolder == None && s.clientHolder == map[] && forall i :: 0 <= i < |s.sessions| ==> Fresh(s.sessions[i])
  }
}
