/** How sessions end: with the answer that the request calls for, all data transferred, and after finitely many steps.
    */
module SessionOutcome {
  import opened Bits
  import opened Common
  import opened Session
  import opened SessionProof
  import opened Traces

  // ---------- what is given stays as it is ----------

  ghost predicate SameGiven(x: Session, y: Session) {
    && y.op == x.op && y.clientID == x.clientID && y.batches == x.batches && y.found == x.found
    && y.recipe == x.recipe && y.batchSize == x.batchSize && y.makes == x.makes
  }

  predicate Receives(p: ClientPc) {
    p == WaitKey || p == WaitLogin || p == Receive
  }

  lemma ClientReceives(x: Session, y: Session)
    requires ClientStep(x) == Some(y) && Receives(x.client)
    ensures y == x.(client := y.client, downRead := y.downRead, closed := y.closed)
  {
  }

  lemma ClientSends(x: Session, y: Session)
    requires ClientStep(x) == Some(y) && !Receives(x.client)
    ensures y == x.(client := y.client, up := y.up, closed := y.closed)
  {
  }

  lemma ClientFrame(x: Session, y: Session)
    requires ClientStep(x) == Some(y)
    ensures y == x.(client := y.client, up := y.up, downRead := y.downRead, closed := y.closed)
  {
    if Receives(x.client) {
      ClientReceives(x, y);
    } else {
      ClientSends(x, y);
    }
  }

  /** Up to the look at the file. */
  predicate Opening(p: MainPc) {
    p == RecvRa || p == RecvKey || p == SendReply || p == RecvLogin || p == CheckFile
  }

  /** Where the server thread sends its answer, or waits for the client to take it. */
  predicate Answering(p: MainPc) {
    p == SendReject || p == WaitReject || p == RespondUpload || p == RespondDownload
  }

  lemma MainOpening(x: Session, y: Session)
    requires MainStep(x) == Some(y) && Opening(x.main)
    ensures y == x.(main := y.main, upRead := y.upRead, down := y.down)
  {
  }

  lemma MainAnswering(x: Session, y: Session)
    requires MainStep(x) == Some(y) && Answering(x.main)
    ensures y == x.(main := y.main, down := y.down)
  {
  }

  lemma MainLater(x: Session, y: Session)
    requires MainStep(x) == Some(y) && !Opening(x.main) && !Answering(x.main)
    ensures y == x.(main := y.main, worker := y.worker, pos := y.pos, head := y.head)
  {
  }

  lemma MainFrame(x: Session, y: Session)
    requires MainStep(x) == Some(y)
    ensures y == x.(main := y.main, worker := y.worker, upRead := y.upRead, down := y.down, pos := y.pos,
      head := y.head)
  {
    if Opening(x.main) {
      MainOpening(x, y);
    } else if Answering(x.main) {
      MainAnswering(x, y);
    } else {
      MainLater(x, y);
    }
  }

  lemma WorkerFrame(x: Session, y: Session)
    requires WorkerStep(x) == Some(y)
    ensures y == x.(worker := y.worker, upRead := y.upRead, down := y.down, pos := y.pos, fps := y.fps,
      calls := y.calls)
  {
  }

  ghost predicate AllGiven(first: seq<Session>, ss: seq<Session>) {
    |ss| == |first| && forall i :: 0 <= i < |ss| ==> SameGiven(first[i], ss[i])
  }

  function PastLock(p: MainPc): MainPc {
    if p == LockSet then LockClient else if p == LockClient then UnlockSet else if p == UnlockSet then SendReply
    else MainDone
  }

  /** What a step makes of its session: at a lock, the server thread only moves on. */
  ghost predicate Moves(x: Session, who: Actor, y: Session) {
    match who
    case Client => ClientStep(x) == Some(y)
    case Worker => WorkerStep(x) == Some(y)
    case Main =>
      if AtLock(x.main) then y == x.(main := PastLock(x.main)) else MainStep(x) == Some(y)
  }

  /** A step of session i moves that session alone. */
  lemma DoMoves(s: State, i: nat, who: Actor) returns (y: Session)
    requires i < |s.sessions| && Do(s, i, who).Some?
    ensures Do(s, i, who).value.sessions == s.sessions[i := y] && Moves(s.sessions[i], who, y)
  {
    y := Do(s, i, who).value.sessions[i];
  }

  lemma MoveKeepsGiven(x: Session, who: Actor, y: Session)
    requires Moves(x, who, y)
    ensures SameGiven(x, y)
  {
    match who {
      case Client => ClientFrame(x, y);
      case Worker => WorkerFrame(x, y);
      case Main =>
        if !AtLock(x.main) {
          MainFrame(x, y);
        }
    }
  }

  lemma NextGiven(first: seq<Session>, s: State, s': State)
    requires AllGiven(first, s.sessions) && Next(s, s')
    ensures AllGiven(first, s'.sessions)
  {
    var i: nat, who :| i < |s.sessions| && Do(s, i, who) == Some(s');
    var y := DoMoves(s, i, who);
    MoveKeepsGiven(s.sessions[i], who, y);
  }

  lemma RunKeepsGiven(run: seq<State>, k: nat)
    requires Trace(run, Init, Next) && k < |run|
    ensures AllGiven(run[0].sessions, run[k].sessions)
  {
    var first := run[0].sessions;
    var init := (s: State) => s == run[0];
    assert Trace(run, init, Next);
    forall s: State, s': State | AllGiven(first, s.sessions) && Next(s, s')
      ensures AllGiven(first, s'.sessions)
    {
      NextGiven(first, s, s');
    }
    Always(run, init, Next, (s: State) => AllGiven(first, s.sessions), k);
  }

  // ---------- the answer and the amounts ----------

  /** What the enclave sends for the first n reads. */
  function Sum(makes: seq<nat>, n: nat): nat {
    if n == 0 then 0 else Sum(makes, n - 1) + (if n - 1 < |makes| then makes[n - 1] else 0)
  }

  /** The answer to the login is a refusal exactly when a download asks for a file that does not exist. */
  ghost predicate AnswerOk(x: Session) {
    && (x.main == SendReject ==> !x.found)
    && (x.main == SpawnDecoder || x.main == ReadHead || x.main == RespondDownload ==> x.found)
    && (|x.down| >= 2 ==> (x.down[1] == FileNonExist <==> x.op == Download && !x.found))
  }

  /** A client that is done has received everything that was sent to it. */
  ghost predicate ReceivedOk(x: Session) {
    x.client == ClientDone ==> x.downRead == |x.down|
  }

  /** Every batch of an upload is sent once. */
  ghost predicate UploadedOk(x: Session) {
    x.op != Download ==> |x.up| <= 4 + x.batches && (|x.up| == 4 + x.batches <==> Ended(x.up))
  }

  /** Every batch of chunks that the enclave makes is sent once. */
  ghost predicate RestoredOk(x: Session) {
    x.op == Download && Accepted(x.down) ==>
      match x.worker
      case RecvReady => |x.down| == 2 && x.calls == 0
      case ReadRecipe | SendTail => |x.down| == 2 + Sum(x.makes, x.calls)
      case WaitClose | WorkerDone => |x.down| == 3 + Sum(x.makes, x.calls)
      case _ => true
  }

  ghost predicate CallsOk(x: Session) {
    x.worker == NotSpawned || x.worker == RecvReady ==> x.calls == 0
  }

  ghost predicate OutcomeOk(x: Session) {
    AnswerOk(x) && ReceivedOk(x) && UploadedOk(x) && RestoredOk(x) && CallsOk(x)
  }

  lemma ClientKeepsAnswer(x: Session, y: Session)
    requires AnswerOk(x) && RestoredOk(x) && CallsOk(x)
    requires y == x.(client := y.client, up := y.up, downRead := y.downRead, closed := y.closed)
    ensures AnswerOk(y) && RestoredOk(y) && CallsOk(y)
  {
  }

  lemma ClientReceivesAll(x: Session, y: Session)
    requires SessionOk(x) && ReceivedOk(x) && ClientStep(x) == Some(y)
    ensures ReceivedOk(y)
  {
  }

  lemma ClientUploadsAll(x: Session, y: Session)
    requires UpShape(x.up, x.op) && ClientOk(x) && UploadedOk(x) && ClientStep(x) == Some(y)
    ensures UploadedOk(y)
  {
  }

  lemma ClientKeepsOutcome(x: Session, y: Session)
    requires SessionOk(x) && OutcomeOk(x) && ClientStep(x) == Some(y)
    ensures OutcomeOk(y)
  {
    ClientFrame(x, y);
    ClientKeepsAnswer(x, y);
    ClientReceivesAll(x, y);
    ClientUploadsAll(x, y);
  }

  lemma MainAnswersEarly(x: Session, y: Session)
    requires DownShape(x.down, x.op) && UpShape(x.up, x.op) && MainOk(x) && AnswerOk(x) && MainStep(x) == Some(y)
    requires Opening(x.main)
    ensures AnswerOk(y)
  {
  }

  lemma MainAnswersLate(x: Session, y: Session)
    requires DownShape(x.down, x.op) && MainOk(x) && AnswerOk(x) && MainStep(x) == Some(y) && !Opening(x.main)
    ensures AnswerOk(y)
  {
  }

  lemma MainKeepsAmountsEarly(x: Session, y: Session)
    requires SessionOk(x) && OutcomeOk(x) && MainStep(x) == Some(y) && Opening(x.main)
    ensures ReceivedOk(y) && UploadedOk(y) && RestoredOk(y) && CallsOk(y)
  {
    MainOpening(x, y);
  }

  lemma MainKeepsAmountsLate(x: Session, y: Session)
    requires SessionOk(x) && OutcomeOk(x) && MainStep(x) == Some(y) && !Opening(x.main)
    ensures ReceivedOk(y) && UploadedOk(y) && RestoredOk(y) && CallsOk(y)
  {
  }

  lemma MainKeepsOutcome(x: Session, y: Session)
    requires SessionOk(x) && OutcomeOk(x) && MainStep(x) == Some(y)
    ensures OutcomeOk(y)
  {
    if Opening(x.main) {
      MainAnswersEarly(x, y);
      MainKeepsAmountsEarly(x, y);
    } else {
      MainAnswersLate(x, y);
      MainKeepsAmountsLate(x, y);
    }
  }

  lemma WorkerReceives(x: Session, y: Session)
    requires SessionOk(x) && OutcomeOk(x) && WorkerStep(x) == Some(y) && x.worker != ReadRecipe && x.worker != SendTail
    ensures OutcomeOk(y)
  {
  }

  lemma WorkerRestores(x: Session, y: Session)
    requires SessionOk(x) && OutcomeOk(x) && WorkerStep(x) == Some(y)
      && (x.worker == ReadRecipe || x.worker == SendTail)
    ensures AnswerOk(y) && ReceivedOk(y) && UploadedOk(y)
  {
  }

  lemma WorkerSums(x: Session, y: Session)
    requires RestoredOk(x) && WorkerStep(x) == Some(y) && (x.worker == ReadRecipe || x.worker == SendTail)
    requires x.op == Download && Accepted(x.down)
    ensures RestoredOk(y) && CallsOk(y)
  {
    assert Sum(x.makes, x.calls + 1) == Sum(x.makes, x.calls) + Made(x);
  }

  lemma WorkerKeepsOutcome(x: Session, y: Session)
    requires SessionOk(x) && OutcomeOk(x) && WorkerStep(x) == Some(y)
    ensures OutcomeOk(y)
  {
    if x.worker == ReadRecipe || x.worker == SendTail {
      WorkerRestores(x, y);
      WorkerSums(x, y);
    } else {
      WorkerReceives(x, y);
    }
  }

  // ---------- over every run ----------

  ghost predicate AllOutcomes(ss: seq<Session>) {
    forall i :: 0 <= i < |ss| ==> OutcomeOk(ss[i])
  }

  lemma LockKeepsOutcome(x: Session, p: MainPc)
    requires OutcomeOk(x) && p != SendReject && p != SpawnDecoder && p != ReadHead && p != RespondDownload
    ensures OutcomeOk(x.(main := p))
  {
  }

  lemma MoveKeepsOutcome(x: Session, who: Actor, y: Session)
    requires SessionOk(x) && OutcomeOk(x) && Moves(x, who, y)
    ensures OutcomeOk(y)
  {
    match who {
      case Client => ClientKeepsOutcome(x, y);
      case Worker => WorkerKeepsOutcome(x, y);
      case Main =>
        if AtLock(x.main) {
          LockKeepsOutcome(x, y.main);
        } else {
          MainKeepsOutcome(x, y);
        }
    }
  }

  lemma DoKeepsOutcome(s: State, i: nat, who: Actor)
    requires Inv(s) && AllOutcomes(s.sessions) && i < |s.sessions| && Do(s, i, who).Some?
    ensures AllOutcomes(Do(s, i, who).value.sessions)
  {
    var y := DoMoves(s, i, who);
    MoveKeepsOutcome(s.sessions[i], who, y);
  }

  lemma RunKeepsOutcome(run: seq<State>, k: nat)
    requires Trace(run, Init, Next) && k < |run|
    ensures Inv(run[k]) && AllOutcomes(run[k].sessions)
  {
    forall s: State, s': State | Inv(s) && AllOutcomes(s.sessions) && Next(s, s')
      ensures Inv(s') && AllOutcomes(s'.sessions)
    {
      NextKeeps(s, s');
      var i: nat, who :| i < |s.sessions| && Do(s, i, who) == Some(s');
      DoKeepsOutcome(s, i, who);
    }
    Always(run, Init, Next, (s: State) => Inv(s) && AllOutcomes(s.sessions), k);
  }

  /** What a session x that the server has finished amounts to, by what was given at its beginning. */
  ghost predicate Served(given: Session, x: Session) {
    var n := HeadLen(|given.recipe|);
    if given.op != Download then
      && x.upRead == |x.up| == 4 + given.batches && x.up[|x.up| - 1] == UploadRecipeEnd
      && (forall i :: 3 <= i < |x.up| - 1 ==> x.up[i] == UploadChunk)
    else if !given.found then
      x.down == [KeyReply, FileNonExist]
    else
      && x.down == [KeyReply, LoginResponse(given.recipe[..n])] + Copies(RestoreChunk, Sum(given.makes, x.calls))
                   + [RestoreFinal]
      && x.fps == given.recipe[n..n + Whole(|given.recipe| - n)]
  }

  lemma AllRestored(down: seq<Msg>, n: nat, head: seq<byte>)
    requires DownShape(down, Download) && Accepted(down) && HasFinal(down) && |down| == 3 + n && down[1].head == head
    ensures down == [KeyReply, LoginResponse(head)] + Copies(RestoreChunk, n) + [RestoreFinal]
  {
  }

  lemma DownloadServed(given: Session, x: Session)
    requires SameGiven(given, x) && SessionOk(x) && OutcomeOk(x) && x.main == MainDone
    requires given.op == Download && given.found
    ensures Served(given, x)
  {
    assert Accepted(x.down) && x.worker == WorkerDone && HasFinal(x.down) && x.pos == |x.recipe|;
    AllRestored(x.down, Sum(x.makes, x.calls), x.recipe[..HeadLen(|x.recipe|)]);
  }

  lemma ServedIsSo(given: Session, x: Session)
    requires SameGiven(given, x) && SessionOk(x) && OutcomeOk(x) && x.main == MainDone
    ensures Served(given, x)
  {
    if given.op == Download && given.found {
      DownloadServed(given, x);
    }
  }

  /** In every run a login is refused exactly when a download asks for a file that does not exist. A session that the
      server has finished has received every batch of its upload and the recipe end, or has refused, or has sent the
      head of the recipe, every batch of chunks and the final message, with all whole fingerprints read. A client that
      is done has received all that was sent to it. */
  lemma SessionsEndWell(run: seq<State>, k: nat, i: nat)
    requires Trace(run, Init, Next) && k < |run| && i < |run[0].sessions|
    ensures |run[k].sessions| == |run[0].sessions|
    ensures var given, x := run[0].sessions[i], run[k].sessions[i];
      && (|x.down| >= 2 ==> (x.down[1] == FileNonExist <==> given.op == Download && !given.found))
      && (x.main == MainDone ==> Served(given, x)) && (x.client == ClientDone ==> x.downRead == |x.down|)
  {
    RunKeepsGiven(run, k);
    RunKeepsOutcome(run, k);
    var given, x := run[0].sessions[i], run[k].sessions[i];
    assert SessionOk(x) && OutcomeOk(x) && SameGiven(given, x);
    if x.main == MainDone {
      ServedIsSo(given, x);
    }
  }

  // ---------- every session comes to its end ----------

  lemma {:induction false} SumGrows(makes: seq<nat>, n: nat, m: nat)
    requires n <= m
    ensures Sum(makes, n) <= Sum(makes, m)
    decreases m
  {
    if n < m {
      SumGrows(makes, n, m - 1);
    }
  }

  lemma {:induction false} SumIsBounded(makes: seq<nat>, n: nat)
    ensures Sum(makes, n) <= Sum(makes, |makes|)
  {
    if n > |makes| {
      SumIsBounded(makes, n - 1);
    } else {
      SumGrows(makes, n, |makes|);
    }
  }

  /** A bound on the steps still to come. A send counts twice, since the message is yet to be received. */
  function ClientWork(x: Session): nat {
    match x.client
    case SendRa => 2 * x.batches + 24
    case SendKey => 2 * x.batches + 22
    case WaitKey => 2 * x.batches + 20
    case SendLogin => 2 * x.batches + 18
    case WaitLogin => 2 * x.batches + 16
    case SendChunks => 8 + (if |x.up| < 3 + x.batches then 2 * (3 + x.batches - |x.up|) else 0)
    case SendReady => 8
    case Receive => 6
    case Finish => 4
    case _ => 0
  }

  function MainWork(p: MainPc): nat {
    match p
    case RecvRa => 30
    case RecvKey => 29
    case LockSet => 28
    case LockClient => 27
    case UnlockSet => 26
    case SendReply => 25
    case RecvLogin => 23
    case CheckFile => 22
    case SendReject => 20
    case WaitReject => 18
    case SpawnReceiver => 16
    case SpawnDecoder => 16
    case ReadHead => 15
    case RespondUpload => 14
    case RespondDownload => 14
    case Join => 12
    case UnlockClient => 11
    case _ => 0
  }

  /** What the enclave has still to send. */
  function Unsent(x: Session): int {
    Sum(x.makes, |x.makes|) - Sum(x.makes, x.calls)
  }

  function Unread(x: Session): int {
    if x.pos <= |x.recipe| then |x.recipe| - x.pos else 0
  }

  function WorkerWork(x: Session): int {
    match x.worker
    case NotSpawned => 2 * Unsent(x) + Unread(x) + 30
    case RecvChunks => 5
    case RecvReady => 2 * Unsent(x) + Unread(x) + 20
    case ReadRecipe => 2 * Unsent(x) + Unread(x) + 18
    case SendTail => 2 * Unsent(x) + 10
    case WaitClose => 4
    case _ => 0
  }

  function InFlight(x: Session): int {
    |x.up| - x.upRead + |x.down| - x.downRead
  }

  function Work(x: Session): int {
    ClientWork(x) + MainWork(x.main) + WorkerWork(x) + InFlight(x)
  }

  lemma WorkIsLeft(x: Session)
    requires SessionOk(x)
    ensures Work(x) >= 0
  {
    SumIsBounded(x.makes, x.calls);
  }

  lemma ClientWorks(x: Session, y: Session)
    requires ClientStep(x) == Some(y) && ClientOk(x)
    ensures Work(y) < Work(x)
  {
    if Receives(x.client) {
      ClientReceives(x, y);
      ClientTakes(x, y);
    } else {
      ClientSends(x, y);
      ClientGives(x, y);
    }
  }

  lemma ClientTakes(x: Session, y: Session)
    requires ClientStep(x) == Some(y) && ClientOk(x) && Receives(x.client)
    ensures ClientWork(y) <= ClientWork(x) && y.downRead == x.downRead + 1
  {
  }

  lemma ClientGives(x: Session, y: Session)
    requires ClientStep(x) == Some(y) && ClientOk(x) && !Receives(x.client)
    ensures ClientWork(y) + |y.up| < ClientWork(x) + |x.up|
  {
  }

  lemma MainWorks(x: Session, y: Session)
    requires MainStep(x) == Some(y) && SessionOk(x)
    ensures Work(y) < Work(x)
  {
    if Opening(x.main) {
      MainOpening(x, y);
      MainOpens(x, y);
      MainShare(x, y);
    } else if Answering(x.main) {
      MainAnswering(x, y);
      MainReplies(x, y);
      MainShare(x, y);
    } else {
      SumIsBounded(x.makes, x.calls);
      MainLater(x, y);
      MainGoesOn(x, y);
      MainShare(x, y);
    }
  }

  /** The client's work is as before, the worker's no more. */
  lemma MainShare(x: Session, y: Session)
    requires y.client == x.client && y.up == x.up && y.batches == x.batches && y.downRead == x.downRead
    requires WorkerWork(y) <= WorkerWork(x)
    requires MainWork(y.main) + |y.down| - y.upRead < MainWork(x.main) + |x.down| - x.upRead
    ensures Work(y) < Work(x)
  {
  }

  lemma MainOpens(x: Session, y: Session)
    requires MainStep(x) == Some(y) && Opening(x.main)
    ensures MainWork(y.main) + |y.down| - y.upRead < MainWork(x.main) + |x.down| - x.upRead
  {
  }

  lemma MainReplies(x: Session, y: Session)
    requires MainStep(x) == Some(y) && Answering(x.main)
    ensures MainWork(y.main) + |y.down| < MainWork(x.main) + |x.down|
  {
  }

  lemma MainGoesOn(x: Session, y: Session)
    requires MainStep(x) == Some(y) && !Opening(x.main) && !Answering(x.main) && MainOk(x) && Unsent(x) >= 0
    ensures MainWork(y.main) < MainWork(x.main) && WorkerWork(y) <= WorkerWork(x)
  {
  }

  lemma WorkerWorks(x: Session, y: Session)
    requires WorkerStep(x) == Some(y) && SessionOk(x)
    ensures Work(y) < Work(x)
  {
    WorkerFrame(x, y);
    assert WorkerWork(y) - y.upRead + |y.down| < WorkerWork(x) - x.upRead + |x.down| by {
      SumIsBounded(x.makes, x.calls);
      if x.worker == ReadRecipe || x.worker == SendTail {
        SumIsBounded(x.makes, x.calls + 1);
        WorkerGives(x, y);
      } else {
        WorkerTakes(x, y);
      }
    }
    WorkerShare(x, y);
  }

  /** The client's and the server thread's work is as before. */
  lemma WorkerShare(x: Session, y: Session)
    requires y.client == x.client && y.up == x.up && y.batches == x.batches && y.main == x.main
      && y.downRead == x.downRead
    requires WorkerWork(y) - y.upRead + |y.down| < WorkerWork(x) - x.upRead + |x.down|
    ensures Work(y) < Work(x)
  {
  }

  lemma WorkerTakes(x: Session, y: Session)
    requires WorkerStep(x) == Some(y) && x.worker != ReadRecipe && x.worker != SendTail && Unsent(x) >= 0
    ensures WorkerWork(y) - y.upRead + |y.down| < WorkerWork(x) - x.upRead + |x.down|
  {
  }

  lemma WorkerGives(x: Session, y: Session)
    requires WorkerStep(x) == Some(y) && (x.worker == ReadRecipe || x.worker == SendTail) && x.batchSize > 0
    requires Unsent(x) >= 0 && Unsent(x) >= Made(x)
    ensures WorkerWork(y) - y.upRead + |y.down| < WorkerWork(x) - x.upRead + |x.down|
  {
    assert Sum(x.makes, x.calls + 1) == Sum(x.makes, x.calls) + Made(x);
  }

  lemma MoveWorks(x: Session, who: Actor, y: Session)
    requires SessionOk(x) && Moves(x, who, y)
    ensures Work(y) < Work(x)
  {
    match who {
      case Client => ClientWorks(x, y);
      case Worker => WorkerWorks(x, y);
      case Main =>
        if !AtLock(x.main) {
          MainWorks(x, y);
        }
    }
  }

  function TotalWork(ss: seq<Session>): int {
    if ss == [] then 0 else TotalWork(ss[..|ss| - 1]) + Work(ss[|ss| - 1])
  }

  lemma {:induction false} LessWork(ss: seq<Session>, i: nat, y: Session)
    requires i < |ss| && Work(y) < Work(ss[i])
    ensures TotalWork(ss[i := y]) < TotalWork(ss)
    decreases |ss|
  {
    var front := ss[..|ss| - 1];
    if i == |ss| - 1 {
      assert ss[i := y][..|ss| - 1] == front;
    } else {
      LessWork(front, i, y);
      assert ss[i := y][..|ss| - 1] == front[i := y];
    }
  }

  lemma {:induction false} WorkNotNegative(ss: seq<Session>)
    requires AllOk(ss)
    ensures TotalWork(ss) >= 0
    decreases |ss|
  {
    if ss != [] {
      WorkNotNegative(ss[..|ss| - 1]);
      WorkIsLeft(ss[|ss| - 1]);
    }
  }

  lemma StepWorks(s: State, s': State)
    requires Inv(s) && Next(s, s')
    ensures TotalWork(s'.sessions) < TotalWork(s.sessions)
  {
    var i: nat, who :| i < |s.sessions| && Do(s, i, who) == Some(s');
    DoWorks(s, i, who);
  }

  lemma DoWorks(s: State, i: nat, who: Actor)
    requires AllOk(s.sessions) && i < |s.sessions| && Do(s, i, who).Some?
    ensures TotalWork(Do(s, i, who).value.sessions) < TotalWork(s.sessions)
  {
    var y := DoMoves(s, i, who);
    var x := s.sessions[i];
    assert Work(y) < Work(x) by {
      assert SessionOk(x);
      MoveWorks(x, who, y);
    }
    LessWork(s.sessions, i, y);
  }

  lemma {:induction false} RunWorks(run: seq<State>, k: nat)
    requires Trace(run, Init, Next) && k < |run|
    ensures TotalWork(run[k].sessions) + k <= TotalWork(run[0].sessions)
  {
    if k > 0 {
      RunWorks(run, k - 1);
      RunKeeps(run, k - 1);
      assert Next(run[k - 1], run[k]);
      StepWorks(run[k - 1], run[k]);
    }
  }

  /** No thread of any session can take a step. */
  ghost predicate Halted(s: State) {
    forall i: nat, who :: i < |s.sessions| ==> Do(s, i, who).None?
  }

  /** Every run is of bounded length, and one that cannot go on has finished every session: each client, server thread
      and worker gets to its end, whatever the schedule. */
  lemma EverySessionEnds(run: seq<State>, i: nat)
    requires Trace(run, Init, Next) && i < |run[|run| - 1].sessions|
    ensures |run| <= TotalWork(run[0].sessions) + 1
    ensures Halted(run[|run| - 1]) ==> Finished(run[|run| - 1].sessions[i])
  {
    var k := |run| - 1;
    var s := run[k];
    RunWorks(run, k);
    RunKeeps(run, k);
    WorkNotNegative(s.sessions);
    if !Finished(s.sessions[i]) {
      NeverDeadlocked(run, k, i);
      var h := Blocker(s, Blocker(s, i));
      var who :| Do(s, h, who).Some?;
    }
  }
}
