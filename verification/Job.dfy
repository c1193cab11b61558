/**
 A named query as a job: a worker thread and a timeout handler (section 8.2 of JSR 339) share one response object,
 one flag and one publication log. All interleavings of their steps.
 */
module Job {
  import opened Truth

  datatype Status = Starting | Executing | Executed | Writing | Success

  function Rank(s: Status): nat {
    match s
    case Starting => 0
    case Executing => 1
    case Executed => 2
    case Writing => 3
    case Success => 4
  }

  datatype Actor = Worker | Handler

  /** What an actor does next. Publishing is two steps: reading the shared object, then appending what was read. */
  datatype WorkerAt =
    | ToExecute | ToFinishExecute | ToWrite | ToSucceed | ToCheck | ToRead | ToAppend(read: Status)
    | ToResume | Finished | Failed(publishing: bool)

  datatype HandlerAt =
    | Waiting | ToStore | ToReadToo | ToAppendToo(read: Status) | ToResumeToo(read: Status) | FinishedToo(read: Status)

  /** When the steps that matter were taken, counting all steps of the run. */
  datatype Times = Times(
    succeeded: Option<nat>, workerAppended: Option<nat>, handlerRead: Option<nat>, handlerAppended: Option<nat>)

  datatype State = State(
    status: Status, timeout: bool, stored: bool, resumed: bool, log: seq<(Actor, Status)>,
    worker: WorkerAt, handler: HandlerAt, now: nat, times: Times)

  /** The handler is in place and the job is starting. */
  const Initial := State(Starting, false, false, false, [], ToExecute, Waiting, 0, Times(None, None, None, None))

  /** The worker's next step; a result set is written out, an update count is not. */
  function WorkerStep(s: State, hasResultSet: bool): State {
    var t := s.(now := s.now + 1);
    match s.worker
    case ToExecute => t.(status := Executing, worker := ToFinishExecute)
    case ToFinishExecute => t.(status := Executed, worker := if hasResultSet then ToWrite else ToSucceed)
    case ToWrite => t.(status := Writing, worker := ToSucceed)
    case ToSucceed => t.(status := Success, worker := ToCheck, times := s.times.(succeeded := Some(s.now)))
    case ToCheck => t.(worker := if s.timeout then ToRead else ToResume)
    case ToRead => t.(worker := ToAppend(s.status))
    case ToAppend(read) =>
      t.(log := s.log + [(Worker, read)], worker := ToResume, times := s.times.(workerAppended := Some(s.now)))
    case ToResume => t.(resumed := true, worker := Finished)
    case Finished => s
    case Failed(_) => s
  }

  /** The container calls the handler while the response is suspended; it runs once. */
  function HandlerStep(s: State): State {
    var t := s.(now := s.now + 1);
    match s.handler
    case Waiting => if s.resumed then s else t.(timeout := true, handler := ToStore)
    case ToStore => t.(stored := true, handler := ToReadToo)
    case ToReadToo => t.(handler := ToAppendToo(s.status), times := s.times.(handlerRead := Some(s.now)))
    case ToAppendToo(read) =>
      t.(log := s.log + [(Handler, read)], handler := ToResumeToo(read),
         times := s.times.(handlerAppended := Some(s.now)))
    case ToResumeToo(read) => t.(resumed := true, handler := FinishedToo(read))
    case FinishedToo(_) => s
  }

  /**
   An exception in the worker resumes the response and ends the thread; the shared object keeps its status. The
   publication after success is inside the same `try`.
   */
  function WorkerFails(s: State): State {
    var t := s.(now := s.now + 1, resumed := true);
    if s.worker in {ToExecute, ToFinishExecute, ToWrite, ToSucceed} then t.(worker := Failed(false))
    else if s.worker.ToRead? || s.worker.ToAppend? then t.(worker := Failed(true))
    else s
  }

  datatype Move = Work | Handle | Fail

  function Moved(s: State, m: Move, hasResultSet: bool): State {
    match m
    case Work => WorkerStep(s, hasResultSet)
    case Handle => HandlerStep(s)
    case Fail => WorkerFails(s)
  }

  function Run(moves: seq<Move>, hasResultSet: bool): State {
    if moves == [] then Initial else Moved(Run(moves[..|moves| - 1], hasResultSet), moves[|moves| - 1], hasResultSet)
  }

  // ---------------------------------------------------------------- what every interleaving keeps

  predicate Succeeded(w: WorkerAt) {
    w in {ToCheck, ToRead, ToResume, Finished, Failed(true)} || w.ToAppend?
  }

  /** The log, given the order of the two appends and what the handler read. */
  function LogOf(t: Times, h: HandlerAt): seq<(Actor, Status)> {
    var mine := if t.workerAppended.Some? then [(Worker, Success)] else [];
    var other := if t.handlerAppended.Some? && (h.ToResumeToo? || h.FinishedToo?) then [(Handler, h.read)] else [];
    if t.workerAppended.Some? && t.handlerAppended.Some? && t.workerAppended.value < t.handlerAppended.value
    then mine + other else other + mine
  }

  predicate Past(t: Option<nat>, now: nat) {
    t.Some? ==> t.value < now
  }

  predicate Earlier(a: Option<nat>, b: Option<nat>) {
    a.Some? && b.Some? && a.value < b.value
  }

  predicate Apart(a: Option<nat>, b: Option<nat>) {
    a.Some? && b.Some? ==> a != b
  }

  predicate WorkerInv(s: State) {
    (s.times.succeeded.Some? <==> Succeeded(s.worker)) && (s.status == Success <==> Succeeded(s.worker)) &&
    (s.worker.ToRead? || s.worker.ToAppend? ==> s.timeout) && (s.worker.ToAppend? ==> s.worker.read == Success) &&
    (s.times.workerAppended.Some? ==>
       s.worker in {ToResume, Finished} && s.timeout && Earlier(s.times.succeeded, s.times.workerAppended))
  }

  /** The handler knows success iff it read the object after the worker had succeeded. */
  predicate HandlerInv(s: State) {
    (s.timeout <==> !s.handler.Waiting?) && (s.stored <==> !s.handler.Waiting? && !s.handler.ToStore?) &&
    (s.times.handlerRead.Some? <==> s.handler.ToAppendToo? || s.handler.ToResumeToo? || s.handler.FinishedToo?) &&
    (s.times.handlerAppended.Some? <==> s.handler.ToResumeToo? || s.handler.FinishedToo?) &&
    (s.times.handlerRead.Some? ==> (s.handler.read == Success <==> Earlier(s.times.succeeded, s.times.handlerRead))) &&
    Apart(s.times.succeeded, s.times.handlerRead)
  }

  /** A worker that saw no timeout is followed by a handler that reads success. */
  predicate CheckInv(s: State) {
    s.worker in {ToResume, Finished} && s.times.workerAppended.None? && s.times.handlerRead.Some? ==>
      Earlier(s.times.succeeded, s.times.handlerRead)
  }

  predicate TimesInv(s: State) {
    Past(s.times.succeeded, s.now) && Past(s.times.workerAppended, s.now) &&
    Past(s.times.handlerRead, s.now) && Past(s.times.handlerAppended, s.now) &&
    Apart(s.times.workerAppended, s.times.handlerAppended)
  }

  predicate Inv(s: State) {
    WorkerInv(s) && HandlerInv(s) && CheckInv(s) && TimesInv(s) && s.log == LogOf(s.times, s.handler)
  }

  lemma WorkerKeepsWorker(s: State, hasResultSet: bool)
    requires Inv(s)
    ensures WorkerInv(WorkerStep(s, hasResultSet))
  {
  }

  lemma WorkerKeepsTimes(s: State, hasResultSet: bool)
    requires Inv(s)
    ensures TimesInv(WorkerStep(s, hasResultSet))
  {
  }

  lemma WorkerKeepsHandler(s: State, hasResultSet: bool)
    requires Inv(s)
    ensures HandlerInv(WorkerStep(s, hasResultSet))
  {
    assert WorkerStep(s, hasResultSet).handler == s.handler;
  }

  lemma WorkerKeepsCheck(s: State, hasResultSet: bool)
    requires Inv(s)
    ensures CheckInv(WorkerStep(s, hasResultSet))
  {
  }

  lemma WorkerKeepsLog(s: State, hasResultSet: bool)
    requires Inv(s)
    ensures WorkerStep(s, hasResultSet).log == LogOf(WorkerStep(s, hasResultSet).times, s.handler)
  {
  }

  lemma WorkerKeeps(s: State, hasResultSet: bool)
    requires Inv(s)
    ensures Inv(WorkerStep(s, hasResultSet))
  {
    WorkerKeepsWorker(s, hasResultSet);
    WorkerKeepsTimes(s, hasResultSet);
    WorkerKeepsHandler(s, hasResultSet);
    WorkerKeepsCheck(s, hasResultSet);
    WorkerKeepsLog(s, hasResultSet);
    assert WorkerStep(s, hasResultSet).handler == s.handler;
  }

  lemma FailureKeeps(s: State)
    requires Inv(s)
    ensures Inv(WorkerFails(s))
  {
    assert WorkerFails(s).handler == s.handler && WorkerFails(s).times == s.times;
  }

  lemma HandlerKeeps(s: State)
    requires Inv(s)
    ensures Inv(HandlerStep(s))
  {
  }

  lemma {:induction false} EveryRun(moves: seq<Move>, hasResultSet: bool)
    ensures Inv(Run(moves, hasResultSet))
    decreases moves
  {
    if moves != [] {
      var before := Run(moves[..|moves| - 1], hasResultSet);
      EveryRun(moves[..|moves| - 1], hasResultSet);
      match moves[|moves| - 1]
      case Work => WorkerKeeps(before, hasResultSet);
      case Handle => HandlerKeeps(before);
      case Fail => FailureKeeps(before);
    }
  }

  // ---------------------------------------------------------------- from the moves alone

  function Works(moves: seq<Move>): nat {
    if moves == [] then 0 else Works(moves[..|moves| - 1]) + if moves[|moves| - 1] == Work then 1 else 0
  }

  /** What the worker does, step by step, up to its check. */
  function Stations(hasResultSet: bool): seq<(WorkerAt, Status)> {
    [(ToExecute, Starting), (ToFinishExecute, Executing)] +
    (if hasResultSet then [(ToWrite, Executed), (ToSucceed, Writing)] else [(ToSucceed, Executed)]) +
    [(ToCheck, Success)]
  }

  /** Without a failure the number of worker's moves tells where the worker is, and the status of the job. */
  lemma {:induction false} StatusByMoves(moves: seq<Move>, hasResultSet: bool)
    requires Fail !in moves
    ensures var s, n := Run(moves, hasResultSet), Works(moves);
            if n < |Stations(hasResultSet)| then (s.worker, s.status) == Stations(hasResultSet)[n]
            else s.status == Success && Succeeded(s.worker) && s.worker != ToCheck
    decreases moves
  {
    if moves != [] {
      StatusByMoves(moves[..|moves| - 1], hasResultSet);
    }
  }

  lemma FiringStep(s: State, m: Move, hasResultSet: bool)
    requires Inv(s)
    ensures Moved(s, m, hasResultSet).timeout <==> s.timeout || (m == Handle && !s.resumed)
  {
  }

  predicate Fires(moves: seq<Move>, i: nat, hasResultSet: bool)
    requires i < |moves|
  {
    moves[i] == Handle && !Run(moves[..i], hasResultSet).resumed
  }

  /** The handler fires iff it gets a move while the response is suspended. */
  lemma {:induction false} HandlerFiresIff(moves: seq<Move>, hasResultSet: bool)
    ensures Run(moves, hasResultSet).timeout <==> exists i :: 0 <= i < |moves| && Fires(moves, i, hasResultSet)
    decreases moves
  {
    if moves != [] {
      var n := |moves| - 1;
      var init := moves[..n];
      HandlerFiresIff(init, hasResultSet);
      EveryRun(init, hasResultSet);
      FiringStep(Run(init, hasResultSet), moves[n], hasResultSet);
      forall i | 0 <= i < n
        ensures Fires(init, i, hasResultSet) <==> Fires(moves, i, hasResultSet)
      {
        assert init[i] == moves[i] && init[..i] == moves[..i];
      }
      assert moves[..n] == init;
      assert Fires(moves, n, hasResultSet) <==> moves[n] == Handle && !Run(init, hasResultSet).resumed;
      if Run(init, hasResultSet).timeout {
        var i :| 0 <= i < n && Fires(init, i, hasResultSet);
        assert Fires(moves, i, hasResultSet);
      }
    }
  }

  /** Before the worker's check, any move of the handler is one that fires it, or comes after one. */
  lemma {:induction false} FiredBeforeCheck(moves: seq<Move>, hasResultSet: bool)
    requires Fail !in moves && Works(moves) < |Stations(hasResultSet)|
    ensures var s := Run(moves, hasResultSet);
            (s.timeout <==> Handle in moves) && (s.resumed ==> s.timeout)
    decreases moves
  {
    if moves != [] {
      var init := moves[..|moves| - 1];
      FiredBeforeCheck(init, hasResultSet);
      StatusByMoves(init, hasResultSet);
      EveryRun(init, hasResultSet);
      assert forall m :: m in moves <==> m in init || m == moves[|moves| - 1];
    }
  }

  /** The check decides whether the worker publishes. */
  predicate Decided(s: State, fired: bool) {
    if fired then s.worker in {ToRead, ToAppend(Success)} || s.times.workerAppended.Some?
    else s.worker in {ToResume, Finished} && s.times.workerAppended.None?
  }

  lemma CheckDecides(s: State, hasResultSet: bool)
    requires Inv(s) && s.worker == ToCheck
    ensures Decided(WorkerStep(s, hasResultSet), s.timeout)
  {
  }

  lemma StaysDecided(s: State, m: Move, fired: bool, hasResultSet: bool)
    requires Inv(s) && Decided(s, fired) && m != Fail
    ensures Decided(Moved(s, m, hasResultSet), fired)
  {
  }

  lemma {:induction false} AfterCheck(moves: seq<Move>, i: nat, hasResultSet: bool)
    requires Fail !in moves && i < |moves| && moves[i] == Work && Works(moves[..i]) == |Stations(hasResultSet)| - 1
    ensures Decided(Run(moves, hasResultSet), Handle in moves[..i])
    decreases moves
  {
    var n := |moves| - 1;
    var init := moves[..n];
    EveryRun(init, hasResultSet);
    if i == n {
      StatusByMoves(init, hasResultSet);
      FiredBeforeCheck(init, hasResultSet);
      CheckDecides(Run(init, hasResultSet), hasResultSet);
    } else {
      assert init[..i] == moves[..i] && init[i] == moves[i];
      AfterCheck(init, i, hasResultSet);
      StaysDecided(Run(init, hasResultSet), moves[n], Handle in moves[..i], hasResultSet);
    }
  }

  /** The worker of a job that does not fail publishes success iff the handler had a move before the worker's check. */
  lemma WorkerTellsIff(moves: seq<Move>, i: nat, hasResultSet: bool)
    requires Fail !in moves && Run(moves, hasResultSet).worker == Finished
    requires i < |moves| && moves[i] == Work && Works(moves[..i]) == |Stations(hasResultSet)| - 1
    ensures (Worker, Success) in Run(moves, hasResultSet).log <==> Handle in moves[..i]
  {
    EveryRun(moves, hasResultSet);
    AfterCheck(moves, i, hasResultSet);
    var t, h := Run(moves, hasResultSet).times, Run(moves, hasResultSet).handler;
    if t.workerAppended.Some? {
      assert (Worker, Success) in [(Worker, Success)];
    }
  }

  predicate HasRead(h: HandlerAt) {
    h.ToAppendToo? || h.ToResumeToo? || h.FinishedToo?
  }

  lemma ReadsOnce(s: State, m: Move, hasResultSet: bool)
    requires HasRead(Moved(s, m, hasResultSet).handler)
    ensures var read := Moved(s, m, hasResultSet).handler.read;
            if s.handler == ToReadToo then m == Handle && read == s.status
            else HasRead(s.handler) && s.handler.read == read
  {
  }

  /** What the handler publishes is the status of the job when the handler read it. */
  lemma {:induction false} HandlerTells(moves: seq<Move>, hasResultSet: bool) returns (i: nat)
    requires HasRead(Run(moves, hasResultSet).handler)
    ensures i < |moves| && moves[i] == Handle && Run(moves[..i], hasResultSet).handler == ToReadToo
    ensures Run(moves, hasResultSet).handler.read == Run(moves[..i], hasResultSet).status
    decreases moves
  {
    var n := |moves| - 1;
    var init := moves[..n];
    ReadsOnce(Run(init, hasResultSet), moves[n], hasResultSet);
    if Run(init, hasResultSet).handler == ToReadToo {
      i := n;
    } else {
      i := HandlerTells(init, hasResultSet);
      assert init[..i] == moves[..i];
    }
  }

  // ---------------------------------------------------------------- what the log says

  /** The published statuses never go backwards and end with success. */
  predicate ToldInOrder(log: seq<(Actor, Status)>) {
    log != [] && log[|log| - 1].1 == Success && forall i, j :: 0 <= i < j < |log| ==> Rank(log[i].1) <= Rank(log[j].1)
  }

  /** The handler read the object before the job succeeded, but appended after the worker had. */
  predicate Overtaken(t: Times) {
    Earlier(t.handlerRead, t.succeeded) && Earlier(t.workerAppended, t.handlerAppended)
  }

  /**
   In every complete run in which the job succeeds and the handler fires, on whichever side of the worker's check,
   the log tells the job in order exactly when the handler's publication was not overtaken by the worker's.
   */
  lemma ToldInOrderIff(moves: seq<Move>, hasResultSet: bool)
    requires var s := Run(moves, hasResultSet); s.worker == Finished && s.handler.FinishedToo?
    ensures var s := Run(moves, hasResultSet); ToldInOrder(s.log) <==> !Overtaken(s.times)
    ensures Run(moves, hasResultSet).stored && Run(moves, hasResultSet).status == Success
  {
    EveryRun(moves, hasResultSet);
  }

  /** A publication in one step: nothing comes between reading and appending. */
  predicate Undivided(s: State) {
    s.times.handlerRead.Some? && s.times.handlerAppended.Some? &&
    s.times.handlerAppended.value == s.times.handlerRead.value + 1
  }

  /** With publications in one step, no run goes backwards. */
  lemma UndividedIsInOrder(moves: seq<Move>, hasResultSet: bool)
    requires var s := Run(moves, hasResultSet); s.worker == Finished && s.handler.FinishedToo? && Undivided(s)
    ensures ToldInOrder(Run(moves, hasResultSet).log)
  {
    EveryRun(moves, hasResultSet);
    ToldInOrderIff(moves, hasResultSet);
  }

  lemma Then(moves: seq<Move>, s: State, m: Move) returns (longer: seq<Move>, next: State)
    requires Run(moves, false) == s
    ensures Run(longer, false) == next && next == Moved(s, m, false)
  {
    longer, next := moves + [m], Moved(s, m, false);
    assert longer[..|moves|] == moves;
  }

  lemma HandlerReadsEarly() returns (moves: seq<Move>)
    ensures Run(moves, false) ==
              State(Executing, true, true, false, [], ToFinishExecute, ToAppendToo(Executing), 4,
                    Times(None, None, Some(3), None))
  {
    var s;
    moves, s := Then([], Initial, Work);
    moves, s := Then(moves, s, Handle);
    moves, s := Then(moves, s, Handle);
    moves, s := Then(moves, s, Handle);
  }

  lemma WorkerSucceeds(before: seq<Move>) returns (moves: seq<Move>)
    requires Run(before, false) ==
              State(Executing, true, true, false, [], ToFinishExecute, ToAppendToo(Executing), 4,
                    Times(None, None, Some(3), None))
    ensures Run(moves, false) ==
              State(Success, true, true, false, [], ToCheck, ToAppendToo(Executing), 6,
                    Times(Some(5), None, Some(3), None))
  {
    var s;
    moves, s := Then(before, Run(before, false), Work);
    moves, s := Then(moves, s, Work);
  }

  lemma WorkerPublishes(before: seq<Move>) returns (moves: seq<Move>)
    requires Run(before, false) ==
              State(Executing, true, true, false, [], ToFinishExecute, ToAppendToo(Executing), 4,
                    Times(None, None, Some(3), None))
    ensures Run(moves, false) ==
              State(Success, true, true, false, [(Worker, Success)], ToResume, ToAppendToo(Executing), 9,
                    Times(Some(5), Some(8), Some(3), None))
  {
    moves := WorkerSucceeds(before);
    var s;
    moves, s := Then(moves, Run(moves, false), Work);
    moves, s := Then(moves, s, Work);
    moves, s := Then(moves, s, Work);
  }

  /** A handler that is overtaken publishes `executing` after the worker has published `success`. */
  lemma OvertakenRun() returns (moves: seq<Move>)
    ensures var s := Run(moves, false);
            s.worker == Finished && s.handler.FinishedToo? && s.log == [(Worker, Success), (Handler, Executing)] &&
            !ToldInOrder(s.log)
  {
    moves := HandlerReadsEarly();
    moves := WorkerPublishes(moves);
    var s;
    moves, s := Then(moves, Run(moves, false), Work);
    moves, s := Then(moves, s, Handle);
    moves, s := Then(moves, s, Handle);
    assert Rank(s.log[1].1) < Rank(s.log[0].1);
  }

  /** Success is in the status or in the log. */
  predicate ShowsSuccess(s: State) {
    s.status == Success || exists e :: e in s.log && e.1 == Success
  }

  /**
   A job that fails publishes nothing of its own. It shows success, in its status or through the handler, exactly when
   it failed in its own publication: the work was done, and the response says that it failed.
   */
  lemma FailedShowsSuccessIff(moves: seq<Move>, hasResultSet: bool)
    requires Run(moves, hasResultSet).worker.Failed?
    ensures var s := Run(moves, hasResultSet);
            s.resumed && |s.log| <= 1 && (forall e :: e in s.log ==> e.0 == Handler) &&
            (ShowsSuccess(s) <==> s.worker.publishing)
  {
    EveryRun(moves, hasResultSet);
    FailedHasResumed(moves, hasResultSet);
  }

  lemma {:induction false} FailedHasResumed(moves: seq<Move>, hasResultSet: bool)
    requires Run(moves, hasResultSet).worker.Failed?
    ensures Run(moves, hasResultSet).resumed
    decreases moves
  {
    if Run(moves[..|moves| - 1], hasResultSet).worker.Failed? {
      FailedHasResumed(moves[..|moves| - 1], hasResultSet);
    }
  }

  lemma SucceedsAfterTimeout() returns (moves: seq<Move>)
    ensures Run(moves, false) ==
              State(Success, true, true, false, [], ToCheck, ToReadToo, 5, Times(Some(4), None, None, None))
  {
    var s;
    moves, s := Then([], Initial, Handle);
    moves, s := Then(moves, s, Handle);
    moves, s := Then(moves, s, Work);
    moves, s := Then(moves, s, Work);
    moves, s := Then(moves, s, Work);
  }

  /** A run whose response is a failure while its only publication says `success`. */
  lemma FailedButToldSuccess() returns (moves: seq<Move>)
    ensures Run(moves, false).worker == Failed(true) && Run(moves, false).log == [(Handler, Success)]
  {
    moves := SucceedsAfterTimeout();
    var s;
    moves, s := Then(moves, Run(moves, false), Work);
    moves, s := Then(moves, s, Fail);
    moves, s := Then(moves, s, Handle);
    moves, s := Then(moves, s, Handle);
  }
}
