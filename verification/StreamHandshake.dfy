/** The handshake between the workers that stream results over one connection and the IO thread that
    sends them: a worker hands over its buffer, sleeps, and reuses the buffer when it is woken.
    The steps of all threads interleave freely. A step is one access to shared data, with two
    exceptions that hide no interleaving. The IO thread looks at `is_waiting` and signals, and a woken
    worker clears `is_waiting`, in one step with taking the mutex under which they do so. A worker sets
    `args` in one step with locking its mutex and clears it in one step with queueing its last packet:
    until then the IO thread does not come across the request. A sleeping worker is woken by a signal
    only. */
module StreamHandshake {
  type Id = nat

  /** Where a worker is. `Lock` to `Flag` and `Back` hold its mutex. */
  datatype Pc =
    | Fill      // writes into its buffer
    | Lock      // has locked its mutex
    | Push      // has queued its request for the IO thread
    | Flag      // has set is_waiting
    | Wait      // sleeps in pthread_cond_wait
    | Woken     // has been signalled, waits for the mutex
    | Back      // holds the mutex again, has cleared is_waiting
    | Check     // has unlocked its mutex, will look at is_closed
    | Left      // gave up: the connection is closed
    | Done      // has sent its last packet

  datatype Owner = Nobody | Worker | IoThread

  datatype Request = Request(pc: Pc, mutex: Owner, waiting: bool, closed: bool, args: bool)

  /** Where the IO thread is. */
  datatype Io =
    | Idle
    | Taking(todo: seq<Id>)                // encodes the requests it took from the queue
    | Writing                              // is about to write to the socket
    | Waking                               // the output has drained: goes through the session list
    | WakeLock(r: Id)                      // wants the mutex of a request to wake its worker
    | WakeHold(r: Id)
    | Closing(rest: seq<Id>)               // destroys the connection: goes through the session list
    | CloseLock(r: Id, rest: seq<Id>)
    | CloseHold(r: Id, rest: seq<Id>)
    | CloseClear(r: Id, rest: seq<Id>)     // has unlocked the mutex, will clear args
    | Aborted

  datatype State = State(reqs: seq<Request>, queue: seq<Id>, session: seq<Id>, output: seq<Id>, io: Io)

  datatype Step =
    | Acquire(i: Id) | Queue(i: Id) | SetWaiting(i: Id) | CondWait(i: Id) | Reacquire(i: Id) | Release(i: Id)
    | Decide(i: Id) | Finish(i: Id)
    | Take | Encode | Encoded | Writable | Write(n: nat) | WriteFails
    | WakeNext | WakeAcquire | WakeRelease
    | Destroy | CloseNext | CloseAcquire | CloseRelease | ClearArgs

  function With(s: State, i: Id, q: Request): State
    requires i < |s.reqs|
  {
    s.(reqs := s.reqs[i := q])
  }

  /** Whether a step of worker `i` can happen. */
  predicate WorkerCan(s: State, i: Id, step: Step) {
    i < |s.reqs| &&
    var q := s.reqs[i];
    match step
    case Acquire(_) => q.pc == Fill && q.mutex == Nobody
    case Queue(_) => q.pc == Lock
    case SetWaiting(_) => q.pc == Push
    case CondWait(_) => q.pc == Flag
    case Reacquire(_) => q.pc == Woken && q.mutex == Nobody
    case Release(_) => q.pc == Back
    case Decide(_) => q.pc == Check
    case Finish(_) => q.pc == Fill
    case _ => false
  }

  /** `send_stream`, and the end of `execute` */
  function WorkerStep(s: State, i: Id, step: Step): State
    requires WorkerCan(s, i, step)
  {
    var q := s.reqs[i];
    match step
    case Acquire(_) => With(s, i, q.(pc := Lock, mutex := Worker, args := true))
    case Queue(_) => With(s, i, q.(pc := Push)).(queue := s.queue + [i])
    case SetWaiting(_) => With(s, i, q.(pc := Flag, waiting := true))
    case CondWait(_) => With(s, i, q.(pc := Wait, mutex := Nobody))
    case Reacquire(_) => With(s, i, q.(pc := Back, mutex := Worker, waiting := false))
    case Release(_) => With(s, i, q.(pc := Check, mutex := Nobody))
    case Decide(_) => With(s, i, q.(pc := if q.closed then Left else Fill))
    case Finish(_) => With(s, i, q.(pc := Done, args := false)).(queue := s.queue + [i])
  }

  predicate Known(s: State, r: Id) { r < |s.reqs| }

  predicate IoCan(s: State, step: Step) {
    match step
    case Take => s.io == Idle && s.queue != []
    case Encode => s.io.Taking? && s.io.todo != [] && Known(s, s.io.todo[0])
    case Encoded => s.io == Taking([])
    case Writable => s.io == Idle && s.output != []
    case Write(n) => s.io == Writing && n <= |s.output|
    case WriteFails => s.io == Writing && s.output != []
    case WakeNext => s.io == Waking && (s.session != [] ==> Known(s, s.session[0]))
    case WakeAcquire => s.io.WakeLock? && Known(s, s.io.r) && s.reqs[s.io.r].mutex == Nobody
    case WakeRelease => s.io.WakeHold? && Known(s, s.io.r)
    case Destroy => s.io == Idle
    case CloseNext => s.io.Closing? && (s.io.rest != [] ==> Known(s, s.io.rest[0]))
    case CloseAcquire => s.io.CloseLock? && Known(s, s.io.r) && s.reqs[s.io.r].mutex == Nobody
    case CloseRelease => s.io.CloseHold? && Known(s, s.io.r)
    case ClearArgs => s.io.CloseClear? && Known(s, s.io.r)
    case _ => false
  }

  function Signalled(q: Request): Request { if q.pc == Wait then q.(pc := Woken) else q }

  /** `easy_connection_request_done`: a request that streams is listed until its packet is sent. */
  function EncodeOne(s: State, r: Id, todo: seq<Id>): State
    requires Known(s, r)
  {
    s.(io := Taking(todo), output := s.output + [r],
       session := if s.reqs[r].pc == Done then s.session else s.session + [r])
  }

  /** `easy_connection_on_wakeup`, `easy_connection_write_socket`, `easy_connection_write_again` with
      `on_server_io_process`, and `easy_connection_destroy` with `cleanup_request` */
  function IoStep(s: State, step: Step): State
    requires IoCan(s, step)
  {
    match step
    case Take => s.(io := Taking(s.queue), queue := [])
    case Encode => EncodeOne(s, s.io.todo[0], s.io.todo[1..])
    case Encoded => s.(io := Writing)
    case Writable => s.(io := Writing)
    case Write(n) =>
      if s.output == [] then s.(io := Idle)
      else s.(output := s.output[n..], io := if n == |s.output| then Waking else Idle)
    case WriteFails => s.(io := Closing(s.session))
    case WakeNext =>
      if s.session == [] then s.(io := Idle)
      else
        var r := s.session[0];
        s.(session := s.session[1..], io := if s.reqs[r].args then WakeLock(r) else Waking)
    case WakeAcquire =>
      var r := s.io.r;
      var q := s.reqs[r].(mutex := IoThread);
      if q.waiting then With(s, r, Signalled(q)).(io := WakeHold(r)) else s.(io := Aborted)
    case WakeRelease => With(s, s.io.r, s.reqs[s.io.r].(mutex := Nobody)).(io := Waking)
    case Destroy => s.(io := Closing(s.session))
    case CloseNext =>
      if s.io.rest == [] then s.(io := Idle)
      else
        var r := s.io.rest[0];
        s.(io := if s.reqs[r].args then CloseLock(r, s.io.rest[1..]) else Closing(s.io.rest[1..]))
    case CloseAcquire =>
      var r := s.io.r;
      var q := s.reqs[r].(mutex := IoThread);
      With(s, r, (if q.waiting then Signalled(q) else q).(closed := true)).(io := CloseHold(r, s.io.rest))
    case CloseRelease =>
      With(s, s.io.r, s.reqs[s.io.r].(mutex := Nobody)).(io := CloseClear(s.io.r, s.io.rest))
    case ClearArgs => With(s, s.io.r, s.reqs[s.io.r].(args := false)).(io := Closing(s.io.rest))
  }

  predicate ByWorker(step: Step) {
    step.Acquire? || step.Queue? || step.SetWaiting? || step.CondWait? || step.Reacquire? || step.Release? ||
    step.Decide? || step.Finish?
  }

  predicate Can(s: State, step: Step) { if ByWorker(step) then WorkerCan(s, step.i, step) else IoCan(s, step) }

  function Apply(s: State, step: Step): State
    requires Can(s, step)
  {
    if ByWorker(step) then WorkerStep(s, step.i, step) else IoStep(s, step)
  }

  function Initial(n: nat): State {
    State(seq(n, _ => Request(Fill, Nobody, false, false, false)), [], [], [], Idle)
  }

  // ---- the invariant

  function Todo(io: Io): seq<Id> { if io.Taking? then io.todo else [] }

  function InWake(io: Io, i: Id): nat { if io == WakeLock(i) then 1 else 0 }

  function Times(xs: seq<Id>, i: Id): nat { multiset(xs)[i] }

  /** In how many places the IO thread will come across request `i`. */
  function Places(s: State, i: Id): nat {
    Times(s.queue, i) + Times(Todo(s.io), i) + Times(s.session, i) + InWake(s.io, i)
  }

  predicate IoHolds(io: Io, i: Id) { io == WakeHold(i) || (io.CloseHold? && io.r == i) }

  /** The IO thread is at work on the closed request `i`. */
  predicate IoCloses(io: Io, i: Id) { (io.CloseHold? || io.CloseClear?) && io.r == i }

  predicate Holding(pc: Pc) { pc == Lock || pc == Push || pc == Flag || pc == Back }

  /** One request, as all threads leave it. */
  predicate RequestOk(s: State, i: Id)
    requires i < |s.reqs|
  {
    var q := s.reqs[i];
    && (q.mutex == Worker <==> Holding(q.pc))
    && (q.mutex == IoThread <==> IoHolds(s.io, i))
    && (q.waiting <==> q.pc == Flag || q.pc == Wait || q.pc == Woken)
    && match q.pc
       case Fill => Places(s, i) == 0 && !q.closed && i !in s.output
       case Lock => Places(s, i) == 0 && !q.closed && q.args && i !in s.output
       case Push | Flag | Wait => Places(s, i) == 1 && !q.closed && q.args
       case Woken | Back | Check =>
         if q.closed then Places(s, i) == Times(s.session, i) <= 1 && (q.args <==> IoCloses(s.io, i))
         else Places(s, i) == 0 && q.args && i !in s.output
       case Left => q.closed && Places(s, i) == Times(s.session, i) <= 1 && (q.args <==> IoCloses(s.io, i))
       case Done => !q.closed && !q.args && Times(s.session, i) + InWake(s.io, i) == 0
  }

  predicate Suffix(rest: seq<Id>, session: seq<Id>) { |rest| <= |session| && session[|session| - |rest|..] == rest }

  /** What the IO thread can rely on. */
  predicate IoOk(s: State) {
    && !s.io.Aborted?
    && (s.io.Waking? || s.io.WakeLock? || s.io.WakeHold? ==> s.output == [])
    && (s.io.Closing? ==> Suffix(s.io.rest, s.session))
    && (s.io.CloseLock? || s.io.CloseHold? || s.io.CloseClear? ==>
      Suffix([s.io.r] + s.io.rest, s.session) && Known(s, s.io.r))
    && (s.io.WakeLock? || s.io.WakeHold? ==> Known(s, s.io.r))
    && (s.io.CloseClear? ==> s.reqs[s.io.r].closed)
    && (s.io.WakeLock? || s.io.CloseLock? ==> s.reqs[s.io.r].args)
    && (s.io.WakeHold? || s.io.CloseHold? ==>
      s.reqs[s.io.r].pc == Woken && (s.reqs[s.io.r].closed <==> s.io.CloseHold?))
  }

  predicate AllKnown(s: State, xs: seq<Id>) { forall k | 0 <= k < |xs| :: Known(s, xs[k]) }

  predicate Inv(s: State) {
    && IoOk(s) && AllKnown(s, s.queue) && AllKnown(s, Todo(s.io)) && AllKnown(s, s.session)
    && forall i | 0 <= i < |s.reqs| :: RequestOk(s, i)
  }

  lemma InitialInv(n: nat)
    ensures Inv(Initial(n))
  {
  }

  lemma TimesSnoc(xs: seq<Id>, x: Id)
    ensures forall i: Id :: Times(xs + [x], i) == Times(xs, i) + if i == x then 1 else 0
  {
  }

  lemma TimesCons(xs: seq<Id>)
    requires xs != []
    ensures forall i: Id :: Times(xs, i) == Times(xs[1..], i) + if i == xs[0] then 1 else 0
  {
    assert xs == [xs[0]] + xs[1..];
  }

  lemma TimesIn(xs: seq<Id>, i: Id)
    ensures Times(xs, i) > 0 <==> i in xs
  {
  }

  // ---- the workers

  lemma QuietWorkerKeeps(s: State, i: Id, step: Step)
    requires Inv(s) && WorkerCan(s, i, step) && !step.Queue? && !step.Finish?
    ensures Inv(WorkerStep(s, i, step))
  {
    hide Times;
    var t := WorkerStep(s, i, step);
    assert RequestOk(s, i);
    forall j | 0 <= j < |t.reqs| ensures RequestOk(t, j) { assert RequestOk(s, j); }
  }

  lemma QueuingRequest(s: State, i: Id, step: Step, j: Id)
    requires Inv(s) && WorkerCan(s, i, step) && (step.Queue? || step.Finish?) && j < |s.reqs|
    ensures RequestOk(WorkerStep(s, i, step), j)
  {
    TimesSnoc(s.queue, i);
    hide Times, IoOk, AllKnown;
    assert RequestOk(s, i) && RequestOk(s, j);
  }

  lemma QueuingIo(s: State, i: Id, step: Step)
    requires Inv(s) && WorkerCan(s, i, step) && (step.Queue? || step.Finish?)
    ensures IoOk(WorkerStep(s, i, step))
  {
    if s.io.CloseLock? { SuffixHead(s.io.r, s.io.rest, s.session); }
    hide Times, AllKnown, Suffix;
    assert RequestOk(s, i);
  }

  lemma QueuingKeeps(s: State, i: Id, step: Step)
    requires Inv(s) && WorkerCan(s, i, step) && (step.Queue? || step.Finish?)
    ensures Inv(WorkerStep(s, i, step))
  {
    hide RequestOk, IoOk;
    var t := WorkerStep(s, i, step);
    QueuingIo(s, i, step);
    forall k | 0 <= k < |t.queue| ensures Known(t, t.queue[k]) { assert k < |s.queue| ==> Known(s, s.queue[k]); }
    forall j | 0 <= j < |t.reqs| ensures RequestOk(t, j) { QueuingRequest(s, i, step, j); }
  }

  // ---- the IO thread

  lemma TakeKeeps(s: State)
    requires Inv(s) && IoCan(s, Take)
    ensures Inv(IoStep(s, Take))
  {
    var t := IoStep(s, Take);
    forall j | 0 <= j < |t.reqs| ensures RequestOk(t, j) { assert RequestOk(s, j); }
  }

  lemma EncodeRequest(s: State, r: Id, todo: seq<Id>, j: Id)
    requires s.io == Taking([r] + todo) && Known(s, r) && j < |s.reqs| && RequestOk(s, r) && RequestOk(s, j)
    ensures RequestOk(EncodeOne(s, r, todo), j)
  {
    hide Times, Places;
    EncodePlaces(s, r, todo, j);
  }

  /** The request moves from the list of the IO thread to the session list, or leaves them. */
  lemma EncodePlaces(s: State, r: Id, todo: seq<Id>, j: Id)
    requires s.io == Taking([r] + todo) && Known(s, r)
    ensures var t, done := EncodeOne(s, r, todo), s.reqs[r].pc == Done;
            && Places(t, j) == Places(s, j) - (if j == r && done then 1 else 0)
            && Times(t.session, j) == Times(s.session, j) + (if j == r && !done then 1 else 0)
            && Places(s, j) >= Times(s.session, j) + (if j == r then 1 else 0)
  {
    TimesCons([r] + todo);
    TimesSnoc(s.session, r);
    assert ([r] + todo)[1..] == todo;
    hide Times;
  }

  lemma EncodeKeeps(s: State)
    requires Inv(s) && IoCan(s, Encode)
    ensures Inv(IoStep(s, Encode))
  {
    hide RequestOk;
    var t := IoStep(s, Encode);
    forall k | 0 <= k < |Todo(t.io)| ensures Known(t, Todo(t.io)[k]) { assert Known(s, Todo(s.io)[k + 1]); }
    forall k | 0 <= k < |t.session| ensures Known(t, t.session[k]) {
      assert k < |s.session| ==> Known(s, s.session[k]);
    }
    assert s.io.todo == [s.io.todo[0]] + s.io.todo[1..];
    forall j | 0 <= j < |t.reqs| ensures RequestOk(t, j) { EncodeRequest(s, s.io.todo[0], s.io.todo[1..], j); }
  }

  /** A step that only moves the IO thread or shortens the output. */
  lemma SameRequest(s: State, t: State, j: Id)
    requires j < |s.reqs| && RequestOk(s, j)
    requires t.reqs == s.reqs && t.queue == s.queue && t.session == s.session && (j in t.output ==> j in s.output)
    requires Todo(t.io) == Todo(s.io) && InWake(t.io, j) == InWake(s.io, j) && (IoHolds(t.io, j) <==> IoHolds(s.io, j))
    requires IoCloses(t.io, j) <==> IoCloses(s.io, j)
    ensures RequestOk(t, j)
  {
    hide Times, Todo, InWake, IoHolds, IoCloses;
  }

  lemma WriteKeeps(s: State, step: Step)
    requires Inv(s) && IoCan(s, step) &&
             (step.Encoded? || step.Writable? || step.Write? || step.WriteFails? || step.Destroy?)
    ensures Inv(IoStep(s, step))
  {
    hide RequestOk;
    var t := IoStep(s, step);
    assert Todo(t.io) == Todo(s.io);
    SameKnown(s, t);
    forall j | 0 <= j < |t.reqs| ensures RequestOk(t, j) { SameRequest(s, t, j); }
  }

  lemma WakeNextKeeps(s: State)
    requires Inv(s) && IoCan(s, WakeNext)
    ensures Inv(IoStep(s, WakeNext))
  {
    if s.session != [] { TimesCons(s.session); }
    hide Times;
    var t := IoStep(s, WakeNext);
    if s.session != [] { assert RequestOk(s, s.session[0]); }
    forall j | 0 <= j < |t.reqs| ensures RequestOk(t, j) { assert RequestOk(s, j); }
  }

  /** The worker sleeps when the IO thread gets the mutex, so the abort is not taken. */
  lemma WakeAcquireKeeps(s: State)
    requires Inv(s) && IoCan(s, WakeAcquire)
    ensures Inv(IoStep(s, WakeAcquire)) && s.reqs[s.io.r].pc == Wait
  {
    hide Times;
    var t := IoStep(s, WakeAcquire);
    assert RequestOk(s, s.io.r);
    forall j | 0 <= j < |t.reqs| ensures RequestOk(t, j) { assert RequestOk(s, j); }
  }

  lemma WakeReleaseKeeps(s: State)
    requires Inv(s) && IoCan(s, WakeRelease)
    ensures Inv(IoStep(s, WakeRelease))
  {
    hide Times;
    var t := IoStep(s, WakeRelease);
    forall j | 0 <= j < |t.reqs| ensures RequestOk(t, j) { assert RequestOk(s, j); }
  }

  lemma SuffixHead(r: Id, rest: seq<Id>, session: seq<Id>)
    requires Suffix([r] + rest, session)
    ensures Suffix(rest, session) && Times(session, r) > 0 && r in session
  {
    var k := |session| - |rest| - 1;
    assert session[k..] == [r] + rest;
    assert session[k] == session[k..][0] == r;
    assert session[k + 1..] == session[k..][1..];
  }

  lemma CloseNextIo(s: State)
    requires IoOk(s) && IoCan(s, CloseNext)
    ensures IoOk(IoStep(s, CloseNext))
  {
    hide Times, Suffix;
    if s.io.rest != [] {
      var r, rest := s.io.rest[0], s.io.rest[1..];
      assert s.io.rest == [r] + rest;
      SuffixHead(r, rest, s.session);
    }
  }

  lemma CloseNextKeeps(s: State)
    requires Inv(s) && IoCan(s, CloseNext)
    ensures Inv(IoStep(s, CloseNext))
  {
    hide RequestOk, IoOk, AllKnown;
    CloseNextIo(s);
    var t := IoStep(s, CloseNext);
    assert Todo(t.io) == Todo(s.io);
    SameKnown(s, t);
    forall j | 0 <= j < |t.reqs| ensures RequestOk(t, j) { SameRequest(s, t, j); }
  }

  lemma SameKnown(s: State, t: State)
    requires AllKnown(s, s.queue) && AllKnown(s, Todo(s.io)) && AllKnown(s, s.session)
    requires |t.reqs| == |s.reqs| && t.queue == s.queue && t.session == s.session && Todo(t.io) == Todo(s.io)
    ensures AllKnown(t, t.queue) && AllKnown(t, Todo(t.io)) && AllKnown(t, t.session)
  {
    forall k | 0 <= k < |t.queue| ensures Known(t, t.queue[k]) { assert Known(s, s.queue[k]); }
    forall k | 0 <= k < |Todo(t.io)| ensures Known(t, Todo(t.io)[k]) { assert Known(s, Todo(s.io)[k]); }
    forall k | 0 <= k < |t.session| ensures Known(t, t.session[k]) { assert Known(s, s.session[k]); }
  }

  lemma CloseAcquireKeeps(s: State)
    requires Inv(s) && IoCan(s, CloseAcquire)
    ensures Inv(IoStep(s, CloseAcquire)) && s.reqs[s.io.r].pc == Wait
  {
    SuffixHead(s.io.r, s.io.rest, s.session);
    hide Times;
    var t := IoStep(s, CloseAcquire);
    assert RequestOk(s, s.io.r);
    forall j | 0 <= j < |t.reqs| ensures RequestOk(t, j) { assert RequestOk(s, j); }
  }

  lemma CloseReleaseKeeps(s: State)
    requires Inv(s) && IoCan(s, CloseRelease)
    ensures Inv(IoStep(s, CloseRelease))
  {
    SuffixHead(s.io.r, s.io.rest, s.session);
    hide Times;
    var t := IoStep(s, CloseRelease);
    forall j | 0 <= j < |t.reqs| ensures RequestOk(t, j) { assert RequestOk(s, j); }
  }

  lemma ClearArgsKeeps(s: State)
    requires Inv(s) && IoCan(s, ClearArgs)
    ensures Inv(IoStep(s, ClearArgs))
  {
    SuffixHead(s.io.r, s.io.rest, s.session);
    hide Times;
    var t := IoStep(s, ClearArgs);
    forall j | 0 <= j < |t.reqs| ensures RequestOk(t, j) { assert RequestOk(s, j); }
  }

  lemma StepKeeps(s: State, step: Step)
    requires Inv(s) && Can(s, step)
    ensures Inv(Apply(s, step))
  {
    hide Inv, IoCan, IoStep, WorkerCan, WorkerStep;
    match step {
      case Acquire(i) => QuietWorkerKeeps(s, i, step);
      case SetWaiting(i) => QuietWorkerKeeps(s, i, step);
      case CondWait(i) => QuietWorkerKeeps(s, i, step);
      case Reacquire(i) => QuietWorkerKeeps(s, i, step);
      case Release(i) => QuietWorkerKeeps(s, i, step);
      case Decide(i) => QuietWorkerKeeps(s, i, step);
      case Queue(i) => QueuingKeeps(s, i, step);
      case Finish(i) => QueuingKeeps(s, i, step);
      case Take => TakeKeeps(s);
      case Encode => EncodeKeeps(s);
      case Encoded | Writable | Write(_) | WriteFails | Destroy => WriteKeeps(s, step);
      case WakeNext => WakeNextKeeps(s);
      case WakeAcquire => WakeAcquireKeeps(s);
      case WakeRelease => WakeReleaseKeeps(s);
      case CloseNext => CloseNextKeeps(s);
      case CloseAcquire => CloseAcquireKeeps(s);
      case CloseRelease => CloseReleaseKeeps(s);
      case ClearArgs => ClearArgsKeeps(s);
    }
  }

  // ---- every run

  /** The states of a run with any number of workers. */
  predicate IsRun(n: nat, run: seq<State>, steps: seq<Step>) {
    && |run| == |steps| + 1 && run[0] == Initial(n)
    && forall k | 0 <= k < |steps| :: Can(run[k], steps[k]) && run[k + 1] == Apply(run[k], steps[k])
  }

  lemma {:induction false} RunInv(n: nat, run: seq<State>, steps: seq<Step>, k: nat)
    requires IsRun(n, run, steps) && k < |run|
    ensures Inv(run[k])
  {
    hide Inv, Can, Apply;
    if k == 0 {
      InitialInv(n);
    } else {
      RunInv(n, run, steps, k - 1);
      assert Can(run[k - 1], steps[k - 1]);
      StepKeeps(run[k - 1], steps[k - 1]);
    }
  }

  // ---- no packet is lost, doubled or overtaken

  /** The packets that workers have handed over, in order. */
  function Handed(steps: seq<Step>): seq<Id> {
    if steps == [] then [] else
      var step := steps[|steps| - 1];
      Handed(steps[..|steps| - 1]) + if step.Queue? || step.Finish? then [step.i] else []
  }

  /** The packets that have been written to the socket, in order. */
  function Sent(run: seq<State>, steps: seq<Step>, k: nat): seq<Id>
    requires k <= |steps| && |run| == |steps| + 1
  {
    if k == 0 then [] else
      var s, step := run[k - 1], steps[k - 1];
      Sent(run, steps, k - 1) + if step.Write? && step.n <= |s.output| then s.output[..step.n] else []
  }

  /** One step moves packets along, and takes in the one that it hands over. */
  lemma StepConserves(s: State, step: Step)
    requires Can(s, step)
    ensures var t := Apply(s, step);
            (if step.Write? then s.output[..step.n] else []) + (t.output + Todo(t.io) + t.queue) ==
            s.output + Todo(s.io) + s.queue + if step.Queue? || step.Finish? then [step.i] else []
  {
    hide WorkerCan, IoCan, WorkerStep, IoStep;
    if ByWorker(step) { WorkerConserves(s, step.i, step); } else { IoConserves(s, step); }
  }

  lemma WorkerConserves(s: State, i: Id, step: Step)
    requires WorkerCan(s, i, step) && ByWorker(step) && step.i == i
    ensures var t := WorkerStep(s, i, step);
            && t.output == s.output && t.io == s.io
            && t.queue == s.queue + if step.Queue? || step.Finish? then [i] else []
  {
  }

  lemma IoConserves(s: State, step: Step)
    requires IoCan(s, step)
    ensures var t := IoStep(s, step);
            && !ByWorker(step)
            && (if step.Write? then s.output[..step.n] else []) + (t.output + Todo(t.io) + t.queue) ==
               s.output + Todo(s.io) + s.queue
  {
    var t := IoStep(s, step);
    match step {
      case Encode =>
        assert s.io.todo == [s.io.todo[0]] + s.io.todo[1..];
        assert t.output + Todo(t.io) == s.output + Todo(s.io);
      case Write(n) => assert s.output == s.output[..n] + s.output[n..];
      case _ =>
    }
  }

  /** In every run: the packets sent, in the output list, taken by the IO thread and queued are, one
      after another, exactly those that the workers have handed over, in the order in which they did. */
  lemma {:induction false} NothingIsLost(n: nat, run: seq<State>, steps: seq<Step>, k: nat)
    requires IsRun(n, run, steps) && k < |run|
    ensures Sent(run, steps, k) + (run[k].output + Todo(run[k].io) + run[k].queue) == Handed(steps[..k])
  {
    hide Can, Apply;
    if k == 0 {
      assert steps[..0] == [];
    } else {
      NothingIsLost(n, run, steps, k - 1);
      var s, t, step := run[k - 1], run[k], steps[k - 1];
      assert Can(s, step) && t == Apply(s, step);
      StepConserves(s, step);
      WriteFits(s, step);
      assert steps[..k][..k - 1] == steps[..k - 1];
      var before, moved := Sent(run, steps, k - 1), if step.Write? then s.output[..step.n] else [];
      var rest, rest' := s.output + Todo(s.io) + s.queue, t.output + Todo(t.io) + t.queue;
      assert Sent(run, steps, k) == before + moved;
      hide Sent, Todo;
      assert before + moved + rest' == before + (moved + rest');
    }
  }

  lemma WriteFits(s: State, step: Step)
    requires Can(s, step)
    ensures step.Write? ==> step.n <= |s.output|
  {
  }

  /** Once the IO thread rests with nothing queued and nothing to write, all packets have been sent. */
  lemma {:induction false} AllIsSent(n: nat, run: seq<State>, steps: seq<Step>, k: nat)
    requires IsRun(n, run, steps) && k < |run| && run[k].io == Idle && run[k].queue == run[k].output == []
    ensures Sent(run, steps, k) == Handed(steps[..k])
  {
    NothingIsLost(n, run, steps, k);
  }

  predicate InWaking(io: Io) { io.Waking? || io.WakeLock? || io.WakeHold? }

  /** With nothing left to send, only requests of a closed connection are still listed. */
  predicate Attended(s: State)
    requires AllKnown(s, s.session)
  {
    s.output == [] && !InWaking(s.io) ==> forall k | 0 <= k < |s.session| :: s.reqs[s.session[k]].closed
  }

  lemma AttendFacts(s: State)
    requires Inv(s)
    ensures AllKnown(s, s.session)
    ensures (InWaking(s.io) ==> s.output == []) && !s.io.Aborted?
  {
  }

  lemma StepAttends(s: State, step: Step)
    requires Inv(s) && Can(s, step) && Inv(Apply(s, step)) && Attended(s)
    ensures Attended(Apply(s, step))
  {
    hide RequestOk, IoOk, Inv;
    AttendFacts(s);
    AttendFacts(Apply(s, step));
    var t := Apply(s, step);
    if t.output == [] && !InWaking(t.io) {
      forall k | 0 <= k < |t.session| ensures t.reqs[t.session[k]].closed {
        assert t.session == s.session;
        assert Known(s, s.session[k]) && Known(t, t.session[k]);
      }
    }
  }

  lemma {:induction false} RunAttends(n: nat, run: seq<State>, steps: seq<Step>, k: nat)
    requires IsRun(n, run, steps) && k < |run|
    ensures Inv(run[k]) && Attended(run[k])
  {
    hide Can, Apply, RequestOk, IoOk;
    RunInv(n, run, steps, k);
    if k > 0 {
      RunAttends(n, run, steps, k - 1);
      assert Can(run[k - 1], steps[k - 1]);
      StepAttends(run[k - 1], steps[k - 1]);
    }
  }

  /** No wake-up is lost: when the IO thread rests, every sleeper has either an event pending or bytes
      to be written on its connection. */
  lemma NoLostWakeup(n: nat, run: seq<State>, steps: seq<Step>, k: nat, i: Id)
    requires IsRun(n, run, steps) && k < |run| && i < |run[k].reqs|
    requires run[k].io == Idle && run[k].reqs[i].pc == Wait
    ensures i in run[k].queue || run[k].output != []
  {
    RunAttends(n, run, steps, k);
    SleeperIsListed(n, run, steps, k, i);
    assert RequestOk(run[k], i);
  }

  /** In every interleaving: the abort is never taken; a worker that fills its buffer has nothing in
      the output list; and the IO thread wakes workers only once the output list has drained. */
  lemma HandshakeIsSafe(n: nat, run: seq<State>, steps: seq<Step>, k: nat)
    requires IsRun(n, run, steps) && k < |run|
    ensures !run[k].io.Aborted?
    ensures forall i | 0 <= i < |run[k].reqs| && run[k].reqs[i].pc == Fill :: i !in run[k].output
    ensures run[k].io.WakeLock? || run[k].io.WakeHold? ==> run[k].output == []
  {
    RunInv(n, run, steps, k);
    hide Times, Places;
    forall i | 0 <= i < |run[k].reqs| && run[k].reqs[i].pc == Fill ensures i !in run[k].output {
      assert RequestOk(run[k], i);
    }
  }

  /** A worker that returns from `send_stream` to refill its buffer was woken by the IO thread after
      the buffer had been sent; one whose connection was closed does not refill it. */
  lemma RefillAfterDrain(n: nat, run: seq<State>, steps: seq<Step>, k: nat)
    requires IsRun(n, run, steps) && k < |steps| && steps[k].Decide?
    ensures var i := steps[k].i;
            && Can(run[k], steps[k])
            && (run[k + 1].reqs[i].pc == Fill ==> i !in run[k].output && Places(run[k], i) == 0)
            && (run[k].reqs[i].closed <==> run[k + 1].reqs[i].pc == Left)
  {
    RunInv(n, run, steps, k);
    assert Can(run[k], steps[k]);
    hide Times, Places;
    assert RequestOk(run[k], steps[k].i);
  }

  /** A sleeping worker is never forgotten: its request is in exactly one of the lists that the IO
      thread still has to go through. */
  lemma SleeperIsListed(n: nat, run: seq<State>, steps: seq<Step>, k: nat, i: Id)
    requires IsRun(n, run, steps) && k < |run| && i < |run[k].reqs| && run[k].reqs[i].pc == Wait
    ensures Places(run[k], i) == 1
    ensures i in run[k].queue || i in Todo(run[k].io) || i in run[k].session || run[k].io == WakeLock(i)
  {
    RunInv(n, run, steps, k);
    assert RequestOk(run[k], i);
    TimesIn(run[k].queue, i);
    TimesIn(Todo(run[k].io), i);
    TimesIn(run[k].session, i);
  }

  /** The IO thread locks a mutex only while its worker is still inside `send_stream`. */
  lemma MutexIsAlive(n: nat, run: seq<State>, steps: seq<Step>, k: nat)
    requires IsRun(n, run, steps) && k < |steps| && (steps[k].WakeAcquire? || steps[k].CloseAcquire?)
    ensures run[k].io.WakeLock? || run[k].io.CloseLock?
    ensures run[k].io.r < |run[k].reqs| && run[k].reqs[run[k].io.r].pc == Wait
  {
    RunInv(n, run, steps, k);
    assert Can(run[k], steps[k]);
    if steps[k].WakeAcquire? { WakeAcquireKeeps(run[k]); } else { CloseAcquireKeeps(run[k]); }
  }

  // ---- nobody is stuck

  /** A step of its own that worker `i` can take wherever it is, unless it sleeps, has ended, or waits for
      a mutex. */
  function OwnStep(pc: Pc, i: Id): Step {
    match pc
    case Lock => Queue(i)
    case Push => SetWaiting(i)
    case Flag => CondWait(i)
    case Woken => Reacquire(i)
    case Back => Release(i)
    case Check => Decide(i)
    case _ => Finish(i)
  }

  /** The next step of the IO thread. */
  function IoNext(io: Io): Step {
    match io
    case Taking(todo) => if todo == [] then Encoded else Encode
    case Writing => Write(0)
    case Waking => WakeNext
    case WakeLock(_) => WakeAcquire
    case WakeHold(_) => WakeRelease
    case Closing(_) => CloseNext
    case CloseLock(_, _) => CloseAcquire
    case CloseHold(_, _) => CloseRelease
    case CloseClear(_, _) => ClearArgs
    case _ => Destroy
  }

  lemma Owners(s: State, i: Id)
    requires Inv(s) && i < |s.reqs|
    ensures var q := s.reqs[i];
            (q.mutex == Worker <==> Holding(q.pc)) && (q.mutex == IoThread <==> IoHolds(s.io, i))
  {
    hide IoOk, AllKnown, Times;
    assert RequestOk(s, i);
  }

  lemma IoFacts(s: State)
    requires IoOk(s)
    ensures s.io != Aborted && (s.io.Closing? ==> Suffix(s.io.rest, s.session))
    ensures s.io.WakeLock? || s.io.WakeHold? || s.io.CloseLock? || s.io.CloseHold? || s.io.CloseClear? ==>
              Known(s, s.io.r)
  {
    hide Suffix;
  }

  lemma NextKnown(s: State)
    requires Inv(s)
    ensures s.session != [] ==> Known(s, s.session[0])
    ensures s.io.Taking? && s.io.todo != [] ==> Known(s, s.io.todo[0])
    ensures s.io.Closing? && s.io.rest != [] ==> Known(s, s.io.rest[0])
  {
    hide RequestOk, IoOk;
    IoFacts(s);
    if s.io.Closing? && s.io.rest != [] { assert s.io.rest[0] == s.session[|s.session| - |s.io.rest|]; }
    if s.io.Taking? && s.io.todo != [] { assert Known(s, Todo(s.io)[0]); }
  }

  lemma IoGoes(s: State)
    requires s.io != Aborted && (s.session != [] ==> Known(s, s.session[0]))
    requires s.io.Taking? && s.io.todo != [] ==> Known(s, s.io.todo[0])
    requires s.io.Closing? && s.io.rest != [] ==> Known(s, s.io.rest[0])
    requires s.io.WakeLock? || s.io.WakeHold? || s.io.CloseLock? || s.io.CloseHold? || s.io.CloseClear? ==>
               Known(s, s.io.r)
    ensures Can(s, IoNext(s.io)) || s.io.WakeLock? || s.io.CloseLock?
  {
  }

  /** Whoever waits for a mutex waits for a thread that can go on: a woken worker for the IO thread, and
      the IO thread for a worker that holds it. */
  lemma NobodyIsStuck(s: State, i: Id)
    requires Inv(s) && i < |s.reqs|
    ensures var pc := s.reqs[i].pc;
            pc == Wait || pc == Left || pc == Done || Can(s, OwnStep(pc, i)) ||
            (pc == Woken && IoHolds(s.io, i) && Can(s, IoNext(s.io)))
    ensures s.io != Aborted
    ensures Can(s, IoNext(s.io)) ||
            ((s.io.WakeLock? || s.io.CloseLock?) && s.io.r < |s.reqs| && Holding(s.reqs[s.io.r].pc) &&
             Can(s, OwnStep(s.reqs[s.io.r].pc, s.io.r)))
  {
    hide IoOk, AllKnown, RequestOk;
    Owners(s, i);
    IoFacts(s);
    NextKnown(s);
    IoGoes(s);
    if s.io.WakeLock? || s.io.CloseLock? { Owners(s, s.io.r); }
    hide Inv, Suffix;
  }

  /** A bound on the steps that the IO thread still takes before it rests. */
  function Effort(s: State): nat {
    match s.io
    case Idle => 0
    case Taking(todo) => 6 * |todo| + 5 * |s.session| + 3
    case Writing => 5 * |s.session| + 2
    case Waking => 5 * |s.session| + 1
    case WakeLock(_) => 5 * |s.session| + 4
    case WakeHold(_) => 5 * |s.session| + 3
    case Closing(rest) => 5 * |rest| + 1
    case CloseLock(_, rest) => 5 * |rest| + 5
    case CloseHold(_, rest) => 5 * |rest| + 4
    case CloseClear(_, rest) => 5 * |rest| + 3
    case Aborted => 0
  }

  lemma StepEffort(s: State, step: Step)
    requires Inv(s) && Can(s, step)
    ensures ByWorker(step) ==> Effort(Apply(s, step)) == Effort(s)
    ensures !ByWorker(step) && s.io != Idle ==> Effort(Apply(s, step)) < Effort(s)
  {
    hide RequestOk, AllKnown, Suffix;
  }

  /** How many of the steps belong to the IO thread. */
  function IoSteps(steps: seq<Step>): nat {
    if steps == [] then 0
    else IoSteps(steps[..|steps| - 1]) + if ByWorker(steps[|steps| - 1]) then 0 else 1
  }

  /** Once at work, the IO thread rests after no more than `Effort` steps of its own, whatever the workers
      do in between. */
  lemma {:induction false} IoComesToRest(n: nat, run: seq<State>, steps: seq<Step>, j: nat, k: nat)
    requires IsRun(n, run, steps) && j <= k < |run| && forall m | j <= m < k :: run[m].io != Idle
    ensures IoSteps(steps[j..k]) + Effort(run[k]) <= Effort(run[j])
    decreases k
  {
    hide Inv, Can, Apply, Effort;
    if j == k {
      assert steps[j..k] == [];
    } else {
      IoComesToRest(n, run, steps, j, k - 1);
      RunInv(n, run, steps, k - 1);
      assert Can(run[k - 1], steps[k - 1]) && run[k] == Apply(run[k - 1], steps[k - 1]);
      StepEffort(run[k - 1], steps[k - 1]);
      assert steps[j..k][..k - j - 1] == steps[j..k - 1] && steps[j..k][k - j - 1] == steps[k - 1];
    }
  }
}
