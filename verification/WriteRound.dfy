/** A write round: the requests of one wake-up of a write thread, run under one commit (group commit)
    or one commit each, and the status codes that are sent back. */
module WriteRound {
  const OK := 200
  const MULTI_STATUS := 207
  const NOT_FOUND := 404
  const TIME_OUT := 408
  const SERVER_ERROR := 500

  type Change = int

  /** A get, count, insert, update or delete, and what the storage engine will do with it once the
      table is open and locked: the status it ends with, the changes it has made by then, and
      whether its client left while rows were streamed to it. */
  datatype Op = Op(isOpen: bool, code: nat, changes: seq<Change>, gone: bool)

  datatype Work = Single(op: Op) | Batch(ops: seq<Op>)

  /** `lock` and `commit` are the answers to this request's own lock and commit, without group commit. */
  datatype Request = Request(work: Work, closed: bool, late: bool, lock: bool, commit: bool)

  /** The status codes of a reply packet and the packets chained to it, or none at all. */
  datatype Reply = Silent | Sent(codes: seq<nat>)

  /** What becomes of a request: its reply, and the changes it leaves committed. */
  datatype Fate = Fate(reply: Reply, kept: seq<Change>)

  predicate OpOk(op: Op) { op.code == OK || op.code >= 300 }

  predicate RequestOk(r: Request) {
    match r.work case Single(op) => OpOk(op) case Batch(ops) => forall op | op in ops :: OpOk(op)
  }

  predicate Success(code: nat) { 200 <= code < 300 && code != MULTI_STATUS }

  function Replaced(code: nat): nat { if Success(code) then SERVER_ERROR else code }

  function ReplacedAll(codes: seq<nat>): (r: seq<nat>)
    ensures |r| == |codes| && forall i | 0 <= i < |r| :: r[i] == Replaced(codes[i])
  {
    seq(|codes|, i requires 0 <= i < |codes| => Replaced(codes[i]))
  }

  function Answer(reply: Reply): Reply {
    match reply case Silent => Silent case Sent(codes) => Sent(ReplacedAll(codes))
  }

  // ---- what one request does to a transaction

  /** The outcome of some work before any commit. */
  datatype Ran = Ran(codes: seq<nat>, changes: seq<Change>, gone: bool)

  function RunOp(op: Op, locked: bool): Ran {
    if !op.isOpen then Ran([NOT_FOUND], [], false)
    else if !locked then Ran([SERVER_ERROR], [], false)
    else Ran([op.code], op.changes, op.gone)
  }

  /** The first `n` requests of a batch, up to one whose client is gone. */
  function RunOps(ops: seq<Op>, locked: bool, n: nat): Ran
    requires n <= |ops|
  {
    if n == 0 then Ran([], [], false) else
      var r, one := RunOps(ops, locked, n - 1), RunOp(ops[n - 1], locked);
      if r.gone then r else Ran(r.codes + one.codes, r.changes + one.changes, one.gone)
  }

  predicate Failing(r: Ran) { r.gone || exists i | 0 <= i < |r.codes| :: r.codes[i] >= 300 }

  function RunWork(work: Work, locked: bool): Ran {
    match work
    case Single(op) => RunOp(op, locked)
    case Batch(ops) => var r := RunOps(ops, locked, |ops|); Ran([MULTI_STATUS] + r.codes, r.changes, r.gone)
  }

  predicate Served(r: Request) { !r.closed && !r.late }

  /** A batch that fails asks for a rollback; a failing single request does not. */
  predicate AsksRollback(r: Request, locked: bool) {
    Served(r) && r.work.Batch? && Failing(RunOps(r.work.ops, locked, |r.work.ops|))
  }

  function ReplyOf(r: Request, locked: bool): Reply {
    if r.closed then Silent
    else if r.late then Sent([TIME_OUT])
    else
      var ran := RunWork(r.work, locked);
      if ran.gone then Silent else Sent(ran.codes)
  }

  function ChangesOf(r: Request, locked: bool): seq<Change> {
    if Served(r) then RunWork(r.work, locked).changes else []
  }

  /** A request with its own lock and commit. */
  function AloneFate(r: Request): Fate {
    var undone := r.lock && (AsksRollback(r, true) || !r.commit);
    var reply := ReplyOf(r, r.lock);
    Fate(if undone then Answer(reply) else reply, if undone then [] else ChangesOf(r, r.lock))
  }

  /** A request in a round with one lock and one commit, which is undone or not as a whole. */
  function GroupFate(r: Request, lock: bool, undone: bool): Fate {
    var reply := ReplyOf(r, lock);
    Fate(if undone then Answer(reply) else reply, if undone then [] else ChangesOf(r, lock))
  }

  predicate Undone(reqs: seq<Request>, lock: bool, commit: bool) {
    lock && (!commit || exists i | 0 <= i < |reqs| :: AsksRollback(reqs[i], lock))
  }

  function Fates(group: bool, reqs: seq<Request>, lock: bool, commit: bool): (r: seq<Fate>)
    ensures |r| == |reqs|
  {
    seq(|reqs|, i requires 0 <= i < |reqs| =>
      if group then GroupFate(reqs[i], lock, Undone(reqs, lock, commit)) else AloneFate(reqs[i]))
  }

  function Kept(fates: seq<Fate>): seq<Change> {
    if fates == [] then [] else Kept(fates[..|fates| - 1]) + fates[|fates| - 1].kept
  }

  // ---- what the replies mean

  function AllChanges(ops: seq<Op>): seq<Change> {
    if ops == [] then [] else AllChanges(ops[..|ops| - 1]) + ops[|ops| - 1].changes
  }

  /** The promise to the client. */
  predicate Honest(r: Request, f: Fate) {
    match r.work
    case Single(op) => f.reply.Sent? && f.reply.codes != [] && Success(f.reply.codes[0]) ==>
      f.kept == op.changes && op.code == OK
    case Batch(ops) =>
      f.reply.Sent? && f.reply.codes != [] && f.reply.codes[0] == MULTI_STATUS ==>
        || (f.reply.codes == [MULTI_STATUS] + seq(|ops|, _ => OK) && f.kept == AllChanges(ops))
        || ((forall i | 1 <= i < |f.reply.codes| :: !(200 <= f.reply.codes[i] < 300)) && f.kept == [])
  }

  lemma {:induction false} RunOpsChanges(ops: seq<Op>, locked: bool, n: nat)
    requires n <= |ops| && !Failing(RunOps(ops, locked, n))
    ensures RunOps(ops, locked, n).changes == AllChanges(ops[..n])
  {
    if n > 0 {
      assert ops[..n][..n - 1] == ops[..n - 1];
      var r := RunOps(ops, locked, n - 1);
      assert !r.gone;
      FailingNext(ops, locked, n - 1);
      hide Failing;
      RunOpsChanges(ops, locked, n - 1);
    }
  }

  lemma {:induction false} RunOpsUnlocked(ops: seq<Op>, n: nat)
    requires n <= |ops|
    ensures var r := RunOps(ops, false, n);
            !r.gone && r.changes == [] && forall i | 0 <= i < |r.codes| :: r.codes[i] >= 300
  {
    if n > 0 { RunOpsUnlocked(ops, n - 1); }
  }

  lemma {:induction false} RunOpsStatus(ops: seq<Op>, locked: bool, n: nat)
    requires n <= |ops| && forall op | op in ops :: OpOk(op)
    ensures var r := RunOps(ops, locked, n);
            && |r.codes| <= n && (forall i | 0 <= i < |r.codes| :: r.codes[i] == OK || r.codes[i] >= 300)
            && (!r.gone ==> |r.codes| == n)
  {
    if n > 0 {
      RunOpsStatus(ops, locked, n - 1);
      assert ops[n - 1] in ops;
    }
  }

  lemma RunOpsCodes(ops: seq<Op>, locked: bool, n: nat)
    requires n <= |ops| && forall op | op in ops :: OpOk(op)
    ensures var r := RunOps(ops, locked, n);
            && |r.codes| <= n && (forall i | 0 <= i < |r.codes| :: r.codes[i] == OK || r.codes[i] >= 300)
            && (!r.gone ==> |r.codes| == n)
            && (!Failing(r) ==> r.changes == AllChanges(ops[..n]))
            && (!locked ==> !r.gone && r.changes == [] && forall i | 0 <= i < |r.codes| :: r.codes[i] >= 300)
  {
    hide RunOps, AllChanges, Failing;
    RunOpsStatus(ops, locked, n);
    if !Failing(RunOps(ops, locked, n)) { RunOpsChanges(ops, locked, n); }
    if !locked { RunOpsUnlocked(ops, n); }
  }

  lemma BatchFate(ops: seq<Op>, locked: bool, undone: bool)
    requires forall op | op in ops :: OpOk(op)
    requires locked && Failing(RunOps(ops, locked, |ops|)) ==> undone
    requires undone ==> locked
    ensures var ran := RunWork(Batch(ops), locked);
            var reply := if ran.gone then Silent else Sent(ran.codes);
            var f := Fate(if undone then Answer(reply) else reply, if undone then [] else ran.changes);
            Honest(Request(Batch(ops), false, false, locked, true), f)
  {
    RunOpsCodes(ops, locked, |ops|);
    assert ops[..|ops|] == ops;
    var r := RunOps(ops, locked, |ops|);
    if !undone && locked {
      assert forall i | 0 <= i < |r.codes| :: r.codes[i] == OK;
      assert !r.gone ==> r.codes == seq(|ops|, _ => OK);
    }
  }

  /** In every round, with group commit or without, a success stands for committed changes, and a
      batch is committed and reported whole or not at all. */
  lemma RepliesAreHonest(group: bool, reqs: seq<Request>, lock: bool, commit: bool, i: nat)
    requires i < |reqs| && forall r | r in reqs :: RequestOk(r)
    ensures Honest(reqs[i], Fates(group, reqs, lock, commit)[i])
  {
    hide RunOps, AllChanges, Failing;
    var r := reqs[i];
    assert r in reqs;
    var locked := if group then lock else r.lock;
    var undone := if group then Undone(reqs, lock, commit) else r.lock && (AsksRollback(r, true) || !r.commit);
    if Served(r) && r.work.Batch? {
      if Failing(RunOps(r.work.ops, locked, |r.work.ops|)) { assert AsksRollback(r, locked); }
      BatchFate(r.work.ops, locked, undone);
    }
  }

  /** Whether the transaction that a request is part of is rolled back. */
  predicate RolledBack(group: bool, reqs: seq<Request>, lock: bool, commit: bool, i: nat)
    requires i < |reqs|
  {
    if group then Undone(reqs, lock, commit) else reqs[i].lock && (AsksRollback(reqs[i], true) || !reqs[i].commit)
  }

  /** What a request does: whether its client is there, its time is up, its table is open and locked,
      and the storage engine is content, decide the answer and the changes. */
  lemma {:induction false} SingleFate(group: bool, reqs: seq<Request>, lock: bool, commit: bool, i: nat)
    requires i < |reqs| && reqs[i].work.Single?
    ensures var r, f := reqs[i], Fates(group, reqs, lock, commit)[i];
            var op, locked := r.work.op, if group then lock else r.lock;
            var undone := RolledBack(group, reqs, lock, commit, i);
            && (r.closed ==> f == Fate(Silent, []))
            && (!r.closed && r.late ==> f == Fate(Sent([TIME_OUT]), []))
            && (Served(r) && !op.isOpen ==> f == Fate(Sent([NOT_FOUND]), []))
            && (Served(r) && op.isOpen && !locked ==> f == Fate(Sent([SERVER_ERROR]), []))
            && (Served(r) && op.isOpen && locked && op.gone ==> f == Fate(Silent, if undone then [] else op.changes))
            && (Served(r) && op.isOpen && locked && !op.gone ==>
                  f == if undone then Fate(Sent([Replaced(op.code)]), []) else Fate(Sent([op.code]), op.changes))
  {
    assert ReplacedAll([reqs[i].work.op.code]) == [Replaced(reqs[i].work.op.code)];
  }

  /** A write that succeeds is committed and reported as a success, unless the commit fails or
      another request of its group has it rolled back. */
  lemma {:induction false} SuccessIsKept(group: bool, reqs: seq<Request>, lock: bool, commit: bool, i: nat)
    requires i < |reqs| && Served(reqs[i]) && reqs[i].work.Single? && !RolledBack(group, reqs, lock, commit, i)
    requires var op := reqs[i].work.op; op.isOpen && op.code == OK && !op.gone && if group then lock else reqs[i].lock
    ensures Fates(group, reqs, lock, commit)[i] == Fate(Sent([OK]), reqs[i].work.op.changes)
  {
    hide Fates, RolledBack;
    SingleFate(group, reqs, lock, commit, i);
  }

  predicate AllSucceed(ops: seq<Op>) { forall i | 0 <= i < |ops| :: ops[i].isOpen && ops[i].code == OK && !ops[i].gone }

  lemma {:induction false} RunAllSucceed(ops: seq<Op>, n: nat)
    requires n <= |ops| && AllSucceed(ops)
    ensures RunOps(ops, true, n) == Ran(seq(n, _ => OK), AllChanges(ops[..n]), false)
  {
    if n > 0 {
      RunAllSucceed(ops, n - 1);
      assert ops[..n][..n - 1] == ops[..n - 1];
      assert seq(n - 1, _ => OK) + [OK] == seq(n, _ => OK);
    }
  }

  /** A batch whose requests all succeed is committed and reported whole: it does not ask for a
      rollback itself, and if nothing else does and the commit succeeds, all its changes are kept. */
  lemma {:induction false} BatchSuccessIsKept(group: bool, reqs: seq<Request>, lock: bool, commit: bool, i: nat)
    requires i < |reqs| && Served(reqs[i]) && reqs[i].work.Batch? && AllSucceed(reqs[i].work.ops)
    requires if group then lock else reqs[i].lock
    ensures !AsksRollback(reqs[i], true)
    ensures var ops, f := reqs[i].work.ops, Fates(group, reqs, lock, commit)[i];
            f == if RolledBack(group, reqs, lock, commit, i)
                 then Fate(Sent([MULTI_STATUS] + seq(|ops|, _ => SERVER_ERROR)), [])
                 else Fate(Sent([MULTI_STATUS] + seq(|ops|, _ => OK)), AllChanges(ops))
  {
    var ops := reqs[i].work.ops;
    RunAllSucceed(ops, |ops|);
    assert ops[..|ops|] == ops;
    var codes := [MULTI_STATUS] + seq(|ops|, _ => OK);
    assert ReplacedAll(codes) == [MULTI_STATUS] + seq(|ops|, _ => SERVER_ERROR);
  }

  /** A group is rolled back exactly if it was locked, and its commit fails or one of its batches has
      a failing request or loses its client. */
  lemma {:induction false} WhyUndone(reqs: seq<Request>, lock: bool, commit: bool)
    ensures Undone(reqs, lock, commit) <==> lock && (!commit || exists i | 0 <= i < |reqs| :: FailingBatch(reqs[i]))
  {
    forall i | 0 <= i < |reqs| ensures AsksRollback(reqs[i], true) <==> FailingBatch(reqs[i]) {
      if reqs[i].work.Batch? { WhyFailing(reqs[i].work.ops, |reqs[i].work.ops|); }
    }
    if lock && exists i | 0 <= i < |reqs| :: FailingBatch(reqs[i]) {
      var i :| 0 <= i < |reqs| && FailingBatch(reqs[i]);
      assert AsksRollback(reqs[i], true);
    }
  }

  predicate Fails(op: Op) { !op.isOpen || op.code >= 300 || op.gone }

  predicate FailingBatch(r: Request) {
    Served(r) && r.work.Batch? && exists i | 0 <= i < |r.work.ops| :: Fails(r.work.ops[i])
  }

  lemma {:induction false} WhyFailing(ops: seq<Op>, n: nat)
    requires n <= |ops|
    ensures Failing(RunOps(ops, true, n)) <==> exists i | 0 <= i < n :: Fails(ops[i])
  {
    if n > 0 {
      WhyFailing(ops, n - 1);
      if !RunOps(ops, true, n - 1).gone { FailingNext(ops, true, n - 1); }
      hide RunOps, Failing;
    }
  }

  lemma {:induction false} KeptSplit(fates: seq<Fate>, i: nat)
    requires i < |fates|
    ensures Kept(fates) == Kept(fates[..i]) + fates[i].kept + Kept(fates[i + 1..])
  {
    var n := |fates| - 1;
    if i == n {
      assert fates[i + 1..] == [];
    } else {
      KeptSplit(fates[..n], i);
      assert fates[..n][..i] == fates[..i] && fates[..n][i + 1..] == fates[i + 1..n];
      assert fates[i + 1..][..n - i - 1] == fates[i + 1..n];
    }
  }

  /** What a round commits of a single request that it refuses: all the changes made up to the
      error, exactly if the table was open and locked and nothing undoes the transaction; else
      nothing. The other requests' changes come before and after. */
  lemma {:induction false} RefusedButKept(group: bool, reqs: seq<Request>, lock: bool, commit: bool, i: nat)
    requires i < |reqs| && Served(reqs[i]) && reqs[i].work.Single? && reqs[i].work.op.code >= 300
    ensures var op, fates := reqs[i].work.op, Fates(group, reqs, lock, commit);
            var locked := if group then lock else reqs[i].lock;
            var undone := if group then Undone(reqs, lock, commit) else !reqs[i].commit;
            && (fates[i].reply == Silent || fates[i].reply.codes[0] >= 300)
            && Kept(fates) == Kept(fates[..i]) + (if op.isOpen && locked && !undone then op.changes else []) +
              Kept(fates[i + 1..])
  {
    KeptSplit(Fates(group, reqs, lock, commit), i);
    hide Kept;
  }

  /** A refused update can be committed in part. */
  lemma RefusedButKeptExample()
    ensures var r := Request(Single(Op(true, 502, [7], false)), false, false, true, true);
            Fates(false, [r], true, true)[0] == Fate(Sent([502]), [7])
  {
  }

  /** A group that is undone leaves nothing committed and reports no success. */
  lemma {:induction false} UndoneKeepsNothing(reqs: seq<Request>, lock: bool, commit: bool)
    requires Undone(reqs, lock, commit)
    ensures var fates := Fates(true, reqs, lock, commit);
            && Kept(fates) == []
            && forall i, j | 0 <= i < |fates| && fates[i].reply.Sent? && 0 <= j < |fates[i].reply.codes| ::
              !Success(fates[i].reply.codes[j])
  {
    KeptNone(Fates(true, reqs, lock, commit));
  }

  lemma {:induction false} KeptNone(fates: seq<Fate>)
    requires forall i | 0 <= i < |fates| :: fates[i].kept == []
    ensures Kept(fates) == []
  {
    if fates != [] { KeptNone(fates[..|fates| - 1]); }
  }

  // ---- the thread

  lemma KeptSnoc(fates: seq<Fate>, f: Fate)
    ensures Kept(fates + [f]) == Kept(fates) + f.kept
  {
    assert (fates + [f])[..|fates|] == fates;
  }

  /** What the requests so far have changed in the round's transaction. */
  function Done(reqs: seq<Request>, lock: bool): seq<Change> {
    if reqs == [] then [] else Done(reqs[..|reqs| - 1], lock) + ChangesOf(reqs[|reqs| - 1], lock)
  }

  lemma {:induction false} UnlockedDone(reqs: seq<Request>)
    requires forall r | r in reqs :: RequestOk(r)
    ensures Done(reqs, false) == []
  {
    if reqs != [] {
      UnlockedDone(reqs[..|reqs| - 1]);
      var r := reqs[|reqs| - 1];
      assert r in reqs;
      if r.work.Batch? { RunOpsCodes(r.work.ops, false, |r.work.ops|); }
    }
  }

  lemma {:induction false} GroupKept(reqs: seq<Request>, lock: bool, undone: bool, fates: seq<Fate>)
    requires |fates| == |reqs| && forall i | 0 <= i < |reqs| :: fates[i] == GroupFate(reqs[i], lock, undone)
    ensures Kept(fates) == if undone then [] else Done(reqs, lock)
  {
    if reqs != [] { GroupKept(reqs[..|reqs| - 1], lock, undone, fates[..|reqs| - 1]); }
  }

  /** The database context of a write thread. */
  class Context {
    var bulk: bool
    var inBatch: bool
    var lock: bool
    var writeError: bool
    var pending: seq<Change>
    var committed: seq<Change>

    constructor ()
      ensures Idle() && committed == []
    {
      bulk, inBatch, lock, writeError, pending, committed := true, false, false, false, [], [];
    }

    /** Between rounds, and between the requests of a round without group commit. */
    predicate Idle()
      reads this
    {
      !inBatch && !lock && !writeError && pending == []
    }

    /** `tdhs_unlock_table`, `tdhs_unlock_table_lite`: commit, or roll back after an error. */
    method Finish(commit: bool) returns (ok: bool)
      modifies this`lock, this`writeError, this`pending, this`committed
      ensures ok == (old(lock) ==> !old(writeError) && commit)
      ensures !lock && !writeError
      ensures pending == if old(lock) then [] else old(pending)
      ensures committed == if old(lock) && ok then old(committed) + old(pending) else old(committed)
    {
      ok := true;
      if lock {
        if writeError {
          ok := false;
        } else if commit {
          committed := committed + pending;
        } else {
          ok := false;
        }
        pending := [];
        lock := false;
      }
      writeError := false;
    }

    /** `do_find`, `do_insert` with their table locker. */
    method DoOp(op: Op, answer: bool, commit: bool) returns (code: nat, gone: bool)
      requires bulk || inBatch || Idle()
      modifies this`lock, this`writeError, this`pending, this`committed
      ensures bulk || inBatch ==>
                var r := RunOp(op, old(lock));
                && [code] == r.codes && gone == r.gone && pending == old(pending) + r.changes
                && lock == old(lock) && writeError == old(writeError) && committed == old(committed)
      ensures !bulk && !inBatch ==>
                var f := AloneFate(Request(Single(op), false, false, answer, commit));
                && Idle() && committed == old(committed) + f.kept
                && f.reply == if gone then Silent else Sent([code])
    {
      gone := false;
      if !op.isOpen { return NOT_FOUND, false; }
      if !(bulk || inBatch) { lock := answer; }
      if !lock {
        code := SERVER_ERROR;
      } else {
        pending := pending + op.changes;
        code, gone := op.code, op.gone;
      }
      if !(bulk || inBatch) {
        var ok := Finish(commit);
        if !ok { code := Replaced(code); }
        assert ReplacedAll([op.code]) == [Replaced(op.code)];
      }
    }

    /** `do_batch`: one failure marks the transaction for rollback; the rest still runs, unless the
        client is gone. */
    method DoBatch(ops: seq<Op>) returns (codes: seq<nat>, gone: bool)
      requires !inBatch && (forall op | op in ops :: OpOk(op)) && (lock || pending == [])
      modifies this
      ensures bulk == old(bulk) && !inBatch && lock == old(lock) && committed == old(committed)
      ensures var r := RunOps(ops, lock, |ops|);
              && gone == r.gone && codes == r.codes && pending == old(pending) + r.changes
              && writeError == (old(writeError) || Failing(r))
    {
      codes, gone := [], false;
      inBatch := true;
      var n := 0;
      while n < |ops| && !gone
        invariant n <= |ops| && inBatch && bulk == old(bulk) && lock == old(lock) && committed == old(committed)
        invariant var r := RunOps(ops, lock, n);
                  && gone == r.gone && codes == r.codes && pending == old(pending) + r.changes
                  && writeError == (old(writeError) || Failing(r))
        decreases |ops| - n
      {
        var code;
        ghost var r := RunOps(ops, lock, n);
        code, gone := DoOp(ops[n], false, false);
        FailingNext(ops, lock, n);
        if gone || code >= 300 { writeError := true; }
        codes := codes + [code];
        n := n + 1;
      }
      GoneStays(ops, lock, n);
      inBatch := false;
    }

    /** `do_batch_with_lock` */
    method DoBatchWithLock(ops: seq<Op>, answer: bool, commit: bool) returns (codes: seq<nat>, gone: bool)
      requires !bulk && Idle() && forall op | op in ops :: OpOk(op)
      modifies this
      ensures bulk == old(bulk) && Idle()
      ensures var f := AloneFate(Request(Batch(ops), false, false, answer, commit));
              && committed == old(committed) + f.kept
              && f.reply == if gone then Silent else Sent(codes)
    {
      hide RunOps, AloneFate, Failing, ReplacedAll;
      BatchAlone(ops, answer, commit);
      lock := answer;
      codes, gone := DoBatch(ops);
      codes := [MULTI_STATUS] + codes;
      var ok := Finish(commit);
      if !ok && !gone { codes := ReplacedAll(codes); }
    }

    /** `on_server_process` and `execute`, for one request of a round. */
    method Process(r: Request) returns (reply: Reply)
      requires RequestOk(r) && !inBatch && (lock || pending == []) && (bulk || Idle())
      modifies this
      ensures bulk == old(bulk)
      ensures bulk ==>
                && !inBatch && lock == old(lock) && committed == old(committed)
                && reply == ReplyOf(r, lock) && pending == old(pending) + ChangesOf(r, lock)
                && writeError == (old(writeError) || AsksRollback(r, lock))
      ensures !bulk ==> Idle() && reply == AloneFate(r).reply && committed == old(committed) + AloneFate(r).kept
    {
      if r.closed { return Silent; }
      if r.late {
        assert ReplacedAll([TIME_OUT]) == [TIME_OUT];
        return Sent([TIME_OUT]);
      }
      var codes, gone;
      match r.work {
        case Single(op) =>
          var code;
          code, gone := DoOp(op, r.lock, r.commit);
          codes := [code];
        case Batch(ops) =>
          if bulk {
            codes, gone := DoBatch(ops);
            codes := [MULTI_STATUS] + codes;
          } else {
            codes, gone := DoBatchWithLock(ops, r.lock, r.commit);
          }
      }
      reply := if gone then Silent else Sent(codes);
    }

    /** `tdhs_request_doreq_for_write` */
    method Round(group: bool, reqs: seq<Request>, answer: bool, commit: bool) returns (replies: seq<Reply>)
      requires Idle() && forall r | r in reqs :: RequestOk(r)
      modifies this
      ensures Idle() && |replies| == |reqs|
      ensures var fates := Fates(group, reqs, answer, commit);
              && committed == old(committed) + Kept(fates)
              && forall i | 0 <= i < |reqs| :: replies[i] == fates[i].reply
    {
      bulk := group;
      replies := [];
      if bulk {
        lock := answer;
        replies := ProcessGroup(reqs);
        var ok := Finish(commit);
        if !answer { UnlockedDone(reqs); }
        ghost var undone := Undone(reqs, answer, commit);
        assert ok == !undone;
        GroupKept(reqs, answer, undone, Fates(group, reqs, answer, commit));
        if !ok { replies := ReplaceReplies(replies); }
      } else {
        replies := ProcessAlone(reqs);
        assert Fates(false, reqs, answer, commit) == Fates(false, reqs, true, true);
      }
    }

    method ProcessGroup(reqs: seq<Request>) returns (replies: seq<Reply>)
      requires bulk && !inBatch && !writeError && pending == [] && forall r | r in reqs :: RequestOk(r)
      modifies this
      ensures bulk && !inBatch && lock == old(lock) && committed == old(committed)
      ensures pending == Done(reqs, lock)
      ensures writeError <==> exists i | 0 <= i < |reqs| :: AsksRollback(reqs[i], lock)
      ensures |replies| == |reqs| && forall i | 0 <= i < |reqs| :: replies[i] == ReplyOf(reqs[i], lock)
    {
      hide RunWork, ReplyOf, ChangesOf, AsksRollback, RequestOk;
      replies := [];
      while |replies| < |reqs|
        invariant |replies| <= |reqs| && bulk && !inBatch && lock == old(lock) && committed == old(committed)
        invariant pending == Done(reqs[..|replies|], lock) && (lock || pending == [])
        invariant writeError <==> exists i | 0 <= i < |replies| :: AsksRollback(reqs[i], lock)
        invariant forall i | 0 <= i < |replies| :: replies[i] == ReplyOf(reqs[i], lock)
      {
        var n := |replies|;
        assert reqs[..n + 1][..n] == reqs[..n];
        var reply := Process(reqs[n]);
        if !lock { UnlockedDone(reqs[..n + 1]); }
        replies := replies + [reply];
      }
      assert reqs[..|replies|] == reqs;
    }

    method ProcessAlone(reqs: seq<Request>) returns (replies: seq<Reply>)
      requires !bulk && Idle() && forall r | r in reqs :: RequestOk(r)
      modifies this
      ensures Idle() && |replies| == |reqs|
      ensures var fates := Fates(false, reqs, true, true);
              && committed == old(committed) + Kept(fates) && forall i | 0 <= i < |reqs| :: replies[i] == fates[i].reply
    {
      hide AloneFate, RequestOk;
      ghost var fates := Fates(false, reqs, true, true);
      replies := [];
      while |replies| < |reqs|
        invariant |replies| <= |reqs| && !bulk && Idle()
        invariant committed == old(committed) + Kept(fates[..|replies|])
        invariant forall i | 0 <= i < |replies| :: replies[i] == fates[i].reply
      {
        var n := |replies|;
        assert fates[..n + 1] == fates[..n] + [fates[n]];
        KeptSnoc(fates[..n], fates[n]);
        var reply := Process(reqs[n]);
        replies := replies + [reply];
      }
      assert fates[..|replies|] == fates;
    }

    /** After a failed commit no success is reported. */
    method ReplaceReplies(replies: seq<Reply>) returns (r: seq<Reply>)
      ensures |r| == |replies| && forall i | 0 <= i < |r| :: r[i] == Answer(replies[i])
    {
      r := [];
      while |r| < |replies|
        invariant |r| <= |replies| && forall i | 0 <= i < |r| :: r[i] == Answer(replies[i])
      {
        r := r + [Answer(replies[|r|])];
      }
    }
  }

  /** A thread that gets one such update reports a failure and commits the change. */
  method RefusedRound(group: bool) returns (replies: seq<Reply>, committed: seq<Change>)
    ensures replies == [Sent([502])] && committed == [7]
  {
    var c := new Context();
    var r := Request(Single(Op(true, 502, [7], false)), false, false, true, true);
    replies := c.Round(group, [r], true, true);
    committed := c.committed;
    RefusedButKept(group, [r], true, true, 0);
    assert Fates(group, [r], true, true)[..0] == [] && Fates(group, [r], true, true)[1..] == [];
    assert replies == [replies[0]];
  }

  lemma BatchAlone(ops: seq<Op>, answer: bool, commit: bool)
    requires forall op | op in ops :: OpOk(op)
    ensures var r := RunOps(ops, answer, |ops|);
            var undone := answer && (Failing(r) || !commit);
            var codes := if undone then ReplacedAll([MULTI_STATUS] + r.codes) else [MULTI_STATUS] + r.codes;
            && AloneFate(Request(Batch(ops), false, false, answer, commit)) ==
               Fate(if r.gone then Silent else Sent(codes), if undone then [] else r.changes)
            && (!answer ==> r.changes == [] && !r.gone)
  {
    hide RunOps, Failing, ReplacedAll, AllChanges;
    RunOpsCodes(ops, answer, |ops|);
  }

  lemma FailingNext(ops: seq<Op>, locked: bool, n: nat)
    requires n < |ops| && !RunOps(ops, locked, n).gone
    ensures var r, one := RunOps(ops, locked, n), RunOp(ops[n], locked);
            Failing(RunOps(ops, locked, n + 1)) <==> Failing(r) || one.gone || one.codes[0] >= 300
  {
    var r, r' := RunOps(ops, locked, n), RunOps(ops, locked, n + 1);
    assert r'.codes[|r.codes|] == RunOp(ops[n], locked).codes[0];
    assert forall i | 0 <= i < |r.codes| :: r.codes[i] == r'.codes[i];
  }

  lemma {:induction false} GoneStays(ops: seq<Op>, locked: bool, n: nat)
    requires n <= |ops| && (n == |ops| || RunOps(ops, locked, n).gone)
    ensures RunOps(ops, locked, |ops|) == RunOps(ops, locked, n)
    decreases |ops| - n
  {
    if n < |ops| { GoneStays(ops, locked, n + 1); }
  }
}
