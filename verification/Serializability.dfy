/** When concurrent runs are serializable in commit order. Requests that lock before they read always are.
    An approval that draws on a pool reads the pool's wallet before locking it: its commit is serial exactly
    when that row did not change in between. */
module Serializability {
  import opened Prelude
  import opened Ledger
  import opened Movers
  import opened Concurrency
  import opened Interleaving

  // ---- the serial execution a run is compared with ----

  /** The handlers of the logged jobs, run one after the other. */
  ghost function Serial(jobs: seq<Job>, h: Hierarchy, db: Db, log: seq<nat>): Db
    requires InRange(log, |jobs|)
  {
    if log == [] then db else
      var before := Serial(jobs, h, db, log[..|log| - 1]);
      var job := jobs[log[|log| - 1]];
      Handle(before, h, job.req, job.at).After(before)
  }

  ghost predicate CommitsAt(jobs: seq<Job>, h: Hierarchy, db: Db, log: seq<nat>, k: nat)
    requires InRange(log, |jobs|) && k < |log|
  {
    Handle(Serial(jobs, h, db, log[..k]), h, jobs[log[k]].req, jobs[log[k]].at).Done?
  }

  /** Every logged job commits when run alone at its place in the log. */
  ghost predicate AllCommit(jobs: seq<Job>, h: Hierarchy, db: Db, log: seq<nat>)
    requires InRange(log, |jobs|)
  {
    forall k :: 0 <= k < |log| ==> CommitsAt(jobs, h, db, log, k)
  }

  /** The tables are what the committed jobs, run one after the other in commit order, produce. */
  ghost predicate IsSerial(jobs: seq<Job>, h: Hierarchy, db0: Db, s: Sys)
  {
    InRange(s.log, |jobs|) && AllCommit(jobs, h, db0, s.log) && s.db == Serial(jobs, h, db0, s.log)
  }

  /** One more job keeps a run serial exactly when it does what its handler would do now. */
  lemma SerialAppendIff(jobs: seq<Job>, h: Hierarchy, db0: Db, s: Sys, next: Sys, i: nat)
    requires i < |jobs| && IsSerial(jobs, h, db0, s) && next.log == s.log + [i]
    ensures IsSerial(jobs, h, db0, next) <==> Handle(s.db, h, jobs[i].req, jobs[i].at) == Done(next.db)
  {
    var more := next.log;
    assert more[..|s.log|] == s.log && more[|s.log|] == i;
    if Handle(s.db, h, jobs[i].req, jobs[i].at) == Done(next.db) {
      forall k | 0 <= k < |more| ensures CommitsAt(jobs, h, db0, more, k) {
        if k < |s.log| {
          assert more[..k] == s.log[..k];
          assert CommitsAt(jobs, h, db0, s.log, k);
        }
      }
    }
    if IsSerial(jobs, h, db0, next) {
      assert CommitsAt(jobs, h, db0, more, |s.log|);
    }
  }

  // ---- the commit ----

  /** The job's copy of the pool's wallet, loaded before its lock, is no longer the row. */
  predicate Stale(job: Job, view: map<Id, Wallet>, wallets: map<Id, Wallet>)
  {
    ReadsFirst(job) && job.legs[0].wallet in view && job.legs[0].wallet in wallets
    && view[job.legs[0].wallet] != wallets[job.legs[0].wallet]
  }

  predicate Agrees(view: map<Id, Wallet>, wallets: map<Id, Wallet>)
  {
    forall id :: id in view ==> id in wallets && wallets[id] == view[id]
  }

  lemma CurrentAgrees(job: Job, view: map<Id, Wallet>, wallets: map<Id, Wallet>)
    requires ViewOk(job, view, wallets) && !Stale(job, view, wallets)
    ensures Agrees(view, wallets)
  {
  }

  /** Effects computed on current copies are the effects the handler would have had on the tables. */
  lemma CommitIsPostOne(db: Db, view: map<Id, Wallet>, legs: seq<Leg>, at: int)
    requires |legs| == 1 && WalletsExist(view, legs) && Agrees(view, db.wallets)
    requires view.Keys == {legs[0].wallet}
    ensures WalletsExist(db.wallets, legs)
    ensures PostAll(db, legs, at) == db.(wallets := NewWallets(db.wallets, view, legs),
                                         txns := db.txns + NewRows(view, legs, at))
  {
    var leg := legs[0];
    assert legs[1..] == [];
    assert leg.wallet in view;
    var posted := Post(db, leg, at);
    assert PostAll(db, legs, at) == PostAll(posted, legs[1..], at) == posted;
    assert LegAmount(legs, leg.wallet) == leg.amount + LegAmount(legs[1..], leg.wallet) == leg.amount;
    assert posted.wallets == NewWallets(db.wallets, view, legs);
    assert posted.txns == db.txns + NewRows(view, legs, at);
  }

  lemma LegAmounts(legs: seq<Leg>, id: Id)
    requires |legs| == 2
    ensures LegAmount(legs, id) ==
            (if legs[0].wallet == id then legs[0].amount else 0) + (if legs[1].wallet == id then legs[1].amount else 0)
  {
    var rest := legs[1..];
    assert rest[0] == legs[1] && rest[1..] == [];
    assert LegAmount(rest, id) == (if legs[1].wallet == id then legs[1].amount else 0) + LegAmount(rest[1..], id);
  }

  lemma CommitIsPostTwo(db: Db, view: map<Id, Wallet>, legs: seq<Leg>, at: int)
    requires |legs| == 2 && WalletsExist(view, legs) && Agrees(view, db.wallets)
    requires legs[0].wallet != legs[1].wallet
    requires view.Keys == {legs[0].wallet, legs[1].wallet}
    ensures WalletsExist(db.wallets, legs)
    ensures PostAll(db, legs, at) == db.(wallets := NewWallets(db.wallets, view, legs),
                                         txns := db.txns + NewRows(view, legs, at))
  {
    assert legs[0].wallet in view && legs[1].wallet in view;
    PostTwo(db, legs, at);
    var last := Post(Post(db, legs[0], at), legs[1], at);
    forall id | id in view ensures last.wallets[id] == NewWallets(db.wallets, view, legs)[id] {
      LegAmounts(legs, id);
    }
    assert last.wallets == NewWallets(db.wallets, view, legs);
    var rows := NewRows(view, legs, at);
    assert rows == [rows[0], rows[1]];
    assert last.txns == db.txns + rows;
  }

  /** On current copies every check the handler makes on the tables would pass. */
  lemma CommitIsReady(h: Hierarchy, db: Db, job: Job, p: Phase)
    requires |job.legs| <= 2 && p.Inserting? && p.inserted == |job.legs| && PhaseOk(db, h, job, p)
    requires Agrees(p.view, db.wallets)
    ensures WalletsExist(p.view, job.legs) && WalletsExist(db.wallets, job.legs)
    ensures AllCovered(db.wallets, job.legs) && KeysFree(db.txns, job.legs)
    ensures Authorized(db.wallets, h, job.req)
    ensures p.view.Keys == Elements(Locks(job.legs))
  {
    LocksAreLegWallets(job.legs);
    CommitKeysFree(h, db, job, p);
    forall k | 0 <= k < |job.legs|
      ensures job.legs[k].wallet in p.view && Covers(db.wallets, job.legs[k])
    {
      assert Covers(p.view, job.legs[k]);
    }
  }

  lemma CurrentCommitMatches(h: Hierarchy, db: Db, job: Job, p: Phase)
    requires RequestsOk(db) && job.legs == Legs(db, job.req)
    requires PhaseOk(db, h, job, p) && Commits(job, p) && Agrees(p.view, db.wallets)
    ensures Handle(db, h, job.req, job.at) == Done(Publish(db, job, p.view))
  {
    var legs := job.legs;
    LegsShape(db, job.req);
    LegsAreApart(db, job.req);
    CommitIsReady(h, db, job, p);
    if |legs| == 1 {
      CommitIsPostOne(db, p.view, legs, job.at);
    } else if |legs| == 2 {
      CommitIsPostTwo(db, p.view, legs, job.at);
    }
  }

  /** What a stale commit leaves in the pool's wallet, and what the handler would have left. */
  lemma StaleCommitDiffers(h: Hierarchy, db: Db, job: Job, p: Phase)
    requires RequestsOk(db) && job.legs == Legs(db, job.req)
    requires PhaseOk(db, h, job, p) && Commits(job, p) && Stale(job, p.view, db.wallets)
    ensures
      var pool := job.legs[0].wallet;
      && Publish(db, job, p.view).wallets[pool].balance == p.view[pool].balance + job.legs[0].amount
      && p.view[pool].balance != db.wallets[pool].balance
      && (Handle(db, h, job.req, job.at).Done? ==>
            pool in Handle(db, h, job.req, job.at).db.wallets
            && Handle(db, h, job.req, job.at).db.wallets[pool].balance == db.wallets[pool].balance + job.legs[0].amount)
  {
    LegsAreApart(db, job.req);
    LegAmounts(job.legs, job.legs[0].wallet);
    if Handle(db, h, job.req, job.at).Done? {
      PostTwo(db, job.legs, job.at);
    }
  }

  /** A commit does what its handler run alone at that moment does, exactly when its copy of the pool's wallet
      is still the row. */
  lemma CommitMatchesHandlerIff(h: Hierarchy, db: Db, job: Job, p: Phase)
    requires RequestsOk(db) && job.legs == Legs(db, job.req)
    requires PhaseOk(db, h, job, p) && Commits(job, p)
    ensures Handle(db, h, job.req, job.at) == Done(Publish(db, job, p.view)) <==> !Stale(job, p.view, db.wallets)
  {
    if Stale(job, p.view, db.wallets) {
      StaleCommitDiffers(h, db, job, p);
    } else {
      CurrentAgrees(job, p.view, db.wallets);
      CurrentCommitMatches(h, db, job, p);
    }
  }

  // ---- a refusal ----

  /** A request refused after it has its locks gets the answer its handler run alone at that moment would give,
      unless its key or its request has been dealt with since it was first checked. */
  lemma RefusalIsTheHandlers(h: Hierarchy, db: Db, job: Job, p: Phase)
    requires RequestsOk(db) && job.legs == Legs(db, job.req) && PhaseOk(db, h, job, p)
    requires p.Locking? && p.taken == |Locks(job.legs)| && !Stale(job, p.view, db.wallets)
    requires Precheck(db, job.req) == None
    ensures
      var next := Advance(h, db, job, p);
      && (next.Finished? ==> next.answer.Refused? && Handle(db, h, job.req, job.at) == Fail(next.answer.error))
      && (!next.Finished? ==> !(Handle(db, h, job.req, job.at).Fail? && Handle(db, h, job.req, job.at).error != Conflict))
  {
    LegsShape(db, job.req);
    LocksAreLegWallets(job.legs);
    CurrentAgrees(job, p.view, db.wallets);
    assert Locks(job.legs)[..p.taken] == Locks(job.legs);
    forall k | 0 <= k < |job.legs|
      ensures job.legs[k].wallet in p.view && (Covers(p.view, job.legs[k]) <==> Covers(db.wallets, job.legs[k]))
    {
    }
  }

  /** A request stopped at its first check gets the handler's answer too. */
  lemma StopIsTheHandlers(h: Hierarchy, db: Db, job: Job)
    requires Precheck(db, job.req).Some?
    ensures
      var next, out := Advance(h, db, job, Fresh), Handle(db, h, job.req, job.at);
      && next.Finished? && !out.Done?
      && (out.Fail? ==> next.answer == Refused(out.error))
      && (out.Replay? ==> next.answer.Replayed? && next.answer.row in db.txns)
  {
  }

  /** A lock on a wallet that does not exist is refused as its handler would refuse it. */
  lemma MissingWalletIsRefused(h: Hierarchy, db: Db, job: Job, p: Phase)
    requires job.legs == Legs(db, job.req) && PhaseOk(db, h, job, p) && p.Locking? && p.taken < |Locks(job.legs)|
    requires Locks(job.legs)[p.taken] !in db.wallets && Precheck(db, job.req) == None
    ensures Advance(h, db, job, p) == Finished(Refused(NotFound)) && Handle(db, h, job.req, job.at) == Fail(NotFound)
  {
    LegsShape(db, job.req);
    LocksAreLegWallets(job.legs);
    assert Locks(job.legs)[p.taken] in Elements(Locks(job.legs));
    var k :| 0 <= k < |job.legs| && job.legs[k].wallet == Locks(job.legs)[p.taken];
  }

  // ---- every step, every run ----

  predicate CommitsStale(jobs: seq<Job>, s: Sys, i: nat)
  {
    i < |jobs| == |s.phases| && Commits(jobs[i], s.phases[i]) && Stale(jobs[i], s.phases[i].view, s.db.wallets)
  }

  /** From serial tables a step leads to serial tables unless it is a stale commit. */
  lemma StepSerialIff(jobs: seq<Job>, h: Hierarchy, db0: Db, s: Sys, i: nat)
    requires Inv(jobs, h, s) && IsSerial(jobs, h, db0, s) && Enabled(jobs, s, i)
    ensures IsSerial(jobs, h, db0, Step(jobs, h, s, i)) <==> !CommitsStale(jobs, s, i)
  {
    var job, p := jobs[i], s.phases[i];
    if Commits(job, p) {
      assert PhaseOk(s.db, h, job, p);
      CommitMatchesHandlerIff(h, s.db, job, p);
      SerialAppendIff(jobs, h, db0, s, Step(jobs, h, s, i), i);
    }
  }

  /** Step `k` of the run is a stale commit. */
  ghost predicate StaleStep(jobs: seq<Job>, h: Hierarchy, run: seq<Sys>, k: nat)
    requires k + 1 < |run|
  {
    exists i :: 0 <= i < |jobs| && Enabled(jobs, run[k], i) && run[k + 1] == Step(jobs, h, run[k], i)
              && CommitsStale(jobs, run[k], i)
  }

  ghost predicate NoStaleCommit(jobs: seq<Job>, h: Hierarchy, run: seq<Sys>)
  {
    forall k: nat :: k + 1 < |run| ==> !StaleStep(jobs, h, run, k)
  }

  ghost predicate SerialThroughout(jobs: seq<Job>, h: Hierarchy, run: seq<Sys>)
    requires run != []
  {
    forall k :: 0 <= k < |run| ==> IsSerial(jobs, h, run[0].db, run[k])
  }

  lemma StaleFront(jobs: seq<Job>, h: Hierarchy, run: seq<Sys>)
    requires |run| > 1
    ensures NoStaleCommit(jobs, h, run) <==>
            NoStaleCommit(jobs, h, run[..|run| - 1]) && !StaleStep(jobs, h, run, |run| - 2)
  {
    var front := run[..|run| - 1];
    forall k: nat | k + 1 < |front| ensures StaleStep(jobs, h, front, k) <==> StaleStep(jobs, h, run, k) {
      assert front[k] == run[k] && front[k + 1] == run[k + 1];
    }
  }

  /** The log tells who stepped at a commit. */
  lemma StaleStepIs(jobs: seq<Job>, h: Hierarchy, run: seq<Sys>, k: nat, i: nat)
    requires k + 1 < |run| && i < |jobs| && Enabled(jobs, run[k], i) && run[k + 1] == Step(jobs, h, run[k], i)
    ensures StaleStep(jobs, h, run, k) <==> CommitsStale(jobs, run[k], i)
  {
    if StaleStep(jobs, h, run, k) {
      var j :| 0 <= j < |jobs| && Enabled(jobs, run[k], j) && run[k + 1] == Step(jobs, h, run[k], j)
               && CommitsStale(jobs, run[k], j);
      assert run[k + 1].log == run[k].log + [j];
      assert run[k + 1].log[|run[k].log|] == j;
    }
  }

  lemma SerialFront(jobs: seq<Job>, h: Hierarchy, run: seq<Sys>)
    requires |run| > 1
    ensures SerialThroughout(jobs, h, run) <==>
            SerialThroughout(jobs, h, run[..|run| - 1]) && IsSerial(jobs, h, run[0].db, run[|run| - 1])
  {
    var front := run[..|run| - 1];
    assert forall k :: 0 <= k < |front| ==> front[k] == run[k];
    if SerialThroughout(jobs, h, front) {
      forall k | 0 <= k < |front| ensures IsSerial(jobs, h, run[0].db, run[k]) {
        assert IsSerial(jobs, h, front[0].db, front[k]);
      }
    }
  }

  lemma LastStepSerialIff(jobs: seq<Job>, h: Hierarchy, run: seq<Sys>)
    requires Run(jobs, h, run) && |run| > 1 && IsSerial(jobs, h, run[0].db, run[|run| - 2])
    ensures IsSerial(jobs, h, run[0].db, run[|run| - 1]) <==> !StaleStep(jobs, h, run, |run| - 2)
  {
    var n := |run| - 1;
    RunFront(jobs, h, run);
    RunInv(jobs, h, run[..n]);
    var i :| 0 <= i < |jobs| && Enabled(jobs, run[n - 1], i) && run[n] == Step(jobs, h, run[n - 1], i);
    StepSerialIff(jobs, h, run[0].db, run[n - 1], i);
    StaleStepIs(jobs, h, run, n - 1, i);
  }

  /** A run's tables are those of its committed jobs run one after the other, at every point, if and only if
      no approval commits on a copy of the pool's wallet that has changed since it was read. */
  lemma {:induction false} SerializableIff(jobs: seq<Job>, h: Hierarchy, run: seq<Sys>)
    requires Run(jobs, h, run)
    ensures SerialThroughout(jobs, h, run) <==> NoStaleCommit(jobs, h, run)
    decreases |run|
  {
    if |run| == 1 {
      assert run[0].log == [];
    } else {
      var front := run[..|run| - 1];
      RunFront(jobs, h, run);
      SerializableIff(jobs, h, front);
      StaleFront(jobs, h, run);
      SerialFront(jobs, h, run);
      if SerialThroughout(jobs, h, front) {
        assert IsSerial(jobs, h, front[0].db, front[|front| - 1]);
        LastStepSerialIff(jobs, h, run);
      }
    }
  }

  predicate LocksFirst(jobs: seq<Job>)
  {
    forall i :: 0 <= i < |jobs| ==> !ReadsFirst(jobs[i])
  }

  /** Any interleaving of topups, adjustments, transfers, allocations and system-scope approvals is serializable,
      and its tables are in order. */
  lemma Serializable(jobs: seq<Job>, h: Hierarchy, run: seq<Sys>)
    requires Run(jobs, h, run) && LocksFirst(jobs)
    ensures SerialThroughout(jobs, h, run)
    ensures LedgerOk(run[|run| - 1].db)
  {
    SerializableIff(jobs, h, run);
    SerialIsOrdered(jobs, h, run[0].db, run[|run| - 1].log);
  }

  /** Serial tables are in order. */
  lemma {:induction false} SerialIsOrdered(jobs: seq<Job>, h: Hierarchy, db: Db, log: seq<nat>)
    requires InRange(log, |jobs|) && LedgerOk(db) && RequestsOk(db)
    ensures LedgerOk(Serial(jobs, h, db, log)) && RequestsOk(Serial(jobs, h, db, log))
    decreases |log|
  {
    if log != [] {
      SerialIsOrdered(jobs, h, db, log[..|log| - 1]);
      var before, job := Serial(jobs, h, db, log[..|log| - 1]), jobs[log[|log| - 1]];
      HandleKeepsLedger(before, h, job.req, job.at);
      HandleKeepsShape(before, h, job.req, job.at);
    }
  }

  // ---- the window is between the read and the lock ----

  /** While a job holds the lock on the pool's wallet nobody else's step makes its copy stale or current. */
  lemma LockFixesTheCopy(jobs: seq<Job>, h: Hierarchy, s: Sys, i: nat, j: nat)
    requires Inv(jobs, h, s) && Enabled(jobs, s, j) && i < |jobs| && i != j
    requires s.phases[i].Locking? || s.phases[i].Inserting?
    requires ReadsFirst(jobs[i]) && jobs[i].legs[0].wallet in HeldLocks(jobs[i], s.phases[i])
    ensures Stale(jobs[i], s.phases[i].view, Step(jobs, h, s, j).db.wallets) <==>
            Stale(jobs[i], s.phases[i].view, s.db.wallets)
  {
    if Commits(jobs[j], s.phases[j]) {
      assert PhaseOk(s.db, h, jobs[j], s.phases[j]) && PhaseOk(s.db, h, jobs[i], s.phases[i]);
      PublishChanges(s.db, jobs[j], s.phases[j].view);
    }
  }

  /** Nor does any other step of its own. */
  lemma OwnStepsKeepTheCopy(h: Hierarchy, db: Db, job: Job, p: Phase)
    requires PhaseOk(db, h, job, p) && p.Locking? && ReadsFirst(job)
    ensures
      var p' := Advance(h, db, job, p);
      p'.Locking? || p'.Inserting? ==> (Stale(job, p'.view, db.wallets) <==> Stale(job, p.view, db.wallets))
  {
  }

  // ---- what a stale commit costs ----

  /** From tables in order, a stale commit leaves the pool's wallet off its own history by exactly what was
      committed between the read and the lock. */
  lemma StaleCommitLosesTheUpdate(h: Hierarchy, db: Db, job: Job, p: Phase)
    requires LedgerOk(db) && RequestsOk(db) && job.legs == Legs(db, job.req)
    requires PhaseOk(db, h, job, p) && Commits(job, p) && Stale(job, p.view, db.wallets)
    ensures
      var pool, db' := job.legs[0].wallet, Publish(db, job, p.view);
      && Running(db'.txns, pool) - db'.wallets[pool].balance == db.wallets[pool].balance - p.view[pool].balance
      && !LedgerOk(db')
  {
    var pool, legs := job.legs[0].wallet, job.legs;
    StaleCommitDiffers(h, db, job, p);
    LegsAreApart(db, job.req);
    TwoRowsRunning(db.txns, NewRows(p.view, legs, job.at), pool);
  }

  lemma TwoRowsRunning(txns: seq<Txn>, rows: seq<Txn>, id: Id)
    requires |rows| == 2
    ensures Running(txns + rows, id) == Running(txns, id) + Effect(rows[0], id) + Effect(rows[1], id)
  {
    assert txns + rows == txns + [rows[0]] + [rows[1]];
    RunningAppend(txns, rows[0], id);
    RunningAppend(txns + [rows[0]], rows[1], id);
  }
}
