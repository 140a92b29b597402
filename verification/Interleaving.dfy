/** What every step of every interleaving keeps: locks and uncommitted keys have one holder, the copies a
    request works on are its locked rows, and a key takes effect at most once. */
module Interleaving {
  import opened Prelude
  import opened Ledger
  import opened Movers
  import opened Concurrency

  // ---- the invariant ----

  predicate InRange(log: seq<nat>, n: nat)
  {
    forall k :: 0 <= k < |log| ==> log[k] < n
  }

  /** The one row a job may have loaded before locking it. */
  function LoadedEarly(job: Job): set<Id>
  {
    if ReadsFirst(job) then {job.legs[0].wallet} else {}
  }

  /** A copy is the current row, except that the balance of a row loaded early may have moved on. */
  predicate ViewOk(job: Job, view: map<Id, Wallet>, wallets: map<Id, Wallet>)
  {
    forall id :: id in view ==>
      && id in wallets && wallets[id].(balance := view[id].balance) == view[id]
      && (id !in LoadedEarly(job) ==> view[id] == wallets[id])
  }

  /** What remains of the first checks once a job is past them. */
  ghost predicate PastPrecheck(db: Db, job: Job)
  {
    match job.req
    case MoveReq(_, _, src, dst, _, _) => src != dst
    case ApproveReq(id, caller) =>
      && id in db.requests && CanFulfill(caller, db.requests[id]) && job.legs != []
      && (db.requests[id].status == Pending || HasKey(db.txns, job.legs[0].key))
    case _ => true
  }

  ghost predicate PhaseOk(db: Db, h: Hierarchy, job: Job, p: Phase)
  {
    match p
    case Fresh => true
    case Reading => PastPrecheck(db, job) && ReadsFirst(job)
    case Locking(taken, view) =>
      && PastPrecheck(db, job) && taken <= |Locks(job.legs)|
      && view.Keys == HeldLocks(job, p) + LoadedEarly(job) && ViewOk(job, view, db.wallets)
    case Inserting(n, view) =>
      && PastPrecheck(db, job) && n <= |job.legs|
      && view.Keys == HeldLocks(job, p) && ViewOk(job, view, db.wallets)
      && Authorized(view, h, job.req) && AllCovered(view, job.legs)
      && (forall key :: key in HeldKeys(job, p) ==> !HasKey(db.txns, key))
    case RolledBack => job.req.TopupReq? && HasKey(db.txns, job.req.idem)
    case Finished(answer) => AnswerOk(db, job, answer)
  }

  predicate AnswerOk(db: Db, job: Job, answer: Answer)
  {
    match answer
    case Replayed(row) => row in db.txns && job.legs != [] && row.key == job.legs[0].key
    case Refused(error) => job.req.TopupReq? ==> error != Conflict
    case Committed => forall k :: 0 <= k < |job.legs| ==> HasKey(db.txns, job.legs[k].key)
  }

  /** Locks and uncommitted keys have one holder. */
  ghost predicate Apart(jobs: seq<Job>, phases: seq<Phase>)
    requires |jobs| == |phases|
  {
    forall i, j :: 0 <= i < |jobs| && 0 <= j < |jobs| && i != j ==>
      && HeldLocks(jobs[i], phases[i]) !! HeldLocks(jobs[j], phases[j])
      && HeldKeys(jobs[i], phases[i]) !! HeldKeys(jobs[j], phases[j])
  }

  ghost predicate LogOk(phases: seq<Phase>, log: seq<nat>)
  {
    && InRange(log, |phases|)
    && (forall i: nat :: i < |phases| ==> (i in log <==> phases[i] == Finished(Committed)))
    && (forall k, l :: 0 <= k < l < |log| ==> log[k] != log[l])
  }

  ghost predicate PhasesOk(jobs: seq<Job>, h: Hierarchy, db: Db, phases: seq<Phase>)
    requires |jobs| == |phases|
  {
    forall i :: 0 <= i < |jobs| ==> PhaseOk(db, h, jobs[i], phases[i])
  }

  /** Jobs keep the legs they were resolved to. */
  ghost predicate Resolved(jobs: seq<Job>, db: Db)
  {
    forall i :: 0 <= i < |jobs| ==> jobs[i].legs == Legs(db, jobs[i].req)
  }

  predicate Uses(job: Job, key: string)
  {
    exists a :: 0 <= a < |job.legs| && job.legs[a].key == key
  }

  /** Committed jobs share no key. */
  ghost predicate KeysOnce(jobs: seq<Job>, phases: seq<Phase>)
    requires |jobs| == |phases|
  {
    forall i, j, key :: 0 <= i < j < |jobs| && phases[i] == Finished(Committed) && phases[j] == Finished(Committed) ==>
      !(Uses(jobs[i], key) && Uses(jobs[j], key))
  }

  ghost predicate Inv(jobs: seq<Job>, h: Hierarchy, s: Sys)
  {
    && |s.phases| == |jobs|
    && RequestsOk(s.db) && Resolved(jobs, s.db) && UniqueKeys(s.db.txns)
    && PhasesOk(jobs, h, s.db, s.phases)
    && Apart(jobs, s.phases)
    && KeysOnce(jobs, s.phases)
    && LogOk(s.phases, s.log)
  }

  // ---- one job's move ----

  lemma LegsShape(db: Db, req: Request)
    ensures |Legs(db, req)| <= 2
    ensures !req.ApproveReq? ==> |Legs(db, req)| >= 1
  {
  }

  lemma LocksAreLegWallets(legs: seq<Leg>)
    requires |legs| <= 2
    ensures forall k :: 0 <= k < |legs| ==> legs[k].wallet in Elements(Locks(legs))
    ensures forall id :: id in Elements(Locks(legs)) ==> exists k :: 0 <= k < |legs| && legs[k].wallet == id
  {
    forall id | id in Elements(Locks(legs))
      ensures exists k :: 0 <= k < |legs| && legs[k].wallet == id
    {
      assert legs[0].wallet == id || legs[1].wallet == id;
    }
  }

  /** What a job holds after its step it held before, except the one thing it was waiting for. */
  lemma AdvanceHolds(h: Hierarchy, db: Db, job: Job, p: Phase, other: Job, q: Phase)
    requires PhaseOk(db, h, job, p)
    requires HeldLocks(job, p) !! HeldLocks(other, q) && HeldKeys(job, p) !! HeldKeys(other, q)
    requires !InTheWay(job, p, other, q)
    ensures HeldLocks(job, Advance(h, db, job, p)) !! HeldLocks(other, q)
    ensures HeldKeys(job, Advance(h, db, job, p)) !! HeldKeys(other, q)
  {
    var p' := Advance(h, db, job, p);
    var locks := Locks(job.legs);
    if p.Locking? && p'.Locking? {
      assert locks[..p.taken + 1] == locks[..p.taken] + [locks[p.taken]];
    } else if p.Locking? && p'.Inserting? {
      assert locks[..p.taken] == locks;
      assert Keys(job.legs)[..0] == [];
    } else if p.Inserting? && p'.Inserting? {
      var keys := Keys(job.legs);
      assert keys[..p.inserted + 1] == keys[..p.inserted] + [keys[p.inserted]];
    }
  }

  lemma AdvanceOk(h: Hierarchy, db: Db, job: Job, p: Phase)
    requires PhaseOk(db, h, job, p) && job.legs == Legs(db, job.req) && !Commits(job, p)
    ensures PhaseOk(db, h, job, Advance(h, db, job, p))
    ensures !p.Finished? ==> Advance(h, db, job, p) != Finished(Committed)
  {
    if p.Fresh? || p.Reading? {
      StartOk(h, db, job, p);
    } else if p.Locking? {
      LockingOk(h, db, job, p);
    } else if p.Inserting? {
      InsertingOk(h, db, job, p);
    }
  }

  lemma StartOk(h: Hierarchy, db: Db, job: Job, p: Phase)
    requires PhaseOk(db, h, job, p) && job.legs == Legs(db, job.req) && (p.Fresh? || p.Reading?)
    ensures PhaseOk(db, h, job, Advance(h, db, job, p)) && Advance(h, db, job, p) != Finished(Committed)
  {
    LegsShape(db, job.req);
    assert Locks(job.legs)[..0] == [];
  }

  lemma LockingOk(h: Hierarchy, db: Db, job: Job, p: Phase)
    requires PhaseOk(db, h, job, p) && job.legs == Legs(db, job.req) && p.Locking?
    ensures PhaseOk(db, h, job, Advance(h, db, job, p)) && Advance(h, db, job, p) != Finished(Committed)
  {
    if p.taken < |Locks(job.legs)| {
      TakeLockOk(h, db, job, p);
    } else {
      CheckOk(h, db, job, p);
    }
  }

  lemma TakeLockOk(h: Hierarchy, db: Db, job: Job, p: Phase)
    requires PhaseOk(db, h, job, p) && p.Locking? && p.taken < |Locks(job.legs)|
    ensures PhaseOk(db, h, job, Advance(h, db, job, p)) && Advance(h, db, job, p) != Finished(Committed)
  {
    var locks := Locks(job.legs);
    assert locks[..p.taken + 1] == locks[..p.taken] + [locks[p.taken]];
  }

  lemma CheckOk(h: Hierarchy, db: Db, job: Job, p: Phase)
    requires PhaseOk(db, h, job, p) && job.legs == Legs(db, job.req) && p.Locking? && p.taken == |Locks(job.legs)|
    ensures PhaseOk(db, h, job, Advance(h, db, job, p)) && Advance(h, db, job, p) != Finished(Committed)
  {
    LegsShape(db, job.req);
    LocksAreLegWallets(job.legs);
    assert Locks(job.legs)[..p.taken] == Locks(job.legs);
    assert LoadedEarly(job) <= Elements(Locks(job.legs));
    assert Keys(job.legs)[..0] == [];
  }

  lemma InsertingOk(h: Hierarchy, db: Db, job: Job, p: Phase)
    requires PhaseOk(db, h, job, p) && job.legs == Legs(db, job.req) && p.Inserting? && !Commits(job, p)
    ensures p.inserted < |job.legs|
    ensures PhaseOk(db, h, job, Advance(h, db, job, p))
  {
    LegsShape(db, job.req);
    LocksAreLegWallets(job.legs);
    var keys := Keys(job.legs);
    if p.inserted < |job.legs| {
      assert keys[..p.inserted + 1] == keys[..p.inserted] + [keys[p.inserted]];
    }
  }

  // ---- the commit ----

  /** What a commit changes: balances of the job's own wallets, and its rows. */
  lemma PublishChanges(db: Db, job: Job, view: map<Id, Wallet>)
    requires WalletsExist(view, job.legs)
    ensures
      var db' := Publish(db, job, view);
      && db'.wallets.Keys == db.wallets.Keys
      && (forall id :: id in db.wallets && id !in view ==> db'.wallets[id] == db.wallets[id])
      && (forall id :: id in db.wallets ==> db'.wallets[id].(balance := 0) == db.wallets[id].(balance := 0))
      && db'.txns == db.txns + NewRows(view, job.legs, job.at)
  {
  }

  lemma PublishKeys(db: Db, job: Job, view: map<Id, Wallet>)
    requires WalletsExist(view, job.legs)
    ensures
      var db' := Publish(db, job, view);
      && (forall row :: row in db.txns ==> row in db'.txns)
      && (forall key :: HasKey(db'.txns, key) <==> HasKey(db.txns, key) || Uses(job, key))
  {
    var db' := Publish(db, job, view);
    var rows := NewRows(view, job.legs, job.at);
    assert db'.txns == db.txns + rows;
    forall key ensures HasKey(db'.txns, key) <==> HasKey(db.txns, key) || Uses(job, key) {
      if HasKey(db.txns, key) {
        var k :| 0 <= k < |db.txns| && db.txns[k].key == key;
        assert db'.txns[k].key == key;
      }
      if Uses(job, key) {
        var a :| 0 <= a < |job.legs| && job.legs[a].key == key;
        assert db'.txns[|db.txns| + a].key == key;
      }
      if HasKey(db'.txns, key) {
        var k :| 0 <= k < |db'.txns| && db'.txns[k].key == key;
        if k >= |db.txns| {
          assert job.legs[k - |db.txns|].key == key;
        }
      }
    }
  }

  lemma PublishShape(db: Db, job: Job, view: map<Id, Wallet>)
    requires WalletsExist(view, job.legs)
    ensures SameShape(db, Publish(db, job, view))
    ensures RequestsOk(db) ==> RequestsOk(Publish(db, job, view))
  {
  }

  lemma OthersSurviveCommit(h: Hierarchy, db: Db, job: Job, view: map<Id, Wallet>, other: Job, q: Phase)
    requires WalletsExist(view, job.legs)
    requires job.legs == Legs(db, job.req) && other.legs == Legs(db, other.req)
    requires PastPrecheck(db, job)
    requires PhaseOk(db, h, other, q)
    requires view.Keys !! HeldLocks(other, q) && Elements(Keys(job.legs)) !! HeldKeys(other, q)
    ensures PhaseOk(Publish(db, job, view), h, other, q)
  {
    var db' := Publish(db, job, view);
    PublishChanges(db, job, view);
    PublishKeys(db, job, view);
    PrecheckSurvives(db, job, view, other);
    if q.Locking? || q.Inserting? {
      ViewSurvives(db, job, view, other, q);
      forall key | key in HeldKeys(other, q) ensures !Uses(job, key) {
        UsedIsListed(job, key);
      }
    }
  }

  lemma UsedIsListed(job: Job, key: string)
    ensures Uses(job, key) ==> key in Elements(Keys(job.legs))
  {
    if a :| 0 <= a < |job.legs| && job.legs[a].key == key {
      assert Keys(job.legs)[a] == key;
    }
  }

  lemma PrecheckSurvives(db: Db, job: Job, view: map<Id, Wallet>, other: Job)
    requires WalletsExist(view, job.legs) && PastPrecheck(db, job)
    requires job.legs == Legs(db, job.req) && other.legs == Legs(db, other.req)
    ensures PastPrecheck(db, other) ==> PastPrecheck(Publish(db, job, view), other)
  {
    PublishKeys(db, job, view);
    if other.req.ApproveReq? && job.req.ApproveReq? && job.req.id == other.req.id && PastPrecheck(db, other) {
      assert job.legs == other.legs;
      assert Uses(job, other.legs[0].key);
    }
  }

  lemma ViewSurvives(db: Db, job: Job, view: map<Id, Wallet>, other: Job, q: Phase)
    requires WalletsExist(view, job.legs) && (q.Locking? || q.Inserting?)
    requires ViewOk(other, q.view, db.wallets) && q.view.Keys <= HeldLocks(other, q) + LoadedEarly(other)
    requires view.Keys !! HeldLocks(other, q)
    ensures ViewOk(other, q.view, Publish(db, job, view).wallets)
  {
    PublishChanges(db, job, view);
    var wallets := Publish(db, job, view).wallets;
    forall id | id in q.view
      ensures id in wallets && wallets[id].(balance := q.view[id].balance) == q.view[id]
      ensures id !in LoadedEarly(other) ==> q.view[id] == wallets[id]
    {
      assert wallets[id].(balance := 0) == db.wallets[id].(balance := 0);
    }
  }

  /** At the commit every key is still free. */
  lemma CommitKeysFree(h: Hierarchy, db: Db, job: Job, p: Phase)
    requires p.Inserting? && p.inserted == |job.legs| && PhaseOk(db, h, job, p)
    ensures KeysFree(db.txns, job.legs)
  {
    assert Keys(job.legs)[..|job.legs|] == Keys(job.legs);
    forall k | 0 <= k < |job.legs| ensures !HasKey(db.txns, job.legs[k].key) {
      assert Keys(job.legs)[k] in HeldKeys(job, p);
    }
  }

  lemma PublishUnique(db: Db, job: Job, view: map<Id, Wallet>)
    requires WalletsExist(view, job.legs) && UniqueKeys(db.txns)
    requires LegsApart(job.legs) && KeysFree(db.txns, job.legs)
    ensures UniqueKeys(Publish(db, job, view).txns)
  {
    var rows := NewRows(view, job.legs, job.at);
    var txns := Publish(db, job, view).txns;
    assert txns == db.txns + rows;
    forall a, b | 0 <= a < b < |txns| ensures txns[a].key != txns[b].key {
      if a < |db.txns| <= b {
        assert !HasKey(db.txns, job.legs[b - |db.txns|].key);
      }
    }
  }

  // ---- every step keeps the invariant ----

  lemma PrivateStepKeeps(jobs: seq<Job>, h: Hierarchy, db: Db, phases: seq<Phase>, i: nat)
    requires |jobs| == |phases| && i < |jobs| && !Commits(jobs[i], phases[i])
    requires Resolved(jobs, db) && PhasesOk(jobs, h, db, phases) && Apart(jobs, phases)
    requires !Blocked(jobs, phases, i)
    ensures PhasesOk(jobs, h, db, phases[i := Advance(h, db, jobs[i], phases[i])])
    ensures Apart(jobs, phases[i := Advance(h, db, jobs[i], phases[i])])
  {
    AdvanceOk(h, db, jobs[i], phases[i]);
    forall j | 0 <= j < |jobs| && j != i
      ensures HeldLocks(jobs[i], Advance(h, db, jobs[i], phases[i])) !! HeldLocks(jobs[j], phases[j])
      ensures HeldKeys(jobs[i], Advance(h, db, jobs[i], phases[i])) !! HeldKeys(jobs[j], phases[j])
    {
      assert !WaitsFor(jobs, phases, i, j);
      AdvanceHolds(h, db, jobs[i], phases[i], jobs[j], phases[j]);
    }
  }

  lemma CommitStepKeeps(jobs: seq<Job>, h: Hierarchy, db: Db, phases: seq<Phase>, i: nat)
    requires |jobs| == |phases| && i < |jobs|
    requires Resolved(jobs, db) && PhasesOk(jobs, h, db, phases) && Apart(jobs, phases)
    requires Commits(jobs[i], phases[i])
    ensures PhasesOk(jobs, h, Publish(db, jobs[i], phases[i].view), phases[i := Finished(Committed)])
    ensures Apart(jobs, phases[i := Finished(Committed)])
  {
    var job, p := jobs[i], phases[i];
    assert PhaseOk(db, h, job, p);
    assert Keys(job.legs)[..|job.legs|] == Keys(job.legs);
    forall j | 0 <= j < |jobs| && j != i
      ensures PhaseOk(Publish(db, job, p.view), h, jobs[j], phases[j])
    {
      OthersSurviveCommit(h, db, job, p.view, jobs[j], phases[j]);
    }
    CommittedOk(h, db, job, p.view);
  }

  lemma CommittedOk(h: Hierarchy, db: Db, job: Job, view: map<Id, Wallet>)
    requires WalletsExist(view, job.legs)
    ensures PhaseOk(Publish(db, job, view), h, job, Finished(Committed))
  {
    PublishKeys(db, job, view);
    assert forall k :: 0 <= k < |job.legs| ==> Uses(job, job.legs[k].key);
  }

  /** A job that commits meets none of its keys on a committed job. */
  lemma CommitIsFirst(jobs: seq<Job>, h: Hierarchy, db: Db, phases: seq<Phase>, i: nat)
    requires |jobs| == |phases| && i < |jobs| && PhasesOk(jobs, h, db, phases)
    requires Commits(jobs[i], phases[i]) && KeysOnce(jobs, phases)
    ensures KeysOnce(jobs, phases[i := Finished(Committed)])
  {
    assert PhaseOk(db, h, jobs[i], phases[i]);
    CommitKeysFree(h, db, jobs[i], phases[i]);
    forall j, key | 0 <= j < |jobs| && j != i && phases[j] == Finished(Committed) && Uses(jobs[j], key)
      ensures !Uses(jobs[i], key)
    {
      assert PhaseOk(db, h, jobs[j], phases[j]);
    }
  }

  lemma CommitKeepsTables(jobs: seq<Job>, h: Hierarchy, db: Db, i: nat, p: Phase)
    requires RequestsOk(db) && Resolved(jobs, db) && UniqueKeys(db.txns) && i < |jobs|
    requires PhaseOk(db, h, jobs[i], p) && Commits(jobs[i], p)
    ensures
      var db' := Publish(db, jobs[i], p.view);
      RequestsOk(db') && Resolved(jobs, db') && UniqueKeys(db'.txns)
  {
    var db' := Publish(db, jobs[i], p.view);
    PublishShape(db, jobs[i], p.view);
    forall j | 0 <= j < |jobs| ensures jobs[j].legs == Legs(db', jobs[j].req) {
      ShapeFixesLegs(db, db', jobs[j].req);
    }
    LegsAreApart(db, jobs[i].req);
    CommitKeysFree(h, db, jobs[i], p);
    PublishUnique(db, jobs[i], p.view);
  }

  lemma LogGrows(phases: seq<Phase>, log: seq<nat>, i: nat)
    requires LogOk(phases, log) && i < |phases| && phases[i] != Finished(Committed)
    ensures LogOk(phases[i := Finished(Committed)], log + [i])
  {
    var more := log + [i];
    assert i !in log;
    forall j: nat | j < |phases|
      ensures j in more <==> phases[i := Finished(Committed)][j] == Finished(Committed)
    {
      if j == i {
        assert more[|log|] == i;
      } else {
        assert j in more <==> j in log;
      }
    }
  }

  lemma StepKeeps(jobs: seq<Job>, h: Hierarchy, s: Sys, i: nat)
    requires Inv(jobs, h, s) && Enabled(jobs, s, i)
    ensures Inv(jobs, h, Step(jobs, h, s, i))
  {
    var job, p := jobs[i], s.phases[i];
    assert PhaseOk(s.db, h, job, p);
    if Commits(job, p) {
      CommitKeepsTables(jobs, h, s.db, i, p);
      CommitStepKeeps(jobs, h, s.db, s.phases, i);
      CommitIsFirst(jobs, h, s.db, s.phases, i);
      LogGrows(s.phases, s.log, i);
    } else {
      AdvanceOk(h, s.db, job, p);
      PrivateStepKeeps(jobs, h, s.db, s.phases, i);
    }
  }

  lemma InitInv(jobs: seq<Job>, h: Hierarchy, s: Sys)
    requires Init(jobs, s)
    ensures Inv(jobs, h, s)
  {
  }

  lemma RunFront(jobs: seq<Job>, h: Hierarchy, run: seq<Sys>)
    requires Run(jobs, h, run) && |run| > 1
    ensures Run(jobs, h, run[..|run| - 1])
    ensures NextState(jobs, h, run[|run| - 2], run[|run| - 1])
  {
    var front := run[..|run| - 1];
    forall k | 0 <= k < |front| - 1 ensures NextState(jobs, h, front[k], front[k + 1]) {
      assert NextState(jobs, h, run[k], run[k + 1]);
    }
    assert NextState(jobs, h, run[|run| - 2], run[|run| - 2 + 1]);
  }

  lemma {:induction false} RunInv(jobs: seq<Job>, h: Hierarchy, run: seq<Sys>)
    requires Run(jobs, h, run)
    ensures Inv(jobs, h, run[|run| - 1])
    decreases |run|
  {
    if |run| == 1 {
      InitInv(jobs, h, run[0]);
    } else {
      RunFront(jobs, h, run);
      RunInv(jobs, h, run[..|run| - 1]);
      var s := run[|run| - 2];
      var i :| 0 <= i < |jobs| && Enabled(jobs, s, i) && run[|run| - 1] == Step(jobs, h, s, i);
      StepKeeps(jobs, h, s, i);
    }
  }

  // ---- the theorems ----

  /** An answer taken from an earlier request is a committed row carrying the request's own key,
      and a topup that finds its key taken only at the insert is never refused for it. */
  lemma ReplayAnswersTheWinner(jobs: seq<Job>, h: Hierarchy, run: seq<Sys>, i: nat)
    requires Run(jobs, h, run) && i < |jobs|
    ensures
      var s := run[|run| - 1];
      && i < |s.phases|
      && (s.phases[i].Finished? && s.phases[i].answer.Replayed? ==>
            && s.phases[i].answer.row in s.db.txns
            && jobs[i].legs != []
            && s.phases[i].answer.row.key == jobs[i].legs[0].key)
      && (jobs[i].req.TopupReq? ==> s.phases[i] != Finished(Refused(Conflict)))
  {
    RunInv(jobs, h, run);
    var s := run[|run| - 1];
    assert PhaseOk(s.db, h, jobs[i], s.phases[i]);
  }

  /** In every interleaving a key is on at most one row, and of all the jobs that use it at most
      one commits. */
  lemma KeyTakesEffectOnce(jobs: seq<Job>, h: Hierarchy, run: seq<Sys>, key: string, i: nat, j: nat)
    requires Run(jobs, h, run)
    requires i < |jobs| && j < |jobs| && i != j && Uses(jobs[i], key) && Uses(jobs[j], key)
    ensures
      var s := run[|run| - 1];
      && |s.phases| == |jobs|
      && (forall a, b :: 0 <= a < b < |s.db.txns| ==>
            !(s.db.txns[a].key == key && s.db.txns[b].key == key))
      && !(s.phases[i] == Finished(Committed) && s.phases[j] == Finished(Committed))
  {
    RunInv(jobs, h, run);
    assert KeysOnce(jobs, run[|run| - 1].phases);
  }
}
