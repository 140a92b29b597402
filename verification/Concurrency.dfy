/** Concurrent requests against one database.

    Each request is its own transaction: a read of the idempotency key, row locks on its wallets in
    ascending id order, the checks on the locked rows, the insert of its ledger rows one at a time
    against the UNIQUE index, and the commit. Uncommitted changes are private. A lock or an
    uncommitted key held by another transaction makes a request wait.

    A request works on the rows its session has loaded, and a row already loaded is not read again when
    it is locked. An approval that draws on a pool finds the pool's wallet by owner before it locks
    anything, so that is the one row whose copy can be older than its lock. */
module Concurrency {
  import opened Prelude
  import opened Ledger
  import opened Movers

  datatype Phase =
    | Fresh
    | Reading
    | Locking(taken: nat, view: map<Id, Wallet>)
    | Inserting(inserted: nat, view: map<Id, Wallet>)
    | RolledBack
    | Finished(answer: Answer)

  datatype Answer = Committed | Replayed(row: Txn) | Refused(error: Error)

  /** A job is a request with the legs it resolved to, and the clock reading of its rows. */
  datatype Job = Job(req: Request, legs: seq<Leg>, at: int)

  datatype Sys = Sys(db: Db, phases: seq<Phase>, log: seq<nat>)

  // ---- what a job locks and inserts ----

  /** Wallet ids in lock order. */
  function Locks(legs: seq<Leg>): seq<Id>
  {
    if |legs| == 1 then [legs[0].wallet]
    else if |legs| == 2 then
      if Before(legs[0].wallet, legs[1].wallet) then [legs[0].wallet, legs[1].wallet]
      else [legs[1].wallet, legs[0].wallet]
    else []
  }

  /** The approval of a request that draws on a pool reads the pool's wallet first. */
  predicate ReadsFirst(job: Job)
  {
    job.req.ApproveReq? && |job.legs| == 2
  }

  function Keys(legs: seq<Leg>): seq<string>
  {
    seq(|legs|, i requires 0 <= i < |legs| => legs[i].key)
  }

  function HeldLocks(job: Job, p: Phase): set<Id>
  {
    var locks := Locks(job.legs);
    match p
    case Locking(taken, _) => Elements(locks[..Min(taken, |locks|)])
    case Inserting(_, _) => Elements(locks)
    case _ => {}
  }

  function HeldKeys(job: Job, p: Phase): set<string>
  {
    match p
    case Inserting(n, _) => Elements(Keys(job.legs)[..Min(n, |job.legs|)])
    case _ => {}
  }

  /** The lock or key job `i` needs next is held by job `j`. */
  predicate WaitsFor(jobs: seq<Job>, phases: seq<Phase>, i: nat, j: nat)
  {
    && i < |jobs| == |phases| && j < |jobs| && i != j
    && InTheWay(jobs[i], phases[i], jobs[j], phases[j])
  }

  predicate InTheWay(job: Job, p: Phase, other: Job, q: Phase)
  {
    match p
    case Locking(taken, _) =>
      taken < |Locks(job.legs)| && Locks(job.legs)[taken] in HeldLocks(other, q)
    case Inserting(n, _) =>
      n < |job.legs| && job.legs[n].key in HeldKeys(other, q)
    case _ => false
  }

  predicate Blocked(jobs: seq<Job>, phases: seq<Phase>, i: nat)
  {
    exists j :: 0 <= j < |jobs| && WaitsFor(jobs, phases, i, j)
  }

  // ---- steps ----

  ghost function RowWithKey(txns: seq<Txn>, key: string): Txn
    requires HasKey(txns, key)
  {
    var k :| 0 <= k < |txns| && txns[k].key == key;
    txns[k]
  }

  /** What a precheck that stops the handler answers. */
  ghost function StopWith(db: Db, req: Request, out: Outcome): Answer
  {
    if out.Fail? then Refused(out.error)
    else if req.TopupReq? && HasKey(db.txns, req.idem) then Replayed(RowWithKey(db.txns, req.idem))
    else if req.AdjustReq? && HasKey(db.txns, req.idem) then Replayed(RowWithKey(db.txns, req.idem))
    else if req.MoveReq? && HasKey(db.txns, MoveKey(req.rail, req.idem, "out")) then
      Replayed(RowWithKey(db.txns, MoveKey(req.rail, req.idem, "out")))
    else Refused(Conflict)
  }

  /** The wallets once the job's balances are written back. Only that column is. */
  function NewWallets(wallets: map<Id, Wallet>, view: map<Id, Wallet>, legs: seq<Leg>): map<Id, Wallet>
  {
    map id | id in wallets ::
      if id in view then wallets[id].(balance := view[id].balance + LegAmount(legs, id)) else wallets[id]
  }

  function LegAmount(legs: seq<Leg>, id: Id): int
  {
    if legs == [] then 0
    else (if legs[0].wallet == id then legs[0].amount else 0) + LegAmount(legs[1..], id)
  }

  function NewRows(view: map<Id, Wallet>, legs: seq<Leg>, at: int): seq<Txn>
    requires WalletsExist(view, legs)
  {
    seq(|legs|, i requires 0 <= i < |legs| =>
      Txn(legs[i].wallet, legs[i].kind, legs[i].amount,
          view[legs[i].wallet].balance + legs[i].amount, legs[i].ref, legs[i].key, at))
  }

  /** The next phase of a job whose step leaves the tables alone. */
  ghost function Advance(h: Hierarchy, db: Db, job: Job, p: Phase): Phase
  {
    var locks := Locks(job.legs);
    match p
    case Fresh =>
      (match Precheck(db, job.req)
       case Some(out) => Finished(StopWith(db, job.req, out))
       case None => if ReadsFirst(job) then Reading else Locking(0, map[]))
    case Reading =>
      if !ReadsFirst(job) || job.legs[0].wallet !in db.wallets then Finished(Refused(NotFound))
      else Locking(0, map[job.legs[0].wallet := db.wallets[job.legs[0].wallet]])
    case Locking(taken, view) =>
      if taken < |locks| then
        if locks[taken] !in db.wallets then Finished(Refused(NotFound))
        else if locks[taken] in view then Locking(taken + 1, view)
        else Locking(taken + 1, view[locks[taken] := db.wallets[locks[taken]]])
      else if !Authorized(view, h, job.req) then Finished(Refused(Forbidden))
      else if !AllCovered(view, job.legs) then Finished(Refused(ShortOf(job.req)))
      else Inserting(0, view)
    case Inserting(n, view) =>
      if n >= |job.legs| then Finished(Committed)
      else if !HasKey(db.txns, job.legs[n].key) then Inserting(n + 1, view)
      else if job.req.TopupReq? then RolledBack
      else Finished(Refused(Conflict))
    case RolledBack =>
      if job.req.TopupReq? && HasKey(db.txns, job.req.idem) then
        Finished(Replayed(RowWithKey(db.txns, job.req.idem)))
      else Finished(Refused(Conflict))
    case Finished(_) => p
  }

  predicate Commits(job: Job, p: Phase)
  {
    p.Inserting? && p.inserted >= |job.legs| && WalletsExist(p.view, job.legs)
  }

  /** The tables once the job's private changes become visible. */
  function Publish(db: Db, job: Job, view: map<Id, Wallet>): Db
    requires WalletsExist(view, job.legs)
  {
    Stamp(db.(wallets := NewWallets(db.wallets, view, job.legs),
              txns := db.txns + NewRows(view, job.legs, job.at)), job.req)
  }

  /** One step of job `i`. */
  ghost function Step(jobs: seq<Job>, h: Hierarchy, s: Sys, i: nat): Sys
    requires i < |jobs| == |s.phases|
  {
    var job, p := jobs[i], s.phases[i];
    var phases := s.phases[i := Advance(h, s.db, job, p)];
    if Commits(job, p) then Sys(Publish(s.db, job, p.view), phases, s.log + [i])
    else Sys(s.db, phases, s.log)
  }

  predicate Enabled(jobs: seq<Job>, s: Sys, i: nat)
  {
    i < |jobs| == |s.phases| && !s.phases[i].Finished? && !Blocked(jobs, s.phases, i)
  }

  /** A start state: consistent tables, every job resolved against them and not begun. */
  ghost predicate Init(jobs: seq<Job>, s: Sys)
  {
    && LedgerOk(s.db) && RequestsOk(s.db)
    && |s.phases| == |jobs| && s.log == []
    && (forall i :: 0 <= i < |jobs| ==>
          && jobs[i].legs == Legs(s.db, jobs[i].req)
          && s.phases[i] == Fresh)
  }

  ghost predicate Run(jobs: seq<Job>, h: Hierarchy, run: seq<Sys>)
  {
    && run != [] && Init(jobs, run[0])
    && forall k :: 0 <= k < |run| - 1 ==> NextState(jobs, h, run[k], run[k + 1])
  }

  ghost predicate NextState(jobs: seq<Job>, h: Hierarchy, s: Sys, s': Sys)
  {
    exists i :: 0 <= i < |jobs| && Enabled(jobs, s, i) && s' == Step(jobs, h, s, i)
  }
}
