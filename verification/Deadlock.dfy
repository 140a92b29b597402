/** Requests that lock their wallets in ascending id order never wait for each other in a circle,
    not even through the UNIQUE index, so some request can always go on and all of them finish. */
module Deadlock {
  import opened Prelude
  import opened Ledger
  import opened Movers
  import opened Concurrency
  import opened Interleaving

  /** How far a job has come: the lock it wants next, then its inserts, then nothing more to wait
      for. */
  datatype Rank = Rank(level: nat, wants: Id)

  function RankOf(job: Job, p: Phase): Rank
  {
    match p
    case Locking(taken, _) =>
      if taken < |Locks(job.legs)| then Rank(0, Locks(job.legs)[taken]) else Rank(1, "")
    case Inserting(n, _) => if n < |job.legs| then Rank(2 + n, "") else Rank(4, "")
    case _ => Rank(5, "")
  }

  predicate Lower(a: Rank, b: Rank)
  {
    a.level < b.level || (a.level == b.level == 0 && Before(a.wants, b.wants))
  }

  lemma LowerTransitive(a: Rank, b: Rank, c: Rank)
    requires Lower(a, b) && Lower(b, c)
    ensures Lower(a, c)
  {
    if a.level == 0 && b.level == 0 && c.level == 0 {
      BeforeTransitive(a.wants, b.wants, c.wants);
    }
  }

  lemma LowerIrreflexive(a: Rank)
    ensures !Lower(a, a)
  {
    BeforeIrreflexive(a.wants);
  }

  // ---- shapes the ranking relies on ----

  lemma LocksAscend(legs: seq<Leg>)
    requires |legs| == 2 && legs[0].wallet != legs[1].wallet
    ensures Before(Locks(legs)[0], Locks(legs)[1])
  {
    BeforeTotal(legs[0].wallet, legs[1].wallet);
  }

  predicate EndsWith(s: string, c: char)
  {
    s != "" && s[|s| - 1] == c
  }

  /** A pair of legs is keyed out first, in second. */
  lemma PairKeys(db: Db, req: Request)
    requires |Legs(db, req)| == 2
    ensures EndsWith(Legs(db, req)[0].key, 't') && EndsWith(Legs(db, req)[1].key, 'n')
  {
    if req.MoveReq? {
      assert (req.rail.Name() + ":" + req.idem + ":" + "out")[|req.rail.Name() + ":" + req.idem + ":"| + 2] == 't';
      assert (req.rail.Name() + ":" + req.idem + ":" + "in")[|req.rail.Name() + ":" + req.idem + ":"| + 1] == 'n';
    } else {
      assert ("alloc:" + req.id + ":out")[|"alloc:" + req.id| + 3] == 't';
      assert ("alloc:" + req.id + ":in")[|"alloc:" + req.id| + 2] == 'n';
    }
  }

  /** A lock is waited for in id order. */
  lemma LockRaisesRank(db: Db, h: Hierarchy, job: Job, p: Phase, other: Job, q: Phase)
    requires RequestsOk(db) && other.legs == Legs(db, other.req) && PhaseOk(db, h, other, q)
    requires p.Locking? && InTheWay(job, p, other, q)
    ensures Lower(RankOf(job, p), RankOf(other, q))
  {
    if q.Locking? && q.taken < |Locks(other.legs)| {
      LegsShape(db, other.req);
      LegsAreApart(db, other.req);
      LocksAscend(other.legs);
      assert Locks(other.legs)[..1] == [Locks(other.legs)[0]];
    }
  }

  /** An uncommitted key is waited for by an earlier insert only. */
  lemma KeyRaisesRank(db: Db, job: Job, p: Phase, other: Job, q: Phase)
    requires job.legs == Legs(db, job.req) && other.legs == Legs(db, other.req)
    requires p.Inserting? && InTheWay(job, p, other, q)
    ensures Lower(RankOf(job, p), RankOf(other, q))
  {
    LegsShape(db, job.req);
    LegsShape(db, other.req);
    if q.inserted < |other.legs| {
      assert Keys(other.legs)[..1] == [other.legs[0].key];
      PairKeys(db, other.req);
      if p.inserted == 1 {
        PairKeys(db, job.req);
      }
    }
  }

  /** Whoever is waited for is further on. */
  lemma WaitingRaisesRank(db: Db, h: Hierarchy, job: Job, p: Phase, other: Job, q: Phase)
    requires RequestsOk(db)
    requires job.legs == Legs(db, job.req) && other.legs == Legs(db, other.req)
    requires PhaseOk(db, h, job, p) && PhaseOk(db, h, other, q)
    requires InTheWay(job, p, other, q)
    ensures Lower(RankOf(job, p), RankOf(other, q))
  {
    if p.Locking? {
      LockRaisesRank(db, h, job, p, other, q);
    } else {
      KeyRaisesRank(db, job, p, other, q);
    }
  }

  // ---- no circular wait ----

  ghost predicate WaitPath(jobs: seq<Job>, phases: seq<Phase>, path: seq<nat>)
  {
    |path| >= 2 && forall k :: 0 <= k < |path| - 1 ==> WaitsFor(jobs, phases, path[k], path[k + 1])
  }

  lemma {:induction false} PathRaisesRank(jobs: seq<Job>, h: Hierarchy, s: Sys, path: seq<nat>)
    requires Inv(jobs, h, s) && WaitPath(jobs, s.phases, path)
    ensures path[0] < |jobs| && path[|path| - 1] < |jobs|
    ensures Lower(RankOf(jobs[path[0]], s.phases[path[0]]),
                  RankOf(jobs[path[|path| - 1]], s.phases[path[|path| - 1]]))
    decreases |path|
  {
    var a, b := path[0], path[1];
    assert WaitsFor(jobs, s.phases, path[0], path[0 + 1]);
    WaitingRaisesRank(s.db, h, jobs[a], s.phases[a], jobs[b], s.phases[b]);
    if |path| > 2 {
      var rest := path[1..];
      forall k | 0 <= k < |rest| - 1 ensures WaitsFor(jobs, s.phases, rest[k], rest[k + 1]) {
        assert WaitsFor(jobs, s.phases, path[k + 1], path[k + 1 + 1]);
      }
      PathRaisesRank(jobs, h, s, rest);
      var z := path[|path| - 1];
      LowerTransitive(RankOf(jobs[a], s.phases[a]), RankOf(jobs[b], s.phases[b]),
                      RankOf(jobs[z], s.phases[z]));
    }
  }

  /** At every point of every run, no chain of waits comes back to where it began. */
  lemma WaitsAreAcyclic(jobs: seq<Job>, h: Hierarchy, run: seq<Sys>, path: seq<nat>)
    requires Run(jobs, h, run)
    requires WaitPath(jobs, run[|run| - 1].phases, path)
    ensures path[0] != path[|path| - 1]
  {
    RunInv(jobs, h, run);
    var s := run[|run| - 1];
    PathRaisesRank(jobs, h, s, path);
    if path[0] == path[|path| - 1] {
      LowerIrreflexive(RankOf(jobs[path[0]], s.phases[path[0]]));
    }
  }

  // ---- progress ----

  /** The unfinished job furthest on among the first `n`. */
  lemma {:induction false} FurthestOn(jobs: seq<Job>, phases: seq<Phase>, n: nat, i: nat) returns (top: nat)
    requires n <= |jobs| == |phases| && i < |jobs| && !phases[i].Finished?
    ensures top < |jobs| && !phases[top].Finished?
    ensures forall k :: 0 <= k < n && !phases[k].Finished? ==>
              !Lower(RankOf(jobs[top], phases[top]), RankOf(jobs[k], phases[k]))
    decreases n
  {
    if n == 0 {
      return i;
    }
    top := FurthestOn(jobs, phases, n - 1, i);
    var best := top;
    if !phases[n - 1].Finished? && Lower(RankOf(jobs[top], phases[top]), RankOf(jobs[n - 1], phases[n - 1])) {
      top := n - 1;
      LowerIrreflexive(RankOf(jobs[top], phases[top]));
      forall k | 0 <= k < n - 1 && !phases[k].Finished?
        ensures !Lower(RankOf(jobs[top], phases[top]), RankOf(jobs[k], phases[k]))
      {
        if Lower(RankOf(jobs[top], phases[top]), RankOf(jobs[k], phases[k])) {
          LowerTransitive(RankOf(jobs[best], phases[best]), RankOf(jobs[top], phases[top]),
                          RankOf(jobs[k], phases[k]));
        }
      }
    }
  }

  /** While any request is unfinished, some request can take a step. */
  lemma SomeoneCanStep(jobs: seq<Job>, h: Hierarchy, run: seq<Sys>, i: nat)
    requires Run(jobs, h, run) && i < |jobs|
    ensures
      var s := run[|run| - 1];
      && i < |s.phases|
      && (!s.phases[i].Finished? ==> exists j :: 0 <= j < |jobs| && Enabled(jobs, s, j))
  {
    RunInv(jobs, h, run);
    var s := run[|run| - 1];
    if !s.phases[i].Finished? {
      var top := FurthestOn(jobs, s.phases, |jobs|, i);
      if Blocked(jobs, s.phases, top) {
        var j :| 0 <= j < |jobs| && WaitsFor(jobs, s.phases, top, j);
        WaitingRaisesRank(s.db, h, jobs[top], s.phases[top], jobs[j], s.phases[j]);
        assert false;
      }
      assert Enabled(jobs, s, top);
    }
  }

  // ---- and every run ends ----

  function Remaining(job: Job, p: Phase): nat
  {
    match p
    case Fresh => |Locks(job.legs)| + |job.legs| + 5
    case Reading => |Locks(job.legs)| + |job.legs| + 4
    case Locking(taken, _) =>
      (if taken <= |Locks(job.legs)| then |Locks(job.legs)| - taken else 0) + |job.legs| + 3
    case Inserting(n, _) => (if n <= |job.legs| then |job.legs| - n else 0) + 2
    case RolledBack => 1
    case Finished(_) => 0
  }

  function Work(jobs: seq<Job>, phases: seq<Phase>): nat
    requires |jobs| == |phases|
  {
    if jobs == [] then 0
    else Remaining(jobs[0], phases[0]) + Work(jobs[1..], phases[1..])
  }

  lemma {:induction false} WorkUpdate(jobs: seq<Job>, phases: seq<Phase>, i: nat, p: Phase)
    requires |jobs| == |phases| && i < |jobs|
    ensures Work(jobs, phases[i := p]) == Work(jobs, phases) - Remaining(jobs[i], phases[i]) + Remaining(jobs[i], p)
    decreases |jobs|
  {
    if i == 0 {
      assert phases[0 := p][1..] == phases[1..];
    } else {
      assert phases[i := p][1..] == phases[1..][i - 1 := p];
      WorkUpdate(jobs[1..], phases[1..], i - 1, p);
    }
  }

  lemma AdvanceShrinks(h: Hierarchy, db: Db, job: Job, p: Phase)
    requires PhaseOk(db, h, job, p) && !p.Finished?
    ensures Remaining(job, Advance(h, db, job, p)) < Remaining(job, p)
  {
  }

  /** A run has at most as many steps as its jobs had work to do at the start: at most nine each. */
  lemma {:induction false} RunsEnd(jobs: seq<Job>, h: Hierarchy, run: seq<Sys>)
    requires Run(jobs, h, run)
    ensures |run[|run| - 1].phases| == |jobs|
    ensures |run| - 1 + Work(jobs, run[|run| - 1].phases) <= 9 * |jobs|
    decreases |run|
  {
    RunInv(jobs, h, run);
    if |run| == 1 {
      StartWork(jobs, run[0].db, run[0].phases);
    } else {
      RunFront(jobs, h, run);
      RunsEnd(jobs, h, run[..|run| - 1]);
      RunInv(jobs, h, run[..|run| - 1]);
      var s := run[|run| - 2];
      var i :| 0 <= i < |jobs| && Enabled(jobs, s, i) && run[|run| - 1] == Step(jobs, h, s, i);
      AdvanceShrinks(h, s.db, jobs[i], s.phases[i]);
      WorkUpdate(jobs, s.phases, i, Advance(h, s.db, jobs[i], s.phases[i]));
    }
  }

  lemma {:induction false} StartWork(jobs: seq<Job>, db: Db, phases: seq<Phase>)
    requires |jobs| == |phases|
    requires forall i :: 0 <= i < |jobs| ==> jobs[i].legs == Legs(db, jobs[i].req) && phases[i] == Fresh
    ensures Work(jobs, phases) <= 9 * |jobs|
    decreases |jobs|
  {
    if jobs != [] {
      LegsShape(db, jobs[0].req);
      StartWork(jobs[1..], db, phases[1..]);
    }
  }
}
