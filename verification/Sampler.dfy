/** The node agent's CPU sampler: a tick loop over two maps that turns cumulative counters into rates. Times
    are nanoseconds, counters microseconds of CPU, rates reals. */
module Sampler {
  import opened Prelude

  datatype Pod = Pod(uid: Id, session: Id)

  datatype Prev = Prev(usec: nat, at: int)

  datatype Reading = Reading(usec: nat, mem: nat)

  datatype Sample = Sample(session: Id, at: int, cores: real, mem: nat)

  /** The loop's maps: previous counter and resolved cgroup path per pod. */
  datatype State = State(last: map<Id, Prev>, paths: map<Id, string>)

  /** What the node answers during one tick: cgroup paths that resolve and files that read. */
  datatype World = World(dirs: map<Id, string>, files: map<string, Reading>)

  /** One tick; no listing when the API call failed. */
  datatype Tick = Tick(now: int, listing: Option<seq<Pod>>, world: World)

  function Seconds(ns: int): real
  {
    ns as real / 1e9
  }

  /** Cores used between two readings, or nothing if they describe no interval. */
  function Rate(prevUsec: nat, curUsec: nat, elapsed: real): (r: Option<real>)
    ensures r.Some? <==> elapsed > 0.0 && prevUsec <= curUsec
    ensures r.Some? ==> r.value * elapsed == (curUsec - prevUsec) as real / 1e6
  {
    if elapsed <= 0.0 || curUsec < prevUsec then None
    else Some((curUsec - prevUsec) as real / 1e6 / elapsed)
  }

  function DirOf(st: State, uid: Id, w: World): Option<string>
  {
    if uid in st.paths then Some(st.paths[uid]) else if uid in w.dirs then Some(w.dirs[uid]) else None
  }

  /** The reading a tick gets for a pod, through the path it remembers or resolves. */
  function ReadOf(st: State, uid: Id, w: World): Option<Reading>
  {
    var dir := DirOf(st, uid, w);
    if dir.Some? && dir.value in w.files then Some(w.files[dir.value]) else None
  }

  function Visit(st: State, p: Pod, now: int, w: World): State
  {
    var dir := DirOf(st, p.uid, w);
    if dir.None? then st
    else
      var known := st.(paths := st.paths[p.uid := dir.value]);
      if dir.value in w.files then known.(last := known.last[p.uid := Prev(w.files[dir.value].usec, now)]) else known
  }

  /** The sample a visit appends to the batch. */
  function Emitted(st: State, p: Pod, now: int, w: World): Option<Sample>
  {
    var r := ReadOf(st, p.uid, w);
    if r.None? || p.uid !in st.last then None
    else
      var pv := st.last[p.uid];
      var cores := Rate(pv.usec, r.value.usec, Seconds(now - pv.at));
      if cores.None? then None else Some(Sample(p.session, now, cores.value, r.value.mem))
  }

  function VisitAll(st: State, pods: seq<Pod>, now: int, w: World): State
  {
    if pods == [] then st else Visit(VisitAll(st, pods[..|pods| - 1], now, w), pods[|pods| - 1], now, w)
  }

  function Batch(st: State, pods: seq<Pod>, now: int, w: World): seq<Sample>
  {
    if pods == [] then []
    else
      var front := pods[..|pods| - 1];
      var s := Emitted(VisitAll(st, front, now, w), pods[|pods| - 1], now, w);
      Batch(st, front, now, w) + if s.Some? then [s.value] else []
  }

  predicate Listed(pods: seq<Pod>, uid: Id)
  {
    exists i :: 0 <= i < |pods| && pods[i].uid == uid
  }

  /** Pods that are gone lose both entries. */
  function Pruned(st: State, pods: seq<Pod>): State
  {
    State(map uid | uid in st.last && Listed(pods, uid) :: st.last[uid],
          map uid | uid in st.paths && (uid in st.last ==> Listed(pods, uid)) :: st.paths[uid])
  }

  function Step(st: State, t: Tick): State
  {
    if t.listing.None? then st
    else Pruned(VisitAll(st, t.listing.value, t.now, t.world), t.listing.value)
  }

  function Run(st: State, ticks: seq<Tick>): State
    decreases |ticks|
  {
    if ticks == [] then st else Run(Step(st, ticks[0]), ticks[1..])
  }

  // ---- the maps stay bounded ----

  predicate Resolved(st: State)
  {
    forall uid :: uid in st.last ==> uid in st.paths
  }

  lemma {:induction false} VisitsResolve(st: State, pods: seq<Pod>, now: int, w: World)
    requires Resolved(st)
    ensures Resolved(VisitAll(st, pods, now, w))
    decreases |pods|
  {
    if pods != [] {
      VisitsResolve(st, pods[..|pods| - 1], now, w);
    }
  }

  /** After every tick with a listing the remembered counters belong to listed pods, each with its path. */
  lemma {:induction false} MapsStayBounded(st: State, ticks: seq<Tick>)
    requires Resolved(st)
    ensures Resolved(Run(st, ticks))
    ensures |ticks| > 0 && ticks[|ticks| - 1].listing.Some? ==>
              forall uid :: uid in Run(st, ticks).last ==> Listed(ticks[|ticks| - 1].listing.value, uid)
    decreases |ticks|
  {
    if ticks != [] {
      var t := ticks[0];
      if t.listing.Some? {
        VisitsResolve(st, t.listing.value, t.now, t.world);
      }
      MapsStayBounded(Step(st, t), ticks[1..]);
    }
  }

  /** A tick leaves the entries of a pod it does not list alone until it prunes. */
  lemma {:induction false} UnlistedUntouched(st: State, pods: seq<Pod>, now: int, w: World, uid: Id)
    requires !Listed(pods, uid)
    ensures
      var after := VisitAll(st, pods, now, w);
      (uid in after.last <==> uid in st.last) && (uid in after.paths <==> uid in st.paths)
    decreases |pods|
  {
    if pods != [] {
      var front, p := pods[..|pods| - 1], pods[|pods| - 1];
      assert p.uid != uid;
      forall i | 0 <= i < |front| ensures front[i].uid != uid {
        assert front[i] == pods[i];
      }
      UnlistedUntouched(st, front, now, w, uid);
    }
  }

  predicate PathsListed(st: State, pods: seq<Pod>)
  {
    forall uid :: uid in st.paths ==> Listed(pods, uid)
  }

  /** After a tick with a listing the remembered paths belong to listed pods exactly when every pod that has left
      with a remembered path had been read at least once: pruning goes by the counters. */
  lemma PathsBoundedIff(st: State, t: Tick)
    requires t.listing.Some?
    ensures PathsListed(Step(st, t), t.listing.value) <==>
            forall uid :: uid in st.paths && !Listed(t.listing.value, uid) ==> uid in st.last
  {
    var pods, after := t.listing.value, Step(st, t);
    forall uid | !Listed(pods, uid) ensures uid in after.paths <==> uid in st.paths && uid !in st.last {
      UnlistedUntouched(st, pods, t.now, t.world, uid);
    }
  }

  /** Such a path is never forgotten while its pod stays away. */
  lemma {:induction false} LeakedPathStays(st: State, ticks: seq<Tick>, uid: Id)
    requires uid in st.paths && uid !in st.last
    requires forall i :: 0 <= i < |ticks| && ticks[i].listing.Some? ==> !Listed(ticks[i].listing.value, uid)
    ensures uid in Run(st, ticks).paths && uid !in Run(st, ticks).last
    decreases |ticks|
  {
    if ticks != [] {
      var t := ticks[0];
      if t.listing.Some? {
        UnlistedUntouched(st, t.listing.value, t.now, t.world, uid);
      }
      LeakedPathStays(Step(st, t), ticks[1..], uid);
    }
  }

  /** While every path that resolves can also be read, both maps stay within the listed pods. */
  lemma {:induction false} ReadablePathsStayBounded(st: State, ticks: seq<Tick>)
    requires forall uid :: uid in st.paths <==> uid in st.last
    requires AlwaysReadable(st, ticks)
    ensures forall uid :: uid in Run(st, ticks).paths <==> uid in Run(st, ticks).last
    ensures |ticks| > 0 && ticks[|ticks| - 1].listing.Some? ==>
              PathsListed(Run(st, ticks), ticks[|ticks| - 1].listing.value)
    decreases |ticks|
  {
    if ticks != [] {
      var t := ticks[0];
      if t.listing.Some? {
        ReadableVisits(st, t.listing.value, t.now, t.world);
      }
      ReadablePathsStayBounded(Step(st, t), ticks[1..]);
    }
  }

  /** No listed pod has a path without a readable file. */
  predicate AlwaysReadable(st: State, ticks: seq<Tick>)
    decreases |ticks|
  {
    ticks == []
    || ((ticks[0].listing.Some? ==> Readable(st, ticks[0].listing.value, ticks[0].world))
        && AlwaysReadable(Step(st, ticks[0]), ticks[1..]))
  }

  predicate Readable(st: State, pods: seq<Pod>, w: World)
  {
    forall i :: 0 <= i < |pods| ==> (DirOf(st, pods[i].uid, w).Some? ==> ReadOf(st, pods[i].uid, w).Some?)
  }

  lemma {:induction false} ReadableVisits(st: State, pods: seq<Pod>, now: int, w: World)
    requires (forall uid :: uid in st.paths <==> uid in st.last) && Readable(st, pods, w)
    ensures
      var after := VisitAll(st, pods, now, w);
      forall uid :: && (uid in after.paths <==> uid in after.last)
                    && DirOf(after, uid, w) == DirOf(st, uid, w)
    decreases |pods|
  {
    if pods != [] {
      var front := pods[..|pods| - 1];
      assert forall i :: 0 <= i < |front| ==> front[i] == pods[i];
      ReadableVisits(st, front, now, w);
    }
  }

  /** A pod whose path resolves and whose counter never reads leaves its path behind. */
  lemma PathLeaks()
    ensures
      var empty := State(map[], map[]);
      var w := World(map["u" := "/u"], map[]);
      var after := Run(empty, [Tick(1, Some([Pod("u", "s")]), w), Tick(2, Some([]), w)]);
      "u" in after.paths && !PathsListed(after, [])
  {
    var empty := State(map[], map[]);
    var w := World(map["u" := "/u"], map[]);
    var one, two := Tick(1, Some([Pod("u", "s")]), w), Tick(2, Some([]), w);
    var pods := one.listing.value;
    assert pods[..0] == [] && VisitAll(empty, pods, 1, w) == Visit(VisitAll(empty, pods[..0], 1, w), pods[0], 1, w);
    assert pods[0].uid == "u" && Listed(pods, "u");
    var mid := Step(empty, one);
    assert "u" in mid.paths && "u" !in mid.last;
    assert [one, two][1..] == [two] && [two][1..] == [];
    LeakedPathStays(mid, [two], "u");
    assert Run(empty, [one, two]) == Run(mid, [two]);
  }

  // ---- CPU time is conserved ----

  /** CPU seconds the samples of one pod stand for in one tick: cores times the interval they cover. */
  function Area(st: State, pods: seq<Pod>, now: int, w: World, uid: Id): real
  {
    if pods == [] then 0.0
    else
      var front, p := pods[..|pods| - 1], pods[|pods| - 1];
      var mid := VisitAll(st, front, now, w);
      var s := Emitted(mid, p, now, w);
      Area(st, front, now, w, uid)
      + if p.uid == uid && s.Some? && uid in mid.last then s.value.cores * Seconds(now - mid.last[uid].at) else 0.0
  }

  function TotalArea(st: State, ticks: seq<Tick>, uid: Id): real
    decreases |ticks|
  {
    if ticks == [] then 0.0
    else
      var t := ticks[0];
      (if t.listing.Some? then Area(st, t.listing.value, t.now, t.world, uid) else 0.0)
      + TotalArea(Step(st, t), ticks[1..], uid)
  }

  function Took(st: State, t: Tick, uid: Id): Option<Reading>
  {
    if t.listing.Some? && Listed(t.listing.value, uid) then ReadOf(st, uid, t.world) else None
  }

  /** The counter values read for a pod, in order. */
  function Readings(st: State, ticks: seq<Tick>, uid: Id): seq<nat>
    decreases |ticks|
  {
    if ticks == [] then []
    else
      (if Took(st, ticks[0], uid).Some? then [Took(st, ticks[0], uid).value.usec] else [])
      + Readings(Step(st, ticks[0]), ticks[1..], uid)
  }

  /** How far a counter climbed between readings, steps backwards not counted. */
  function Climb(r: seq<nat>): nat
    decreases |r|
  {
    if |r| < 2 then 0 else (if r[0] <= r[1] then r[1] - r[0] else 0) + Climb(r[1..])
  }

  function Seed(st: State, uid: Id): seq<nat>
  {
    if uid in st.last then [st.last[uid].usec] else []
  }

  predicate StaysListed(ticks: seq<Tick>, uid: Id)
  {
    forall i :: 0 <= i < |ticks| && ticks[i].listing.Some? ==> Listed(ticks[i].listing.value, uid)
  }

  predicate ClockAdvances(ticks: seq<Tick>)
  {
    forall i, j :: 0 <= i < j < |ticks| ==> ticks[i].now < ticks[j].now
  }

  predicate ReadBefore(st: State, uid: Id, now: int)
  {
    uid in st.last ==> st.last[uid].at < now
  }

  /** What visiting some pods does to one of them. */
  ghost predicate Visited(st: State, after: State, pods: seq<Pod>, now: int, w: World, uid: Id, area: real)
  {
    var r := ReadOf(st, uid, w);
    && ReadOf(after, uid, w) == r
    && (if Listed(pods, uid) && r.Some?
        then uid in after.last && after.last[uid] == Prev(r.value.usec, now)
             && area == Climb(Seed(st, uid) + [r.value.usec]) as real / 1e6
        else area == 0.0 && (uid in after.last <==> uid in st.last)
             && (uid in st.last ==> after.last[uid] == st.last[uid]))
  }

  lemma {:induction false} VisitsCoverPod(st: State, pods: seq<Pod>, now: int, w: World, uid: Id)
    requires ReadBefore(st, uid, now)
    ensures Visited(st, VisitAll(st, pods, now, w), pods, now, w, uid, Area(st, pods, now, w, uid))
    decreases |pods|
  {
    if pods != [] {
      var front, p := pods[..|pods| - 1], pods[|pods| - 1];
      VisitsCoverPod(st, front, now, w, uid);
      ListedAppend(front, p, uid);
      assert pods == front + [p];
      VisitCoversPod(st, VisitAll(st, front, now, w), front, p, now, w, uid, Area(st, front, now, w, uid));
    }
  }

  lemma ListedAppend(pods: seq<Pod>, p: Pod, uid: Id)
    ensures Listed(pods + [p], uid) <==> Listed(pods, uid) || p.uid == uid
  {
    if Listed(pods, uid) {
      var i :| 0 <= i < |pods| && pods[i].uid == uid;
      assert (pods + [p])[i] == pods[i];
    }
    assert (pods + [p])[|pods|] == p;
  }

  lemma VisitCoversPod(st: State, mid: State, pods: seq<Pod>, p: Pod, now: int, w: World, uid: Id, area: real)
    requires ReadBefore(st, uid, now) && Visited(st, mid, pods, now, w, uid, area)
    requires Listed(pods + [p], uid) <==> Listed(pods, uid) || p.uid == uid
    ensures var s := Emitted(mid, p, now, w);
            Visited(st, Visit(mid, p, now, w), pods + [p], now, w, uid,
                    area + if p.uid == uid && s.Some? && uid in mid.last then s.value.cores * Seconds(now - mid.last[uid].at) else 0.0)
  {
    if p.uid == uid && !Listed(pods, uid) && ReadOf(st, uid, w).Some? && uid in st.last {
      var a, b := st.last[uid].usec, ReadOf(st, uid, w).value.usec;
      assert Seed(st, uid) + [b] == [a, b];
      assert Climb([a, b]) == if a <= b then b - a else 0;
    }
  }

  lemma TickCoversPod(st: State, t: Tick, uid: Id)
    requires ReadBefore(st, uid, t.now) && (t.listing.Some? ==> Listed(t.listing.value, uid))
    ensures var r := Took(st, t, uid);
            var after := Step(st, t);
            && Seed(after, uid) == (if r.Some? then [r.value.usec] else Seed(st, uid))
            && (uid in after.last ==> after.last[uid].at <= t.now)
            && (if t.listing.Some? then Area(st, t.listing.value, t.now, t.world, uid) else 0.0)
               == (if r.Some? then Climb(Seed(st, uid) + [r.value.usec]) as real / 1e6 else 0.0)
  {
    if t.listing.Some? {
      VisitsCoverPod(st, t.listing.value, t.now, t.world, uid);
    }
  }

  lemma ClimbSplits(seed: seq<nat>, x: nat, rest: seq<nat>)
    requires |seed| <= 1
    ensures Climb(seed + [x] + rest) == Climb(seed + [x]) + Climb([x] + rest)
  {
    if |seed| == 1 {
      var r := seed + [x] + rest;
      assert r[1..] == [x] + rest;
      assert (seed + [x])[1..] == [x];
    } else {
      assert seed + [x] == [x] && seed + [x] + rest == [x] + rest;
    }
  }

  /** The samples of a pod that stays listed account for exactly the CPU time its counter climbed, through
      failed listings and failed reads alike. */
  lemma {:induction false} SamplesCoverTheClimb(st: State, ticks: seq<Tick>, uid: Id)
    requires StaysListed(ticks, uid) && ClockAdvances(ticks)
    requires |ticks| > 0 ==> ReadBefore(st, uid, ticks[0].now)
    ensures TotalArea(st, ticks, uid) == Climb(Seed(st, uid) + Readings(st, ticks, uid)) as real / 1e6
    decreases |ticks|
  {
    if ticks == [] {
      assert Climb(Seed(st, uid) + []) == 0;
    } else {
      var t, after := ticks[0], Step(st, ticks[0]);
      TickCoversPod(st, t, uid);
      SamplesCoverTheClimb(after, ticks[1..], uid);
      var r, rest := Took(st, t, uid), Readings(after, ticks[1..], uid);
      if r.Some? {
        ClimbSplits(Seed(st, uid), r.value.usec, rest);
        assert Seed(st, uid) + ([r.value.usec] + rest) == Seed(st, uid) + [r.value.usec] + rest;
      } else {
        assert [] + rest == rest;
      }
    }
  }

  /** The counter's advance from the first reading to the last. */
  function Gain(r: seq<nat>): int
    requires r != []
  {
    var first: int := r[0];
    var last: int := r[|r| - 1];
    last - first
  }

  predicate NeverBackwards(r: seq<nat>)
  {
    forall i :: 0 < i < |r| ==> r[i - 1] <= r[i]
  }

  lemma {:induction false} ClimbIsTheDifferenceIff(r: seq<nat>)
    requires r != []
    ensures Climb(r) >= Gain(r)
    ensures Climb(r) == Gain(r) <==> NeverBackwards(r)
    decreases |r|
  {
    if |r| > 1 {
      var tail := r[1..];
      ClimbIsTheDifferenceIff(tail);
      assert NeverBackwards(r) <==> r[0] <= r[1] && NeverBackwards(tail) by {
        assert forall i :: 0 < i < |tail| ==> tail[i - 1] == r[i] && tail[i] == r[i + 1];
        if r[0] <= r[1] && NeverBackwards(tail) {
          forall i | 0 < i < |r| ensures r[i - 1] <= r[i] {
            if i > 1 {
              assert tail[i - 2] <= tail[i - 1];
            }
          }
        }
        if NeverBackwards(r) {
          forall i | 0 < i < |tail| ensures tail[i - 1] <= tail[i] {
            assert r[i + 1 - 1] <= r[i + 1];
          }
        }
      }
    }
  }

  /** From a pod's first appearance, its samples add up to the CPU time between its first and last readings
      exactly when the counter never went backwards between them. */
  lemma CpuTimeIsConservedIff(st: State, ticks: seq<Tick>, uid: Id)
    requires uid !in st.last && StaysListed(ticks, uid) && ClockAdvances(ticks)
    requires Readings(st, ticks, uid) != []
    ensures var r := Readings(st, ticks, uid);
            TotalArea(st, ticks, uid) == Gain(r) as real / 1e6 <==> NeverBackwards(r)
  {
    var r := Readings(st, ticks, uid);
    SamplesCoverTheClimb(st, ticks, uid);
    assert Seed(st, uid) + r == r;
    ClimbIsTheDifferenceIff(r);
  }

  // ---- the loop ----

  class Loop {
    var last: map<Id, Prev>
    var paths: map<Id, string>

    constructor ()
      ensures Maps() == State(map[], map[])
    {
      last, paths := map[], map[];
    }

    ghost function Maps(): State
      reads this
    {
      State(last, paths)
    }

    /** The body of one pod's turn. */
    method ReadPod(p: Pod, now: int, w: World) returns (sample: Option<Sample>)
      modifies this
      ensures Maps() == Visit(old(Maps()), p, now, w)
      ensures sample == Emitted(old(Maps()), p, now, w)
    {
      var dir: string;
      if p.uid in paths {
        dir := paths[p.uid];
        assert paths[p.uid := dir] == paths;
      } else {
        if p.uid !in w.dirs {
          return None;
        }
        dir := w.dirs[p.uid];
        paths := paths[p.uid := dir];
      }
      if dir !in w.files {
        return None;
      }
      var r := w.files[dir];
      var seen := p.uid in last;
      var pv := if seen then last[p.uid] else Prev(0, 0);
      last := last[p.uid := Prev(r.usec, now)];
      if !seen {
        return None;
      }
      var cores := Rate(pv.usec, r.usec, Seconds(now - pv.at));
      if cores.None? {
        return None;
      }
      return Some(Sample(p.session, now, cores.value, r.mem));
    }

    /** One tick of `Run`; the batch is what the sink gets. */
    method OnTick(t: Tick) returns (batch: seq<Sample>)
      modifies this
      ensures Maps() == Step(old(Maps()), t)
      ensures batch == if t.listing.Some? then Batch(old(Maps()), t.listing.value, t.now, t.world) else []
    {
      batch := [];
      if t.listing.None? {
        return;
      }
      var pods := t.listing.value;
      for i := 0 to |pods|
        invariant Maps() == VisitAll(old(Maps()), pods[..i], t.now, t.world)
        invariant batch == Batch(old(Maps()), pods[..i], t.now, t.world)
      {
        assert pods[..i + 1][..i] == pods[..i];
        var s := ReadPod(pods[i], t.now, t.world);
        if s.Some? {
          batch := batch + [s.value];
        }
      }
      assert pods[..|pods|] == pods;
      Forget(pods);
    }

    method Forget(pods: seq<Pod>)
      modifies this
      ensures Maps() == Pruned(old(Maps()), pods)
    {
      var todo := last.Keys;
      while todo != {}
        invariant todo <= old(last).Keys
        invariant last == map uid | uid in old(last) && (uid in todo || Listed(pods, uid)) :: old(last)[uid]
        invariant paths == map uid | uid in old(paths) && (uid in old(last) && uid !in todo ==> Listed(pods, uid))
                                   :: old(paths)[uid]
        decreases todo
      {
        var uid :| uid in todo;
        todo := todo - {uid};
        if !Listed(pods, uid) {
          last := last - {uid};
          paths := paths - {uid};
        }
      }
    }
  }

  // ---- what a sample says ----

  /** Every sample of a batch is taken at the tick, for a listed pod's session, with the memory its file shows. */
  lemma {:induction false} SamplesAreOfThisTick(st: State, pods: seq<Pod>, now: int, w: World)
    ensures forall k :: 0 <= k < |Batch(st, pods, now, w)| ==> FromPod(Batch(st, pods, now, w)[k], pods, now, w)
    decreases |pods|
  {
    if pods != [] {
      var front, p := pods[..|pods| - 1], pods[|pods| - 1];
      SamplesAreOfThisTick(st, front, now, w);
      var batch, s := Batch(st, front, now, w), Emitted(VisitAll(st, front, now, w), p, now, w);
      forall k | 0 <= k < |batch| ensures FromPod(batch[k], pods, now, w) {
        assert FromPod(Batch(st, front, now, w)[k], front, now, w);
        var i, dir :| 0 <= i < |front| && dir in w.files && batch[k].session == front[i].session && batch[k].mem == w.files[dir].mem;
        assert pods[i] == front[i];
      }
      if s.Some? {
        var dir := DirOf(VisitAll(st, front, now, w), p.uid, w).value;
        assert pods[|pods| - 1] == p && dir in w.files;
        assert FromPod(s.value, pods, now, w);
      }
    }
  }

  ghost predicate FromPod(s: Sample, pods: seq<Pod>, now: int, w: World)
  {
    s.at == now && exists i, dir :: 0 <= i < |pods| && dir in w.files && s.session == pods[i].session && s.mem == w.files[dir].mem
  }

  /** A visit reads through the path it remembers, or else resolves one; a pod gets a sample exactly when it is read,
      was read before, time has passed and its counter has not gone back. */
  lemma EmittedIff(st: State, p: Pod, now: int, w: World)
    ensures
      var s := Emitted(st, p, now, w);
      var resolved := p.uid in st.paths || p.uid in w.dirs;
      s.Some? <==>
        && p.uid in st.last && resolved
        && (if p.uid in st.paths then st.paths[p.uid] else w.dirs[p.uid]) in w.files
        && st.last[p.uid].at < now
        && st.last[p.uid].usec <= w.files[if p.uid in st.paths then st.paths[p.uid] else w.dirs[p.uid]].usec
  {
  }
}
