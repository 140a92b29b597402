/** GPU hours in the billing report: each session's overlap with the period, added up per key. Times are
    in one integer unit; the report's division into hours is left to the reader. */
module Hours {
  import opened Prelude
  import opened Sums

  datatype GpuSession = GpuSession(gpu: bool, started: Option<int>, ended: Option<int>,
                                   group: Option<Id>, wallet: Option<Id>, offering: Option<Id>)

  datatype GroupBy = ByGroup | ByWallet | ByOffering

  /** The query's scope; an organization scope does not filter sessions. */
  datatype Filter = Everything | OneWallet(id: Id) | OneGroup(id: Id)

  function KeyOf(s: GpuSession, axis: GroupBy): Option<Id>
  {
    match axis
    case ByGroup => s.group
    case ByWallet => s.wallet
    case ByOffering => s.offering
  }

  predicate InScope(s: GpuSession, scope: Filter)
  {
    match scope
    case Everything => true
    case OneWallet(id) => s.wallet == Some(id)
    case OneGroup(id) => s.group == Some(id)
  }

  /** How long a session ran within [frm, to]. */
  function Overlap(s: GpuSession, frm: int, to: int, now: int): (r: int)
    ensures r >= 0
  {
    if s.started.None? then 0
    else
      var end := if s.ended.Some? then s.ended.value else now;
      Max(0, Min(end, to) - Max(s.started.value, frm))
  }

  predicate Bills(s: GpuSession, scope: Filter, axis: GroupBy, key: Id)
  {
    s.gpu && InScope(s, scope) && KeyOf(s, axis) == Some(key) && key != ""
  }

  /** Time billed to one key, over every session in the table. */
  function HoursOf(sessions: seq<GpuSession>, scope: Filter, axis: GroupBy, key: Id, frm: int, to: int, now: int): int
  {
    if sessions == [] then 0
    else
      var s := sessions[|sessions| - 1];
      HoursOf(sessions[..|sessions| - 1], scope, axis, key, frm, to, now)
      + if Bills(s, scope, axis, key) then Overlap(s, frm, to, now) else 0
  }

  // ---- what the figures count ----

  /** A session runs from its start to its end, or until now. */
  predicate RunsAt(s: GpuSession, t: int, now: int)
  {
    s.started.Some? && s.started.value <= t && (if s.ended.Some? then t < s.ended.value else t < now)
  }

  /** The instants of [frm, to) at which a session ran. */
  ghost function Instants(s: GpuSession, frm: int, to: int, now: int): set<int>
  {
    set t | frm <= t < to && RunsAt(s, t, now)
  }

  predicate Between(a: int, t: int, b: int)
  {
    a <= t < b
  }

  ghost function Interval(a: int, b: int): set<int>
  {
    set t | a <= t < b && Between(a, t, b)
  }

  lemma {:induction false} IntervalSize(a: int, b: int)
    requires a <= b
    ensures |Interval(a, b)| == b - a
    decreases b - a
  {
    if a < b {
      IntervalSize(a, b - 1);
      assert Interval(a, b) == Interval(a, b - 1) + {b - 1};
    } else {
      assert Interval(a, b) == {};
    }
  }

  /** A session's overlap is the number of instants it ran in the period. */
  lemma OverlapIsInstants(s: GpuSession, frm: int, to: int, now: int)
    ensures Overlap(s, frm, to, now) == |Instants(s, frm, to, now)|
  {
    if s.started.None? {
      assert Instants(s, frm, to, now) == {};
    } else {
      var end := if s.ended.Some? then s.ended.value else now;
      var a, b := Max(s.started.value, frm), Min(end, to);
      if a <= b {
        IntervalSize(a, b);
        assert Instants(s, frm, to, now) == Interval(a, b);
      } else {
        assert Instants(s, frm, to, now) == {};
      }
    }
  }

  /** The sessions billed to a key: GPU sessions of the scope whose group, wallet or offering it is. */
  ghost function BilledTo(sessions: seq<GpuSession>, scope: Filter, axis: GroupBy, key: Id): set<int>
  {
    set i | 0 <= i < |sessions| && sessions[i].gpu && key != ""
          && (scope.OneWallet? ==> sessions[i].wallet == Some(scope.id))
          && (scope.OneGroup? ==> sessions[i].group == Some(scope.id))
          && (axis == ByWallet ==> sessions[i].wallet == Some(key))
          && (axis == ByOffering ==> sessions[i].offering == Some(key))
          && (axis == ByGroup ==> sessions[i].group == Some(key))
  }

  ghost function Ran(sessions: seq<GpuSession>, frm: int, to: int, now: int): int -> int
  {
    (i: int) => if 0 <= i < |sessions| then |Instants(sessions[i], frm, to, now)| else 0
  }

  /** A key's time is the instants of the sessions billed to it. */
  lemma {:induction false} HoursAreInstants(sessions: seq<GpuSession>, scope: Filter, axis: GroupBy, key: Id, frm: int, to: int, now: int)
    ensures HoursOf(sessions, scope, axis, key, frm, to, now) ==
            Sum(BilledTo(sessions, scope, axis, key), Ran(sessions, frm, to, now))
    decreases |sessions|
  {
    if sessions == [] {
      assert BilledTo(sessions, scope, axis, key) == {};
    } else {
      var n := |sessions| - 1;
      var front := sessions[..n];
      HoursAreInstants(front, scope, axis, key, frm, to, now);
      OverlapIsInstants(sessions[n], frm, to, now);
      SumAgree(BilledTo(front, scope, axis, key), Ran(front, frm, to, now), Ran(sessions, frm, to, now));
      BilledLast(sessions, scope, axis, key);
      if Bills(sessions[n], scope, axis, key) {
        SumRemove(BilledTo(sessions, scope, axis, key), Ran(sessions, frm, to, now), n);
      }
    }
  }

  lemma BilledLast(sessions: seq<GpuSession>, scope: Filter, axis: GroupBy, key: Id)
    requires sessions != []
    ensures
      var n := |sessions| - 1;
      var before, all := BilledTo(sessions[..n], scope, axis, key), BilledTo(sessions, scope, axis, key);
      if Bills(sessions[n], scope, axis, key) then n in all && all - {n} == before else all == before
  {
    var n := |sessions| - 1;
    assert n in BilledTo(sessions, scope, axis, key) <==> Bills(sessions[n], scope, axis, key);
    assert BilledTo(sessions, scope, axis, key) - {n} == BilledTo(sessions[..n], scope, axis, key);
  }

  /** A session of an open or closed period splits at any point in between. */
  lemma OverlapSplits(s: GpuSession, frm: int, mid: int, to: int, now: int)
    requires frm <= mid <= to
    ensures Overlap(s, frm, mid, now) + Overlap(s, mid, to, now) == Overlap(s, frm, to, now)
  {
  }

  /** Adjoining periods bill each key exactly what the whole period does. */
  lemma {:induction false} HoursAreAdditive(sessions: seq<GpuSession>, scope: Filter, axis: GroupBy, key: Id,
                                            frm: int, mid: int, to: int, now: int)
    requires frm <= mid <= to
    ensures HoursOf(sessions, scope, axis, key, frm, mid, now) + HoursOf(sessions, scope, axis, key, mid, to, now)
            == HoursOf(sessions, scope, axis, key, frm, to, now)
    decreases |sessions|
  {
    if sessions != [] {
      HoursAreAdditive(sessions[..|sessions| - 1], scope, axis, key, frm, mid, to, now);
      OverlapSplits(sessions[|sessions| - 1], frm, mid, to, now);
    }
  }

  /** What the query returns: sessions started before the period ends. */
  function Fetched(sessions: seq<GpuSession>, scope: Filter, to: int): seq<GpuSession>
  {
    if sessions == [] then []
    else
      var s := sessions[|sessions| - 1];
      Fetched(sessions[..|sessions| - 1], scope, to)
      + if s.gpu && s.started.Some? && s.started.value < to && InScope(s, scope) then [s] else []
  }

  lemma HoursAppend(sessions: seq<GpuSession>, s: GpuSession, scope: Filter, axis: GroupBy, key: Id, frm: int, to: int, now: int)
    ensures HoursOf(sessions + [s], scope, axis, key, frm, to, now)
            == HoursOf(sessions, scope, axis, key, frm, to, now)
               + if Bills(s, scope, axis, key) then Overlap(s, frm, to, now) else 0
  {
    assert (sessions + [s])[..|sessions|] == sessions;
  }

  /** The query drops no session that would have contributed. */
  lemma {:induction false} FetchDropsNothing(sessions: seq<GpuSession>, scope: Filter, axis: GroupBy, key: Id,
                                             frm: int, to: int, now: int)
    ensures HoursOf(Fetched(sessions, scope, to), scope, axis, key, frm, to, now)
            == HoursOf(sessions, scope, axis, key, frm, to, now)
    decreases |sessions|
  {
    if sessions != [] {
      var front, s := sessions[..|sessions| - 1], sessions[|sessions| - 1];
      FetchDropsNothing(front, scope, axis, key, frm, to, now);
      var fetched := Fetched(front, scope, to);
      HoursAppend(fetched, s, scope, axis, key, frm, to, now);
      assert fetched + [] == fetched;
    }
  }

  lemma {:induction false} FetchedInScope(sessions: seq<GpuSession>, scope: Filter, to: int)
    ensures forall s :: s in Fetched(sessions, scope, to) ==> s.gpu && s.started.Some? && InScope(s, scope)
    decreases |sessions|
  {
    if sessions != [] {
      FetchedInScope(sessions[..|sessions| - 1], scope, to);
    }
  }

  method Fetch(sessions: seq<GpuSession>, scope: Filter, to: int) returns (fetched: seq<GpuSession>)
    ensures fetched == Fetched(sessions, scope, to)
  {
    fetched := [];
    for i := 0 to |sessions|
      invariant fetched == Fetched(sessions[..i], scope, to)
    {
      assert sessions[..i + 1][..i] == sessions[..i];
      var s := sessions[i];
      if s.gpu && s.started.Some? && s.started.value < to && InScope(s, scope) {
        fetched := fetched + [s];
      }
    }
    assert sessions[..|sessions|] == sessions;
  }

  function At(hours: map<Id, int>, key: Id): int
  {
    if key in hours then hours[key] else 0
  }

  /** The report's figures for some sessions: every key's time, and no key without any. */
  ghost predicate Tallies(hours: map<Id, int>, sessions: seq<GpuSession>, scope: Filter, axis: GroupBy, frm: int, to: int, now: int)
  {
    && (forall key :: At(hours, key) == HoursOf(sessions, scope, axis, key, frm, to, now))
    && (forall key :: key in hours ==> hours[key] > 0)
  }

  function WithSession(hours: map<Id, int>, s: GpuSession, axis: GroupBy, frm: int, to: int, now: int): map<Id, int>
  {
    var key, time := KeyOf(s, axis), Overlap(s, frm, to, now);
    if time > 0 && key.Some? && key.value != "" then hours[key.value := At(hours, key.value) + time] else hours
  }

  /** One round of the loop. */
  method AddSession(hours: map<Id, int>, s: GpuSession, axis: GroupBy, frm: int, to: int, now: int)
    returns (r: map<Id, int>)
    requires s.started.Some?
    ensures r == WithSession(hours, s, axis, frm, to, now)
  {
    var end := if s.ended.Some? then s.ended.value else now;
    var ovStart, ovEnd := Max(s.started.value, frm), Min(end, to);
    if ovEnd <= ovStart {
      return hours;
    }
    var key := KeyOf(s, axis);
    if key.None? || key.value == "" {
      return hours;
    }
    return hours[key.value := At(hours, key.value) + (ovEnd - ovStart)];
  }

  lemma TallyStep(hours: map<Id, int>, sessions: seq<GpuSession>, s: GpuSession, scope: Filter, axis: GroupBy,
                  frm: int, to: int, now: int)
    requires Tallies(hours, sessions, scope, axis, frm, to, now) && s.gpu && InScope(s, scope)
    ensures Tallies(WithSession(hours, s, axis, frm, to, now), sessions + [s], scope, axis, frm, to, now)
  {
    forall key ensures HoursOf(sessions + [s], scope, axis, key, frm, to, now)
                       == At(hours, key) + if Bills(s, scope, axis, key) then Overlap(s, frm, to, now) else 0 {
      HoursAppend(sessions, s, scope, axis, key, frm, to, now);
    }
    assert forall key :: key in hours ==> At(hours, key) > 0;
  }

  /** The accumulating loop of the report. */
  method GpuHours(sessions: seq<GpuSession>, scope: Filter, axis: GroupBy, frm: int, to: int, now: int)
    returns (hours: map<Id, int>)
    ensures forall key :: At(hours, key) == Sum(BilledTo(sessions, scope, axis, key), Ran(sessions, frm, to, now))
    ensures forall key :: key in hours ==> hours[key] > 0
  {
    var fetched := Fetch(sessions, scope, to);
    FetchedInScope(sessions, scope, to);
    hours := map[];
    for i := 0 to |fetched|
      invariant Tallies(hours, fetched[..i], scope, axis, frm, to, now)
    {
      var s := fetched[i];
      assert s in fetched && fetched[..i + 1] == fetched[..i] + [s];
      TallyStep(hours, fetched[..i], s, scope, axis, frm, to, now);
      hours := AddSession(hours, s, axis, frm, to, now);
    }
    assert fetched[..|fetched|] == fetched;
    TalliesAll(hours, sessions, scope, axis, frm, to, now);
    forall key ensures At(hours, key) == Sum(BilledTo(sessions, scope, axis, key), Ran(sessions, frm, to, now)) {
      HoursAreInstants(sessions, scope, axis, key, frm, to, now);
    }
  }

  lemma TalliesAll(hours: map<Id, int>, sessions: seq<GpuSession>, scope: Filter, axis: GroupBy, frm: int, to: int, now: int)
    requires Tallies(hours, Fetched(sessions, scope, to), scope, axis, frm, to, now)
    ensures Tallies(hours, sessions, scope, axis, frm, to, now)
  {
    forall key ensures At(hours, key) == HoursOf(sessions, scope, axis, key, frm, to, now) {
      FetchDropsNothing(sessions, scope, axis, key, frm, to, now);
    }
  }
}
