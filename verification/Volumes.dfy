/** Volume capacity: the pool's physical bound, and each scope's policy limit inside it. */
module Volumes {
  import opened Prelude
  import opened Sums

  datatype Owner = UserScope | GroupScope | GlobalScope

  datatype Volume = Volume(id: Id, owner: Owner, ownerId: Id, quota: nat, live: bool)

  /** What stays fixed over a run: the usable pool size, if a pool reports one, and the effective policy
      limits. An absent or zero limit is unlimited. */
  datatype Rules = Rules(bound: Option<nat>, limits: map<(Owner, Id), nat>)

  datatype Refusal = NotFound | Capacity | Quota | Shrink | Unconfirmed | Mounted

  datatype Result = Ok | Refused(why: Refusal)

  function Allocated(vols: seq<Volume>): nat
  {
    if vols == [] then 0
    else Allocated(vols[..|vols| - 1]) + if vols[|vols| - 1].live then vols[|vols| - 1].quota else 0
  }

  predicate InScope(v: Volume, owner: Owner, ownerId: Id)
  {
    v.live && v.owner == owner && v.ownerId == ownerId
  }

  function ScopeAllocated(vols: seq<Volume>, owner: Owner, ownerId: Id): nat
  {
    if vols == [] then 0
    else ScopeAllocated(vols[..|vols| - 1], owner, ownerId)
         + if InScope(vols[|vols| - 1], owner, ownerId) then vols[|vols| - 1].quota else 0
  }

  predicate UniqueIds(vols: seq<Volume>)
  {
    forall i, j :: 0 <= i < j < |vols| ==> vols[i].id != vols[j].id
  }

  /** The policy limit of a scope; the global scope has none. */
  function LimitOf(rules: Rules, owner: Owner, ownerId: Id): Option<nat>
  {
    if owner != GlobalScope && (owner, ownerId) in rules.limits && rules.limits[(owner, ownerId)] != 0
    then Some(rules.limits[(owner, ownerId)]) else None
  }

  predicate PoolFits(vols: seq<Volume>, rules: Rules)
  {
    rules.bound.Some? ==> Allocated(vols) <= rules.bound.value
  }

  predicate ScopeFits(vols: seq<Volume>, rules: Rules, owner: Owner, ownerId: Id)
  {
    LimitOf(rules, owner, ownerId).Some? ==>
      ScopeAllocated(vols, owner, ownerId) <= LimitOf(rules, owner, ownerId).value
  }

  ghost predicate Fits(vols: seq<Volume>, rules: Rules)
  {
    PoolFits(vols, rules) && forall owner, ownerId :: ScopeFits(vols, rules, owner, ownerId)
  }

  /** Sums over every live volume but one, as the quota check computes them. */
  function Others(vols: seq<Volume>, skip: Option<Id>): nat
  {
    if vols == [] then 0
    else
      var v := vols[|vols| - 1];
      Others(vols[..|vols| - 1], skip) + if v.live && skip != Some(v.id) then v.quota else 0
  }

  function ScopeOthers(vols: seq<Volume>, owner: Owner, ownerId: Id, skip: Option<Id>): nat
  {
    if vols == [] then 0
    else
      var v := vols[|vols| - 1];
      ScopeOthers(vols[..|vols| - 1], owner, ownerId, skip)
      + if InScope(v, owner, ownerId) && skip != Some(v.id) then v.quota else 0
  }

  /** `_assert_storage_quota`: the pool first, then the scope's policy. */
  function CheckQuota(vols: seq<Volume>, rules: Rules, owner: Owner, ownerId: Id, target: nat, skip: Option<Id>): Result
  {
    if rules.bound.Some? && Others(vols, skip) + target > rules.bound.value then Refused(Capacity)
    else if LimitOf(rules, owner, ownerId).Some?
         && ScopeOthers(vols, owner, ownerId, skip) + target > LimitOf(rules, owner, ownerId).value then Refused(Quota)
    else Ok
  }

  function ScopeId(owner: Owner, ownerId: Id): Id
  {
    if owner == GlobalScope then "global" else ownerId
  }

  predicate LiveAt(vols: seq<Volume>, i: nat)
  {
    i < |vols| && vols[i].live
  }

  datatype Op =
    | Create(id: Id, owner: Owner, ownerId: Id, quota: nat)
    | Grow(at: nat, quota: nat)
    | Delete(at: nat, confirm: Id, mounted: bool, force: bool)

  function Answer(vols: seq<Volume>, rules: Rules, op: Op): Result
  {
    match op
    case Create(id, owner, ownerId, quota) => CheckQuota(vols, rules, owner, ScopeId(owner, ownerId), quota, None)
    case Grow(i, quota) =>
      if !LiveAt(vols, i) then Refused(NotFound)
      else if quota == vols[i].quota then Ok
      else if quota < vols[i].quota then Refused(Shrink)
      else CheckQuota(vols, rules, vols[i].owner, vols[i].ownerId, quota, Some(vols[i].id))
    case Delete(i, confirm, mounted, force) =>
      if !LiveAt(vols, i) then Refused(NotFound)
      else if confirm != vols[i].id then Refused(Unconfirmed)
      else if mounted && !force then Refused(Mounted)
      else Ok
  }

  /** The table the operation asks for, whether or not it is allowed. */
  function Asked(vols: seq<Volume>, op: Op): seq<Volume>
  {
    match op
    case Create(id, owner, ownerId, quota) => vols + [Volume(id, owner, ScopeId(owner, ownerId), quota, true)]
    case Grow(i, quota) => if LiveAt(vols, i) then vols[i := vols[i].(quota := quota)] else vols
    case Delete(i, confirm, mounted, force) => if LiveAt(vols, i) then vols[i := vols[i].(live := false)] else vols
  }

  function Next(vols: seq<Volume>, rules: Rules, op: Op): seq<Volume>
  {
    if Answer(vols, rules, op).Ok? then Asked(vols, op) else vols
  }

  // ---- sums ----

  lemma {:induction false} NobodySkipped(vols: seq<Volume>, owner: Owner, ownerId: Id)
    ensures Others(vols, None) == Allocated(vols)
    ensures ScopeOthers(vols, owner, ownerId, None) == ScopeAllocated(vols, owner, ownerId)
    decreases |vols|
  {
    if vols != [] {
      NobodySkipped(vols[..|vols| - 1], owner, ownerId);
    }
  }

  lemma {:induction false} NotListed(vols: seq<Volume>, owner: Owner, ownerId: Id, id: Id)
    requires forall i :: 0 <= i < |vols| ==> vols[i].id != id
    ensures Others(vols, Some(id)) == Allocated(vols)
    ensures ScopeOthers(vols, owner, ownerId, Some(id)) == ScopeAllocated(vols, owner, ownerId)
    decreases |vols|
  {
    if vols != [] {
      NotListed(vols[..|vols| - 1], owner, ownerId, id);
    }
  }

  lemma {:induction false} PoolReplaced(vols: seq<Volume>, i: nat, v: Volume)
    requires UniqueIds(vols) && i < |vols| && v.id == vols[i].id
    ensures Allocated(vols[i := v]) == Others(vols, Some(v.id)) + if v.live then v.quota else 0
    decreases |vols|
  {
    var front, last := vols[..|vols| - 1], vols[|vols| - 1];
    if i == |front| {
      assert vols[i := v][..i] == front;
      NotListed(front, v.owner, v.ownerId, v.id);
    } else {
      assert vols[i := v][..|front|] == front[i := v];
      assert last.id != v.id;
      PoolReplaced(front, i, v);
    }
  }

  lemma {:induction false} ScopeReplaced(vols: seq<Volume>, i: nat, v: Volume, owner: Owner, ownerId: Id)
    requires UniqueIds(vols) && i < |vols| && v.id == vols[i].id
    ensures ScopeAllocated(vols[i := v], owner, ownerId)
            == ScopeOthers(vols, owner, ownerId, Some(v.id)) + if InScope(v, owner, ownerId) then v.quota else 0
    decreases |vols|
  {
    var front, last := vols[..|vols| - 1], vols[|vols| - 1];
    if i == |front| {
      assert vols[i := v][..i] == front;
      NotListed(front, owner, ownerId, v.id);
    } else {
      assert vols[i := v][..|front|] == front[i := v];
      assert last.id != v.id;
      ScopeReplaced(front, i, v, owner, ownerId);
    }
  }

  /** Replacing one row's quota or liveness changes the sums by that row alone. */
  lemma RowReplaced(vols: seq<Volume>, i: nat, v: Volume, owner: Owner, ownerId: Id)
    requires UniqueIds(vols) && i < |vols| && v.id == vols[i].id
    ensures Allocated(vols[i := v]) == Others(vols, Some(v.id)) + if v.live then v.quota else 0
    ensures ScopeAllocated(vols[i := v], owner, ownerId)
            == ScopeOthers(vols, owner, ownerId, Some(v.id)) + if InScope(v, owner, ownerId) then v.quota else 0
  {
    PoolReplaced(vols, i, v);
    ScopeReplaced(vols, i, v, owner, ownerId);
  }

  lemma RowAdded(vols: seq<Volume>, v: Volume, owner: Owner, ownerId: Id)
    ensures Allocated(vols + [v]) == Allocated(vols) + if v.live then v.quota else 0
    ensures ScopeAllocated(vols + [v], owner, ownerId)
            == ScopeAllocated(vols, owner, ownerId) + if InScope(v, owner, ownerId) then v.quota else 0
  {
    assert (vols + [v])[..|vols|] == vols;
  }

  // ---- the gates are exact ----

  /** On a table within its bounds a creation is accepted exactly when the table with the new volume is
      within them too. */
  lemma CreateAcceptedIff(vols: seq<Volume>, rules: Rules, op: Op)
    requires op.Create? && Fits(vols, rules)
    ensures Answer(vols, rules, op).Ok? <==> Fits(Asked(vols, op), rules)
  {
    var own := ScopeId(op.owner, op.ownerId);
    var v := Volume(op.id, op.owner, own, op.quota, true);
    NobodySkipped(vols, op.owner, own);
    forall owner, ownerId
      ensures Allocated(vols + [v]) == Allocated(vols) + v.quota
      ensures ScopeAllocated(vols + [v], owner, ownerId)
              == ScopeAllocated(vols, owner, ownerId) + if InScope(v, owner, ownerId) then v.quota else 0
    {
      RowAdded(vols, v, owner, ownerId);
    }
    assert ScopeFits(Asked(vols, op), rules, op.owner, own) ==> Answer(vols, rules, op) != Refused(Quota);
    RowAdded(vols, v, op.owner, own);
    if Answer(vols, rules, op).Ok? {
      forall owner, ownerId ensures ScopeFits(Asked(vols, op), rules, owner, ownerId) {
        assert ScopeFits(vols, rules, owner, ownerId);
      }
    }
  }

  /** Growing a volume is accepted exactly when the table with the larger quota is within its bounds; a
      smaller quota is always refused. */
  lemma GrowAcceptedIff(vols: seq<Volume>, rules: Rules, op: Op)
    requires op.Grow? && LiveAt(vols, op.at) && UniqueIds(vols) && Fits(vols, rules)
    ensures Answer(vols, rules, op).Ok? <==> op.quota >= vols[op.at].quota && Fits(Asked(vols, op), rules)
  {
    var was := vols[op.at];
    var v := was.(quota := op.quota);
    if op.quota == was.quota {
      assert Asked(vols, op) == vols;
    } else if op.quota > was.quota {
      RowReplaced(vols, op.at, v, was.owner, was.ownerId);
      assert ScopeFits(Asked(vols, op), rules, was.owner, was.ownerId) ==> Answer(vols, rules, op) != Refused(Quota);
      if Answer(vols, rules, op).Ok? {
        forall owner, ownerId ensures ScopeFits(Asked(vols, op), rules, owner, ownerId) {
          assert ScopeFits(vols, rules, owner, ownerId);
          RowReplaced(vols, op.at, v, owner, ownerId);
          RowReplaced(vols, op.at, was, owner, ownerId);
          assert vols[op.at := was] == vols;
        }
      }
    }
  }

  lemma DeleteKeepsFits(vols: seq<Volume>, rules: Rules, op: Op)
    requires op.Delete? && LiveAt(vols, op.at) && UniqueIds(vols) && Fits(vols, rules)
    ensures Fits(Asked(vols, op), rules)
  {
    var v := vols[op.at];
    assert vols[op.at := v] == vols;
    RowReplaced(vols, op.at, v.(live := false), v.owner, v.ownerId);
    RowReplaced(vols, op.at, v, v.owner, v.ownerId);
    forall owner, ownerId ensures ScopeFits(Asked(vols, op), rules, owner, ownerId) {
      assert ScopeFits(vols, rules, owner, ownerId);
      RowReplaced(vols, op.at, v.(live := false), owner, ownerId);
      RowReplaced(vols, op.at, v, owner, ownerId);
    }
  }

  // ---- what the bounds and the operations mean ----

  ghost function QuotaAt(vols: seq<Volume>): int -> int
  {
    (i: int) => if 0 <= i < |vols| then vols[i].quota else 0
  }

  ghost function LiveRows(vols: seq<Volume>): set<int>
  {
    set i | 0 <= i < |vols| && vols[i].live
  }

  ghost function ScopeRows(vols: seq<Volume>, owner: Owner, ownerId: Id): set<int>
  {
    set i | 0 <= i < |vols| && vols[i].live && vols[i].owner == owner && vols[i].ownerId == ownerId
  }

  lemma {:induction false} AllocatedIsSum(vols: seq<Volume>)
    ensures Allocated(vols) == Sum(LiveRows(vols), QuotaAt(vols))
    decreases |vols|
  {
    var rows := LiveRows(vols);
    if vols == [] {
      assert rows == {};
    } else {
      var n := |vols| - 1;
      var front := vols[..n];
      AllocatedIsSum(front);
      var before := LiveRows(front);
      SumAgree(before, QuotaAt(front), QuotaAt(vols));
      if vols[n].live {
        SumRemove(rows, QuotaAt(vols), n);
        assert rows - {n} == before;
      } else {
        assert rows == before;
      }
    }
  }

  lemma {:induction false} ScopeAllocatedIsSum(vols: seq<Volume>, owner: Owner, ownerId: Id)
    ensures ScopeAllocated(vols, owner, ownerId) ==
            Sum(ScopeRows(vols, owner, ownerId), QuotaAt(vols))
    decreases |vols|
  {
    var rows := ScopeRows(vols, owner, ownerId);
    if vols == [] {
      assert rows == {};
    } else {
      var n := |vols| - 1;
      var front := vols[..n];
      ScopeAllocatedIsSum(front, owner, ownerId);
      var before := ScopeRows(front, owner, ownerId);
      SumAgree(before, QuotaAt(front), QuotaAt(vols));
      if InScope(vols[n], owner, ownerId) {
        SumRemove(rows, QuotaAt(vols), n);
        assert rows - {n} == before;
      } else {
        assert rows == before;
      }
    }
  }

  /** Within bounds: all live quotas within the pool, if it has a size, and those of each user and group within its
      limit, if that is set and not zero. */
  lemma FitsIff(vols: seq<Volume>, rules: Rules)
    ensures Fits(vols, rules) <==>
            && (rules.bound.Some? ==> Sum(LiveRows(vols), QuotaAt(vols)) <= rules.bound.value)
            && (forall owner, ownerId :: ScopeBounded(vols, rules, owner, ownerId))
  {
    AllocatedIsSum(vols);
    forall owner, ownerId ensures ScopeFits(vols, rules, owner, ownerId) <==> ScopeBounded(vols, rules, owner, ownerId) {
      ScopeAllocatedIsSum(vols, owner, ownerId);
    }
  }

  ghost predicate ScopeBounded(vols: seq<Volume>, rules: Rules, owner: Owner, ownerId: Id)
  {
    (owner == UserScope || owner == GroupScope) && (owner, ownerId) in rules.limits && rules.limits[(owner, ownerId)] > 0 ==>
      Sum(ScopeRows(vols, owner, ownerId), QuotaAt(vols))
      <= rules.limits[(owner, ownerId)]
  }

  /** What an accepted operation does to the table: one new live row, one larger quota, or one row no longer live. */
  lemma AcceptedEffect(vols: seq<Volume>, rules: Rules, op: Op)
    requires Answer(vols, rules, op).Ok?
    ensures
      var next := Next(vols, rules, op);
      match op
      case Create(id, owner, ownerId, quota) =>
        next == vols + [Volume(id, owner, if owner == GlobalScope then "global" else ownerId, quota, true)]
      case Grow(i, quota) =>
        && i < |vols| && vols[i].live && |next| == |vols|
        && forall k :: 0 <= k < |vols| ==> next[k] == if k == i then Volume(vols[k].id, vols[k].owner, vols[k].ownerId, quota, true) else vols[k]
      case Delete(i, confirm, mounted, force) =>
        && i < |vols| && vols[i].live && confirm == vols[i].id && (mounted ==> force) && |next| == |vols|
        && forall k :: 0 <= k < |vols| ==>
             next[k] == if k == i then Volume(vols[k].id, vols[k].owner, vols[k].ownerId, vols[k].quota, false) else vols[k]
  {
  }

  /** Why an operation is refused: a missing or deleted volume first, then its own checks, the pool before the
      scope's limit; and a refusal changes nothing. */
  lemma RefusalIs(vols: seq<Volume>, rules: Rules, op: Op)
    requires UniqueIds(vols)
    ensures !Answer(vols, rules, op).Ok? ==> Next(vols, rules, op) == vols
    ensures !op.Create? && !LiveAt(vols, op.at) ==> Answer(vols, rules, op) == Refused(NotFound)
    ensures op.Grow? && LiveAt(vols, op.at) ==> (Answer(vols, rules, op) == Refused(Shrink) <==> op.quota < vols[op.at].quota)
    ensures op.Create? || (op.Grow? && LiveAt(vols, op.at) && op.quota > vols[op.at].quota) ==>
              (Answer(vols, rules, op) == Refused(Capacity) <==> !PoolFits(Asked(vols, op), rules))
    ensures op.Delete? && LiveAt(vols, op.at) ==>
              (Answer(vols, rules, op) == Refused(Unconfirmed) <==> op.confirm != vols[op.at].id)
              && (Answer(vols, rules, op) == Refused(Mounted) <==> op.confirm == vols[op.at].id && op.mounted && !op.force)
  {
    match op {
      case Create(id, owner, ownerId, quota) =>
        var own := ScopeId(owner, ownerId);
        NobodySkipped(vols, owner, own);
        RowAdded(vols, Volume(id, owner, own, quota, true), owner, own);
      case Grow(i, quota) =>
        if LiveAt(vols, i) {
          RowReplaced(vols, i, vols[i].(quota := quota), vols[i].owner, vols[i].ownerId);
        }
      case Delete(_, _, _, _) =>
    }
  }

  // ---- runs ----

  function Play(vols: seq<Volume>, rules: Rules, ops: seq<Op>): seq<Volume>
    decreases |ops|
  {
    if ops == [] then vols else Play(Next(vols, rules, ops[0]), rules, ops[1..])
  }

  /** Fresh ids are new to the table they are created in. */
  predicate NewIds(vols: seq<Volume>, rules: Rules, ops: seq<Op>)
    decreases |ops|
  {
    ops == []
    || ((ops[0].Create? ==> forall i :: 0 <= i < |vols| ==> vols[i].id != ops[0].id)
        && NewIds(Next(vols, rules, ops[0]), rules, ops[1..]))
  }

  /** Rows stay in place, keep their identity and never lose quota, and a deleted one stays deleted. */
  predicate OnlyGrew(before: seq<Volume>, after: seq<Volume>)
  {
    |before| <= |after|
    && forall i :: 0 <= i < |before| ==>
         after[i].id == before[i].id && after[i].owner == before[i].owner && after[i].ownerId == before[i].ownerId
         && after[i].quota >= before[i].quota && (after[i].live ==> before[i].live)
  }

  /** Over every run of creations, growths and deletions the live quotas stay within the pool and within
      every scope's limit, and no volume's quota ever decreases. */
  lemma {:induction false} RunKeepsCapacity(vols: seq<Volume>, rules: Rules, ops: seq<Op>)
    requires UniqueIds(vols) && Fits(vols, rules) && NewIds(vols, rules, ops)
    ensures Fits(Play(vols, rules, ops), rules) && OnlyGrew(vols, Play(vols, rules, ops))
    decreases |ops|
  {
    if ops != [] {
      var op := ops[0];
      var next := Next(vols, rules, op);
      StepKeepsFits(vols, rules, op);
      RunKeepsCapacity(next, rules, ops[1..]);
    }
  }

  lemma StepKeepsFits(vols: seq<Volume>, rules: Rules, op: Op)
    requires UniqueIds(vols) && Fits(vols, rules)
    requires op.Create? ==> forall i :: 0 <= i < |vols| ==> vols[i].id != op.id
    ensures Fits(Next(vols, rules, op), rules) && UniqueIds(Next(vols, rules, op)) && OnlyGrew(vols, Next(vols, rules, op))
  {
    if Answer(vols, rules, op).Ok? {
      match op {
        case Create(_, _, _, _) => CreateAcceptedIff(vols, rules, op);
        case Grow(_, _) => GrowAcceptedIff(vols, rules, op);
        case Delete(_, _, _, _) => DeleteKeepsFits(vols, rules, op);
      }
    }
  }

  // ---- the table ----

  class VolumeTable {
    var vols: seq<Volume>

    constructor (vols: seq<Volume>)
      ensures this.vols == vols
    {
      this.vols := vols;
    }

    method CreateVolume(rules: Rules, id: Id, owner: Owner, ownerId: Id, quota: nat) returns (r: Result)
      modifies this
      ensures r == Answer(old(vols), rules, Create(id, owner, ownerId, quota))
      ensures vols == Next(old(vols), rules, Create(id, owner, ownerId, quota))
    {
      var own := if owner == GlobalScope then "global" else ownerId;
      r := CheckQuota(vols, rules, owner, own, quota, None);
      if r.Ok? {
        vols := vols + [Volume(id, owner, own, quota, true)];
      }
    }

    method UpdateQuota(rules: Rules, i: nat, quota: Option<nat>) returns (r: Result)
      modifies this
      ensures quota.None? ==> vols == old(vols) && r == if LiveAt(old(vols), i) then Ok else Refused(NotFound)
      ensures quota.Some? ==> r == Answer(old(vols), rules, Grow(i, quota.value))
      ensures quota.Some? ==> vols == Next(old(vols), rules, Grow(i, quota.value))
    {
      if i >= |vols| || !vols[i].live {
        return Refused(NotFound);
      }
      if quota.Some? && quota.value != vols[i].quota {
        if quota.value < vols[i].quota {
          return Refused(Shrink);
        }
        r := CheckQuota(vols, rules, vols[i].owner, vols[i].ownerId, quota.value, Some(vols[i].id));
        if !r.Ok? {
          return;
        }
        vols := vols[i := vols[i].(quota := quota.value)];
      }
      return Ok;
    }

    method DeleteVolume(rules: Rules, i: nat, confirm: Id, mounted: bool, force: bool) returns (r: Result)
      modifies this
      ensures r == Answer(old(vols), rules, Delete(i, confirm, mounted, force))
      ensures vols == Next(old(vols), rules, Delete(i, confirm, mounted, force))
    {
      if i >= |vols| || !vols[i].live {
        return Refused(NotFound);
      }
      if confirm != vols[i].id {
        return Refused(Unconfirmed);
      }
      if mounted && !force {
        return Refused(Mounted);
      }
      vols := vols[i := vols[i].(live := false)];
      return Ok;
    }
  }
}
