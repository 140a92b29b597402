/** Monthly grants: the ceiling on siblings, and setting one amount for a whole group at once
    against setting it wallet by wallet. */
module Grants {
  import opened Prelude
  import opened Sums
  import opened Ledger
  import opened Movers
  import opened Reservations

  // ---- whose ceiling applies ----

  datatype GrantScope = Scope(parent: Option<Id>, siblings: set<Id>) | Denied(error: Error)

  ghost function WalletsOwned(db: Db, ownerType: OwnerType, owners: set<Id>): set<Id>
  {
    set id | id in db.wallets && db.wallets[id].ownerType == ownerType && db.wallets[id].ownerId in owners
  }

  /** The members of a group who are not deleted. */
  ghost function MembersOf(h: Hierarchy, group: Id): set<Id>
  {
    set m | m in h.members && m.1 == group && m.0 !in h.deletedUsers :: m.0
  }

  /** The membership rows a caller may fund a user by. A row of an organization names no group, and only a system
      administrator's query does not filter by groups. */
  ghost function FundingRows(h: Hierarchy, caller: Principal, user: Id): set<Option<Id>>
  {
    (set m | m in h.members && m.0 == user && (caller.superAdmin || caller.Administers(m.1)) :: Some(m.1))
    + (if caller.superAdmin && (exists org :: (user, org) in h.orgStaff) then {None} else {})
  }

  /** `_grant_scope`. When a user can be funded by several rows the first one the query returns decides, which is
      `pick`. */
  ghost function ScopeOf(db: Db, h: Hierarchy, caller: Principal, id: Id, pick: Option<Id>): GrantScope
    requires id in db.wallets
  {
    var w := db.wallets[id];
    match w.ownerType
    case System => if caller.superAdmin then Scope(None, {}) else Denied(Forbidden)
    case Org =>
      if !caller.superAdmin then Denied(Forbidden)
      else Scope(WalletOf(db.wallets, System, "system"),
                 set o | o in db.wallets && db.wallets[o].ownerType == Org)
    case Group =>
      if w.ownerId !in h.groups then Denied(NotFound)
      else
        var org := h.groups[w.ownerId];
        if !caller.superAdmin && org !in caller.adminOrgs then Denied(Forbidden)
        else Scope(WalletOf(db.wallets, Org, org),
                   WalletsOwned(db, Group, set g | g in h.groups && h.groups[g] == org && g !in h.deletedGroups))
    case User =>
      var rows := FundingRows(h, caller, w.ownerId);
      if rows == {} then Denied(Forbidden)
      else
        var row := if pick in rows then pick else var x :| x in rows; x;
        if row.None? then Scope(None, {})
        else Scope(WalletOf(db.wallets, Group, row.value), WalletsOwned(db, User, MembersOf(h, row.value)))
  }

  // ---- setting one grant ----

  ghost function GrantOf(db: Db): Id -> int
  {
    (id: Id) => if id in db.wallets then db.wallets[id].grant else 0
  }

  function GrantKey(id: Id, nonce: string): string { "grant:" + id + ":" + nonce }

  /** Store the grant; an increase above the balance is credited at once. */
  function Granted(db: Db, id: Id, amount: int, nonce: string, at: int): Db
    requires id in db.wallets
  {
    var w := db.wallets[id].(grant := amount);
    if w.ownerType != System && amount > w.balance then
      Write(db, id, w.(balance := amount), Adjust, amount - w.balance, Some("monthly_grant"),
            GrantKey(id, nonce), at)
    else db.(wallets := db.wallets[id := w])
  }

  /** The siblings' grants with this one replaced stay within the parent's. */
  ghost predicate WithinCeiling(db: Db, id: Id, scope: GrantScope, amount: int)
    requires scope.Scope?
  {
    scope.parent.Some? && scope.parent.value in db.wallets ==>
      Sum(scope.siblings - {id}, GrantOf(db)) + amount <= db.wallets[scope.parent.value].grant
  }

  ghost function SetGrant(db: Db, id: Id, scope: GrantScope, amount: int, nonce: string, at: int): Outcome
  {
    if id !in db.wallets then Fail(NotFound)
    else if scope.Denied? then Fail(scope.error)
    else if !WithinCeiling(db, id, scope, amount) then Fail(Validation)
    else if HasKey(db.txns, GrantKey(id, nonce)) then Fail(Conflict)
    else Done(Granted(db, id, amount, nonce, at))
  }

  lemma GrantedKeeps(db: Db, id: Id, amount: int, nonce: string, at: int)
    requires LedgerOk(db) && id in db.wallets && amount >= 0
    requires !HasKey(db.txns, GrantKey(id, nonce))
    ensures LedgerOk(Granted(db, id, amount, nonce, at))
    ensures Plain(db, Granted(db, id, amount, nonce, at))
  {
    var w := db.wallets[id].(grant := amount);
    if w.ownerType != System && amount > w.balance {
      WriteKeepsLedger(db, id, w.(balance := amount), Adjust, amount - w.balance, Some("monthly_grant"),
                       GrantKey(id, nonce), at);
    } else {
      RegrantKeepsLedger(db, id, amount);
    }
  }

  /** The grant itself is no part of the ledger. */
  lemma RegrantKeepsLedger(db: Db, id: Id, amount: int)
    requires LedgerOk(db) && id in db.wallets
    ensures LedgerOk(db.(wallets := db.wallets[id := db.wallets[id].(grant := amount)]))
  {
    forall i | 0 <= i < |db.txns| ensures RowOk(db.txns, i) {
    }
  }

  // ---- a group's members ----

  /** A group wallet with the user wallets of its members below it. */
  ghost predicate Cohort(db: Db, pool: Id, members: set<Id>)
  {
    && pool in db.wallets && pool !in members && members <= db.wallets.Keys
    && (forall id :: id in members ==> db.wallets[id].ownerType == User)
  }

  ghost predicate NonceFresh(db: Db, members: set<Id>, nonce: string)
  {
    forall id :: id in members ==> !HasKey(db.txns, GrantKey(id, nonce))
  }

  ghost predicate Listing(order: seq<Id>, members: set<Id>)
  {
    && (forall i :: 0 <= i < |order| ==> order[i] in members)
    && (forall id :: id in members ==> id in order)
    && (forall i, j :: 0 <= i < j < |order| ==> order[i] != order[j])
  }

  /** `set_monthly_grant` called once for each wallet of the list. */
  ghost function SetEach(db: Db, order: seq<Id>, scope: GrantScope, amount: int, nonce: string, at: int): Outcome
    decreases |order|
  {
    if order == [] then Done(db)
    else match SetGrant(db, order[0], scope, amount, nonce, at)
         case Done(next) => SetEach(next, order[1..], scope, amount, nonce, at)
         case out => out
  }

  /** `bulk_monthly_grant` after its lookups: one ceiling check, then every wallet. */
  function GrantEach(db: Db, order: seq<Id>, amount: int, nonce: string, at: int): Outcome
    requires forall i :: 0 <= i < |order| ==> order[i] in db.wallets
    decreases |order|
  {
    if order == [] then Done(db)
    else if HasKey(db.txns, GrantKey(order[0], nonce)) then Fail(Conflict)
    else GrantEach(Granted(db, order[0], amount, nonce, at), order[1..], amount, nonce, at)
  }

  function BulkGrant(db: Db, pool: Id, order: seq<Id>, amount: int, nonce: string, at: int): Outcome
    requires pool in db.wallets
    requires forall i :: 0 <= i < |order| ==> order[i] in db.wallets
  {
    if order == [] then Fail(Validation)
    else if amount * |order| > db.wallets[pool].grant then Fail(Validation)
    else GrantEach(db, order, amount, nonce, at)
  }

  lemma GrantKeysDiffer(a: Id, b: Id, nonce: string)
    ensures GrantKey(a, nonce) == GrantKey(b, nonce) ==> a == b
  {
    assert GrantKey(a, nonce)[6..6 + |a|] == a && GrantKey(b, nonce)[6..6 + |b|] == b;
  }

  /** What one more grant does to the rest of the cohort. */
  lemma GrantedOthers(db: Db, pool: Id, members: set<Id>, id: Id, amount: int, nonce: string, at: int)
    requires Cohort(db, pool, members) && id in members && NonceFresh(db, members, nonce)
    ensures
      var next := Granted(db, id, amount, nonce, at);
      && Cohort(next, pool, members)
      && NonceFresh(next, members - {id}, nonce)
      && next.wallets[pool] == db.wallets[pool]
      && Sum(members, GrantOf(next)) == Sum(members, GrantOf(db)) - db.wallets[id].grant + amount
  {
    var next := Granted(db, id, amount, nonce, at);
    SumUpdate(members, GrantOf(db), GrantOf(next), id);
    if |next.txns| > |db.txns| {
      forall other | other in members && other != id ensures !HasKey(next.txns, GrantKey(other, nonce)) {
        GrantKeysDiffer(id, other, nonce);
        HasKeyAppend(db.txns, next.txns[|db.txns|], GrantKey(other, nonce));
      }
    }
  }

  lemma CeilingIsSum(db: Db, pool: Id, members: set<Id>, id: Id, amount: int)
    requires Cohort(db, pool, members) && id in members
    ensures WithinCeiling(db, id, Scope(Some(pool), members), amount) <==>
            Sum(members, GrantOf(db)) - db.wallets[id].grant + amount <= db.wallets[pool].grant
  {
    SumRemove(members, GrantOf(db), id);
  }

  // ---- the final state is the same either way ----

  function AfterGrant(w: Wallet, amount: int): Wallet
  {
    w.(grant := amount, balance := Max(w.balance, amount))
  }

  ghost predicate GrantsReach(db: Db, db': Db, done: set<Id>, amount: int)
  {
    && db'.wallets.Keys == db.wallets.Keys
    && (forall id :: id in db.wallets ==>
          db'.wallets[id] == if id in done then AfterGrant(db.wallets[id], amount) else db.wallets[id])
  }

  lemma {:induction false} SetEachReaches(db: Db, pool: Id, members: set<Id>, order: seq<Id>, amount: int, nonce: string, at: int)
    requires Cohort(db, pool, members)
    requires forall i :: 0 <= i < |order| ==> order[i] in members
    requires forall i, j :: 0 <= i < j < |order| ==> order[i] != order[j]
    requires SetEach(db, order, Scope(Some(pool), members), amount, nonce, at).Done?
    ensures GrantsReach(db, SetEach(db, order, Scope(Some(pool), members), amount, nonce, at).db, Elements(order), amount)
    decreases |order|
  {
    if order != [] {
      var id, tail := order[0], order[1..];
      var next := Granted(db, id, amount, nonce, at);
      assert order == [id] + tail;
      SetEachReaches(next, pool, members, tail, amount, nonce, at);
    }
  }

  lemma {:induction false} GrantEachReaches(db: Db, pool: Id, members: set<Id>, order: seq<Id>, amount: int, nonce: string, at: int)
    requires Cohort(db, pool, members) && NonceFresh(db, Elements(order), nonce)
    requires forall i :: 0 <= i < |order| ==> order[i] in members
    requires forall i, j :: 0 <= i < j < |order| ==> order[i] != order[j]
    ensures
      var out := GrantEach(db, order, amount, nonce, at);
      out.Done? && GrantsReach(db, out.db, Elements(order), amount)
    decreases |order|
  {
    if order != [] {
      var id, tail := order[0], order[1..];
      var next := Granted(db, id, amount, nonce, at);
      assert order == [id] + tail;
      assert Elements(order) - {id} == Elements(tail);
      GrantKept(db, pool, members, order, id, amount, nonce, at);
      GrantEachReaches(next, pool, members, tail, amount, nonce, at);
    }
  }

  // ---- bulk succeeds exactly when some order of single calls does ----

  /** Every wallet is either already at the amount or still to be set, and after some point of the
      list only increases are left. */
  ghost predicate DecreasesFirst(db: Db, members: set<Id>, order: seq<Id>, split: nat, amount: int)
  {
    && (forall id :: id in members ==> id in db.wallets)
    && (forall id :: id in members && id !in order ==> db.wallets[id].grant == amount)
    && (forall i :: 0 <= i < |order| ==> order[i] in members)
    && (forall i :: 0 <= i < split && i < |order| ==> db.wallets[order[i]].grant >= amount)
    && (forall i :: split <= i < |order| ==> db.wallets[order[i]].grant <= amount)
  }

  lemma StepStaysBelow(db: Db, pool: Id, members: set<Id>, order: seq<Id>, split: nat, amount: int)
    requires Cohort(db, pool, members) && order != [] && DecreasesFirst(db, members, order, split, amount)
    requires Sum(members, GrantOf(db)) <= db.wallets[pool].grant
    requires amount * |members| <= db.wallets[pool].grant
    ensures Sum(members, GrantOf(db)) - db.wallets[order[0]].grant + amount <= db.wallets[pool].grant
  {
    if split == 0 {
      var id := order[0];
      SumRemove(members, GrantOf(db), id);
      var flat := (x: Id) => amount;
      forall x | x in members - {id} ensures GrantOf(db)(x) <= flat(x) {
        if x in order {
          var i :| 0 <= i < |order| && order[i] == x;
        }
      }
      SumBounds(members - {id}, GrantOf(db), flat);
      SumRemove(members, flat, id);
      SumConstant(members, flat, amount);
    }
  }

  lemma NextDecreasesFirst(db: Db, pool: Id, members: set<Id>, order: seq<Id>, split: nat,
                           amount: int, nonce: string, at: int)
    requires Cohort(db, pool, members) && NonceFresh(db, Elements(order), nonce) && order != []
    requires forall i, j :: 0 <= i < j < |order| ==> order[i] != order[j]
    requires DecreasesFirst(db, members, order, split, amount)
    ensures DecreasesFirst(Granted(db, order[0], amount, nonce, at), members, order[1..],
                           if split == 0 then 0 else split - 1, amount)
  {
    var id, tail := order[0], order[1..];
    GrantKept(db, pool, members, order, id, amount, nonce, at);
    assert order == [id] + tail;
    assert forall i :: 0 <= i < |tail| ==> tail[i] == order[i + 1] && tail[i] != id;
  }

  lemma {:induction false} SetEachSucceeds(db: Db, pool: Id, members: set<Id>, order: seq<Id>, split: nat,
                                           amount: int, nonce: string, at: int)
    requires Cohort(db, pool, members) && NonceFresh(db, Elements(order), nonce)
    requires forall i, j :: 0 <= i < j < |order| ==> order[i] != order[j]
    requires DecreasesFirst(db, members, order, split, amount)
    requires Sum(members, GrantOf(db)) <= db.wallets[pool].grant
    requires amount * |members| <= db.wallets[pool].grant
    ensures SetEach(db, order, Scope(Some(pool), members), amount, nonce, at).Done?
    decreases |order|
  {
    if order != [] {
      var id, tail := order[0], order[1..];
      StepStaysBelow(db, pool, members, order, split, amount);
      CeilingIsSum(db, pool, members, id, amount);
      GrantKept(db, pool, members, order, id, amount, nonce, at);
      NextDecreasesFirst(db, pool, members, order, split, amount, nonce, at);
      assert Elements(tail) <= Elements(order) - {id};
      SetEachSucceeds(Granted(db, id, amount, nonce, at), pool, members, tail,
                      if split == 0 then 0 else split - 1, amount, nonce, at);
    }
  }

  lemma GrantKept(db: Db, pool: Id, members: set<Id>, order: seq<Id>, id: Id, amount: int, nonce: string, at: int)
    requires Cohort(db, pool, members) && id in members && id in order
    requires NonceFresh(db, Elements(order), nonce)
    requires forall i :: 0 <= i < |order| ==> order[i] in members
    ensures
      var next := Granted(db, id, amount, nonce, at);
      && Cohort(next, pool, members)
      && NonceFresh(next, Elements(order) - {id}, nonce)
      && next.wallets[pool] == db.wallets[pool]
      && (forall x :: x in members && x != id ==> next.wallets[x] == db.wallets[x])
      && next.wallets[id].grant == amount
      && Sum(members, GrantOf(next)) == Sum(members, GrantOf(db)) - db.wallets[id].grant + amount
  {
    var next := Granted(db, id, amount, nonce, at);
    SumUpdate(members, GrantOf(db), GrantOf(next), id);
    GrantedOthers(db, pool, Elements(order), id, amount, nonce, at);
  }

  lemma {:induction false} ListSet(s: set<Id>) returns (order: seq<Id>)
    ensures Listing(order, s) && |order| == |s|
    decreases s
  {
    if s == {} {
      return [];
    }
    var x :| x in s;
    var rest := ListSet(s - {x});
    order := [x] + rest;
  }

  lemma ListingTail(order: seq<Id>, s: set<Id>)
    requires Listing(order, s) && order != []
    ensures Listing(order[1..], s - {order[0]})
  {
    var tail := order[1..];
    assert order == [order[0]] + tail;
    assert forall i :: 0 <= i < |tail| ==> tail[i] == order[i + 1];
  }

  /** The last call sees every sibling already at the amount. */
  lemma LastCallPassesBulk(db: Db, pool: Id, members: set<Id>, id: Id, amount: int)
    requires Cohort(db, pool, members) && id in members
    requires forall x :: x in members && x != id ==> db.wallets[x].grant == amount
    requires WithinCeiling(db, id, Scope(Some(pool), members), amount)
    ensures amount * |members| <= db.wallets[pool].grant
  {
    SumConstant(members - {id}, GrantOf(db), amount);
    assert |members - {id}| == |members| - 1;
    OneMoreMember(amount, |members| - 1);
  }

  /** Any successful order of single calls passes the bulk ceiling. */
  lemma {:induction false} SomeOrderPassesBulk(db: Db, pool: Id, members: set<Id>, order: seq<Id>, done: set<Id>,
                                               amount: int, nonce: string, at: int)
    requires Cohort(db, pool, members) && order != []
    requires Listing(order, members - done)
    requires forall id :: id in members && id in done ==> db.wallets[id].grant == amount
    requires SetEach(db, order, Scope(Some(pool), members), amount, nonce, at).Done?
    ensures amount * |members| <= db.wallets[pool].grant
    decreases |order|
  {
    var id, tail := order[0], order[1..];
    ListingTail(order, members - done);
    assert members - done - {id} == members - (done + {id});
    if tail == [] {
      forall x | x in members && x != id ensures db.wallets[x].grant == amount {
        assert x in members - (done + {id}) ==> x in tail;
      }
      LastCallPassesBulk(db, pool, members, id, amount);
    } else {
      SomeOrderPassesBulk(Granted(db, id, amount, nonce, at), pool, members, tail, done + {id}, amount, nonce, at);
    }
  }

  lemma OneMoreMember(amount: int, n: int)
    ensures amount * (n + 1) == amount * n + amount
  {
  }

  /** The decreases first, then the increases. */
  lemma DecreasesThenIncreases(db: Db, members: set<Id>, amount: int) returns (order: seq<Id>, split: nat)
    requires members <= db.wallets.Keys
    ensures Listing(order, members) && DecreasesFirst(db, members, order, split, amount)
  {
    var down := set id | id in members && db.wallets[id].grant >= amount;
    var first := ListSet(down);
    var second := ListSet(members - down);
    order, split := first + second, |first|;
    forall id | id in members ensures id in order {
      if id in down {
        assert id in first;
      } else {
        assert id in second;
      }
    }
  }

  lemma ReachSame(db: Db, a: Db, b: Db, done: set<Id>, amount: int)
    requires GrantsReach(db, a, done, amount) && GrantsReach(db, b, done, amount)
    ensures a.wallets == b.wallets
  {
  }

  lemma OrderMatchesBulk(db: Db, pool: Id, members: set<Id>, listed: seq<Id>, order: seq<Id>,
                         amount: int, nonce: string, at: int)
    requires Cohort(db, pool, members) && Listing(listed, members) && listed != []
    requires NonceFresh(db, members, nonce) && |listed| == |members|
    requires Listing(order, members)
    requires SetEach(db, order, Scope(Some(pool), members), amount, nonce, at).Done?
    ensures BulkGrant(db, pool, listed, amount, nonce, at).Done?
    ensures SetEach(db, order, Scope(Some(pool), members), amount, nonce, at).db.wallets ==
            BulkGrant(db, pool, listed, amount, nonce, at).db.wallets
  {
    assert listed[0] in order;
    assert members - {} == members && Elements(listed) == members && Elements(order) == members;
    SomeOrderPassesBulk(db, pool, members, order, {}, amount, nonce, at);
    SetEachReaches(db, pool, members, order, amount, nonce, at);
    GrantEachReaches(db, pool, members, listed, amount, nonce, at);
    ReachSame(db, SetEach(db, order, Scope(Some(pool), members), amount, nonce, at).db,
              GrantEach(db, listed, amount, nonce, at).db, members, amount);
  }

  lemma BulkHasAnOrder(db: Db, pool: Id, members: set<Id>, listed: seq<Id>,
                       amount: int, nonce: string, at: int) returns (order: seq<Id>)
    requires Cohort(db, pool, members) && Listing(listed, members)
    requires NonceFresh(db, members, nonce) && |listed| == |members|
    requires Sum(members, GrantOf(db)) <= db.wallets[pool].grant
    requires BulkGrant(db, pool, listed, amount, nonce, at).Done?
    ensures Listing(order, members) && SetEach(db, order, Scope(Some(pool), members), amount, nonce, at).Done?
  {
    var split;
    order, split := DecreasesThenIncreases(db, members, amount);
    assert Elements(order) == members;
    SetEachSucceeds(db, pool, members, order, split, amount, nonce, at);
  }

  ghost predicate SinglesSucceed(db: Db, pool: Id, members: set<Id>, order: seq<Id>, amount: int, nonce: string, at: int)
  {
    Listing(order, members) && SetEach(db, order, Scope(Some(pool), members), amount, nonce, at).Done?
  }

  /** The same, with the single calls' parent and siblings given. */
  lemma BulkMatchesFixedScope(db: Db, pool: Id, members: set<Id>, listed: seq<Id>, amount: int, nonce: string, at: int)
    requires Cohort(db, pool, members) && Listing(listed, members) && listed != []
    requires NonceFresh(db, members, nonce) && |listed| == |members|
    requires Sum(members, GrantOf(db)) <= db.wallets[pool].grant
    ensures BulkGrant(db, pool, listed, amount, nonce, at).Done? <==>
            exists order :: SinglesSucceed(db, pool, members, order, amount, nonce, at)
    ensures forall order :: SinglesSucceed(db, pool, members, order, amount, nonce, at) ==>
              SetEach(db, order, Scope(Some(pool), members), amount, nonce, at).db.wallets ==
              BulkGrant(db, pool, listed, amount, nonce, at).After(db).wallets
  {
    forall order | SinglesSucceed(db, pool, members, order, amount, nonce, at)
      ensures BulkGrant(db, pool, listed, amount, nonce, at).Done?
      ensures SetEach(db, order, Scope(Some(pool), members), amount, nonce, at).db.wallets ==
              BulkGrant(db, pool, listed, amount, nonce, at).After(db).wallets
    {
      OrderMatchesBulk(db, pool, members, listed, order, amount, nonce, at);
    }
    if BulkGrant(db, pool, listed, amount, nonce, at).Done? {
      var order := BulkHasAnOrder(db, pool, members, listed, amount, nonce, at);
      assert SinglesSucceed(db, pool, members, order, amount, nonce, at);
    }
  }

  // ---- what the single calls use is what the bulk call uses ----

  /** The only row the caller may fund a user by. */
  ghost predicate OnlyRow(h: Hierarchy, caller: Principal, user: Id, group: Id)
  {
    && (forall g :: (user, g) in h.members <==> g == group)
    && (caller.superAdmin ==> forall org :: (user, org) !in h.orgStaff)
  }

  lemma OneFundingRow(h: Hierarchy, caller: Principal, user: Id, group: Id)
    requires OnlyRow(h, caller, user, group) && (caller.superAdmin || caller.Administers(group))
    ensures FundingRows(h, caller, user) == {Some(group)}
  {
    assert (user, group) in h.members;
    forall row | row in FundingRows(h, caller, user) ensures row == Some(group) {
      var m :| m in h.members && m.0 == user && row == Some(m.1);
      assert m == (user, m.1);
    }
    assert Some((user, group).1) in FundingRows(h, caller, user);
  }

  /** A member of exactly one group is checked against that group's wallet and its members. */
  lemma OneGroupScope(db: Db, h: Hierarchy, caller: Principal, id: Id, group: Id, pool: Id, pick: Option<Id>)
    requires id in db.wallets && db.wallets[id].ownerType == User
    requires OnlyRow(h, caller, db.wallets[id].ownerId, group)
    requires caller.superAdmin || caller.Administers(group)
    requires OwnersUnique(db.wallets) && Owns(db.wallets, pool, Group, group)
    ensures ScopeOf(db, h, caller, id, pick) == Scope(Some(pool), WalletsOwned(db, User, MembersOf(h, group)))
  {
    OneFundingRow(h, caller, db.wallets[id].ownerId, group);
    assert WalletOf(db.wallets, Group, group) == Some(pool);
  }

  /** Single calls one after the other, each working out whose ceiling applies. */
  ghost function CallEach(db: Db, h: Hierarchy, caller: Principal, order: seq<Id>, pick: Option<Id>, amount: int, nonce: string, at: int): Outcome
    decreases |order|
  {
    if order == [] then Done(db)
    else if order[0] !in db.wallets then Fail(NotFound)
    else match SetGrant(db, order[0], ScopeOf(db, h, caller, order[0], pick), amount, nonce, at)
         case Done(next) => CallEach(next, h, caller, order[1..], pick, amount, nonce, at)
         case out => out
  }

  /** The group's wallet and its members', every member in this group only. */
  ghost predicate OneGroupEach(db: Db, h: Hierarchy, caller: Principal, group: Id, pool: Id, members: set<Id>)
  {
    && OwnersUnique(db.wallets) && Owns(db.wallets, pool, Group, group)
    && members == WalletsOwned(db, User, MembersOf(h, group))
    && (forall u :: u in MembersOf(h, group) ==> OnlyRow(h, caller, u, group))
  }

  lemma OneGroupCohort(db: Db, h: Hierarchy, caller: Principal, group: Id, pool: Id, members: set<Id>)
    requires OneGroupEach(db, h, caller, group, pool, members)
    ensures Cohort(db, pool, members)
  {
  }

  /** Setting a grant changes no owner, so the ceiling that applies to the others stays the same. */
  lemma GrantedKeepsScope(db: Db, h: Hierarchy, caller: Principal, group: Id, pool: Id, members: set<Id>, id: Id, amount: int, nonce: string, at: int)
    requires OneGroupEach(db, h, caller, group, pool, members) && id in db.wallets
    ensures OneGroupEach(Granted(db, id, amount, nonce, at), h, caller, group, pool, members)
  {
    var next := Granted(db, id, amount, nonce, at);
    assert next.wallets.Keys == db.wallets.Keys;
    assert forall x :: x in db.wallets ==>
        next.wallets[x].ownerType == db.wallets[x].ownerType && next.wallets[x].ownerId == db.wallets[x].ownerId;
    assert WalletsOwned(next, User, MembersOf(h, group)) == WalletsOwned(db, User, MembersOf(h, group));
  }

  lemma MemberScope(db: Db, h: Hierarchy, caller: Principal, id: Id, group: Id, pool: Id, members: set<Id>, pick: Option<Id>)
    requires OneGroupEach(db, h, caller, group, pool, members) && id in members
    requires caller.superAdmin || caller.Administers(group)
    ensures id in db.wallets && ScopeOf(db, h, caller, id, pick) == Scope(Some(pool), members)
  {
    assert db.wallets[id].ownerId in MembersOf(h, group);
    OneGroupScope(db, h, caller, id, group, pool, pick);
  }

  /** So the calls run as if parent and siblings were given. */
  lemma {:induction false} CallsUseOneScope(db: Db, h: Hierarchy, caller: Principal, group: Id, pool: Id, members: set<Id>,
                                            order: seq<Id>, pick: Option<Id>, amount: int, nonce: string, at: int)
    requires OneGroupEach(db, h, caller, group, pool, members) && (caller.superAdmin || caller.Administers(group))
    requires forall i :: 0 <= i < |order| ==> order[i] in members
    ensures CallEach(db, h, caller, order, pick, amount, nonce, at) ==
            SetEach(db, order, Scope(Some(pool), members), amount, nonce, at)
    decreases |order|
  {
    if order != [] {
      MemberScope(db, h, caller, order[0], group, pool, members, pick);
      if SetGrant(db, order[0], Scope(Some(pool), members), amount, nonce, at).Done? {
        GrantedKeepsScope(db, h, caller, group, pool, members, order[0], amount, nonce, at);
        CallsUseOneScope(Granted(db, order[0], amount, nonce, at), h, caller, group, pool, members, order[1..],
                         pick, amount, nonce, at);
      }
    }
  }

  ghost predicate CallsSucceed(db: Db, h: Hierarchy, caller: Principal, members: set<Id>, order: seq<Id>, pick: Option<Id>,
                               amount: int, nonce: string, at: int)
  {
    Listing(order, members) && CallEach(db, h, caller, order, pick, amount, nonce, at).Done?
  }

  /** Starting from grants within the group's own, with every member in this group only, the bulk call succeeds
      exactly when some order of single calls does, the decreases-first order always being one, and every such
      order leaves the wallets the bulk call leaves: its one check stands for all the single ones. */
  lemma BulkMatchesSingles(db: Db, h: Hierarchy, caller: Principal, group: Id, pool: Id, members: set<Id>, listed: seq<Id>,
                           pick: Option<Id>, amount: int, nonce: string, at: int)
    requires OneGroupEach(db, h, caller, group, pool, members) && (caller.superAdmin || caller.Administers(group))
    requires Listing(listed, members) && |listed| == |members| && listed != []
    requires NonceFresh(db, members, nonce)
    requires pool in db.wallets && Sum(members, GrantOf(db)) <= db.wallets[pool].grant
    requires forall i :: 0 <= i < |listed| ==> listed[i] in db.wallets
    ensures BulkGrant(db, pool, listed, amount, nonce, at).Done? <==>
            exists order :: CallsSucceed(db, h, caller, members, order, pick, amount, nonce, at)
    ensures forall order :: CallsSucceed(db, h, caller, members, order, pick, amount, nonce, at) ==>
              CallEach(db, h, caller, order, pick, amount, nonce, at).db.wallets ==
              BulkGrant(db, pool, listed, amount, nonce, at).After(db).wallets
  {
    OneGroupCohort(db, h, caller, group, pool, members);
    forall order | Listing(order, members)
      ensures CallEach(db, h, caller, order, pick, amount, nonce, at) ==
              SetEach(db, order, Scope(Some(pool), members), amount, nonce, at)
      ensures CallsSucceed(db, h, caller, members, order, pick, amount, nonce, at) <==>
              SinglesSucceed(db, pool, members, order, amount, nonce, at)
    {
      CallsUseOneScope(db, h, caller, group, pool, members, order, pick, amount, nonce, at);
    }
    BulkMatchesFixedScope(db, pool, members, listed, amount, nonce, at);
    if BulkGrant(db, pool, listed, amount, nonce, at).Done? {
      var order :| SinglesSucceed(db, pool, members, order, amount, nonce, at);
      assert CallsSucceed(db, h, caller, members, order, pick, amount, nonce, at);
    }
    if order :| CallsSucceed(db, h, caller, members, order, pick, amount, nonce, at) {
      assert SinglesSucceed(db, pool, members, order, amount, nonce, at);
    }
  }

  lemma {:induction false} GrantEachKeeps(db: Db, order: seq<Id>, amount: int, nonce: string, at: int)
    requires LedgerOk(db) && amount >= 0
    requires forall i :: 0 <= i < |order| ==> order[i] in db.wallets
    ensures
      var db' := GrantEach(db, order, amount, nonce, at).After(db);
      LedgerOk(db') && Plain(db, db')
    decreases |order|
  {
    if order != [] && !HasKey(db.txns, GrantKey(order[0], nonce)) {
      var next := Granted(db, order[0], amount, nonce, at);
      GrantedKeeps(db, order[0], amount, nonce, at);
      GrantEachKeeps(next, order[1..], amount, nonce, at);
      var out := GrantEach(db, order, amount, nonce, at);
      if out.Done? {
        assert forall i :: |db.txns| <= i < |next.txns| ==> out.db.txns[i] == next.txns[i];
      }
    }
  }
}
