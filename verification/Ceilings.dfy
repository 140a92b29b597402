/** Who may set a monthly grant, and within what: one statement per kind of wallet, on the tables themselves. */
module Ceilings {
  import opened Prelude
  import opened Sums
  import opened Ledger
  import opened Movers
  import opened Grants

  ghost function GrantsOf(wallets: map<Id, Wallet>): Id -> int
  {
    (id: Id) => if id in wallets then wallets[id].grant else 0
  }

  /** With the given siblings at their grants and this one at the amount, the parent's grant holds. */
  ghost predicate Fits(wallets: map<Id, Wallet>, others: set<Id>, amount: int, parentType: OwnerType, parent: Id)
  {
    forall p :: p in wallets && wallets[p].ownerType == parentType && wallets[p].ownerId == parent ==>
      Sum(others, GrantsOf(wallets)) + amount <= wallets[p].grant
  }

  /** `set_monthly_grant` on one wallet. */
  ghost function SetMonthlyGrant(db: Db, h: Hierarchy, caller: Principal, id: Id, pick: Option<Id>, amount: int,
                                 nonce: string, at: int): Outcome
  {
    if id !in db.wallets then Fail(NotFound)
    else SetGrant(db, id, ScopeOf(db, h, caller, id, pick), amount, nonce, at)
  }

  /** The ceiling of a parent found by its owner. */
  lemma CeilingIff(db: Db, id: Id, parentType: OwnerType, parent: Id, siblings: set<Id>, amount: int)
    requires OwnersUnique(db.wallets)
    ensures WithinCeiling(db, id, Scope(WalletOf(db.wallets, parentType, parent), siblings), amount) <==>
            Fits(db.wallets, siblings - {id}, amount, parentType, parent)
  {
    SumAgree(siblings - {id}, GrantOf(db), GrantsOf(db.wallets));
    var found := WalletOf(db.wallets, parentType, parent);
    if found.Some? {
      assert Owns(db.wallets, found.value, parentType, parent);
    } else {
      forall p | p in db.wallets ensures !(db.wallets[p].ownerType == parentType && db.wallets[p].ownerId == parent) {
        assert !Owns(db.wallets, p, parentType, parent);
      }
    }
  }

  /** A grant that is set is credited at once as far as it exceeds the balance, except in the system's wallet;
      no other wallet changes. */
  lemma GrantEffect(db: Db, h: Hierarchy, caller: Principal, id: Id, pick: Option<Id>, amount: int, nonce: string, at: int)
    requires SetMonthlyGrant(db, h, caller, id, pick, amount, nonce, at).Done?
    ensures id in db.wallets
    ensures
      var w, after := db.wallets[id], SetMonthlyGrant(db, h, caller, id, pick, amount, nonce, at).db;
      && after.wallets == db.wallets[id := w.(grant := amount,
                                              balance := if w.ownerType == System then w.balance else Max(w.balance, amount))]
      && after.txns == db.txns + if w.ownerType == System || amount <= w.balance then []
                                 else [Txn(id, Adjust, amount - w.balance, amount, Some("monthly_grant"),
                                           "grant:" + id + ":" + nonce, at)]
  {
  }

  /** The random part of the key is new. */
  predicate Unused(db: Db, id: Id, nonce: string)
  {
    forall i :: 0 <= i < |db.txns| ==> db.txns[i].key != "grant:" + id + ":" + nonce
  }

  /** The system's total: set by a system administrator, without a ceiling. */
  lemma SystemGrantIff(db: Db, h: Hierarchy, caller: Principal, id: Id, pick: Option<Id>, amount: int, nonce: string, at: int)
    requires id in db.wallets && db.wallets[id].ownerType == System && Unused(db, id, nonce)
    ensures
      var out := SetMonthlyGrant(db, h, caller, id, pick, amount, nonce, at);
      (out.Done? <==> caller.superAdmin) && (!caller.superAdmin ==> out == Fail(Forbidden))
  {
  }

  /** An organization's: set by a system administrator, all organizations together within the system's total. */
  lemma OrgGrantIff(db: Db, h: Hierarchy, caller: Principal, id: Id, pick: Option<Id>, amount: int, nonce: string, at: int)
    requires OwnersUnique(db.wallets)
    requires id in db.wallets && db.wallets[id].ownerType == Org && Unused(db, id, nonce)
    ensures
      var others := set o | o in db.wallets && o != id && db.wallets[o].ownerType == Org;
      var fits := Fits(db.wallets, others, amount, System, "system");
      SetMonthlyGrant(db, h, caller, id, pick, amount, nonce, at) ==
      if !caller.superAdmin then Fail(Forbidden)
      else if !fits then Fail(Validation)
      else Done(Granted(db, id, amount, nonce, at))
  {
    var all := set o | o in db.wallets && db.wallets[o].ownerType == Org;
    CeilingIff(db, id, System, "system", all, amount);
    assert all - {id} == set o | o in db.wallets && o != id && db.wallets[o].ownerType == Org;
  }

  /** A group's: set by whoever administers its organization, with the organization's other groups that are not
      deleted within the organization's grant. */
  lemma GroupGrantIff(db: Db, h: Hierarchy, caller: Principal, id: Id, pick: Option<Id>, amount: int, nonce: string, at: int)
    requires OwnersUnique(db.wallets)
    requires id in db.wallets && db.wallets[id].ownerType == Group && Unused(db, id, nonce)
    ensures
      var group := db.wallets[id].ownerId;
      var out := SetMonthlyGrant(db, h, caller, id, pick, amount, nonce, at);
      if group !in h.groups then out == Fail(NotFound)
      else
        var org := h.groups[group];
        var others := set o | o in db.wallets && o != id && db.wallets[o].ownerType == Group
                            && db.wallets[o].ownerId in h.groups && h.groups[db.wallets[o].ownerId] == org
                            && db.wallets[o].ownerId !in h.deletedGroups;
        out == if !caller.superAdmin && org !in caller.adminOrgs then Fail(Forbidden)
               else if !Fits(db.wallets, others, amount, Org, org) then Fail(Validation)
               else Done(Granted(db, id, amount, nonce, at))
  {
    var group := db.wallets[id].ownerId;
    if group in h.groups {
      var org := h.groups[group];
      var siblings := WalletsOwned(db, Group, set g | g in h.groups && h.groups[g] == org && g !in h.deletedGroups);
      CeilingIff(db, id, Org, org, siblings, amount);
      assert siblings - {id} == set o | o in db.wallets && o != id && db.wallets[o].ownerType == Group
                                      && db.wallets[o].ownerId in h.groups && h.groups[db.wallets[o].ownerId] == org
                                      && db.wallets[o].ownerId !in h.deletedGroups;
    }
  }

  /** The user wallets of a group's other members who are not deleted. */
  ghost function OtherMembers(db: Db, h: Hierarchy, id: Id, group: Id): set<Id>
  {
    set o | o in db.wallets && o != id && db.wallets[o].ownerType == User
          && (db.wallets[o].ownerId, group) in h.members && db.wallets[o].ownerId !in h.deletedUsers
  }

  /** A row the caller may fund the user by: a group they administer, any row at all for a system administrator. */
  ghost predicate MayFund(h: Hierarchy, caller: Principal, user: Id, row: Option<Id>)
  {
    match row
    case Some(group) => (user, group) in h.members && (caller.superAdmin || caller.Administers(group))
    case None => caller.superAdmin && exists org :: (user, org) in h.orgStaff
  }

  lemma FundingRowsIff(h: Hierarchy, caller: Principal, user: Id, row: Option<Id>)
    ensures row in FundingRows(h, caller, user) <==> MayFund(h, caller, user, row)
  {
    if row.Some? && MayFund(h, caller, user, row) {
      assert (user, row.value) in h.members && Some((user, row.value).1) == row;
    }
    if row.Some? && row in FundingRows(h, caller, user) {
      var m :| m in h.members && m.0 == user && row == Some(m.1) && (caller.superAdmin || caller.Administers(m.1));
      assert m == (user, m.1);
    }
  }

  lemma OtherMembersAre(db: Db, h: Hierarchy, id: Id, group: Id)
    ensures WalletsOwned(db, User, MembersOf(h, group)) - {id} == OtherMembers(db, h, id, group)
  {
    forall o | o in OtherMembers(db, h, id, group) ensures db.wallets[o].ownerId in MembersOf(h, group) {
      assert (db.wallets[o].ownerId, group).0 in MembersOf(h, group);
    }
    forall o | o in WalletsOwned(db, User, MembersOf(h, group)) - {id} ensures o in OtherMembers(db, h, id, group) {
      var m :| m in h.members && m.1 == group && m.0 == db.wallets[o].ownerId;
      assert m == (db.wallets[o].ownerId, group);
    }
  }

  /** A member's: set by whoever may fund them, with the group's other members within the group's grant. A system
      administrator may also reach them by an appointment at an organization, which brings no ceiling. */
  lemma MemberGrantIff(db: Db, h: Hierarchy, caller: Principal, id: Id, pick: Option<Id>, amount: int, nonce: string, at: int)
    requires OwnersUnique(db.wallets)
    requires id in db.wallets && db.wallets[id].ownerType == User && Unused(db, id, nonce)
    ensures
      var user := db.wallets[id].ownerId;
      var out := SetMonthlyGrant(db, h, caller, id, pick, amount, nonce, at);
      && (out == Fail(Forbidden) <==> forall row :: !MayFund(h, caller, user, row))
      && (MayFund(h, caller, user, pick) ==>
            out == if pick.Some? && !Fits(db.wallets, OtherMembers(db, h, id, pick.value), amount, Group, pick.value)
                   then Fail(Validation)
                   else Done(Granted(db, id, amount, nonce, at)))
  {
    var user := db.wallets[id].ownerId;
    var rows := FundingRows(h, caller, user);
    forall row ensures row in rows <==> MayFund(h, caller, user, row) {
      FundingRowsIff(h, caller, user, row);
    }
    if pick in rows && pick.Some? {
      CeilingIff(db, id, Group, pick.value, WalletsOwned(db, User, MembersOf(h, pick.value)), amount);
      OtherMembersAre(db, h, id, pick.value);
    }
    if rows != {} {
      var row :| row in rows;
      assert MayFund(h, caller, user, row);
    }
  }

  /** The bulk call: refused for a group without member wallets and above the group's own grant; otherwise every
      member's grant is the amount, their balance raised to it, and nobody else's wallet changes. */
  lemma BulkGrantIff(db: Db, pool: Id, listed: seq<Id>, amount: int, nonce: string, at: int)
    requires pool in db.wallets && pool !in listed
    requires forall i :: 0 <= i < |listed| ==> listed[i] in db.wallets && db.wallets[listed[i]].ownerType == User
    requires forall i, j :: 0 <= i < j < |listed| ==> listed[i] != listed[j]
    requires forall i :: 0 <= i < |listed| ==> Unused(db, listed[i], nonce)
    ensures
      var out := BulkGrant(db, pool, listed, amount, nonce, at);
      if listed == [] || amount * |listed| > db.wallets[pool].grant then out == Fail(Validation)
      else
        && out.Done? && out.db.wallets.Keys == db.wallets.Keys
        && forall id :: id in db.wallets ==>
             var w := db.wallets[id];
             out.db.wallets[id] == if id in listed then w.(grant := amount, balance := Max(w.balance, amount)) else w
  {
    if listed != [] && amount * |listed| <= db.wallets[pool].grant {
      var members := Elements(listed);
      forall id | id in members ensures !HasKey(db.txns, GrantKey(id, nonce)) {
        var i :| 0 <= i < |listed| && listed[i] == id;
        assert Unused(db, listed[i], nonce);
      }
      GrantEachReaches(db, pool, members, listed, amount, nonce, at);
    }
  }
}
