/** The handlers as they run: row by row on the tables, each proved against its description. A
    handler that fails leaves the tables as they were, since its transaction is never committed. */
module Store {
  import opened Prelude
  import opened Ledger
  import opened Movers
  import opened Engine
  import opened Bulk
  import opened Grants
  import opened Refill

  datatype Reply = Ok | Again | Err(error: Error)

  ghost function ReplyOf(out: Outcome): Reply
  {
    match out
    case Done(_) => Ok
    case Replay => Again
    case Fail(e) => Err(e)
  }

  function MakeTxn(id: Id, w: Wallet, kind: Kind, amount: int, ref: Option<string>, key: string, at: int): Txn
  {
    Txn(id, kind, amount, w.balance, ref, key, at)
  }

  class Tables {
    var wallets: map<Id, Wallet>
    var txns: seq<Txn>
    var requests: map<Id, AllocRequest>
    var topups: map<Id, TopupRequest>

    /** New wallets: nothing in them, nothing reserved, no grant and no row. */
    constructor (owners: map<Id, (OwnerType, Id)>)
      ensures wallets.Keys == owners.Keys
      ensures forall id :: id in owners ==> wallets[id] == Wallet(owners[id].0, owners[id].1, 0, 0, 0)
      ensures txns == [] && requests == map[] && topups == map[]
    {
      wallets := map id | id in owners :: Wallet(owners[id].0, owners[id].1, 0, 0, 0);
      txns, requests, topups := [], map[], map[];
    }

    ghost function State(): Db
      reads this
    {
      Db(wallets, txns, requests, topups)
    }

    /** POST /wallets/{id}/topup. */
    method TopUp(wallet: Id, amount: int, idem: string, note: Option<string>, ghost h: Hierarchy, at: int)
      returns (reply: Reply)
      requires LedgerOk(State()) && amount > 0
      modifies this`wallets, this`txns
      ensures
        var out := Handle(old(State()), h, TopupReq(wallet, amount, idem, note), at);
        reply == ReplyOf(out) && State() == out.After(old(State()))
    {
      if HasKey(txns, idem) {
        return if wallet in wallets then Again else Err(NotFound);
      }
      if wallet !in wallets {
        return Err(NotFound);
      }
      ghost var legs := Legs(State(), TopupReq(wallet, amount, idem, note));
      assert legs[1..] == [];
      assert PostAll(State(), legs, at) == PostAll(Post(State(), legs[0], at), legs[1..], at);
      var w := wallets[wallet];
      w := w.(balance := w.balance + amount);
      wallets := wallets[wallet := w];
      txns := txns + [MakeTxn(wallet, w, Topup, amount, note, idem, at)];
      return Ok;
    }

    /** POST /wallets/{id}/adjust: refused when the result is negative or below the reservation. */
    method AdjustBalance(wallet: Id, amount: int, idem: string, reason: Option<string>, ghost h: Hierarchy, at: int)
      returns (reply: Reply)
      requires LedgerOk(State()) && amount != 0
      modifies this`wallets, this`txns
      ensures
        var out := Handle(old(State()), h, AdjustReq(wallet, amount, idem, reason), at);
        reply == ReplyOf(out) && State() == out.After(old(State()))
    {
      if HasKey(txns, idem) {
        return if wallet in wallets then Again else Err(NotFound);
      }
      if wallet !in wallets {
        return Err(NotFound);
      }
      ghost var legs := Legs(State(), AdjustReq(wallet, amount, idem, reason));
      assert legs[1..] == [];
      var w := wallets[wallet];
      var balance := w.balance + amount;
      if balance < 0 || balance < w.reserved {
        assert !Covers(wallets, legs[0]);
        return Err(Validation);
      }
      assert PostAll(State(), legs, at) == PostAll(Post(State(), legs[0], at), legs[1..], at);
      w := w.(balance := balance);
      wallets := wallets[wallet := w];
      txns := txns + [MakeTxn(wallet, w, Adjust, amount, reason, idem, at)];
      return Ok;
    }

    /** Take from one locked wallet, give to the other, and write both rows. */
    method PostPair(from: Id, to: Id, amount: int, outRef: Option<string>, inRef: Option<string>,
                    outKey: string, inKey: string, at: int)
      requires from in wallets && to in wallets && from != to
      modifies this`wallets, this`txns
      ensures State() == PostAll(old(State()), [Leg(from, Adjust, -amount, outRef, outKey),
                                                Leg(to, Adjust, amount, inRef, inKey)], at)
    {
      PostTwo(State(), [Leg(from, Adjust, -amount, outRef, outKey), Leg(to, Adjust, amount, inRef, inKey)], at);
      var src, dst := wallets[from], wallets[to];
      src := src.(balance := src.balance - amount);
      dst := dst.(balance := dst.balance + amount);
      wallets := wallets[from := src][to := dst];
      txns := txns + [MakeTxn(from, src, Adjust, -amount, outRef, outKey, at)]
                   + [MakeTxn(to, dst, Adjust, amount, inRef, inKey, at)];
    }

    /** POST /wallets/{id}/transfer and POST /allocate: both wallets are locked in id order. */
    method Move(rail: Rail, h: Hierarchy, caller: Principal, from: Id, to: Id, amount: int, idem: string, at: int)
      returns (reply: Reply)
      requires LedgerOk(State()) && amount > 0
      modifies this`wallets, this`txns
      ensures
        var out := Handle(old(State()), h, MoveReq(rail, caller, from, to, amount, idem), at);
        reply == ReplyOf(out) && State() == out.After(old(State()))
    {
      ghost var req := MoveReq(rail, caller, from, to, amount, idem);
      ghost var legs := Legs(State(), req);
      if from == to {
        return Err(Validation);
      }
      var outKey, inKey := MoveKey(rail, idem, "out"), MoveKey(rail, idem, "in");
      if HasKey(txns, outKey) {
        return if from in wallets && to in wallets then Again else Err(NotFound);
      }
      var first, second := from, to;
      if Before(to, from) {
        first, second := to, from;
      }
      if first !in wallets || second !in wallets {
        assert legs[0].wallet !in wallets || legs[1].wallet !in wallets;
        return Err(NotFound);
      }
      var src, dst := wallets[from], wallets[to];
      if !CanAllocate(h, caller, src, dst) {
        return Err(Forbidden);
      }
      var available := src.balance - src.reserved;
      if available < amount {
        assert !Covers(wallets, legs[0]);
        return Err(InsufficientCredit);
      }
      assert Covers(wallets, legs[0]) && Covers(wallets, legs[1]);
      if HasKey(txns, inKey) {
        assert !KeysFree(txns, legs);
        return Err(Conflict);
      }
      PostPair(from, to, amount, Some(rail.Name() + "-out:" + to), Some(rail.Name() + "-in:" + from), outKey, inKey, at);
      return Ok;
    }

    /** `_wallet_of`. */
    method FindWallet(ownerType: OwnerType, owner: Id) returns (found: Option<Id>)
      requires OwnersUnique(wallets)
      ensures found == WalletOf(wallets, ownerType, owner)
    {
      if id :| id in wallets && Owns(wallets, id, ownerType, owner) {
        return Some(id);
      }
      return None;
    }

    /** A request that draws on the system: the target is topped up. */
    method ApproveFromSystem(id: Id, ghost h: Hierarchy, caller: Principal, at: int) returns (reply: Reply)
      requires LedgerOk(State()) && RequestsOk(State())
      requires id in requests && requests[id].scope == SystemScope
      requires Precheck(State(), ApproveReq(id, caller)) == None
      modifies this`wallets, this`txns, this`requests
      ensures
        var out := Handle(old(State()), h, ApproveReq(id, caller), at);
        reply == ReplyOf(out) && State() == out.After(old(State()))
    {
      var r := requests[id];
      ghost var legs := Legs(State(), ApproveReq(id, caller));
      assert legs[1..] == [];
      var w := wallets[r.target];
      assert Covers(wallets, legs[0]);
      if HasKey(txns, AllocKey(id, "")) {
        assert !KeysFree(txns, legs);
        return Err(Conflict);
      }
      assert PostAll(State(), legs, at) == PostAll(Post(State(), legs[0], at), legs[1..], at);
      w := w.(balance := w.balance + r.amount);
      wallets := wallets[r.target := w];
      txns := txns + [MakeTxn(r.target, w, Topup, r.amount, Some("alloc-req:" + id), AllocKey(id, ""), at)];
      requests := requests[id := r.(status := Approved)];
      return Ok;
    }

    /** A request that draws on the wallet of a group or an organization. */
    method ApproveFromPool(id: Id, ghost h: Hierarchy, caller: Principal, from: Id, at: int) returns (reply: Reply)
      requires id in requests && requests[id].target in wallets && from in wallets && from != requests[id].target
      requires requests[id].amount > 0 && WalletSigma(wallets[requests[id].target])
      requires Pool(State(), requests[id]) == Some(from)
      requires Precheck(State(), ApproveReq(id, caller)) == None
      modifies this`wallets, this`txns, this`requests
      ensures
        var out := Handle(old(State()), h, ApproveReq(id, caller), at);
        reply == ReplyOf(out) && State() == out.After(old(State()))
    {
      var r := requests[id];
      ghost var legs := Legs(State(), ApproveReq(id, caller));
      var src, dst := wallets[from], wallets[r.target];
      if src.balance - src.reserved < r.amount {
        assert !Covers(wallets, legs[0]);
        return Err(InsufficientPool);
      }
      assert Covers(wallets, legs[0]) && Covers(wallets, legs[1]);
      if HasKey(txns, AllocKey(id, ":out")) || HasKey(txns, AllocKey(id, ":in")) {
        assert HasKey(txns, legs[0].key) || HasKey(txns, legs[1].key);
        return Err(Conflict);
      }
      ghost var posted := PostAll(State(), legs, at);
      PostAllShape(State(), legs, at);
      var note := Some("alloc-req:" + id);
      PostPair(from, r.target, r.amount, note, note, AllocKey(id, ":out"), AllocKey(id, ":in"), at);
      assert State() == posted;
      requests := requests[id := r.(status := Approved)];
      return Ok;
    }

    /** POST /allocation-requests/{id}/approve. */
    method ApproveAllocation(id: Id, ghost h: Hierarchy, caller: Principal, at: int) returns (reply: Reply)
      requires LedgerOk(State()) && RequestsOk(State())
      modifies this`wallets, this`txns, this`requests
      ensures
        var out := Handle(old(State()), h, ApproveReq(id, caller), at);
        reply == ReplyOf(out) && State() == out.After(old(State()))
    {
      if id !in requests {
        return Err(NotFound);
      }
      var r := requests[id];
      if r.status != Pending {
        return Err(Validation);
      }
      if !CanFulfill(caller, r) {
        return Err(Forbidden);
      }
      if r.scope == SystemScope {
        reply := ApproveFromSystem(id, h, caller, at);
        return;
      }
      var from: Option<Id> := None;
      if r.fulfiller.Some? {
        from := FindWallet(if r.scope == GroupScope then Group else Org, r.fulfiller.value);
      }
      if from.None? {
        return Err(NotFound);
      }
      PoolOwner(State(), r);
      reply := ApproveFromPool(id, h, caller, from.value, at);
    }

    /** One member's share, on copies. */
    method PayMember(ws: map<Id, Wallet>, rows: seq<Txn>, src: Id, dst: Id, amount: int, idem: string, at: int)
      returns (ws': map<Id, Wallet>, rows': seq<Txn>)
      requires src in ws && dst in ws && src != dst
      ensures Db(ws', rows', requests, topups) == Fund(Db(ws, rows, requests, topups), src, dst, amount, idem, at)
    {
      var s, d := ws[src].(balance := ws[src].balance - amount), ws[dst].(balance := ws[dst].balance + amount);
      ws' := ws[src := s][dst := d];
      rows' := rows + [MakeTxn(src, s, Adjust, -amount, Some("bulk-allocate-out:" + dst), OutKey(idem, dst), at)]
                    + [MakeTxn(dst, d, Adjust, amount, Some("bulk-allocate-in:" + src), InKey(idem, dst), at)];
    }

    /** POST /bulk-allocate, once the group's wallet and its members' wallets are locked. */
    method BulkAllocate(src: Id, members: seq<Id>, amount: int, idem: string, at: int)
      returns (reply: Reply, granted: nat, skipped: nat)
      requires Ready(State(), src, members) && amount > 0
      modifies this`wallets, this`txns
      ensures members == [] ==> reply == Err(Validation) && State() == old(State())
      ensures members != [] ==>
        var out := FundAll(old(State()), src, members, amount, idem, at);
        reply == ReplyOf(out) && State() == out.After(old(State()))
      ensures reply == Ok ==> granted == Unfunded(old(State()).txns, members, idem) && granted + skipped == |members|
    {
      if members == [] {
        return Err(Validation), 0, 0;
      }
      ghost var start := State();
      var ws, rows := wallets, txns;
      granted, skipped := 0, 0;
      for i := 0 to |members|
        invariant State() == start
        invariant Ready(Db(ws, rows, requests, topups), src, members)
        invariant FundAll(start, src, members, amount, idem, at) ==
                  FundAll(Db(ws, rows, requests, topups), src, members[i..], amount, idem, at)
        invariant granted + Unfunded(rows, members[i..], idem) == Unfunded(start.txns, members, idem)
        invariant granted + skipped == i
      {
        var dst := members[i];
        ghost var here := Db(ws, rows, requests, topups);
        assert members[i..][0] == dst && members[i..][1..] == members[i + 1..];
        if HasKey(rows, OutKey(idem, dst)) {
          skipped := skipped + 1;
        } else {
          var available := ws[src].balance - ws[src].reserved;
          if available < amount {
            return Err(InsufficientCredit), granted, skipped;
          }
          if HasKey(rows, InKey(idem, dst)) {
            return Err(Conflict), granted, skipped;
          }
          UnfundedUnchanged(here, src, dst, amount, idem, at, members[i + 1..]);
          ws, rows := PayMember(ws, rows, src, dst, amount, idem, at);
          granted := granted + 1;
        }
      }
      assert members[|members|..] == [];
      wallets, txns := ws, rows;
      reply := Ok;
    }

    /** POST /bulk-monthly-grant, once the group's wallet and its members' wallets are found. */
    method BulkMonthlyGrant(pool: Id, members: seq<Id>, amount: int, nonce: string, at: int) returns (reply: Reply)
      requires pool in wallets && forall i :: 0 <= i < |members| ==> members[i] in wallets
      requires forall i :: 0 <= i < |members| ==> wallets[members[i]].ownerType == User
      modifies this`wallets, this`txns
      ensures
        var out := BulkGrant(old(State()), pool, members, amount, nonce, at);
        reply == ReplyOf(out) && State() == out.After(old(State()))
    {
      if members == [] || amount * |members| > wallets[pool].grant {
        return Err(Validation);
      }
      ghost var start := State();
      var ws, rows := wallets, txns;
      for i := 0 to |members|
        invariant State() == start
        invariant forall k :: 0 <= k < |members| ==> members[k] in ws && ws[members[k]].ownerType == User
        invariant GrantEach(start, members, amount, nonce, at) ==
                  GrantEach(Db(ws, rows, requests, topups), members[i..], amount, nonce, at)
      {
        var id := members[i];
        assert members[i..][0] == id && members[i..][1..] == members[i + 1..];
        if HasKey(rows, GrantKey(id, nonce)) {
          return Err(Conflict);
        }
        ghost var here := Db(ws, rows, requests, topups);
        var w := ws[id].(grant := amount);
        if amount > w.balance {
          var delta := amount - w.balance;
          w := w.(balance := amount);
          rows := rows + [MakeTxn(id, w, Adjust, delta, Some("monthly_grant"), GrantKey(id, nonce), at)];
        }
        ws := ws[id := w];
        assert Db(ws, rows, requests, topups) == Granted(here, id, amount, nonce, at);
      }
      assert members[|members|..] == [];
      wallets, txns := ws, rows;
      return Ok;
    }

    /** One batch of the sweep, in one transaction. */
    method RefillBatch(batch: seq<Id>, tag: string, at: int) returns (reset: nat)
      modifies this`wallets, this`txns
      ensures State() == Sweep(old(State()), batch, tag, at)
      ensures |txns| == |old(txns)| + reset
    {
      reset := 0;
      for i := 0 to |batch|
        invariant State() == Sweep(old(State()), batch[..i], tag, at)
        invariant |txns| == |old(txns)| + reset
      {
        var id := batch[i];
        assert batch[..i + 1][..i] == batch[..i];
        ghost var here := State();
        if id in wallets && wallets[id].grant > 0 && !HasKey(txns, RefillKey(id, tag)) {
          var w := wallets[id];
          var target := if w.grant >= w.reserved then w.grant else w.reserved;
          if w.balance < target {
            var delta := target - w.balance;
            w := w.(balance := target);
            wallets := wallets[id := w];
            txns := txns + [MakeTxn(id, w, Adjust, delta, Some("monthly_refill"), RefillKey(id, tag), at)];
            reset := reset + 1;
          }
        }
        assert State() == RefillOne(here, id, tag, at);
      }
      assert batch[..|batch|] == batch;
    }

    /** The monthly sweep: batches of `limit` wallets in id order, each committed on its own. */
    method RefillSweep(index: seq<Id>, tag: string, limit: nat, at: int) returns (reset: nat)
      requires limit > 0 && Ascending(index) && forall i :: 0 <= i < |index| ==> index[i] != ""
      modifies this`wallets, this`txns
      ensures State() == Sweep(old(State()), Eligible(old(State()), index), tag, at)
      ensures |txns| == |old(txns)| + reset
    {
      ghost var start := State();
      ghost var k: nat := 0;
      var last, finished := "", false;
      reset := 0;
      SweepStart(start, index, tag, at);
      while !finished
        invariant Progress(start, State(), index, last, k, tag, at)
        invariant |txns| == |old(txns)| + reset
        invariant finished ==> k == |Eligible(start, index)|
        decreases |Eligible(start, index)| - k, !finished
      {
        var n: nat;
        ghost var done: nat;
        n, last, finished, done := RefillPage(index, last, tag, limit, start, k, at);
        reset, k := reset + n, k + done;
      }
      SweepDone(start, State(), index, last, k, tag, at);
    }

    /** The next page of eligible wallets, refilled; the sweep is finished when it is empty. */
    method RefillPage(index: seq<Id>, last: Id, tag: string, limit: nat, ghost start: Db, ghost k: nat, at: int)
      returns (reset: nat, next: Id, finished: bool, ghost done: nat)
      requires Progress(start, State(), index, last, k, tag, at)
      requires limit > 0 && Ascending(index) && forall i :: 0 <= i < |index| ==> index[i] != ""
      modifies this`wallets, this`txns
      ensures Progress(start, State(), index, next, k + done, tag, at)
      ensures k + done <= |Eligible(start, index)|
      ensures finished <==> k == |Eligible(start, index)|
      ensures finished <==> done == 0
      ensures |txns| == |old(txns)| + reset
    {
      var page := Page(Db(wallets, txns, requests, topups), index, last, limit);
      assert page == Page(start, index, last, limit) by {
        SweepKeepsPage(start, Eligible(start, index)[..k], tag, at, index, last, limit);
      }
      PageStep(start, State(), index, last, k, limit, tag, at);
      reset := RefillBatch(page, tag, at);
      finished := page == [];
      next := if finished then last else page[|page| - 1];
      done := |page|;
    }

    /** CreditEngine.hold. */
    method PlaceHoldOn(wallet: Id, amount: int, session: Id, at: int) returns (reply: Reply)
      modifies this`wallets, this`txns
      ensures
        var out := PlaceHold(old(State()), wallet, amount, session, at);
        reply == ReplyOf(out) && State() == out.After(old(State()))
    {
      if HasKey(txns, HoldKey(session)) {
        return Again;
      }
      if wallet !in wallets {
        return Err(InsufficientCredit);
      }
      var w := wallets[wallet];
      if w.balance - w.reserved < amount {
        return Err(InsufficientCredit);
      }
      w := w.(reserved := w.reserved + amount);
      wallets := wallets[wallet := w];
      txns := txns + [MakeTxn(wallet, w, Hold, amount, Some(session), HoldKey(session), at)];
      return Ok;
    }

    /** A charge: the spent part of the reservation goes with it. */
    method DebitWallet(id: Id, session: Id, debit: int, key: string, now: int)
      requires id in wallets
      modifies this`wallets, this`txns
      ensures State() == Debit(old(State()), id, session, debit, key, now)
    {
      var w := wallets[id];
      w := w.(balance := w.balance - debit, reserved := Max(0, w.reserved - debit));
      wallets := wallets[id := w];
      txns := txns + [MakeTxn(id, w, Kind.Consume, -debit, Some(session), key, now)];
    }

    /** CreditEngine.consume: one billing tick. */
    method Consume(s: Session, bucket: string, now: int) returns (exhausted: bool)
      modifies this`wallets, this`txns
      ensures State() == Tick(old(State()), s, bucket, now)
      ensures exhausted == Exhausts(old(State()), s, bucket, now)
    {
      if s.rate == 0 || s.wallet.None? {
        return false;
      }
      var key := ConsumeKey(s.id, bucket);
      if HasKey(txns, key) || HasKey(txns, SettleKey(s.id)) || s.wallet.value !in wallets {
        return false;
      }
      var id := s.wallet.value;
      var delta := Owed(s, now) - Spent(txns, id, s.id, s.startedAt);
      ghost var before := State();
      assert delta == Due(before, s, now);
      if delta <= 0 {
        return false;
      }
      var debit := Min(delta, wallets[id].balance);
      if debit > 0 {
        DebitWallet(id, s.id, debit, key, now);
      }
      assert State() == Tick(before, s, bucket, now);
      exhausted := debit < delta || AvailableFor(Db(wallets, txns, requests, topups), id, s.id) <= 0;
    }

    /** The last charge of a settlement, on copies. False when its key is already in use. */
    method ChargeRemainder(s: Session, final: bool, now: int) returns (ok: bool, w: Wallet, rows: seq<Txn>)
      requires s.wallet.Some? && s.wallet.value in wallets
      ensures ok <==> !(FinalCharge(State(), s, final, now) > 0 && HasKey(txns, ConsumeKey(s.id, "settle")))
      ensures ok ==> Db(wallets[s.wallet.value := w], rows, requests, topups) == Charged(State(), s, final, now)
    {
      var id := s.wallet.value;
      w, rows := wallets[id], txns;
      assert wallets == wallets[id := w];
      if !final || s.rate == 0 {
        return true, w, rows;
      }
      var delta := Min(Owed(s, now) - Spent(rows, id, s.id, s.startedAt), w.balance);
      if delta <= 0 {
        return true, w, rows;
      }
      if HasKey(rows, ConsumeKey(s.id, "settle")) {
        return false, w, rows;
      }
      w := w.(balance := w.balance - delta, reserved := Max(0, w.reserved - delta));
      rows := rows + [MakeTxn(id, w, Kind.Consume, -delta, Some(s.id), ConsumeKey(s.id, "settle"), now)];
      return true, w, rows;
    }

    /** CreditEngine.settle: the last charge, the session's leftover hold, and the marker row. */
    method SettleSession(s: Session, final: bool, now: int, nonce: string)
      modifies this`wallets, this`txns
      ensures State() == Settled(old(State()), s, final, now, nonce)
    {
      if s.wallet.None? || HasKey(txns, SettleKey(s.id)) || s.wallet.value !in wallets {
        return;
      }
      var id := s.wallet.value;
      var ok, w, rows := ChargeRemainder(s, final, now);
      if !ok {
        return;
      }
      ghost var charged := Charged(State(), s, final, now);
      assert charged == Db(wallets[id := w], rows, requests, topups);
      var leftover := Max(0, Held(rows, id, s.id) - Spent(rows, id, s.id, None));
      var released := if w.reserved > 0 then Min(leftover, w.reserved) else 0;
      if released > 0 {
        if HasKey(txns, RefundKey(id, nonce)) {
          return;
        }
        w := w.(reserved := w.reserved - released);
        rows := rows + [MakeTxn(id, w, Refund, released, Some(s.id), RefundKey(id, nonce), now)];
      }
      assert wallets[id := charged.wallets[id]][id := w] == wallets[id := w];
      assert Db(wallets[id := w], rows, requests, topups) == GiveBack(charged, id, s.id, nonce, now);
      wallets := wallets[id := w];
      txns := rows + [MakeTxn(id, w, Settle, 0, Some(s.id), SettleKey(s.id), now)];
      assert wallets[id := w] == wallets;
    }
  }
}
