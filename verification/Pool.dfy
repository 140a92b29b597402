/** GPU cards and the two pools they sit in: the split set by target count, one card's target, the drain
    state machine that follows, and the inventory reports it listens to. */
module Pool {
  import opened Prelude

  datatype Mode = Fractional | Exclusive | Mig

  datatype ModeState = Ready | Draining | Applying | Failed

  datatype Card = Card(cluster: Id, healthy: bool, mode: Option<Mode>, desired: Option<Mode>, state: ModeState,
                       mem: nat, cores: nat, lent: bool)

  function Target(c: Card): Mode
  {
    if c.desired.Some? then c.desired.value else if c.mode.Some? then c.mode.value else Fractional
  }

  predicate InMig(c: Card)
  {
    Target(c) == Mig
  }

  predicate Counted(c: Card, cluster: Id)
  {
    c.cluster == cluster && c.healthy
  }

  // ---- the split by target count ----

  predicate NoFuller(a: Card, b: Card)
  {
    a.mem < b.mem || (a.mem == b.mem && a.cores <= b.cores)
  }

  /** The order of a stable sort by memory and cores used. */
  predicate Precedes(cards: seq<Card>, i: nat, j: nat)
    requires i < |cards| && j < |cards|
  {
    NoFuller(cards[i], cards[j]) && (NoFuller(cards[j], cards[i]) ==> i < j)
  }

  /** Positions below `n` of the cluster's cards on one side, all of them or those not lent. */
  function Pick(cards: seq<Card>, cluster: Id, mig: bool, lentToo: bool, n: nat): seq<nat>
    requires n <= |cards|
  {
    if n == 0 then []
    else
      var c := cards[n - 1];
      Pick(cards, cluster, mig, lentToo, n - 1)
      + if Counted(c, cluster) && InMig(c) == mig && (lentToo || !c.lent) then [n - 1] else []
  }

  predicate Within(order: seq<nat>, n: nat)
  {
    forall k :: 0 <= k < |order| ==> order[k] < n
  }

  function Insert(cards: seq<Card>, order: seq<nat>, i: nat): seq<nat>
    requires Within(order, |cards|) && i < |cards|
  {
    if order == [] then [i]
    else if NoFuller(cards[order[|order| - 1]], cards[i]) then order + [i]
    else Insert(cards, order[..|order| - 1], i) + [order[|order| - 1]]
  }

  lemma {:induction false} InsertWithin(cards: seq<Card>, order: seq<nat>, i: nat)
    requires Within(order, |cards|) && i < |cards|
    ensures Within(Insert(cards, order, i), |cards|)
    ensures forall x :: x in Insert(cards, order, i) <==> x in order || x == i
    decreases |order|
  {
    if order != [] {
      var front, last := order[..|order| - 1], order[|order| - 1];
      assert order == front + [last];
      InsertWithin(cards, front, i);
    }
  }

  /** `sorted` with the key (used memory, used cores). */
  function Sort(cards: seq<Card>, order: seq<nat>): (r: seq<nat>)
    requires Within(order, |cards|)
    ensures Within(r, |cards|) && forall x :: x in r <==> x in order
  {
    if order == [] then []
    else
      var front := Sort(cards, order[..|order| - 1]);
      InsertWithin(cards, front, order[|order| - 1]);
      assert order == order[..|order| - 1] + [order[|order| - 1]];
      Insert(cards, front, order[|order| - 1])
  }

  ghost predicate Sorted(cards: seq<Card>, order: seq<nat>)
    requires Within(order, |cards|)
  {
    forall j, k :: 0 <= j < k < |order| ==> Precedes(cards, order[j], order[k])
  }

  predicate Ascending(order: seq<nat>)
  {
    forall j, k :: 0 <= j < k < |order| ==> order[j] < order[k]
  }

  lemma {:induction false} InsertSorted(cards: seq<Card>, order: seq<nat>, i: nat)
    requires Within(order, |cards|) && i < |cards| && Sorted(cards, order)
    requires forall k :: 0 <= k < |order| ==> order[k] < i
    ensures Within(Insert(cards, order, i), |cards|) && Sorted(cards, Insert(cards, order, i))
    decreases |order|
  {
    InsertWithin(cards, order, i);
    if order != [] {
      var front, last := order[..|order| - 1], order[|order| - 1];
      InsertWithin(cards, front, i);
      if NoFuller(cards[last], cards[i]) {
        forall j | 0 <= j < |order| ensures Precedes(cards, order[j], i) {
          assert j < |front| ==> Precedes(cards, order[j], last);
        }
      } else {
        InsertSorted(cards, front, i);
        var r := Insert(cards, front, i);
        forall j | 0 <= j < |r| ensures Precedes(cards, r[j], last) {
          assert r[j] in r;
          if r[j] in front {
            var k :| 0 <= k < |front| && front[k] == r[j];
            assert Precedes(cards, order[k], order[|order| - 1]);
          }
        }
      }
    }
  }

  lemma {:induction false} SortSorts(cards: seq<Card>, order: seq<nat>)
    requires Within(order, |cards|) && Ascending(order)
    ensures Sorted(cards, Sort(cards, order))
    decreases |order|
  {
    if order != [] {
      var front, last := order[..|order| - 1], order[|order| - 1];
      SortSorts(cards, front);
      var r := Sort(cards, front);
      forall k | 0 <= k < |r| ensures r[k] < last {
        assert r[k] in front;
      }
      InsertSorted(cards, r, last);
    }
  }

  /** What a move writes on a card. */
  function Moved(c: Card, toMig: bool): Card
  {
    if toMig then c.(desired := Some(Mig), state := if c.mode == Some(Mig) then Ready else Draining)
    else c.(desired := Some(Fractional), state := if c.mode == Some(Mig) then Draining else Ready)
  }

  function Mark(cards: seq<Card>, chosen: seq<nat>, toMig: bool): seq<Card>
    requires Within(chosen, |cards|)
  {
    if chosen == [] then cards
    else
      var done := Mark(cards, chosen[..|chosen| - 1], toMig);
      var i := chosen[|chosen| - 1];
      if i < |done| then done[i := Moved(done[i], toMig)] else done
  }

  lemma {:induction false} MarkAt(cards: seq<Card>, chosen: seq<nat>, toMig: bool)
    requires Within(chosen, |cards|)
    ensures |Mark(cards, chosen, toMig)| == |cards|
    ensures forall i :: 0 <= i < |cards| ==>
              Mark(cards, chosen, toMig)[i] == if i in chosen then Moved(cards[i], toMig) else cards[i]
    decreases |chosen|
  {
    if chosen != [] {
      var front, last := chosen[..|chosen| - 1], chosen[|chosen| - 1];
      assert chosen == front + [last];
      MarkAt(cards, front, toMig);
    }
  }

  datatype Reply = Split(moved: seq<nat>) | NoCards | TooMany

  function Everyone(cards: seq<Card>, cluster: Id): nat
  {
    |Pick(cards, cluster, true, true, |cards|)| + |Pick(cards, cluster, false, true, |cards|)|
  }

  function Raises(cards: seq<Card>, cluster: Id, target: nat): bool
  {
    target > |Pick(cards, cluster, true, true, |cards|)|
  }

  lemma {:induction false} PickWithin(cards: seq<Card>, cluster: Id, mig: bool, lentToo: bool, n: nat)
    requires n <= |cards|
    ensures Within(Pick(cards, cluster, mig, lentToo, n), n) && Ascending(Pick(cards, cluster, mig, lentToo, n))
    ensures forall i :: 0 <= i < n ==>
              (i in Pick(cards, cluster, mig, lentToo, n) <==>
               Counted(cards[i], cluster) && InMig(cards[i]) == mig && (lentToo || !cards[i].lent))
  {
    if n > 0 {
      PickWithin(cards, cluster, mig, lentToo, n - 1);
    }
  }

  /** The cards a call moves, emptiest first. */
  function Chosen(cards: seq<Card>, cluster: Id, target: nat): (r: seq<nat>)
    ensures Within(r, |cards|)
  {
    var toMig := Raises(cards, cluster, target);
    var now := |Pick(cards, cluster, true, true, |cards|)|;
    PickWithin(cards, cluster, !toMig, false, |cards|);
    var order := Sort(cards, Pick(cards, cluster, !toMig, false, |cards|));
    var wanted: nat := if toMig then target - now else now - target;
    order[..Min(wanted, |order|)]
  }

  function Verdict(cards: seq<Card>, cluster: Id, target: nat): Reply
  {
    if Everyone(cards, cluster) == 0 then NoCards
    else if target > Everyone(cards, cluster) then TooMany
    else Split(Chosen(cards, cluster, target))
  }

  /** `set_pool_targets`. */
  function SetTargets(cards: seq<Card>, cluster: Id, target: nat): seq<Card>
  {
    if Verdict(cards, cluster, target).Split?
    then Mark(cards, Chosen(cards, cluster, target), Raises(cards, cluster, target))
    else cards
  }

  ghost function Side(cards: seq<Card>, cluster: Id, mig: bool): set<nat>
  {
    set i: nat | i < |cards| && Counted(cards[i], cluster) && InMig(cards[i]) == mig
  }

  /** The cards on one side that a call may move. */
  ghost function Spare(cards: seq<Card>, cluster: Id, mig: bool): set<nat>
  {
    set i: nat | i < |cards| && Counted(cards[i], cluster) && InMig(cards[i]) == mig && !cards[i].lent
  }

  ghost function Members(order: seq<nat>): set<nat>
  {
    set i | i in order
  }

  lemma {:induction false} DistinctSize(order: seq<nat>)
    requires forall j, k :: 0 <= j < k < |order| ==> order[j] != order[k]
    ensures |Members(order)| == |order|
    decreases |order|
  {
    if order != [] {
      var front, last := order[..|order| - 1], order[|order| - 1];
      DistinctSize(front);
      assert Members(order) == Members(front) + {last};
      assert last !in front;
    }
  }

  lemma PickSize(cards: seq<Card>, cluster: Id, mig: bool)
    ensures |Pick(cards, cluster, mig, true, |cards|)| == |Side(cards, cluster, mig)|
    ensures Members(Pick(cards, cluster, mig, false, |cards|)) == Spare(cards, cluster, mig)
    ensures |Pick(cards, cluster, mig, false, |cards|)| == |Spare(cards, cluster, mig)|
  {
    PickWithin(cards, cluster, mig, true, |cards|);
    PickWithin(cards, cluster, mig, false, |cards|);
    var all, spare := Pick(cards, cluster, mig, true, |cards|), Pick(cards, cluster, mig, false, |cards|);
    DistinctSize(all);
    DistinctSize(spare);
    assert forall i :: i in all ==> i < |cards|;
    assert forall i :: i in spare ==> i < |cards|;
    var side := Side(cards, cluster, mig);
    assert Members(all) == side && |all| == |Members(all)| == |side|;
    assert Members(spare) == Spare(cards, cluster, mig);
  }

  lemma SortedSize(cards: seq<Card>, order: seq<nat>)
    requires Within(order, |cards|) && Ascending(order)
    ensures |Sort(cards, order)| == |order|
    ensures forall j, k :: 0 <= j < k < |order| ==> Sort(cards, order)[j] != Sort(cards, order)[k]
  {
    SortSorts(cards, order);
    var r := Sort(cards, order);
    forall j, k | 0 <= j < k < |r| ensures r[j] != r[k] {
      assert Precedes(cards, r[j], r[k]);
    }
    DistinctSize(r);
    DistinctSize(order);
    assert Members(r) == Members(order);
  }

  /** The chosen cards: as many as asked for or all that may move, and the emptiest of those. */
  lemma ChosenAreEmptiest(cards: seq<Card>, cluster: Id, target: nat)
    ensures var toMig := target > |Side(cards, cluster, true)|;
            var spare := Spare(cards, cluster, !toMig);
            var chosen := Members(Chosen(cards, cluster, target));
            && Raises(cards, cluster, target) == toMig
            && chosen <= spare
            && |chosen| == Min(|spare|, if toMig then target - |Side(cards, cluster, true)|
                                        else |Side(cards, cluster, true)| - target)
            && forall i, j :: i in chosen && j in spare && j !in chosen ==> NoFuller(cards[i], cards[j])
  {
    var toMig := Raises(cards, cluster, target);
    PickSize(cards, cluster, true);
    PickSize(cards, cluster, !toMig);
    PickWithin(cards, cluster, !toMig, false, |cards|);
    var spares := Pick(cards, cluster, !toMig, false, |cards|);
    SortSorts(cards, spares);
    SortedSize(cards, spares);
    var order, r := Sort(cards, spares), Chosen(cards, cluster, target);
    assert Members(order) == Members(spares) == Spare(cards, cluster, !toMig);
    PrefixIsEmptiest(cards, order, |r|);
    assert r == order[..|r|];
  }

  lemma PrefixIsEmptiest(cards: seq<Card>, order: seq<nat>, n: nat)
    requires Within(order, |cards|) && Sorted(cards, order) && n <= |order|
    ensures Members(order[..n]) <= Members(order) && |Members(order[..n])| == n
    ensures forall i, j :: i in Members(order[..n]) && j in Members(order) && j !in Members(order[..n]) ==>
              i < |cards| && j < |cards| && NoFuller(cards[i], cards[j])
  {
    var r := order[..n];
    forall j, k | 0 <= j < k < |r| ensures r[j] != r[k] {
      assert Precedes(cards, order[j], order[k]);
    }
    DistinctSize(r);
    forall i, j | i in r && j in order && j !in r ensures i < |cards| && j < |cards| && NoFuller(cards[i], cards[j]) {
      var a :| 0 <= a < |r| && r[a] == i;
      var rest := order[n..];
      assert order == r + rest;
      var b :| 0 <= b < |rest| && rest[b] == j;
      assert Precedes(cards, order[a], order[n + b]);
    }
  }

  /** Which cards a call changes, and to what. */
  lemma TargetsAt(cards: seq<Card>, cluster: Id, target: nat)
    requires Verdict(cards, cluster, target).Split?
    ensures var after := SetTargets(cards, cluster, target);
            var chosen := Chosen(cards, cluster, target);
            && |after| == |cards|
            && forall i :: 0 <= i < |cards| ==>
                 after[i] == if i in chosen then Moved(cards[i], Raises(cards, cluster, target)) else cards[i]
  {
    MarkAt(cards, Chosen(cards, cluster, target), Raises(cards, cluster, target));
  }

  /** A lent card, one of another cluster and one out of service are left alone. */
  lemma OthersUntouched(cards: seq<Card>, cluster: Id, target: nat)
    ensures var after := SetTargets(cards, cluster, target);
            |after| == |cards|
            && forall i :: 0 <= i < |cards| && (cards[i].lent || !Counted(cards[i], cluster)) ==> after[i] == cards[i]
  {
    if Verdict(cards, cluster, target).Split? {
      TargetsAt(cards, cluster, target);
      ChosenAreEmptiest(cards, cluster, target);
      var chosen := Chosen(cards, cluster, target);
      forall i | 0 <= i < |cards| && (cards[i].lent || !Counted(cards[i], cluster)) ensures i !in chosen {
        assert i !in Members(chosen);
      }
    }
  }

  /** No card moved is fuller than one that could have moved and stayed. */
  lemma EmptiestMove(cards: seq<Card>, cluster: Id, target: nat, i: nat, j: nat)
    requires Verdict(cards, cluster, target).Split? && i < |cards|
    requires j in Spare(cards, cluster, target <= |Side(cards, cluster, true)|)
    ensures var after := SetTargets(cards, cluster, target);
            |after| == |cards| && (after[i] != cards[i] && after[j] == cards[j] ==> NoFuller(cards[i], cards[j]))
  {
    TargetsAt(cards, cluster, target);
    ChosenAreEmptiest(cards, cluster, target);
    var chosen := Chosen(cards, cluster, target);
    if j in chosen {
      assert InMig(Moved(cards[j], Raises(cards, cluster, target))) != InMig(cards[j]);
    } else if i in chosen {
      assert i in Members(chosen) && j !in Members(chosen);
    }
  }

  /** The pool ends at the requested count or as near as the cards that are not lent allow. */
  lemma SplitReached(cards: seq<Card>, cluster: Id, target: nat)
    requires Verdict(cards, cluster, target).Split?
    ensures var after, now := SetTargets(cards, cluster, target), |Side(cards, cluster, true)|;
            |Side(after, cluster, true)| == if target > now then Min(target, now + |Spare(cards, cluster, false)|)
                                            else Max(target, now - |Spare(cards, cluster, true)|)
  {
    ChosenAreEmptiest(cards, cluster, target);
    SideAfter(cards, cluster, target);
    var now, chosen := Side(cards, cluster, true), Members(Chosen(cards, cluster, target));
    if target <= |now| {
      LessSubset(chosen, now);
    } else {
      assert |now + chosen| == |now| + |chosen|;
    }
  }

  lemma SideAfter(cards: seq<Card>, cluster: Id, target: nat)
    requires Verdict(cards, cluster, target).Split?
    ensures var after, now := SetTargets(cards, cluster, target), Side(cards, cluster, true);
            var chosen := Members(Chosen(cards, cluster, target));
            && |after| == |cards|
            && (target > |now| ==> Side(after, cluster, true) == now + chosen && now !! chosen
                                   && Spare(after, cluster, false) == Spare(cards, cluster, false) - chosen
                                   && chosen <= Spare(cards, cluster, false))
            && (target <= |now| ==> Side(after, cluster, true) == now - chosen && chosen <= now
                                    && Spare(after, cluster, true) == Spare(cards, cluster, true) - chosen
                                    && chosen <= Spare(cards, cluster, true))
            && Everyone(after, cluster) == Everyone(cards, cluster)
  {
    TargetsAt(cards, cluster, target);
    ChosenAreEmptiest(cards, cluster, target);
    var after := SetTargets(cards, cluster, target);
    var toMig := target > |Side(cards, cluster, true)|;
    SidesMove(cards, after, cluster, Members(Chosen(cards, cluster, target)), toMig);
    SameSize(cards, after, cluster);
  }

  lemma SidesMove(cards: seq<Card>, after: seq<Card>, cluster: Id, chosen: set<nat>, toMig: bool)
    requires |after| == |cards| && chosen <= Spare(cards, cluster, !toMig)
    requires forall i :: 0 <= i < |cards| ==> after[i] == if i in chosen then Moved(cards[i], toMig) else cards[i]
    ensures Spare(after, cluster, !toMig) == Spare(cards, cluster, !toMig) - chosen
    ensures toMig ==> Side(after, cluster, true) == Side(cards, cluster, true) + chosen && Side(cards, cluster, true) !! chosen
    ensures !toMig ==> Side(after, cluster, true) == Side(cards, cluster, true) - chosen && chosen <= Side(cards, cluster, true)
  {
  }

  ghost function ReadyCards(cards: seq<Card>, cluster: Id): set<nat>
  {
    set i: nat | i < |cards| && Counted(cards[i], cluster)
  }

  lemma TwoSides(cards: seq<Card>, cluster: Id)
    ensures Everyone(cards, cluster) == |ReadyCards(cards, cluster)|
  {
    PickSize(cards, cluster, true);
    PickSize(cards, cluster, false);
    var mig, core := Side(cards, cluster, true), Side(cards, cluster, false);
    assert ReadyCards(cards, cluster) == mig + core && mig !! core;
  }

  lemma SameSize(cards: seq<Card>, after: seq<Card>, cluster: Id)
    requires |after| == |cards|
    requires forall i :: 0 <= i < |cards| ==> Counted(after[i], cluster) == Counted(cards[i], cluster)
    ensures Everyone(after, cluster) == Everyone(cards, cluster)
  {
    TwoSides(cards, cluster);
    TwoSides(after, cluster);
    assert ReadyCards(cards, cluster) == ReadyCards(after, cluster);
  }

  /** Asking twice for the same split moves nothing the second time. */
  lemma SecondCallMovesNothing(cards: seq<Card>, cluster: Id, target: nat)
    requires Verdict(cards, cluster, target).Split?
    ensures var after := SetTargets(cards, cluster, target);
            Verdict(after, cluster, target) == Split([]) && SetTargets(after, cluster, target) == after
  {
    var after := SetTargets(cards, cluster, target);
    SideAfter(cards, cluster, target);
    NoneLeft(cards, cluster, target);
    NothingToMove(after, cluster, target);
  }

  lemma NothingToMove(cards: seq<Card>, cluster: Id, target: nat)
    requires target == |Side(cards, cluster, true)| || Spare(cards, cluster, target <= |Side(cards, cluster, true)|) == {}
    ensures Chosen(cards, cluster, target) == []
  {
    ChosenAreEmptiest(cards, cluster, target);
    NobodyListed(Chosen(cards, cluster, target));
  }

  lemma NobodyListed(order: seq<nat>)
    ensures order == [] <==> |Members(order)| == 0
  {
    if order != [] {
      assert order[0] in Members(order);
    }
  }

  /** After a call the count is met, or the side it drew from has nothing more to give. */
  lemma NoneLeft(cards: seq<Card>, cluster: Id, target: nat)
    requires Verdict(cards, cluster, target).Split?
    ensures var after, raise := SetTargets(cards, cluster, target), target > |Side(cards, cluster, true)|;
            && (raise ==> |Side(after, cluster, true)| <= target)
            && (!raise ==> |Side(after, cluster, true)| >= target)
            && (|Side(after, cluster, true)| == target || Spare(after, cluster, !raise) == {})
  {
    var raise := target > |Side(cards, cluster, true)|;
    SideAfter(cards, cluster, target);
    ChosenAreEmptiest(cards, cluster, target);
    FullSubset(Members(Chosen(cards, cluster, target)), Spare(cards, cluster, !raise));
    if !raise {
      LessSubset(Members(Chosen(cards, cluster, target)), Side(cards, cluster, true));
    }
  }

  lemma LessSubset(a: set<nat>, b: set<nat>)
    requires a <= b
    ensures |b - a| == |b| - |a|
  {
    assert b == a + (b - a) && a !! (b - a);
  }

  lemma FullSubset(a: set<nat>, b: set<nat>)
    requires a <= b
    ensures |a| == |b| ==> a == b
  {
    assert b == a + (b - a) && a !! (b - a);
  }

  /** The request fails exactly when the cluster has no ready card or fewer than asked for. */
  lemma RefusedIff(cards: seq<Card>, cluster: Id, target: nat)
    ensures Verdict(cards, cluster, target) == NoCards <==> ReadyCards(cards, cluster) == {}
    ensures Verdict(cards, cluster, target) == TooMany <==> 0 < |ReadyCards(cards, cluster)| < target
    ensures !Verdict(cards, cluster, target).Split? ==> SetTargets(cards, cluster, target) == cards
  {
    TwoSides(cards, cluster);
  }

  // ---- the same on the cards' own fields ----

  /** The cluster's cards in service that are to be in MIG: by their target, or as observed when they have none. */
  ghost function MigCards(cards: seq<Card>, cluster: Id): set<nat>
  {
    set i: nat | i < |cards| && cards[i].cluster == cluster && cards[i].healthy
               && (cards[i].desired == Some(Mig) || (cards[i].desired == None && cards[i].mode == Some(Mig)))
  }

  /** Those on either side that are not lent. */
  ghost function FreeCards(cards: seq<Card>, cluster: Id, mig: bool): set<nat>
  {
    set i: nat | i < |cards| && cards[i].cluster == cluster && cards[i].healthy && !cards[i].lent
               && (i in MigCards(cards, cluster) <==> mig)
  }

  lemma SidesAre(cards: seq<Card>, cluster: Id)
    ensures Side(cards, cluster, true) == MigCards(cards, cluster)
    ensures Spare(cards, cluster, true) == FreeCards(cards, cluster, true)
    ensures Spare(cards, cluster, false) == FreeCards(cards, cluster, false)
  {
    forall i: nat | i < |cards|
      ensures InMig(cards[i]) <==> cards[i].desired == Some(Mig) || (cards[i].desired == None && cards[i].mode == Some(Mig))
    {
    }
  }

  /** The number of MIG cards after a split: the target, or as near as the free cards allow. */
  lemma SplitCount(cards: seq<Card>, cluster: Id, target: nat)
    requires Verdict(cards, cluster, target).Split?
    ensures
      var now, after := |MigCards(cards, cluster)|, |MigCards(SetTargets(cards, cluster, target), cluster)|;
      if target > now then after == Min(target, now + |FreeCards(cards, cluster, false)|)
      else after == Max(target, now - |FreeCards(cards, cluster, true)|)
  {
    SidesAre(cards, cluster);
    SidesAre(SetTargets(cards, cluster, target), cluster);
    SplitReached(cards, cluster, target);
  }

  /** What a split does to one card: nothing, unless it is a free card of the cluster on the side the split draws
      from. Then its target is the other side, and it is ready exactly when it is observed there already. */
  lemma SplitOfCard(cards: seq<Card>, cluster: Id, target: nat, i: nat)
    requires i < |cards|
    ensures
      var after := SetTargets(cards, cluster, target);
      var raise := target > |MigCards(cards, cluster)|;
      && |after| == |cards|
      && (after[i] != cards[i] ==> i in FreeCards(cards, cluster, !raise))
      && (after[i] == cards[i]
          || after[i] == cards[i].(desired := Some(if raise then Mig else Fractional),
                                   state := if raise == (cards[i].mode == Some(Mig)) then Ready else Draining))
  {
    SidesAre(cards, cluster);
    OthersUntouched(cards, cluster, target);
    if Verdict(cards, cluster, target).Split? {
      TargetsAt(cards, cluster, target);
      ChosenAreEmptiest(cards, cluster, target);
      if i in Chosen(cards, cluster, target) {
        assert i in Members(Chosen(cards, cluster, target));
      }
    }
  }

  /** Which free cards move: of two, the one with less memory in use, then with fewer cores in use, then the earlier
      one. */
  lemma EmptiestFirst(cards: seq<Card>, cluster: Id, target: nat, i: nat, j: nat)
    requires Verdict(cards, cluster, target).Split?
    requires i in FreeCards(cards, cluster, target <= |MigCards(cards, cluster)|)
    requires j in FreeCards(cards, cluster, target <= |MigCards(cards, cluster)|)
    ensures
      var after := SetTargets(cards, cluster, target);
      |after| == |cards|
      && (after[i] != cards[i] && after[j] == cards[j] ==>
            || cards[i].mem < cards[j].mem
            || (cards[i].mem == cards[j].mem && cards[i].cores < cards[j].cores)
            || (cards[i].mem == cards[j].mem && cards[i].cores == cards[j].cores && i < j))
  {
    SidesAre(cards, cluster);
    TargetsAt(cards, cluster, target);
    var chosen := Chosen(cards, cluster, target);
    if j in chosen {
      assert InMig(Moved(cards[j], Raises(cards, cluster, target))) != InMig(cards[j]) by {
        ChosenAreEmptiest(cards, cluster, target);
        assert j in Members(chosen);
      }
    } else if i in chosen {
      ChosenPrecede(cards, cluster, target, i, j);
    }
  }

  lemma ChosenPrecede(cards: seq<Card>, cluster: Id, target: nat, i: nat, j: nat)
    requires i < |cards| && j < |cards| && i in Chosen(cards, cluster, target) && j !in Chosen(cards, cluster, target)
    requires j in Spare(cards, cluster, target <= |Side(cards, cluster, true)|)
    ensures Precedes(cards, i, j)
  {
    var toMig := Raises(cards, cluster, target);
    PickSize(cards, cluster, true);
    PickSize(cards, cluster, !toMig);
    PickWithin(cards, cluster, !toMig, false, |cards|);
    var spares := Pick(cards, cluster, !toMig, false, |cards|);
    SortSorts(cards, spares);
    var order, r := Sort(cards, spares), Chosen(cards, cluster, target);
    assert j in Members(spares) && j in order;
    SortedPrefix(cards, order, |r|, i, j);
  }

  lemma SortedPrefix(cards: seq<Card>, order: seq<nat>, n: nat, i: nat, j: nat)
    requires Within(order, |cards|) && Sorted(cards, order) && n <= |order|
    requires i < |cards| && j < |cards| && i in order[..n] && j in order && j !in order[..n]
    ensures Precedes(cards, i, j)
  {
    var r, rest := order[..n], order[n..];
    assert order == r + rest;
    var a :| 0 <= a < |r| && r[a] == i;
    var b :| 0 <= b < |rest| && rest[b] == j;
    assert Precedes(cards, order[a], order[n + b]);
  }
}
