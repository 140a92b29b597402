/** The card table and the handlers that update its rows in place. */
module Fleet {
  import opened Prelude
  import opened Pool
  import opened Drain

  class CardTable {
    var cards: seq<Card>

    constructor (cards: seq<Card>)
      ensures this.cards == cards
    {
      this.cards := cards;
    }

    method ListCards(cluster: Id, mig: bool, lentToo: bool) returns (r: seq<nat>)
      ensures r == Pick(cards, cluster, mig, lentToo, |cards|)
    {
      r := [];
      for n := 0 to |cards|
        invariant r == Pick(cards, cluster, mig, lentToo, n)
      {
        var c := cards[n];
        if c.cluster == cluster && c.healthy && (Target(c) == Mig) == mig && (lentToo || !c.lent) {
          r := r + [n];
        }
      }
    }

    method MarkCards(chosen: seq<nat>, toMig: bool)
      requires Within(chosen, |cards|)
      modifies this
      ensures cards == Mark(old(cards), chosen, toMig)
    {
      for k := 0 to |chosen|
        invariant cards == Mark(old(cards), chosen[..k], toMig)
      {
        assert chosen[..k + 1][..k] == chosen[..k];
        MarkAt(old(cards), chosen[..k], toMig);
        var c := cards[chosen[k]];
        if toMig {
          cards := cards[chosen[k] := c.(desired := Some(Mig), state := if c.mode != Some(Mig) then Draining else Ready)];
        } else {
          cards := cards[chosen[k] := c.(desired := Some(Fractional),
                                         state := if c.mode == Some(Mig) then Draining else Ready)];
        }
      }
      assert chosen[..|chosen|] == chosen;
    }

    /** The cards to move: the first of the sorted candidates. */
    method ChooseCards(cluster: Id, target: nat, migNow: nat) returns (chosen: seq<nat>, toMig: bool)
      requires migNow == |Pick(cards, cluster, true, true, |cards|)|
      ensures chosen == Chosen(cards, cluster, target) && toMig == Raises(cards, cluster, target)
    {
      toMig := target > migNow;
      var spare := ListCards(cluster, !toMig, false);
      PickWithin(cards, cluster, !toMig, false, |cards|);
      var candidates := Sort(cards, spare);
      var wanted: nat := if toMig then target - migNow else migNow - target;
      chosen := candidates[..Min(wanted, |candidates|)];
    }

    /** `set_pool_targets`. */
    method SetPoolTargets(cluster: Id, target: nat) returns (reply: Reply)
      modifies this
      ensures reply == Verdict(old(cards), cluster, target)
      ensures cards == SetTargets(old(cards), cluster, target)
    {
      var migNow := ListCards(cluster, true, true);
      var coreNow := ListCards(cluster, false, true);
      if |migNow| + |coreNow| == 0 {
        return NoCards;
      }
      if target > |migNow| + |coreNow| {
        return TooMany;
      }
      var chosen, toMig := ChooseCards(cluster, target, |migNow|);
      MarkCards(chosen, toMig);
      return Split(chosen);
    }

    /** `set_gpu_device_mode`; false is the refusal of a lent card. */
    method SetDeviceMode(i: nat, want: Option<Mode>) returns (ok: bool)
      requires i < |cards|
      modifies this
      ensures ok <==> !old(cards)[i].lent
      ensures cards == old(cards)[i := React(old(cards)[i], Requested(want))]
    {
      var c := cards[i];
      if c.lent {
        return false;
      }
      if want.None? || want == c.mode {
        cards := cards[i := c.(desired := want, state := Ready)];
      } else {
        cards := cards[i := c.(desired := want, state := Draining)];
      }
      return true;
    }

    /** One pass of the worker; `node` and `phases` are what the cluster answers for each card. */
    method Rebalance(nodes: seq<bool>, phases: seq<Phase>)
      requires |nodes| == |phases| == |cards|
      modifies this
      ensures |cards| == |old(cards)|
      ensures forall i :: 0 <= i < |cards| ==> cards[i] == React(old(cards)[i], Tick(nodes[i], phases[i]))
    {
      for k := 0 to |cards|
        invariant |cards| == |old(cards)|
        invariant forall i :: 0 <= i < k ==> cards[i] == React(old(cards)[i], Tick(nodes[i], phases[i]))
        invariant forall i :: k <= i < |cards| ==> cards[i] == old(cards)[i]
      {
        var c := cards[k];
        if c.state == Draining || c.state == Applying {
          if c.desired.None? {
            c := c.(state := Ready);
          } else if c.state == Draining {
            if (c.desired == Some(Mig)) == (c.mode == Some(Mig)) {
              c := ApplyDrained(c);
            } else if c.mem == 0 && c.cores == 0 && !c.lent && nodes[k] {
              c := c.(state := Applying);
            }
          } else if phases[k] == Broken {
            c := c.(state := Failed);
          } else if phases[k] == Succeeded && (c.mode == Some(Mig)) == (c.desired == Some(Mig)) {
            c := c.(mode := c.desired, state := Ready);
          }
        }
        cards := cards[k := c];
      }
    }
  }
}
