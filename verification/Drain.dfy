/** One card's mode over time: the administrator's target, the drain that follows it, the worker that has
    the node changed, and the inventory reports of what the node really runs. */
module Drain {
  import opened Prelude
  import opened Pool

  datatype Phase = Unfinished | Succeeded | Broken

  datatype Event =
    | Requested(want: Option<Mode>)
    | Released
    | Tick(nodeKnown: bool, phase: Phase)
    | Report(seen: Option<Mode>)
    | Occupied(mem: nat, cores: nat, lent: bool)

  predicate Metadata(m: Option<Mode>)
  {
    m == Some(Fractional) || m == Some(Exclusive)
  }

  predicate Busy(c: Card)
  {
    c.mem != 0 || c.cores != 0 || c.lent
  }

  /** `maybe_apply_drained_mode`. */
  function ApplyDrained(c: Card): Card
  {
    if c.state != Draining || c.desired.None? || Busy(c) then c
    else if Metadata(c.desired) && (Metadata(c.mode) || c.mode.None?) then c.(mode := c.desired, state := Ready)
    else c
  }

  /** One card's step of the rebalancing worker, which looks at draining and applying cards. */
  function Rebalanced(c: Card, nodeKnown: bool, phase: Phase): Card
  {
    if c.state != Draining && c.state != Applying then c
    else if c.desired.None? then c.(state := Ready)
    else if c.state == Draining then
      if (c.desired == Some(Mig)) == (c.mode == Some(Mig)) then ApplyDrained(c)
      else if Busy(c) || !nodeKnown then c
      else c.(state := Applying)
    else if phase == Broken then c.(state := Failed)
    else if phase == Succeeded && (c.mode == Some(Mig)) == (c.desired == Some(Mig)) then
      c.(mode := c.desired, state := Ready)
    else c
  }

  /** `set_gpu_device_mode`; a lent card is refused. */
  function WithTarget(c: Card, want: Option<Mode>): Card
  {
    if c.lent then c
    else c.(desired := want, state := if want.None? || want == c.mode then Ready else Draining)
  }

  /** The mode part of an inventory report. */
  function Reported(c: Card, seen: Option<Mode>): Card
  {
    if seen == Some(Mig) then c.(mode := Some(Mig))
    else if seen.None? then c
    else if Metadata(c.desired) then if c.state == Ready then c.(mode := c.desired) else c
    else if c.mode.None? || c.mode == Some(Mig) then c.(mode := seen)
    else c
  }

  function React(c: Card, e: Event): Card
  {
    match e
    case Requested(want) => WithTarget(c, want)
    case Released => ApplyDrained(c)
    case Tick(nodeKnown, phase) => Rebalanced(c, nodeKnown, phase)
    case Report(seen) => Reported(c, seen)
    case Occupied(mem, cores, lent) => c.(mem := mem, cores := cores, lent := lent)
  }

  // ---- a card open to placements is where its target says ----

  /** A ready card's target and its observed mode are on the same side of the MIG line. */
  predicate Aligned(c: Card)
  {
    c.state == Ready ==> (InMig(c) <==> c.mode == Some(Mig))
  }

  /** A ready card runs exactly the mode asked for. */
  predicate Fitting(c: Card)
  {
    c.state == Ready ==> c.desired.None? || c.desired == c.mode
  }

  /** The report does not say that a ready card with a target is on the other side of the line. */
  predicate Agrees(c: Card, e: Event)
  {
    e.Report? && e.seen.Some? && c.state == Ready && c.desired.Some? ==> (c.desired == Some(Mig) <==> e.seen == Some(Mig))
  }

  /** Only a contradicting report can put a ready card on the wrong side; every other event, and every
      agreeing report, keeps both relations. */
  lemma ReactKeepsIff(c: Card, e: Event)
    ensures Aligned(c) ==> (Aligned(React(c, e)) <==> Agrees(c, e))
    ensures Fitting(c) ==> (Fitting(React(c, e)) <==> Agrees(c, e))
  {
    match e {
      case Requested(want) =>
      case Released =>
      case Tick(nodeKnown, phase) =>
      case Report(seen) =>
      case Occupied(mem, cores, lent) =>
    }
  }

  datatype Act = On(card: nat, event: Event) | Retarget(cluster: Id, target: nat)

  function Do(cards: seq<Card>, act: Act): seq<Card>
  {
    match act
    case On(i, e) => if i < |cards| then cards[i := React(cards[i], e)] else cards
    case Retarget(cluster, target) => SetTargets(cards, cluster, target)
  }

  function Play(cards: seq<Card>, acts: seq<Act>): seq<Card>
    decreases |acts|
  {
    if acts == [] then cards else Play(Do(cards, acts[0]), acts[1..])
  }

  predicate AllAgree(cards: seq<Card>, acts: seq<Act>)
    decreases |acts|
  {
    acts == []
    || ((acts[0].On? && acts[0].card < |cards| ==> Agrees(cards[acts[0].card], acts[0].event))
        && AllAgree(Do(cards, acts[0]), acts[1..]))
  }

  predicate AllAligned(cards: seq<Card>)
  {
    forall i :: 0 <= i < |cards| ==> Aligned(cards[i])
  }

  lemma RetargetKeepsAligned(cards: seq<Card>, cluster: Id, target: nat)
    requires AllAligned(cards)
    ensures AllAligned(SetTargets(cards, cluster, target))
  {
    if Verdict(cards, cluster, target).Split? {
      TargetsAt(cards, cluster, target);
    }
  }

  /** Over every run of target changes, splits, releases, worker ticks and reports that do not contradict
      a ready card, ready cards stay on their target's side. */
  lemma {:induction false} RunKeepsAligned(cards: seq<Card>, acts: seq<Act>)
    requires AllAligned(cards) && AllAgree(cards, acts)
    ensures AllAligned(Play(cards, acts))
    decreases |acts|
  {
    if acts != [] {
      match acts[0] {
        case On(i, e) =>
          if i < |cards| {
            ReactKeepsIff(cards[i], e);
          }
        case Retarget(cluster, target) =>
          RetargetKeepsAligned(cards, cluster, target);
      }
      RunKeepsAligned(Do(cards, acts[0]), acts[1..]);
    }
  }

  // ---- the split leaves some ready cards in another mode than their target ----

  predicate AllFitting(cards: seq<Card>)
  {
    forall i :: 0 <= i < |cards| ==> Fitting(cards[i])
  }

  /** A split keeps the exact relation unless it takes out of the MIG pool a card that never got there and
      is not in fractional mode: that card is marked ready for a mode it does not run. */
  lemma RetargetFittingIff(cards: seq<Card>, cluster: Id, target: nat)
    requires AllFitting(cards) && Verdict(cards, cluster, target).Split?
    ensures AllFitting(SetTargets(cards, cluster, target)) <==>
            Raises(cards, cluster, target)
            || forall i :: i in Chosen(cards, cluster, target) ==>
                 i < |cards| && (cards[i].mode == Some(Mig) || cards[i].mode == Some(Fractional))
  {
    TargetsAt(cards, cluster, target);
    var after, chosen := SetTargets(cards, cluster, target), Chosen(cards, cluster, target);
    forall i | i in chosen
      ensures i < |cards| && (Fitting(after[i]) <==>
                Raises(cards, cluster, target) || cards[i].mode == Some(Mig) || cards[i].mode == Some(Fractional))
    {
      var k :| 0 <= k < |chosen| && chosen[k] == i;
    }
  }

  lemma ExclusiveCardLeftUnfit()
    ensures var card := Card("c", true, Some(Exclusive), Some(Mig), Draining, 0, 0, false);
            var after := SetTargets([card], "c", 0);
            AllFitting([card]) && |after| == 1 && after[0].state == Ready && after[0].desired == Some(Fractional)
            && after[0].mode == Some(Exclusive)
  {
    var card := Card("c", true, Some(Exclusive), Some(Mig), Draining, 0, 0, false);
    assert Pick([card], "c", true, true, 1) == [0] && Pick([card], "c", true, false, 1) == [0];
    assert Pick([card], "c", false, true, 1) == [];
    assert Sort([card], [0]) == [0];
    assert Chosen([card], "c", 0) == [0];
    TargetsAt([card], "c", 0);
  }

  // ---- which transitions can finish ----

  function After(c: Card, events: seq<Event>): Card
    decreases |events|
  {
    if events == [] then c else After(React(c, events[0]), events[1..])
  }

  /** Nobody changes the target meanwhile. */
  predicate Background(events: seq<Event>)
  {
    forall k :: 0 <= k < |events| ==> !events[k].Requested?
  }

  predicate LeavingMig(c: Card)
  {
    c.state != Ready && Metadata(c.desired) && c.mode == Some(Mig)
  }

  /** A card being taken off MIG is never ready again, whatever the workers and reports do: the worker waits
      for the observed mode to leave MIG, and a report changes the mode of such a card only once it is ready. */
  lemma {:induction false} LeavingMigNeverFinishes(c: Card, events: seq<Event>)
    requires LeavingMig(c) && Background(events)
    ensures LeavingMig(After(c, events))
    decreases |events|
  {
    if events != [] {
      var e := events[0];
      assert !e.Requested?;
      assert LeavingMig(React(c, e)) by {
        match e {
          case Released =>
          case Tick(nodeKnown, phase) =>
          case Report(seen) =>
          case Occupied(mem, cores, lent) =>
        }
      }
      LeavingMigNeverFinishes(React(c, e), events[1..]);
    }
  }

  function FinishingRun(c: Card): seq<Event>
  {
    var join := [Tick(true, Unfinished), Report(Some(Mig)), Tick(true, Succeeded)];
    if c.state == Applying then
      if c.desired == Some(Mig) then [Report(Some(Mig)), Tick(true, Succeeded)] else [Tick(true, Succeeded)]
    else if c.desired != Some(Mig) then [Occupied(0, 0, false), Released]
    else [Occupied(0, 0, false), Report(Some(Fractional))] + join
  }

  lemma ModeCases(m: Option<Mode>)
    ensures m.None? || m == Some(Mig) || Metadata(m)
  {
    if m.Some? {
      match m.value {
        case Fractional =>
        case Exclusive =>
        case Mig =>
      }
    }
  }

  lemma FinishingRunFinishes(c: Card)
    requires (c.state == Draining || c.state == Applying) && c.desired.Some? && !LeavingMig(c)
    ensures After(c, FinishingRun(c)).state == Ready
  {
    ModeCases(c.mode);
    ModeCases(c.desired);
    var run := FinishingRun(c);
    var one := React(c, run[0]);
    assert After(c, run) == After(one, run[1..]);
    if |run| > 1 {
      var two := React(one, run[1]);
      assert run[1..][1..] == run[2..] && After(one, run[1..]) == After(two, run[2..]);
      if |run| == 2 {
        assert run[2..] == [] && After(two, run[2..]) == two;
      } else {
        var three := React(two, run[2]);
        assert run[2..][1..] == run[3..] && After(two, run[2..]) == After(three, run[3..]);
        var four := React(three, run[3]);
        assert run[3..][1..] == run[4..] && After(three, run[3..]) == After(four, run[4..]);
        assert run[4..][1..] == [] && After(four, run[4..]) == React(four, run[4]);
      }
    }
  }

  /** A pending transition can still finish exactly when it is not one out of MIG: the docstring's
      cycle back to ready exists in one direction only. */
  lemma FinishesIff(c: Card)
    requires (c.state == Draining || c.state == Applying) && c.desired.Some?
    ensures (exists events :: Background(events) && After(c, events).state == Ready) <==> !LeavingMig(c)
  {
    if LeavingMig(c) {
      forall events | Background(events) ensures After(c, events).state != Ready {
        LeavingMigNeverFinishes(c, events);
      }
    } else {
      var run := FinishingRun(c);
      assert Background(run);
      FinishingRunFinishes(c);
    }
  }

  // ---- what each event does ----

  /** Asking for a mode: refused for a lent card, ready at once if there is nothing to change, else draining. */
  lemma RequestEffect(c: Card, want: Option<Mode>)
    ensures
      React(c, Requested(want)) ==
      if c.lent then c
      else Card(c.cluster, c.healthy, c.mode, want, if want.None? || want == c.mode then Ready else Draining, c.mem, c.cores, c.lent)
  {
  }

  /** The observed mode changes by a report, by a release or pass that applies a target, and by nothing else; outside
      reports it becomes the target, on a card that is ready afterwards. */
  lemma ModeChanges(c: Card, e: Event)
    requires React(c, e).mode != c.mode
    ensures
      || (e.Report? && (React(c, e).mode == e.seen || React(c, e).mode == c.desired))
      || ((e.Released? || e.Tick?) && React(c, e).mode == c.desired && React(c, e).state == Ready
          && (c.state == Draining ==> !Busy(c)))
  {
  }

  /** A draining card between the two modes of one side is applied by the next release or pass once it is empty, and
      never before. */
  lemma SameSideApplies(c: Card, e: Event)
    requires c.state == Draining && Metadata(c.desired) && c.mode != Some(Mig) && (e.Released? || e.Tick?)
    ensures React(c, e) == if c.mem == 0 && c.cores == 0 && !c.lent then c.(mode := c.desired, state := Ready) else c
  {
    ModeCases(c.mode);
  }

  /** A draining card that has to cross the MIG line waits for a pass that finds it empty on a known node, and for
      nothing else. */
  lemma CrossingStarts(c: Card, e: Event)
    requires c.state == Draining && c.desired.Some? && (c.desired == Some(Mig)) != (c.mode == Some(Mig))
    requires e.Released? || e.Tick?
    ensures React(c, e) ==
            if e.Tick? && e.nodeKnown && c.mem == 0 && c.cores == 0 && !c.lent then c.(state := Applying) else c
  {
    ModeCases(c.desired);
    ModeCases(c.mode);
  }

  /** A change in progress ends by the job's failure, or by its success once the new side is observed. */
  lemma CrossingEnds(c: Card, nodeKnown: bool, phase: Phase)
    requires c.state == Applying && c.desired.Some?
    ensures React(c, Tick(nodeKnown, phase)) ==
            if phase == Broken then c.(state := Failed)
            else if phase == Succeeded && (c.mode == Some(Mig) <==> c.desired == Some(Mig)) then c.(mode := c.desired, state := Ready)
            else c
  {
  }

  /** A report of MIG is always taken over. A report of the other side is taken as the card's target when it has one
      there and is ready, and as seen when it has no such target and is not known on that side. */
  lemma ReportEffect(c: Card, seen: Option<Mode>)
    ensures React(c, Report(seen)) == c.(mode := React(c, Report(seen)).mode)
    ensures seen == Some(Mig) ==> React(c, Report(seen)).mode == Some(Mig)
    ensures seen == None ==> React(c, Report(seen)) == c
    ensures seen.Some? && seen != Some(Mig) ==>
              React(c, Report(seen)).mode ==
              if c.desired == Some(Fractional) || c.desired == Some(Exclusive) then (if c.state == Ready then c.desired else c.mode)
              else if c.mode == None || c.mode == Some(Mig) then seen
              else c.mode
  {
  }

  /** A card without a target that is on its way is ready again at the next pass; a ready or failed card is left alone
      by releases and passes. */
  lemma IdleCard(c: Card, nodeKnown: bool, phase: Phase)
    ensures c.desired.None? && (c.state == Draining || c.state == Applying) ==>
              React(c, Tick(nodeKnown, phase)) == c.(state := Ready) && React(c, Released) == c
    ensures c.state == Ready || c.state == Failed ==> React(c, Tick(nodeKnown, phase)) == c && React(c, Released) == c
  {
  }
}
