/** A wallet's daily spend on the caller's own clock. Instants are microseconds and days are day numbers. */
module Spend {
  import opened Prelude
  import opened Sums
  import opened Ledger

  const DAY := 86_400_000_000
  const MINUTE := 60_000_000
  const ROW_CAP := 500_000

  /** The calendar day of an instant on a clock `offset` microseconds ahead of UTC. */
  function LocalDay(at: int, offset: int): int
  {
    (at + offset) / DAY
  }

  /** The query's range: the first day's midnight to the last day's final microsecond, both shifted. */
  predicate InWindow(at: int, frm: int, to: int, offset: int)
  {
    frm * DAY - offset <= at <= to * DAY + (DAY - 1) - offset
  }

  /** The shifted range holds exactly the instants whose local day is asked for. */
  lemma WindowIsTheLocalDays(at: int, frm: int, to: int, offset: int)
    ensures InWindow(at, frm, to, offset) <==> frm <= LocalDay(at, offset) <= to
  {
    var x, d := at + offset, LocalDay(at, offset);
    assert x == d * DAY + x % DAY;
  }

  predicate Spends(t: Txn, wallet: Id)
  {
    t.wallet == wallet && t.kind == Consume
  }

  function Abs(x: int): int
  {
    if x < 0 then -x else x
  }

  /** What the wallet spent on one local day. */
  function SpentOn(txns: seq<Txn>, wallet: Id, offset: int, day: int): int
  {
    if txns == [] then 0
    else
      var t := txns[|txns| - 1];
      SpentOn(txns[..|txns| - 1], wallet, offset, day)
      + if Spends(t, wallet) && LocalDay(t.at, offset) == day then Abs(t.amount) else 0
  }

  /** What it spent over a range of local days. */
  function SpentOver(txns: seq<Txn>, wallet: Id, offset: int, frm: int, to: int): int
  {
    if txns == [] then 0
    else
      var t := txns[|txns| - 1];
      SpentOver(txns[..|txns| - 1], wallet, offset, frm, to)
      + if Spends(t, wallet) && frm <= LocalDay(t.at, offset) <= to then Abs(t.amount) else 0
  }

  predicate SpendsOn(txns: seq<Txn>, wallet: Id, offset: int, day: int)
  {
    exists i :: 0 <= i < |txns| && Spends(txns[i], wallet) && LocalDay(txns[i].at, offset) == day
  }

  /** The rows the query returns, before its cap. */
  function Selected(txns: seq<Txn>, wallet: Id, frm: int, to: int, offset: int): seq<Txn>
  {
    if txns == [] then []
    else
      var t := txns[|txns| - 1];
      Selected(txns[..|txns| - 1], wallet, frm, to, offset)
      + if Spends(t, wallet) && InWindow(t.at, frm, to, offset) then [t] else []
  }

  lemma {:induction false} SelectedKeepsDays(txns: seq<Txn>, wallet: Id, frm: int, to: int, offset: int)
    ensures forall t :: t in Selected(txns, wallet, frm, to, offset) <==>
                        t in txns && Spends(t, wallet) && frm <= LocalDay(t.at, offset) <= to
    decreases |txns|
  {
    if txns != [] {
      var front, last := txns[..|txns| - 1], txns[|txns| - 1];
      assert txns == front + [last];
      SelectedKeepsDays(front, wallet, frm, to, offset);
      WindowIsTheLocalDays(last.at, frm, to, offset);
    }
  }

  lemma SpentOnAppend(rows: seq<Txn>, t: Txn, wallet: Id, offset: int, day: int)
    ensures SpentOn(rows + [t], wallet, offset, day)
            == SpentOn(rows, wallet, offset, day)
               + if Spends(t, wallet) && LocalDay(t.at, offset) == day then Abs(t.amount) else 0
  {
    assert (rows + [t])[..|rows|] == rows;
  }

  lemma {:induction false} SelectedSpend(txns: seq<Txn>, wallet: Id, frm: int, to: int, offset: int, day: int)
    requires frm <= day <= to
    ensures SpentOn(Selected(txns, wallet, frm, to, offset), wallet, offset, day) == SpentOn(txns, wallet, offset, day)
    decreases |txns|
  {
    if txns != [] {
      var front, last := txns[..|txns| - 1], txns[|txns| - 1];
      SelectedSpend(front, wallet, frm, to, offset, day);
      WindowIsTheLocalDays(last.at, frm, to, offset);
      var chosen := Selected(front, wallet, frm, to, offset);
      SpentOnAppend(chosen, last, wallet, offset, day);
      assert chosen + [] == chosen;
    }
  }

  /** What the loop has built from some rows: the right amount under every day that occurs. */
  ghost predicate Buckets(rows: seq<Txn>, wallet: Id, offset: int, byDay: map<int, int>)
  {
    forall d :: && (d in byDay <==> SpendsOn(rows, wallet, offset, d))
                && SpentOn(rows, wallet, offset, d) == if d in byDay then byDay[d] else 0
  }

  lemma BucketStep(rows: seq<Txn>, t: Txn, wallet: Id, offset: int, byDay: map<int, int>, d: int)
    requires Buckets(rows, wallet, offset, byDay) && Spends(t, wallet) && d == LocalDay(t.at, offset)
    ensures Buckets(rows + [t], wallet, offset, byDay[d := (if d in byDay then byDay[d] else 0) + Abs(t.amount)])
  {
    var after := rows + [t];
    forall e
      ensures SpendsOn(after, wallet, offset, e) <==> SpendsOn(rows, wallet, offset, e) || e == d
      ensures SpentOn(after, wallet, offset, e)
              == SpentOn(rows, wallet, offset, e) + if e == d then Abs(t.amount) else 0
    {
      SpentOnAppend(rows, t, wallet, offset, e);
      assert after[|rows|] == t;
      if SpendsOn(rows, wallet, offset, e) {
        var i :| 0 <= i < |rows| && Spends(rows[i], wallet) && LocalDay(rows[i].at, offset) == e;
        assert after[i] == rows[i];
      }
    }
  }

  datatype Chart = Days(byDay: map<int, int>) | BadRange

  /** The chart the endpoint promises: each local day with spend, at that day's total. */
  ghost predicate IsChart(txns: seq<Txn>, wallet: Id, frm: int, to: int, offset: int, byDay: map<int, int>)
  {
    forall d :: && (d in byDay <==> frm <= d <= to && SpendsOn(txns, wallet, offset, d))
                && (d in byDay ==> byDay[d] == SpentOn(txns, wallet, offset, d))
  }

  method Query(txns: seq<Txn>, wallet: Id, frm: int, to: int, offset: int) returns (rows: seq<Txn>)
    ensures var all := Selected(txns, wallet, frm, to, offset);
            rows == all[..Min(|all|, ROW_CAP)]
  {
    rows := [];
    for i := 0 to |txns|
      invariant rows == Selected(txns[..i], wallet, frm, to, offset)
    {
      assert txns[..i + 1][..i] == txns[..i];
      if txns[i].wallet == wallet && txns[i].kind == Consume && InWindow(txns[i].at, frm, to, offset) {
        rows := rows + [txns[i]];
      }
    }
    assert txns[..|txns|] == txns;
    rows := rows[..Min(|rows|, ROW_CAP)];
  }

  /** `spend_daily`: under the row cap, the chart of the table. */
  method SpendDaily(txns: seq<Txn>, wallet: Id, frm: int, to: int, offsetMinutes: int) returns (chart: Chart)
    ensures chart.BadRange? <==> to < frm || to - frm > 366
    ensures chart.Days? && |Selected(txns, wallet, frm, to, offsetMinutes * 60_000_000)| <= 500_000 ==>
              IsChart(txns, wallet, frm, to, offsetMinutes * 60_000_000, chart.byDay)
  {
    if to < frm || to - frm > 366 {
      return BadRange;
    }
    var offset := offsetMinutes * MINUTE;
    var rows := Query(txns, wallet, frm, to, offset);
    SelectedKeepsDays(txns, wallet, frm, to, offset);
    var byDay: map<int, int> := map[];
    for n := 0 to |rows|
      invariant Buckets(rows[..n], wallet, offset, byDay)
    {
      assert rows[..n + 1] == rows[..n] + [rows[n]];
      var d := LocalDay(rows[n].at, offset);
      assert rows[n] in Selected(txns, wallet, frm, to, offset);
      if d < frm || d > to {
        // Never taken: the query has selected these days already.
        assert false;
      }
      BucketStep(rows[..n], rows[n], wallet, offset, byDay, d);
      byDay := byDay[d := (if d in byDay then byDay[d] else 0) + Abs(rows[n].amount)];
    }
    assert rows[..|rows|] == rows;
    if |Selected(txns, wallet, frm, to, offset)| <= ROW_CAP {
      assert rows == Selected(txns, wallet, frm, to, offset);
      ChartOfSelected(txns, wallet, frm, to, offset, byDay);
    }
    return Days(byDay);
  }

  lemma ChartOfSelected(txns: seq<Txn>, wallet: Id, frm: int, to: int, offset: int, byDay: map<int, int>)
    requires Buckets(Selected(txns, wallet, frm, to, offset), wallet, offset, byDay)
    ensures IsChart(txns, wallet, frm, to, offset, byDay)
  {
    var rows := Selected(txns, wallet, frm, to, offset);
    SelectedKeepsDays(txns, wallet, frm, to, offset);
    forall d ensures d in byDay <==> frm <= d <= to && SpendsOn(txns, wallet, offset, d) {
      if d in byDay {
        var i :| 0 <= i < |rows| && Spends(rows[i], wallet) && LocalDay(rows[i].at, offset) == d;
        assert rows[i] in rows && rows[i] in txns;
      }
      if frm <= d <= to && SpendsOn(txns, wallet, offset, d) {
        var i :| 0 <= i < |txns| && Spends(txns[i], wallet) && LocalDay(txns[i].at, offset) == d;
        assert txns[i] in rows;
      }
    }
    forall d | d in byDay ensures byDay[d] == SpentOn(txns, wallet, offset, d) {
      SelectedSpend(txns, wallet, frm, to, offset, d);
    }
  }

  // ---- nothing is lost between the days ----

  ghost function Listed(byDay: map<int, int>): int
  {
    Sum(byDay.Keys, d => if d in byDay then byDay[d] else 0)
  }

  /** The days of a chart add up to what the wallet spent over the range. */
  lemma ChartConservesSpend(txns: seq<Txn>, wallet: Id, frm: int, to: int, offset: int, byDay: map<int, int>)
    requires IsChart(txns, wallet, frm, to, offset, byDay)
    ensures Listed(byDay) == SpentOver(txns, wallet, offset, frm, to)
  {
    var f := (d: int) => SpentOn(txns, wallet, offset, d);
    SumAgree(byDay.Keys, d => if d in byDay then byDay[d] else 0, f);
    DaysAddUp(txns, wallet, frm, to, offset, byDay.Keys);
  }

  lemma {:induction false} DaysAddUp(txns: seq<Txn>, wallet: Id, frm: int, to: int, offset: int, days: set<int>)
    requires forall d :: d in days ==> frm <= d <= to
    requires forall d :: frm <= d <= to && SpendsOn(txns, wallet, offset, d) ==> d in days
    ensures Sum(days, (d: int) => SpentOn(txns, wallet, offset, d)) == SpentOver(txns, wallet, offset, frm, to)
    decreases |txns|
  {
    if txns == [] {
      SumAgree(days, (d: int) => SpentOn(txns, wallet, offset, d), (d: int) => 0);
      SumConstant(days, (d: int) => 0, 0);
    } else {
      var front, last := txns[..|txns| - 1], txns[|txns| - 1];
      forall d | frm <= d <= to && SpendsOn(front, wallet, offset, d) ensures d in days {
        var i :| 0 <= i < |front| && Spends(front[i], wallet) && LocalDay(front[i].at, offset) == d;
        assert txns[i] == front[i];
      }
      DaysAddUp(front, wallet, frm, to, offset, days);
      var f := (d: int) => SpentOn(front, wallet, offset, d);
      var g := (d: int) => SpentOn(txns, wallet, offset, d);
      var day := LocalDay(last.at, offset);
      if Spends(last, wallet) && frm <= day <= to {
        assert SpendsOn(txns, wallet, offset, day);
        SumUpdate(days, f, g, day);
      } else {
        SumAgree(days, f, g);
      }
    }
  }

  // ---- the figures on the table ----

  /** A wallet's charges on one day of a clock `offset` ahead of UTC, from its midnight to the next. */
  ghost function ChargesOn(txns: seq<Txn>, wallet: Id, offset: int, day: int): set<int>
  {
    set i | 0 <= i < |txns| && txns[i].wallet == wallet && txns[i].kind == Consume
          && day * DAY <= txns[i].at + offset < (day + 1) * DAY
  }

  ghost function SizeAt(txns: seq<Txn>): int -> int
  {
    (i: int) => if 0 <= i < |txns| then (if txns[i].amount < 0 then -txns[i].amount else txns[i].amount) else 0
  }

  lemma DayIff(at: int, offset: int, day: int)
    ensures LocalDay(at, offset) == day <==> day * 86_400_000_000 <= at + offset < (day + 1) * 86_400_000_000
  {
  }

  /** What a chart shows for a day is the sum of the charges of that day. */
  lemma {:induction false} SpentOnIsSum(txns: seq<Txn>, wallet: Id, offset: int, day: int)
    ensures SpentOn(txns, wallet, offset, day) == Sum(ChargesOn(txns, wallet, offset, day), SizeAt(txns))
    ensures SpendsOn(txns, wallet, offset, day) <==> ChargesOn(txns, wallet, offset, day) != {}
    decreases |txns|
  {
    if txns == [] {
      assert ChargesOn(txns, wallet, offset, day) == {};
    } else {
      var n := |txns| - 1;
      var front := txns[..n];
      SpentOnIsSum(front, wallet, offset, day);
      DayIff(txns[n].at, offset, day);
      var before, all := ChargesOn(front, wallet, offset, day), ChargesOn(txns, wallet, offset, day);
      SumAgree(before, SizeAt(front), SizeAt(txns));
      assert all - {n} == before;
      if n in all {
        SumRemove(all, SizeAt(txns), n);
      } else {
        assert all == before;
      }
      DaySeen(txns, wallet, offset, day);
    }
  }

  lemma DaySeen(txns: seq<Txn>, wallet: Id, offset: int, day: int)
    ensures SpendsOn(txns, wallet, offset, day) <==> ChargesOn(txns, wallet, offset, day) != {}
  {
    if SpendsOn(txns, wallet, offset, day) {
      var i :| 0 <= i < |txns| && Spends(txns[i], wallet) && LocalDay(txns[i].at, offset) == day;
      DayIff(txns[i].at, offset, day);
      assert i in ChargesOn(txns, wallet, offset, day);
    }
    if i :| i in ChargesOn(txns, wallet, offset, day) {
      DayIff(txns[i].at, offset, day);
    }
  }

  /** The chart: a day of the range is on it exactly when the wallet was charged that day, with the sum of those
      charges. */
  lemma ChartIs(txns: seq<Txn>, wallet: Id, frm: int, to: int, offset: int, byDay: map<int, int>, day: int)
    requires IsChart(txns, wallet, frm, to, offset, byDay)
    ensures day in byDay <==> frm <= day <= to && ChargesOn(txns, wallet, offset, day) != {}
    ensures day in byDay ==> byDay[day] == Sum(ChargesOn(txns, wallet, offset, day), SizeAt(txns))
  {
    SpentOnIsSum(txns, wallet, offset, day);
  }
}
