/** Folding settle markers into the wallet page: a settle row carries no money, so it becomes a flag on the
    line of its session that a person looks at first. */
module Fold {
  import opened Prelude
  import opened Ledger

  datatype Line = Line(ref: Option<string>, kind: Kind, amount: int, settled: bool)

  /** Preference among the lines that can carry the flag; 3 for those that cannot. */
  function Rank(k: Kind): nat
  {
    match k
    case Refund => 0
    case Consume => 1
    case Hold => 2
    case _ => 3
  }

  const HOST_ORDER: seq<Kind> := [Refund, Consume, Hold]

  ghost function SettledRefs(rows: seq<Line>): set<string>
  {
    set i | 0 <= i < |rows| && rows[i].kind == Settle && rows[i].ref.Some? && rows[i].ref.value != "" :: rows[i].ref.value
  }

  /** The line could carry the flag of a session settled on this page. */
  ghost predicate Candidate(rows: seq<Line>, i: int)
    requires 0 <= i < |rows|
  {
    rows[i].ref.Some? && rows[i].ref.value in SettledRefs(rows) && Rank(rows[i].kind) < 3
  }

  /** Visited before the point (rank k, row n) of the nested loops. */
  predicate Visited(rows: seq<Line>, i: int, k: nat, n: nat)
    requires 0 <= i < |rows|
  {
    Rank(rows[i].kind) < k || (Rank(rows[i].kind) == k && i < n)
  }

  /** The first line of the best kind for its session. */
  ghost predicate IsHost(rows: seq<Line>, i: int)
    requires 0 <= i < |rows|
  {
    Candidate(rows, i)
    && forall j :: 0 <= j < |rows| && Candidate(rows, j) && rows[j].ref == rows[i].ref ==>
         !Visited(rows, j, Rank(rows[i].kind), i)
  }

  ghost function Hosted(rows: seq<Line>, k: nat, n: nat): set<string>
  {
    set i | 0 <= i < |rows| && Candidate(rows, i) && Visited(rows, i, k, n) :: rows[i].ref.value
  }

  /** Sessions whose flag found a line. */
  ghost function HostedRefs(rows: seq<Line>): set<string>
  {
    Hosted(rows, 3, 0)
  }

  predicate Absorbed(row: Line, hosted: set<string>)
  {
    row.kind == Settle && row.ref.Some? && row.ref.value in hosted
  }

  function Keep(rows: seq<Line>, hosted: set<string>): seq<Line>
  {
    if rows == [] then []
    else Keep(rows[..|rows| - 1], hosted) + if Absorbed(rows[|rows| - 1], hosted) then [] else [rows[|rows| - 1]]
  }

  /** Rows flagged up to the point (k, n). */
  ghost predicate FlaggedUpTo(rows: seq<Line>, marked: seq<Line>, k: nat, n: nat)
  {
    && |marked| == |rows|
    && forall i :: 0 <= i < |rows| ==>
         marked[i] == rows[i].(settled := rows[i].settled || (IsHost(rows, i) && Visited(rows, i, k, n)))
  }

  /** The rows with every host flagged. */
  ghost function Flagged(rows: seq<Line>): seq<Line>
  {
    seq(|rows|, i requires 0 <= i < |rows| => rows[i].(settled := rows[i].settled || IsHost(rows, i)))
  }

  /** `_fold_settle_markers`: every host is flagged, and a settle row goes iff its session has a host. */
  method FoldSettleMarkers(rows: seq<Line>) returns (out: seq<Line>)
    ensures out == Keep(Flagged(rows), HostedRefs(rows))
  {
    var refs: set<string> := {};
    for i := 0 to |rows|
      invariant refs == SettledRefs(rows[..i])
    {
      RefsStep(rows, i);
      if rows[i].kind == Settle && rows[i].ref.Some? && rows[i].ref.value != "" {
        refs := refs + {rows[i].ref.value};
      }
    }
    assert rows[..|rows|] == rows;
    if refs == {} {
      NothingSettled(rows);
      return rows;
    }
    var lines := rows;
    var hosted: set<string> := {};
    for k := 0 to 3
      invariant FlaggedUpTo(rows, lines, k, 0) && hosted == Hosted(rows, k, 0)
    {
      for n := 0 to |rows|
        invariant FlaggedUpTo(rows, lines, k, n) && hosted == Hosted(rows, k, n)
      {
        VisitStep(rows, k, n);
        if rows[n].ref.Some? && rows[n].ref.value in refs && rows[n].ref.value !in hosted && rows[n].kind == HOST_ORDER[k] {
          lines := lines[n := lines[n].(settled := true)];
          hosted := hosted + {rows[n].ref.value};
        }
      }
      assert forall i :: 0 <= i < |rows| ==> Visited(rows, i, k, |rows|) == Visited(rows, i, k + 1, 0);
    }
    assert forall i :: 0 <= i < |rows| && IsHost(rows, i) ==> Visited(rows, i, 3, 0);
    assert lines == Flagged(rows);
    out := [];
    for i := 0 to |lines|
      invariant out == Keep(lines[..i], hosted)
    {
      assert lines[..i + 1][..i] == lines[..i];
      if !(lines[i].kind == Settle && lines[i].ref.Some? && lines[i].ref.value in hosted) {
        out := out + [lines[i]];
      }
    }
    assert lines[..|lines|] == lines;
  }

  lemma RefsStep(rows: seq<Line>, i: nat)
    requires i < |rows|
    ensures SettledRefs(rows[..i + 1]) == SettledRefs(rows[..i])
            + if rows[i].kind == Settle && rows[i].ref.Some? && rows[i].ref.value != "" then {rows[i].ref.value} else {}
  {
    var a, b := rows[..i], rows[..i + 1];
    assert b == a + [rows[i]];
    forall r | r in SettledRefs(a) ensures r in SettledRefs(b) {
      var j :| 0 <= j < |a| && a[j].kind == Settle && a[j].ref == Some(r) && r != "";
      assert b[j] == a[j];
    }
    assert b[i] == rows[i];
    forall r | r in SettledRefs(b) ensures r in SettledRefs(a) || rows[i].ref == Some(r) {
      var j :| 0 <= j < |b| && b[j].kind == Settle && b[j].ref == Some(r) && r != "";
      if j < i {
        assert a[j] == b[j];
      }
    }
  }

  lemma VisitStep(rows: seq<Line>, k: nat, n: nat)
    requires k < 3 && n < |rows|
    ensures Candidate(rows, n) && Rank(rows[n].kind) == k ==>
              Hosted(rows, k, n + 1) == Hosted(rows, k, n) + {rows[n].ref.value}
              && (IsHost(rows, n) <==> rows[n].ref.value !in Hosted(rows, k, n))
    ensures !(Candidate(rows, n) && Rank(rows[n].kind) == k) ==> Hosted(rows, k, n + 1) == Hosted(rows, k, n)
    ensures Rank(rows[n].kind) == k <==> rows[n].kind == HOST_ORDER[k]
    ensures forall i :: 0 <= i < |rows| && (i != n || Rank(rows[n].kind) != k) ==>
              Visited(rows, i, k, n + 1) == Visited(rows, i, k, n)
  {
    assert forall i :: 0 <= i < |rows| && i != n ==> Visited(rows, i, k, n + 1) == Visited(rows, i, k, n);
  }

  lemma NothingSettled(rows: seq<Line>)
    requires SettledRefs(rows) == {}
    ensures HostedRefs(rows) == {} && Keep(Flagged(rows), HostedRefs(rows)) == rows
  {
    assert forall i :: 0 <= i < |rows| ==> !Candidate(rows, i);
    assert Flagged(rows) == rows;
    KeepAll(rows);
  }

  lemma {:induction false} KeepAll(rows: seq<Line>)
    ensures Keep(rows, {}) == rows
    decreases |rows|
  {
    if rows != [] {
      KeepAll(rows[..|rows| - 1]);
    }
  }

  // ---- what the page still says ----

  function Others(rows: seq<Line>): seq<Line>
  {
    if rows == [] then []
    else Others(rows[..|rows| - 1])
         + if rows[|rows| - 1].kind == Settle then [] else [rows[|rows| - 1].(settled := false)]
  }

  function Amounts(rows: seq<Line>): int
  {
    if rows == [] then 0 else Amounts(rows[..|rows| - 1]) + rows[|rows| - 1].amount
  }

  predicate SameButFlags(rows: seq<Line>, marked: seq<Line>)
  {
    |marked| == |rows|
    && forall i :: 0 <= i < |rows| ==> marked[i].(settled := false) == rows[i].(settled := false)
  }

  lemma OthersAppend(rows: seq<Line>, row: Line)
    ensures Others(rows + [row]) == Others(rows) + if row.kind == Settle then [] else [row.(settled := false)]
    ensures Amounts(rows + [row]) == Amounts(rows) + row.amount
  {
    assert (rows + [row])[..|rows|] == rows;
  }

  /** Every row but the settle rows stays, in order and unchanged but for its flag. */
  lemma {:induction false} FoldKeepsOthers(rows: seq<Line>, marked: seq<Line>, hosted: set<string>)
    requires SameButFlags(rows, marked)
    ensures Others(Keep(marked, hosted)) == Others(rows)
    decreases |rows|
  {
    if rows != [] {
      var n := |rows| - 1;
      FoldKeepsOthers(rows[..n], marked[..n], hosted);
      var kept := Keep(marked[..n], hosted);
      assert marked[n].(settled := false) == rows[n].(settled := false);
      if Absorbed(marked[n], hosted) {
        assert kept + [] == kept;
      } else {
        OthersAppend(kept, marked[n]);
      }
    }
  }

  /** The page's amounts add up to the same when settle rows carry no money. */
  lemma {:induction false} FoldKeepsTotal(rows: seq<Line>, marked: seq<Line>, hosted: set<string>)
    requires SameButFlags(rows, marked)
    requires forall i :: 0 <= i < |rows| && rows[i].kind == Settle ==> rows[i].amount == 0
    ensures Amounts(Keep(marked, hosted)) == Amounts(rows)
    decreases |rows|
  {
    if rows != [] {
      var n := |rows| - 1;
      FoldKeepsTotal(rows[..n], marked[..n], hosted);
      var kept := Keep(marked[..n], hosted);
      assert marked[n].(settled := false) == rows[n].(settled := false);
      if Absorbed(marked[n], hosted) {
        assert kept + [] == kept;
      } else {
        OthersAppend(kept, marked[n]);
      }
    }
  }

  /** A session's flag is carried by exactly one line if any line of its could carry it, and by none
      otherwise. */
  lemma OneFlagPerSession(rows: seq<Line>, ref: string)
    requires ref in SettledRefs(rows)
    ensures ref in HostedRefs(rows) <==> exists i :: 0 <= i < |rows| && IsHost(rows, i) && rows[i].ref == Some(ref)
    ensures ref in HostedRefs(rows) <==> exists i :: 0 <= i < |rows| && rows[i].ref == Some(ref) && Rank(rows[i].kind) < 3
    ensures forall i, j :: 0 <= i < |rows| && 0 <= j < |rows| && IsHost(rows, i) && IsHost(rows, j) ==>
              rows[i].ref == Some(ref) && rows[j].ref == Some(ref) ==> i == j
  {
    if ref in HostedRefs(rows) {
      var i :| 0 <= i < |rows| && Candidate(rows, i) && rows[i].ref == Some(ref);
      var h := Least(rows, i);
      assert IsHost(rows, h);
    }
    if i :| 0 <= i < |rows| && rows[i].ref == Some(ref) && Rank(rows[i].kind) < 3 {
      assert Candidate(rows, i) && Visited(rows, i, 3, 0);
    }
  }

  lemma {:induction false} Least(rows: seq<Line>, i: nat) returns (h: nat)
    requires i < |rows| && Candidate(rows, i)
    ensures h < |rows| && IsHost(rows, h) && rows[h].ref == rows[i].ref
    decreases Rank(rows[i].kind), i
  {
    if j :| 0 <= j < |rows| && Candidate(rows, j) && rows[j].ref == rows[i].ref && Visited(rows, j, Rank(rows[i].kind), i) {
      h := Least(rows, j);
    } else {
      h := i;
    }
  }

  /** A row leaves the page exactly when it is a settle row whose session has its flag elsewhere. */
  lemma {:induction false} KeptIff(rows: seq<Line>, hosted: set<string>, row: Line)
    ensures row in Keep(rows, hosted) <==> row in rows && !Absorbed(row, hosted)
    decreases |rows|
  {
    if rows != [] {
      assert rows == rows[..|rows| - 1] + [rows[|rows| - 1]];
      KeptIff(rows[..|rows| - 1], hosted, row);
    }
  }

  /** The folded page: the other rows as they were, and the same total. */
  lemma FoldedPage(rows: seq<Line>)
    ensures Others(Keep(Flagged(rows), HostedRefs(rows))) == Others(rows)
    ensures (forall i :: 0 <= i < |rows| && rows[i].kind == Settle ==> rows[i].amount == 0) ==>
              Amounts(Keep(Flagged(rows), HostedRefs(rows))) == Amounts(rows)
  {
    assert SameButFlags(rows, Flagged(rows));
    FoldKeepsOthers(rows, Flagged(rows), HostedRefs(rows));
    if forall i :: 0 <= i < |rows| && rows[i].kind == Settle ==> rows[i].amount == 0 {
      FoldKeepsTotal(rows, Flagged(rows), HostedRefs(rows));
    }
  }

  /** The line that carries a settled session's flag: its first refund on the page, else its first charge, else its
      first hold. */
  lemma HostIs(rows: seq<Line>, i: int)
    requires 0 <= i < |rows|
    ensures IsHost(rows, i) <==>
            && rows[i].ref.Some? && rows[i].ref.value != ""
            && (exists j :: 0 <= j < |rows| && rows[j].kind == Settle && rows[j].ref == rows[i].ref)
            && (|| rows[i].kind == Refund
                || (rows[i].kind == Consume && NoLine(rows, |rows|, Refund, rows[i].ref))
                || (rows[i].kind == Hold && NoLine(rows, |rows|, Refund, rows[i].ref) && NoLine(rows, |rows|, Consume, rows[i].ref)))
            && NoLine(rows, i, rows[i].kind, rows[i].ref)
  {
    if rows[i].ref.Some? {
      assert rows[i].ref.value in SettledRefs(rows) <==>
             rows[i].ref.value != "" && exists j :: 0 <= j < |rows| && rows[j].kind == Settle && rows[j].ref == rows[i].ref;
    }
    if Candidate(rows, i) {
      forall j | 0 <= j < |rows| && rows[j].ref == rows[i].ref ensures Candidate(rows, j) <==> Rank(rows[j].kind) < 3 {
      }
    }
  }

  /** No line of the kind for the session among the first `n`. */
  predicate NoLine(rows: seq<Line>, n: nat, kind: Kind, ref: Option<string>)
    requires n <= |rows|
  {
    forall j :: 0 <= j < n ==> !(rows[j].kind == kind && rows[j].ref == ref)
  }
}
