/** Suggestions for unknown member names: src/nxt_conf_validation.c. */
module EditDistance {
  import opened Bytes

  const EDIT_MAX: nat := 64

  function Cost(x: Byte, y: Byte): nat { if x == y then 0 else 1 }

  predicate Swapped(a: Text, b: Text, i: nat, j: nat)
    requires i <= |a| && j <= |b|
  {
    i > 1 && j > 1 && a[i - 1] == b[j - 2] && a[i - 2] == b[j - 1]
  }

  /** The least of the three neighbours with their costs, and of a swap where there is one. */
  function Cell(left: nat, up: nat, diagonal: nat, cost: nat, swap: Option<nat>): nat {
    var m := Min(Min(left + 1, up + 1), diagonal + cost);
    if swap.Some? then Min(m, swap.value + 1) else m
  }

  /** The optimal string alignment distance of the first i bytes of a and the first j bytes of b. */
  function Osa(a: Text, b: Text, i: nat, j: nat): nat
    requires i <= |a| && j <= |b|
    decreases i + j
  {
    if i == 0 then j
    else if j == 0 then i
    else
      Cell(Osa(a, b, i, j - 1), Osa(a, b, i - 1, j), Osa(a, b, i - 1, j - 1), Cost(a[i - 1], b[j - 1]),
           if Swapped(a, b, i, j) then Some(Osa(a, b, i - 2, j - 2)) else None)
  }

  lemma OsaEdge(a: Text, b: Text, i: nat, j: nat)
    requires i <= |a| && j <= |b|
    ensures i == 0 ==> Osa(a, b, i, j) == j
    ensures j == 0 ==> Osa(a, b, i, j) == i
  {
  }

  lemma OsaCell(a: Text, b: Text, i: nat, j: nat)
    requires 0 < i <= |a| && 0 < j <= |b|
    ensures Osa(a, b, i, j) ==
              Cell(Osa(a, b, i, j - 1), Osa(a, b, i - 1, j), Osa(a, b, i - 1, j - 1), Cost(a[i - 1], b[j - 1]),
                   if Swapped(a, b, i, j) then Some(Osa(a, b, i - 2, j - 2)) else None)
  {
  }

  function Distance(a: Text, b: Text): nat { Osa(a, b, |a|, |b|) }

  // The distance is the cost of a cheapest alignment.

  datatype Step = Match | Substitute | Insert | Remove | Swap

  function StepCost(s: Step): nat { if s == Match then 0 else 1 }

  function ScriptCost(script: seq<Step>): nat {
    if script == [] then 0 else ScriptCost(script[..|script| - 1]) + StepCost(script[|script| - 1])
  }

  /** How many bytes of a, and of b, a step covers. */
  function Down(s: Step): nat { match s case Insert => 0 case Swap => 2 case _ => 1 }
  function Across(s: Step): nat { match s case Remove => 0 case Swap => 2 case _ => 1 }

  /** The step can end at the first i bytes of a and the first j bytes of b. */
  predicate Possible(s: Step, a: Text, b: Text, i: nat, j: nat)
    requires i <= |a| && j <= |b|
  {
    && Down(s) <= i && Across(s) <= j
    && (s == Match ==> a[i - 1] == b[j - 1])
    && (s == Swap ==> Swapped(a, b, i, j))
  }

  /** The script turns the first i bytes of a into the first j bytes of b, from left to right. */
  predicate Aligns(script: seq<Step>, a: Text, b: Text, i: nat, j: nat)
    requires i <= |a| && j <= |b|
    decreases |script|
  {
    if script == [] then i == 0 && j == 0
    else
      var s := script[|script| - 1];
      Possible(s, a, b, i, j) && Aligns(script[..|script| - 1], a, b, i - Down(s), j - Across(s))
  }

  lemma OneStep(s: Step, a: Text, b: Text, i: nat, j: nat)
    requires i <= |a| && j <= |b| && Possible(s, a, b, i, j)
    ensures Osa(a, b, i, j) <= Osa(a, b, i - Down(s), j - Across(s)) + StepCost(s)
  {
    hide Osa;
    OsaEdge(a, b, i, j);
    OsaEdge(a, b, i - Down(s), j - Across(s));
    if i > 0 && j > 0 { OsaCell(a, b, i, j); }
  }

  lemma BestStep(a: Text, b: Text, i: nat, j: nat) returns (s: Step)
    requires i <= |a| && j <= |b| && i + j > 0
    ensures Possible(s, a, b, i, j) && Osa(a, b, i, j) == Osa(a, b, i - Down(s), j - Across(s)) + StepCost(s)
  {
    hide Osa;
    OsaEdge(a, b, i, j);
    if i == 0 {
      OsaEdge(a, b, 0, j - 1);
      return Insert;
    }
    if j == 0 {
      OsaEdge(a, b, i - 1, 0);
      return Remove;
    }
    OsaCell(a, b, i, j);
    var d := Osa(a, b, i, j);
    if Swapped(a, b, i, j) && d == Osa(a, b, i - 2, j - 2) + 1 { return Swap; }
    if d == Osa(a, b, i, j - 1) + 1 { return Insert; }
    if d == Osa(a, b, i - 1, j) + 1 { return Remove; }
    return if a[i - 1] == b[j - 1] then Match else Substitute;
  }

  lemma {:induction false} NoCheaperScript(script: seq<Step>, a: Text, b: Text, i: nat, j: nat)
    requires i <= |a| && j <= |b| && Aligns(script, a, b, i, j)
    ensures Osa(a, b, i, j) <= ScriptCost(script)
    decreases |script|
  {
    hide Osa, Possible, StepCost;
    if script == [] {
      OsaEdge(a, b, i, j);
    } else {
      var s := script[|script| - 1];
      Bounds(s, a, b, i, j);
      NoCheaperScript(script[..|script| - 1], a, b, i - Down(s), j - Across(s));
      OneStep(s, a, b, i, j);
    }
  }

  lemma Bounds(s: Step, a: Text, b: Text, i: nat, j: nat)
    requires i <= |a| && j <= |b| && Possible(s, a, b, i, j)
    ensures Down(s) <= i && Across(s) <= j && Down(s) + Across(s) > 0
  {
  }

  lemma OneStepMore(rest: seq<Step>, s: Step, a: Text, b: Text, i: nat, j: nat)
    requires i <= |a| && j <= |b| && Possible(s, a, b, i, j) && Aligns(rest, a, b, i - Down(s), j - Across(s))
    ensures Aligns(rest + [s], a, b, i, j) && ScriptCost(rest + [s]) == ScriptCost(rest) + StepCost(s)
  {
    assert (rest + [s])[..|rest|] == rest;
  }

  lemma {:induction false} CheapestScript(a: Text, b: Text, i: nat, j: nat) returns (script: seq<Step>)
    requires i <= |a| && j <= |b|
    ensures Aligns(script, a, b, i, j) && ScriptCost(script) == Osa(a, b, i, j)
    decreases i + j
  {
    hide Osa, Possible, StepCost, Aligns, ScriptCost, Down, Across;
    if i == 0 && j == 0 {
      OsaEdge(a, b, i, j);
      NoSteps(a, b);
      script := [];
    } else {
      var s := BestStep(a, b, i, j);
      Bounds(s, a, b, i, j);
      var rest := CheapestScript(a, b, i - Down(s), j - Across(s));
      OneStepMore(rest, s, a, b, i, j);
      script := rest + [s];
    }
  }

  lemma NoSteps(a: Text, b: Text)
    ensures ScriptCost([]) == 0 && Aligns([], a, b, 0, 0)
  {
  }

  /** What the comment in the source calls the distance is this minimum over alignments. */
  lemma DistanceIsMinimum(a: Text, b: Text)
    ensures exists script :: Aligns(script, a, b, |a|, |b|) && ScriptCost(script) == Distance(a, b)
    ensures forall script :: Aligns(script, a, b, |a|, |b|) ==> Distance(a, b) <= ScriptCost(script)
  {
    var script := CheapestScript(a, b, |a|, |b|);
    forall script | Aligns(script, a, b, |a|, |b|) ensures Distance(a, b) <= ScriptCost(script) {
      NoCheaperScript(script, a, b, |a|, |b|);
    }
  }

  /** One cell of the table, from the rows above and the cells to the left. */
  method Fill(a: Text, b: Text, i: nat, j: nat, left: nat, up: nat, diagonal: nat, corner: nat) returns (min: nat)
    requires 0 < i <= |a| && 0 < j <= |b|
    requires left == Osa(a, b, i, j - 1) && up == Osa(a, b, i - 1, j) && diagonal == Osa(a, b, i - 1, j - 1)
    requires i > 1 && j > 1 ==> corner == Osa(a, b, i - 2, j - 2)
    ensures min == Osa(a, b, i, j)
  {
    hide Osa;
    OsaCell(a, b, i, j);
    var cost := if a[i - 1] == b[j - 1] then 0 else 1;
    var ins, del, sub := left + 1, up + 1, diagonal + cost;
    min := if ins < del then ins else del;
    if sub < min { min := sub; }
    if i > 1 && j > 1 && a[i - 1] == b[j - 2] && a[i - 2] == b[j - 1] {
      var tr := corner + 1;
      if tr < min { min := tr; }
    }
  }

  /** The array holds row i of the table. */
  ghost predicate Row(a: Text, b: Text, i: nat, row: array<nat>)
    requires i <= |a| && |b| < row.Length
    reads row
  {
    forall k :: 0 <= k <= |b| ==> row[k] == Osa(a, b, i, k)
  }

  method NextRow(a: Text, b: Text, i: nat, prev2: array<nat>, prev: array<nat>, curr: array<nat>)
    requires 0 < i <= |a| && |b| < prev2.Length && |b| < prev.Length && |b| < curr.Length
    requires curr != prev && curr != prev2 && Row(a, b, i - 1, prev) && (i > 1 ==> Row(a, b, i - 2, prev2))
    modifies curr
    ensures Row(a, b, i, curr)
  {
    hide Osa;
    OsaEdge(a, b, i, 0);
    curr[0] := i;
    for j := 1 to |b| + 1
      invariant forall k :: 0 <= k < j ==> curr[k] == Osa(a, b, i, k)
    {
      var min := Fill(a, b, i, j, curr[j - 1], prev[j], prev[j - 1], if j > 1 then prev2[j - 2] else 0);
      curr[j] := min;
    }
  }

  method FirstRow(a: Text, b: Text, prev2: array<nat>, prev: array<nat>)
    requires |b| < prev2.Length && |b| < prev.Length && prev2 != prev
    modifies prev2, prev
    ensures Row(a, b, 0, prev)
  {
    hide Osa;
    for j := 0 to |b| + 1
      invariant forall k :: 0 <= k < j ==> prev[k] == Osa(a, b, 0, k)
    {
      OsaEdge(a, b, 0, j);
      prev[j] := j;
      prev2[j] := 0;
    }
  }

  method Shift(a: Text, b: Text, i: nat, prev2: array<nat>, prev: array<nat>, curr: array<nat>)
    requires 0 < i <= |a| && |b| < prev2.Length && |b| < prev.Length && |b| < curr.Length
    requires prev2 != prev && prev2 != curr && prev != curr && Row(a, b, i - 1, prev) && Row(a, b, i, curr)
    modifies prev2, prev
    ensures Row(a, b, i - 1, prev2) && Row(a, b, i, prev)
  {
    hide Osa;
    for j := 0 to |b| + 1
      invariant forall k :: 0 <= k < j ==> prev2[k] == Osa(a, b, i - 1, k) && prev[k] == Osa(a, b, i, k)
      invariant forall k :: j <= k <= |b| ==> prev[k] == Osa(a, b, i - 1, k)
    {
      prev2[j] := prev[j];
      prev[j] := curr[j];
    }
  }

  lemma RowEnd(a: Text, b: Text, row: array<nat>)
    requires |b| < row.Length && Row(a, b, |a|, row)
    ensures row[|b|] == Distance(a, b)
  {
    hide Osa;
  }

  /** The three-row program.  Names over 64 bytes get the largest size_t. */
  method Compute(a: Text, b: Text) returns (d: nat)
    ensures d == if |a| > EDIT_MAX || |b| > EDIT_MAX then SIZE_MAX else Distance(a, b)
  {
    hide Osa, Row, Distance;
    if |a| > EDIT_MAX || |b| > EDIT_MAX { return SIZE_MAX; }
    var prev2, prev, curr := new nat[EDIT_MAX + 1], new nat[EDIT_MAX + 1], new nat[EDIT_MAX + 1];
    FirstRow(a, b, prev2, prev);
    for i := 1 to |a| + 1
      invariant Row(a, b, i - 1, prev) && (i > 1 ==> Row(a, b, i - 2, prev2))
    {
      NextRow(a, b, i, prev2, prev, curr);
      Shift(a, b, i, prev2, prev, curr);
    }
    RowEnd(a, b, prev);
    d := prev[|b|];
  }

  /** It is not a metric: the triangle inequality fails. */
  lemma NotAMetric()
    ensures exists a, b, c :: Distance(a, c) > Distance(a, b) + Distance(b, c)
  {
    hide Osa, Aligns, ScriptCost;
    SwapOnce();
    InsertOnce();
    ThreeApart();
    var ca, ac, abc: Text := [67, 65], [65, 67], [65, 66, 67];
    assert Distance(ca, abc) > Distance(ca, ac) + Distance(ac, abc);
  }

  lemma SwapOnce()
    ensures Distance([67, 65], [65, 67]) <= 1
  {
    hide Osa;
    var script := [Swap];
    assert script[..0] == [];
    assert Aligns(script, [67, 65], [65, 67], 2, 2) && ScriptCost(script) == 1;
    NoCheaperScript(script, [67, 65], [65, 67], 2, 2);
  }

  lemma InsertOnce()
    ensures Distance([65, 67], [65, 66, 67]) <= 1
  {
    hide Osa;
    var script := [Match, Insert, Match];
    assert script[..2] == [Match, Insert] && script[..2][..1] == [Match] && script[..2][..1][..0] == [];
    assert Aligns([Match], [65, 67], [65, 66, 67], 1, 1) && ScriptCost([Match]) == 0;
    assert Aligns([Match, Insert], [65, 67], [65, 66, 67], 1, 2) && ScriptCost([Match, Insert]) == 1;
    NoCheaperScript(script, [65, 67], [65, 66, 67], 2, 3);
  }

  lemma ThreeApart()
    ensures Distance([67, 65], [65, 66, 67]) == 3
  {
    hide Osa;
    var a, b: Text := [67, 65], [65, 66, 67];
    forall i, j | 0 <= i <= 2 && 0 <= j <= 3 && (i == 0 || j == 0) ensures Osa(a, b, i, j) == i + j { OsaEdge(a, b, i, j); }
    OsaCell(a, b, 1, 1);
    OsaCell(a, b, 1, 2);
    OsaCell(a, b, 1, 3);
    OsaCell(a, b, 2, 1);
    OsaCell(a, b, 2, 2);
    OsaCell(a, b, 2, 3);
  }

  // The suggestion.

  /** A table of member names, which may be continued in another table. */
  datatype Table = Table(names: seq<Text>, next: Option<Table>)

  function AllNames(t: Table): seq<Text> {
    t.names + if t.next.Some? then AllNames(t.next.value) else []
  }

  function Far(name: Text, other: Text): nat {
    if |name| > EDIT_MAX || |other| > EDIT_MAX then SIZE_MAX else Distance(name, other)
  }

  function Threshold(name: Text): nat { if |name| / 3 > 2 then |name| / 3 else 2 }

  /** Entry k is strictly nearer to the name than every other entry, and near enough. */
  ghost predicate Suggests(names: seq<Text>, name: Text, k: nat) {
    && k < |names|
    && (forall j :: 0 <= j < |names| && j != k ==> Far(name, names[k]) < Far(name, names[j]))
    && Far(name, names[k]) <= Threshold(name)
    && 2 * Far(name, names[k]) <= Min(|name|, |names[k]|)
  }

  /** What the scan knows after n entries. */
  ghost predicate Scanned(names: seq<Text>, name: Text, n: nat, best: nat, second: nat, at: Option<nat>)
    requires n <= |names|
  {
    && best <= second
    && (at == None ==> best == SIZE_MAX && forall j :: 0 <= j < n ==> Far(name, names[j]) >= SIZE_MAX)
    && (at.Some? ==>
          && at.value < n && best == Far(name, names[at.value]) && best < SIZE_MAX
          && (forall j :: 0 <= j < n && j != at.value ==> second <= Far(name, names[j]))
          && (second < SIZE_MAX ==> exists j :: 0 <= j < n && j != at.value && Far(name, names[j]) == second))
  }

  lemma ScanStep(names: seq<Text>, name: Text, n: nat, best: nat, second: nat, at: Option<nat>)
    requires n < |names| && Scanned(names, name, n, best, second, at) && second <= SIZE_MAX
    ensures var d := Far(name, names[n]);
            if d < best then Scanned(names, name, n + 1, d, best, Some(n))
            else if d < second then Scanned(names, name, n + 1, best, d, at)
            else Scanned(names, name, n + 1, best, second, at)
  {
    hide Far;
    var d := Far(name, names[n]);
    if at.Some? && second < SIZE_MAX {
      var j :| 0 <= j < n && j != at.value && Far(name, names[j]) == second;
    }
  }

  /** A suggestion is made exactly when one entry of the chained tables is strictly nearest and near enough. */
  lemma ScanEnds(names: seq<Text>, name: Text, best: nat, second: nat, at: Option<nat>)
    requires Scanned(names, name, |names|, best, second, at) && second <= SIZE_MAX && Threshold(name) < SIZE_MAX
    ensures var chosen := at.Some? && best <= Threshold(name) && best < second && 2 * best <= Min(|name|, |names[at.value]|);
            && (chosen ==> Suggests(names, name, at.value))
            && (!chosen ==> forall k: nat :: !Suggests(names, name, k))
  {
    hide Far, Threshold;
    forall k: nat | Suggests(names, name, k) ensures at == Some(k) && best < second {
      assert Far(name, names[k]) < SIZE_MAX;
      if at.Some? && second < SIZE_MAX {
        var j :| 0 <= j < |names| && j != at.value && Far(name, names[j]) == second;
      }
    }
  }

  method Suggest(name: Text, table: Table) returns (suggestion: Option<Text>)
    requires |name| <= SIZE_MAX
    ensures suggestion.Some? ==> exists k: nat :: Suggests(AllNames(table), name, k) && suggestion.value == AllNames(table)[k]
    ensures suggestion.None? ==> forall k: nat :: !Suggests(AllNames(table), name, k)
  {
    hide Scanned, Far, Suggests;
    ghost var names, scanned: nat, at: Option<nat> := AllNames(table), 0, None;
    var best: nat, second: nat, v, i: nat := SIZE_MAX, SIZE_MAX, table, 0;
    var nearest: Option<Text> := None;
    ScanStarts(names, name);
    while true
      invariant 0 <= i <= |v.names| && 0 <= scanned <= |names| && best <= SIZE_MAX && second <= SIZE_MAX
      invariant names[scanned..] == AllNames(v)[i..]
      invariant Scanned(names, name, scanned, best, second, at)
      invariant nearest.Some? == at.Some? && (at.Some? ==> at.value < |names| && nearest.value == names[at.value])
      decreases v, |v.names| - i
    {
      if i == |v.names| {
        if v.next.Some? {
          assert AllNames(v)[i..] == AllNames(v.next.value) == AllNames(v.next.value)[0..];
          v, i := v.next.value, 0;
          continue;
        }
        assert AllNames(v)[i..] == [];
        break;
      }
      assert AllNames(v)[i..][0] == v.names[i] && names[scanned..][0] == v.names[i];
      assert names[scanned + 1..] == names[scanned..][1..] == AllNames(v)[i..][1..] == AllNames(v)[i + 1..];
      ScanStep(names, name, scanned, best, second, at);
      var d := Compute(name, v.names[i]);
      FarIs(name, v.names[i]);
      if d < best {
        second := best;
        best := d;
        nearest := Some(v.names[i]);
        at := Some(scanned);
      } else if d < second {
        second := d;
      }
      i := i + 1;
      scanned := scanned + 1;
    }
    assert scanned == |names|;
    ScanEnds(names, name, best, second, at);
    var threshold := if |name| / 3 > 2 then |name| / 3 else 2;
    if nearest.Some? && best <= threshold && best < second {
      var shorter := if |name| < |nearest.value| then |name| else |nearest.value|;
      if best * 2 <= shorter { return nearest; }
    }
    suggestion := None;
  }

  lemma ScanStarts(names: seq<Text>, name: Text)
    ensures Scanned(names, name, 0, SIZE_MAX, SIZE_MAX, None)
  {
  }

  lemma FarIs(name: Text, other: Text)
    ensures Far(name, other) == if |name| > EDIT_MAX || |other| > EDIT_MAX then SIZE_MAX else Distance(name, other)
  {
  }
}
