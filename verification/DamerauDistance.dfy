/**
  The Damerau-Levenshtein distance, by the recurrence of Lowrance and Wagner: two bytes may change places
  also when others between them are removed or inserted.  nxt_conf_vldt_edit_distance() has
  swaps of neighbours only; this is when that makes a difference.
 */
module DamerauDistance {
  import opened Bytes
  import opened EditDistance

  /** A crossing: gapA bytes between the two are removed, gapB are inserted. */
  datatype WideStep = Plain(s: Step) | Cross(gapA: nat, gapB: nat)

  function WideCost(s: WideStep): nat { match s case Plain(p) => StepCost(p) case Cross(g, h) => 1 + g + h }

  function WideDown(s: WideStep): nat { match s case Plain(p) => Down(p) case Cross(g, _) => g + 2 }

  function WideAcross(s: WideStep): nat { match s case Plain(p) => Across(p) case Cross(_, h) => h + 2 }

  predicate WidePossible(s: WideStep, a: Text, b: Text, i: nat, j: nat)
    requires i <= |a| && j <= |b|
  {
    && WideDown(s) <= i && WideAcross(s) <= j
    && match s
       case Plain(p) => Possible(p, a, b, i, j)
       case Cross(g, h) => a[i - 1] == b[j - h - 2] && a[i - g - 2] == b[j - 1]
  }

  predicate WideAligns(script: seq<WideStep>, a: Text, b: Text, i: nat, j: nat)
    requires i <= |a| && j <= |b|
    decreases |script|
  {
    if script == [] then i == 0 && j == 0
    else
      var s := script[|script| - 1];
      WidePossible(s, a, b, i, j) && WideAligns(script[..|script| - 1], a, b, i - WideDown(s), j - WideAcross(s))
  }

  function WideScriptCost(script: seq<WideStep>): nat {
    if script == [] then 0 else WideScriptCost(script[..|script| - 1]) + WideCost(script[|script| - 1])
  }

  ghost predicate Costs(a: Text, b: Text, c: nat) {
    exists script :: WideAligns(script, a, b, |a|, |b|) && WideScriptCost(script) == c
  }

  ghost predicate IsLeast(a: Text, b: Text, c: nat) {
    Costs(a, b, c) && forall d: nat :: Costs(a, b, d) ==> c <= d
  }

  lemma {:induction false} LeastExists(a: Text, b: Text, c: nat)
    requires Costs(a, b, c)
    ensures exists d: nat :: IsLeast(a, b, d)
    decreases c
  {
    hide Costs;
    if d: nat :| Costs(a, b, d) && d < c {
      LeastExists(a, b, d);
    } else {
      assert IsLeast(a, b, c);
    }
  }

  /** The cost of a cheapest script with crossings. */
  ghost function Unrestricted(a: Text, b: Text): (c: nat)
    ensures IsLeast(a, b, c)
  {
    DistanceIsCost(a, b);
    LeastExists(a, b, Distance(a, b));
    var c: nat :| IsLeast(a, b, c);
    c
  }

  // It is at most what the code computes.

  function Widened(script: seq<Step>): (r: seq<WideStep>)
    ensures |r| == |script|
  {
    if script == [] then [] else Widened(script[..|script| - 1]) + [Plain(script[|script| - 1])]
  }

  lemma {:induction false} WidenedAligns(script: seq<Step>, a: Text, b: Text, i: nat, j: nat)
    requires i <= |a| && j <= |b| && Aligns(script, a, b, i, j)
    ensures WideAligns(Widened(script), a, b, i, j) && WideScriptCost(Widened(script)) == ScriptCost(script)
    decreases |script|
  {
    if script != [] {
      var rest, s := script[..|script| - 1], script[|script| - 1];
      assert Possible(s, a, b, i, j);
      PlainPossible(s, a, b, i, j);
      hide Possible, WidePossible, Down, Across, StepCost;
      WidenedAligns(rest, a, b, i - Down(s), j - Across(s));
      assert Widened(script)[..|script| - 1] == Widened(rest);
    }
  }

  lemma PlainPossible(s: Step, a: Text, b: Text, i: nat, j: nat)
    requires i <= |a| && j <= |b| && Possible(s, a, b, i, j)
    ensures WidePossible(Plain(s), a, b, i, j) && WideDown(Plain(s)) == Down(s) <= i && WideAcross(Plain(s)) == Across(s) <= j
    ensures WideCost(Plain(s)) == StepCost(s)
  {
  }

  lemma DistanceIsCost(a: Text, b: Text)
    ensures Costs(a, b, Distance(a, b))
  {
    hide Aligns, WideAligns, WideScriptCost, ScriptCost, Widened;
    var script := CheapestScript(a, b, |a|, |b|);
    WidenedAligns(script, a, b, |a|, |b|);
  }

  lemma NeverMore(a: Text, b: Text)
    ensures Unrestricted(a, b) <= Distance(a, b)
  {
    DistanceIsCost(a, b);
  }

  // Where a crossing is of no use.

  lemma {:induction false} OsaSymmetric(a: Text, b: Text, i: nat, j: nat)
    requires i <= |a| && j <= |b|
    ensures Osa(a, b, i, j) == Osa(b, a, j, i)
    decreases i + j
  {
    hide Osa;
    OsaEdge(a, b, i, j);
    OsaEdge(b, a, j, i);
    if i > 0 && j > 0 {
      OsaCell(a, b, i, j);
      OsaCell(b, a, j, i);
      OsaSymmetric(a, b, i - 1, j);
      OsaSymmetric(a, b, i, j - 1);
      OsaSymmetric(a, b, i - 1, j - 1);
      if i > 1 && j > 1 { OsaSymmetric(a, b, i - 2, j - 2); }
    }
  }

  /** Any m bytes become any n bytes at the cost of the longer side. */
  lemma {:induction false} BlockCost(a: Text, b: Text, i: nat, j: nat, m: nat, n: nat)
    requires m <= i <= |a| && n <= j <= |b|
    ensures Osa(a, b, i, j) <= Osa(a, b, i - m, j - n) + if m > n then m else n
    decreases m + n
  {
    hide Osa;
    if m > 0 && n > 0 {
      OneStep(Substitute, a, b, i, j);
      BlockCost(a, b, i - 1, j - 1, m - 1, n - 1);
    } else if m > 0 {
      OneStep(Remove, a, b, i, j);
      BlockCost(a, b, i - 1, j, m - 1, 0);
    } else if n > 0 {
      OneStep(Insert, a, b, i, j);
      BlockCost(a, b, i, j - 1, 0, n - 1);
    }
  }

  /** Two neighbours become n bytes for n - 1, if the first of them is met before the last of the n. */
  lemma FirstIsMet(a: Text, b: Text, i: nat, j: nat, n: nat, q: nat)
    requires 2 <= i <= |a| && 2 <= n <= j <= |b| && j - n <= q < j - 1 && a[i - 2] == b[q]
    ensures Osa(a, b, i, j) <= Osa(a, b, i - 2, j - n) + n - 1
  {
    hide Osa;
    BlockCost(a, b, i, j, 1, j - 1 - q);
    OneStep(Match, a, b, i - 1, q + 1);
    BlockCost(a, b, i - 2, q, 0, q - (j - n));
  }

  lemma SecondIsMet(a: Text, b: Text, i: nat, j: nat, n: nat, q: nat)
    requires 2 <= i <= |a| && 2 <= n <= j <= |b| && j - n < q < j && a[i - 1] == b[q]
    ensures Osa(a, b, i, j) <= Osa(a, b, i - 2, j - n) + n - 1
  {
    hide Osa;
    BlockCost(a, b, i, j, 0, j - 1 - q);
    OneStep(Match, a, b, i, q + 1);
    BlockCost(a, b, i - 1, q, 1, q - (j - n));
  }

  /**
    The neighbours at p of a stand exchanged at q and r of b, with something between them, and neither
    of the two is there.
   */
  predicate Torn(a: Text, b: Text, p: nat, q: nat, r: nat) {
    && p + 1 < |a| && q + 1 < r < |b|
    && a[p] == b[r] && a[p + 1] == b[q] && a[p] != a[p + 1]
    && forall k :: q < k < r ==> b[k] != a[p] && b[k] != a[p + 1]
  }

  ghost predicate NothingTorn(a: Text, b: Text) {
    (forall p: nat, q: nat, r: nat :: !Torn(a, b, p, q, r)) && (forall p: nat, q: nat, r: nat :: !Torn(b, a, p, q, r))
  }

  /** A crossing of neighbours of a costs no less than plain steps, unless it tears them apart. */
  lemma CrossNeighbours(a: Text, b: Text, i: nat, j: nat, h: nat)
    requires i <= |a| && j <= |b| && WidePossible(Cross(0, h), a, b, i, j)
    requires h > 0 && !Torn(a, b, i - 2, j - h - 2, j - 1)
    ensures Osa(a, b, i, j) <= Osa(a, b, i - 2, j - h - 2) + 1 + h
  {
    hide Osa;
    if a[i - 2] == a[i - 1] {
      FirstIsMet(a, b, i, j, h + 2, j - h - 2);
    } else {
      var k :| j - h - 2 < k < j - 1 && (b[k] == a[i - 2] || b[k] == a[i - 1]);
      if b[k] == a[i - 2] { FirstIsMet(a, b, i, j, h + 2, k); } else { SecondIsMet(a, b, i, j, h + 2, k); }
    }
  }

  lemma OneWideStep(s: WideStep, a: Text, b: Text, i: nat, j: nat)
    requires i <= |a| && j <= |b| && WidePossible(s, a, b, i, j) && NothingTorn(a, b)
    ensures Osa(a, b, i, j) <= Osa(a, b, i - WideDown(s), j - WideAcross(s)) + WideCost(s)
  {
    hide Osa, Torn;
    match s
    case Plain(p) => OneStep(p, a, b, i, j);
    case Cross(g, h) =>
      if g == 0 && h == 0 {
        OneStep(Swap, a, b, i, j);
      } else if g == 0 {
        CrossNeighbours(a, b, i, j, h);
      } else if h == 0 {
        CrossNeighbours(b, a, j, i, g);
        OsaSymmetric(a, b, i, j);
        OsaSymmetric(a, b, i - g - 2, j - 2);
      } else {
        BlockCost(a, b, i, j, g + 2, h + 2);
      }
  }

  lemma {:induction false} NoCheaperWide(script: seq<WideStep>, a: Text, b: Text, i: nat, j: nat)
    requires i <= |a| && j <= |b| && WideAligns(script, a, b, i, j) && NothingTorn(a, b)
    ensures Osa(a, b, i, j) <= WideScriptCost(script)
    decreases |script|
  {
    hide Osa, NothingTorn;
    if script == [] {
      OsaEdge(a, b, i, j);
    } else {
      var s := script[|script| - 1];
      NoCheaperWide(script[..|script| - 1], a, b, i - WideDown(s), j - WideAcross(s));
      OneWideStep(s, a, b, i, j);
    }
  }

  /** Where no pair of neighbours is torn apart, the code computes the Damerau-Levenshtein distance. */
  lemma SameUnlessTorn(a: Text, b: Text)
    requires NothingTorn(a, b)
    ensures Unrestricted(a, b) == Distance(a, b)
  {
    hide NothingTorn, WideAligns, WideScriptCost;
    NeverMore(a, b);
    var script :| WideAligns(script, a, b, |a|, |b|) && WideScriptCost(script) == Unrestricted(a, b);
    NoCheaperWide(script, a, b, |a|, |b|);
  }

  // Where it is of use.

  /** Two different neighbours, exchanged and torn apart by bytes that are neither of them. */
  predicate Tears(x: Byte, y: Byte, gap: Text) { x != y && gap != [] && x !in gap && y !in gap }

  function TornText(x: Byte, y: Byte, gap: Text): Text { [y] + gap + [x] }

  lemma {:induction false} TornFirstRow(x: Byte, y: Byte, gap: Text, j: nat)
    requires Tears(x, y, gap) && 1 <= j <= |gap| + 1
    ensures Osa([x, y], TornText(x, y, gap), 1, j) == j
    decreases j
  {
    hide Osa;
    var a, b := [x, y], TornText(x, y, gap);
    OsaCell(a, b, 1, j);
    OsaEdge(a, b, 0, j);
    OsaEdge(a, b, 0, j - 1);
    OsaEdge(a, b, 1, j - 1);
    assert b[j - 1] != x by { if j > 1 { assert b[j - 1] == gap[j - 2]; } }
    if j > 1 { TornFirstRow(x, y, gap, j - 1); }
  }

  lemma {:induction false} TornSecondRow(x: Byte, y: Byte, gap: Text, j: nat)
    requires Tears(x, y, gap) && 1 <= j <= |gap| + 1
    ensures Osa([x, y], TornText(x, y, gap), 2, j) == j
    decreases j
  {
    hide Osa;
    var a, b := [x, y], TornText(x, y, gap);
    OsaCell(a, b, 2, j);
    OsaEdge(a, b, 1, 0);
    OsaEdge(a, b, 2, 0);
    TornFirstRow(x, y, gap, j);
    if j > 1 {
      assert b[j - 1] == gap[j - 2];
      TornFirstRow(x, y, gap, j - 1);
      TornSecondRow(x, y, gap, j - 1);
    }
  }

  /** For every such pair the code counts one more than the Damerau-Levenshtein distance allows. */
  lemma MoreWhenTorn(x: Byte, y: Byte, gap: Text)
    requires Tears(x, y, gap)
    ensures var a, b := [x, y], TornText(x, y, gap);
            Torn(a, b, 0, 0, |gap| + 1) && Distance(a, b) == |gap| + 2 && Unrestricted(a, b) <= |gap| + 1
  {
    hide Osa;
    var a, b := [x, y], TornText(x, y, gap);
    var n := |gap| + 2;
    assert b[n - 1] == x && b[n - 2] == gap[|gap| - 1];
    OsaCell(a, b, 2, n);
    OsaCell(a, b, 1, n);
    OsaEdge(a, b, 0, n);
    OsaEdge(a, b, 0, n - 1);
    TornFirstRow(x, y, gap, n - 1);
    TornSecondRow(x, y, gap, n - 1);
    var s := Cross(0, |gap|);
    var script := [s];
    assert script[..0] == [];
    assert WidePossible(s, a, b, 2, n) && WideAligns([], a, b, 0, 0);
    assert WideAligns(script, a, b, |a|, |b|) && WideScriptCost(script) == |gap| + 1;
    assert Costs(a, b, |gap| + 1);
  }

  lemma MoreWhenTornBack(x: Byte, y: Byte, gap: Text)
    requires Tears(x, y, gap)
    ensures var a, b := TornText(x, y, gap), [x, y];
            Torn(b, a, 0, 0, |gap| + 1) && Distance(a, b) == |gap| + 2 && Unrestricted(a, b) <= |gap| + 1
  {
    hide Osa;
    var a, b := TornText(x, y, gap), [x, y];
    MoreWhenTorn(x, y, gap);
    OsaSymmetric(a, b, |a|, |b|);
    var s := Cross(|gap|, 0);
    var script := [s];
    assert script[..0] == [];
    assert WidePossible(s, a, b, |a|, 2) && WideAligns([], a, b, 0, 0);
    assert WideAligns(script, a, b, |a|, |b|) && WideScriptCost(script) == |gap| + 1;
    assert Costs(a, b, |gap| + 1);
  }

  /** From "CA" to "ABC" two edits suffice, and the code says three. */
  lemma OneCase()
    ensures Unrestricted([67, 65], [65, 66, 67]) < Distance([67, 65], [65, 66, 67])
  {
    MoreWhenTorn(67, 65, [66]);
    assert TornText(67, 65, [66]) == [65, 66, 67];
  }

  lemma {:induction false} AtLeastLonger(script: seq<WideStep>, a: Text, b: Text, i: nat, j: nat)
    requires i <= |a| && j <= |b| && WideAligns(script, a, b, i, j)
    ensures i <= j + WideScriptCost(script)
    decreases |script|
  {
    if script != [] {
      var s := script[|script| - 1];
      AtLeastLonger(script[..|script| - 1], a, b, i - WideDown(s), j - WideAcross(s));
    }
  }

  /** Within longer texts torn neighbours need not matter, so the condition is not necessary there. */
  lemma TornAndSame()
    ensures var a, b := [1, 2, 2, 9, 1], [2, 9, 1]; Torn(a, b, 0, 0, 2) && Unrestricted(a, b) == Distance(a, b) == 2
  {
    hide Osa;
    var a, b := [1, 2, 2, 9, 1], [2, 9, 1];
    NeverMore(a, b);
    OneStep(Match, a, b, 5, 3);
    OneStep(Match, a, b, 4, 2);
    OneStep(Match, a, b, 3, 1);
    BlockCost(a, b, 2, 0, 2, 0);
    OsaEdge(a, b, 0, 0);
    var script :| WideAligns(script, a, b, |a|, |b|) && WideScriptCost(script) == Unrestricted(a, b);
    AtLeastLonger(script, a, b, |a|, |b|);
  }
}
