/** The shape of a number: nxt_conf_json_parse_number(). */
module JsonNumber {
  import opened Bytes

  const MAX_NUMBER: nat := 14

  predicate IsSign(b: Byte) { b == PLUS || b == MINUS }

  predicate IsExponent(b: Byte) { b == 101 || b == 69 }

  function DigitsEnd(text: Text, p: nat): (r: nat)
    requires p <= |text|
    ensures p <= r <= |text|
    decreases |text| - p
  {
    if p < |text| && IsDigit(text[p]) then DigitsEnd(text, p + 1) else p
  }

  /** The position after the fraction that may start at p. */
  function FractionEnd(text: Text, p: nat): (r: Option<nat>)
    requires p <= |text|
    ensures r.Some? ==> p <= r.value <= |text|
  {
    if p < |text| && text[p] == DOT then
      var q := DigitsEnd(text, p + 1);
      if q == p + 1 then None else Some(q)
    else Some(p)
  }

  /** The position after the exponent that may start at p. */
  function ExponentEnd(text: Text, p: nat): (r: Option<nat>)
    requires p <= |text|
    ensures r.Some? ==> p <= r.value <= |text|
  {
    if p < |text| && IsExponent(text[p]) then
      var s := if p + 1 < |text| && IsSign(text[p + 1]) then p + 2 else p + 1;
      var q := DigitsEnd(text, s);
      if q == s then None else Some(q)
    else Some(p)
  }

  function AfterMinus(text: Text, p: nat): nat
    requires p < |text|
  {
    if text[p] == MINUS then p + 1 else p
  }

  /** The caller has seen a digit, after an optional minus. */
  predicate StartsNumber(text: Text, p: nat) {
    p < |text| && AfterMinus(text, p) < |text| && IsDigit(text[AfterMinus(text, p)])
  }

  /**
    The position after the number at p.  The test for a leading zero looks at the
    first byte of the number, which is not a zero when there is a minus.
   */
  function NumberEnd(text: Text, p: nat): (r: Option<nat>)
    requires StartsNumber(text, p)
    ensures r.Some? ==> p < r.value <= |text|
  {
    var s := AfterMinus(text, p);
    var d := DigitsEnd(text, s);
    var f := FractionEnd(text, d);
    if f.None? || (d - s > 1 && text[p] == ZERO) then None else ExponentEnd(text, f.value)
  }

  /** The digits before and after one dot, in one loop as the source has it. */
  method ScanDigits(text: Text, s: nat) returns (p: nat, dot: Option<nat>)
    requires s <= |text|
    ensures s <= p <= |text|
    ensures var d := DigitsEnd(text, s);
            if d < |text| && text[d] == DOT then dot == Some(d) && p == DigitsEnd(text, d + 1)
            else dot == None && p == d
  {
    p, dot := s, None;
    while p < |text|
      invariant s <= p <= |text|
      invariant dot == None ==> DigitsEnd(text, s) == DigitsEnd(text, p)
      invariant dot.Some? ==>
                  && s <= dot.value < p && dot.value == DigitsEnd(text, s) && text[dot.value] == DOT
                  && DigitsEnd(text, dot.value + 1) == DigitsEnd(text, p)
    {
      if !IsDigit(text[p]) {
        if text[p] != DOT || dot.Some? { return; }
        dot := Some(p);
      }
      p := p + 1;
    }
  }

  method ParseNumber(text: Text, start: nat) returns (r: Option<nat>)
    requires StartsNumber(text, start)
    ensures r == NumberEnd(text, start)
  {
    hide IsDigit, IsSign, IsExponent;
    var s := if text[start] == MINUS then start + 1 else start;
    var p, dot := ScanDigits(text, s);
    if dot.Some? && p - dot.value <= 1 { return None; }
    var whole := if dot.Some? then dot.value else p;
    if whole - s > 1 && text[start] == ZERO { return None; }
    if p < |text| && IsExponent(text[p]) {
      p := p + 1;
      s := p;
      if s < |text| {
        if IsSign(text[s]) { s := s + 1; }
        p := s;
        while p < |text| && IsDigit(text[p])
          invariant s <= p <= |text| && DigitsEnd(text, s) == DigitsEnd(text, p)
        {
          p := p + 1;
        }
      }
      if p == s { return None; }
    }
    r := Some(p);
  }

  // A number ends where it ended, whatever other text surrounds it.

  /** A byte that no number goes on with. */
  predicate Ends(text: Text, p: nat) {
    p >= |text| || !(IsDigit(text[p]) || text[p] == DOT || IsExponent(text[p]))
  }

  /** u has from j on what t has from i up to n, and no number goes on after it. */
  ghost predicate Moved(t: Text, i: nat, n: nat, u: Text, j: nat) {
    && i <= n <= |t| && n - i + j <= |u|
    && (forall k :: i <= k < n ==> t[k] == u[k - i + j])
    && Ends(u, n - i + j)
  }

  lemma {:induction false} DigitsMove(t: Text, i: nat, n: nat, u: Text, j: nat)
    requires Moved(t, i, n, u, j) && DigitsEnd(t, i) <= n
    ensures DigitsEnd(u, j) - j == DigitsEnd(t, i) - i
    decreases n - i
  {
    if i < n {
      assert u[j] == t[i];
      if IsDigit(t[i]) { DigitsMove(t, i + 1, n, u, j + 1); }
    }
  }

  lemma FractionMoves(t: Text, i: nat, n: nat, u: Text, j: nat)
    requires Moved(t, i, n, u, j) && FractionEnd(t, i).Some? && FractionEnd(t, i).value <= n
    ensures FractionEnd(u, j) == Some(FractionEnd(t, i).value - i + j)
  {
    if i < n {
      assert u[j] == t[i];
      if t[i] == DOT { DigitsMove(t, i + 1, n, u, j + 1); }
    }
  }

  lemma ExponentMoves(t: Text, i: nat, n: nat, u: Text, j: nat)
    requires Moved(t, i, n, u, j) && ExponentEnd(t, i) == Some(n)
    ensures ExponentEnd(u, j) == Some(n - i + j)
  {
    if i < n {
      assert u[j] == t[i];
      assert u[j + 1] == t[i + 1];
      var s := if IsSign(t[i + 1]) then i + 2 else i + 1;
      DigitsMove(t, s, n, u, s - i + j);
    }
  }

  lemma MovedTail(t: Text, i: nat, n: nat, u: Text, j: nat, k: nat)
    requires Moved(t, i, n, u, j) && i <= k <= n
    ensures Moved(t, k, n, u, k - i + j)
  {
  }

  lemma DigitsAdvance(text: Text, p: nat)
    requires p < |text| && IsDigit(text[p])
    ensures DigitsEnd(text, p) > p
  {
  }

  lemma NumberMoves(t: Text, i: nat, n: nat, u: Text, j: nat)
    requires StartsNumber(t, i) && NumberEnd(t, i) == Some(n) && Moved(t, i, n, u, j)
    ensures StartsNumber(u, j) && NumberEnd(u, j) == Some(n - i + j)
  {
    hide DigitsEnd, FractionEnd, ExponentEnd;
    var s := AfterMinus(t, i);
    DigitsAdvance(t, s);
    var d := DigitsEnd(t, s);
    var f := FractionEnd(t, d).value;
    assert u[j] == t[i] && u[s - i + j] == t[s];
    MovedTail(t, i, n, u, j, s);
    MovedTail(t, i, n, u, j, d);
    MovedTail(t, i, n, u, j, f);
    DigitsMove(t, s, n, u, s - i + j);
    FractionMoves(t, d, n, u, d - i + j);
    ExponentMoves(t, f, n, u, f - i + j);
  }
}
