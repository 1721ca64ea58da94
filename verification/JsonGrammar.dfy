/** The numbers of section 6 of RFC 8259, and those that nxt_conf_json_parse_number() accepts. */
module JsonGrammar {
  import opened Bytes
  import opened JsonNumber

  /** The characters of a number. */
  lemma Characters(b: Byte)
    ensures IsDigit(b) <==> b in Ascii("0123456789")
    ensures IsSign(b) <==> b in Ascii("+-")
    ensures IsExponent(b) <==> b in Ascii("eE")
    ensures [MINUS, DOT, ZERO] == Ascii("-.0")
  {
    assert Ascii("0123456789") == [48, 49, 50, 51, 52, 53, 54, 55, 56, 57];
    assert Ascii("+-") == [43, 45] && Ascii("eE") == [101, 69];
  }

  predicate Digits(t: Text) { t != [] && forall i :: 0 <= i < |t| ==> IsDigit(t[i]) }

  predicate RfcInt(t: Text) { Digits(t) && (t[0] == ZERO ==> |t| == 1) }

  predicate RfcFrac(t: Text) { t == [] || (t[0] == DOT && Digits(t[1..])) }

  predicate RfcExp(t: Text) {
    t == [] || (IsExponent(t[0]) && (Digits(t[1..]) || (|t| > 1 && IsSign(t[1]) && Digits(t[2..]))))
  }

  /** The parts of a number: [ minus ] int [ frac ] [ exp ]. */
  predicate RfcParts(t: Text, s: nat, d: nat, f: nat) {
    && s <= d <= f <= |t| && (s == 0 || (s == 1 && t[0] == MINUS))
    && RfcInt(t[s..d]) && RfcFrac(t[d..f]) && RfcExp(t[f..])
  }

  ghost predicate RfcNumber(t: Text) { exists s, d, f :: RfcParts(t, s, d, f) }

  /** The grammar as a scan: the first digit must not be a zero that another digit follows. */
  function RfcEnd(text: Text, p: nat): Option<nat>
    requires StartsNumber(text, p)
  {
    var s := AfterMinus(text, p);
    var d := DigitsEnd(text, s);
    var f := FractionEnd(text, d);
    if f.None? || (d - s > 1 && text[s] == ZERO) then None else ExponentEnd(text, f.value)
  }

  /** A minus, a zero and another digit. */
  predicate MinusZero(text: Text, p: nat) {
    p + 2 < |text| && text[p] == MINUS && text[p + 1] == ZERO && IsDigit(text[p + 2])
  }

  /** Exactly the numbers that start like -01 are read otherwise than the grammar says. */
  lemma RfcExceptMinusZero(text: Text, p: nat)
    requires StartsNumber(text, p)
    ensures RfcEnd(text, p) == if MinusZero(text, p) then None else NumberEnd(text, p)
  {
    var s := AfterMinus(text, p);
    assert DigitsEnd(text, s) == DigitsEnd(text, s + 1);
    if s + 1 < |text| && IsDigit(text[s + 1]) {
      assert DigitsEnd(text, s + 1) == DigitsEnd(text, s + 2);
    }
  }

  lemma {:induction false} DigitsEndIs(text: Text, p: nat, q: nat)
    requires p <= q <= |text| && (forall i :: p <= i < q ==> IsDigit(text[i])) && (q < |text| ==> !IsDigit(text[q]))
    ensures DigitsEnd(text, p) == q
    decreases q - p
  {
    if p < q { DigitsEndIs(text, p + 1, q); }
  }

  lemma {:induction false} DigitsEndAll(text: Text, p: nat)
    requires p <= |text|
    ensures forall i :: p <= i < DigitsEnd(text, p) ==> IsDigit(text[i])
    ensures DigitsEnd(text, p) < |text| ==> !IsDigit(text[DigitsEnd(text, p)])
    decreases |text| - p
  {
    if p < |text| && IsDigit(text[p]) { DigitsEndAll(text, p + 1); }
  }

  /** Digits that stand at the end of a text are scanned to the end. */
  lemma DigitsToEnd(t: Text, p: nat)
    requires p <= |t| && Digits(t[p..])
    ensures p < DigitsEnd(t, p) == |t|
  {
    forall i | p <= i < |t| ensures IsDigit(t[i]) { assert t[i] == t[p..][i - p]; }
    DigitsEndIs(t, p, |t|);
  }

  lemma ScannedDigits(t: Text, p: nat)
    requires p <= |t| && p < DigitsEnd(t, p) == |t|
    ensures Digits(t[p..])
  {
    DigitsEndAll(t, p);
  }

  /** The digits of a part that ends at q, where no digit follows. */
  lemma PartDigits(t: Text, p: nat, q: nat)
    requires p <= q <= |t| && Digits(t[p..q]) && (q < |t| ==> !IsDigit(t[q]))
    ensures p < q && IsDigit(t[p]) && DigitsEnd(t, p) == q
  {
    forall i | p <= i < q ensures IsDigit(t[i]) { assert t[i] == t[p..q][i - p]; }
    DigitsEndIs(t, p, q);
  }

  lemma ExpIsScan(t: Text, f: nat)
    requires f <= |t|
    ensures RfcExp(t[f..]) <==> ExponentEnd(t, f) == Some(|t|)
  {
    if f < |t| && IsExponent(t[f]) {
      assert t[f..][0] == t[f] && t[f..][1..] == t[f + 1..];
      if f + 1 < |t| && IsSign(t[f + 1]) {
        assert t[f..][1] == t[f + 1] && t[f..][2..] == t[f + 2..];
        assert t[f + 1..][0] == t[f + 1];
        ToEnd(t, f + 2);
      } else {
        if f + 1 < |t| { assert t[f..][1] == t[f + 1]; }
        ToEnd(t, f + 1);
      }
    } else if f < |t| {
      assert t[f..][0] == t[f];
    }
  }

  lemma ToEnd(t: Text, p: nat)
    requires p <= |t|
    ensures Digits(t[p..]) <==> p < DigitsEnd(t, p) == |t|
  {
    if Digits(t[p..]) { DigitsToEnd(t, p); }
    if p < DigitsEnd(t, p) == |t| { ScannedDigits(t, p); }
  }

  /** No digit starts an exponent or what is empty. */
  lemma ExpStarts(t: Text, f: nat)
    requires f < |t| && RfcExp(t[f..])
    ensures IsExponent(t[f]) && !IsDigit(t[f]) && t[f] != DOT
  {
    assert t[f..][0] == t[f];
  }

  lemma FracIsScan(t: Text, d: nat, f: nat)
    requires d <= f <= |t| && RfcFrac(t[d..f]) && RfcExp(t[f..])
    ensures FractionEnd(t, d) == Some(f) && (d < |t| ==> !IsDigit(t[d]))
  {
    if f < |t| { ExpStarts(t, f); }
    if d < f {
      assert t[d..f][0] == t[d] && t[d..f][1..] == t[d + 1..f];
      PartDigits(t, d + 1, f);
    }
  }

  /** The parts are where the scan stops. */
  lemma RfcIsScan(t: Text, s: nat, d: nat, f: nat)
    requires RfcParts(t, s, d, f)
    ensures StartsNumber(t, 0) && RfcEnd(t, 0) == Some(|t|)
  {
    hide RfcExp, RfcFrac, FractionEnd, ExponentEnd, DigitsEnd;
    FracIsScan(t, d, f);
    PartDigits(t, s, d);
    ExpIsScan(t, f);
    assert t[s..d][0] == t[s];
  }

  lemma ScanIsRfc(t: Text)
    requires StartsNumber(t, 0) && RfcEnd(t, 0) == Some(|t|)
    ensures RfcNumber(t)
  {
    hide RfcExp, ExponentEnd;
    var s := AfterMinus(t, 0);
    var d := DigitsEnd(t, s);
    var f := FractionEnd(t, d).value;
    ExpIsScan(t, f);
    DigitsEndAll(t, s);
    assert DigitsEnd(t, s) == DigitsEnd(t, s + 1);
    assert RfcInt(t[s..d]);
    if f > d {
      DigitsEndAll(t, d + 1);
      assert t[d..f][0] == DOT && t[d..f][1..] == t[d + 1..f];
    }
    assert RfcParts(t, s, d, f);
  }

  /** The whole of a text is a number for the code if and only if it is one of the RFC, or starts like -01. */
  lemma NumberIsRfc(t: Text)
    ensures StartsNumber(t, 0) && NumberEnd(t, 0) == Some(|t|) && !MinusZero(t, 0) <==> RfcNumber(t)
  {
    hide RfcParts, RfcEnd, NumberEnd;
    if StartsNumber(t, 0) { RfcExceptMinusZero(t, 0); }
    if StartsNumber(t, 0) && NumberEnd(t, 0) == Some(|t|) && !MinusZero(t, 0) { ScanIsRfc(t); }
    if RfcNumber(t) {
      var s, d, f :| RfcParts(t, s, d, f);
      RfcIsScan(t, s, d, f);
    }
  }

  /** The code accepts -01. */
  lemma MinusZeroAccepted()
    ensures StartsNumber([45, 48, 49], 0) && NumberEnd([45, 48, 49], 0) == Some(3) && !RfcNumber([45, 48, 49])
  {
    var t: Text := [45, 48, 49];
    assert DigitsEnd(t, 3) == 3 && DigitsEnd(t, 2) == 3 && DigitsEnd(t, 1) == 3;
    NumberIsRfc(t);
  }
}
