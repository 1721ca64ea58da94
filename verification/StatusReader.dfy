/**
  Reading the capability sets out of a status file in pieces:
  nxt_capability_status_line() and nxt_capability_proc_status_held().
 */
module StatusReader {
  import opened Bytes

  /** sizeof(buf) */
  const SIZE: nat := 1024

  const PERMITTED: Text := [67, 97, 112, 80, 114, 109, COLON]
  const EFFECTIVE: Text := [67, 97, 112, 69, 102, 102, COLON]
  const AMBIENT: Text := [67, 97, 112, 65, 109, 98, COLON]

  // One line.

  datatype Line = Other | Malformed | Set(bits: nat)

  function Hex(b: Byte): Option<nat> {
    if 48 <= b <= 57 then Some(b - 48)
    else if 97 <= b <= 102 then Some(b - 87)
    else if 65 <= b <= 70 then Some(b - 55)
    else None
  }

  predicate IsBlank(b: Byte) { b == SPACE || b == TAB }

  /** The end of the blanks that start at p. */
  function BlanksEnd(s: Text, p: nat): (q: nat)
    requires p <= |s|
    ensures p <= q <= |s|
    decreases |s| - p
  {
    if p < |s| && IsBlank(s[p]) then BlanksEnd(s, p + 1) else p
  }

  /** The end of the hexadecimal digits that start at p. */
  function DigitsEnd(s: Text, p: nat): (q: nat)
    requires p <= |s|
    ensures p <= q <= |s| && forall i :: p <= i < q ==> Hex(s[i]).Some?
    decreases |s| - p
  {
    if p < |s| && Hex(s[p]).Some? then DigitsEnd(s, p + 1) else p
  }

  ghost predicate AllHex(s: Text) { forall i :: 0 <= i < |s| ==> Hex(s[i]).Some? }

  ghost function HexValue(s: Text): nat
    requires AllHex(s)
  {
    if s == [] then 0
    else
      assert Hex(s[|s| - 1]).Some?;
      16 * HexValue(s[..|s| - 1]) + Hex(s[|s| - 1]).value
  }

  predicate Named(s: Text) { |s| > 7 && (s[..7] == PERMITTED || s[..7] == EFFECTIVE || s[..7] == AMBIENT) }

  /** What a line says. */
  ghost function Read(s: Text): Line {
    if !Named(s) then Other
    else
      var q := BlanksEnd(s, 7);
      var r := DigitsEnd(s, q);
      if r == q || r - q > 16 then Malformed else Set(HexValue(s[q..r]))
  }

  const WORD: nat := 0x1_0000_0000_0000_0000

  ghost function Power(n: nat): nat { if n == 0 then 1 else 16 * Power(n - 1) }

  lemma {:induction false} BelowPower(s: Text)
    requires AllHex(s)
    ensures HexValue(s) < Power(|s|)
  {
    if s != [] { BelowPower(s[..|s| - 1]); }
  }

  lemma {:induction false} PowerMonotone(m: nat, n: nat)
    requires m <= n
    ensures Power(m) <= Power(n)
    decreases n
  {
    if m < n { PowerMonotone(m, n - 1); }
  }

  lemma Sixteen()
    ensures Power(16) == WORD
  {
    assert Power(4) == 0x1_0000;
    assert Power(8) == 0x1_0000_0000;
    assert Power(12) == 0x1_0000_0000_0000;
  }

  /** A shift of an uint64_t loses nothing of sixteen digits. */
  lemma NoWrap(s: Text, n: nat)
    requires AllHex(s) && n < |s| && n < 16
    ensures 16 * HexValue(s[..n]) < WORD && HexValue(s[..n + 1]) == 16 * HexValue(s[..n]) + Hex(s[n]).value
  {
    BelowPower(s[..n]);
    PowerMonotone(n + 1, 16);
    Sixteen();
    assert s[..n + 1][..n] == s[..n] && s[..n + 1][n] == s[n];
  }

  method SkipBlanks(s: Text, p: nat) returns (q: nat)
    requires p <= |s|
    ensures q == BlanksEnd(s, p)
  {
    q := p;
    while q < |s| && IsBlank(s[q])
      invariant p <= q <= |s| && BlanksEnd(s, p) == BlanksEnd(s, q)
    {
      q := q + 1;
    }
  }

  /** The value is kept in 64 bits, so it is right for at most sixteen digits. */
  method ScanHex(s: Text, p: nat) returns (digits: nat, v: nat)
    requires p <= |s|
    ensures digits == DigitsEnd(s, p) - p
    ensures digits <= 16 ==> v == HexValue(s[p..p + digits])
  {
    hide HexValue;
    var q := p;
    digits, v := 0, 0;
    ghost var run := s[p..DigitsEnd(s, p)];
    EmptyRun(run);
    while q < |s| && Hex(s[q]).Some?
      invariant p <= q <= |s| && digits == q - p && DigitsEnd(s, q) == DigitsEnd(s, p)
      invariant digits <= 16 ==> v == HexValue(run[..digits])
    {
      if digits < 16 {
        assert run[digits] == s[q];
        NoWrap(run, digits);
      }
      v := (16 * v) % WORD + Hex(s[q]).value;
      q := q + 1;
      digits := digits + 1;
    }
    assert run[..|run|] == run;
  }

  lemma EmptyRun(s: Text)
    requires AllHex(s)
    ensures HexValue(s[..0]) == 0
  {
  }

  lemma NamedIsCap(s: Text)
    requires Named(s)
    ensures s[..3] == [67, 97, 112]
  {
    assert s[..3] == s[..7][..3];
  }

  method StatusLine(s: Text) returns (r: Line)
    ensures r == Read(s)
  {
    hide HexValue, BlanksEnd, DigitsEnd;
    if Named(s) { NamedIsCap(s); }
    if |s| <= 7 || s[..3] != [67, 97, 112] { return Other; }
    if s[..7] != PERMITTED && s[..7] != EFFECTIVE && s[..7] != AMBIENT { return Other; }
    var q := SkipBlanks(s, 7);
    var digits, v := ScanHex(s, q);
    if digits == 0 || digits > 16 { return Malformed; }
    return Set(v);
  }

  // How a set is written.

  /** The sets that are looked at are the permitted, the effective and the ambient one. */
  lemma SetNames()
    ensures PERMITTED == Ascii("CapPrm:") && EFFECTIVE == Ascii("CapEff:") && AMBIENT == Ascii("CapAmb:")
  {
  }

  /** The last digits of n, one for each choice of case. */
  function Digits(n: nat, lower: seq<bool>): (t: Text)
    ensures |t| == |lower|
  {
    if lower == [] then []
    else
      var m := |lower| - 1;
      Digits(n / 16, lower[..m]) + [HexByte(n % 16, lower[m])]
  }

  lemma HexOfDigit(d: nat, lower: bool)
    requires d < 16
    ensures Hex(HexByte(d, lower)) == Some(d)
  {
  }

  lemma {:induction false} DigitsRead(n: nat, lower: seq<bool>)
    requires n < Power(|lower|)
    ensures AllHex(Digits(n, lower)) && HexValue(Digits(n, lower)) == n
    decreases |lower|
  {
    if lower != [] {
      var m, t := |lower| - 1, Digits(n, lower);
      DigitsRead(n / 16, lower[..m]);
      HexOfDigit(n % 16, lower[m]);
      assert t[..m] == Digits(n / 16, lower[..m]);
    }
  }

  /** Every run of hexadecimal digits is such a text. */
  lemma {:induction false} DigitsWere(t: Text) returns (lower: seq<bool>)
    requires AllHex(t)
    ensures |lower| == |t| && Digits(HexValue(t), lower) == t
    decreases |t|
  {
    hide Hex, HexByte, AllHex;
    if t == [] {
      lower := [];
    } else {
      var m := |t| - 1;
      HexWasDigit(t, m);
      var before := DigitsWere(t[..m]);
      lower := before + [t[m] >= 97];
      assert t == t[..m] + [t[m]] && lower[..m] == before;
    }
  }

  lemma HexWasDigit(t: Text, m: nat)
    requires AllHex(t) && m == |t| - 1
    ensures Hex(t[m]).Some? && Hex(t[m]).value < 16 && t[m] == HexByte(Hex(t[m]).value, t[m] >= 97) && AllHex(t[..m])
  {
  }

  lemma {:induction false} BlanksEndIs(s: Text, p: nat, q: nat)
    requires p <= q <= |s| && (forall i :: p <= i < q ==> IsBlank(s[i])) && (q < |s| ==> !IsBlank(s[q]))
    ensures BlanksEnd(s, p) == q
    decreases q - p
  {
    if p < q { BlanksEndIs(s, p + 1, q); }
  }

  lemma {:induction false} DigitsEndIs(s: Text, p: nat, q: nat)
    requires p <= q <= |s| && (forall i :: p <= i < q ==> Hex(s[i]).Some?) && (q < |s| ==> Hex(s[q]).None?)
    ensures DigitsEnd(s, p) == q
    decreases q - p
  {
    if p < q { DigitsEndIs(s, p + 1, q); }
  }

  ghost predicate IsName(name: Text) { name == PERMITTED || name == EFFECTIVE || name == AMBIENT }

  ghost predicate AllBlank(s: Text) { forall i :: 0 <= i < |s| ==> IsBlank(s[i]) }

  /** A name, blanks, digits, and something that does not go on with a digit. */
  ghost predicate Written(s: Text, name: Text, blanks: Text, digits: Text, rest: Text) {
    && s == name + blanks + digits + rest && IsName(name) && AllBlank(blanks) && AllHex(digits)
    && (rest != [] ==> Hex(rest[0]).None?)
    && |blanks + digits + rest| > 0 && (digits == [] && rest != [] ==> !IsBlank(rest[0]))
  }

  lemma WrittenEnds(s: Text, name: Text, blanks: Text, digits: Text, rest: Text)
    requires Written(s, name, blanks, digits, rest)
    ensures Named(s) && BlanksEnd(s, 7) == 7 + |blanks| && DigitsEnd(s, 7 + |blanks|) == 7 + |blanks| + |digits|
    ensures s[7 + |blanks|..7 + |blanks| + |digits|] == digits
  {
    var q := 7 + |blanks|;
    var r := q + |digits|;
    assert s[..7] == name && s[q..r] == digits;
    forall i | 7 <= i < q ensures IsBlank(s[i]) { assert s[i] == blanks[i - 7]; }
    forall i | q <= i < r ensures Hex(s[i]).Some? { assert s[i] == digits[i - q]; }
    if r < |s| { assert s[r] == rest[0]; }
    if q < r { assert s[q] == digits[0]; }
    BlanksEndIs(s, 7, q);
    DigitsEndIs(s, q, r);
  }

  /** Up to sixteen digits of a set, in either case, are read as that set; no digit or more of them are malformed. */
  lemma SetReads(s: Text, name: Text, blanks: Text, rest: Text, n: nat, lower: seq<bool>)
    requires n < Power(|lower|) && Written(s, name, blanks, Digits(n, lower), rest)
    ensures Read(s) == if 0 < |lower| <= 16 then Set(n) else Malformed
  {
    hide BlanksEnd, DigitsEnd, Written, Digits, HexValue;
    DigitsRead(n, lower);
    WrittenEnds(s, name, blanks, Digits(n, lower), rest);
  }

  lemma {:induction false} BlanksAre(s: Text, p: nat)
    requires p <= |s|
    ensures AllBlank(s[p..BlanksEnd(s, p)]) && (BlanksEnd(s, p) < |s| ==> !IsBlank(s[BlanksEnd(s, p)]))
    decreases |s| - p
  {
    if p < |s| && IsBlank(s[p]) {
      BlanksAre(s, p + 1);
      assert s[p..BlanksEnd(s, p)] == [s[p]] + s[p + 1..BlanksEnd(s, p)];
    }
  }

  lemma {:induction false} DigitsStop(s: Text, p: nat)
    requires p <= |s|
    ensures DigitsEnd(s, p) < |s| ==> Hex(s[DigitsEnd(s, p)]).None?
    decreases |s| - p
  {
    if p < |s| && Hex(s[p]).Some? { DigitsStop(s, p + 1); }
  }

  /** A line that is read as a set was written so. */
  lemma SetWasWritten(s: Text) returns (name: Text, blanks: Text, rest: Text, lower: seq<bool>)
    requires Read(s).Set?
    ensures 0 < |lower| <= 16 && Written(s, name, blanks, Digits(Read(s).bits, lower), rest)
  {
    hide BlanksEnd, DigitsEnd, Digits, HexValue;
    var q := BlanksEnd(s, 7);
    var r := DigitsEnd(s, q);
    BlanksAre(s, 7);
    DigitsStop(s, q);
    name, blanks, rest := s[..7], s[7..q], s[r..];
    lower := DigitsWere(s[q..r]);
    assert s == name + blanks + s[q..r] + rest;
  }

  // A whole file.

  /** The first newline from p on, or the end. */
  function LineEnd(s: Text, p: nat): (q: nat)
    requires p <= |s|
    ensures p <= q <= |s| && (q < |s| ==> s[q] == NEWLINE) && forall i :: p <= i < q ==> s[i] != NEWLINE
    decreases |s| - p
  {
    if p == |s| || s[p] == NEWLINE then p else LineEnd(s, p + 1)
  }

  /** The lines from p on; the last one need not be terminated. */
  function Lines(s: Text, p: nat): seq<Text>
    requires p <= |s|
    decreases |s| - p
  {
    var q := LineEnd(s, p);
    if q == |s| then (if p == q then [] else [s[p..q]]) else [s[p..q]] + Lines(s, q + 1)
  }

  function Or(a: nat, b: nat): nat
    decreases a + b
  {
    if a == 0 && b == 0 then 0 else 2 * Or(a / 2, b / 2) + if a % 2 == 1 || b % 2 == 1 then 1 else 0
  }

  datatype Tally = Failed | Tally(bits: nat, found: nat)

  ghost function Add(t: Tally, s: Text): Tally {
    if t.Failed? then Failed
    else match Read(s)
      case Other => t
      case Malformed => Failed
      case Set(v) => Tally(Or(t.bits, v), t.found + 1)
  }

  /** Only the lines that are shorter than the buffer are looked at. */
  ghost function Fold(ls: seq<Text>, t: Tally): Tally {
    if ls == [] then t else Fold(ls[1..], if |ls[0]| < SIZE then Add(t, ls[0]) else t)
  }

  datatype Held = Unknown | Nothing | Something

  function Answer(t: Tally): Held {
    if t.Failed? || t.found < 2 then Unknown else if t.bits != 0 then Something else Nothing
  }

  ghost function HeldIn(s: Text): Held { Answer(Fold(Lines(s, 0), Tally(0, 0))) }

  // What the answer means.

  lemma {:induction false} OrIsZero(a: nat, b: nat)
    ensures Or(a, b) == 0 <==> a == 0 && b == 0
    decreases a + b
  {
    if a != 0 || b != 0 { OrIsZero(a / 2, b / 2); }
  }

  ghost predicate Counted(s: Text) { |s| < SIZE && Read(s).Set? }

  ghost function Count(ls: seq<Text>): nat {
    if ls == [] then 0 else (if Counted(ls[0]) then 1 else 0) + Count(ls[1..])
  }

  lemma {:induction false} FailedStays(ls: seq<Text>)
    ensures Fold(ls, Failed) == Failed
  {
    if ls != [] { FailedStays(ls[1..]); }
  }

  ghost predicate Broken(ls: seq<Text>) { exists i :: 0 <= i < |ls| && |ls[i]| < SIZE && Read(ls[i]).Malformed? }

  ghost predicate Bits(ls: seq<Text>) { exists i :: 0 <= i < |ls| && Counted(ls[i]) && Read(ls[i]).bits != 0 }

  lemma Rest(ls: seq<Text>)
    requires ls != []
    ensures Broken(ls) <==> Broken(ls[1..]) || (|ls[0]| < SIZE && Read(ls[0]).Malformed?)
    ensures Bits(ls) <==> Bits(ls[1..]) || (Counted(ls[0]) && Read(ls[0]).bits != 0)
  {
    hide Read;
    forall i | 1 <= i < |ls| ensures ls[i] == ls[1..][i - 1] { }
    forall i | 0 <= i < |ls| - 1 ensures ls[i + 1] == ls[1..][i] { }
  }

  lemma {:induction false} FoldIs(ls: seq<Text>, bits: nat, found: nat)
    ensures var t := Fold(ls, Tally(bits, found));
            if Broken(ls) then t.Failed?
            else t.Tally? && t.found == found + Count(ls) && (t.bits != 0 <==> bits != 0 || Bits(ls))
  {
    hide Read, Broken, Bits;
    if ls == [] {
      Empty();
    } else {
      Rest(ls);
      if |ls[0]| < SIZE {
        match Read(ls[0]) {
          case Other => FoldIs(ls[1..], bits, found);
          case Malformed => FailedStays(ls[1..]);
          case Set(v) =>
            OrIsZero(bits, v);
            FoldIs(ls[1..], Or(bits, v), found + 1);
        }
      } else {
        FoldIs(ls[1..], bits, found);
      }
    }
  }

  lemma Empty()
    ensures !Broken([]) && !Bits([])
  {
  }

  /** Known only if no set is malformed and two are there; then something is held iff some set is not empty. */
  lemma HeldMeans(s: Text)
    ensures var ls := Lines(s, 0);
            && (HeldIn(s) == Unknown <==> Broken(ls) || Count(ls) < 2)
            && (HeldIn(s) == Something <==> !Broken(ls) && Count(ls) >= 2 && Bits(ls))
  {
    FoldIs(Lines(s, 0), 0, 0);
  }

  function Join(ls: seq<Text>): Text { if ls == [] then [] else ls[0] + [NEWLINE] + Join(ls[1..]) }

  /** The rest of the file from p on, with its last newline if that is missing. */
  function Terminated(s: Text, p: nat): Text
    requires p <= |s|
  {
    if p == |s| || s[|s| - 1] == NEWLINE then s[p..] else s[p..] + [NEWLINE]
  }

  lemma JoinCons(l: Text, ls: seq<Text>)
    ensures Join([l] + ls) == l + [NEWLINE] + Join(ls)
  {
    assert ([l] + ls)[1..] == ls;
  }

  lemma TerminatedLine(s: Text, p: nat, q: nat)
    requires p <= q < |s| && s[q] == NEWLINE
    ensures Terminated(s, p) == s[p..q] + [NEWLINE] + Terminated(s, q + 1)
  {
    assert s[p..] == s[p..q] + [NEWLINE] + s[q + 1..];
    if q + 1 < |s| && s[|s| - 1] != NEWLINE {
      assert s[p..q] + [NEWLINE] + (s[q + 1..] + [NEWLINE]) == (s[p..q] + [NEWLINE] + s[q + 1..]) + [NEWLINE];
    }
  }

  /** The lines are the file, cut at its newlines. */
  lemma {:induction false} LinesAreTheFile(s: Text, p: nat)
    requires p <= |s|
    ensures Join(Lines(s, p)) == Terminated(s, p)
    ensures forall i :: 0 <= i < |Lines(s, p)| ==> NEWLINE !in Lines(s, p)[i]
    decreases |s| - p
  {
    hide Join, Terminated, LineEnd;
    var q := LineEnd(s, p);
    if q < |s| {
      LinesAreTheFile(s, q + 1);
      JoinCons(s[p..q], Lines(s, q + 1));
      TerminatedLine(s, p, q);
    } else {
      LastLine(s, p);
    }
  }

  lemma LastLine(s: Text, p: nat)
    requires p <= |s| && LineEnd(s, p) == |s|
    ensures Join(Lines(s, p)) == Terminated(s, p) && forall l :: l in Lines(s, p) ==> NEWLINE !in l
  {
    if p < |s| {
      JoinCons(s[p..], []);
      assert s[p..|s|] == s[p..];
      assert [s[p..]] + [] == Lines(s, p);
      assert s[p..] + [NEWLINE] + [] == s[p..] + [NEWLINE];
    }
  }

  // The file as read() shows it.

  /** How a read() ends: with some bytes, by a signal, or with an error. */
  datatype Cut = Bytes(n: nat) | Signal | Error

  datatype Outcome = Got(n: nat) | Interrupted | Broke

  /** The copy that read() makes. */
  method CopyInto(buf: array<Byte>, at: nat, bytes: Text)
    requires at + |bytes| <= buf.Length
    modifies buf
    ensures buf[..at + |bytes|] == old(buf[..at]) + bytes
  {
    for i := 0 to |bytes|
      invariant buf[..at] == old(buf[..at]) && buf[at..at + i] == bytes[..i]
    {
      buf[at + i] := bytes[i];
    }
  }

  class File {
    const content: Text
    var offset: nat
    var cuts: seq<Cut>

    constructor (content: Text, cuts: seq<Cut>)
      ensures this.content == content && offset == 0 && this.cuts == cuts
    {
      this.content, offset, this.cuts := content, 0, cuts;
    }

    /** At least one byte unless the file has ended; when the cuts run out, all that was asked for. */
    method ReadInto(buf: array<Byte>, at: nat) returns (r: Outcome)
      requires at < buf.Length && offset <= |content|
      modifies this, buf
      ensures offset <= |content|
      ensures (|cuts| == |old(cuts)| && r.Got?) || |cuts| < |old(cuts)|
      ensures (forall c :: c in cuts ==> c in old(cuts)) && (r.Broke? ==> Error in old(cuts))
      ensures r.Got? ==>
                && offset == old(offset) + r.n
                && at + r.n <= buf.Length
                && (r.n == 0 <==> old(offset) == |content|)
                && buf[..at + r.n] == old(buf[..at]) + content[old(offset)..offset]
      ensures !r.Got? ==> offset == old(offset) && buf[..] == old(buf[..])
    {
      var n := buf.Length - at;
      if cuts != [] {
        var cut := cuts[0];
        cuts := cuts[1..];
        match cut {
          case Signal => return Interrupted;
          case Error => return Broke;
          case Bytes(k) => if k == 0 { n := 1; } else if k < n { n := k; }
        }
      }
      if |content| - offset < n { n := |content| - offset; }
      CopyInto(buf, at, content[offset..offset + n]);
      offset := offset + n;
      return Got(n);
    }
  }

  // The reader.

  ghost predicate NoNewline(s: Text, p: nat, q: nat) {
    p <= q <= |s| && forall i :: p <= i < q ==> s[i] != NEWLINE
  }

  /**
    The text in the buffer ends at offset o of the file. Of the line that starts at s it holds all,
    or, when the line is being skipped, a later part.
   */
  ghost predicate Pending(file: Text, text: Text, o: nat, s: nat, skipping: bool) {
    && s + |text| <= o <= |file|
    && text == file[o - |text|..o]
    && NoNewline(file, s, o - |text|)
    && if skipping then s + SIZE + |text| <= o else s + |text| == o
  }

  lemma {:induction false} LineEndIs(file: Text, s: nat, e: nat)
    requires NoNewline(file, s, e) && (e == |file| || file[e] == NEWLINE)
    ensures LineEnd(file, s) == e
    decreases e - s
  {
    if s < e { LineEndIs(file, s + 1, e); }
  }

  /** One terminated line is folded in, or skipped for its length. */
  lemma LineDone(file: Text, s: nat, e: nat, t: Tally)
    requires NoNewline(file, s, e) && e < |file| && file[e] == NEWLINE
    ensures Fold(Lines(file, s), t) == Fold(Lines(file, e + 1), if e - s < SIZE then Add(t, file[s..e]) else t)
  {
    hide Add;
    LineEndIs(file, s, e);
    assert Lines(file, s)[1..] == Lines(file, e + 1);
  }

  /** What is left at the end of the file. */
  lemma LastDone(file: Text, s: nat, t: Tally)
    requires NoNewline(file, s, |file|)
    ensures Fold(Lines(file, s), t) == if s < |file| && |file| - s < SIZE then Add(t, file[s..]) else t
  {
    hide Add;
    LineEndIs(file, s, |file|);
    if s < |file| {
      assert file[s..|file|] == file[s..] && Lines(file, s)[1..] == [];
    }
  }

  /** A newline at k of the text is the end of the pending line. */
  lemma EndInText(file: Text, text: Text, o: nat, s: nat, skipping: bool, k: nat)
    requires Pending(file, text, o, s, skipping)
    requires k < |text| <= SIZE && text[k] == NEWLINE && NEWLINE !in text[..k]
    ensures var e := o - |text| + k;
            && NoNewline(file, s, e) && e < |file| && file[e] == NEWLINE
            && (skipping <==> e - s >= SIZE)
            && (!skipping ==> file[s..e] == text[..k])
            && Pending(file, text[k + 1..], o, e + 1, false)
  {
    var base := o - |text|;
    forall i | base <= i < base + k ensures file[i] != NEWLINE {
      assert file[i] == text[..k][i - base];
    }
    assert text[k + 1..] == file[base + k + 1..o];
    if !skipping { assert file[s..base + k] == text[..k]; }
  }

  lemma NoneInText(file: Text, text: Text, o: nat, s: nat, skipping: bool)
    requires Pending(file, text, o, s, skipping) && NEWLINE !in text
    ensures NoNewline(file, s, o)
    ensures |text| == SIZE ==> Pending(file, [], o, s, true)
  {
    var base := o - |text|;
    forall i | base <= i < o ensures file[i] != NEWLINE {
      assert file[i] == text[i - base];
    }
  }

  lemma More(file: Text, text: Text, o: nat, s: nat, skipping: bool, n: nat)
    requires Pending(file, text, o, s, skipping) && o + n <= |file|
    ensures Pending(file, text + file[o..o + n], o + n, s, skipping)
  {
    assert text + file[o..o + n] == file[o - |text|..o + n];
  }

  class Reader {
    const buf: array<Byte>
    var len: nat
    var skipping: bool
    var bits: nat
    var found: nat

    constructor ()
      ensures fresh(buf) && buf.Length == SIZE && len == 0 && !skipping && Sum() == Tally(0, 0)
    {
      buf := new Byte[SIZE];
      len, skipping, bits, found := 0, false, 0, 0;
    }

    function Sum(): Tally
      reads this
    {
      Tally(bits, found)
    }

    /** Between two reads: room for at least one byte, and no newline in what is carried over. */
    ghost predicate Valid(file: Text, o: nat, s: nat)
      reads this, buf
    {
      && buf.Length == SIZE && len < SIZE
      && Pending(file, buf[..len], o, s, skipping)
      && NoNewline(file, s, o)
    }

    method Find(p: nat, end: nat) returns (eol: Option<nat>)
      requires p <= end <= buf.Length
      ensures match eol
              case None => NEWLINE !in buf[p..end]
              case Some(k) => p <= k < end && buf[k] == NEWLINE && NEWLINE !in buf[p..k]
    {
      for k := p to end
        invariant NEWLINE !in buf[p..k]
      {
        if buf[k] == NEWLINE { return Some(k); }
      }
      return None;
    }

    method Count(line: Text) returns (ok: bool)
      modifies this`bits, this`found
      ensures ok <==> !Add(old(Sum()), line).Failed?
      ensures ok ==> Sum() == Add(old(Sum()), line)
    {
      hide Read, Or;
      var r := StatusLine(line);
      match r {
        case Other => return true;
        case Malformed => return false;
        case Set(v) =>
          bits, found := Or(bits, v), found + 1;
          return true;
      }
    }

    /** memmove() of the tail to the front. */
    method Keep(p: nat, end: nat)
      requires p <= end <= buf.Length
      modifies buf
      ensures buf[..end - p] == old(buf[p..end])
    {
      for i := 0 to end - p
        invariant buf[..i] == old(buf[p..p + i]) && buf[p + i..end] == old(buf[p + i..end])
      {
        assert buf[p + i] == buf[p + i..end][0];
        buf[i] := buf[p + i];
      }
    }

    /** All the lines that end in the buffer are folded in; the start of the next one is kept, unless it fills the buffer. */
    method Digest(end: nat, ghost file: Text, ghost o: nat, ghost s: nat) returns (ok: bool, ghost s': nat)
      requires buf.Length == SIZE && end <= SIZE && s <= |file| && Pending(file, buf[..end], o, s, skipping)
      modifies this, buf
      ensures !ok ==> Fold(Lines(file, s), old(Sum())) == Failed
      ensures ok ==> s' <= |file| && Valid(file, o, s') && Fold(Lines(file, s), old(Sum())) == Fold(Lines(file, s'), Sum())
    {
      hide Lines, Fold, Add, Pending, NoNewline;
      var p: nat := 0;
      s' := s;
      assert buf[0..end] == buf[..end];
      while true
        invariant p <= end && s' <= |file| && Pending(file, buf[p..end], o, s', skipping)
        invariant Fold(Lines(file, s), old(Sum())) == Fold(Lines(file, s'), Sum())
        invariant buf[..] == old(buf[..])
        decreases end - p
      {
        var eol := Find(p, end);
        if eol.None? { break; }
        var k := eol.value;
        ghost var text, e := buf[p..end], o - (end - k);
        assert text[..k - p] == buf[p..k] && text[k - p + 1..] == buf[k + 1..end];
        EndInText(file, text, o, s', skipping, k - p);
        LineDone(file, s', e, Sum());
        if !skipping {
          ok := Count(buf[p..k]);
          if !ok {
            FailedStays(Lines(file, e + 1));
            return;
          }
        }
        skipping, p, s' := false, k + 1, e + 1;
      }
      NoneInText(file, buf[p..end], o, s', skipping);
      len := end - p;
      if len == SIZE {
        skipping, len := true, 0;
        assert buf[..0] == [];
      } else {
        Keep(p, end);
      }
      ok := true;
    }
  }

  /**
    However the file is cut into reads, and however often a signal interrupts one, the answer is
    that of folding the short lines; only an error of read() makes it unknown.
   */
  method ProcStatusHeld(file: File) returns (r: Held)
    requires file.offset == 0
    modifies file
    ensures Error !in old(file.cuts) ==> r == HeldIn(file.content)
    ensures r == HeldIn(file.content) || r == Unknown
  {
    hide Lines, Fold, Add, Pending, NoNewline;
    var reader := new Reader();
    var content := file.content;
    ghost var s: nat := 0;
    ghost var all := Fold(Lines(content, 0), Tally(0, 0));
    assert reader.buf[..0] == [];
    StartPending(content);
    while true
      invariant fresh(reader) && fresh(reader.buf)
      invariant file.offset <= |content| && s <= |content| && reader.Valid(content, file.offset, s)
      invariant Fold(Lines(content, s), reader.Sum()) == all
      invariant forall c :: c in file.cuts ==> c in old(file.cuts)
      decreases |file.cuts|, |content| - file.offset
    {
      ghost var text, o := reader.buf[..reader.len], file.offset;
      var n := file.ReadInto(reader.buf, reader.len);
      if n.Broke? { return Unknown; }
      if n.Interrupted? {
        assert reader.buf[..reader.len] == text;
        continue;
      }
      if n.n == 0 {
        assert reader.buf[..reader.len] == text;
        break;
      }
      More(content, text, o, s, reader.skipping, n.n);
      var ok;
      ok, s := reader.Digest(reader.len + n.n, content, file.offset, s);
      if !ok { return Unknown; }
    }
    AtTheEnd(content, reader.buf[..reader.len], s, reader.skipping);
    LastDone(content, s, reader.Sum());
    if reader.len > 0 && !reader.skipping {
      var ok := reader.Count(reader.buf[..reader.len]);
      if !ok { return Unknown; }
    }
    r := Answer(reader.Sum());
  }

  lemma StartPending(file: Text)
    ensures Pending(file, [], 0, 0, false) && NoNewline(file, 0, 0)
  {
  }

  lemma AtTheEnd(file: Text, text: Text, s: nat, skipping: bool)
    requires Pending(file, text, |file|, s, skipping)
    ensures s <= |file|
    ensures skipping ==> |file| - s >= SIZE
    ensures !skipping ==> file[s..] == text && |file| - s == |text|
  {
  }
}
