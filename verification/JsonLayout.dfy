/** What may stand between the tokens of a configuration: blanks, and comments to the end of a line or to their own end. */
module JsonLayout {
  import opened Bytes
  import opened JsonSpace
  import Spelling = JsonSpelling

  datatype Piece = Blank(b: Byte) | Line(t: Text) | Block(t: Text)

  /** The first end of a block comment is its end. */
  ghost predicate NoEndBefore(t: Text) {
    var w := t + [ASTERISK, SLASH];
    forall i :: 0 <= i < |t| ==> !(w[i] == ASTERISK && w[i + 1] == SLASH)
  }

  ghost predicate IsPiece(x: Piece) {
    match x
    case Blank(b) => b == 0x20 || b == 0x09 || b == 0x0a || b == 0x0d
    case Line(t) => forall i :: 0 <= i < |t| ==> t[i] != NEWLINE
    case Block(t) => NoEndBefore(t)
  }

  function PieceText(x: Piece): (t: Text)
    ensures t != []
  {
    match x
    case Blank(b) => [b]
    case Line(t) => [SLASH, SLASH] + (t + [NEWLINE])
    case Block(t) => [SLASH, ASTERISK] + (t + [ASTERISK, SLASH])
  }

  type Gap = seq<Piece>

  ghost predicate IsGap(gap: Gap) { forall i :: 0 <= i < |gap| ==> IsPiece(gap[i]) }

  function GapText(gap: Gap): Text { if gap == [] then [] else PieceText(gap[0]) + GapText(gap[1..]) }

  // A gap is skipped.

  lemma {:induction false} LineEnds(text: Text, p: nat, t: Text)
    requires At(text, p, t + [NEWLINE]) && forall i :: 0 <= i < |t| ==> t[i] != NEWLINE
    ensures AfterLine(text, p) == Some(p + |t| + 1)
    decreases |t|
  {
    AtIndex(text, p, t + [NEWLINE], 0);
    if t != [] {
      assert t + [NEWLINE] == [t[0]] + (t[1..] + [NEWLINE]);
      AtSplit(text, p, [t[0]], t[1..] + [NEWLINE]);
      LineEnds(text, p + 1, t[1..]);
    }
  }

  lemma {:induction false} BlockEnds(text: Text, p: nat, t: Text)
    requires At(text, p, t + [ASTERISK, SLASH]) && NoEndBefore(t)
    ensures AfterBlock(text, p) == Some(p + |t| + 2)
    decreases |t|
  {
    var w := t + [ASTERISK, SLASH];
    AtIndex(text, p, w, 0);
    AtIndex(text, p, w, 1);
    if t != [] {
      var rest := t[1..] + [ASTERISK, SLASH];
      assert w == [t[0]] + rest;
      forall i | 0 <= i < |t[1..]| ensures !(rest[i] == ASTERISK && rest[i + 1] == SLASH) {
        assert rest[i] == w[i + 1] && rest[i + 1] == w[i + 2];
      }
      AtSplit(text, p, [t[0]], rest);
      BlockEnds(text, p + 1, t[1..]);
    }
  }

  lemma PieceSkips(text: Text, p: nat, x: Piece)
    requires IsPiece(x) && At(text, p, PieceText(x))
    ensures p < p + |PieceText(x)| <= |text| && Skip(text, p) == Skip(text, p + |PieceText(x)|)
  {
    var w := PieceText(x);
    AtIndex(text, p, w, 0);
    match x
    case Blank(b) =>
    case Line(t) =>
      AtSplit(text, p, [SLASH, SLASH], t + [NEWLINE]);
      AtIndex(text, p, w, 1);
      LineEnds(text, p + 2, t);
    case Block(t) =>
      AtSplit(text, p, [SLASH, ASTERISK], t + [ASTERISK, SLASH]);
      AtIndex(text, p, w, 1);
      BlockEnds(text, p + 2, t);
  }

  lemma {:induction false} GapSkips(text: Text, p: nat, gap: Gap)
    requires IsGap(gap) && At(text, p, GapText(gap))
    ensures p + |GapText(gap)| <= |text| && Skip(text, p) == Skip(text, p + |GapText(gap)|)
    decreases |gap|
  {
    hide Skip, PieceText, IsPiece;
    if gap != [] {
      AtSplit(text, p, PieceText(gap[0]), GapText(gap[1..]));
      PieceSkips(text, p, gap[0]);
      GapSkips(text, p + |PieceText(gap[0])|, gap[1..]);
    }
  }

  // What is skipped is a gap, the longest that is there.

  lemma {:induction false} LineWas(text: Text, p: nat) returns (t: Text)
    requires AfterLine(text, p).Some?
    ensures IsPiece(Line(t)) && At(text, p, t + [NEWLINE]) && AfterLine(text, p).value == p + |t| + 1
    decreases |text| - p
  {
    if text[p] == NEWLINE {
      t := [];
    } else {
      var rest := LineWas(text, p + 1);
      t := [text[p]] + rest;
      assert t + [NEWLINE] == [text[p]] + (rest + [NEWLINE]);
      Spelling.AtJoin(text, p, [text[p]], rest + [NEWLINE]);
    }
  }

  lemma {:induction false} BlockWas(text: Text, p: nat) returns (t: Text)
    requires AfterBlock(text, p).Some?
    ensures NoEndBefore(t) && At(text, p, t + [ASTERISK, SLASH]) && AfterBlock(text, p).value == p + |t| + 2
    decreases |text| - p
  {
    if text[p] == ASTERISK && text[p + 1] == SLASH {
      t := [];
      assert t + [ASTERISK, SLASH] == [ASTERISK, SLASH];
    } else {
      var rest := BlockWas(text, p + 1);
      t := [text[p]] + rest;
      var w, v := t + [ASTERISK, SLASH], rest + [ASTERISK, SLASH];
      assert w == [text[p]] + v;
      Spelling.AtJoin(text, p, [text[p]], v);
      AtIndex(text, p + 1, v, 0);
      forall i | 0 <= i < |t| ensures !(w[i] == ASTERISK && w[i + 1] == SLASH) {
        if i == 0 { assert w[0] == text[p] && w[1] == v[0] == text[p + 1]; } else { assert w[i] == v[i - 1] && w[i + 1] == v[i]; }
      }
    }
  }

  lemma CommentWas(text: Text, p: nat) returns (x: Piece)
    requires AfterComment(text, p).Some?
    ensures IsPiece(x) && At(text, p, PieceText(x)) && AfterComment(text, p).value == p + |PieceText(x)|
  {
    if text[p + 1] == SLASH {
      var t := LineWas(text, p + 2);
      x := Line(t);
      Spelling.AtJoin(text, p, [SLASH, SLASH], t + [NEWLINE]);
    } else {
      var t := BlockWas(text, p + 2);
      x := Block(t);
      Spelling.AtJoin(text, p, [SLASH, ASTERISK], t + [ASTERISK, SLASH]);
    }
  }

  /** No piece of a gap starts at p. */
  ghost predicate NoPieceAt(text: Text, p: nat) { forall x :: IsPiece(x) ==> !At(text, p, PieceText(x)) }

  lemma StoppedHere(text: Text, p: nat)
    requires p <= |text| && Skip(text, p) == p
    ensures NoPieceAt(text, p)
  {
    forall x | IsPiece(x) ensures !At(text, p, PieceText(x)) {
      if At(text, p, PieceText(x)) { PieceSkips(text, p, x); }
    }
  }

  lemma {:induction false} SkippedWasGap(text: Text, p: nat) returns (gap: Gap)
    requires p <= |text|
    ensures IsGap(gap) && At(text, p, GapText(gap)) && Skip(text, p) == p + |GapText(gap)| && NoPieceAt(text, Skip(text, p))
    decreases |text| - p
  {
    hide IsPiece, AfterComment, PieceText;
    if p < |text| && (IsSpace(text[p]) || AfterComment(text, p).Some?) {
      var x := FirstPiece(text, p);
      var rest := SkippedWasGap(text, p + |PieceText(x)|);
      gap := [x] + rest;
      assert gap[1..] == rest;
      Spelling.AtJoin(text, p, PieceText(x), GapText(rest));
    } else {
      gap := [];
      StoppedHere(text, p);
    }
  }

  lemma FirstPiece(text: Text, p: nat) returns (x: Piece)
    requires p < |text| && (IsSpace(text[p]) || AfterComment(text, p).Some?)
    ensures IsPiece(x) && At(text, p, PieceText(x)) && Skip(text, p) == Skip(text, p + |PieceText(x)|)
  {
    hide AfterComment;
    if IsSpace(text[p]) {
      x := Blank(text[p]);
    } else {
      x := CommentWas(text, p);
    }
  }

  /** Skipping ends exactly after the pieces that are there: a shorter or a longer gap is not skipped. */
  lemma SkipIsLongest(text: Text, p: nat, gap: Gap)
    requires IsGap(gap) && At(text, p, GapText(gap))
    ensures Skip(text, p) == p + |GapText(gap)| <==> NoPieceAt(text, p + |GapText(gap)|)
  {
    hide Skip, IsPiece, PieceText, GapText;
    GapSkips(text, p, gap);
    var q := p + |GapText(gap)|;
    var more := SkippedWasGap(text, q);
    if Skip(text, q) == q { StoppedHere(text, q); }
    if NoPieceAt(text, q) { NoneLeft(text, q, more); }
  }

  lemma NoneLeft(text: Text, p: nat, gap: Gap)
    requires IsGap(gap) && At(text, p, GapText(gap)) && NoPieceAt(text, p)
    ensures GapText(gap) == []
  {
    hide IsPiece, PieceText;
    if gap != [] { AtSplit(text, p, PieceText(gap[0]), GapText(gap[1..])); }
  }
}
