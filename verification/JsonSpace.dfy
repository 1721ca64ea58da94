/** White space and comments between JSON tokens: nxt_conf_json_skip_space(). */
module JsonSpace {
  import opened Bytes

  predicate IsSpace(b: Byte) { b == SPACE || b == TAB || b == NEWLINE || b == RETURN }

  /** The position after the first newline. */
  function AfterLine(text: Text, p: nat): (r: Option<nat>)
    ensures r.Some? ==> p < r.value <= |text|
    decreases |text| - p
  {
    if p >= |text| then None else if text[p] == NEWLINE then Some(p + 1) else AfterLine(text, p + 1)
  }

  /** The position after the first asterisk and slash. */
  function AfterBlock(text: Text, p: nat): (r: Option<nat>)
    ensures r.Some? ==> p < r.value <= |text|
    decreases |text| - p
  {
    if p + 2 > |text| then None
    else if text[p] == ASTERISK && text[p + 1] == SLASH then Some(p + 2)
    else AfterBlock(text, p + 1)
  }

  /** The position after the comment that starts at p, if one does and it ends. */
  function AfterComment(text: Text, p: nat): (r: Option<nat>)
    ensures r.Some? ==> p < r.value <= |text|
  {
    if p + 2 > |text| || text[p] != SLASH then None
    else if text[p + 1] == SLASH then AfterLine(text, p + 2)
    else if text[p + 1] == ASTERISK then AfterBlock(text, p + 2)
    else None
  }

  /** The first position that is neither a space nor inside a complete comment. */
  function Skip(text: Text, p: nat): (r: nat)
    requires p <= |text|
    ensures p <= r <= |text|
    decreases |text| - p
  {
    if p == |text| then p
    else if IsSpace(text[p]) then Skip(text, p + 1)
    else match AfterComment(text, p)
      case Some(q) => Skip(text, q)
      case None => p
  }

  datatype Place = Normal | AfterSlash | SingleComment | MultiComment | AfterAsterisk

  function OrStart(text: Text, r: Option<nat>, start: nat): nat
    requires r.Some? ==> r.value <= |text|
  {
    if r.Some? then Skip(text, r.value) else start
  }

  /** What the scan will return when it stands at p in the given state; a comment began at `start`. */
  ghost function Ahead(text: Text, start: nat, p: nat, state: Place): nat
    requires start <= p <= |text| && (state.AfterAsterisk? ==> p > 0)
  {
    match state
    case Normal => Skip(text, p)
    case AfterSlash => Skip(text, start)
    case SingleComment => OrStart(text, AfterLine(text, p), start)
    case MultiComment => OrStart(text, AfterBlock(text, p), start)
    case AfterAsterisk => OrStart(text, AfterBlock(text, p - 1), start)
  }

  function AfterByte(state: Place, ch: Byte): Option<Place> {
    match state
    case Normal => if IsSpace(ch) then Some(Normal) else if ch == SLASH then Some(AfterSlash) else None
    case AfterSlash => if ch == SLASH then Some(SingleComment) else if ch == ASTERISK then Some(MultiComment) else None
    case SingleComment => Some(if ch == NEWLINE then Normal else SingleComment)
    case MultiComment => Some(if ch == ASTERISK then AfterAsterisk else MultiComment)
    case AfterAsterisk => Some(if ch == SLASH then Normal else if ch == ASTERISK then AfterAsterisk else MultiComment)
  }

  lemma OneByte(text: Text, start: nat, p: nat, state: Place)
    requires start <= p < |text| && (state.AfterAsterisk? ==> p > start && text[p - 1] == ASTERISK)
    requires state.AfterSlash? ==> p == start + 1 && text[start] == SLASH
    requires state == Normal ==> start == p
    ensures match AfterByte(state, text[p])
            case Some(state') => Ahead(text, start, p + 1, state') == Ahead(text, start, p, state)
            case None => Ahead(text, start, p, state) == start
  {
    if state == AfterAsterisk && text[p] != SLASH {
      assert AfterBlock(text, p - 1) == AfterBlock(text, p);
      if text[p] != ASTERISK { assert AfterBlock(text, p) == AfterBlock(text, p + 1); }
    }
  }

  /** The state machine finds the end of the spaces and comments, or the start of a comment that does not end. */
  method SkipSpace(text: Text, from: nat) returns (p: nat)
    requires from <= |text|
    ensures p == Skip(text, from)
  {
    var state, start := Normal, from;
    p := from;
    while p < |text|
      invariant from <= start <= p <= |text|
      invariant state == AfterSlash ==> p == start + 1 && text[start] == SLASH
      invariant state == AfterAsterisk ==> p > start && text[p - 1] == ASTERISK
      invariant Ahead(text, start, p, state) == Skip(text, from)
    {
      if state == Normal { start := p; }
      OneByte(text, start, p, state);
      var next := AfterByte(state, text[p]);
      if next == None { return start; }
      state := next.value;
      p := p + 1;
    }
    if state != Normal { p := start; }
  }

  // What the printers write between tokens is skipped.

  lemma {:induction false} SkipBlank(text: Text, p: nat, q: nat)
    requires p <= q <= |text| && forall i :: p <= i < q ==> IsSpace(text[i])
    ensures Skip(text, p) == Skip(text, q)
    decreases q - p
  {
    if p < q { SkipBlank(text, p + 1, q); }
  }

  /** A position that has neither a space nor a slash is left alone. */
  lemma SkipStops(text: Text, p: nat)
    requires p < |text| && !IsSpace(text[p]) && text[p] != SLASH
    ensures Skip(text, p) == p
  {
  }
}
