/** The parked and the free connection structs: nxt_conn_recycle_pending() splices one list into the other. */
module ConnLists {
  import opened Bytes
  import opened Links

  /** The structs that stay parked, in order. */
  function Unsettled(xs: seq<nat>, quiet: nat -> bool): seq<nat> {
    if xs == [] then [] else (if quiet(xs[0]) then [] else [xs[0]]) + Unsettled(xs[1..], quiet)
  }

  /** The free list after the settled structs of xs went to its front, one by one. */
  function Freed(xs: seq<nat>, quiet: nat -> bool, free: seq<nat>): seq<nat>
    decreases xs
  {
    if xs == [] then free else Freed(xs[1..], quiet, if quiet(xs[0]) then [xs[0]] + free else free)
  }

  /** Every parked struct is still in exactly one list: unsettled ones are parked, settled ones are free. */
  lemma {:induction false} RecycledWhere(xs: seq<nat>, quiet: nat -> bool, free: seq<nat>, x: nat)
    ensures x in Unsettled(xs, quiet) <==> x in xs && !quiet(x)
    ensures x in Freed(xs, quiet, free) <==> x in free || (x in xs && quiet(x))
    decreases xs
  {
    if xs != [] {
      RecycledWhere(xs[1..], quiet, if quiet(xs[0]) then [xs[0]] + free else free, x);
    }
  }

  lemma NoDupTail(xs: seq<nat>)
    requires xs != [] && NoDup(xs)
    ensures NoDup(xs[1..]) && xs[0] !in xs[1..]
  {
  }

  lemma NoDupCons(x: nat, xs: seq<nat>)
    requires NoDup(xs) && x !in xs
    ensures NoDup([x] + xs)
  {
  }

  lemma {:induction false} RecycledOnce(xs: seq<nat>, quiet: nat -> bool, free: seq<nat>)
    requires NoDup(xs) && NoDup(free) && Disjoint(xs, free)
    ensures NoDup(Unsettled(xs, quiet)) && NoDup(Freed(xs, quiet, free))
    ensures Disjoint(Unsettled(xs, quiet), Freed(xs, quiet, free))
    decreases xs
  {
    if xs != [] {
      NoDupTail(xs);
      assert xs[0] in xs;
      NoDupCons(xs[0], free);
      var free' := if quiet(xs[0]) then [xs[0]] + free else free;
      RecycledOnce(xs[1..], quiet, free');
      forall x ensures x in Unsettled(xs[1..], quiet) <==> x in xs[1..] && !quiet(x) { RecycledWhere(xs[1..], quiet, free', x); }
      forall x ensures x in Freed(xs[1..], quiet, free') <==> x in free' || (x in xs[1..] && quiet(x)) {
        RecycledWhere(xs[1..], quiet, free', x);
      }
    }
  }

  // Linked lists.

  ghost predicate IsList(next: seq<Option<nat>>, head: Option<nat>, xs: seq<nat>)
    decreases xs
  {
    if xs == [] then head == None
    else head == Some(xs[0]) && xs[0] < |next| && IsList(next, next[xs[0]], xs[1..])
  }

  /** Storing in a struct that is not on the list leaves the list alone. */
  lemma {:induction false} ListFrame(next: seq<Option<nat>>, head: Option<nat>, xs: seq<nat>, c: nat, to: Option<nat>)
    requires IsList(next, head, xs) && c < |next| && c !in xs
    ensures IsList(next[c := to], head, xs)
    decreases xs
  {
    if xs != [] { ListFrame(next, next[xs[0]], xs[1..], c, to); }
  }

  /** The pointer that a walk stands at: the list head, or the next field of a struct. */
  datatype Link = Head | NextOf(c: nat)

  function Target(next: seq<Option<nat>>, head: Option<nat>, link: Link): Option<nat>
    requires link.NextOf? ==> link.c < |next|
  {
    match link case Head => head case NextOf(c) => next[c]
  }

  /** The link after the structs of `kept`. */
  function LinkAfter(kept: seq<nat>): Link { if kept == [] then Head else NextOf(kept[|kept| - 1]) }

  lemma {:induction false} ListSplit(next: seq<Option<nat>>, head: Option<nat>, kept: seq<nat>, rest: seq<nat>)
    requires IsList(next, head, kept + rest)
    ensures kept != [] ==> kept[|kept| - 1] < |next|
    ensures IsList(next, Target(next, head, LinkAfter(kept)), rest)
    decreases kept
  {
    if kept == [] {
      assert kept + rest == rest;
    } else {
      assert (kept + rest)[1..] == kept[1..] + rest;
      ListSplit(next, next[kept[0]], kept[1..], rest);
    }
  }

  /** Storing through the link after `kept` replaces the rest of the list. */
  lemma {:induction false} ListRelink(next: seq<Option<nat>>, head: Option<nat>, kept: seq<nat>, rest: seq<nat>, to: Option<nat>, rest': seq<nat>)
    requires IsList(next, head, kept + rest) && NoDup(kept) && Disjoint(kept, rest') && IsList(next, to, rest')
    ensures kept == [] ==> IsList(next, to, kept + rest')
    ensures kept != [] ==>
              kept[|kept| - 1] < |next| && IsList(next[kept[|kept| - 1] := to], head, kept + rest')
    decreases kept
  {
    if kept == [] {
      assert kept + rest' == rest';
    } else {
      var k := kept[|kept| - 1];
      ListSplit(next, head, kept, rest);
      NoDupTail(kept);
      assert (kept + rest)[1..] == kept[1..] + rest && (kept + rest')[1..] == kept[1..] + rest';
      ListRelink(next, next[kept[0]], kept[1..], rest, to, rest');
      if |kept| == 1 {
        ListFrame(next, to, rest', k, to);
        assert kept[1..] == [];
      } else {
        assert kept[1..][|kept[1..]| - 1] == k && kept[0] != k;
      }
    }
  }

  class Lists {
    const next: array<Option<nat>>
    var pending: Option<nat>
    var free: Option<nat>

    constructor (n: nat)
      ensures fresh(next) && next.Length == n && pending == None && free == None
    {
      next := new Option<nat>[n](_ => None);
      pending, free := None, None;
    }

    /** Settled structs move to the free list, the others keep their place and order. */
    method Recycle(quiet: nat -> bool, ghost xs: seq<nat>, ghost ys: seq<nat>)
      requires IsList(next[..], pending, xs) && IsList(next[..], free, ys)
      requires NoDup(xs) && NoDup(ys) && Disjoint(xs, ys)
      modifies this, next
      ensures IsList(next[..], pending, Unsettled(xs, quiet))
      ensures IsList(next[..], free, Freed(xs, quiet, ys))
    {
      hide IsList, Walking, NoDup, Disjoint, Unsettled, Freed;
      var link, c := Head, pending;
      ghost var kept: seq<nat>, rest, done := [], xs, ys;
      WalkStarts(next[..], pending, free, xs, ys, quiet);
      while c != None
        invariant Walking(next[..], pending, free, c, kept, rest, done)
        invariant link == LinkAfter(kept)
        invariant Unsettled(xs, quiet) == kept + Unsettled(rest, quiet)
        invariant Freed(xs, quiet, ys) == Freed(rest, quiet, done)
        decreases |rest|
      {
        WalkAt(next[..], pending, free, c, kept, rest, done);
        OneRecycled(rest, quiet, done, kept);
        var p := c.value;
        var after := next[p];
        if quiet(p) {
          Unlinked(next[..], pending, free, c, kept, rest, done);
          match link {
            case Head => pending := after;
            case NextOf(k) => next[k] := after;
          }
          next[p] := free;
          free := Some(p);
          done := [p] + done;
        } else {
          Kept(next[..], pending, free, c, kept, rest, done);
          link := NextOf(p);
          kept := kept + [p];
        }
        rest := rest[1..];
        c := after;
      }
      WalkEnds(next[..], pending, free, kept, rest, done);
      RecycleEnds(kept, quiet, done);
    }
  }

  lemma WalkStarts(next: seq<Option<nat>>, pending: Option<nat>, free: Option<nat>, xs: seq<nat>, ys: seq<nat>, quiet: nat -> bool)
    requires IsList(next, pending, xs) && IsList(next, free, ys) && NoDup(xs) && NoDup(ys) && Disjoint(xs, ys)
    ensures Walking(next, pending, free, pending, [], xs, ys) && Unsettled(xs, quiet) == [] + Unsettled(xs, quiet)
  {
    assert [] + xs == xs;
  }

  lemma OneRecycled(rest: seq<nat>, quiet: nat -> bool, done: seq<nat>, kept: seq<nat>)
    requires rest != []
    ensures kept + Unsettled(rest, quiet) == (if quiet(rest[0]) then kept else kept + [rest[0]]) + Unsettled(rest[1..], quiet)
    ensures Freed(rest, quiet, done) == Freed(rest[1..], quiet, if quiet(rest[0]) then [rest[0]] + done else done)
  {
  }

  lemma RecycleEnds(kept: seq<nat>, quiet: nat -> bool, done: seq<nat>)
    ensures kept + Unsettled([], quiet) == kept && Freed([], quiet, done) == done
  {
  }

  /** The walk has kept some structs and moved others; the rest of the parked list starts at c. */
  ghost predicate Walking(next: seq<Option<nat>>, pending: Option<nat>, free: Option<nat>, c: Option<nat>,
                          kept: seq<nat>, rest: seq<nat>, done: seq<nat>) {
    && IsList(next, pending, kept + rest) && IsList(next, free, done) && IsList(next, c, rest)
    && NoDup(kept + rest) && NoDup(done) && Disjoint(kept + rest, done)
  }

  lemma WalkAt(next: seq<Option<nat>>, pending: Option<nat>, free: Option<nat>, c: Option<nat>,
               kept: seq<nat>, rest: seq<nat>, done: seq<nat>)
    requires Walking(next, pending, free, c, kept, rest, done) && c != None
    ensures rest != [] && c.value == rest[0] < |next| && IsList(next, next[rest[0]], rest[1..])
    ensures kept != [] ==> kept[|kept| - 1] < |next| && kept[|kept| - 1] != rest[0]
  {
    ListSplit(next, pending, kept, rest);
    if kept != [] { assert (kept + rest)[|kept| - 1] == kept[|kept| - 1] && (kept + rest)[|kept|] == rest[0]; }
  }

  lemma WalkEnds(next: seq<Option<nat>>, pending: Option<nat>, free: Option<nat>,
                 kept: seq<nat>, rest: seq<nat>, done: seq<nat>)
    requires Walking(next, pending, free, None, kept, rest, done)
    ensures rest == [] && IsList(next, pending, kept) && IsList(next, free, done)
  {
    assert rest == [];
    assert kept + rest == kept;
  }

  lemma Kept(next: seq<Option<nat>>, pending: Option<nat>, free: Option<nat>, c: Option<nat>,
             kept: seq<nat>, rest: seq<nat>, done: seq<nat>)
    requires Walking(next, pending, free, c, kept, rest, done) && rest != [] && rest[0] < |next|
    ensures Walking(next, pending, free, next[rest[0]], kept + [rest[0]], rest[1..], done)
  {
    assert (kept + [rest[0]]) + rest[1..] == kept + rest;
  }

  lemma Unlinked(next: seq<Option<nat>>, pending: Option<nat>, free: Option<nat>, c: Option<nat>,
                 kept: seq<nat>, rest: seq<nat>, done: seq<nat>)
    requires Walking(next, pending, free, c, kept, rest, done) && c != None
    ensures rest != [] && rest[0] < |next| && (kept != [] ==> kept[|kept| - 1] < |next|)
    ensures var p, after := rest[0], next[rest[0]];
            var next' := if kept == [] then next else next[kept[|kept| - 1] := after];
            Walking(next'[p := free], if kept == [] then after else pending, Some(p), after, kept, rest[1..], [p] + done)
  {
    WalkAt(next, pending, free, c, kept, rest, done);
    var p, after := rest[0], next[rest[0]];
    var all := kept + rest;
    assert all[|kept|] == p && all == kept + [p] + rest[1..];
    var left := kept + rest[1..];
    PartsApart(kept, rest);
    ListRelink(next, pending, kept, rest, after, rest[1..]);
    var k := if kept == [] then 0 else kept[|kept| - 1];
    var next' := if kept == [] then next else next[k := after];
    if kept != [] {
      assert k in all && k !in rest[1..];
      ListFrame(next, free, done, k, after);
      ListFrame(next, after, rest[1..], k, after);
    }
    var pending' := if kept == [] then after else pending;
    assert p !in left && p !in done && p !in rest[1..] by { assert p in all; }
    ListFrame(next', pending', left, p, free);
    ListFrame(next', free, done, p, free);
    ListFrame(next', after, rest[1..], p, free);
    assert ([p] + done)[1..] == done;
    forall x | x in left ensures x !in [p] + done { assert x in all; }
  }

  lemma PartsApart(kept: seq<nat>, rest: seq<nat>)
    requires rest != [] && NoDup(kept + rest)
    ensures NoDup(kept) && NoDup(kept + rest[1..]) && Disjoint(kept, rest[1..])
    ensures rest[0] !in kept + rest[1..] && (kept != [] ==> kept[|kept| - 1] !in rest[1..])
  {
    var all, left := kept + rest, kept + rest[1..];
    forall i | 0 <= i < |left| ensures left[i] == all[if i < |kept| then i else i + 1] { }
    forall i | 0 <= i < |kept| ensures kept[i] == all[i] { }
    assert all[|kept|] == rest[0];
    forall i | 0 <= i < |rest[1..]| ensures rest[1..][i] == all[|kept| + 1 + i] { }
  }
}
