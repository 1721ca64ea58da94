/** Queues of structs linked through themselves, as sequences of the structs on them. */
module Links {
  ghost predicate NoDup(s: seq<nat>) {
    forall i, j :: 0 <= i < j < |s| ==> s[i] != s[j]
  }

  ghost predicate Disjoint(a: seq<nat>, b: seq<nat>) { forall x :: x in a ==> x !in b }

  /** nxt_queue_remove() of the link of c. */
  function Unlink(s: seq<nat>, c: nat): seq<nat> {
    if s == [] then [] else if s[0] == c then s[1..] else [s[0]] + Unlink(s[1..], c)
  }

  lemma {:induction false} UnlinkIs(s: seq<nat>, c: nat, x: nat)
    requires NoDup(s)
    ensures x in Unlink(s, c) <==> x in s && x != c
    ensures |Unlink(s, c)| == if c in s then |s| - 1 else |s|
    decreases s
  {
    if s != [] {
      assert NoDup(s[1..]) && s[0] !in s[1..];
      UnlinkIs(s[1..], c, x);
    }
  }

  lemma {:induction false} UnlinkNoDup(s: seq<nat>, c: nat)
    requires NoDup(s)
    ensures NoDup(Unlink(s, c))
    decreases s
  {
    if s != [] && s[0] != c {
      assert NoDup(s[1..]) && s[0] !in s[1..];
      UnlinkNoDup(s[1..], c);
      UnlinkIs(s[1..], c, s[0]);
    }
  }
}
