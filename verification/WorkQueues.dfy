/** The eight work queues of an engine: nxt_event_engine_queue_pop(). */
module WorkQueues {
  import opened Bytes

  // fast, accept, read, socket, connect, write, shutdown, close
  const QUEUES: nat := 8

  predicate AllEmpty<T(==)>(queues: seq<seq<T>>) { forall k :: 0 <= k < |queues| ==> queues[k] == [] }

  function NextQueue(k: nat): nat { if k + 1 >= QUEUES then 0 else k + 1 }

  /** How many steps from queue k to queue j, going round; a full round to k itself. */
  function Steps(k: nat, j: nat): int { if j > k then j - k else j - k + QUEUES }

  /** The first queue that is not empty among the n after k, going round. */
  function Scan<T(==)>(queues: seq<seq<T>>, k: nat, n: nat): (r: Option<nat>)
    requires |queues| == QUEUES && k < QUEUES && n <= QUEUES
    ensures r.Some? ==> r.value < QUEUES && queues[r.value] != []
    ensures r.Some? ==> forall j :: 0 <= j < QUEUES && Steps(k, j) < Steps(k, r.value) ==> queues[j] == []
    ensures r.None? ==> forall j :: 0 <= j < QUEUES && Steps(k, j) <= n ==> queues[j] == []
    decreases n
  {
    if n == 0 then None
    else if queues[NextQueue(k)] != [] then Some(NextQueue(k))
    else Scan(queues, NextQueue(k), n - 1)
  }

  /** The queue to take from: the current one, else the fast one, else the next one that is not empty. */
  function Choose<T(==)>(queues: seq<seq<T>>, current: nat): (r: Option<nat>)
    requires |queues| == QUEUES && current < QUEUES
    ensures r.Some? ==> r.value < QUEUES && queues[r.value] != []
  {
    if queues[current] != [] then Some(current)
    else if queues[0] != [] then Some(0)
    else Scan(queues, current, QUEUES)
  }

  /** The current queue after a take: it moves only when both it and the fast queue were empty. */
  function CurrentAfter<T(==)>(queues: seq<seq<T>>, current: nat): (r: nat)
    requires |queues| == QUEUES && current < QUEUES
    ensures r < QUEUES
  {
    if queues[current] != [] || queues[0] != [] then current
    else match Choose(queues, current)
      case Some(k) => k
      case None => 0
  }

  /** Nothing is chosen exactly when every queue is empty. */
  lemma ChooseNoneIffEmpty<T>(queues: seq<seq<T>>, current: nat)
    requires |queues| == QUEUES && current < QUEUES
    ensures Choose(queues, current).None? <==> AllEmpty(queues)
  {
    hide Scan;
    if Choose(queues, current).None? {
      forall j | 0 <= j < QUEUES ensures queues[j] == [] { assert Steps(current, j) <= QUEUES; }
    }
  }

  /**
    Going round from the current queue, no queue that has work is passed over: an item comes from the current queue, or
    from the fast one between two queues, or else from the nearest one, where the current queue then stays.
   */
  lemma NonePassedOver<T>(queues: seq<seq<T>>, current: nat)
    requires |queues| == QUEUES && current < QUEUES && !AllEmpty(queues)
    ensures Choose(queues, current).Some?
    ensures var k, next := Choose(queues, current).value, CurrentAfter(queues, current);
            && (queues[current] != [] ==> k == next == current)
            && (queues[current] == [] && k != 0 ==> next == k)
            && (queues[current] == [] && queues[0] != [] ==> k == 0)
            && (next != current ==> queues[current] == [] && forall j :: 0 <= j < QUEUES && Steps(current, j) < Steps(current, next) ==> queues[j] == [])
  {
    ChooseNoneIffEmpty(queues, current);
  }

  lemma ScanStep<T>(queues: seq<seq<T>>, k: nat, n: nat)
    requires |queues| == QUEUES && k < QUEUES && 1 <= n <= QUEUES
    ensures Scan(queues, k, n) == if queues[NextQueue(k)] != [] then Some(NextQueue(k)) else if n == 1 then None else Scan(queues, NextQueue(k), n - 1)
  {
  }

  class Scheduler<T(==)> {
    const queues: array<seq<T>>
    var current: nat

    ghost predicate Valid()
      reads this
    {
      queues.Length == QUEUES && current < QUEUES
    }

    constructor ()
      ensures Valid() && fresh(queues) && current == 0 && AllEmpty(queues[..])
    {
      queues := new seq<T>[QUEUES](_ => []);
      current := 0;
    }

    /** Takes the oldest item of the chosen queue; the other queues stay as they are, and the current one moves on only from an empty queue. */
    method Pop() returns (r: Option<T>)
      requires Valid()
      modifies this, queues
      ensures Valid() && current == old(CurrentAfter(queues[..], current))
      ensures match old(Choose(queues[..], current))
              case None => r == None && AllEmpty(queues[..]) && queues[..] == old(queues[..])
              case Some(k) => r == Some(old(queues[k][0])) && queues[..] == old(queues[..][k := queues[k][1..]])
    {
      hide Scan;
      ChooseNoneIffEmpty(queues[..], current);
      var wq, last := current, current;
      if queues[wq] == [] {
        wq := 0;
        if queues[wq] == [] {
          ghost var n := QUEUES;
          while true
            invariant Valid() && n == Steps(current, last) && last == old(current) && queues[..] == old(queues[..])
            invariant old(queues[current]) == [] && old(queues[0]) == []
            invariant old(Choose(queues[..], current)) == Scan(queues[..], current, n)
            decreases n
          {
            ScanStep(queues[..], current, n);
            current := if current + 1 == QUEUES then 0 else current + 1;
            wq := current;
            if queues[wq] != [] { break; }
            n := n - 1;
            if wq == last {
              current := 0;
              return None;
            }
          }
        }
      }
      r := Some(queues[wq][0]);
      queues[wq] := queues[wq][1..];
    }
  }
}
