/**
 * Round-robin backend selection (loadbalancer/round_robin.go).
 *
 * The selection rule is first stated on the liveness flags of the candidate
 * list (`Select`), its properties are proved as lemmas, and the `RoundRobin`
 * class's `GetNextBackend` is proved to follow it.
 */
module RoundRobinAlgorithm {
  import opened Options
  import opened Backends

  /** Index where a call starts scanning: the incremented counter, modulo n. */
  function StartIndex(current: nat, n: nat): (start: nat)
    requires n > 0
    ensures start < n
  {
    (current + 1) % n
  }

  /** The index a cyclic scan of n candidates from `start` visits at step k. */
  function ScanIndex(start: nat, k: nat, n: nat): nat
    requires n > 0
  {
    (start + k) % n
  }

  /** At which step a scan from `start` reaches index i. */
  function CyclicOffset(start: nat, i: nat, n: nat): nat
    requires start < n
  {
    if i >= start then i - start else i + n - start
  }

  lemma ScanIndexValue(start: nat, k: nat, n: nat)
    requires start < n && k < n
    ensures ScanIndex(start, k, n) == if start + k < n then start + k else start + k - n
  {
    if start + k >= n {
      assert start + k == (start + k - n) + n;
    }
  }

  /**
   * A scan of n steps from any start in [0, n) visits every index of [0, n)
   * exactly once: no two steps meet the same index, and index i is met at
   * step CyclicOffset(start, i, n).
   */
  lemma ScanVisitsEachIndexOnce(start: nat, n: nat)
    requires start < n
    ensures forall k :: 0 <= k < n ==> ScanIndex(start, k, n) < n
    ensures forall k1, k2 :: 0 <= k1 < k2 < n ==> ScanIndex(start, k1, n) != ScanIndex(start, k2, n)
    ensures forall i :: 0 <= i < n ==>
      CyclicOffset(start, i, n) < n && ScanIndex(start, CyclicOffset(start, i, n), n) == i
  {
    forall k | 0 <= k < n
      ensures ScanIndex(start, k, n) < n
    {
      ScanIndexValue(start, k, n);
    }
    forall k1, k2 | 0 <= k1 < k2 < n
      ensures ScanIndex(start, k1, n) != ScanIndex(start, k2, n)
    {
      ScanIndexValue(start, k1, n);
      ScanIndexValue(start, k2, n);
    }
    forall i | 0 <= i < n
      ensures CyclicOffset(start, i, n) < n && ScanIndex(start, CyclicOffset(start, i, n), n) == i
    {
      ScanIndexValue(start, CyclicOffset(start, i, n), n);
    }
  }

  /**
   * The first step k' >= k of a scan from `start` whose index is alive, if any.
   */
  function FirstAliveStep(alive: seq<bool>, start: nat, k: nat): (r: Option<nat>)
    requires |alive| > 0 && k <= |alive|
    decreases |alive| - k
    ensures r.Some? ==> k <= r.value < |alive| && alive[ScanIndex(start, r.value, |alive|)]
    ensures r.Some? ==> forall m :: k <= m < r.value ==> !alive[ScanIndex(start, m, |alive|)]
    ensures r.None? ==> forall m :: k <= m < |alive| ==> !alive[ScanIndex(start, m, |alive|)]
  {
    if k == |alive| then None
    else if alive[ScanIndex(start, k, |alive|)] then Some(k)
    else FirstAliveStep(alive, start, k + 1)
  }

  /** Outcome of one selection: the chosen index, if any, and the new counter. */
  datatype Selection = Selection(chosen: Option<nat>, next: nat)

  /**
   * One selection over the liveness flags `alive` with counter `current`: the
   * first alive index in cyclic order from StartIndex; the counter becomes the
   * chosen index when that differs from the start index, and is otherwise left
   * at current + 1 (also when nothing is alive).
   */
  function Select(alive: seq<bool>, current: nat): Selection
    requires |alive| > 0
  {
    var start := StartIndex(current, |alive|);
    match FirstAliveStep(alive, start, 0)
    case None => Selection(None, current + 1)
    case Some(k) =>
      var idx := ScanIndex(start, k, |alive|);
      Selection(Some(idx), if idx != start then idx else current + 1)
  }

  /**
   * A chosen index is in range and alive, and every index the scan passes
   * before reaching it is dead: it is the first alive one in cyclic order from
   * the start index. The counter is then left at current + 1 when the chosen
   * index is the start index, and overwritten with the chosen index otherwise;
   * when nothing is alive it is left at current + 1.
   */
  lemma SelectPicksFirstAlive(alive: seq<bool>, current: nat)
    requires |alive| > 0
    ensures var sel := Select(alive, current);
      var start := StartIndex(current, |alive|);
      sel.chosen.Some? ==>
        && sel.chosen.value < |alive|
        && alive[sel.chosen.value]
        && (forall m :: 0 <= m < CyclicOffset(start, sel.chosen.value, |alive|) ==>
              !alive[ScanIndex(start, m, |alive|)])
        && sel.next == (if sel.chosen.value == start then current + 1 else sel.chosen.value)
    ensures var sel := Select(alive, current);
      sel.chosen.None? ==> sel.next == current + 1
  {
    var n := |alive|;
    var start := StartIndex(current, n);
    ScanVisitsEachIndexOnce(start, n);
    match FirstAliveStep(alive, start, 0)
    case None =>
    case Some(k) =>
      var idx := ScanIndex(start, k, n);
      assert ScanIndex(start, CyclicOffset(start, idx, n), n) == idx;
      assert CyclicOffset(start, idx, n) == k;
  }

  /** Selection fails exactly when no candidate is alive. */
  lemma SelectFailsIffNoneAlive(alive: seq<bool>, current: nat)
    requires |alive| > 0
    ensures Select(alive, current).chosen.None? <==> forall i :: 0 <= i < |alive| ==> !alive[i]
  {
    var n := |alive|;
    var start := StartIndex(current, n);
    ScanVisitsEachIndexOnce(start, n);
    SelectPicksFirstAlive(alive, current);
    if Select(alive, current).chosen.None? {
      forall i | 0 <= i < n
        ensures !alive[i]
      {
        assert !alive[ScanIndex(start, CyclicOffset(start, i, n), n)];
      }
    }
  }

  /**
   * k successive selections from counter c: the chosen indices in order and
   * the counter afterwards.
   */
  function Run(alive: seq<bool>, c: nat, k: nat): (seq<Option<nat>>, nat)
    requires |alive| > 0
    decreases k
  {
    if k == 0 then ([], c)
    else
      var sel := Select(alive, c);
      var rest := Run(alive, sel.next, k - 1);
      ([sel.chosen] + rest.0, rest.1)
  }

  /**
   * With every candidate alive, a selection picks the start index itself, and
   * the counter is left at current + 1.
   */
  lemma SelectAllAlive(alive: seq<bool>, c: nat)
    requires |alive| > 0
    requires forall i :: 0 <= i < |alive| ==> alive[i]
    ensures Select(alive, c) == Selection(Some(StartIndex(c, |alive|)), c + 1)
  {
    var n := |alive|;
    var start := StartIndex(c, n);
    assert ScanIndex(start, 0, n) == start;
    assert FirstAliveStep(alive, start, 0) == Some(0);
  }

  /**
   * With every candidate alive, k successive selections from counter c return
   * the indices (c+1) mod n, ..., (c+k) mod n and leave the counter at c + k.
   */
  lemma {:induction false} AllAliveIsCyclic(alive: seq<bool>, c: nat, k: nat)
    requires |alive| > 0
    requires forall i :: 0 <= i < |alive| ==> alive[i]
    ensures |Run(alive, c, k).0| == k
    ensures forall j :: 0 <= j < k ==> Run(alive, c, k).0[j] == Some((c + j + 1) % |alive|)
    ensures Run(alive, c, k).1 == c + k
    decreases k
  {
    if k > 0 {
      var n := |alive|;
      SelectAllAlive(alive, c);
      AllAliveIsCyclic(alive, c + 1, k - 1);
      var rest := Run(alive, c + 1, k - 1);
      var r := Run(alive, c, k);
      assert r == ([Some(StartIndex(c, n))] + rest.0, rest.1);
      forall j | 0 <= j < k
        ensures r.0[j] == Some((c + j + 1) % n)
      {
        if j > 0 {
          assert r.0[j] == rest.0[j - 1];
          assert c + 1 + (j - 1) + 1 == c + j + 1;
        }
      }
    }
  }

  /** The liveness flags of a candidate list, in list order. */
  function AliveFlags(backends: seq<Backend>): (flags: seq<bool>)
    reads backends
    ensures |flags| == |backends|
    ensures forall i :: 0 <= i < |backends| ==> flags[i] == backends[i].alive
  {
    if backends == [] then [] else [backends[0].alive] + AliveFlags(backends[1..])
  }

  /** What GetNextBackend hands back. */
  datatype Pick =
    | Picked(backend: Backend)
    | NoBackendIsAlive
    | DivideByZero  // the empty list: `x % 0` makes the Go runtime panic

  class RoundRobin {
    var current: nat

    /** NewRoundRobin: the counter starts at 0. */
    constructor ()
      ensures current == 0
    {
      current := 0;
    }

    /**
     * GetNextBackend: the counter is incremented first; on an empty list the
     * modulo then faults. Otherwise the result and the new counter are those
     * of Select on the list's liveness flags. The list itself is not changed.
     */
    method GetNextBackend(backends: seq<Backend>) returns (pick: Pick)
      modifies this
      ensures |backends| == 0 ==> pick == DivideByZero && current == old(current) + 1
      ensures |backends| > 0 ==>
        var sel := Select(old(AliveFlags(backends)), old(current));
        && current == sel.next
        && pick == (if sel.chosen.Some? then Picked(backends[sel.chosen.value]) else NoBackendIsAlive)
    {
      ghost var flags := AliveFlags(backends);
      var n := |backends|;
      current := current + 1;
      if n == 0 {
        return DivideByZero;
      }
      ghost var sel := Select(flags, old(current));
      var start := current % n;
      assert start == StartIndex(old(current), n);
      var i := start;
      while i < start + n
        invariant start <= i <= start + n
        invariant current == old(current) + 1
        invariant FirstAliveStep(flags, start, i - start) == FirstAliveStep(flags, start, 0)
      {
        var idx := i % n;
        ghost var k := i - start;
        assert idx == ScanIndex(start, k, n);
        var alive := backends[idx].IsAlive();
        if alive {
          assert flags[idx];
          assert FirstAliveStep(flags, start, 0) == Some(k);
          assert sel.chosen == Some(idx);
          if idx != start {
            current := idx;
          }
          return Picked(backends[idx]);
        }
        i := i + 1;
      }
      assert sel.chosen == None;
      return NoBackendIsAlive;
    }
  }
}
