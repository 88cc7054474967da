/** counting_sort of the earlier PingPongOS kernel: a stable counting sort
    of a task list by dynamic priority.  A priority p is counted in slot
    p - PRIO_MAX of a frequency array; the slots become exclusive prefix
    sums, and a second pass over the list scatters every task to its slot's
    next free place in the output buffer.

    The list is the sequence of its handles from the head, and `prio` gives
    the dynamic priority the sort reads for each handle. */
module CountingSort {
  import opened Common
  import opened Priority

  /** Slots of the frequency array as declared: PRIO_MIN - PRIO_MAX. */
  const ALCANCE: int := PRIO_MIN - PRIO_MAX

  /** Slots needed to index every priority of the valid range. */
  const SLOTS: int := PRIO_MIN - PRIO_MAX + 1

  /** The frequency-array slot of a task. */
  function Key(prio: Handle -> int, h: Handle): int {
    prio(h) - PRIO_MAX
  }

  /** Every slot index the sort computes lies inside an array of `slots` slots. */
  predicate Fits(q: seq<Handle>, prio: Handle -> int, slots: int) {
    forall h :: h in q ==> 0 <= Key(prio, h) < slots
  }

  /** The members of q counted in slot k, in list order. */
  function Filter(q: seq<Handle>, prio: Handle -> int, k: int): seq<Handle> {
    if q == [] then []
    else Filter(q[..|q| - 1], prio, k) + (if Key(prio, q[|q| - 1]) == k then [q[|q| - 1]] else [])
  }

  /** Slots 0 .. s-1 one after the other: the sort's output, restricted to
      the first s slots.  Prefix(q, prio, slots) is the whole output. */
  function Prefix(q: seq<Handle>, prio: Handle -> int, s: nat): seq<Handle> {
    if s == 0 then [] else Prefix(q, prio, s - 1) + Filter(q, prio, s - 1)
  }

  // ---------------------------------------------------------------------
  // Filter

  /** Slot k's list holds members of q, and no more of them than q has. */
  lemma {:induction false} FilterMembers(q: seq<Handle>, prio: Handle -> int, k: int)
    ensures |Filter(q, prio, k)| <= |q|
    ensures forall x :: x in Filter(q, prio, k) ==> x in q
  {
    if q != [] {
      FilterMembers(q[..|q| - 1], prio, k);
      assert forall x :: x in q[..|q| - 1] ==> x in q;
    }
  }

  /** Every task of slot k's list is counted in slot k. */
  lemma {:induction false} FilterKeys(q: seq<Handle>, prio: Handle -> int, k: int)
    ensures forall i :: 0 <= i < |Filter(q, prio, k)| ==> Key(prio, Filter(q, prio, k)[i]) == k
  {
    if q != [] {
      FilterKeys(q[..|q| - 1], prio, k);
    }
  }

  lemma {:induction false} FilterConcat(a: seq<Handle>, b: seq<Handle>, prio: Handle -> int, k: int)
    ensures Filter(a + b, prio, k) == Filter(a, prio, k) + Filter(b, prio, k)
  {
    if b == [] {
      assert a + b == a;
    } else {
      assert (a + b)[..|a + b| - 1] == a + b[..|b| - 1];
      FilterConcat(a, b[..|b| - 1], prio, k);
    }
  }

  /** Filtering twice by one slot is filtering once; by two slots, nothing. */
  lemma {:induction false} FilterFilter(q: seq<Handle>, prio: Handle -> int, j: int, k: int)
    ensures Filter(Filter(q, prio, j), prio, k) == if j == k then Filter(q, prio, k) else []
  {
    if q != [] {
      var p := q[..|q| - 1];
      FilterFilter(p, prio, j, k);
      var tail := if Key(prio, q[|q| - 1]) == j then [q[|q| - 1]] else [];
      FilterConcat(Filter(p, prio, j), tail, prio, k);
    }
  }

  /** Filtering a longer piece of the list extends the shorter one's result. */
  lemma {:induction false} FilterGrows(q: seq<Handle>, prio: Handle -> int, i: nat, j: nat, k: int)
    requires i <= j <= |q|
    ensures Filter(q[..i], prio, k) <= Filter(q[..j], prio, k)
  {
    if i < j {
      FilterGrows(q, prio, i, j - 1, k);
      assert q[..j][..j - 1] == q[..j - 1];
    }
  }

  /** The member at position i of q is the next element of its slot's list
      after the members of that slot before position i. */
  lemma FilterNext(q: seq<Handle>, prio: Handle -> int, i: nat)
    requires i < |q|
    ensures var k := Key(prio, q[i]);
      |Filter(q[..i], prio, k)| < |Filter(q, prio, k)| &&
      Filter(q, prio, k)[|Filter(q[..i], prio, k)|] == q[i]
  {
    var k := Key(prio, q[i]);
    FilterGrows(q, prio, i + 1, |q|, k);
    assert q[..i + 1][..i] == q[..i];
    assert q[..|q|] == q;
  }

  // ---------------------------------------------------------------------
  // Prefix

  /** Every task of the output is counted in a slot below s. */
  lemma {:induction false} PrefixKeys(q: seq<Handle>, prio: Handle -> int, s: nat)
    ensures forall i :: 0 <= i < |Prefix(q, prio, s)| ==> 0 <= Key(prio, Prefix(q, prio, s)[i]) < s
  {
    if s > 0 {
      var a, b := Prefix(q, prio, s - 1), Filter(q, prio, s - 1);
      PrefixKeys(q, prio, s - 1);
      FilterKeys(q, prio, s - 1);
      assert Prefix(q, prio, s) == a + b;
    }
  }

  lemma {:induction false} PrefixGrows(q: seq<Handle>, prio: Handle -> int, a: nat, b: nat)
    requires a <= b
    ensures Prefix(q, prio, a) <= Prefix(q, prio, b)
  {
    if a < b {
      PrefixGrows(q, prio, a, b - 1);
    }
  }

  /** Slot k's tasks sit right after the tasks of the slots below it. */
  lemma PrefixAt(q: seq<Handle>, prio: Handle -> int, s: nat, k: nat, m: nat)
    requires k < s && m < |Filter(q, prio, k)|
    ensures |Prefix(q, prio, k)| + m < |Prefix(q, prio, k + 1)| <= |Prefix(q, prio, s)|
    ensures Prefix(q, prio, s)[|Prefix(q, prio, k)| + m] == Filter(q, prio, k)[m]
  {
    PrefixGrows(q, prio, k + 1, s);
  }

  /** Every position of the output lies in the stretch of one slot. */
  lemma {:induction false} PrefixCover(q: seq<Handle>, prio: Handle -> int, s: nat, p: nat)
    requires p < |Prefix(q, prio, s)|
    ensures exists k :: 0 <= k < s && |Prefix(q, prio, k)| <= p < |Prefix(q, prio, k + 1)|
  {
    if p < |Prefix(q, prio, s - 1)| {
      PrefixCover(q, prio, s - 1, p);
    } else {
      assert |Prefix(q, prio, s - 1)| <= p < |Prefix(q, prio, s)|;
    }
  }

  /** Ordered: the dynamic priorities never decrease from the head. */
  lemma {:induction false} PrefixSorted(q: seq<Handle>, prio: Handle -> int, s: nat)
    ensures forall i, j :: 0 <= i < j < |Prefix(q, prio, s)| ==>
      prio(Prefix(q, prio, s)[i]) <= prio(Prefix(q, prio, s)[j])
  {
    if s > 0 {
      var a, b := Prefix(q, prio, s - 1), Filter(q, prio, s - 1);
      assert Prefix(q, prio, s) == a + b;
      PrefixSorted(q, prio, s - 1);
      PrefixKeys(q, prio, s - 1);
      FilterKeys(q, prio, s - 1);
      forall i, j | 0 <= i < j < |a + b|
        ensures prio((a + b)[i]) <= prio((a + b)[j])
      {
        if j >= |a| {
          assert (a + b)[j] == b[j - |a|];
          if i < |a| {
            assert (a + b)[i] == a[i];
          } else {
            assert (a + b)[i] == b[i - |a|];
          }
        }
      }
    }
  }

  /** Stable: the tasks of each slot come out in the order they had in the
      list; slots at or above s are not in Prefix(q, prio, s). */
  lemma {:induction false} PrefixStable(q: seq<Handle>, prio: Handle -> int, s: nat, k: int)
    ensures Filter(Prefix(q, prio, s), prio, k) == SlotBelow(q, prio, s, k)
  {
    if s > 0 {
      PrefixStable(q, prio, s - 1, k);
      PrefixStableStep(q, prio, s, k);
    } else {
      assert Prefix(q, prio, 0) == [];
    }
  }

  /** Slot k's list if k is below s, else nothing. */
  ghost function SlotBelow(q: seq<Handle>, prio: Handle -> int, s: nat, k: int): seq<Handle> {
    if 0 <= k < s then Filter(q, prio, k) else []
  }

  /** The inductive step of PrefixStable: slot s - 1's list joins the output. */
  lemma PrefixStableStep(q: seq<Handle>, prio: Handle -> int, s: nat, k: int)
    requires s > 0 && Filter(Prefix(q, prio, s - 1), prio, k) == SlotBelow(q, prio, s - 1, k)
    ensures Filter(Prefix(q, prio, s), prio, k) == SlotBelow(q, prio, s, k)
  {
    var a, b := Prefix(q, prio, s - 1), Filter(q, prio, s - 1);
    FilterConcat(a, b, prio, k);
    FilterFilter(q, prio, s - 1, k);
    JoinSlot(Filter(a, prio, k), Filter(b, prio, k), SlotBelow(q, prio, s - 1, k), Filter(q, prio, k), 0 <= k < s - 1, k == s - 1);
  }

  /** Sequence bookkeeping for PrefixStableStep. */
  lemma JoinSlot(fa: seq<Handle>, fb: seq<Handle>, below: seq<Handle>, f: seq<Handle>, under: bool, at: bool)
    requires fa == below && below == (if under then f else []) && fb == (if at then f else [])
    requires !(under && at)
    ensures fa + fb == if under || at then f else []
  {
    if under {
      assert f + [] == f;
    } else if at {
      assert [] + f == f;
    }
  }

  /** Slot k's list holds each task of slot k as often as the list does,
      and no task of another slot. */
  lemma {:induction false} FilterCount(q: seq<Handle>, prio: Handle -> int, k: int, y: Handle)
    ensures multiset(Filter(q, prio, k))[y] == if Key(prio, y) == k then multiset(q)[y] else 0
  {
    if q != [] {
      var p, x := q[..|q| - 1], q[|q| - 1];
      FilterCount(p, prio, k, y);
      assert q == p + [x];
    }
  }

  /** Counting in two stretches: the slots below s - 1, then slot s - 1. */
  lemma CountSplit(ma: multiset<Handle>, mb: multiset<Handle>, y: Handle, c: nat, key: int, s: nat)
    requires s > 0
    requires ma[y] == (if 0 <= key < s - 1 then c else 0) && mb[y] == (if key == s - 1 then c else 0)
    ensures (ma + mb)[y] == if 0 <= key < s then c else 0
  {
  }

  /** How often y occurs in q if its slot is below s, else 0. */
  ghost function CountBelow(q: seq<Handle>, prio: Handle -> int, s: nat, y: Handle): nat {
    if 0 <= Key(prio, y) < s then multiset(q)[y] else 0
  }

  /** The output holds each task of a slot below s as often as the list
      does, and no task of a slot at or above s. */
  lemma {:induction false} PrefixCount(q: seq<Handle>, prio: Handle -> int, s: nat, y: Handle)
    ensures multiset(Prefix(q, prio, s))[y] == CountBelow(q, prio, s, y)
  {
    if s > 0 {
      PrefixCount(q, prio, s - 1, y);
      PrefixCountStep(q, prio, s, y);
    } else {
      assert Prefix(q, prio, 0) == [];
    }
  }

  /** The inductive step of PrefixCount: slot s - 1's tasks join the output. */
  lemma PrefixCountStep(q: seq<Handle>, prio: Handle -> int, s: nat, y: Handle)
    requires s > 0
    requires multiset(Prefix(q, prio, s - 1))[y] == CountBelow(q, prio, s - 1, y)
    ensures multiset(Prefix(q, prio, s))[y] == CountBelow(q, prio, s, y)
  {
    FilterCount(q, prio, s - 1, y);
    var ma, mb := multiset(Prefix(q, prio, s - 1)), multiset(Filter(q, prio, s - 1));
    assert multiset(Prefix(q, prio, s)) == ma + mb;
    CountSplit(ma, mb, y, multiset(q)[y], Key(prio, y), s);
  }

  /** An empty list sorts to an empty list. */
  lemma {:induction false} PrefixOfEmpty(prio: Handle -> int, s: nat)
    ensures Prefix([], prio, s) == []
  {
    if s > 0 {
      PrefixOfEmpty(prio, s - 1);
    }
  }

  /** A permutation: when every slot index fits, the output holds exactly
      the tasks of the list, each as often as before. */
  lemma PrefixPermutation(q: seq<Handle>, prio: Handle -> int, s: nat)
    requires Fits(q, prio, s)
    ensures multiset(Prefix(q, prio, s)) == multiset(q)
    ensures |Prefix(q, prio, s)| == |q|
  {
    forall y
      ensures multiset(Prefix(q, prio, s))[y] == multiset(q)[y]
    {
      PrefixCount(q, prio, s, y);
    }
    assert |multiset(Prefix(q, prio, s))| == |Prefix(q, prio, s)|;
  }

  /** One more task of the list adds it to the end of its own slot's list. */
  lemma FilterStep(q: seq<Handle>, prio: Handle -> int, i: nat, k: int)
    requires i < |q|
    ensures Filter(q[..i + 1], prio, k) ==
      Filter(q[..i], prio, k) + if Key(prio, q[i]) == k then [q[i]] else []
  {
    assert q[..i + 1][..i] == q[..i];
  }

  /** The stretches of two different slots in the output do not overlap. */
  lemma PrefixDisjoint(q: seq<Handle>, prio: Handle -> int, k1: nat, m1: nat, k2: nat, m2: nat)
    requires k1 != k2 && m1 < |Filter(q, prio, k1)| && m2 < |Filter(q, prio, k2)|
    ensures |Prefix(q, prio, k1)| + m1 != |Prefix(q, prio, k2)| + m2
  {
    if k1 < k2 {
      PrefixGrows(q, prio, k1 + 1, k2);
    } else {
      PrefixGrows(q, prio, k2 + 1, k1);
    }
  }

  // ---------------------------------------------------------------------
  // The sort on arrays

  /** The counting pass: one slot of aux per priority, incremented once for
      every task of the list, from the head around the ring.  A task whose
      slot lies outside aux stops the pass: the C code writes past the end
      of its frequency array there. */
  method Count(q: seq<Handle>, prio: Handle -> int, aux: array<int>) returns (ok: bool)
    requires forall k :: 0 <= k < aux.Length ==> aux[k] == 0
    modifies aux
    ensures ok <==> Fits(q, prio, aux.Length)
    ensures ok ==> forall k {:trigger aux[k]} :: 0 <= k < aux.Length ==> aux[k] == |Filter(q, prio, k)|
  {
    var i := 0;
    while i < |q|
      invariant 0 <= i <= |q|
      invariant Fits(q[..i], prio, aux.Length)
      invariant forall k {:trigger aux[k]} :: 0 <= k < aux.Length ==> aux[k] == |Filter(q[..i], prio, k)|
    {
      var key := prio(q[i]) - PRIO_MAX;
      if !(0 <= key < aux.Length) {
        assert q[i] in q;
        return false;
      }
      forall k | 0 <= k < aux.Length {
        FilterStep(q, prio, i, k);
      }
      aux[key] := aux[key] + 1;
      assert forall h :: h in q[..i + 1] ==> h in q[..i] || h == q[i];
      i := i + 1;
    }
    assert q[..i] == q;
    return true;
  }

  /** Exclusive prefix sums: every slot becomes the number of tasks counted
      in the slots before it, the first place of its stretch in the output. */
  method PrefixSums(q: seq<Handle>, prio: Handle -> int, aux: array<int>)
    requires forall k {:trigger aux[k]} :: 0 <= k < aux.Length ==> aux[k] == |Filter(q, prio, k)|
    modifies aux
    ensures forall k {:trigger aux[k]} :: 0 <= k < aux.Length ==> aux[k] == |Prefix(q, prio, k)|
  {
    var sum := 0;
    var i := 0;
    while i < aux.Length
      invariant 0 <= i <= aux.Length
      invariant sum == |Prefix(q, prio, i)|
      invariant forall k {:trigger aux[k]} :: 0 <= k < i ==> aux[k] == |Prefix(q, prio, k)|
      invariant forall k {:trigger aux[k]} :: i <= k < aux.Length ==> aux[k] == |Filter(q, prio, k)|
    {
      var aSum := aux[i];
      assert |Prefix(q, prio, i + 1)| == sum + aSum;
      aux[i] := sum;
      sum := sum + aSum;
      i := i + 1;
    }
  }

  /** The m-th of slot k's tasks among the first i of the list sits at
      place m of slot k's stretch of the output. */
  ghost predicate Placed(q: seq<Handle>, prio: Handle -> int, i: nat, out: seq<Handle>, k: nat, m: int)
    requires i <= |q|
  {
    0 <= m < |Filter(q[..i], prio, k)| ==>
      |Prefix(q, prio, k)| + m < |out| && out[|Prefix(q, prio, k)| + m] == Filter(q[..i], prio, k)[m]
  }

  /** After the first i tasks of the list are scattered, every slot's
      stretch of the output begins with that slot's tasks among them. */
  ghost predicate Scattered(q: seq<Handle>, prio: Handle -> int, s: nat, i: nat, out: seq<Handle>)
    requires i <= |q|
  {
    forall k: nat, m :: k < s ==> Placed(q, prio, i, out, k, m)
  }

  /** A place the first i tasks filled, read back. */
  lemma ScatteredAt(q: seq<Handle>, prio: Handle -> int, s: nat, i: nat, out: seq<Handle>, k: nat, n: nat)
    requires i <= |q| && Scattered(q, prio, s, i, out)
    requires k < s && n < |Filter(q[..i], prio, k)|
    ensures |Prefix(q, prio, k)| + n < |out| && out[|Prefix(q, prio, k)| + n] == Filter(q[..i], prio, k)[n]
  {
    assert Placed(q, prio, i, out, k, n);
  }

  /** The place task i goes to is none that a task of another slot filled. */
  lemma ScatterElsewhere(q: seq<Handle>, prio: Handle -> int, i: nat, k: nat, n: nat)
    requires i < |q| && 0 <= Key(prio, q[i]) && k != Key(prio, q[i])
    requires n < |Filter(q[..i], prio, k)|
    ensures |Prefix(q, prio, k)| + n != |Prefix(q, prio, Key(prio, q[i]))| + |Filter(q[..i], prio, Key(prio, q[i]))|
  {
    FilterNext(q, prio, i);
    FilterGrows(q, prio, i, |q|, k);
    assert q[..|q|] == q;
    PrefixDisjoint(q, prio, k, n, Key(prio, q[i]), |Filter(q[..i], prio, Key(prio, q[i]))|);
  }

  /** The place task i goes to lies inside the output. */
  lemma ScatterBound(q: seq<Handle>, prio: Handle -> int, s: nat, i: nat)
    requires i < |q| && 0 <= Key(prio, q[i]) < s
    ensures |Prefix(q, prio, Key(prio, q[i]))| + |Filter(q[..i], prio, Key(prio, q[i]))| < |Prefix(q, prio, s)|
  {
    FilterNext(q, prio, i);
    PrefixAt(q, prio, s, Key(prio, q[i]), |Filter(q[..i], prio, Key(prio, q[i]))|);
  }

  /** After task i is placed, every place the first i + 1 tasks filled
      holds its task. */
  lemma ScatterPlace(q: seq<Handle>, prio: Handle -> int, s: nat, i: nat, out: seq<Handle>, k: nat, n: nat)
    requires i < |q| && 0 <= Key(prio, q[i]) < s && |out| == |Prefix(q, prio, s)|
    requires Scattered(q, prio, s, i, out)
    requires k < s && n < |Filter(q[..i + 1], prio, k)|
    ensures var pos := |Prefix(q, prio, Key(prio, q[i]))| + |Filter(q[..i], prio, Key(prio, q[i]))|;
      pos < |out| && Placed(q, prio, i + 1, out[pos := q[i]], k, n)
  {
    var key := Key(prio, q[i]);
    var m := |Filter(q[..i], prio, key)|;
    ScatterBound(q, prio, s, i);
    var f, f' := Filter(q[..i], prio, k), Filter(q[..i + 1], prio, k);
    FilterStep(q, prio, i, k);
    if k != key {
      ScatteredAt(q, prio, s, i, out, k, n);
      ScatterElsewhere(q, prio, i, k, n);
    } else if n < m {
      assert f' == f + [q[i]];
      ScatteredAt(q, prio, s, i, out, k, n);
    } else {
      assert f' == f + [q[i]];
    }
  }

  /** Placing task i at the next free place of its slot's stretch scatters
      one more task and overwrites none placed before. */
  lemma ScatterStep(q: seq<Handle>, prio: Handle -> int, s: nat, i: nat, out: seq<Handle>, pos: int)
    requires i < |q| && 0 <= Key(prio, q[i]) < s && |out| == |Prefix(q, prio, s)|
    requires Scattered(q, prio, s, i, out)
    requires pos == |Prefix(q, prio, Key(prio, q[i]))| + |Filter(q[..i], prio, Key(prio, q[i]))|
    ensures 0 <= pos < |out| && Scattered(q, prio, s, i + 1, out[pos := q[i]])
  {
    ScatterBound(q, prio, s, i);
    forall k: nat, n {:trigger Placed(q, prio, i + 1, out[pos := q[i]], k, n)} | k < s
      ensures Placed(q, prio, i + 1, out[pos := q[i]], k, n)
    {
      if 0 <= n < |Filter(q[..i + 1], prio, k)| {
        ScatterPlace(q, prio, s, i, out, k, n);
      }
    }
  }

  /** Before the pass nothing is scattered. */
  lemma ScatterStart(q: seq<Handle>, prio: Handle -> int, s: nat, out: seq<Handle>)
    ensures Scattered(q, prio, s, 0, out)
  {
    assert q[..0] == [];
    forall k: nat, m {:trigger Placed(q, prio, 0, out, k, m)} | k < s
      ensures Placed(q, prio, 0, out, k, m)
    {
      assert Filter(q[..0], prio, k) == [];
    }
  }

  /** When every slot index fits, the output is as long as the list. */
  lemma PrefixLength(q: seq<Handle>, prio: Handle -> int, s: nat)
    requires Fits(q, prio, s)
    ensures |Prefix(q, prio, s)| == |q|
  {
    PrefixPermutation(q, prio, s);
  }

  lemma FilterWhole(q: seq<Handle>, prio: Handle -> int, k: int)
    ensures Filter(q[..|q|], prio, k) == Filter(q, prio, k)
  {
    assert q[..|q|] == q;
  }

  /** The slot and the rank inside it of a place of the output. */
  lemma SlotOf(q: seq<Handle>, prio: Handle -> int, s: nat, p: nat) returns (k: nat, m: nat)
    requires p < |Prefix(q, prio, s)|
    ensures k < s && m < |Filter(q, prio, k)| && p == |Prefix(q, prio, k)| + m
    ensures Prefix(q, prio, s)[p] == Filter(q, prio, k)[m]
  {
    PrefixCover(q, prio, s, p);
    k :| 0 <= k < s && |Prefix(q, prio, k)| <= p < |Prefix(q, prio, k + 1)|;
    m := p - |Prefix(q, prio, k)|;
    PrefixAt(q, prio, s, k, m);
  }

  /** Once every task is scattered, the output is the sorted list. */
  lemma ScatterDone(q: seq<Handle>, prio: Handle -> int, s: nat, out: seq<Handle>)
    requires Fits(q, prio, s) && |out| == |q|
    requires Scattered(q, prio, s, |q|, out)
    ensures out == Prefix(q, prio, s)
  {
    PrefixLength(q, prio, s);
    forall p | 0 <= p < |q|
      ensures out[p] == Prefix(q, prio, s)[p]
    {
      ScatterDoneAt(q, prio, s, out, p);
    }
  }

  /** One place of the fully scattered output holds the sorted list's task. */
  lemma ScatterDoneAt(q: seq<Handle>, prio: Handle -> int, s: nat, out: seq<Handle>, p: nat)
    requires Scattered(q, prio, s, |q|, out)
    requires p < |Prefix(q, prio, s)|
    ensures p < |out| && out[p] == Prefix(q, prio, s)[p]
  {
    var k, m := SlotOf(q, prio, s, p);
    FilterWhole(q, prio, k);
    ScatteredAt(q, prio, s, |q|, out, k, m);
  }

  /** One step of the scattering pass: task i goes to the place its slot's
      counter names, and the counter moves on. */
  method Place(q: seq<Handle>, prio: Handle -> int, aux: array<int>, srt: array<Handle>, i: nat)
    requires i < |q| && 0 <= Key(prio, q[i]) < aux.Length && srt.Length == |Prefix(q, prio, aux.Length)|
    requires forall k {:trigger aux[k]} :: 0 <= k < aux.Length ==> aux[k] == |Prefix(q, prio, k)| + |Filter(q[..i], prio, k)|
    requires Scattered(q, prio, aux.Length, i, srt[..])
    modifies aux, srt
    ensures forall k {:trigger aux[k]} :: 0 <= k < aux.Length ==> aux[k] == |Prefix(q, prio, k)| + |Filter(q[..i + 1], prio, k)|
    ensures Scattered(q, prio, aux.Length, i + 1, srt[..])
  {
    var key := prio(q[i]) - PRIO_MAX;
    ghost var before := srt[..];
    var pos := aux[key];
    ScatterStep(q, prio, aux.Length, i, before, pos);
    srt[pos] := q[i];
    assert srt[..] == before[pos := q[i]];
    forall k | 0 <= k < aux.Length
      ensures aux[k] + (if k == key then 1 else 0) == |Prefix(q, prio, k)| + |Filter(q[..i + 1], prio, k)|
    {
      FilterStep(q, prio, i, k);
    }
    aux[key] := pos + 1;
  }

  /** The scattering pass: every task, from the head around the ring, goes to
      the next free place of its slot's stretch. */
  method Scatter(q: seq<Handle>, prio: Handle -> int, aux: array<int>, srt: array<Handle>)
    requires Fits(q, prio, aux.Length) && srt.Length == |q|
    requires forall k {:trigger aux[k]} :: 0 <= k < aux.Length ==> aux[k] == |Prefix(q, prio, k)|
    modifies aux, srt
    ensures srt[..] == Prefix(q, prio, aux.Length)
  {
    PrefixLength(q, prio, aux.Length);
    ScatterStart(q, prio, aux.Length, srt[..]);
    assert q[..0] == [];
    var i := 0;
    while i < |q|
      invariant 0 <= i <= |q|
      invariant forall k {:trigger aux[k]} :: 0 <= k < aux.Length ==> aux[k] == |Prefix(q, prio, k)| + |Filter(q[..i], prio, k)|
      invariant Scattered(q, prio, aux.Length, i, srt[..])
    {
      assert q[i] in q;
      Place(q, prio, aux, srt, i);
      i := i + 1;
    }
    ScatterDone(q, prio, aux.Length, srt[..]);
  }

  /** counting_sort: an empty list is left alone; otherwise the tasks are
      counted, the counts summed, and the tasks scattered into a fresh buffer
      of the list's size, which becomes the new list from its first place.
      `slots` is the length of the frequency array; the result is None when a
      task's priority indexes outside it. */
  method Sort(q: seq<Handle>, prio: Handle -> int, slots: nat) returns (r: Option<seq<Handle>>)
    ensures r.None? <==> !Fits(q, prio, slots)
    ensures r.Some? ==> r.value == Prefix(q, prio, slots)
  {
    if q == [] {
      PrefixOfEmpty(prio, slots);
      return Some([]);
    }
    var aux := new int[slots];
    var i := 0;
    while i < slots
      invariant 0 <= i <= slots
      invariant forall k :: 0 <= k < i ==> aux[k] == 0
    {
      aux[i] := 0;
      i := i + 1;
    }
    var ok := Count(q, prio, aux);
    if !ok {
      return None;
    }
    PrefixSums(q, prio, aux);
    var srt := new Handle[|q|];
    Scatter(q, prio, aux, srt);
    return Some(srt[..]);
  }

  // ---------------------------------------------------------------------
  // Relinking the ring

  /** C's `%`, which truncates toward zero: the remainder takes the sign of
      the dividend. */
  function CRem(a: int, b: int): (r: int)
    requires b > 0
    ensures -b < r < b && (a >= 0 ==> r >= 0) && (a <= 0 ==> r <= 0)
  {
    if a >= 0 then a % b else -((-a) % b)
  }

  /** The place before place i of a ring of n places. */
  function Before(i: int, n: int): int {
    if i == 0 then n - 1 else i - 1
  }

  /** The place after place i of a ring of n places. */
  function After(i: int, n: int): int {
    if i == n - 1 then 0 else i + 1
  }

  /** C's remainders of i - 1 and i + 1 by n: only i - 1 at the first place
      of a ring of more than one place comes out negative. */
  lemma CRemNeighbours(i: int, n: int)
    requires 0 <= i < n
    ensures CRem(i - 1, n) == if i == 0 && n > 1 then -1 else Before(i, n)
    ensures CRem(i + 1, n) == After(i, n)
  {
    if i == 0 {
      assert 1 % n == if n > 1 then 1 else 0;
    } else {
      assert (i - 1) % n == i - 1;
    }
    if i < n - 1 {
      assert (i + 1) % n == i + 1;
    } else {
      assert n % n == 0;
    }
  }

  /** The index correction after C's `%`: the ring's size is added while
      the index is negative. */
  method Wrap(x: int, size: int) returns (r: int)
    requires -size < x < size
    ensures 0 <= r < size && (r == x || r == x + size)
  {
    r := x;
    while r < 0
      invariant r == x || (x < 0 && r == x + size)
      decreases -r
    {
      r := r + size;
    }
  }

  /** The places before and after place i of a ring of `size` places, as the
      relinking loop computes them: C's `%`, then the correction. */
  method RingNeighbours(i: int, size: int) returns (traseira: int, dianteira: int)
    requires 0 <= i < size
    ensures traseira == Before(i, size) && dianteira == After(i, size)
  {
    CRemNeighbours(i, size);
    var back, front := CRem(i - 1, size), CRem(i + 1, size);
    traseira := Wrap(back, size);
    dianteira := Wrap(front, size);
  }

  /** The keys of a link map are exactly the first i tasks of the buffer. */
  ghost predicate KeysUpTo(srt: seq<Handle>, links: map<Handle, Handle>, i: nat)
    requires i <= |srt|
  {
    forall h :: h in links <==> h in srt[..i]
  }

  /** Each of the first i tasks of the buffer is linked to the task at
      place `to(j)` of its place j. */
  ghost predicate LinksUpTo(srt: seq<Handle>, links: map<Handle, Handle>, i: nat, forward: bool)
    requires i <= |srt|
  {
    forall j :: 0 <= j < i ==>
      srt[j] in links && links[srt[j]] == srt[if forward then After(j, |srt|) else Before(j, |srt|)]
  }

  /** Linking task i extends the keys by one. */
  lemma KeysStep(srt: seq<Handle>, links: map<Handle, Handle>, i: nat, to: Handle)
    requires i < |srt| && KeysUpTo(srt, links, i)
    ensures KeysUpTo(srt, links[srt[i] := to], i + 1)
  {
    assert srt[..i + 1] == srt[..i] + [srt[i]];
  }

  /** Linking task i to its neighbour keeps the earlier links. */
  lemma LinksStep(srt: seq<Handle>, links: map<Handle, Handle>, i: nat, forward: bool)
    requires NoDup(srt) && i < |srt| && LinksUpTo(srt, links, i, forward)
    ensures LinksUpTo(srt, links[srt[i] := srt[if forward then After(i, |srt|) else Before(i, |srt|)]], i + 1, forward)
  {
    var n := |srt|;
    var links' := links[srt[i] := srt[if forward then After(i, n) else Before(i, n)]];
    forall j | 0 <= j < i + 1
      ensures srt[j] in links' && links'[srt[j]] == srt[if forward then After(j, n) else Before(j, n)]
    {
      if j < i {
        assert srt[j] != srt[i];
      }
    }
  }

  /** The links the relinking loop gives every task of the sorted buffer:
      prev to the place before it, next to the place after it, around the
      ring.  The buffer holds distinct tasks. */
  method Relink(srt: seq<Handle>) returns (prev: map<Handle, Handle>, next: map<Handle, Handle>)
    requires NoDup(srt)
    ensures forall h :: (h in prev <==> h in srt) && (h in next <==> h in srt)
    ensures forall i :: 0 <= i < |srt| ==>
      prev[srt[i]] == srt[Before(i, |srt|)] && next[srt[i]] == srt[After(i, |srt|)]
  {
    prev, next := map[], map[];
    var i := 0;
    while i < |srt|
      invariant 0 <= i <= |srt|
      invariant KeysUpTo(srt, prev, i) && KeysUpTo(srt, next, i)
      invariant LinksUpTo(srt, prev, i, false) && LinksUpTo(srt, next, i, true)
    {
      var traseira, dianteira := RingNeighbours(i, |srt|);
      KeysStep(srt, prev, i, srt[traseira]);
      KeysStep(srt, next, i, srt[dianteira]);
      LinksStep(srt, prev, i, false);
      LinksStep(srt, next, i, true);
      prev := prev[srt[i] := srt[traseira]];
      next := next[srt[i] := srt[dianteira]];
      i := i + 1;
    }
    assert srt[..i] == srt;
  }

  /** The relinked ring is closed and consistent: the next of a task's prev,
      and the prev of its next, is the task itself. */
  lemma RingConsistent(srt: seq<Handle>, prev: map<Handle, Handle>, next: map<Handle, Handle>, i: nat)
    requires NoDup(srt) && i < |srt|
    requires forall h :: (h in prev <==> h in srt) && (h in next <==> h in srt)
    requires forall j :: 0 <= j < |srt| ==>
      prev[srt[j]] == srt[Before(j, |srt|)] && next[srt[j]] == srt[After(j, |srt|)]
    ensures prev[srt[i]] in next && next[prev[srt[i]]] == srt[i]
    ensures next[srt[i]] in prev && prev[next[srt[i]]] == srt[i]
  {
    var n := |srt|;
    var b, f := Before(i, n), After(i, n);
    assert srt[b] in srt && srt[f] in srt;
    assert After(b, n) == i && Before(f, n) == i;
  }

  // ---------------------------------------------------------------------
  // The frequency array's size

  /** As written the frequency array has PRIO_MIN - PRIO_MAX slots: for tasks
      of valid priority, the sort stays inside it exactly when no task has
      the least urgent priority PRIO_MIN, whose slot is one past the end. */
  lemma AlcanceOverflow(q: seq<Handle>, prio: Handle -> int)
    requires forall h :: h in q ==> InRange(prio(h))
    ensures Fits(q, prio, ALCANCE) <==> forall h :: h in q ==> prio(h) != PRIO_MIN
  {
  }

  /** One task of priority PRIO_MIN is enough to index past the end. */
  lemma AlcanceCounterexample()
    ensures !Fits([0], _ => PRIO_MIN, ALCANCE) && Fits([0], _ => PRIO_MIN, SLOTS)
  {
    assert 0 in [0];
  }

  /** With one slot per priority of the valid range every task fits. */
  lemma SlotsSuffice(q: seq<Handle>, prio: Handle -> int)
    requires forall h :: h in q ==> InRange(prio(h))
    ensures Fits(q, prio, SLOTS)
  {
  }

  /** A slot's list starts with the first task of the list counted in it. */
  lemma {:induction false} FilterHead(q: seq<Handle>, prio: Handle -> int, k: int)
    requires Filter(q, prio, k) != []
    ensures exists j :: 0 <= j < |q| && q[j] == Filter(q, prio, k)[0] &&
                        forall i :: 0 <= i < j ==> Key(prio, q[i]) != k
  {
    var p, last := q[..|q| - 1], q[|q| - 1];
    var tail := if Key(prio, last) == k then [last] else [];
    assert Filter(q, prio, k) == Filter(p, prio, k) + tail;
    if Filter(p, prio, k) != [] {
      FilterHead(p, prio, k);
      var j :| 0 <= j < |p| && p[j] == Filter(p, prio, k)[0] && forall i :: 0 <= i < j ==> Key(prio, p[i]) != k;
      assert forall i :: 0 <= i <= j ==> q[i] == p[i];
    } else {
      FilterEmpty(p, prio, k);
      assert forall i :: 0 <= i < |p| ==> q[i] == p[i];
      assert q[|p|] == Filter(q, prio, k)[0];
    }
  }

  /** A slot's list is empty only when no task of the list is counted in it. */
  lemma {:induction false} FilterEmpty(q: seq<Handle>, prio: Handle -> int, k: int)
    requires Filter(q, prio, k) == []
    ensures forall i :: 0 <= i < |q| ==> Key(prio, q[i]) != k
  {
    if q != [] {
      FilterEmpty(q[..|q| - 1], prio, k);
    }
  }

  /** When the list starts with a task of slot k, so does slot k's list. */
  lemma {:induction false} FilterFirst(q: seq<Handle>, prio: Handle -> int)
    requires q != []
    ensures var f := Filter(q, prio, Key(prio, q[0])); f != [] && f[0] == q[0]
  {
    var k := Key(prio, q[0]);
    if |q| > 1 {
      var p := q[..|q| - 1];
      FilterFirst(p, prio);
      assert p[0] == q[0];
    } else {
      assert q[..0] == [];
    }
  }

  /** The head of the sorted list is a task of the list with the most
      urgent (smallest) dynamic priority. */
  lemma HeadIsMin(q: seq<Handle>, prio: Handle -> int, s: nat)
    requires Fits(q, prio, s) && q != []
    ensures var r := Prefix(q, prio, s);
      |r| == |q| && r[0] in q && forall h :: h in q ==> prio(r[0]) <= prio(h)
  {
    var r := Prefix(q, prio, s);
    PrefixPermutation(q, prio, s);
    PrefixSorted(q, prio, s);
    assert r[0] in multiset(r);
    forall h | h in q
      ensures prio(r[0]) <= prio(h)
    {
      assert h in multiset(r);
      var j :| 0 <= j < |r| && r[j] == h;
      if j > 0 {
        assert prio(r[0]) <= prio(r[j]);
      }
    }
  }

  /** No task of the head's slot comes before the head in the list. */
  lemma HeadIsFirst(q: seq<Handle>, prio: Handle -> int, s: nat)
    requires Prefix(q, prio, s) != []
    ensures var r := Prefix(q, prio, s);
      exists j :: 0 <= j < |q| && q[j] == r[0] && forall i :: 0 <= i < j ==> prio(q[i]) != prio(r[0])
  {
    var r := Prefix(q, prio, s);
    var k := Key(prio, r[0]);
    FilterFirst(r, prio);
    PrefixStable(q, prio, s, k);
    PrefixKeys(q, prio, s);
    FilterHead(q, prio, k);
    var j :| 0 <= j < |q| && q[j] == Filter(q, prio, k)[0] && forall i :: 0 <= i < j ==> Key(prio, q[i]) != k;
  }

  /** The head of the sorted list is the first task of the list with the
      most urgent (smallest) dynamic priority. */
  lemma HeadIsFirstMin(q: seq<Handle>, prio: Handle -> int, s: nat)
    requires Fits(q, prio, s) && q != []
    ensures var r := Prefix(q, prio, s);
      |r| == |q| && r[0] in q &&
      (forall h :: h in q ==> prio(r[0]) <= prio(h)) &&
      exists j :: 0 <= j < |q| && q[j] == r[0] && forall i :: 0 <= i < j ==> prio(q[i]) > prio(r[0])
  {
    var r := Prefix(q, prio, s);
    HeadIsMin(q, prio, s);
    HeadIsFirst(q, prio, s);
    var j :| 0 <= j < |q| && q[j] == r[0] && forall i :: 0 <= i < j ==> prio(q[i]) != prio(r[0]);
    forall i | 0 <= i < j
      ensures prio(q[i]) > prio(r[0])
    {
      assert q[i] in q;
    }
  }
}
