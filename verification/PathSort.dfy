/** The order in which the paths of a device are disconnected. */
module PathSort {

  datatype Addr = Addr(ip: string, port: int)

  /** A controller of a subsystem. The host refuses two controllers with one address. */
  datatype NvmePath = NvmePath(addr: Addr, ana: string, state: string)

  const OPTIMIZED: string := "optimized"
  const INSERTION_LIMIT: nat := 12

  /** The comparator handed to `sort.Slice`; it also answers true for equal elements. */
  predicate Less(a: NvmePath, b: NvmePath) {
    !(a.ana == OPTIMIZED && b.ana != OPTIMIZED)
  }

  function Reversed(s: seq<NvmePath>): seq<NvmePath> {
    if s == [] then [] else Reversed(s[1..]) + [s[0]]
  }

  /** The paths of `s` that are optimized, or those that are not, in their order. */
  function Select(s: seq<NvmePath>, optimized: bool): seq<NvmePath> {
    if s == [] then []
    else (if (s[0].ana == OPTIMIZED) == optimized then [s[0]] else []) + Select(s[1..], optimized)
  }

  /** One half of the final order: the selected paths, last listed first. */
  function Half(s: seq<NvmePath>, optimized: bool): seq<NvmePath> {
    Reversed(Select(s, optimized))
  }

  /** Every optimized path after every other one. */
  function SortedOrder(s: seq<NvmePath>): seq<NvmePath> {
    Half(s, false) + Half(s, true)
  }

  lemma HalfMembers(s: seq<NvmePath>, optimized: bool)
    ensures multiset(Half(s, optimized)) == multiset(Select(s, optimized))
    ensures forall k | 0 <= k < |Half(s, optimized)| :: (Half(s, optimized)[k].ana == OPTIMIZED) == optimized
  {
    ReversedIn(Select(s, optimized));
    SelectMembers(s, optimized);
    forall k | 0 <= k < |Half(s, optimized)| ensures (Half(s, optimized)[k].ana == OPTIMIZED) == optimized {
      assert Half(s, optimized)[k] in Half(s, optimized);
    }
  }

  lemma {:induction false} ReversedIn(s: seq<NvmePath>)
    ensures multiset(Reversed(s)) == multiset(s)
    ensures forall p :: p in Reversed(s) <==> p in s
  {
    if s != [] {
      ReversedIn(s[1..]);
      assert s == [s[0]] + s[1..];
    }
  }

  lemma {:induction false} SelectMembers(s: seq<NvmePath>, optimized: bool)
    ensures forall p | p in Select(s, optimized) :: (p.ana == OPTIMIZED) == optimized
  {
    if s != [] {
      SelectMembers(s[1..], optimized);
    }
  }

  lemma {:induction false} SelectSplits(s: seq<NvmePath>)
    ensures multiset(s) == multiset(Select(s, false)) + multiset(Select(s, true))
  {
    if s != [] {
      SelectSplits(s[1..]);
      assert s == [s[0]] + s[1..];
    }
  }

  lemma {:induction false} SelectSnoc(s: seq<NvmePath>, x: NvmePath, optimized: bool)
    ensures Select(s + [x], optimized)
         == Select(s, optimized) + (if (x.ana == OPTIMIZED) == optimized then [x] else [])
  {
    if s == [] {
      assert s + [x] == [x];
    } else {
      SelectSnoc(s[1..], x, optimized);
      assert (s + [x])[1..] == s[1..] + [x];
    }
  }

  lemma {:induction false} ReversedSnoc(s: seq<NvmePath>, x: NvmePath)
    ensures Reversed(s + [x]) == [x] + Reversed(s)
  {
    if s == [] {
      assert s + [x] == [x];
    } else {
      ReversedSnoc(s[1..], x);
      assert (s + [x])[1..] == s[1..] + [x];
    }
  }

  /** Where one more path goes: to the front of its own half. */
  lemma HalfSnoc(s: seq<NvmePath>, x: NvmePath, optimized: bool)
    ensures Half(s + [x], optimized)
         == if (x.ana == OPTIMIZED) == optimized then [x] + Half(s, optimized) else Half(s, optimized)
  {
    SelectSnoc(s, x, optimized);
    if (x.ana == OPTIMIZED) == optimized {
      ReversedSnoc(Select(s, optimized), x);
    } else {
      assert Select(s, optimized) + [] == Select(s, optimized);
    }
  }

  lemma SortedOrderPermutes(s: seq<NvmePath>)
    ensures multiset(SortedOrder(s)) == multiset(s)
    ensures |SortedOrder(s)| == |s|
  {
    SelectSplits(s);
    HalfMembers(s, false);
    HalfMembers(s, true);
    assert |multiset(SortedOrder(s))| == |multiset(s)|;
  }

  /** No optimized path stands before one that is not. */
  lemma SortedOrderLast(s: seq<NvmePath>, i: nat, j: nat)
    requires i < j < |SortedOrder(s)|
    ensures SortedOrder(s)[i].ana == OPTIMIZED ==> SortedOrder(s)[j].ana == OPTIMIZED
  {
    HalfMembers(s, false);
    HalfMembers(s, true);
  }

  /** The one place between the halves where a leftward scan for `x` stops. */
  lemma InsertSpot(low: seq<NvmePath>, high: seq<NvmePath>, x: NvmePath, j: nat)
    requires forall k | 0 <= k < |low| :: low[k].ana != OPTIMIZED
    requires forall k | 0 <= k < |high| :: high[k].ana == OPTIMIZED
    requires j <= |low + high|
    requires j == |low + high| || Less(x, (low + high)[j])
    requires j == 0 || !Less(x, (low + high)[j - 1])
    ensures (low + high)[..j] + [x] + (low + high)[j..]
         == if x.ana == OPTIMIZED then low + ([x] + high) else ([x] + low) + high
  {
    var sorted := low + high;
    if x.ana == OPTIMIZED {
      assert j == |low|;
      assert sorted[..j] == low && sorted[j..] == high;
    } else {
      assert j == 0;
    }
  }

  /** An insertion that stops moving `x` left at `j` has put it in its place. */
  lemma InsertedInPlace(s: seq<NvmePath>, x: NvmePath, sorted: seq<NvmePath>, j: nat)
    requires sorted == SortedOrder(s) && j <= |sorted|
    requires j == |sorted| || Less(x, sorted[j])
    requires j == 0 || !Less(x, sorted[j - 1])
    ensures sorted[..j] + [x] + sorted[j..] == SortedOrder(s + [x])
  {
    HalfSnoc(s, x, false);
    HalfSnoc(s, x, true);
    HalfMembers(s, false);
    HalfMembers(s, true);
    InsertSpot(Half(s, false), Half(s, true), x, j);
  }

  /** The inner loop: move `a[i]` left past everything it compares less to. */
  method Insert(a: array<NvmePath>, i: nat)
    requires i < a.Length
    modifies a
    ensures a[i + 1..] == old(a[i + 1..])
    ensures forall s | SortedOrder(s) == old(a[..i]) :: a[..i + 1] == SortedOrder(s + [old(a[i])])
  {
    ghost var sorted, x := a[..i], a[i];
    var j := i;
    while j > 0 && Less(a[j], a[j - 1])
      invariant 0 <= j <= i
      invariant a[j] == x
      invariant forall k | 0 <= k < j :: a[k] == sorted[k]
      invariant forall k | j < k <= i :: a[k] == sorted[k - 1]
      invariant forall k | j <= k < i :: Less(x, sorted[k])
      invariant a[i + 1..] == old(a[i + 1..])
    {
      a[j], a[j - 1] := a[j - 1], a[j];
      j := j - 1;
    }
    assert a[..i + 1] == sorted[..j] + [x] + sorted[j..];
    forall s | SortedOrder(s) == sorted ensures a[..i + 1] == SortedOrder(s + [x]) {
      InsertedInPlace(s, x, sorted, j);
    }
  }

  /** `insertionSort` of Go's sort package with this comparator. */
  method InsertionSort(a: array<NvmePath>)
    modifies a
    ensures a[..] == SortedOrder(old(a[..]))
  {
    ghost var s := a[..];
    var i := 0;
    while i < a.Length
      invariant 0 <= i <= a.Length
      invariant a[..i] == SortedOrder(s[..i])
      invariant a[i..] == s[i..]
    {
      assert s[..i] + [a[i]] == s[..i + 1];
      assert a[i + 1..] == a[i..][1..];
      Insert(a, i);
      i := i + 1;
    }
    assert s[..i] == s;
    assert a[..i] == a[..];
  }

  /** Exchange of two elements; positions outside the list are ignored. */
  function Swap(s: seq<NvmePath>, i: nat, j: nat): seq<NvmePath> {
    if i < |s| && j < |s| then s[i := s[j]][j := s[i]] else s
  }

  function ApplySwaps(s: seq<NvmePath>, swaps: seq<(nat, nat)>): seq<NvmePath>
    decreases |swaps|
  {
    if swaps == [] then s else ApplySwaps(Swap(s, swaps[0].0, swaps[0].1), swaps[1..])
  }

  lemma {:induction false} SwapsPermute(s: seq<NvmePath>, swaps: seq<(nat, nat)>)
    ensures multiset(ApplySwaps(s, swaps)) == multiset(s)
    decreases |swaps|
  {
    if swaps != [] {
      SwapsPermute(Swap(s, swaps[0].0, swaps[0].1), swaps[1..]);
    }
  }

  /**
   * The list after `sort.Slice`: up to twelve elements it is the insertion sort; a longer list is
   * rearranged by some sequence of exchanges, about which nothing more is claimed.
   */
  function SortSlice(s: seq<NvmePath>, swaps: seq<(nat, nat)>): seq<NvmePath> {
    if |s| <= INSERTION_LIMIT then SortedOrder(s) else ApplySwaps(s, swaps)
  }

  /** However long the list, every path stays in it exactly as often as it was. */
  lemma SortSlicePermutes(s: seq<NvmePath>, swaps: seq<(nat, nat)>)
    ensures multiset(SortSlice(s, swaps)) == multiset(s)
  {
    SortedOrderPermutes(s);
    SwapsPermute(s, swaps);
  }

  method SortPaths(a: array<NvmePath>, swaps: seq<(nat, nat)>)
    modifies a
    ensures a[..] == SortSlice(old(a[..]), swaps)
  {
    if a.Length <= INSERTION_LIMIT {
      InsertionSort(a);
    } else {
      SwapAll(a, swaps);
    }
  }

  method SwapOnce(a: array<NvmePath>, i: nat, j: nat)
    modifies a
    ensures a[..] == Swap(old(a[..]), i, j)
  {
    if i < a.Length && j < a.Length {
      a[i], a[j] := a[j], a[i];
    }
  }

  method SwapAll(a: array<NvmePath>, swaps: seq<(nat, nat)>)
    modifies a
    ensures a[..] == ApplySwaps(old(a[..]), swaps)
  {
    ghost var s := a[..];
    for k := 0 to |swaps|
      invariant ApplySwaps(a[..], swaps[k..]) == ApplySwaps(s, swaps)
    {
      SwapOnce(a, swaps[k].0, swaps[k].1);
      assert swaps[k..][1..] == swaps[k + 1..];
    }
  }
}
