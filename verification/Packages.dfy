/** Greedy decomposition of an order amount into package sizes. */
module Packages {
  import opened Records

  const SIZES_DESC: seq<nat> := [8100, 3850, 1800, 660, 325, 60]

  ghost predicate Positive(sizes: seq<nat>) {
    forall i :: 0 <= i < |sizes| ==> sizes[i] > 0
  }

  ghost predicate Descending(sizes: seq<nat>) {
    forall i, j :: 0 <= i < j < |sizes| ==> sizes[i] > sizes[j]
  }

  /** One count per size, zeroes included: the quotients of the division chain. */
  function Greedy(sizes: seq<nat>, amount: nat): (counts: seq<nat>)
    requires Positive(sizes)
    ensures |counts| == |sizes|
  {
    if sizes == [] then [] else [amount / sizes[0]] + Greedy(sizes[1..], amount % sizes[0])
  }

  /** What the division chain leaves over. */
  function Remainder(sizes: seq<nat>, amount: nat): nat
    requires Positive(sizes)
  {
    if sizes == [] then amount else Remainder(sizes[1..], amount % sizes[0])
  }

  /** Units in `counts[i]` packages of each `sizes[i]`. */
  function Total(sizes: seq<nat>, counts: seq<nat>): nat
    requires |sizes| == |counts|
  {
    if sizes == [] then 0 else sizes[0] * counts[0] + Total(sizes[1..], counts[1..])
  }

  /** Lexicographic comparison from the largest size down. */
  ghost predicate LexAtMost(a: seq<nat>, b: seq<nat>)
    requires |a| == |b|
  {
    a == [] || a[0] < b[0] || (a[0] == b[0] && LexAtMost(a[1..], b[1..]))
  }

  /** Every package of one size is worth more than all the smaller ones together. */
  ghost predicate Canonical(sizes: seq<nat>, counts: seq<nat>)
    requires |sizes| == |counts|
  {
    sizes == [] || (Total(sizes[1..], counts[1..]) < sizes[0] && Canonical(sizes[1..], counts[1..]))
  }

  lemma {:induction false} GreedyConserves(sizes: seq<nat>, amount: nat)
    requires Positive(sizes)
    ensures Total(sizes, Greedy(sizes, amount)) + Remainder(sizes, amount) == amount
  {
    if sizes != [] {
      GreedyConserves(sizes[1..], amount % sizes[0]);
    }
  }

  lemma QuotientBound(size: nat, count: nat, rest: nat, amount: nat)
    requires size > 0 && size * count + rest <= amount
    ensures count <= amount / size
    ensures count == amount / size ==> rest <= amount % size
  {
    var q := amount / size;
    assert amount == size * q + amount % size;
    assert count > q ==> size * count >= size * (q + 1);
  }

  /** No other way to stay within the amount is lexicographically greater. */
  lemma {:induction false} GreedyIsLexGreatest(sizes: seq<nat>, amount: nat, other: seq<nat>)
    requires Positive(sizes) && |other| == |sizes|
    requires Total(sizes, other) <= amount
    ensures LexAtMost(other, Greedy(sizes, amount))
  {
    if sizes != [] {
      QuotientBound(sizes[0], other[0], Total(sizes[1..], other[1..]), amount);
      if other[0] == amount / sizes[0] {
        GreedyIsLexGreatest(sizes[1..], amount % sizes[0], other[1..]);
      }
    }
  }

  lemma DivModUnique(size: nat, count: nat, rest: nat)
    requires size > 0
    ensures rest < size ==> (size * count + rest) / size == count && (size * count + rest) % size == rest
    ensures (size * count + rest) / size == count ==> (size * count + rest) % size == rest
  {
    var total := size * count + rest;
    var q := total / size;
    assert total == size * q + total % size;
    assert q < count ==> size * (q + 1) <= size * count;
    assert q > count ==> size * (count + 1) <= size * q;
  }

  /** Recomposing counts and decomposing again returns them exactly for canonical counts. */
  lemma {:induction false} RoundTripIffCanonical(sizes: seq<nat>, counts: seq<nat>)
    requires Positive(sizes) && |counts| == |sizes|
    ensures Canonical(sizes, counts) <==> Greedy(sizes, Total(sizes, counts)) == counts
    ensures Canonical(sizes, counts) ==> Remainder(sizes, Total(sizes, counts)) == 0
  {
    if sizes == [] {
      assert counts == [];
    } else {
      var rest := Total(sizes[1..], counts[1..]);
      var total := Total(sizes, counts);
      DivModUnique(sizes[0], counts[0], rest);
      RoundTripIffCanonical(sizes[1..], counts[1..]);
      var again := Greedy(sizes, total);
      assert again[0] == total / sizes[0] && again[1..] == Greedy(sizes[1..], total % sizes[0]);
      if again == counts {
        assert total % sizes[0] == rest && again[1..] == counts[1..];
      }
      if Canonical(sizes, counts) {
        assert again == [counts[0]] + counts[1..] == counts;
      }
    }
  }

  /** The non-zero counts, smallest size first. */
  function Pairs(sizes: seq<nat>, counts: seq<nat>): (p: PackCounts)
    requires |sizes| == |counts|
    ensures forall i :: 0 <= i < |p| ==> p[i].0 in sizes && p[i].1 > 0
  {
    if sizes == [] then []
    else Pairs(sizes[1..], counts[1..]) + if counts[0] > 0 then [(sizes[0], counts[0])] else []
  }

  function PairTotal(p: PackCounts): nat {
    if p == [] then 0 else PairTotal(p[..|p| - 1]) + p[|p| - 1].0 * p[|p| - 1].1
  }

  lemma PairTotalAppend(p: PackCounts, size: nat, count: nat)
    ensures PairTotal(p + [(size, count)]) == PairTotal(p) + size * count
  {
    assert (p + [(size, count)])[..|p|] == p;
  }

  lemma PairsStep(smaller: PackCounts, size: nat, count: nat)
    ensures PairTotal(smaller + if count > 0 then [(size, count)] else []) == PairTotal(smaller) + size * count
  {
    if count > 0 {
      PairTotalAppend(smaller, size, count);
    } else {
      assert smaller + [] == smaller;
    }
  }

  lemma {:induction false} PairsKeepTotal(sizes: seq<nat>, counts: seq<nat>)
    requires |sizes| == |counts|
    ensures PairTotal(Pairs(sizes, counts)) == Total(sizes, counts)
  {
    if sizes != [] {
      PairsKeepTotal(sizes[1..], counts[1..]);
      PairsStep(Pairs(sizes[1..], counts[1..]), sizes[0], counts[0]);
    }
  }

  lemma {:induction false} PairsAscend(sizes: seq<nat>, counts: seq<nat>)
    requires |sizes| == |counts| && Descending(sizes)
    ensures forall i, j :: 0 <= i < j < |Pairs(sizes, counts)| ==>
      Pairs(sizes, counts)[i].0 < Pairs(sizes, counts)[j].0
  {
    if sizes != [] {
      PairsAscend(sizes[1..], counts[1..]);
      var smaller := Pairs(sizes[1..], counts[1..]);
      forall i | 0 <= i < |smaller| ensures smaller[i].0 < sizes[0] {
        assert smaller[i].0 in sizes[1..];
      }
    }
  }

  lemma SizesDescend()
    ensures Positive(SIZES_DESC) && Descending(SIZES_DESC)
  {
  }

  /** `decompose_amount`; None stands for the OrderAmountError it raises. */
  function Decompose(amount: int): Option<PackCounts> {
    if amount <= 0 || Remainder(SIZES_DESC, amount) != 0 then None
    else Some(Pairs(SIZES_DESC, Greedy(SIZES_DESC, amount)))
  }

  /** A successful decomposition uses real sizes, each once and ascending, and sums to the amount. */
  lemma DecomposeSums(amount: int)
    ensures Decompose(amount).Some? <==> amount > 0 && Remainder(SIZES_DESC, amount) == 0
    ensures Decompose(amount).Some? ==>
      var p := Decompose(amount).value;
      && p != []
      && PairTotal(p) == amount
      && (forall i :: 0 <= i < |p| ==> p[i].0 in SIZES_DESC && p[i].1 > 0)
      && (forall i, j :: 0 <= i < j < |p| ==> p[i].0 < p[j].0)
  {
    if Decompose(amount).Some? {
      var counts := Greedy(SIZES_DESC, amount);
      GreedyConserves(SIZES_DESC, amount);
      PairsKeepTotal(SIZES_DESC, counts);
      SizesDescend();
      PairsAscend(SIZES_DESC, counts);
      var p := Decompose(amount).value;
      assert PairTotal(p) == amount && PairTotal([]) == 0;
    }
  }

  lemma DivideStep(sizes: seq<nat>, amount: nat)
    requires Positive(sizes) && sizes != []
    ensures
      var rest, left := sizes[1..], amount % sizes[0];
      && Remainder(sizes, amount) == Remainder(rest, left)
      && Pairs(sizes, Greedy(sizes, amount))
         == Pairs(rest, Greedy(rest, left)) + if amount / sizes[0] > 0 then [(sizes[0], amount / sizes[0])] else []
  {
    var g := Greedy(sizes, amount);
    assert g[1..] == Greedy(sizes[1..], amount % sizes[0]);
  }

  /** The division loop of `decompose_amount` over the sizes. */
  method DivideOut(sizes: seq<nat>, amount: nat) returns (remaining: nat, counts: PackCounts)
    requires Positive(sizes)
    ensures remaining == Remainder(sizes, amount)
    ensures counts == Pairs(sizes, Greedy(sizes, amount))
  {
    remaining := amount;
    counts := [];
    for i := 0 to |sizes|
      invariant Remainder(sizes[i..], remaining) == Remainder(sizes, amount)
      invariant Pairs(sizes[i..], Greedy(sizes[i..], remaining)) + counts == Pairs(sizes, Greedy(sizes, amount))
    {
      DivideStep(sizes[i..], remaining);
      assert sizes[i..][1..] == sizes[i + 1..];
      var count := remaining / sizes[i];
      remaining := remaining % sizes[i];
      if count > 0 {
        // sizes come largest first, so putting each pair in front sorts the result
        counts := [(sizes[i], count)] + counts;
      }
    }
  }

  /** `decompose_amount`. */
  method DecomposeAmount(amount: int) returns (r: Option<PackCounts>)
    ensures r == Decompose(amount)
    ensures r.Some? ==> PairTotal(r.value) == amount
    ensures r.None? ==> amount <= 0 || Remainder(SIZES_DESC, amount) > 0
  {
    if amount <= 0 {
      return None;
    }
    var remaining, counts := DivideOut(SIZES_DESC, amount);
    if remaining != 0 {
      return None;
    }
    DecomposeSums(amount);
    return Some(counts);
  }

  lemma Unroll(size: nat, sizes: seq<nat>, amount: nat)
    requires size > 0 && Positive(sizes)
    ensures Positive([size] + sizes)
    ensures Greedy([size] + sizes, amount) == [amount / size] + Greedy(sizes, amount % size)
    ensures Remainder([size] + sizes, amount) == Remainder(sizes, amount % size)
  {
    assert ([size] + sizes)[1..] == sizes;
  }

  lemma GreedyOfSmallSizes(amount: nat)
    ensures Positive([660, 325, 60])
    ensures
      var a4 := amount % 660; var a5 := a4 % 325;
      && Greedy([660, 325, 60], amount) == [amount / 660, a4 / 325, a5 / 60]
      && Remainder([660, 325, 60], amount) == a5 % 60
  {
    var a4 := amount % 660; var a5 := a4 % 325;
    Unroll(60, [], a5);
    assert [60] + [] == [60];
    Unroll(325, [60], a4);
    assert [325] + [60] == [325, 60];
    Unroll(660, [325, 60], amount);
    assert [660] + [325, 60] == [660, 325, 60];
  }

  /** The division chain written out for the six package sizes. */
  lemma GreedyOfSizes(amount: nat)
    ensures
      var a1 := amount % 8100; var a2 := a1 % 3850; var a3 := a2 % 1800; var a4 := a3 % 660; var a5 := a4 % 325;
      && Greedy(SIZES_DESC, amount) == [amount / 8100, a1 / 3850, a2 / 1800, a3 / 660, a4 / 325, a5 / 60]
      && Remainder(SIZES_DESC, amount) == a5 % 60
  {
    var a1 := amount % 8100; var a2 := a1 % 3850; var a3 := a2 % 1800;
    GreedyOfSmallSizes(a3);
    Unroll(1800, [660, 325, 60], a2);
    assert [1800] + [660, 325, 60] == [1800, 660, 325, 60];
    Unroll(3850, [1800, 660, 325, 60], a1);
    assert [3850] + [1800, 660, 325, 60] == [3850, 1800, 660, 325, 60];
    Unroll(8100, [3850, 1800, 660, 325, 60], amount);
    assert [8100] + [3850, 1800, 660, 325, 60] == SIZES_DESC;
  }

  lemma UnrollTotal(size: nat, sizes: seq<nat>, count: nat, counts: seq<nat>)
    requires |sizes| == |counts|
    ensures Total([size] + sizes, [count] + counts) == size * count + Total(sizes, counts)
  {
    assert ([size] + sizes)[1..] == sizes && ([count] + counts)[1..] == counts;
  }

  /** Greedy accepts exactly the positive amounts that have a canonical representation. */
  lemma DecomposeAcceptsIff(amount: int)
    ensures Decompose(amount).Some? <==>
      amount > 0 && exists counts: seq<nat> ::
        |counts| == |SIZES_DESC| && Canonical(SIZES_DESC, counts) && Total(SIZES_DESC, counts) == amount
  {
    if Decompose(amount).Some? {
      var counts := Greedy(SIZES_DESC, amount);
      GreedyConserves(SIZES_DESC, amount);
      RoundTripIffCanonical(SIZES_DESC, counts);
    }
    if counts: seq<nat> :|
      |counts| == |SIZES_DESC| && Canonical(SIZES_DESC, counts) && Total(SIZES_DESC, counts) == amount
    {
      RoundTripIffCanonical(SIZES_DESC, counts);
    }
  }

  lemma {:induction false} NothingToDivide(sizes: seq<nat>)
    requires Positive(sizes)
    ensures Remainder(sizes, 0) == 0 && Pairs(sizes, Greedy(sizes, 0)) == []
  {
    if sizes != [] {
      DivideStep(sizes, 0);
      NothingToDivide(sizes[1..]);
    }
  }

  lemma OneOrNone(size: nat, unit: nat)
    requires 0 < size <= unit
    ensures size == unit ==> size / unit == 1 && size % unit == 0
    ensures size < unit ==> size / unit == 0 && size % unit == size
  {
  }

  lemma {:induction false} DivideOneSize(sizes: seq<nat>, size: nat)
    requires Positive(sizes) && Descending(sizes) && size in sizes
    ensures Remainder(sizes, size) == 0 && Pairs(sizes, Greedy(sizes, size)) == [(size, 1)]
  {
    var i :| 0 <= i < |sizes| && sizes[i] == size;
    OneOrNone(size, sizes[0]);
    DivideStep(sizes, size);
    if i == 0 {
      NothingToDivide(sizes[1..]);
    } else {
      assert sizes[1..][i - 1] == size;
      DivideOneSize(sizes[1..], size);
    }
  }

  /** An amount that is a package size is one package of it. */
  lemma OnePackage(size: nat)
    requires size in SIZES_DESC
    ensures Decompose(size) == Some([(size, 1)])
  {
    SizesDescend();
    DivideOneSize(SIZES_DESC, size);
  }

  /** Greedy is not complete: 360 is six packages of 60, yet it is refused. */
  lemma GreedyIsIncomplete()
    ensures Total(SIZES_DESC, [0, 0, 0, 0, 0, 6]) == 360 && Decompose(360) == None
  {
    GreedyOfSizes(360);
    TotalOfSizes(0, 0, 0, 0, 0, 6);
  }

  /** Greedy is not minimal: 1980 is three packages of 660, yet four packages are used. */
  lemma GreedyIsNotMinimal()
    ensures Total(SIZES_DESC, [0, 0, 0, 3, 0, 0]) == 1980
    ensures Greedy(SIZES_DESC, 1980) == [0, 0, 1, 0, 0, 3] && Remainder(SIZES_DESC, 1980) == 0
  {
    GreedyOfSizes(1980);
    TotalOfSizes(0, 0, 0, 3, 0, 0);
  }

  lemma TotalOfSizes(a: nat, b: nat, c: nat, d: nat, e: nat, f: nat)
    ensures Total(SIZES_DESC, [a, b, c, d, e, f]) == 8100 * a + 3850 * b + 1800 * c + 660 * d + 325 * e + 60 * f
  {
    UnrollTotal(60, [], f, []);
    assert [60] + [] == [60] && [f] + [] == [f];
    UnrollTotal(325, [60], e, [f]);
    assert [325] + [60] == [325, 60] && [e] + [f] == [e, f];
    UnrollTotal(660, [325, 60], d, [e, f]);
    assert [660] + [325, 60] == [660, 325, 60] && [d] + [e, f] == [d, e, f];
    UnrollTotal(1800, [660, 325, 60], c, [d, e, f]);
    assert [1800] + [660, 325, 60] == [1800, 660, 325, 60] && [c] + [d, e, f] == [c, d, e, f];
    UnrollTotal(3850, [1800, 660, 325, 60], b, [c, d, e, f]);
    assert [3850] + [1800, 660, 325, 60] == [3850, 1800, 660, 325, 60] && [b] + [c, d, e, f] == [b, c, d, e, f];
    UnrollTotal(8100, [3850, 1800, 660, 325, 60], a, [b, c, d, e, f]);
    assert [8100] + [3850, 1800, 660, 325, 60] == SIZES_DESC && [a] + [b, c, d, e, f] == [a, b, c, d, e, f];
  }
}
