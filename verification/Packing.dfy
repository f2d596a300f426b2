/**
 The block producer (block-producer/src/main.rs): a pool of transactions is sorted by nonce, packed greedily
 under the block gas limit with 64-bit arithmetic, what does not fit goes back to the pool, and the blocks
 are chained by hash.
 */
module Packing {
  import opened Basics
  import opened StableSort

  const GAS_LIMIT: nat := 30_000_000
  const DEFAULT_GAS: nat := 21000

  /** A transaction; only its nonce and gas texts are looked at here. */
  datatype Tx = Tx(nonce: string, gas: string, body: string)

  // ----- Numbers written in hexadecimal -----

  predicate IsHex(c: char) { '0' <= c <= '9' || 'a' <= c <= 'f' || 'A' <= c <= 'F' }

  function HexDigit(c: char): nat
    requires IsHex(c)
  {
    if c <= '9' then c as int - '0' as int
    else if c <= 'F' then c as int - 'A' as int + 10
    else c as int - 'a' as int + 10
  }

  predicate AllHex(s: string) { forall i :: 0 <= i < |s| ==> IsHex(s[i]) }

  function HexValue(s: string): nat
    requires AllHex(s)
  {
    if s == [] then 0 else 16 * HexValue(Front(s)) + HexDigit(s[|s| - 1])
  }

  /** `trim_start_matches("0x")` takes off every leading "0x". */
  function TrimHex(s: string): string {
    if |s| >= 2 && s[0] == '0' && s[1] == 'x' then TrimHex(s[2..]) else s
  }

  /** `u64::from_str_radix(_, 16)`. */
  function ParseHex(s: string): (r: Option<nat>)
    ensures r.Some? ==> r.value < TWO_64
  {
    var digits := if s != [] && s[0] == '+' then s[1..] else s;
    if digits == [] || !AllHex(digits) then None
    else
      var v := HexValue(digits);
      if v < TWO_64 then Some(v) else None
  }

  function NonceOf(tx: Tx): (n: nat)
    ensures n < TWO_64
  {
    var n := ParseHex(TrimHex(tx.nonce));
    if n.Some? then n.value else 0
  }

  function GasOf(tx: Tx): (g: nat)
    ensures g < TWO_64
  {
    var g := ParseHex(TrimHex(tx.gas));
    if g.Some? then g.value else DEFAULT_GAS
  }

  // ----- Greedy packing -----

  datatype Packed<T> = Packed(selected: seq<T>, skipped: seq<T>, estimate: nat)

  /** One candidate: taken when the 64-bit sum of the estimate and its gas is within the limit. */
  function PackStep<T>(gas: T -> nat, limit: nat, p: Packed<T>, x: T): Packed<T> {
    var sum := (p.estimate + gas(x)) % TWO_64;
    if sum <= limit then Packed(p.selected + [x], p.skipped, sum) else p.(skipped := p.skipped + [x])
  }

  function Pack<T>(gas: T -> nat, limit: nat, s: seq<T>): Packed<T> {
    if s == [] then Packed([], [], 0) else PackStep(gas, limit, Pack(gas, limit, Front(s)), Last(s))
  }

  lemma PackNext<T>(gas: T -> nat, limit: nat, s: seq<T>, i: nat)
    requires i < |s|
    ensures Pack(gas, limit, s[..i + 1]) == PackStep(gas, limit, Pack(gas, limit, s[..i]), s[i])
  {
    assert Front(s[..i + 1]) == s[..i];
  }

  /** The estimate an unbounded sum would give. */
  function ExactEstimate<T>(gas: T -> nat, limit: nat, s: seq<T>): nat {
    if s == [] then 0
    else
      var before := ExactEstimate(gas, limit, Front(s));
      if before + gas(Last(s)) <= limit then before + gas(Last(s)) else before
  }

  /** The 64-bit sum overflows at no candidate. */
  predicate NoWrap<T>(gas: T -> nat, limit: nat, s: seq<T>) {
    s != [] ==> NoWrap(gas, limit, Front(s)) && ExactEstimate(gas, limit, Front(s)) + gas(Last(s)) < TWO_64
  }

  function Total<T>(gas: T -> nat, s: seq<T>): nat {
    if s == [] then 0 else Total(gas, Front(s)) + gas(Last(s))
  }

  /** `a` is `s` with some elements left out. */
  predicate Subsequence<T(==)>(a: seq<T>, s: seq<T>) {
    if a == [] then true
    else if s == [] then false
    else (Last(a) == Last(s) && Subsequence(Front(a), Front(s))) || Subsequence(a, Front(s))
  }

  lemma SubsequenceGrows<T>(a: seq<T>, s: seq<T>, x: T)
    requires Subsequence(a, s)
    ensures Subsequence(a + [x], s + [x]) && Subsequence(a, s + [x])
  {
    assert Front(s + [x]) == s && Front(a + [x]) == a;
  }

  ghost predicate SplitInto<T(!new)>(a: seq<T>, b: seq<T>, s: seq<T>) {
    multiset(a) + multiset(b) == multiset(s) && Subsequence(a, s) && Subsequence(b, s)
  }

  lemma SplitGrows<T(!new)>(a: seq<T>, b: seq<T>, s: seq<T>, x: T)
    requires SplitInto(a, b, s)
    ensures SplitInto(a + [x], b, s + [x]) && SplitInto(a, b + [x], s + [x])
  {
    SubsequenceGrows(a, s, x);
    SubsequenceGrows(b, s, x);
    CountedIn(a, b, s, x);
  }

  lemma CountedIn<T>(a: seq<T>, b: seq<T>, s: seq<T>, x: T)
    requires multiset(a) + multiset(b) == multiset(s)
    ensures multiset(a + [x]) + multiset(b) == multiset(s + [x]) && multiset(a) + multiset(b + [x]) == multiset(s + [x])
  {
    assert multiset(s + [x]) == multiset(s) + multiset{x};
  }

  /** Selected and skipped together are the candidates, each in the candidates' order. */
  lemma {:induction false} PackSplits<T(!new)>(gas: T -> nat, limit: nat, s: seq<T>)
    ensures SplitInto(Pack(gas, limit, s).selected, Pack(gas, limit, s).skipped, s)
  {
    if s != [] {
      PackSplits(gas, limit, Front(s));
      assert s == Front(s) + [Last(s)];
      var p := Pack(gas, limit, Front(s));
      SplitGrows(p.selected, p.skipped, Front(s), Last(s));
    }
  }

  ghost predicate Greedy<T(!new)>(gas: T -> nat, limit: nat, p: Packed<T>, exact: nat) {
    && p.estimate == exact == Total(gas, p.selected) <= limit
    && forall x :: x in p.skipped ==> p.estimate + gas(x) > limit
  }

  lemma GreedyStep<T(!new)>(gas: T -> nat, limit: nat, p: Packed<T>, exact: nat, x: T)
    requires Greedy(gas, limit, p, exact) && exact + gas(x) < TWO_64
    ensures Greedy(gas, limit, PackStep(gas, limit, p, x), if exact + gas(x) <= limit then exact + gas(x) else exact)
  {
    assert (p.estimate + gas(x)) % TWO_64 == p.estimate + gas(x);
    assert Front(p.selected + [x]) == p.selected && Last(p.selected + [x]) == x;
  }

  /** While nothing overflows, the packing is the greedy one: the estimate is the gas of the selection, and a
      skipped transaction would not fit beside it. */
  lemma {:induction false} GreedyWithoutWrap<T(!new)>(gas: T -> nat, limit: nat, s: seq<T>)
    requires NoWrap(gas, limit, s)
    ensures Greedy(gas, limit, Pack(gas, limit, s), ExactEstimate(gas, limit, s))
  {
    if s != [] {
      GreedyWithoutWrap(gas, limit, Front(s));
      GreedyStep(gas, limit, Pack(gas, limit, Front(s)), ExactEstimate(gas, limit, Front(s)), Last(s));
    }
  }

  lemma {:induction false} TotalCovers<T>(gas: T -> nat, s: seq<T>, x: T)
    requires x in s
    ensures gas(x) <= Total(gas, s)
  {
    if x in Front(s) {
      TotalCovers(gas, Front(s), x);
    } else {
      assert s == Front(s) + [Last(s)];
    }
  }

  lemma WrapStep<T>(gas: T -> nat, limit: nat, p: Packed<T>, x: T)
    requires p.estimate <= limit < TWO_64 && gas(x) < TWO_64 <= p.estimate + gas(x)
    ensures PackStep(gas, limit, p, x).selected == p.selected + [x] && gas(x) >= TWO_64 - limit
  {
    assert (p.estimate + gas(x)) % TWO_64 == p.estimate + gas(x) - TWO_64;
  }

  /** An overflow selects a transaction far larger than the limit. */
  lemma {:induction false} WrapSelects<T(!new)>(gas: T -> nat, limit: nat, s: seq<T>) returns (x: T)
    requires !NoWrap(gas, limit, s) && limit < TWO_64 && forall y :: gas(y) < TWO_64
    ensures x in Pack(gas, limit, s).selected && gas(x) >= TWO_64 - limit
  {
    var p := Pack(gas, limit, Front(s));
    if NoWrap(gas, limit, Front(s)) {
      GreedyWithoutWrap(gas, limit, Front(s));
      WrapStep(gas, limit, p, Last(s));
      x := Last(s);
      assert x in p.selected + [x];
    } else {
      x := WrapSelects(gas, limit, Front(s));
    }
  }

  /** The selection keeps within the limit exactly when the sum overflows at no candidate. */
  lemma WithinLimitIff<T(!new)>(gas: T -> nat, limit: nat, s: seq<T>)
    requires limit < TWO_64 / 2 && forall y :: gas(y) < TWO_64
    ensures Total(gas, Pack(gas, limit, s).selected) <= limit <==> NoWrap(gas, limit, s)
  {
    if NoWrap(gas, limit, s) {
      GreedyWithoutWrap(gas, limit, s);
    } else {
      var x := WrapSelects(gas, limit, s);
      TotalCovers(gas, Pack(gas, limit, s).selected, x);
    }
  }

  /** The failing family, at its smallest: the second transaction alone is far over the limit, yet it is taken
      and the estimate drops to zero. */
  lemma WrapTakesBoth<T>(gas: T -> nat, limit: nat, x: T, y: T)
    requires 0 < gas(x) <= limit < TWO_64 && gas(y) == TWO_64 - gas(x)
    ensures Pack(gas, limit, [x, y]) == Packed([x, y], [], 0)
  {
    assert Front([x, y]) == [x] && Front([x]) == [];
    assert gas(x) % TWO_64 == gas(x) && (gas(x) + gas(y)) % TWO_64 == 0;
    assert Pack(gas, limit, [x]) == Packed([x], [], gas(x));
    assert [x] + [y] == [x, y];
  }

  /** No overflow when every gas leaves room for the limit. */
  lemma {:induction false} SmallGasNoWrap<T>(gas: T -> nat, limit: nat, s: seq<T>)
    requires forall y :: y in s ==> gas(y) + limit < TWO_64
    ensures NoWrap(gas, limit, s) && ExactEstimate(gas, limit, s) <= limit
  {
    if s != [] {
      assert forall y :: y in Front(s) ==> y in s;
      SmallGasNoWrap(gas, limit, Front(s));
      assert Last(s) in s;
    }
  }

  lemma FirstCandidate<T>(gas: T -> nat, limit: nat, p: Packed<T>, x: T)
    requires p.estimate == 0 && gas(x) < TWO_64
    ensures PackStep(gas, limit, p, x) == if gas(x) <= limit then Packed(p.selected + [x], p.skipped, gas(x)) else p.(skipped := p.skipped + [x])
  {
    assert gas(x) % TWO_64 == gas(x);
  }

  /** Nothing is taken exactly when no candidate fits the limit on its own. */
  lemma {:induction false} PacksNothingIff<T>(gas: T -> nat, limit: nat, s: seq<T>)
    requires limit < TWO_64 && forall y :: y in s ==> gas(y) < TWO_64
    ensures Pack(gas, limit, s).selected == [] <==> forall y :: y in s ==> gas(y) > limit
    ensures Pack(gas, limit, s).selected == [] ==> Pack(gas, limit, s).estimate == 0
  {
    if s != [] {
      var p := Pack(gas, limit, Front(s));
      assert s == Front(s) + [Last(s)];
      PacksNothingIff(gas, limit, Front(s));
      if p.selected == [] { FirstCandidate(gas, limit, p, Last(s)); }
    }
  }

  // ----- Rounds over a pool -----

  function Reverse<T>(s: seq<T>): seq<T> {
    if s == [] then [] else [Last(s)] + Reverse(Front(s))
  }

  lemma {:induction false} ReverseContents<T>(s: seq<T>)
    ensures multiset(Reverse(s)) == multiset(s) && |Reverse(s)| == |s|
  {
    if s != [] {
      ReverseContents(Front(s));
      assert s == Front(s) + [Last(s)];
    }
  }

  /** One selection: the pool sorted by nonce and packed. */
  function Chosen<T>(key: T -> nat, gas: T -> nat, limit: nat, pool: seq<T>): Packed<T> {
    Pack(gas, limit, Sorted(key, pool))
  }

  /** What it leaves in the pool: each skipped transaction is pushed to the front. */
  function Left<T>(key: T -> nat, gas: T -> nat, limit: nat, pool: seq<T>): seq<T> {
    Reverse(Chosen(key, gas, limit, pool).skipped)
  }

  /** Nothing is lost and nothing is doubled by a selection. */
  lemma ChosenConserves<T(!new)>(key: T -> nat, gas: T -> nat, limit: nat, pool: seq<T>)
    ensures multiset(Chosen(key, gas, limit, pool).selected) + multiset(Left(key, gas, limit, pool)) == multiset(pool)
  {
    SortedIsStable(key, pool);
    PackSplits(gas, limit, Sorted(key, pool));
    ReverseContents(Chosen(key, gas, limit, pool).skipped);
  }

  lemma WithKeyStep<T>(key: T -> nat, s: seq<T>, n: nat)
    requires s != []
    ensures WithKey(key, s, n) == if key(Last(s)) == n then WithKey(key, Front(s), n) + [Last(s)] else WithKey(key, Front(s), n)
  {
  }

  lemma {:induction false} SubsequenceWithKey<T>(key: T -> nat, a: seq<T>, s: seq<T>, n: nat)
    requires Subsequence(a, s)
    ensures Subsequence(WithKey(key, a, n), WithKey(key, s, n))
    decreases |s|
  {
    if a != [] {
      WithKeyStep(key, a, n);
      WithKeyStep(key, s, n);
      if Last(a) == Last(s) && Subsequence(Front(a), Front(s)) {
        SubsequenceWithKey(key, Front(a), Front(s), n);
        if key(Last(s)) == n { SubsequenceGrows(WithKey(key, Front(a), n), WithKey(key, Front(s), n), Last(s)); }
      } else {
        SubsequenceWithKey(key, a, Front(s), n);
        if key(Last(s)) == n { SubsequenceGrows(WithKey(key, a, n), WithKey(key, Front(s), n), Last(s)); }
      }
    }
  }

  lemma {:induction false} SubsequenceMembers<T>(a: seq<T>, s: seq<T>, x: T)
    requires Subsequence(a, s) && x in a
    ensures x in s
    decreases |s|
  {
    assert s == Front(s) + [Last(s)] && a == Front(a) + [Last(a)];
    if Last(a) == Last(s) && Subsequence(Front(a), Front(s)) {
      if x != Last(a) { SubsequenceMembers(Front(a), Front(s), x); }
    } else {
      SubsequenceMembers(a, Front(s), x);
    }
  }

  lemma {:induction false} SubsequenceInOrder<T>(key: T -> nat, a: seq<T>, s: seq<T>)
    requires Subsequence(a, s) && InOrder(key, s)
    ensures InOrder(key, a)
    decreases |s|
  {
    if a != [] {
      if Last(a) == Last(s) && Subsequence(Front(a), Front(s)) {
        SubsequenceInOrder(key, Front(a), Front(s));
        forall y | y in Front(a) ensures key(y) <= key(Last(a)) {
          SubsequenceMembers(Front(a), Front(s), y);
        }
        AppendedInOrder(key, Front(a), Last(a));
        assert a == Front(a) + [Last(a)];
      } else {
        SubsequenceInOrder(key, a, Front(s));
      }
    }
  }

  /** The selection is in nonce order, and transactions of the same nonce keep their order in the pool. */
  lemma ChosenStable<T(!new)>(key: T -> nat, gas: T -> nat, limit: nat, pool: seq<T>, n: nat)
    ensures var chosen := Chosen(key, gas, limit, pool).selected;
            InOrder(key, chosen) && Subsequence(WithKey(key, chosen, n), WithKey(key, pool, n))
  {
    SortedIsStable(key, pool);
    PackSplits(gas, limit, Sorted(key, pool));
    SubsequenceInOrder(key, Chosen(key, gas, limit, pool).selected, Sorted(key, pool));
    SubsequenceWithKey(key, Chosen(key, gas, limit, pool).selected, Sorted(key, pool), n);
  }

  lemma {:induction false} WithKeyConcat<T>(key: T -> nat, s: seq<T>, t: seq<T>, n: nat)
    ensures WithKey(key, s + t, n) == WithKey(key, s, n) + WithKey(key, t, n)
  {
    if t == [] {
      assert s + t == s;
    } else {
      WithKeyConcat(key, s, Front(t), n);
      assert Front(s + t) == s + Front(t) && Last(s + t) == Last(t);
    }
  }

  lemma ReverseAppend<T>(s: seq<T>, x: T)
    ensures Reverse(s + [x]) == [x] + Reverse(s)
  {
    assert Front(s + [x]) == s;
  }

  lemma WithKeyOne<T>(key: T -> nat, x: T, n: nat)
    ensures WithKey(key, [x], n) == if key(x) == n then [x] else []
  {
    WithKeyStep(key, [x], n);
    assert Front([x]) == [] && [] + [x] == [x];
  }

  lemma {:induction false} ReverseWithKey<T>(key: T -> nat, s: seq<T>, n: nat)
    ensures WithKey(key, Reverse(s), n) == Reverse(WithKey(key, s, n))
  {
    if s != [] {
      var x, f, back := Last(s), WithKey(key, Front(s), n), Reverse(Front(s));
      ReverseWithKey(key, Front(s), n);
      WithKeyConcat(key, [x], back, n);
      WithKeyOne(key, x, n);
      WithKeyStep(key, s, n);
      if key(x) == n {
        ReverseAppend(f, x);
      } else {
        assert [] + Reverse(f) == Reverse(f);
      }
    }
  }

  /** In the next round the skipped transactions of a nonce stand in the opposite order. */
  lemma SkippedComeBackReversed<T(!new)>(key: T -> nat, gas: T -> nat, limit: nat, pool: seq<T>, n: nat)
    ensures WithKey(key, Sorted(key, Left(key, gas, limit, pool)), n)
            == Reverse(WithKey(key, Chosen(key, gas, limit, pool).skipped, n))
  {
    SortedIsStable(key, Left(key, gas, limit, pool));
    ReverseWithKey(key, Chosen(key, gas, limit, pool).skipped, n);
  }

  function Iterate<S>(step: S -> S, start: S, n: nat): S {
    if n == 0 then start else step(Iterate(step, start, n - 1))
  }

  lemma {:induction false} IterateKeeps<S(!new)>(step: S -> S, start: S, n: nat, inv: (S, nat) -> bool)
    requires inv(start, 0) && forall s, k: nat :: inv(s, k) ==> inv(step(s), k + 1)
    ensures inv(Iterate(step, start, n), n)
  {
    if n > 0 { IterateKeeps(step, start, n - 1, inv); }
  }

  function Selection<T>(key: T -> nat, gas: T -> nat, limit: nat): seq<T> -> seq<T> {
    pool => Left(key, gas, limit, pool)
  }

  /** Selections repeated without new transactions. */
  function After<T>(key: T -> nat, gas: T -> nat, limit: nat, pool: seq<T>, rounds: nat): seq<T> {
    Iterate(Selection(key, gas, limit), pool, rounds)
  }

  /** The pool holds no gas whose sum with the limit overflows. */
  ghost predicate Modest<T(!new)>(gas: T -> nat, limit: nat, pool: seq<T>) {
    forall y :: y in pool ==> gas(y) + limit < TWO_64
  }

  /** A round without overflow takes at least one transaction if any fits, and none that is over the limit. */
  lemma RoundProgress<T(!new)>(key: T -> nat, gas: T -> nat, limit: nat, pool: seq<T>)
    requires Modest(gas, limit, pool)
    ensures var left := Left(key, gas, limit, pool);
            && (forall y :: y in left ==> y in pool)
            && (forall y :: y in pool && gas(y) > limit ==> y in left)
            && ((exists y :: y in pool && gas(y) <= limit) ==> |left| < |pool|)
            && |left| <= |pool|
  {
    var candidates, p := Sorted(key, pool), Chosen(key, gas, limit, pool);
    var left := Left(key, gas, limit, pool);
    ChosenConserves(key, gas, limit, pool);
    SortedIsStable(key, pool);
    forall y | y in candidates ensures gas(y) + limit < TWO_64 { assert y in multiset(candidates); }
    SmallGasNoWrap(gas, limit, candidates);
    GreedyWithoutWrap(gas, limit, candidates);
    forall y | y in left ensures y in pool { assert y in multiset(left); assert y in multiset(pool); }
    forall y | y in pool && gas(y) > limit ensures y in left {
      if y in p.selected { TotalCovers(gas, p.selected, y); }
      assert y in multiset(pool);
    }
    assert |multiset(p.selected)| + |multiset(left)| == |multiset(pool)|;
    forall y | y in pool && gas(y) <= limit ensures p.selected != [] {
      assert y in multiset(pool);
      if p.selected == [] { assert y in multiset(left); SkippedInLeft(p.skipped, y); }
    }
  }

  lemma SkippedInLeft<T>(skipped: seq<T>, y: T)
    requires y in multiset(Reverse(skipped))
    ensures y in skipped
  {
    ReverseContents(skipped);
    assert y in multiset(skipped);
  }

  /** What `rounds` rounds leave of a pool. */
  ghost predicate Shrunk<T(!new)>(gas: T -> nat, limit: nat, pool: seq<T>, rounds: nat, left: seq<T>) {
    && (forall y :: y in left ==> y in pool)
    && (forall y :: y in pool && gas(y) > limit ==> y in left)
    && (AllFit(gas, limit, pool) ==> |left| <= Max(0, |pool| - rounds))
  }

  ghost predicate AllFit<T(!new)>(gas: T -> nat, limit: nat, pool: seq<T>) {
    forall y :: y in pool ==> gas(y) <= limit
  }

  lemma ShrinksOnce<T(!new)>(key: T -> nat, gas: T -> nat, limit: nat, pool: seq<T>, rounds: nat, before: seq<T>)
    requires Modest(gas, limit, pool) && Shrunk(gas, limit, pool, rounds, before)
    ensures Shrunk(gas, limit, pool, rounds + 1, Left(key, gas, limit, before))
  {
    RoundProgress(key, gas, limit, before);
    if AllFit(gas, limit, pool) && before != [] { assert before[0] in before; }
  }

  lemma AfterShrinks<T(!new)>(key: T -> nat, gas: T -> nat, limit: nat, pool: seq<T>, rounds: nat)
    requires Modest(gas, limit, pool)
    ensures Shrunk(gas, limit, pool, rounds, After(key, gas, limit, pool, rounds))
  {
    var step, inv := Selection(key, gas, limit), (left: seq<T>, k: nat) => Shrunk(gas, limit, pool, k, left);
    forall left, k: nat | inv(left, k) ensures inv(step(left), k + 1) {
      ShrinksOnce(key, gas, limit, pool, k, left);
    }
    IterateKeeps(step, pool, rounds, inv);
  }

  /** Without new transactions and without overflow, the pool is empty after as many rounds as it had
      transactions exactly when each of them fits the limit alone; any other stays forever. */
  lemma DrainsIff<T(!new)>(key: T -> nat, gas: T -> nat, limit: nat, pool: seq<T>)
    requires Modest(gas, limit, pool)
    ensures After(key, gas, limit, pool, |pool|) == [] <==> AllFit(gas, limit, pool)
    ensures forall y, rounds: nat :: y in pool && gas(y) > limit ==> y in After(key, gas, limit, pool, rounds)
  {
    AfterShrinks(key, gas, limit, pool, |pool|);
    forall y, rounds: nat | y in pool && gas(y) > limit ensures y in After(key, gas, limit, pool, rounds) {
      AfterShrinks(key, gas, limit, pool, rounds);
    }
    if !AllFit(gas, limit, pool) {
      var y :| y in pool && gas(y) > limit;
      assert y in After(key, gas, limit, pool, |pool|);
    }
  }

  /** In nonce order, the pool shared out between the selection and what stays, within the limit exactly when the
      64-bit sum overflows nowhere, and then nothing that stays would fit. */
  ghost predicate Sound(pool: seq<Tx>, selected: seq<Tx>, left: seq<Tx>) {
    && InOrder(NonceOf, selected)
    && multiset(selected) + multiset(left) == multiset(pool)
    && (Total(GasOf, selected) <= GAS_LIMIT <==> NoWrap(GasOf, GAS_LIMIT, Sorted(NonceOf, pool)))
    && (NoWrap(GasOf, GAS_LIMIT, Sorted(NonceOf, pool)) ==>
          forall x :: x in left ==> Total(GasOf, selected) + GasOf(x) > GAS_LIMIT)
  }

  /** So is the selection the producer makes. */
  lemma SelectionSound(pool: seq<Tx>)
    ensures Sound(pool, Chosen(NonceOf, GasOf, GAS_LIMIT, pool).selected, Left(NonceOf, GasOf, GAS_LIMIT, pool))
  {
    var p, left := Chosen(NonceOf, GasOf, GAS_LIMIT, pool), Left(NonceOf, GasOf, GAS_LIMIT, pool);
    ChosenStable(NonceOf, GasOf, GAS_LIMIT, pool, 0);
    ChosenConserves(NonceOf, GasOf, GAS_LIMIT, pool);
    WithinLimitIff(GasOf, GAS_LIMIT, Sorted(NonceOf, pool));
    if NoWrap(GasOf, GAS_LIMIT, Sorted(NonceOf, pool)) {
      GreedyWithoutWrap(GasOf, GAS_LIMIT, Sorted(NonceOf, pool));
      forall x | x in left ensures x in p.skipped {
        assert x in multiset(left);
        SkippedInLeft(p.skipped, x);
      }
    }
  }
}
