/**
 Producing blocks round after round (block-producer/src/main.rs): the pool is refilled from the log, a
 selection becomes a block on top of the last one, and the execution layer accepts or refuses it.
 */
module Producer {
  import opened Basics
  import opened Packing
  import opened StableSort

  type Digest = string

  const GENESIS: Digest := "0x0000000000000000000000000000000000000000000000000000000000000000"

  /** State, transaction and receipt roots and the gas used, filled in by the execution layer. */
  datatype Roots = Roots(state: Digest, transactions: Digest, receipts: Digest, gasUsed: nat)

  datatype Header = Header(number: nat, parent: Digest, count: nat, roots: Option<Roots>)

  datatype Block = Block(header: Header, txs: seq<Tx>)

  /** An answer of the log: a transaction, a text that is none, nothing more, or an error. */
  datatype Reply = Parsed(tx: Tx) | Garbage | Nothing | Failure

  /** One round: what the log answers, and what the execution layer makes of the block. */
  datatype Tick = Tick(feed: seq<Reply>, submitted: Option<Roots>)

  datatype State = State(
    pool: seq<Tx>,
    number: nat,
    lastHash: Digest,
    chain: seq<Block>,        // history: accepted blocks
    fetched: seq<Tx>,         // history: transactions taken from the log
    lost: seq<Tx>)            // history: transactions of refused blocks

  // ----- Refilling -----

  datatype Refilled = Refilled(pool: seq<Tx>, fetched: seq<Tx>, ok: bool)

  /** `refill_pool`: asks until the pool is full, the log has nothing more, or an error comes. */
  function Refill(pool: seq<Tx>, max: nat, feed: seq<Reply>): Refilled
    decreases |feed|
  {
    if |pool| >= max || feed == [] then Refilled(pool, [], true)
    else
      match feed[0]
      case Parsed(tx) =>
        var r := Refill(pool + [tx], max, feed[1..]);
        r.(fetched := [tx] + r.fetched)
      case Garbage => Refill(pool, max, feed[1..])
      case Nothing => Refilled(pool, [], true)
      case Failure => Refilled(pool, [], false)
  }

  /** What was in the pool stays in front, what is fetched goes behind it, and it does not overfill. */
  lemma {:induction false} RefillAppends(pool: seq<Tx>, max: nat, feed: seq<Reply>)
    ensures var r := Refill(pool, max, feed);
            r.pool == pool + r.fetched && |r.pool| <= Max(|pool|, max)
    decreases |feed|
  {
    if |pool| < max && feed != [] {
      match feed[0] {
        case Parsed(tx) =>
          RefillAppends(pool + [tx], max, feed[1..]);
          var r := Refill(pool + [tx], max, feed[1..]);
          assert (pool + [tx]) + r.fetched == pool + ([tx] + r.fetched);
        case Garbage => RefillAppends(pool, max, feed[1..]);
        case _ =>
      }
    }
  }

  // ----- Reference: what the log offers -----

  /** The transactions before the log's first "nothing more" or error; texts that are none are passed over. */
  function Offered(feed: seq<Reply>): seq<Tx> {
    if feed == [] then []
    else
      match feed[0]
      case Parsed(tx) => [tx] + Offered(feed[1..])
      case Garbage => Offered(feed[1..])
      case _ => []
  }

  /** An error comes before any "nothing more". */
  predicate EndsInFailure(feed: seq<Reply>) {
    feed != [] && (feed[0].Failure? || (!feed[0].Nothing? && EndsInFailure(feed[1..])))
  }

  function Room(pool: seq<Tx>, max: nat): nat { if |pool| < max then max - |pool| else 0 }

  function FirstOf<T>(s: seq<T>, n: nat): seq<T> { if n < |s| then s[..n] else s }

  /** A refill takes the first of the offered transactions, as many as there is room for, and fails exactly when
      an error comes while there is still room. */
  lemma {:induction false} RefillTakes(pool: seq<Tx>, max: nat, feed: seq<Reply>)
    ensures Refill(pool, max, feed).fetched == FirstOf(Offered(feed), Room(pool, max))
    ensures Refill(pool, max, feed).ok <==> !(EndsInFailure(feed) && |Offered(feed)| < Room(pool, max))
    decreases |feed|
  {
    if |pool| < max && feed != [] {
      match feed[0] {
        case Parsed(tx) =>
          RefillTakes(pool + [tx], max, feed[1..]);
          var rest, n := Offered(feed[1..]), Room(pool, max);
          assert FirstOf([tx] + rest, n) == [tx] + FirstOf(rest, n - 1);
        case Garbage => RefillTakes(pool, max, feed[1..]);
        case _ =>
      }
    }
  }

  // ----- One round -----

  function Produce(hash: Header -> Digest, max: nat, s: State, tick: Tick): State {
    var refilled := Refill(s.pool, max, tick.feed);
    var t := s.(pool := refilled.pool, fetched := s.fetched + refilled.fetched);
    if !refilled.ok then t
    else
      var selected := Chosen(NonceOf, GasOf, GAS_LIMIT, t.pool).selected;
      var u := t.(pool := Left(NonceOf, GasOf, GAS_LIMIT, t.pool));
      if selected == [] then u
      else
        match tick.submitted
        case None => u.(lost := u.lost + selected)
        case Some(roots) =>
          var block := Block(Header(s.number, s.lastHash, |selected|, Some(roots)), selected);
          u.(number := s.number + 1, lastHash := hash(block.header), chain := s.chain + [block])
  }

  function Rounds(hash: Header -> Digest, max: nat, ticks: seq<Tick>): State {
    if ticks == [] then State([], 0, GENESIS, [], [], [])
    else Produce(hash, max, Rounds(hash, max, Front(ticks)), Last(ticks))
  }

  /** Some transaction of the pool fits a block on its own. */
  ghost predicate SomeFits(pool: seq<Tx>) { exists tx :: tx in pool && GasOf(tx) <= GAS_LIMIT }

  lemma ChosenEmptyIff(pool: seq<Tx>)
    ensures Chosen(NonceOf, GasOf, GAS_LIMIT, pool).selected != [] <==> SomeFits(pool)
  {
    var candidates := Sorted(NonceOf, pool);
    SortedIsStable(NonceOf, pool);
    PacksNothingIff(GasOf, GAS_LIMIT, candidates);
    forall tx ensures tx in candidates <==> tx in pool {
      assert tx in multiset(candidates) <==> tx in multiset(pool);
    }
  }

  /** The log gave no error before the pool was full, and some transaction now in it fits a block. */
  ghost predicate Packable(pool: seq<Tx>, max: nat, feed: seq<Reply>) {
    && !(EndsInFailure(feed) && |Offered(feed)| < Room(pool, max))
    && SomeFits(pool + FirstOf(Offered(feed), Room(pool, max)))
  }

  /** A round adds a block exactly when something can be packed and the execution layer accepts it; the block
      carries the roots that layer reported. It loses transactions exactly when that layer refuses them. */
  lemma RoundOutcome(hash: Header -> Digest, max: nat, s: State, tick: Tick)
    ensures var t, packable := Produce(hash, max, s, tick), Packable(s.pool, max, tick.feed);
            && (packable && tick.submitted.Some? ==>
                  && |t.chain| == |s.chain| + 1 && s.chain == Front(t.chain) && t.number == s.number + 1
                  && Last(t.chain).header.roots == tick.submitted && Last(t.chain).txs != [])
            && (!(packable && tick.submitted.Some?) ==> t.chain == s.chain && t.number == s.number && t.lastHash == s.lastHash)
            && (t.lost != s.lost <==> packable && tick.submitted.None?)
  {
    var r := Refill(s.pool, max, tick.feed);
    RefillTakes(s.pool, max, tick.feed);
    RefillAppends(s.pool, max, tick.feed);
    ChosenEmptyIff(r.pool);
  }

  // ----- What every run keeps -----

  function Included(chain: seq<Block>): seq<Tx> {
    if chain == [] then [] else Included(Front(chain)) + Last(chain).txs
  }

  function ParentOf(hash: Header -> Digest, chain: seq<Block>, i: nat): Digest
    requires i <= |chain|
  {
    if i == 0 then GENESIS else hash(chain[i - 1].header)
  }

  /** Blocks are numbered from 0 and each names the hash of the one before it; none is empty, and each is in
      nonce order. */
  ghost predicate Linked(hash: Header -> Digest, s: State) {
    && s.number == |s.chain| && s.lastHash == ParentOf(hash, s.chain, |s.chain|)
    && forall i :: 0 <= i < |s.chain| ==> BlockOk(hash, s.chain, i)
  }

  ghost predicate BlockOk(hash: Header -> Digest, chain: seq<Block>, i: nat)
    requires i < |chain|
  {
    var b := chain[i];
    && b.header.number == i && b.header.parent == ParentOf(hash, chain, i)
    && b.header.count == |b.txs| > 0 && InOrder(NonceOf, b.txs)
  }

  /** Every transaction fetched is in the pool, in a block of the chain, or in a refused block. */
  ghost predicate Conserved(s: State) {
    multiset(s.fetched) == multiset(s.pool) + multiset(Included(s.chain)) + multiset(s.lost)
  }

  lemma LinkedGrows(hash: Header -> Digest, s: State, t: State, b: Block)
    requires Linked(hash, s) && t.chain == s.chain + [b] && t.number == s.number + 1 && t.lastHash == hash(b.header)
    requires b.header.number == s.number && b.header.parent == s.lastHash
    requires b.header.count == |b.txs| > 0 && InOrder(NonceOf, b.txs)
    ensures Linked(hash, t)
  {
    forall i | 0 <= i < |t.chain| ensures BlockOk(hash, t.chain, i) {
      if i < |s.chain| { assert BlockOk(hash, s.chain, i); }
    }
  }

  lemma ProduceLinks(hash: Header -> Digest, max: nat, s: State, tick: Tick)
    requires Linked(hash, s)
    ensures Linked(hash, Produce(hash, max, s, tick))
  {
    var pool := Refill(s.pool, max, tick.feed).pool;
    ChosenStable(NonceOf, GasOf, GAS_LIMIT, pool, 0);
    var t := Produce(hash, max, s, tick);
    if t.chain != s.chain {
      LinkedGrows(hash, s, t, Last(t.chain));
    } else {
      assert forall i :: 0 <= i < |s.chain| ==> BlockOk(hash, s.chain, i);
    }
  }

  /** The accounts of a round: `r` is fetched, `sel` leaves the pool, `q` stays. */
  lemma Balance<T>(f: multiset<T>, p: multiset<T>, i: multiset<T>, l: multiset<T>, r: multiset<T>, sel: multiset<T>, q: multiset<T>)
    requires f == p + i + l && sel + q == p + r
    ensures f + r == (p + r) + i + l && f + r == q + (i + sel) + l && f + r == q + i + (l + sel)
  {
  }

  lemma SumContents<T>(a: seq<T>, b: seq<T>)
    ensures multiset(a + b) == multiset(a) + multiset(b)
  {
  }

  lemma IncludedMore(chain: seq<Block>, b: Block)
    ensures Included(chain + [b]) == Included(chain) + b.txs
  {
    assert Front(chain + [b]) == chain;
  }

  /** The four ways a round can end. */
  ghost predicate Ended(s: State, t: State, fetched: seq<Tx>, pool: seq<Tx>, sel: seq<Tx>, left: seq<Tx>) {
    && t.fetched == s.fetched + fetched
    && ( (t.pool == pool && t.chain == s.chain && t.lost == s.lost)
      || (t.pool == left && sel == [] && t.chain == s.chain && t.lost == s.lost)
      || (t.pool == left && t.chain == s.chain && t.lost == s.lost + sel)
      || (t.pool == left && t.lost == s.lost && Included(t.chain) == Included(s.chain) + sel))
  }

  lemma ProduceEnds(hash: Header -> Digest, max: nat, s: State, tick: Tick)
    ensures var r := Refill(s.pool, max, tick.feed);
            Ended(s, Produce(hash, max, s, tick), r.fetched, r.pool,
                  Chosen(NonceOf, GasOf, GAS_LIMIT, r.pool).selected, Left(NonceOf, GasOf, GAS_LIMIT, r.pool))
  {
    var t := Produce(hash, max, s, tick);
    if t.chain != s.chain { IncludedMore(s.chain, Last(t.chain)); }
  }

  lemma EndedConserves(s: State, t: State, fetched: seq<Tx>, pool: seq<Tx>, sel: seq<Tx>, left: seq<Tx>)
    requires Conserved(s) && Ended(s, t, fetched, pool, sel, left)
    requires pool == s.pool + fetched && multiset(sel) + multiset(left) == multiset(pool)
    ensures Conserved(t)
  {
    SumContents(s.fetched, fetched);
    SumContents(s.pool, fetched);
    SumContents(Included(s.chain), sel);
    SumContents(s.lost, sel);
    Balance(multiset(s.fetched), multiset(s.pool), multiset(Included(s.chain)), multiset(s.lost), multiset(fetched), multiset(sel), multiset(left));
  }

  lemma ProduceConserves(hash: Header -> Digest, max: nat, s: State, tick: Tick)
    requires Conserved(s)
    ensures Conserved(Produce(hash, max, s, tick))
  {
    var r := Refill(s.pool, max, tick.feed);
    RefillAppends(s.pool, max, tick.feed);
    ChosenConserves(NonceOf, GasOf, GAS_LIMIT, r.pool);
    ProduceEnds(hash, max, s, tick);
    EndedConserves(s, Produce(hash, max, s, tick), r.fetched, r.pool,
                   Chosen(NonceOf, GasOf, GAS_LIMIT, r.pool).selected, Left(NonceOf, GasOf, GAS_LIMIT, r.pool));
  }

  /** What the producer took from the log, read off the ticks: in each round the first of the offered
      transactions, as many as there was room for. */
  function TakenFromLog(hash: Header -> Digest, max: nat, ticks: seq<Tick>): seq<Tx> {
    if ticks == [] then []
    else
      var pool := Rounds(hash, max, Front(ticks)).pool;
      TakenFromLog(hash, max, Front(ticks)) + FirstOf(Offered(Last(ticks).feed), Room(pool, max))
  }

  lemma {:induction false} FetchedIsTaken(hash: Header -> Digest, max: nat, ticks: seq<Tick>)
    ensures Rounds(hash, max, ticks).fetched == TakenFromLog(hash, max, ticks)
  {
    if ticks != [] {
      FetchedIsTaken(hash, max, Front(ticks));
      RefillTakes(Rounds(hash, max, Front(ticks)).pool, max, Last(ticks).feed);
    }
  }

  /** Over every run of rounds the blocks form one chain, and every transaction taken from the log is in the
      pool, in a block of the chain, or in a refused block. */
  lemma {:induction false} RunSound(hash: Header -> Digest, max: nat, ticks: seq<Tick>)
    ensures var s := Rounds(hash, max, ticks);
            && Linked(hash, s)
            && multiset(TakenFromLog(hash, max, ticks)) == multiset(s.pool) + multiset(Included(s.chain)) + multiset(s.lost)
  {
    RunKeeps(hash, max, ticks);
    FetchedIsTaken(hash, max, ticks);
  }

  lemma {:induction false} RunKeeps(hash: Header -> Digest, max: nat, ticks: seq<Tick>)
    ensures Linked(hash, Rounds(hash, max, ticks)) && Conserved(Rounds(hash, max, ticks))
  {
    if ticks != [] {
      RunKeeps(hash, max, Front(ticks));
      ProduceLinks(hash, max, Rounds(hash, max, Front(ticks)), Last(ticks));
      ProduceConserves(hash, max, Rounds(hash, max, Front(ticks)), Last(ticks));
    }
  }

  /** All the log offered over a run. */
  function AllOffered(ticks: seq<Tick>): seq<Tx> {
    if ticks == [] then [] else AllOffered(Front(ticks)) + Offered(Last(ticks).feed)
  }

  /** The pool never had to refuse an offer. */
  ghost predicate AlwaysRoom(hash: Header -> Digest, max: nat, ticks: seq<Tick>) {
    ticks != [] ==>
      && AlwaysRoom(hash, max, Front(ticks))
      && |Offered(Last(ticks).feed)| <= Room(Rounds(hash, max, Front(ticks)).pool, max)
  }

  /** With room in every round, all the log ever offered was taken, in order; without, something was left. */
  lemma {:induction false} AllTakenIff(hash: Header -> Digest, max: nat, ticks: seq<Tick>)
    ensures TakenFromLog(hash, max, ticks) == AllOffered(ticks) <==> AlwaysRoom(hash, max, ticks)
    ensures |TakenFromLog(hash, max, ticks)| <= |AllOffered(ticks)|
  {
    if ticks != [] {
      AllTakenIff(hash, max, Front(ticks));
      var before, all := TakenFromLog(hash, max, Front(ticks)), AllOffered(Front(ticks));
      var offered, n := Offered(Last(ticks).feed), Room(Rounds(hash, max, Front(ticks)).pool, max);
      if before + FirstOf(offered, n) == all + offered {
        assert |before| == |all|;
        assert before == (before + FirstOf(offered, n))[..|all|];
        assert all == (all + offered)[..|all|];
      }
    }
  }

  // ----- The producer object -----

  class BlockProducer {
    const max: nat
    var pool: seq<Tx>
    var number: nat
    var lastHash: Digest
    ghost var chain: seq<Block>
    ghost var fetched: seq<Tx>
    ghost var lost: seq<Tx>

    ghost function S(): State
      reads this
    {
      State(pool, number, lastHash, chain, fetched, lost)
    }

    /** The pool holds ten blocks' worth of transactions. */
    constructor (maxPerBlock: nat)
      ensures max == 10 * maxPerBlock && forall hash: Header -> Digest :: S() == Rounds(hash, max, [])
    {
      max := maxPerBlock * 10;
      pool, number, lastHash := [], 0, GENESIS;
      chain, fetched, lost := [], [], [];
    }

    method RefillPool(feed: seq<Reply>) returns (ok: bool)
      modifies this`pool, this`fetched
      ensures var r := Refill(old(pool), max, feed);
              pool == r.pool && fetched == old(fetched) + r.fetched && ok == r.ok
      ensures pool == old(pool) + FirstOf(Offered(feed), Room(old(pool), max))
      ensures ok <==> !(EndsInFailure(feed) && |Offered(feed)| < Room(old(pool), max))
    {
      RefillTakes(pool, max, feed);
      RefillAppends(pool, max, feed);
      var i := 0;
      ghost var taken: seq<Tx> := [];
      while |pool| < max && i < |feed|
        invariant 0 <= i <= |feed| && fetched == old(fetched) + taken
        invariant var whole, rest := Refill(old(pool), max, feed), Refill(pool, max, feed[i..]);
                  whole == rest.(fetched := taken + rest.fetched)
        decreases |feed| - i
      {
        var reply := feed[i];
        assert feed[i..][1..] == feed[i + 1..];
        i := i + 1;
        match reply
        case Parsed(tx) =>
          ghost var rest := Refill(pool + [tx], max, feed[i..]).fetched;
          assert taken + ([tx] + rest) == (taken + [tx]) + rest;
          pool := pool + [tx];
          fetched := fetched + [tx];
          taken := taken + [tx];
        case Garbage =>
        case Nothing =>
          return true;
        case Failure =>
          return false;
      }
      ok := true;
    }

    /** Takes the candidates that fit, in order, and pushes the others to the front of the pool. */
    method PackCandidates(candidates: seq<Tx>) returns (selected: seq<Tx>)
      requires pool == []
      modifies this`pool
      ensures var p := Pack(GasOf, GAS_LIMIT, candidates); selected == p.selected && pool == Reverse(p.skipped)
    {
      selected := [];
      var estimated := 0;
      ghost var skipped: seq<Tx> := [];
      for i := 0 to |candidates|
        invariant estimated >= 0 && Pack(GasOf, GAS_LIMIT, candidates[..i]) == Packed(selected, skipped, estimated)
        invariant pool == Reverse(skipped)
      {
        var tx := candidates[i];
        PackNext(GasOf, GAS_LIMIT, candidates, i);
        var sum := (estimated + GasOf(tx)) % TWO_64;
        if sum <= GAS_LIMIT {
          estimated := sum;
          selected := selected + [tx];
        } else {
          ReverseAppend(skipped, tx);
          pool := [tx] + pool;
          skipped := skipped + [tx];
        }
      }
      assert candidates[..|candidates|] == candidates;
    }

    method SelectTransactionsForBlock(feed: seq<Reply>) returns (selected: Option<seq<Tx>>)
      modifies this`pool, this`fetched
      ensures var r := Refill(old(pool), max, feed);
              && fetched == old(fetched) + r.fetched
              && (!r.ok ==> selected == None && pool == r.pool)
              && (r.ok ==> selected == Some(Chosen(NonceOf, GasOf, GAS_LIMIT, r.pool).selected)
                           && pool == Left(NonceOf, GasOf, GAS_LIMIT, r.pool))
    {
      var ok := RefillPool(feed);
      if !ok { return None; }
      if pool == [] { return Some([]); }
      var candidates := Sorted(NonceOf, pool);
      pool := [];
      var chosen := PackCandidates(candidates);
      selected := Some(chosen);
    }

    method ProduceBlock(hash: Header -> Digest, tick: Tick) returns (block: Option<Block>)
      modifies this
      ensures S() == Produce(hash, max, old(S()), tick)
      ensures if block.None? then number == old(number) else number == old(number) + 1 && chain == old(chain) + [block.value]
      ensures block.Some? <==> Packable(old(pool), max, tick.feed) && tick.submitted.Some?
    {
      RoundOutcome(hash, max, S(), tick);
      var transactions := SelectTransactionsForBlock(tick.feed);
      if transactions.None? || transactions.value == [] { return None; }
      var header := Header(number, lastHash, |transactions.value|, None);
      match tick.submitted
      case None =>
        lost := lost + transactions.value;
        block := None;
      case Some(roots) =>
        var b := Block(header.(roots := Some(roots)), transactions.value);
        lastHash := hash(b.header);
        number := number + 1;
        chain := chain + [b];
        block := Some(b);
    }
  }
}
