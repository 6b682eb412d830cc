/** Amounts collected under keys, where an amount is either added to what its key holds or replaces
    it (the loops over `buildersMap` in `services/website/utils.go`). */
module Grouping {
  import opened Sequences

  datatype Posting = Posting(key: string, amount: int, overwrites: bool)

  /** What the key holds in the end. */
  function Balance(ps: seq<Posting>, key: string): int {
    if ps == [] then 0
    else
      var before, last := Balance(ps[..|ps| - 1], key), ps[|ps| - 1];
      if last.key != key then before else if last.overwrites then last.amount else before + last.amount
  }

  /** What was replaced along the way. */
  function Lost(ps: seq<Posting>): int {
    if ps == [] then 0
    else
      var front, last := ps[..|ps| - 1], ps[|ps| - 1];
      Lost(front) + if last.overwrites then Balance(front, last.key) else 0
  }

  function Amounts(ps: seq<Posting>): seq<int> {
    seq(|ps|, i requires 0 <= i < |ps| => ps[i].amount)
  }

  function Balances(ps: seq<Posting>, keys: seq<string>): seq<int> {
    seq(|keys|, i requires 0 <= i < |keys| => Balance(ps, keys[i]))
  }

  lemma {:induction false} OneBalanceMoves(front: seq<Posting>, last: Posting, keys: seq<string>)
    requires NoDuplicates(keys)
    ensures Sum(Balances(front + [last], keys)) == Sum(Balances(front, keys))
              + if last.key in keys then Balance(front + [last], last.key) - Balance(front, last.key) else 0
  {
    assert (front + [last])[..|front|] == front;
    if keys != [] {
      var n := |keys| - 1;
      OneBalanceMoves(front, last, keys[..n]);
      assert Balances(front, keys) == Balances(front, keys[..n]) + [Balance(front, keys[n])];
      assert Balances(front + [last], keys) == Balances(front + [last], keys[..n]) + [Balance(front + [last], keys[n])];
      SumLast(Balances(front, keys[..n]), Balance(front, keys[n]));
      SumLast(Balances(front + [last], keys[..n]), Balance(front + [last], keys[n]));
      assert keys == keys[..n] + [keys[n]];
    }
  }

  lemma {:induction false} ZeroBalances(keys: seq<string>)
    ensures Sum(Balances([], keys)) == 0
  {
    if keys != [] {
      ZeroBalances(keys[..|keys| - 1]);
      assert Balances([], keys)[..|keys| - 1] == Balances([], keys[..|keys| - 1]);
    }
  }

  /** What the keys hold and what was replaced is what came in. */
  lemma {:induction false} BalancesAddUp(ps: seq<Posting>, keys: seq<string>)
    requires NoDuplicates(keys) && forall p | p in ps :: p.key in keys
    ensures Sum(Balances(ps, keys)) + Lost(ps) == Sum(Amounts(ps))
  {
    if ps == [] {
      ZeroBalances(keys);
    } else {
      var front, last := ps[..|ps| - 1], ps[|ps| - 1];
      assert ps == front + [last];
      BalancesAddUp(front, keys);
      OneBalanceMoves(front, last, keys);
      assert Amounts(ps) == Amounts(front) + [last.amount];
      SumLast(Amounts(front), last.amount);
    }
  }

  /** A key that no posting replaces holds all its postings. */
  function Total(ps: seq<Posting>, key: string): int {
    if ps == [] then 0
    else Total(ps[..|ps| - 1], key) + if ps[|ps| - 1].key == key then ps[|ps| - 1].amount else 0
  }

  lemma {:induction false} PlainBalance(ps: seq<Posting>, key: string)
    requires forall p | p in ps && p.key == key :: !p.overwrites
    ensures Balance(ps, key) == Total(ps, key)
  {
    if ps != [] { PlainBalance(ps[..|ps| - 1], key); }
  }

  lemma {:induction false} UnusedKey(ps: seq<Posting>, key: string)
    requires forall p | p in ps :: p.key != key
    ensures Balance(ps, key) == 0
  {
    if ps != [] { UnusedKey(ps[..|ps| - 1], key); }
  }
}
