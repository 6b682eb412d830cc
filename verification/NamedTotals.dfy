/** Amounts of builders collected under the names of their groups (`services/website/utils.go`,
    `vars/builder_aliases.go`): when entries outside all groups overwrite what their key holds, and
    what gets lost by it. */
module NamedTotals {
  import opened BuilderGroups
  import opened Grouping
  import opened Sequences

  /** The name every text is filed under, as the range over the groups came up with it. */
  ghost predicate NamedTexts(texts: seq<string>, names: seq<string>) {
    && |names| == |texts|
    && forall i | 0 <= i < |texts| :: IsNameOf(names[i], texts[i])
  }

  /** A member of a group is added to the group; any other entry is put under its own text. */
  ghost function PostingsOf(texts: seq<string>, names: seq<string>, amounts: seq<int>): seq<Posting>
    requires |names| == |texts| == |amounts|
  {
    seq(|texts|, i requires 0 <= i < |texts| => Posting(names[i], amounts[i], !Grouped(texts[i])))
  }

  lemma PostingsPrefix(texts: seq<string>, names: seq<string>, amounts: seq<int>, n: nat)
    requires |names| == |texts| == |amounts| && n <= |texts|
    ensures PostingsOf(texts, names, amounts)[..n] == PostingsOf(texts[..n], names[..n], amounts[..n])
  {
  }

  /** What the group named like `texts[b]` holds when `texts[b]` comes up. */
  ghost function GroupBefore(texts: seq<string>, names: seq<string>, amounts: seq<int>, b: nat): int
    requires |names| == |texts| == |amounts| && b < |texts|
  {
    Total(PostingsOf(texts[..b], names[..b], amounts[..b]), texts[b])
  }

  /** An entry outside all groups finds its key in use only if it is named "bob the builder". */
  lemma OnlyBobOverwrites(texts: seq<string>, names: seq<string>, n: nat)
    requires NamedTexts(texts, names) && NoDuplicates(texts) && n < |texts| && !Grouped(texts[n])
    ensures forall i | 0 <= i < n && names[i] == names[n] :: Grouped(texts[i])
    ensures texts[n] != BOB ==> forall i | 0 <= i < n :: names[i] != names[n]
  {
    OnlyBobCollides(texts[n]);
  }

  lemma LostAt(texts: seq<string>, names: seq<string>, amounts: seq<int>, n: nat)
    requires NamedTexts(texts, names) && |amounts| == |texts|
    requires NoDuplicates(texts) && n < |texts| && !Grouped(texts[n])
    ensures var ps := PostingsOf(texts[..n], names[..n], amounts[..n]);
            Balance(ps, names[n]) == if texts[n] == BOB then GroupBefore(texts, names, amounts, n) else 0
  {
    var ps := PostingsOf(texts[..n], names[..n], amounts[..n]);
    OnlyBobOverwrites(texts, names, n);
    if texts[n] == BOB {
      PlainBalance(ps, names[n]);
    } else {
      UnusedKey(ps, names[n]);
    }
  }

  lemma LostStep(texts: seq<string>, names: seq<string>, amounts: seq<int>, n: nat)
    requires NamedTexts(texts, names) && |amounts| == |texts| && NoDuplicates(texts) && 0 < n <= |texts|
    ensures Lost(PostingsOf(texts[..n], names[..n], amounts[..n]))
         == Lost(PostingsOf(texts[..n - 1], names[..n - 1], amounts[..n - 1]))
            + if !Grouped(texts[n - 1]) && texts[n - 1] == BOB then GroupBefore(texts, names, amounts, n - 1) else 0
  {
    PostingsPrefix(texts[..n], names[..n], amounts[..n], n - 1);
    assert texts[..n][..n - 1] == texts[..n - 1] && names[..n][..n - 1] == names[..n - 1];
    assert amounts[..n][..n - 1] == amounts[..n - 1];
    if !Grouped(texts[n - 1]) { LostAt(texts, names, amounts, n - 1); }
  }

  /** Only the entry named "bob the builder", at index `bob` if there is one, overwrites anything. */
  lemma {:induction false} LostOnlyToBob(texts: seq<string>, names: seq<string>, amounts: seq<int>, n: nat, bob: int)
    requires NamedTexts(texts, names) && |amounts| == |texts| && NoDuplicates(texts) && n <= |texts|
    requires forall i | 0 <= i < |texts| :: texts[i] == BOB <==> i == bob
    ensures Lost(PostingsOf(texts[..n], names[..n], amounts[..n]))
         == if 0 <= bob < n then GroupBefore(texts, names, amounts, bob) else 0
  {
    if n > 0 {
      LostOnlyToBob(texts, names, amounts, n - 1, bob);
      LostStep(texts, names, amounts, n);
      if bob == n - 1 { BobIsUngrouped(); }
    }
  }

  /** What is lost in all: what the group held that an entry of its name came to overwrite. */
  lemma LostInAll(texts: seq<string>, names: seq<string>, amounts: seq<int>, bob: int)
    requires NamedTexts(texts, names) && |amounts| == |texts| && NoDuplicates(texts)
    requires forall i | 0 <= i < |texts| :: texts[i] == BOB <==> i == bob
    ensures Lost(PostingsOf(texts, names, amounts))
         == if 0 <= bob < |texts| then GroupBefore(texts, names, amounts, bob) else 0
  {
    LostOnlyToBob(texts, names, amounts, |texts|, bob);
    assert texts[..|texts|] == texts && names[..|names|] == names && amounts[..|amounts|] == amounts;
  }

  lemma {:induction false} TotalIsPositive(texts: seq<string>, names: seq<string>, amounts: seq<int>, name: string)
    requires |names| == |texts| == |amounts| && forall i | 0 <= i < |amounts| :: amounts[i] >= 0
    ensures Total(PostingsOf(texts, names, amounts), name) >= 0
    ensures Total(PostingsOf(texts, names, amounts), name) > 0 <==>
              exists i | 0 <= i < |texts| :: names[i] == name && amounts[i] > 0
  {
    if texts != [] {
      var n := |texts| - 1;
      PostingsPrefix(texts, names, amounts, n);
      TotalIsPositive(texts[..n], names[..n], amounts[..n], name);
      if i :| 0 <= i < |texts| && names[i] == name && amounts[i] > 0 && i != n {
        assert names[..n][i] == name && amounts[..n][i] > 0;
      }
      if i :| 0 <= i < n && names[..n][i] == name && amounts[..n][i] > 0 {
        assert names[i] == name && amounts[i] > 0;
      }
    }
  }

  lemma BalanceStep(texts: seq<string>, names: seq<string>, amounts: seq<int>, n: nat, key: string)
    requires |names| == |texts| == |amounts| && 0 < n <= |texts|
    ensures var ps, front := PostingsOf(texts[..n], names[..n], amounts[..n]), PostingsOf(texts[..n - 1],
            names[..n - 1], amounts[..n - 1]);
            && Total(ps, key) == Total(front, key) + (if names[n - 1] == key then amounts[n - 1] else 0)
            && Balance(ps, key) ==
                 if names[n - 1] != key then Balance(front, key)
                 else if Grouped(texts[n - 1]) then Balance(front, key) + amounts[n - 1] else amounts[n - 1]
  {
    PostingsPrefix(texts[..n], names[..n], amounts[..n], n - 1);
    assert texts[..n][..n - 1] == texts[..n - 1] && names[..n][..n - 1] == names[..n - 1];
    assert amounts[..n][..n - 1] == amounts[..n - 1];
  }

  lemma {:induction false} UnusedTotal(ps: seq<Posting>, key: string)
    requires forall p | p in ps :: p.key != key
    ensures Total(ps, key) == 0
  {
    if ps != [] { UnusedTotal(ps[..|ps| - 1], key); }
  }

  /** A key holds all that was filed under it, less what an entry named "bob the builder", at index
      `bob` if there is one, overwrote. */
  lemma {:induction false} BalanceAndLoss(texts: seq<string>, names: seq<string>, amounts: seq<int>, n: nat, bob: int,
                                          key: string)
    requires NamedTexts(texts, names) && |amounts| == |texts| && NoDuplicates(texts) && n <= |texts|
    requires forall i | 0 <= i < |texts| :: texts[i] == BOB <==> i == bob
    ensures var ps := PostingsOf(texts[..n], names[..n], amounts[..n]);
            Balance(ps, key) + (if key == BOB && 0 <= bob < n then GroupBefore(texts, names, amounts, bob) else 0)
              == Total(ps, key)
  {
    if n > 0 {
      BalanceAndLoss(texts, names, amounts, n - 1, bob, key);
      BalanceStep(texts, names, amounts, n, key);
      if names[n - 1] == key && !Grouped(texts[n - 1]) && texts[n - 1] != BOB {
        OnlyBobOverwrites(texts, names, n - 1);
        UnusedTotal(PostingsOf(texts[..n - 1], names[..n - 1], amounts[..n - 1]), key);
      }
      if bob == n - 1 { BobIsUngrouped(); }
    }
  }
}
