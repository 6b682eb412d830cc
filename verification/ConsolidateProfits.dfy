/** Merging the profits of the builders of one group (`consolidateBuilderProfitEntries` in
    `services/website/utils.go`). Amounts have four decimals and are given in ten-thousandths. */
module ConsolidateProfits {
  import opened BuilderGroups
  import Consolidate
  import opened Grouping
  import opened NamedTotals
  import opened Sequences

  datatype ProfitEntry = ProfitEntry(
    extraData: string,
    aliases: seq<string>,
    numBlocks: nat,
    numBlocksProfit: nat,
    numBlocksSubsidised: nat,
    profitPerBlockAvg: int,
    profitTotal: int,
    subsidiesTotal: int)

  /** The columns that are added up. */
  datatype Measure = Blocks | ProfitBlocks | SubsidisedBlocks | Profit | Subsidies

  function Amount(e: ProfitEntry, measure: Measure): int {
    match measure
    case Blocks => e.numBlocks
    case ProfitBlocks => e.numBlocksProfit
    case SubsidisedBlocks => e.numBlocksSubsidised
    case Profit => e.profitTotal
    case Subsidies => e.subsidiesTotal
  }

  function Column(entries: seq<ProfitEntry>, measure: Measure): seq<int> {
    seq(|entries|, i requires 0 <= i < |entries| => Amount(entries[i], measure))
  }

  function Texts(entries: seq<ProfitEntry>): seq<string> {
    seq(|entries|, i requires 0 <= i < |entries| => entries[i].extraData)
  }

  ghost predicate Named(entries: seq<ProfitEntry>, names: seq<string>) {
    NamedTexts(Texts(entries), names)
  }

  ghost function Postings(entries: seq<ProfitEntry>, names: seq<string>, measure: Measure): seq<Posting>
    requires |names| == |entries|
  {
    PostingsOf(Texts(entries), names, Column(entries, measure))
  }

  lemma PostingsStep(entries: seq<ProfitEntry>, names: seq<string>, measure: Measure)
    requires |names| == |entries| > 0
    ensures var n := |entries| - 1;
            && Postings(entries, names, measure)[..n] == Postings(entries[..n], names[..n], measure)
            && Postings(entries, names, measure)[n] ==
                 Posting(names[n], Amount(entries[n], measure), !Grouped(entries[n].extraData))
  {
  }

  // ---------------------------------------------------------------- averages

  /** The quotient is right to within half a unit of the last decimal. */
  predicate IsAverage(avg: int, total: int, n: int) {
    n > 0 && -n <= 2 * (avg * n - total) <= n
  }

  method DivideAmounts(total: int, n: int) returns (avg: int)
    requires n > 0
    ensures -n <= 2 * (avg * n - total) <= n
  {
    avg := (2 * total + n) / (2 * n);
    ghost var rest := (2 * total + n) % (2 * n);
    assert 2 * total + n == (2 * n) * avg + rest;
    assert (2 * n) * avg == 2 * (avg * n);
  }

  // ---------------------------------------------------------------- what a key holds

  /** The alias list of a key: members are appended, an entry of its own brings its own list. */
  ghost function AliasesOf(entries: seq<ProfitEntry>, names: seq<string>, name: string): seq<string>
    requires |names| == |entries|
  {
    if entries == [] then []
    else
      var n := |entries| - 1;
      if names[n] != name then AliasesOf(entries[..n], names[..n], name)
      else if !Grouped(entries[n].extraData) then entries[n].aliases
      else AliasesOf(entries[..n], names[..n], name) + [entries[n].extraData]
  }

  /** The average of a key: copied from the first entry, recomputed for every further one. */
  ghost predicate AverageOf(entries: seq<ProfitEntry>, names: seq<string>, name: string, avg: int)
    requires |names| == |entries|
  {
    if entries == [] then false
    else
      var n := |entries| - 1;
      if names[n] != name then AverageOf(entries[..n], names[..n], name, avg)
      else if !Grouped(entries[n].extraData) || name !in names[..n] then avg == entries[n].profitPerBlockAvg
      else IsAverage(avg, Balance(Postings(entries, names, Profit), name),
        Balance(Postings(entries, names, Blocks), name))
  }

  ghost predicate EntryFor(e: ProfitEntry, entries: seq<ProfitEntry>, names: seq<string>, name: string)
    requires |names| == |entries|
  {
    && e.extraData == name
    && e.aliases == AliasesOf(entries, names, name)
    && AverageOf(entries, names, name, e.profitPerBlockAvg)
    && forall measure :: Amount(e, measure) == Balance(Postings(entries, names, measure), name)
  }

  ghost predicate IsMerged(m: map<string, ProfitEntry>, entries: seq<ProfitEntry>, names: seq<string>) {
    && Named(entries, names)
    && (forall name :: name in m <==> name in names)
    && (forall name | name in m :: EntryFor(m[name], entries, names, name))
  }

  /** Every builder that the query reports has a block. */
  ghost predicate AllHaveBlocks(entries: seq<ProfitEntry>) {
    forall i | 0 <= i < |entries| :: entries[i].numBlocks > 0
  }

  lemma {:induction false} UnusedName(entries: seq<ProfitEntry>, names: seq<string>, name: string)
    requires |names| == |entries| && name !in names
    ensures AliasesOf(entries, names, name) == []
    ensures forall measure :: Balance(Postings(entries, names, measure), name) == 0
  {
    forall measure ensures Balance(Postings(entries, names, measure), name) == 0 {
      UnusedKey(Postings(entries, names, measure), name);
    }
    if entries != [] {
      var n := |entries| - 1;
      UnusedName(entries[..n], names[..n], name);
    }
  }

  lemma OtherNameStays(e: ProfitEntry, entries: seq<ProfitEntry>, names: seq<string>, name: string)
    requires |names| == |entries| > 0 && names[|names| - 1] != name
    requires EntryFor(e, entries[..|entries| - 1], names[..|entries| - 1], name)
    ensures EntryFor(e, entries, names, name)
  {
    forall measure ensures Amount(e, measure) == Balance(Postings(entries, names, measure), name) {
      PostingsStep(entries, names, measure);
    }
  }

  ghost predicate AddsUp(e: ProfitEntry, before: ProfitEntry, last: ProfitEntry) {
    forall measure :: Amount(e, measure) == Amount(before, measure) + Amount(last, measure)
  }

  /** A further member of a group. */
  lemma MemberAdded(e: ProfitEntry, before: ProfitEntry, entries: seq<ProfitEntry>, names: seq<string>)
    requires |names| == |entries| > 0
    requires var n := |entries| - 1;
             && Grouped(entries[n].extraData) && names[n] in names[..n]
             && EntryFor(before, entries[..n], names[..n], names[n])
             && AddsUp(e, before, entries[n])
             && e.aliases == before.aliases + [entries[n].extraData]
             && e.extraData == names[n]
             && IsAverage(e.profitPerBlockAvg, e.profitTotal, e.numBlocks)
    ensures EntryFor(e, entries, names, names[|names| - 1])
  {
    var n := |entries| - 1;
    forall measure ensures Amount(e, measure) == Balance(Postings(entries, names, measure), names[n]) {
      PostingsStep(entries, names, measure);
    }
    assert e.profitTotal == Amount(e, Profit) && e.numBlocks == Amount(e, Blocks);
  }

  /** The first member of a group, or an entry of its own. */
  lemma FirstUnderName(e: ProfitEntry, entries: seq<ProfitEntry>, names: seq<string>)
    requires |names| == |entries| > 0
    requires var n := |entries| - 1;
             && (if Grouped(entries[n].extraData)
                 then names[n] !in names[..n] && e
                   == entries[n].(extraData := names[n], aliases := [entries[n].extraData])
                 else names[n] == entries[n].extraData && e == entries[n])
    ensures EntryFor(e, entries, names, names[|names| - 1])
  {
    var n := |entries| - 1;
    if Grouped(entries[n].extraData) { UnusedName(entries[..n], names[..n], names[n]); }
    forall measure ensures Amount(e, measure) == Balance(Postings(entries, names, measure), names[n]) {
      PostingsStep(entries, names, measure);
    }
  }

  lemma MergedStep(m: map<string, ProfitEntry>, e: ProfitEntry, entries: seq<ProfitEntry>, names: seq<string>)
    requires |names| == |entries| > 0 && Named(entries, names)
    requires IsMerged(m, entries[..|entries| - 1], names[..|entries| - 1])
    requires EntryFor(e, entries, names, names[|names| - 1])
    ensures IsMerged(m[names[|names| - 1] := e], entries, names)
  {
    var n := |entries| - 1;
    assert names == names[..n] + [names[n]];
    var m' := m[names[n] := e];
    forall name | name in m' ensures EntryFor(m'[name], entries, names, name) {
      if name != names[n] { OtherNameStays(m[name], entries, names, name); }
    }
  }

  /** What is put under the name when an entry comes up. */
  ghost predicate Updates(e: ProfitEntry, m: map<string, ProfitEntry>, name: string, entry: ProfitEntry) {
    if !Grouped(entry.extraData) then e == entry
    else if name in m then
      && e.extraData == m[name].extraData
      && e.aliases == m[name].aliases + [entry.extraData]
      && AddsUp(e, m[name], entry)
      && IsAverage(e.profitPerBlockAvg, e.profitTotal, e.numBlocks)
    else e == entry.(extraData := name, aliases := [entry.extraData])
  }

  method Update(m: map<string, ProfitEntry>, key: string, updated: bool, entry: ProfitEntry) returns (e: ProfitEntry)
    requires entry.numBlocks > 0 && (updated <==> Grouped(entry.extraData))
    ensures Updates(e, m, key, entry)
  {
    if !updated { return entry; }
    if key !in m {
      return ProfitEntry(key, [entry.extraData], entry.numBlocks, entry.numBlocksProfit, entry.numBlocksSubsidised,
                         entry.profitPerBlockAvg, entry.profitTotal, entry.subsidiesTotal);
    }
    e := m[key];
    e := e.(aliases := e.aliases + [entry.extraData]);
    e := e.(numBlocks := e.numBlocks + entry.numBlocks,
            numBlocksProfit := e.numBlocksProfit + entry.numBlocksProfit,
            numBlocksSubsidised := e.numBlocksSubsidised + entry.numBlocksSubsidised,
            profitTotal := e.profitTotal + entry.profitTotal,
            subsidiesTotal := e.subsidiesTotal + entry.subsidiesTotal);
    var avg := DivideAmounts(e.profitTotal, e.numBlocks);
    e := e.(profitPerBlockAvg := avg);
  }

  lemma UpdateFits(e: ProfitEntry, m: map<string, ProfitEntry>, entries: seq<ProfitEntry>, names: seq<string>)
    requires |names| == |entries| > 0 && Named(entries, names)
    requires IsMerged(m, entries[..|entries| - 1], names[..|entries| - 1])
    requires Updates(e, m, names[|names| - 1], entries[|entries| - 1])
    ensures EntryFor(e, entries, names, names[|names| - 1])
  {
    var n := |entries| - 1;
    assert IsNameOf(names[n], Texts(entries)[n]);
    if Grouped(entries[n].extraData) && names[n] in m {
      assert EntryFor(m[names[n]], entries[..n], names[..n], names[n]);
      MemberAdded(e, m[names[n]], entries, names);
    } else {
      FirstUnderName(e, entries, names);
    }
  }

  /** One round of the loop over the entries. */
  method Absorb(m: map<string, ProfitEntry>, entry: ProfitEntry, ghost entries: seq<ProfitEntry>,
                ghost names: seq<string>)
    returns (merged: map<string, ProfitEntry>, ghost name: string)
    requires entry.numBlocks > 0 && IsMerged(m, entries, names)
    ensures IsMerged(merged, entries + [entry], names + [name])
  {
    var key, updated := Consolidate.FindGroup(entry.extraData);
    name := key;
    var e := Update(m, key, updated, entry);
    merged := m[key := e];
    EntryAbsorbed(m, e, entry, entries, names, key);
  }

  lemma EntryAbsorbed(m: map<string, ProfitEntry>, e: ProfitEntry, entry: ProfitEntry, entries: seq<ProfitEntry>,
                      names: seq<string>, name: string)
    requires IsMerged(m, entries, names) && IsNameOf(name, entry.extraData) && Updates(e, m, name, entry)
    ensures IsMerged(m[name := e], entries + [entry], names + [name])
  {
    var es, ns := entries + [entry], names + [name];
    assert es[..|entries|] == entries && ns[..|entries|] == names;
    assert Texts(es) == Texts(entries) + [entry.extraData];
    UpdateFits(e, m, es, ns);
    MergedStep(m, e, es, ns);
  }

  // ---------------------------------------------------------------- what is shown

  function NamesOf(resp: seq<ProfitEntry>): seq<string> {
    Texts(resp)
  }

  ghost predicate ListsMap(m: map<string, ProfitEntry>, resp: seq<ProfitEntry>) {
    && (forall e | e in resp :: e.extraData in m && m[e.extraData] == e)
    && (forall name | name in m :: m[name] in resp)
    && (forall e :: multiset(resp)[e] <= 1)
  }

  method ListMap(m: map<string, ProfitEntry>) returns (resp: seq<ProfitEntry>)
    requires forall name | name in m :: m[name].extraData == name
    ensures ListsMap(m, resp)
  {
    resp := [];
    var todo := m.Keys;
    while todo != {}
      invariant todo <= m.Keys
      invariant forall e | e in resp :: e.extraData in m.Keys - todo && m[e.extraData] == e
      invariant forall name | name in m.Keys - todo :: m[name] in resp
      invariant forall e :: multiset(resp)[e] <= 1
      decreases |todo|
    {
      var name := AnyOf(todo);
      assert m[name] !in resp;
      resp := resp + [m[name]];
      todo := todo - {name};
    }
  }

  method ConsolidateBuilderProfitEntries(entries: seq<ProfitEntry>)
    returns (resp: seq<ProfitEntry>, ghost names: seq<string>, ghost m: map<string, ProfitEntry>)
    requires AllHaveBlocks(entries)
    ensures IsMerged(m, entries, names) && ListsMap(m, resp)
    ensures forall i, j | 0 <= i < j < |resp| :: resp[i].profitTotal >= resp[j].profitTotal
  {
    var buildersMap := map[];
    names := [];
    var i := 0;
    while i < |entries|
      invariant 0 <= i <= |entries|
      invariant IsMerged(buildersMap, entries[..i], names)
    {
      ghost var name;
      buildersMap, name := Absorb(buildersMap, entries[i], entries[..i], names);
      assert entries[..i + 1] == entries[..i] + [entries[i]];
      names := names + [name];
      i := i + 1;
    }
    assert entries[..i] == entries;
    m := buildersMap;
    var listed := ListMap(buildersMap);
    resp := SortedDescending(listed, (e: ProfitEntry) => e.profitTotal);
    ListsInAnyOrder(m, listed, resp);
  }

  lemma ListsInAnyOrder(m: map<string, ProfitEntry>, listed: seq<ProfitEntry>, resp: seq<ProfitEntry>)
    requires ListsMap(m, listed) && multiset(resp) == multiset(listed)
    ensures ListsMap(m, resp)
  {
    forall e ensures e in resp <==> e in listed {
      assert e in resp <==> e in multiset(resp);
      assert e in listed <==> e in multiset(listed);
    }
  }

  lemma ListedOnce(m: map<string, ProfitEntry>, resp: seq<ProfitEntry>)
    requires ListsMap(m, resp)
    ensures NoDuplicates(NamesOf(resp))
  {
    forall i, j | 0 <= i < j < |resp| ensures NamesOf(resp)[i] != NamesOf(resp)[j] {
      if resp[i].extraData == resp[j].extraData {
        OccursTwice(resp, i, j);
      }
    }
  }

  // ---------------------------------------------------------------- totals

  /** Each column: what is shown and what was overwritten is what came in. */
  lemma ColumnsAddUp(entries: seq<ProfitEntry>, names: seq<string>, m: map<string, ProfitEntry>, resp: seq<ProfitEntry>,
                     measure: Measure)
    requires IsMerged(m, entries, names) && ListsMap(m, resp)
    ensures Sum(Column(resp, measure)) + Lost(Postings(entries, names, measure)) == Sum(Column(entries, measure))
  {
    var ps, keys := Postings(entries, names, measure), NamesOf(resp);
    ListedOnce(m, resp);
    forall i | 0 <= i < |resp| ensures Column(resp, measure)[i] == Balances(ps, keys)[i] {
      assert resp[i] in resp;
      assert EntryFor(m[keys[i]], entries, names, keys[i]);
    }
    assert Column(resp, measure) == Balances(ps, keys);
    forall i | 0 <= i < |ps| ensures ps[i].key in keys {
      assert names[i] in m;
      var j :| 0 <= j < |resp| && resp[j] == m[names[i]];
      assert keys[j] == names[i];
    }
    BalancesAddUp(ps, keys);
    assert Amounts(ps) == Column(entries, measure);
  }

  ghost predicate DistinctTexts(entries: seq<ProfitEntry>) {
    NoDuplicates(Texts(entries))
  }

  /** Counts and four-decimal totals are all conserved, except for what the group "bob the builder"
      held when an entry of that very name, at index `bob` if there is one, overwrote it. */
  lemma ColumnsConserved(entries: seq<ProfitEntry>, names: seq<string>, m: map<string, ProfitEntry>,
                         resp: seq<ProfitEntry>, measure: Measure, bob: int)
    requires IsMerged(m, entries, names) && ListsMap(m, resp) && DistinctTexts(entries)
    requires forall i | 0 <= i < |entries| :: entries[i].extraData == BOB <==> i == bob
    ensures var lost := if 0 <= bob < |entries|
            then GroupBefore(Texts(entries), names, Column(entries, measure), bob) else 0;
            Sum(Column(resp, measure)) + lost == Sum(Column(entries, measure))
  {
    ColumnsAddUp(entries, names, m, resp, measure);
    LostInAll(Texts(entries), names, Column(entries, measure), bob);
  }

  // ---------------------------------------------------------------- groups

  ghost predicate NoBob(entries: seq<ProfitEntry>) {
    forall i | 0 <= i < |entries| :: entries[i].extraData != BOB
  }

  /** The members filed under a name, in order. */
  ghost function MembersOf(entries: seq<ProfitEntry>, names: seq<string>, name: string): seq<ProfitEntry>
    requires |names| == |entries|
  {
    if entries == [] then []
    else
      var n := |entries| - 1;
      MembersOf(entries[..n], names[..n], name) + if names[n] == name then [entries[n]] else []
  }

  ghost predicate GroupOk(e: ProfitEntry, members: seq<ProfitEntry>) {
    && e.aliases == Texts(members)
    && (forall measure :: Amount(e, measure) == Sum(Column(members, measure)))
    && (if |members| == 1 then e.profitPerBlockAvg == members[0].profitPerBlockAvg
        else IsAverage(e.profitPerBlockAvg, e.profitTotal, e.numBlocks))
  }

  lemma OtherMembersStay(entries: seq<ProfitEntry>, names: seq<string>, name: string)
    requires |names| == |entries| > 0 && names[|names| - 1] != name
    ensures MembersOf(entries, names, name) == MembersOf(entries[..|entries| - 1], names[..|names| - 1], name)
  {
  }

  lemma MemberSums(members: seq<ProfitEntry>, e: ProfitEntry, measure: Measure)
    ensures Sum(Column(members + [e], measure)) == Sum(Column(members, measure)) + Amount(e, measure)
    ensures Texts(members + [e]) == Texts(members) + [e.extraData]
  {
    assert Column(members + [e], measure) == Column(members, measure) + [Amount(e, measure)];
    SumLast(Column(members, measure), Amount(e, measure));
  }

  lemma FrontIsNamed(entries: seq<ProfitEntry>, names: seq<string>)
    requires Named(entries, names) && entries != []
    ensures Named(entries[..|entries| - 1], names[..|names| - 1])
    ensures IsNameOf(names[|names| - 1], entries[|entries| - 1].extraData)
  {
    assert Texts(entries[..|entries| - 1]) == Texts(entries)[..|entries| - 1];
    assert Texts(entries)[|entries| - 1] == entries[|entries| - 1].extraData;
  }

  lemma GroupBalanceStep(entries: seq<ProfitEntry>, names: seq<string>, name: string, measure: Measure)
    requires Named(entries, names) && (name == BOB ==> NoBob(entries)) && name in GROUPS && entries != []
    ensures var n := |entries| - 1;
            var amount := if names[n] == name then Amount(entries[n], measure) else 0;
            Balance(Postings(entries, names, measure), name)
              == Balance(Postings(entries[..n], names[..n], measure), name) + amount
  {
    FrontIsNamed(entries, names);
    PostingsStep(entries, names, measure);
    OnlyBobCollides(entries[|entries| - 1].extraData);
  }

  lemma GroupAliasesStep(entries: seq<ProfitEntry>, names: seq<string>, name: string)
    requires Named(entries, names) && (name == BOB ==> NoBob(entries)) && name in GROUPS && entries != []
    ensures var n := |entries| - 1;
            AliasesOf(entries, names, name) ==
              if names[n] == name then AliasesOf(entries[..n], names[..n], name) + [entries[n].extraData]
              else AliasesOf(entries[..n], names[..n], name)
  {
    FrontIsNamed(entries, names);
    OnlyBobCollides(entries[|entries| - 1].extraData);
  }

  lemma {:induction false} GroupBalance(entries: seq<ProfitEntry>, names: seq<string>, name: string, measure: Measure)
    requires Named(entries, names) && (name == BOB ==> NoBob(entries)) && name in GROUPS
    ensures Balance(Postings(entries, names, measure), name) == Sum(Column(MembersOf(entries, names, name), measure))
    ensures AliasesOf(entries, names, name) == Texts(MembersOf(entries, names, name))
  {
    if entries != [] {
      var n := |entries| - 1;
      FrontIsNamed(entries, names);
      GroupBalance(entries[..n], names[..n], name, measure);
      GroupBalanceStep(entries, names, name, measure);
      GroupAliasesStep(entries, names, name);
      if names[n] == name {
        MemberSums(MembersOf(entries[..n], names[..n], name), entries[n], measure);
      } else {
        OtherMembersStay(entries, names, name);
      }
    }
  }

  lemma {:induction false} UsedMeansMembers(entries: seq<ProfitEntry>, names: seq<string>, name: string)
    requires |names| == |entries|
    ensures name in names <==> MembersOf(entries, names, name) != []
  {
    if entries != [] {
      var n := |entries| - 1;
      assert names == names[..n] + [names[n]];
      UsedMeansMembers(entries[..n], names[..n], name);
    }
  }

  lemma {:induction false} GroupAverage(entries: seq<ProfitEntry>, names: seq<string>, name: string, avg: int)
    requires Named(entries, names) && (name == BOB ==> NoBob(entries)) && name in GROUPS
    requires AverageOf(entries, names, name, avg)
    ensures var members := MembersOf(entries, names, name);
            && members != []
            && if |members| == 1 then avg == members[0].profitPerBlockAvg
               else IsAverage(avg, Balance(Postings(entries, names, Profit), name),
                 Balance(Postings(entries, names, Blocks), name))
  {
    var n := |entries| - 1;
    FrontIsNamed(entries, names);
    if names[n] == name {
      UsedMeansMembers(entries[..n], names[..n], name);
      OnlyBobCollides(entries[n].extraData);
    } else {
      GroupAverage(entries[..n], names[..n], name, avg);
      PostingsStep(entries, names, Profit);
      PostingsStep(entries, names, Blocks);
      OtherMembersStay(entries, names, name);
    }
  }

  /** A merged group, of that name "bob the builder" if no entry has that very text: aliases and sums of its
      members, and an average that is total by blocks to within half a unit of the fourth decimal if there
      is more than one member. */
  lemma GroupsAreSums(entries: seq<ProfitEntry>, names: seq<string>, m: map<string, ProfitEntry>,
                      resp: seq<ProfitEntry>, e: ProfitEntry)
    requires IsMerged(m, entries, names) && ListsMap(m, resp)
    requires e in resp && e.extraData in GROUPS && (e.extraData == BOB ==> NoBob(entries))
    ensures GroupOk(e, MembersOf(entries, names, e.extraData))
  {
    var name := e.extraData;
    assert EntryFor(e, entries, names, name);
    GroupAverage(entries, names, name, e.profitPerBlockAvg);
    forall measure ensures Amount(e, measure) == Sum(Column(MembersOf(entries, names, name), measure)) {
      GroupBalance(entries, names, name, measure);
    }
    GroupBalance(entries, names, name, Blocks);
    assert e.profitTotal == Amount(e, Profit) && e.numBlocks == Amount(e, Blocks);
  }

  lemma {:induction false} SingleFor(e: ProfitEntry, entries: seq<ProfitEntry>, names: seq<string>, name: string)
    requires Named(entries, names) && name in names && name !in GROUPS && EntryFor(e, entries, names, name)
    ensures e in entries
  {
    var n := |entries| - 1;
    assert IsNameOf(names[n], Texts(entries)[n]);
    assert Texts(entries[..n]) == Texts(entries)[..n];
    assert names == names[..n] + [names[n]];
    forall measure
      ensures Amount(e, measure) == if names[n] == name then Amount(entries[n], measure)
                                    else Balance(Postings(entries[..n], names[..n], measure), name)
    {
      PostingsStep(entries, names, measure);
    }
    if names[n] == name {
      SameAmounts(e, entries[n]);
    } else {
      SingleFor(e, entries[..n], names[..n], name);
    }
  }

  lemma SameAmounts(e: ProfitEntry, f: ProfitEntry)
    requires e.extraData == f.extraData && e.aliases == f.aliases && e.profitPerBlockAvg == f.profitPerBlockAvg
    requires forall measure :: Amount(e, measure) == Amount(f, measure)
    ensures e == f
  {
    assert Amount(e, Blocks) == Amount(f, Blocks) && Amount(e, ProfitBlocks) == Amount(f, ProfitBlocks);
    assert Amount(e, SubsidisedBlocks) == Amount(f, SubsidisedBlocks);
    assert Amount(e, Profit) == Amount(f, Profit) && Amount(e, Subsidies) == Amount(f, Subsidies);
  }

  /** An entry outside all groups is shown as it came in. */
  lemma SinglesAreUnchanged(entries: seq<ProfitEntry>, names: seq<string>, m: map<string, ProfitEntry>,
                            resp: seq<ProfitEntry>, e: ProfitEntry)
    requires IsMerged(m, entries, names) && ListsMap(m, resp)
    requires e in resp && e.extraData !in GROUPS
    ensures e in entries
  {
    SingleFor(e, entries, names, e.extraData);
  }
}
