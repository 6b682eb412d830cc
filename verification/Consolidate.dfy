/** Merging the builders of one group for display (`consolidateBuilderEntries` in
    `services/website/utils.go`). */
module Consolidate {
  import opened BuilderGroups
  import opened Grouping
  import opened NamedTotals
  import opened Sequences
  import opened Substrings

  datatype TopBuilderEntry = TopBuilderEntry(extraData: string, numBlocks: nat, aliases: seq<string>)

  datatype DisplayEntry = DisplayEntry(info: TopBuilderEntry, children: seq<TopBuilderEntry>)

  type BuildersMap = map<string, DisplayEntry>

  function Blocks(entries: seq<TopBuilderEntry>): seq<int> {
    seq(|entries|, i requires 0 <= i < |entries| => entries[i].numBlocks)
  }

  function Texts(builders: seq<TopBuilderEntry>): seq<string> {
    seq(|builders|, i requires 0 <= i < |builders| => builders[i].extraData)
  }

  /** The names the entries are filed under. */
  ghost predicate Named(builders: seq<TopBuilderEntry>, names: seq<string>) {
    NamedTexts(Texts(builders), names)
  }

  ghost function Absorb(m: BuildersMap, entry: TopBuilderEntry, name: string): BuildersMap {
    if !Grouped(entry.extraData) then m[name := DisplayEntry(entry, [])]
    else if name in m then
      var info, children := m[name].info, m[name].children;
      m[name := DisplayEntry(info.(numBlocks := info.numBlocks + entry.numBlocks), children + [entry])]
    else m[name := DisplayEntry(TopBuilderEntry(name, entry.numBlocks, []), [entry])]
  }

  /** The map after the first loop. */
  ghost function Merged(builders: seq<TopBuilderEntry>, names: seq<string>): BuildersMap
    requires |names| == |builders|
  {
    if builders == [] then map[]
    else
      var n := |builders| - 1;
      Absorb(Merged(builders[..n], names[..n]), builders[n], names[n])
  }

  // ---------------------------------------------------------------- what is shown

  /** `d` shows `e`, up to the order of the children, which are descending. */
  ghost predicate Shows(d: DisplayEntry, e: DisplayEntry) {
    && d.info == e.info
    && multiset(d.children) == multiset(e.children)
    && Descending(d.children, (c: TopBuilderEntry) => c.numBlocks)
  }

  function NamesOf(resp: seq<DisplayEntry>): seq<string> {
    seq(|resp|, i requires 0 <= i < |resp| => resp[i].info.extraData)
  }

  function Infos(resp: seq<DisplayEntry>): seq<TopBuilderEntry> {
    seq(|resp|, i requires 0 <= i < |resp| => resp[i].info)
  }

  /** Every entry of the map once. */
  ghost predicate ListsMap(m: BuildersMap, resp: seq<DisplayEntry>) {
    && (forall d | d in resp :: d.info.extraData in m && Shows(d, m[d.info.extraData]))
    && (forall name | name in m :: name in NamesOf(resp))
    && NoDuplicates(NamesOf(resp))
  }

  method FindGroup(extraData: string) returns (name: string, updated: bool)
    ensures IsNameOf(name, extraData) && (updated <==> Grouped(extraData))
  {
    var todo := GROUPS;
    while todo != {}
      invariant todo <= GROUPS
      invariant forall g | g in GROUPS - todo :: !Matches(g, extraData)
      decreases |todo|
    {
      var k := AnyOf(todo);
      if Matches(k, extraData) {
        return k, true;
      }
      todo := todo - {k};
    }
    return extraData, false;
  }

  method AbsorbEntry(buildersMap0: BuildersMap, entry: TopBuilderEntry) returns (buildersMap: BuildersMap, name: string)
    ensures IsNameOf(name, entry.extraData) && buildersMap == Absorb(buildersMap0, entry, name)
  {
    var key, updated := FindGroup(entry.extraData);
    buildersMap, name := buildersMap0, key;
    if updated {
      if name in buildersMap {
        var group := buildersMap[name];
        buildersMap := buildersMap[name := DisplayEntry(
          group.info.(numBlocks := group.info.numBlocks + entry.numBlocks), group.children + [entry])];
      } else {
        buildersMap := buildersMap[name := DisplayEntry(TopBuilderEntry(name, entry.numBlocks, []), [entry])];
      }
    } else {
      buildersMap := buildersMap[entry.extraData := DisplayEntry(entry, [])];
    }
  }

  lemma MergedStep(builders: seq<TopBuilderEntry>, names: seq<string>, i: nat, name: string)
    requires i < |builders| && Named(builders[..i], names) && IsNameOf(name, builders[i].extraData)
    ensures Named(builders[..i + 1], names + [name])
    ensures Merged(builders[..i + 1], names + [name]) == Absorb(Merged(builders[..i], names), builders[i], name)
  {
    assert builders[..i + 1][..i] == builders[..i] && (names + [name])[..i] == names;
    assert Texts(builders[..i + 1]) == Texts(builders[..i]) + [builders[i].extraData];
  }

  /** The loop over the builders. */
  method MergeBuilders(builders: seq<TopBuilderEntry>) returns (buildersMap: BuildersMap, ghost names: seq<string>)
    ensures Named(builders, names) && buildersMap == Merged(builders, names)
  {
    buildersMap, names := map[], [];
    var i := 0;
    while i < |builders|
      invariant 0 <= i <= |builders|
      invariant Named(builders[..i], names) && buildersMap == Merged(builders[..i], names)
    {
      var name;
      buildersMap, name := AbsorbEntry(buildersMap, builders[i]);
      MergedStep(builders, names, i, name);
      names := names + [name];
      i := i + 1;
    }
    assert builders[..i] == builders;
  }

  ghost predicate KeyedByName(m: BuildersMap) {
    forall name | name in m :: m[name].info.extraData == name
  }

  lemma {:induction false} MergedIsKeyed(builders: seq<TopBuilderEntry>, names: seq<string>)
    requires Named(builders, names)
    ensures KeyedByName(Merged(builders, names))
  {
    if builders != [] {
      var n := |builders| - 1;
      assert Texts(builders[..n]) == Texts(builders)[..n];
      MergedIsKeyed(builders[..n], names[..n]);
    }
  }

  /** The loop over the map, in arbitrary order. */
  method ListMap(m: BuildersMap) returns (resp: seq<DisplayEntry>)
    requires KeyedByName(m)
    ensures ListsMap(m, resp)
  {
    resp := [];
    var todo := m.Keys;
    while todo != {}
      invariant todo <= m.Keys
      invariant forall d | d in resp :: d.info.extraData in m.Keys - todo && Shows(d, m[d.info.extraData])
      invariant forall name | name in m.Keys - todo :: name in NamesOf(resp)
      invariant NoDuplicates(NamesOf(resp))
      decreases |todo|
    {
      var name := AnyOf(todo);
      var children := SortedDescending(m[name].children, (c: TopBuilderEntry) => c.numBlocks);
      var d := DisplayEntry(m[name].info, children);
      assert NamesOf(resp + [d]) == NamesOf(resp) + [name];
      assert name !in NamesOf(resp);
      resp := resp + [d];
      todo := todo - {name};
    }
  }

  lemma NameListed(resp: seq<DisplayEntry>, sorted: seq<DisplayEntry>, name: string)
    requires multiset(sorted) == multiset(resp) && name in NamesOf(resp)
    ensures name in NamesOf(sorted)
  {
    var i :| 0 <= i < |resp| && NamesOf(resp)[i] == name;
    SameMembers(resp, sorted, resp[i]);
    var j :| 0 <= j < |sorted| && sorted[j] == resp[i];
    assert NamesOf(sorted)[j] == name;
  }

  lemma NamesStayDistinct(resp: seq<DisplayEntry>, sorted: seq<DisplayEntry>, i: nat, j: nat)
    requires multiset(sorted) == multiset(resp) && NoDuplicates(NamesOf(resp)) && i < j < |sorted|
    ensures NamesOf(sorted)[i] != NamesOf(sorted)[j]
  {
    if NamesOf(sorted)[i] == NamesOf(sorted)[j] {
      SameMembers(resp, sorted, sorted[i]);
      SameMembers(resp, sorted, sorted[j]);
      SameNameSameEntry(resp, sorted[i], sorted[j]);
      OccursTwice(sorted, i, j);
      forall m, n | 0 <= m < n < |resp| ensures resp[m] != resp[n] {
        assert NamesOf(resp)[m] != NamesOf(resp)[n];
      }
      OccursOnce(resp, sorted[i]);
    }
  }

  lemma ListsMapInAnyOrder(m: BuildersMap, resp: seq<DisplayEntry>, sorted: seq<DisplayEntry>)
    requires ListsMap(m, resp) && multiset(sorted) == multiset(resp)
    ensures ListsMap(m, sorted)
  {
    forall d | d in sorted ensures d.info.extraData in m && Shows(d, m[d.info.extraData]) {
      SameMembers(resp, sorted, d);
    }
    forall name | name in m ensures name in NamesOf(sorted) {
      NameListed(resp, sorted, name);
    }
    forall i, j | 0 <= i < j < |NamesOf(sorted)| ensures NamesOf(sorted)[i] != NamesOf(sorted)[j] {
      NamesStayDistinct(resp, sorted, i, j);
    }
  }

  lemma SameNameSameEntry(resp: seq<DisplayEntry>, d: DisplayEntry, e: DisplayEntry)
    requires NoDuplicates(NamesOf(resp)) && d in resp && e in resp && d.info.extraData == e.info.extraData
    ensures d == e
  {
    var i :| 0 <= i < |resp| && resp[i] == d;
    var j :| 0 <= j < |resp| && resp[j] == e;
    assert NamesOf(resp)[i] == NamesOf(resp)[j];
  }

  method ConsolidateBuilderEntries(builders: seq<TopBuilderEntry>)
    returns (resp: seq<DisplayEntry>, ghost names: seq<string>)
    ensures Named(builders, names) && ListsMap(Merged(builders, names), resp)
    ensures forall i, j | 0 <= i < j < |resp| :: resp[i].info.numBlocks >= resp[j].info.numBlocks
  {
    var buildersMap;
    buildersMap, names := MergeBuilders(builders);
    MergedIsKeyed(builders, names);
    var listed := ListMap(buildersMap);
    resp := SortedDescending(listed, (d: DisplayEntry) => d.info.numBlocks);
    ListsMapInAnyOrder(buildersMap, listed, resp);
  }

  // ---------------------------------------------------------------- totals

  ghost function Postings(builders: seq<TopBuilderEntry>, names: seq<string>): seq<Posting>
    requires |names| == |builders|
  {
    PostingsOf(Texts(builders), names, Blocks(builders))
  }

  lemma PostingsStep(builders: seq<TopBuilderEntry>, names: seq<string>)
    requires |names| == |builders| > 0
    ensures var n := |builders| - 1;
            && Postings(builders, names)[..n] == Postings(builders[..n], names[..n])
            && Postings(builders, names)[n] == Posting(names[n], builders[n].numBlocks, !Grouped(builders[n].extraData))
  {
  }

  /** Each key of the map holds its balance. */
  lemma {:induction false} MergedBalance(builders: seq<TopBuilderEntry>, names: seq<string>, name: string)
    requires Named(builders, names)
    ensures name in Merged(builders, names) <==> name in names
    ensures name in Merged(builders, names)
            ==> Merged(builders, names)[name].info.numBlocks == Balance(Postings(builders, names), name)
    ensures name !in names ==> Balance(Postings(builders, names), name) == 0
  {
    if builders != [] {
      var n := |builders| - 1;
      PostingsStep(builders, names);
      assert names == names[..n] + [names[n]];
      assert Texts(builders[..n]) == Texts(builders)[..n];
      MergedBalance(builders[..n], names[..n], name);
    }
  }

  /** Shown blocks and blocks that were overwritten are the blocks that came in. */
  lemma TotalsAddUp(builders: seq<TopBuilderEntry>, names: seq<string>, resp: seq<DisplayEntry>)
    requires Named(builders, names) && ListsMap(Merged(builders, names), resp)
    ensures Sum(Blocks(Infos(resp))) + Lost(Postings(builders, names)) == Sum(Blocks(builders))
  {
    var ps, keys := Postings(builders, names), NamesOf(resp);
    forall i | 0 <= i < |resp| ensures Blocks(Infos(resp))[i] == Balances(ps, keys)[i] {
      assert resp[i] in resp;
      MergedBalance(builders, names, keys[i]);
    }
    assert Blocks(Infos(resp)) == Balances(ps, keys);
    forall i | 0 <= i < |ps| ensures ps[i].key in keys {
      MergedBalance(builders, names, names[i]);
    }
    BalancesAddUp(ps, keys);
    assert Amounts(ps) == Blocks(builders);
  }

  ghost predicate DistinctTexts(builders: seq<TopBuilderEntry>) {
    NoDuplicates(Texts(builders))
  }

  /** A member of the group "bob the builder" comes before an entry of that very name. */
  ghost predicate BobOverwrites(builders: seq<TopBuilderEntry>, names: seq<string>)
    requires |names| == |builders|
  {
    exists i, b | 0 <= i < b < |builders| ::
      builders[b].extraData == BOB && names[i] == BOB && builders[i].numBlocks > 0
  }

  /** The shown blocks add up to those that came in exactly if no such entry overwrites its group. */
  lemma TotalsConservedExactly(builders: seq<TopBuilderEntry>, names: seq<string>, resp: seq<DisplayEntry>)
    requires Named(builders, names) && DistinctTexts(builders) && ListsMap(Merged(builders, names), resp)
    ensures Sum(Blocks(Infos(resp))) <= Sum(Blocks(builders))
    ensures Sum(Blocks(Infos(resp))) == Sum(Blocks(builders)) <==> !BobOverwrites(builders, names)
  {
    TotalsAddUp(builders, names, resp);
    if bob :| 0 <= bob < |builders| && builders[bob].extraData == BOB {
      LostWithBob(builders, names, bob);
    } else {
      LostInAll(Texts(builders), names, Blocks(builders), -1);
    }
  }

  lemma LostWithBob(builders: seq<TopBuilderEntry>, names: seq<string>, bob: nat)
    requires Named(builders, names) && DistinctTexts(builders) && bob < |builders| && builders[bob].extraData == BOB
    ensures Lost(Postings(builders, names)) >= 0
    ensures Lost(Postings(builders, names)) > 0 <==> BobOverwrites(builders, names)
  {
    var texts, blocks := Texts(builders), Blocks(builders);
    forall i | 0 <= i < |texts| ensures texts[i] == BOB <==> i == bob {
      assert texts[bob] == BOB;
    }
    LostInAll(texts, names, blocks, bob);
    TotalIsPositive(texts[..bob], names[..bob], blocks[..bob], BOB);
    BeforeBob(builders, names, bob);
  }

  lemma BeforeBob(builders: seq<TopBuilderEntry>, names: seq<string>, bob: nat)
    requires |names| == |builders| && DistinctTexts(builders) && bob < |builders| && builders[bob].extraData == BOB
    ensures BobOverwrites(builders, names) <==>
              exists i | 0 <= i < bob :: names[..bob][i] == BOB && Blocks(builders)[..bob][i] > 0
  {
    if i :| 0 <= i < bob && names[..bob][i] == BOB && Blocks(builders)[..bob][i] > 0 {
      assert names[i] == BOB && builders[i].numBlocks > 0;
    }
    if i, b :| 0 <= i < b < |builders| && builders[b].extraData == BOB && names[i] == BOB && builders[i].numBlocks > 0 {
      assert Texts(builders)[b] == Texts(builders)[bob];
      assert names[..bob][i] == BOB && Blocks(builders)[..bob][i] > 0;
    }
  }

  /** Said of the input alone: an episode with blocks comes before the entry of that very name. */
  ghost predicate BobCanOverwrite(builders: seq<TopBuilderEntry>) {
    exists i, b | 0 <= i < b < |builders| ::
      builders[b].extraData == BOB && LooksLikeBob(builders[i].extraData) && builders[i].numBlocks > 0
  }

  lemma {:induction false} SomeNames(builders: seq<TopBuilderEntry>) returns (names: seq<string>)
    ensures Named(builders, names)
  {
    if builders == [] {
      names := [];
    } else {
      var n := |builders| - 1;
      var front := SomeNames(builders[..n]);
      var name := SomeName(builders[n].extraData);
      assert Texts(builders) == Texts(builders[..n]) + [builders[n].extraData];
      names := front + [name];
    }
  }

  lemma SomeListing(m: BuildersMap) returns (resp: seq<DisplayEntry>)
    requires KeyedByName(m)
    ensures ListsMap(m, resp)
  {
    var keys := SomeOrder(m.Keys);
    resp := seq(|keys|, i requires 0 <= i < |keys| =>
      DisplayEntry(m[keys[i]].info, SortedDescending(m[keys[i]].children, (c: TopBuilderEntry) => c.numBlocks)));
    assert NamesOf(resp) == keys;
  }

  /** Overwriting is possible for some order of the groups exactly if the input allows it. */
  lemma OverwritesForSomeNames(builders: seq<TopBuilderEntry>)
    requires DistinctTexts(builders)
    ensures BobCanOverwrite(builders) <==> exists names :: Named(builders, names) && BobOverwrites(builders, names)
  {
    if BobCanOverwrite(builders) {
      var i, b :| 0 <= i < b < |builders| && builders[b].extraData == BOB && LooksLikeBob(builders[i].extraData)
                  && builders[i].numBlocks > 0;
      var any := SomeNames(builders);
      var names := any[i := BOB];
      assert Matches(BOB, Texts(builders)[i]);
      assert Named(builders, names) && BobOverwrites(builders, names);
    }
    if names :| Named(builders, names) && BobOverwrites(builders, names) {
      NamesMatterOnlyHere(builders, names);
    }
  }

  lemma NamesMatterOnlyHere(builders: seq<TopBuilderEntry>, names: seq<string>)
    requires Named(builders, names) && DistinctTexts(builders) && BobOverwrites(builders, names)
    ensures BobCanOverwrite(builders)
  {
    var i, b :| 0 <= i < b < |builders| && builders[b].extraData == BOB && names[i] == BOB && builders[i].numBlocks > 0;
    assert Texts(builders)[i] != Texts(builders)[b];
    assert IsNameOf(names[i], Texts(builders)[i]);
  }

  ghost predicate Conserves(builders: seq<TopBuilderEntry>, names: seq<string>, resp: seq<DisplayEntry>) {
    Sum(Blocks(Infos(resp))) == Sum(Blocks(builders))
  }

  /** The shown blocks add up to those that came in for every order of the map of groups, exactly if
      no episode with blocks precedes an entry named "bob the builder". */
  lemma ConservedForEveryOrder(builders: seq<TopBuilderEntry>)
    requires DistinctTexts(builders)
    ensures (forall names, resp | Named(builders, names) && ListsMap(Merged(builders, names), resp) ::
               Conserves(builders, names, resp)) <==> !BobCanOverwrite(builders)
  {
    OverwritesForSomeNames(builders);
    if BobCanOverwrite(builders) {
      var names :| Named(builders, names) && BobOverwrites(builders, names);
      MergedIsKeyed(builders, names);
      var resp := SomeListing(Merged(builders, names));
      TotalsConservedExactly(builders, names, resp);
      assert !Conserves(builders, names, resp);
    } else {
      forall names, resp | Named(builders, names) && ListsMap(Merged(builders, names), resp)
        ensures Conserves(builders, names, resp)
      {
        TotalsConservedExactly(builders, names, resp);
      }
    }
  }

  lemma EpisodeIsBob(name: string)
    requires IsNameOf(name, "s1e2xf")
    ensures name == BOB
  {
    KnownAliases();
    NotContained("s1e2xf", "penguinbuild.org", 0);
    NotContained("s1e2xf", "builder0x69", 0);
    NotContained("s1e2xf", "rsync", 0);
    NotContained("s1e2xf", "BuilderNet", 0);
  }

  /** The blocks of a group member get lost when an entry named like the group follows. */
  lemma BobLosesBlocks(builders: seq<TopBuilderEntry>, names: seq<string>, resp: seq<DisplayEntry>)
    requires builders == [TopBuilderEntry("s1e2xf", 5, []), TopBuilderEntry(BOB, 3, [])]
    requires Named(builders, names) && ListsMap(Merged(builders, names), resp)
    ensures Sum(Blocks(Infos(resp))) < Sum(Blocks(builders))
  {
    EpisodeIsBob(names[0]);
    assert builders[0].numBlocks > 0 && builders[1].extraData == BOB;
    assert BobOverwrites(builders, names);
    TotalsConservedExactly(builders, names, resp);
  }

  // ---------------------------------------------------------------- partition

  ghost predicate NoBob(builders: seq<TopBuilderEntry>) {
    forall i | 0 <= i < |builders| :: builders[i].extraData != BOB
  }

  /** The entries a shown entry stands for. */
  ghost function Holds(d: DisplayEntry): multiset<TopBuilderEntry> {
    if d.children == [] then multiset{d.info} else multiset(d.children)
  }

  ghost function Occurrences(builders: seq<TopBuilderEntry>, names: seq<string>, name: string, e: TopBuilderEntry): nat
    requires |names| == |builders|
  {
    if builders == [] then 0
    else
      var n := |builders| - 1;
      Occurrences(builders[..n], names[..n], name, e) + if names[n] == name && builders[n] == e then 1 else 0
  }

  /** A group has the sum of its children, and children that match; any other entry stands for itself. */
  ghost predicate WellMerged(d: DisplayEntry, name: string) {
    && (name in GROUPS <==> d.children != [])
    && (name in GROUPS ==>
          && d.info.extraData == name && d.info.aliases == []
          && d.info.numBlocks == Sum(Blocks(d.children))
          && forall c | c in d.children :: Matches(name, c.extraData))
    && (name !in GROUPS ==> !Grouped(name))
  }

  lemma OneMoreChild(children: seq<TopBuilderEntry>, entry: TopBuilderEntry)
    ensures Sum(Blocks(children + [entry])) == Sum(Blocks(children)) + entry.numBlocks
  {
    assert Blocks(children + [entry]) == Blocks(children) + [entry.numBlocks];
    SumLast(Blocks(children), entry.numBlocks);
  }

  lemma AbsorbWellMerged(m: BuildersMap, entry: TopBuilderEntry, name: string)
    requires IsNameOf(name, entry.extraData) && entry.extraData != BOB
    requires name in m ==> Grouped(entry.extraData) && WellMerged(m[name], name)
    ensures WellMerged(Absorb(m, entry, name)[name], name)
    ensures Holds(Absorb(m, entry, name)[name]) == multiset{entry} + if name in m then Holds(m[name]) else multiset{}
  {
    OnlyBobCollides(entry.extraData);
    OneMoreChild([], entry);
    if name in m {
      OneMoreChild(m[name].children, entry);
    } else {
      assert [] + [entry] == [entry];
    }
  }

  /** What the map has for a name, and how often an entry is in it. */
  ghost predicate HoldsAt(m: BuildersMap, name: string, used: bool, e: TopBuilderEntry, count: nat) {
    && (name in m <==> used)
    && (used ==> WellMerged(m[name], name) && Holds(m[name])[e] == count)
    && (!used ==> count == 0)
  }

  lemma HoldsStep(m: BuildersMap, entry: TopBuilderEntry, key: string, name: string, used: bool, e: TopBuilderEntry,
                  count: nat)
    requires HoldsAt(m, name, used, e, count)
    requires IsNameOf(key, entry.extraData) && (key == name ==> entry.extraData != BOB)
    requires key == name && used ==> Grouped(entry.extraData)
    ensures HoldsAt(Absorb(m, entry, key), name, used
            || key == name, e, count + if key == name && entry == e then 1 else 0)
  {
    if key == name { AbsorbWellMerged(m, entry, name); }
  }

  lemma {:induction false} MergedHolds(builders: seq<TopBuilderEntry>, names: seq<string>, name: string,
                                       e: TopBuilderEntry)
    requires Named(builders, names) && DistinctTexts(builders) && (name == BOB ==> NoBob(builders))
    ensures HoldsAt(Merged(builders, names), name, name in names, e, Occurrences(builders, names, name, e))
  {
    if builders != [] {
      var n := |builders| - 1;
      assert Texts(builders[..n]) == Texts(builders)[..n];
      MergedHolds(builders[..n], names[..n], name, e);
      assert names == names[..n] + [names[n]];
      if !Grouped(builders[n].extraData) {
        OnlyBobOverwrites(Texts(builders), names, n);
        assert Texts(builders)[n] != BOB ==> names[n] !in names[..n];
      }
      assert IsNameOf(names[n], Texts(builders)[n]);
      BobIsUngrouped();
      HoldsStep(Merged(builders[..n], names[..n]), builders[n], names[n], name, name in names[..n], e,
                Occurrences(builders[..n], names[..n], name, e));
    }
  }

  lemma {:induction false} OccursExactlyThere(builders: seq<TopBuilderEntry>, names: seq<string>, name: string,
                                              e: TopBuilderEntry)
    requires |names| == |builders| && DistinctTexts(builders)
    ensures Occurrences(builders, names, name, e) ==
              if exists i | 0 <= i < |builders| :: builders[i] == e && names[i] == name then 1 else 0
  {
    if builders != [] {
      var n := |builders| - 1;
      assert Texts(builders[..n]) == Texts(builders)[..n];
      forall i | 0 <= i < n ensures builders[i] != builders[n] {
        assert Texts(builders)[i] != Texts(builders)[n];
      }
      OccursExactlyThere(builders[..n], names[..n], name, e);
      if i :| 0 <= i < |builders| && builders[i] == e && names[i] == name && i != n {
        assert builders[..n][i] == e && names[..n][i] == name;
      }
      if i :| 0 <= i < n && builders[..n][i] == e && names[..n][i] == name {
        assert builders[i] == e && names[i] == name;
      }
    }
  }

  lemma SameHolds(d: DisplayEntry, e: DisplayEntry)
    requires Shows(d, e)
    ensures Holds(d) == Holds(e)
  {
    if d.children == [] { assert |multiset(e.children)| == 0; }
    if e.children == [] { assert |multiset(d.children)| == 0; }
  }

  /** The entry holds exactly the entries of its name, each once. */
  ghost predicate HoldsItsOwn(builders: seq<TopBuilderEntry>, names: seq<string>, d: DisplayEntry)
    requires |names| == |builders|
  {
    forall e :: Holds(d)[e] ==
                  if exists i | 0 <= i < |builders| :: builders[i] == e && names[i] == d.info.extraData then 1 else 0
  }

  /** So does every shown entry, except one that is named "bob the builder" by its very text. */
  lemma MostHoldTheirOwn(builders: seq<TopBuilderEntry>, names: seq<string>, resp: seq<DisplayEntry>, d: DisplayEntry)
    requires Named(builders, names) && DistinctTexts(builders)
    requires ListsMap(Merged(builders, names), resp) && d in resp && (d.info.extraData == BOB ==> NoBob(builders))
    ensures HoldsItsOwn(builders, names, d)
  {
    var name := d.info.extraData;
    SameHolds(d, Merged(builders, names)[name]);
    forall e ensures Holds(d)[e] ==
              if exists i | 0 <= i < |builders| :: builders[i] == e && names[i] == name then 1 else 0
    {
      MergedHolds(builders, names, name, e);
      OccursExactlyThere(builders, names, name, e);
    }
  }

  /** One of the entries `b < k < n` that are named like this. */
  ghost predicate CameAfter(builders: seq<TopBuilderEntry>, names: seq<string>, b: int, n: int, c: TopBuilderEntry) {
    exists k | 0 <= b < k < n && k < |builders| && k < |names| :: builders[k] == c && names[k] == BOB
  }

  ghost predicate NoneAfter(names: seq<string>, b: int, n: int) {
    forall k | 0 <= b < k < n && k < |names| :: names[k] != BOB
  }

  /** What is behind the entry of that very text: the children are those that came after it. */
  ghost predicate HoldsSinceBob(m: BuildersMap, builders: seq<TopBuilderEntry>, names: seq<string>, b: int, n: int)
    requires 0 <= b < |builders|
  {
    && BOB in m && m[BOB].info.extraData == BOB
    && (forall c | c in m[BOB].children :: CameAfter(builders, names, b, n, c))
    && (m[BOB].children == [] <==> NoneAfter(names, b, n))
    && (m[BOB].children == [] ==> m[BOB].info == builders[b])
  }

  /** Any other entry leaves that one alone, or becomes another child of it. */
  lemma AbsorbBesideBob(m: BuildersMap, entry: TopBuilderEntry, name: string)
    requires BOB in m && entry.extraData != BOB && IsNameOf(name, entry.extraData)
    ensures BOB in Absorb(m, entry, name) && Absorb(m, entry, name)[BOB].info.extraData == m[BOB].info.extraData
    ensures name != BOB ==> Absorb(m, entry, name)[BOB] == m[BOB]
    ensures name == BOB ==> Absorb(m, entry, name)[BOB].children == m[BOB].children + [entry]
  {
  }

  lemma SinceBobStep(m: BuildersMap, builders: seq<TopBuilderEntry>, names: seq<string>, b: nat, n: nat)
    requires b < n < |builders| == |names| && builders[n].extraData != BOB
    requires IsNameOf(names[n], builders[n].extraData) && HoldsSinceBob(m, builders, names, b, n)
    ensures HoldsSinceBob(Absorb(m, builders[n], names[n]), builders, names, b, n + 1)
  {
    AbsorbBesideBob(m, builders[n], names[n]);
    assert NoneAfter(names, b, n + 1) <==> NoneAfter(names, b, n) && names[n] != BOB;
    forall c | c in Absorb(m, builders[n], names[n])[BOB].children ensures CameAfter(builders, names, b, n + 1, c) {
      if c in m[BOB].children { assert CameAfter(builders, names, b, n, c); }
    }
  }

  lemma {:induction false} SinceBob(builders: seq<TopBuilderEntry>, names: seq<string>, b: nat, n: nat)
    requires Named(builders, names) && DistinctTexts(builders) && b < n <= |builders| && builders[b].extraData == BOB
    ensures HoldsSinceBob(Merged(builders[..n], names[..n]), builders, names, b, n)
  {
    assert builders[..n][..n - 1] == builders[..n - 1] && names[..n][..n - 1] == names[..n - 1];
    assert IsNameOf(names[n - 1], Texts(builders)[n - 1]);
    if b == n - 1 {
      BobIsUngrouped();
    } else {
      assert Texts(builders)[n - 1] != Texts(builders)[b];
      SinceBob(builders, names, b, n - 1);
      SinceBobStep(Merged(builders[..n - 1], names[..n - 1]), builders, names, b, n - 1);
    }
  }

  /** An entry of that very text and one named like it are both in the input, in either order. */
  ghost predicate BobMeets(builders: seq<TopBuilderEntry>, names: seq<string>)
    requires |names| == |builders|
  {
    exists i, b | 0 <= i < |builders| && 0 <= b < |builders| ::
      i != b && builders[b].extraData == BOB && names[i] == BOB
  }

  /** What is shown under that name then lacks one of the two. */
  lemma BobLacksOne(builders: seq<TopBuilderEntry>, names: seq<string>, resp: seq<DisplayEntry>, d: DisplayEntry)
    requires Named(builders, names) && DistinctTexts(builders) && BobMeets(builders, names)
    requires ListsMap(Merged(builders, names), resp) && d in resp && d.info.extraData == BOB
    ensures !HoldsItsOwn(builders, names, d)
  {
    var i, b :| 0 <= i < |builders| && 0 <= b < |builders| && i != b && builders[b].extraData == BOB && names[i] == BOB;
    var m := Merged(builders, names);
    SinceBob(builders, names, b, |builders|);
    assert builders[..|builders|] == builders && names[..|builders|] == names;
    SameHolds(d, m[BOB]);
    BobIsUngrouped();
    assert IsNameOf(names[b], Texts(builders)[b]);
    var lost := if m[BOB].children == [] then i else b;
    assert Holds(m[BOB])[builders[lost]] == 0 by {
      if m[BOB].children == [] {
        assert Texts(builders)[i] != Texts(builders)[b];
      } else {
        forall k | b < k < |builders| ensures builders[k] != builders[b] {
          assert Texts(builders)[k] != Texts(builders)[b];
        }
        assert builders[b] !in m[BOB].children;
      }
    }
    assert builders[lost] == builders[lost] && names[lost] == BOB;
  }

  lemma BobAlone(builders: seq<TopBuilderEntry>, names: seq<string>, resp: seq<DisplayEntry>, d: DisplayEntry, b: nat)
    requires Named(builders, names) && DistinctTexts(builders) && !BobMeets(builders, names)
    requires b < |builders| && builders[b].extraData == BOB
    requires ListsMap(Merged(builders, names), resp) && d in resp && d.info.extraData == BOB
    ensures HoldsItsOwn(builders, names, d)
  {
    var m := Merged(builders, names);
    SinceBob(builders, names, b, |builders|);
    assert builders[..|builders|] == builders && names[..|builders|] == names;
    SameHolds(d, m[BOB]);
    BobIsUngrouped();
    assert IsNameOf(names[b], Texts(builders)[b]);
  }

  /** Every entry that came in is in exactly one shown entry, the one of its name, once, and shown
      entries hold nothing else: exactly if no entry with the text "bob the builder" meets another one
      of that name. */
  lemma Partition(builders: seq<TopBuilderEntry>, names: seq<string>, resp: seq<DisplayEntry>)
    requires Named(builders, names) && DistinctTexts(builders) && ListsMap(Merged(builders, names), resp)
    ensures forall i | 0 <= i < |builders| :: names[i] in NamesOf(resp)
    ensures (forall d | d in resp :: HoldsItsOwn(builders, names, d)) <==> !BobMeets(builders, names)
  {
    forall i | 0 <= i < |builders| ensures names[i] in NamesOf(resp) {
      MergedBalance(builders, names, names[i]);
    }
    if BobMeets(builders, names) {
      var i :| 0 <= i < |builders| && names[i] == BOB;
      var j :| 0 <= j < |resp| && NamesOf(resp)[j] == BOB;
      BobLacksOne(builders, names, resp, resp[j]);
    } else {
      forall d | d in resp ensures HoldsItsOwn(builders, names, d) {
        if d.info.extraData != BOB || NoBob(builders) {
          MostHoldTheirOwn(builders, names, resp, d);
        } else {
          var b :| 0 <= b < |builders| && builders[b].extraData == BOB;
          BobAlone(builders, names, resp, d, b);
        }
      }
    }
  }

  /** Said of the input alone: the text "bob the builder" and an episode are both in it. */
  ghost predicate BobCanMeet(builders: seq<TopBuilderEntry>) {
    exists i, b | 0 <= i < |builders| && 0 <= b < |builders| ::
      builders[b].extraData == BOB && LooksLikeBob(builders[i].extraData)
  }

  lemma MeetsForSomeNames(builders: seq<TopBuilderEntry>)
    requires DistinctTexts(builders)
    ensures BobCanMeet(builders) <==> exists names :: Named(builders, names) && BobMeets(builders, names)
  {
    BobIsUngrouped();
    if BobCanMeet(builders) {
      var i, b :| 0 <= i < |builders| && 0 <= b < |builders| && builders[b].extraData == BOB
                  && LooksLikeBob(builders[i].extraData);
      var any := SomeNames(builders);
      var names := any[i := BOB];
      assert Matches(BOB, Texts(builders)[i]);
      assert i != b by { assert !Matches(BOB, builders[b].extraData); }
      assert Named(builders, names) && BobMeets(builders, names);
    }
    if names :| Named(builders, names) && BobMeets(builders, names) {
      var i, b :| 0 <= i < |builders| && 0 <= b < |builders| && i != b && builders[b].extraData == BOB
                  && names[i] == BOB;
      assert Texts(builders)[i] != Texts(builders)[b];
      assert IsNameOf(names[i], Texts(builders)[i]);
    }
  }

  ghost predicate IsPartition(builders: seq<TopBuilderEntry>, names: seq<string>, resp: seq<DisplayEntry>)
    requires |names| == |builders|
  {
    forall d | d in resp :: HoldsItsOwn(builders, names, d)
  }

  /** What is shown partitions what came in for every order of the map of groups, exactly if the text
      "bob the builder" and an episode are not both in the input. */
  lemma PartitionForEveryOrder(builders: seq<TopBuilderEntry>)
    requires DistinctTexts(builders)
    ensures (forall names, resp | Named(builders, names) && ListsMap(Merged(builders, names), resp) ::
               IsPartition(builders, names, resp)) <==> !BobCanMeet(builders)
  {
    MeetsForSomeNames(builders);
    if BobCanMeet(builders) {
      var names :| Named(builders, names) && BobMeets(builders, names);
      MergedIsKeyed(builders, names);
      var resp := SomeListing(Merged(builders, names));
      Partition(builders, names, resp);
      assert !IsPartition(builders, names, resp);
    } else {
      forall names, resp | Named(builders, names) && ListsMap(Merged(builders, names), resp)
        ensures IsPartition(builders, names, resp)
      {
        Partition(builders, names, resp);
      }
    }
  }

  lemma {:induction false} SumPermutation(xs: seq<TopBuilderEntry>, ys: seq<TopBuilderEntry>)
    requires multiset(xs) == multiset(ys)
    ensures Sum(Blocks(xs)) == Sum(Blocks(ys))
    decreases |xs|
  {
    assert |xs| == |multiset(xs)| == |multiset(ys)| == |ys|;
    if xs != [] {
      var n := |xs| - 1;
      var k := LastIn(xs, ys);
      SumPermutation(xs[..n], ys[..k] + ys[k + 1..]);
      assert Blocks(xs)[..n] == Blocks(xs[..n]);
      SumWithout(ys, k);
    }
  }

  lemma {:induction false} SumWithout(ys: seq<TopBuilderEntry>, k: nat)
    requires k < |ys|
    ensures Sum(Blocks(ys)) == Sum(Blocks(ys[..k] + ys[k + 1..])) + ys[k].numBlocks
  {
    var n := |ys| - 1;
    assert Blocks(ys)[..n] == Blocks(ys[..n]);
    if k == n {
      assert ys[..k] + ys[k + 1..] == ys[..n];
    } else {
      SumWithout(ys[..n], k);
      var rest := ys[..n][..k] + ys[..n][k + 1..];
      assert ys[..k] + ys[k + 1..] == rest + [ys[n]];
      assert Blocks(rest + [ys[n]]) == Blocks(rest) + [ys[n].numBlocks];
      SumLast(Blocks(rest), ys[n].numBlocks);
    }
  }

  /** The blocks of a group are the sum over its children, all of which match, in descending order; an
      entry without children is one that came in. It holds of "bob the builder" too if that is no text. */
  lemma GroupsAreSums(builders: seq<TopBuilderEntry>, names: seq<string>, resp: seq<DisplayEntry>, j: nat)
    requires Named(builders, names) && DistinctTexts(builders) && ListsMap(Merged(builders, names), resp)
    requires j < |resp| && (resp[j].info.extraData == BOB ==> NoBob(builders))
    ensures WellMerged(resp[j], resp[j].info.extraData)
    ensures forall m, n | 0 <= m < n < |resp[j].children| ::
              resp[j].children[m].numBlocks >= resp[j].children[n].numBlocks
    ensures resp[j].children == [] ==> resp[j].info in builders
  {
    var d, name := resp[j], resp[j].info.extraData;
    var e := Merged(builders, names)[name];
    assert d in resp;
    MergedHolds(builders, names, name, d.info);
    SumPermutation(d.children, e.children);
    SameHolds(d, e);
    forall c | c in d.children ensures c in e.children {
      assert c in multiset(d.children);
    }
    assert d.children == [] <==> e.children == [] by {
      assert |d.children| == |multiset(d.children)| && |e.children| == |multiset(e.children)|;
    }
    if d.children == [] {
      assert Holds(d)[d.info] == 1;
      OccursExactlyThere(builders, names, name, d.info);
    }
  }
}
