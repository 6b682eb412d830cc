/** Builder groups by extra data (`vars/builder_aliases.go`). */
module BuilderGroups {
  import opened Decimal
  import opened Sequences
  import opened Substrings

  /** `s[0-9]+e[0-9]`, with the `s` at `i` and the `e` at `j`. */
  predicate EpisodeAt(text: string, i: int, j: int) {
    && 0 <= i && i + 1 < j < |text| - 1
    && text[i] == 's' && text[j] == 'e' && AllDigits(text[i + 1..j]) && IsDigit(text[j + 1])
  }

  /** `.*(t|f)` behind the digit at `j + 1`; `.` is no line break. */
  predicate EndsAt(text: string, j: int, k: int) {
    0 <= j + 2 <= k < |text| && (text[k] == 't' || text[k] == 'f') && '\n' !in text[j + 2..k]
  }

  /** The regular expression `s[0-9]+e[0-9].*(t|f)`, anywhere in the text. */
  predicate LooksLikeBob(text: string) {
    exists i, j, k | 0 <= i < |text| && 0 <= j < |text| && 0 <= k < |text| ::
      EpisodeAt(text, i, j) && EndsAt(text, j, k)
  }

  const BOB := "bob the builder"

  const GROUPS: set<string> := {"penguinbuild.org", "builder0x69", "rsync-builder.xyz", BOB, "BuilderNet"}

  /** `in` is an alias of the group. */
  predicate Matches(group: string, extraData: string) {
    if group == BOB then LooksLikeBob(extraData)
    else if group == "rsync-builder.xyz" then Contains(extraData, "rsync")
    else group in GROUPS && Contains(extraData, group)
  }

  /** Group predicates do not overlap on this text. */
  ghost predicate Unambiguous(extraData: string) {
    forall g, h | g in GROUPS && h in GROUPS && Matches(g, extraData) && Matches(h, extraData) :: g == h
  }

  ghost predicate Grouped(extraData: string) {
    exists g | g in GROUPS :: Matches(g, extraData)
  }

  /** What the range over the map of groups, in arbitrary order, can come up with. */
  ghost predicate IsNameOf(name: string, extraData: string) {
    if Grouped(extraData) then name in GROUPS && Matches(name, extraData) else name == extraData
  }

  ghost function SomeName(extraData: string): (name: string)
    ensures IsNameOf(name, extraData)
  {
    if Grouped(extraData) then
      var g :| g in GROUPS && Matches(g, extraData);
      g
    else extraData
  }

  method BuilderNameFromExtraData(extraData: string) returns (name: string)
    ensures IsNameOf(name, extraData)
  {
    var todo := GROUPS;
    while todo != {}
      invariant todo <= GROUPS
      invariant forall g | g in GROUPS - todo :: !Matches(g, extraData)
      decreases |todo|
    {
      var builder := AnyOf(todo);
      if Matches(builder, extraData) {
        return builder;
      }
      todo := todo - {builder};
    }
    name := extraData;
  }

  lemma NameIsUnique(m: string, n: string, extraData: string)
    requires IsNameOf(m, extraData) && IsNameOf(n, extraData) && Unambiguous(extraData)
    ensures m == n
  {
  }

  lemma BobIsUngrouped()
    ensures !Grouped(BOB)
  {
    assert forall i | 0 <= i < |BOB| :: !IsDigit(BOB[i]);
    NotContained(BOB, "penguinbuild.org", 0);
    NotContained(BOB, "builder0x69", 7);
    NotContained(BOB, "rsync", 1);
    NotContained(BOB, "BuilderNet", 0);
  }

  /** The only text outside all groups that is named like one. */
  lemma OnlyBobCollides(extraData: string)
    ensures extraData in GROUPS && !Grouped(extraData) <==> extraData == BOB
  {
    BobIsUngrouped();
    ContainsItself(extraData);
    if extraData == "rsync-builder.xyz" {
      assert OccursAt(extraData, "rsync", 0);
      assert Matches(extraData, extraData);
    } else if extraData in GROUPS && extraData != BOB {
      assert Matches(extraData, extraData);
    }
  }

  /** The words of the regular expression, taken apart. */
  ghost predicate EpisodeText(text: string, a: string, digits: string, digit: char, m: string, end: char, b: string) {
    && text == a + "s" + digits + "e" + [digit] + m + [end] + b
    && digits != "" && AllDigits(digits) && IsDigit(digit) && '\n' !in m && (end == 't' || end == 'f')
  }

  lemma EpisodeIsText(text: string, i: int, j: int, k: int)
    requires EpisodeAt(text, i, j) && EndsAt(text, j, k)
    ensures EpisodeText(text, text[..i], text[i + 1..j], text[j + 1], text[j + 2..k], text[k], text[k + 1..])
  {
  }

  lemma TextIsEpisode(text: string, a: string, digits: string, digit: char, m: string, end: char, b: string)
    requires EpisodeText(text, a, digits, digit, m, end, b)
    ensures LooksLikeBob(text)
  {
    var i := |a|;
    var j := i + 1 + |digits|;
    var k := j + 2 + |m|;
    assert text[i + 1..j] == digits && text[j + 2..k] == m;
    assert text[i] == 's' && text[j] == 'e' && text[j + 1] == digit && text[k] == end;
    assert EpisodeAt(text, i, j) && EndsAt(text, j, k);
  }

  /** A text looks like "bob the builder" exactly if it is a word of that language. */
  lemma LooksLikeBobMeans(text: string)
    ensures LooksLikeBob(text) <==>
              exists a, digits, digit, m, end, b :: EpisodeText(text, a, digits, digit, m, end, b)
  {
    if LooksLikeBob(text) {
      var i, j, k :| 0 <= i < |text| && 0 <= j < |text| && 0 <= k < |text|
        && EpisodeAt(text, i, j) && EndsAt(text, j, k);
      EpisodeIsText(text, i, j, k);
    }
    if a, digits, digit, m, end, b :| EpisodeText(text, a, digits, digit, m, end, b) {
      TextIsEpisode(text, a, digits, digit, m, end, b);
    }
  }

  /** The four other groups are those whose word is somewhere in the text. */
  lemma AliasesAreWords(text: string)
    ensures Matches("penguinbuild.org", text) <==> exists a, b :: text == a + "penguinbuild.org" + b
    ensures Matches("builder0x69", text) <==> exists a, b :: text == a + "builder0x69" + b
    ensures Matches("rsync-builder.xyz", text) <==> exists a, b :: text == a + "rsync" + b
    ensures Matches("BuilderNet", text) <==> exists a, b :: text == a + "BuilderNet" + b
    ensures forall g | Matches(g, text) ::
              g in ["penguinbuild.org", "builder0x69", "rsync-builder.xyz", "bob the builder", "BuilderNet"]
  {
    ContainsMeans(text, "penguinbuild.org");
    ContainsMeans(text, "builder0x69");
    ContainsMeans(text, "rsync");
    ContainsMeans(text, "BuilderNet");
  }

  /** Aliases that the repository's own test names. */
  lemma KnownAliases()
    ensures Matches("penguinbuild.org", "@penguinbuild.org")
    ensures Matches("builder0x69", "@builder0x69")
    ensures Matches(BOB, "s1e2xf")
  {
    assert OccursAt("@penguinbuild.org", "penguinbuild.org", 1);
    assert OccursAt("@builder0x69", "builder0x69", 1);
    assert EpisodeAt("s1e2xf", 0, 2) && EndsAt("s1e2xf", 2, 5);
  }

  lemma FoobarIsNoAlias()
    ensures !Grouped("foobar")
  {
    assert forall i | 0 <= i < 6 :: !IsDigit("foobar"[i]);
    NotContained("foobar", "penguinbuild.org", 0);
    NotContained("foobar", "builder0x69", 2);
    NotContained("foobar", "rsync", 1);
    NotContained("foobar", "BuilderNet", 0);
  }
}
