/** Sets of strings kept as text, one line per element, with a substring test for membership
    (`cmd/core/update-builder-stats.go`). */
module LineSets {
  import opened Sequences
  import opened Substrings

  function JoinLines(lines: seq<string>): string {
    if lines == [] then "" else JoinLines(lines[..|lines| - 1]) + lines[|lines| - 1] + "\n"
  }

  predicate IsSuffix(v: string, line: string) {
    |v| <= |line| && line[|line| - |v|..] == v
  }

  predicate IsLine(v: string) {
    '\n' !in v
  }

  ghost predicate AllLines(lines: seq<string>) {
    forall i | 0 <= i < |lines| :: IsLine(lines[i])
  }

  lemma JoinAppend(lines: seq<string>, v: string)
    ensures JoinLines(lines + [v]) == JoinLines(lines) + v + "\n"
  {
    assert (lines + [v])[..|lines|] == lines;
  }

  lemma {:induction false} JoinEndsInBreak(lines: seq<string>)
    requires lines != []
    ensures JoinLines(lines) != "" && JoinLines(lines)[|JoinLines(lines)| - 1] == '\n'
  {
  }

  ghost predicate SuffixOfSome(v: string, lines: seq<string>) {
    exists i | 0 <= i < |lines| :: IsSuffix(v, lines[i])
  }

  /** An occurrence that ends inside the earlier lines is one of theirs. */
  lemma OccurrenceInFront(front: string, rest: string, part: string, p: int)
    requires OccursAt(front + rest, part, p) && p + |part| <= |front|
    ensures OccursAt(front, part, p)
  {
    assert (front + rest)[p..p + |part|] == front[p..p + |part|];
  }

  lemma BreakInside(text: string, v: string, p: int, at: int)
    requires OccursAt(text, v + "\n", p) && p <= at < p + |v|
    ensures text[at] in v
  {
    assert text[p..p + |v + "\n"|][at - p] == (v + "\n")[at - p] == v[at - p];
  }

  /** An occurrence that reaches into the last line is the end of that line. */
  lemma OccurrenceAtEnd(front: string, last: string, v: string, p: int)
    requires IsLine(v) && IsLine(last) && (front != "" ==> front[|front| - 1] == '\n')
    requires OccursAt(front + last + "\n", v + "\n", p) && p + |v| + 1 > |front|
    ensures IsSuffix(v, last)
  {
    var text := front + last + "\n";
    var q := p + |v|;
    assert text[q] == text[p..p + |v + "\n"|][|v|] == '\n';
    assert q == |text| - 1;
    if |v| > |last| {
      assert front != "";
      BreakInside(text, v, p, |front| - 1);
    }
    assert text[p..q] == text[p..p + |v + "\n"|][..|v|] == v;
    assert text[p..q] == last[|last| - |v|..];
  }

  lemma OccursBefore(front: string, rest: string, part: string)
    requires Contains(front, part)
    ensures Contains(front + rest, part)
  {
    var p :| 0 <= p <= |front| && OccursAt(front, part, p);
    assert (front + rest)[p..p + |part|] == front[p..p + |part|];
    assert OccursAt(front + rest, part, p);
  }

  lemma SuffixOccurs(front: string, last: string, v: string)
    requires IsSuffix(v, last)
    ensures Contains(front + last + "\n", v + "\n")
  {
    var p := |front| + |last| - |v|;
    assert (front + last + "\n")[p..p + |v + "\n"|] == v + "\n";
    assert OccursAt(front + last + "\n", v + "\n", p);
  }

  /** An occurrence is either in the earlier lines or at the end of the last one. */
  lemma OccursSomewhere(front: string, last: string, v: string)
    requires IsLine(v) && IsLine(last) && (front != "" ==> front[|front| - 1] == '\n')
    requires Contains(front + last + "\n", v + "\n")
    ensures Contains(front, v + "\n") || IsSuffix(v, last)
  {
    var text, part := front + last + "\n", v + "\n";
    var p :| 0 <= p <= |text| && OccursAt(text, part, p);
    if p + |part| <= |front| {
      assert text == front + (last + "\n");
      OccurrenceInFront(front, last + "\n", part, p);
    } else {
      OccurrenceAtEnd(front, last, v, p);
    }
  }

  lemma SuffixSplit(v: string, lines: seq<string>)
    requires lines != []
    ensures SuffixOfSome(v, lines) <==> SuffixOfSome(v, lines[..|lines| - 1]) || IsSuffix(v, lines[|lines| - 1])
  {
    var front := lines[..|lines| - 1];
    if SuffixOfSome(v, front) {
      var i :| 0 <= i < |front| && IsSuffix(v, front[i]);
      assert IsSuffix(v, lines[i]);
    }
    if i :| 0 <= i < |front| && IsSuffix(v, lines[i]) {
      assert IsSuffix(v, front[i]);
    }
  }

  /** The substring test finds a text exactly if it is a suffix of some line. */
  lemma {:induction false} ContainsLine(lines: seq<string>, v: string)
    requires AllLines(lines) && IsLine(v)
    ensures Contains(JoinLines(lines), v + "\n") <==> SuffixOfSome(v, lines)
  {
    if lines != [] {
      var front, last := JoinLines(lines[..|lines| - 1]), lines[|lines| - 1];
      ContainsLine(lines[..|lines| - 1], v);
      SuffixSplit(v, lines);
      if Contains(front, v + "\n") {
        assert front + last + "\n" == front + (last + "\n");
        OccursBefore(front, last + "\n", v + "\n");
      }
      if IsSuffix(v, last) { SuffixOccurs(front, last, v); }
      if Contains(front + last + "\n", v + "\n") {
        if |lines| > 1 { JoinEndsInBreak(lines[..|lines| - 1]); }
        OccursSomewhere(front, last, v);
      }
    }
  }

  // ---------------------------------------------------------------- adding to a text

  function AddLine(text: string, v: string): string {
    if Contains(text, v + "\n") then text else text + v + "\n"
  }

  /** `text` lists `lines`: none twice, only values that were seen, and every seen value is a
      suffix of one. */
  ghost predicate Lists(text: string, lines: seq<string>, seen: set<string>) {
    && text == JoinLines(lines) && AllLines(lines) && NoDuplicates(lines)
    && (forall i | 0 <= i < |lines| :: lines[i] in seen)
    && (forall v {:trigger SuffixOfSome(v, lines)} | v in seen :: SuffixOfSome(v, lines))
  }

  ghost predicate IsSound(text: string, seen: set<string>) {
    exists lines :: Lists(text, lines, seen)
  }

  /** `text` lists exactly the seen values, each once. */
  ghost predicate IsExact(text: string, seen: set<string>) {
    exists lines :: Lists(text, lines, seen) && (set line | line in lines) == seen
  }

  lemma ListsKnown(text: string, lines: seq<string>, seen: set<string>, v: string)
    requires Lists(text, lines, seen) && SuffixOfSome(v, lines)
    ensures Lists(text, lines, seen + {v})
  {
  }

  lemma SuffixOfMore(u: string, lines: seq<string>, v: string)
    requires SuffixOfSome(u, lines) || u == v
    ensures SuffixOfSome(u, lines + [v])
  {
    var more := lines + [v];
    if u == v {
      assert IsSuffix(u, more[|lines|]);
    } else {
      var i :| 0 <= i < |lines| && IsSuffix(u, lines[i]);
      assert IsSuffix(u, more[i]);
    }
  }

  lemma NoLineEquals(lines: seq<string>, v: string)
    requires !SuffixOfSome(v, lines)
    ensures forall i | 0 <= i < |lines| :: lines[i] != v
  {
    forall i | 0 <= i < |lines| ensures lines[i] != v {
      assert !IsSuffix(v, lines[i]);
    }
  }

  lemma ListsMore(text: string, lines: seq<string>, seen: set<string>, v: string)
    requires Lists(text, lines, seen) && IsLine(v) && !SuffixOfSome(v, lines)
    ensures Lists(text + v + "\n", lines + [v], seen + {v})
  {
    JoinAppend(lines, v);
    NoLineEquals(lines, v);
    forall u | u in seen + {v} ensures SuffixOfSome(u, lines + [v]) {
      SuffixOfMore(u, lines, v);
    }
  }

  lemma AddLineKeepsSound(text: string, seen: set<string>, v: string)
    requires IsSound(text, seen) && IsLine(v)
    ensures IsSound(AddLine(text, v), seen + {v})
  {
    var lines :| Lists(text, lines, seen);
    ContainsLine(lines, v);
    if SuffixOfSome(v, lines) {
      ListsKnown(text, lines, seen, v);
    } else {
      ListsMore(text, lines, seen, v);
    }
  }

  lemma SuffixOfSameLength(v: string, lines: seq<string>)
    requires SuffixOfSome(v, lines) && forall i | 0 <= i < |lines| :: |lines[i]| == |v|
    ensures v in lines
  {
    var i :| 0 <= i < |lines| && IsSuffix(v, lines[i]);
    assert lines[i][0..] == lines[i];
  }

  /** With values of one length a suffix is the line itself, so the text is an exact set. */
  lemma SoundIsExactOnFixedLength(text: string, seen: set<string>, n: nat)
    requires IsSound(text, seen) && forall v | v in seen :: |v| == n
    ensures IsExact(text, seen)
  {
    var lines :| Lists(text, lines, seen);
    forall v | v in seen ensures v in lines {
      SuffixOfSameLength(v, lines);
    }
    assert (set line | line in lines) == seen;
  }

  /** The suffix loss is real: after "ab" the value "b" is not recorded. */
  lemma SuffixIsLost()
    ensures AddLine(AddLine("", "ab"), "b") == AddLine("", "ab") == "ab\n"
    ensures !IsExact(AddLine(AddLine("", "ab"), "b"), {"ab", "b"})
  {
    assert "ab" + "\n" == "ab\n" && "b" + "\n" == "b\n";
    assert !Contains("", "ab\n");
    assert "" + "ab" + "\n" == "ab\n";
    assert OccursAt("ab\n", "b\n", 1);
    if IsExact("ab\n", {"ab", "b"}) {
      var lines :| Lists("ab\n", lines, {"ab", "b"}) && (set line | line in lines) == {"ab", "b"};
      assert "ab" in lines && "b" in lines;
      var i :| 0 <= i < |lines| && lines[i] == "ab";
      var j :| 0 <= j < |lines| && lines[j] == "b";
      JoinLength(lines, i, j);
      assert false;
    }
  }

  lemma {:induction false} JoinLength(lines: seq<string>, i: int, j: int)
    requires 0 <= i < |lines| && 0 <= j < |lines| && i != j
    ensures |JoinLines(lines)| >= |lines[i]| + |lines[j]| + 2
  {
    var n := |lines| - 1;
    if i == n {
      JoinLongerThanLine(lines[..n], j);
    } else if j == n {
      JoinLongerThanLine(lines[..n], i);
    } else {
      JoinLength(lines[..n], i, j);
    }
  }

  lemma {:induction false} JoinLongerThanLine(lines: seq<string>, i: int)
    requires 0 <= i < |lines|
    ensures |JoinLines(lines)| >= |lines[i]| + 1
  {
    if i < |lines| - 1 {
      JoinLongerThanLine(lines[..|lines| - 1], i);
    }
  }

  // ---------------------------------------------------------------- exactly when the text is a set

  /** The text after all these values. */
  function AddAll(vs: seq<string>): string {
    if vs == [] then "" else AddLine(AddAll(vs[..|vs| - 1]), vs[|vs| - 1])
  }

  /** The lines it has. */
  ghost function Recorded(vs: seq<string>): seq<string> {
    if vs == [] then []
    else
      var lines, v := Recorded(vs[..|vs| - 1]), vs[|vs| - 1];
      if SuffixOfSome(v, lines) then lines else lines + [v]
  }

  ghost function ValuesOf(vs: seq<string>): set<string> {
    set v | v in vs
  }

  lemma {:induction false} AddAllIsRecorded(vs: seq<string>)
    requires AllLines(vs)
    ensures AddAll(vs) == JoinLines(Recorded(vs)) && AllLines(Recorded(vs))
    ensures forall line | line in Recorded(vs) :: line in vs
  {
    if vs != [] {
      var front, v := vs[..|vs| - 1], vs[|vs| - 1];
      AddAllIsRecorded(front);
      ContainsLine(Recorded(front), v);
      JoinAppend(Recorded(front), v);
      assert vs == front + [v];
    }
  }

  /** Two texts of lines that are equal end in the same line. */
  lemma SameLastLine(front: string, last: string, front': string, last': string)
    requires IsLine(last) && IsLine(last')
    requires (front != "" ==> front[|front| - 1] == '\n') && (front' != "" ==> front'[|front'| - 1] == '\n')
    requires front + last + "\n" == front' + last' + "\n"
    ensures front == front' && last == last'
  {
    var text := front + last + "\n";
    assert forall k | |front| <= k < |text| - 1 :: text[k] == last[k - |front|];
    assert forall k | |front'| <= k < |text| - 1 :: text[k] == last'[k - |front'|];
    assert |front| > 0 ==> text[|front| - 1] == '\n';
    assert |front'| > 0 ==> text[|front'| - 1] == '\n';
    assert |front| == |front'|;
    assert front == text[..|front|] == front';
    assert last == text[|front|..|text| - 1] == last';
  }

  lemma {:induction false} JoinInjective(a: seq<string>, b: seq<string>)
    requires AllLines(a) && AllLines(b) && JoinLines(a) == JoinLines(b)
    ensures a == b
  {
    if a == [] || b == [] {
      if a != [] { JoinEndsInBreak(a); }
      if b != [] { JoinEndsInBreak(b); }
    } else {
      var m, n := |a| - 1, |b| - 1;
      if m > 0 { JoinEndsInBreak(a[..m]); }
      if n > 0 { JoinEndsInBreak(b[..n]); }
      SameLastLine(JoinLines(a[..m]), a[m], JoinLines(b[..n]), b[n]);
      JoinInjective(a[..m], b[..n]);
      assert a == a[..m] + [a[m]] && b == b[..n] + [b[n]];
    }
  }

  lemma {:induction false} AddAllIsSound(vs: seq<string>)
    requires AllLines(vs)
    ensures Lists(AddAll(vs), Recorded(vs), ValuesOf(vs))
  {
    if vs == [] {
      assert ValuesOf(vs) == {};
    } else {
      var front, v := vs[..|vs| - 1], vs[|vs| - 1];
      AddAllIsSound(front);
      AddAllIsRecorded(front);
      ContainsLine(Recorded(front), v);
      assert vs == front + [v] && ValuesOf(vs) == ValuesOf(front) + {v};
      if SuffixOfSome(v, Recorded(front)) {
        ListsKnown(AddAll(front), Recorded(front), ValuesOf(front), v);
      } else {
        ListsMore(AddAll(front), Recorded(front), ValuesOf(front), v);
      }
    }
  }

  lemma SuffixTransitive(u: string, v: string, line: string)
    requires IsSuffix(u, v) && IsSuffix(v, line)
    ensures IsSuffix(u, line)
  {
    assert line[|line| - |u|..] == line[|line| - |v|..][|v| - |u|..];
  }

  /** A value that is a suffix of a recorded line before it comes up is never recorded. */
  lemma {:induction false} NeverRecorded(vs: seq<string>, i: nat, v: string)
    requires AllLines(vs) && i <= |vs| && v !in vs[..i] && SuffixOfSome(v, Recorded(vs[..i]))
    ensures v !in Recorded(vs) && SuffixOfSome(v, Recorded(vs))
    decreases |vs|
  {
    if i == |vs| {
      assert vs[..i] == vs;
      AddAllIsRecorded(vs);
    } else {
      var front := vs[..|vs| - 1];
      assert front[..i] == vs[..i];
      NeverRecorded(front, i, v);
      if Recorded(vs) != Recorded(front) { SuffixOfMore(v, Recorded(front), vs[|vs| - 1]); }
    }
  }

  /** Every value that is a suffix of an earlier one has itself come up earlier. */
  ghost predicate SuffixesComeFirst(vs: seq<string>) {
    forall i, j | 0 <= j < i < |vs| && IsSuffix(vs[i], vs[j]) :: vs[i] in vs[..i]
  }

  lemma SuffixOfAValue(vs: seq<string>, v: string) returns (j: nat)
    requires AllLines(vs) && SuffixOfSome(v, Recorded(vs))
    ensures j < |vs| && IsSuffix(v, vs[j])
  {
    AddAllIsRecorded(vs);
    var lines := Recorded(vs);
    var k :| 0 <= k < |lines| && IsSuffix(v, lines[k]);
    assert lines[k] in lines;
    j :| 0 <= j < |vs| && vs[j] == lines[k];
  }

  lemma SuffixesComeFirstBefore(vs: seq<string>, n: nat)
    requires SuffixesComeFirst(vs) && n <= |vs|
    ensures SuffixesComeFirst(vs[..n])
  {
    forall i, j | 0 <= j < i < n && IsSuffix(vs[..n][i], vs[..n][j]) ensures vs[..n][i] in vs[..n][..i] {
      assert vs[..n][..i] == vs[..i];
    }
  }

  lemma {:induction false} AllRecorded(vs: seq<string>)
    requires AllLines(vs) && SuffixesComeFirst(vs)
    ensures forall v | v in vs :: v in Recorded(vs)
  {
    if vs != [] {
      var n := |vs| - 1;
      SuffixesComeFirstBefore(vs, n);
      AllRecorded(vs[..n]);
      assert vs == vs[..n] + [vs[n]];
      if SuffixOfSome(vs[n], Recorded(vs[..n])) {
        var j := SuffixOfAValue(vs[..n], vs[n]);
        assert IsSuffix(vs[n], vs[j]);
      }
    }
  }

  lemma LateSuffixIsLost(vs: seq<string>, i: nat, j: nat)
    requires AllLines(vs) && j < i < |vs| && IsSuffix(vs[i], vs[j]) && vs[i] !in vs[..i]
    ensures vs[i] !in Recorded(vs)
  {
    AddAllIsSound(vs[..i]);
    assert vs[..i][j] == vs[j];
    assert SuffixOfSome(vs[j], Recorded(vs[..i]));
    var k :| 0 <= k < |Recorded(vs[..i])| && IsSuffix(vs[j], Recorded(vs[..i])[k]);
    SuffixTransitive(vs[i], vs[j], Recorded(vs[..i])[k]);
    NeverRecorded(vs, i, vs[i]);
  }

  lemma ExactHasAll(vs: seq<string>, v: string)
    requires AllLines(vs) && IsExact(AddAll(vs), ValuesOf(vs)) && v in vs
    ensures v in Recorded(vs)
  {
    AddAllIsRecorded(vs);
    var lines :| Lists(AddAll(vs), lines, ValuesOf(vs)) && (set line | line in lines) == ValuesOf(vs);
    JoinInjective(lines, Recorded(vs));
    assert v in ValuesOf(vs);
  }

  lemma AllMeansExact(vs: seq<string>)
    requires AllLines(vs) && forall v | v in vs :: v in Recorded(vs)
    ensures IsExact(AddAll(vs), ValuesOf(vs))
  {
    AddAllIsSound(vs);
    AddAllIsRecorded(vs);
    assert (set line | line in Recorded(vs)) == ValuesOf(vs);
  }

  /** The text lists exactly the values, each once, if and only if no value is a suffix of an earlier
      one without having come up before itself. */
  lemma ExactlyWhenSuffixesComeFirst(vs: seq<string>)
    requires AllLines(vs)
    ensures IsExact(AddAll(vs), ValuesOf(vs)) <==> SuffixesComeFirst(vs)
  {
    if SuffixesComeFirst(vs) {
      AllRecorded(vs);
      AllMeansExact(vs);
    } else {
      var i, j :| 0 <= j < i < |vs| && IsSuffix(vs[i], vs[j]) && vs[i] !in vs[..i];
      LateSuffixIsLost(vs, i, j);
      if IsExact(AddAll(vs), ValuesOf(vs)) { ExactHasAll(vs, vs[i]); }
    }
  }

  ghost predicate NoProperSuffix(values: set<string>) {
    forall v, w | v in values && w in values && IsSuffix(v, w) :: v == w
  }

  /** Without proper suffixes the order does not matter. */
  lemma ExactInEveryOrder(vs: seq<string>)
    requires AllLines(vs) && NoProperSuffix(ValuesOf(vs))
    ensures IsExact(AddAll(vs), ValuesOf(vs))
  {
    forall i, j | 0 <= j < i < |vs| && IsSuffix(vs[i], vs[j]) ensures vs[i] in vs[..i] {
      assert vs[i] in ValuesOf(vs) && vs[j] in ValuesOf(vs);
      assert vs[..i][j] == vs[j];
    }
    ExactlyWhenSuffixesComeFirst(vs);
  }

  lemma {:induction false} FirstOccurrence(vs: seq<string>, v: string) returns (i: nat)
    requires v in vs
    ensures i < |vs| && vs[i] == v && v !in vs[..i]
  {
    var front := vs[..|vs| - 1];
    if v in front {
      i := FirstOccurrence(front, v);
      assert front[..i] == vs[..i];
    } else {
      i := |vs| - 1;
    }
  }

  /** With a proper suffix it matters: it is lost if the longer value comes first. */
  lemma NotExactInThisOrder(vs: seq<string>, v: string)
    requires AllLines(vs) && v in vs && IsSuffix(v, vs[0]) && v != vs[0]
    ensures !IsExact(AddAll(vs), ValuesOf(vs))
  {
    var i := FirstOccurrence(vs, v);
    ExactlyWhenSuffixesComeFirst(vs);
    assert IsSuffix(vs[i], vs[0]);
  }
}
