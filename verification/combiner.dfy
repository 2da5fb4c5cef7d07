/** `Baseline.FluentHttpExtensions.FileCombiner`: the program that generates the
    single-file distribution. With directory enumeration and file reading and
    writing taken out, it is a transformation of lists of lines: choose and
    order the source files, move every `using` line out of them into one sorted,
    duplicate-free block, drop blank lines, and lay the result out under a fixed
    banner. Strings are compared ordinally; the culture-sensitive comparisons
    .NET uses for `EndsWith`, `StartsWith` and ordering are not modelled. */
module Combiner {
  import opened Text

  // ---------------------------------------------------------------------------
  // Ordering: `OrderBy(key).ThenBy(x => x)`.

  /** `a` may come before `b` when its key is smaller, or the keys tie and `a`
      is ordinally no greater. */
  predicate Precedes(rank: string -> nat, a: string, b: string) {
    rank(a) < rank(b) || (rank(a) == rank(b) && OrdinalLessOrEqual(a, b))
  }

  lemma PrecedesTotal(rank: string -> nat, a: string, b: string)
    ensures Precedes(rank, a, b) || Precedes(rank, b, a)
  {
    OrdinalTotal(a, b);
  }

  lemma PrecedesTransitive(rank: string -> nat, a: string, b: string, c: string)
    requires Precedes(rank, a, b) && Precedes(rank, b, c)
    ensures Precedes(rank, a, c)
  {
    if rank(a) == rank(b) == rank(c) {
      OrdinalTransitive(a, b, c);
    }
  }

  predicate Sorted(rank: string -> nat, s: seq<string>) {
    forall i, j :: 0 <= i < j < |s| ==> Precedes(rank, s[i], s[j])
  }

  /** Places `x` before the first element it may precede. */
  function Insert(rank: string -> nat, x: string, s: seq<string>): (r: seq<string>)
    ensures multiset(r) == multiset(s) + multiset{x}
    decreases |s|
  {
    if |s| == 0 then [x]
    else if Precedes(rank, x, s[0]) then [x] + s
    else
      assert s == [s[0]] + s[1..];
      [s[0]] + Insert(rank, x, s[1..])
  }

  lemma {:induction false} InsertSorted(rank: string -> nat, x: string, s: seq<string>)
    requires Sorted(rank, s)
    ensures Sorted(rank, Insert(rank, x, s))
    decreases |s|
  {
    if |s| == 0 {
    } else if Precedes(rank, x, s[0]) {
      var r := [x] + s;
      forall i, j | 0 <= i < j < |r| ensures Precedes(rank, r[i], r[j]) {
        if i == 0 && j > 1 {
          PrecedesTransitive(rank, x, s[0], s[j - 1]);
        }
      }
    } else {
      var rest := Insert(rank, x, s[1..]);
      InsertSorted(rank, x, s[1..]);
      PrecedesTotal(rank, x, s[0]);
      forall j | 0 <= j < |rest| ensures Precedes(rank, s[0], rest[j]) {
        var y := rest[j];
        assert y in multiset(rest);
        if y != x {
          assert y in multiset(s[1..]);
          var k :| 0 <= k < |s[1..]| && s[1..][k] == y;
          assert s[k + 1] == y;
        }
      }
      var r := [s[0]] + rest;
      forall i, j | 0 <= i < j < |r| ensures Precedes(rank, r[i], r[j]) {
        if i > 0 {
          assert r[i] == rest[i - 1] && r[j] == rest[j - 1];
        }
      }
    }
  }

  /** A stable sort by the order `Precedes(rank, _, _)`. */
  function SortBy(rank: string -> nat, xs: seq<string>): (r: seq<string>)
    ensures multiset(r) == multiset(xs)
    decreases |xs|
  {
    if |xs| == 0 then []
    else
      assert xs == [xs[0]] + xs[1..];
      Insert(rank, xs[0], SortBy(rank, xs[1..]))
  }

  lemma {:induction false} SortBySorted(rank: string -> nat, xs: seq<string>)
    ensures Sorted(rank, SortBy(rank, xs))
    decreases |xs|
  {
    if |xs| > 0 {
      SortBySorted(rank, xs[1..]);
      InsertSorted(rank, xs[0], SortBy(rank, xs[1..]));
    }
  }

  // ---------------------------------------------------------------------------
  // Choosing the files.

  const SourceExtension: string := ".cs"
  const RequestFileName: string := "HttpRequest.cs"

  predicate IsSource(path: string) {
    EndsWith(path, SourceExtension)
  }

  /** `Where(x => x.EndsWith(".cs"))`, in enumeration order. */
  function Sources(paths: seq<string>): (r: seq<string>)
    ensures forall p :: p in r <==> p in paths && IsSource(p)
    ensures |r| <= |paths|
    decreases |paths|
  {
    if |paths| == 0 then []
    else
      var init := Sources(paths[..|paths| - 1]);
      assert paths == paths[..|paths| - 1] + [paths[|paths| - 1]];
      if IsSource(paths[|paths| - 1]) then init + [paths[|paths| - 1]] else init
  }

  /** The `OrderBy` key: paths containing "HttpRequest.cs" first. */
  function PathRank(path: string): nat {
    if Contains(path, RequestFileName) then 0 else 1
  }

  /** The files to combine: the `.cs` paths, and only those, ordered by key and
      then ordinally. */
  function FilesToCombine(paths: seq<string>): (files: seq<string>)
    ensures multiset(files) == multiset(Sources(paths))
    ensures forall p :: p in files <==> p in paths && IsSource(p)
    ensures Sorted(PathRank, files)
  {
    var files := SortBy(PathRank, Sources(paths));
    SortBySorted(PathRank, Sources(paths));
    assert forall p :: p in files <==> p in multiset(Sources(paths));
    files
  }

  /** A file whose path contains "HttpRequest.cs" is preceded only by such files. */
  lemma RequestFilesFirst(paths: seq<string>, i: nat, j: nat)
    requires i < j < |FilesToCombine(paths)|
    requires Contains(FilesToCombine(paths)[j], RequestFileName)
    ensures Contains(FilesToCombine(paths)[i], RequestFileName)
  {
    assert Precedes(PathRank, FilesToCombine(paths)[i], FilesToCombine(paths)[j]);
  }

  // ---------------------------------------------------------------------------
  // The lines of one file.

  const UsingKeyword: string := "using"

  predicate IsUsing(line: string) {
    StartsWith(line, UsingKeyword)
  }

  /** A line that survives into the body: neither a `using` line nor blank. */
  predicate Kept(line: string) {
    !IsUsing(line) && !IsBlank(line)
  }

  /** The kept lines, in their order. */
  function KeptLines(lines: seq<string>): (r: seq<string>)
    ensures forall l :: l in r <==> l in lines && Kept(l)
    decreases |lines|
  {
    if |lines| == 0 then []
    else
      var last := lines[|lines| - 1];
      assert lines == lines[..|lines| - 1] + [last];
      KeptLines(lines[..|lines| - 1]) + (if Kept(last) then [last] else [])
  }

  /** Filtering a concatenation filters each part: nothing is reordered. */
  lemma {:induction false} KeptLinesAppend(a: seq<string>, b: seq<string>)
    ensures KeptLines(a + b) == KeptLines(a) + KeptLines(b)
    decreases |b|
  {
    if |b| == 0 {
      assert a + b == a;
    } else {
      var last := b[|b| - 1];
      assert (a + b)[..|a + b| - 1] == a + b[..|b| - 1];
      KeptLinesAppend(a, b[..|b| - 1]);
    }
  }

  predicate NoDuplicates(s: seq<string>) {
    forall i, j :: 0 <= i < j < |s| ==> s[i] != s[j]
  }

  /** The `using` list after reading `lines`: each `using` line not yet listed is
      appended, so the list keeps its first-seen order and holds each line once. */
  function Collect(known: seq<string>, lines: seq<string>): (r: seq<string>)
    ensures |known| <= |r| && r[..|known|] == known
    ensures forall l :: l in r <==> l in known || (l in lines && IsUsing(l))
    ensures forall i :: |known| <= i < |r| ==> IsUsing(r[i])
    ensures NoDuplicates(known) ==> NoDuplicates(r)
    decreases |lines|
  {
    if |lines| == 0 then known
    else
      var last := lines[|lines| - 1];
      var before := Collect(known, lines[..|lines| - 1]);
      assert lines == lines[..|lines| - 1] + [last];
      if IsUsing(last) && last !in before then
        assert (before + [last])[..|known|] == before[..|known|];
        before + [last]
      else before
  }

  /** Collecting over a concatenation collects over each part in turn. */
  lemma {:induction false} CollectAppend(known: seq<string>, a: seq<string>, b: seq<string>)
    ensures Collect(known, a + b) == Collect(Collect(known, a), b)
    decreases |b|
  {
    if |b| == 0 {
      assert a + b == a;
    } else {
      assert (a + b)[..|a + b| - 1] == a + b[..|b| - 1];
      CollectAppend(known, a, b[..|b| - 1]);
    }
  }

  lemma KeptLinesSnoc(lines: seq<string>, i: nat)
    requires i < |lines|
    ensures KeptLines(lines[..i + 1]) == KeptLines(lines[..i]) + (if Kept(lines[i]) then [lines[i]] else [])
  {
    assert lines[..i + 1][..i] == lines[..i];
  }

  lemma CollectSnoc(known: seq<string>, lines: seq<string>, i: nat)
    requires i < |lines|
    ensures Collect(known, lines[..i + 1])
         == var before := Collect(known, lines[..i]);
            if IsUsing(lines[i]) && lines[i] !in before then before + [lines[i]] else before
  {
    assert lines[..i + 1][..i] == lines[..i];
  }

  /** One pass over a file, as the program makes it: `using` lines go to the
      shared list, blank lines are skipped, the rest is the body. */
  method StripFile(lines: seq<string>, usings: seq<string>) returns (body: seq<string>, collected: seq<string>)
    ensures body == KeptLines(lines)
    ensures collected == Collect(usings, lines)
  {
    body := [];
    collected := usings;
    var i := 0;
    while i < |lines|
      invariant 0 <= i <= |lines|
      invariant body == KeptLines(lines[..i])
      invariant collected == Collect(usings, lines[..i])
    {
      var line := lines[i];
      KeptLinesSnoc(lines, i);
      CollectSnoc(usings, lines, i);
      if IsUsing(line) {
        if line !in collected {
          collected := collected + [line];
        }
      } else if !IsBlank(line) {
        body := body + [line];
      }
      i := i + 1;
    }
    assert lines[..|lines|] == lines;
  }

  /** All the lines of several files, in order. */
  function Flatten(files: seq<seq<string>>): seq<string>
    decreases |files|
  {
    if |files| == 0 then [] else Flatten(files[..|files| - 1]) + files[|files| - 1]
  }

  /** The body of each file, in file order. */
  function BodiesOf(contents: seq<seq<string>>): (bodies: seq<seq<string>>)
    ensures |bodies| == |contents|
    ensures forall k :: 0 <= k < |contents| ==> bodies[k] == KeptLines(contents[k])
    decreases |contents|
  {
    if |contents| == 0 then []
    else BodiesOf(contents[..|contents| - 1]) + [KeptLines(contents[|contents| - 1])]
  }

  lemma BodiesOfSnoc(contents: seq<seq<string>>, i: nat)
    requires i < |contents|
    ensures BodiesOf(contents[..i + 1]) == BodiesOf(contents[..i]) + [KeptLines(contents[i])]
  {
    assert contents[..i + 1][..i] == contents[..i];
  }

  /** Reading one more file continues the collection where it stood. */
  lemma CollectFilesSnoc(contents: seq<seq<string>>, i: nat)
    requires i < |contents|
    ensures Collect([], Flatten(contents[..i + 1])) == Collect(Collect([], Flatten(contents[..i])), contents[i])
  {
    assert contents[..i + 1][..i] == contents[..i];
    assert Flatten(contents[..i + 1]) == Flatten(contents[..i]) + contents[i];
    CollectAppend([], Flatten(contents[..i]), contents[i]);
  }

  /** The loop over the files: one body per file, and the `using` lines of all
      files collected in reading order. */
  method StripFiles(contents: seq<seq<string>>) returns (usings: seq<string>, bodies: seq<seq<string>>)
    ensures usings == Collect([], Flatten(contents))
    ensures NoDuplicates(usings)
    ensures |bodies| == |contents|
    ensures forall k :: 0 <= k < |contents| ==> bodies[k] == KeptLines(contents[k])
  {
    usings := [];
    bodies := [];
    var i := 0;
    while i < |contents|
      invariant 0 <= i <= |contents|
      invariant usings == Collect([], Flatten(contents[..i]))
      invariant bodies == BodiesOf(contents[..i])
    {
      var body, collected := StripFile(contents[i], usings);
      CollectFilesSnoc(contents, i);
      BodiesOfSnoc(contents, i);
      usings := collected;
      bodies := bodies + [body];
      i := i + 1;
    }
    assert contents[..|contents|] == contents;
  }

  // ---------------------------------------------------------------------------
  // The output.

  const Rule: string := "// -------------------------------------------------------------------------------------------------- //"

  /** The banner, one line per `AppendLine`. */
  const Banner: seq<string> := [Rule, "// THIS IS A SUPER DUPER AUTOMAGICALLY GENERATED FILE. DO NOT EDIT DIRECTLY PLEASE.                   //", Rule, "// For more information and documentation, visit the Baseline.FluentHttpExtensions Github repository. //", "// https://github.com/lsymonds/Baseline.FluentHttpExtensions                                          //", Rule]

  /** `AppendLine` of each line in turn (a line feed after each). */
  function Unlines(lines: seq<string>): string
    decreases |lines|
  {
    if |lines| == 0 then "" else Unlines(lines[..|lines| - 1]) + lines[|lines| - 1] + "\n"
  }

  lemma {:induction false} UnlinesAppend(a: seq<string>, b: seq<string>)
    ensures Unlines(a + b) == Unlines(a) + Unlines(b)
    decreases |b|
  {
    if |b| == 0 {
      assert a + b == a;
    } else {
      assert (a + b)[..|a + b| - 1] == a + b[..|b| - 1];
      UnlinesAppend(a, b[..|b| - 1]);
    }
  }

  /** The `using` block is sorted by the strings alone. */
  function NoRank(line: string): nat {
    0
  }

  /** The body text of each file, each followed by one more line feed. */
  function AppendBodies(bodies: seq<seq<string>>): string
    decreases |bodies|
  {
    if |bodies| == 0 then "" else AppendBodies(bodies[..|bodies| - 1]) + Unlines(bodies[|bodies| - 1]) + "\n"
  }

  /** The text the program writes, built as the `StringBuilder` builds it: the
      banner, whose last line carries an extra line feed, the sorted `using`
      lines, an empty line, then every body. */
  function Render(usings: seq<string>, bodies: seq<seq<string>>): string {
    RenderUnder(Banner, usings, bodies)
  }

  function RenderUnder(banner: seq<string>, usings: seq<string>, bodies: seq<seq<string>>): string
    requires |banner| == 6
  {
    Unlines(banner[..5]) + (banner[5] + "\n") + "\n"
    + Unlines(SortBy(NoRank, usings))
    + "" + "\n"
    + AppendBodies(bodies)
  }

  /** The lines of the bodies, each body followed by an empty line. */
  function BodyLines(bodies: seq<seq<string>>): seq<string>
    decreases |bodies|
  {
    if |bodies| == 0 then [] else BodyLines(bodies[..|bodies| - 1]) + bodies[|bodies| - 1] + [""]
  }

  /** The output, line by line. */
  function Layout(usings: seq<string>, bodies: seq<seq<string>>): seq<string> {
    LayoutUnder(Banner, usings, bodies)
  }

  function LayoutUnder(banner: seq<string>, usings: seq<string>, bodies: seq<seq<string>>): seq<string> {
    banner + [""] + SortBy(NoRank, usings) + [""] + BodyLines(bodies)
  }

  lemma UnlinesEmptyLine()
    ensures Unlines([""]) == "\n"
  {
    assert [""][..0] == [];
  }

  lemma {:induction false} AppendBodiesLines(bodies: seq<seq<string>>)
    ensures AppendBodies(bodies) == Unlines(BodyLines(bodies))
    decreases |bodies|
  {
    if |bodies| > 0 {
      var init := bodies[..|bodies| - 1];
      var last := bodies[|bodies| - 1];
      AppendBodiesLines(init);
      UnlinesAppend(BodyLines(init) + last, [""]);
      UnlinesAppend(BodyLines(init), last);
      UnlinesEmptyLine();
    }
  }

  lemma RenderUnderLayout(banner: seq<string>, usings: seq<string>, bodies: seq<seq<string>>)
    requires |banner| == 6
    ensures RenderUnder(banner, usings, bodies) == Unlines(LayoutUnder(banner, usings, bodies))
  {
    var sorted := SortBy(NoRank, usings);
    AppendBodiesLines(bodies);
    UnlinesEmptyLine();
    assert Unlines(banner) == Unlines(banner[..5]) + banner[5] + "\n";
    UnlinesAppend(banner, [""]);
    UnlinesAppend(banner + [""], sorted);
    UnlinesAppend(banner + [""] + sorted, [""]);
    UnlinesAppend(banner + [""] + sorted + [""], BodyLines(bodies));
  }

  /** The text is the layout's lines, each ended by a line feed. */
  lemma RenderLayout(usings: seq<string>, bodies: seq<seq<string>>)
    ensures Render(usings, bodies) == Unlines(Layout(usings, bodies))
  {
    RenderUnderLayout(Banner, usings, bodies);
  }

  // ---------------------------------------------------------------------------
  // The whole program.

  /** What the program writes for the directory listing `paths`, with `read`
      standing for `File.ReadAllLinesAsync`. */
  function CombinedLines(paths: seq<string>, read: string -> seq<string>): seq<string> {
    var files := FilesToCombine(paths);
    var contents := seq(|files|, k requires 0 <= k < |files| => read(files[k]));
    Layout(Collect([], Flatten(contents)), seq(|contents|, k requires 0 <= k < |contents| => KeptLines(contents[k])))
  }

  method Combine(paths: seq<string>, read: string -> seq<string>) returns (output: string)
    ensures output == Unlines(CombinedLines(paths, read))
  {
    var files := FilesToCombine(paths);
    var contents := seq(|files|, k requires 0 <= k < |files| => read(files[k]));
    var usings, bodies := StripFiles(contents);
    assert bodies == seq(|contents|, k requires 0 <= k < |contents| => KeptLines(contents[k]));
    output := Render(usings, bodies);
    RenderLayout(usings, bodies);
  }

  /** The `using` block of the output is sorted and holds each `using` line of
      the files exactly once. */
  lemma UsingBlock(lines: seq<string>)
    ensures var block := SortBy(NoRank, Collect([], lines));
            && Sorted(NoRank, block)
            && (forall l :: l in block <==> l in lines && IsUsing(l))
            && NoDuplicates(block)
  {
    var collected := Collect([], lines);
    var block := SortBy(NoRank, collected);
    SortBySorted(NoRank, collected);
    assert forall l :: l in block <==> l in multiset(collected);
    NoDuplicatesMultiset(collected);
    NoDuplicatesMultiset(block);
  }

  /** A sequence has no duplicates exactly when its multiset holds nothing twice. */
  lemma {:induction false} NoDuplicatesMultiset(s: seq<string>)
    ensures NoDuplicates(s) <==> forall x :: multiset(s)[x] <= 1
    decreases |s|
  {
    if |s| > 0 {
      var init := s[..|s| - 1];
      var last := s[|s| - 1];
      assert s == init + [last];
      NoDuplicatesMultiset(init);
      if NoDuplicates(s) {
        assert NoDuplicates(init);
      }
      if forall x :: multiset(s)[x] <= 1 {
        assert forall x :: multiset(init)[x] <= multiset(s)[x];
        assert NoDuplicates(init);
        assert last !in multiset(init);
        forall i, j | 0 <= i < j < |s| ensures s[i] != s[j] {
          if j == |s| - 1 {
            assert s[i] == init[i];
          } else {
            assert s[i] == init[i] && s[j] == init[j];
          }
        }
      }
    }
  }
}
