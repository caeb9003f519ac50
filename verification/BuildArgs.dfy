/**
 * `read_build_args` in tools/write-brave-provenance.py: the effective assignments of a
 * build, last write wins, with every `//out/` import read in place. One set of files
 * already read is shared by the whole recursion.
 */
module BuildArgs {
  import opened Outcomes
  import opened Sequences
  import GnComments

  /** A line of the stripped text, as the two patterns of the program classify it. */
  datatype Line = Blank | Import(target: string) | Assignment(name: string, value: string) | Unknown

  datatype Entry = Entry(symlink: bool, resolved: string)

  /**
   * Paths resolve to regular files; directories behind symlinks make two paths one file.
   * `texts` are files as text, and `classify` is what the patterns say of a line.
   */
  datatype Disk = Disk(entries: map<string, Entry>, texts: map<string, string>, classify: string -> Line)

  function Classified(classify: string -> Line, lines: seq<string>): seq<Line> {
    seq(|lines|, i requires 0 <= i < |lines| => classify(lines[i]))
  }

  /** A file as it is read: without comments, line by line. */
  function Contents(disk: Disk, resolved: string): seq<Line>
    requires resolved in disk.texts
  {
    Classified(disk.classify, GnComments.Lines(GnComments.Strip(disk.texts[resolved], None)))
  }

  datatype BuildError =
    | NotRegular(path: string)
    | BadImport(path: string, number: nat)
    | BadSyntax(path: string, number: nat)

  predicate Regular(disk: Disk, path: string) {
    path in disk.entries && !disk.entries[path].symlink && disk.entries[path].resolved in disk.texts
  }

  function Split(s: string): (parts: seq<string>)
    ensures parts != []
    decreases |s|
  {
    if s == [] then [""]
    else
      var rest := Split(s[1..]);
      if s[0] == '/' then [""] + rest else [[s[0]] + rest[0]] + rest[1..]
  }

  predicate Dotted(target: string) { ".." in Split(target) }

  predicate Nested(target: string) { "//out/" <= target }

  /** The file a nested import names, below the source root. */
  function Below(target: string): string
    requires Nested(target)
  {
    target[2..]
  }

  /** Two dots between slashes or the ends of the target. */
  predicate DotsAt(target: string, i: nat) {
    && i + 2 <= |target| && target[i] == '.' && target[i + 1] == '.'
    && (i > 0 ==> target[i - 1] == '/') && (i + 2 < |target| ==> target[i + 2] == '/')
  }

  lemma {:induction false} FirstPart(s: string)
    ensures Split(s)[0] == [] <==> s == [] || s[0] == '/'
    ensures Split(s)[0] == "." <==> s != [] && s[0] == '.' && (|s| > 1 ==> s[1] == '/')
    ensures Split(s)[0] == ".." <==> DotsAt(s, 0)
  {
    if s != [] && s[0] != '/' {
      var rest := s[1..];
      FirstPart(rest);
      StartsWith(s[0], Split(rest)[0]);
    }
  }

  lemma StartsWith(c: char, rest: string)
    ensures [c] + rest == "." <==> c == '.' && rest == []
    ensures [c] + rest == ".." <==> c == '.' && rest == "."
  {
    assert ([c] + rest)[0] == c && ([c] + rest)[1..] == rest;
    if c == '.' && rest == [] {
      assert [c] + rest == ".";
    }
    if [c] + rest == "." {
      assert "."[0] == '.' && "."[1..] == [];
    }
    if c == '.' && rest == "." {
      assert [c] + rest == "..";
    }
    if [c] + rest == ".." {
      assert ".."[0] == '.' && ".."[1..] == ".";
    }
  }

  lemma {:induction false} LaterParts(s: string)
    ensures ".." in Split(s)[1..] <==> exists i | 0 < i < |s| :: DotsAt(s, i)
    decreases |s|
  {
    if s != [] {
      var rest := s[1..];
      LaterParts(rest);
      FirstPart(rest);
      DotsBehind(s);
      assert Split(rest) == [Split(rest)[0]] + Split(rest)[1..];
    }
  }

  lemma DotsBehind(s: string)
    requires s != []
    ensures (exists i | 0 < i < |s| :: DotsAt(s, i))
       <==> (s[0] == '/' && DotsAt(s[1..], 0)) || exists i | 0 < i < |s[1..]| :: DotsAt(s[1..], i)
  {
    forall i | 0 < i < |s| ensures DotsAt(s, i) <==> DotsAt(s[1..], i - 1) && (i == 1 ==> s[0] == '/') {
    }
    if i :| 0 < i < |s[1..]| && DotsAt(s[1..], i) {
      assert DotsAt(s, i + 1);
    }
    if s[0] == '/' && DotsAt(s[1..], 0) {
      assert DotsAt(s, 1);
    }
  }

  /** A target is refused exactly when it climbs with `..`, as a whole part of its path. */
  lemma DottedExactly(target: string)
    ensures Dotted(target) <==> exists i | 0 <= i < |target| :: DotsAt(target, i)
  {
    FirstPart(target);
    LaterParts(target);
    assert Split(target) == [Split(target)[0]] + Split(target)[1..];
  }

  /** The files read in place are those below `//out/`, found below `out/` of the source root. */
  lemma NestedExactly(target: string)
    ensures Nested(target) <==> exists rest :: target == "//out/" + rest
    ensures Nested(target) ==> Below(target) == "out/" + target[6..]
  {
    if Nested(target) {
      assert target == "//out/" + target[6..];
      assert target[..6] == "//out/";
      forall i | 0 <= i < 4 ensures target[2..][i] == "out/"[i] {
        assert target[i + 2] == "//out/"[i + 2];
      }
    }
  }

  // The files of one reading, inlined.

  datatype Tree = Tree(path: string, items: Items)

  datatype Items = Done | Keep(line: Line, rest: Items) | Inline(tree: Tree, more: Items)

  predicate Plain(line: Line) {
    line.Blank? || line.Assignment? || (line.Import? && !Dotted(line.target) && !Nested(line.target))
  }

  predicate Nests(line: Line) { line.Import? && !Dotted(line.target) && Nested(line.target) }

  /** The tree is its file, every line well-formed and every nested import replaced by its file's tree. */
  ghost predicate Unfolds(disk: Disk, tree: Tree)
    decreases tree
  {
    Regular(disk, tree.path) && ItemsUnfold(disk, Contents(disk, disk.entries[tree.path].resolved), tree.items)
  }

  ghost predicate ItemsUnfold(disk: Disk, lines: seq<Line>, items: Items)
    decreases items
  {
    match items
    case Done => lines == []
    case Keep(line, rest) => lines != [] && lines[0] == line && Plain(line) && ItemsUnfold(disk, lines[1..], rest)
    case Inline(tree, rest) =>
      && lines != [] && Nests(lines[0]) && tree.path == Below(lines[0].target)
      && Unfolds(disk, tree) && ItemsUnfold(disk, lines[1..], rest)
  }

  /** The files in the order they are opened. */
  ghost function Opened(disk: Disk, tree: Tree): seq<string>
    requires Unfolds(disk, tree)
    decreases tree
  {
    var resolved := disk.entries[tree.path].resolved;
    [resolved] + ItemsOpened(disk, Contents(disk, resolved), tree.items)
  }

  ghost function ItemsOpened(disk: Disk, lines: seq<Line>, items: Items): seq<string>
    requires ItemsUnfold(disk, lines, items)
    decreases items
  {
    match items
    case Done => []
    case Keep(_, rest) => ItemsOpened(disk, lines[1..], rest)
    case Inline(tree, rest) => Opened(disk, tree) + ItemsOpened(disk, lines[1..], rest)
  }

  /** Each file at most once, and none that was read before. */
  ghost predicate NewOnly(files: seq<string>, seen: set<string>) {
    Distinct(files) && forall f | f in files :: f !in seen
  }

  // The recursion of the program, on values.

  datatype Built<T> = Built(value: T, seen: set<string>)

  /** How many files can still be read. */
  function Unread(disk: Disk, seen: set<string>): nat { |disk.texts.Keys - seen| }

  lemma OneMoreRead(disk: Disk, seen: set<string>, resolved: string)
    requires resolved in disk.texts && resolved !in seen
    ensures Unread(disk, seen + {resolved}) < Unread(disk, seen)
  {
    var unread := disk.texts.Keys - seen;
    assert disk.texts.Keys - (seen + {resolved}) == unread - {resolved};
  }

  lemma MoreReadFewerLeft(disk: Disk, seen: set<string>, more: set<string>)
    requires seen <= more
    ensures Unread(disk, more) <= Unread(disk, seen)
  {
    var left, unread := disk.texts.Keys - more, disk.texts.Keys - seen;
    assert unread == left + (unread - left);
  }

  function Build(disk: Disk, path: string, seen: set<string>): (r: Result<Built<Tree>, BuildError>)
    ensures r.Ok? ==> seen <= r.value.seen
    decreases Unread(disk, seen), 0
  {
    if !Regular(disk, path) || disk.entries[path].resolved in seen then Refused(NotRegular(path))
    else
      var resolved := disk.entries[path].resolved;
      OneMoreRead(disk, seen, resolved);
      match BuildItems(disk, path, Contents(disk, resolved), 1, seen + {resolved})
      case Refused(e) => Refused(e)
      case Ok(b) => Ok(Built(Tree(path, b.value), b.seen))
  }

  function BuildItems(disk: Disk, path: string, lines: seq<Line>, number: nat, seen: set<string>)
    : (r: Result<Built<Items>, BuildError>)
    ensures r.Ok? ==> seen <= r.value.seen
    decreases Unread(disk, seen), |lines|
  {
    if lines == [] then Ok(Built(Done, seen))
    else if lines[0].Import? && Dotted(lines[0].target) then Refused(BadImport(path, number))
    else if Nests(lines[0]) then
      match Build(disk, Below(lines[0].target), seen)
      case Refused(e) => Refused(e)
      case Ok(nested) =>
        MoreReadFewerLeft(disk, seen, nested.seen);
        match BuildItems(disk, path, lines[1..], number + 1, nested.seen)
        case Refused(e) => Refused(e)
        case Ok(b) => Ok(Built(Inline(nested.value, b.value), b.seen))
    else if lines[0] == Unknown then Refused(BadSyntax(path, number))
    else
      match BuildItems(disk, path, lines[1..], number + 1, seen)
      case Refused(e) => Refused(e)
      case Ok(b) => Ok(Built(Keep(lines[0], b.value), b.seen))
  }

  lemma DistinctAppend(a: seq<string>, b: seq<string>)
    ensures Distinct(a + b) <==> Distinct(a) && Distinct(b) && SetOf(a) !! SetOf(b)
    ensures SetOf(a + b) == SetOf(a) + SetOf(b)
  {
    var all := a + b;
    assert forall i | 0 <= i < |a| :: all[i] == a[i];
    assert forall j | 0 <= j < |b| :: all[|a| + j] == b[j];
    if Distinct(all) {
      assert Distinct(a);
      forall i, j | 0 <= i < j < |b| ensures b[i] != b[j] {
        assert all[|a| + i] != all[|a| + j];
      }
      forall i, j | 0 <= i < |a| && 0 <= j < |b| ensures a[i] != b[j] {
        assert all[i] != all[|a| + j];
      }
    }
    if Distinct(a) && Distinct(b) && SetOf(a) !! SetOf(b) {
      forall i, j | 0 <= i < j < |all| ensures all[i] != all[j] {
        if i < |a| <= j {
          assert all[i] in SetOf(a) && all[j] in SetOf(b);
        }
      }
    }
  }

  lemma AppendNew(a: seq<string>, b: seq<string>, seen: set<string>)
    ensures NewOnly(a + b, seen) <==> NewOnly(a, seen) && NewOnly(b, seen + SetOf(a))
    ensures SetOf(a + b) == SetOf(a) + SetOf(b)
  {
    DistinctAppend(a, b);
    NewMeans(a, seen);
    NewMeans(b, seen + SetOf(a));
    NewMeans(a + b, seen);
  }

  lemma NewMeans(files: seq<string>, seen: set<string>)
    ensures NewOnly(files, seen) <==> Distinct(files) && SetOf(files) !! seen
  {
    assert forall f :: f in files <==> f in SetOf(files);
  }

  /** Every inlining that opens no file twice is found. */
  lemma {:induction false} BuildFindsTree(disk: Disk, tree: Tree, seen: set<string>)
    requires Unfolds(disk, tree) && NewOnly(Opened(disk, tree), seen)
    ensures Build(disk, tree.path, seen) == Ok(Built(tree, seen + SetOf(Opened(disk, tree))))
    decreases tree
  {
    var resolved := disk.entries[tree.path].resolved;
    var lines := Contents(disk, resolved);
    AppendNew([resolved], ItemsOpened(disk, lines, tree.items), seen);
    assert SetOf([resolved]) == {resolved};
    assert resolved in [resolved];
    BuildFindsItems(disk, tree.path, lines, 1, tree.items, seen + {resolved});
    assert seen + {resolved} + SetOf(ItemsOpened(disk, lines, tree.items)) == seen + SetOf(Opened(disk, tree));
  }

  lemma {:induction false} BuildFindsItems(
      disk: Disk, path: string, lines: seq<Line>, number: nat, items: Items, seen: set<string>)
    requires ItemsUnfold(disk, lines, items) && NewOnly(ItemsOpened(disk, lines, items), seen)
    ensures BuildItems(disk, path, lines, number, seen)
         == Ok(Built(items, seen + SetOf(ItemsOpened(disk, lines, items))))
    decreases items
  {
    match items
    case Done =>
      assert seen + SetOf([]) == seen;
    case Keep(line, rest) =>
      BuildFindsItems(disk, path, lines[1..], number + 1, rest, seen);
    case Inline(tree, rest) =>
      var first, others := Opened(disk, tree), ItemsOpened(disk, lines[1..], rest);
      AppendNew(first, others, seen);
      BuildFindsTree(disk, tree, seen);
      BuildFindsItems(disk, path, lines[1..], number + 1, rest, seen + SetOf(first));
      assert seen + SetOf(first) + SetOf(others) == seen + SetOf(first + others);
  }

  lemma OpensNothing(seen: set<string>)
    ensures NewOnly([], seen) && SetOf<string>([]) == {}
  {
  }

  lemma NewAlone(file: string, seen: set<string>)
    ensures file !in seen ==> NewOnly([file], seen)
    ensures SetOf([file]) == {file}
  {
  }

  /** Whatever is built is an inlining that opens no file twice. */
  lemma {:induction false} BuiltIsTree(disk: Disk, path: string, seen: set<string>)
    ensures var r := Build(disk, path, seen);
            r.Ok? ==>
              && r.value.value.path == path && Unfolds(disk, r.value.value)
              && NewOnly(Opened(disk, r.value.value), seen)
              && r.value.seen == seen + SetOf(Opened(disk, r.value.value))
    decreases Unread(disk, seen), 0
  {
    hide NewOnly, Distinct, Nests, Plain;
    if Build(disk, path, seen).Ok? {
      NewAlone(disk.entries[path].resolved, seen);
      var resolved := disk.entries[path].resolved;
      var lines := Contents(disk, resolved);
      OneMoreRead(disk, seen, resolved);
      BuiltAreItems(disk, path, lines, 1, seen + {resolved});
      var items := BuildItems(disk, path, lines, 1, seen + {resolved}).value.value;
      AppendNew([resolved], ItemsOpened(disk, lines, items), seen);
    }
  }

  lemma {:induction false} BuiltAreItems(disk: Disk, path: string, lines: seq<Line>, number: nat, seen: set<string>)
    ensures var r := BuildItems(disk, path, lines, number, seen);
            r.Ok? ==>
              && ItemsUnfold(disk, lines, r.value.value)
              && NewOnly(ItemsOpened(disk, lines, r.value.value), seen)
              && r.value.seen == seen + SetOf(ItemsOpened(disk, lines, r.value.value))
    decreases Unread(disk, seen), |lines|
  {
    hide NewOnly, Dotted, Distinct, Nested, Unread;
    var r := BuildItems(disk, path, lines, number, seen);
    if lines == [] {
      OpensNothing(seen);
    }
    if r.Ok? && lines != [] {
      if Nests(lines[0]) {
        var nested := Build(disk, Below(lines[0].target), seen).value;
        BuiltIsTree(disk, Below(lines[0].target), seen);
        MoreReadFewerLeft(disk, seen, nested.seen);
        BuiltAreItems(disk, path, lines[1..], number + 1, nested.seen);
        var rest := BuildItems(disk, path, lines[1..], number + 1, nested.seen).value.value;
        AppendNew(Opened(disk, nested.value), ItemsOpened(disk, lines[1..], rest), seen);
      } else {
        BuiltAreItems(disk, path, lines[1..], number + 1, seen);
      }
    }
  }

  /** A reading succeeds exactly when the imports unfold into a finite tree that opens each file once. */
  lemma ReadsExactlyTheInlinings(disk: Disk, path: string)
    ensures Build(disk, path, {}).Ok?
       <==> exists tree: Tree :: tree.path == path && Unfolds(disk, tree) && Distinct(Opened(disk, tree))
    ensures forall tree: Tree | tree.path == path && Unfolds(disk, tree) && Distinct(Opened(disk, tree)) ::
              Build(disk, path, {}) == Ok(Built(tree, SetOf(Opened(disk, tree))))
  {
    BuiltIsTree(disk, path, {});
    forall tree: Tree | tree.path == path && Unfolds(disk, tree) && Distinct(Opened(disk, tree))
      ensures Build(disk, path, {}) == Ok(Built(tree, SetOf(Opened(disk, tree))))
    {
      BuildFindsTree(disk, tree, {});
      assert {} + SetOf(Opened(disk, tree)) == SetOf(Opened(disk, tree));
    }
  }

  // What a reading means.

  function Statements(tree: Tree): seq<Line>
    decreases tree
  {
    ItemStatements(tree.items)
  }

  function ItemStatements(items: Items): seq<Line>
    decreases items
  {
    match items
    case Done => []
    case Keep(line, rest) => [line] + ItemStatements(rest)
    case Inline(tree, rest) => Statements(tree) + ItemStatements(rest)
  }

  function Effective(statements: seq<Line>): map<string, string>
    decreases |statements|
  {
    if statements == [] then map[]
    else
      var before, last := Effective(statements[..|statements| - 1]), statements[|statements| - 1];
      if last.Assignment? then before[last.name := last.value] else before
  }

  function Externals(statements: seq<Line>): seq<string>
    decreases |statements|
  {
    if statements == [] then []
    else
      var before, last := Externals(statements[..|statements| - 1]), statements[|statements| - 1];
      if last.Import? then before + [last.target] else before
  }

  predicate Assigns(line: Line, name: string) { line.Assignment? && line.name == name }

  /** The value of a name is its last assignment; a name never assigned has none. */
  lemma {:induction false} LastWriteWins(statements: seq<Line>, name: string)
    ensures name in Effective(statements) <==> exists i | 0 <= i < |statements| :: Assigns(statements[i], name)
    ensures name in Effective(statements) ==>
      exists i | 0 <= i < |statements| ::
        && Assigns(statements[i], name) && Effective(statements)[name] == statements[i].value
        && forall j | i < j < |statements| :: !Assigns(statements[j], name)
    decreases |statements|
  {
    if statements != [] {
      var n := |statements| - 1;
      LastWriteWins(statements[..n], name);
      if Assigns(statements[n], name) {
      } else if name in Effective(statements[..n]) {
        var front := statements[..n];
        var i :| 0 <= i < n && Assigns(front[i], name) && Effective(front)[name] == front[i].value
              && forall j | i < j < n :: !Assigns(front[j], name);
        assert Assigns(statements[i], name);
        assert forall j | i < j < n :: front[j] == statements[j];
      }
    }
  }

  lemma {:induction false} EffectiveConcat(a: seq<Line>, b: seq<Line>)
    ensures Effective(a + b) == Effective(a) + Effective(b)
    ensures Externals(a + b) == Externals(a) + Externals(b)
    decreases |b|
  {
    if b == [] {
      assert a + b == a;
    } else {
      var n := |b| - 1;
      assert (a + b)[..|a + b| - 1] == a + b[..n];
      EffectiveConcat(a, b[..n]);
    }
  }

  datatype Args = Args(values: map<string, string>, imports: seq<string>)

  /** The rest of the file decides the reading, and adds to the statements read so far. */
  ghost predicate Continues(disk: Disk, path: string, lines: seq<Line>, before: set<string>,
                            i: nat, seen: set<string>, read: seq<Line>)
    requires i <= |lines|
  {
    var whole, rest := BuildItems(disk, path, lines, 1, before), BuildItems(disk, path, lines[i..], i + 1, seen);
    match rest
    case Refused(e) => whole == Refused(e)
    case Ok(b) =>
      && whole.Ok? && whole.value.seen == b.seen
      && ItemStatements(whole.value.value) == read + ItemStatements(b.value)
  }

  lemma Starts(disk: Disk, path: string, lines: seq<Line>, before: set<string>)
    ensures Continues(disk, path, lines, before, 0, before, [])
  {
    assert lines[0..] == lines;
  }

  lemma Ends(disk: Disk, path: string, lines: seq<Line>, before: set<string>, seen: set<string>, read: seq<Line>)
    requires Continues(disk, path, lines, before, |lines|, seen, read)
    ensures var whole := BuildItems(disk, path, lines, 1, before);
            whole.Ok? && whole.value.seen == seen && ItemStatements(whole.value.value) == read
  {
    assert lines[|lines|..] == [];
  }

  lemma {:induction false} KeepsLine(disk: Disk, path: string, lines: seq<Line>, before: set<string>, i: nat,
        seen: set<string>, read: seq<Line>)
    requires i < |lines| && Plain(lines[i]) && Continues(disk, path, lines, before, i, seen, read)
    ensures Continues(disk, path, lines, before, i + 1, seen, read + [lines[i]])
    ensures Effective(read + [lines[i]])
         == if lines[i].Assignment? then Effective(read)[lines[i].name := lines[i].value] else Effective(read)
    ensures Externals(read + [lines[i]])
         == if lines[i].Import? then Externals(read) + [lines[i].target] else Externals(read)
  {
    hide Build, Contents, Regular, Unread, Dotted, Nested;
    assert lines[i..][1..] == lines[i + 1..];
    assert (read + [lines[i]])[..|read|] == read;
  }

  lemma RefusesLine(disk: Disk, path: string, lines: seq<Line>, before: set<string>, i: nat, seen: set<string>,
        read: seq<Line>)
    requires i < |lines| && Continues(disk, path, lines, before, i, seen, read)
    ensures lines[i].Import? && Dotted(lines[i].target) ==>
      BuildItems(disk, path, lines, 1, before) == Refused(BadImport(path, i + 1))
    ensures lines[i] == Unknown ==> BuildItems(disk, path, lines, 1, before) == Refused(BadSyntax(path, i + 1))
  {
  }

  lemma InlinesLine(disk: Disk, path: string, lines: seq<Line>, before: set<string>, i: nat, seen: set<string>,
        read: seq<Line>)
    requires i < |lines| && Nests(lines[i]) && Continues(disk, path, lines, before, i, seen, read)
    ensures var nested := Build(disk, Below(lines[i].target), seen);
            && (nested.Refused? ==> BuildItems(disk, path, lines, 1, before) == Refused(nested.error))
            && (nested.Ok? ==>
                  var more := read + Statements(nested.value.value);
                  && Continues(disk, path, lines, before, i + 1, nested.value.seen, more)
                  && Effective(more) == Effective(read) + Effective(Statements(nested.value.value))
                  && Externals(more) == Externals(read) + Externals(Statements(nested.value.value)))
  {
    hide Build, Contents, Regular, Unread, Dotted, Nested, Effective, Externals;
    assert lines[i..][1..] == lines[i + 1..];
    var nested := Build(disk, Below(lines[i].target), seen);
    if nested.Ok? {
      EffectiveConcat(read, Statements(nested.value.value));
    }
  }

  lemma BuildsFile(disk: Disk, path: string, seen: set<string>)
    requires Regular(disk, path) && disk.entries[path].resolved !in seen
    ensures var resolved := disk.entries[path].resolved;
            var items := BuildItems(disk, path, Contents(disk, resolved), 1, seen + {resolved});
            Build(disk, path, seen)
              == if items.Refused? then Refused(items.error)
                 else Ok(Built(Tree(path, items.value.value), items.value.seen))
  {
  }

  // What a refusal reports.

  /** The line with this number is the one refused. */
  predicate Faulty(e: BuildError, line: Line) {
    match e
    case NotRegular(_) => false
    case BadImport(_, _) => line.Import? && Dotted(line.target)
    case BadSyntax(_, _) => line == Unknown
  }

  predicate Names(disk: Disk, e: BuildError) {
    !e.NotRegular? ==>
      && Regular(disk, e.path)
      && 1 <= e.number <= |Contents(disk, disk.entries[e.path].resolved)|
      && Faulty(e, Contents(disk, disk.entries[e.path].resolved)[e.number - 1])
  }

  lemma {:induction false} RefusalsNameALine(disk: Disk, path: string, seen: set<string>)
    ensures var r := Build(disk, path, seen); r.Refused? ==> Names(disk, r.error)
    decreases Unread(disk, seen), 0
  {
    hide Contents, Faulty, Unread;
    if Regular(disk, path) && disk.entries[path].resolved !in seen {
      var resolved := disk.entries[path].resolved;
      OneMoreRead(disk, seen, resolved);
      ItemsNameALine(disk, path, Contents(disk, resolved), 1, seen + {resolved});
    }
  }

  lemma {:induction false} ItemsNameALine(disk: Disk, path: string, lines: seq<Line>, number: nat, seen: set<string>)
    ensures var r := BuildItems(disk, path, lines, number, seen);
            r.Refused? ==>
              || Names(disk, r.error)
              || (!r.error.NotRegular? && r.error.path == path
                  && number <= r.error.number < number + |lines| && Faulty(r.error, lines[r.error.number - number]))
    decreases Unread(disk, seen), |lines|
  {
    hide Names, Unread, Regular, Contents;
    if lines != [] {
      if Nests(lines[0]) {
        RefusalsNameALine(disk, Below(lines[0].target), seen);
        var nested := Build(disk, Below(lines[0].target), seen);
        if nested.Ok? {
          MoreReadFewerLeft(disk, seen, nested.value.seen);
          ItemsNameALine(disk, path, lines[1..], number + 1, nested.value.seen);
        }
      } else {
        ItemsNameALine(disk, path, lines[1..], number + 1, seen);
      }
    }
  }

  /** The number belongs to a line the patterns refuse; `from` tells which line of the file it is. */
  predicate Reports(e: BuildError, classify: string -> Line, text: string, from: seq<nat>)
    requires !e.NotRegular?
  {
    var stripped, lines := GnComments.Lines(GnComments.Strip(text, None)), GnComments.Lines(text);
    && 1 <= e.number <= |stripped| && e.number <= |from|
    && Faulty(e, classify(stripped[e.number - 1]))
    && from[e.number - 1] < |lines| && GnComments.Trimmed(stripped[e.number - 1], lines[from[e.number - 1]])
  }

  lemma NumberReports(e: BuildError, classify: string -> Line, text: string)
    requires !e.NotRegular?
    requires var lines := Classified(classify, GnComments.Lines(GnComments.Strip(text, None)));
             1 <= e.number <= |lines| && Faulty(e, lines[e.number - 1])
    ensures var from := GnComments.Origins(text, None, 0);
            && Reports(e, classify, text, from)
            && (GnComments.Undisturbed(text, None) ==> from[e.number - 1] == e.number - 1)
  {
    hide Faulty, GnComments.Lines, GnComments.Strip, GnComments.Origins, GnComments.Trimmed, GnComments.Undisturbed;
    GnComments.StrippedLinesAreTrimmed(text);
    GnComments.NumbersStayExactly(text, None, 0);
  }

  ghost predicate ReportsIn(disk: Disk, e: BuildError)
    requires !e.NotRegular?
  {
    && Regular(disk, e.path)
    && var text := disk.texts[disk.entries[e.path].resolved];
       var from := GnComments.Origins(text, None, 0);
    && Reports(e, disk.classify, text, from)
    && (GnComments.Undisturbed(text, None) ==> from[e.number - 1] == e.number - 1)
  }

  /**
   * What a refusal reports: the number belongs to a line of the file the patterns refuse,
   * with at most a comment cut off it. It is the number of that line in undisturbed text.
   */
  lemma ReportedLineIsRefused(disk: Disk, path: string, seen: set<string>)
    requires Build(disk, path, seen).Refused? && !Build(disk, path, seen).error.NotRegular?
    ensures ReportsIn(disk, Build(disk, path, seen).error)
  {
    RefusalsNameALine(disk, path, seen);
    NamedReports(disk, Build(disk, path, seen).error);
    hide *;
  }

  lemma NamedReports(disk: Disk, e: BuildError)
    requires Names(disk, e) && !e.NotRegular?
    ensures ReportsIn(disk, e)
  {
    hide Faulty, Reports, Classified, GnComments.Lines, GnComments.Strip, GnComments.Origins, GnComments.Undisturbed;
    NumberReports(e, disk.classify, disk.texts[disk.entries[e.path].resolved]);
  }

  /** The set the recursion shares. */
  class Reader {
    const disk: Disk
    var seen: set<string>

    constructor (disk: Disk)
      ensures this.disk == disk && seen == {}
    {
      this.disk, seen := disk, {};
    }

    method ReadBuildArgs(path: string) returns (r: Result<Args, BuildError>)
      modifies this`seen
      ensures match Build(disk, path, old(seen))
              case Refused(e) => r == Refused(e)
              case Ok(b) =>
                && seen == b.seen
                && r == Ok(Args(Effective(Statements(b.value)), Externals(Statements(b.value))))
      decreases Unread(disk, seen), 0
    {
      if !Regular(disk, path) || disk.entries[path].resolved in seen {
        return Refused(NotRegular(path));
      }
      var resolved := disk.entries[path].resolved;
      OneMoreRead(disk, seen, resolved);
      BuildsFile(disk, path, seen);
      hide Build, BuildItems, Continues, Effective, Externals, ItemStatements, Dotted, Unread, Regular;
      seen := seen + {resolved};
      var values, imports := map[], [];
      var text := GnComments.StripGnComments(disk.texts[resolved]);
      var lines := Classified(disk.classify, GnComments.Lines(text));
      ghost var before, read := seen, [];
      Starts(disk, path, lines, before);
      NoStatements();
      for i := 0 to |lines|
        invariant before <= seen
        invariant values == Effective(read) && imports == Externals(read)
        invariant Continues(disk, path, lines, before, i, seen, read)
      {
        MoreReadFewerLeft(disk, before, seen);
        RefusesLine(disk, path, lines, before, i, seen, read);
        var line := lines[i];
        if line == Blank {
          KeepsLine(disk, path, lines, before, i, seen, read);
          read := read + [line];
          continue;
        }
        if line.Import? {
          if Dotted(line.target) {
            return Refused(BadImport(path, i + 1));
          }
          if Nested(line.target) {
            InlinesLine(disk, path, lines, before, i, seen, read);
            ghost var built := Build(disk, Below(line.target), seen);
            var nested := ReadBuildArgs(Below(line.target));
            if nested.Refused? {
              return Refused(nested.error);
            }
            values := values + nested.value.values;
            imports := imports + nested.value.imports;
            read := read + Statements(built.value.value);
          } else {
            KeepsLine(disk, path, lines, before, i, seen, read);
            imports := imports + [line.target];
            read := read + [line];
          }
          continue;
        }
        if !line.Assignment? {
          return Refused(BadSyntax(path, i + 1));
        }
        KeepsLine(disk, path, lines, before, i, seen, read);
        values := values[line.name := line.value];
        read := read + [line];
      }
      Ends(disk, path, lines, before, seen, read);
      return Ok(Args(values, imports));
    }
  }

  lemma NoStatements()
    ensures Effective([]) == map[] && Externals([]) == []
  {
  }
}
