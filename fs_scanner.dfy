/** The directory walk behind the file chart (pkg/fs/scanner.go): which
    entries are skipped, the depth-bounded pre-order listing, and the
    extension tally. */
module FileScan {
  import opened Wrappers
  import opened Text
  import opened Order

  /** One listed entry; `path` is relative to the scanned root. */
  datatype FileEntry = FileEntry(path: string, isDir: bool, size: int, ext: string)

  /** One line of the extension statistics. */
  datatype FileTypeCount = FileTypeCount(ext: string, count: int, color: string)

  /** A directory entry as the file system reports it: `size` is `None`
      when its metadata cannot be read, and a directory whose listing
      cannot be read has `readable == false`. */
  datatype Node = Node(name: string, isDir: bool, size: Option<int>, readable: bool, children: seq<Node>)

  /** Base names that are never listed, whatever their case. */
  const ExcludedDirs: seq<string> := [
    "node_modules", ".git", ".idea", ".vscode", "__pycache__",
    "dist", "build", "target", "bin", "obj", ".next", ".nuxt",
    ".DS_Store", "vendor", "coverage", ".gradle", ".mvn",
    ".cache", ".npm", ".yarn", "venv", "env", ".env", ".pytest_cache"
  ]

  /** Suffixes of binary files that are never listed. */
  const BinaryExts: seq<string> := [
    ".exe", ".dll", ".so", ".dylib", ".o", ".obj", ".a", ".lib",
    ".bin", ".dat", ".db", ".sqlite", ".class"
  ]

  /** The colour of each known extension. */
  const ExtColors: map<string, string> := map[
    ".go" := "#00ADD8", ".js" := "#F7DF1E", ".ts" := "#3178C6", ".jsx" := "#61DAFB",
    ".tsx" := "#61DAFB", ".py" := "#3776AB", ".java" := "#ED8B00", ".html" := "#E34F26",
    ".css" := "#1572B6", ".scss" := "#CD6799", ".json" := "#000000", ".yml" := "#CB171E",
    ".yaml" := "#CB171E", ".md" := "#083FA1", ".php" := "#777BB4", ".rb" := "#CC342D",
    ".c" := "#555555", ".cpp" := "#004482", ".cs" := "#239120", ".rs" := "#DEA584",
    ".swift" := "#F05138", ".kt" := "#A97BFF", ".sh" := "#89E051"
  ]

  /** The colour `colors` gives an extension, grey for unknown ones. */
  function ColorIn(colors: map<string, string>, ext: string): string {
    if ext in colors then colors[ext] else "#AAAAAA"
  }

  /** `s` equals one of `names`, ignoring case. */
  predicate FoldsToOneOf(s: string, names: seq<string>) {
    exists k :: 0 <= k < |names| && EqualFold(s, names[k])
  }

  /** `s` ends with one of `suffixes`. */
  predicate EndsWithOneOf(s: string, suffixes: seq<string>) {
    exists k :: 0 <= k < |suffixes| && HasSuffix(s, suffixes[k])
  }

  /** The exclusion rule ShouldExclude applies. */
  predicate Excluded(path: string) {
    ExcludedBy(path, ExcludedDirs, BinaryExts)
  }

  /** The exclusion rule for the names `dirs` and the suffixes `exts`: the
      base name is one of `dirs` (ignoring case) or starts with '.', or the
      lower-cased path ends with one of `exts`. */
  predicate ExcludedBy(path: string, dirs: seq<string>, exts: seq<string>) {
    var base := Base(path);
    FoldsToOneOf(base, dirs) || HasPrefix(base, ".") || EndsWithOneOf(ToLower(path), exts)
  }

  /** The loop over the excluded directory names. */
  method MatchesName(base: string, names: seq<string>) returns (found: bool)
    ensures found == FoldsToOneOf(base, names)
  {
    for i := 0 to |names|
      invariant forall k :: 0 <= k < i ==> !EqualFold(base, names[k])
    {
      if EqualFold(base, names[i]) {
        return true;
      }
    }
    return false;
  }

  /** The loop over the binary extensions. */
  method MatchesSuffix(s: string, suffixes: seq<string>) returns (found: bool)
    ensures found == EndsWithOneOf(s, suffixes)
  {
    for i := 0 to |suffixes|
      invariant forall k :: 0 <= k < i ==> !HasSuffix(s, suffixes[k])
    {
      if HasSuffix(s, suffixes[i]) {
        return true;
      }
    }
    return false;
  }

  /** ShouldExclude */
  method ShouldExclude(path: string) returns (r: bool)
    ensures r == Excluded(path)
  {
    var base := Base(path);
    r := MatchesName(base, ExcludedDirs);
    if r {
      return;
    }
    if HasPrefix(base, ".") {
      return true;
    }
    r := MatchesSuffix(ToLower(path), BinaryExts);
  }

  /** A name a directory listing can hold: non-empty, without '/'. */
  predicate ProperName(s: string) {
    |s| > 0 && forall k :: 0 <= k < |s| ==> s[k] != '/'
  }

  /** Every name in the tree below `n` is a proper name. */
  predicate WellNamed(n: Node)
    decreases n
  {
    ProperName(n.name) && forall i :: 0 <= i < |n.children| ==> WellNamed(n.children[i])
  }

  /** `dir` names a directory: it is empty or ends with '/'. */
  predicate DirPrefix(dir: string) {
    dir == [] || dir[|dir| - 1] == '/'
  }

  lemma {:induction false} LastElementAfterSlash(dir: string, name: string)
    requires ProperName(name) && DirPrefix(dir)
    ensures LastElement(dir + name) == name
    decreases |name|
  {
    var path := dir + name;
    var init := name[..|name| - 1];
    var last := name[|name| - 1];
    assert path[|path| - 1] == last && last != '/';
    assert path[..|path| - 1] == dir + init;
    assert LastElement(path) == LastElement(dir + init) + [last];
    if |init| > 0 {
      assert ProperName(init);
      LastElementAfterSlash(dir, init);
    } else {
      assert dir + init == dir;
    }
    assert name == init + [last];
  }

  lemma BaseAfterSlash(dir: string, name: string)
    requires ProperName(name) && DirPrefix(dir)
    ensures Base(dir + name) == name
  {
    LastElementAfterSlash(dir, name);
    assert StripSlashes(dir + name) == dir + name;
  }

  /** No string in `ss` contains '/'. */
  predicate NoSlashIn(ss: seq<string>) {
    forall k, j :: 0 <= k < |ss| && 0 <= j < |ss[k]| ==> ss[k][j] != '/'
  }

  lemma {:induction false} ToLowerAppend(a: string, b: string)
    ensures ToLower(a + b) == ToLower(a) + ToLower(b)
  {
    if a != [] {
      assert (a + b)[0] == a[0];
      assert (a + b)[1..] == a[1..] + b;
      ToLowerAppend(a[1..], b);
    } else {
      assert a + b == b;
    }
  }

  /** Lower-casing keeps a trailing '/'. */
  lemma ToLowerKeepsSlash(dir: string)
    requires dir != [] && dir[|dir| - 1] == '/'
    ensures ToLower(dir)[|dir| - 1] == '/'
  {
    ToLowerAt(dir);
  }

  lemma SuffixWithin(a: string, b: string, e: string)
    requires |e| <= |b|
    ensures HasSuffix(a + b, e) <==> HasSuffix(b, e)
  {
    assert (a + b)[|a + b| - |e|..] == b[|b| - |e|..];
  }

  /** A suffix without '/' cannot reach back across a '/'. */
  lemma SuffixAcross(a: string, b: string, e: string)
    requires a != [] && a[|a| - 1] == '/' && |e| > |b|
    requires forall k :: 0 <= k < |e| ==> e[k] != '/'
    ensures !HasSuffix(a + b, e)
  {
    if |e| <= |a + b| {
      var k := |e| - |b| - 1;
      assert (a + b)[|a + b| - |e|..][k] == a[|a| - 1];
    }
  }

  lemma SuffixAfterSlash(dir: string, name: string, e: string)
    requires ProperName(name) && DirPrefix(dir)
    requires forall k :: 0 <= k < |e| ==> e[k] != '/'
    ensures HasSuffix(ToLower(dir + name), e) <==> HasSuffix(ToLower(name), e)
  {
    var a, b := ToLower(dir), ToLower(name);
    ToLowerAppend(dir, name);
    if |e| <= |b| {
      SuffixWithin(a, b, e);
    } else if dir != [] {
      ToLowerKeepsSlash(dir);
      SuffixAcross(a, b, e);
    } else {
      assert a + b == b;
    }
  }

  lemma EndsWithAfterSlash(dir: string, name: string, exts: seq<string>)
    requires ProperName(name) && DirPrefix(dir) && NoSlashIn(exts)
    ensures EndsWithOneOf(ToLower(dir + name), exts) <==> EndsWithOneOf(ToLower(name), exts)
  {
    forall k | 0 <= k < |exts|
      ensures HasSuffix(ToLower(dir + name), exts[k]) <==> HasSuffix(ToLower(name), exts[k])
    {
      SuffixAfterSlash(dir, name, exts[k]);
    }
  }

  lemma BinaryExtsHaveNoSlash()
    ensures NoSlashIn(BinaryExts)
  {
  }

  /** Whether an entry is skipped depends only on its own name, not on
      the directory it is listed in. */
  lemma ExcludedByName(dir: string, name: string)
    requires ProperName(name) && DirPrefix(dir)
    ensures Excluded(dir + name) == Excluded(name)
  {
    BaseAfterSlash(dir, name);
    BaseAfterSlash([], name);
    assert [] + name == name;
    BinaryExtsHaveNoSlash();
    EndsWithAfterSlash(dir, name, BinaryExts);
  }

  /** The rule that decides which paths the walk skips depends only on an
      entry's own name, not on the directory it is listed in. */
  ghost predicate NameLocal(skip: string -> bool) {
    forall dir, name :: ProperName(name) && DirPrefix(dir) ==> skip(dir + name) == skip(name)
  }

  lemma ExcludedIsNameLocal()
    ensures NameLocal(Excluded)
  {
    forall dir, name | ProperName(name) && DirPrefix(dir) ensures Excluded(dir + name) == Excluded(name) {
      ExcludedByName(dir, name);
    }
  }

  /** The entry ScanDirectory records for the child `c`. */
  function EntryFor(c: Node, prefix: string): FileEntry
    requires c.size.Some?
  {
    FileEntry(prefix + c.name, c.isDir, c.size.value, if c.isDir then "" else ToLower(Ext(c.name)))
  }

  /** What ScanDirectory returns for the directory `dir` at `root`, scanned
      at depth `depth` with entry paths starting with `prefix`, when it
      skips the paths `skip` holds for (ShouldExclude in the source). */
  function Scan(skip: string -> bool, root: string, dir: Node, maxDepth: int, depth: int, prefix: string): seq<FileEntry>
    decreases dir, 1
  {
    if maxDepth > 0 && depth > maxDepth then []
    else if !dir.readable then []
    else Entries(skip, root, dir, |dir.children|, maxDepth, depth, prefix)
  }

  /** The entries contributed by the first `n` children of `dir`. */
  function Entries(skip: string -> bool, root: string, dir: Node, n: nat, maxDepth: int, depth: int, prefix: string): seq<FileEntry>
    requires n <= |dir.children|
    decreases dir, 0, n
  {
    if n == 0 then []
    else Entries(skip, root, dir, n - 1, maxDepth, depth, prefix) + One(skip, root, dir.children[n - 1], maxDepth, depth, prefix)
  }

  /** The entries contributed by one child: nothing when it is skipped or
      its metadata cannot be read, else its own entry followed by the scan
      of its contents when it is a directory. */
  function One(skip: string -> bool, root: string, c: Node, maxDepth: int, depth: int, prefix: string): seq<FileEntry>
    decreases c, 2
  {
    var path := root + "/" + c.name;
    if skip(path) || c.size.None? then []
    else [EntryFor(c, prefix)] + (if c.isDir then Scan(skip, path, c, maxDepth, depth + 1, prefix + c.name + "/") else [])
  }

  /** ScanDirectory, with the directory read by os.ReadDir given as `dir`. */
  method ScanDirectory(root: string, dir: Node, maxDepth: int, depth: int, prefix: string)
    returns (entries: seq<FileEntry>)
    ensures entries == Scan(Excluded, root, dir, maxDepth, depth, prefix)
    decreases dir, 1
  {
    if maxDepth > 0 && depth > maxDepth {
      return [];
    }
    if !dir.readable {
      return [];
    }
    entries := ScanChildren(root, dir, maxDepth, depth, prefix);
  }

  /** ScanDirectory's loop over the entries of a readable directory. */
  method ScanChildren(root: string, dir: Node, maxDepth: int, depth: int, prefix: string)
    returns (entries: seq<FileEntry>)
    ensures entries == Entries(Excluded, root, dir, |dir.children|, maxDepth, depth, prefix)
    decreases dir, 0, |dir.children| + 1
  {
    entries := [];
    var i := 0;
    while i < |dir.children|
      invariant 0 <= i <= |dir.children|
      invariant entries == Entries(Excluded, root, dir, i, maxDepth, depth, prefix)
    {
      var piece := ScanChild(root, dir.children[i], maxDepth, depth, prefix);
      EntriesStep(Excluded, root, dir, i, maxDepth, depth, prefix);
      entries := entries + piece;
      i := i + 1;
    }
  }

  lemma EntriesStep(skip: string -> bool, root: string, dir: Node, i: nat, maxDepth: int, depth: int, prefix: string)
    requires i < |dir.children|
    ensures Entries(skip, root, dir, i + 1, maxDepth, depth, prefix)
      == Entries(skip, root, dir, i, maxDepth, depth, prefix) + One(skip, root, dir.children[i], maxDepth, depth, prefix)
  {
  }

  /** One turn of ScanDirectory's loop: the child `c` of `root`. */
  method ScanChild(root: string, c: Node, maxDepth: int, depth: int, prefix: string)
    returns (piece: seq<FileEntry>)
    ensures piece == One(Excluded, root, c, maxDepth, depth, prefix)
    decreases c, 2
  {
    var path := root + "/" + c.name;
    var skip := ShouldExclude(path);
    if skip || c.size.None? {
      return [];
    }
    var ext := "";
    if !c.isDir {
      ext := ToLower(Ext(c.name));
    }
    piece := [FileEntry(prefix + c.name, c.isDir, c.size.value, ext)];
    if c.isDir {
      var sub := ScanDirectory(path, c, maxDepth, depth + 1, prefix + c.name + "/");
      piece := piece + sub;
    }
  }

  /** An entry as the walk reports it: below `prefix`, not skipped, with
      no extension for a directory and the lower-cased extension of its
      path for a file. */
  predicate EntryOk(skip: string -> bool, e: FileEntry, prefix: string) {
    && HasPrefix(e.path, prefix)
    && !skip(e.path)
    && (if e.isDir then e.ext == "" else e.ext == ToLower(Ext(e.path)))
  }

  /** `path` is an immediate child of the directory `prefix`. */
  predicate TopLevel(path: string, prefix: string) {
    HasPrefix(path, prefix) && ProperName(path[|prefix|..])
  }

  /** Pre-order: every entry is an immediate child of `prefix` or comes
      after a directory entry whose path, followed by '/', begins it. */
  predicate PreOrder(r: seq<FileEntry>, prefix: string) {
    forall j :: 0 <= j < |r| ==>
      TopLevel(r[j].path, prefix)
      || exists i :: 0 <= i < j && r[i].isDir && HasPrefix(r[j].path, r[i].path + "/")
  }

  lemma PreOrderAppend(a: seq<FileEntry>, b: seq<FileEntry>, prefix: string)
    requires PreOrder(a, prefix) && PreOrder(b, prefix)
    ensures PreOrder(a + b, prefix)
  {
    var r := a + b;
    forall j | |a| <= j < |r| && !TopLevel(r[j].path, prefix)
      ensures exists i :: 0 <= i < j && r[i].isDir && HasPrefix(r[j].path, r[i].path + "/")
    {
      assert r[j] == b[j - |a|];
      var i :| 0 <= i < j - |a| && b[i].isDir && HasPrefix(b[j - |a|].path, b[i].path + "/");
      assert r[i + |a|] == b[i];
    }
    forall j | 0 <= j < |a| ensures r[j] == a[j] { }
  }

  lemma PreOrderNest(d: FileEntry, sub: seq<FileEntry>, prefix: string)
    requires d.isDir && TopLevel(d.path, prefix)
    requires PreOrder(sub, d.path + "/")
    requires forall e :: e in sub ==> HasPrefix(e.path, d.path + "/")
    ensures PreOrder([d] + sub, prefix)
  {
    var r := [d] + sub;
    forall j | 1 <= j < |r|
      ensures exists i :: 0 <= i < j && r[i].isDir && HasPrefix(r[j].path, r[i].path + "/")
    {
      assert r[j] == sub[j - 1];
      if !TopLevel(sub[j - 1].path, d.path + "/") {
        var i :| 0 <= i < j - 1 && sub[i].isDir && HasPrefix(sub[j - 1].path, sub[i].path + "/");
        assert r[i + 1] == sub[i];
      } else {
        assert r[0] == d;
      }
    }
  }

  lemma HasPrefixTrans(s: string, p: string, q: string)
    requires HasPrefix(s, p + q)
    ensures HasPrefix(s, p)
  {
    assert s[..|p|] == (p + q)[..|p|];
  }

  /** Every entry of a walk over a well-named tree is below the prefix, is
      not skipped and carries the right extension, and the entries come
      in pre-order. */
  lemma {:induction false} ScanShape(skip: string -> bool, root: string, dir: Node, maxDepth: int, depth: int, prefix: string)
    requires NameLocal(skip)
    requires forall i :: 0 <= i < |dir.children| ==> WellNamed(dir.children[i])
    requires DirPrefix(prefix)
    ensures forall e :: e in Scan(skip, root, dir, maxDepth, depth, prefix) ==> EntryOk(skip, e, prefix)
    ensures PreOrder(Scan(skip, root, dir, maxDepth, depth, prefix), prefix)
    decreases dir, 1
  {
    if !(maxDepth > 0 && depth > maxDepth) && dir.readable {
      EntriesShape(skip, root, dir, |dir.children|, maxDepth, depth, prefix);
    }
  }

  lemma {:induction false} EntriesShape(skip: string -> bool, root: string, dir: Node, n: nat, maxDepth: int, depth: int, prefix: string)
    requires n <= |dir.children|
    requires NameLocal(skip)
    requires forall i :: 0 <= i < |dir.children| ==> WellNamed(dir.children[i])
    requires DirPrefix(prefix)
    ensures forall e :: e in Entries(skip, root, dir, n, maxDepth, depth, prefix) ==> EntryOk(skip, e, prefix)
    ensures PreOrder(Entries(skip, root, dir, n, maxDepth, depth, prefix), prefix)
    decreases dir, 0, n
  {
    if n > 0 {
      var a := Entries(skip, root, dir, n - 1, maxDepth, depth, prefix);
      var b := One(skip, root, dir.children[n - 1], maxDepth, depth, prefix);
      EntriesShape(skip, root, dir, n - 1, maxDepth, depth, prefix);
      OneShape(skip, root, dir.children[n - 1], maxDepth, depth, prefix);
      PreOrderAppend(a, b, prefix);
      assert Entries(skip, root, dir, n, maxDepth, depth, prefix) == a + b;
    }
  }

  /** A name-local rule treats a child the same under the scanned root and
      under the listing prefix. */
  lemma SkipSameName(skip: string -> bool, root: string, prefix: string, name: string)
    requires NameLocal(skip) && ProperName(name) && DirPrefix(prefix)
    ensures skip(prefix + name) == skip(root + "/" + name)
  {
    var dir := root + "/";
    assert DirPrefix(dir);
    assert skip(dir + name) == skip(name);
    assert skip(prefix + name) == skip(name);
  }

  /** The path of a listed child is its prefix followed by its name. */
  lemma ChildPath(prefix: string, name: string)
    requires ProperName(name)
    ensures TopLevel(prefix + name, prefix)
  {
    assert (prefix + name)[|prefix|..] == name;
  }

  /** The entry recorded for a child that is not skipped is well formed
      and is an immediate child of `prefix`. */
  lemma OwnEntryOk(skip: string -> bool, root: string, c: Node, prefix: string)
    requires NameLocal(skip) && ProperName(c.name) && DirPrefix(prefix)
    requires !skip(root + "/" + c.name) && c.size.Some?
    ensures EntryOk(skip, EntryFor(c, prefix), prefix) && TopLevel(EntryFor(c, prefix).path, prefix)
  {
    SkipSameName(skip, root, prefix, c.name);
    ExtAfterSlash(prefix, c.name);
    ChildPath(prefix, c.name);
  }

  /** An entry below the directory `prefix + name + "/"` is below `prefix`. */
  lemma NestedEntryOk(skip: string -> bool, e: FileEntry, prefix: string, name: string)
    requires EntryOk(skip, e, prefix + name + "/")
    ensures EntryOk(skip, e, prefix)
  {
    assert prefix + name + "/" == prefix + (name + "/");
    HasPrefixTrans(e.path, prefix, name + "/");
  }

  lemma {:induction false} OneShape(skip: string -> bool, root: string, c: Node, maxDepth: int, depth: int, prefix: string)
    requires NameLocal(skip)
    requires WellNamed(c)
    requires DirPrefix(prefix)
    ensures forall e :: e in One(skip, root, c, maxDepth, depth, prefix) ==> EntryOk(skip, e, prefix)
    ensures PreOrder(One(skip, root, c, maxDepth, depth, prefix), prefix)
    decreases c, 3
  {
    var path := root + "/" + c.name;
    if !skip(path) && c.size.Some? {
      var d := EntryFor(c, prefix);
      OwnEntryOk(skip, root, c, prefix);
      if c.isDir {
        DirShape(skip, root, c, maxDepth, depth, prefix);
      } else {
        assert PreOrder([d], prefix);
        assert One(skip, root, c, maxDepth, depth, prefix) == [d];
      }
    }
  }

  /** OneShape for a directory that is listed. */
  lemma {:induction false} DirShape(skip: string -> bool, root: string, c: Node, maxDepth: int, depth: int, prefix: string)
    requires NameLocal(skip) && WellNamed(c) && DirPrefix(prefix)
    requires c.isDir && !skip(root + "/" + c.name) && c.size.Some?
    requires EntryOk(skip, EntryFor(c, prefix), prefix) && TopLevel(EntryFor(c, prefix).path, prefix)
    ensures forall e :: e in One(skip, root, c, maxDepth, depth, prefix) ==> EntryOk(skip, e, prefix)
    ensures PreOrder(One(skip, root, c, maxDepth, depth, prefix), prefix)
    decreases c, 2
  {
    var path := root + "/" + c.name;
    var d := EntryFor(c, prefix);
    var p2 := prefix + c.name + "/";
    var sub := Scan(skip, path, c, maxDepth, depth + 1, p2);
    ScanShape(skip, path, c, maxDepth, depth + 1, p2);
    forall e | e in sub ensures EntryOk(skip, e, prefix) {
      NestedEntryOk(skip, e, prefix, c.name);
    }
    PreOrderNest(d, sub, prefix);
    assert One(skip, root, c, maxDepth, depth, prefix) == [d] + sub;
  }

  /** The walk ScanDirectory performs lists no excluded path, lists each
      file with the lower-cased extension of its name, and lists each
      directory before everything below it. */
  lemma ScanDirectoryShape(root: string, dir: Node, maxDepth: int, depth: int, prefix: string)
    requires forall i :: 0 <= i < |dir.children| ==> WellNamed(dir.children[i])
    requires DirPrefix(prefix)
    ensures forall e :: e in Scan(Excluded, root, dir, maxDepth, depth, prefix) ==>
      HasPrefix(e.path, prefix) && !Excluded(e.path) && (e.isDir ==> e.ext == "") && (!e.isDir ==> e.ext == ToLower(Ext(e.path)))
    ensures PreOrder(Scan(Excluded, root, dir, maxDepth, depth, prefix), prefix)
  {
    ExcludedIsNameLocal();
    ScanShape(Excluded, root, dir, maxDepth, depth, prefix);
  }

  /** With `maxDepth == 0` the walk is unbounded: its result does not
      depend on the depth it starts at. */
  lemma {:induction false} ScanUnbounded(skip: string -> bool, root: string, dir: Node, d1: int, d2: int, prefix: string)
    ensures Scan(skip, root, dir, 0, d1, prefix) == Scan(skip, root, dir, 0, d2, prefix)
    decreases dir, 1
  {
    if dir.readable {
      EntriesUnbounded(skip, root, dir, |dir.children|, d1, d2, prefix);
    }
  }

  lemma {:induction false} EntriesUnbounded(skip: string -> bool, root: string, dir: Node, n: nat, d1: int, d2: int, prefix: string)
    requires n <= |dir.children|
    ensures Entries(skip, root, dir, n, 0, d1, prefix) == Entries(skip, root, dir, n, 0, d2, prefix)
    decreases dir, 0, n
  {
    if n > 0 {
      EntriesUnbounded(skip, root, dir, n - 1, d1, d2, prefix);
      var c := dir.children[n - 1];
      if c.isDir {
        ScanUnbounded(skip, root + "/" + c.name, c, d1 + 1, d2 + 1, prefix + c.name + "/");
      }
      assert One(skip, root, c, 0, d1, prefix) == One(skip, root, c, 0, d2, prefix);
    }
  }

  /** A file that the tally counts: not a directory, with an extension. */
  predicate Counted(f: FileEntry) {
    !f.isDir && f.ext != ""
  }

  /** How many counted files have extension `ext`. */
  function CountOf(files: seq<FileEntry>, ext: string): (n: nat)
    ensures n <= |files|
  {
    if files == [] then 0
    else
      var f := files[|files| - 1];
      CountOf(files[..|files| - 1], ext) + (if Counted(f) && f.ext == ext then 1 else 0)
  }

  /** The map CountFileTypes fills from the files. */
  function Tally(files: seq<FileEntry>): map<string, nat> {
    if files == [] then map[]
    else
      var t := Tally(files[..|files| - 1]);
      var f := files[|files| - 1];
      if Counted(f) then t[f.ext := (if f.ext in t then t[f.ext] else 0) + 1] else t
  }

  /** The tally holds exactly the extensions of counted files, each with
      the number of such files. */
  lemma {:induction false} TallyIsCount(files: seq<FileEntry>)
    ensures forall k :: k in Tally(files) <==> CountOf(files, k) > 0
    ensures forall k :: k in Tally(files) ==> Tally(files)[k] == CountOf(files, k)
  {
    if files != [] {
      TallyIsCount(files[..|files| - 1]);
    }
  }

  /** A positive count means some counted file has that extension. */
  lemma {:induction false} CountOfPositive(files: seq<FileEntry>, ext: string)
    ensures CountOf(files, ext) > 0 <==> exists i :: 0 <= i < |files| && Counted(files[i]) && files[i].ext == ext
  {
    if files != [] {
      var init := files[..|files| - 1];
      CountOfPositive(init, ext);
      if CountOf(init, ext) > 0 {
        var i :| 0 <= i < |init| && Counted(init[i]) && init[i].ext == ext;
        assert files[i] == init[i];
      }
      forall i | 0 <= i < |init| ensures files[i] == init[i] { }
    }
  }

  /** Larger counts first. */
  function ByCountDescending(): (FileTypeCount, FileTypeCount) -> bool {
    (a: FileTypeCount, b: FileTypeCount) => a.count >= b.count
  }

  lemma ByCountIsTotalPreorder()
    ensures TotalPreorder(ByCountDescending())
  {
    var le := ByCountDescending();
    forall a: FileTypeCount, b: FileTypeCount ensures le(a, b) || le(b, a) { }
    forall a: FileTypeCount, b: FileTypeCount, c: FileTypeCount | le(a, b) && le(b, c) ensures le(a, c) { }
  }

  /** No two lines share an extension. */
  predicate DistinctExts(s: seq<FileTypeCount>) {
    forall i, j :: 0 <= i < j < |s| ==> s[i].ext != s[j].ext
  }

  /** Lines with distinct extensions each occur at most once. */
  lemma {:induction false} AtMostOnce(a: seq<FileTypeCount>)
    requires DistinctExts(a)
    ensures forall x :: multiset(a)[x] <= 1
  {
    if a != [] {
      var init, last := a[..|a| - 1], a[|a| - 1];
      AtMostOnce(init);
      assert a == init + [last];
      assert last !in init by {
        forall k | 0 <= k < |init| ensures init[k] != last {
          assert init[k] == a[k];
        }
      }
    }
  }

  /** A permutation of lines that each occur at most once repeats no line. */
  lemma NoRepeatPermuted(a: seq<FileTypeCount>, b: seq<FileTypeCount>, i: int, j: int)
    requires multiset(a) == multiset(b) && DistinctExts(a)
    requires 0 <= i < j < |b|
    ensures b[i] != b[j]
  {
    AtMostOnce(a);
    assert b == b[..j] + b[j..];
    assert multiset(b)[b[j]] == multiset(b[..j])[b[j]] + multiset(b[j..])[b[j]];
    assert b[..j][i] == b[i];
    assert b[j..][0] == b[j];
  }

  /** A permutation of lines with distinct extensions has distinct
      extensions. */
  lemma DistinctExtsPermuted(a: seq<FileTypeCount>, b: seq<FileTypeCount>)
    requires multiset(a) == multiset(b) && DistinctExts(a)
    ensures DistinctExts(b)
  {
    forall i, j | 0 <= i < j < |b| ensures b[i].ext != b[j].ext {
      NoRepeatPermuted(a, b, i, j);
      assert b[i] in multiset(a) && b[j] in multiset(a);
      var p :| 0 <= p < |a| && a[p] == b[i];
      var q :| 0 <= q < |a| && a[q] == b[j];
      assert p != q;
    }
  }

  /** The counting loop of CountFileTypes. */
  method TallyFiles(files: seq<FileEntry>) returns (counts: map<string, nat>)
    ensures counts == Tally(files)
  {
    counts := map[];
    for i := 0 to |files|
      invariant counts == Tally(files[..i])
    {
      var f := files[i];
      if !f.isDir && f.ext != "" {
        var c := if f.ext in counts then counts[f.ext] else 0;
        counts := counts[f.ext := c + 1];
      }
      assert files[..i + 1][..i] == files[..i];
    }
    assert files[..|files|] == files;
  }

  /** Some line of `r` has extension `k`. */
  predicate HasExt(r: seq<FileTypeCount>, k: string) {
    exists i :: 0 <= i < |r| && r[i].ext == k
  }

  /** `c` is no larger than the count of any line of `r`. */
  predicate AtMostAll(c: int, r: seq<FileTypeCount>) {
    forall i :: 0 <= i < |r| ==> c <= r[i].count
  }

  /** The line for extension `ext` of the tally `counts`. */
  predicate LineOf(l: FileTypeCount, counts: map<string, nat>, colors: map<string, string>) {
    l.ext in counts && l.count == counts[l.ext] && l.color == ColorIn(colors, l.ext)
  }

  /** `all` holds one line per extension of `counts`, each with its count
      and colour. */
  ghost predicate LinesFor(all: seq<FileTypeCount>, counts: map<string, nat>, colors: map<string, string>) {
    && |all| == |counts|
    && (forall i :: 0 <= i < |all| ==> LineOf(all[i], counts, colors))
    && DistinctExts(all)
    && (forall k :: k in counts ==> HasExt(all, k))
  }

  /** The state of TallyLines' loop: `all` holds the lines of the
      extensions already taken from `counts`, `rest` those still to go. */
  ghost predicate Pending(all: seq<FileTypeCount>, rest: map<string, nat>, counts: map<string, nat>, colors: map<string, string>) {
    && rest.Keys <= counts.Keys
    && |all| + |rest| == |counts|
    && (forall i :: 0 <= i < |all| ==> LineOf(all[i], counts, colors) && all[i].ext !in rest)
    && DistinctExts(all)
    && (forall k :: k in counts ==> k in rest || HasExt(all, k))
  }

  /** Taking one more extension out of `rest` keeps the loop state. */
  lemma PendingStep(all: seq<FileTypeCount>, rest: map<string, nat>, counts: map<string, nat>, colors: map<string, string>, ext: string)
    requires Pending(all, rest, counts, colors) && ext in rest
    ensures Pending(all + [FileTypeCount(ext, counts[ext], ColorIn(colors, ext))], rest - {ext}, counts, colors)
  {
    var l := FileTypeCount(ext, counts[ext], ColorIn(colors, ext));
    var all' := all + [l];
    assert |rest - {ext}| == |rest| - 1;
    forall i | 0 <= i < |all'| ensures LineOf(all'[i], counts, colors) && all'[i].ext !in rest - {ext} {
      if i < |all| { assert all'[i] == all[i]; }
    }
    DistinctExtsStep(all, l);
    ExtCoverStep(all, rest, counts, ext, l);
  }

  lemma DistinctExtsStep(all: seq<FileTypeCount>, l: FileTypeCount)
    requires DistinctExts(all) && forall i :: 0 <= i < |all| ==> all[i].ext != l.ext
    ensures DistinctExts(all + [l])
  {
    var all' := all + [l];
    forall i, j | 0 <= i < j < |all'| ensures all'[i].ext != all'[j].ext {
      assert all'[i] == all[i];
    }
  }

  lemma ExtCoverStep(all: seq<FileTypeCount>, rest: map<string, nat>, counts: map<string, nat>, ext: string, l: FileTypeCount)
    requires ext in rest && l.ext == ext
    requires forall k :: k in counts ==> k in rest || HasExt(all, k)
    ensures forall k :: k in counts ==> k in rest - {ext} || HasExt(all + [l], k)
  {
    var all' := all + [l];
    forall k | k in counts ensures k in rest - {ext} || HasExt(all', k) {
      if k == ext {
        assert all'[|all|].ext == k;
      } else if k !in rest {
        var i :| 0 <= i < |all| && all[i].ext == k;
        assert all'[i].ext == k;
      }
    }
  }

  /** When nothing is left, the loop state is the full set of lines. */
  lemma PendingDone(all: seq<FileTypeCount>, counts: map<string, nat>, colors: map<string, string>)
    requires Pending(all, map[], counts, colors)
    ensures LinesFor(all, counts, colors)
  {
  }

  /** The loop that turns the tally into coloured lines, one per
      extension, in the map's iteration order. */
  method TallyLines(counts: map<string, nat>, colors: map<string, string>) returns (all: seq<FileTypeCount>)
    ensures LinesFor(all, counts, colors)
  {
    all := [];
    var rest := counts;
    while rest != map[]
      invariant Pending(all, rest, counts, colors)
      decreases |rest|
    {
      var ext :| ext in rest;
      PendingStep(all, rest, counts, colors, ext);
      all := all + [FileTypeCount(ext, counts[ext], ColorIn(colors, ext))];
      rest := rest - {ext};
    }
    PendingDone(all, counts, colors);
  }

  /** Reordering the lines keeps them lines of the same tally. */
  lemma LinesPermuted(all: seq<FileTypeCount>, sorted: seq<FileTypeCount>, counts: map<string, nat>, colors: map<string, string>)
    requires LinesFor(all, counts, colors) && multiset(sorted) == multiset(all)
    ensures LinesFor(sorted, counts, colors)
  {
    assert |sorted| == |all| by {
      assert |multiset(sorted)| == |multiset(all)|;
    }
    DistinctExtsPermuted(all, sorted);
    forall i | 0 <= i < |sorted| ensures LineOf(sorted[i], counts, colors) {
      assert sorted[i] in multiset(all);
    }
    forall k | k in counts ensures exists q :: 0 <= q < |sorted| && sorted[q].ext == k {
      var p :| 0 <= p < |all| && all[p].ext == k;
      assert all[p] in multiset(sorted);
    }
  }

  /** Lines of the tally `counts`, no extension twice, counts not
      increasing. */
  ghost predicate RankedLinesOf(r: seq<FileTypeCount>, counts: map<string, nat>, colors: map<string, string>) {
    && (forall i :: 0 <= i < |r| ==> LineOf(r[i], counts, colors))
    && DistinctExts(r)
    && (forall i, j :: 0 <= i < j < |r| ==> r[i].count >= r[j].count)
  }

  /** No extension of `counts` left out of `r` counts more than one kept. */
  ghost predicate NoneLeftAbove(r: seq<FileTypeCount>, counts: map<string, nat>) {
    forall k :: k in counts && !HasExt(r, k) ==> AtMostAll(counts[k], r)
  }

  /** `r` ranks the extensions of the tally `counts`: as many lines as
      there are extensions, up to `limit`, each the line of its extension,
      no extension twice, counts not increasing, and no extension left out
      counts more than any kept. */
  ghost predicate Ranking(r: seq<FileTypeCount>, counts: map<string, nat>, colors: map<string, string>, limit: nat) {
    && |r| == (if |counts| < limit then |counts| else limit)
    && RankedLinesOf(r, counts, colors)
    && NoneLeftAbove(r, counts)
  }

  /** A prefix of the sorted tally lines holds lines of the tally, with
      distinct extensions and counts that do not increase. */
  lemma PrefixOfSorted(sorted: seq<FileTypeCount>, counts: map<string, nat>, colors: map<string, string>, n: nat)
    requires LinesFor(sorted, counts, colors) && Sorted(sorted, ByCountDescending()) && n <= |sorted|
    ensures RankedLinesOf(sorted[..n], counts, colors)
  {
    var r := sorted[..n];
    forall i | 0 <= i < n ensures LineOf(r[i], counts, colors) {
      assert r[i] == sorted[i];
    }
    forall i, j | 0 <= i < j < n ensures r[i].ext != r[j].ext && r[i].count >= r[j].count {
      assert r[i] == sorted[i] && r[j] == sorted[j];
      assert ByCountDescending()(sorted[i], sorted[j]);
    }
  }

  /** An extension outside the first `n` sorted tally lines counts no more
      than any of them. */
  lemma RankedTop(sorted: seq<FileTypeCount>, counts: map<string, nat>, colors: map<string, string>, n: nat)
    requires LinesFor(sorted, counts, colors) && Sorted(sorted, ByCountDescending()) && n <= |sorted|
    ensures NoneLeftAbove(sorted[..n], counts)
  {
    var r := sorted[..n];
    forall k | k in counts && !HasExt(r, k) ensures AtMostAll(counts[k], r) {
      var q :| 0 <= q < |sorted| && sorted[q].ext == k;
      forall p | 0 <= p < n ensures sorted[p].ext != k {
        assert r[p] == sorted[p];
      }
      assert n <= q;
      assert LineOf(sorted[q], counts, colors);
      forall i | 0 <= i < n ensures counts[k] <= r[i].count {
        assert r[i] == sorted[i];
        assert ByCountDescending()(sorted[i], sorted[q]);
      }
    }
  }

  /** The tally lines, sorted by descending count and cut to `limit`, are
      a ranking of the tally. */
  lemma RankedLines(sorted: seq<FileTypeCount>, counts: map<string, nat>, colors: map<string, string>, limit: nat)
    requires LinesFor(sorted, counts, colors)
    requires Sorted(sorted, ByCountDescending())
    ensures Ranking(sorted[..if |sorted| < limit then |sorted| else limit], counts, colors, limit)
  {
    var n := if |sorted| < limit then |sorted| else limit;
    PrefixOfSorted(sorted, counts, colors, n);
    RankedTop(sorted, counts, colors, n);
  }

  /** CountFileTypes: the ten (or fewer) most frequent extensions of the
      counted files, most frequent first, each with its colour. */
  method CountFileTypes(files: seq<FileEntry>) returns (r: seq<FileTypeCount>)
    ensures Ranking(r, Tally(files), ExtColors, 10)
  {
    var counts := TallyFiles(files);
    var colors := ExtColors;
    var all := TallyLines(counts, colors);
    ByCountIsTotalPreorder();
    var sorted := SortBy(all, ByCountDescending());
    LinesPermuted(all, sorted, counts, colors);
    RankedLines(sorted, counts, colors, 10);
    r := sorted[..if |sorted| < 10 then |sorted| else 10];
  }
}
