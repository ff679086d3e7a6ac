/** The command line (cmd/cmd.go): `add` with its flags, `list` grouping
    the registry by category, and `go` printing a `cd` command for the
    shell wrapper. */
module Cli {
  import opened Wrappers
  import opened Text
  import Order
  import Config

  /** The flags of `add`: -n, -p, -c and -w. */
  datatype AddFlags = AddFlags(name: string, path: string, category: string, workingDir: bool)

  /** What `add` hands to AddProject: with -w, the base name of the working
      directory and the directory itself (nothing when os.Getwd fails),
      the -n and -p flags being ignored; otherwise -n and -p, which must
      both be non-empty. The category is -c either way. */
  function AddRequest(flags: AddFlags, cwd: Option<string>): (r: Option<Config.Project>)
    ensures flags.workingDir ==> (r.Some? <==> cwd.Some?)
    ensures !flags.workingDir ==> (r.Some? <==> flags.name != "" && flags.path != "")
    ensures r.Some? ==> r.value.category == flags.category && r.value.name != ""
    ensures r.Some? && flags.workingDir ==> r.value.name == Base(cwd.value) && r.value.path == cwd.value
    ensures r.Some? && !flags.workingDir ==> r.value.name == flags.name && r.value.path == flags.path
  {
    if flags.workingDir then
      match cwd
      case None => None
      case Some(dir) =>
        BaseShape(dir);
        Some(Config.Project(Base(dir), dir, flags.category))
    else if flags.name == "" || flags.path == "" then None
    else Some(Config.Project(flags.name, flags.path, flags.category))
  }

  /** `add`: the request, when there is one, is stored by AddProject;
      otherwise the registry is left alone. */
  method Add(flags: AddFlags, cwd: Option<string>, store: Config.Store, env: Config.PathEnv) returns (added: bool)
    modifies store
    ensures added <==> AddRequest(flags, cwd).Some?
    ensures added ==>
      var p := AddRequest(flags, cwd).value;
      store.file == Some(Config.Upserted(Config.Loaded(old(store.file)), Config.Project(p.name, Config.StoredPath(env, p.path), p.category)))
    ensures !added ==> store.file == old(store.file)
  {
    var name, path, category;
    if flags.workingDir {
      if cwd.None? {
        return false;
      }
      name := Base(cwd.value);
      path := cwd.value;
      category := flags.category;
    } else {
      name := flags.name;
      path := flags.path;
      category := flags.category;
      if name == "" || path == "" {
        return false;
      }
    }
    var _ := store.AddProject(name, path, category, env);
    return true;
  }

  const NoProjects := "No projects found"
  const Uncategorized := "Uncategorized"

  /** The heading a project is listed under: its category, or
      "Uncategorized" when it has none. */
  function Shelf(p: Config.Project): (c: string)
    ensures c != ""
    ensures p.category != "" ==> c == p.category
  {
    if p.category == "" then Uncategorized else p.category
  }

  /** The project as the listing holds it, with the heading as category. */
  function Shelved(p: Config.Project): Config.Project {
    p.(category := Shelf(p))
  }

  /** The projects listed under heading `c`, in registry order. */
  function Filed(ps: seq<Config.Project>, c: string): seq<Config.Project> {
    if ps == [] then []
    else Filed(ps[..|ps| - 1], c) + (if Shelf(ps[|ps| - 1]) == c then [Shelved(ps[|ps| - 1])] else [])
  }

  /** Filing keeps registry order: the projects of a longer registry come
      after those of its prefix. */
  lemma {:induction false} FiledAppend(a: seq<Config.Project>, b: seq<Config.Project>, c: string)
    ensures Filed(a + b, c) == Filed(a, c) + Filed(b, c)
    decreases |b|
  {
    if b == [] {
      assert a + b == a;
    } else {
      var init, last := b[..|b| - 1], b[|b| - 1];
      FiledAppend(a, init, c);
      assert (a + b)[..|a + b| - 1] == a + init;
    }
  }

  /** A project is under heading `c` exactly when it is a registry project
      with that heading. */
  lemma {:induction false} FiledMembers(ps: seq<Config.Project>, c: string)
    ensures forall p :: p in Filed(ps, c) <==> exists k :: 0 <= k < |ps| && Shelf(ps[k]) == c && p == Shelved(ps[k])
  {
    if ps != [] {
      var init := ps[..|ps| - 1];
      FiledMembers(init, c);
      forall p | p in Filed(ps, c) ensures exists k :: 0 <= k < |ps| && Shelf(ps[k]) == c && p == Shelved(ps[k]) {
        if p in Filed(init, c) {
          var k :| 0 <= k < |init| && Shelf(init[k]) == c && p == Shelved(init[k]);
          assert ps[k] == init[k];
        } else {
          assert Shelf(ps[|ps| - 1]) == c && p == Shelved(ps[|ps| - 1]);
        }
      }
      forall p, k | 0 <= k < |ps| && Shelf(ps[k]) == c && p == Shelved(ps[k]) ensures p in Filed(ps, c) {
        if k < |ps| - 1 {
          assert init[k] == ps[k];
        }
      }
    }
  }

  /** Some registry project has heading `c`. */
  predicate HasShelf(ps: seq<Config.Project>, c: string) {
    exists k :: 0 <= k < |ps| && Shelf(ps[k]) == c
  }

  /** A heading has projects exactly when some project has it. */
  lemma FiledNonEmpty(ps: seq<Config.Project>, c: string)
    ensures Filed(ps, c) != [] <==> HasShelf(ps, c)
  {
    FiledMembers(ps, c);
    var filed := Filed(ps, c);
    assert filed == [] || filed[0] in filed;
    if HasShelf(ps, c) {
      var k :| 0 <= k < |ps| && Shelf(ps[k]) == c;
      assert Shelved(ps[k]) in Filed(ps, c);
    }
  }

  /** One heading of the listing with its projects. */
  datatype Group = Group(category: string, projects: seq<Config.Project>)

  /** Some group has heading `c`. */
  predicate Listed(groups: seq<Group>, c: string) {
    exists i :: 0 <= i < |groups| && groups[i].category == c
  }

  /** The grouping `list` prints: the headings in strictly ascending order,
      each with its projects in registry order, none empty, and every
      project's heading among them. */
  ghost predicate Grouping(groups: seq<Group>, ps: seq<Config.Project>) {
    && (forall i, j :: 0 <= i < j < |groups| ==> Order.StrLess(groups[i].category, groups[j].category))
    && (forall i :: 0 <= i < |groups| ==> groups[i].projects == Filed(ps, groups[i].category) && groups[i].projects != [])
    && (forall k :: 0 <= k < |ps| ==> Listed(groups, Shelf(ps[k])))
  }

  /** A heading is listed exactly when some project has it. */
  lemma GroupingHeadings(groups: seq<Group>, ps: seq<Config.Project>)
    requires Grouping(groups, ps)
    ensures forall c :: Listed(groups, c) <==> HasShelf(ps, c)
  {
    forall c ensures Listed(groups, c) <==> HasShelf(ps, c) {
      FiledNonEmpty(ps, c);
      if Listed(groups, c) {
        var i :| 0 <= i < |groups| && groups[i].category == c;
        assert groups[i].projects != [];
      }
      if HasShelf(ps, c) {
        var k :| 0 <= k < |ps| && Shelf(ps[k]) == c;
        assert Listed(groups, Shelf(ps[k]));
      }
    }
  }

  /** The headings of a grouping. */
  function Headings(groups: seq<Group>): (hs: seq<string>)
    ensures |hs| == |groups| && forall i :: 0 <= i < |groups| ==> hs[i] == groups[i].category
  {
    seq(|groups|, i requires 0 <= i < |groups| => groups[i].category)
  }

  /** Strictly ascending strings. */
  predicate Ascending(s: seq<string>) {
    forall i, j :: 0 <= i < j < |s| ==> Order.StrLess(s[i], s[j])
  }

  /** Two strictly ascending sequences of the same strings are equal. */
  lemma {:induction false} AscendingUnique(a: seq<string>, b: seq<string>)
    requires Ascending(a) && Ascending(b)
    requires forall x :: x in a <==> x in b
    ensures a == b
    decreases |a|
  {
    if a == [] {
      assert forall i :: 0 <= i < |b| ==> b[i] in b;
    } else {
      assert a[0] in a;
      var j :| 0 <= j < |b| && b[j] == a[0];
      assert b[0] in b;
      var i :| 0 <= i < |a| && a[i] == b[0];
      if j > 0 && i > 0 {
        assert Order.StrLess(b[0], a[0]);
        Order.StrLessAsymmetric(b[0], a[0]);
      }
      assert a[0] == b[0];
      forall x ensures x in a[1..] <==> x in b[1..] {
        if x in a[1..] {
          var k :| 0 <= k < |a| - 1 && a[1..][k] == x;
          assert Order.StrLess(a[0], a[k + 1]);
          Order.StrLessIrreflexive(a[0]);
          assert x in b;
          var m :| 0 <= m < |b| && b[m] == x;
          assert m != 0 && b[1..][m - 1] == x;
        }
        if x in b[1..] {
          var k :| 0 <= k < |b| - 1 && b[1..][k] == x;
          assert Order.StrLess(b[0], b[k + 1]);
          Order.StrLessIrreflexive(b[0]);
          assert x in a;
          var m :| 0 <= m < |a| && a[m] == x;
          assert m != 0 && a[1..][m - 1] == x;
        }
      }
      AscendingUnique(a[1..], b[1..]);
      assert a == [a[0]] + a[1..] && b == [b[0]] + b[1..];
    }
  }

  /** The grouping is determined by the registry: however Go's map is
      iterated, `list` prints the same headings in the same order. */
  lemma GroupingUnique(g1: seq<Group>, g2: seq<Group>, ps: seq<Config.Project>)
    requires Grouping(g1, ps) && Grouping(g2, ps)
    ensures g1 == g2
  {
    GroupingHeadings(g1, ps);
    GroupingHeadings(g2, ps);
    var h1, h2 := Headings(g1), Headings(g2);
    forall x ensures x in h1 <==> x in h2 {
      if x in h1 {
        var i :| 0 <= i < |h1| && h1[i] == x;
        assert Listed(g1, x);
      }
      if x in h2 {
        var i :| 0 <= i < |h2| && h2[i] == x;
        assert Listed(g2, x);
      }
    }
    AscendingUnique(h1, h2);
    assert forall i :: 0 <= i < |g1| ==> g1[i].category == h1[i] == h2[i] == g2[i].category;
  }

  /** No heading is empty: projects without a category are listed as
      "Uncategorized". */
  lemma NoEmptyHeading(groups: seq<Group>, ps: seq<Config.Project>)
    requires Grouping(groups, ps)
    ensures forall i :: 0 <= i < |groups| ==> groups[i].category != ""
  {
    FiledNonEmpty(ps, "");
  }

  /** No element occurs twice. */
  predicate Distinct<T(==)>(s: seq<T>) {
    forall i, j :: 0 <= i < j < |s| ==> s[i] != s[j]
  }

  lemma {:induction false} DistinctOnce<T>(a: seq<T>)
    requires Distinct(a)
    ensures forall x :: multiset(a)[x] <= 1
  {
    if a != [] {
      var init, last := a[..|a| - 1], a[|a| - 1];
      DistinctOnce(init);
      assert a == init + [last];
      assert last !in init by {
        forall k | 0 <= k < |init| ensures init[k] != last {
          assert init[k] == a[k];
        }
      }
    }
  }

  /** A permutation of distinct elements is distinct. */
  lemma DistinctPermuted<T>(a: seq<T>, b: seq<T>)
    requires multiset(a) == multiset(b) && Distinct(a)
    ensures Distinct(b)
  {
    DistinctOnce(a);
    forall i, j | 0 <= i < j < |b| ensures b[i] != b[j] {
      assert b == b[..j] + b[j..];
      assert multiset(b)[b[j]] == multiset(b[..j])[b[j]] + multiset(b[j..])[b[j]];
      assert b[..j][i] == b[i] && b[j..][0] == b[j];
    }
  }

  /** sort.Strings' order. */
  function Alphabetical(): (string, string) -> bool {
    Order.ByKey((s: string) => s, Order.Ascending)
  }

  /** Distinct strings sorted alphabetically are strictly ascending. */
  lemma SortedDistinctAscending(s: seq<string>)
    requires Order.Sorted(s, Alphabetical()) && Distinct(s)
    ensures Ascending(s)
  {
    forall i, j | 0 <= i < j < |s| ensures Order.StrLess(s[i], s[j]) {
      assert Alphabetical()(s[i], s[j]);
      assert Order.InOrder(s[i], s[j], Order.Ascending);
      Order.StrLessTotal(s[i], s[j]);
    }
  }

  /** The map of the listing: each heading that occurs, with its projects. */
  ghost predicate ShelfMap(m: map<string, seq<Config.Project>>, ps: seq<Config.Project>) {
    && (forall c :: c in m <==> HasShelf(ps, c))
    && (forall c :: c in m ==> m[c] == Filed(ps, c))
  }

  /** Filing one more project extends only its own heading. */
  lemma FiledStep(ps: seq<Config.Project>, i: nat, d: string)
    requires i < |ps|
    ensures Filed(ps[..i + 1], d) == Filed(ps[..i], d) + (if Shelf(ps[i]) == d then [Shelved(ps[i])] else [])
  {
    assert ps[..i + 1][..i] == ps[..i];
  }

  lemma HasShelfStep(ps: seq<Config.Project>, i: nat, d: string)
    requires i < |ps|
    ensures HasShelf(ps[..i + 1], d) <==> HasShelf(ps[..i], d) || Shelf(ps[i]) == d
  {
    var pre, pre' := ps[..i], ps[..i + 1];
    if HasShelf(pre, d) {
      var k :| 0 <= k < i && Shelf(pre[k]) == d;
      assert pre'[k] == pre[k];
    }
    if Shelf(ps[i]) == d {
      assert pre'[i] == ps[i];
    }
    if HasShelf(pre', d) && Shelf(ps[i]) != d {
      var k :| 0 <= k < i + 1 && Shelf(pre'[k]) == d;
      assert k < i && pre[k] == pre'[k];
    }
  }

  lemma ShelfMapStep(m: map<string, seq<Config.Project>>, ps: seq<Config.Project>, i: nat)
    requires i < |ps| && ShelfMap(m, ps[..i])
    ensures var c := Shelf(ps[i]);
      ShelfMap(m[c := (if c in m then m[c] else []) + [Shelved(ps[i])]], ps[..i + 1])
  {
    var c := Shelf(ps[i]);
    var m' := m[c := (if c in m then m[c] else []) + [Shelved(ps[i])]];
    FiledNonEmpty(ps[..i], c);
    forall d ensures d in m' <==> HasShelf(ps[..i + 1], d) {
      HasShelfStep(ps, i, d);
    }
    forall d | d in m' ensures m'[d] == Filed(ps[..i + 1], d) {
      FiledStep(ps, i, d);
    }
  }

  /** The headings of the map, in the order map iteration gives them. */
  method HeadingsOf(m: map<string, seq<Config.Project>>) returns (keys: seq<string>)
    ensures Distinct(keys)
    ensures forall c :: c in keys <==> c in m
  {
    keys := [];
    var rest := m.Keys;
    while rest != {}
      invariant rest <= m.Keys && Distinct(keys)
      invariant forall c :: c in m <==> c in rest || c in keys
      invariant forall c :: c in rest ==> c !in keys
      decreases |rest|
    {
      var c :| c in rest;
      keys := keys + [c];
      rest := rest - {c};
    }
  }

  /** The first loop of ListProjects: each project is appended to its
      heading's list, a missing category being replaced by
      "Uncategorized". */
  method CategoryMap(ps: seq<Config.Project>) returns (categories: map<string, seq<Config.Project>>)
    ensures ShelfMap(categories, ps)
  {
    categories := map[];
    for i := 0 to |ps|
      invariant ShelfMap(categories, ps[..i])
    {
      ShelfMapStep(categories, ps, i);
      var p := ps[i];
      if p.category == "" {
        p := p.(category := Uncategorized);
      }
      var filed := if p.category in categories then categories[p.category] else [];
      categories := categories[p.category := filed + [p]];
    }
    assert ps[..|ps|] == ps;
  }

  /** The headings of the map in sort.Strings order. */
  method SortedHeadings(categories: map<string, seq<Config.Project>>) returns (sorted: seq<string>)
    ensures Ascending(sorted)
    ensures forall c :: c in sorted <==> c in categories
  {
    var keys := HeadingsOf(categories);
    Order.ByKeyIsTotalPreorder((s: string) => s, Order.Ascending);
    sorted := Order.SortBy(keys, Alphabetical());
    DistinctPermuted(keys, sorted);
    SortedDistinctAscending(sorted);
    forall c ensures c in sorted <==> c in keys {
      assert c in sorted <==> c in multiset(sorted);
      assert c in keys <==> c in multiset(keys);
    }
  }

  /** The grouping of ListProjects: the map's headings, sorted, each with
      its projects. */
  method GroupProjects(ps: seq<Config.Project>) returns (groups: seq<Group>)
    ensures Grouping(groups, ps)
  {
    var categories := CategoryMap(ps);
    var sortedCategories := SortedHeadings(categories);
    groups := [];
    for j := 0 to |sortedCategories|
      invariant |groups| == j
      invariant forall k :: 0 <= k < j ==> groups[k] == Group(sortedCategories[k], categories[sortedCategories[k]])
    {
      assert sortedCategories[j] in sortedCategories;
      groups := groups + [Group(sortedCategories[j], categories[sortedCategories[j]])];
    }
    forall i | 0 <= i < |groups| ensures groups[i].projects == Filed(ps, groups[i].category) && groups[i].projects != [] {
      assert sortedCategories[i] in sortedCategories;
      FiledNonEmpty(ps, groups[i].category);
    }
    forall k | 0 <= k < |ps| ensures Listed(groups, Shelf(ps[k])) {
      var c := Shelf(ps[k]);
      assert HasShelf(ps, c);
      var j :| 0 <= j < |sortedCategories| && sortedCategories[j] == c;
      assert groups[j].category == c;
    }
  }

  /** The lines printed for the projects of one heading. */
  function ProjectLines(ps: seq<Config.Project>): (lines: seq<string>)
    ensures |lines| == |ps|
  {
    seq(|ps|, i requires 0 <= i < |ps| => "  - " + ps[i].name + ": " + ps[i].path)
  }

  /** The lines printed for a grouping: a blank line and the bracketed
      heading, then one line per project. */
  function Listing(groups: seq<Group>): seq<string> {
    if groups == [] then []
    else
      var g := groups[|groups| - 1];
      Listing(groups[..|groups| - 1]) + ["", "[" + g.category + "]"] + ProjectLines(g.projects)
  }

  /** The lines of one heading, printed one project at a time. */
  method PrintGroup(g: Group) returns (lines: seq<string>)
    ensures lines == ["", "[" + g.category + "]"] + ProjectLines(g.projects)
  {
    lines := ["", "[" + g.category + "]"];
    for k := 0 to |g.projects|
      invariant lines == ["", "[" + g.category + "]"] + ProjectLines(g.projects[..k])
    {
      var p := g.projects[k];
      assert ProjectLines(g.projects[..k + 1]) == ProjectLines(g.projects[..k]) + ["  - " + p.name + ": " + p.path];
      lines := lines + ["  - " + p.name + ": " + p.path];
    }
    assert g.projects[..|g.projects|] == g.projects;
  }

  /** ListProjects: "No projects found" for an empty registry, otherwise
      the grouping's lines. */
  method ListProjects(store: Config.Store) returns (lines: seq<string>)
    ensures Config.Loaded(store.file) == [] ==> lines == [NoProjects]
    ensures Config.Loaded(store.file) != [] ==>
      exists groups :: Grouping(groups, Config.Loaded(store.file)) && lines == Listing(groups)
  {
    var ps := store.Load();
    if |ps| == 0 {
      return [NoProjects];
    }
    var groups := GroupProjects(ps);
    lines := [];
    for j := 0 to |groups|
      invariant lines == Listing(groups[..j])
    {
      var printed := PrintGroup(groups[j]);
      lines := lines + printed;
      assert groups[..j + 1][..j] == groups[..j];
    }
    assert groups[..|groups|] == groups;
  }

  /** `go`: the `cd` command for the project's path, or a not-found
      message when the lookup gives no path, which includes a project
      stored with an empty path. */
  method GoToProject(store: Config.Store, name: string) returns (line: string)
    ensures var path := Config.PathOf(Config.Loaded(store.file), name);
      line == if path != "" then "cd " + path else "Project '" + name + "' not found"
    ensures HasPrefix(line, "cd ") <==> Config.PathOf(Config.Loaded(store.file), name) != ""
  {
    var path := store.GoToProject(name);
    if path != "" {
      line := "cd " + path;
      assert line[..3] == "cd ";
      return;
    }
    line := "Project '" + name + "' not found";
    assert line[0] == 'P';
  }
}
