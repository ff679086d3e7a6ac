/** The state of the interactive list (pkg/ui/models.go): the project and
    category items, the list widget, the UI state record, and how
    InitialModel builds it from the registry. */
module Models {
  import opened Wrappers
  import opened Text
  import Order
  import Config
  import FileScan
  import Git
  import Health

  /** The category shown for a project stored without one. */
  const Uncategorized := "Uncategorized"

  /** A project as the list shows it. */
  datatype ProjectItem = ProjectItem(name: string, path: string, category: string) {
    /** What the list's filter searches. */
    function FilterValue(): string {
      name + " " + category + " " + path
    }
  }

  /** A category and the number of projects in it. */
  datatype CategoryItem = CategoryItem(name: string, count: int) {
    function FilterValue(): string {
      name
    }
  }

  /** An entry of the list widget, which holds either kind of item. */
  datatype Item = ProjectEntry(project: ProjectItem) | CategoryEntry(category: CategoryItem)

  /** Filtering by a project's name, category or path finds it. */
  lemma ProjectFilterFindsFields(i: ProjectItem)
    ensures Contains(i.FilterValue(), i.name)
    ensures Contains(i.FilterValue(), i.category)
    ensures Contains(i.FilterValue(), i.path)
  {
    var v := i.FilterValue();
    assert OccursAt(v, i.name, 0);
    assert OccursAt(v, i.category, |i.name| + 1);
    assert OccursAt(v, i.path, |v| - |i.path|);
    ContainsIff(v, i.name);
    ContainsIff(v, i.category);
    ContainsIff(v, i.path);
  }

  /** The category a project is listed under. */
  function CategoryOf(p: Config.Project): string {
    if p.category == "" then Uncategorized else p.category
  }

  function ItemOf(p: Config.Project): ProjectItem {
    ProjectItem(p.name, p.path, CategoryOf(p))
  }

  /** The items of the registry, in its order. */
  function ItemsOf(ps: seq<Config.Project>): seq<ProjectItem> {
    seq(|ps|, i requires 0 <= i < |ps| => ItemOf(ps[i]))
  }

  /** The loop that turns the loaded projects into items. */
  method BuildProjectItems(ps: seq<Config.Project>) returns (items: seq<ProjectItem>)
    ensures items == ItemsOf(ps)
    ensures forall i :: 0 <= i < |ps| ==>
      && items[i].name == ps[i].name && items[i].path == ps[i].path && items[i].category != ""
      && (ps[i].category != "" ==> items[i].category == ps[i].category)
  {
    items := [];
    for i := 0 to |ps|
      invariant items == ItemsOf(ps[..i])
    {
      var cat := ps[i].category;
      if cat == "" {
        cat := Uncategorized;
      }
      items := items + [ProjectItem(ps[i].name, ps[i].path, cat)];
    }
    assert ps[..|ps|] == ps;
  }

  /** The comparator of sort.Slice on project names, in direction `d`. */
  function ByName(d: Order.Direction): (ProjectItem, ProjectItem) -> bool {
    Order.ByKey((p: ProjectItem) => p.name, d)
  }

  /** The comparator of sort.Slice on category names, ascending. */
  function ByCategoryName(): (CategoryItem, CategoryItem) -> bool {
    Order.ByKey((c: CategoryItem) => c.name, Order.Ascending)
  }

  /** sort.Slice of project items by name in direction `d`. */
  method SortProjects(items: seq<ProjectItem>, d: Order.Direction) returns (sorted: seq<ProjectItem>)
    ensures Order.Sorted(sorted, ByName(d))
    ensures multiset(sorted) == multiset(items)
  {
    Order.ByKeyIsTotalPreorder((p: ProjectItem) => p.name, d);
    sorted := Order.SortBy(items, ByName(d));
  }

  /** The number of items in category `cat`. */
  function CountIn(items: seq<ProjectItem>, cat: string): nat {
    if items == [] then 0
    else CountIn(items[..|items| - 1], cat) + (if items[|items| - 1].category == cat then 1 else 0)
  }

  /** Some item is in category `cat`. */
  predicate HasCategory(items: seq<ProjectItem>, cat: string) {
    exists i :: 0 <= i < |items| && items[i].category == cat
  }

  /** `counts` holds, for each category that occurs, how many items it has. */
  ghost predicate CountsOf(counts: map<string, int>, items: seq<ProjectItem>) {
    && (forall c :: c in counts <==> HasCategory(items, c))
    && (forall c :: c in counts ==> counts[c] == CountIn(items, c))
  }

  lemma CountsOfStep(counts: map<string, int>, items: seq<ProjectItem>, i: nat)
    requires i < |items| && CountsOf(counts, items[..i])
    ensures var cat := items[i].category;
      CountsOf(counts[cat := (if cat in counts then counts[cat] else 0) + 1], items[..i + 1])
  {
    var cat, prefix, next := items[i].category, items[..i], items[..i + 1];
    assert next[..i] == prefix && next[i].category == cat;
    forall c ensures HasCategory(next, c) <==> HasCategory(prefix, c) || c == cat {
      if HasCategory(prefix, c) {
        var k :| 0 <= k < i && prefix[k].category == c;
        assert next[k] == prefix[k];
      }
    }
    if cat !in counts {
      assert CountIn(prefix, cat) == 0 by { CountInAbsent(prefix, cat); }
    }
  }

  /** A category with no item counts zero. */
  lemma {:induction false} CountInAbsent(items: seq<ProjectItem>, cat: string)
    requires !HasCategory(items, cat)
    ensures CountIn(items, cat) == 0
  {
    if items != [] {
      var init := items[..|items| - 1];
      assert !HasCategory(init, cat) by {
        forall k | 0 <= k < |init| ensures init[k].category != cat {
          assert init[k] == items[k];
        }
      }
      CountInAbsent(init, cat);
    }
  }

  /** The counting loop: `categoryMap[cat]++` for every item. */
  method CountCategories(items: seq<ProjectItem>) returns (counts: map<string, int>)
    ensures CountsOf(counts, items)
  {
    counts := map[];
    for i := 0 to |items|
      invariant CountsOf(counts, items[..i])
    {
      CountsOfStep(counts, items, i);
      var cat := items[i].category;
      var n := if cat in counts then counts[cat] else 0;
      counts := counts[cat := n + 1];
    }
    assert items[..|items|] == items;
  }

  /** No two category items share a name. */
  predicate DistinctCategories(cs: seq<CategoryItem>) {
    forall i, j :: 0 <= i < j < |cs| ==> cs[i].name != cs[j].name
  }

  /** Some category item is called `name`. */
  predicate Lists(cs: seq<CategoryItem>, name: string) {
    exists i :: 0 <= i < |cs| && cs[i].name == name
  }

  /** `cs` lists the entries of `counts`, each once. */
  ghost predicate ItemsOfCounts(cs: seq<CategoryItem>, counts: map<string, int>) {
    && (forall i :: 0 <= i < |cs| ==> cs[i].name in counts && cs[i].count == counts[cs[i].name])
    && DistinctCategories(cs)
    && (forall c :: c in counts ==> Lists(cs, c))
  }

  /** The state of the map-to-slice loop over the category counts. */
  ghost predicate Listing(cs: seq<CategoryItem>, rest: map<string, int>, counts: map<string, int>) {
    && rest.Keys <= counts.Keys
    && (forall c :: c in rest ==> rest[c] == counts[c])
    && (forall i :: 0 <= i < |cs| ==> cs[i].name in counts && cs[i].count == counts[cs[i].name] && cs[i].name !in rest)
    && DistinctCategories(cs)
    && (forall c :: c in counts ==> c in rest || Lists(cs, c))
  }

  lemma ListingStep(cs: seq<CategoryItem>, rest: map<string, int>, counts: map<string, int>, name: string)
    requires Listing(cs, rest, counts) && name in rest
    ensures Listing(cs + [CategoryItem(name, rest[name])], rest - {name}, counts)
  {
    var c := CategoryItem(name, rest[name]);
    var cs' := cs + [c];
    forall i | 0 <= i < |cs'|
      ensures cs'[i].name in counts && cs'[i].count == counts[cs'[i].name] && cs'[i].name !in rest - {name}
    {
      if i < |cs| { assert cs'[i] == cs[i]; }
    }
    DistinctCategoriesStep(cs, c);
    ListsStep(cs, rest, counts, name);
  }

  lemma DistinctCategoriesStep(cs: seq<CategoryItem>, c: CategoryItem)
    requires DistinctCategories(cs) && forall i :: 0 <= i < |cs| ==> cs[i].name != c.name
    ensures DistinctCategories(cs + [c])
  {
    var cs' := cs + [c];
    forall i, j | 0 <= i < j < |cs'| ensures cs'[i].name != cs'[j].name {
      assert cs'[i] == cs[i];
    }
  }

  lemma ListsStep(cs: seq<CategoryItem>, rest: map<string, int>, counts: map<string, int>, name: string)
    requires name in rest
    requires forall c :: c in counts ==> c in rest || Lists(cs, c)
    ensures forall c :: c in counts ==> c in rest - {name} || Lists(cs + [CategoryItem(name, rest[name])], c)
  {
    var cs' := cs + [CategoryItem(name, rest[name])];
    forall c | c in counts ensures c in rest - {name} || Lists(cs', c) {
      if c == name {
        assert cs'[|cs|].name == c;
      } else if c !in rest {
        var i :| 0 <= i < |cs| && cs[i].name == c;
        assert cs'[i].name == c;
      }
    }
  }

  /** The loop that turns the category counts into items, in the map's
      iteration order. */
  method CategoryItemsFrom(counts: map<string, int>) returns (cs: seq<CategoryItem>)
    ensures ItemsOfCounts(cs, counts)
  {
    cs := [];
    var rest := counts;
    while rest != map[]
      invariant Listing(cs, rest, counts)
      decreases |rest|
    {
      var name :| name in rest;
      ListingStep(cs, rest, counts, name);
      cs := cs + [CategoryItem(name, rest[name])];
      rest := rest - {name};
    }
  }

  /** One category item per category of `items`, counting its items. */
  ghost predicate CategoryTable(cs: seq<CategoryItem>, items: seq<ProjectItem>) {
    && (forall i :: 0 <= i < |cs| ==> HasCategory(items, cs[i].name) && cs[i].count == CountIn(items, cs[i].name))
    && DistinctCategories(cs)
    && (forall i :: 0 <= i < |items| ==> Lists(cs, items[i].category))
  }

  /** Each category item occurs once in a list of distinct categories. */
  lemma {:induction false} CategoryOnce(a: seq<CategoryItem>)
    requires DistinctCategories(a)
    ensures forall x :: multiset(a)[x] <= 1
  {
    if a != [] {
      var init, last := a[..|a| - 1], a[|a| - 1];
      CategoryOnce(init);
      assert a == init + [last];
      assert last !in init by {
        forall k | 0 <= k < |init| ensures init[k] != last {
          assert init[k] == a[k];
        }
      }
    }
  }

  /** A permutation of distinct categories is distinct. */
  lemma DistinctCategoriesPermuted(a: seq<CategoryItem>, b: seq<CategoryItem>)
    requires multiset(a) == multiset(b) && DistinctCategories(a)
    ensures DistinctCategories(b)
  {
    CategoryOnce(a);
    forall i, j | 0 <= i < j < |b| ensures b[i].name != b[j].name {
      assert b == b[..j] + b[j..];
      assert multiset(b)[b[j]] == multiset(b[..j])[b[j]] + multiset(b[j..])[b[j]];
      assert b[..j][i] == b[i] && b[j..][0] == b[j];
      assert b[i] in multiset(a) && b[j] in multiset(a);
      var p :| 0 <= p < |a| && a[p] == b[i];
      var q :| 0 <= q < |a| && a[q] == b[j];
      assert p != q;
    }
  }

  /** Counted categories, reordered, still form the category table. */
  lemma TableOfCounts(cs: seq<CategoryItem>, sorted: seq<CategoryItem>, counts: map<string, int>, items: seq<ProjectItem>)
    requires CountsOf(counts, items) && ItemsOfCounts(cs, counts) && multiset(sorted) == multiset(cs)
    ensures CategoryTable(sorted, items)
  {
    DistinctCategoriesPermuted(cs, sorted);
    forall i | 0 <= i < |sorted| ensures HasCategory(items, sorted[i].name) && sorted[i].count == CountIn(items, sorted[i].name) {
      assert sorted[i] in multiset(cs);
    }
    forall i | 0 <= i < |items| ensures Lists(sorted, items[i].category) {
      var c := items[i].category;
      assert HasCategory(items, c);
      var p :| 0 <= p < |cs| && cs[p].name == c;
      assert cs[p] in multiset(sorted);
    }
  }

  /** The category items of InitialModel: counted, listed and sorted by
      name. */
  method BuildCategoryItems(items: seq<ProjectItem>) returns (cs: seq<CategoryItem>)
    ensures CategoryTable(cs, items)
    ensures Order.Sorted(cs, ByCategoryName())
  {
    var counts := CountCategories(items);
    var listed := CategoryItemsFrom(counts);
    Order.ByKeyIsTotalPreorder((c: CategoryItem) => c.name, Order.Ascending);
    cs := Order.SortBy(listed, ByCategoryName());
    TableOfCounts(listed, cs, counts, items);
  }

  /** The sum of the counts of category items. */
  function SumCounts(cs: seq<CategoryItem>): int {
    if cs == [] then 0 else SumCounts(cs[..|cs| - 1]) + cs[|cs| - 1].count
  }

  /** The names of category items. */
  function Names(cs: seq<CategoryItem>): seq<string> {
    seq(|cs|, i requires 0 <= i < |cs| => cs[i].name)
  }

  /** The items counted over the categories `names`. */
  function Tally(items: seq<ProjectItem>, names: seq<string>): nat {
    if names == [] then 0 else Tally(items, names[..|names| - 1]) + CountIn(items, names[|names| - 1])
  }

  /** How often `name` occurs in `names`. */
  function Hits(names: seq<string>, name: string): nat {
    if names == [] then 0 else Hits(names[..|names| - 1], name) + (if names[|names| - 1] == name then 1 else 0)
  }

  lemma {:induction false} SumIsTally(cs: seq<CategoryItem>, items: seq<ProjectItem>)
    requires forall i :: 0 <= i < |cs| ==> cs[i].count == CountIn(items, cs[i].name)
    ensures SumCounts(cs) == Tally(items, Names(cs))
  {
    if cs != [] {
      var init := cs[..|cs| - 1];
      assert Names(cs)[..|cs| - 1] == Names(init);
      SumIsTally(init, items);
    }
  }

  lemma {:induction false} TallyOfEmpty(names: seq<string>)
    ensures Tally([], names) == 0
  {
    if names != [] { TallyOfEmpty(names[..|names| - 1]); }
  }

  /** Adding an item adds to the tally once per occurrence of its category. */
  lemma {:induction false} TallyAppend(items: seq<ProjectItem>, x: ProjectItem, names: seq<string>)
    ensures Tally(items + [x], names) == Tally(items, names) + Hits(names, x.category)
  {
    if names != [] {
      TallyAppend(items, x, names[..|names| - 1]);
      assert (items + [x])[..|items|] == items;
    }
  }

  lemma {:induction false} HitsAbsent(names: seq<string>, name: string)
    requires name !in names
    ensures Hits(names, name) == 0
  {
    if names != [] {
      var init := names[..|names| - 1];
      assert forall k :: 0 <= k < |init| ==> init[k] == names[k];
      HitsAbsent(init, name);
    }
  }

  /** A name of a list of distinct names occurs once. */
  lemma {:induction false} HitsOnce(names: seq<string>, name: string)
    requires forall i, j :: 0 <= i < j < |names| ==> names[i] != names[j]
    requires name in names
    ensures Hits(names, name) == 1
  {
    var init, last := names[..|names| - 1], names[|names| - 1];
    assert names == init + [last];
    assert forall k :: 0 <= k < |init| ==> init[k] == names[k];
    if last == name {
      assert name !in init by {
        forall k | 0 <= k < |init| ensures init[k] != name { }
      }
      HitsAbsent(init, name);
    } else {
      HitsOnce(init, name);
    }
  }

  /** Tallying over distinct names that cover every item's category counts
      every item once. */
  lemma {:induction false} TallyCoversAll(items: seq<ProjectItem>, names: seq<string>)
    requires forall i, j :: 0 <= i < j < |names| ==> names[i] != names[j]
    requires forall i :: 0 <= i < |items| ==> items[i].category in names
    ensures Tally(items, names) == |items|
  {
    if items == [] {
      TallyOfEmpty(names);
    } else {
      var init, last := items[..|items| - 1], items[|items| - 1];
      assert items == init + [last];
      TallyCoversAll(init, names);
      TallyAppend(init, last, names);
      HitsOnce(names, last.category);
    }
  }

  /** The counts of the category items add up to the number of projects. */
  lemma CategoryCountsSum(cs: seq<CategoryItem>, items: seq<ProjectItem>)
    requires CategoryTable(cs, items)
    ensures SumCounts(cs) == |items|
  {
    SumIsTally(cs, items);
    var names := Names(cs);
    forall i | 0 <= i < |items| ensures items[i].category in names {
      var k :| 0 <= k < |cs| && cs[k].name == items[i].category;
      assert names[k] == items[i].category;
    }
    TallyCoversAll(items, names);
  }

  /** The list widget: its items, the cursor, whether the user is typing a
      filter, and its title. */
  datatype ListWidget = ListWidget(items: seq<Item>, index: int, filtering: bool, title: string)

  /** The cursor is on an item, or at 0 in an empty list. */
  predicate CursorValid(w: ListWidget) {
    if w.items == [] then w.index == 0 else 0 <= w.index < |w.items|
  }

  /** SetItems: new items, the cursor kept where it fits. */
  function SetItems(w: ListWidget, items: seq<Item>): (r: ListWidget)
    ensures r.items == items && r.filtering == w.filtering && r.title == w.title
    ensures CursorValid(r)
    ensures 0 <= w.index < |items| ==> r.index == w.index
  {
    var index := if w.index >= |items| then |items| - 1 else w.index;
    ListWidget(items, if index < 0 then 0 else index, w.filtering, w.title)
  }

  /** The widget entries for project items. */
  function ProjectEntries(ps: seq<ProjectItem>): seq<Item> {
    seq(|ps|, i requires 0 <= i < |ps| => ProjectEntry(ps[i]))
  }

  /** The widget entries for category items. */
  function CategoryEntries(cs: seq<CategoryItem>): seq<Item> {
    seq(|cs|, i requires 0 <= i < |cs| => CategoryEntry(cs[i]))
  }

  datatype ViewMode = ProjectsView | CategoriesView

  /** ListModel: the whole state of the interactive list. The form inputs
      are their texts. */
  datatype Model = Model(
    list: ListWidget,
    selectedItem: Option<ProjectItem>,
    showActions: bool,
    showForm: bool,
    formInputs: seq<string>,
    formFocused: int,
    quitting: bool,
    fileChart: seq<FileScan.FileEntry>,
    fileTypeCounts: seq<FileScan.FileTypeCount>,
    gitInfo: Git.GitInfo,
    quitCommand: string,
    viewMode: ViewMode,
    selectedCategory: string,
    categoryItems: seq<CategoryItem>,
    projectItems: seq<ProjectItem>,
    sortOrder: Order.Direction,
    healthScanned: bool,
    healthStatus: Health.HealthStatus,
    scrollOffset: int,
    windowWidth: int,
    windowHeight: int)

  /** The Go zero value of a health status. */
  const NoHealth := Health.HealthStatus(
    Health.DependencyStatus(false, "", 0, 0, 0), Health.GitMetrics(0, 0, 0), Health.CIStatus(false, "", ""))

  /** The number of form inputs: name, path and category. */
  const FormSize := 3

  /** What every reachable state keeps: three form inputs with the focus on
      one of them, a scroll offset that is not negative, a cursor on an
      item, project items sorted by the current order, and a quit command
      that is empty or a `cd`. */
  ghost predicate Valid(m: Model) {
    && |m.formInputs| == FormSize && 0 <= m.formFocused < FormSize
    && m.scrollOffset >= 0
    && CursorValid(m.list)
    && Order.Sorted(m.projectItems, ByName(m.sortOrder))
    && (m.quitCommand == "" || HasPrefix(m.quitCommand, "cd "))
  }

  /** A state that keeps the form inputs, the order and the items of a
      valid state, with a sound focus, cursor, scroll offset and command,
      is valid. */
  lemma KeepsValid(m: Model, r: Model)
    requires Valid(m)
    requires r.formInputs == m.formInputs && 0 <= r.formFocused < FormSize
    requires r.projectItems == m.projectItems && r.sortOrder == m.sortOrder
    requires r.quitCommand == "" || HasPrefix(r.quitCommand, "cd ")
    requires r.scrollOffset >= 0 && CursorValid(r.list)
    ensures Valid(r)
  {
  }

  /** The state InitialModel builds from the configuration file: the
      registry's projects as items sorted by name, one item per category
      with its count sorted by name, the projects shown at the top in
      ascending order, neither form nor actions open, nothing scanned, and
      a window whose size is not known yet. */
  ghost predicate Initial(m: Model, file: Option<seq<Config.Project>>) {
    var items := ItemsOf(Config.Loaded(file));
    && multiset(m.projectItems) == multiset(items)
    && m.sortOrder == Order.Ascending
    && CategoryTable(m.categoryItems, items)
    && Order.Sorted(m.categoryItems, ByCategoryName())
    && m.list == ListWidget(ProjectEntries(m.projectItems), 0, false, "My Project Manager (MPM) - Projects")
    && m.viewMode.ProjectsView? && !m.showActions && !m.showForm && !m.quitting
    && m.formFocused == 0 && m.formInputs == ["", "", ""] && m.scrollOffset == 0
    && m.selectedItem == None && m.selectedCategory == "" && m.quitCommand == ""
    && !m.healthScanned && m.healthStatus == NoHealth
    && m.fileChart == [] && m.fileTypeCounts == [] && m.gitInfo == Git.GitInfo(false, [])
    && m.windowWidth == 0 && m.windowHeight == 0
  }

  /** InitialModel */
  method InitialModel(store: Config.Store) returns (m: Model)
    ensures Valid(m) && Initial(m, store.file)
  {
    var ps := store.Load();
    var items := BuildProjectItems(ps);
    var sorted := SortProjects(items, Order.Ascending);
    var categories := BuildCategoryItems(items);
    var list := ListWidget(ProjectEntries(sorted), 0, false, "My Project Manager (MPM) - Projects");
    m := Model(
      list, None, false, false, ["", "", ""], 0, false, [], [], Git.GitInfo(false, []), "",
      ProjectsView, "", categories, sorted, Order.Ascending, false, NoHealth, 0, 0, 0);
  }

  const AscendingBadge := "[A→Z]"
  const DescendingBadge := "[Z→A]"

  /** The sort badge of the footer: none in the categories view, one for
      ascending and another for descending order. */
  function SortBadge(m: Model): (badge: Option<string>)
    ensures badge.None? <==> m.viewMode.CategoriesView?
    ensures badge == Some(AscendingBadge) <==> m.viewMode.ProjectsView? && m.sortOrder.Ascending?
    ensures badge == Some(DescendingBadge) <==> m.viewMode.ProjectsView? && m.sortOrder.Descending?
  {
    assert AscendingBadge[1] != DescendingBadge[1];
    if m.viewMode.CategoriesView? then None
    else if m.sortOrder.Ascending? then Some(AscendingBadge)
    else Some(DescendingBadge)
  }
}
