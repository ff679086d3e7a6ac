/** The key handling of the interactive list (pkg/ui/controller.go): the
    form, the action view and the list view as transitions of the UI state,
    the scroll window of the action view, and what RunInteractive hands back
    to the shell. */
module Controller {
  import opened Wrappers
  import opened Text
  import Order
  import Config
  import FileScan
  import Git
  import Health
  import opened Models

  /** A key as bubbletea names it: a typed character, one of the named
      keys the handlers look at, or any other key. */
  datatype Key = Rune(c: char) | Esc | Tab | ShiftTab | Enter | Up | Down | PgUp | PgDown | Home | End | CtrlC | OtherKey(name: string)

  /** A message of the event loop. */
  datatype Msg = KeyMsg(key: Key) | WindowSizeMsg(width: int, height: int) | OtherMsg

  /** The command a handler hands back: nothing, or tea.Quit. */
  datatype Cmd = NoCmd | QuitCmd

  /** What the list reads of a project directory: its tree, what the
      health scan sees, whether `.git` exists and what `git remote -v`
      printed. */
  datatype ProjectSite = ProjectSite(tree: FileScan.Node, dir: Health.ProjectDir, hasGitDir: bool, gitOutput: Option<string>)

  /** The world outside the state: the operating system's name, the
      directory at each path (`None` when os.Stat fails), the path
      operations of AddProject, and the widgets' own key handling (the
      text input's editing and the list's filtering and paging), which
      this model takes as given. */
  datatype Env = Env(
    goos: string,
    site: string -> Option<ProjectSite>,
    paths: Config.PathEnv,
    edit: (string, Key) -> string,
    listMsg: (ListWidget, Msg) -> ListWidget)

  /** The list widget keeps its cursor on an item. */
  ghost predicate WidgetSound(env: Env) {
    forall w: ListWidget, msg: Msg :: CursorValid(w) ==> CursorValid(env.listMsg(w, msg))
  }

  function Flip(d: Order.Direction): Order.Direction {
    match d
    case Ascending => Order.Descending
    case Descending => Order.Ascending
  }

  /** The projects of category `cat`, in order. */
  function InCategory(ps: seq<ProjectItem>, cat: string): seq<ProjectItem> {
    if ps == [] then []
    else InCategory(ps[..|ps| - 1], cat) + (if ps[|ps| - 1].category == cat then [ps[|ps| - 1]] else [])
  }

  /** InCategory keeps exactly the projects of the category, each as often
      as it occurs. */
  lemma {:induction false} InCategoryCounts(ps: seq<ProjectItem>, cat: string)
    ensures forall x :: multiset(InCategory(ps, cat))[x] == if x.category == cat then multiset(ps)[x] else 0
  {
    if ps != [] {
      var init := ps[..|ps| - 1];
      InCategoryCounts(init, cat);
      assert ps == init + [ps[|ps| - 1]];
    }
  }

  /** The filtering loop of the sort and select keys. */
  method FilterCategory(ps: seq<ProjectItem>, cat: string) returns (r: seq<ProjectItem>)
    ensures r == InCategory(ps, cat)
  {
    r := [];
    for i := 0 to |ps|
      invariant r == InCategory(ps[..i], cat)
    {
      assert ps[..i + 1][..i] == ps[..i];
      if ps[i].category == cat {
        r := r + [ps[i]];
      }
    }
    assert ps[..|ps|] == ps;
  }

  /** The reload after a change to the registry: the items of the file,
      sorted in the current order. */
  method ReloadItems(store: Config.Store, order: Order.Direction) returns (items: seq<ProjectItem>)
    ensures Order.Sorted(items, ByName(order))
    ensures multiset(items) == multiset(ItemsOf(Config.Loaded(store.file)))
  {
    var ps := store.Load();
    var built := BuildProjectItems(ps);
    items := SortProjects(built, order);
  }

  /** The form's focus after `tab`. */
  function NextField(focused: int): int {
    (focused + 1) % FormSize
  }

  /** The form's focus after `shift+tab`. */
  function PreviousField(focused: int): int {
    (focused - 1 + FormSize) % FormSize
  }

  /** Tab and shift+tab move the focus round the fields, one undoing the
      other. */
  lemma FieldCycle(focused: int)
    requires 0 <= focused < FormSize
    ensures 0 <= NextField(focused) < FormSize && 0 <= PreviousField(focused) < FormSize
    ensures PreviousField(NextField(focused)) == focused && NextField(PreviousField(focused)) == focused
    ensures focused < FormSize - 1 ==> NextField(focused) == focused + 1
    ensures NextField(FormSize - 1) == 0
  {
  }


  /** The form keys other than a submitting enter: `esc` closes the form,
      `tab` and `shift+tab` move the focus round the fields, enter moves
      it to the next field, and other keys edit the focused input. */
  predicate FormEdited(m: Model, key: Key, r: Model, env: Env)
    requires |m.formInputs| == FormSize && 0 <= m.formFocused < FormSize
  {
    && (key.Esc? ==> r == m.(showForm := false))
    && (key.Tab? ==> r == m.(formFocused := NextField(m.formFocused)))
    && (key.ShiftTab? ==> r == m.(formFocused := PreviousField(m.formFocused)))
    && (key.Enter? ==> r == m.(formFocused := m.formFocused + 1))
    && (!(key.Esc? || key.Tab? || key.ShiftTab? || key.Enter?) ==>
          r == m.(formInputs := m.formInputs[m.formFocused := env.edit(m.formInputs[m.formFocused], key)]))
  }

  method EditForm(m: Model, key: Key, env: Env) returns (r: Model)
    requires Valid(m) && !(key.Enter? && m.formFocused == FormSize - 1)
    ensures Valid(r) && FormEdited(m, key, r, env)
  {
    r := m;
    match key
    case Esc =>
      r := r.(showForm := false);
    case Tab =>
      r := r.(formFocused := (r.formFocused + 1) % |r.formInputs|);
    case ShiftTab =>
      r := r.(formFocused := (r.formFocused - 1 + |r.formInputs|) % |r.formInputs|);
    case Enter =>
      r := r.(formFocused := (r.formFocused + 1) % |r.formInputs|);
    case _ =>
      r := r.(formInputs := r.formInputs[r.formFocused := env.edit(r.formInputs[r.formFocused], key)]);
  }

  /** The project the form submits: its trimmed name and path, when both
      are filled in, and its trimmed category. */
  function Submission(inputs: seq<string>, paths: Config.PathEnv): (p: Option<Config.Project>)
    requires |inputs| == FormSize
    ensures p.Some? <==> TrimSpace(inputs[0]) != "" && TrimSpace(inputs[1]) != ""
    ensures p.Some? ==> p.value.name == TrimSpace(inputs[0]) && p.value.category == TrimSpace(inputs[2])
    ensures p.Some? ==> p.value.path == Config.StoredPath(paths, TrimSpace(inputs[1]))
  {
    var name, path := TrimSpace(inputs[0]), TrimSpace(inputs[1]);
    if name != "" && path != "" then Some(Config.Project(name, Config.StoredPath(paths, path), TrimSpace(inputs[2])))
    else None
  }

  /** Enter on the last field: a complete submission is stored, the items
      are reloaded in the current order, and the form is cleared and
      closed; an incomplete one changes nothing. */
  ghost predicate Submitted(m: Model, r: Model, before: Option<seq<Config.Project>>, after: Option<seq<Config.Project>>, env: Env)
    requires |m.formInputs| == FormSize
  {
    match Submission(m.formInputs, env.paths)
    case None => r == m && after == before
    case Some(p) =>
      && after == Some(Config.Upserted(Config.Loaded(before), p))
      && multiset(r.projectItems) == multiset(ItemsOf(Config.Loaded(after)))
      && r == m.(projectItems := r.projectItems, list := SetItems(m.list, ProjectEntries(r.projectItems)),
                 formInputs := ["", "", ""], formFocused := 0, showForm := false)
  }

  method SubmitForm(m: Model, store: Config.Store, env: Env) returns (r: Model)
    requires Valid(m)
    modifies store
    ensures Valid(r) && Submitted(m, r, old(store.file), store.file, env)
  {
    r := m;
    var name := TrimSpace(r.formInputs[0]);
    var path := TrimSpace(r.formInputs[1]);
    var category := TrimSpace(r.formInputs[2]);
    if name != "" && path != "" {
      var _ := store.AddProject(name, path, category, env.paths);
      var items := ReloadItems(store, r.sortOrder);
      r := r.(projectItems := items);
      r := r.(list := SetItems(r.list, ProjectEntries(items)));
      r := r.(formInputs := ["", "", ""], formFocused := 0);
      r := r.(showForm := false);
    }
  }

  /** handleFormView */
  method HandleFormView(m: Model, key: Key, store: Config.Store, env: Env) returns (r: Model, cmd: Cmd)
    requires Valid(m)
    modifies store
    ensures Valid(r) && cmd == NoCmd && r.quitting == m.quitting
    ensures key.Enter? && m.formFocused == FormSize - 1 ==> Submitted(m, r, old(store.file), store.file, env)
    ensures !(key.Enter? && m.formFocused == FormSize - 1) ==> FormEdited(m, key, r, env) && store.file == old(store.file)
  {
    cmd := NoCmd;
    if key.Enter? && m.formFocused == |m.formInputs| - 1 {
      r := SubmitForm(m, store, env);
    } else {
      r := EditForm(m, key, env);
    }
  }

  /** The lines pgup and pgdown scroll: half the window, or 10 while the
      window's height is unknown. */
  function PageSize(windowHeight: int): (n: int)
    ensures n >= 0
    ensures windowHeight > 0 ==> n <= windowHeight
  {
    if windowHeight > 0 then windowHeight / 2 else 10
  }

  /** The keys that go back from the action view: `esc` and `q`. */
  predicate BackKey(key: Key) {
    key.Esc? || key == Rune('q')
  }

  /** The scrolling keys of the action view. */
  predicate ScrollKey(key: Key) {
    key.Up? || key.Down? || key.PgUp? || key.PgDown? || key.Home? || key.End?
  }

  /** The scroll offset after a scrolling key: up and pgup stop at the top,
      home goes there, down and pgdown move on unbounded, end jumps to a
      large offset that the view clamps. */
  function Scrolled(offset: int, key: Key, windowHeight: int): int
    requires ScrollKey(key)
  {
    match key
    case Up => if offset > 0 then offset - 1 else offset
    case Down => offset + 1
    case PgUp => if offset >= PageSize(windowHeight) then offset - PageSize(windowHeight) else 0
    case PgDown => offset + PageSize(windowHeight)
    case Home => 0
    case End => 9999
  }

  /** No scrolling key takes the offset above the top. */
  lemma ScrolledNotNegative(offset: int, key: Key, windowHeight: int)
    requires offset >= 0 && ScrollKey(key)
    ensures Scrolled(offset, key, windowHeight) >= 0
    ensures key.Up? || key.PgUp? ==> Scrolled(offset, key, windowHeight) <= offset
    ensures key.Down? || key.PgDown? || (key.End? && offset <= 9999) ==> Scrolled(offset, key, windowHeight) >= offset
  {
  }

  /** The scroll offset after a scrolling key, as the action view's
      switch computes it. */
  method ScrollOffset(offset: int, key: Key, windowHeight: int) returns (r: int)
    requires offset >= 0 && ScrollKey(key)
    ensures r == Scrolled(offset, key, windowHeight) && r >= 0
  {
    ScrolledNotNegative(offset, key, windowHeight);
    r := offset;
    if key.Up? {
      if r > 0 {
        r := r - 1;
      }
    } else if key.Down? {
      r := r + 1;
    } else if key.PgUp? || key.PgDown? {
      var pageSize := 10;
      if windowHeight > 0 {
        pageSize := windowHeight / 2;
      }
      if key.PgDown? {
        r := r + pageSize;
      } else if r >= pageSize {
        r := r - pageSize;
      } else {
        r := 0;
      }
    } else if key.Home? {
      r := 0;
    } else {
      r := 9999;
    }
  }

  /** Back and the scrolling keys. */
  method ScrollActions(m: Model, key: Key) returns (r: Model)
    requires Valid(m) && (BackKey(key) || ScrollKey(key))
    ensures Valid(r) && r.quitting == m.quitting
    ensures BackKey(key) ==> r == m.(showActions := false, healthScanned := false, scrollOffset := 0)
    ensures ScrollKey(key) ==> r == m.(scrollOffset := Scrolled(m.scrollOffset, key, m.windowHeight))
  {
    if BackKey(key) {
      r := m.(showActions := false, healthScanned := false, scrollOffset := 0);
    } else {
      var offset := ScrollOffset(m.scrollOffset, key, m.windowHeight);
      r := m.(scrollOffset := offset);
    }
  }

  /** The go-to keys: `g` and enter. */
  predicate GoToKey(key: Key) {
    key == Rune('g') || key.Enter?
  }

  /** Keys of the action view that open the project in another program and
      quit: VS Code, Zed, Cursor, the file manager, Sublime Text, Trae and
      TextMate. */
  predicate LaunchKey(key: Key) {
    key.Rune? && key.c in {'v', 'z', 'c', 'f', 's', 't', 'm'}
  }

  /** The command that changes to a project's directory. */
  function CdCommand(path: string): (c: string)
    ensures HasPrefix(c, "cd ")
  {
    "cd " + path
  }

  /** The keys that leave the program from the action view: go-to leaves a
      `cd` command for the shell except on macOS and Linux (where the
      command goes to a file), Neovim leaves `cd` and `nvim`, the launch
      keys leave none. */
  predicate Left(m: Model, key: Key, r: Model, env: Env)
    requires m.selectedItem.Some?
  {
    var path := m.selectedItem.value.path;
    && (GoToKey(key) ==>
          r == m.(quitting := true, quitCommand := if env.goos == "darwin" || env.goos == "linux" then m.quitCommand else CdCommand(path)))
    && (key == Rune('n') ==> r == m.(quitting := true, quitCommand := CdCommand(path) + " && nvim ."))
    && (LaunchKey(key) ==> r == m.(quitting := true))
  }

  method LeaveActions(m: Model, key: Key, env: Env) returns (r: Model)
    requires Valid(m) && m.selectedItem.Some? && (GoToKey(key) || key == Rune('n') || LaunchKey(key))
    ensures Valid(r) && Left(m, key, r, env) && r.quitting
  {
    var path := m.selectedItem.value.path;
    var command := m.quitCommand;
    if GoToKey(key) {
      if !(env.goos == "darwin" || env.goos == "linux") {
        command := CdCommand(path);
      }
    } else if key == Rune('n') {
      command := CdCommand(path) + " && nvim .";
      assert command[..3] == CdCommand(path)[..3];
    }
    r := m.(quitting := true, quitCommand := command);
  }

  /** The registry after RemoveProject of `name`: the file loses the first
      project called `name`, and is left alone when there is none. */
  function AfterRemove(file: Option<seq<Config.Project>>, name: string): Option<seq<Config.Project>> {
    if Config.FirstIndex(Config.Loaded(file), name).Some? then Some(Config.RemovedFirst(Config.Loaded(file), name))
    else file
  }

  /** Deleting the shown project from the action view: the items are
      reloaded in the current order and the list is shown again; the
      category items are left as they were. */
  ghost predicate DeletedShown(m: Model, r: Model, after: Option<seq<Config.Project>>) {
    && multiset(r.projectItems) == multiset(ItemsOf(Config.Loaded(after)))
    && r == m.(projectItems := r.projectItems, list := SetItems(m.list, ProjectEntries(r.projectItems)), showActions := false)
  }

  method DeleteShown(m: Model, store: Config.Store) returns (r: Model)
    requires Valid(m) && m.selectedItem.Some?
    modifies store
    ensures Valid(r) && DeletedShown(m, r, store.file) && r.quitting == m.quitting
    ensures store.file == AfterRemove(old(store.file), m.selectedItem.value.name)
  {
    var _ := store.RemoveProject(m.selectedItem.value.name);
    var items := ReloadItems(store, m.sortOrder);
    r := m.(projectItems := items);
    r := r.(list := SetItems(r.list, ProjectEntries(items)));
    r := r.(showActions := false);
  }

  /** One key of the action view, as the source's switch takes it: back
      and the scrolling keys move within the view; with a project shown,
      the go-to, Neovim and launch keys quit and `d` deletes it; every
      other key leaves the state as it was. */
  ghost predicate ActionStep(m: Model, key: Key, r: Model, cmd: Cmd, env: Env,
                             before: Option<seq<Config.Project>>, after: Option<seq<Config.Project>>)
  {
    var onProject := !BackKey(key) && !ScrollKey(key) && m.selectedItem.Some?;
    var leaving := GoToKey(key) || key == Rune('n') || LaunchKey(key);
    && (cmd == QuitCmd <==> onProject && leaving)
    && (BackKey(key) ==> r == m.(showActions := false, healthScanned := false, scrollOffset := 0))
    && (ScrollKey(key) ==> r == m.(scrollOffset := Scrolled(m.scrollOffset, key, m.windowHeight)))
    && (onProject ==> Left(m, key, r, env))
    && (onProject && key == Rune('d') ==> DeletedShown(m, r, after) && after == AfterRemove(before, m.selectedItem.value.name))
    && (!BackKey(key) && !ScrollKey(key) && !(onProject && (leaving || key == Rune('d'))) ==> r == m)
    && (!(onProject && key == Rune('d')) ==> after == before)
  }

  /** handleActionsView */
  method HandleActionsView(m: Model, key: Key, store: Config.Store, env: Env) returns (r: Model, cmd: Cmd)
    requires Valid(m)
    modifies store
    ensures Valid(r)
    ensures r.quitting == (m.quitting || cmd == QuitCmd)
    ensures ActionStep(m, key, r, cmd, env, old(store.file), store.file)
  {
    r, cmd := m, NoCmd;
    if BackKey(key) || ScrollKey(key) {
      r := ScrollActions(m, key);
    } else if m.selectedItem.Some? {
      if GoToKey(key) || key == Rune('n') || LaunchKey(key) {
        r := LeaveActions(m, key, env);
        cmd := QuitCmd;
      } else if key == Rune('d') {
        r := DeleteShown(m, store);
      }
    }
  }

  /** Sort key in the projects view: the order flips, the project items are
      sorted again, and the list shows them, or only the selected
      category's. */
  ghost predicate Resorted(m: Model, r: Model) {
    && multiset(r.projectItems) == multiset(m.projectItems)
    && r == m.(sortOrder := Flip(m.sortOrder), projectItems := r.projectItems,
               list := SetItems(m.list, ProjectEntries(
                 if m.selectedCategory != "" then InCategory(r.projectItems, m.selectedCategory) else r.projectItems)))
  }

  method SortKey(m: Model) returns (r: Model)
    requires Valid(m)
    ensures Valid(r) && Resorted(m, r) && r.quitting == m.quitting
  {
    var d := Flip(m.sortOrder);
    var items := SortProjects(m.projectItems, d);
    var shown := items;
    if m.selectedCategory != "" {
      shown := FilterCategory(items, m.selectedCategory);
    }
    r := m.(sortOrder := d, projectItems := items);
    r := r.(list := SetItems(r.list, ProjectEntries(shown)));
  }

  /** The list shows, in order `d`, exactly the projects of `ps` in
      category `cat`. */
  ghost predicate ShowsCategory(w: ListWidget, ps: seq<ProjectItem>, cat: string, d: Order.Direction) {
    exists shown :: w.items == ProjectEntries(shown)
                    && Order.Sorted(shown, ByName(d)) && multiset(shown) == multiset(InCategory(ps, cat))
  }

  /** Selecting category `c`: the projects view shows its projects. */
  ghost predicate CategoryOpened(m: Model, r: Model, c: CategoryItem) {
    && ShowsCategory(r.list, m.projectItems, c.name, m.sortOrder)
    && r.list.title == "(MPM) - " + c.name
    && r == m.(selectedCategory := c.name, viewMode := ProjectsView, list := r.list)
    && CursorValid(r.list) && r.list.filtering == m.list.filtering
  }

  method OpenCategory(m: Model, c: CategoryItem) returns (r: Model)
    requires Valid(m)
    ensures Valid(r) && CategoryOpened(m, r, c) && r.quitting == m.quitting
  {
    r := m.(selectedCategory := c.name);
    var filtered := FilterCategory(r.projectItems, c.name);
    var shown := SortProjects(filtered, r.sortOrder);
    r := r.(viewMode := ProjectsView);
    r := r.(list := SetItems(r.list, ProjectEntries(shown)).(title := "(MPM) - " + c.name));
    assert r.list.items == ProjectEntries(shown);
  }

  /** Selecting project `p`: the action view opens on it and, when its
      directory exists, the file chart, the file type ranking, the Git
      status and (once) the health status are taken from it. */
  ghost predicate ProjectOpened(m: Model, r: Model, p: ProjectItem, env: Env) {
    && r.selectedItem == Some(p) && r.showActions && r.scrollOffset == 0
    && (env.site(p.path).None? ==> r == m.(selectedItem := Some(p), showActions := true, scrollOffset := 0))
    && (env.site(p.path).Some? ==>
          var s := env.site(p.path).value;
          && r.fileChart == FileScan.Scan(FileScan.Excluded, p.path, s.tree, 3, 0, "")
          && FileScan.Ranking(r.fileTypeCounts, FileScan.Tally(r.fileChart), FileScan.ExtColors, 10)
          && Git.GitStatusOf(s.hasGitDir, s.gitOutput, r.gitInfo)
          && r.healthScanned
          && (m.healthScanned ==> r.healthStatus == m.healthStatus)
          && (!m.healthScanned ==> Health.HealthOf(s.dir, s.hasGitDir, s.gitOutput, r.healthStatus))
          && r == m.(selectedItem := Some(p), showActions := true, scrollOffset := 0,
                     fileChart := r.fileChart, fileTypeCounts := r.fileTypeCounts, gitInfo := r.gitInfo,
                     healthScanned := true, healthStatus := r.healthStatus))
  }

  method OpenProject(m: Model, p: ProjectItem, env: Env) returns (r: Model)
    requires Valid(m)
    ensures Valid(r) && ProjectOpened(m, r, p, env) && r.quitting == m.quitting
  {
    var site := env.site(p.path);
    if site.None? {
      r := m.(selectedItem := Some(p), showActions := true, scrollOffset := 0);
      return;
    }
    var chart := FileScan.ScanDirectory(p.path, site.value.tree, 3, 0, "");
    var counts := FileScan.CountFileTypes(chart);
    var gitInfo := Git.CheckGitStatus(site.value.hasGitDir, site.value.gitOutput);
    var health := m.healthStatus;
    if !m.healthScanned {
      health := Health.ScanProjectHealth(site.value.dir, site.value.hasGitDir, site.value.gitOutput);
    }
    r := m.(selectedItem := Some(p), showActions := true, scrollOffset := 0,
            fileChart := chart, fileTypeCounts := counts, gitInfo := gitInfo,
            healthScanned := true, healthStatus := health);
  }

  /** Deleting the selected project from the list: the registry loses it,
      and both the project and the category items are rebuilt from the
      file. */
  ghost predicate ListReloaded(m: Model, r: Model, file: Option<seq<Config.Project>>) {
    && multiset(r.projectItems) == multiset(ItemsOf(Config.Loaded(file)))
    && CategoryTable(r.categoryItems, ItemsOf(Config.Loaded(file)))
    && Order.Sorted(r.categoryItems, ByCategoryName())
    && r == m.(projectItems := r.projectItems, categoryItems := r.categoryItems,
               list := SetItems(m.list, ProjectEntries(r.projectItems)))
  }

  method DeleteFromList(m: Model, p: ProjectItem, store: Config.Store) returns (r: Model)
    requires Valid(m)
    modifies store
    ensures Valid(r) && ListReloaded(m, r, store.file) && r.quitting == m.quitting
    ensures store.file == AfterRemove(old(store.file), p.name)
  {
    var _ := store.RemoveProject(p.name);
    var ps := store.Load();
    var built := BuildProjectItems(ps);
    var items := SortProjects(built, m.sortOrder);
    var categories := BuildCategoryItems(built);
    r := m.(projectItems := items, categoryItems := categories);
    r := r.(list := SetItems(r.list, ProjectEntries(items)));
  }

  /** The quit keys of the list: `q` and `ctrl+c`. */
  predicate QuitKey(key: Key) {
    key == Rune('q') || key.CtrlC?
  }

  /** The cursor keys of the list: `up` or `k`, `down` or `j`. */
  predicate UpKey(key: Key) {
    key.Up? || key == Rune('k')
  }

  predicate DownKey(key: Key) {
    key.Down? || key == Rune('j')
  }

  /** The cursor keys move the cursor by one within the items. */
  predicate CursorMoved(m: Model, key: Key, r: Model) {
    && (UpKey(key) ==> r == m.(list := m.list.(index := if m.list.index > 0 then m.list.index - 1 else m.list.index)))
    && (DownKey(key) ==>
          r == m.(list := m.list.(index := if m.list.index < |m.list.items| - 1 then m.list.index + 1 else m.list.index)))
  }

  method MoveCursor(m: Model, key: Key) returns (r: Model)
    requires Valid(m) && (UpKey(key) || DownKey(key))
    ensures Valid(r) && CursorMoved(m, key, r) && r.quitting == m.quitting
  {
    r := m;
    if UpKey(key) {
      if m.list.index > 0 {
        r := m.(list := m.list.(index := m.list.index - 1));
      }
    } else if m.list.index < |m.list.items| - 1 {
      r := m.(list := m.list.(index := m.list.index + 1));
    }
  }

  /** `tab` toggles between the projects and the categories: the
      categories view shows every category and clears the selected one,
      the projects view shows every project. */
  predicate Toggled(m: Model, r: Model) {
    && (m.viewMode.ProjectsView? ==>
          r == m.(viewMode := CategoriesView, selectedCategory := "",
                  list := SetItems(m.list, CategoryEntries(m.categoryItems)).(title := "(MPM) - Categories")))
    && (m.viewMode.CategoriesView? ==>
          r == m.(viewMode := ProjectsView, list := SetItems(m.list, ProjectEntries(m.projectItems)).(title := "(MPM) - Projects")))
  }

  method ToggleView(m: Model) returns (r: Model)
    requires Valid(m)
    ensures Valid(r) && Toggled(m, r) && r.quitting == m.quitting
  {
    if m.viewMode.ProjectsView? {
      var list := SetItems(m.list, CategoryEntries(m.categoryItems));
      r := m.(viewMode := CategoriesView, selectedCategory := "", list := list.(title := "(MPM) - Categories"));
    } else {
      var list := SetItems(m.list, ProjectEntries(m.projectItems));
      r := m.(viewMode := ProjectsView, list := list.(title := "(MPM) - Projects"));
    }
  }

  /** `a` opens the form, in the projects view only. */
  function AddKey(m: Model): (r: Model)
    requires Valid(m)
    ensures Valid(r) && r.quitting == m.quitting
    ensures r.showForm <==> m.showForm || m.viewMode.ProjectsView?
    ensures m.viewMode.ProjectsView? ==> r.formFocused == 0
    ensures r == m.(showForm := r.showForm, formFocused := r.formFocused)
  {
    if m.viewMode.ProjectsView? then m.(showForm := true, formFocused := 0) else m
  }

  /** Enter on the list: the selected category opens in the categories
      view, the selected project in the projects view. */
  ghost predicate Selected(m: Model, r: Model, env: Env)
    requires CursorValid(m.list)
  {
    if m.list.items == [] then r == m
    else match m.list.items[m.list.index]
      case CategoryEntry(c) => if m.viewMode.CategoriesView? then CategoryOpened(m, r, c) else r == m
      case ProjectEntry(p) => if m.viewMode.ProjectsView? then ProjectOpened(m, r, p, env) else r == m
  }

  method SelectEntry(m: Model, env: Env) returns (r: Model)
    requires Valid(m)
    ensures Valid(r) && Selected(m, r, env) && r.quitting == m.quitting
  {
    r := m;
    if |m.list.items| > 0 {
      var selected := m.list.items[m.list.index];
      if m.viewMode.CategoriesView? {
        if selected.CategoryEntry? {
          r := OpenCategory(m, selected.category);
        }
      } else if selected.ProjectEntry? {
        r := OpenProject(m, selected.project, env);
      }
    }
  }

  /** `d` on the list: in the projects view the selected project is
      removed from the registry and the items are rebuilt from it. */
  ghost predicate ListDeleted(m: Model, r: Model, before: Option<seq<Config.Project>>, after: Option<seq<Config.Project>>)
    requires CursorValid(m.list)
  {
    if m.viewMode.ProjectsView? && m.list.items != [] && m.list.items[m.list.index].ProjectEntry? then
      && ListReloaded(m, r, after)
      && after == AfterRemove(before, m.list.items[m.list.index].project.name)
    else r == m && after == before
  }

  method DeleteSelected(m: Model, store: Config.Store) returns (r: Model)
    requires Valid(m)
    modifies store
    ensures Valid(r) && ListDeleted(m, r, old(store.file), store.file) && r.quitting == m.quitting
  {
    r := m;
    if m.viewMode.ProjectsView? && |m.list.items| > 0 {
      var selected := m.list.items[m.list.index];
      if selected.ProjectEntry? {
        r := DeleteFromList(m, selected.project, store);
      }
    }
  }

  /** The keys the list view handles itself when it is not filtering. */
  predicate ListKey(key: Key) {
    QuitKey(key) || key == Rune('s') || UpKey(key) || DownKey(key) || key.Tab? || key.Enter? || key == Rune('a') || key == Rune('d')
  }

  /** The navigation keys: `tab` toggles the view, `a` opens the form,
      the cursor keys move the cursor. */
  predicate NavStep(m: Model, key: Key, r: Model)
    requires Valid(m)
  {
    if key.Tab? then Toggled(m, r)
    else if key == Rune('a') then r == AddKey(m)
    else CursorMoved(m, key, r)
  }

  method Navigate(m: Model, key: Key) returns (r: Model)
    requires Valid(m) && (key.Tab? || key == Rune('a') || UpKey(key) || DownKey(key))
    ensures Valid(r) && NavStep(m, key, r) && r.quitting == m.quitting
  {
    if key.Tab? {
      r := ToggleView(m);
    } else if key == Rune('a') {
      r := AddKey(m);
    } else {
      r := MoveCursor(m, key);
    }
  }

  /** The keys of the list that leave the registry alone: `s` sorts the
      projects view, enter opens the selected entry, the rest navigate. */
  ghost predicate ViewStep(m: Model, key: Key, r: Model, env: Env)
    requires Valid(m)
  {
    if key == Rune('s') then (if m.viewMode.ProjectsView? then Resorted(m, r) else r == m)
    else if key.Enter? then Selected(m, r, env)
    else NavStep(m, key, r)
  }

  method ViewKey(m: Model, key: Key, env: Env) returns (r: Model)
    requires Valid(m) && ListKey(key) && !QuitKey(key) && key != Rune('d')
    ensures Valid(r) && ViewStep(m, key, r, env) && r.quitting == m.quitting
  {
    r := m;
    if key == Rune('s') {
      if m.viewMode.ProjectsView? {
        r := SortKey(m);
      }
    } else if key.Enter? {
      r := SelectEntry(m, env);
    } else {
      r := Navigate(m, key);
    }
  }

  /** A message the list widget handles itself: filtering, paging, the
      filter prompt, a new window size. */
  method ToWidget(m: Model, msg: Msg, env: Env) returns (r: Model)
    requires Valid(m) && WidgetSound(env)
    ensures Valid(r) && r == m.(list := env.listMsg(m.list, msg))
  {
    var w := env.listMsg(m.list, msg);
    r := m.(list := w);
    KeepsValid(m, r);
  }

  /** One key of the list view, as the source's switch takes it: the quit
      keys quit even while filtering; a filtering list, or a key the view
      does not handle, goes to the list widget; `d` deletes; the other
      keys change only the view. */
  ghost predicate ListStep(m: Model, key: Key, r: Model, env: Env, before: Option<seq<Config.Project>>, after: Option<seq<Config.Project>>)
    requires Valid(m)
  {
    if QuitKey(key) then r == m.(quitting := true) && after == before
    else if m.list.filtering || !ListKey(key) then r == m.(list := env.listMsg(m.list, KeyMsg(key))) && after == before
    else if key == Rune('d') then ListDeleted(m, r, before, after)
    else ViewStep(m, key, r, env) && after == before
  }

  /** handleListView */
  method HandleListView(m: Model, key: Key, store: Config.Store, env: Env) returns (r: Model, cmd: Cmd)
    requires Valid(m) && WidgetSound(env)
    modifies store
    ensures Valid(r)
    ensures cmd == QuitCmd <==> QuitKey(key)
    ensures r.quitting == (m.quitting || cmd == QuitCmd)
    ensures ListStep(m, key, r, env, old(store.file), store.file)
  {
    r, cmd := m, NoCmd;
    if QuitKey(key) {
      r := r.(quitting := true);
      cmd := QuitCmd;
    } else if m.list.filtering || !ListKey(key) {
      r := ToWidget(m, KeyMsg(key), env);
    } else if key == Rune('d') {
      r := DeleteSelected(m, store);
    } else {
      r := ViewKey(m, key, env);
    }
  }

  /** One message of the event loop, as Update takes it: a key goes to
      the form, the action view or the list, whichever is showing; a new
      window size is recorded; and the list widget gets every message that
      is not a key. */
  ghost predicate Stepped(m: Model, msg: Msg, r: Model, cmd: Cmd, env: Env,
                          before: Option<seq<Config.Project>>, after: Option<seq<Config.Project>>)
    requires Valid(m)
  {
    match msg
    case KeyMsg(key) =>
      if m.showForm then
        && cmd == NoCmd
        && if key.Enter? && m.formFocused == FormSize - 1 then Submitted(m, r, before, after, env)
           else FormEdited(m, key, r, env) && after == before
      else if m.showActions then ActionStep(m, key, r, cmd, env, before, after)
      else ListStep(m, key, r, env, before, after) && (cmd == QuitCmd <==> QuitKey(key))
    case WindowSizeMsg(width, height) =>
      r == m.(windowWidth := width, windowHeight := height, list := env.listMsg(m.list, msg))
      && cmd == NoCmd && after == before
    case OtherMsg => r == m.(list := env.listMsg(m.list, msg)) && cmd == NoCmd && after == before
  }

  /** Update: the step above, keeping the state valid; a quitting command
      leaves the model quitting, and no other message starts quitting. */
  method Update(m: Model, msg: Msg, store: Config.Store, env: Env) returns (r: Model, cmd: Cmd)
    requires Valid(m) && WidgetSound(env)
    modifies store
    ensures Valid(r)
    ensures cmd == QuitCmd ==> r.quitting
    ensures !m.quitting && cmd == NoCmd ==> !r.quitting
    ensures Stepped(m, msg, r, cmd, env, old(store.file), store.file)
  {
    match msg
    case KeyMsg(key) =>
      if m.showForm {
        r, cmd := HandleFormView(m, key, store, env);
      } else if m.showActions {
        r, cmd := HandleActionsView(m, key, store, env);
      } else {
        r, cmd := HandleListView(m, key, store, env);
      }
    case WindowSizeMsg(width, height) =>
      r := ToWidget(m.(windowWidth := width, windowHeight := height), msg, env);
      cmd := NoCmd;
    case OtherMsg =>
      r := ToWidget(m, msg, env);
      cmd := NoCmd;
  }

  /** A run of the event loop over the first `handled` messages: `trace`
      holds the state before each message and after the last, `files` the
      configuration file at the same points, and each message takes one
      state to the next as Update does, handing back `cmds[i]`; every
      message before the last handed back no command. */
  ghost predicate Ran(msgs: seq<Msg>, handled: nat, trace: seq<Model>, cmds: seq<Cmd>,
                      files: seq<Option<seq<Config.Project>>>, env: Env)
  {
    && handled <= |msgs| && |trace| == handled + 1 && |cmds| == handled && |files| == handled + 1
    && (forall i :: 0 <= i <= handled ==> Valid(trace[i]))
    && (forall i :: 0 <= i < handled ==> Stepped(trace[i], msgs[i], trace[i + 1], cmds[i], env, files[i], files[i + 1]))
    && (forall i :: 0 <= i < handled - 1 ==> cmds[i] == NoCmd)
  }

  /** A run that handled no command yet extends by one more step. */
  lemma RanStep(msgs: seq<Msg>, handled: nat, trace: seq<Model>, cmds: seq<Cmd>,
                files: seq<Option<seq<Config.Project>>>, env: Env, r: Model, cmd: Cmd, file: Option<seq<Config.Project>>)
    requires Ran(msgs, handled, trace, cmds, files, env) && handled < |msgs|
    requires forall i :: 0 <= i < handled ==> cmds[i] == NoCmd
    requires Valid(r) && Stepped(trace[handled], msgs[handled], r, cmd, env, files[handled], file)
    ensures Ran(msgs, handled + 1, trace + [r], cmds + [cmd], files + [file], env)
  {
    var trace', cmds', files' := trace + [r], cmds + [cmd], files + [file];
    forall i | 0 <= i <= handled + 1 ensures Valid(trace'[i]) {
      if i <= handled { assert trace'[i] == trace[i]; }
    }
    forall i | 0 <= i < handled + 1 ensures Stepped(trace'[i], msgs[i], trace'[i + 1], cmds'[i], env, files'[i], files'[i + 1]) {
      assert trace'[i] == trace[i] && files'[i] == files[i];
      if i < handled { assert trace'[i + 1] == trace[i + 1] && cmds'[i] == cmds[i] && files'[i + 1] == files[i + 1]; }
    }
  }

  /** One turn of the event loop: Update takes the next message, and the
      run records the new state, command and file. */
  method Turn(m: Model, msgs: seq<Msg>, handled: nat, ghost trace: seq<Model>, ghost cmds: seq<Cmd>,
              ghost files: seq<Option<seq<Config.Project>>>, store: Config.Store, env: Env)
    returns (r: Model, cmd: Cmd)
    requires WidgetSound(env) && Ran(msgs, handled, trace, cmds, files, env) && handled < |msgs|
    requires forall i :: 0 <= i < handled ==> cmds[i] == NoCmd
    requires trace[handled] == m && files[handled] == store.file && !m.quitting
    modifies store
    ensures Valid(r) && Ran(msgs, handled + 1, trace + [r], cmds + [cmd], files + [store.file], env)
    ensures cmd == QuitCmd ==> r.quitting
    ensures cmd == NoCmd ==> !r.quitting
  {
    r, cmd := Update(m, msgs[handled], store, env);
    RanStep(msgs, handled, trace, cmds, files, env, r, cmd, store.file);
  }

  /** RunInteractive: the event loop runs from InitialModel over `msgs`
      and stops at the first message whose handler quits; `handled` is the
      number of messages it took. The final model's command is handed back
      to the shell when it is quitting, and nothing otherwise. */
  method RunInteractive(store: Config.Store, env: Env, msgs: seq<Msg>)
    returns (final: Model, handled: nat, command: string, ghost trace: seq<Model>, ghost cmds: seq<Cmd>,
             ghost files: seq<Option<seq<Config.Project>>>)
    requires WidgetSound(env)
    modifies store
    ensures Valid(final)
    ensures Ran(msgs, handled, trace, cmds, files, env)
    ensures Initial(trace[0], files[0]) && files[0] == old(store.file)
    ensures trace[handled] == final && files[handled] == store.file
    ensures handled < |msgs| ==> final.quitting && handled > 0 && cmds[handled - 1] == QuitCmd
    ensures !final.quitting ==> handled == |msgs|
    ensures command == if final.quitting then final.quitCommand else ""
    ensures command == "" || HasPrefix(command, "cd ")
  {
    final := InitialModel(store);
    ghost var first, firstFile := final, store.file;
    handled := 0;
    trace, cmds, files := [final], [], [store.file];
    while handled < |msgs|
      invariant Ran(msgs, handled, trace, cmds, files, env)
      invariant trace[0] == first && files[0] == firstFile
      invariant trace[handled] == final && files[handled] == store.file
      invariant Valid(final) && !final.quitting
      invariant forall i :: 0 <= i < handled ==> cmds[i] == NoCmd
    {
      var r, cmd := Turn(final, msgs, handled, trace, cmds, files, store, env);
      trace, cmds, files, final := trace + [r], cmds + [cmd], files + [store.file], r;
      handled := handled + 1;
      if cmd == QuitCmd {
        break;
      }
    }
    command := "";
    if final.quitting {
      command := final.quitCommand;
    }
  }
}
