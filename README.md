# My Project Manager (MPM), modelled in Dafny

MPM is a command-line bookmark manager for project directories. It keeps
a registry of named projects, each with a path and an optional category,
in one JSON configuration file. The `add`, `remove`, `list` and `go`
commands edit and query the registry. A shell wrapper runs the
`cd <path>` line that `go` prints. The `i` command opens an interactive
terminal list with these parts:

- a form for adding projects;
- a projects view and a categories view;
- a scrollable action view for the selected project, showing its file
  type chart, its Git remotes and a crude health dashboard.

The repository also keeps the older single-file version of the program,
`main.go`.

This project models the decision logic of MPM and proves what it
promises. It has one module per source component:

| module | file | models |
|---|---|---|
| `Config` | config.dfy | the registry (`pkg/config/config.go`). The configuration file is the `file` field of the `Store` class. `None` stands for an unreadable or unparsable file. |
| `Cli` | cli.dfy | the `add` flags, the category grouping of `list`, and the output of `go` (`cmd/cmd.go`) |
| `FileScan` | fs_scanner.dfy | the exclusion rule, the depth-bounded walk over a directory tree given as a datatype, and the extension ranking (`pkg/fs/scanner.go`) |
| `Git` | fs_git.dfy | the parsing of `git remote -v` output (`pkg/fs/git.go`) |
| `Health` | health_scanner.dfy | the dependency, Git-metric and CI heuristics over a project directory given by the paths present and the file contents (`pkg/health/scanner.go`) |
| `HealthView` | ui_health.dfy | the colour classifications of the health dashboard and its use of the cached status (`pkg/ui/health.go`) |
| `Models` | models.dfy | the UI state, its items, the category counting and the initial model (`pkg/ui/models.go`) |
| `Controller` | controller.dfy | the key handlers of the form, the action view and the list view as transitions of the UI state, and the event loop of `RunInteractive` (`pkg/ui/controller.go`) |
| `ScrollView` | scroll_view.dfy | the scroll window of the action view (`View` in `pkg/ui/controller.go`) |
| `Legacy` | legacy.dfy | the list model of `main.go`, with its three-mode `Update`, `initialModel`, `goToProject` and `interactiveMode` |
| `Text`, `Order`, `Wrappers` | text.dfy, order.dfy, wrappers.dfy | the Go string and path functions the code calls, string order with insertion sorts standing in for `sort.Slice`, and `Option` |

The registry functions of `main.go` (`addProject`, `removeProject`,
`listProjects`, `loadConfig`, `saveConfig`) are the same code as those
of `pkg/config/config.go` and `cmd/cmd.go`. The `Config.Store` and `Cli`
members model both copies.

Several kinds of effect are passed in as values:

- Go map iteration order becomes a nondeterministic choice (`:|`) in the
  loops that walk a map. Their contracts state set membership or
  permutation, never an order.
- `sort.Slice` is an insertion sort. Its contract is "sorted and a
  permutation", and stability is not claimed.
- The world outside the state is given as function values:
  - the home directory, `filepath.Join` and `filepath.Abs` (`Config.PathEnv`);
  - the text input's editing and the list widget's own message handling
    (`Env.edit`, `Env.listMsg`);
  - the project directory a path leads to (`Env.site`);
  - the operating system's name.

Some behaviours of the code are worth knowing when reading the model:

- The package manager and the CI system come from the first present file
  in Go's map iteration order (`pkg/health/scanner.go:73-78`, `229-281`).
  When several manifests or CI files are present, either may be chosen.
- The GitHub placeholder metrics depend on the first remote whose URL
  yields at least two parts after `github.com/`. When that remote's owner
  or name is empty, there are no placeholders, even if a later remote
  names a repository (`pkg/health/scanner.go:184-207`). SSH URLs
  (`git@github.com:owner/repo`) never yield a repository.
- `pgup` and `pgdown` move by half the window height, or by 10 while the
  height is unknown (`pkg/ui/controller.go:185-207`). The action view
  itself shows six lines fewer than the window height.
- The stored scroll offset is not clamped. `down`, `pgdown` and `end`
  (which sets 9999) raise it freely, and only the rendered window is
  clamped.
- The registry's names are unique only as long as every change goes
  through `AddProject`. For a file that already holds duplicates,
  `RemoveProject` removes only the first, and the next one becomes what
  `go` finds (`Config.RemoveKeepsLaterDuplicate`).
- The UI can crash: on a terminal one to five lines high the action view
  slices with an end before its start (see Findings).
- `go` in `cmd/cmd.go` reports a project stored with an empty path as
  not found. `goToProject` in `main.go` prints `cd ` for it.
- In `main.go` the go-to and Neovim keys send their `cd` line as a
  message after `tea.Quit`, and `interactiveMode` prints nothing.
  `Legacy.Cmd.QuitThen` records the line, but it never reaches the
  shell.

## Model

| member | source | states |
|---|---|---|
| Config.Loaded | pkg/config/config.go:53-67 | an unreadable or unparsable configuration file yields no projects; otherwise the file's projects |
| Config.FirstIndex | pkg/config/config.go:104-111 | the index found holds the first project with that exact name; none is found only when no project has it |
| Config.Upserted | pkg/config/config.go:103-116 | an existing name replaces its first entry in place, with the length and every other entry unchanged; a new name appends exactly one entry at the end, with earlier entries unchanged |
| Config.RemovedFirst | pkg/config/config.go:124-130 | only the first entry with the name is dropped and the rest keep their order; an absent name leaves the list unchanged |
| Config.PathOf | pkg/config/config.go:141-151 | the path of the first project with the name, or "" when there is none |
| Config.UpsertKeepsNamesUnique | pkg/config/config.go:103-116 | unique names stay unique after an add; the added project is in the list, and looking it up gives its path |
| Config.RemoveThenLookupFails | pkg/config/config.go:120-151 | with unique names, after a removal the name is not found, names stay unique, and every remaining project was there before under another name |
| Config.RemoveKeepsLaterDuplicate | pkg/config/config.go:124-130 | with two entries of one name, removal drops only the first, and the lookup then finds the second entry's path |
| Config.Store.Load | pkg/config/config.go:53-67 | LoadConfig reads the projects of the file, or none when it cannot be read or parsed |
| Config.Store.Save | pkg/config/config.go:70-80 | SaveConfig replaces the file with exactly the given projects |
| Config.Store.AddProject | pkg/config/config.go:83-117 | the file becomes the upsert of the loaded projects with the project whose path has a leading `~` replaced by the home directory and is then made absolute; the result reports whether the name existed |
| Config.Store.RemoveProject | pkg/config/config.go:120-138 | the result is true exactly when some project has the name; then the file loses only its first entry; otherwise the file is left as it was (no save) |
| Config.Store.GoToProject | pkg/config/config.go:141-151 | the search loop returns the path of the first project with the name, or "" |
| Cli.AddRequest | cmd/cmd.go:29-61 | with -w the project is the base name of the working directory and the directory itself, and there is none when the directory cannot be read; without -w it is -n and -p, and there is none unless both are non-empty; the category is -c and the name is never empty |
| Cli.Add | cmd/cmd.go:29-64 | AddProject runs exactly when the flags give a project, and then the file is the upsert of that project; otherwise the file is unchanged |
| Cli.Shelf | cmd/cmd.go:133-135 | a project is listed under its category, or under "Uncategorized" when that is empty; no heading is empty |
| Cli.FiledAppend | cmd/cmd.go:132-137 | appending to a category keeps registry order: the projects filed from a concatenation are those of each part in turn |
| Cli.FiledMembers | cmd/cmd.go:132-137 | a project is filed under a heading exactly when it comes from a registry project with that heading |
| Cli.FiledNonEmpty | cmd/cmd.go:130-137 | a heading has projects exactly when some registry project has that heading |
| Cli.GroupingHeadings | cmd/cmd.go:130-147 | a heading is printed exactly when some project has it |
| Cli.GroupingUnique | cmd/cmd.go:139-147 | there is only one grouping with ascending headings, so the listing does not depend on map iteration order |
| Cli.NoEmptyHeading | cmd/cmd.go:133-147 | no printed heading is empty |
| Cli.CategoryMap | cmd/cmd.go:130-137 | the map holds exactly the headings of the projects, each with its projects in registry order |
| Cli.HeadingsOf | cmd/cmd.go:140-143 | the keys are collected from the map, each once |
| Cli.SortedHeadings | cmd/cmd.go:139-144 | the headings come out in strictly ascending order, exactly the keys of the map |
| Cli.GroupProjects | cmd/cmd.go:130-147 | the groups have strictly ascending headings, each holding its projects in registry order, none empty, and every project's heading among them |
| Cli.PrintGroup | cmd/cmd.go:147-153 | one heading prints a blank line, the bracketed heading, then `  - name: path` per project |
| Cli.ListProjects | cmd/cmd.go:122-154 | an empty registry prints only "No projects found"; otherwise the lines are the listing of the grouping described above |
| Cli.GoToProject | cmd/cmd.go:157-167 | prints `cd <path>` exactly when the lookup gives a non-empty path, otherwise the not-found message |
| FileScan.MatchesName | pkg/fs/scanner.go:38-45 | the loop finds a match exactly when the base name equals one of the excluded names, ignoring case |
| FileScan.MatchesSuffix | pkg/fs/scanner.go:53-62 | the loop finds a match exactly when the lower-cased path ends with one of the binary extensions |
| FileScan.ShouldExclude | pkg/fs/scanner.go:29-65 | excluded exactly when the base name is a listed name (ignoring case) or starts with '.', or the lower-cased path ends with a listed binary extension |
| FileScan.ExcludedByName | pkg/fs/scanner.go:80-86 | excluding the joined path of a child is the same as excluding its name, so the walk skips by name alone |
| FileScan.ScanDirectory | pkg/fs/scanner.go:68-120 | the walk returns exactly the depth-bounded pre-order listing: nothing past the depth bound (0 means unbounded) or for an unreadable directory, and skipped or unreadable children left out |
| FileScan.ScanChildren | pkg/fs/scanner.go:80-117 | the loop over the children concatenates what each child contributes, in order |
| FileScan.ScanChild | pkg/fs/scanner.go:81-116 | a child contributes nothing when skipped or unreadable, else its own entry followed by the scan of its contents one level deeper |
| FileScan.ScanDirectoryShape | pkg/fs/scanner.go:80-116 | every entry lies below the prefix, is not excluded, has no extension if a directory and its lower-cased extension if a file, and comes after the directory that contains it |
| FileScan.ScanUnbounded | pkg/fs/scanner.go:69-71 | with a depth bound of 0 the depth never matters |
| FileScan.TallyIsCount | pkg/fs/scanner.go:127-131 | the tally holds exactly the extensions of counted files, each with the number of files that have it |
| FileScan.CountOfPositive | pkg/fs/scanner.go:127-131 | an extension has a positive count exactly when some non-directory entry with a non-empty extension has it |
| FileScan.TallyFiles | pkg/fs/scanner.go:127-131 | the counting loop yields the tally |
| FileScan.TallyLines | pkg/fs/scanner.go:162-173 | one line per tallied extension, each with its count and its colour (grey #AAAAAA when unknown), and no extension twice |
| FileScan.RankedLines | pkg/fs/scanner.go:176-183 | a sorted prefix of at most the limit ranks the tally: no extension twice, counts not increasing, and no extension left out counts more than one kept |
| FileScan.CountFileTypes | pkg/fs/scanner.go:123-186 | the result ranks the tally of the files: min(10, number of extensions) lines, each the count and colour of a distinct extension, counts not increasing, and none left out counts more than one kept |
| Git.RemoteOfShape | pkg/fs/git.go:52-67 | a line yields a remote only when it contains "(fetch)" and its first two fields, both non-empty and without spaces, are the name and the URL |
| Git.RemoteMapLastWins | pkg/fs/git.go:50-68 | every remote name maps to the URL of the last fetch line that names it |
| Git.RemoteMapHasEveryName | pkg/fs/git.go:50-68 | every name on a fetch line is in the map |
| Git.ParseRemotes | pkg/fs/git.go:50-68 | the parsing loop yields that map of the output's lines |
| Git.RemotesFromMap | pkg/fs/git.go:70-73 | the remotes are the map's entries, each name once, in some order |
| Git.CheckGitStatus | pkg/fs/git.go:26-76 | without .git, or when the command fails, there are no remotes; HasGit is whether .git exists; otherwise the remotes are the entries of the parsed map |
| Git.ReportedRemotes | pkg/fs/git.go:50-73 | every reported remote comes from the last fetch line that names it, and every name on a fetch line is reported |
| Health.FindPresent | pkg/health/scanner.go:73-78 | a manager is found exactly when some manifest file is present, and it is the manager of a present manifest |
| Health.AnyLockFile | pkg/health/scanner.go:90-95 | true exactly when some listed lock file is present |
| Health.ManifestManagersNamed | pkg/health/scanner.go:63-71 | every manifest maps to a non-empty manager name, so "" means no manifest |
| Health.RequirementCountBounds | pkg/health/scanner.go:135-141 | no more requirements than lines, and exactly as many when every line is a requirement |
| Health.CountRequirements | pkg/health/scanner.go:133-141 | the loop counts the lines whose trimmed form is non-empty and does not start with '#' |
| Health.DependencyCounts | pkg/health/scanner.go:98-151 | npm counts `"dependencies"` plus `"devDependencies"` with outdated a tenth, and the vulnerability flag is 1 exactly when package-lock.json is readable and mentions `"vulnerabilities"`; go counts `require ` plus `// indirect` with an eighth; pip counts requirement lines with a fifth; an unreadable manifest gives zeros for all three counts, the vulnerability flag included; other managers or none give 10, 2 and 0 |
| Health.ScanDependencies | pkg/health/scanner.go:59-154 | `DependenciesOf`: the manager is "" exactly when no manifest is present, else the manager of a present one; there is a lock file exactly when one is present; the three counts are exactly those of that manager's heuristic; and 0 <= outdated <= total with a vulnerability flag of 0 or 1 |
| Health.FirstRepoIsFirst | pkg/health/scanner.go:184-197 | the repository found is that of the earliest remote whose URL yields one; none is found only when no URL does |
| Health.FindRepo | pkg/health/scanner.go:183-197 | the loop gives the owner and name of the first repository found, or two empty strings |
| Health.ScanGitMetrics | pkg/health/scanner.go:157-210 | without Git all metrics are 0; with Git the placeholders 2 PRs, 3 issues and 4 branches appear exactly when the first repository found has a non-empty owner and name |
| Health.ScanWorkflows | pkg/health/scanner.go:244-259 | build and test become "Success" exactly when some readable workflow file mentions "build" or "test" respectively, and otherwise stay "Unknown" |
| Health.CIStatuses | pkg/health/scanner.go:235-277 | GitHub Actions succeed when the runs directory exists and otherwise follow the workflow files; GitLab CI succeeds for build or test exactly when its file mentions the word; any other CI leaves both "Unknown" |
| Health.ScanCIStatus | pkg/health/scanner.go:213-284 | HasCI exactly when some CI path is present, and then the statuses follow that CI's rule; without CI both are "Unknown" |
| Health.ScanProjectHealth | pkg/health/scanner.go:49-56 | `HealthOf`: the dependency status is what scanDependencies reports for the directory, the Git metrics are what scanGitMetrics reports for some CheckGitStatus result of the same `.git` and command output, and the CI status is what scanCIStatus reports |
| Health.HealthFacts | pkg/health/scanner.go:49-56 | every status a scan can report has CI exactly when a CI path is present, zero Git metrics without `.git`, and consistent dependency counts |
| HealthView.ItoaRoundTrip | pkg/ui/health.go:36 | the decimal text shown for a count reads back as that count |
| HealthView.FormatCount | pkg/ui/health.go:35-47 | the text is the count; 0 is healthy when zero is good and neutral otherwise; 1 to 2 healthy; 3 to 5 warning; above 5 critical |
| HealthView.FormatCIStatus | pkg/ui/health.go:133-144 | "Success" is healthy, "Failed" critical, "Running" warning, anything else neutral, and the text is the status |
| HealthView.DependencyIndicator | pkg/ui/health.go:62-68 | critical exactly when there are vulnerabilities, else warning exactly when some dependencies are outdated, else healthy |
| HealthView.CIIndicator | pkg/ui/health.go:70-77 | healthy exactly when CI exists and both statuses are "Success"; warning exactly when exactly one is; critical without CI or when neither is |
| HealthView.GitIndicator | pkg/ui/health.go:79-82 | healthy exactly when the project has Git, critical otherwise |
| HealthView.DashboardFor | pkg/ui/health.go:61-129 | the dashboard shows the three indicators of the status; each of the five counts is shown through formatCount with zero as good news, so it reads back as the status's value and is coloured by its size; the build and test statuses are shown through formatCIStatus |
| HealthView.RenderHealthDashboard | pkg/ui/health.go:50-130 | nothing is shown without a selected project; a scanned project shows the cached status; otherwise the dashboard of a fresh scan, a status that `HealthOf` allows for the selected project's directory |
| Models.ProjectFilterFindsFields | pkg/ui/models.go:33 | a project's filter value contains its name, its category and its path |
| Models.BuildProjectItems | pkg/ui/models.go:225-230 | one item per project in order, with its name and path and its category, or "Uncategorized" when empty |
| Models.SortProjects | pkg/ui/models.go:236-239 | the items are sorted by name in the given direction and are a permutation of the input |
| Models.CountCategories | pkg/ui/models.go:225-234 | the map holds exactly the categories of the items, each with its number of items |
| Models.CategoryItemsFrom | pkg/ui/models.go:242-245 | one category item per map entry with its count, no category twice |
| Models.TableOfCounts | pkg/ui/models.go:233-250 | the category items built from the counts, in any order, are one per distinct category with its number of projects |
| Models.BuildCategoryItems | pkg/ui/models.go:241-250 | exactly one category item per distinct category, with its number of projects, sorted ascending by name |
| Models.CategoryCountsSum | pkg/ui/models.go:223-250 | the category counts add up to the number of projects |
| Models.InitialModel | pkg/ui/models.go:219-279 | the items are a permutation of the loaded projects sorted ascending by name; the category table is correct and sorted; the list shows the projects under the projects title with the cursor at 0; projects view, ascending order, no form, no action view, focus 0, no selection, empty quit command, nothing scanned, and a window size of 0 by 0 until the first resize (`Initial`) |
| Models.SortBadge | pkg/ui/models.go:287-310 | the categories view shows no sort badge; the projects view shows A→Z when ascending and Z→A when descending |
| Controller.InCategoryCounts | pkg/ui/controller.go:442-448 | filtering by category keeps exactly the projects of that category, each as often as it occurs |
| Controller.FilterCategory | pkg/ui/controller.go:442-448 | the filtering loop keeps, in order, the projects whose category equals the selected one |
| Controller.ReloadItems | pkg/ui/controller.go:101-121 | the reloaded items are a permutation of the file's projects, sorted by name in the current order |
| Controller.FieldCycle | pkg/ui/controller.go:72-88 | tab and shift+tab keep the focus on one of the three fields and undo each other; tab from the last field returns to the first |
| Controller.EditForm | pkg/ui/controller.go:64-155 | esc closes the form and changes nothing else; tab and shift+tab move the focus round the fields; enter on a non-last field moves to the next; other keys edit only the focused input |
| Controller.Submission | pkg/ui/controller.go:91-98 | a project is submitted exactly when the trimmed name and path are non-empty, with the trimmed name and category and the stored form of the trimmed path |
| Controller.SubmitForm | pkg/ui/controller.go:90-138 | a complete submission upserts the project, reloads the items from the file sorted in the current order, clears the inputs, sets focus to 0 and closes the form; an incomplete one changes nothing |
| Controller.HandleFormView | pkg/ui/controller.go:64-156 | enter on the last field submits, any other key edits the form and leaves the registry alone; no command, and no quitting |
| Controller.PageSize | pkg/ui/controller.go:185-205 | a page is never negative and never more than the window's height |
| Controller.ScrolledNotNegative | pkg/ui/controller.go:172-219 | the scroll offset never drops below 0; up and pgup never raise it; down, pgdown and (below 9999) end never lower it |
| Controller.ScrollOffset | pkg/ui/controller.go:172-219 | the offset after a scrolling key follows that key's rule and is not negative |
| Controller.ScrollActions | pkg/ui/controller.go:163-219 | back closes the action view and resets the health flag and the offset; a scrolling key changes only the offset |
| Controller.LeaveActions | pkg/ui/controller.go:221-312 | go-to quits and leaves `cd <path>` except on macOS and Linux; Neovim quits and leaves `cd <path> && nvim .`; the launch keys only quit |
| Controller.DeleteShown | pkg/ui/controller.go:315-345 | the shown project is removed from the registry, the items are reloaded sorted in the current order, the list shows them and the action view closes; the category items are left alone |
| Controller.HandleActionsView | pkg/ui/controller.go:159-348 | `ActionStep`: quits exactly for a go-to, Neovim or launch key with a project shown; back and the scrolling keys behave as above; `d` with a project shown deletes it; every other key, and every key without a project, leaves the state unchanged; only that `d` touches the registry |
| Controller.SortKey | pkg/ui/controller.go:368-402 | the order flips, the items are re-sorted by name in the new order, and the list shows them, or only the selected category's |
| Controller.OpenCategory | pkg/ui/controller.go:437-467 | the projects view opens with exactly the category's projects, sorted in the current order, under the category's title |
| Controller.OpenProject | pkg/ui/controller.go:468-492 | the action view opens on the project at offset 0; when its directory exists, the file chart is the depth-3 scan and the ranking its top ten, the Git status is what CheckGitStatus reports for it, and the health status is kept when already scanned and is otherwise a status `HealthOf` allows for that directory |
| Controller.DeleteFromList | pkg/ui/controller.go:513-560 | the project is removed from the registry and both the project and the category items are rebuilt from the file |
| Controller.MoveCursor | pkg/ui/controller.go:404-416 | up and down move the cursor by one and never past the first or last item |
| Controller.ToggleView | pkg/ui/controller.go:418-432 | tab switches between the projects and the categories, clearing the selected category when entering the categories view |
| Controller.AddKey | pkg/ui/controller.go:496-509 | `a` opens the form with focus 0 in the projects view only and changes nothing else |
| Controller.SelectEntry | pkg/ui/controller.go:434-494 | enter opens the selected category in the categories view or the selected project in the projects view, and does nothing on an empty list |
| Controller.DeleteSelected | pkg/ui/controller.go:511-562 | `d` in the projects view removes the selected project and rebuilds the items; otherwise it changes nothing |
| Controller.Navigate | pkg/ui/controller.go:404-509 | tab toggles the view, `a` opens the form, the cursor keys move the cursor |
| Controller.ViewKey | pkg/ui/controller.go:368-509 | `s` re-sorts in the projects view only, enter selects, and the navigation keys navigate; the registry is left alone |
| Controller.ToWidget | pkg/ui/controller.go:58-60 | a message the handlers do not take goes to the list widget, and the cursor stays on an item |
| Controller.HandleListView | pkg/ui/controller.go:352-571 | quits exactly on `q` or ctrl+c, even while filtering; while filtering every other key goes to the list widget; otherwise each key follows its case, and only `d` touches the registry |
| Controller.Update | pkg/ui/controller.go:31-61 | `Stepped`: a key goes to the form when it shows (submit on enter in the last field, else edit), else to the action view (`ActionStep`), else to the list (`ListStep`); a resize records the new size; every other message goes to the list widget; the state stays valid and quitting follows the quit command |
| Controller.RunInteractive | pkg/ui/controller.go:683-700 | `Ran`: the run starts from the initial model of the file as it was, and each handled message takes one state to the next and the file from one version to the next as Update does, with no command before the last; the final state and file are the run's last; the loop stops at the first quit: fewer than all are handled only when the final model is quitting, and a final model that is not quitting has handled them all; the final model's quit command is returned when it is quitting, "" otherwise, and it is always "" or a `cd` command |
| ScrollView.TinyTerminalPanics | pkg/ui/controller.go:604-636 | as written, on a terminal one to five lines high the window ends before it starts, so the slice panics |
| ScrollView.TinyTerminalExample | pkg/ui/controller.go:604-636 | ten lines in a three-line terminal give `lines[0:-3]` |
| ScrollView.ScrollWindow | pkg/ui/controller.go:614-633 | the corrected window is always a valid slice, starts no later than the last full page, and holds at most the visible height |
| ScrollView.WindowAsWrittenAgrees | pkg/ui/controller.go:604-633 | where the height is unknown or at least 6 the window as written equals the corrected one and is a valid slice |
| ScrollView.ScrollWindowShape | pkg/ui/controller.go:614-633 | the start is the offset when it is in range, 0 below it and the last full page above it; the view is full whenever there are enough lines |
| ScrollView.ScrollWindowMonotone | pkg/ui/controller.go:614-633 | scrolling further down never moves the window up |
| ScrollView.EndKeyShowsLastLine | pkg/ui/controller.go:215-219 | the offset 9999 that `end` sets shows the last line of any content of up to 9999 lines |
| ScrollView.ShowPage | pkg/ui/controller.go:600-640 | with the corrected visible height (see Findings), the page shows the window's lines with a marker above when it starts after the top and below when it ends before the last line |
| Legacy.InitialModel | main.go:362-396 | the list shows one item per project in the file's own order (no sort), with "Uncategorized" for an empty category; cursor 0, no selection, no form, no action view, empty inputs, focus 0 (`Initial`) |
| Legacy.Reload | main.go:443-453 | the reloaded entries are the file's projects in order |
| Legacy.EditForm | main.go:408-487 | esc closes the form; tab and shift+tab move the focus round the fields; enter on a non-last field moves on; other keys edit the focused input |
| Legacy.SubmitForm | main.go:433-470 | a complete submission upserts the project, reloads the list from the file without sorting, clears the inputs, sets focus to 0 and closes the form; an incomplete one changes nothing |
| Legacy.HandleForm | main.go:408-487 | enter on the last field submits; any other key edits the form and leaves the registry alone |
| Legacy.LeaveCmd | main.go:498-580 | go-to and Neovim quit and then send a line starting with `cd <path>`; the launch keys only quit |
| Legacy.DeleteShown | main.go:582-601 | the shown project is removed from the registry and the list is reloaded from the file and shown again |
| Legacy.HandleActions | main.go:489-603 | back closes the action view; a leaving key with a selection quits with its command; `d` deletes the selection; any other key, or a leaving key without a selection, goes to the list widget |
| Legacy.SelectEntry | main.go:611-619 | enter opens the action view on the project under the cursor, and only when the list has items |
| Legacy.DeleteSelected | main.go:633-654 | `d` removes the project under the cursor and reloads the list; an empty list changes nothing |
| Legacy.HandleList | main.go:605-656 | `q` and ctrl+c quit; enter selects; `a` opens the form with focus 0; `d` deletes; any other key goes to the list widget; these keys are taken even while a filter is typed |
| Legacy.Update | main.go:403-670 | `Stepped`: keys go to the form, the action view or the list; other messages go to the list widget; the action view is shown only for a selected project; quitting exactly when a command is sent; every sent line starts with `cd ` |
| Legacy.InteractiveMode | main.go:744-759 | `Ran`: the run starts from the initial model of the file as it was, and each handled message is one Update step of the state and the file, with no command before the last; the loop stops at the first command, the model is quitting then, and a model that is not quitting has handled every message; the `cd` line sent with it is not handed to the shell |
| Legacy.GoToProject | main.go:321-334 | prints `cd` and the path of the first project with the name, even an empty path, or the not-found message; it prints `cd ` exactly when the name is found |

## Left out

- File I/O and JSON encoding (`os.ReadFile`, `os.WriteFile`, `json.Marshal`, `json.Unmarshal`, `InitConfig`'s directory creation): the file is the `file` field of `Config.Store`. A failed encode or write in `SaveConfig` is not modelled, and the file is always replaced.
- The error messages printed by `LoadConfig`, `AddProject` and `RemoveProject`, and the `os.Exit` paths when the home directory or the absolute path cannot be found. `Config.PathEnv` gives both as total functions.
- The `remove` and `i` cobra commands only call `RemoveProject` and `RunInteractive` and print the result. The members of those functions model them.
- Subprocesses: the editor, file manager and Neovim launches, `git remote -v` and `git log`. The git output is an input string, and a launch is modelled only as quitting.
- The temporary file that the go-to key writes on macOS and Linux, and the `time.Now` and date parsing of the last-commit date.
- Directory reads (`os.ReadDir`, `os.Stat`, `filepath.Glob`): the tree is a `FileScan.Node` value and a project directory is a `Health.ProjectDir` value. `filepath.Join` in the walk is modelled as joining with '/', without path cleaning.
- Rendering: lipgloss styles and layout, `ActionView`, `FormView`, `RenderFileChart`, `RenderGitInfo` and `RenderHealthStatus`. The float percentages and the width of the scroll markers are also left out, and a colour is an enumeration.
- The bubbles widgets. The list's filtering, paging, `SetSize` and returned commands, and the text input's editing, are the functions `Env.listMsg` and `Env.edit`. `Models.SetItems` clamps the cursor into the new items. The commands these widgets return are modelled as no command.
- Controller.WidgetSound, Legacy.WidgetSound: the model takes it as given that the list widget keeps its cursor on an item. The widget's source is not part of this model.
- Go map iteration order: the choice of package manager and CI file, the order of the remotes, and the order of equal counts in the extension ranking are left open. Contracts state membership or permutation.
- `sort.Slice` stability: the sorts are stated as sorted and a permutation only.
- Unicode case folding: `strings.EqualFold` and `strings.ToLower` are modelled on ASCII letters only.
- `OtherKey` names that spell a named key: a key is either one of the named constructors or `OtherKey`, so keys the source compares by string are assumed to arrive under their constructor.
- Controller.RunInteractive, Legacy.InteractiveMode: the sequence of messages stands for the user's input. The program's own error exit when the terminal cannot start is not modelled.
- HealthView.FormatCount: negative counts are not classified, since the scanners never produce one.

## Findings

| source | as written | input that shows it | evidently intended | confidence | as-written member | corrected member |
|---|---|---|---|---|---|---|
| pkg/ui/controller.go:604-636 | the visible height is the window height less 6, with no lower bound, so on a terminal one to five lines high the end line falls before the start line and `lines[startLine:endLine]` panics | window height 3, ten lines, scroll offset 0: start 0, end -3, `lines[0:-3]` | the visible height is never negative, so a terminal too small for the chrome shows no lines | not executed | ScrollView.TinyTerminalPanics | ScrollView.ScrollWindow |
