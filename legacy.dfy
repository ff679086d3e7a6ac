/** The older single-file program (main.go): its own list model with the
    three-mode Update, its initial model, goToProject, and the event loop
    of interactiveMode. Its registry functions (addProject, removeProject,
    listProjects) are the same code as pkg/config/config.go and
    cmd/cmd.go and are modelled there. */
module Legacy {
  import opened Wrappers
  import opened Text
  import Config
  import Models
  import Controller

  /** listModel: the list widget, the project the action view shows, the
      two view flags, the form's inputs (as their texts) and focus, and
      whether the program is quitting. */
  datatype ListModel = ListModel(
    list: Models.ListWidget,
    selectedItem: Option<Models.ProjectItem>,
    showActions: bool,
    showForm: bool,
    formInputs: seq<string>,
    formFocused: int,
    quitting: bool)

  /** What Update hands back: nothing, tea.Quit, or tea.Sequence of
      tea.Quit and a message carrying a shell command. */
  datatype Cmd = NoCmd | Quit | QuitThen(message: string)

  /** The world outside the model: the path operations of addProject, the
      text input's editing, and the list widget's own handling of a
      message (its filtering and paging, and its new size on a resize). */
  datatype Env = Env(
    paths: Config.PathEnv,
    edit: (string, Controller.Key) -> string,
    listMsg: (Models.ListWidget, Controller.Msg) -> Models.ListWidget)

  /** The list widget keeps its cursor on an item. */
  ghost predicate WidgetSound(env: Env) {
    forall w: Models.ListWidget, msg: Controller.Msg :: Models.CursorValid(w) ==> Models.CursorValid(env.listMsg(w, msg))
  }

  /** Every reachable state has three form inputs with the focus on one of
      them, and a cursor on an item. */
  predicate Valid(m: ListModel) {
    |m.formInputs| == Models.FormSize && 0 <= m.formFocused < Models.FormSize && Models.CursorValid(m.list)
  }

  /** The action view is only shown for a selected project. */
  predicate ShowsSelection(m: ListModel) {
    m.showActions ==> m.selectedItem.Some?
  }

  const Title := "My Project Manager (MPM)"

  /** The state initialModel builds from the configuration file: the
      registry's projects as list items in the file's own order (no
      sorting), an empty category shown as Uncategorized, the cursor on
      the first item, and neither the form nor the action view open. */
  predicate Initial(m: ListModel, file: Option<seq<Config.Project>>) {
    var ps := Config.Loaded(file);
    && |m.list.items| == |ps|
    && (forall i :: 0 <= i < |ps| ==>
          m.list.items[i] == Models.ProjectEntry(Models.ProjectItem(ps[i].name, ps[i].path,
                                                   if ps[i].category == "" then Models.Uncategorized else ps[i].category)))
    && m.list.index == 0 && !m.list.filtering && m.list.title == Title
    && m.selectedItem == None && !m.showActions && !m.showForm && !m.quitting
    && m.formInputs == ["", "", ""] && m.formFocused == 0
  }

  /** initialModel */
  method InitialModel(store: Config.Store) returns (m: ListModel)
    ensures Valid(m) && ShowsSelection(m) && Initial(m, store.file)
  {
    var ps := store.Load();
    var items := Models.BuildProjectItems(ps);
    m := ListModel(Models.ListWidget(Models.ProjectEntries(items), 0, false, Title), None, false, false, ["", "", ""], 0, false);
  }

  /** The list entries after a change to the registry: the file's
      projects, in its order. */
  method Reload(store: Config.Store) returns (entries: seq<Models.Item>)
    ensures entries == Models.ProjectEntries(Models.ItemsOf(Config.Loaded(store.file)))
  {
    var ps := store.Load();
    var items := Models.BuildProjectItems(ps);
    entries := Models.ProjectEntries(items);
  }

  /** The form keys other than a submitting enter: `esc` closes the form,
      `tab` and `shift+tab` move the focus round the fields, enter moves
      it to the next field, other keys edit the focused input. */
  predicate FormEdited(m: ListModel, key: Controller.Key, r: ListModel, env: Env)
    requires Valid(m)
  {
    && (key.Esc? ==> r == m.(showForm := false))
    && (key.Tab? ==> r == m.(formFocused := Controller.NextField(m.formFocused)))
    && (key.ShiftTab? ==> r == m.(formFocused := Controller.PreviousField(m.formFocused)))
    && (key.Enter? ==> r == m.(formFocused := m.formFocused + 1))
    && (!(key.Esc? || key.Tab? || key.ShiftTab? || key.Enter?) ==>
          r == m.(formInputs := m.formInputs[m.formFocused := env.edit(m.formInputs[m.formFocused], key)]))
  }

  method EditForm(m: ListModel, key: Controller.Key, env: Env) returns (r: ListModel)
    requires Valid(m) && !(key.Enter? && m.formFocused == Models.FormSize - 1)
    ensures Valid(r) && FormEdited(m, key, r, env)
  {
    r := m;
    match key {
      case Esc =>
        r := r.(showForm := false);
      case Tab =>
        r := r.(formFocused := (r.formFocused + 1) % |r.formInputs|);
      case ShiftTab =>
        r := r.(formFocused := (r.formFocused - 1 + |r.formInputs|) % |r.formInputs|);
      case Enter =>
        r := r.(formFocused := (r.formFocused + 1) % |r.formInputs|);
      case _ =>
        r := r.(formInputs := r.formInputs[r.formFocused := env.edit(r.formInputs[r.formFocused], key)]);
    }
  }

  /** Enter on the last field: a complete submission is stored, the list
      is reloaded from the file, and the form is cleared and closed; an
      incomplete one changes nothing. */
  predicate Submitted(m: ListModel, r: ListModel, before: Option<seq<Config.Project>>, after: Option<seq<Config.Project>>, env: Env)
    requires Valid(m)
  {
    match Controller.Submission(m.formInputs, env.paths)
    case None => r == m && after == before
    case Some(p) =>
      && after == Some(Config.Upserted(Config.Loaded(before), p))
      && r == m.(list := Models.SetItems(m.list, Models.ProjectEntries(Models.ItemsOf(Config.Loaded(after)))),
                 formInputs := ["", "", ""], formFocused := 0, showForm := false)
  }

  method SubmitForm(m: ListModel, store: Config.Store, env: Env) returns (r: ListModel)
    requires Valid(m)
    modifies store
    ensures Valid(r) && Submitted(m, r, old(store.file), store.file, env)
  {
    r := m;
    var name := TrimSpace(m.formInputs[0]);
    var path := TrimSpace(m.formInputs[1]);
    var category := TrimSpace(m.formInputs[2]);
    if name != "" && path != "" {
      var _ := store.AddProject(name, path, category, env.paths);
      var entries := Reload(store);
      r := m.(list := Models.SetItems(m.list, entries), formInputs := ["", "", ""], formFocused := 0, showForm := false);
    }
  }

  /** The form branch of Update. */
  method HandleForm(m: ListModel, key: Controller.Key, store: Config.Store, env: Env) returns (r: ListModel, cmd: Cmd)
    requires Valid(m)
    modifies store
    ensures Valid(r) && cmd == NoCmd
    ensures key.Enter? && m.formFocused == Models.FormSize - 1 ==> Submitted(m, r, old(store.file), store.file, env)
    ensures !(key.Enter? && m.formFocused == Models.FormSize - 1) ==> FormEdited(m, key, r, env) && store.file == old(store.file)
  {
    cmd := NoCmd;
    if key.Enter? && m.formFocused == |m.formInputs| - 1 {
      r := SubmitForm(m, store, env);
    } else {
      r := EditForm(m, key, env);
    }
  }

  /** The keys of the action view that open the project in another
      program: VS Code, Zed, Cursor, the file manager, Sublime Text,
      IntelliJ IDEA and PyCharm. */
  predicate LaunchKey(key: Controller.Key) {
    key.Rune? && key.c in {'v', 'z', 'c', 'f', 's', 'i', 'p'}
  }

  /** The keys of the action view that quit: go-to, Neovim and the launch
      keys. */
  predicate LeaveKey(key: Controller.Key) {
    Controller.GoToKey(key) || key == Controller.Rune('n') || LaunchKey(key)
  }

  /** The command a leaving key hands back for the project at `path`:
      go-to sends `cd`, Neovim `cd` and `nvim`, both after tea.Quit; the
      launch keys only quit. */
  function LeaveCmd(key: Controller.Key, path: string): (cmd: Cmd)
    requires LeaveKey(key)
    ensures cmd.QuitThen? <==> Controller.GoToKey(key) || key == Controller.Rune('n')
    ensures cmd.QuitThen? ==> HasPrefix(cmd.message, "cd ") && HasPrefix(cmd.message, Controller.CdCommand(path))
  {
    if Controller.GoToKey(key) then QuitThen(Controller.CdCommand(path))
    else if key == Controller.Rune('n') then
      assert (Controller.CdCommand(path) + " && nvim .")[..|Controller.CdCommand(path)|] == Controller.CdCommand(path);
      QuitThen(Controller.CdCommand(path) + " && nvim .")
    else Quit
  }

  /** Deleting the shown project: the registry loses it, the list is
      reloaded from the file and shown again. */
  predicate DeletedShown(m: ListModel, r: ListModel, before: Option<seq<Config.Project>>, after: Option<seq<Config.Project>>)
    requires m.selectedItem.Some?
  {
    && after == Controller.AfterRemove(before, m.selectedItem.value.name)
    && r == m.(list := Models.SetItems(m.list, Models.ProjectEntries(Models.ItemsOf(Config.Loaded(after)))), showActions := false)
  }

  method DeleteShown(m: ListModel, store: Config.Store) returns (r: ListModel)
    requires Valid(m) && m.selectedItem.Some?
    modifies store
    ensures Valid(r) && DeletedShown(m, r, old(store.file), store.file)
  {
    var _ := store.RemoveProject(m.selectedItem.value.name);
    var entries := Reload(store);
    r := m.(list := Models.SetItems(m.list, entries), showActions := false);
  }

  /** One key of the action view, in the order of the source's switch:
      back, the leaving keys when a project is selected, delete; any other
      key, or a leaving key without a selection, goes to the list. */
  predicate ActionStep(m: ListModel, key: Controller.Key, r: ListModel, cmd: Cmd, before: Option<seq<Config.Project>>, after: Option<seq<Config.Project>>, env: Env) {
    if Controller.BackKey(key) then r == m.(showActions := false) && cmd == NoCmd && after == before
    else if LeaveKey(key) && m.selectedItem.Some? then
      r == m.(quitting := true) && cmd == LeaveCmd(key, m.selectedItem.value.path) && after == before
    else if key == Controller.Rune('d') then
      cmd == NoCmd && (if m.selectedItem.Some? then DeletedShown(m, r, before, after) else r == m && after == before)
    else r == m.(list := env.listMsg(m.list, Controller.KeyMsg(key))) && cmd == NoCmd && after == before
  }

  /** The action view branch of Update. */
  method HandleActions(m: ListModel, key: Controller.Key, store: Config.Store, env: Env) returns (r: ListModel, cmd: Cmd)
    requires Valid(m) && WidgetSound(env)
    modifies store
    ensures Valid(r) && ActionStep(m, key, r, cmd, old(store.file), store.file, env)
  {
    if Controller.BackKey(key) {
      r, cmd := m.(showActions := false), NoCmd;
    } else if LeaveKey(key) && m.selectedItem.Some? {
      r, cmd := m.(quitting := true), LeaveCmd(key, m.selectedItem.value.path);
    } else if key == Controller.Rune('d') {
      cmd := NoCmd;
      if m.selectedItem.Some? {
        r := DeleteShown(m, store);
      } else {
        r := m;
      }
    } else {
      r, cmd := m.(list := env.listMsg(m.list, Controller.KeyMsg(key))), NoCmd;
    }
  }

  /** Enter on the list: the action view opens on the project under the
      cursor, and only when the list has one. */
  predicate Selected(m: ListModel, r: ListModel)
    requires Valid(m)
  {
    if m.list.items != [] && m.list.items[m.list.index].ProjectEntry? then
      r == m.(selectedItem := Some(m.list.items[m.list.index].project), showActions := true)
    else r == m
  }

  method SelectEntry(m: ListModel) returns (r: ListModel)
    requires Valid(m)
    ensures Valid(r) && Selected(m, r)
  {
    r := m;
    if |m.list.items| > 0 {
      var selected := m.list.items[m.list.index];
      if selected.ProjectEntry? {
        r := m.(selectedItem := Some(selected.project), showActions := true);
      }
    }
  }

  /** `d` on the list: the project under the cursor is removed from the
      registry and the list reloaded from the file. */
  predicate ListDeleted(m: ListModel, r: ListModel, before: Option<seq<Config.Project>>, after: Option<seq<Config.Project>>)
    requires Valid(m)
  {
    if m.list.items != [] && m.list.items[m.list.index].ProjectEntry? then
      && after == Controller.AfterRemove(before, m.list.items[m.list.index].project.name)
      && r == m.(list := Models.SetItems(m.list, Models.ProjectEntries(Models.ItemsOf(Config.Loaded(after)))))
    else r == m && after == before
  }

  method DeleteSelected(m: ListModel, store: Config.Store) returns (r: ListModel)
    requires Valid(m)
    modifies store
    ensures Valid(r) && ListDeleted(m, r, old(store.file), store.file)
  {
    r := m;
    if |m.list.items| > 0 {
      var selected := m.list.items[m.list.index];
      if selected.ProjectEntry? {
        var _ := store.RemoveProject(selected.project.name);
        var entries := Reload(store);
        r := m.(list := Models.SetItems(m.list, entries));
      }
    }
  }

  /** One key of the list view, in the order of the source's switch: the
      quit keys, enter, `a` (the form opens on its first field), `d`; any
      other key goes to the list widget. Filtering does not change this:
      the list view intercepts its keys even while a filter is typed. */
  predicate ListStep(m: ListModel, key: Controller.Key, r: ListModel, cmd: Cmd, before: Option<seq<Config.Project>>, after: Option<seq<Config.Project>>, env: Env)
    requires Valid(m)
  {
    if Controller.QuitKey(key) then r == m.(quitting := true) && cmd == Quit && after == before
    else if key.Enter? then Selected(m, r) && cmd == NoCmd && after == before
    else if key == Controller.Rune('a') then r == m.(showForm := true, formFocused := 0) && cmd == NoCmd && after == before
    else if key == Controller.Rune('d') then ListDeleted(m, r, before, after) && cmd == NoCmd
    else r == m.(list := env.listMsg(m.list, Controller.KeyMsg(key))) && cmd == NoCmd && after == before
  }

  /** The list view branch of Update. */
  method HandleList(m: ListModel, key: Controller.Key, store: Config.Store, env: Env) returns (r: ListModel, cmd: Cmd)
    requires Valid(m) && WidgetSound(env)
    modifies store
    ensures Valid(r) && ListStep(m, key, r, cmd, old(store.file), store.file, env)
  {
    if Controller.QuitKey(key) {
      r, cmd := m.(quitting := true), Quit;
    } else if key.Enter? {
      r := SelectEntry(m);
      cmd := NoCmd;
    } else if key == Controller.Rune('a') {
      r, cmd := m.(showForm := true, formFocused := 0), NoCmd;
    } else if key == Controller.Rune('d') {
      r := DeleteSelected(m, store);
      cmd := NoCmd;
    } else {
      r, cmd := m.(list := env.listMsg(m.list, Controller.KeyMsg(key))), NoCmd;
    }
  }

  /** One message of the event loop, as Update takes it: a key goes to
      the form, the action view or the list, whichever is showing; every
      other message goes to the list widget. */
  predicate Stepped(m: ListModel, msg: Controller.Msg, r: ListModel, cmd: Cmd,
                    before: Option<seq<Config.Project>>, after: Option<seq<Config.Project>>, env: Env)
    requires Valid(m)
  {
    match msg
    case KeyMsg(key) =>
      if m.showForm then
        && cmd == NoCmd
        && if key.Enter? && m.formFocused == Models.FormSize - 1 then Submitted(m, r, before, after, env)
           else FormEdited(m, key, r, env) && after == before
      else if m.showActions then ActionStep(m, key, r, cmd, before, after, env)
      else ListStep(m, key, r, cmd, before, after, env)
    case _ => r == m.(list := env.listMsg(m.list, msg)) && cmd == NoCmd && after == before
  }

  /** Update: the step above. Only a key that quits hands back a command,
      and the only message a command carries is a `cd`. */
  method Update(m: ListModel, msg: Controller.Msg, store: Config.Store, env: Env) returns (r: ListModel, cmd: Cmd)
    requires Valid(m) && WidgetSound(env)
    modifies store
    ensures Valid(r)
    ensures ShowsSelection(m) ==> ShowsSelection(r)
    ensures r.quitting == (m.quitting || cmd != NoCmd)
    ensures cmd.QuitThen? ==> HasPrefix(cmd.message, "cd ")
    ensures Stepped(m, msg, r, cmd, old(store.file), store.file, env)
  {
    match msg {
      case KeyMsg(key) =>
        if m.showForm {
          r, cmd := HandleForm(m, key, store, env);
        } else if m.showActions {
          r, cmd := HandleActions(m, key, store, env);
        } else {
          r, cmd := HandleList(m, key, store, env);
        }
      case _ =>
        r, cmd := m.(list := env.listMsg(m.list, msg)), NoCmd;
    }
  }

  /** A run of the event loop over the first `handled` messages: `trace`
      holds the state before each message and after the last, `files` the
      configuration file at the same points, and each message takes one
      state to the next as Update does, handing back `cmds[i]`; every
      message before the last handed back no command. */
  ghost predicate Ran(msgs: seq<Controller.Msg>, handled: nat, trace: seq<ListModel>, cmds: seq<Cmd>,
                      files: seq<Option<seq<Config.Project>>>, env: Env)
  {
    && handled <= |msgs| && |trace| == handled + 1 && |cmds| == handled && |files| == handled + 1
    && (forall i :: 0 <= i <= handled ==> Valid(trace[i]))
    && (forall i :: 0 <= i < handled ==> Stepped(trace[i], msgs[i], trace[i + 1], cmds[i], files[i], files[i + 1], env))
    && (forall i :: 0 <= i < handled - 1 ==> cmds[i] == NoCmd)
  }

  /** A run that handled no command yet extends by one more step. */
  lemma RanStep(msgs: seq<Controller.Msg>, handled: nat, trace: seq<ListModel>, cmds: seq<Cmd>,
                files: seq<Option<seq<Config.Project>>>, env: Env, r: ListModel, cmd: Cmd, file: Option<seq<Config.Project>>)
    requires Ran(msgs, handled, trace, cmds, files, env) && handled < |msgs|
    requires forall i :: 0 <= i < handled ==> cmds[i] == NoCmd
    requires Valid(r) && Stepped(trace[handled], msgs[handled], r, cmd, files[handled], file, env)
    ensures Ran(msgs, handled + 1, trace + [r], cmds + [cmd], files + [file], env)
  {
    var trace', cmds', files' := trace + [r], cmds + [cmd], files + [file];
    forall i | 0 <= i <= handled + 1 ensures Valid(trace'[i]) {
      if i <= handled { assert trace'[i] == trace[i]; }
    }
    forall i | 0 <= i < handled + 1 ensures Stepped(trace'[i], msgs[i], trace'[i + 1], cmds'[i], files'[i], files'[i + 1], env) {
      assert trace'[i] == trace[i] && files'[i] == files[i];
      if i < handled { assert trace'[i + 1] == trace[i + 1] && cmds'[i] == cmds[i] && files'[i + 1] == files[i + 1]; }
    }
  }

  /** interactiveMode: the event loop runs from initialModel over `msgs`
      and stops at the first command, which always quits. It hands nothing
      back to the shell: the `cd` message of a go-to key is dropped with
      the program. */
  method InteractiveMode(store: Config.Store, env: Env, msgs: seq<Controller.Msg>)
    returns (final: ListModel, handled: nat, ghost trace: seq<ListModel>, ghost cmds: seq<Cmd>,
             ghost files: seq<Option<seq<Config.Project>>>)
    requires WidgetSound(env)
    modifies store
    ensures Valid(final) && ShowsSelection(final)
    ensures Ran(msgs, handled, trace, cmds, files, env)
    ensures Initial(trace[0], files[0]) && files[0] == old(store.file)
    ensures trace[handled] == final && files[handled] == store.file
    ensures handled < |msgs| ==> final.quitting && handled > 0 && cmds[handled - 1] != NoCmd
    ensures !final.quitting ==> handled == |msgs|
  {
    final := InitialModel(store);
    ghost var first, firstFile := final, store.file;
    handled := 0;
    trace, cmds, files := [final], [], [store.file];
    while handled < |msgs|
      invariant Ran(msgs, handled, trace, cmds, files, env)
      invariant trace[0] == first && files[0] == firstFile
      invariant trace[handled] == final && files[handled] == store.file
      invariant ShowsSelection(final) && !final.quitting
      invariant forall i :: 0 <= i < handled ==> cmds[i] == NoCmd
    {
      var r, cmd := Update(final, msgs[handled], store, env);
      RanStep(msgs, handled, trace, cmds, files, env, r, cmd, store.file);
      trace, cmds, files, final := trace + [r], cmds + [cmd], files + [store.file], r;
      handled := handled + 1;
      if cmd != NoCmd {
        return;
      }
    }
  }

  /** goToProject: `cd` and the path of the first project called `name`,
      even an empty one, or a not-found message. */
  method GoToProject(store: Config.Store, name: string) returns (line: string)
    ensures Config.FirstIndex(Config.Loaded(store.file), name).Some? ==>
      line == Controller.CdCommand(Config.PathOf(Config.Loaded(store.file), name))
    ensures Config.FirstIndex(Config.Loaded(store.file), name).None? ==> line == "Project '" + name + "' not found"
    ensures HasPrefix(line, "cd ") <==> Config.FirstIndex(Config.Loaded(store.file), name).Some?
  {
    var ps := store.Load();
    var i := 0;
    while i < |ps|
      invariant 0 <= i <= |ps|
      invariant forall j :: 0 <= j < i ==> ps[j].name != name
    {
      if ps[i].name == name {
        return Controller.CdCommand(ps[i].path);
      }
      i := i + 1;
    }
    line := "Project '" + name + "' not found";
    assert line[0] == 'P';
  }
}
