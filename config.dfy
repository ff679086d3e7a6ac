/** The project registry (pkg/config/config.go): an ordered list of
    projects keyed by name, kept in one configuration file. */
module Config {
  import opened Wrappers
  import opened Text

  /** One bookmarked project. */
  datatype Project = Project(name: string, path: string, category: string)

  /** The parts of the operating system that AddProject consults:
      os.UserHomeDir, filepath.Join and filepath.Abs. */
  datatype PathEnv = PathEnv(home: string, join: (string, string) -> string, abs: string -> string)

  /** What LoadConfig yields for the configuration file's contents; `None`
      stands for a file that cannot be read or does not parse. */
  function Loaded(file: Option<seq<Project>>): (ps: seq<Project>)
    ensures file.None? ==> ps == []
    ensures file.Some? ==> ps == file.value
  {
    match file
    case None => []
    case Some(ps) => ps
  }

  /** The path AddProject stores: a leading `~` is replaced by the home
      directory, then the path is made absolute. */
  function StoredPath(env: PathEnv, path: string): string {
    var expanded := if HasPrefix(path, "~") then env.join(env.home, path[1..]) else path;
    env.abs(expanded)
  }

  /** The position of the first project called `name`. */
  function FirstIndex(ps: seq<Project>, name: string): (r: Option<nat>)
    ensures r.Some? ==> r.value < |ps| && ps[r.value].name == name
    ensures r.Some? ==> forall j :: 0 <= j < r.value ==> ps[j].name != name
    ensures r.None? ==> forall j :: 0 <= j < |ps| ==> ps[j].name != name
  {
    if |ps| == 0 then None
    else if ps[0].name == name then Some(0)
    else match FirstIndex(ps[1..], name)
      case None => None
      case Some(i) => Some(i + 1)
  }

  /** No two projects share a name. */
  predicate NamesUnique(ps: seq<Project>) {
    forall i, j :: 0 <= i < j < |ps| ==> ps[i].name != ps[j].name
  }

  /** The registry after storing `p`: the first project with that name is
      replaced where it stands, or `p` is appended. */
  function Upserted(ps: seq<Project>, p: Project): (r: seq<Project>)
    ensures FirstIndex(ps, p.name).Some? ==>
      var i := FirstIndex(ps, p.name).value;
      |r| == |ps| && r[i] == p && forall j :: 0 <= j < |ps| && j != i ==> r[j] == ps[j]
    ensures FirstIndex(ps, p.name).None? ==> |r| == |ps| + 1 && r[..|ps|] == ps && r[|ps|] == p
  {
    match FirstIndex(ps, p.name)
    case Some(i) => ps[i := p]
    case None => ps + [p]
  }

  /** The registry without the first project called `name`, the others in
      their old order. */
  function RemovedFirst(ps: seq<Project>, name: string): (r: seq<Project>)
    ensures FirstIndex(ps, name).Some? ==>
      var i := FirstIndex(ps, name).value;
      |r| == |ps| - 1 && (forall j :: 0 <= j < i ==> r[j] == ps[j])
      && (forall j :: i <= j < |r| ==> r[j] == ps[j + 1])
    ensures FirstIndex(ps, name).None? ==> r == ps
  {
    match FirstIndex(ps, name)
    case Some(i) => ps[..i] + ps[i + 1..]
    case None => ps
  }

  /** The path of the first project called `name`, or "" if there is none. */
  function PathOf(ps: seq<Project>, name: string): (path: string)
    ensures (forall j :: 0 <= j < |ps| ==> ps[j].name != name) ==> path == ""
    ensures forall j :: (0 <= j < |ps| && ps[j].name == name && (forall k :: 0 <= k < j ==> ps[k].name != name))
                       ==> path == ps[j].path
  {
    match FirstIndex(ps, name)
    case Some(i) => ps[i].path
    case None => ""
  }

  /** Storing a project keeps names unique, and the stored entry is the
      one a later lookup finds. */
  lemma UpsertKeepsNamesUnique(ps: seq<Project>, p: Project)
    requires NamesUnique(ps)
    ensures NamesUnique(Upserted(ps, p))
    ensures p in Upserted(ps, p)
    ensures PathOf(Upserted(ps, p), p.name) == p.path
  {
    var r := Upserted(ps, p);
    match FirstIndex(ps, p.name)
    case Some(i) =>
      assert r[i] == p;
      forall a, b | 0 <= a < b < |r| ensures r[a].name != r[b].name {
        if a == i { assert r[b] == ps[b]; }
        else if b == i { assert r[a] == ps[a]; }
        else { assert r[a] == ps[a] && r[b] == ps[b]; }
      }
      forall k | 0 <= k < i ensures r[k].name != p.name {
        assert r[k] == ps[k];
      }
    case None =>
      assert r[|ps|] == p;
      forall a, b | 0 <= a < b < |r| ensures r[a].name != r[b].name {
        assert r[a] == ps[a];
        if b < |ps| { assert r[b] == ps[b]; }
      }
      forall k | 0 <= k < |ps| ensures r[k].name != p.name {
        assert r[k] == ps[k];
      }
  }

  /** With unique names, a removed project is gone: a later lookup finds
      nothing, and the other names stay unique. */
  lemma RemoveThenLookupFails(ps: seq<Project>, name: string)
    requires NamesUnique(ps)
    ensures NamesUnique(RemovedFirst(ps, name))
    ensures PathOf(RemovedFirst(ps, name), name) == ""
    ensures forall q :: q in RemovedFirst(ps, name) ==> q in ps && q.name != name
  {
    var r := RemovedFirst(ps, name);
    match FirstIndex(ps, name)
    case Some(i) =>
      forall a, b | 0 <= a < b < |r| ensures r[a].name != r[b].name {
        var a0 := if a < i then a else a + 1;
        var b0 := if b < i then b else b + 1;
        assert r[a] == ps[a0] && r[b] == ps[b0];
      }
      forall j | 0 <= j < |r| ensures r[j] in ps && r[j].name != name {
        var j0 := if j < i then j else j + 1;
        assert r[j] == ps[j0];
      }
    case None =>
  }

  /** Only the first of several same-named projects is removed: with a
      duplicate name, the second entry is found afterwards. */
  lemma RemoveKeepsLaterDuplicate(a: Project, b: Project)
    requires a.name == b.name
    ensures RemovedFirst([a, b], a.name) == [b]
    ensures PathOf(RemovedFirst([a, b], a.name), a.name) == b.path
  {
    assert FirstIndex([a, b], a.name) == Some(0);
    assert [a, b][1..] == [b];
    assert FirstIndex([b], a.name) == Some(0);
  }

  /** The configuration file, as LoadConfig and SaveConfig see it. */
  class Store {
    var file: Option<seq<Project>>

    constructor (file: Option<seq<Project>>)
      ensures this.file == file
    {
      this.file := file;
    }

    /** LoadConfig: the stored projects, or none when the file cannot be
        read or parsed. */
    method Load() returns (ps: seq<Project>)
      ensures ps == Loaded(file)
    {
      match file
      case None => ps := [];
      case Some(stored) => ps := stored;
    }

    /** SaveConfig */
    method Save(ps: seq<Project>)
      modifies this
      ensures file == Some(ps)
    {
      file := Some(ps);
    }

    /** AddProject: stores the project under `name`, replacing the first
        entry with that name or appending; `updated` tells which. */
    method AddProject(name: string, path: string, category: string, env: PathEnv) returns (updated: bool)
      modifies this
      ensures file == Some(Upserted(Loaded(old(file)), Project(name, StoredPath(env, path), category)))
      ensures updated <==> FirstIndex(Loaded(old(file)), name).Some?
    {
      var ps := Load();
      var expanded := path;
      if HasPrefix(path, "~") {
        expanded := env.join(env.home, path[1..]);
      }
      var stored := Project(name, env.abs(expanded), category);
      var i := 0;
      while i < |ps|
        invariant 0 <= i <= |ps|
        invariant forall j :: 0 <= j < i ==> ps[j].name != name
      {
        if ps[i].name == name {
          ps := ps[i := stored];
          Save(ps);
          return true;
        }
        i := i + 1;
      }
      ps := ps + [stored];
      Save(ps);
      return false;
    }

    /** RemoveProject: deletes the first project called `name`; the file is
        written only when one was found. */
    method RemoveProject(name: string) returns (found: bool)
      modifies this
      ensures found <==> FirstIndex(Loaded(old(file)), name).Some?
      ensures found ==> file == Some(RemovedFirst(Loaded(old(file)), name))
      ensures !found ==> file == old(file)
    {
      var ps := Load();
      found := false;
      var i := 0;
      while i < |ps|
        invariant 0 <= i <= |ps|
        invariant forall j :: 0 <= j < i ==> ps[j].name != name
      {
        if ps[i].name == name {
          ps := ps[..i] + ps[i + 1..];
          found := true;
          break;
        }
        i := i + 1;
      }
      if found {
        Save(ps);
      }
    }

    /** GoToProject: the path of the first project called `name`, or "". */
    method GoToProject(name: string) returns (path: string)
      ensures path == PathOf(Loaded(file), name)
    {
      var ps := Load();
      var i := 0;
      while i < |ps|
        invariant 0 <= i <= |ps|
        invariant forall j :: 0 <= j < i ==> ps[j].name != name
      {
        if ps[i].name == name {
          return ps[i].path;
        }
        i := i + 1;
      }
      return "";
    }
  }
}
