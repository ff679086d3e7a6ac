/** The repository probe of pkg/fs/git.go: whether a project is a Git
    repository and which remotes `git remote -v` reports for it. The
    existence of `.git` and the command's output are inputs. */
module Git {
  import opened Wrappers
  import opened Text

  datatype GitRemote = GitRemote(name: string, url: string)

  datatype GitInfo = GitInfo(hasGit: bool, remotes: seq<GitRemote>)

  /** The remote a line of `git remote -v` contributes: a non-empty line
      with at least two fields that mentions "(fetch)" gives its first
      field as the name and its second as the URL. */
  function RemoteOf(line: string): Option<GitRemote> {
    if line == "" then None
    else
      var parts := Fields(line);
      if |parts| >= 2 && Contains(line, "(fetch)") then Some(GitRemote(parts[0], parts[1])) else None
  }

  /** A contributed remote has a non-empty name and URL without white
      space, and comes from a fetch line. */
  lemma RemoteOfShape(line: string)
    requires RemoteOf(line).Some?
    ensures Contains(line, "(fetch)")
    ensures var r := RemoteOf(line).value;
      |r.name| > 0 && NoSpace(r.name) && |r.url| > 0 && NoSpace(r.url)
  {
    FieldsShape(line);
    assert Fields(line)[0] in Fields(line) && Fields(line)[1] in Fields(line);
  }

  /** The line contributes a remote called `name`. */
  predicate Names(line: string, name: string) {
    RemoteOf(line).Some? && RemoteOf(line).value.name == name
  }

  /** The map the parsing loop fills: each contributing line sets its
      name to its URL, so a later line overrides an earlier one. */
  function RemoteMap(lines: seq<string>): map<string, string> {
    if lines == [] then map[]
    else
      var m := RemoteMap(lines[..|lines| - 1]);
      match RemoteOf(lines[|lines| - 1])
      case None => m
      case Some(r) => m[r.name := r.url]
  }

  /** Line `i` is the last of `lines` to contribute a remote called `name`. */
  predicate LastFor(lines: seq<string>, i: int, name: string) {
    0 <= i < |lines| && Names(lines[i], name) && forall j :: i < j < |lines| ==> !Names(lines[j], name)
  }

  lemma LastForExtend(lines: seq<string>, i: int, name: string)
    requires |lines| > 0 && LastFor(lines[..|lines| - 1], i, name) && !Names(lines[|lines| - 1], name)
    ensures LastFor(lines, i, name)
  {
    forall j | i < j < |lines| - 1 ensures lines[j] == lines[..|lines| - 1][j] { }
  }

  /** `r` is the remote that the last line of `lines` naming it contributes. */
  predicate FromLastLine(lines: seq<string>, r: GitRemote) {
    exists i :: 0 <= i < |lines| && LastFor(lines, i, r.name) && RemoteOf(lines[i]) == Some(r)
  }

  /** Every name in the map is that of some contributing line, and its URL
      is the one of the last such line. */
  lemma {:induction false} RemoteMapLastWins(lines: seq<string>)
    ensures forall k :: k in RemoteMap(lines) ==> FromLastLine(lines, GitRemote(k, RemoteMap(lines)[k]))
  {
    if lines != [] {
      var init, last := lines[..|lines| - 1], lines[|lines| - 1];
      RemoteMapLastWins(init);
      var m, mi := RemoteMap(lines), RemoteMap(init);
      forall k | k in m ensures FromLastLine(lines, GitRemote(k, m[k])) {
        if Names(last, k) {
          assert LastFor(lines, |lines| - 1, k);
        } else {
          assert k in mi && m[k] == mi[k];
          var i :| LastFor(init, i, k) && RemoteOf(init[i]) == Some(GitRemote(k, mi[k]));
          LastForExtend(lines, i, k);
          assert lines[i] == init[i];
        }
      }
    }
  }

  /** Every contributing line's name is in the map. */
  lemma {:induction false} RemoteMapHasEveryName(lines: seq<string>)
    ensures forall i :: 0 <= i < |lines| && RemoteOf(lines[i]).Some? ==> RemoteOf(lines[i]).value.name in RemoteMap(lines)
  {
    if lines != [] {
      var init := lines[..|lines| - 1];
      RemoteMapHasEveryName(init);
      forall i | 0 <= i < |lines| - 1 ensures lines[i] == init[i] { }
    }
  }

  /** The parsing loop of CheckGitStatus over the command's output. */
  method ParseRemotes(output: string) returns (remoteMap: map<string, string>)
    ensures remoteMap == RemoteMap(Split(output, "\n"))
  {
    var lines := Split(output, "\n");
    remoteMap := map[];
    for i := 0 to |lines|
      invariant remoteMap == RemoteMap(lines[..i])
    {
      assert lines[..i + 1][..i] == lines[..i];
      var line := lines[i];
      if line == "" {
        continue;
      }
      var parts := Fields(line);
      if |parts| >= 2 {
        var name := parts[0];
        var url := parts[1];
        if Contains(line, "(fetch)") {
          remoteMap := remoteMap[name := url];
        }
      }
    }
    assert lines[..|lines|] == lines;
  }

  /** No two remotes share a name. */
  predicate DistinctNames(rs: seq<GitRemote>) {
    forall i, j :: 0 <= i < j < |rs| ==> rs[i].name != rs[j].name
  }

  /** Some remote of `rs` is called `name`. */
  predicate HasName(rs: seq<GitRemote>, name: string) {
    exists i :: 0 <= i < |rs| && rs[i].name == name
  }

  /** `rs` lists the entries of `m`, each once, in some order. */
  ghost predicate RemotesOf(rs: seq<GitRemote>, m: map<string, string>) {
    && |rs| == |m|
    && (forall i :: 0 <= i < |rs| ==> rs[i].name in m && m[rs[i].name] == rs[i].url)
    && DistinctNames(rs)
    && (forall k :: k in m ==> HasName(rs, k))
  }

  /** The state of the map-to-slice loop: `rs` lists the entries of `m`
      already taken, `rest` those still to go. */
  ghost predicate Converting(rs: seq<GitRemote>, rest: map<string, string>, m: map<string, string>) {
    && rest.Keys <= m.Keys
    && (forall k :: k in rest ==> rest[k] == m[k])
    && |rs| + |rest| == |m|
    && (forall i :: 0 <= i < |rs| ==> rs[i].name in m && m[rs[i].name] == rs[i].url && rs[i].name !in rest)
    && DistinctNames(rs)
    && (forall k :: k in m ==> k in rest || HasName(rs, k))
  }

  lemma ConvertingStep(rs: seq<GitRemote>, rest: map<string, string>, m: map<string, string>, name: string)
    requires Converting(rs, rest, m) && name in rest
    ensures Converting(rs + [GitRemote(name, rest[name])], rest - {name}, m)
  {
    var r := GitRemote(name, rest[name]);
    var rs' := rs + [r];
    assert |rest - {name}| == |rest| - 1;
    forall i | 0 <= i < |rs'| ensures rs'[i].name in m && m[rs'[i].name] == rs'[i].url && rs'[i].name !in rest - {name} {
      if i < |rs| { assert rs'[i] == rs[i]; }
    }
    DistinctStep(rs, r);
    CoverStep(rs, rest, m, name);
  }

  lemma DistinctStep(rs: seq<GitRemote>, r: GitRemote)
    requires DistinctNames(rs) && forall i :: 0 <= i < |rs| ==> rs[i].name != r.name
    ensures DistinctNames(rs + [r])
  {
    var rs' := rs + [r];
    forall i, j | 0 <= i < j < |rs'| ensures rs'[i].name != rs'[j].name {
      assert rs'[i] == rs[i];
    }
  }

  lemma CoverStep(rs: seq<GitRemote>, rest: map<string, string>, m: map<string, string>, name: string)
    requires name in rest
    requires forall k :: k in m ==> k in rest || HasName(rs, k)
    ensures forall k :: k in m ==> k in rest - {name} || HasName(rs + [GitRemote(name, rest[name])], k)
  {
    var rs' := rs + [GitRemote(name, rest[name])];
    forall k | k in m ensures k in rest - {name} || HasName(rs', k) {
      if k == name {
        assert rs'[|rs|].name == k;
      } else if k !in rest {
        var i :| 0 <= i < |rs| && rs[i].name == k;
        assert rs'[i].name == k;
      }
    }
  }

  /** The loop that turns the remote map into the slice of remotes, in the
      map's iteration order. */
  method RemotesFromMap(m: map<string, string>) returns (rs: seq<GitRemote>)
    ensures RemotesOf(rs, m)
  {
    rs := [];
    var rest := m;
    while rest != map[]
      invariant Converting(rs, rest, m)
      decreases |rest|
    {
      var name :| name in rest;
      ConvertingStep(rs, rest, m, name);
      rs := rs + [GitRemote(name, rest[name])];
      rest := rest - {name};
    }
  }

  /** What CheckGitStatus reports: a Git repository exactly when `.git`
      exists, with no remotes when it does not or the command failed, and
      otherwise the entries of the remote map parsed from the output. */
  ghost predicate GitStatusOf(hasGitDir: bool, output: Option<string>, info: GitInfo) {
    && info.hasGit == hasGitDir
    && (!hasGitDir || output.None? ==> info.remotes == [])
    && (hasGitDir && output.Some? ==> RemotesOf(info.remotes, RemoteMap(Split(output.value, "\n"))))
  }

  /** CheckGitStatus: `hasGitDir` says whether `.git` exists in the
      project, `output` is what `git remote -v` printed, or `None` when the
      command failed. */
  method CheckGitStatus(hasGitDir: bool, output: Option<string>) returns (info: GitInfo)
    ensures GitStatusOf(hasGitDir, output, info)
  {
    info := GitInfo(false, []);
    if !hasGitDir {
      return;
    }
    info := info.(hasGit := true);
    if output.None? {
      return;
    }
    var remoteMap := ParseRemotes(output.value);
    var remotes := RemotesFromMap(remoteMap);
    info := info.(remotes := remotes);
  }

  /** Every remote reported comes from the last fetch line of the output
      that names it, and every fetch line's name is reported. */
  lemma ReportedRemotes(rs: seq<GitRemote>, lines: seq<string>)
    requires RemotesOf(rs, RemoteMap(lines))
    ensures forall i :: 0 <= i < |rs| ==> FromLastLine(lines, rs[i])
    ensures forall j :: 0 <= j < |lines| && RemoteOf(lines[j]).Some? ==> HasName(rs, RemoteOf(lines[j]).value.name)
  {
    RemoteMapLastWins(lines);
    RemoteMapHasEveryName(lines);
    forall i | 0 <= i < |rs| ensures FromLastLine(lines, rs[i]) {
      assert rs[i] == GitRemote(rs[i].name, RemoteMap(lines)[rs[i].name]);
    }
  }
}
