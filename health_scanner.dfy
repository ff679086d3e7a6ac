/** The project health heuristics of pkg/health/scanner.go: the package
    manager and dependency counts, the placeholder Git metrics of a GitHub
    project, and the CI detection. The project directory is given by what
    exists in it and what can be read from it. */
module Health {
  import opened Wrappers
  import opened Text
  import Git

  /** What the scanner can see of a project directory: the relative paths
      os.Stat finds, the contents of the files that can be read, and the
      workflow files (the `.yml` files of `.github/workflows`). */
  datatype ProjectDir = ProjectDir(present: set<string>, contents: map<string, string>, workflowFiles: seq<string>)

  datatype DependencyStatus = DependencyStatus(
    hasLockFile: bool, packageManager: string, totalDeps: int, outdatedDeps: int, vulnerabilities: int)

  datatype GitMetrics = GitMetrics(openPRs: int, openIssues: int, branchesCount: int)

  datatype CIStatus = CIStatus(hasCI: bool, lastBuildStatus: string, lastTestStatus: string)

  datatype HealthStatus = HealthStatus(dependencyStatus: DependencyStatus, gitMetrics: GitMetrics, ciStatus: CIStatus)

  /** The manifest file of each package manager. */
  const PackageFiles: map<string, string> := map[
    "package.json" := "npm", "go.mod" := "go", "requirements.txt" := "pip", "Gemfile" := "bundler",
    "pom.xml" := "maven", "build.gradle" := "gradle", "Cargo.toml" := "cargo"
  ]

  /** The lock files that count as a lock file being present. */
  const LockFiles: set<string> := {
    "package-lock.json", "yarn.lock", "go.sum", "Gemfile.lock", "poetry.lock", "Cargo.lock"
  }

  /** The CI configuration paths and the CI each one means. */
  const CIFiles: map<string, string> := map[
    ".github/workflows" := "GitHub Actions", ".gitlab-ci.yml" := "GitLab CI", "circle.yml" := "CircleCI",
    ".travis.yml" := "Travis CI", "azure-pipelines.yml" := "Azure Pipelines", "Jenkinsfile" := "Jenkins"
  ]

  const Success := "Success"
  const Unknown := "Unknown"

  /** Some key of `files` is present. */
  predicate AnyPresent<V>(files: map<string, V>, present: set<string>) {
    exists f :: f in files && f in present
  }

  /** The search over a map of files for one that exists, in the map's
      iteration order: it yields the value of a present file, or `None`
      when none is present. */
  method FindPresent<V>(files: map<string, V>, present: set<string>) returns (found: Option<V>)
    ensures found.None? <==> !AnyPresent(files, present)
    ensures found.Some? ==> exists f :: f in files && f in present && files[f] == found.value
  {
    var rest := files.Keys;
    while rest != {}
      invariant rest <= files.Keys
      invariant forall f :: f in files && f !in rest ==> f !in present
      decreases |rest|
    {
      var f :| f in rest;
      if f in present {
        return Some(files[f]);
      }
      rest := rest - {f};
    }
    return None;
  }

  /** The search over the lock files. */
  method AnyLockFile(files: set<string>, present: set<string>) returns (found: bool)
    ensures found <==> exists f :: f in files && f in present
  {
    found := false;
    var rest := files;
    while rest != {}
      invariant rest <= files
      invariant forall f :: f in files && f !in rest ==> f !in present
      decreases |rest|
    {
      var f :| f in rest;
      if f in present {
        found := true;
        break;
      }
      rest := rest - {f};
    }
  }

  /** A line of requirements.txt that names a requirement: not blank and
      not a comment. */
  predicate Requirement(line: string) {
    var trimmed := TrimSpace(line);
    trimmed != "" && !HasPrefix(trimmed, "#")
  }

  /** The number of requirement lines. */
  function RequirementCount(lines: seq<string>): nat {
    if lines == [] then 0
    else RequirementCount(lines[..|lines| - 1]) + (if Requirement(lines[|lines| - 1]) then 1 else 0)
  }

  /** No more requirements than lines, and exactly as many when every line
      is a requirement. */
  lemma {:induction false} RequirementCountBounds(lines: seq<string>)
    ensures RequirementCount(lines) <= |lines|
    ensures RequirementCount(lines) == |lines| <==> forall i :: 0 <= i < |lines| ==> Requirement(lines[i])
  {
    if lines != [] {
      var init := lines[..|lines| - 1];
      RequirementCountBounds(init);
      forall i | 0 <= i < |init| ensures init[i] == lines[i] { }
    }
  }

  /** The counting loop of the pip case. */
  method CountRequirements(text: string) returns (total: int)
    ensures total == RequirementCount(Split(text, "\n"))
  {
    var lines := Split(text, "\n");
    total := 0;
    for i := 0 to |lines|
      invariant total == RequirementCount(lines[..i])
    {
      assert lines[..i + 1][..i] == lines[..i];
      var trimmed := TrimSpace(lines[i]);
      if trimmed != "" && !HasPrefix(trimmed, "#") {
        total := total + 1;
      }
    }
    assert lines[..|lines|] == lines;
  }

  /** The counts every dependency status keeps: outdated ones are a share
      of the total, and vulnerabilities are flagged as 0 or 1. */
  predicate CountsConsistent(s: DependencyStatus) {
    0 <= s.outdatedDeps <= s.totalDeps && 0 <= s.vulnerabilities <= 1
  }

  /** The dependency counts for the package manager `manager`: the npm,
      go and pip heuristics read their manifest (all counts stay 0 when it
      cannot be read); any other manager, or none, gets 10, 2 and 0. */
  predicate DependencyHeuristic(manager: string, dir: ProjectDir, total: int, outdated: int, vulnerabilities: int) {
    && (manager == "npm" ==>
          if "package.json" in dir.contents then
            var text := dir.contents["package.json"];
            && total == Count(text, "\"dependencies\"") + Count(text, "\"devDependencies\"")
            && outdated == total / 10
            && vulnerabilities == (if "package-lock.json" in dir.contents
                                      && Contains(dir.contents["package-lock.json"], "\"vulnerabilities\"") then 1 else 0)
          else total == 0 && outdated == 0 && vulnerabilities == 0)
    && (manager == "go" ==>
          if "go.mod" in dir.contents then
            var text := dir.contents["go.mod"];
            total == Count(text, "require ") + Count(text, "// indirect") && outdated == total / 8
          else total == 0 && outdated == 0)
    && (manager == "pip" ==>
          if "requirements.txt" in dir.contents then
            total == RequirementCount(Split(dir.contents["requirements.txt"], "\n")) && outdated == total / 5
          else total == 0 && outdated == 0)
    && (manager != "npm" && manager != "go" && manager != "pip" ==> total == 10 && outdated == 2)
    && (manager != "npm" ==> vulnerabilities == 0)
  }

  /** The switch on the package manager. */
  method DependencyCounts(manager: string, dir: ProjectDir) returns (total: int, outdated: int, vulnerabilities: int)
    ensures DependencyHeuristic(manager, dir, total, outdated, vulnerabilities)
    ensures 0 <= outdated <= total && 0 <= vulnerabilities <= 1
  {
    total, outdated, vulnerabilities := 0, 0, 0;
    if manager == "npm" {
      if "package.json" in dir.contents {
        var text := dir.contents["package.json"];
        total := Count(text, "\"dependencies\"") + Count(text, "\"devDependencies\"");
        outdated := total / 10;
        if "package-lock.json" in dir.contents {
          if Contains(dir.contents["package-lock.json"], "\"vulnerabilities\"") {
            vulnerabilities := 1;
          }
        }
      }
    } else if manager == "go" {
      if "go.mod" in dir.contents {
        var text := dir.contents["go.mod"];
        total := Count(text, "require ") + Count(text, "// indirect");
        outdated := total / 8;
      }
    } else if manager == "pip" {
      if "requirements.txt" in dir.contents {
        total := CountRequirements(dir.contents["requirements.txt"]);
        outdated := total / 5;
      }
    } else {
      total, outdated, vulnerabilities := 10, 2, 0;
    }
  }

  /** What scanDependencies reports for a directory: the package manager
      of some present manifest ("" exactly when none is present), whether
      a lock file is present, and that manager's dependency counts. */
  ghost predicate DependenciesOf(dir: ProjectDir, status: DependencyStatus) {
    && (status.packageManager == "" <==> !AnyPresent(PackageFiles, dir.present))
    && (status.packageManager != "" ==>
          exists f :: f in PackageFiles && f in dir.present && PackageFiles[f] == status.packageManager)
    && (status.hasLockFile <==> exists f :: f in LockFiles && f in dir.present)
    && DependencyHeuristic(status.packageManager, dir, status.totalDeps, status.outdatedDeps, status.vulnerabilities)
  }

  /** scanDependencies */
  method ScanDependencies(dir: ProjectDir) returns (status: DependencyStatus)
    ensures DependenciesOf(dir, status)
    ensures CountsConsistent(status)
  {
    status := DependencyStatus(false, "", 0, 0, 0);
    var manager := FindPresent(PackageFiles, dir.present);
    if manager.Some? {
      ManifestManagersNamed();
      status := status.(packageManager := manager.value);
    }
    var lock := AnyLockFile(LockFiles, dir.present);
    if lock {
      status := status.(hasLockFile := true);
    }
    var total, outdated, vulnerabilities := DependencyCounts(status.packageManager, dir);
    status := status.(totalDeps := total, outdatedDeps := outdated, vulnerabilities := vulnerabilities);
  }

  /** Every package manager has a non-empty name. */
  lemma ManifestManagersNamed()
    ensures forall f :: f in PackageFiles ==> PackageFiles[f] != ""
  {
  }

  /** The owner and name of a GitHub repository in a remote URL: the URL
      mentions "github.com", and the text after the first "github.com/",
      without a trailing ".git", has at least two '/'-separated parts. */
  function GitHubRepo(url: string): Option<(string, string)> {
    if !Contains(url, "github.com") then None
    else
      var parts := Split(url, "github.com/");
      if |parts| <= 1 then None
      else
        var repoParts := Split(TrimSuffix(parts[1], ".git"), "/");
        if |repoParts| >= 2 then Some((repoParts[0], repoParts[1])) else None
  }

  /** The repository of the first remote that yields one. */
  function FirstRepo(remotes: seq<Git.GitRemote>): Option<(string, string)> {
    if remotes == [] then None
    else if GitHubRepo(remotes[0].url).Some? then GitHubRepo(remotes[0].url)
    else FirstRepo(remotes[1..])
  }

  /** FirstRepo picks the earliest remote with a repository, and finds
      none only when no remote has one. */
  lemma {:induction false} FirstRepoIsFirst(remotes: seq<Git.GitRemote>)
    ensures FirstRepo(remotes).Some? ==>
      exists i :: 0 <= i < |remotes| && GitHubRepo(remotes[i].url) == FirstRepo(remotes)
                  && forall j :: 0 <= j < i ==> GitHubRepo(remotes[j].url).None?
    ensures FirstRepo(remotes).None? ==> forall i :: 0 <= i < |remotes| ==> GitHubRepo(remotes[i].url).None?
  {
    if remotes != [] && GitHubRepo(remotes[0].url).None? {
      var tail := remotes[1..];
      FirstRepoIsFirst(tail);
      if FirstRepo(tail).Some? {
        var i :| 0 <= i < |tail| && GitHubRepo(tail[i].url) == FirstRepo(tail)
                 && forall j :: 0 <= j < i ==> GitHubRepo(tail[j].url).None?;
        assert remotes[i + 1] == tail[i];
        forall j | 0 <= j < i + 1 ensures GitHubRepo(remotes[j].url).None? {
          if j > 0 { assert remotes[j] == tail[j - 1]; }
        }
      } else {
        forall i | 0 <= i < |remotes| ensures GitHubRepo(remotes[i].url).None? {
          if i > 0 { assert remotes[i] == tail[i - 1]; }
        }
      }
    }
  }

  /** The remotes name a GitHub project: the first repository found has a
      non-empty owner and name. */
  predicate IsGitHubProject(remotes: seq<Git.GitRemote>) {
    FirstRepo(remotes).Some? && FirstRepo(remotes).value.0 != "" && FirstRepo(remotes).value.1 != ""
  }

  /** The search loop of scanGitMetrics. */
  method FindRepo(remotes: seq<Git.GitRemote>) returns (owner: string, name: string)
    ensures FirstRepo(remotes).Some? ==> (owner, name) == FirstRepo(remotes).value
    ensures FirstRepo(remotes).None? ==> owner == "" && name == ""
  {
    owner, name := "", "";
    var i := 0;
    while i < |remotes|
      invariant 0 <= i <= |remotes|
      invariant FirstRepo(remotes) == FirstRepo(remotes[i..])
      invariant owner == "" && name == ""
    {
      assert remotes[i..][1..] == remotes[i + 1..];
      var url := remotes[i].url;
      if Contains(url, "github.com") {
        var parts := Split(url, "github.com/");
        if |parts| > 1 {
          var repoPath := TrimSuffix(parts[1], ".git");
          var repoParts := Split(repoPath, "/");
          if |repoParts| >= 2 {
            owner, name := repoParts[0], repoParts[1];
            break;
          }
        }
      }
      i := i + 1;
    }
  }

  /** The metrics scanGitMetrics reports for what CheckGitStatus found:
      the placeholders 2, 3 and 4 for a Git repository whose remotes name
      a GitHub project, and zeros otherwise. */
  predicate GitMetricsOf(gitInfo: Git.GitInfo, metrics: GitMetrics) {
    && (!gitInfo.hasGit ==> metrics == GitMetrics(0, 0, 0))
    && (gitInfo.hasGit ==>
          metrics == if IsGitHubProject(gitInfo.remotes) then GitMetrics(2, 3, 4) else GitMetrics(0, 0, 0))
  }

  /** scanGitMetrics, given what CheckGitStatus reports; the date of the
      last commit is not part of this model. */
  method ScanGitMetrics(gitInfo: Git.GitInfo) returns (metrics: GitMetrics)
    ensures GitMetricsOf(gitInfo, metrics)
  {
    metrics := GitMetrics(0, 0, 0);
    if !gitInfo.hasGit {
      return;
    }
    var owner, name := FindRepo(gitInfo.remotes);
    if owner != "" && name != "" {
      metrics := metrics.(openIssues := 3, openPRs := 2, branchesCount := 4);
    }
  }

  /** Some readable file of `files` contains `word`. */
  predicate Mentions(files: seq<string>, contents: map<string, string>, word: string) {
    exists i :: 0 <= i < |files| && files[i] in contents && Contains(contents[files[i]], word)
  }

  /** The loop over the workflow files: a status becomes "Success" once a
      readable workflow file mentions the step. */
  method ScanWorkflows(files: seq<string>, contents: map<string, string>) returns (build: string, test: string)
    ensures build == if Mentions(files, contents, "build") then Success else Unknown
    ensures test == if Mentions(files, contents, "test") then Success else Unknown
  {
    build, test := Unknown, Unknown;
    for i := 0 to |files|
      invariant build == if Mentions(files[..i], contents, "build") then Success else Unknown
      invariant test == if Mentions(files[..i], contents, "test") then Success else Unknown
    {
      MentionsStep(files, contents, "build", i);
      MentionsStep(files, contents, "test", i);
      if files[i] in contents {
        var text := contents[files[i]];
        if Contains(text, "build") {
          build := Success;
        }
        if Contains(text, "test") {
          test := Success;
        }
      }
    }
    assert files[..|files|] == files;
  }

  lemma MentionsStep(files: seq<string>, contents: map<string, string>, word: string, i: int)
    requires 0 <= i < |files|
    ensures Mentions(files[..i + 1], contents, word)
      <==> Mentions(files[..i], contents, word) || (files[i] in contents && Contains(contents[files[i]], word))
  {
    var a, b := files[..i], files[..i + 1];
    assert b[i] == files[i];
    forall k | 0 <= k < i ensures b[k] == a[k] { }
  }

  const WorkflowsDir := ".github/workflows"
  const RunsDir := ".github/workflows/runs"
  const GitLabFile := ".gitlab-ci.yml"

  /** The statuses a project with CI of type `ciType` gets: GitHub Actions
      succeed when a runs directory exists and otherwise by the workflow
      files' steps; GitLab CI by its configuration's stages; any other CI
      leaves both unknown. */
  predicate CIOutcome(ciType: string, dir: ProjectDir, build: string, test: string) {
    if ciType == "GitHub Actions" then
      if RunsDir in dir.present then build == Success && test == Success
      else
        && build == (if Mentions(dir.workflowFiles, dir.contents, "build") then Success else Unknown)
        && test == (if Mentions(dir.workflowFiles, dir.contents, "test") then Success else Unknown)
    else if ciType == "GitLab CI" then
      && (build == Success <==> GitLabFile in dir.contents && Contains(dir.contents[GitLabFile], "build"))
      && (test == Success <==> GitLabFile in dir.contents && Contains(dir.contents[GitLabFile], "test"))
      && (build == Success || build == Unknown) && (test == Success || test == Unknown)
    else build == Unknown && test == Unknown
  }

  /** The statuses for the CI of type `ciType`. */
  method CIStatuses(ciType: string, dir: ProjectDir) returns (build: string, test: string)
    ensures CIOutcome(ciType, dir, build, test)
  {
    build, test := Unknown, Unknown;
    if ciType == "GitHub Actions" {
      if RunsDir in dir.present {
        build, test := Success, Success;
      } else {
        build, test := ScanWorkflows(dir.workflowFiles, dir.contents);
      }
    } else if ciType == "GitLab CI" {
      if GitLabFile in dir.contents {
        var text := dir.contents[GitLabFile];
        if Contains(text, "build") {
          build := Success;
        }
        if Contains(text, "test") {
          test := Success;
        }
      }
    }
  }

  /** What scanCIStatus reports: CI is detected when some configuration
      path exists, and the statuses are those of one present CI (the one
      found first in the map's iteration order); without CI both are
      unknown. */
  ghost predicate CIStatusOf(dir: ProjectDir, status: CIStatus) {
    && (status.hasCI <==> AnyPresent(CIFiles, dir.present))
    && (!status.hasCI ==> status.lastBuildStatus == Unknown && status.lastTestStatus == Unknown)
    && (status.hasCI ==> exists f :: f in CIFiles && f in dir.present
                                     && CIOutcome(CIFiles[f], dir, status.lastBuildStatus, status.lastTestStatus))
  }

  method ScanCIStatus(dir: ProjectDir) returns (status: CIStatus)
    ensures CIStatusOf(dir, status)
  {
    status := CIStatus(false, Unknown, Unknown);
    var ciType := FindPresent(CIFiles, dir.present);
    if ciType.Some? {
      var build, test := CIStatuses(ciType.value, dir);
      status := CIStatus(true, build, test);
    }
  }

  /** The health status ScanProjectHealth reports for a project: the
      results of the three scans, the Git metrics from some report of
      CheckGitStatus for the same directory (the remotes' order is the
      remote map's iteration order, which may differ between calls). */
  ghost predicate HealthOf(dir: ProjectDir, hasGitDir: bool, gitOutput: Option<string>, health: HealthStatus) {
    && DependenciesOf(dir, health.dependencyStatus)
    && (exists info :: Git.GitStatusOf(hasGitDir, gitOutput, info) && GitMetricsOf(info, health.gitMetrics))
    && CIStatusOf(dir, health.ciStatus)
  }

  /** ScanProjectHealth; the scan time is not part of this model. */
  method ScanProjectHealth(dir: ProjectDir, hasGitDir: bool, gitOutput: Option<string>) returns (health: HealthStatus)
    ensures HealthOf(dir, hasGitDir, gitOutput, health)
  {
    var deps := ScanDependencies(dir);
    var gitInfo := Git.CheckGitStatus(hasGitDir, gitOutput);
    var metrics := ScanGitMetrics(gitInfo);
    var ci := ScanCIStatus(dir);
    health := HealthStatus(deps, metrics, ci);
  }

  /** Every status HealthOf allows reports CI exactly when a configuration
      path exists, has no Git metrics without `.git`, and keeps its
      dependency counts consistent. */
  lemma HealthFacts(dir: ProjectDir, hasGitDir: bool, gitOutput: Option<string>, health: HealthStatus)
    requires HealthOf(dir, hasGitDir, gitOutput, health)
    ensures health.ciStatus.hasCI <==> AnyPresent(CIFiles, dir.present)
    ensures !hasGitDir ==> health.gitMetrics == GitMetrics(0, 0, 0)
    ensures CountsConsistent(health.dependencyStatus)
  {
    var s := health.dependencyStatus;
    var info :| Git.GitStatusOf(hasGitDir, gitOutput, info) && GitMetricsOf(info, health.gitMetrics);
    if s.packageManager == "pip" && "requirements.txt" in dir.contents {
      RequirementCountBounds(Split(dir.contents["requirements.txt"], "\n"));
    }
  }
}
