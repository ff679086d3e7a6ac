/** The health dashboard of pkg/ui/health.go: the colour classifications
    of counts, CI statuses and the three section indicators, and which
    health status the dashboard shows. The lipgloss layout is not part of
    this model: a rendered piece is its text and its colour. */
module HealthView {
  import opened Wrappers
  import Health
  import Git

  /** The four colours of the dashboard. */
  datatype Color = Healthy | Warning | Critical | Neutral

  /** A piece of text rendered in a colour. */
  datatype Styled = Styled(text: string, color: Color)

  function DigitChar(d: nat): (c: char)
    requires d < 10
    ensures '0' <= c <= '9'
  {
    "0123456789"[d]
  }

  /** The decimal digits of `n`. */
  function Digits(n: nat): string
    decreases n
  {
    if n < 10 then [DigitChar(n)] else Digits(n / 10) + [DigitChar(n % 10)]
  }

  /** strconv.Itoa: decimal, with a leading '-' for negative numbers. */
  function Itoa(n: int): string {
    if n < 0 then "-" + Digits(-n) else Digits(n)
  }

  predicate AllDigits(s: string) {
    forall i :: 0 <= i < |s| ==> '0' <= s[i] <= '9'
  }

  /** The value of a string of decimal digits. */
  function DigitsValue(s: string): nat
    requires AllDigits(s)
  {
    if s == [] then 0 else DigitsValue(s[..|s| - 1]) * 10 + (s[|s| - 1] as int - '0' as int)
  }

  /** Reading a decimal number back: an optional '-' and digits. */
  function Atoi(s: string): Option<int> {
    if |s| > 0 && s[0] == '-' then
      if |s| > 1 && AllDigits(s[1..]) then var v: int := DigitsValue(s[1..]); Some(-v) else None
    else if |s| > 0 && AllDigits(s) then Some(DigitsValue(s))
    else None
  }

  /** Digits(n) is a numeral: digits only, and no leading zero. */
  lemma {:induction false} DigitsShape(n: nat)
    ensures |Digits(n)| > 0 && AllDigits(Digits(n))
    ensures Digits(n)[0] == '0' ==> n == 0
    decreases n
  {
    if n >= 10 {
      DigitsShape(n / 10);
    }
  }

  /** Digits(n) is worth `n`. */
  lemma {:induction false} DigitsValueOf(n: nat)
    ensures AllDigits(Digits(n)) && DigitsValue(Digits(n)) == n
    decreases n
  {
    DigitsShape(n);
    if n >= 10 {
      DigitsValueOf(n / 10);
      var s, d := Digits(n), DigitChar(n % 10);
      assert s == Digits(n / 10) + [d];
      assert s[..|s| - 1] == Digits(n / 10);
      assert d as int - '0' as int == n % 10;
      assert n == (n / 10) * 10 + n % 10;
    }
  }

  /** Itoa is read back by Atoi. */
  lemma ItoaRoundTrip(n: int)
    ensures Atoi(Itoa(n)) == Some(n)
  {
    if n < 0 {
      var m: nat := -n;
      DigitsShape(m);
      DigitsValueOf(m);
      var s := Itoa(n);
      assert s[0] == '-' && s[1..] == Digits(m);
    } else {
      DigitsShape(n);
      DigitsValueOf(n);
      assert Digits(n)[0] != '-';
    }
  }

  /** formatCount: the count in decimal, coloured by size. Zero is healthy
      when zero is good news and neutral otherwise; 1 and 2 are healthy,
      3 to 5 a warning, more than 5 critical. */
  function FormatCount(count: int, zeroIsOk: bool): (r: Styled)
    ensures Atoi(r.text) == Some(count)
    ensures count == 0 ==> r.color == (if zeroIsOk then Healthy else Neutral)
    ensures 1 <= count <= 2 ==> r.color == Healthy
    ensures 3 <= count <= 5 ==> r.color == Warning
    ensures count > 5 ==> r.color == Critical
  {
    ItoaRoundTrip(count);
    var text := Itoa(count);
    if count == 0 && zeroIsOk then Styled(text, Healthy)
    else if count == 0 && !zeroIsOk then Styled(text, Neutral)
    else if count > 5 then Styled(text, Critical)
    else if count > 2 then Styled(text, Warning)
    else Styled(text, Healthy)
  }

  /** formatCIStatus: the status text, coloured by what it reports. */
  function FormatCIStatus(status: string): (r: Styled)
    ensures r.text == status
    ensures r.color == Healthy <==> status == "Success"
    ensures r.color == Critical <==> status == "Failed"
    ensures r.color == Warning <==> status == "Running"
    ensures r.color == Neutral <==> status !in {"Success", "Failed", "Running"}
  {
    if status == "Success" then Styled(status, Healthy)
    else if status == "Failed" then Styled(status, Critical)
    else if status == "Running" then Styled(status, Warning)
    else Styled(status, Neutral)
  }

  /** The dependency indicator: healthy, overridden by a warning when some
      dependency is outdated, overridden by critical when there are
      vulnerabilities. */
  function DependencyIndicator(deps: Health.DependencyStatus): (c: Color)
    ensures c == Critical <==> deps.vulnerabilities > 0
    ensures c == Warning <==> deps.vulnerabilities <= 0 && deps.outdatedDeps > 0
    ensures c == Healthy <==> deps.vulnerabilities <= 0 && deps.outdatedDeps <= 0
  {
    var c := Healthy;
    var c := if deps.outdatedDeps > 0 then Warning else c;
    if deps.vulnerabilities > 0 then Critical else c
  }

  /** The CI indicator: critical without CI; with CI, healthy when build
      and tests succeed, a warning when exactly one does, else critical. */
  function CIIndicator(ci: Health.CIStatus): (c: Color)
    ensures c == Healthy <==> ci.hasCI && ci.lastBuildStatus == "Success" && ci.lastTestStatus == "Success"
    ensures c == Warning <==> ci.hasCI && ((ci.lastBuildStatus == "Success") != (ci.lastTestStatus == "Success"))
    ensures c == Critical <==> !ci.hasCI || (ci.lastBuildStatus != "Success" && ci.lastTestStatus != "Success")
  {
    var c := Critical;
    if ci.hasCI then
      if ci.lastBuildStatus == "Success" && ci.lastTestStatus == "Success" then Healthy
      else if ci.lastBuildStatus == "Success" || ci.lastTestStatus == "Success" then Warning
      else c
    else c
  }

  /** The Git indicator: healthy exactly for a Git repository. */
  function GitIndicator(gitInfo: Git.GitInfo): (c: Color)
    ensures c == Healthy <==> gitInfo.hasGit
    ensures c == Healthy || c == Critical
  {
    if gitInfo.hasGit then Healthy else Critical
  }

  /** What the dashboard shows: the health status it reports, the three
      indicators, and the formatted figures. */
  datatype Dashboard = Dashboard(
    status: Health.HealthStatus,
    dependencyIndicator: Color, gitIndicator: Color, ciIndicator: Color,
    total: Styled, outdated: Styled, vulnerabilities: Styled,
    openPRs: Styled, openIssues: Styled,
    buildStatus: Styled, testStatus: Styled)

  /** The dashboard for a health status. */
  function DashboardFor(status: Health.HealthStatus, gitInfo: Git.GitInfo): (d: Dashboard)
    ensures d.status == status
    ensures d.dependencyIndicator == DependencyIndicator(status.dependencyStatus)
    ensures d.ciIndicator == CIIndicator(status.ciStatus)
    ensures d.gitIndicator == GitIndicator(gitInfo)
    ensures d.total == FormatCount(status.dependencyStatus.totalDeps, true)
    ensures d.outdated == FormatCount(status.dependencyStatus.outdatedDeps, true)
    ensures d.vulnerabilities == FormatCount(status.dependencyStatus.vulnerabilities, true)
    ensures d.openPRs == FormatCount(status.gitMetrics.openPRs, true)
    ensures d.openIssues == FormatCount(status.gitMetrics.openIssues, true)
    ensures d.buildStatus == FormatCIStatus(status.ciStatus.lastBuildStatus)
    ensures d.testStatus == FormatCIStatus(status.ciStatus.lastTestStatus)
  {
    var deps := status.dependencyStatus;
    Dashboard(status,
      DependencyIndicator(deps), GitIndicator(gitInfo), CIIndicator(status.ciStatus),
      FormatCount(deps.totalDeps, true), FormatCount(deps.outdatedDeps, true), FormatCount(deps.vulnerabilities, true),
      FormatCount(status.gitMetrics.openPRs, true), FormatCount(status.gitMetrics.openIssues, true),
      FormatCIStatus(status.ciStatus.lastBuildStatus), FormatCIStatus(status.ciStatus.lastTestStatus))
  }

  /** RenderHealthDashboard: nothing without a selected project; the cached
      status when the project has been scanned; otherwise a fresh scan of
      the selected project, given by what its directory holds. */
  method RenderHealthDashboard(
    selected: Option<string>, healthScanned: bool, cached: Health.HealthStatus, gitInfo: Git.GitInfo,
    dir: Health.ProjectDir, hasGitDir: bool, gitOutput: Option<string>)
    returns (view: Option<Dashboard>)
    ensures selected.None? <==> view.None?
    ensures view.Some? && healthScanned ==> view.value == DashboardFor(cached, gitInfo)
    ensures view.Some? && !healthScanned ==>
      view.value == DashboardFor(view.value.status, gitInfo) && Health.HealthOf(dir, hasGitDir, gitOutput, view.value.status)
  {
    if selected.None? {
      return None;
    }
    var status := cached;
    if !healthScanned {
      status := Health.ScanProjectHealth(dir, hasGitDir, gitOutput);
    }
    return Some(DashboardFor(status, gitInfo));
  }
}
