/** The lines the frontend fixer adds to a Dockerfile. */
module FrontendLines {
  import opened PyText
  import opened DockerfileCommon
  import opened DockerfileRewrite

  /** The nginx fixes: a writable cache and pid file for a root nginx. */
  const NginxFixes: seq<string> := Block(" set -eux; \\", [
    ("mkdir", " -p /var/cache/nginx /var/run /run /var/cache/nginx/client_temp; \\"),
    ("chown", " -R root:root /var/cache/nginx /var/run /run /var/cache/nginx/client_temp; \\"),
    ("chmod", " -R 755 /var/cache/nginx /var/run /run /var/cache/nginx/client_temp; \\"),
    ("touch", " /run/nginx.pid; \\"),
    ("chown", " root:root /run/nginx.pid")
  ])

  /** The user creation block for other images: group and user 10001, with
      the Alpine command first and the Debian one as fallback. */
  const UserCreation: seq<string> := Block(" set -eux; \\", [
    ("addgroup", " -S -g 10001 appgroup 2>/dev/null || \\"),
    ("groupadd", " -r -g 10001 appgroup 2>/dev/null || true; \\"),
    ("adduser", " -S -D -H -u 10001 -G appgroup -s /sbin/nologin appuser 2>/dev/null || \\"),
    ("useradd", " -r -u 10001 -g appgroup -s /sbin/nologin appuser 2>/dev/null || true; \\"),
    ("mkdir", " -p /app; \\"),
    ("chown", " -R 10001:10001 /app")
  ])

  const NginxUser: string := UserLine("root")
  const AppUser: string := UserLine("10001:10001")
  const SedLine: string := Run(" sed -i '/^user/d' /etc/nginx/nginx.conf")

  /** The lines the rewrite adds, by role. The rewrite is defined for any
      such record, its properties are proved for every record whose lines
      fit their roles, and the fixer's own lines are Frontend. */
  datatype Additions = Additions(
    nginxFixes: seq<string>, userCreation: seq<string>,
    nginxUser: string, appUser: string, sedLine: string,
    nginxCmd: string, appCmd: string)

  /** The blocks and the sed line are plain lines. */
  predicate PlainAdditions(a: Additions) {
    AllPlain(a.nginxFixes) && AllPlain(a.userCreation) && PlainLine(a.sedLine)
  }

  /** The USER lines only switch user. */
  predicate UserSwitches(a: Additions) {
    SwitchesUser(a.nginxUser) && SwitchesUser(a.appUser)
  }

  /** The CMD defaults are stripped exec-form CMD lines. */
  predicate ExecDefaults(a: Additions) {
    IsExecDefault(a.nginxCmd) && IsExecDefault(a.appCmd)
  }

  const Frontend: Additions :=
    Additions(NginxFixes, UserCreation, NginxUser, AppUser, SedLine, NginxCmd, JavaCmd)

  lemma FrontendFits()
    ensures PlainAdditions(Frontend) && UserSwitches(Frontend) && ExecDefaults(Frontend)
    ensures |Frontend.nginxFixes| == 6 && |Frontend.userCreation| == 7
  {
    DefaultsAreExec();
  }

  /** The HEALTHCHECK added: curl on the EXPOSE port, at "/" for nginx and
      at the actuator health endpoint otherwise. Its second line starts
      with CMD, but the entry as a whole is a HEALTHCHECK line. */
  function HealthcheckText(port: string, isNginx: bool): (hc: string)
    ensures IsHealthcheckLine(hc) && !IsCmdLine(hc) && !IsUserLine(hc)
  {
    var rest := " --interval=30s --timeout=3s --start-period=5s --retries=3 \\\n    CMD curl -f http://localhost:" +
                port + (if isNginx then "/" else "/actuator/health") + " || exit 1";
    assert rest[|rest| - 1] == '1';
    HealthcheckLine(rest)
  }
}

/** The frontend Dockerfile fixer (frontend/Dockerfilesfixer.py):
    `validate_dockerfile`, `is_nginx_image` and `enforce_best_practices`.
    This fixer knows about nginx images: it gives them a writable cache
    directory and `USER root`, and other images a system user with UID
    10001; it probes the EXPOSE port over HTTP in the HEALTHCHECK it adds. */
module FrontendFixer {
  import opened SeqUtil
  import opened PyText
  import opened DockerfileCommon
  import opened DockerfileChecks
  import opened DockerfileRewrite
  import opened FrontendLines

  // ---------------------------------------------------------------------
  // validate_dockerfile

  /** The HEALTHCHECK check: a `HEALTHCHECK ... http://localhost:<port>`
      line whose port is the EXPOSE port (compared as digit strings). */
  function HealthcheckErrors(content: string): seq<string> {
    match HealthcheckPortOf(content)
    case None => [HealthcheckMissing]
    case Some(hc) =>
      if ExposePortOf(content).Some? && hc != ExposePortOf(content).value
      then [PortMismatch(hc, ExposePortOf(content).value)] else []
  }

  /** The USER check, waived for a file mentioning nginx in any case. */
  function UserErrors(content: string): seq<string> {
    if !HasUserFrom(content, 0) && !Contains(Lower(content), "nginx") then [UserMissing] else []
  }

  /** The messages validate_dockerfile collects, in order. */
  function FailedChecks(content: string): seq<string> {
    QuoteAndExposeErrors(content) + HealthcheckErrors(content) + CmdErrors(content) + UserErrors(content)
  }

  /** What a valid frontend Dockerfile is: balanced double quotes, an
      EXPOSE port in 1..65535, a HEALTHCHECK probing that same port on
      localhost, a CMD in exec form somewhere, and a USER instruction unless
      the file mentions nginx. */
  predicate IsValid(content: string) {
    QuotesAndExposeOk(content) &&
    HealthcheckPortOf(content).Some? &&
    HealthcheckPortOf(content).value == ExposePortOf(content).value &&
    HasExecCmdFrom(content, 0) &&
    (HasUserFrom(content, 0) || Contains(Lower(content), "nginx"))
  }

  lemma FailedChecksSpec(content: string)
    ensures FailedChecks(content) == [] <==> IsValid(content)
    ensures NoEmptyMessage(FailedChecks(content))
  {
    var a := QuoteAndExposeErrors(content);
    var b := HealthcheckErrors(content);
    var c := CmdErrors(content);
    var d := UserErrors(content);
    QuoteAndExposeErrorsSpec(content);
    assert NoEmptyMessage(b) && NoEmptyMessage(c) && NoEmptyMessage(d);
    NoEmptyMessageAppend(a, b);
    NoEmptyMessageAppend(a + b, c);
    NoEmptyMessageAppend(a + b + c, d);
  }

  /** The HEALTHCHECK check as validate_dockerfile runs it: the port of the
      HEALTHCHECK match is compared with the EXPOSE match's, when there is
      one. */
  method HealthcheckChecks(content: string) returns (errors: seq<string>)
    ensures errors == HealthcheckErrors(content)
    ensures |errors| <= 1
    ensures errors == [] <==>
      HealthcheckPortOf(content).Some? &&
      (ExposePortOf(content).Some? ==> HealthcheckPortOf(content).value == ExposePortOf(content).value)
  {
    errors := [];
    var exposeMatch := ExposePortOf(content);
    var healthcheckMatch := HealthcheckPortOf(content);
    if healthcheckMatch.None? {
      errors := [HealthcheckMissing];
    } else if exposeMatch.Some? && healthcheckMatch.value != exposeMatch.value {
      errors := [PortMismatch(healthcheckMatch.value, exposeMatch.value)];
    }
  }

  /** validate_dockerfile(content): (is valid, the messages joined by
      newlines, or "" when there are none). */
  method Validate(content: string) returns (ok: bool, message: string)
    ensures ok <==> IsValid(content)
    ensures message == "" <==> ok
    ensures message == JoinLines(FailedChecks(content))
  {
    var errors := QuoteAndExposeChecks(content);
    var healthcheckErrors := HealthcheckChecks(content);
    errors := errors + healthcheckErrors;
    ghost var upToHealthcheck := errors;
    if !HasExecCmdFrom(content, 0) {
      errors := errors + [CmdMissing];
    }
    assert errors == upToHealthcheck + CmdErrors(content);
    ghost var upToCmd := errors;
    if !HasUserFrom(content, 0) && !Contains(Lower(content), "nginx") {
      errors := errors + [UserMissing];
    }
    assert errors == upToCmd + UserErrors(content);
    FailedChecksSpec(content);
    JoinNonEmpty(errors);
    ok := |errors| == 0;
    message := if |errors| > 0 then JoinLines(errors) else "";
  }

  // ---------------------------------------------------------------------
  // is_nginx_image

  predicate MentionsNginx(image: string) {
    Contains(Lower(image), "nginx")
  }

  /** Some FROM image mentions nginx, in any case. The images are those
      extract_original_images finds as written, over the whole content, so a
      bare `FROM` line reads the next line's first word as its image. */
  function IsNginxImage(content: string): (b: bool)
    ensures b <==> exists i :: 0 <= i < |ExtractImagesAsWritten(content)| && MentionsNginx(ExtractImagesAsWritten(content)[i])
  {
    Any(ExtractImagesAsWritten(content), MentionsNginx)
  }

  /** A bare `FROM` line followed by `nginx`: the whole-content pattern reads
      `nginx` as the image, so the file counts as an nginx image. */
  lemma BareFromNginx()
    ensures IsNginxImage("FROM\nnginx")
  {
    BareFromImages();
    assert MentionsNginx("nginx");
  }

  lemma BareFromImages()
    ensures ExtractImagesAsWritten("FROM\nnginx") == ["nginx"]
  {
    var s := "FROM\nnginx";
    assert s[..4] == "FROM";
    assert SpaceRunEnd(s, 4) == 5;
    assert TokenEnd(s, 5) == 10;
    assert s[5..10] == "nginx";
    assert FromMatchAt(s, 0) == Some(Span(5, 10));
  }

  // ---------------------------------------------------------------------
  // enforce_best_practices: the EXPOSE port

  /** The port the EXPOSE loop takes from a line, if any. */
  function ExposeMatch(line: string): (g: Option<string>)
    ensures g.Some? ==> g.value != [] && AllDigits(g.value)
  {
    if IsExposeLine(line) then ExposePortOf(line) else None
  }

  /** The port of the last EXPOSE line that names one, else "8080". */
  function ExposePort(lines: seq<string>): (port: string)
    ensures port != [] && AllDigits(port)
  {
    LastSomeHolds(lines, ExposeMatch, "8080", (p: string) => p != [] && AllDigits(p));
    LastSome(lines, ExposeMatch, "8080")
  }

  /** With no EXPOSE line naming a port, the port is 8080. */
  lemma ExposePortDefault(lines: seq<string>)
    requires forall i :: 0 <= i < |lines| ==> ExposeMatch(lines[i]).None?
    ensures ExposePort(lines) == "8080"
  {
    LastSomeNone(lines, ExposeMatch, "8080");
  }

  /** Otherwise it is the port of the last EXPOSE line naming one. */
  lemma ExposePortLast(lines: seq<string>, i: nat)
    requires i < |lines| && ExposeMatch(lines[i]).Some?
    requires forall j :: i < j < |lines| ==> ExposeMatch(lines[j]).None?
    ensures ExposePort(lines) == ExposePortOf(lines[i]).value
  {
    LastSomeLast(lines, ExposeMatch, "8080", i);
  }

  /** The EXPOSE loop of enforce_best_practices. */
  method ScanExposePort(lines: seq<string>) returns (exposePort: string)
    ensures exposePort == ExposePort(lines)
  {
    exposePort := "8080";
    for i := 0 to |lines|
      invariant exposePort == ExposePort(lines[..i])
    {
      LastSomeStep(lines, ExposeMatch, "8080", i);
      if IsExposeLine(lines[i]) {
        var exposeMatch := ExposePortOf(lines[i]);
        if exposeMatch.Some? {
          exposePort := exposeMatch.value;
        }
      }
    }
    assert lines[..|lines|] == lines;
  }

  // ---------------------------------------------------------------------
  // enforce_best_practices: the blocks added

  // ---------------------------------------------------------------------
  // enforce_best_practices: where the blocks go

  /** A line that ends the leading run of FROM and blank lines. */
  predicate IsBodyLine(line: string) {
    Strip(line) != [] && !IsFromLine(line)
  }

  /** The end of the leading run of FROM and blank lines. */
  function LeadingEnd(lines: seq<string>): (e: nat)
    ensures e <= |lines|
  {
    match FirstWhere(lines, IsBodyLine)
    case None => |lines|
    case Some(b) => b
  }

  /** Where the nginx fixes go: after the last FROM line of the leading run
      of FROM and blank lines, or at the top. */
  function NginxFixesPos(lines: seq<string>): (p: nat)
    ensures p <= |lines|
  {
    AfterLast(lines[..LeadingEnd(lines)], IsFromLine)
  }

  /** The nginx fixes go after a FROM line (or at the top), and only blank
      lines separate them from the first line of the body. */
  lemma NginxFixesPosSpec(lines: seq<string>)
    ensures NginxFixesPos(lines) <= LeadingEnd(lines)
    ensures NginxFixesPos(lines) > 0 ==> IsFromLine(lines[NginxFixesPos(lines) - 1])
    ensures forall j :: NginxFixesPos(lines) <= j < LeadingEnd(lines) ==> Strip(lines[j]) == []
    ensures LeadingEnd(lines) < |lines| ==> IsBodyLine(lines[LeadingEnd(lines)])
  {
    var e := LeadingEnd(lines);
    var p := NginxFixesPos(lines);
    var head := lines[..e];
    if p > 0 {
      assert head[p - 1] == lines[p - 1];
    }
    forall j | p <= j < e ensures Strip(lines[j]) == [] {
      assert head[j] == lines[j];
      assert !IsFromLine(head[j]);
      assert !IsBodyLine(lines[j]);
    }
  }

  /** A body line ends the leading run. */
  lemma NginxFixesPosAt(lines: seq<string>, i: nat)
    requires i < |lines| && IsBodyLine(lines[i]) && NoneBefore(lines, i, IsBodyLine)
    ensures NginxFixesPos(lines) == AfterLast(lines[..i], IsFromLine)
  {
    FirstWhereAt(lines, IsBodyLine, i);
  }

  /** Without a body line the leading run is the whole file. */
  lemma NginxFixesPosAll(lines: seq<string>)
    requires NoneBefore(lines, |lines|, IsBodyLine)
    ensures NginxFixesPos(lines) == AfterLast(lines, IsFromLine)
  {
    assert FirstWhere(lines, IsBodyLine).None?;
    assert lines[..|lines|] == lines;
  }

  lemma BodyLineIff(line: string)
    ensures IsBodyLine(line) <==> !IsFromLine(line) && Strip(line) != []
  {
  }

  /** The `insert_pos` loop of the nginx branch. */
  method NginxInsertPos(lines: seq<string>) returns (insertPos: nat)
    ensures insertPos == NginxFixesPos(lines)
  {
    insertPos := 0;
    var i := 0;
    while i < |lines|
      invariant 0 <= i <= |lines|
      invariant insertPos == AfterLast(lines[..i], IsFromLine)
      invariant NoneBefore(lines, i, IsBodyLine)
    {
      var line := lines[i];
      BodyLineIff(line);
      AfterLastStep(lines, IsFromLine, i);
      if IsFromLine(line) {
        insertPos := i + 1;
      } else if Strip(line) != [] {
        NginxFixesPosAt(lines, i);
        return;
      }
      NoneBeforeStep(lines, i, IsBodyLine);
      i := i + 1;
    }
    NginxFixesPosAll(lines);
    assert lines[..|lines|] == lines;
  }

  predicate MentionsUserCreation(line: string) {
    Contains(line, "useradd") || Contains(line, "adduser")
  }

  /** Where the user creation block goes: before the first COPY, CMD or
      ENTRYPOINT line, or at the end. */
  function UserCreationPos(lines: seq<string>): (p: nat)
    ensures p <= |lines|
    ensures forall j :: 0 <= j < p ==> !IsCopyCmdOrEntrypoint(lines[j])
    ensures p < |lines| ==> IsCopyCmdOrEntrypoint(lines[p])
  {
    match FirstWhere(lines, IsCopyCmdOrEntrypoint)
    case None => |lines|
    case Some(i) => i
  }

  predicate CopiesNginxConf(line: string) {
    Contains(line, "COPY") && Contains(line, "nginx.conf")
  }

  // ---------------------------------------------------------------------
  // enforce_best_practices, stage by stage

  /** The CMD default of the branch. */
  function DefaultFor(isNginx: bool, a: Additions): string {
    if isNginx then a.nginxCmd else a.appCmd
  }

  /** The nginx branch: the fixes, then `USER root` before the first CMD
      when the file has no USER line. */
  function NginxStage(lines: seq<string>, a: Additions): seq<Entry> {
    var es := Insert(Tagged(lines, Source), NginxFixesPos(lines), Tagged(a.nginxFixes, NginxFix));
    SwitchStep(es, Any(lines, IsUserLine), a.nginxUser)
  }

  /** The other branch: the user creation block unless a line already
      creates a user, then `USER 10001:10001` before the first CMD when the
      file has no USER line. */
  function AppStage(lines: seq<string>, a: Additions): seq<Entry> {
    var src := Tagged(lines, Source);
    var es := if Any(lines, MentionsUserCreation) then src
              else Insert(src, UserCreationPos(lines), Tagged(a.userCreation, UserBlock));
    SwitchStep(es, Any(lines, IsUserLine), a.appUser)
  }

  function BranchStage(lines: seq<string>, isNginx: bool, a: Additions): seq<Entry> {
    if isNginx then NginxStage(lines, a) else AppStage(lines, a)
  }

  /** The sed line right after the first line copying nginx.conf. */
  function AddSedLine(es: seq<Entry>, a: Additions): seq<Entry> {
    AddAfterFirst(es, Entry(a.sedLine, ConfSed), CopiesNginxConf)
  }

  /** The lines before the HEALTHCHECK step: the branch, the CMD rewrite,
      and for nginx the sed line. */
  function BeforeHealthcheck(lines: seq<string>, isNginx: bool, a: Additions): seq<Entry> {
    var es := FixCmds(BranchStage(lines, isNginx, a), DefaultFor(isNginx, a));
    if isNginx then AddSedLine(es, a) else es
  }

  /** The HEALTHCHECK step: when no line is a HEALTHCHECK line, x goes
      before the first CMD line, or last. */
  function HealthcheckStep(es: seq<Entry>, x: Entry): seq<Entry> {
    if Any(Texts(es), IsHealthcheckLine) then es else PlaceBeforeFirst(es, x, IsCmdLine)
  }

  /** The HEALTHCHECK line added to content: curl on its EXPOSE port. */
  function ProbeEntry(content: string): (x: Entry)
    ensures IsProbe(x)
  {
    Entry(HealthcheckText(ExposePort(SplitLines(content)), IsNginxImage(content)), Probe)
  }

  /** An added HEALTHCHECK line that is not a CMD line. */
  predicate IsProbe(x: Entry) {
    x.origin == Probe && IsHealthcheckLine(x.text) && !IsCmdLine(x.text)
  }

  /** The rewrite of the lines of a file, nginx or not, adding the lines
      of a and the HEALTHCHECK line x. */
  function Rewrite(lines: seq<string>, isNginx: bool, a: Additions, x: Entry): seq<Entry> {
    HealthcheckStep(BeforeHealthcheck(lines, isNginx, a), x)
  }

  /** enforce_best_practices(content), line by line with provenance, adding
      the lines of a. */
  function Enforced(content: string, a: Additions): seq<Entry> {
    Rewrite(SplitLines(content), IsNginxImage(content), a, ProbeEntry(content))
  }

  // ---------------------------------------------------------------------
  // The method

  /** The nginx branch of enforce_best_practices. */
  method NginxBranchLines(lines: seq<string>, hasUser: bool, a: Additions) returns (r: seq<string>)
    requires hasUser == Any(lines, IsUserLine)
    ensures r == Texts(NginxStage(lines, a))
  {
    ghost var es := Tagged(lines, Source);
    TextsTagged(lines, Source);
    var insertPos := NginxInsertPos(lines);
    r := InsertBlock(lines, insertPos, a.nginxFixes);
    TextsInsert(es, insertPos, Tagged(a.nginxFixes, NginxFix));
    TextsTagged(a.nginxFixes, NginxFix);
    es := Insert(es, insertPos, Tagged(a.nginxFixes, NginxFix));
    if !hasUser {
      r := InsertBeforeFirstLines(r, a.nginxUser, IsCmdLine, es, UserSwitch);
    }
  }

  /** The other branch of enforce_best_practices. */
  method AppBranchLines(lines: seq<string>, hasUser: bool, a: Additions) returns (r: seq<string>)
    requires hasUser == Any(lines, IsUserLine)
    ensures r == Texts(AppStage(lines, a))
  {
    ghost var es := Tagged(lines, Source);
    TextsTagged(lines, Source);
    r := lines;
    var hasUserCreation := Any(lines, MentionsUserCreation);
    if !hasUserCreation {
      var insertPos := |lines|;
      var found := FindFirst(lines, IsCopyCmdOrEntrypoint);
      if found.Some? {
        insertPos := found.value;
      }
      r := InsertBlock(r, insertPos, a.userCreation);
      TextsInsert(es, insertPos, Tagged(a.userCreation, UserBlock));
      TextsTagged(a.userCreation, UserBlock);
      es := Insert(es, insertPos, Tagged(a.userCreation, UserBlock));
    }
    if !hasUser {
      r := InsertBeforeFirstLines(r, a.appUser, IsCmdLine, es, UserSwitch);
    }
  }

  /** enforce_best_practices up to the HEALTHCHECK step. */
  method BeforeHealthcheckLines(lines: seq<string>, isNginx: bool, a: Additions) returns (newLines: seq<string>)
    ensures newLines == Texts(BeforeHealthcheck(lines, isNginx, a))
  {
    var hasUser := Any(lines, IsUserLine);
    var staged;
    if isNginx {
      staged := NginxBranchLines(lines, hasUser, a);
    } else {
      staged := AppBranchLines(lines, hasUser, a);
    }
    newLines := FixCmdLoop(staged, DefaultFor(isNginx, a));
    ghost var es := FixCmds(BranchStage(lines, isNginx, a), DefaultFor(isNginx, a));
    TextsFixCmds(BranchStage(lines, isNginx, a), DefaultFor(isNginx, a));
    if isNginx {
      newLines := InsertAfterFirstLines(newLines, a.sedLine, CopiesNginxConf, es, ConfSed);
    }
  }

  /** The HEALTHCHECK step of enforce_best_practices, on the lines es
      stand for. */
  method HealthcheckStepLines(lines: seq<string>, healthcheck: string, ghost es: seq<Entry>)
    returns (r: seq<string>)
    requires lines == Texts(es)
    ensures r == Texts(HealthcheckStep(es, Entry(healthcheck, Probe)))
  {
    r := lines;
    var hasHealthcheck := Any(lines, IsHealthcheckLine);
    if !hasHealthcheck {
      r := PlaceBeforeFirstLines(lines, healthcheck, IsCmdLine, es, Probe);
    }
  }

  /** The lines enforce_best_practices(content) joins, adding the lines of
      a. */
  method EnforcedLines(content: string, a: Additions) returns (newLines: seq<string>)
    ensures newLines == Texts(Enforced(content, a))
  {
    var lines := SplitLines(content);
    var isNginx := IsNginxImage(content);
    var exposePort := ScanExposePort(lines);
    newLines := BeforeHealthcheckLines(lines, isNginx, a);
    var healthcheck := HealthcheckText(exposePort, isNginx);
    newLines := HealthcheckStepLines(newLines, healthcheck, BeforeHealthcheck(lines, isNginx, a));
  }

  /** enforce_best_practices(content): the rewrite with the fixer's own
      lines. */
  method EnforceBestPractices(content: string) returns (fixed: string)
    ensures fixed == JoinLines(Texts(Enforced(content, Frontend)))
  {
    var newLines := EnforcedLines(content, Frontend);
    fixed := JoinLines(newLines);
  }
}
