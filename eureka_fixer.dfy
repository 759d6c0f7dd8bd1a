/** The lines the eureka-service fixer adds to a Dockerfile. */
module EurekaLines {
  import opened PyText
  import opened DockerfileCommon
  import opened DockerfileRewrite

  /** The user creation block: group and user 1001, with the Debian command
      first and the other as fallback, written as ONE entry whose lines are
      joined by newlines and backslashes. */
  const UserCreation: string := Run(UserCreationRest)

  const UserCreationRest: string :=
    " set -eux; \\\n" +
    "    addgroup --system --gid 1001 appgroup 2>/dev/null || \\\n" +
    "    groupadd --system --gid 1001 appgroup 2>/dev/null || true; \\\n" +
    "    adduser --system --disabled-password --uid 1001 --ingroup appgroup appuser 2>/dev/null || \\\n" +
    "    useradd --system --uid 1001 --gid appgroup appuser 2>/dev/null || true; \\\n" +
    "    mkdir -p /app && \\\n" +
    "    chown -R 1001:1001 /app"

  const EurekaUser: string := UserLine("1001:1001")

  /** The HEALTHCHECK added: it always succeeds (`CMD true`). */
  const HealthcheckTrue: string :=
    HealthcheckLine(" --interval=30s --timeout=3s --start-period=5s --retries=3 \\\n    CMD true")

  /** The lines the rewrite adds, by role. The rewrite is defined for any
      such record, its properties are proved for every record whose lines
      fit their roles, and the fixer's own lines are Eureka. */
  datatype Additions = Additions(userCreation: string, user: string, cmd: string, healthcheck: string)

  /** The user creation entry is a plain line that the COPY/CMD/ENTRYPOINT
      test does not pick. */
  predicate PlainBlock(a: Additions) {
    PlainLine(a.userCreation) && !IsCopyCmdOrEntrypoint(a.userCreation)
  }

  /** The added HEALTHCHECK is a HEALTHCHECK line and not a CMD line. */
  predicate IsProbeText(hc: string) {
    IsHealthcheckLine(hc) && !IsCmdLine(hc)
  }

  const Eureka: Additions := Additions(UserCreation, EurekaUser, JavaCmd, HealthcheckTrue)

  lemma EurekaFits()
    ensures PlainBlock(Eureka) && SwitchesUser(Eureka.user)
    ensures IsExecDefault(Eureka.cmd) && IsProbeText(Eureka.healthcheck)
  {
    DefaultsAreExec();
    RunNotCopy(UserCreationRest);
  }
}

/** The eureka-service Dockerfile fixer
    (backend/eureka-service/Dockerfilesfixer.py): `validate_dockerfile` and
    `enforce_best_practices`. This fixer knows only Java images: it always
    wants a USER instruction, gives the image a system user with UID 1001,
    and adds a HEALTHCHECK that always succeeds. */
module EurekaFixer {
  import opened SeqUtil
  import opened PyText
  import opened DockerfileCommon
  import opened DockerfileChecks
  import opened DockerfileRewrite
  import opened EurekaLines

  // ---------------------------------------------------------------------
  // validate_dockerfile

  /** The HEALTHCHECK check: `HEALTHCHECK` with `CMD true` later on the
      same line. */
  function HealthcheckErrors(content: string): seq<string> {
    if !HasHealthcheckCmdTrueFrom(content, 0) then [HealthcheckMissing] else []
  }

  /** The USER check, with no exemption. */
  function UserErrors(content: string): seq<string> {
    if !HasUserFrom(content, 0) then [UserMissing] else []
  }

  /** The messages validate_dockerfile collects, in order. */
  function FailedChecks(content: string): seq<string> {
    QuoteAndExposeErrors(content) + HealthcheckErrors(content) + CmdErrors(content) + UserErrors(content)
  }

  /** What a valid eureka Dockerfile is: balanced double quotes, an EXPOSE
      port in 1..65535, a `HEALTHCHECK ... CMD true` line, a CMD in exec
      form somewhere, and a USER instruction. */
  predicate IsValid(content: string) {
    QuotesAndExposeOk(content) &&
    HasHealthcheckCmdTrueFrom(content, 0) &&
    HasExecCmdFrom(content, 0) &&
    HasUserFrom(content, 0)
  }

  lemma FailedChecksSpec(content: string)
    ensures FailedChecks(content) == [] <==> IsValid(content)
    ensures NoEmptyMessage(FailedChecks(content))
  {
    var a := QuoteAndExposeErrors(content);
    var b := HealthcheckErrors(content);
    var c := CmdErrors(content);
    var d := UserErrors(content);
    QuoteAndExposeErrorsSpec(content);
    assert NoEmptyMessage(b) && NoEmptyMessage(c) && NoEmptyMessage(d);
    NoEmptyMessageAppend(a, b);
    NoEmptyMessageAppend(a + b, c);
    NoEmptyMessageAppend(a + b + c, d);
  }

  /** validate_dockerfile(content): (is valid, the messages joined by
      newlines, or "" when there are none). */
  method Validate(content: string) returns (ok: bool, message: string)
    ensures ok <==> IsValid(content)
    ensures message == "" <==> ok
    ensures message == JoinLines(FailedChecks(content))
  {
    var errors := QuoteAndExposeChecks(content);
    ghost var upToExpose := errors;
    if !HasHealthcheckCmdTrueFrom(content, 0) {
      errors := errors + [HealthcheckMissing];
    }
    assert errors == upToExpose + HealthcheckErrors(content);
    ghost var upToHealthcheck := errors;
    if !HasExecCmdFrom(content, 0) {
      errors := errors + [CmdMissing];
    }
    assert errors == upToHealthcheck + CmdErrors(content);
    ghost var upToCmd := errors;
    if !HasUserFrom(content, 0) {
      errors := errors + [UserMissing];
    }
    assert errors == upToCmd + UserErrors(content);
    FailedChecksSpec(content);
    JoinNonEmpty(errors);
    ok := |errors| == 0;
    message := if |errors| > 0 then JoinLines(errors) else "";
  }

  // ---------------------------------------------------------------------
  // enforce_best_practices, stage by stage

  /** A line that counts as creating a user: it mentions useradd, adduser,
      or USER anywhere (case-sensitive). */
  predicate MentionsUserSetup(line: string) {
    Contains(line, "useradd") || Contains(line, "adduser") || Contains(line, "USER")
  }

  /** The user creation entry goes before the first COPY, CMD or ENTRYPOINT
      line, or last, unless a line already mentions user setup. */
  function UserBlockStage(lines: seq<string>, a: Additions): seq<Entry> {
    var src := Tagged(lines, Source);
    if Any(lines, MentionsUserSetup) then src
    else PlaceBeforeFirst(src, Entry(a.userCreation, UserBlock), IsCopyCmdOrEntrypoint)
  }

  /** The CMD rewrite, then the USER line before the first CMD line unless
      an input line is a USER line. (The source also asks for the user
      creation flag, which is always set by then.) */
  function BeforeHealthcheck(lines: seq<string>, a: Additions): seq<Entry> {
    SwitchStep(FixCmds(UserBlockStage(lines, a), a.cmd), Any(lines, IsUserLine), a.user)
  }

  /** The HEALTHCHECK step: unless an INPUT line is a HEALTHCHECK line, x
      goes before the first CMD line, or last. */
  function HealthcheckStep(es: seq<Entry>, hasHealthcheck: bool, x: Entry): seq<Entry> {
    if hasHealthcheck then es else PlaceBeforeFirst(es, x, IsCmdLine)
  }

  /** The rewrite of the lines of a file, adding the lines of a. */
  function Rewrite(lines: seq<string>, a: Additions): seq<Entry> {
    HealthcheckStep(BeforeHealthcheck(lines, a), Any(lines, IsHealthcheckLine), Entry(a.healthcheck, Probe))
  }

  /** enforce_best_practices(content), line by line with provenance. */
  function Enforced(content: string, a: Additions): seq<Entry> {
    Rewrite(SplitLines(content), a)
  }

  // ---------------------------------------------------------------------
  // The method

  /** The lines enforce_best_practices(content) joins, adding the lines of
      a. */
  method EnforcedLines(content: string, a: Additions) returns (newLines: seq<string>)
    ensures newLines == Texts(Enforced(content, a))
  {
    var lines := SplitLines(content);
    var hasUser := Any(lines, IsUserLine);
    var hasHealthcheck := Any(lines, IsHealthcheckLine);
    var hasUserCreation := Any(lines, MentionsUserSetup);
    ghost var es := Tagged(lines, Source);
    TextsTagged(lines, Source);
    var staged := lines;
    if !hasUserCreation {
      staged := PlaceBeforeFirstLines(lines, a.userCreation, IsCopyCmdOrEntrypoint, es, UserBlock);
      es := PlaceBeforeFirst(es, Entry(a.userCreation, UserBlock), IsCopyCmdOrEntrypoint);
      hasUserCreation := true;
    }
    newLines := FixCmdLoop(staged, a.cmd);
    TextsFixCmds(es, a.cmd);
    es := FixCmds(es, a.cmd);
    if !hasUser && hasUserCreation {
      newLines := InsertBeforeFirstLines(newLines, a.user, IsCmdLine, es, UserSwitch);
    }
    es := SwitchStep(es, hasUser, a.user);
    if !hasHealthcheck {
      newLines := PlaceBeforeFirstLines(newLines, a.healthcheck, IsCmdLine, es, Probe);
    }
  }

  /** enforce_best_practices(content): the rewrite with the fixer's own
      lines. */
  method EnforceBestPractices(content: string) returns (fixed: string)
    ensures fixed == JoinLines(Texts(Enforced(content, Eureka)))
  {
    var newLines := EnforcedLines(content, Eureka);
    fixed := JoinLines(newLines);
  }
}
