/** What enforce_best_practices of the eureka-service fixer guarantees: the
    input lines survive in order with only their CMD lines rewritten, every
    CMD line ends in exec form, a HEALTHCHECK is always present, and
    exactly the entries the input calls for are added, each where the fixer
    puts it. The lemmas hold for any added lines that fit their roles. */
module EurekaProperties {
  import opened SeqUtil
  import opened PyText
  import opened DockerfileCommon
  import opened DockerfileRewrite
  import opened EurekaLines
  import opened EurekaFixer

  /** How many entries of origin o the rewrite adds to or keeps from lines:
      the input lines, one user creation entry unless a line mentions user
      setup, one USER line when no line is a USER line but one is a CMD line
      to put it before, and one HEALTHCHECK line when no input line is a
      HEALTHCHECK line. */
  function Added(lines: seq<string>, o: Origin): nat {
    AddedBefore(lines, o) + (if o == Probe && !Any(lines, IsHealthcheckLine) then 1 else 0)
  }

  /** The same, up to the HEALTHCHECK step. */
  function AddedBefore(lines: seq<string>, o: Origin): nat {
    (if o == Source then |lines| else 0) +
    (if o == UserBlock && !Any(lines, MentionsUserSetup) then 1 else 0) +
    (if o == UserSwitch && !Any(lines, IsUserLine) && Any(lines, IsCmdLine) then 1 else 0)
  }

  // ---------------------------------------------------------------------
  // The user creation stage

  lemma UserBlockStageKeeps(lines: seq<string>, a: Additions, o: Origin)
    ensures SourceTexts(UserBlockStage(lines, a)) == lines
    ensures Count(UserBlockStage(lines, a), From(o)) ==
      (if o == Source then |lines| else 0) + (if o == UserBlock && !Any(lines, MentionsUserSetup) then 1 else 0)
  {
    var src := Tagged(lines, Source);
    SourceTextsTagged(lines);
    CountTagged(lines, Source, o);
    if !Any(lines, MentionsUserSetup) {
      PlaceBeforeFirstKeeps(src, Entry(a.userCreation, UserBlock), IsCopyCmdOrEntrypoint, o);
    }
  }

  /** A test q that misses the user creation entry sees the same lines
      after the stage as before it. */
  lemma UserBlockStageAny(lines: seq<string>, a: Additions, q: string -> bool)
    requires !q(a.userCreation)
    ensures Any(Texts(UserBlockStage(lines, a)), q) == Any(lines, q)
  {
    var src := Tagged(lines, Source);
    TextsTagged(lines, Source);
    if !Any(lines, MentionsUserSetup) {
      AnyPlaceBeforeFirst(src, Entry(a.userCreation, UserBlock), IsCopyCmdOrEntrypoint, q);
    }
  }

  /** Unless a line mentions user setup, the user creation entry goes just
      before the first COPY, CMD or ENTRYPOINT line, or last. */
  lemma UserBlockPlaced(lines: seq<string>, a: Additions)
    requires PlainBlock(a) && !Any(lines, MentionsUserSetup)
    ensures exists u :: PlacedBeforeFirst(UserBlockStage(lines, a), u, Entry(a.userCreation, UserBlock), IsCopyCmdOrEntrypoint)
  {
    var src := Tagged(lines, Source);
    var x := Entry(a.userCreation, UserBlock);
    assert UserBlockStage(lines, a) == PlaceBeforeFirst(src, x, IsCopyCmdOrEntrypoint);
    PlaceBeforeFirstSpec(src, x, IsCopyCmdOrEntrypoint);
  }

  // ---------------------------------------------------------------------
  // Up to the HEALTHCHECK step

  /** The CMD lines are where the user creation stage left them: the CMD
      rewrite keeps the CMD test's answer on every line. */
  lemma FixedStageAny(lines: seq<string>, a: Additions, q: string -> bool)
    requires PlainBlock(a) && IsExecDefault(a.cmd)
    requires q == IsCmdLine || q == IsHealthcheckLine
    ensures Any(Texts(FixCmds(UserBlockStage(lines, a), a.cmd)), q) == Any(lines, q)
  {
    var b := UserBlockStage(lines, a);
    UserBlockStageAny(lines, a, q);
    FixEntryKeeps(b, a.cmd);
    AnyTextsMap(b, FixEntryBy(a.cmd), q);
  }

  lemma BeforeHealthcheckKeeps(lines: seq<string>, a: Additions)
    ensures SourceTexts(BeforeHealthcheck(lines, a)) == FixCmdLines(lines, a.cmd)
  {
    var b := UserBlockStage(lines, a);
    UserBlockStageKeeps(lines, a, Source);
    SourceTextsFixCmds(b, a.cmd);
    SwitchStepKeeps(FixCmds(b, a.cmd), Any(lines, IsUserLine), a.user, Source);
  }

  lemma BeforeHealthcheckCount(lines: seq<string>, a: Additions, o: Origin)
    requires PlainBlock(a) && IsExecDefault(a.cmd)
    ensures Count(BeforeHealthcheck(lines, a), From(o)) == AddedBefore(lines, o)
  {
    var b := UserBlockStage(lines, a);
    var f := FixCmds(b, a.cmd);
    UserBlockStageKeeps(lines, a, o);
    CountFixCmds(b, a.cmd, o);
    FixedStageAny(lines, a, IsCmdLine);
    SwitchStepKeeps(f, Any(lines, IsUserLine), a.user, o);
  }

  // ---------------------------------------------------------------------
  // The whole rewrite

  /** The input lines survive, in order, with only their CMD lines
      rewritten. */
  lemma RewriteKeepsSource(lines: seq<string>, a: Additions)
    ensures SourceTexts(Rewrite(lines, a)) == FixCmdLines(lines, a.cmd)
  {
    var es := BeforeHealthcheck(lines, a);
    BeforeHealthcheckKeeps(lines, a);
    if !Any(lines, IsHealthcheckLine) {
      PlaceBeforeFirstKeeps(es, Entry(a.healthcheck, Probe), IsCmdLine, Source);
    }
  }

  /** The HEALTHCHECK step adds x exactly when the input has no
      HEALTHCHECK line. */
  lemma HealthcheckStepCount(es: seq<Entry>, hasHealthcheck: bool, x: Entry, o: Origin)
    requires x.origin != Source
    ensures Count(HealthcheckStep(es, hasHealthcheck, x), From(o)) ==
      Count(es, From(o)) + (if o == x.origin && !hasHealthcheck then 1 else 0)
  {
    if !hasHealthcheck {
      PlaceBeforeFirstKeeps(es, x, IsCmdLine, o);
    }
  }

  /** How many entries of each origin the result has. */
  lemma RewriteCount(lines: seq<string>, a: Additions, o: Origin)
    requires PlainBlock(a) && IsExecDefault(a.cmd)
    ensures Count(Rewrite(lines, a), From(o)) == Added(lines, o)
  {
    BeforeHealthcheckCount(lines, a, o);
    HealthcheckStepCount(BeforeHealthcheck(lines, a), Any(lines, IsHealthcheckLine), Entry(a.healthcheck, Probe), o);
  }

  /** Every CMD line of the result is in exec form. */
  lemma RewriteCmdsExec(lines: seq<string>, a: Additions)
    requires IsExecDefault(a.cmd) && !IsCmdLine(a.user) && IsProbeText(a.healthcheck)
    ensures AllTexts(Rewrite(lines, a), CmdIsExec)
  {
    var f := FixCmds(UserBlockStage(lines, a), a.cmd);
    FixCmdsExec(UserBlockStage(lines, a), a.cmd);
    if !Any(lines, IsUserLine) {
      AllAddBeforeFirst(f, Entry(a.user, UserSwitch), IsCmdLine, CmdIsExec);
    }
    if !Any(lines, IsHealthcheckLine) {
      AllPlaceBeforeFirst(BeforeHealthcheck(lines, a), Entry(a.healthcheck, Probe), IsCmdLine, CmdIsExec);
    }
  }

  /** The result always has a HEALTHCHECK line: the input's, kept, or the
      one added. */
  lemma RewriteHasHealthcheck(lines: seq<string>, a: Additions)
    requires PlainBlock(a) && SwitchesUser(a.user) && IsExecDefault(a.cmd) && IsProbeText(a.healthcheck)
    ensures Any(Texts(Rewrite(lines, a)), IsHealthcheckLine)
  {
    if Any(lines, IsHealthcheckLine) {
      HealthcheckKept(lines, a);
    } else {
      HealthcheckAdded(lines, a);
    }
  }

  lemma HealthcheckKept(lines: seq<string>, a: Additions)
    requires PlainBlock(a) && SwitchesUser(a.user) && IsExecDefault(a.cmd)
    requires Any(lines, IsHealthcheckLine)
    ensures Any(Texts(BeforeHealthcheck(lines, a)), IsHealthcheckLine)
  {
    FixedStageAny(lines, a, IsHealthcheckLine);
    SwitchStepAny(FixCmds(UserBlockStage(lines, a), a.cmd), Any(lines, IsUserLine), a.user, IsHealthcheckLine);
  }

  lemma HealthcheckAdded(lines: seq<string>, a: Additions)
    requires IsProbeText(a.healthcheck) && !Any(lines, IsHealthcheckLine)
    ensures Any(Texts(Rewrite(lines, a)), IsHealthcheckLine)
  {
    var es := BeforeHealthcheck(lines, a);
    var x := Entry(a.healthcheck, Probe);
    var k := PlacePos(es, IsCmdLine);
    PlaceBeforeFirstIsInsert(es, x, IsCmdLine);
    assert Rewrite(lines, a) == Insert(es, k, [x]);
    assert Texts(Rewrite(lines, a))[k] == x.text;
  }

  /** A file with no HEALTHCHECK line gets the added one just before its
      first CMD line, or last when it has none. */
  lemma RewriteHealthcheckPlaced(lines: seq<string>, a: Additions)
    requires IsProbeText(a.healthcheck) && !Any(lines, IsHealthcheckLine)
    ensures exists u :: PlacedBeforeFirst(Rewrite(lines, a), u, Entry(a.healthcheck, Probe), IsCmdLine)
  {
    var es := BeforeHealthcheck(lines, a);
    var x := Entry(a.healthcheck, Probe);
    assert Rewrite(lines, a) == PlaceBeforeFirst(es, x, IsCmdLine);
    PlaceBeforeFirstSpec(es, x, IsCmdLine);
  }

  /** A file with a CMD line and no USER line gets `USER` in front of every
      CMD line of the result. */
  lemma RewriteUserPlaced(lines: seq<string>, a: Additions)
    requires PlainBlock(a) && SwitchesUser(a.user) && IsExecDefault(a.cmd) && IsProbeText(a.healthcheck)
    requires !Any(lines, IsUserLine) && Any(lines, IsCmdLine)
    ensures exists k :: PrecedesAll(Rewrite(lines, a), k, Entry(a.user, UserSwitch), IsCmdLine)
  {
    var f := FixCmds(UserBlockStage(lines, a), a.cmd);
    var y := Entry(a.user, UserSwitch);
    FixedStageAny(lines, a, IsCmdLine);
    SwitchStepPrecedes(f, a.user);
    var k := FirstWhere(Texts(f), IsCmdLine).value;
    var k' := k;
    if !Any(lines, IsHealthcheckLine) {
      k' := PlaceBeforeFirstPrecedes(BeforeHealthcheck(lines, a), k, y, Entry(a.healthcheck, Probe), IsCmdLine, IsCmdLine);
    }
    assert PrecedesAll(Rewrite(lines, a), k', y, IsCmdLine);
  }

  /** An input that already has a HEALTHCHECK line keeps it and gets no
      second one. */
  lemma RewriteNoSecondHealthcheck(lines: seq<string>, a: Additions)
    requires PlainBlock(a) && IsExecDefault(a.cmd) && Any(lines, IsHealthcheckLine)
    ensures Count(Rewrite(lines, a), From(Probe)) == 0
  {
    RewriteCount(lines, a, Probe);
  }

  // ---------------------------------------------------------------------
  // The fixer's own lines

  /** enforce_best_practices keeps the input lines in order with only CMD
      rewritten to the java default, every CMD line of its output is in
      exec form, and the output has a HEALTHCHECK line. */
  lemma EnforcedSpec(content: string)
    ensures SourceTexts(Enforced(content, Eureka)) == FixCmdLines(SplitLines(content), JavaCmd)
    ensures AllTexts(Enforced(content, Eureka), CmdIsExec)
    ensures Any(Texts(Enforced(content, Eureka)), IsHealthcheckLine)
  {
    EurekaFits();
    RewriteKeepsSource(SplitLines(content), Eureka);
    RewriteCmdsExec(SplitLines(content), Eureka);
    RewriteHasHealthcheck(SplitLines(content), Eureka);
  }
}
