/** What enforce_best_practices of the frontend fixer guarantees, stage by
    stage and for the whole rewrite: the input lines survive in order with
    only their CMD lines rewritten, every CMD line ends in exec form, a
    HEALTHCHECK is always present, and exactly the blocks the branch calls
    for are added, each where the fixer puts it. The lemmas hold for any
    added lines that fit their roles; the last ones apply them to
    the fixer's own lines. */
module FrontendProperties {
  import opened SeqUtil
  import opened PyText
  import opened DockerfileCommon
  import opened DockerfileRewrite
  import opened FrontendLines
  import opened FrontendFixer

  /** The USER line the branch adds. */
  function UserFor(isNginx: bool, a: Additions): string {
    if isNginx then a.nginxUser else a.appUser
  }

  /** How many lines of origin o the branch stage yields: the input lines,
      the block of the branch (the nginx fixes, or the user creation block
      unless a line already creates a user), and the USER line when the
      input has none but has a CMD line to put it before. */
  function BranchAdded(lines: seq<string>, isNginx: bool, a: Additions, o: Origin): nat {
    (if o == Source then |lines| else 0) +
    (if o == NginxFix && isNginx then |a.nginxFixes| else 0) +
    (if o == UserBlock && !isNginx && !Any(lines, MentionsUserCreation) then |a.userCreation| else 0) +
    (if o == UserSwitch && !Any(lines, IsUserLine) && Any(lines, IsCmdLine) then 1 else 0)
  }

  // ---------------------------------------------------------------------
  // The two steps of a branch, for any lines

  /** The block step: a block of plain lines of origin b goes in among the
      input lines. */
  lemma BlockStepCount(lines: seq<string>, k: nat, ls: seq<string>, b: Origin, o: Origin)
    requires k <= |lines| && AllPlain(ls) && b != Source
    ensures var es := Insert(Tagged(lines, Source), k, Tagged(ls, b));
      Count(es, From(o)) == (if o == Source then |lines| else 0) + (if o == b then |ls| else 0) &&
      Any(Texts(es), IsCmdLine) == Any(lines, IsCmdLine)
  {
    var src := Tagged(lines, Source);
    CountTagged(lines, Source, o);
    TextsTagged(lines, Source);
    CmdMissesPlain();
    CountInsertTagged(src, k, ls, b, o);
    AnyInsertPlain(src, k, ls, b, IsCmdLine);
  }

  // ---------------------------------------------------------------------
  // The nginx branch

  lemma NginxStageKeeps(lines: seq<string>, a: Additions)
    ensures SourceTexts(NginxStage(lines, a)) == lines
  {
    var src := Tagged(lines, Source);
    SourceTextsTagged(lines);
    var es := Insert(src, NginxFixesPos(lines), Tagged(a.nginxFixes, NginxFix));
    SourceTextsInsertTagged(src, NginxFixesPos(lines), a.nginxFixes, NginxFix);
    SwitchStepKeeps(es, Any(lines, IsUserLine), a.nginxUser, Source);
  }

  lemma NginxStageAny(lines: seq<string>, a: Additions, q: string -> bool)
    requires AllPlain(a.nginxFixes) && MissesPlain(q) && !q(a.nginxUser)
    ensures Any(Texts(NginxStage(lines, a)), q) == Any(lines, q)
  {
    var src := Tagged(lines, Source);
    TextsTagged(lines, Source);
    var es := Insert(src, NginxFixesPos(lines), Tagged(a.nginxFixes, NginxFix));
    AnyInsertPlain(src, NginxFixesPos(lines), a.nginxFixes, NginxFix, q);
    SwitchStepAny(es, Any(lines, IsUserLine), a.nginxUser, q);
  }

  lemma NginxStageCount(lines: seq<string>, a: Additions, o: Origin)
    requires AllPlain(a.nginxFixes)
    ensures Count(NginxStage(lines, a), From(o)) == BranchAdded(lines, true, a, o)
  {
    var es := Insert(Tagged(lines, Source), NginxFixesPos(lines), Tagged(a.nginxFixes, NginxFix));
    BlockStepCount(lines, NginxFixesPos(lines), a.nginxFixes, NginxFix, o);
    SwitchStepKeeps(es, Any(lines, IsUserLine), a.nginxUser, o);
  }

  // ---------------------------------------------------------------------
  // The other branch

  lemma AppStageKeeps(lines: seq<string>, a: Additions)
    ensures SourceTexts(AppStage(lines, a)) == lines
  {
    var src := Tagged(lines, Source);
    SourceTextsTagged(lines);
    var es := src;
    if !Any(lines, MentionsUserCreation) {
      es := Insert(src, UserCreationPos(lines), Tagged(a.userCreation, UserBlock));
      SourceTextsInsertTagged(src, UserCreationPos(lines), a.userCreation, UserBlock);
    }
    SwitchStepKeeps(es, Any(lines, IsUserLine), a.appUser, Source);
  }

  lemma AppStageAny(lines: seq<string>, a: Additions, q: string -> bool)
    requires AllPlain(a.userCreation) && MissesPlain(q) && !q(a.appUser)
    ensures Any(Texts(AppStage(lines, a)), q) == Any(lines, q)
  {
    var src := Tagged(lines, Source);
    TextsTagged(lines, Source);
    var es := src;
    if !Any(lines, MentionsUserCreation) {
      es := Insert(src, UserCreationPos(lines), Tagged(a.userCreation, UserBlock));
      AnyInsertPlain(src, UserCreationPos(lines), a.userCreation, UserBlock, q);
    }
    SwitchStepAny(es, Any(lines, IsUserLine), a.appUser, q);
  }

  lemma AppStageCount(lines: seq<string>, a: Additions, o: Origin)
    requires AllPlain(a.userCreation)
    ensures Count(AppStage(lines, a), From(o)) == BranchAdded(lines, false, a, o)
  {
    var src := Tagged(lines, Source);
    var es := src;
    var blockLines := 0;
    if Any(lines, MentionsUserCreation) {
      CountTagged(lines, Source, o);
      TextsTagged(lines, Source);
    } else {
      es := Insert(src, UserCreationPos(lines), Tagged(a.userCreation, UserBlock));
      BlockStepCount(lines, UserCreationPos(lines), a.userCreation, UserBlock, o);
      blockLines := if o == UserBlock then |a.userCreation| else 0;
    }
    assert Count(es, From(o)) == (if o == Source then |lines| else 0) + blockLines;
    assert Any(Texts(es), IsCmdLine) == Any(lines, IsCmdLine);
    SwitchStepKeeps(es, Any(lines, IsUserLine), a.appUser, o);
  }

  // ---------------------------------------------------------------------
  // Either branch

  lemma BranchKeepsSource(lines: seq<string>, isNginx: bool, a: Additions)
    ensures SourceTexts(BranchStage(lines, isNginx, a)) == lines
  {
    if isNginx { NginxStageKeeps(lines, a); } else { AppStageKeeps(lines, a); }
  }

  lemma BranchAny(lines: seq<string>, isNginx: bool, a: Additions, q: string -> bool)
    requires AllPlain(a.nginxFixes) && AllPlain(a.userCreation)
    requires MissesPlain(q) && !q(UserFor(isNginx, a))
    ensures Any(Texts(BranchStage(lines, isNginx, a)), q) == Any(lines, q)
  {
    if isNginx { NginxStageAny(lines, a, q); } else { AppStageAny(lines, a, q); }
  }

  lemma BranchCount(lines: seq<string>, isNginx: bool, a: Additions, o: Origin)
    requires AllPlain(a.nginxFixes) && AllPlain(a.userCreation)
    ensures Count(BranchStage(lines, isNginx, a), From(o)) == BranchAdded(lines, isNginx, a, o)
  {
    if isNginx { NginxStageCount(lines, a, o); } else { AppStageCount(lines, a, o); }
  }

  /** A file with a CMD line and no USER line gets the USER line of its
      branch in front of every CMD line. */
  lemma BranchUserPlaced(lines: seq<string>, isNginx: bool, a: Additions)
    requires AllPlain(a.nginxFixes) && AllPlain(a.userCreation) && !IsCmdLine(UserFor(isNginx, a))
    requires !Any(lines, IsUserLine) && Any(lines, IsCmdLine)
    ensures exists k :: PrecedesAll(BranchStage(lines, isNginx, a), k, Entry(UserFor(isNginx, a), UserSwitch), IsCmdLine)
  {
    var src := Tagged(lines, Source);
    TextsTagged(lines, Source);
    var es := src;
    if isNginx {
      es := Insert(src, NginxFixesPos(lines), Tagged(a.nginxFixes, NginxFix));
      BlockStepCount(lines, NginxFixesPos(lines), a.nginxFixes, NginxFix, Source);
    } else if !Any(lines, MentionsUserCreation) {
      es := Insert(src, UserCreationPos(lines), Tagged(a.userCreation, UserBlock));
      BlockStepCount(lines, UserCreationPos(lines), a.userCreation, UserBlock, Source);
    }
    SwitchStepPrecedes(es, UserFor(isNginx, a));
    var k := FirstWhere(Texts(es), IsCmdLine).value;
    assert BranchStage(lines, isNginx, a) == SwitchStep(es, false, UserFor(isNginx, a));
    assert PrecedesAll(BranchStage(lines, isNginx, a), k, Entry(UserFor(isNginx, a), UserSwitch), IsCmdLine);
  }

  // ---------------------------------------------------------------------
  // Up to the HEALTHCHECK step: the branch, the CMD rewrite, the sed line

  lemma BeforeHealthcheckKeeps(lines: seq<string>, isNginx: bool, a: Additions)
    ensures SourceTexts(BeforeHealthcheck(lines, isNginx, a)) == FixCmdLines(lines, DefaultFor(isNginx, a))
  {
    var b := BranchStage(lines, isNginx, a);
    var d := DefaultFor(isNginx, a);
    BranchKeepsSource(lines, isNginx, a);
    SourceTextsFixCmds(b, d);
    if isNginx {
      AddAfterFirstKeeps(FixCmds(b, d), Entry(a.sedLine, ConfSed), CopiesNginxConf, Source);
    }
  }

  /** No line added before the HEALTHCHECK step is a HEALTHCHECK line, so
      the step adds one exactly when the input has none. */
  lemma BeforeHealthcheckAny(lines: seq<string>, isNginx: bool, a: Additions)
    requires PlainAdditions(a) && UserSwitches(a) && IsExecDefault(DefaultFor(isNginx, a))
    ensures Any(Texts(BeforeHealthcheck(lines, isNginx, a)), IsHealthcheckLine) == Any(lines, IsHealthcheckLine)
  {
    var b := BranchStage(lines, isNginx, a);
    var d := DefaultFor(isNginx, a);
    HealthcheckMissesPlain();
    BranchAny(lines, isNginx, a, IsHealthcheckLine);
    FixEntryKeeps(b, d);
    AnyTextsMap(b, FixEntryBy(d), IsHealthcheckLine);
    if isNginx {
      AnyAddAfterFirst(FixCmds(b, d), Entry(a.sedLine, ConfSed), CopiesNginxConf, IsHealthcheckLine);
    }
  }

  /** The CMD rewrite adds nothing; the nginx branch adds the sed line when
      a line copies nginx.conf. */
  lemma BeforeHealthcheckCount(lines: seq<string>, isNginx: bool, a: Additions, o: Origin)
    requires AllPlain(a.nginxFixes) && AllPlain(a.userCreation)
    ensures var r := BeforeHealthcheck(lines, isNginx, a);
      Count(r, From(o)) == BranchAdded(lines, isNginx, a, o) +
        (if o == ConfSed && isNginx && Any(Texts(r), CopiesNginxConf) then 1 else 0)
  {
    var b := BranchStage(lines, isNginx, a);
    var d := DefaultFor(isNginx, a);
    var f := FixCmds(b, d);
    BranchCount(lines, isNginx, a, o);
    CountFixCmds(b, d, o);
    if isNginx {
      var x := Entry(a.sedLine, ConfSed);
      AddAfterFirstKeeps(f, x, CopiesNginxConf, o);
      if Any(Texts(f), CopiesNginxConf) {
        AddAfterFirstPlaced(f, x, CopiesNginxConf);
        var r := AddAfterFirst(f, x, CopiesNginxConf);
        var c := FirstWhere(Texts(f), CopiesNginxConf).value;
        assert Texts(r)[c] == r[c].text;
      }
    }
  }

  /** In the nginx branch, when a line copies nginx.conf, the sed line
      comes right after the first such line. */
  lemma SedPlaced(lines: seq<string>, a: Additions)
    ensures var r := BeforeHealthcheck(lines, true, a);
      Any(Texts(r), CopiesNginxConf) ==>
        exists c :: RightAfterFirst(r, c, Entry(a.sedLine, ConfSed), CopiesNginxConf)
  {
    var f := FixCmds(BranchStage(lines, true, a), a.nginxCmd);
    if Any(Texts(f), CopiesNginxConf) {
      AddAfterFirstPlaced(f, Entry(a.sedLine, ConfSed), CopiesNginxConf);
    }
  }

  /** The CMD rewrite keeps a line that is not a CMD line in front of
      every CMD line. */
  lemma FixCmdsPrecedes(es: seq<Entry>, k: nat, x: Entry, d: string)
    requires PrecedesAll(es, k, x, IsCmdLine) && !IsCmdLine(x.text) && IsExecDefault(d)
    ensures PrecedesAll(FixCmds(es, d), k, x, IsCmdLine)
  {
    FixEntryKeeps(es, d);
    FixEntryPlain(x, d);
    PrecedesAllMap(es, k, x, IsCmdLine, FixEntryBy(d));
  }

  /** Adding a line y that q does not pick, right after the first line
      passing p, keeps x in front of every line passing q, at k or one
      further down. */
  lemma AddAfterFirstPrecedes(es: seq<Entry>, k: nat, x: Entry, y: Entry, p: string -> bool, q: string -> bool)
    returns (k': nat)
    requires PrecedesAll(es, k, x, q) && !q(y.text)
    ensures PrecedesAll(AddAfterFirst(es, y, p), k', x, q)
  {
    match FirstWhere(Texts(es), p)
    case None =>
      AddAfterFirstNone(es, y, p);
      PrecedesAllSame(es, AddAfterFirst(es, y, p), k, x, q);
      k' := k;
    case Some(c) =>
      AddAfterFirstAt(es, y, p, c);
      PrecedesAllInsertOne(es, k, x, q, c + 1, y);
      k' := if c + 1 <= k then k + 1 else k;
      PrecedesAllSame(Insert(es, c + 1, [y]), AddAfterFirst(es, y, p), k', x, q);
  }

  lemma PrecedesAllSame(es: seq<Entry>, t: seq<Entry>, k: nat, x: Entry, q: string -> bool)
    requires t == es && PrecedesAll(es, k, x, q)
    ensures PrecedesAll(t, k, x, q)
  {
  }

  lemma PrecedesAllInsertOne(es: seq<Entry>, u: nat, x: Entry, q: string -> bool, k: nat, y: Entry)
    requires PrecedesAll(es, u, x, q) && k <= |es| && !q(y.text)
    ensures PrecedesAll(Insert(es, k, [y]), if k <= u then u + 1 else u, x, q)
  {
    PrecedesAllInsert(es, u, x, q, k, [y]);
  }

  /** The USER line stays in front of every CMD line through the CMD
      rewrite and the sed line. */
  lemma BeforeHealthcheckUserPlaced(lines: seq<string>, isNginx: bool, a: Additions)
    requires PlainAdditions(a) && UserSwitches(a) && IsExecDefault(DefaultFor(isNginx, a))
    requires !Any(lines, IsUserLine) && Any(lines, IsCmdLine)
    ensures exists k :: PrecedesAll(BeforeHealthcheck(lines, isNginx, a), k, Entry(UserFor(isNginx, a), UserSwitch), IsCmdLine)
  {
    var b := BranchStage(lines, isNginx, a);
    var d := DefaultFor(isNginx, a);
    var x := Entry(UserFor(isNginx, a), UserSwitch);
    BranchUserPlaced(lines, isNginx, a);
    var k :| PrecedesAll(b, k, x, IsCmdLine);
    FixCmdsPrecedes(b, k, x, d);
    var f := FixCmds(b, d);
    if isNginx {
      var k' := AddAfterFirstPrecedes(f, k, x, Entry(a.sedLine, ConfSed), CopiesNginxConf, IsCmdLine);
      assert PrecedesAll(BeforeHealthcheck(lines, isNginx, a), k', x, IsCmdLine);
    } else {
      assert PrecedesAll(BeforeHealthcheck(lines, isNginx, a), k, x, IsCmdLine);
    }
  }

  // ---------------------------------------------------------------------
  // The HEALTHCHECK step, for any lines before it

  lemma HealthcheckStepKeeps(es: seq<Entry>, x: Entry, o: Origin)
    requires x.origin != Source
    ensures SourceTexts(HealthcheckStep(es, x)) == SourceTexts(es)
    ensures Count(HealthcheckStep(es, x), From(o)) ==
      Count(es, From(o)) + (if o == x.origin && !Any(Texts(es), IsHealthcheckLine) then 1 else 0)
  {
    if !Any(Texts(es), IsHealthcheckLine) {
      PlaceBeforeFirstKeeps(es, x, IsCmdLine, o);
    }
  }

  lemma HealthcheckStepAll(es: seq<Entry>, x: Entry, q: string -> bool)
    requires AllTexts(es, q) && q(x.text)
    ensures AllTexts(HealthcheckStep(es, x), q)
  {
    if !Any(Texts(es), IsHealthcheckLine) {
      AllPlaceBeforeFirst(es, x, IsCmdLine, q);
    }
  }

  /** After the step some line is a HEALTHCHECK line. */
  lemma HealthcheckStepHas(es: seq<Entry>, x: Entry)
    requires IsHealthcheckLine(x.text)
    ensures Any(Texts(HealthcheckStep(es, x)), IsHealthcheckLine)
  {
    if !Any(Texts(es), IsHealthcheckLine) {
      var k := PlacePos(es, IsCmdLine);
      PlaceBeforeFirstIsInsert(es, x, IsCmdLine);
      assert Texts(HealthcheckStep(es, x))[k] == x.text;
    }
  }

  lemma HealthcheckStepPrecedes(es: seq<Entry>, k: nat, y: Entry, x: Entry, q: string -> bool)
    returns (k': nat)
    requires PrecedesAll(es, k, y, q) && !q(x.text)
    ensures PrecedesAll(HealthcheckStep(es, x), k', y, q)
  {
    if Any(Texts(es), IsHealthcheckLine) {
      k' := k;
    } else {
      k' := PlaceBeforeFirstPrecedes(es, k, y, x, IsCmdLine, q);
    }
  }

  // ---------------------------------------------------------------------
  // The whole rewrite

  /** The input lines survive, in order, with only their CMD lines
      rewritten. */
  lemma RewriteKeepsSource(lines: seq<string>, isNginx: bool, a: Additions, x: Entry)
    requires IsProbe(x)
    ensures SourceTexts(Rewrite(lines, isNginx, a, x)) == FixCmdLines(lines, DefaultFor(isNginx, a))
  {
    BeforeHealthcheckKeeps(lines, isNginx, a);
    HealthcheckStepKeeps(BeforeHealthcheck(lines, isNginx, a), x, Source);
  }

  /** Every CMD line of the result is in exec form. */
  lemma RewriteCmdsExec(lines: seq<string>, isNginx: bool, a: Additions, x: Entry)
    requires PlainAdditions(a) && ExecDefaults(a) && IsProbe(x)
    ensures AllTexts(Rewrite(lines, isNginx, a, x), CmdIsExec)
  {
    var b := BranchStage(lines, isNginx, a);
    var d := DefaultFor(isNginx, a);
    FixCmdsExec(b, d);
    if isNginx {
      AllAddAfterFirst(FixCmds(b, d), Entry(a.sedLine, ConfSed), CopiesNginxConf, CmdIsExec);
    }
    HealthcheckStepAll(BeforeHealthcheck(lines, isNginx, a), x, CmdIsExec);
  }

  /** The result always has a HEALTHCHECK line. */
  lemma RewriteHasHealthcheck(lines: seq<string>, isNginx: bool, a: Additions, x: Entry)
    requires IsProbe(x)
    ensures Any(Texts(Rewrite(lines, isNginx, a, x)), IsHealthcheckLine)
  {
    HealthcheckStepHas(BeforeHealthcheck(lines, isNginx, a), x);
  }

  /** How many lines of each origin the result has: those of the branch,
      the sed line when a line copies nginx.conf, and the HEALTHCHECK line
      exactly when the input has none. */
  lemma RewriteCount(lines: seq<string>, isNginx: bool, a: Additions, x: Entry, o: Origin)
    requires PlainAdditions(a) && UserSwitches(a) && ExecDefaults(a) && IsProbe(x)
    ensures Count(Rewrite(lines, isNginx, a, x), From(o)) == BranchAdded(lines, isNginx, a, o) +
      (if o == ConfSed && isNginx && Any(Texts(BeforeHealthcheck(lines, isNginx, a)), CopiesNginxConf) then 1 else 0) +
      (if o == Probe && !Any(lines, IsHealthcheckLine) then 1 else 0)
  {
    BeforeHealthcheckCount(lines, isNginx, a, o);
    BeforeHealthcheckAny(lines, isNginx, a);
    HealthcheckStepKeeps(BeforeHealthcheck(lines, isNginx, a), x, o);
  }

  /** A file without a HEALTHCHECK line gets x just before its first CMD
      line, or last when it has none. */
  lemma RewriteHealthcheckPlaced(lines: seq<string>, isNginx: bool, a: Additions, x: Entry)
    requires PlainAdditions(a) && UserSwitches(a) && ExecDefaults(a) && IsProbe(x)
    requires !Any(lines, IsHealthcheckLine)
    ensures exists u :: PlacedBeforeFirst(Rewrite(lines, isNginx, a, x), u, x, IsCmdLine)
  {
    var es := BeforeHealthcheck(lines, isNginx, a);
    BeforeHealthcheckAny(lines, isNginx, a);
    assert Rewrite(lines, isNginx, a, x) == PlaceBeforeFirst(es, x, IsCmdLine);
    PlaceBeforeFirstSpec(es, x, IsCmdLine);
  }

  /** A file with a CMD line and no USER line gets the USER line of its
      branch in front of every CMD line of the result. */
  lemma RewriteUserPlaced(lines: seq<string>, isNginx: bool, a: Additions, x: Entry)
    requires PlainAdditions(a) && UserSwitches(a) && ExecDefaults(a) && IsProbe(x)
    requires !Any(lines, IsUserLine) && Any(lines, IsCmdLine)
    ensures exists k :: PrecedesAll(Rewrite(lines, isNginx, a, x), k, Entry(UserFor(isNginx, a), UserSwitch), IsCmdLine)
  {
    var es := BeforeHealthcheck(lines, isNginx, a);
    var y := Entry(UserFor(isNginx, a), UserSwitch);
    BeforeHealthcheckUserPlaced(lines, isNginx, a);
    var k :| PrecedesAll(es, k, y, IsCmdLine);
    var k' := HealthcheckStepPrecedes(es, k, y, x, IsCmdLine);
    assert PrecedesAll(Rewrite(lines, isNginx, a, x), k', y, IsCmdLine);
  }

  // ---------------------------------------------------------------------
  // The fixer's own lines

  /** With the fixer's own lines, the rewrite keeps the input lines in
      order with only CMD rewritten to the branch's default, every CMD line
      of its output is in exec form, and the output has a HEALTHCHECK
      line. */
  lemma FrontendRewriteSpec(lines: seq<string>, isNginx: bool, x: Entry)
    requires IsProbe(x)
    ensures SourceTexts(Rewrite(lines, isNginx, Frontend, x)) ==
      FixCmdLines(lines, if isNginx then NginxCmd else JavaCmd)
    ensures AllTexts(Rewrite(lines, isNginx, Frontend, x), CmdIsExec)
    ensures Any(Texts(Rewrite(lines, isNginx, Frontend, x)), IsHealthcheckLine)
  {
    FrontendFits();
    RewriteKeepsSource(lines, isNginx, Frontend, x);
    RewriteCmdsExec(lines, isNginx, Frontend, x);
    RewriteHasHealthcheck(lines, isNginx, Frontend, x);
  }
}
