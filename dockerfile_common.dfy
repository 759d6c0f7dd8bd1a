/** What the two Dockerfile fixers (frontend/Dockerfilesfixer.py and
    backend/eureka-service/Dockerfilesfixer.py) share: the regular
    expressions they both use, written as character-level predicates with
    Python `re` semantics; `extract_original_images`; `clean_dockerfile`,
    which differs between the two only in the default CMD (parameter
    `nginxAware`); and the step of `analyze_and_fix` that re-inserts lost
    FROM images. */
module DockerfileCommon {
  import opened SeqUtil
  import opened PyText

  // ---------------------------------------------------------------------
  // Regular-expression building blocks

  /** End of the run of `\s` characters that starts at i (greedy `\s*`). */
  function SpaceRunEnd(s: string, i: nat): (j: nat)
    requires i <= |s|
    ensures i <= j <= |s| && (j < |s| ==> !IsSpace(s[j]))
    ensures forall k :: i <= k < j ==> IsSpace(s[k])
    decreases |s| - i
  {
    if i < |s| && IsSpace(s[i]) then SpaceRunEnd(s, i + 1) else i
  }

  /** End of the run of `\S` characters that starts at i (greedy `[^\s]*`). */
  function TokenEnd(s: string, i: nat): (j: nat)
    requires i <= |s|
    ensures i <= j <= |s| && (j < |s| ==> IsSpace(s[j]))
    ensures forall k :: i <= k < j ==> !IsSpace(s[k])
    decreases |s| - i
  {
    if i < |s| && !IsSpace(s[i]) then TokenEnd(s, i + 1) else i
  }

  /** End of the run of digits that starts at i (greedy `\d*`). */
  function DigitRunEnd(s: string, i: nat): (j: nat)
    requires i <= |s|
    ensures i <= j <= |s| && (j < |s| ==> !IsDigit(s[j]))
    ensures forall k :: i <= k < j ==> IsDigit(s[k])
    decreases |s| - i
  {
    if i < |s| && IsDigit(s[i]) then DigitRunEnd(s, i + 1) else i
  }

  /** The literal lit occurs in s at position p. */
  predicate LiteralAt(s: string, p: nat, lit: string) {
    p + |lit| <= |s| && s[p..p + |lit|] == lit
  }

  /** Where `^` matches under re.MULTILINE: the start, or just after '\n'. */
  predicate AtLineStart(s: string, p: nat)
    requires p <= |s|
  {
    p == 0 || s[p - 1] == '\n'
  }

  /** A non-empty run of non-whitespace characters: what `([^\s]+)` captures. */
  predicate IsImageToken(t: string) {
    t != [] && forall k :: 0 <= k < |t| ==> !IsSpace(t[k])
  }

  datatype Span = Span(start: nat, end: nat)

  // ---------------------------------------------------------------------
  // extract_original_images: re.findall(r'^FROM\s+([^\s]+)', content, re.MULTILINE)

  /** The match of `^FROM\s+([^\s]+)` at p, as the span of the captured
      group. `\s+` is greedy and may run over '\n'; since `[^\s]` excludes
      every `\s` character, backtracking never changes the outcome. */
  function FromMatchAt(s: string, p: nat): (m: Option<Span>)
    requires p <= |s|
    ensures m.Some? ==> AtLineStart(s, p) && LiteralAt(s, p, "FROM")
    ensures m.Some? ==> p + 4 < m.value.start < m.value.end <= |s|
    ensures m.Some? ==> forall k :: p + 4 <= k < m.value.start ==> IsSpace(s[k])
    ensures m.Some? ==> IsImageToken(s[m.value.start..m.value.end])
    ensures m.Some? ==> m.value.end == |s| || IsSpace(s[m.value.end])
    ensures m.None? && AtLineStart(s, p) && LiteralAt(s, p, "FROM") ==>
      p + 4 == |s| || !IsSpace(s[p + 4]) || SpaceRunEnd(s, p + 4) == |s|
  {
    if AtLineStart(s, p) && LiteralAt(s, p, "FROM") then
      var w := SpaceRunEnd(s, p + 4);
      var t := if w > p + 4 then TokenEnd(s, w) else w;
      if w > p + 4 && t > w then Some(Span(w, t)) else None
    else None
  }

  /** re.findall from position p: try a match at each position in turn and,
      after a match, resume where it ended. Every result is a token. */
  function FindAllFrom(s: string, p: nat): (imgs: seq<string>)
    requires p <= |s|
    ensures forall i :: 0 <= i < |imgs| ==> IsImageToken(imgs[i])
    decreases |s| - p
  {
    if p == |s| then []
    else match FromMatchAt(s, p)
      case Some(m) => [s[m.start..m.end]] + FindAllFrom(s, m.end)
      case None => FindAllFrom(s, p + 1)
  }

  /** extract_original_images as written: the pattern over the whole content.
      Because `\s+` crosses '\n', a bare `FROM` line takes the first word of
      the next non-blank line as its image (see FromCrossesLines). */
  function ExtractImagesAsWritten(content: string): (imgs: seq<string>)
    ensures forall i :: 0 <= i < |imgs| ==> IsImageToken(imgs[i])
  {
    FindAllFrom(content, 0)
  }

  /** The images of a list of lines: the same pattern applied to each line on
      its own, so that an image is always taken from its own FROM line. */
  function ImagesOfLines(ls: seq<string>): (imgs: seq<string>)
    ensures forall i :: 0 <= i < |imgs| ==> IsImageToken(imgs[i])
  {
    if ls == [] then [] else FindAllFrom(ls[0], 0) + ImagesOfLines(ls[1..])
  }

  /** extract_original_images, corrected: the images of content.splitlines(). */
  function ExtractImages(content: string): (imgs: seq<string>)
    ensures forall i :: 0 <= i < |imgs| ==> IsImageToken(imgs[i])
  {
    ImagesOfLines(SplitLines(content))
  }

  /** Inside one line, `^` matches only at 0, so findall finds nothing after it. */
  lemma {:induction false} NoMatchPastLineStart(l: string, p: nat)
    requires 0 < p <= |l|
    requires forall k :: 0 <= k < |l| ==> l[k] != '\n'
    ensures FindAllFrom(l, p) == []
    decreases |l| - p
  {
    if p < |l| {
      assert l[p - 1] != '\n';
      NoMatchPastLineStart(l, p + 1);
    }
  }

  /** On a single line, findall yields at most the token after its leading FROM. */
  lemma LineImages(l: string)
    requires forall k :: 0 <= k < |l| ==> l[k] != '\n'
    ensures FindAllFrom(l, 0) ==
      match FromMatchAt(l, 0)
      case Some(m) => [l[m.start..m.end]]
      case None => []
  {
    if |l| > 0 {
      match FromMatchAt(l, 0)
      case Some(m) => NoMatchPastLineStart(l, m.end);
      case None => NoMatchPastLineStart(l, 1);
    }
  }

  /** A line `FROM <img>` yields exactly img. */
  lemma FromLineImage(img: string)
    requires IsImageToken(img)
    ensures FindAllFrom("FROM " + img, 0) == [img]
  {
    var l := "FROM " + img;
    assert l[..4] == "FROM";
    forall k | 0 <= k < |l| ensures l[k] != '\n' {
      if k >= 5 { assert l[k] == img[k - 5]; }
    }
    assert l[5] == img[0];
    assert SpaceRunEnd(l, 4) == 5;
    forall k | 5 <= k < |l| ensures !IsSpace(l[k]) {
      assert l[k] == img[k - 5];
    }
    assert TokenEnd(l, 5) == |l|;
    assert l[5..] == img;
    assert l[0..4] == "FROM";
    assert FromMatchAt(l, 0) == Some(Span(5, |l|));
    LineImages(l);
    assert FindAllFrom(l, 0) == [l[5..|l|]];
    assert l[5..|l|] == img;
  }

  lemma {:induction false} ImagesOfLinesAppend(a: seq<string>, b: seq<string>)
    ensures ImagesOfLines(a + b) == ImagesOfLines(a) + ImagesOfLines(b)
  {
    if a == [] {
      assert a + b == b;
    } else {
      assert (a + b)[1..] == a[1..] + b;
      ImagesOfLinesAppend(a[1..], b);
    }
  }

  lemma {:induction false} ImagesOfFromLines(imgs: seq<string>)
    requires forall i :: 0 <= i < |imgs| ==> IsImageToken(imgs[i])
    ensures ImagesOfLines(FromLines(imgs)) == imgs
  {
    if imgs != [] {
      FromLineImage(imgs[0]);
      assert FromLines(imgs)[1..] == FromLines(imgs[1..]);
      ImagesOfFromLines(imgs[1..]);
    }
  }

  lemma ImagesDropTrailingEmpty(ls: seq<string>)
    ensures ImagesOfLines(DropTrailingEmpty(ls)) == ImagesOfLines(ls)
  {
    if ls != [] && ls[|ls| - 1] == "" {
      var init := ls[..|ls| - 1];
      assert ls == init + [""];
      ImagesOfLinesAppend(init, [""]);
    }
  }

  /** As written, a bare `FROM` line swallows the next line: "FROM\nRUN x"
      reports the image "RUN", where the corrected extraction reports none. */
  lemma FromCrossesLines()
    ensures ExtractImagesAsWritten("FROM\nRUN x") == ["RUN"]
    ensures ExtractImages("FROM\nRUN x") == []
  {
    AsWrittenReadsNextLine();
    LineByLineReadsNone();
  }

  lemma AsWrittenReadsNextLine()
    ensures ExtractImagesAsWritten("FROM\nRUN x") == ["RUN"]
  {
    var s := "FROM\nRUN x";
    assert s[..4] == "FROM";
    assert SpaceRunEnd(s, 4) == 5;
    assert TokenEnd(s, 5) == 8;
    assert s[5..8] == "RUN";
    assert FromMatchAt(s, 0) == Some(Span(5, 8));
    assert FromMatchAt(s, 8).None? && FromMatchAt(s, 9).None?;
    assert FindAllFrom(s, 8) == [];
  }

  lemma SplitFromRun()
    ensures SplitLines("FROM\nRUN x") == ["FROM", "RUN x"]
  {
    var s := "FROM\nRUN x";
    var l0, l1 := "FROM", "RUN x";
    assert LineEnd(s, 0) == 4;
    assert s[..4] == l0 && s[5..] == l1;
    assert LineEnd(l1, 0) == 5;
    assert l1[..5] == l1 && l1[5..] == [];
  }

  lemma LineByLineReadsNone()
    ensures ExtractImages("FROM\nRUN x") == []
  {
    SplitFromRun();
    NoImageIn("FROM");
    NoImageIn("RUN x");
    assert ["FROM", "RUN x"][1..] == ["RUN x"];
  }

  /** Neither line of the example starts with a FROM match. */
  lemma NoImageIn(l: string)
    requires l == "FROM" || l == "RUN x"
    ensures FindAllFrom(l, 0) == []
  {
    LineImages(l);
  }

  // ---------------------------------------------------------------------
  // clean_dockerfile

  /** No quote character in s[i..]: what `[^"\']*$` requires of the rest. */
  predicate QuoteFreeFrom(s: string, i: nat) {
    forall k :: i <= k < |s| ==> s[k] != '"' && s[k] != '\''
  }

  /** `\s*#[^"\']*$` matches at p (the lines it is applied to hold no '\n',
      so `$` is the end of the line). */
  predicate CommentMatchAt(line: string, p: nat)
    requires p <= |line|
  {
    var q := SpaceRunEnd(line, p);
    q < |line| && line[q] == '#' && QuoteFreeFrom(line, q + 1)
  }

  /** The leftmost position from p at which the comment pattern matches, or |line|. */
  function CommentStart(line: string, p: nat): (c: nat)
    requires p <= |line|
    ensures p <= c <= |line|
    ensures c < |line| ==> CommentMatchAt(line, c)
    ensures forall k :: p <= k < c ==> !CommentMatchAt(line, k)
    decreases |line| - p
  {
    if p == |line| then |line|
    else if CommentMatchAt(line, p) then p
    else CommentStart(line, p + 1)
  }

  /** `re.sub(r'\s*#[^"\']*$', '', line)`: the match, when there is one, runs
      to the end of the line, so the leftmost match and everything after it
      go. What is removed is optional whitespace, a '#', and text without
      any quote; nothing before it could start such a match. */
  function StripTrailingComment(line: string): (r: string)
    ensures |r| <= |line| && r == line[..|r|]
  {
    line[..CommentStart(line, 0)]
  }

  /** What StripTrailingComment removes is the leftmost match of the
      comment pattern, and it runs to the end of the line. */
  lemma StripTrailingCommentSpec(line: string)
    ensures var r := StripTrailingComment(line);
      && (|r| < |line| ==> CommentMatchAt(line, |r|))
      && (forall k :: 0 <= k < |r| ==> !CommentMatchAt(line, k))
  {
  }

  lemma SpaceRunEndStep(s: string, i: nat)
    requires i < |s| && IsSpace(s[i])
    ensures SpaceRunEnd(s, i) == SpaceRunEnd(s, i + 1)
  {
  }

  /** On a stripped line that does not start with '#', removing the comment
      leaves a non-empty stripped line. */
  lemma StripTrailingCommentStripped(line: string)
    requires line != [] && IsStripped(line) && line[0] != '#'
    ensures StripTrailingComment(line) != [] && IsStripped(StripTrailingComment(line))
  {
    var r := StripTrailingComment(line);
    StripTrailingCommentSpec(line);
    assert SpaceRunEnd(line, 0) == 0;
    assert !CommentMatchAt(line, 0);
    assert r != [];
    if |r| < |line| && IsSpace(line[|r| - 1]) {
      SpaceRunEndStep(line, |r| - 1);
      assert CommentMatchAt(line, |r| - 1);
      assert false;
    }
    assert r[|r| - 1] == line[|r| - 1];
  }

  /** The `.*"\]` tail of the exec-form pattern from i: a `"]` further on
      the same line (`.` does not match '\n'). */
  predicate ClosesOnLine(s: string, i: nat)
    decreases |s| - i
  {
    i + 1 < |s| && ((s[i] == '"' && s[i + 1] == ']') || (s[i] != '\n' && ClosesOnLine(s, i + 1)))
  }

  /** `CMD\s+\[".*"\]` matches at p. `\s+` must stop where `[` is, so it is
      the whole whitespace run after CMD. */
  predicate ExecCmdAt(s: string, p: nat)
    requires p <= |s|
  {
    LiteralAt(s, p, "CMD") &&
    var w := SpaceRunEnd(s, p + 3);
    w > p + 3 && w + 1 < |s| && s[w] == '[' && s[w + 1] == '"' && ClosesOnLine(s, w + 2)
  }

  /** `re.match(r'CMD\s+\[".*"\]', line)`: the exec form, anchored at the
      start of the line only. */
  predicate IsExecForm(line: string) {
    ExecCmdAt(line, 0)
  }

  lemma {:induction false} ClosesOnLineAt(s: string, i: nat, j: nat)
    requires i <= j && j + 1 < |s| && s[j] == '"' && s[j + 1] == ']'
    requires forall k :: i <= k < j ==> s[k] != '\n'
    ensures ClosesOnLine(s, i)
    decreases j - i
  {
    if i < j {
      ClosesOnLineAt(s, i + 1, j);
    }
  }

  /** The two default commands that replace a CMD in shell form: the exec
      form `CMD ["...", ...]` around their argument lists. */
  const JavaArgs: string := "java\", \"-jar\", \"/app/course-service.jar"
  const NginxArgs: string := "nginx\", \"-g\", \"daemon off;"
  const JavaCmd: string := "CMD [\"" + JavaArgs + "\"]"
  const NginxCmd: string := "CMD [\"" + NginxArgs + "\"]"

  lemma ExecLiteral(args: string)
    requires forall c | c in args :: ' ' <= c <= '~'
    ensures var s := "CMD [\"" + args + "\"]";
      IsExecForm(s) && StartsWith(s, "CMD") && IsStripped(s) && NoLineBreak(s)
  {
    var s := "CMD [\"" + args + "\"]";
    assert s[..3] == "CMD";
    assert s[3] == ' ' && s[4] == '[' && s[5] == '"';
    assert SpaceRunEnd(s, 3) == 4;
    forall k | 0 <= k < |s| ensures ' ' <= s[k] <= '~' {
      if 6 <= k < |s| - 2 {
        assert s[k] == args[k - 6];
        assert args[k - 6] in args;
      }
    }
    assert s[|s| - 2] == '"' && s[|s| - 1] == ']';
    ClosesOnLineAt(s, 6, |s| - 2);
  }

  lemma JavaCmdIsExec()
    ensures IsExecForm(JavaCmd) && StartsWith(JavaCmd, "CMD") && IsStripped(JavaCmd) && NoLineBreak(JavaCmd)
  {
    ExecLiteral(JavaArgs);
  }

  lemma NginxCmdIsExec()
    ensures IsExecForm(NginxCmd) && StartsWith(NginxCmd, "CMD") && IsStripped(NginxCmd) && NoLineBreak(NginxCmd)
  {
    ExecLiteral(NginxArgs);
  }

  /** The CMD that clean_dockerfile substitutes: the nginx one when the
      fixer is nginx-aware and "nginx" occurs anywhere in the content. */
  function DefaultCmd(content: string, nginxAware: bool): (cmd: string)
    ensures cmd == JavaCmd || cmd == NginxCmd
    ensures cmd == NginxCmd <==> nginxAware && Contains(Lower(content), "nginx")
  {
    if nginxAware && Contains(Lower(content), "nginx") then NginxCmd else JavaCmd
  }

  /** The body of clean_dockerfile's loop for one stripped line. */
  function CleanLine(line: string, defaultCmd: string): string {
    var l := if StartsWith(line, "#") then line else StripTrailingComment(line);
    if StartsWith(l, "CMD") && !IsExecForm(l) then defaultCmd else l
  }

  predicate NotBlank(line: string) {
    Strip(line) != []
  }

  /** `[line.strip() for line in content.splitlines() if line.strip()]`. */
  function NonBlankLines(content: string): seq<string> {
    Map(Filter(SplitLines(content), NotBlank), Strip)
  }

  /** The list clean_dockerfile joins. */
  function CleanedLines(content: string, nginxAware: bool): seq<string> {
    Map(NonBlankLines(content), (l: string) => CleanLine(l, DefaultCmd(content, nginxAware)))
  }

  /** clean_dockerfile(content); nginxAware selects the frontend variant. */
  method CleanDockerfile(content: string, nginxAware: bool) returns (cleaned: string)
    ensures cleaned == JoinLines(CleanedLines(content, nginxAware))
  {
    var lines := NonBlankLines(content);
    ghost var clean := (l: string) => CleanLine(l, DefaultCmd(content, nginxAware));
    var cleanedLines: seq<string> := [];
    var i := 0;
    while i < |lines|
      invariant 0 <= i <= |lines|
      invariant cleanedLines == Map(lines[..i], clean)
    {
      var line := CleanOne(lines[i], content, nginxAware);
      MapPrefixStep(lines, clean, i);
      cleanedLines := cleanedLines + [line];
      i := i + 1;
    }
    cleaned := JoinLines(cleanedLines);
    assert lines[..i] == lines;
  }

  /** One pass of clean_dockerfile's loop: a trailing comment goes, and a
      shell-form CMD becomes the default command. */
  method CleanOne(stripped: string, content: string, nginxAware: bool) returns (line: string)
    ensures line == CleanLine(stripped, DefaultCmd(content, nginxAware))
  {
    line := stripped;
    if !StartsWith(line, "#") {
      line := StripTrailingComment(line);
    }
    if StartsWith(line, "CMD") {
      if !IsExecForm(line) {
        if nginxAware && Contains(Lower(content), "nginx") {
          line := NginxCmd;
        } else {
          line := JavaCmd;
        }
      }
    }
  }

  /** Each line clean_dockerfile keeps is a stripped, non-blank line of the
      input without line boundaries. */
  lemma NonBlankLinesShape(content: string)
    ensures forall i :: 0 <= i < |NonBlankLines(content)| ==>
      var l := NonBlankLines(content)[i];
      l != [] && IsStripped(l) && NoLineBreak(l)
  {
    var ls := Filter(SplitLines(content), NotBlank);
    forall i | 0 <= i < |ls|
      ensures Strip(ls[i]) != [] && IsStripped(Strip(ls[i])) && NoLineBreak(Strip(ls[i]))
    {
      FilterIn(SplitLines(content), NotBlank, ls[i]);
      StripShape(ls[i]);
    }
  }

  /** Stripping a line without line breaks that is not all whitespace gives
      a non-empty stripped line without line breaks. */
  lemma StripShape(l: string)
    requires NoLineBreak(l) && Strip(l) != []
    ensures IsStripped(Strip(l)) && NoLineBreak(Strip(l))
  {
    var r := Strip(l);
    var a := |l| - |LStrip(l)|;
    forall k | 0 <= k < |r| ensures !IsLineBreak(r[k]) {
      assert r[k] == l[a + k];
    }
  }

  /** What clean_dockerfile makes of one stripped, non-blank input line:
      never a blank line, already stripped; a '#' line is kept as it is; any
      other line loses its trailing comment (whitespace, '#', then text
      without quotes) and nothing else, unless what remains is a CMD not in
      exec form, which becomes the default command d. Every CMD line that
      comes out is in exec form. */
  predicate CleanedLineShape(inp: string, out: string, d: string) {
    var s := StripTrailingComment(inp);
    && out != [] && IsStripped(out) && NoLineBreak(out)
    && (StartsWith(inp, "#") ==> out == inp)
    && (!StartsWith(inp, "#") && !(StartsWith(s, "CMD") && !IsExecForm(s)) ==> out == s)
    && (!StartsWith(inp, "#") && StartsWith(s, "CMD") && !IsExecForm(s) ==> out == d)
    && (StartsWith(out, "CMD") ==> IsExecForm(out))
  }

  /** A command that can stand in for a CMD in shell form. */
  predicate IsDefaultCmdShape(d: string) {
    d != [] && IsStripped(d) && NoLineBreak(d) && IsExecForm(d)
  }

  lemma CleanLineSpec(inp: string, d: string)
    requires inp != [] && IsStripped(inp) && NoLineBreak(inp)
    requires IsDefaultCmdShape(d)
    ensures CleanedLineShape(inp, CleanLine(inp, d), d)
  {
    if !StartsWith(inp, "#") {
      StripTrailingCommentStripped(inp);
      var r := StripTrailingComment(inp);
      forall k | 0 <= k < |r| ensures !IsLineBreak(r[k]) {
        assert r[k] == inp[k];
      }
    } else {
      assert inp[..1] == "#";
      assert !StartsWith(inp, "CMD");
    }
  }

  /** clean_dockerfile, line by line: one output line per non-blank input
      line, in order, each of the shape CleanedLineShape describes. */
  lemma CleanedLinesSpec(content: string, nginxAware: bool)
    ensures |CleanedLines(content, nginxAware)| == |NonBlankLines(content)|
    ensures forall i :: 0 <= i < |CleanedLines(content, nginxAware)| ==>
      CleanedLineShape(NonBlankLines(content)[i], CleanedLines(content, nginxAware)[i], DefaultCmd(content, nginxAware))
  {
    NonBlankLinesShape(content);
    var d := DefaultCmd(content, nginxAware);
    JavaCmdIsExec();
    NginxCmdIsExec();
    assert IsDefaultCmdShape(d);
    forall i | 0 <= i < |CleanedLines(content, nginxAware)|
      ensures CleanedLineShape(NonBlankLines(content)[i], CleanedLines(content, nginxAware)[i], d)
    {
      CleanLineSpec(NonBlankLines(content)[i], d);
    }
  }

  /** The string clean_dockerfile returns splits back into exactly its
      lines: it has no blank line. */
  lemma CleanedSplitsBack(content: string, nginxAware: bool)
    ensures SplitLines(JoinLines(CleanedLines(content, nginxAware))) == CleanedLines(content, nginxAware)
  {
    CleanedLinesSpec(content, nginxAware);
    SplitJoin(CleanedLines(content, nginxAware));
  }

  // ---------------------------------------------------------------------
  // analyze_and_fix: re-inserting the original images the fix lost

  /** `[img for img in original_images if img not in current_images]`. */
  function MissingImages(original: seq<string>, current: seq<string>): seq<string> {
    Filter(original, (img: string) => img !in current)
  }

  /** `[f"FROM {img}" for img in missing_images]`. */
  function FromLines(imgs: seq<string>): (ls: seq<string>)
    ensures |ls| == |imgs|
  {
    Map(imgs, (img: string) => "FROM " + img)
  }

  /** A line whose stripped text starts with FROM; the step inserts after
      the last one (`insert_pos`), or at 0 when there is none. */
  predicate IsFromLine(line: string) {
    StartsWith(Strip(line), "FROM")
  }

  /** The content after the step, given the images the cleaned input had and
      those the fixed content has. */
  function Reinserted(original: seq<string>, current: seq<string>, fixed: string): string {
    var missing := MissingImages(original, current);
    if missing == [] then fixed
    else
      var lines := SplitLines(fixed);
      JoinLines(Insert(lines, AfterLast(lines, IsFromLine), FromLines(missing)))
  }

  /** The step as written, with extract_original_images as written. */
  function ReinsertAsWritten(cleaned: string, fixed: string): string {
    Reinserted(ExtractImagesAsWritten(cleaned), ExtractImagesAsWritten(fixed), fixed)
  }

  lemma AsWrittenFromNode()
    ensures ExtractImagesAsWritten("FROM node") == ["node"]
  {
    var c := "FROM node";
    assert c[0..4] == "FROM";
    assert SpaceRunEnd(c, 4) == 5;
    assert TokenEnd(c, 5) == 9;
    assert c[5..9] == "node";
    assert FromMatchAt(c, 0) == Some(Span(5, 9));
  }

  lemma AsWrittenBareFrom()
    ensures ExtractImagesAsWritten("FROM") == []
  {
    var f := "FROM";
    assert FromMatchAt(f, 0).None?;
    assert FindAllFrom(f, 3) == [];
  }

  lemma AsWrittenInsertedLine()
    ensures ExtractImagesAsWritten("FROM\nFROM node") == ["FROM"]
  {
    var r := "FROM\nFROM node";
    assert r[0..4] == "FROM";
    assert SpaceRunEnd(r, 4) == 5;
    assert TokenEnd(r, 5) == 9;
    assert r[5..9] == "FROM";
    assert FromMatchAt(r, 0) == Some(Span(5, 9));
    assert FromMatchAt(r, 13).None?;
    assert FindAllFrom(r, 12) == [];
  }

  /** As written, the step can lose the very image it re-inserts: when the
      last FROM line of the fixed content carries no image, the inserted
      `FROM node` line is read as that line's image "FROM". */
  lemma ReinsertAsWrittenLosesImage(cleaned: string, fixed: string)
    requires cleaned == "FROM node" && fixed == "FROM"
    ensures "node" in ExtractImagesAsWritten(cleaned)
    ensures ReinsertAsWritten(cleaned, fixed) == "FROM\nFROM node"
    ensures "node" !in ExtractImagesAsWritten(ReinsertAsWritten(cleaned, fixed))
  {
    AsWrittenFromNode();
    ReinsertAsWrittenSplices(cleaned, fixed);
    ReinsertAfterBareFrom(fixed, "node");
    AsWrittenInsertedLine();
  }

  lemma ReinsertAsWrittenSplices(cleaned: string, fixed: string)
    requires cleaned == "FROM node" && fixed == "FROM"
    ensures ReinsertAsWritten(cleaned, fixed) == Reinserted(["node"], [], fixed)
  {
    AsWrittenFromNode();
    AsWrittenBareFrom();
  }

  /** The splice the step performs on the fixed content "FROM" for the
      missing image n. */
  lemma ReinsertAfterBareFrom(f: string, n: string)
    requires f == "FROM" && n == "node"
    ensures Reinserted([n], [], f) == "FROM\nFROM node"
  {
    BareFromLines();
    MissingNode([n], [], n);
    assert FromLines([n]) == ["FROM " + n];
    assert Insert([f], 1, ["FROM " + n]) == [f, "FROM " + n];
    JoinTwo(f, "FROM " + n);
    assert "FROM" + "\n" + ("FROM " + "node") == "FROM\nFROM node";
  }

  lemma MissingNode(a: seq<string>, b: seq<string>, n: string)
    requires a == [n] && b == []
    ensures MissingImages(a, b) == a
  {
    FilterIn(a, (img: string) => img !in b, n);
  }

  lemma JoinTwo(x: string, y: string)
    ensures JoinLines([x, y]) == x + "\n" + y
  {
    assert [x, y][1..] == [y];
  }

  lemma BareFromLines()
    ensures SplitLines("FROM") == ["FROM"]
    ensures AfterLast(["FROM"], IsFromLine) == 1
  {
    var f := "FROM";
    StripStripped(f);
    OneLine(f);
    AfterLastIsLast([f], IsFromLine, 0);
  }

  /** The step of analyze_and_fix, with the corrected extraction: the images
      of the cleaned input that the fixed content lacks are spliced in as
      `FROM <img>` lines after its last FROM line (or first). Afterwards
      every image of the cleaned input is an image of the result, and the
      content is untouched when nothing was missing. */
  method ReinsertMissingImages(cleaned: string, fixed: string) returns (result: string)
    ensures result == Reinserted(ExtractImages(cleaned), ExtractImages(fixed), fixed)
    ensures forall img :: img in ExtractImages(cleaned) ==> img in ExtractImages(result)
    ensures (forall img :: img in ExtractImages(cleaned) ==> img in ExtractImages(fixed)) ==> result == fixed
  {
    var originalImages := ExtractImages(cleaned);
    var currentImages := ExtractImages(fixed);
    var missingImages := MissingImages(originalImages, currentImages);
    result := fixed;
    if missingImages != [] {
      var fixedLines := SplitLines(fixed);
      var insertPos := 0;
      var i := 0;
      while i < |fixedLines|
        invariant 0 <= i <= |fixedLines|
        invariant insertPos == AfterLast(fixedLines[..i], IsFromLine)
      {
        AfterLastStep(fixedLines, IsFromLine, i);
        if IsFromLine(fixedLines[i]) {
          insertPos := i + 1;
        }
        i := i + 1;
      }
      assert fixedLines[..i] == fixedLines;
      fixedLines := Insert(fixedLines, insertPos, FromLines(missingImages));
      result := JoinLines(fixedLines);
    }
    ReinsertKeepsImages(originalImages, fixed);
    NothingMissing(originalImages, currentImages);
  }

  lemma NothingMissing(original: seq<string>, current: seq<string>)
    ensures MissingImages(original, current) == [] <==> forall img :: img in original ==> img in current
  {
    var missing := MissingImages(original, current);
    if missing != [] {
      FilterIn(original, (img: string) => img !in current, missing[0]);
    } else {
      forall img | img in original ensures img in current {
        FilterIn(original, (img: string) => img !in current, img);
      }
    }
  }

  /** The property the step exists for, proved for the corrected extraction:
      whatever the fixed content, every original image is found afterwards. */
  lemma ReinsertKeepsImages(original: seq<string>, fixed: string)
    requires forall i :: 0 <= i < |original| ==> IsImageToken(original[i])
    ensures forall img :: img in original ==>
      img in ExtractImages(Reinserted(original, ExtractImages(fixed), fixed))
  {
    var current := ExtractImages(fixed);
    var missing := MissingImages(original, current);
    if missing != [] {
      var lines := SplitLines(fixed);
      var k := AfterLast(lines, IsFromLine);
      MissingAreTokens(original, current);
      ImagesOfSplice(lines, k, missing);
      var after := ExtractImages(JoinLines(Insert(lines, k, FromLines(missing))));
      assert after == ImagesOfLines(lines[..k]) + missing + ImagesOfLines(lines[k..]);
      forall img | img in original ensures img in after {
        FilterIn(original, (img: string) => img !in current, img);
      }
    } else {
      forall img | img in original ensures img in current {
        FilterIn(original, (img: string) => img !in current, img);
      }
    }
  }

  lemma MissingAreTokens(original: seq<string>, current: seq<string>)
    requires forall i :: 0 <= i < |original| ==> IsImageToken(original[i])
    ensures forall i :: 0 <= i < |MissingImages(original, current)| ==> IsImageToken(MissingImages(original, current)[i])
  {
    var missing := MissingImages(original, current);
    forall i | 0 <= i < |missing| ensures IsImageToken(missing[i]) {
      FilterIn(original, (img: string) => img !in current, missing[i]);
    }
  }

  /** Splicing `FROM <img>` lines into split lines and joining them again:
      the images are those before the splice, the spliced ones, then those
      after it. */
  lemma ImagesOfSplice(lines: seq<string>, k: nat, imgs: seq<string>)
    requires k <= |lines|
    requires forall i :: 0 <= i < |lines| ==> NoLineBreak(lines[i])
    requires forall i :: 0 <= i < |imgs| ==> IsImageToken(imgs[i])
    ensures ImagesOfLines(lines) == ImagesOfLines(lines[..k]) + ImagesOfLines(lines[k..])
    ensures ExtractImages(JoinLines(Insert(lines, k, FromLines(imgs)))) ==
      ImagesOfLines(lines[..k]) + imgs + ImagesOfLines(lines[k..])
  {
    var ls := Insert(lines, k, FromLines(imgs));
    FromLinesNoBreak(imgs);
    InsertNoBreak(lines, k, FromLines(imgs));
    SplitJoin(ls);
    ImagesDropTrailingEmpty(ls);
    ImagesOfInsert(lines, k, FromLines(imgs));
    ImagesOfFromLines(imgs);
  }

  lemma InsertNoBreak(lines: seq<string>, k: nat, xs: seq<string>)
    requires k <= |lines|
    requires forall i :: 0 <= i < |lines| ==> NoLineBreak(lines[i])
    requires forall i :: 0 <= i < |xs| ==> NoLineBreak(xs[i])
    ensures forall i :: 0 <= i < |Insert(lines, k, xs)| ==> NoLineBreak(Insert(lines, k, xs)[i])
  {
    var ls := Insert(lines, k, xs);
    forall i | 0 <= i < |ls| ensures NoLineBreak(ls[i]) {
      if i < k { assert ls[i] == lines[i]; }
      else if i < k + |xs| { assert ls[i] == xs[i - k]; }
      else { assert ls[i] == lines[i - |xs|]; }
    }
  }

  lemma ImagesOfInsert(lines: seq<string>, k: nat, xs: seq<string>)
    requires k <= |lines|
    ensures ImagesOfLines(lines) == ImagesOfLines(lines[..k]) + ImagesOfLines(lines[k..])
    ensures ImagesOfLines(Insert(lines, k, xs)) ==
      ImagesOfLines(lines[..k]) + ImagesOfLines(xs) + ImagesOfLines(lines[k..])
  {
    assert lines == lines[..k] + lines[k..];
    ImagesOfLinesAppend(lines[..k], lines[k..]);
    assert Insert(lines, k, xs) == (lines[..k] + xs) + lines[k..];
    ImagesOfLinesAppend(lines[..k] + xs, lines[k..]);
    ImagesOfLinesAppend(lines[..k], xs);
  }

  lemma FromLinesNoBreak(imgs: seq<string>)
    requires forall i :: 0 <= i < |imgs| ==> IsImageToken(imgs[i])
    ensures forall i :: 0 <= i < |imgs| ==> NoLineBreak(FromLines(imgs)[i])
  {
    forall i | 0 <= i < |imgs| ensures NoLineBreak(FromLines(imgs)[i]) {
      var l := FromLines(imgs)[i];
      assert l == "FROM " + imgs[i];
      forall j | 0 <= j < |l| ensures !IsLineBreak(l[j]) {
        if j >= 5 { assert l[j] == imgs[i][j - 5]; }
      }
    }
  }
}
