/** The list surgery both `enforce_best_practices` functions perform on the
    lines of a Dockerfile: keyword tests on stripped lines, the rewrite of
    shell-form CMD lines, and the loops that find the first line of a kind
    and splice a block of lines in. Each line of a rewritten file is
    tracked together with where it came from (an `Entry`), so that the
    properties of the result can speak of the lines the fixer added and of
    the lines it kept. */
module DockerfileRewrite {
  import opened SeqUtil
  import opened PyText
  import opened DockerfileCommon

  // ---------------------------------------------------------------------
  // Provenance of the lines of a rewritten Dockerfile

  /** Where a line of the rewritten file comes from: the input file, or one
      of the blocks the fixers add. */
  datatype Origin = Source | NginxFix | UserBlock | UserSwitch | ConfSed | Probe

  datatype Entry = Entry(text: string, origin: Origin)

  function Texts(es: seq<Entry>): (ts: seq<string>)
    ensures |ts| == |es| && forall i :: 0 <= i < |es| ==> ts[i] == es[i].text
  {
    Map(es, (e: Entry) => e.text)
  }

  /** The lines ls, all from origin o. */
  function Tagged(ls: seq<string>, o: Origin): (es: seq<Entry>)
    ensures |es| == |ls| && forall i :: 0 <= i < |ls| ==> es[i] == Entry(ls[i], o)
  {
    Map(ls, (l: string) => Entry(l, o))
  }

  /** The test "comes from origin o". */
  function From(o: Origin): Entry -> bool {
    (e: Entry) => e.origin == o
  }

  /** The texts of the lines kept from the input, in order. */
  function SourceTexts(es: seq<Entry>): seq<string> {
    Texts(Filter(es, From(Source)))
  }

  lemma {:induction false} FilterNone<T>(s: seq<T>, p: T -> bool)
    requires forall i :: 0 <= i < |s| ==> !p(s[i])
    ensures Filter(s, p) == []
  {
    if s != [] {
      FilterNone(s[1..], p);
    }
  }

  lemma TextsTagged(ls: seq<string>, o: Origin)
    ensures Texts(Tagged(ls, o)) == ls
  {
  }

  lemma SourceTextsTagged(ls: seq<string>)
    ensures SourceTexts(Tagged(ls, Source)) == ls
  {
    FilterAll(Tagged(ls, Source), From(Source));
  }

  lemma TextsInsert(es: seq<Entry>, k: nat, xs: seq<Entry>)
    requires k <= |es|
    ensures Texts(Insert(es, k, xs)) == Insert(Texts(es), k, Texts(xs))
  {
  }

  lemma TextsInsertOne(es: seq<Entry>, k: nat, x: Entry)
    requires k <= |es|
    ensures Texts(Insert(es, k, [x])) == Insert(Texts(es), k, [x.text])
  {
    TextsInsert(es, k, [x]);
    assert Texts([x]) == [x.text];
  }

  /** Added lines leave the kept lines and their order as they were. */
  lemma SourceTextsInsert(es: seq<Entry>, k: nat, xs: seq<Entry>)
    requires k <= |es|
    requires forall j :: 0 <= j < |xs| ==> xs[j].origin != Source
    ensures SourceTexts(Insert(es, k, xs)) == SourceTexts(es)
  {
    var p := From(Source);
    assert es == es[..k] + es[k..];
    FilterAppend(es[..k], es[k..], p);
    assert Insert(es, k, xs) == (es[..k] + xs) + es[k..];
    FilterAppend(es[..k] + xs, es[k..], p);
    FilterAppend(es[..k], xs, p);
    FilterNone(xs, p);
  }

  lemma SourceTextsAppend(es: seq<Entry>, x: Entry)
    requires x.origin != Source
    ensures SourceTexts(es + [x]) == SourceTexts(es)
  {
    assert es + [x] == Insert(es, |es|, [x]);
    SourceTextsInsert(es, |es|, [x]);
  }

  lemma CountTagged(ls: seq<string>, o: Origin, q: Origin)
    ensures Count(Tagged(ls, o), From(q)) == if o == q then |ls| else 0
    decreases |ls|
  {
    if ls != [] {
      assert Tagged(ls, o)[1..] == Tagged(ls[1..], o);
      CountTagged(ls[1..], o, q);
    }
  }

  // ---------------------------------------------------------------------
  // Keyword tests: `line.strip().startswith(...)`

  predicate IsCmdLine(line: string) { StartsWith(Strip(line), "CMD") }
  predicate IsUserLine(line: string) { StartsWith(Strip(line), "USER") }
  predicate IsHealthcheckLine(line: string) { StartsWith(Strip(line), "HEALTHCHECK") }
  predicate IsExposeLine(line: string) { StartsWith(Strip(line), "EXPOSE") }

  /** `line.strip().startswith(('COPY', 'CMD', 'ENTRYPOINT'))`. */
  predicate IsCopyCmdOrEntrypoint(line: string) {
    var t := Strip(line);
    StartsWith(t, "COPY") || StartsWith(t, "CMD") || StartsWith(t, "ENTRYPOINT")
  }

  /** A line none of the CMD, USER and HEALTHCHECK tests picks out. */
  predicate PlainLine(line: string) {
    !IsCmdLine(line) && !IsUserLine(line) && !IsHealthcheckLine(line)
  }

  /** strip() begins at the first character that is not whitespace. */
  lemma StripFirst(x: string, a: nat)
    requires a < |x| && !IsSpace(x[a])
    requires forall k :: 0 <= k < a ==> IsSpace(x[k])
    ensures Strip(x) != [] && Strip(x)[0] == x[a]
  {
  }

  /** The keyword tests read only the first non-blank character to refute
      a line: for a literal h + t whose first non-blank character sits in
      the short head h. */
  lemma HeadChar(h: string, t: string, a: nat)
    requires a < |h| && !IsSpace(h[a])
    requires forall k :: 0 <= k < a ==> IsSpace(h[k])
    ensures Strip(h + t) != [] && Strip(h + t)[0] == h[a]
  {
    var x := h + t;
    forall k | 0 <= k < a ensures IsSpace(x[k]) {
      assert x[k] == h[k];
    }
    assert x[a] == h[a];
    StripFirst(x, a);
  }

  lemma HeadRefutes(h: string, t: string, a: nat, kw: string)
    requires a < |h| && !IsSpace(h[a])
    requires forall k :: 0 <= k < a ==> IsSpace(h[k])
    requires kw != [] && h[a] != kw[0]
    ensures !StartsWith(Strip(h + t), kw)
  {
    HeadChar(h, t, a);
  }

  lemma PlainHead(h: string, t: string, a: nat)
    requires a < |h| && !IsSpace(h[a])
    requires forall k :: 0 <= k < a ==> IsSpace(h[k])
    requires h[a] != 'C' && h[a] != 'U' && h[a] != 'H'
    ensures PlainLine(h + t)
  {
    HeadRefutes(h, t, a, "CMD");
    HeadRefutes(h, t, a, "USER");
    HeadRefutes(h, t, a, "HEALTHCHECK");
  }

  /** A literal whose text starts with keyword kw and ends with a
      non-blank character passes the test for kw. */
  lemma KeywordHead(kw: string, t: string)
    requires kw != [] && !IsSpace(kw[0]) && t != [] && !IsSpace(t[|t| - 1])
    ensures StartsWith(Strip(kw + t), kw)
  {
    var x := kw + t;
    assert x[0] == kw[0] && x[|x| - 1] == t[|t| - 1];
    StripStripped(x);
    assert x[..|kw|] == kw;
  }

  // ---------------------------------------------------------------------
  // The CMD rewrite: `if line.strip().startswith('CMD') and not
  // re.match(r'CMD\s+\[".*"\]', line): <default> else line`

  function FixCmd(line: string, d: string): string {
    if IsCmdLine(line) && !IsExecForm(line) then d else line
  }

  function FixCmdBy(d: string): string -> string {
    (l: string) => FixCmd(l, d)
  }

  function FixCmdLines(ls: seq<string>, d: string): (r: seq<string>)
    ensures |r| == |ls| && forall i :: 0 <= i < |ls| ==> r[i] == FixCmd(ls[i], d)
  {
    Map(ls, FixCmdBy(d))
  }

  function FixEntry(e: Entry, d: string): Entry {
    e.(text := FixCmd(e.text, d))
  }

  function FixEntryBy(d: string): Entry -> Entry {
    (e: Entry) => FixEntry(e, d)
  }

  function FixCmds(es: seq<Entry>, d: string): (r: seq<Entry>)
    ensures |r| == |es| && forall i :: 0 <= i < |es| ==> r[i] == FixEntry(es[i], d)
  {
    Map(es, FixEntryBy(d))
  }

  /** A default command in exec form, as both fixers substitute. */
  predicate IsExecDefault(d: string) {
    IsStripped(d) && StartsWith(d, "CMD") && IsExecForm(d)
  }

  lemma DefaultsAreExec()
    ensures IsExecDefault(JavaCmd) && IsExecDefault(NginxCmd)
  {
    JavaCmdIsExec();
    NginxCmdIsExec();
  }

  lemma ExecDefaultIsCmd(d: string)
    requires IsExecDefault(d)
    ensures IsCmdLine(d) && !IsHealthcheckLine(d)
  {
    StripStripped(d);
    CmdNotHealthcheck(d);
  }

  lemma CmdNotHealthcheck(t: string)
    requires StartsWith(t, "CMD")
    ensures !StartsWith(t, "HEALTHCHECK")
  {
    assert t[..3][0] == 'C';
  }

  /** After the rewrite every CMD line is in exec form, the CMD lines are
      where they were, and every other line is untouched. */
  lemma FixCmdSpec(line: string, d: string)
    requires IsExecDefault(d)
    ensures IsCmdLine(FixCmd(line, d)) <==> IsCmdLine(line)
    ensures IsCmdLine(FixCmd(line, d)) ==> IsExecForm(FixCmd(line, d))
    ensures !IsCmdLine(line) ==> FixCmd(line, d) == line
    ensures IsHealthcheckLine(FixCmd(line, d)) <==> IsHealthcheckLine(line)
  {
    var r := FixCmd(line, d);
    if IsCmdLine(line) && !IsExecForm(line) {
      assert r == d;
      CmdNotHealthcheck(Strip(line));
      ExecDefaultIsCmd(d);
    } else {
      assert r == line;
    }
  }

  lemma SourceTextsFixCmds(es: seq<Entry>, d: string)
    ensures SourceTexts(FixCmds(es, d)) == FixCmdLines(SourceTexts(es), d)
  {
    var f := (e: Entry) => FixEntry(e, d);
    FilterMap(es, f, From(Source));
  }

  lemma TextsFixCmds(es: seq<Entry>, d: string)
    ensures Texts(FixCmds(es, d)) == FixCmdLines(Texts(es), d)
  {
  }

  lemma CountFixCmds(es: seq<Entry>, d: string, o: Origin)
    ensures Count(FixCmds(es, d), From(o)) == Count(es, From(o))
    decreases |es|
  {
    if es != [] {
      assert FixCmds(es, d)[1..] == FixCmds(es[1..], d);
      CountFixCmds(es[1..], d, o);
    }
  }

  /** Filtering commutes with a map that keeps the test. */
  lemma {:induction false} FilterMap<T>(s: seq<T>, f: T -> T, p: T -> bool)
    requires forall i :: 0 <= i < |s| ==> p(f(s[i])) == p(s[i])
    ensures Filter(Map(s, f), p) == Map(Filter(s, p), f)
  {
    if s != [] {
      assert Map(s, f)[1..] == Map(s[1..], f);
      FilterMap(s[1..], f, p);
    }
  }

  /** The rewrite keeps where the first CMD line is. */
  lemma FirstCmdFixCmds(es: seq<Entry>, d: string)
    requires IsExecDefault(d)
    ensures FirstWhere(Texts(FixCmds(es, d)), IsCmdLine) == FirstWhere(Texts(es), IsCmdLine)
  {
    var a := Texts(es);
    TextsFixCmds(es, d);
    forall i | 0 <= i < |a| ensures IsCmdLine(FixCmdBy(d)(a[i])) == IsCmdLine(a[i]) {
      FixCmdSpec(a[i], d);
    }
    FirstWhereMap(a, FixCmdBy(d), IsCmdLine);
  }

  // ---------------------------------------------------------------------
  // The loops

  /** `for i, line in enumerate(lines): if p(line): pos = i; break`. */
  method FindFirst(lines: seq<string>, p: string -> bool) returns (pos: Option<nat>)
    ensures pos == FirstWhere(lines, p)
  {
    var i := 0;
    while i < |lines|
      invariant 0 <= i <= |lines|
      invariant forall j :: 0 <= j < i ==> !p(lines[j])
    {
      if p(lines[i]) {
        FirstWhereAt(lines, p, i);
        return Some(i);
      }
      i := i + 1;
    }
    return None;
  }

  /** `for line in reversed(block): lines.insert(pos, line)`: one insert at
      a time, last line first, which puts the block at pos in order. */
  method InsertBlock(lines: seq<string>, pos: nat, block: seq<string>) returns (r: seq<string>)
    requires pos <= |lines|
    ensures r == Insert(lines, pos, block)
  {
    r := lines;
    var j := |block|;
    while j > 0
      invariant 0 <= j <= |block|
      invariant r == Insert(lines, pos, block[j..])
    {
      j := j - 1;
      InsertBlockStep(lines, pos, block, j);
      r := Insert(r, pos, [block[j]]);
    }
  }

  /** Inserting block[j] in front of the block's tail already at pos. */
  lemma InsertBlockStep<T>(lines: seq<T>, pos: nat, block: seq<T>, j: nat)
    requires pos <= |lines| && j < |block|
    ensures Insert(Insert(lines, pos, block[j + 1..]), pos, [block[j]]) == Insert(lines, pos, block[j..])
  {
    var r := Insert(lines, pos, block[j + 1..]);
    assert r[..pos] == lines[..pos] && r[pos..] == block[j + 1..] + lines[pos..];
    assert block[j..] == [block[j]] + block[j + 1..];
  }

  /** The "Traiter chaque ligne" loop with default command d. */
  method FixCmdLoop(lines: seq<string>, d: string) returns (newLines: seq<string>)
    ensures newLines == FixCmdLines(lines, d)
  {
    newLines := [];
    for i := 0 to |lines|
      invariant newLines == FixCmdLines(lines[..i], d)
    {
      var line := lines[i];
      FixCmdLinesStep(lines, d, i);
      if IsCmdLine(line) && !IsExecForm(line) {
        newLines := newLines + [d];
      } else {
        newLines := newLines + [line];
      }
    }
    assert lines[..|lines|] == lines;
  }

  lemma FixCmdLinesStep(lines: seq<string>, d: string, i: nat)
    requires i < |lines|
    ensures FixCmdLines(lines[..i + 1], d) == FixCmdLines(lines[..i], d) + [FixCmd(lines[i], d)]
  {
  }

  // ---------------------------------------------------------------------
  // Inserting before the first line of a kind (the first CMD line)

  /** x sits at u, just before the first line passing p, and no line up to
      it passes p. */
  predicate BeforeFirst(es: seq<Entry>, u: nat, x: Entry, p: string -> bool) {
    u + 1 < |es| && es[u] == x && p(es[u + 1].text) &&
    forall j :: 0 <= j <= u ==> !p(es[j].text)
  }

  /** What FirstWhere says about the first line passing p, on the entries. */
  lemma FirstOf(es: seq<Entry>, p: string -> bool, c: nat)
    requires FirstWhere(Texts(es), p) == Some(c)
    ensures c < |es| && p(es[c].text)
    ensures forall j :: 0 <= j < c ==> !p(es[j].text)
  {
    forall j | 0 <= j < c ensures !p(es[j].text) {
      assert Texts(es)[j] == es[j].text;
    }
  }

  /** `lines.insert(pos, x)` at the first line passing p, x not passing. */
  lemma InsertBeforeFirst(es: seq<Entry>, x: Entry, p: string -> bool)
    requires !p(x.text)
    requires FirstWhere(Texts(es), p).Some?
    ensures var c := FirstWhere(Texts(es), p).value;
      BeforeFirst(Insert(es, c, [x]), c, x, p)
  {
    var c := FirstWhere(Texts(es), p).value;
    FirstOf(es, p, c);
    var t := Insert(es, c, [x]);
    forall j | 0 <= j <= c ensures !p(t[j].text) {
      if j < c {
        assert t[j] == es[j];
      }
    }
    assert t[c + 1] == es[c];
  }

  /** x sits at u, no line up to it passes p, and some line after it
      does: x comes before every line passing p. */
  predicate PrecedesAll(es: seq<Entry>, u: nat, x: Entry, p: string -> bool) {
    u < |es| && es[u] == x && (forall j :: 0 <= j <= u ==> !p(es[j].text)) &&
    Any(Texts(es), p)
  }

  lemma BeforeFirstPrecedes(es: seq<Entry>, u: nat, x: Entry, p: string -> bool)
    requires BeforeFirst(es, u, x, p)
    ensures PrecedesAll(es, u, x, p)
  {
    assert Texts(es)[u + 1] == es[u + 1].text;
  }

  /** Adding lines that do not pass p keeps whether some line passes p. */
  lemma AnyTextsInsert(es: seq<Entry>, k: nat, xs: seq<Entry>, p: string -> bool)
    requires k <= |es|
    requires forall j :: 0 <= j < |xs| ==> !p(xs[j].text)
    ensures Any(Texts(Insert(es, k, xs)), p) == Any(Texts(es), p)
  {
    TextsInsert(es, k, xs);
    assert forall j :: 0 <= j < |Texts(xs)| ==> !p(Texts(xs)[j]);
    AnyInsert(Texts(es), k, Texts(xs), p);
  }

  /** A rewrite that keeps which lines pass p keeps whether some line does. */
  lemma AnyTextsMap(es: seq<Entry>, f: Entry -> Entry, p: string -> bool)
    requires forall j :: 0 <= j < |es| ==> p(f(es[j]).text) == p(es[j].text)
    ensures Any(Texts(Map(es, f)), p) == Any(Texts(es), p)
  {
    var a := Texts(es);
    var b := Texts(Map(es, f));
    assert forall j :: 0 <= j < |es| ==> p(b[j]) == p(a[j]);
    if Any(a, p) {
      var j :| 0 <= j < |a| && p(a[j]);
      assert p(b[j]);
    }
  }

  /** Adding lines that do not pass p keeps x in front of every line
      passing p, at its shifted place. */
  lemma PrecedesAllInsert(es: seq<Entry>, u: nat, x: Entry, p: string -> bool, k: nat, xs: seq<Entry>)
    requires PrecedesAll(es, u, x, p) && k <= |es|
    requires forall j :: 0 <= j < |xs| ==> !p(xs[j].text)
    ensures PrecedesAll(Insert(es, k, xs), if k <= u then u + |xs| else u, x, p)
  {
    var t := Insert(es, k, xs);
    var u' := if k <= u then u + |xs| else u;
    forall j | 0 <= j <= u' ensures !p(t[j].text) {
      if j < k { assert t[j] == es[j]; }
      else if j < k + |xs| { assert t[j] == xs[j - k]; }
      else { assert t[j] == es[j - |xs|]; }
    }
    assert t[u'] == es[u];
    AnyTextsInsert(es, k, xs, p);
  }

  /** A rewrite that keeps which lines pass p and leaves x alone keeps x
      in front of every line passing p. */
  lemma PrecedesAllMap(es: seq<Entry>, u: nat, x: Entry, p: string -> bool, f: Entry -> Entry)
    requires PrecedesAll(es, u, x, p) && f(x) == x
    requires forall j :: 0 <= j < |es| ==> p(f(es[j]).text) == p(es[j].text)
    ensures PrecedesAll(Map(es, f), u, x, p)
  {
    AnyTextsMap(es, f, p);
  }

  /** Every line passes q. */
  predicate AllTexts(es: seq<Entry>, q: string -> bool) {
    forall j :: 0 <= j < |es| ==> q(es[j].text)
  }

  /** Every line passes q, after adding lines that all pass q. */
  lemma AllInsert(es: seq<Entry>, k: nat, xs: seq<Entry>, q: string -> bool)
    requires k <= |es| && AllTexts(es, q) && AllTexts(xs, q)
    ensures AllTexts(Insert(es, k, xs), q)
  {
    var t := Insert(es, k, xs);
    forall j | 0 <= j < |t| ensures q(t[j].text) {
      if j < k { assert t[j] == es[j]; }
      else if j < k + |xs| { assert t[j] == xs[j - k]; }
      else { assert t[j] == es[j - |xs|]; }
    }
  }

  /** The CMD rewrite leaves a line that is not a CMD line alone, and keeps
      which lines are CMD lines and which are HEALTHCHECK lines. */
  lemma FixEntryKeeps(es: seq<Entry>, d: string)
    requires IsExecDefault(d)
    ensures forall j :: 0 <= j < |es| ==> IsCmdLine(FixEntryBy(d)(es[j]).text) == IsCmdLine(es[j].text)
    ensures forall j :: 0 <= j < |es| ==>
      IsHealthcheckLine(FixEntryBy(d)(es[j]).text) == IsHealthcheckLine(es[j].text)
  {
    forall j | 0 <= j < |es|
      ensures IsCmdLine(FixEntryBy(d)(es[j]).text) == IsCmdLine(es[j].text)
      ensures IsHealthcheckLine(FixEntryBy(d)(es[j]).text) == IsHealthcheckLine(es[j].text)
    {
      FixCmdSpec(es[j].text, d);
    }
  }

  lemma FixEntryPlain(x: Entry, d: string)
    requires !IsCmdLine(x.text)
    ensures FixEntryBy(d)(x) == x
  {
  }

  /** `line.strip().startswith('CMD')` implies the exec form. */
  predicate CmdIsExec(line: string) {
    IsCmdLine(line) ==> IsExecForm(line)
  }

  /** After the rewrite every CMD line is in exec form. */
  lemma FixCmdsExec(es: seq<Entry>, d: string)
    requires IsExecDefault(d)
    ensures AllTexts(FixCmds(es, d), CmdIsExec)
  {
    forall j | 0 <= j < |es| ensures CmdIsExec(FixCmds(es, d)[j].text) {
      FixCmdSpec(es[j].text, d);
    }
  }


  // ---------------------------------------------------------------------
  // The lines the fixers add, with what the keyword tests say of them

  /** A `RUN` line: none of the CMD, USER and HEALTHCHECK tests picks it. */
  function Run(rest: string): (line: string)
    ensures PlainLine(line)
  {
    PlainHead("RUN", rest, 0);
    "RUN" + rest
  }

  /** Nor does the COPY/CMD/ENTRYPOINT test. */
  lemma RunNotCopy(rest: string)
    ensures !IsCopyCmdOrEntrypoint(Run(rest))
  {
    HeadRefutes("RUN", rest, 0, "COPY");
    HeadRefutes("RUN", rest, 0, "CMD");
    HeadRefutes("RUN", rest, 0, "ENTRYPOINT");
  }

  /** A continuation line of a RUN block: four spaces, then a command word
      in lower case. */
  function Cont(word: string, rest: string): (line: string)
    requires word != [] && 'a' <= word[0] <= 'z'
    ensures PlainLine(line)
  {
    PlainHead("    " + word, rest, 4);
    ("    " + word) + rest
  }

  /** No line of ls is picked by the CMD, USER or HEALTHCHECK tests. */
  predicate AllPlain(ls: seq<string>) {
    Every(ls, PlainLine)
  }

  /** The continuation lines of a RUN block, one per (word, rest) pair. */
  function Conts(parts: seq<(string, string)>): (r: seq<string>)
    requires forall i :: 0 <= i < |parts| ==> parts[i].0 != [] && 'a' <= parts[i].0[0] <= 'z'
    ensures |r| == |parts| && AllPlain(r)
  {
    if parts == [] then []
    else
      EveryCons(Cont(parts[0].0, parts[0].1), Conts(parts[1..]), PlainLine);
      [Cont(parts[0].0, parts[0].1)] + Conts(parts[1..])
  }

  /** A RUN block written as one line per command: `RUN <first>` and then
      the continuation lines. */
  function Block(first: string, parts: seq<(string, string)>): (r: seq<string>)
    requires forall i :: 0 <= i < |parts| ==> parts[i].0 != [] && 'a' <= parts[i].0[0] <= 'z'
    ensures |r| == |parts| + 1 && AllPlain(r)
  {
    EveryCons(Run(first), Conts(parts), PlainLine);
    [Run(first)] + Conts(parts)
  }

  /** `USER <who>`: a USER line, and neither a CMD nor a HEALTHCHECK line. */
  function UserLine(who: string): (line: string)
    requires who != [] && !IsSpace(who[|who| - 1])
    ensures IsUserLine(line) && !IsCmdLine(line) && !IsHealthcheckLine(line)
  {
    KeywordHead("USER", " " + who);
    HeadRefutes("USER", " " + who, 0, "CMD");
    HeadRefutes("USER", " " + who, 0, "HEALTHCHECK");
    "USER" + (" " + who)
  }

  /** `HEALTHCHECK <rest>`: a HEALTHCHECK line, and neither a CMD nor a
      USER line, even though rest holds `CMD` on its second line. */
  function HealthcheckLine(rest: string): (line: string)
    requires rest != [] && !IsSpace(rest[|rest| - 1])
    ensures IsHealthcheckLine(line) && !IsCmdLine(line) && !IsUserLine(line)
  {
    KeywordHead("HEALTHCHECK", rest);
    HeadRefutes("HEALTHCHECK", rest, 0, "CMD");
    HeadRefutes("HEALTHCHECK", rest, 0, "USER");
    "HEALTHCHECK" + rest
  }

  // ---------------------------------------------------------------------
  // The two insertions relative to the first line of a kind (the first
  // CMD line, in both fixers)

  /** `if pos is not None: lines.insert(pos, x)`, where pos is the first
      line passing p. */
  function AddBeforeFirst(es: seq<Entry>, x: Entry, p: string -> bool): seq<Entry> {
    match FirstWhere(Texts(es), p)
    case None => es
    case Some(c) => Insert(es, c, [x])
  }

  /** The same, but appending x when no line passes p. */
  function PlaceBeforeFirst(es: seq<Entry>, x: Entry, p: string -> bool): seq<Entry> {
    match FirstWhere(Texts(es), p)
    case None => es + [x]
    case Some(c) => Insert(es, c, [x])
  }

  /** `lines.insert(pos + 1, x)` for the first line passing p, if any. */
  function AddAfterFirst(es: seq<Entry>, x: Entry, p: string -> bool): seq<Entry> {
    match FirstWhere(Texts(es), p)
    case None => es
    case Some(c) => Insert(es, c + 1, [x])
  }
  lemma AddAfterFirstIsInsert(es: seq<Entry>, x: Entry, p: string -> bool)
    ensures FirstWhere(Texts(es), p).Some? ==>
      AddAfterFirst(es, x, p) == Insert(es, FirstWhere(Texts(es), p).value + 1, [x])
  {
  }
  lemma AddAfterFirstAt(es: seq<Entry>, x: Entry, p: string -> bool, c: nat)
    requires FirstWhere(Texts(es), p) == Some(c)
    ensures c + 1 <= |es| && AddAfterFirst(es, x, p) == Insert(es, c + 1, [x])
  {
  }

  lemma AddAfterFirstNone(es: seq<Entry>, x: Entry, p: string -> bool)
    requires FirstWhere(Texts(es), p).None?
    ensures AddAfterFirst(es, x, p) == es
  {
  }



  method InsertAfterFirstLines(lines: seq<string>, text: string, p: string -> bool,
                               ghost es: seq<Entry>, ghost o: Origin)
    returns (r: seq<string>)
    requires lines == Texts(es)
    ensures r == Texts(AddAfterFirst(es, Entry(text, o), p))
  {
    var pos := FindFirst(lines, p);
    TextsAddAfterFirst(es, Entry(text, o), p);
    if pos.Some? {
      r := Insert(lines, pos.value + 1, [text]);
    } else {
      r := lines;
    }
  }

  lemma TextsAddAfterFirst(es: seq<Entry>, x: Entry, p: string -> bool)
    ensures FirstWhere(Texts(es), p).None? ==> Texts(AddAfterFirst(es, x, p)) == Texts(es)
    ensures FirstWhere(Texts(es), p).Some? ==>
      Texts(AddAfterFirst(es, x, p)) == Insert(Texts(es), FirstWhere(Texts(es), p).value + 1, [x.text])
  {
    match FirstWhere(Texts(es), p)
    case None =>
    case Some(c) =>
      AddAfterFirstIsInsert(es, x, p);
      TextsInsertOne(es, c + 1, x);
  }


  method InsertBeforeFirstLines(lines: seq<string>, text: string, p: string -> bool,
                                ghost es: seq<Entry>, ghost o: Origin)
    returns (r: seq<string>)
    requires lines == Texts(es)
    ensures r == Texts(AddBeforeFirst(es, Entry(text, o), p))
  {
    var pos := FindFirst(lines, p);
    r := lines;
    if pos.Some? {
      TextsInsert(es, pos.value, [Entry(text, o)]);
      assert Texts([Entry(text, o)]) == [text];
      r := Insert(lines, pos.value, [text]);
    }
  }

  method PlaceBeforeFirstLines(lines: seq<string>, text: string, p: string -> bool,
                               ghost es: seq<Entry>, ghost o: Origin)
    returns (r: seq<string>)
    requires lines == Texts(es)
    ensures r == Texts(PlaceBeforeFirst(es, Entry(text, o), p))
  {
    var pos := FindFirst(lines, p);
    if pos.Some? {
      TextsInsert(es, pos.value, [Entry(text, o)]);
      assert Texts([Entry(text, o)]) == [text];
      r := Insert(lines, pos.value, [text]);
    } else {
      assert Texts(es + [Entry(text, o)]) == Texts(es) + [text];
      r := lines + [text];
    }
  }

  /** x sits at u, just before the first line passing p, or last when no
      line passes p. */
  predicate PlacedBeforeFirst(es: seq<Entry>, u: nat, x: Entry, p: string -> bool) {
    u < |es| && es[u] == x &&
    (BeforeFirst(es, u, x, p) || (u == |es| - 1 && forall j :: 0 <= j < |es| ==> !p(es[j].text)))
  }

  /** x is the one line added, placed just before the first line passing
      p, or last when there is none. */
  lemma PlaceBeforeFirstSpec(es: seq<Entry>, x: Entry, p: string -> bool)
    requires !p(x.text)
    ensures exists u :: PlacedBeforeFirst(PlaceBeforeFirst(es, x, p), u, x, p)
  {
    var r := PlaceBeforeFirst(es, x, p);
    match FirstWhere(Texts(es), p)
    case None =>
      forall j | 0 <= j < |r| ensures !p(r[j].text) {
        if j < |es| { assert r[j] == es[j] && Texts(es)[j] == es[j].text; }
      }
      assert PlacedBeforeFirst(r, |r| - 1, x, p);
    case Some(c) =>
      InsertBeforeFirst(es, x, p);
      assert PlacedBeforeFirst(r, c, x, p);
  }

  lemma CountSingle(x: Entry, o: Origin)
    ensures Count([x], From(o)) == if x.origin == o then 1 else 0
  {
    assert [x][1..] == [];
  }

  /** Adding x keeps the lines from the input, and adds one line of x's
      origin when there is a line passing p. */
  lemma AddBeforeFirstKeeps(es: seq<Entry>, x: Entry, p: string -> bool, o: Origin)
    requires x.origin != Source
    ensures SourceTexts(AddBeforeFirst(es, x, p)) == SourceTexts(es)
    ensures Count(AddBeforeFirst(es, x, p), From(o)) ==
      Count(es, From(o)) + (if x.origin == o && Any(Texts(es), p) then 1 else 0)
  {
    match FirstWhere(Texts(es), p)
    case None =>
    case Some(c) =>
      SourceTextsInsert(es, c, [x]);
      CountInsert(es, c, [x], From(o));
      CountSingle(x, o);
  }

  /** Where PlaceBeforeFirst puts x, as an Insert. */
  function PlacePos(es: seq<Entry>, p: string -> bool): (k: nat)
    ensures k <= |es|
  {
    match FirstWhere(Texts(es), p)
    case None => |es|
    case Some(c) => c
  }

  lemma PlaceBeforeFirstIsInsert(es: seq<Entry>, x: Entry, p: string -> bool)
    ensures PlaceBeforeFirst(es, x, p) == Insert(es, PlacePos(es, p), [x])
  {
  }

  lemma PlaceBeforeFirstKeeps(es: seq<Entry>, x: Entry, p: string -> bool, o: Origin)
    requires x.origin != Source
    ensures SourceTexts(PlaceBeforeFirst(es, x, p)) == SourceTexts(es)
    ensures Count(PlaceBeforeFirst(es, x, p), From(o)) == Count(es, From(o)) + (if x.origin == o then 1 else 0)
  {
    var k := PlacePos(es, p);
    PlaceBeforeFirstIsInsert(es, x, p);
    SourceTextsInsert(es, k, [x]);
    CountInsert(es, k, [x], From(o));
    CountSingle(x, o);
  }

  /** Adding x before the first line passing p puts it in front of every
      such line. */
  lemma AddBeforeFirstPrecedes(es: seq<Entry>, x: Entry, p: string -> bool)
    requires !p(x.text) && Any(Texts(es), p)
    ensures PrecedesAll(AddBeforeFirst(es, x, p), FirstWhere(Texts(es), p).value, x, p)
  {
    var c := FirstWhere(Texts(es), p).value;
    InsertBeforeFirst(es, x, p);
    BeforeFirstPrecedes(Insert(es, c, [x]), c, x, p);
  }

  /** The same for AddAfterFirst. */
  lemma AddAfterFirstKeeps(es: seq<Entry>, x: Entry, p: string -> bool, o: Origin)
    requires x.origin != Source
    ensures SourceTexts(AddAfterFirst(es, x, p)) == SourceTexts(es)
    ensures Count(AddAfterFirst(es, x, p), From(o)) ==
      Count(es, From(o)) + (if x.origin == o && Any(Texts(es), p) then 1 else 0)
  {
    match FirstWhere(Texts(es), p)
    case None =>
      assert !Any(Texts(es), p);
    case Some(c) =>
      assert Any(Texts(es), p);
      AddAfterFirstIsInsert(es, x, p);
      SourceTextsInsert(es, c + 1, [x]);
      CountInsert(es, c + 1, [x], From(o));
      CountSingle(x, o);
  }

  /** x sits at c + 1, right after the line at c, which is the first line
      passing p. */
  predicate RightAfterFirst(es: seq<Entry>, c: nat, x: Entry, p: string -> bool) {
    c + 1 < |es| && es[c + 1] == x && p(es[c].text) &&
    forall j :: 0 <= j < c ==> !p(es[j].text)
  }

  /** Adding x right after the first line passing p: the line before it is
      that first line. */
  lemma AddAfterFirstPlaced(es: seq<Entry>, x: Entry, p: string -> bool)
    requires Any(Texts(es), p)
    ensures RightAfterFirst(AddAfterFirst(es, x, p), FirstWhere(Texts(es), p).value, x, p)
  {
    var c := FirstWhere(Texts(es), p).value;
    FirstOf(es, p, c);
    var r := Insert(es, c + 1, [x]);
    assert r[c] == es[c];
    assert forall j :: 0 <= j < c ==> r[j] == es[j];
  }

  /** A line that does not pass q, added by any of the three insertions,
      keeps whether some line passes q. */
  lemma AnyAddBeforeFirst(es: seq<Entry>, x: Entry, p: string -> bool, q: string -> bool)
    requires !q(x.text)
    ensures Any(Texts(AddBeforeFirst(es, x, p)), q) == Any(Texts(es), q)
  {
    match FirstWhere(Texts(es), p)
    case None =>
    case Some(c) => AnyTextsInsert(es, c, [x], q);
  }

  lemma AnyAddAfterFirst(es: seq<Entry>, x: Entry, p: string -> bool, q: string -> bool)
    requires !q(x.text)
    ensures Any(Texts(AddAfterFirst(es, x, p)), q) == Any(Texts(es), q)
  {
    match FirstWhere(Texts(es), p)
    case None =>
    case Some(c) =>
      AddAfterFirstIsInsert(es, x, p);
      AnyTextsInsert(es, c + 1, [x], q);
  }

  lemma AnyPlaceBeforeFirst(es: seq<Entry>, x: Entry, p: string -> bool, q: string -> bool)
    requires !q(x.text)
    ensures Any(Texts(PlaceBeforeFirst(es, x, p)), q) <==> Any(Texts(es), q)
  {
    PlaceBeforeFirstIsInsert(es, x, p);
    AnyTextsInsert(es, PlacePos(es, p), [x], q);
  }

  /** A line that passes q, added by any of the three insertions, keeps
      every line passing q. */
  lemma AllAddBeforeFirst(es: seq<Entry>, x: Entry, p: string -> bool, q: string -> bool)
    requires AllTexts(es, q) && q(x.text)
    ensures AllTexts(AddBeforeFirst(es, x, p), q)
  {
    match FirstWhere(Texts(es), p)
    case None =>
    case Some(c) => AllInsert(es, c, [x], q);
  }

  lemma AllAddAfterFirst(es: seq<Entry>, x: Entry, p: string -> bool, q: string -> bool)
    requires AllTexts(es, q) && q(x.text)
    ensures AllTexts(AddAfterFirst(es, x, p), q)
  {
    match FirstWhere(Texts(es), p)
    case None =>
    case Some(c) => AllInsert(es, c + 1, [x], q);
  }

  lemma AllPlaceBeforeFirst(es: seq<Entry>, x: Entry, p: string -> bool, q: string -> bool)
    requires AllTexts(es, q) && q(x.text)
    ensures AllTexts(PlaceBeforeFirst(es, x, p), q)
  {
    PlaceBeforeFirstIsInsert(es, x, p);
    AllInsert(es, PlacePos(es, p), [x], q);
  }

  /** Placing a line x that q does not pick keeps y in front of every
      line passing q; k' is where y ends up. */
  lemma PlaceBeforeFirstPrecedes(es: seq<Entry>, k: nat, y: Entry, x: Entry, p: string -> bool, q: string -> bool)
    returns (k': nat)
    requires PrecedesAll(es, k, y, q) && !q(x.text)
    ensures PrecedesAll(PlaceBeforeFirst(es, x, p), k', y, q)
  {
    var c := PlacePos(es, p);
    PlaceBeforeFirstIsInsert(es, x, p);
    PrecedesAllInsert(es, k, y, q, c, [x]);
    if c <= k {
      k' := k + 1;
      assert PrecedesAll(Insert(es, c, [x]), k', y, q);
    } else {
      k' := k;
      assert PrecedesAll(Insert(es, c, [x]), k', y, q);
    }
  }

  // ---------------------------------------------------------------------
  // The USER step

  /** A USER line that is neither a CMD nor a HEALTHCHECK line. */
  predicate SwitchesUser(u: string) {
    IsUserLine(u) && !IsCmdLine(u) && !IsHealthcheckLine(u)
  }

  /** The USER step of both fixers: the USER line u goes before the first
      CMD line, unless the file has a USER line. */
  function SwitchStep(es: seq<Entry>, hasUser: bool, u: string): seq<Entry> {
    if hasUser then es else AddBeforeFirst(es, Entry(u, UserSwitch), IsCmdLine)
  }

  lemma SwitchStepKeeps(es: seq<Entry>, hasUser: bool, u: string, o: Origin)
    ensures SourceTexts(SwitchStep(es, hasUser, u)) == SourceTexts(es)
    ensures Count(SwitchStep(es, hasUser, u), From(o)) ==
      Count(es, From(o)) + (if o == UserSwitch && !hasUser && Any(Texts(es), IsCmdLine) then 1 else 0)
  {
    if !hasUser {
      AddBeforeFirstKeeps(es, Entry(u, UserSwitch), IsCmdLine, o);
    }
  }

  lemma SwitchStepAny(es: seq<Entry>, hasUser: bool, u: string, q: string -> bool)
    requires !q(u)
    ensures Any(Texts(SwitchStep(es, hasUser, u)), q) == Any(Texts(es), q)
  {
    if !hasUser {
      AnyAddBeforeFirst(es, Entry(u, UserSwitch), IsCmdLine, q);
    }
  }

  lemma SwitchStepPrecedes(es: seq<Entry>, u: string)
    requires !IsCmdLine(u) && Any(Texts(es), IsCmdLine)
    ensures PrecedesAll(SwitchStep(es, false, u), FirstWhere(Texts(es), IsCmdLine).value, Entry(u, UserSwitch), IsCmdLine)
  {
    AddBeforeFirstPrecedes(es, Entry(u, UserSwitch), IsCmdLine);
  }

  // ---------------------------------------------------------------------
  // Inserting a block of plain lines

  /** q picks no plain line. */
  ghost predicate MissesPlain(q: string -> bool) {
    forall x :: PlainLine(x) ==> !q(x)
  }

  lemma CmdMissesPlain()
    ensures MissesPlain(IsCmdLine)
  {
  }

  lemma HealthcheckMissesPlain()
    ensures MissesPlain(IsHealthcheckLine)
  {
  }

  lemma SourceTextsInsertTagged(es: seq<Entry>, k: nat, ls: seq<string>, o: Origin)
    requires k <= |es| && o != Source
    ensures SourceTexts(Insert(es, k, Tagged(ls, o))) == SourceTexts(es)
  {
    SourceTextsInsert(es, k, Tagged(ls, o));
  }

  lemma AnyInsertPlain(es: seq<Entry>, k: nat, ls: seq<string>, o: Origin, q: string -> bool)
    requires k <= |es| && AllPlain(ls) && MissesPlain(q)
    ensures Any(Texts(Insert(es, k, Tagged(ls, o))), q) == Any(Texts(es), q)
  {
    var xs := Tagged(ls, o);
    assert forall j :: 0 <= j < |xs| ==> !q(xs[j].text) by {
      forall j | 0 <= j < |xs| ensures !q(xs[j].text) {
        EveryAt(ls, PlainLine, j);
      }
    }
    AnyTextsInsert(es, k, xs, q);
  }

  lemma AllInsertPlain(es: seq<Entry>, k: nat, ls: seq<string>, o: Origin, q: string -> bool)
    requires k <= |es| && AllPlain(ls) && AllTexts(es, q)
    requires forall x :: PlainLine(x) ==> q(x)
    ensures AllTexts(Insert(es, k, Tagged(ls, o)), q)
  {
    var xs := Tagged(ls, o);
    assert AllTexts(xs, q) by {
      forall j | 0 <= j < |xs| ensures q(xs[j].text) {
        EveryAt(ls, PlainLine, j);
      }
    }
    AllInsert(es, k, xs, q);
  }

  lemma CountInsertTagged(es: seq<Entry>, k: nat, ls: seq<string>, o: Origin, q: Origin)
    requires k <= |es|
    ensures Count(Insert(es, k, Tagged(ls, o)), From(q)) == Count(es, From(q)) + (if o == q then |ls| else 0)
  {
    CountInsert(es, k, Tagged(ls, o), From(q));
    CountTagged(ls, o, q);
  }
}
