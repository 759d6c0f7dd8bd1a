/** The `re.search` patterns of the two `validate_dockerfile` functions and
    of the EXPOSE scan in `enforce_best_practices`, each as a leftmost
    search over a character-level match predicate. */
module DockerfileChecks {
  import opened SeqUtil
  import opened PyText
  import opened DockerfileCommon

  // ---------------------------------------------------------------------
  // `EXPOSE\s+(\d+)`

  /** The match of `EXPOSE\s+(\d+)` at p, as the span of the port digits.
      Whitespace and digits are disjoint, so the greedy runs decide it. */
  function ExposeMatchAt(s: string, p: nat): (m: Option<Span>)
    requires p <= |s|
    ensures m.Some? ==> p + 6 < m.value.start < m.value.end <= |s|
    ensures m.Some? ==> forall k :: m.value.start <= k < m.value.end ==> IsDigit(s[k])
  {
    if LiteralAt(s, p, "EXPOSE") then
      var w := SpaceRunEnd(s, p + 6);
      var d := if w > p + 6 then DigitRunEnd(s, w) else w;
      if w > p + 6 && d > w then Some(Span(w, d)) else None
    else None
  }

  /** re.search from p: the leftmost match at or after p. */
  function ExposeSearchFrom(s: string, p: nat): (m: Option<Span>)
    requires p <= |s|
    ensures m.Some? ==> m.value.start < m.value.end <= |s|
    ensures m.Some? ==> forall k :: m.value.start <= k < m.value.end ==> IsDigit(s[k])
    ensures m.None? <==> forall q :: p <= q <= |s| ==> ExposeMatchAt(s, q).None?
    decreases |s| - p
  {
    if ExposeMatchAt(s, p).Some? then ExposeMatchAt(s, p)
    else if p == |s| then None
    else ExposeSearchFrom(s, p + 1)
  }

  /** `expose_match.group(1)`, when there is a match: a non-empty digit string. */
  function ExposePortOf(s: string): (g: Option<string>)
    ensures g.Some? ==> g.value != [] && AllDigits(g.value)
    ensures g.None? <==> forall q :: 0 <= q <= |s| ==> ExposeMatchAt(s, q).None?
  {
    match ExposeSearchFrom(s, 0)
    case None => None
    case Some(m) => Some(s[m.start..m.end])
  }

  /** `1 <= int(port) <= 65535`. */
  predicate PortInRange(port: string)
    requires AllDigits(port)
  {
    1 <= DecimalValue(port) <= 65535
  }

  // ---------------------------------------------------------------------
  // `HEALTHCHECK.*http://localhost:(\d+)` (frontend)

  const LocalhostPrefix: string := "http://localhost:"

  /** `http://localhost:(\d+)` at q, as the span of the digits (greedy, and
      nothing follows it in the pattern, so the whole digit run). */
  function LocalhostPortAt(s: string, q: nat): (m: Option<Span>)
    requires q <= |s|
    ensures m.Some? ==> q + 17 == m.value.start < m.value.end <= |s|
    ensures m.Some? ==> forall k :: m.value.start <= k < m.value.end ==> IsDigit(s[k])
  {
    if LiteralAt(s, q, LocalhostPrefix) then
      var d := DigitRunEnd(s, q + 17);
      if d > q + 17 then Some(Span(q + 17, d)) else None
    else None
  }

  /** `.*http://localhost:(\d+)` from i: the greedy `.*` stays on the line
      and backs off from its end, so the rightmost occurrence on the line
      that is followed by a digit wins. */
  function LocalhostOnLine(s: string, i: nat): (m: Option<Span>)
    requires i <= |s|
    ensures m.Some? ==> i + 17 <= m.value.start < m.value.end <= |s|
    ensures m.Some? ==> forall k :: m.value.start <= k < m.value.end ==> IsDigit(s[k])
    ensures m.Some? ==> forall k :: i <= k < m.value.start - 17 ==> s[k] != '\n'
    decreases |s| - i
  {
    var later := if i < |s| && s[i] != '\n' then LocalhostOnLine(s, i + 1) else None;
    if later.Some? then later else LocalhostPortAt(s, i)
  }

  function HealthcheckPortAt(s: string, p: nat): (m: Option<Span>)
    requires p <= |s|
    ensures m.Some? ==> p + 11 <= m.value.start
  {
    if LiteralAt(s, p, "HEALTHCHECK") then LocalhostOnLine(s, p + 11) else None
  }

  function HealthcheckSearchFrom(s: string, p: nat): (m: Option<Span>)
    requires p <= |s|
    ensures m.Some? ==> m.value.start < m.value.end <= |s|
    ensures m.Some? ==> forall k :: m.value.start <= k < m.value.end ==> IsDigit(s[k])
    ensures m.None? <==> forall q :: p <= q <= |s| ==> HealthcheckPortAt(s, q).None?
    decreases |s| - p
  {
    if HealthcheckPortAt(s, p).Some? then HealthcheckPortAt(s, p)
    else if p == |s| then None
    else HealthcheckSearchFrom(s, p + 1)
  }

  /** `healthcheck_match.group(1)`, when there is a match. */
  function HealthcheckPortOf(s: string): (g: Option<string>)
    ensures g.Some? ==> g.value != [] && AllDigits(g.value)
    ensures g.None? <==> forall q :: 0 <= q <= |s| ==> HealthcheckPortAt(s, q).None?
  {
    match HealthcheckSearchFrom(s, 0)
    case None => None
    case Some(m) => Some(s[m.start..m.end])
  }

  // ---------------------------------------------------------------------
  // `HEALTHCHECK.*CMD true` (eureka)

  /** `.*CMD true` from i: "CMD true" later on the same line. */
  predicate CmdTrueOnLine(s: string, i: nat)
    decreases |s| - i
  {
    LiteralAt(s, i, "CMD true") || (i < |s| && s[i] != '\n' && CmdTrueOnLine(s, i + 1))
  }

  predicate HealthcheckCmdTrueAt(s: string, p: nat) {
    LiteralAt(s, p, "HEALTHCHECK") && CmdTrueOnLine(s, p + 11)
  }

  function HasHealthcheckCmdTrueFrom(s: string, p: nat): (b: bool)
    requires p <= |s|
    ensures b <==> exists q :: p <= q <= |s| && HealthcheckCmdTrueAt(s, q)
    decreases |s| - p
  {
    HealthcheckCmdTrueAt(s, p) || (p < |s| && HasHealthcheckCmdTrueFrom(s, p + 1))
  }

  // ---------------------------------------------------------------------
  // `CMD\s+\[".*"\]` and `USER\s+[\w\d]+`, searched anywhere

  function HasExecCmdFrom(s: string, p: nat): (b: bool)
    requires p <= |s|
    ensures b <==> exists q :: p <= q <= |s| && ExecCmdAt(s, q)
    decreases |s| - p
  {
    ExecCmdAt(s, p) || (p < |s| && HasExecCmdFrom(s, p + 1))
  }

  /** The CMD check: some `CMD [` in exec form. */
  function CmdErrors(content: string): seq<string> {
    if !HasExecCmdFrom(content, 0) then [CmdMissing] else []
  }

  /** `USER\s+[\w\d]+` at p: one word character after the whitespace run is
      enough, since `+` needs only one. */
  predicate UserAt(s: string, p: nat)
    requires p <= |s|
  {
    LiteralAt(s, p, "USER") &&
    var w := SpaceRunEnd(s, p + 4);
    w > p + 4 && w < |s| && IsWordChar(s[w])
  }

  function HasUserFrom(s: string, p: nat): (b: bool)
    requires p <= |s|
    ensures b <==> exists q :: p <= q <= |s| && UserAt(s, q)
    decreases |s| - p
  {
    UserAt(s, p) || (p < |s| && HasUserFrom(s, p + 1))
  }

  // ---------------------------------------------------------------------
  // The messages both validators report, in the order they check

  const QuoteError: string := "Nombre impair de guillemets - vérifiez les guillemets non fermés"
  const ExposeMissing: string := "Instruction EXPOSE manquante"
  const HealthcheckMissing: string := "Instruction HEALTHCHECK manquante ou mal formée"
  const CmdMissing: string := "Instruction CMD manquante ou mal formée"
  const UserMissing: string := "Instruction USER manquante pour exécution non-root (peut être UID numérique)"

  function ExposeInvalid(port: string): string
    requires AllDigits(port)
  {
    "Port EXPOSE invalide: " + NatToString(DecimalValue(port))
  }

  function PortMismatch(hc: string, ex: string): string {
    "Port HEALTHCHECK (" + hc + ") ne correspond pas au port EXPOSE (" + ex + ")"
  }

  /** The first two checks, common to both validators: quote parity, then
      EXPOSE present with a port in 1..65535. */
  function QuoteAndExposeErrors(content: string): seq<string> {
    (if CountChar(content, '"') % 2 != 0 then [QuoteError] else []) +
    match ExposePortOf(content)
    case None => [ExposeMissing]
    case Some(port) => if !PortInRange(port) then [ExposeInvalid(port)] else []
  }

  /** The first two checks as both validators run them, appending to the
      list of errors. */
  method QuoteAndExposeChecks(content: string) returns (errors: seq<string>)
    ensures errors == QuoteAndExposeErrors(content)
  {
    errors := [];
    if CountChar(content, '"') % 2 != 0 {
      errors := errors + [QuoteError];
    }
    ghost var quotes := errors;
    assert quotes == if CountChar(content, '"') % 2 != 0 then [QuoteError] else [];
    var exposeMatch := ExposePortOf(content);
    if exposeMatch.None? {
      errors := errors + [ExposeMissing];
    } else if !PortInRange(exposeMatch.value) {
      errors := errors + [ExposeInvalid(exposeMatch.value)];
    }
  }

  predicate QuotesAndExposeOk(content: string) {
    CountChar(content, '"') % 2 == 0 &&
    ExposePortOf(content).Some? && PortInRange(ExposePortOf(content).value)
  }

  /** No message is empty. */
  predicate NoEmptyMessage(ls: seq<string>) {
    forall i :: 0 <= i < |ls| ==> ls[i] != []
  }

  lemma NoEmptyMessageAppend(a: seq<string>, b: seq<string>)
    requires NoEmptyMessage(a) && NoEmptyMessage(b)
    ensures NoEmptyMessage(a + b)
  {
    forall i | 0 <= i < |a + b| ensures (a + b)[i] != [] {
      if i >= |a| { assert (a + b)[i] == b[i - |a|]; }
    }
  }

  lemma QuoteAndExposeErrorsSpec(content: string)
    ensures QuoteAndExposeErrors(content) == [] <==> QuotesAndExposeOk(content)
    ensures NoEmptyMessage(QuoteAndExposeErrors(content))
  {
  }

  /** '\n'.join of non-empty messages is empty only for no message. */
  lemma {:induction false} JoinNonEmpty(ls: seq<string>)
    requires NoEmptyMessage(ls)
    ensures JoinLines(ls) == [] <==> ls == []
  {
    if |ls| > 1 {
      JoinNonEmpty(ls[1..]);
    }
  }
}
