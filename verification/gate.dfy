/** The release gate: from an upstream status string and its counts to a commit status, failing safe at
    every stage. */
module Gate {
  import opened Text

  /** `Unlisted` stands for any string outside the named ones. */
  datatype GateDecision = Pass | Warn | Block | Incomplete | Error | Unlisted(text: string)

  datatype Status =
    | Completed | CompletedWithCriticalFailure | CompletedWithRegression | Errored | Partial | Pending
    | NotConfigured | Blocked | UnlistedStatus(text: string)

  datatype EvalResult = EvalResult(
    rawStatus: string, newCriticalFailures: int, regressed: int, incomplete: int, errored: int)

  datatype Policy = Policy(regressionBlocks: bool, assuranceRequired: bool)

  // ----- Normalizing the upstream status

  predicate IsBlank(c: char) {
    c == ' ' || c == '\t'
  }

  function UpperChar(c: char): char {
    if 'a' <= c <= 'z' then (c as int - 32) as char else c
  }

  function Upper(s: string): (r: string)
    ensures |r| == |s| && forall i | 0 <= i < |s| :: r[i] == UpperChar(s[i])
  {
    seq(|s|, i requires 0 <= i < |s| => UpperChar(s[i]))
  }

  /** Small ASCII letters become capitals, and nothing else changes. */
  lemma UpperMeaning(s: string)
    ensures |Upper(s)| == |s|
    ensures forall i | 0 <= i < |s| ::
              Upper(s)[i] as int == s[i] as int - if 'a' <= s[i] <= 'z' then 'a' as int - 'A' as int else 0
  {
  }

  predicate AllBlank(s: string) {
    forall i | 0 <= i < |s| :: IsBlank(s[i])
  }

  function DropLeft(s: string): string {
    if s != "" && IsBlank(s[0]) then DropLeft(s[1..]) else s
  }

  function DropRight(s: string): string {
    if s != "" && IsBlank(s[|s| - 1]) then DropRight(s[..|s| - 1]) else s
  }

  /** Trimmed of spaces and tabs, in upper case. */
  function Normalized(s: string): string {
    Upper(DropRight(DropLeft(s)))
  }

  lemma {:induction false} DropLeftBlanks(left: string, rest: string)
    requires AllBlank(left)
    ensures DropLeft(left + rest) == DropLeft(rest)
  {
    if left == "" {
      assert left + rest == rest;
    } else {
      assert (left + rest)[1..] == left[1..] + rest;
      DropLeftBlanks(left[1..], rest);
    }
  }

  lemma {:induction false} DropRightBlanks(rest: string, right: string)
    requires AllBlank(right)
    ensures DropRight(rest + right) == DropRight(rest)
  {
    if right == "" {
      assert rest + right == rest;
    } else {
      assert (rest + right)[..|rest + right| - 1] == rest + right[..|right| - 1];
      DropRightBlanks(rest, right[..|right| - 1]);
    }
  }

  /** However a string is cut into blanks, a trimmed core and blanks, the core in upper case is its normal form. */
  lemma NormalizedMeaning(left: string, core: string, right: string)
    requires forall i | 0 <= i < |left| :: left[i] == ' ' || left[i] == '\t'
    requires forall i | 0 <= i < |right| :: right[i] == ' ' || right[i] == '\t'
    requires forall i | i == 0 || i == |core| - 1 :: core != "" ==> core[i] != ' ' && core[i] != '\t'
    ensures Normalized(left + core + right) == Upper(core)
  {
    assert left + core + right == left + (core + right);
    DropLeftBlanks(left, core + right);
    if core == "" {
      assert core + right == right + "" && right + core == right;
      DropLeftBlanks(right, "");
    } else {
      assert (core + right)[0] == core[0];
      DropRightBlanks(core, right);
    }
  }

  method NormalizeStatus(s: string) returns (r: string)
    ensures r == Normalized(s)
  {
    var start, end := 0, |s|;
    while start < end && IsBlank(s[start])
      invariant start <= end == |s| && AllBlank(s[..start])
    {
      start := start + 1;
    }
    while end > start && IsBlank(s[end - 1])
      invariant start <= end <= |s| && AllBlank(s[end..])
    {
      end := end - 1;
    }
    var b := "";
    for i := start to end
      invariant b == Upper(s[start..i])
    {
      var c := s[i];
      if 'a' <= c <= 'z' {
        c := (c as int - 32) as char;
      }
      assert s[start..i + 1] == s[start..i] + [s[i]];
      b := b + [c];
    }
    var core := s[start..end];
    assert s == s[..start] + core + s[end..];
    assert core != "" ==> core[0] == s[start] && core[|core| - 1] == s[end - 1];
    NormalizedMeaning(s[..start], core, s[end..]);
    r := b;
  }

  // ----- Status, decision, gate

  function MapEvalStatus(r: EvalResult): Status {
    var n := Normalized(r.rawStatus);
    if n == "COMPLETED" then
      if r.errored > 0 then Errored
      else if r.incomplete > 0 then Partial
      else if r.newCriticalFailures > 0 then CompletedWithCriticalFailure
      else if r.regressed > 0 then CompletedWithRegression
      else Completed
    else if n == "ERROR" || n == "FAILED" then Errored
    else if n == "CANCELLED" then Partial
    else Pending
  }

  function Decide(s: Status, p: Policy): GateDecision {
    match s
    case Completed => Pass
    case CompletedWithCriticalFailure => Block
    case Blocked => Block
    case CompletedWithRegression => if p.regressionBlocks then Block else Warn
    case Errored => Error
    case Partial => Incomplete
    case Pending => Incomplete
    case NotConfigured => if p.assuranceRequired then Block else Warn
    case UnlistedStatus(_) => Incomplete
  }

  datatype GateResult = GateResult(decision: GateDecision, rules: seq<string>)

  method CombinedGate(status: Status, code: GateDecision, p: Policy) returns (r: GateResult)
    ensures r == Combined(status, code, p)
  {
    var rules: seq<string> := [];
    if code == Block {
      rules := rules + ["CODE_CRITICAL"];
    }
    var agent := Decide(status, p);
    match status {
      case CompletedWithCriticalFailure => rules := rules + ["AGENT_CRITICAL_SCENARIO"];
      case CompletedWithRegression => rules := rules + ["NONCRITICAL_REGRESSION"];
      case NotConfigured => rules := rules + ["OPTIONAL_ASSURANCE_UNAVAILABLE"];
      case Completed =>
      case UnlistedStatus(_) =>
      case _ => rules := rules + ["AGENT_EVAL_INCOMPLETE"];
    }
    if code == Block || agent == Block {
      return GateResult(Block, rules);
    }
    if agent == Error {
      return GateResult(Error, rules);
    }
    if agent == Incomplete {
      return GateResult(Incomplete, rules);
    }
    if agent == Warn || code == Warn {
      if code == Warn {
        rules := rules + ["COVERAGE_GAP"];
      }
      return GateResult(Warn, rules);
    }
    return GateResult(Pass, rules);
  }

  /** The order of precedence of the gate. */
  function Severity(d: GateDecision): nat {
    match d
    case Block => 4
    case Error => 3
    case Incomplete => 2
    case Warn => 1
    case _ => 0
  }

  function CodeSeverity(code: GateDecision): nat {
    if code == Block || code == Warn then Severity(code) else 0
  }

  /** Reference: the stricter of what the agent's status and the code verdict call for, with the reasons on each
      side. */
  function Combined(status: Status, code: GateDecision, p: Policy): GateResult {
    var agent := Decide(status, p);
    var codeRule := if code == Block then ["CODE_CRITICAL"] else [];
    var agentRule := match status
      case Completed => []
      case UnlistedStatus(_) => []
      case CompletedWithCriticalFailure => ["AGENT_CRITICAL_SCENARIO"]
      case CompletedWithRegression => ["NONCRITICAL_REGRESSION"]
      case NotConfigured => ["OPTIONAL_ASSURANCE_UNAVAILABLE"]
      case _ => ["AGENT_EVAL_INCOMPLETE"];
    if Severity(agent) >= CodeSeverity(code)
    then GateResult(agent, codeRule + agentRule + if code == Warn && agent == Warn then ["COVERAGE_GAP"] else [])
    else GateResult(code, codeRule + agentRule + if code == Warn then ["COVERAGE_GAP"] else [])
  }

  /** Which rules the gate cites. */
  lemma RulesCited(status: Status, code: GateDecision, p: Policy)
    ensures var r := Combined(status, code, p);
      && ("CODE_CRITICAL" in r.rules <==> code == Block)
      && ("AGENT_CRITICAL_SCENARIO" in r.rules <==> status == CompletedWithCriticalFailure)
      && ("NONCRITICAL_REGRESSION" in r.rules <==> status == CompletedWithRegression)
      && ("AGENT_EVAL_INCOMPLETE" in r.rules <==> status in {Errored, Partial, Pending, Blocked})
      && ("OPTIONAL_ASSURANCE_UNAVAILABLE" in r.rules <==> status == NotConfigured)
      && ("COVERAGE_GAP" in r.rules <==> r.decision == Warn && code == Warn)
      && |r.rules| <= 2
  {
    RuleNamesDiffer();
  }

  lemma RuleNamesDiffer()
    ensures |"CODE_CRITICAL"| == 13 && |"AGENT_CRITICAL_SCENARIO"| == 23 && |"NONCRITICAL_REGRESSION"| == 22
    ensures |"AGENT_EVAL_INCOMPLETE"| == 21 && |"OPTIONAL_ASSURANCE_UNAVAILABLE"| == 30 && |"COVERAGE_GAP"| == 12
  {
  }

  /** What each status and each code verdict lead to, however they are combined. */
  lemma CombinedDecides(status: Status, code: GateDecision, p: Policy)
    ensures var d := Combined(status, code, p).decision;
      && (d == Block <==>
            || code == Block || status == CompletedWithCriticalFailure || status == Blocked
            || (status == CompletedWithRegression && p.regressionBlocks)
            || (status == NotConfigured && p.assuranceRequired))
      && (d == Error <==> code != Block && status == Errored)
      && (d == Incomplete <==> code != Block && (status == Partial || status == Pending || status.UnlistedStatus?))
      && (d == Pass <==> code != Block && code != Warn && status == Completed)
      && (d == Warn <==> d != Block && d != Error && d != Incomplete && d != Pass)
  {
  }

  // ----- The evidence record

  /** The fields the validators look at; what is only passed through is left out. */
  datatype Correlation = Correlation(
    schemaVersion: string, organizationId: string, projectId: string, codeSubmissionId: string, repository: string,
    commitSha: string, releaseId: string, agentId: string, agentVersion: string, correlationId: string)

  datatype AgentRef = AgentRef(
    evaluationRunId: string, project: string, baselineVersion: string, candidateVersion: string, seed: string,
    result: EvalResult, scenarioSelection: seq<string>)

  /** `createdAt` 0 is Go's zero time. */
  datatype Evidence = Evidence(
    schemaVersion: string, releaseId: string, correlationId: string, createdAt: int, organizationId: string,
    projectId: string, repository: string, codeSubmissionId: string, commitSha: string, codeVerdict: GateDecision,
    agentId: string, baselineVersion: string, candidateVersion: string, agentProject: string, evaluationRunId: string,
    scenarioSelection: seq<string>, runSeed: string, overallStatus: Status, gateDecision: GateDecision,
    triggeredRules: seq<string>, snapshotHash: string)

  const SCHEMA := "1.0.0"

  predicate IsHex(c: char) {
    '0' <= c <= '9' || 'a' <= c <= 'f' || 'A' <= c <= 'F'
  }

  predicate LooksLikeCommitSha(s: string) {
    7 <= |s| <= 64 && forall i | 0 <= i < |s| :: IsHex(s[i])
  }

  predicate Filled(s: string) {
    TrimSpace(s) != ""
  }

  predicate CorrelationValid(c: Correlation) {
    && c.schemaVersion == SCHEMA
    && Filled(c.organizationId) && Filled(c.projectId) && Filled(c.codeSubmissionId) && Filled(c.repository)
    && Filled(c.commitSha) && Filled(c.releaseId) && Filled(c.agentId) && Filled(c.agentVersion)
    && Filled(c.correlationId)
    && LooksLikeCommitSha(c.commitSha)
  }

  predicate FieldsValid(e: Evidence) {
    && e.schemaVersion == SCHEMA
    && Filled(e.releaseId) && Filled(e.correlationId) && Filled(e.organizationId) && Filled(e.projectId)
    && Filled(e.repository) && Filled(e.codeSubmissionId) && Filled(e.commitSha) && Filled(e.agentId)
    && Filled(e.baselineVersion) && Filled(e.candidateVersion) && Filled(e.agentProject) && Filled(e.evaluationRunId)
    && Filled(e.runSeed) && Filled(e.snapshotHash) && e.createdAt != 0 && LooksLikeCommitSha(e.commitSha)
    && e.scenarioSelection != [] && !e.overallStatus.UnlistedStatus? && !e.gateDecision.Unlisted?
    && !e.codeVerdict.Unlisted?
  }

  /** A PASS gate contradicts any status but a clean completion. */
  predicate PassIsClean(e: Evidence) {
    e.gateDecision == Pass ==> e.overallStatus == Completed
  }

  /** A blocking or warning decision cites a rule. */
  predicate IsExplained(e: Evidence) {
    e.gateDecision == Block || e.gateDecision == Warn ==> e.triggeredRules != []
  }

  /** What the field checks demand, in terms of the texts themselves. */
  lemma FieldsMeaning(e: Evidence)
    ensures FieldsValid(e) <==>
            && !Blank(e.releaseId) && !Blank(e.correlationId) && !Blank(e.organizationId) && !Blank(e.projectId)
            && !Blank(e.repository) && !Blank(e.codeSubmissionId) && !Blank(e.agentId) && !Blank(e.baselineVersion)
            && !Blank(e.candidateVersion) && !Blank(e.agentProject) && !Blank(e.evaluationRunId) && !Blank(e.runSeed)
            && !Blank(e.snapshotHash) && e.createdAt != 0 && e.scenarioSelection != [] && e.schemaVersion == "1.0.0"
            && HexDigits(e.commitSha) && 7 <= |e.commitSha| <= 64
            && !e.overallStatus.UnlistedStatus? && !e.gateDecision.Unlisted? && !e.codeVerdict.Unlisted?
  {
    TrimmedIsBlank();
    HexIsFilled(e.commitSha);
    hide Filled, Blank, HexDigits, LooksLikeCommitSha;
  }

  /** Likewise for the correlation context. */
  lemma CorrelationMeaning(c: Correlation)
    ensures CorrelationValid(c) <==>
            && !Blank(c.organizationId) && !Blank(c.projectId) && !Blank(c.codeSubmissionId) && !Blank(c.repository)
            && !Blank(c.releaseId) && !Blank(c.agentId) && !Blank(c.agentVersion) && !Blank(c.correlationId)
            && HexDigits(c.commitSha) && 7 <= |c.commitSha| <= 64 && c.schemaVersion == "1.0.0"
  {
    TrimmedIsBlank();
    HexIsFilled(c.commitSha);
    hide Filled, Blank, HexDigits, LooksLikeCommitSha;
  }

  predicate HexDigits(s: string) {
    forall i | 0 <= i < |s| :: '0' <= s[i] <= '9' || 'a' <= s[i] <= 'f' || 'A' <= s[i] <= 'F'
  }

  lemma TrimmedIsBlank()
    ensures forall s: string :: Filled(s) <==> !Blank(s)
  {
    forall s: string ensures TrimSpace(s) == "" <==> Blank(s) {
      TrimSpaceBlank(s);
    }
    hide TrimSpace, Blank;
  }

  lemma HexIsFilled(s: string)
    ensures LooksLikeCommitSha(s) <==> HexDigits(s) && 7 <= |s| <= 64
    ensures LooksLikeCommitSha(s) ==> !Blank(s)
  {
    if LooksLikeCommitSha(s) {
      assert IsHex(s[0]) && !IsSpace(s[0]);
    }
  }

  predicate Valid(e: Evidence) {
    FieldsValid(e) && PassIsClean(e) && IsExplained(e)
  }

  datatype BuildInput = BuildInput(correlation: Correlation, codeVerdict: GateDecision, agent: AgentRef, policy: Policy,
                                   now: int, snapshotHash: string)

  /** `clock` is the time taken when the input carries none. */
  function Assemble(i: BuildInput, clock: int): Evidence {
    var status := MapEvalStatus(i.agent.result);
    var gate := Combined(status, i.codeVerdict, i.policy);
    Evidence(SCHEMA, i.correlation.releaseId, i.correlation.correlationId, if i.now == 0 then clock else i.now,
             i.correlation.organizationId, i.correlation.projectId, i.correlation.repository,
             i.correlation.codeSubmissionId, i.correlation.commitSha, i.codeVerdict, i.correlation.agentId,
             i.agent.baselineVersion, i.agent.candidateVersion,
             i.agent.project, i.agent.evaluationRunId, i.agent.scenarioSelection, i.agent.seed, status, gate.decision,
             gate.rules, i.snapshotHash)
  }

  function BuildReleaseEvidence(i: BuildInput, clock: int): Option<Evidence> {
    if !CorrelationValid(i.correlation) || i.codeVerdict.Unlisted? then None
    else
      var e := Assemble(i, clock);
      if Valid(e) then Some(e) else None
  }

  /** The fail-safe checks of the validator never fire on evidence the builder assembled: a build is refused
      only for the input's own fields. */
  lemma BuilderNeverContradictsItself(i: BuildInput, clock: int)
    ensures var e := Assemble(i, clock); PassIsClean(e) && IsExplained(e)
    ensures BuildReleaseEvidence(i, clock).Some? <==>
            CorrelationValid(i.correlation) && !i.codeVerdict.Unlisted? && FieldsValid(Assemble(i, clock))
  {
  }

  /** From the raw string: what status and decision the evidence carries. */
  lemma EvidenceExactlyWhen(i: BuildInput, clock: int)
    ensures var e, r := Assemble(i, clock), i.agent.result;
      var n := Normalized(r.rawStatus);
      && (e.overallStatus == Errored <==> n == "ERROR" || n == "FAILED" || (n == "COMPLETED" && r.errored > 0))
      && (e.overallStatus == Partial <==>
            n == "CANCELLED" || (n == "COMPLETED" && r.errored <= 0 && r.incomplete > 0))
      && (e.overallStatus == CompletedWithCriticalFailure <==>
            n == "COMPLETED" && r.errored <= 0 && r.incomplete <= 0 && r.newCriticalFailures > 0)
      && (e.overallStatus == CompletedWithRegression <==>
            n == "COMPLETED" && r.errored <= 0 && r.incomplete <= 0 && r.newCriticalFailures <= 0 && r.regressed > 0)
      && (e.overallStatus == Completed <==>
            n == "COMPLETED" && r.errored <= 0 && r.incomplete <= 0 && r.newCriticalFailures <= 0 && r.regressed <= 0)
      && (e.overallStatus == Pending <==> n != "COMPLETED" && n != "ERROR" && n != "FAILED" && n != "CANCELLED")
      && (e.gateDecision == Error <==> i.codeVerdict != Block && e.overallStatus == Errored)
      && (e.gateDecision == Incomplete <==>
            i.codeVerdict != Block && (e.overallStatus == Partial || e.overallStatus == Pending))
      && (e.gateDecision == Pass <==>
            i.codeVerdict != Block && i.codeVerdict != Warn && e.overallStatus == Completed)
      && (e.gateDecision == Block <==>
            || i.codeVerdict == Block || e.overallStatus == CompletedWithCriticalFailure
            || (e.overallStatus == CompletedWithRegression && i.policy.regressionBlocks))
  {
    StatusNamesDiffer();
    CombinedDecides(MapEvalStatus(i.agent.result), i.codeVerdict, i.policy);
    hide Combined, Normalized;
  }

  lemma StatusNamesDiffer()
    ensures "COMPLETED" != "CANCELLED" && |"COMPLETED"| == 9 == |"CANCELLED"|
    ensures |"ERROR"| == 5 && |"FAILED"| == 6
  {
    assert "COMPLETED"[1] == 'O' && "CANCELLED"[1] == 'A';
  }

  /** Built evidence is the input's, field by field. */
  lemma EvidenceCarries(i: BuildInput, clock: int)
    requires BuildReleaseEvidence(i, clock).Some?
    ensures var e, c, a := BuildReleaseEvidence(i, clock).value, i.correlation, i.agent;
      && e.releaseId == c.releaseId && e.correlationId == c.correlationId && e.organizationId == c.organizationId
      && e.projectId == c.projectId && e.repository == c.repository && e.codeSubmissionId == c.codeSubmissionId
      && e.commitSha == c.commitSha && e.agentId == c.agentId && e.codeVerdict == i.codeVerdict
      && e.baselineVersion == a.baselineVersion && e.candidateVersion == a.candidateVersion
      && e.agentProject == a.project && e.evaluationRunId == a.evaluationRunId && e.runSeed == a.seed
      && e.scenarioSelection == a.scenarioSelection && e.snapshotHash == i.snapshotHash
      && e.createdAt == (if i.now == 0 then clock else i.now) && e.schemaVersion == "1.0.0"
  {
    hide CorrelationValid, Valid, Combined, MapEvalStatus;
  }

  // ----- The commit status

  datatype Mode = Shadow | Enforce

  datatype Outcome = Success | Failure | Neutral

  function OutcomeOf(gate: GateDecision, mode: Mode): Outcome {
    var outcome := match gate
      case Pass => Success
      case Block => Failure
      case _ => Neutral;
    if mode == Shadow && outcome == Failure then Neutral else outcome
  }

  function StateFor(o: Outcome): string {
    match o
    case Success => "success"
    case Failure => "failure"
    case Neutral => "pending"
  }

  function CommitState(e: Evidence, mode: Mode): string {
    StateFor(OutcomeOf(e.gateDecision, mode))
  }

  lemma StatesDiffer()
    ensures StateFor(Success) != StateFor(Failure) && StateFor(Success) != StateFor(Neutral)
    ensures StateFor(Failure) != StateFor(Neutral)
  {
    assert "success"[0] == 's' && "failure"[0] == 'f' && "pending"[0] == 'p';
  }

  /** From the raw string to the commit status: "success" exactly when the trimmed, upper-cased status is
      COMPLETED, no failure count is positive and the code verdict neither warns nor blocks; "failure"
      only in enforce mode, for a critical failure, a blocking regression or blocked code. */
  lemma SuccessExactlyWhen(i: BuildInput, clock: int, mode: Mode)
    ensures var e, r := Assemble(i, clock), i.agent.result;
      && (CommitState(e, mode) == "success" <==>
            && Normalized(r.rawStatus) == "COMPLETED"
            && r.errored <= 0 && r.incomplete <= 0 && r.newCriticalFailures <= 0 && r.regressed <= 0
            && i.codeVerdict != Warn && i.codeVerdict != Block)
      && (CommitState(e, mode) == "failure" <==>
            && mode == Enforce
            && (|| i.codeVerdict == Block
                || (&& Normalized(r.rawStatus) == "COMPLETED" && r.errored <= 0 && r.incomplete <= 0
                    && (r.newCriticalFailures > 0 || (r.regressed > 0 && i.policy.regressionBlocks)))))
      && (CommitState(e, mode) != "success" && CommitState(e, mode) != "failure" ==> CommitState(e, mode) == "pending")
  {
    StatesDiffer();
  }

  /** So for the code verdicts PASS, WARN and BLOCK success needs PASS; an INCOMPLETE or ERROR code verdict, which the
      validator accepts, would be let through. */
  lemma CodeVerdictMatters(i: BuildInput, clock: int, mode: Mode)
    requires !i.codeVerdict.Unlisted?
    ensures (CommitState(Assemble(i, clock), mode) == "success" ==> i.codeVerdict == Pass)
       <==> (i.codeVerdict !in {Incomplete, Error} || MapEvalStatus(i.agent.result) != Completed)
  {
    StatesDiffer();
  }

  // ----- An input that is let through

  /** A clean completed run with the given code verdict and the one text in every field. */
  function CleanInput(code: GateDecision, text: string): BuildInput {
    BuildInput(
      Correlation(SCHEMA, text, text, text, text, text, text, text, text, text), code,
      AgentRef(text, text, text, text, text, EvalResult("COMPLETED", 0, 0, 0, 0), [text]), Policy(true, true), 1, text)
  }

  lemma CompletedIsClean()
    ensures MapEvalStatus(EvalResult("COMPLETED", 0, 0, 0, 0)) == Completed
  {
    var s := "COMPLETED";
    assert s[0] == 'C' && s[8] == 'D' && |s| == 9;
    assert Upper(s) == s;
    hide Normalized, Upper;
    NormalizedMeaning("", s, "");
    assert "" + s + "" == s;
  }

  lemma CleanIsAccepted(code: GateDecision, text: string, clock: int)
    requires !code.Unlisted? && code != Block && code != Warn && Filled(text) && LooksLikeCommitSha(text)
    ensures var i := CleanInput(code, text);
      BuildReleaseEvidence(i, clock) == Some(Assemble(i, clock)) && Assemble(i, clock).gateDecision == Pass
  {
    CompletedIsClean();
    BuilderNeverContradictsItself(CleanInput(code, text), clock);
    hide Filled, LooksLikeCommitSha, MapEvalStatus, PassIsClean, IsExplained;
  }

  /** There is a valid record. */
  lemma CleanRecord() returns (e: Evidence)
    ensures Valid(e)
  {
    var i := CleanText(Pass, 1);
    e := Assemble(i, 1);
  }

  lemma CleanText(code: GateDecision, clock: int) returns (i: BuildInput)
    requires !code.Unlisted? && code != Block && code != Warn
    ensures i.codeVerdict == code && BuildReleaseEvidence(i, clock) == Some(Assemble(i, clock))
    ensures Assemble(i, clock).gateDecision == Pass
  {
    var text := "abcdef0";
    assert !IsSpace(text[0]);
    TrimSpaceBlank(text);
    assert LooksLikeCommitSha(text);
    i := CleanInput(code, text);
    CleanIsAccepted(code, text, clock);
  }

  /** The builder accepts a code verdict of ERROR or INCOMPLETE, and the commit status it leads to is success. */
  lemma ErrorVerdictPasses(code: GateDecision, clock: int, mode: Mode) returns (i: BuildInput)
    requires code == Error || code == Incomplete
    ensures var built := BuildReleaseEvidence(i, clock);
      built.Some? && built.value.codeVerdict == code && CommitState(built.value, mode) == "success"
  {
    i := CleanText(code, clock);
    hide BuildReleaseEvidence;
  }
}
