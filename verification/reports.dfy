/** The reporter's domain: what a consumed verdict becomes for its readers. */
module Reports {
  import opened Text
  import Verdicts

  /** A decision as it arrives on the wire; any string may. */
  datatype WireDecision = Known(decision: Verdicts.Decision) | Unknown(text: string)

  datatype WireVerdict = WireVerdict(
    submissionId: string, organizationId: string, decision: WireDecision, source: Verdicts.Source,
    rulesetVersion: string, findings: seq<Verdicts.Finding>, repository: string, commitSha: string, prNumber: int)

  datatype Outcome = Success | Failure | Neutral

  datatype Mode = Enforce | Shadow

  datatype Report = Report(submissionId: string, organizationId: string, outcome: Outcome,
                           repository: string, commitSha: string, prNumber: int)

  datatype Result<T> = Ok(value: T) | Invalid(reason: string)

  function OutcomeFor(decision: WireDecision): Result<Outcome> {
    match decision
    case Known(Approved) => Ok(Success)
    case Known(Rejected) => Ok(Failure)
    case Known(NeedsReview) => Ok(Neutral)
    case Unknown(text) => Invalid("unknown decision " + text)
  }

  function NewReport(v: WireVerdict, mode: Mode): Result<Report> {
    if TrimSpace(v.submissionId) == "" then Invalid("submission_id is required")
    else match OutcomeFor(v.decision)
      case Invalid(reason) => Invalid(reason)
      case Ok(outcome) =>
        var outcome' := if mode == Shadow && outcome == Failure then Neutral else outcome;
        Ok(Report(v.submissionId, v.organizationId, outcome', v.repository, v.commitSha, v.prNumber))
  }

  /** What the consumer decodes from a verdict the orchestrator encoded. */
  function Decode(v: Verdicts.Verdict): WireVerdict {
    WireVerdict(v.submissionId, v.organizationId, Known(v.decision), v.source, v.rulesetVersion, v.findings,
                v.repository, v.commitSha, v.prNumber)
  }

  /** A report is refused exactly when its submission id is blank or its decision unknown. */
  lemma ReportRefused(v: WireVerdict, mode: Mode)
    ensures NewReport(v, mode).Invalid? <==> Blank(v.submissionId) || v.decision.Unknown?
  {
    TrimSpaceBlank(v.submissionId);
  }

  /** Whatever the outcome, a report is about the verdict's submission, tenant, repository, commit and pull request; the
      decision alone, softened in shadow mode, makes the outcome. */
  lemma ReportCarries(v: WireVerdict, mode: Mode)
    requires NewReport(v, mode).Ok?
    ensures var r := NewReport(v, mode).value;
      && r.submissionId == v.submissionId && r.organizationId == v.organizationId
      && r.repository == v.repository && r.commitSha == v.commitSha && r.prNumber == v.prNumber
      && (r.outcome == Success <==> v.decision == Known(Verdicts.Approved))
      && (r.outcome == Failure <==> v.decision == Known(Verdicts.Rejected) && mode != Shadow)
  {
  }

  /** No verdict the Saga emits is poison to the reporter; success is reported for approvals only, and a
      failure, which blocks the merge, only for rejections outside shadow mode. */
  lemma SagaVerdictsAreReported(v: Verdicts.Verdict, mode: Mode)
    requires Verdicts.Emittable(v)
    ensures var r := NewReport(Decode(v), mode);
      && r.Ok? && r.value.submissionId == v.submissionId && r.value.organizationId == v.organizationId
      && r.value.repository == v.repository && r.value.commitSha == v.commitSha && r.value.prNumber == v.prNumber
      && (r.value.outcome == Success <==> v.decision == Verdicts.Approved)
      && (r.value.outcome == Failure <==> v.decision == Verdicts.Rejected && mode != Shadow)
      && (r.value.outcome == Success ==>
            forall f | f in v.findings :: f.severity != Verdicts.Warning && f.severity != Verdicts.Blocking)
  {
    TrimSpaceBlank(v.submissionId);
    if v.decision == Verdicts.Approved {
      Verdicts.ApprovedIsClean(v);
    }
  }
}
