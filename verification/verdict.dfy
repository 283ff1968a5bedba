/** The orchestrator's domain: submissions, findings and the verdicts consolidated from them. */
module Verdicts {
  import opened Text

  /** `Unknown` stands for any string outside the three the domain names. */
  datatype Severity = Info | Warning | Blocking | Unknown(text: string)

  datatype Finding = Finding(stage: string, rule: string, severity: Severity, message: string)

  datatype Decision = Approved | NeedsReview | Rejected

  datatype Source = FromCache | FromPipeline | FromFallback

  datatype Submission = Submission(
    submissionId: string, organizationId: string, repository: string, filePath: string, language: string,
    diff: string, origin: string, occurredAt: int, commitSha: string, prNumber: int)

  datatype Verdict = Verdict(
    submissionId: string, organizationId: string, decision: Decision, source: Source, rulesetVersion: string,
    findings: seq<Finding>, evaluatedAt: int, repository: string, commitSha: string, prNumber: int)
  {
    function StampSource(sub: Submission): Verdict {
      this.(submissionId := sub.submissionId, organizationId := sub.organizationId,
      repository := sub.repository, commitSha := sub.commitSha, prNumber := sub.prNumber)
    }

    function StripSource(): Verdict {
      this.(submissionId := "", organizationId := "", repository := "", commitSha := "", prNumber := 0)
    }

    /** The five identity fields are those of `sub`. */
    predicate Carries(sub: Submission) {
      && submissionId == sub.submissionId && organizationId == sub.organizationId
      && repository == sub.repository && commitSha == sub.commitSha && prNumber == sub.prNumber
    }

    /** No identity field is set. */
    predicate Anonymous() {
      submissionId == "" && organizationId == "" && repository == "" && commitSha == "" && prNumber == 0
    }
  }

  /** Whatever verdict a stamp is applied to, what is left after stripping is unchanged, and a
      stripped verdict forgets whose submission it was made for. */
  lemma StampThenStrip(v: Verdict, sub: Submission, other: Submission)
    ensures v.StampSource(sub) == Verdict(
              sub.submissionId, sub.organizationId, v.decision, v.source, v.rulesetVersion, v.findings, v.evaluatedAt,
              sub.repository, sub.commitSha, sub.prNumber)
    ensures v.StripSource() == Verdict(
              "", "", v.decision, v.source, v.rulesetVersion, v.findings, v.evaluatedAt, "", "", 0)
    ensures v.StampSource(sub).StripSource() == v.StripSource()
    ensures v.StripSource().Anonymous()
    ensures v.StampSource(other).StripSource().StampSource(sub) == v.StampSource(sub)
  {
  }

  /** NewSubmission: the three required fields must not be blank; all but the diff are trimmed. */
  function NewSubmission(submissionId: string, orgId: string, repository: string, filePath: string,
                         language: string, diff: string, origin: string, occurredAt: int)
    : (r: Option<Submission>)
    ensures r.Some? <==> !Blank(submissionId) && !Blank(orgId) && !Blank(diff)
    ensures r.Some? ==> !Blank(r.value.submissionId) && !Blank(r.value.organizationId) && r.value.diff == diff
    ensures r.Some? ==>
              && r.value.submissionId == TrimSpace(submissionId) && r.value.organizationId == TrimSpace(orgId)
              && r.value.repository == TrimSpace(repository) && r.value.filePath == TrimSpace(filePath)
              && r.value.language == TrimSpace(language) && r.value.origin == TrimSpace(origin)
              && r.value.occurredAt == occurredAt && r.value.commitSha == "" && r.value.prNumber == 0
  {
    TrimSpaceBlank(submissionId);
    TrimSpaceBlank(orgId);
    TrimSpaceBlank(diff);
    if TrimSpace(submissionId) == "" || TrimSpace(orgId) == "" || TrimSpace(diff) == "" then None
    else Some(Submission(TrimSpace(submissionId), TrimSpace(orgId), TrimSpace(repository), TrimSpace(filePath),
                         TrimSpace(language), diff, TrimSpace(origin), occurredAt, "", 0))
  }

  // ----- Consolidation

  /** The decision one finding calls for by itself. */
  function Calls(s: Severity): Decision {
    match s
    case Blocking => Rejected
    case Warning => NeedsReview
    case _ => Approved
  }

  function Strictness(d: Decision): nat {
    match d
    case Approved => 0
    case NeedsReview => 1
    case Rejected => 2
  }

  function Stricter(a: Decision, b: Decision): Decision {
    if Strictness(a) >= Strictness(b) then a else b
  }

  /** Reference definition: the strictest decision any finding calls for. */
  function Strictest(findings: seq<Finding>): Decision {
    if findings == [] then Approved
    else Stricter(Calls(findings[0].severity), Strictest(findings[1..]))
  }

  lemma {:induction false} StrictestOfBoth(xs: seq<Finding>, ys: seq<Finding>)
    ensures Strictest(xs + ys) == Stricter(Strictest(xs), Strictest(ys))
  {
    if xs == [] {
      assert xs + ys == ys;
    } else {
      assert (xs + ys)[1..] == xs[1..] + ys;
      StrictestOfBoth(xs[1..], ys);
    }
  }

  /** The decision is at least as strict as every finding and is called for by one of them (or approved). */
  lemma {:induction false} StrictestIsMaximum(findings: seq<Finding>)
    ensures forall f | f in findings :: Strictness(Calls(f.severity)) <= Strictness(Strictest(findings))
    ensures Strictest(findings) == Approved || exists f | f in findings :: Calls(f.severity) == Strictest(findings)
  {
    if findings == [] {
    } else {
      StrictestIsMaximum(findings[1..]);
      assert findings == [findings[0]] + findings[1..];
    }
  }

  /** Only the set of findings matters: order and repetition never change a decision, and more findings never soften
      it. */
  lemma StrictestMonotone(xs: seq<Finding>, ys: seq<Finding>)
    requires forall f | f in xs :: f in ys
    ensures Strictness(Strictest(xs)) <= Strictness(Strictest(ys))
  {
    StrictestIsMaximum(xs);
    StrictestIsMaximum(ys);
  }

  lemma StrictestPermutation(xs: seq<Finding>, ys: seq<Finding>)
    requires multiset(xs) == multiset(ys)
    ensures Strictest(xs) == Strictest(ys)
  {
    forall f ensures f in xs <==> f in ys {
      assert f in xs <==> f in multiset(xs);
    }
    StrictestMonotone(xs, ys);
    StrictestMonotone(ys, xs);
  }

  /** A blocking finding rejects; without one a warning asks for review; anything else, info or unknown, approves. */
  ghost predicate DecisionFits(decision: Decision, findings: seq<Finding>) {
    && (decision == Rejected <==> exists f | f in findings :: f.severity == Blocking)
    && (decision == Approved <==> forall f | f in findings :: f.severity != Blocking && f.severity != Warning)
  }

  lemma StrictestFits(findings: seq<Finding>)
    ensures DecisionFits(Strictest(findings), findings)
  {
    StrictestIsMaximum(findings);
    hide Strictest;
    assert forall f | f in findings :: Strictness(Calls(f.severity)) <= Strictness(Strictest(findings));
  }

  /** The loop with its early return. */
  method Consolidate(findings: seq<Finding>) returns (decision: Decision)
    ensures decision == Strictest(findings) && DecisionFits(decision, findings)
  {
    StrictestFits(findings);
    hide DecisionFits;
    decision := Approved;
    for i := 0 to |findings|
      invariant decision == Strictest(findings[..i]) && decision != Rejected
    {
      StrictestOfBoth(findings[..i], [findings[i]]);
      assert findings[..i] + [findings[i]] == findings[..i + 1];
      assert Strictest([findings[i]]) == Calls(findings[i].severity);
      match findings[i].severity {
        case Blocking =>
          StrictestOfBoth(findings[..i + 1], findings[i + 1..]);
          assert findings[..i + 1] + findings[i + 1..] == findings;
          return Rejected;
        case Warning => decision := NeedsReview;
        case _ =>
      }
    }
    assert findings[..|findings|] == findings;
  }

  // ----- Cache keys

  /** Blake3 is taken to be injective, so a key is identified with the bytes that are hashed. */
  function CacheKey(diff: string, rulesetVersion: string): string {
    rulesetVersion + [NUL] + diff
  }

  /** Domain separation: NUL-free rulesets never share a key unless both the diff and the ruleset agree. */
  lemma CacheKeySeparates(d1: string, r1: string, d2: string, r2: string)
    requires NUL !in r1 && NUL !in r2
    ensures CacheKey(d1, r1) == CacheKey(d2, r2) <==> d1 == d2 && r1 == r2
  {
    if CacheKey(d1, r1) == CacheKey(d2, r2) {
      JoinInjectivePrefix(r1, d1, r2, d2, NUL);
    }
  }

  /** Exactly when a second pair collides with a given one: same pair, or one ruleset is the other
      followed by NUL and a piece of the other's diff. */
  lemma CacheKeyCollisions(d1: string, r1: string, d2: string, r2: string)
    requires |r1| <= |r2|
    ensures CacheKey(d1, r1) == CacheKey(d2, r2)
       <==> (r1 == r2 && d1 == d2) || (r1 + [NUL] <= r2 && d1 == r2[|r1| + 1..] + [NUL] + d2)
  {
    var k1, k2 := CacheKey(d1, r1), CacheKey(d2, r2);
    assert k1[|r1| + 1..] == d1 && k2[|r2| + 1..] == d2;
    assert r1 + [NUL] <= r2 ==> r2 == r1 + [NUL] + r2[|r1| + 1..];
    if k1 == k2 {
      assert r1 == k1[..|r1|] && r2 == k2[..|r2|];
      if |r1| < |r2| {
        assert r1 + [NUL] == k1[..|r1| + 1] == r2[..|r1| + 1];
        assert d1 == k2[|r1| + 1..] == r2[|r1| + 1..] + [NUL] + d2;
      }
    }
  }

  // ----- What the Saga may emit

  /** The finding the Saga appends when even the fallback fails. */
  predicate IsFallbackError(f: Finding) {
    f.rule == "fallback-error" && f.severity == Warning
  }

  /** A verdict as the Saga emits them: it has a submission id and its decision is the strictest its
      findings call for, except that a failed fallback always asks for review. */
  predicate Emittable(v: Verdict) {
    && !Blank(v.submissionId)
    && (|| v.decision == Strictest(v.findings)
        || (v.source == FromFallback && v.decision == NeedsReview && |v.findings| > 0
            && IsFallbackError(v.findings[|v.findings| - 1])))
  }

  /** An approval never hides a warning or a blocking finding. */
  lemma ApprovedIsClean(v: Verdict)
    requires Emittable(v) && v.decision == Approved
    ensures forall f | f in v.findings :: f.severity != Warning && f.severity != Blocking
  {
    StrictestIsMaximum(v.findings);
  }
}
