/** The analysis Saga: cache first, then the stage chain, then the deterministic fallback; every verdict
    is published through the outbox store. */
module Saga {
  import opened Text
  import opened Verdicts
  import Outbox = OutboxProtocol
  import opened OutboxStore

  datatype StageResult = StageResult(findings: seq<Finding>, maskedDiff: string)

  /** A stage may return a result together with an error; a missed deadline is an error. */
  datatype StageOutcome = StageOutcome(result: StageResult, error: Option<string>)

  /** An arbitrary stage: what it does may differ from run to run. */
  datatype Stage = Stage(name: string, analyze: (nat, Submission) -> StageOutcome)

  function StageUnavailable(name: string, error: string): Finding {
    Finding(name, "stage-unavailable", Warning, "advisory stage failed; verdict produced without it: " + error)
  }

  /** The decorator that turns a stage's error into a warning. */
  function Optional(stage: Stage): Stage {
    Stage(stage.name, (t: nat, sub: Submission) =>
      var out := stage.analyze(t, sub);
      match out.error
      case Some(error) => StageOutcome(StageResult([StageUnavailable(stage.name, error)], ""), None)
      case None => out)
  }

  // ----- The chain on values

  function Masked(sub: Submission, out: StageResult): Submission {
    if out.maskedDiff != "" then sub.(diff := out.maskedDiff) else sub
  }

  /** The findings of all stages in order, or None once one fails. */
  function Chain(stages: seq<Stage>, t: nat, sub: Submission): Option<seq<Finding>>
    decreases |stages|
  {
    if stages == [] then Some([])
    else
      var out := stages[0].analyze(t, sub);
      if out.error.Some? then None
      else Prefixed(out.result.findings, Chain(stages[1..], t, Masked(sub, out.result)))
  }

  function Prefixed(findings: seq<Finding>, rest: Option<seq<Finding>>): Option<seq<Finding>> {
    match rest
    case None => None
    case Some(more) => Some(findings + more)
  }

  lemma PrefixedTwice(a: seq<Finding>, b: seq<Finding>, rest: Option<seq<Finding>>)
    ensures Prefixed(a, Prefixed(b, rest)) == Prefixed(a + b, rest)
    ensures Prefixed([], rest) == rest
  {
    if rest.Some? {
      assert a + (b + rest.value) == a + b + rest.value;
      assert [] + rest.value == rest.value;
    }
  }

  const FALLBACK_FAILED := "deterministic fallback failed; manual review required"

  function FallbackError(name: string): Finding {
    Finding(name, "fallback-error", Warning, FALLBACK_FAILED)
  }

  function FallbackVerdict(fallback: Stage, ruleset: string, t: nat, now: int, sub: Submission): Verdict {
    var out := fallback.analyze(t, sub);
    var findings := out.result.findings;
    var (decision, all) :=
      if out.error.Some? then (NeedsReview, findings + [FallbackError(fallback.name)])
      else (Strictest(findings), findings);
    Verdict("", "", decision, FromFallback, ruleset, all, now, "", "", 0).StampSource(sub)
  }

  function PipelineVerdict(findings: seq<Finding>, ruleset: string, now: int, sub: Submission): Verdict {
    Verdict("", "", Strictest(findings), FromPipeline, ruleset, findings, now, "", "", 0).StampSource(sub)
  }

  function Analyzed(stages: seq<Stage>, fallback: Stage, ruleset: string, t: nat, now: int, sub: Submission): Verdict {
    match Chain(stages, t, sub)
    case None => FallbackVerdict(fallback, ruleset, t, now, sub)
    case Some(findings) => PipelineVerdict(findings, ruleset, now, sub)
  }

  /** Whatever the stages do, the verdict is one the Saga may emit, for the live submission. */
  lemma AnalyzedIsEmittable(stages: seq<Stage>, fallback: Stage, ruleset: string, t: nat, now: int, sub: Submission)
    requires !Blank(sub.submissionId)
    ensures var v := Analyzed(stages, fallback, ruleset, t, now, sub); Emittable(v) && v.Carries(sub)
  {
  }

  /** The last non-empty masked diff returned by stages that were given `inputs`, or the original diff. */
  function LastMask(stages: seq<Stage>, t: nat, inputs: seq<Submission>, original: string): string
    requires |inputs| <= |stages|
  {
    if inputs == [] then original
    else
      var k := |inputs| - 1;
      var mask := stages[k].analyze(t, inputs[k]).result.maskedDiff;
      if mask != "" then mask else LastMask(stages, t, inputs[..k], original)
  }

  /** In other words: no mask so far and the original diff, or the mask of some stage behind which none has masked. */
  lemma {:induction false} LastMaskMeaning(stages: seq<Stage>, t: nat, inputs: seq<Submission>, original: string)
    requires |inputs| <= |stages|
    ensures var d := LastMask(stages, t, inputs, original);
      || (d == original && forall k | 0 <= k < |inputs| :: stages[k].analyze(t, inputs[k]).result.maskedDiff == "")
      || (d != "" && exists k | 0 <= k < |inputs| ::
            && d == stages[k].analyze(t, inputs[k]).result.maskedDiff
            && forall j | k < j < |inputs| :: stages[j].analyze(t, inputs[j]).result.maskedDiff == "")
  {
    if inputs == [] {
    } else {
      LastMaskMeaning(stages, t, inputs[..|inputs| - 1], original);
    }
  }

  /** Each stage sees the original submission with only its diff replaced, by the last non-empty masked diff before
      it. */
  ghost predicate SeesMasked(stages: seq<Stage>, t: nat, sub: Submission, seen: seq<Submission>) {
    |seen| <= |stages| && forall k | 0 <= k < |seen| ::
      seen[k] == sub.(diff := LastMask(stages, t, seen[..k], sub.diff))
  }

  lemma SeesOneMore(stages: seq<Stage>, t: nat, sub: Submission, seen: seq<Submission>)
    requires SeesMasked(stages, t, sub, seen) && |seen| < |stages|
    ensures var current := sub.(diff := LastMask(stages, t, seen, sub.diff));
      var seen' := seen + [current];
      SeesMasked(stages, t, sub, seen')
      && sub.(diff := LastMask(stages, t, seen', sub.diff))
         == Masked(current, stages[|seen|].analyze(t, current).result)
  {
    var seen' := seen + [sub.(diff := LastMask(stages, t, seen, sub.diff))];
    assert seen'[..|seen|] == seen && forall k | 0 <= k < |seen| :: seen'[..k] == seen[..k];
  }

  lemma ChainOneMore(stages: seq<Stage>, t: nat, current: Submission, i: nat, findings: seq<Finding>)
    requires i < |stages|
    ensures var out := stages[i].analyze(t, current);
      && (out.error.Some? ==> Prefixed(findings, Chain(stages[i..], t, current)) == None)
      && (out.error.None? ==>
            Prefixed(findings, Chain(stages[i..], t, current)) ==
            Prefixed(findings + out.result.findings, Chain(stages[i + 1..], t, Masked(current, out.result))))
  {
    assert stages[i..][1..] == stages[i + 1..];
    var out := stages[i].analyze(t, current);
    PrefixedTwice(findings, out.result.findings, Chain(stages[i + 1..], t, Masked(current, out.result)));
  }

  /** The fallback runs on the original submission, exactly when some stage failed. If it fails too, review is
      demanded and the reason is added, but a blocking finding it returned along with its error is thereby
      downgraded: the decision falls short of its findings exactly then. */
  lemma DoubleFailure(stages: seq<Stage>, fallback: Stage, ruleset: string, t: nat, now: int, sub: Submission)
    ensures var v, out := Analyzed(stages, fallback, ruleset, t, now, sub), fallback.analyze(t, sub);
      && (v.source == FromFallback <==> Chain(stages, t, sub).None?)
      && (v.source == FromFallback && out.error.Some? ==>
            && v.decision == NeedsReview
            && FallbackError(fallback.name) in v.findings && (forall f | f in out.result.findings :: f in v.findings)
            && (v.decision == Strictest(v.findings) <==> forall f | f in out.result.findings :: f.severity != Blocking))
      && (v.source == FromFallback && out.error.None? ==>
            v.findings == out.result.findings && v.decision == Strictest(v.findings))
  {
    var out := fallback.analyze(t, sub);
    StrictestIsMaximum(out.result.findings);
    StrictestOfBoth(out.result.findings, [FallbackError(fallback.name)]);
  }

  /** A fallback of that kind: it reports what it found along with its error. */
  lemma DoubleFailureDowngrades(blocking: Finding, sub: Submission)
    requires blocking.severity == Blocking
    ensures var broken := Stage("broken", (_, _) => StageOutcome(StageResult([blocking], ""), Some("timeout")));
      var v := Analyzed([broken], broken, "v1", 0, 0, sub);
      v.decision == NeedsReview && blocking in v.findings && Strictest(v.findings) == Rejected
  {
    var broken := Stage("broken", (_, _) => StageOutcome(StageResult([blocking], ""), Some("timeout")));
    StrictestIsMaximum(Analyzed([broken], broken, "v1", 0, 0, sub).findings);
  }

  // ----- Findings are never dropped in the wired chain

  /** One required stage, then only optional ones. */
  function Wired(required: Stage, advisory: seq<Stage>): seq<Stage> {
    [required] + seq(|advisory|, i requires 0 <= i < |advisory| => Optional(advisory[i]))
  }

  /** The submission stage `i` is given. */
  function InputOf(stages: seq<Stage>, t: nat, sub: Submission, i: nat): Submission
    requires i <= |stages|
  {
    if i == 0 then sub
    else
      var before := InputOf(stages, t, sub, i - 1);
      Masked(before, stages[i - 1].analyze(t, before).result)
  }

  lemma {:induction false} InputOfTail(stages: seq<Stage>, t: nat, sub: Submission, i: nat)
    requires 0 < i <= |stages|
    ensures InputOf(stages, t, sub, i) == InputOf(stages[1..], t, Masked(sub, stages[0].analyze(t, sub).result), i - 1)
  {
    if i == 1 {
    } else {
      InputOfTail(stages, t, sub, i - 1);
    }
  }

  ghost predicate Succeeds(stages: seq<Stage>, t: nat, sub: Submission, i: nat)
    requires i < |stages|
  {
    stages[i].analyze(t, InputOf(stages, t, sub, i)).error.None?
  }

  /** The chain yields findings exactly when every stage succeeds, and then it keeps the findings of each. */
  lemma {:induction false} ChainKeepsAll(stages: seq<Stage>, t: nat, sub: Submission)
    ensures Chain(stages, t, sub).Some? <==> forall i | 0 <= i < |stages| :: Succeeds(stages, t, sub, i)
    ensures Chain(stages, t, sub).Some? ==>
              forall i, f | 0 <= i < |stages|
                            && f in stages[i].analyze(t, InputOf(stages, t, sub, i)).result.findings ::
                f in Chain(stages, t, sub).value
    decreases |stages|
  {
    if stages == [] {
    } else {
      var rest, sub' := stages[1..], Masked(sub, stages[0].analyze(t, sub).result);
      ChainKeepsAll(rest, t, sub');
      forall i | 0 < i < |stages| ensures Succeeds(stages, t, sub, i) <==> Succeeds(rest, t, sub', i - 1) {
        InputOfTail(stages, t, sub, i);
      }
      forall i, f | Chain(stages, t, sub).Some? && 0 < i < |stages|
                    && f in stages[i].analyze(t, InputOf(stages, t, sub, i)).result.findings
        ensures f in Chain(rest, t, sub').value
      {
        InputOfTail(stages, t, sub, i);
      }
      if forall i | 0 <= i < |stages| :: Succeeds(stages, t, sub, i) {
        assert Succeeds(stages, t, sub, 0);
        forall i | 0 <= i < |rest| ensures Succeeds(rest, t, sub', i) {
          assert Succeeds(stages, t, sub, i + 1);
        }
      }
      if Chain(stages, t, sub).Some? {
        forall i | 0 <= i < |stages| ensures Succeeds(stages, t, sub, i) {
          assert i > 0 ==> Succeeds(rest, t, sub', i - 1);
        }
      }
    }
  }

  /** From `from` up to `to` the findings are those of stage `i`. */
  ghost predicate PieceOf(stages: seq<Stage>, t: nat, sub: Submission, i: nat, findings: seq<Finding>,
                          from: nat, to: nat)
    requires i < |stages|
  {
    && from <= to <= |findings|
    && findings[from..to] == stages[i].analyze(t, InputOf(stages, t, sub, i)).result.findings
  }

  /** The findings are those of all stages, in stage order, and no others: `cuts` says where each stage's begin. */
  ghost predicate CutInto(stages: seq<Stage>, t: nat, sub: Submission, findings: seq<Finding>, cuts: seq<nat>) {
    && |cuts| == |stages| + 1 && cuts[0] == 0 && cuts[|stages|] == |findings|
    && forall i | 0 <= i < |stages| :: PieceOf(stages, t, sub, i, findings, cuts[i], cuts[i + 1])
  }

  ghost predicate Concatenates(stages: seq<Stage>, t: nat, sub: Submission, findings: seq<Finding>) {
    exists cuts: seq<nat> :: CutInto(stages, t, sub, findings, cuts)
  }

  lemma SliceShifts<T>(first: seq<T>, more: seq<T>, a: nat, b: nat)
    requires a <= b <= |more|
    ensures (first + more)[|first| + a..|first| + b] == more[a..b]
  {
  }

  lemma PieceShifts(stages: seq<Stage>, t: nat, sub: Submission, i: nat, more: seq<Finding>, from: nat, to: nat)
    requires 0 < i < |stages|
    requires PieceOf(stages[1..], t, Masked(sub, stages[0].analyze(t, sub).result), i - 1, more, from, to)
    ensures var first := stages[0].analyze(t, sub).result.findings;
      PieceOf(stages, t, sub, i, first + more, |first| + from, |first| + to)
  {
    InputOfTail(stages, t, sub, i);
    SliceShifts(stages[0].analyze(t, sub).result.findings, more, from, to);
    hide InputOf;
  }

  /** Putting a stage in front. */
  lemma CutOne(stages: seq<Stage>, t: nat, sub: Submission, more: seq<Finding>, cuts: seq<nat>)
    requires stages != []
    requires CutInto(stages[1..], t, Masked(sub, stages[0].analyze(t, sub).result), more, cuts)
    ensures Concatenates(stages, t, sub, stages[0].analyze(t, sub).result.findings + more)
  {
    var first := stages[0].analyze(t, sub).result.findings;
    var n := |first|;
    var cuts' := [0] + seq(|cuts|, i requires 0 <= i < |cuts| => n + cuts[i]);
    assert (first + more)[0..n] == first;
    assert PieceOf(stages, t, sub, 0, first + more, 0, n);
    assert forall i | 0 < i < |cuts'| :: cuts'[i] == n + cuts[i - 1];
    forall i | 0 <= i < |stages| ensures PieceOf(stages, t, sub, i, first + more, cuts'[i], cuts'[i + 1]) {
      if i > 0 {
        PieceShifts(stages, t, sub, i, more, cuts[i - 1], cuts[i]);
      }
    }
    hide PieceOf;
    assert CutInto(stages, t, sub, first + more, cuts');
  }

  /** The chain yields exactly the findings of its stages, in order. */
  lemma {:induction false} ChainConcatenates(stages: seq<Stage>, t: nat, sub: Submission)
    ensures Chain(stages, t, sub).Some? ==> Concatenates(stages, t, sub, Chain(stages, t, sub).value)
    decreases |stages|
  {
    if stages == [] {
      assert CutInto(stages, t, sub, [], [0]);
    } else if Chain(stages, t, sub).Some? {
      var sub' := Masked(sub, stages[0].analyze(t, sub).result);
      ChainConcatenates(stages[1..], t, sub');
      var more := Chain(stages[1..], t, sub').value;
      var cuts: seq<nat> :| CutInto(stages[1..], t, sub', more, cuts);
      CutOne(stages, t, sub, more, cuts);
    }
  }

  /** Every finding of a concatenation was found by a stage. */
  lemma FoundByStage(stages: seq<Stage>, t: nat, sub: Submission, findings: seq<Finding>, f: Finding)
    requires Concatenates(stages, t, sub, findings) && f in findings
    ensures exists i | 0 <= i < |stages| :: f in stages[i].analyze(t, InputOf(stages, t, sub, i)).result.findings
  {
    var cuts: seq<nat> :| CutInto(stages, t, sub, findings, cuts);
    var k :| 0 <= k < |findings| && findings[k] == f;
    var i := 0;
    while cuts[i + 1] <= k
      invariant i < |stages| && cuts[i] <= k
      decreases |stages| - i
    {
      i := i + 1;
    }
    assert PieceOf(stages, t, sub, i, findings, cuts[i], cuts[i + 1]);
    assert findings[cuts[i]..cuts[i + 1]][k - cuts[i]] == f;
  }

  /** The stages found nothing that calls for review. */
  ghost predicate FindNothing(stages: seq<Stage>, t: nat, sub: Submission) {
    forall i, f | 0 <= i < |stages| && f in stages[i].analyze(t, InputOf(stages, t, sub, i)).result.findings ::
      f.severity != Warning && f.severity != Blocking
  }

  /** A run whose stages all succeed publishes exactly what they found, in order; one whose stages find nothing that
      calls for review is approved. */
  lemma PipelineFindings(stages: seq<Stage>, fallback: Stage, ruleset: string, t: nat, now: int, sub: Submission)
    ensures var v := Analyzed(stages, fallback, ruleset, t, now, sub);
      && (v.source == FromPipeline <==> forall i | 0 <= i < |stages| :: Succeeds(stages, t, sub, i))
      && (v.source == FromPipeline ==> Concatenates(stages, t, sub, v.findings))
      && (v.source == FromPipeline && FindNothing(stages, t, sub) ==> v.decision == Approved)
  {
    var v := Analyzed(stages, fallback, ruleset, t, now, sub);
    ChainKeepsAll(stages, t, sub);
    ChainConcatenates(stages, t, sub);
    StrictestIsMaximum(v.findings);
    hide Chain, InputOf, Succeeds, Strictest, Concatenates;
    if v.source == FromPipeline {
      forall f | f in v.findings && FindNothing(stages, t, sub)
        ensures f.severity != Warning && f.severity != Blocking
      {
        FoundByStage(stages, t, sub, v.findings, f);
      }
    }
  }

  /** What a review of the submission that did not come from the cache must be: by the stages when all succeed, by the
      fallback on the original submission otherwise. */
  ghost predicate ReviewOf(stages: seq<Stage>, fallback: Stage, ruleset: string, t: nat, now: int, sub: Submission,
                           v: Verdict) {
    && v.submissionId == sub.submissionId && v.organizationId == sub.organizationId
    && v.repository == sub.repository && v.commitSha == sub.commitSha && v.prNumber == sub.prNumber
    && v.rulesetVersion == ruleset && v.evaluatedAt == now
    && v.source == (if forall i | 0 <= i < |stages| :: Succeeds(stages, t, sub, i) then FromPipeline else FromFallback)
    && (v.source == FromPipeline ==> Concatenates(stages, t, sub, v.findings) && DecisionFits(v.decision, v.findings))
    && (v.source == FromFallback ==>
          var out := fallback.analyze(t, sub);
          match out.error
          case None => v.findings == out.result.findings && DecisionFits(v.decision, v.findings)
          case Some(_) =>
            && v.decision == NeedsReview
            && v.findings == out.result.findings + [Finding(fallback.name, "fallback-error", Warning, FALLBACK_FAILED)])
  }

  lemma AnalyzedIsReview(stages: seq<Stage>, fallback: Stage, ruleset: string, t: nat, now: int, sub: Submission)
    ensures ReviewOf(stages, fallback, ruleset, t, now, sub, Analyzed(stages, fallback, ruleset, t, now, sub))
  {
    var v := Analyzed(stages, fallback, ruleset, t, now, sub);
    PipelineFindings(stages, fallback, ruleset, t, now, sub);
    StrictestFits(v.findings);
    hide Chain, InputOf, Succeeds, Strictest, Concatenates, DecisionFits;
  }

  lemma OptionalNeverFails(stage: Stage, t: nat, sub: Submission)
    ensures var inner, out := stage.analyze(t, sub), Optional(stage).analyze(t, sub);
      && out.error.None?
      && (inner.error.Some? ==> out.result.maskedDiff == "" && out.result.findings == [Finding(
            stage.name, "stage-unavailable", Warning,
            "advisory stage failed; verdict produced without it: " + inner.error.value)])
      && (inner.error.None? ==> out == inner)
  {
  }

  lemma WiredSucceeds(required: Stage, advisory: seq<Stage>, t: nat, sub: Submission)
    requires required.analyze(t, sub).error.None?
    ensures forall i | 0 <= i < |Wired(required, advisory)| :: Succeeds(Wired(required, advisory), t, sub, i)
  {
    var stages := Wired(required, advisory);
    forall i | 0 <= i < |stages| ensures Succeeds(stages, t, sub, i) {
      if i > 0 {
        assert stages[i] == Optional(advisory[i - 1]);
        OptionalNeverFails(advisory[i - 1], t, InputOf(stages, t, sub, i));
      }
    }
  }

  /** Every finding of every stage of the chain is in the verdict, and a blocking one rejects. */
  ghost predicate AllKept(stages: seq<Stage>, t: nat, sub: Submission, v: Verdict) {
    forall i, f | 0 <= i < |stages| && f in stages[i].analyze(t, InputOf(stages, t, sub, i)).result.findings ::
      f in v.findings && (f.severity == Blocking ==> v.decision == Rejected)
  }

  /** Should the stage fail, a warning that names it is in the verdict, which is no approval. */
  ghost predicate FailureShows(stage: Stage, t: nat, input: Submission, v: Verdict) {
    var out := stage.analyze(t, input);
    out.error.Some? ==> StageUnavailable(stage.name, out.error.value) in v.findings && v.decision != Approved
  }

  lemma WiredKeepsFindings(required: Stage, advisory: seq<Stage>, fallback: Stage, ruleset: string, t: nat, now: int,
                           sub: Submission)
    requires required.analyze(t, sub).error.None?
    ensures var stages := Wired(required, advisory);
      var v := Analyzed(stages, fallback, ruleset, t, now, sub);
      && v.source == FromPipeline && AllKept(stages, t, sub, v)
      && (forall f | f in v.findings && f.severity == Warning :: v.decision != Approved)
  {
    var stages := Wired(required, advisory);
    WiredSucceeds(required, advisory, t, sub);
    ChainKeepsAll(stages, t, sub);
    StrictestIsMaximum(Analyzed(stages, fallback, ruleset, t, now, sub).findings);
    hide Chain, InputOf, Succeeds, Strictest, Wired;
  }

  lemma AdvisoryFailureShows(required: Stage, advisory: seq<Stage>, t: nat, sub: Submission, v: Verdict, i: nat)
    requires i < |advisory| && AllKept(Wired(required, advisory), t, sub, v)
    requires forall f | f in v.findings && f.severity == Warning :: v.decision != Approved
    ensures FailureShows(advisory[i], t, InputOf(Wired(required, advisory), t, sub, i + 1), v)
  {
    var stages := Wired(required, advisory);
    assert stages[i + 1] == Optional(advisory[i]);
    var input := InputOf(stages, t, sub, i + 1);
    OptionalNeverFails(advisory[i], t, input);
    hide InputOf, Optional, Wired;
    var error := advisory[i].analyze(t, input).error;
    if error.Some? {
      assert StageUnavailable(advisory[i].name, error.value) in stages[i + 1].analyze(t, input).result.findings;
    }
  }

  /** In the wired chain, once the required stage has succeeded, no finding of any stage, as wrapped, is dropped, and
      any blocking one rejects. A failed advisory stage yields the warning that names it in place of whatever it
      returned along with its error. */
  lemma WiredChainDropsNothing(required: Stage, advisory: seq<Stage>, fallback: Stage, ruleset: string, t: nat,
                               now: int, sub: Submission)
    requires required.analyze(t, sub).error.None?
    ensures var stages := Wired(required, advisory);
      var v := Analyzed(stages, fallback, ruleset, t, now, sub);
      && v.source == FromPipeline && AllKept(stages, t, sub, v)
      && forall i | 0 <= i < |advisory| :: FailureShows(advisory[i], t, InputOf(stages, t, sub, i + 1), v)
  {
    var stages := Wired(required, advisory);
    var v := Analyzed(stages, fallback, ruleset, t, now, sub);
    WiredKeepsFindings(required, advisory, fallback, ruleset, t, now, sub);
    assert |stages| == |advisory| + 1;
    hide InputOf, Analyzed, Wired, AllKept, FailureShows;
    forall i | 0 <= i < |advisory| ensures FailureShows(advisory[i], t, InputOf(stages, t, sub, i + 1), v) {
      AdvisoryFailureShows(required, advisory, t, sub, v, i);
    }
  }

  // ----- Which chains keep their findings

  /** A stage of a chain, and whether it is wrapped in Optional. */
  datatype Link = Link(stage: Stage, optional: bool)

  function StagesOf(links: seq<Link>): (stages: seq<Stage>)
    ensures |stages| == |links|
    ensures forall i | 0 <= i < |links| ::
              stages[i] == if links[i].optional then Optional(links[i].stage) else links[i].stage
  {
    seq(|links|, i requires 0 <= i < |links| => if links[i].optional then Optional(links[i].stage) else links[i].stage)
  }

  ghost predicate HasShape(links: seq<Link>, optional: seq<bool>) {
    |links| == |optional| && forall i | 0 <= i < |links| :: links[i].optional == optional[i]
  }

  /** Stage `i` is reached and succeeds. */
  ghost predicate Ran(stages: seq<Stage>, t: nat, sub: Submission, i: nat)
    requires i < |stages|
  {
    forall k | 0 <= k <= i :: Succeeds(stages, t, sub, k)
  }

  /** Every finding of a stage that ran is in the verdict, and a blocking one rejects. */
  ghost predicate KeepsFindings(stages: seq<Stage>, fallback: Stage, ruleset: string, t: nat, now: int,
                                sub: Submission) {
    var v := Analyzed(stages, fallback, ruleset, t, now, sub);
    forall i, f | 0 <= i < |stages| && Ran(stages, t, sub, i)
                  && f in stages[i].analyze(t, InputOf(stages, t, sub, i)).result.findings ::
      f in v.findings && (f.severity == Blocking ==> v.decision == Rejected)
  }

  /** Behind its first stage the chain has only optional ones. */
  predicate OptionalBehindFirst(optional: seq<bool>) {
    forall j | 0 < j < |optional| :: optional[j]
  }

  lemma OptionalTailKeepsFindings(links: seq<Link>, fallback: Stage, ruleset: string, t: nat, now: int, sub: Submission)
    requires forall j | 0 < j < |links| :: links[j].optional
    ensures KeepsFindings(StagesOf(links), fallback, ruleset, t, now, sub)
  {
    var stages := StagesOf(links);
    var v := Analyzed(stages, fallback, ruleset, t, now, sub);
    ChainKeepsAll(stages, t, sub);
    StrictestIsMaximum(v.findings);
    forall j | 0 < j < |stages| ensures Succeeds(stages, t, sub, j) {
      OptionalNeverFails(links[j].stage, t, InputOf(stages, t, sub, j));
    }
    hide Chain, InputOf, Succeeds, Strictest, StagesOf;
    forall i | 0 <= i < |stages| && Ran(stages, t, sub, i) ensures Chain(stages, t, sub).Some? {
      assert Succeeds(stages, t, sub, 0);
    }
  }

  function Finds(f: Finding): Stage {
    Stage("finds", (_, _) => StageOutcome(StageResult([f], ""), None))
  }

  const FAILS := Stage("fails", (_, _) => StageOutcome(StageResult([], ""), Some("timeout")))
  const QUIET := Stage("quiet", (_, _) => StageOutcome(StageResult([], ""), None))

  /** A required stage behind the first can fail, and then discards what was found before, even a blocking finding: the
      change is approved. */
  lemma RequiredStageDropsFindings(optional: seq<bool>, j: nat, blocking: Finding, sub: Submission)
    returns (links: seq<Link>)
    requires 0 < j < |optional| && !optional[j] && blocking.severity == Blocking
    ensures HasShape(links, optional)
    ensures var stages := StagesOf(links);
      && Ran(stages, 0, sub, 0) && blocking in stages[0].analyze(0, InputOf(stages, 0, sub, 0)).result.findings
      && Analyzed(stages, QUIET, "v1", 0, 0, sub).decision == Approved
  {
    links := seq(|optional|, i requires 0 <= i < |optional| =>
      Link(if i == 0 then Finds(blocking) else if i == j then FAILS else QUIET, optional[i]));
    var stages := StagesOf(links);
    assert !Succeeds(stages, 0, sub, j) by {
      assert stages[j] == FAILS;
    }
    ChainKeepsAll(stages, 0, sub);
    assert Chain(stages, 0, sub).None?;
  }

  /** Whatever stages, fallback and submission: a chain of the given shape keeps every finding exactly when all its
      stages but the first are optional. */
  lemma FindingsKeptExactlyWhen(optional: seq<bool>)
    ensures (forall links, fallback, ruleset, t, now, sub | HasShape(links, optional) ::
               KeepsFindings(StagesOf(links), fallback, ruleset, t, now, sub)) <==> OptionalBehindFirst(optional)
  {
    if OptionalBehindFirst(optional) {
      forall links, fallback, ruleset, t, now, sub | HasShape(links, optional)
        ensures KeepsFindings(StagesOf(links), fallback, ruleset, t, now, sub)
      {
        OptionalTailKeepsFindings(links, fallback, ruleset, t, now, sub);
      }
    } else {
      var j :| 0 < j < |optional| && !optional[j];
      var blocking := Finding("", "", Blocking, "");
      var sub := Submission("", "", "", "", "", "", "", 0, "", 0);
      var links := RequiredStageDropsFindings(optional, j, blocking, sub);
      assert !KeepsFindings(StagesOf(links), QUIET, "v1", 0, 0, sub);
    }
  }

  // ----- Results that depend on the diff alone

  ghost predicate DiffOnly(stages: seq<Stage>) {
    forall i, t, t', s: Submission, s': Submission | 0 <= i < |stages| && s.diff == s'.diff ::
      stages[i].analyze(t, s).error.None? && stages[i].analyze(t, s) == stages[i].analyze(t', s')
  }

  lemma {:induction false} DiffOnlyChain(stages: seq<Stage>, t: nat, t': nat, s: Submission, s': Submission)
    requires DiffOnly(stages) && s.diff == s'.diff
    ensures Chain(stages, t, s).Some? && Chain(stages, t, s) == Chain(stages, t', s')
    decreases |stages|
  {
    if stages == [] {
    } else {
      assert stages[0].analyze(t, s) == stages[0].analyze(t', s') && stages[0].analyze(t, s).error.None?;
      assert DiffOnly(stages[1..]) by {
        assert forall i | 0 <= i < |stages[1..]| :: stages[1..][i] == stages[i + 1];
      }
      var out := stages[0].analyze(t, s).result;
      DiffOnlyChain(stages[1..], t, t', Masked(s, out), Masked(s', out));
    }
  }

  // ----- The verdict cache

  /** A pipeline run that happened: its verdict, before it was stripped and cached. */
  datatype PastRun = PastRun(sub: Submission, ruleset: string, t: nat, now: int, verdict: Verdict)

  /** `history` lists the pipeline runs of all orchestrators that share the cache, in order. */
  datatype CacheState = CacheState(store: map<string, Verdict>, history: seq<PastRun>)

  /** The entry is what the j-th run cached, and its key is that run's. */
  ghost predicate ComesFrom(history: seq<PastRun>, key: string, v: Verdict, j: nat) {
    && j < |history| && key == CacheKey(history[j].sub.diff, history[j].ruleset)
    && history[j].verdict.source == FromPipeline
    && history[j].verdict.decision == Strictest(history[j].verdict.findings)
    && v == history[j].verdict.StripSource()
  }

  /** Every entry is the stripped verdict of an earlier pipeline run on the diff and ruleset of its key. */
  ghost predicate AllComeFrom(history: seq<PastRun>, store: map<string, Verdict>) {
    forall key | key in store :: exists j: nat :: ComesFrom(history, key, store[key], j)
  }

  lemma HistoryExtends(history: seq<PastRun>, store: map<string, Verdict>, run: PastRun)
    requires AllComeFrom(history, store)
    ensures AllComeFrom(history + [run], store)
  {
    forall key | key in store ensures exists j: nat :: ComesFrom(history + [run], key, store[key], j) {
      var j: nat :| ComesFrom(history, key, store[key], j);
      assert ComesFrom(history + [run], key, store[key], j);
    }
  }

  /** What the other orchestrators, and eviction, do to the cache at the k-th moment of a call. */
  type CacheOthers = (nat, CacheState) -> CacheState

  /** Others run the same Saga: they add to the history, and every entry they leave comes from it. Entries may
      vanish at any time. */
  ghost predicate SharesCache(others: CacheOthers) {
    forall k, c: CacheState | AllComeFrom(c.history, c.store) ::
      c.history <= others(k, c).history && AllComeFrom(others(k, c).history, others(k, c).store)
  }

  /** The cache as this orchestrator sees it. `history` is bookkeeping. */
  class Cache {
    var store: map<string, Verdict>
    var history: seq<PastRun>

    constructor ()
      ensures store == map[] && history == [] && Valid()
    {
      store, history := map[], [];
    }

    ghost predicate Valid()
      reads this
      ensures Valid() ==> forall key | key in store :: store[key].Anonymous() && store[key].source == FromPipeline
    {
      assert AllComeFrom(history, store) ==>
               forall key | key in store :: exists j: nat :: ComesFrom(history, key, store[key], j);
      AllComeFrom(history, store)
    }

    function Now(): CacheState
      reads this
    {
      CacheState(store, history)
    }

    method Get(key: string) returns (v: Option<Verdict>)
      ensures v == if key in store then Some(store[key]) else None
    {
      v := if key in store then Some(store[key]) else None;
    }

    method Set(key: string, v: Verdict)
      modifies this`store
      ensures store == old(store)[key := v]
    {
      store := store[key := v];
    }

    method LetOthersAct(others: CacheOthers, k: nat)
      requires Valid() && SharesCache(others)
      modifies this
      ensures Valid() && Now() == others(k, old(Now())) && old(history) <= history
    {
      var c := others(k, Now());
      store, history := c.store, c.history;
    }

    method Record(run: PastRun)
      requires Valid()
      modifies this`history
      ensures history == old(history) + [run] && Valid()
    {
      HistoryExtends(history, store, run);
      history := history + [run];
    }
  }

  /** What befalls one run: cache errors, and what happens to its publish transaction. */
  datatype Faults = Faults(read: bool, write: bool, publish: PublishFaults)

  /** A consumed record and the circumstances of its handling. */
  datatype Call = Call(sub: Submission, headers: Outbox.Headers, now: int, faults: Faults, others: Others,
                       mates: CacheOthers)

  class ProcessSubmission {
    const cache: Cache
    const stages: seq<Stage>
    const fallback: Stage
    const store: Store
    const ruleset: string

    /** An empty ruleset version defaults to "v1"; the deadlines are part of the stages' behaviour. */
    constructor (cache: Cache, stages: seq<Stage>, fallback: Stage, store: Store, ruleset: string)
      ensures this.cache == cache && this.stages == stages && this.fallback == fallback && this.store == store
      ensures this.ruleset == if ruleset == "" then "v1" else ruleset
    {
      this.cache, this.stages, this.fallback, this.store := cache, stages, fallback, store;
      this.ruleset := if ruleset == "" then "v1" else ruleset;
    }

    method RunFallback(t: nat, now: int, sub: Submission) returns (v: Verdict)
      ensures v == FallbackVerdict(fallback, ruleset, t, now, sub)
    {
      hide DecisionFits;
      var out := fallback.analyze(t, sub);
      var findings := out.result.findings;
      var decision := Consolidate(findings);
      if out.error.Some? {
        decision := NeedsReview;
        findings := findings + [FallbackError(fallback.name)];
      }
      v := Verdict("", "", decision, FromFallback, ruleset, findings, now, "", "", 0).StampSource(sub);
    }

    /** The stage loop. `seen` lists what the stages that ran were given. */
    method Analyze(t: nat, now: int, sub: Submission) returns (v: Verdict, ghost seen: seq<Submission>)
      ensures v == Analyzed(stages, fallback, ruleset, t, now, sub)
      ensures ReviewOf(stages, fallback, ruleset, t, now, sub, v)
      ensures v.source == FromPipeline && FindNothing(stages, t, sub) ==> v.decision == Approved
      ensures SeesMasked(stages, t, sub, seen)
      ensures v.source == FromPipeline ==> |seen| == |stages|
      ensures v.source == FromFallback ==> |seen| > 0 && stages[|seen| - 1].analyze(t, seen[|seen| - 1]).error.Some?
    {
      AnalyzedIsReview(stages, fallback, ruleset, t, now, sub);
      PipelineFindings(stages, fallback, ruleset, t, now, sub);
      hide ReviewOf, FindNothing, Concatenates, Succeeds, DecisionFits, Strictest;
      var findings: seq<Finding> := [];
      var current := sub;
      seen := [];
      assert stages[0..] == stages;
      PrefixedTwice([], [], Chain(stages, t, sub));
      for i := 0 to |stages|
        invariant |seen| == i && SeesMasked(stages, t, sub, seen)
        invariant current == sub.(diff := LastMask(stages, t, seen, sub.diff))
        invariant Chain(stages, t, sub) == Prefixed(findings, Chain(stages[i..], t, current))
      {
        hide SeesMasked, LastMask, Chain, Prefixed;
        SeesOneMore(stages, t, sub, seen);
        ChainOneMore(stages, t, current, i, findings);
        var out := stages[i].analyze(t, current);
        seen := seen + [current];
        if out.error.Some? {
          v := RunFallback(t, now, sub);
          return;
        }
        findings := findings + out.result.findings;
        if out.result.maskedDiff != "" {
          current := current.(diff := out.result.maskedDiff);
        }
      }
      assert findings + [] == findings;
      var decision := Consolidate(findings);
      v := Verdict("", "", decision, FromPipeline, ruleset, findings, now, "", "", 0).StampSource(sub);
    }

    /** Past runs were made with these stages. */
    ghost predicate Faithful(history: seq<PastRun>) {
      forall j | 0 <= j < |history| && history[j].ruleset == ruleset ::
        history[j].verdict == Analyzed(stages, fallback, ruleset, history[j].t, history[j].now, history[j].sub)
    }

    /** No ruleset version in use contains NUL, so keys of different rulesets never meet. */
    ghost predicate Separated(history: seq<PastRun>) {
      NUL !in ruleset && forall j | 0 <= j < |history| :: NUL !in history[j].ruleset
    }

    /** A hit repeats an earlier pipeline run on the same diff and ruleset. */
    ghost predicate Repeats(history: seq<PastRun>, sub: Submission, v: Verdict) {
      exists j | 0 <= j < |history| ::
        && history[j].sub.diff == sub.diff && history[j].ruleset == ruleset
        && v == Verdict(
                sub.submissionId, sub.organizationId, history[j].verdict.decision, FromCache,
                history[j].verdict.rulesetVersion, history[j].verdict.findings, history[j].verdict.evaluatedAt,
                sub.repository, sub.commitSha, sub.prNumber)
    }

    /** The other orchestrators use NUL-free rulesets, and the same stages under the same ruleset. */
    ghost predicate Compatible(mates: CacheOthers) {
      forall k, c: CacheState ::
        && (Separated(c.history) ==> Separated(mates(k, c).history))
        && (Faithful(c.history) ==> Faithful(mates(k, c).history))
    }

    /** The cache-first half of Handle. The ghost result counts the runs made before the cache was read. */
    method Lookup(sub: Submission, faults: Faults, mates: CacheOthers) returns (hit: Option<Verdict>, ghost seen: nat)
      requires cache.Valid() && !Blank(sub.submissionId) && SharesCache(mates)
      modifies cache
      ensures cache.Valid() && cache.Now() == mates(0, old(cache.Now()))
      ensures old(cache.history) <= cache.history && seen == |cache.history|
      ensures hit.Some? ==> Emittable(hit.value) && hit.value.Carries(sub) && hit.value.source == FromCache
      ensures hit.Some? && Separated(cache.history) ==> Repeats(cache.history, sub, hit.value)
      // the entry under the key, for the live submission
      ensures hit.Some? <==> !faults.read && CacheKey(sub.diff, ruleset) in cache.store
      ensures hit.Some? ==>
                var entry := cache.store[CacheKey(sub.diff, ruleset)];
                hit.value == Verdict(
                  sub.submissionId, sub.organizationId, entry.decision, FromCache, entry.rulesetVersion,
                  entry.findings, entry.evaluatedAt, sub.repository, sub.commitSha, sub.prNumber)
    {
      cache.LetOthersAct(mates, 0);
      seen := |cache.history|;
      hit := None;
      if faults.read {
        return;
      }
      var key := CacheKey(sub.diff, ruleset);
      var cached := cache.Get(key);
      if cached.None? {
        return;
      }
      ghost var j: nat :| ComesFrom(cache.history, key, cached.value, j);
      if Separated(cache.history) {
        CacheKeySeparates(cache.history[j].sub.diff, cache.history[j].ruleset, sub.diff, ruleset);
      }
      var v := cached.value.StampSource(sub);
      hit := Some(v.(source := FromCache));
    }

    /** The cache-miss half: analyze, and offer a pipeline verdict to the cache. */
    method AnalyzeAndCache(t: nat, now: int, sub: Submission, faults: Faults, mates: CacheOthers) returns (v: Verdict)
      requires cache.Valid() && !Blank(sub.submissionId) && SharesCache(mates)
      modifies cache
      ensures cache.Valid() && v == Analyzed(stages, fallback, ruleset, t, now, sub)
      ensures old(cache.history) <= cache.history
      ensures cache.history == mates(1, old(cache.Now())).history
                               + if v.source == FromPipeline then [PastRun(sub, ruleset, t, now, v)] else []
      ensures cache.store == if v.source == FromPipeline && !faults.write
                             then mates(1, old(cache.Now())).store[CacheKey(sub.diff, ruleset) := v.StripSource()]
                             else mates(1, old(cache.Now())).store
    {
      ghost var seen;
      v, seen := Analyze(t, now, sub);
      cache.LetOthersAct(mates, 1);
      if v.source == FromPipeline {
        cache.Record(PastRun(sub, ruleset, t, now, v));
        if !faults.write {
          ghost var n := |cache.history| - 1;
          cache.Set(CacheKey(sub.diff, ruleset), v.StripSource());
          assert ComesFrom(cache.history, CacheKey(sub.diff, ruleset), v.StripSource(), n);
        }
      }
    }

    /** The runs made before the cache was read. */
    ghost predicate FromEarlier(history: seq<PastRun>, seen: nat, sub: Submission, v: Verdict) {
      seen <= |history| && (v.source == FromCache && Separated(history[..seen]) ==> Repeats(history[..seen], sub, v))
    }

    /** With stages that never fail and look at nothing but the diff, the verdict is what a fresh run would publish. */
    ghost predicate AsFresh(history: seq<PastRun>, seen: nat, t: nat, now: int, sub: Submission, v: Verdict) {
      seen <= |history| && (
        Faithful(history[..seen]) && Separated(history[..seen]) && DiffOnly(stages) ==>
          v.(source := FromPipeline, evaluatedAt := now) == Analyzed(stages, fallback, ruleset, t, now, sub))
    }

    /** What every call of a run achieves: what it handed to the publisher is emittable and for the live submission,
        a hit repeats an earlier pipeline run, anything else is a fresh analysis, and pipeline runs go down in the
        history. */
    ghost predicate Served(history: seq<PastRun>, seen: nat, t: nat, call: Call, v: Verdict) {
      && Emittable(v) && v.Carries(call.sub)
      && FromEarlier(history, seen, call.sub, v) && AsFresh(history, seen, t, call.now, call.sub, v)
      && (v.source != FromCache ==>
            && v == Analyzed(stages, fallback, ruleset, t, call.now, call.sub)
            && ReviewOf(stages, fallback, ruleset, t, call.now, call.sub, v))
      && (v.source == FromPipeline && FindNothing(stages, t, call.sub) ==> v.decision == Approved)
      && (v.source == FromPipeline ==> PastRun(call.sub, ruleset, t, call.now, v) in history)
    }

    /** The verdict of a call that found `c` and left `c'` of the cache: from the cache exactly when an entry can be
        read, and then that entry; else a pipeline verdict is cached without its identity, and a fallback's is not. */
    ghost predicate CacheFirst(c: CacheState, c': CacheState, call: Call, t: nat, v: Verdict) {
      var key := CacheKey(call.sub.diff, ruleset);
      var found := call.mates(0, c);
      && (v.source == FromCache <==> !call.faults.read && key in found.store)
      && (v.source == FromCache ==>
            && c' == found && v.decision == found.store[key].decision && v.findings == found.store[key].findings
            && v.rulesetVersion == found.store[key].rulesetVersion
            && v.evaluatedAt == found.store[key].evaluatedAt)
      && (v.source == FromFallback ==> c' == call.mates(1, found))
      && (v.source == FromPipeline ==>
            && c'.history == call.mates(1, found).history + [PastRun(call.sub, ruleset, t, call.now, v)]
            && c'.store == if call.faults.write then call.mates(1, found).store
                           else call.mates(1, found).store[key := Verdict(
                                    "", "", v.decision, FromPipeline, ruleset, v.findings, v.evaluatedAt, "", "", 0)])
    }

    /** Handle up to its publishing: cache first, then the pipeline. */
    method Conclude(t: nat, call: Call) returns (v: Verdict, ghost seen: nat)
      requires cache.Valid() && !Blank(call.sub.submissionId) && SharesCache(call.mates)
      modifies cache
      ensures cache.Valid() && Served(cache.history, seen, t, call, v)
      ensures old(cache.history) <= cache.history && |old(cache.history)| <= seen
      ensures CacheFirst(old(cache.Now()), cache.Now(), call, t, v)
      // what the next call needs to know of the history
      ensures Compatible(call.mates) && Separated(old(cache.history)) ==> Separated(cache.history)
      ensures Compatible(call.mates) && Faithful(old(cache.history)) ==> Faithful(cache.history)
    {
      var hit;
      hit, seen := Lookup(call.sub, call.faults, call.mates);
      ghost var before := cache.history;
      assert before == before[..seen];
      if hit.Some? {
        v := hit.value;
        if Faithful(before) && Separated(before) && DiffOnly(stages) {
          RepeatIsFresh(before, t, call.now, call.sub, v);
        }
        return;
      }
      v := AnalyzeAndCache(t, call.now, call.sub, call.faults, call.mates);
      AnalyzedIsEmittable(stages, fallback, ruleset, t, call.now, call.sub);
      AnalyzedIsReview(stages, fallback, ruleset, t, call.now, call.sub);
      PipelineFindings(stages, fallback, ruleset, t, call.now, call.sub);
      if DiffOnly(stages) {
        DiffOnlyChain(stages, t, t, call.sub, call.sub);
      }
      assert cache.history[..seen] == before;
    }

    /** Handle. `sent` is the verdict handed to the publisher, `seen` counts the runs made before the cache was read. */
    method Handle(p: nat, t: nat, call: Call)
      returns (r: Option<Verdict>, err: Option<string>, ghost sent: Verdict, ghost seen: nat)
      requires cache.Valid() && !Blank(call.sub.submissionId) && SharesCache(call.mates)
      requires Outbox.Inv(store.db.cfg, store.db.s) && p !in store.db.s.publishers
      requires SparesPublisher(store.db.cfg, p, call.others) && forall v :: Emittable(v) ==> store.db.cfg.admits(v)
      modifies cache, store.db
      ensures cache.Valid() && Since(store.db.cfg, old(store.db.s), store.db.s) && p !in store.db.s.publishers
      // on every path
      ensures Served(cache.history, seen, t, call, sent)
      ensures r == if err.None? then Some(sent) else None
      ensures err.None? <==> var faults := call.faults.publish;
                !faults.begin && !faults.audit && !faults.outbox && faults.commit == Acknowledged
      ensures err.None? ==> exists i | i in store.db.s.outbox ::
                i !in old(store.db.s.outbox) && Wrote(store.db.cfg, store.db.s, i, sent, call.headers)
      ensures old(cache.history) <= cache.history && |old(cache.history)| <= seen
      ensures CacheFirst(old(cache.Now()), cache.Now(), call, t, sent)
      ensures Compatible(call.mates) && Separated(old(cache.history)) ==> Separated(cache.history)
      ensures Compatible(call.mates) && Faithful(old(cache.history)) ==> Faithful(cache.history)
    {
      hide Outbox.Inv, Outbox.Keeps, Reaches, Since, SparesPublisher, SharesCache, CacheFirst, Wrote;
      hide FromEarlier, AsFresh, Compatible, Faithful, Separated, AllComeFrom, Emittable;
      var verdict;
      verdict, seen := Conclude(t, call);
      sent := verdict;
      err := store.Publish(p, verdict, call.headers, call.faults.publish, call.others);
      r := if err.None? then Some(verdict) else None;
    }

    lemma RepeatIsFresh(history: seq<PastRun>, t: nat, now: int, sub: Submission, v: Verdict)
      requires Faithful(history) && DiffOnly(stages) && Repeats(history, sub, v)
      ensures v.(source := FromPipeline, evaluatedAt := now) == Analyzed(stages, fallback, ruleset, t, now, sub)
    {
      var j :| 0 <= j < |history| && history[j].sub.diff == sub.diff && history[j].ruleset == ruleset
               && v.findings == history[j].verdict.findings && v.decision == history[j].verdict.decision
               && v.rulesetVersion == history[j].verdict.rulesetVersion && v.Carries(sub);
      DiffOnlyChain(stages, history[j].t, t, history[j].sub, sub);
    }

    ghost predicate AllServed(history: seq<PastRun>, seen: seq<nat>, calls: seq<Call>, sent: seq<Verdict>) {
      |sent| == |seen| <= |calls| && forall i | 0 <= i < |sent| :: Served(history, seen[i], i, calls[i], sent[i])
    }

    lemma ServedStill(history: seq<PastRun>, history': seq<PastRun>, seen: nat, t: nat, call: Call, v: Verdict)
      requires history <= history' && Served(history, seen, t, call, v)
      ensures Served(history', seen, t, call, v)
    {
      assert history'[..seen] == history[..seen];
    }

    lemma ServedOneMore(history: seq<PastRun>, history': seq<PastRun>, seen: seq<nat>, calls: seq<Call>,
                        sent: seq<Verdict>, k: nat, v: Verdict)
      requires history <= history' && AllServed(history, seen, calls, sent) && |sent| < |calls|
      requires Served(history', k, |sent|, calls[|sent|], v)
      ensures AllServed(history', seen + [k], calls, sent + [v])
    {
      forall i | 0 <= i < |sent| ensures Served(history', seen[i], i, calls[i], sent[i]) {
        ServedStill(history, history', seen[i], i, calls[i], sent[i]);
      }
      hide Served;
    }

    lemma ServedNothing(history: seq<PastRun>, calls: seq<Call>)
      ensures AllServed(history, [], calls, [])
    {
    }

    /** The consumer's loop, over any records, faults, evictions and doings of other orchestrators. */
    method Serve(p: nat, calls: seq<Call>) returns (ghost sent: seq<Verdict>, ghost seen: seq<nat>)
      requires cache.Valid() && Outbox.Inv(store.db.cfg, store.db.s) && p !in store.db.s.publishers
      requires forall i | 0 <= i < |calls| ::
                 && !Blank(calls[i].sub.submissionId) && SharesCache(calls[i].mates)
                 && SparesPublisher(store.db.cfg, p, calls[i].others)
      requires forall v :: Emittable(v) ==> store.db.cfg.admits(v)
      modifies cache, store.db
      // in particular every entry of the cache is anonymous and from the pipeline
      ensures cache.Valid() && Since(store.db.cfg, old(store.db.s), store.db.s) && p !in store.db.s.publishers
      ensures |sent| == |calls| && AllServed(cache.history, seen, calls, sent) && old(cache.history) <= cache.history
      ensures (forall i | 0 <= i < |calls| :: Compatible(calls[i].mates)) ==>
                && (Separated(old(cache.history)) ==> Separated(cache.history))
                && (Faithful(old(cache.history)) ==> Faithful(cache.history))
    {
      hide Outbox.Inv, Outbox.Keeps, Reaches, Since, SparesPublisher, SharesCache;
      hide Served, AllServed, Compatible, Faithful, Separated, AllComeFrom, Emittable;
      ghost var s0, h0 := store.db.s, cache.history;
      SinceItself(store.db.cfg, s0);
      ghost var compatible := forall i | 0 <= i < |calls| :: Compatible(calls[i].mates);
      sent, seen := [], [];
      ServedNothing(h0, calls);
      for n := 0 to |calls|
        invariant cache.Valid() && Since(store.db.cfg, s0, store.db.s) && p !in store.db.s.publishers
        invariant |sent| == n && AllServed(cache.history, seen, calls, sent) && h0 <= cache.history
        invariant compatible && Separated(h0) ==> Separated(cache.history)
        invariant compatible && Faithful(h0) ==> Faithful(cache.history)
      {
        ghost var s, h := store.db.s, cache.history;
        SinceMeans(store.db.cfg, s0, s);
        var r, err, v, k := Handle(p, n, calls[n]);
        SinceOn(store.db.cfg, s0, s, store.db.s);
        ServedOneMore(h, cache.history, seen, calls, sent, k, v);
        sent, seen := sent + [v], seen + [k];
      }
    }
  }
}
