/** Reporter replicas sharing one delivery log, as a transition system: each replica works through the
    notifiers of a report, marking a key, notifying, and unmarking after a failure, and may stop at any
    point. Calls on the log take effect, if at all, before they return, and entries do not expire. */
module DispatchProtocol {
  import opened Text
  import opened Reports

  datatype Config = Config(mode: Mode, notifiers: seq<string>)

  /** Ready: about to mark; Holding: marked, notification under way; Retracting: notification failed. */
  datatype Phase = Ready | Holding | Retracting

  datatype Dispatch = Dispatch(report: Report, next: nat, phase: Phase)

  datatype Delivery = Delivery(report: Report, notifier: string)

  /** `delivered` is history: every notification that succeeded, in order. */
  datatype State = State(log: set<string>, active: map<nat, Dispatch>, delivered: seq<Delivery>)

  const INIT := State({}, map[], [])

  function Key(submissionId: string, notifier: string): string {
    submissionId + [NUL] + notifier
  }

  predicate Valid(cfg: Config) {
    && (forall i | 0 <= i < |cfg.notifiers| :: NUL !in cfg.notifiers[i])
    && (forall i, j | 0 <= i < j < |cfg.notifiers| :: cfg.notifiers[i] != cfg.notifiers[j])
  }

  predicate Pending(cfg: Config, d: Dispatch) {
    d.next < |cfg.notifiers|
  }

  function NextKey(cfg: Config, d: Dispatch): string
    requires Pending(cfg, d)
  {
    Key(d.report.submissionId, cfg.notifiers[d.next])
  }

  datatype Step =
    | Receive(q: nat, verdict: WireVerdict)
    | Skip(q: nat)
    | Mark(q: nat)
    | MarkFailed(q: nat, took: bool)
    | NotifySucceeded(q: nat)
    | NotifyFailed(q: nat)
    | Unmark(q: nat, took: bool)
    | Finish(q: nat)
    | Crash(q: nat)

  predicate At(cfg: Config, s: State, q: nat, phase: Phase) {
    q in s.active && Pending(cfg, s.active[q]) && s.active[q].phase == phase
  }

  predicate Enabled(cfg: Config, s: State, step: Step) {
    match step
    case Receive(q, v) => q !in s.active && NewReport(v, cfg.mode).Ok?
    case Skip(q) => At(cfg, s, q, Ready) && NextKey(cfg, s.active[q]) in s.log
    case Mark(q) => At(cfg, s, q, Ready) && NextKey(cfg, s.active[q]) !in s.log
    case MarkFailed(q, _) => At(cfg, s, q, Ready)
    case NotifySucceeded(q) => At(cfg, s, q, Holding)
    case NotifyFailed(q) => At(cfg, s, q, Holding)
    case Unmark(q, _) => At(cfg, s, q, Retracting)
    case Finish(q) => q in s.active && !Pending(cfg, s.active[q])
    case Crash(q) => q in s.active
  }

  function Moved(s: State, q: nat, d: Dispatch): map<nat, Dispatch> {
    s.active[q := d]
  }

  function Apply(cfg: Config, s: State, step: Step): State
    requires Enabled(cfg, s, step)
  {
    match step
    case Receive(q, v) => s.(active := Moved(s, q, Dispatch(NewReport(v, cfg.mode).value, 0, Ready)))
    case Skip(q) => s.(active := Moved(s, q, s.active[q].(next := s.active[q].next + 1)))
    case Mark(q) =>
      s.(log := s.log + {NextKey(cfg, s.active[q])}, active := Moved(s, q, s.active[q].(phase := Holding)))
    case MarkFailed(q, took) =>
      s.(log := if took then s.log + {NextKey(cfg, s.active[q])} else s.log,
      active := Moved(s, q, s.active[q].(next := s.active[q].next + 1)))
    case NotifySucceeded(q) =>
      s.(delivered := s.delivered + [Delivery(s.active[q].report, cfg.notifiers[s.active[q].next])],
      active := Moved(s, q, s.active[q].(next := s.active[q].next + 1, phase := Ready)))
    case NotifyFailed(q) => s.(active := Moved(s, q, s.active[q].(phase := Retracting)))
    case Unmark(q, took) =>
      s.(log := if took then s.log - {NextKey(cfg, s.active[q])} else s.log,
      active := Moved(s, q, s.active[q].(next := s.active[q].next + 1, phase := Ready)))
    case Finish(q) => s.(active := s.active - {q})
    case Crash(q) => s.(active := s.active - {q})
  }

  predicate Legal(cfg: Config, s: State, steps: seq<Step>)
    decreases |steps|
  {
    steps == [] || (Enabled(cfg, s, steps[0]) && Legal(cfg, Apply(cfg, s, steps[0]), steps[1..]))
  }

  function Run(cfg: Config, s: State, steps: seq<Step>): State
    requires Legal(cfg, s, steps)
    decreases |steps|
  {
    if steps == [] then s else Run(cfg, Apply(cfg, s, steps[0]), steps[1..])
  }

  lemma {:induction false} RunConcat(cfg: Config, s: State, a: seq<Step>, b: seq<Step>)
    requires Legal(cfg, s, a)
    ensures Legal(cfg, s, a + b) <==> Legal(cfg, Run(cfg, s, a), b)
    ensures Legal(cfg, s, a + b) ==> Run(cfg, s, a + b) == Run(cfg, Run(cfg, s, a), b)
    decreases |a|
  {
    if a == [] {
      assert a + b == b;
    } else {
      assert (a + b)[1..] == a[1..] + b;
      RunConcat(cfg, Apply(cfg, s, a[0]), a[1..], b);
    }
  }

  lemma RunOne(cfg: Config, s: State, step: Step)
    requires Enabled(cfg, s, step)
    ensures Legal(cfg, s, [step]) && Run(cfg, s, [step]) == Apply(cfg, s, step)
  {
    var s' := Apply(cfg, s, step);
    assert Legal(cfg, s', []) && Run(cfg, s', []) == s';
    assert [step][0] == step && [step][1..] == [];
    hide Enabled, Apply;
  }

  // ----- The invariant

  /** The replica holds the key of its next notifier. */
  predicate Holds(cfg: Config, d: Dispatch) {
    Pending(cfg, d) && d.phase != Ready
  }

  ghost predicate WasDelivered(delivered: seq<Delivery>, submissionId: string, notifier: string) {
    exists k | 0 <= k < |delivered| ::
      delivered[k].report.submissionId == submissionId && delivered[k].notifier == notifier
  }

  /** Held keys are in the log, undelivered, and held once. */
  ghost predicate ClaimsSound(cfg: Config, s: State) {
    && (forall q | q in s.active :: s.active[q].phase != Ready ==> Pending(cfg, s.active[q]))
    && (forall q | q in s.active && Holds(cfg, s.active[q]) ::
          && NextKey(cfg, s.active[q]) in s.log
          && !WasDelivered(s.delivered, s.active[q].report.submissionId, cfg.notifiers[s.active[q].next]))
    && (forall p, q | p in s.active && q in s.active && p != q && Holds(cfg, s.active[p]) && Holds(cfg, s.active[q]) ::
          NextKey(cfg, s.active[p]) != NextKey(cfg, s.active[q]))
  }

  /** Delivered pairs are in the log and appear once in the history. */
  ghost predicate HistorySound(cfg: Config, log: set<string>, delivered: seq<Delivery>) {
    && (forall k | 0 <= k < |delivered| ::
          delivered[k].notifier in cfg.notifiers && Key(delivered[k].report.submissionId, delivered[k].notifier) in log)
    && (forall j, k | 0 <= j < k < |delivered| ::
          || delivered[j].report.submissionId != delivered[k].report.submissionId
          || delivered[j].notifier != delivered[k].notifier)
  }

  ghost predicate Inv(cfg: Config, s: State) {
    Valid(cfg) && ClaimsSound(cfg, s) && HistorySound(cfg, s.log, s.delivered)
  }

  lemma KeyInjective(cfg: Config, s1: string, n1: string, s2: string, n2: string)
    requires Valid(cfg) && n1 in cfg.notifiers && n2 in cfg.notifiers && Key(s1, n1) == Key(s2, n2)
    ensures s1 == s2 && n1 == n2
  {
    JoinInjectiveSuffix(s1, n1, s2, n2, NUL);
  }

  /** A pair whose key is not in the log, or is held, has not been delivered. */
  lemma DeliveredKeys(cfg: Config, s: State, submissionId: string, notifier: string)
    requires Inv(cfg, s) && notifier in cfg.notifiers && WasDelivered(s.delivered, submissionId, notifier)
    ensures Key(submissionId, notifier) in s.log
    ensures forall q | q in s.active && Holds(cfg, s.active[q]) ::
              NextKey(cfg, s.active[q]) != Key(submissionId, notifier)
  {
    forall q | q in s.active && Holds(cfg, s.active[q]) && NextKey(cfg, s.active[q]) == Key(submissionId, notifier)
      ensures false
    {
      KeyInjective(cfg, s.active[q].report.submissionId, cfg.notifiers[s.active[q].next], submissionId, notifier);
    }
  }

  lemma NotifyKeepsInv(cfg: Config, s: State, q: nat)
    requires Inv(cfg, s) && Enabled(cfg, s, NotifySucceeded(q))
    ensures Inv(cfg, Apply(cfg, s, NotifySucceeded(q)))
  {
    var s' := Apply(cfg, s, NotifySucceeded(q));
    var d := s.active[q];
    assert Holds(cfg, d);
    forall p | p in s'.active && Holds(cfg, s'.active[p])
      ensures !WasDelivered(s'.delivered, s'.active[p].report.submissionId, cfg.notifiers[s'.active[p].next])
    {
      assert p != q && s'.active[p] == s.active[p];
      assert NextKey(cfg, s.active[p]) != NextKey(cfg, d);
      assert !WasDelivered(s.delivered, s.active[p].report.submissionId, cfg.notifiers[s.active[p].next]);
    }
    assert forall k | 0 <= k < |s.delivered| :: s'.delivered[k] == s.delivered[k];
    assert !WasDelivered(s.delivered, d.report.submissionId, cfg.notifiers[d.next]);
  }

  lemma UnmarkKeepsInv(cfg: Config, s: State, q: nat, took: bool)
    requires Inv(cfg, s) && Enabled(cfg, s, Unmark(q, took))
    ensures Inv(cfg, Apply(cfg, s, Unmark(q, took)))
  {
    var s' := Apply(cfg, s, Unmark(q, took));
    assert Holds(cfg, s.active[q]);
    forall k | 0 <= k < |s.delivered|
      ensures Key(s.delivered[k].report.submissionId, s.delivered[k].notifier) in s'.log
    {
      assert WasDelivered(s.delivered, s.delivered[k].report.submissionId, s.delivered[k].notifier);
      DeliveredKeys(cfg, s, s.delivered[k].report.submissionId, s.delivered[k].notifier);
    }
  }

  lemma MarkKeepsInv(cfg: Config, s: State, q: nat)
    requires Inv(cfg, s) && Enabled(cfg, s, Mark(q))
    ensures Inv(cfg, Apply(cfg, s, Mark(q)))
  {
    var d := s.active[q];
    if WasDelivered(s.delivered, d.report.submissionId, cfg.notifiers[d.next]) {
      DeliveredKeys(cfg, s, d.report.submissionId, cfg.notifiers[d.next]);
    }
  }

  lemma StepKeepsInv(cfg: Config, s: State, step: Step)
    requires Inv(cfg, s) && Enabled(cfg, s, step)
    ensures Inv(cfg, Apply(cfg, s, step)) && s.delivered <= Apply(cfg, s, step).delivered
  {
    match step
    case NotifySucceeded(q) => NotifyKeepsInv(cfg, s, q);
    case Unmark(q, took) => UnmarkKeepsInv(cfg, s, q, took);
    case Mark(q) => MarkKeepsInv(cfg, s, q);
    case _ =>
  }

  lemma {:induction false} RunKeepsInv(cfg: Config, s: State, steps: seq<Step>)
    requires Inv(cfg, s) && Legal(cfg, s, steps)
    ensures Inv(cfg, Run(cfg, s, steps)) && s.delivered <= Run(cfg, s, steps).delivered
    decreases |steps|
  {
    if steps == [] {
    } else {
      StepKeepsInv(cfg, s, steps[0]);
      RunKeepsInv(cfg, Apply(cfg, s, steps[0]), steps[1..]);
    }
  }

  /** However replicas interleave, crash, fail and receive the same verdict again, no (submission,
      notifier) pair is notified successfully twice. */
  lemma NotifiedAtMostOnce(cfg: Config, steps: seq<Step>)
    requires Valid(cfg) && Legal(cfg, INIT, steps)
    ensures var delivered := Run(cfg, INIT, steps).delivered;
      forall j, k | 0 <= j < |delivered| && 0 <= k < |delivered|
                    && delivered[j].report.submissionId == delivered[k].report.submissionId
                    && delivered[j].notifier == delivered[k].notifier :: j == k
  {
    RunKeepsInv(cfg, INIT, steps);
  }

  // ----- What can be lost

  /** The key is in the log although the pair was not delivered and no replica is working on it. */
  ghost predicate Orphaned(cfg: Config, s: State, submissionId: string, notifier: string) {
    && Key(submissionId, notifier) in s.log
    && !WasDelivered(s.delivered, submissionId, notifier)
    && forall q | q in s.active && Holds(cfg, s.active[q]) :: NextKey(cfg, s.active[q]) != Key(submissionId, notifier)
  }

  /** The steps that leave a key behind: a crash or a failed unmark while holding it, and a MarkIfNew that reports
      an error after it took effect. */
  predicate LeavesBehind(cfg: Config, s: State, step: Step, key: string)
    requires Enabled(cfg, s, step)
  {
    match step
    case Crash(q) => Holds(cfg, s.active[q]) && NextKey(cfg, s.active[q]) == key
    case Unmark(q, took) => !took && NextKey(cfg, s.active[q]) == key
    case MarkFailed(q, took) => took && NextKey(cfg, s.active[q]) == key && key !in s.log
    case _ => false
  }

  lemma DeliveredNow(cfg: Config, s: State, q: nat, submissionId: string, notifier: string)
    requires Inv(cfg, s) && Enabled(cfg, s, NotifySucceeded(q)) && notifier in cfg.notifiers
    ensures WasDelivered(Apply(cfg, s, NotifySucceeded(q)).delivered, submissionId, notifier)
       <==> || WasDelivered(s.delivered, submissionId, notifier)
            || NextKey(cfg, s.active[q]) == Key(submissionId, notifier)
  {
    var d, delivered' := s.active[q], Apply(cfg, s, NotifySucceeded(q)).delivered;
    assert forall k | 0 <= k < |s.delivered| :: delivered'[k] == s.delivered[k];
    assert delivered'[|s.delivered|] == Delivery(d.report, cfg.notifiers[d.next]);
    if NextKey(cfg, d) == Key(submissionId, notifier) {
      KeyInjective(cfg, d.report.submissionId, cfg.notifiers[d.next], submissionId, notifier);
    }
  }

  /** Exactly those steps orphan a pair, and an orphaned pair stays so. */
  lemma OrphanedExactlyWhen(cfg: Config, s: State, step: Step, submissionId: string, notifier: string)
    requires Inv(cfg, s) && Enabled(cfg, s, step) && notifier in cfg.notifiers
    ensures Orphaned(cfg, Apply(cfg, s, step), submissionId, notifier)
       <==> Orphaned(cfg, s, submissionId, notifier) || LeavesBehind(cfg, s, step, Key(submissionId, notifier))
  {
    var s' := Apply(cfg, s, step);
    if WasDelivered(s.delivered, submissionId, notifier) {
      DeliveredKeys(cfg, s, submissionId, notifier);
    }
    OthersStay(cfg, s, step);
    match step
    case NotifySucceeded(q) => DeliveredNow(cfg, s, q, submissionId, notifier);
    case Mark(q) => assert Holds(cfg, s'.active[q]) && NextKey(cfg, s'.active[q]) == NextKey(cfg, s.active[q]);
    case NotifyFailed(q) => assert NextKey(cfg, s'.active[q]) == NextKey(cfg, s.active[q]);
    case _ =>
  }

  lemma OthersStay(cfg: Config, s: State, step: Step)
    requires Enabled(cfg, s, step)
    ensures forall p | p != step.q :: (p in s.active <==> p in Apply(cfg, s, step).active)
                                      && (p in s.active ==> Apply(cfg, s, step).active[p] == s.active[p])
  {
  }

  /** Hence an orphaned notification is never made in any continuation: redelivery cannot help. */
  lemma {:induction false} OrphanedForGood(cfg: Config, s: State, steps: seq<Step>, submissionId: string,
                                           notifier: string)
    requires Inv(cfg, s) && Legal(cfg, s, steps) && notifier in cfg.notifiers
        && Orphaned(cfg, s, submissionId, notifier)
    ensures !WasDelivered(Run(cfg, s, steps).delivered, submissionId, notifier)
    decreases |steps|
  {
    if steps == [] {
    } else {
      StepKeepsInv(cfg, s, steps[0]);
      OrphanedExactlyWhen(cfg, s, steps[0], submissionId, notifier);
      OrphanedForGood(cfg, Apply(cfg, s, steps[0]), steps[1..], submissionId, notifier);
    }
  }

  // ----- What can still be delivered

  /** The step is one of an undisturbed dispatch: no crash, no failed call. */
  predicate Faultless(step: Step) {
    match step
    case MarkFailed(_, _) => false
    case NotifyFailed(_) => false
    case Unmark(_, took) => took
    case Crash(_) => false
    case _ => true
  }

  /** A continuation without faults after which the pair has been delivered. */
  ghost predicate Delivers(cfg: Config, s: State, steps: seq<Step>, submissionId: string, notifier: string) {
    && Legal(cfg, s, steps) && (forall i | 0 <= i < |steps| :: Faultless(steps[i]))
    && WasDelivered(Run(cfg, s, steps).delivered, submissionId, notifier)
  }

  ghost predicate CanBeDelivered(cfg: Config, s: State, submissionId: string, notifier: string) {
    exists steps :: Delivers(cfg, s, steps, submissionId, notifier)
  }

  lemma DeliversAfter(cfg: Config, s: State, step: Step, submissionId: string, notifier: string)
    requires Enabled(cfg, s, step) && Faultless(step)
        && CanBeDelivered(cfg, Apply(cfg, s, step), submissionId, notifier)
    ensures CanBeDelivered(cfg, s, submissionId, notifier)
  {
    var rest :| Delivers(cfg, Apply(cfg, s, step), rest, submissionId, notifier);
    var steps := [step] + rest;
    assert steps[0] == step && steps[1..] == rest;
    hide Enabled, Apply, WasDelivered;
    assert Delivers(cfg, s, steps, submissionId, notifier);
  }

  lemma DeliveredAlready(cfg: Config, s: State, submissionId: string, notifier: string)
    requires WasDelivered(s.delivered, submissionId, notifier)
    ensures CanBeDelivered(cfg, s, submissionId, notifier)
  {
    assert Delivers(cfg, s, [], submissionId, notifier);
  }

  /** Replica `q` holds the key: one successful notification delivers the pair. */
  lemma HolderDelivers(cfg: Config, s: State, q: nat)
    requires Inv(cfg, s) && At(cfg, s, q, Holding)
    ensures CanBeDelivered(cfg, s, s.active[q].report.submissionId, cfg.notifiers[s.active[q].next])
  {
    var id, notifier := s.active[q].report.submissionId, cfg.notifiers[s.active[q].next];
    DeliveredNow(cfg, s, q, id, notifier);
    DeliveredAlready(cfg, Apply(cfg, s, NotifySucceeded(q)), id, notifier);
    hide Apply, WasDelivered, Delivers;
    DeliversAfter(cfg, s, NotifySucceeded(q), id, notifier);
  }

  lemma KeysDiffer(cfg: Config, id: string, i: nat, n: nat)
    requires Valid(cfg) && i < n < |cfg.notifiers|
    ensures Key(id, cfg.notifiers[i]) != Key(id, cfg.notifiers[n])
  {
    if Key(id, cfg.notifiers[i]) == Key(id, cfg.notifiers[n]) {
      KeyInjective(cfg, id, cfg.notifiers[i], id, cfg.notifiers[n]);
    }
  }

  /** One undisturbed turn for a notifier before the n-th leaves the n-th key unlogged. */
  lemma TurnBefore(cfg: Config, s: State, q: nat, n: nat) returns (turn: seq<Step>, s': State)
    requires Inv(cfg, s) && At(cfg, s, q, Ready) && s.active[q].next < n < |cfg.notifiers|
    requires Key(s.active[q].report.submissionId, cfg.notifiers[n]) !in s.log
    ensures Legal(cfg, s, turn) && Run(cfg, s, turn) == s' && Inv(cfg, s')
    ensures forall i | 0 <= i < |turn| :: Faultless(turn[i])
    ensures At(cfg, s', q, Ready) && s'.active[q] == s.active[q].(next := s.active[q].next + 1)
    ensures Key(s.active[q].report.submissionId, cfg.notifiers[n]) !in s'.log
  {
    KeysDiffer(cfg, s.active[q].report.submissionId, s.active[q].next, n);
    if NextKey(cfg, s.active[q]) in s.log {
      turn, s' := [Skip(q)], Apply(cfg, s, Skip(q));
      RunOne(cfg, s, Skip(q));
      StepKeepsInv(cfg, s, Skip(q));
    } else {
      var s1 := Apply(cfg, s, Mark(q));
      turn, s' := [Mark(q)] + [NotifySucceeded(q)], Apply(cfg, s1, NotifySucceeded(q));
      StepKeepsInv(cfg, s, Mark(q));
      StepKeepsInv(cfg, s1, NotifySucceeded(q));
      hide Inv, Legal, Run;
      RunOne(cfg, s, Mark(q));
      RunOne(cfg, s1, NotifySucceeded(q));
      RunConcat(cfg, s, [Mark(q)], [NotifySucceeded(q)]);
    }
  }

  lemma DeliversAfterTurn(cfg: Config, s: State, turn: seq<Step>, submissionId: string, notifier: string)
    requires Legal(cfg, s, turn) && forall i | 0 <= i < |turn| :: Faultless(turn[i])
    requires CanBeDelivered(cfg, Run(cfg, s, turn), submissionId, notifier)
    ensures CanBeDelivered(cfg, s, submissionId, notifier)
  {
    var rest :| Delivers(cfg, Run(cfg, s, turn), rest, submissionId, notifier);
    RunConcat(cfg, s, turn, rest);
    hide Legal, Run, WasDelivered, Faultless;
    assert Delivers(cfg, s, turn + rest, submissionId, notifier);
  }

  /** A replica on its way to the n-th notifier, whose key is not in the log, gets there. */
  lemma {:induction false} DispatchGetsThere(cfg: Config, s: State, q: nat, n: nat)
    requires Inv(cfg, s) && At(cfg, s, q, Ready) && s.active[q].next <= n < |cfg.notifiers|
    requires Key(s.active[q].report.submissionId, cfg.notifiers[n]) !in s.log
    ensures CanBeDelivered(cfg, s, s.active[q].report.submissionId, cfg.notifiers[n])
    decreases n - s.active[q].next
  {
    var id := s.active[q].report.submissionId;
    if s.active[q].next == n {
      StepKeepsInv(cfg, s, Mark(q));
      HolderDelivers(cfg, Apply(cfg, s, Mark(q)), q);
      DeliversAfter(cfg, s, Mark(q), id, cfg.notifiers[n]);
    } else {
      var turn, s' := TurnBefore(cfg, s, q, n);
      DispatchGetsThere(cfg, s', q, n);
      hide *;
      DeliversAfterTurn(cfg, s, turn, id, cfg.notifiers[n]);
    }
  }

  lemma FreshReplica(active: map<nat, Dispatch>) returns (q: nat)
    ensures q !in active
  {
    var rest := active.Keys;
    q := 0;
    while q in rest
      invariant forall k | k in active && k >= q :: k in rest
      decreases rest
    {
      rest, q := rest - {q}, q + 1;
    }
  }

  /** Redelivery of a reportable verdict of the submission delivers a pair whose key is not in the log. */
  lemma RedeliveryDelivers(cfg: Config, s: State, v: WireVerdict, n: nat)
    requires Inv(cfg, s) && NewReport(v, cfg.mode).Ok? && n < |cfg.notifiers|
    requires Key(v.submissionId, cfg.notifiers[n]) !in s.log
    ensures CanBeDelivered(cfg, s, v.submissionId, cfg.notifiers[n])
  {
    var q := FreshReplica(s.active);
    var s' := Apply(cfg, s, Receive(q, v));
    StepKeepsInv(cfg, s, Receive(q, v));
    DispatchGetsThere(cfg, s', q, n);
    DeliversAfter(cfg, s, Receive(q, v), v.submissionId, cfg.notifiers[n]);
  }

  /** A key in the log that is neither delivered nor orphaned is being worked on, and can be delivered. */
  lemma HeldIsDeliverable(cfg: Config, s: State, v: WireVerdict, n: nat)
    requires Inv(cfg, s) && NewReport(v, cfg.mode).Ok? && n < |cfg.notifiers|
    requires Key(v.submissionId, cfg.notifiers[n]) in s.log && !Orphaned(cfg, s, v.submissionId, cfg.notifiers[n])
    requires !WasDelivered(s.delivered, v.submissionId, cfg.notifiers[n])
    ensures CanBeDelivered(cfg, s, v.submissionId, cfg.notifiers[n])
  {
    var q :| q in s.active && Holds(cfg, s.active[q])
        && NextKey(cfg, s.active[q]) == Key(v.submissionId, cfg.notifiers[n]);
    KeyInjective(cfg, s.active[q].report.submissionId, cfg.notifiers[s.active[q].next], v.submissionId,
        cfg.notifiers[n]);
    if s.active[q].phase == Holding {
      HolderDelivers(cfg, s, q);
    } else {
      StepKeepsInv(cfg, s, Unmark(q, true));
      RedeliveryDelivers(cfg, Apply(cfg, s, Unmark(q, true)), v, n);
      DeliversAfter(cfg, s, Unmark(q, true), v.submissionId, cfg.notifiers[n]);
    }
  }

  /** Exactly the orphaned pairs are lost: given a verdict of the submission that can be reported, an undelivered pair
      can be delivered, and that without further faults, if and only if it is not orphaned. */
  lemma DeliverableExactlyWhen(cfg: Config, s: State, v: WireVerdict, n: nat)
    requires Inv(cfg, s) && NewReport(v, cfg.mode).Ok? && n < |cfg.notifiers|
    requires !WasDelivered(s.delivered, v.submissionId, cfg.notifiers[n])
    ensures CanBeDelivered(cfg, s, v.submissionId, cfg.notifiers[n])
       <==> !Orphaned(cfg, s, v.submissionId, cfg.notifiers[n])
  {
    var notifier := cfg.notifiers[n];
    if Orphaned(cfg, s, v.submissionId, notifier) {
      forall steps | Legal(cfg, s, steps) ensures !Delivers(cfg, s, steps, v.submissionId, notifier) {
        OrphanedForGood(cfg, s, steps, v.submissionId, notifier);
      }
    } else if Key(v.submissionId, notifier) in s.log {
      HeldIsDeliverable(cfg, s, v, n);
    } else {
      RedeliveryDelivers(cfg, s, v, n);
    }
  }

  /** A crash between mark and notify is enough, for any verdict that can be reported. */
  lemma CrashOrphans(cfg: Config, v: WireVerdict)
    requires Valid(cfg) && |cfg.notifiers| > 0 && NewReport(v, cfg.mode).Ok?
    ensures var steps := [Receive(1, v), Mark(1), Crash(1)];
      Legal(cfg, INIT, steps) && Orphaned(cfg, Run(cfg, INIT, steps), v.submissionId, cfg.notifiers[0])
  {
    var steps := [Receive(1, v), Mark(1), Crash(1)];
    var s1 := Apply(cfg, INIT, steps[0]);
    var s2 := Apply(cfg, s1, Mark(1));
    var s3 := Apply(cfg, s2, Crash(1));
    assert steps[1..] == [Mark(1), Crash(1)] && steps[1..][1..] == [Crash(1)] && steps[1..][1..][1..] == [];
    assert Legal(cfg, s3, []) && Legal(cfg, s2, [Crash(1)]) && Run(cfg, s2, [Crash(1)]) == s3;
    assert Legal(cfg, s1, steps[1..]) && Run(cfg, s1, steps[1..]) == s3;
  }
}
