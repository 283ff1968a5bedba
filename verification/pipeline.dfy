/** The verdict path as one system: the outbox, its relays and the bus, and reporter replicas that read
    bus records in any order and any number of times. */
module Pipeline {
  import opened Verdicts
  import opened Reports
  import O = OutboxProtocol
  import D = DispatchProtocol
  import OutboxStore
  import Dispatcher

  datatype State = State(outbox: O.State, reporting: D.State)

  const INIT := State(O.INIT, D.INIT)

  /** Read is the delivery, or redelivery, of the k-th bus record to replica q. */
  datatype Step = Outbox(o: O.Step) | Read(q: nat, k: nat) | Reporting(d: D.Step)

  function ReadStep(s: State, q: nat, k: nat): D.Step
    requires k < |s.outbox.bus|
  {
    D.Receive(q, Decode(s.outbox.bus[k].payload))
  }

  predicate Enabled(oc: O.Config, dc: D.Config, s: State, step: Step) {
    match step
    case Outbox(o) => O.Enabled(oc, s.outbox, o)
    case Read(q, k) => k < |s.outbox.bus| && D.Enabled(dc, s.reporting, ReadStep(s, q, k))
    case Reporting(d) => !d.Receive? && D.Enabled(dc, s.reporting, d)
  }

  function Apply(oc: O.Config, dc: D.Config, s: State, step: Step): State
    requires Enabled(oc, dc, s, step)
  {
    match step
    case Outbox(o) => s.(outbox := O.Apply(oc, s.outbox, o))
    case Read(q, k) => s.(reporting := D.Apply(dc, s.reporting, ReadStep(s, q, k)))
    case Reporting(d) => s.(reporting := D.Apply(dc, s.reporting, d))
  }

  predicate Legal(oc: O.Config, dc: D.Config, s: State, steps: seq<Step>)
    decreases |steps|
  {
    steps == [] || (Enabled(oc, dc, s, steps[0]) && Legal(oc, dc, Apply(oc, dc, s, steps[0]), steps[1..]))
  }

  function Run(oc: O.Config, dc: D.Config, s: State, steps: seq<Step>): State
    requires Legal(oc, dc, s, steps)
    decreases |steps|
  {
    if steps == [] then s else Run(oc, dc, Apply(oc, dc, s, steps[0]), steps[1..])
  }

  /** The report was made from the verdict stored in a committed outbox row. */
  ghost predicate Sourced(dc: D.Config, outbox: map<nat, O.OutboxRow>, r: Report) {
    exists i | i in outbox :: NewReport(Decode(outbox[i].payload), dc.mode) == Ok(r)
  }

  ghost predicate AllSourced(dc: D.Config, s: State) {
    && (forall q | q in s.reporting.active :: Sourced(dc, s.outbox.outbox, s.reporting.active[q].report))
    && (forall k | 0 <= k < |s.reporting.delivered| :: Sourced(dc, s.outbox.outbox, s.reporting.delivered[k].report))
  }

  ghost predicate Inv(oc: O.Config, dc: D.Config, s: State) {
    O.Inv(oc, s.outbox) && D.Inv(dc, s.reporting) && AllSourced(dc, s)
  }

  lemma SourcedStays(dc: D.Config, outbox: map<nat, O.OutboxRow>, outbox': map<nat, O.OutboxRow>, r: Report)
    requires Sourced(dc, outbox, r) && O.OutboxKeeps(outbox, outbox')
    ensures Sourced(dc, outbox', r)
  {
    var i :| i in outbox && NewReport(Decode(outbox[i].payload), dc.mode) == Ok(r);
    assert i in outbox' && outbox'[i].payload == outbox[i].payload;
  }

  lemma OutboxStepKeepsSources(oc: O.Config, dc: D.Config, s: State, o: O.Step)
    requires Inv(oc, dc, s) && O.Enabled(oc, s.outbox, o)
    ensures AllSourced(dc, s.(outbox := O.Apply(oc, s.outbox, o)))
  {
    O.StepKeeps(oc, s.outbox, o);
    hide O.Inv, D.Inv, O.Apply, O.Enabled, O.OutboxKeeps, Sourced;
    var outbox' := O.Apply(oc, s.outbox, o).outbox;
    forall q | q in s.reporting.active ensures Sourced(dc, outbox', s.reporting.active[q].report) {
      SourcedStays(dc, s.outbox.outbox, outbox', s.reporting.active[q].report);
    }
    forall k | 0 <= k < |s.reporting.delivered| ensures Sourced(dc, outbox', s.reporting.delivered[k].report) {
      SourcedStays(dc, s.outbox.outbox, outbox', s.reporting.delivered[k].report);
    }
  }

  lemma ReadKeepsSources(oc: O.Config, dc: D.Config, s: State, q: nat, k: nat)
    requires Inv(oc, dc, s) && Enabled(oc, dc, s, Read(q, k))
    ensures AllSourced(dc, Apply(oc, dc, s, Read(q, k)))
  {
    hide D.Inv, O.Paired, O.ClaimsSound, O.MarksSound, O.AuditKeysFresh, O.OutboxKeysFresh;
    var rec := s.outbox.bus[k];
    assert rec == O.Shipped(rec.rowId, s.outbox.outbox[rec.rowId]);
    var r := NewReport(Decode(rec.payload), dc.mode).value;
    assert Sourced(dc, s.outbox.outbox, r) by {
      assert s.outbox.outbox[rec.rowId].payload == rec.payload;
    }
  }

  lemma StepKeepsInv(oc: O.Config, dc: D.Config, s: State, step: Step)
    requires Inv(oc, dc, s) && Enabled(oc, dc, s, step)
    ensures Inv(oc, dc, Apply(oc, dc, s, step))
  {
    hide O.Inv, D.Inv, O.Apply, O.Enabled;
    match step
    case Outbox(o) =>
      O.StepKeepsInv(oc, s.outbox, o);
      OutboxStepKeepsSources(oc, dc, s, o);
    case Read(q, k) =>
      D.StepKeepsInv(dc, s.reporting, ReadStep(s, q, k));
      ReadKeepsSources(oc, dc, s, q, k);
    case Reporting(d) =>
      D.StepKeepsInv(dc, s.reporting, d);
      hide Sourced;
  }

  lemma {:induction false} RunKeepsInv(oc: O.Config, dc: D.Config, s: State, steps: seq<Step>)
    requires Inv(oc, dc, s) && Legal(oc, dc, s, steps)
    ensures Inv(oc, dc, Run(oc, dc, s, steps))
    decreases |steps|
  {
    hide Inv, Apply, Enabled;
    if steps == [] {
    } else {
      StepKeepsInv(oc, dc, s, steps[0]);
      RunKeepsInv(oc, dc, Apply(oc, dc, s, steps[0]), steps[1..]);
    }
  }

  /** The outcome a reader sees for an audited decision. */
  function Shown(mode: Mode, decision: Decision): Outcome {
    match decision
    case Approved => Success
    case NeedsReview => Neutral
    case Rejected => if mode == Shadow then Neutral else Failure
  }

  /** The report is about the verdict: its submission, tenant, repository, commit and pull request, and an outcome that
      is explained by the decision; a success, by findings none of which warns or blocks. */
  ghost predicate Tells(mode: Mode, v: Verdict, r: Report) {
    && r.submissionId == v.submissionId && r.organizationId == v.organizationId
    && r.repository == v.repository && r.commitSha == v.commitSha && r.prNumber == v.prNumber
    && r.outcome == Shown(mode, v.decision)
    && (r.outcome == Success ==> forall f | f in v.findings :: f.severity != Warning && f.severity != Blocking)
  }

  /** The report is about a committed row, whose verdict an audit row tells of. */
  ghost predicate Explained(mode: Mode, o: O.State, r: Report) {
    exists i | i in o.outbox && i in o.link && o.link[i] in o.audit ::
      Tells(mode, o.outbox[i].payload, r) && O.TellsOf(o.audit[o.link[i]], o.outbox[i].payload)
  }

  /** Every notification ever made is explained by a committed verdict and its audit row, and no notifier got two
      notifications for one submission. */
  ghost predicate Audited(mode: Mode, s: State) {
    && (forall k | 0 <= k < |s.reporting.delivered| ::
          Explained(mode, s.outbox, s.reporting.delivered[k].report))
    && (forall j, k | 0 <= j < k < |s.reporting.delivered| ::
          s.reporting.delivered[j].report.submissionId != s.reporting.delivered[k].report.submissionId
          || s.reporting.delivered[j].notifier != s.reporting.delivered[k].notifier)
  }

  lemma DeliveredOnce(dc: D.Config, d: D.State)
    requires D.Inv(dc, d)
    ensures forall j, k | 0 <= j < k < |d.delivered| ::
              || d.delivered[j].report.submissionId != d.delivered[k].report.submissionId
              || d.delivered[j].notifier != d.delivered[k].notifier
  {
    hide D.ClaimsSound, D.Valid;
  }

  lemma InvIsAudited(oc: O.Config, dc: D.Config, s: State)
    requires Inv(oc, dc, s) && forall v :: oc.admits(v) ==> Emittable(v)
    ensures Audited(dc.mode, s)
  {
    DeliveredOnce(dc, s.reporting);
    hide O.Inv, D.Inv, Sourced, Explained;
    forall k | 0 <= k < |s.reporting.delivered|
      ensures Explained(dc.mode, s.outbox, s.reporting.delivered[k].report)
    {
      Traced(oc, dc, s, s.reporting.delivered[k].report);
    }
  }

  lemma InitInv(oc: O.Config, dc: D.Config)
    requires D.Valid(dc)
    ensures Inv(oc, dc, INIT)
  {
    O.InitInv(oc);
    hide O.Inv;
  }

  /** End to end, over every run in which callers publish only verdicts the Saga may emit. */
  lemma NotificationsAreAudited(oc: O.Config, dc: D.Config, steps: seq<Step>)
    requires D.Valid(dc) && (forall v :: oc.admits(v) ==> Emittable(v)) && Legal(oc, dc, INIT, steps)
    ensures Audited(dc.mode, Run(oc, dc, INIT, steps))
  {
    hide Inv, Audited;
    InitInv(oc, dc);
    RunKeepsInv(oc, dc, INIT, steps);
    InvIsAudited(oc, dc, Run(oc, dc, INIT, steps));
  }

  lemma Traced(oc: O.Config, dc: D.Config, s: State, r: Report)
    requires Inv(oc, dc, s) && Sourced(dc, s.outbox.outbox, r) && forall v :: oc.admits(v) ==> Emittable(v)
    ensures Explained(dc.mode, s.outbox, r)
  {
    hide D.Inv, O.Inv, Emittable, O.TellsOf;
    var i :| i in s.outbox.outbox && NewReport(Decode(s.outbox.outbox[i].payload), dc.mode) == Ok(r);
    var v := s.outbox.outbox[i].payload;
    O.RowsAreTheirVerdicts(oc, s.outbox);
    O.AuditTellsOfRows(oc, s.outbox);
    SagaVerdictsAreReported(v, dc.mode);
    assert Tells(dc.mode, v, r);
  }

  // ----- The methods make runs of the composed system

  /** What the methods of one layer did: some calls of the store, the Saga and the relay, or some calls of the
      reporters, which were handed none but the verdicts `from`. */
  datatype Phase = Stored(o: O.State) | Reported(from: Dispatcher.From, d: D.State)

  /** The reporters are handed what is on the bus. */
  ghost predicate FromBus(from: Dispatcher.From, bus: seq<O.Record>) {
    forall v :: from(v) ==> exists k | 0 <= k < |bus| :: v == Decode(bus[k].payload)
  }

  ghost predicate Follows(oc: O.Config, dc: D.Config, s: State, phase: Phase) {
    match phase
    case Stored(o) => OutboxStore.Since(oc, s.outbox, o)
    case Reported(from, d) => FromBus(from, s.outbox.bus) && Dispatcher.Since(dc, from, s.reporting, d)
  }

  function After(s: State, phase: Phase): State {
    match phase
    case Stored(o) => s.(outbox := o)
    case Reported(_, d) => s.(reporting := d)
  }

  ghost predicate AllFollow(oc: O.Config, dc: D.Config, s: State, phases: seq<Phase>)
    decreases |phases|
  {
    phases == [] || (Follows(oc, dc, s, phases[0]) && AllFollow(oc, dc, After(s, phases[0]), phases[1..]))
  }

  function AfterAll(s: State, phases: seq<Phase>): State
    decreases |phases|
  {
    if phases == [] then s else AfterAll(After(s, phases[0]), phases[1..])
  }

  lemma RunOnward(oc: O.Config, dc: D.Config, s: State, step: Step, rest: seq<Step>) returns (steps: seq<Step>)
    requires Enabled(oc, dc, s, step) && Legal(oc, dc, Apply(oc, dc, s, step), rest)
    ensures Legal(oc, dc, s, steps) && Run(oc, dc, s, steps) == Run(oc, dc, Apply(oc, dc, s, step), rest)
  {
    steps := [step] + rest;
    assert steps[0] == step && steps[1..] == rest;
    hide Enabled, Apply;
  }

  lemma {:induction false} OutboxLifts(oc: O.Config, dc: D.Config, s: State, os: seq<O.Step>) returns (steps: seq<Step>)
    requires O.Legal(oc, s.outbox, os)
    ensures Legal(oc, dc, s, steps) && Run(oc, dc, s, steps) == s.(outbox := O.Run(oc, s.outbox, os))
    decreases |os|
  {
    hide O.Enabled, O.Apply, D.Enabled, D.Apply;
    if os == [] {
      steps := [];
    } else {
      var rest := OutboxLifts(oc, dc, s.(outbox := O.Apply(oc, s.outbox, os[0])), os[1..]);
      steps := RunOnward(oc, dc, s, Outbox(os[0]), rest);
    }
  }

  /** A reporter's step is one of the composed system, what it receives being on the bus. */
  lemma StepLifts(oc: O.Config, dc: D.Config, s: State, from: Dispatcher.From, d: D.Step) returns (step: Step)
    requires FromBus(from, s.outbox.bus) && D.Enabled(dc, s.reporting, d) && (d.Receive? ==> from(d.verdict))
    ensures Enabled(oc, dc, s, step)
    ensures Apply(oc, dc, s, step) == s.(reporting := D.Apply(dc, s.reporting, d))
  {
    match d
    case Receive(q, v) =>
      var k :| 0 <= k < |s.outbox.bus| && v == Decode(s.outbox.bus[k].payload);
      step := Read(q, k);
    case _ => step := Reporting(d);
  }

  lemma {:induction false} ReportingLifts(oc: O.Config, dc: D.Config, s: State, from: Dispatcher.From,
                                          ds: seq<D.Step>)
    returns (steps: seq<Step>)
    requires FromBus(from, s.outbox.bus) && D.Legal(dc, s.reporting, ds) && Dispatcher.ReceivesFrom(ds, from)
    ensures Legal(oc, dc, s, steps)
    ensures Run(oc, dc, s, steps) == s.(reporting := D.Run(dc, s.reporting, ds))
    decreases |ds|
  {
    hide O.Enabled, O.Apply, D.Enabled, D.Apply, Enabled, Apply, FromBus;
    if ds == [] {
      steps := [];
    } else {
      var step := StepLifts(oc, dc, s, from, ds[0]);
      var s' := s.(reporting := D.Apply(dc, s.reporting, ds[0]));
      var rest := ReportingLifts(oc, dc, s', from, ds[1..]);
      steps := RunOnward(oc, dc, s, step, rest);
    }
  }

  lemma PhaseLifts(oc: O.Config, dc: D.Config, s: State, phase: Phase) returns (steps: seq<Step>)
    requires Follows(oc, dc, s, phase)
    ensures Legal(oc, dc, s, steps) && Run(oc, dc, s, steps) == After(s, phase)
  {
    hide Legal, Run, O.Legal, O.Run, D.Legal, D.Run, O.Inv, D.Inv, O.Keeps, FromBus;
    match phase
    case Stored(o) =>
      var os :| O.Legal(oc, s.outbox, os) && O.Run(oc, s.outbox, os) == o;
      steps := OutboxLifts(oc, dc, s, os);
    case Reported(from, d) =>
      var ds :| D.Legal(dc, s.reporting, ds) && D.Run(dc, s.reporting, ds) == d && Dispatcher.ReceivesFrom(ds, from);
      steps := ReportingLifts(oc, dc, s, from, ds);
  }

  lemma {:induction false} RunConcat(oc: O.Config, dc: D.Config, s: State, a: seq<Step>, b: seq<Step>)
    requires Legal(oc, dc, s, a) && Legal(oc, dc, Run(oc, dc, s, a), b)
    ensures Legal(oc, dc, s, a + b) && Run(oc, dc, s, a + b) == Run(oc, dc, Run(oc, dc, s, a), b)
    decreases |a|
  {
    hide Enabled, Apply;
    if a == [] {
      assert a + b == b;
    } else {
      assert (a + b)[0] == a[0] && (a + b)[1..] == a[1..] + b;
      RunConcat(oc, dc, Apply(oc, dc, s, a[0]), a[1..], b);
    }
  }

  lemma {:induction false} PhasesLift(oc: O.Config, dc: D.Config, s: State, phases: seq<Phase>)
    returns (steps: seq<Step>)
    requires AllFollow(oc, dc, s, phases)
    ensures Legal(oc, dc, s, steps) && Run(oc, dc, s, steps) == AfterAll(s, phases)
    decreases |phases|
  {
    hide Enabled, Apply, Follows;
    if phases == [] {
      steps := [];
    } else {
      var first := PhaseLifts(oc, dc, s, phases[0]);
      var rest := PhasesLift(oc, dc, After(s, phases[0]), phases[1..]);
      RunConcat(oc, dc, s, first, rest);
      steps := first + rest;
    }
  }

  /** Whatever calls of the store, the Saga, the relays and the reporters follow one another, the reporters being handed
      nothing but records of the bus: every notification is audited. */
  lemma MethodsAreAudited(oc: O.Config, dc: D.Config, phases: seq<Phase>)
    requires D.Valid(dc) && (forall v :: oc.admits(v) ==> Emittable(v)) && AllFollow(oc, dc, INIT, phases)
    ensures Audited(dc.mode, AfterAll(INIT, phases))
  {
    var steps := PhasesLift(oc, dc, INIT, phases);
    NotificationsAreAudited(oc, dc, steps);
  }
}
