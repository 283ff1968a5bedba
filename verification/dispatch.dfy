/** The reporter's dispatch loop and in-memory delivery log as methods, with other replicas acting
    between any two of their calls. */
module Dispatcher {
  import opened Text
  import opened Reports
  import opened DispatchProtocol

  type Others = (nat, State) -> State

  /** The verdicts that are on the bus, or will be by the end of a call. */
  type From = WireVerdict -> bool

  ghost predicate ReceivesFrom(steps: seq<Step>, from: From) {
    forall i | 0 <= i < |steps| && steps[i].Receive? :: from(steps[i].verdict)
  }

  ghost predicate Reaches(cfg: Config, from: From, s: State, s': State) {
    exists steps :: Legal(cfg, s, steps) && Run(cfg, s, steps) == s' && ReceivesFrom(steps, from)
  }

  /** Other replicas take protocol steps of their own, never those of replica `q`. */
  ghost predicate Spares(cfg: Config, from: From, q: nat, others: Others) {
    forall k, s | Inv(cfg, s) :: ReachesWithout(cfg, from, q, s, others(k, s))
  }

  ghost predicate ReachesWithout(cfg: Config, from: From, q: nat, s: State, s': State) {
    exists steps: seq<Step> ::
      && Legal(cfg, s, steps) && Run(cfg, s, steps) == s' && ReceivesFrom(steps, from)
      && forall step | step in steps :: step.q != q
  }

  ghost predicate Idle(others: Others) {
    forall k, s :: others(k, s) == s
  }

  ghost predicate Since(cfg: Config, from: From, s0: State, s: State) {
    Reaches(cfg, from, s0, s) && Inv(cfg, s) && s0.delivered <= s.delivered
  }

  lemma SinceItself(cfg: Config, from: From, s: State)
    requires Inv(cfg, s)
    ensures Since(cfg, from, s, s)
  {
    assert Legal(cfg, s, []) && Run(cfg, s, []) == s && ReceivesFrom([], from);
  }

  lemma SinceOn(cfg: Config, from: From, a: State, b: State, c: State)
    requires Since(cfg, from, a, b) && Since(cfg, from, b, c)
    ensures Since(cfg, from, a, c)
  {
    hide Inv;
    var x :| Legal(cfg, a, x) && Run(cfg, a, x) == b && ReceivesFrom(x, from);
    var y :| Legal(cfg, b, y) && Run(cfg, b, y) == c && ReceivesFrom(y, from);
    RunConcat(cfg, a, x, y);
    assert Legal(cfg, a, x + y) && Run(cfg, a, x + y) == c && ReceivesFrom(x + y, from);
  }

  lemma SinceStep(cfg: Config, from: From, s0: State, s: State, step: Step)
    requires Since(cfg, from, s0, s) && Enabled(cfg, s, step) && (step.Receive? ==> from(step.verdict))
    ensures Since(cfg, from, s0, Apply(cfg, s, step))
  {
    StepKeepsInv(cfg, s, step);
    hide Inv;
    RunOne(cfg, s, step);
    assert ReceivesFrom([step], from);
    SinceOn(cfg, from, s0, s, Apply(cfg, s, step));
  }

  /** At some moment in between, the key was in the log. */
  ghost predicate WasLogged(cfg: Config, from: From, s0: State, s: State, key: string) {
    exists m :: Since(cfg, from, s0, m) && Since(cfg, from, m, s) && key in m.log
  }

  lemma SameKey(cfg: Config, d: Dispatch, d': Dispatch)
    requires Pending(cfg, d) && d'.report == d.report && d'.next == d.next
    ensures NextKey(cfg, d') == NextKey(cfg, d)
  {
  }

  lemma SkipWasLogged(cfg: Config, from: From, s0: State, s: State, q: nat)
    requires Since(cfg, from, s0, s) && Enabled(cfg, s, Skip(q))
    ensures WasLogged(cfg, from, s0, Apply(cfg, s, Skip(q)), NextKey(cfg, s.active[q]))
  {
    SinceInv(cfg, from, s0, s);
    SinceItself(cfg, from, s);
    SinceStep(cfg, from, s, s, Skip(q));
    hide Since;
  }

  lemma WasLoggedStill(cfg: Config, from: From, s0: State, s: State, s': State, key: string)
    requires WasLogged(cfg, from, s0, s, key) && Since(cfg, from, s, s')
    ensures WasLogged(cfg, from, s0, s', key)
  {
    hide Since;
    var m :| Since(cfg, from, s0, m) && Since(cfg, from, m, s) && key in m.log;
    SinceOn(cfg, from, m, s, s');
  }

  lemma WasLoggedBefore(cfg: Config, from: From, s0: State, s: State, s': State, key: string)
    requires Since(cfg, from, s0, s) && WasLogged(cfg, from, s, s', key)
    ensures WasLogged(cfg, from, s0, s', key)
  {
    hide Since;
    var m :| Since(cfg, from, s, m) && Since(cfg, from, m, s') && key in m.log;
    SinceOn(cfg, from, s0, s, m);
  }

  lemma {:induction false} Untouched(cfg: Config, q: nat, s: State, steps: seq<Step>)
    requires Legal(cfg, s, steps) && forall step | step in steps :: step.q != q
    ensures var s' := Run(cfg, s, steps);
      (q in s'.active <==> q in s.active) && (q in s.active ==> s'.active[q] == s.active[q])
    decreases |steps|
  {
    if steps == [] {
    } else {
      assert steps[0] in steps && forall step | step in steps[1..] :: step in steps;
      OthersStay(cfg, s, steps[0]);
      Untouched(cfg, q, Apply(cfg, s, steps[0]), steps[1..]);
    }
  }

  lemma OthersSpare(cfg: Config, from: From, q: nat, others: Others, k: nat, s: State)
    requires Inv(cfg, s) && Spares(cfg, from, q, others)
    ensures var s' := others(k, s);
      Since(cfg, from, s, s') && (q in s'.active <==> q in s.active) && (q in s.active ==> s'.active[q] == s.active[q])
  {
    hide Inv;
    var s' := others(k, s);
    assert ReachesWithout(cfg, from, q, s, s');
    var steps: seq<Step> :|
      && Legal(cfg, s, steps) && Run(cfg, s, steps) == s' && ReceivesFrom(steps, from)
      && forall step | step in steps :: step.q != q;
    Untouched(cfg, q, s, steps);
    RunKeepsInv(cfg, s, steps);
  }

  /** A log call may fail before or after taking effect. */
  datatype LogResult = Works | FailsUntouched | FailsApplied

  datatype Faults = Faults(mark: nat -> LogResult, notify: nat -> bool, unmark: nat -> LogResult)

  ghost predicate Reliable(faults: Faults) {
    forall i :: faults.mark(i) == Works && faults.unmark(i) == Works
  }

  datatype Error = Validation(reason: string) | Unavailable(failures: nat)

  /** The in-memory delivery log. */
  class Log {
    var seen: set<string>

    constructor ()
      ensures seen == {}
    {
      seen := {};
    }

    method MarkIfNew(submissionId: string, notifier: string) returns (isNew: bool)
      modifies this
      ensures isNew <==> Key(submissionId, notifier) !in old(seen)
      ensures seen == old(seen) + {Key(submissionId, notifier)}
    {
      if Key(submissionId, notifier) in seen {
        return false;
      }
      seen := seen + {Key(submissionId, notifier)};
      isNew := true;
    }

    method Unmark(submissionId: string, notifier: string)
      modifies this
      ensures seen == old(seen) - {Key(submissionId, notifier)}
    {
      seen := seen - {Key(submissionId, notifier)};
    }
  }

  /** What replicas share: the log, who is working on what, and the notifications made so far. */
  class Shared {
    const cfg: Config
    const log: Log
    var active: map<nat, Dispatch>
    var delivered: seq<Delivery>

    constructor (cfg: Config, log: Log)
      ensures this.cfg == cfg && this.log == log && active == map[] && delivered == []
    {
      this.cfg, this.log, active, delivered := cfg, log, map[], [];
    }

    function Now(): State
      reads this, log
    {
      DispatchProtocol.State(log.seen, active, delivered)
    }

    method LetOthersAct(q: nat, others: Others, k: nat, ghost s0: State, ghost from: From)
      requires Since(cfg, from, s0, Now()) && Spares(cfg, from, q, others)
      modifies this, log
      ensures Now() == others(k, old(Now())) && Since(cfg, from, s0, Now())
      ensures (q in active <==> q in old(active)) && (q in old(active) ==> active[q] == old(active)[q])
    {
      OthersSpare(cfg, from, q, others, k, Now());
      SinceOn(cfg, from, s0, Now(), others(k, Now()));
      var s := others(k, Now());
      log.seen, active, delivered := s.log, s.active, s.delivered;
    }

    /** Replica q works on `d` from here on. */
    method Move(q: nat, d: Dispatch)
      modifies this`active
      ensures active == old(active)[q := d]
    {
      active := active[q := d];
    }
  }

  /** What an undisturbed turn of the loop with a reliable log comes to: an already marked notifier is skipped,
      any other is notified, and unmarked again if that fails. */
  function AfterOne(cfg: Config, s: State, q: nat, works: bool): State
    requires At(cfg, s, q, Ready)
  {
    var d := s.active[q];
    var active := s.active[q := d.(next := d.next + 1)];
    if NextKey(cfg, d) !in s.log && works then
      State(s.log + {NextKey(cfg, d)}, active, s.delivered + [Delivery(d.report, cfg.notifiers[d.next])])
    else s.(active := active)
  }

  lemma SkipIsAfterOne(cfg: Config, s: State, q: nat, works: bool)
    requires Enabled(cfg, s, Skip(q))
    ensures Apply(cfg, s, Skip(q)) == AfterOne(cfg, s, q, works)
  {
  }

  lemma SuccessIsAfterOne(cfg: Config, s: State, q: nat)
    requires Enabled(cfg, s, Mark(q))
    ensures var s' := Apply(cfg, s, Mark(q));
      Enabled(cfg, s', NotifySucceeded(q)) && Apply(cfg, s', NotifySucceeded(q)) == AfterOne(cfg, s, q, true)
  {
    var d := s.active[q];
    assert s.active[q := d.(phase := Holding)][q := d.(next := d.next + 1)] == s.active[q := d.(next := d.next + 1)];
  }

  lemma FailureIsAfterOne(cfg: Config, s: State, q: nat)
    requires Enabled(cfg, s, Mark(q))
    ensures var s' := Apply(cfg, s, Mark(q));
      && Enabled(cfg, s', NotifyFailed(q))
      && var s'' := Apply(cfg, s', NotifyFailed(q));
         Enabled(cfg, s'', Unmark(q, true)) && Apply(cfg, s'', Unmark(q, true)) == AfterOne(cfg, s, q, false)
  {
    var d := s.active[q];
    assert s.log + {NextKey(cfg, d)} - {NextKey(cfg, d)} == s.log;
    assert s.active[q := d.(phase := Holding)][q := d.(phase := Retracting)][q := d.(next := d.next + 1)]
        == s.active[q := d.(next := d.next + 1)];
  }

  /** What an undisturbed notification, unmarked again after a failure, comes to. */
  function AfterNotify(cfg: Config, s: State, q: nat, works: bool): State
    requires At(cfg, s, q, Holding)
  {
    if works then Apply(cfg, s, NotifySucceeded(q))
    else Apply(cfg, Apply(cfg, s, NotifyFailed(q)), Unmark(q, true))
  }

  lemma DeliverIsAfterOne(cfg: Config, s: State, q: nat, works: bool)
    requires Enabled(cfg, s, Mark(q))
    ensures var s' := Apply(cfg, s, Mark(q));
      At(cfg, s', q, Holding) && AfterNotify(cfg, s', q, works) == AfterOne(cfg, s, q, works)
  {
    SuccessIsAfterOne(cfg, s, q);
    FailureIsAfterOne(cfg, s, q);
    hide AfterOne;
  }

  lemma MarkAddsKey(cfg: Config, s: State, q: nat)
    requires Enabled(cfg, s, Mark(q))
    ensures Apply(cfg, s, Mark(q)).log == s.log + {NextKey(cfg, s.active[q])} && NextKey(cfg, s.active[q]) !in s.log
  {
  }

  /** The log holds the keys of the delivered pairs and nothing else. */
  ghost predicate LogIsHistory(s: State) {
    s.log == set k | 0 <= k < |s.delivered| :: Key(s.delivered[k].report.submissionId, s.delivered[k].notifier)
  }

  lemma LoggedMeansDelivered(cfg: Config, s: State, submissionId: string, notifier: string)
    requires Inv(cfg, s) && LogIsHistory(s) && notifier in cfg.notifiers
    ensures Key(submissionId, notifier) in s.log <==> WasDelivered(s.delivered, submissionId, notifier)
  {
    if Key(submissionId, notifier) in s.log {
      var k :| 0 <= k < |s.delivered|
          && Key(s.delivered[k].report.submissionId, s.delivered[k].notifier) == Key(submissionId, notifier);
      KeyInjective(cfg, s.delivered[k].report.submissionId, s.delivered[k].notifier, submissionId, notifier);
    } else if WasDelivered(s.delivered, submissionId, notifier) {
      DeliveredKeys(cfg, s, submissionId, notifier);
    }
  }

  /** An undisturbed turn keeps the log equal to the history and adds at most the pair at hand. */
  lemma TurnMeaning(cfg: Config, s: State, q: nat, works: bool)
    requires Inv(cfg, s) && LogIsHistory(s) && At(cfg, s, q, Ready)
    ensures var s' := AfterOne(cfg, s, q, works);
      var d := s.active[q];
      var name := cfg.notifiers[d.next];
      && LogIsHistory(s')
      && (NextKey(cfg, d) in s.log <==> WasDelivered(s.delivered, d.report.submissionId, name))
      && (forall id, n :: WasDelivered(s'.delivered, id, n)
            <==> WasDelivered(s.delivered, id, n) || (works && id == d.report.submissionId && n == name))
      && (s'.delivered == s.delivered
                          + if NextKey(cfg, d) !in s.log && works then [Delivery(d.report, name)] else [])
  {
    var s' := AfterOne(cfg, s, q, works);
    var d := s.active[q];
    LoggedMeansDelivered(cfg, s, d.report.submissionId, cfg.notifiers[d.next]);
    if NextKey(cfg, d) !in s.log && works {
      var n := |s.delivered|;
      assert s'.delivered[n] == Delivery(d.report, cfg.notifiers[d.next]);
      assert forall k | 0 <= k < n :: s'.delivered[k] == s.delivered[k];
      forall id, m | WasDelivered(s.delivered, id, m) ensures WasDelivered(s'.delivered, id, m) {
        var k :| 0 <= k < n && s.delivered[k].report.submissionId == id && s.delivered[k].notifier == m;
        assert s'.delivered[k] == s.delivered[k];
      }
      HistoryGrows(s, s', NextKey(cfg, d));
    }
  }

  lemma HistoryGrows(s: State, s': State, key: string)
    requires LogIsHistory(s) && s'.log == s.log + {key} && |s'.delivered| == |s.delivered| + 1
        && s.delivered <= s'.delivered
    requires var d := s'.delivered[|s.delivered|]; key == Key(d.report.submissionId, d.notifier)
    ensures LogIsHistory(s')
  {
    var keys := set k | 0 <= k < |s'.delivered| :: Key(s'.delivered[k].report.submissionId, s'.delivered[k].notifier);
    forall x ensures x in keys <==> x in s'.log {
      if x in s.log {
        var k :| 0 <= k < |s.delivered| && Key(s.delivered[k].report.submissionId, s.delivered[k].notifier) == x;
        assert s'.delivered[k] == s.delivered[k];
      }
      if x in keys {
        var k :| 0 <= k < |s'.delivered| && Key(s'.delivered[k].report.submissionId, s'.delivered[k].notifier) == x;
        assert k < |s.delivered| ==> s'.delivered[k] == s.delivered[k];
      }
    }
  }

  ghost predicate Done(cfg: Config, s: State, r: Report, j: nat)
    requires j < |cfg.notifiers|
  {
    WasDelivered(s.delivered, r.submissionId, cfg.notifiers[j])
  }

  /** Exactly the notifiers without an earlier success are called. */
  ghost predicate CalledExactly(cfg: Config, s0: State, r: Report, i: nat, called: set<string>)
    requires i <= |cfg.notifiers|
  {
    called == set j | 0 <= j < i && !Done(cfg, s0, r, j) :: cfg.notifiers[j]
  }

  /** A notifier has succeeded by now exactly if it had before or was called and works; failure is reported exactly
      when one has not. */
  ghost predicate Tallied(cfg: Config, s0: State, s: State, r: Report, i: nat, failures: nat, works: nat -> bool)
    requires i <= |cfg.notifiers|
  {
    && (forall j | 0 <= j < |cfg.notifiers| :: Done(cfg, s, r, j) <==> Done(cfg, s0, r, j) || (j < i && works(j)))
    && (failures == 0 <==> forall j | 0 <= j < i :: Done(cfg, s, r, j))
  }

  /** Nothing but this report was sent, and only to notifiers that were called. */
  ghost predicate SentOnly(s0: State, s: State, r: Report, called: set<string>) {
    && s0.delivered <= s.delivered
    && forall k | |s0.delivered| <= k < |s.delivered| :: s.delivered[k].report == r && s.delivered[k].notifier in called
  }

  /** How far an undisturbed dispatch of `r` that began in `s0` has come after the first `i` notifiers. */
  ghost predicate Progress(cfg: Config, s0: State, s: State, r: Report, i: nat, called: set<string>, failures: nat,
                           works: nat -> bool)
    requires i <= |cfg.notifiers|
  {
    LogIsHistory(s) && CalledExactly(cfg, s0, r, i, called) && Tallied(cfg, s0, s, r, i, failures, works)
        && SentOnly(s0, s, r, called)
  }

  lemma TallyOne(cfg: Config, s0: State, s: State, s': State, r: Report, i: nat, failures: nat, works: nat -> bool)
    requires i < |cfg.notifiers| && Tallied(cfg, s0, s, r, i, failures, works)
    requires forall j | 0 <= j < |cfg.notifiers| :: Done(cfg, s', r, j) <==> Done(cfg, s, r, j) || (works(i) && j == i)
    ensures Tallied(cfg, s0, s', r, i + 1, if !Done(cfg, s, r, i) && !works(i) then failures + 1 else failures, works)
  {
    hide Done;
  }

  lemma CallOne(cfg: Config, s0: State, r: Report, i: nat, called: set<string>)
    requires i < |cfg.notifiers| && CalledExactly(cfg, s0, r, i, called)
    ensures CalledExactly(cfg, s0, r, i + 1, if Done(cfg, s0, r, i) then called else called + {cfg.notifiers[i]})
  {
    hide Done;
  }

  lemma TurnDone(cfg: Config, s: State, q: nat, works: bool)
    requires Inv(cfg, s) && LogIsHistory(s) && At(cfg, s, q, Ready)
    ensures var (s', r, i) := (AfterOne(cfg, s, q, works), s.active[q].report, s.active[q].next);
      && (NextKey(cfg, s.active[q]) in s.log <==> Done(cfg, s, r, i))
      && (forall j | 0 <= j < |cfg.notifiers| :: Done(cfg, s', r, j) <==> Done(cfg, s, r, j) || (works && j == i))
      && LogIsHistory(s')
  {
    TurnMeaning(cfg, s, q, works);
    NamesDistinct(cfg, s);
    hide Inv, AfterOne, LogIsHistory, WasDelivered, NextKey;
  }

  lemma SendOne(cfg: Config, s0: State, s: State, q: nat, called: set<string>, works: bool)
    requires At(cfg, s, q, Ready) && SentOnly(s0, s, s.active[q].report, called)
    ensures var d := s.active[q];
      SentOnly(s0, AfterOne(cfg, s, q, works), d.report,
               if NextKey(cfg, d) !in s.log then called + {cfg.notifiers[d.next]} else called)
  {
  }

  lemma ProgressByTurn(cfg: Config, s0: State, s: State, q: nat, called: set<string>, failures: nat, works: nat -> bool)
    requires Inv(cfg, s) && At(cfg, s, q, Ready)
    requires Progress(cfg, s0, s, s.active[q].report, s.active[q].next, called, failures, works)
    ensures var d := s.active[q];
      var call := NextKey(cfg, d) !in s.log;
      Progress(cfg, s0, AfterOne(cfg, s, q, works(d.next)), d.report, d.next + 1,
               if call then called + {cfg.notifiers[d.next]} else called,
               if call && !works(d.next) then failures + 1 else failures, works)
  {
    var d, i := s.active[q], s.active[q].next;
    assert Done(cfg, s, d.report, i) <==> Done(cfg, s0, d.report, i);
    hide Inv, AfterOne, LogIsHistory, CalledExactly, Tallied, SentOnly, Done, NextKey;
    TurnDone(cfg, s, q, works(i));
    TallyOne(cfg, s0, s, AfterOne(cfg, s, q, works(i)), d.report, i, failures, works);
    CallOne(cfg, s0, d.report, i, called);
    SendOne(cfg, s0, s, q, called, works(i));
  }

  lemma NamesDistinct(cfg: Config, s: State)
    requires Inv(cfg, s)
    ensures forall i, j | 0 <= i < j < |cfg.notifiers| :: cfg.notifiers[i] != cfg.notifiers[j]
  {
  }

  /** The turn of the j-th notifier failed: with the mark, or with the notification that was tried. */
  ghost predicate TurnFails(cfg: Config, faults: Faults, called: set<string>, j: nat)
    requires j < |cfg.notifiers|
  {
    faults.mark(j) != Works || (cfg.notifiers[j] in called && !faults.notify(j))
  }

  /** Whatever fails and whoever interferes: as many failures are reported as turns have failed, and every other turn
      delivered the report or found its key in the log. */
  ghost predicate Accounted(cfg: Config, from: From, s0: State, s: State, r: Report, faults: Faults, i: nat,
                            called: set<string>, failures: nat)
    requires i <= |cfg.notifiers|
  {
    && failures == |set j | 0 <= j < i && TurnFails(cfg, faults, called, j)|
    && (forall n | n in called :: exists j | 0 <= j < i :: cfg.notifiers[j] == n && faults.mark(j) == Works)
    && (forall j | 0 <= j < i && !TurnFails(cfg, faults, called, j) ::
          if cfg.notifiers[j] in called then WasDelivered(s.delivered, r.submissionId, cfg.notifiers[j])
          else WasLogged(cfg, from, s0, s, Key(r.submissionId, cfg.notifiers[j])))
  }

  /** Nothing has left the log, and the keys of turns that did not fail are in it. */
  ghost predicate LogKeeps(cfg: Config, s0: State, s: State, r: Report, faults: Faults, i: nat, called: set<string>)
    requires i <= |cfg.notifiers|
  {
    && s0.log <= s.log
    && (forall n | n in called :: exists j | 0 <= j < i :: cfg.notifiers[j] == n)
    && forall j | 0 <= j < i && !TurnFails(cfg, faults, called, j) :: Key(r.submissionId, cfg.notifiers[j]) in s.log
  }

  lemma AccountNone(cfg: Config, from: From, s0: State, s: State, r: Report, faults: Faults)
    ensures Accounted(cfg, from, s0, s, r, faults, 0, {}, 0) && LogKeeps(cfg, s, s, r, faults, 0, {})
  {
  }

  /** The call of a later notifier does not change whether an earlier turn failed. */
  lemma EarlierTurns(cfg: Config, faults: Faults, called: set<string>, i: nat, wasCalled: bool)
    requires Valid(cfg) && i < |cfg.notifiers|
    ensures var called' := if wasCalled then called + {cfg.notifiers[i]} else called;
      forall j | 0 <= j < i ::
        && (TurnFails(cfg, faults, called', j) <==> TurnFails(cfg, faults, called, j))
        && (cfg.notifiers[j] in called' <==> cfg.notifiers[j] in called)
  {
  }

  lemma NotYetCalled(cfg: Config, i: nat, called: set<string>)
    requires Valid(cfg) && i < |cfg.notifiers|
    requires forall n | n in called :: exists j | 0 <= j < i :: cfg.notifiers[j] == n
    ensures cfg.notifiers[i] !in called
  {
  }

  lemma CountOne(cfg: Config, faults: Faults, called: set<string>, i: nat, wasCalled: bool, failed: bool)
    requires Valid(cfg) && i < |cfg.notifiers|
    requires var called' := if wasCalled then called + {cfg.notifiers[i]} else called;
      failed <==> TurnFails(cfg, faults, called', i)
    ensures var called' := if wasCalled then called + {cfg.notifiers[i]} else called;
      |set j | 0 <= j < i + 1 && TurnFails(cfg, faults, called', j)|
      == |set j | 0 <= j < i && TurnFails(cfg, faults, called, j)| + if failed then 1 else 0
  {
    EarlierTurns(cfg, faults, called, i, wasCalled);
    var called' := if wasCalled then called + {cfg.notifiers[i]} else called;
    var before := set j | 0 <= j < i && TurnFails(cfg, faults, called, j);
    hide TurnFails;
    assert (set j | 0 <= j < i + 1 && TurnFails(cfg, faults, called', j)) == before + if failed then {i} else {};
  }

  /** An earlier turn that did not fail is still accounted for. */
  lemma TurnStays(cfg: Config, from: From, s0: State, s: State, s': State, r: Report, called: set<string>, j: nat)
    requires j < |cfg.notifiers| && Since(cfg, from, s, s')
    requires if cfg.notifiers[j] in called then WasDelivered(s.delivered, r.submissionId, cfg.notifiers[j])
             else WasLogged(cfg, from, s0, s, Key(r.submissionId, cfg.notifiers[j]))
    ensures if cfg.notifiers[j] in called then WasDelivered(s'.delivered, r.submissionId, cfg.notifiers[j])
            else WasLogged(cfg, from, s0, s', Key(r.submissionId, cfg.notifiers[j]))
  {
    SinceInv(cfg, from, s, s');
    hide Since, Key, Inv;
    if cfg.notifiers[j] in called {
      DeliveredStays(s.delivered, s'.delivered, r.submissionId, cfg.notifiers[j]);
    } else {
      WasLoggedStill(cfg, from, s0, s, s', Key(r.submissionId, cfg.notifiers[j]));
    }
  }

  lemma CalledOne(cfg: Config, faults: Faults, i: nat, called: set<string>, wasCalled: bool)
    requires i < |cfg.notifiers| && (wasCalled ==> faults.mark(i) == Works)
    requires forall n | n in called :: exists j | 0 <= j < i :: cfg.notifiers[j] == n && faults.mark(j) == Works
    ensures var called' := if wasCalled then called + {cfg.notifiers[i]} else called;
      forall n | n in called' :: exists j | 0 <= j < i + 1 :: cfg.notifiers[j] == n && faults.mark(j) == Works
  {
  }

  lemma TurnsStay(cfg: Config, from: From, s0: State, s: State, s': State, r: Report, faults: Faults, i: nat,
                  called: set<string>, wasCalled: bool)
    requires Valid(cfg) && i < |cfg.notifiers| && Since(cfg, from, s, s')
    requires forall j | 0 <= j < i && !TurnFails(cfg, faults, called, j) ::
               if cfg.notifiers[j] in called then WasDelivered(s.delivered, r.submissionId, cfg.notifiers[j])
               else WasLogged(cfg, from, s0, s, Key(r.submissionId, cfg.notifiers[j]))
    ensures var called' := if wasCalled then called + {cfg.notifiers[i]} else called;
      forall j | 0 <= j < i && !TurnFails(cfg, faults, called', j) ::
        if cfg.notifiers[j] in called' then WasDelivered(s'.delivered, r.submissionId, cfg.notifiers[j])
        else WasLogged(cfg, from, s0, s', Key(r.submissionId, cfg.notifiers[j]))
  {
    EarlierTurns(cfg, faults, called, i, wasCalled);
    hide TurnFails, Since, Valid, Key, WasDelivered, WasLogged;
    forall j | 0 <= j < i && !TurnFails(cfg, faults, called, j)
      ensures if cfg.notifiers[j] in called then WasDelivered(s'.delivered, r.submissionId, cfg.notifiers[j])
              else WasLogged(cfg, from, s0, s', Key(r.submissionId, cfg.notifiers[j]))
    {
      TurnStays(cfg, from, s0, s, s', r, called, j);
    }
  }

  lemma AccountOne(cfg: Config, from: From, s0: State, s: State, s': State, r: Report, faults: Faults, i: nat,
                   called: set<string>, failures: nat, failed: bool, wasCalled: bool)
    requires Valid(cfg) && i < |cfg.notifiers| && Since(cfg, from, s0, s) && Since(cfg, from, s, s')
    requires Accounted(cfg, from, s0, s, r, faults, i, called, failures)
    requires failed <==> faults.mark(i) != Works || (wasCalled && !faults.notify(i))
    requires wasCalled ==> faults.mark(i) == Works
    requires !failed ==>
               if wasCalled then WasDelivered(s'.delivered, r.submissionId, cfg.notifiers[i])
               else WasLogged(cfg, from, s, s', Key(r.submissionId, cfg.notifiers[i]))
    ensures Accounted(cfg, from, s0, s', r, faults, i + 1,
                      if wasCalled then called + {cfg.notifiers[i]} else called,
                      if failed then failures + 1 else failures)
  {
    var called' := if wasCalled then called + {cfg.notifiers[i]} else called;
    var failures' := if failed then failures + 1 else failures;
    NotYetCalled(cfg, i, called);
    assert failed <==> TurnFails(cfg, faults, called', i);
    hide TurnFails, Since, Valid, Key, WasDelivered, WasLogged;
    CountOne(cfg, faults, called, i, wasCalled, failed);
    CalledOne(cfg, faults, i, called, wasCalled);
    TurnsStay(cfg, from, s0, s, s', r, faults, i, called, wasCalled);
    hide Accounted;
    if !failed && !wasCalled {
      WasLoggedBefore(cfg, from, s0, s, s', Key(r.submissionId, cfg.notifiers[i]));
    }
    AccountedFurther(cfg, from, s0, s', r, faults, i, called', failures');
  }

  lemma AccountedFurther(cfg: Config, from: From, s0: State, s: State, r: Report, faults: Faults, i: nat,
                         called: set<string>, failures: nat)
    requires i < |cfg.notifiers| && failures == |set j | 0 <= j < i + 1 && TurnFails(cfg, faults, called, j)|
    requires forall n | n in called :: exists j | 0 <= j < i + 1 :: cfg.notifiers[j] == n && faults.mark(j) == Works
    requires forall j | 0 <= j < i && !TurnFails(cfg, faults, called, j) ::
               if cfg.notifiers[j] in called then WasDelivered(s.delivered, r.submissionId, cfg.notifiers[j])
               else WasLogged(cfg, from, s0, s, Key(r.submissionId, cfg.notifiers[j]))
    requires !TurnFails(cfg, faults, called, i) ==>
               if cfg.notifiers[i] in called then WasDelivered(s.delivered, r.submissionId, cfg.notifiers[i])
               else WasLogged(cfg, from, s0, s, Key(r.submissionId, cfg.notifiers[i]))
    ensures Accounted(cfg, from, s0, s, r, faults, i + 1, called, failures)
  {
    hide TurnFails, WasDelivered, WasLogged, Key;
  }

  lemma LogKeepsOne(cfg: Config, s0: State, s: State, s': State, r: Report, faults: Faults, i: nat,
                    called: set<string>, failed: bool, wasCalled: bool)
    requires Valid(cfg) && i < |cfg.notifiers| && LogKeeps(cfg, s0, s, r, faults, i, called)
    requires s.log <= s'.log && (!failed ==> Key(r.submissionId, cfg.notifiers[i]) in s'.log)
    requires failed <==> faults.mark(i) != Works || (wasCalled && !faults.notify(i))
    requires wasCalled ==> faults.mark(i) == Works
    ensures LogKeeps(cfg, s0, s', r, faults, i + 1, if wasCalled then called + {cfg.notifiers[i]} else called)
  {
    NotYetCalled(cfg, i, called);
    EarlierTurns(cfg, faults, called, i, wasCalled);
    var called' := if wasCalled then called + {cfg.notifiers[i]} else called;
    assert failed <==> TurnFails(cfg, faults, called', i);
    hide TurnFails, Valid, Key;
  }

  lemma AccountedAtEnd(cfg: Config, from: From, s0: State, s: State, s': State, r: Report, faults: Faults,
                       called: set<string>, failures: nat)
    requires Accounted(cfg, from, s0, s, r, faults, |cfg.notifiers|, called, failures) && Since(cfg, from, s, s')
    requires s'.delivered == s.delivered
    ensures failures == |set j | 0 <= j < |cfg.notifiers| && TurnFails(cfg, faults, called, j)|
    ensures failures == 0 <==> forall j | 0 <= j < |cfg.notifiers| ::
              faults.mark(j) == Works && (cfg.notifiers[j] in called ==> faults.notify(j))
    ensures failures == 0 <==> forall j | 0 <= j < |cfg.notifiers| :: !TurnFails(cfg, faults, called, j)
    ensures forall j | 0 <= j < |cfg.notifiers| && !TurnFails(cfg, faults, called, j) ::
              if cfg.notifiers[j] in called then WasDelivered(s'.delivered, r.submissionId, cfg.notifiers[j])
              else WasLogged(cfg, from, s0, s', Key(r.submissionId, cfg.notifiers[j]))
  {
    var failing := set j | 0 <= j < |cfg.notifiers| && TurnFails(cfg, faults, called, j);
    assert |failing| == 0 <==> failing == {};
    assert failing == {} <==> forall j | 0 <= j < |cfg.notifiers| :: !TurnFails(cfg, faults, called, j) by {
      assert forall j | 0 <= j < |cfg.notifiers| :: TurnFails(cfg, faults, called, j) <==> j in failing;
    }
    assert forall j | 0 <= j < |cfg.notifiers| :: TurnFails(cfg, faults, called, j) <==>
             !(faults.mark(j) == Works && (cfg.notifiers[j] in called ==> faults.notify(j)));
    hide TurnFails, Since, Key, WasDelivered;
    forall j | 0 <= j < |cfg.notifiers| && !TurnFails(cfg, faults, called, j) && cfg.notifiers[j] !in called
      ensures WasLogged(cfg, from, s0, s', Key(r.submissionId, cfg.notifiers[j]))
    {
      WasLoggedStill(cfg, from, s0, s, s', Key(r.submissionId, cfg.notifiers[j]));
    }
  }

  lemma LogKeepsAll(cfg: Config, s0: State, s: State, r: Report, faults: Faults, called: set<string>)
    requires LogKeeps(cfg, s0, s, r, faults, |cfg.notifiers|, called)
    ensures s0.log <= s.log
    ensures forall j | 0 <= j < |cfg.notifiers| && !TurnFails(cfg, faults, called, j) ::
              Key(r.submissionId, cfg.notifiers[j]) in s.log
  {
  }

  class DispatchVerdict {
    const shared: Shared

    constructor (shared: Shared)
      ensures this.shared == shared
    {
      this.shared := shared;
    }

    /** deliveries.MarkIfNew for the next notifier. */
    method MarkNext(q: nat, result: LogResult, ghost s0: State, ghost from: From) returns (isNew: bool, failed: bool)
      requires Since(shared.cfg, from, s0, shared.Now()) && At(shared.cfg, shared.Now(), q, Ready)
      modifies shared, shared.log
      ensures Since(shared.cfg, from, s0, shared.Now())
      ensures failed <==> result != Works
      ensures !failed ==> (isNew <==> Enabled(shared.cfg, old(shared.Now()), Mark(q)))
      ensures shared.Now() == Apply(shared.cfg, old(shared.Now()),
                                    if failed then MarkFailed(q, result == FailsApplied)
                                    else if isNew then Mark(q) else Skip(q))
    {
      hide Inv, Since;
      var cfg, d := shared.cfg, shared.active[q];
      ghost var s := shared.Now();
      if result == FailsUntouched {
        isNew := false;
      } else {
        isNew := shared.log.MarkIfNew(d.report.submissionId, cfg.notifiers[d.next]);
      }
      failed := result != Works;
      if !failed && isNew {
        shared.Move(q, d.(phase := Holding));
      } else {
        shared.Move(q, d.(next := d.next + 1));
      }
      assert !isNew && result == Works ==> s.log + {NextKey(cfg, d)} == s.log;
      SinceStep(cfg, from, s0, s,
                if failed then MarkFailed(q, result == FailsApplied) else if isNew then Mark(q) else Skip(q));
    }

    /** n.Notify for the notifier whose key is held. */
    method NotifyNext(q: nat, works: bool, ghost s0: State, ghost from: From)
      requires Since(shared.cfg, from, s0, shared.Now()) && At(shared.cfg, shared.Now(), q, Holding)
      modifies shared
      ensures Since(shared.cfg, from, s0, shared.Now())
      ensures shared.Now() == Apply(shared.cfg, old(shared.Now()),
                                    if works then NotifySucceeded(q) else NotifyFailed(q))
    {
      hide Inv, Since;
      var cfg, d := shared.cfg, shared.active[q];
      SinceStep(cfg, from, s0, shared.Now(), if works then NotifySucceeded(q) else NotifyFailed(q));
      if works {
        shared.delivered := shared.delivered + [Delivery(d.report, cfg.notifiers[d.next])];
        shared.Move(q, d.(next := d.next + 1, phase := Ready));
      } else {
        shared.Move(q, d.(phase := Retracting));
      }
    }

    /** deliveries.Unmark after a failed notification; its own error is ignored. */
    method UnmarkNext(q: nat, result: LogResult, ghost s0: State, ghost from: From)
      requires Since(shared.cfg, from, s0, shared.Now()) && At(shared.cfg, shared.Now(), q, Retracting)
      modifies shared, shared.log
      ensures Since(shared.cfg, from, s0, shared.Now())
      ensures shared.Now() == Apply(shared.cfg, old(shared.Now()), Step.Unmark(q, result != FailsUntouched))
    {
      hide Inv, Since;
      var cfg, d := shared.cfg, shared.active[q];
      SinceStep(cfg, from, s0, shared.Now(), Step.Unmark(q, result != FailsUntouched));
      if result != FailsUntouched {
        shared.log.Unmark(d.report.submissionId, cfg.notifiers[d.next]);
      }
      shared.Move(q, d.(next := d.next + 1, phase := Ready));
    }

    /** From the mark on: notify, and unmark after a failure. */
    method Deliver(q: nat, faults: Faults, others: Others, i: nat, ghost s0: State, ghost from: From)
      returns (failed: bool)
      requires Since(shared.cfg, from, s0, shared.Now()) && Spares(shared.cfg, from, q, others)
      requires At(shared.cfg, shared.Now(), q, Holding)
      modifies shared, shared.log
      ensures Since(shared.cfg, from, s0, shared.Now())
      ensures q in shared.active
      ensures shared.active[q] == old(shared.active)[q].(next := old(shared.active)[q].next + 1, phase := Ready)
      ensures failed <==> !faults.notify(i)
      ensures !failed ==> var d := old(shared.active)[q];
                WasDelivered(shared.delivered, d.report.submissionId, shared.cfg.notifiers[d.next])
      ensures Idle(others) ==>
                && shared.active.Keys == old(shared.active).Keys
                && old(shared.log.seen) - {NextKey(shared.cfg, old(shared.active)[q])} <= shared.log.seen
                && (!failed ==> shared.log.seen == old(shared.log.seen))
      ensures Idle(others) && Reliable(faults) ==>
                shared.Now() == AfterNotify(shared.cfg, old(shared.Now()), q, faults.notify(i))
    {
      hide Inv, Since, Spares, Legal, Run, NextKey;
      shared.LetOthersAct(q, others, 3 * i + 1, s0, from);
      NotifyNext(q, faults.notify(i), s0, from);
      SameKey(shared.cfg, old(shared.active)[q], old(shared.active)[q].(phase := Retracting));
      if faults.notify(i) {
        ghost var last := |shared.delivered| - 1;
        assert shared.delivered[last].notifier == shared.cfg.notifiers[old(shared.active)[q].next];
        return false;
      }
      shared.LetOthersAct(q, others, 3 * i + 2, s0, from);
      UnmarkNext(q, faults.unmark(i), s0, from);
      failed := true;
    }

    /** The body of the loop, for the notifier that replica `q` has come to. */
    method One(q: nat, faults: Faults, others: Others, ghost s0: State, ghost from: From)
      returns (failed: bool, called: bool)
      requires Since(shared.cfg, from, s0, shared.Now()) && Spares(shared.cfg, from, q, others)
      requires At(shared.cfg, shared.Now(), q, Ready)
      modifies shared, shared.log
      ensures Since(shared.cfg, from, s0, shared.Now())
      ensures q in shared.active && shared.active[q] == old(shared.active)[q].(next := old(shared.active)[q].next + 1)
      // whatever fails and whoever interferes: the turn fails with the mark, or with the notification that was tried
      ensures var i := old(shared.active)[q].next;
        && (failed <==> faults.mark(i) != Works || (called && !faults.notify(i)))
        && (called ==> faults.mark(i) == Works)
      // and a turn that does not fail has delivered, or found the key in the log
      ensures !failed ==>
                var d := old(shared.active)[q];
                if called then WasDelivered(shared.delivered, d.report.submissionId, shared.cfg.notifiers[d.next])
                else WasLogged(shared.cfg, from, s0, shared.Now(), NextKey(shared.cfg, d))
      ensures Idle(others) ==>
                && shared.active.Keys == old(shared.active).Keys && old(shared.log.seen) <= shared.log.seen
                && (!failed ==> NextKey(shared.cfg, old(shared.active)[q]) in shared.log.seen)
      ensures Idle(others) && Reliable(faults) ==>
                var d := old(shared.active)[q];
                var works := faults.notify(d.next);
                && shared.Now() == AfterOne(shared.cfg, old(shared.Now()), q, works)
                && (called <==> NextKey(shared.cfg, d) !in old(shared.log.seen))
                && (failed <==> called && !works)
    {
      hide Inv, Since, Spares, AfterOne, AfterNotify, Legal, Run, NextKey;
      var i := shared.active[q].next;
      called := false;
      shared.LetOthersAct(q, others, 3 * i, s0, from);
      ghost var s := shared.Now();
      var isNew;
      isNew, failed := MarkNext(q, faults.mark(i), s0, from);
      if failed {
        return;
      }
      if !isNew {
        SkipIsAfterOne(shared.cfg, s, q, faults.notify(i));
        SkipWasLogged(shared.cfg, from, s0, s, q);
        return;
      }
      called := true;
      SameKey(shared.cfg, s.active[q], shared.active[q]);
      MarkAddsKey(shared.cfg, s, q);
      DeliverIsAfterOne(shared.cfg, s, q, faults.notify(i));
      failed := Deliver(q, faults, others, i, s0, from);
    }

    method Start(q: nat, v: WireVerdict, ghost s0: State, ghost from: From)
      requires Since(shared.cfg, from, s0, shared.Now()) && Enabled(shared.cfg, shared.Now(), Receive(q, v)) && from(v)
      modifies shared
      ensures Since(shared.cfg, from, s0, shared.Now())
      ensures shared.Now() == Apply(shared.cfg, old(shared.Now()), Receive(q, v))
    {
      SinceStep(shared.cfg, from, s0, shared.Now(), Receive(q, v));
      shared.Move(q, Dispatch(NewReport(v, shared.cfg.mode).value, 0, Ready));
    }

    method End(q: nat, ghost s0: State, ghost from: From)
      requires Since(shared.cfg, from, s0, shared.Now()) && Enabled(shared.cfg, shared.Now(), Finish(q))
      modifies shared
      ensures Since(shared.cfg, from, s0, shared.Now())
      ensures shared.Now() == Apply(shared.cfg, old(shared.Now()), Finish(q))
    {
      SinceStep(shared.cfg, from, s0, shared.Now(), Finish(q));
      shared.active := shared.active - {q};
    }

    /** The loop over all notifiers. The ghost result names the notifiers called. */
    method WorkThrough(q: nat, report: Report, faults: Faults, others: Others, ghost s0: State, ghost from: From)
      returns (failures: nat, ghost called: set<string>)
      requires Since(shared.cfg, from, s0, shared.Now()) && Spares(shared.cfg, from, q, others)
      requires q in shared.active && shared.active[q] == Dispatch(report, 0, Ready)
      requires shared.Now().log == s0.log && shared.delivered == s0.delivered
      modifies shared, shared.log
      ensures Since(shared.cfg, from, s0, shared.Now())
      ensures q in shared.active && shared.active[q].next == |shared.cfg.notifiers|
      ensures Idle(others) && Reliable(faults) && LogIsHistory(s0) ==>
                Progress(shared.cfg, s0, shared.Now(), report, |shared.cfg.notifiers|, called, failures, faults.notify)
      ensures Accounted(shared.cfg, from, s0, shared.Now(), report, faults, |shared.cfg.notifiers|, called, failures)
      ensures Idle(others) ==>
                && shared.active.Keys == old(shared.active).Keys
                && LogKeeps(shared.cfg, old(shared.Now()), shared.Now(), report, faults, |shared.cfg.notifiers|, called)
    {
      hide Inv, Since, Spares, Progress, Idle, Reliable, LogIsHistory, AfterOne;
      hide Accounted, LogKeeps, WasLogged, WasDelivered;
      ghost var before := shared.Now();
      failures, called := 0, {};
      AccountNone(shared.cfg, from, s0, before, report, faults);
      SinceInv(shared.cfg, from, s0, before);
      ghost var calm := Idle(others) && Reliable(faults) && LogIsHistory(s0);
      if calm {
        ProgressNone(shared.cfg, s0, shared.Now(), report, faults.notify);
      }
      for i := 0 to |shared.cfg.notifiers|
        invariant Since(shared.cfg, from, s0, shared.Now())
        invariant q in shared.active && shared.active[q] == Dispatch(report, i, Ready)
        invariant calm ==> Progress(shared.cfg, s0, shared.Now(), report, i, called, failures, faults.notify)
        invariant Accounted(shared.cfg, from, s0, shared.Now(), report, faults, i, called, failures)
        invariant Idle(others) ==>
                    && shared.active.Keys == before.active.Keys
                    && LogKeeps(shared.cfg, before, shared.Now(), report, faults, i, called)
      {
        ghost var s := shared.Now();
        SinceInv(shared.cfg, from, s0, s);
        SinceItself(shared.cfg, from, s);
        var failed, wasCalled := One(q, faults, others, s, from);
        SinceInv(shared.cfg, from, s, shared.Now());
        SinceOn(shared.cfg, from, s0, s, shared.Now());
        AccountOne(shared.cfg, from, s0, s, shared.Now(), report, faults, i, called, failures, failed, wasCalled);
        if Idle(others) {
          LogKeepsOne(shared.cfg, before, s, shared.Now(), report, faults, i, called, failed, wasCalled);
        }
        if calm {
          ProgressByTurn(shared.cfg, s0, s, q, called, failures, faults.notify);
        }
        called := if wasCalled then called + {shared.cfg.notifiers[i]} else called;
        failures := if failed then failures + 1 else failures;
      }
    }

    /** Handle: render the verdict and work through every notifier. */
    method Handle(q: nat, v: WireVerdict, faults: Faults, others: Others, ghost from: From)
      returns (err: Option<Error>, ghost called: set<string>)
      requires Inv(shared.cfg, shared.Now()) && q !in shared.active
      requires Spares(shared.cfg, from, q, others) && from(v)
      modifies shared, shared.log
      ensures Since(shared.cfg, from, old(shared.Now()), shared.Now()) && q !in shared.active
      ensures NewReport(v, shared.cfg.mode).Invalid? ==>
                && err == Some(Validation(NewReport(v, shared.cfg.mode).reason))
                && called == {} && shared.Now() == old(shared.Now())
      // single replica: see Handled
      ensures (&& Idle(others) && Reliable(faults) && LogIsHistory(old(shared.Now()))
               && NewReport(v, shared.cfg.mode).Ok?) ==>
                Handled(shared.cfg, old(shared.Now()), shared.Now(), NewReport(v, shared.cfg.mode).value, called, err,
                    faults.notify)
      // whatever fails and whoever interferes: no error exactly when no mark failed and every notification tried
      // worked, and otherwise as many failures as turns that failed
      ensures NewReport(v, shared.cfg.mode).Ok? ==>
                var n := |shared.cfg.notifiers|;
                && (err.None? <==> forall j | 0 <= j < n ::
                      faults.mark(j) == Works && (shared.cfg.notifiers[j] in called ==> faults.notify(j)))
                && (err.Some? ==> err.value == Unavailable(
                      |set j | 0 <= j < n && TurnFails(shared.cfg, faults, called, j)|))
      // a notifier whose turn did not fail has the report, or its key was in the log
      ensures NewReport(v, shared.cfg.mode).Ok? ==>
                forall j | 0 <= j < |shared.cfg.notifiers| && !TurnFails(shared.cfg, faults, called, j) ::
                  if shared.cfg.notifiers[j] in called
                  then WasDelivered(shared.delivered, v.submissionId, shared.cfg.notifiers[j])
                  else WasLogged(shared.cfg, from, old(shared.Now()), shared.Now(),
                                 Key(v.submissionId, shared.cfg.notifiers[j]))
      ensures Idle(others) ==>
                && shared.active.Keys == old(shared.active).Keys && old(shared.log.seen) <= shared.log.seen
                && (err.None? ==> forall j | 0 <= j < |shared.cfg.notifiers| ::
                      Key(v.submissionId, shared.cfg.notifiers[j]) in shared.log.seen)
    {
      ghost var s0 := shared.Now();
      SinceItself(shared.cfg, from, s0);
      hide Inv, Since, Spares, Progress, Idle, Reliable, LogIsHistory, Accounted, LogKeeps, WasLogged, WasDelivered;
      hide TurnFails, Key, Handled;
      var r := NewReport(v, shared.cfg.mode);
      if r.Invalid? {
        return Some(Validation(r.reason)), {};
      }
      Start(q, v, s0, from);
      ghost var s1 := shared.Now();
      var failures;
      failures, called := WorkThrough(q, r.value, faults, others, s0, from);
      ghost var s := shared.Now();
      SinceInv(shared.cfg, from, s0, s);
      SinceItself(shared.cfg, from, s);
      End(q, s, from);
      SinceOn(shared.cfg, from, s0, s, shared.Now());
      err := if failures > 0 then Some(Unavailable(failures)) else None;
      AccountedAtEnd(shared.cfg, from, s0, s, shared.Now(), r.value, faults, called, failures);
      if Idle(others) {
        LogKeepsAll(shared.cfg, s1, s, r.value, faults, called);
      }
      if Idle(others) && Reliable(faults) && LogIsHistory(s0) {
        HandledAtEnd(shared.cfg, s0, s, shared.Now(), r.value, called, failures, faults.notify);
      }
    }

    /** The consumer's loop on a single replica: any verdicts, received any number of times, with any notifiers and any
        calls on the log failing. */
    method HandleAll(q: nat, vs: seq<WireVerdict>, faults: seq<Faults>, ghost from: From)
      returns (errs: seq<Option<Error>>, ghost called: seq<set<string>>)
      requires Inv(shared.cfg, shared.Now()) && q !in shared.active
      requires |faults| == |vs| && forall i | 0 <= i < |vs| :: from(vs[i])
      modifies shared, shared.log
      ensures Since(shared.cfg, from, old(shared.Now()), shared.Now()) && q !in shared.active && |errs| == |vs|
      // when the log works, no error means that every notifier has been notified exactly once for the submission,
      // over the whole history
      ensures LogIsHistory(old(shared.Now())) && (forall i | 0 <= i < |vs| :: Reliable(faults[i])) ==>
                && LogIsHistory(shared.Now()) && Answered(shared.cfg, shared.delivered, vs, faults, errs, called)
                && forall i, j | 0 <= i < |vs| && errs[i].None? && 0 <= j < |shared.cfg.notifiers| ::
                     NotifiedOnce(shared.delivered, vs[i].submissionId, shared.cfg.notifiers[j])
      // when it does not, no error still means that every notifier has been notified or is lost for good
      ensures old(shared.active) == map[] ==>
                forall i, j | 0 <= i < |vs| && errs[i].None? && 0 <= j < |shared.cfg.notifiers| ::
                  || WasDelivered(shared.delivered, vs[i].submissionId, shared.cfg.notifiers[j])
                  || Orphaned(shared.cfg, shared.Now(), vs[i].submissionId, shared.cfg.notifiers[j])
    {
      hide Inv, Since, Spares, Reliable, LogIsHistory, Answered, NotifiedOnce, WasDelivered, WasLogged, Key;
      ghost var calm := LogIsHistory(shared.Now()) && forall i | 0 <= i < |vs| :: Reliable(faults[i]);
      ghost var s0 := shared.Now();
      SinceItself(shared.cfg, from, s0);
      IdleSpares(shared.cfg, from, q);
      errs, called := [], [];
      AnsweredNone(shared.cfg, shared.delivered, vs, faults);
      for n := 0 to |vs|
        invariant Since(shared.cfg, from, s0, shared.Now()) && q !in shared.active && |errs| == n == |called|
        invariant calm ==>
                    LogIsHistory(shared.Now()) && Answered(shared.cfg, shared.delivered, vs, faults, errs, called)
        invariant shared.active.Keys == s0.active.Keys
        invariant forall i, j | 0 <= i < n && errs[i].None? && 0 <= j < |shared.cfg.notifiers| ::
                    Key(vs[i].submissionId, shared.cfg.notifiers[j]) in shared.log.seen
      {
        ghost var s := shared.Now();
        SinceInv(shared.cfg, from, s0, s);
        var err, c := Handle(q, vs[n], faults[n], IDLE, from);
        SinceInv(shared.cfg, from, s, shared.Now());
        SinceOn(shared.cfg, from, s0, s, shared.Now());
        if calm {
          AnsweredOneMore(shared.cfg, s, shared.Now(), vs, faults, errs, called, err, c);
        }
        errs, called := errs + [err], called + [c];
      }
      SinceInv(shared.cfg, from, s0, shared.Now());
      if calm {
        NilMeansOnce(shared.cfg, shared.Now(), vs, faults, errs, called);
      }
      if old(shared.active) == map[] {
        assert shared.active == map[];
        forall i, j | 0 <= i < |vs| && errs[i].None? && 0 <= j < |shared.cfg.notifiers|
          ensures || WasDelivered(shared.delivered, vs[i].submissionId, shared.cfg.notifiers[j])
                  || Orphaned(shared.cfg, shared.Now(), vs[i].submissionId, shared.cfg.notifiers[j])
        {
          assert Key(vs[i].submissionId, shared.cfg.notifiers[j]) in shared.log.seen;
        }
      }
    }
  }

  /** A completed call on a single replica: between calls the log is exactly the set of delivered pairs; only
      notifiers without an earlier success were called; every one called that works has now succeeded; and
      no error is returned exactly when every notifier has succeeded, then or now. */
  ghost predicate Handled(cfg: Config, s0: State, s: State, r: Report, called: set<string>, err: Option<Error>,
                          works: nat -> bool) {
    && LogIsHistory(s) && CalledExactly(cfg, s0, r, |cfg.notifiers|, called) && SentOnly(s0, s, r, called)
    && (forall j | 0 <= j < |cfg.notifiers| :: Done(cfg, s, r, j) <==> Done(cfg, s0, r, j) || works(j))
    && (err.None? <==> forall j | 0 <= j < |cfg.notifiers| :: Done(cfg, s, r, j))
  }

  lemma HandledAtEnd(cfg: Config, s0: State, s: State, s': State, r: Report, called: set<string>, failures: nat,
                     works: nat -> bool)
    requires Progress(cfg, s0, s, r, |cfg.notifiers|, called, failures, works)
    requires s'.log == s.log && s'.delivered == s.delivered
    ensures Handled(cfg, s0, s', r, called, if failures > 0 then Some(Unavailable(failures)) else None, works)
  {
    assert forall j | 0 <= j < |cfg.notifiers| :: Done(cfg, s', r, j) <==> Done(cfg, s, r, j);
    hide Done;
  }

  lemma SinceInv(cfg: Config, from: From, s0: State, s: State)
    requires Since(cfg, from, s0, s)
    ensures Inv(cfg, s) && Valid(cfg) && s0.delivered <= s.delivered
  {
  }

  lemma ProgressNone(cfg: Config, s0: State, s: State, r: Report, works: nat -> bool)
    requires LogIsHistory(s0) && s.log == s0.log && s.delivered == s0.delivered
    ensures Progress(cfg, s0, s, r, 0, {}, 0, works)
  {
  }

  // ----- Any number of calls

  const IDLE: Others := (k, s) => s

  lemma IdleSpares(cfg: Config, from: From, q: nat)
    ensures Idle(IDLE) && Spares(cfg, from, q, IDLE)
  {
    forall k, s | Inv(cfg, s) ensures ReachesWithout(cfg, from, q, s, IDLE(k, s)) {
      assert Legal(cfg, s, []) && Run(cfg, s, []) == s && ReceivesFrom([], from);
    }
  }

  /** The pair occurs in the history, and once. */
  ghost predicate NotifiedOnce(delivered: seq<Delivery>, submissionId: string, notifier: string) {
    && WasDelivered(delivered, submissionId, notifier)
    && forall j, k | 0 <= j < k < |delivered| && delivered[j].notifier == delivered[k].notifier == notifier ::
         !(delivered[j].report.submissionId == delivered[k].report.submissionId == submissionId)
  }

  predicate Reportable(cfg: Config, v: WireVerdict) {
    NewReport(v, cfg.mode).Ok?
  }

  /** The i-th call was answered for good: what it refused stays refused; what worked has been delivered; without an
      error all notifiers have. */
  ghost predicate AnsweredAt(cfg: Config, delivered: seq<Delivery>, v: WireVerdict, faults: Faults,
                             err: Option<Error>) {
    && (err.None? ==> Reportable(cfg, v))
    && (Reportable(cfg, v) ==> forall j | 0 <= j < |cfg.notifiers| && (err.None? || faults.notify(j)) ::
          WasDelivered(delivered, v.submissionId, cfg.notifiers[j]))
  }

  /** Who had succeeded for a submission is not called for it again. */
  ghost predicate NotCalledAgain(cfg: Config, v: WireVerdict, faults: Faults, err: Option<Error>,
                                 later: WireVerdict, calledLater: set<string>) {
    Reportable(cfg, v) && later.submissionId == v.submissionId ==>
      forall j | 0 <= j < |cfg.notifiers| && (err.None? || faults.notify(j)) :: cfg.notifiers[j] !in calledLater
  }

  ghost predicate Answered(cfg: Config, delivered: seq<Delivery>, vs: seq<WireVerdict>, faults: seq<Faults>,
                           errs: seq<Option<Error>>, called: seq<set<string>>) {
    && |called| == |errs| <= |vs| == |faults|
    && (forall i | 0 <= i < |errs| :: AnsweredAt(cfg, delivered, vs[i], faults[i], errs[i]))
    && (forall i, k | 0 <= i < k < |errs| :: NotCalledAgain(cfg, vs[i], faults[i], errs[i], vs[k], called[k]))
  }

  lemma AnsweredNone(cfg: Config, delivered: seq<Delivery>, vs: seq<WireVerdict>, faults: seq<Faults>)
    requires |faults| == |vs|
    ensures Answered(cfg, delivered, vs, faults, [], [])
  {
  }

  lemma DeliveredStays(delivered: seq<Delivery>, delivered': seq<Delivery>, submissionId: string, notifier: string)
    requires WasDelivered(delivered, submissionId, notifier) && delivered <= delivered'
    ensures WasDelivered(delivered', submissionId, notifier)
  {
    var k :|
      0 <= k < |delivered| && delivered[k].report.submissionId == submissionId && delivered[k].notifier == notifier;
    assert delivered'[k] == delivered[k];
  }

  lemma AnsweredStays(cfg: Config, delivered: seq<Delivery>, delivered': seq<Delivery>, v: WireVerdict, faults: Faults,
                      err: Option<Error>)
    requires AnsweredAt(cfg, delivered, v, faults, err) && delivered <= delivered'
    ensures AnsweredAt(cfg, delivered', v, faults, err)
  {
    forall j | 0 <= j < |cfg.notifiers| && WasDelivered(delivered, v.submissionId, cfg.notifiers[j])
      ensures WasDelivered(delivered', v.submissionId, cfg.notifiers[j])
    {
      DeliveredStays(delivered, delivered', v.submissionId, cfg.notifiers[j]);
    }
    hide WasDelivered;
  }

  /** What one undisturbed call tells. */
  ghost predicate Told(cfg: Config, s: State, s': State, v: WireVerdict, faults: Faults, err: Option<Error>,
                       called: set<string>) {
    && s.delivered <= s'.delivered
    && (!Reportable(cfg, v) ==> err.Some? && called == {})
    && (Reportable(cfg, v) ==> Handled(cfg, s, s', NewReport(v, cfg.mode).value, called, err, faults.notify))
  }

  lemma ToldAnswers(cfg: Config, s: State, s': State, v: WireVerdict, faults: Faults, err: Option<Error>,
                    called: set<string>)
    requires Told(cfg, s, s', v, faults, err, called)
    ensures AnsweredAt(cfg, s'.delivered, v, faults, err)
  {
    if Reportable(cfg, v) {
      var r := NewReport(v, cfg.mode).value;
      assert r.submissionId == v.submissionId;
      assert forall j | 0 <= j < |cfg.notifiers| ::
               Done(cfg, s', r, j) ==> WasDelivered(s'.delivered, v.submissionId, cfg.notifiers[j]);
      hide WasDelivered, LogIsHistory, CalledExactly, SentOnly;
    }
  }

  lemma ToldNotCalled(cfg: Config, s: State, s': State, v: WireVerdict, faults: Faults, err: Option<Error>,
                      called: set<string>, notifier: string)
    requires Valid(cfg) && Told(cfg, s, s', v, faults, err, called)
    requires WasDelivered(s.delivered, v.submissionId, notifier)
    ensures notifier !in called
  {
    if Reportable(cfg, v) {
      assert NewReport(v, cfg.mode).value.submissionId == v.submissionId;
      hide WasDelivered, LogIsHistory, SentOnly;
    }
  }

  lemma AnsweredOneMore(cfg: Config, s: State, s': State, vs: seq<WireVerdict>, faults: seq<Faults>,
                        errs: seq<Option<Error>>, called: seq<set<string>>, err: Option<Error>, c: set<string>)
    requires Valid(cfg) && Answered(cfg, s.delivered, vs, faults, errs, called) && |errs| < |vs|
    requires Told(cfg, s, s', vs[|errs|], faults[|errs|], err, c)
    ensures Answered(cfg, s'.delivered, vs, faults, errs + [err], called + [c])
  {
    var n := |errs|;
    hide WasDelivered, Reportable;
    ToldAnswers(cfg, s, s', vs[n], faults[n], err, c);
    forall i | 0 <= i < n
      ensures AnsweredAt(cfg, s'.delivered, vs[i], faults[i], errs[i])
      ensures NotCalledAgain(cfg, vs[i], faults[i], errs[i], vs[n], c)
    {
      AnsweredStays(cfg, s.delivered, s'.delivered, vs[i], faults[i], errs[i]);
      forall j | Reportable(cfg, vs[i]) && vs[n].submissionId == vs[i].submissionId && 0 <= j < |cfg.notifiers|
                 && (errs[i].None? || faults[i].notify(j))
        ensures cfg.notifiers[j] !in c
      {
        ToldNotCalled(cfg, s, s', vs[n], faults[n], err, c, cfg.notifiers[j]);
      }
    }
    hide AnsweredAt, NotCalledAgain;
  }

  lemma NilMeansOnce(cfg: Config, s: State, vs: seq<WireVerdict>, faults: seq<Faults>, errs: seq<Option<Error>>,
                     called: seq<set<string>>)
    requires Inv(cfg, s) && Answered(cfg, s.delivered, vs, faults, errs, called)
    ensures forall i, j | 0 <= i < |errs| && errs[i].None? && 0 <= j < |cfg.notifiers| ::
              NotifiedOnce(s.delivered, vs[i].submissionId, cfg.notifiers[j])
  {
    hide ClaimsSound, WasDelivered;
    forall i, j | 0 <= i < |errs| && errs[i].None? && 0 <= j < |cfg.notifiers|
      ensures NotifiedOnce(s.delivered, vs[i].submissionId, cfg.notifiers[j])
    {
      assert AnsweredAt(cfg, s.delivered, vs[i], faults[i], errs[i]);
    }
  }
}
