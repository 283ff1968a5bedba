/** Delivery order of the outbox: exactly when rows reach the bus for the first time in id order, and that one
    relay and ids committed in the order they were drawn are enough, whatever fails. */
module Ordering {
  import opened Text
  import opened Verdicts
  import opened OutboxProtocol

  /** Whose rows an ordering claim is about: one tenant's, or everyone's. */
  type Scope = string -> bool

  ghost predicate FirstAt(bus: seq<Record>, k: nat)
    requires k < |bus|
  {
    forall j | 0 <= j < k :: bus[j].rowId != bus[k].rowId
  }

  /** Whenever a row reaches the bus for the first time, only smaller ids are there before it. */
  ghost predicate FirstsInOrder(who: Scope, bus: seq<Record>) {
    forall j, k | 0 <= j < k < |bus| && FirstAt(bus, k) && who(bus[j].key) && who(bus[k].key) ::
      bus[j].rowId < bus[k].rowId
  }

  ghost predicate LargerOnBus(who: Scope, bus: seq<Record>, i: nat) {
    exists k | 0 <= k < |bus| :: who(bus[k].key) && bus[k].rowId > i
  }

  /** The row is committed and has not reached the bus, but a larger id has. */
  ghost predicate Overtaken(who: Scope, s: State, i: nat) {
    i in s.outbox && who(s.outbox[i].key) && !OnBus(s.bus, i) && LargerOnBus(who, s.bus, i)
  }

  /** The step produces row `i`. */
  predicate Ships(s: State, step: Step, i: nat) {
    && step.Produce? && step.r in s.relays
    && s.relays[step.r].produced < |s.relays[step.r].claimed|
    && s.relays[step.r].claimed[s.relays[step.r].produced] == i
  }

  /** The step commits row `i` when a larger id is on the bus, or ships a larger id past row `i`. */
  ghost predicate Overtakes(who: Scope, s: State, step: Step, i: nat) {
    match step
    case CommitPublish(p) =>
      && p in s.publishers && s.publishers[p].outbox.Some? && s.publishers[p].outbox.value.0 == i
      && who(s.publishers[p].outbox.value.1.key) && LargerOnBus(who, s.bus, i)
    case Produce(_) =>
      && i in s.outbox && who(s.outbox[i].key) && !OnBus(s.bus, i)
      && exists j | j in s.outbox && j > i :: who(s.outbox[j].key) && Ships(s, step, j)
    case _ => false
  }

  lemma AppendMeaning(who: Scope, bus: seq<Record>, rec: Record, i: nat)
    ensures OnBus(bus + [rec], i) <==> OnBus(bus, i) || rec.rowId == i
    ensures LargerOnBus(who, bus + [rec], i) <==> LargerOnBus(who, bus, i) || (who(rec.key) && rec.rowId > i)
  {
    var bus' := bus + [rec];
    assert bus'[|bus|] == rec && forall k | 0 <= k < |bus| :: bus'[k] == bus[k];
    if OnBus(bus, i) {
      BusGrows(bus, bus', i);
    }
    if LargerOnBus(who, bus, i) {
      var k :| 0 <= k < |bus| && who(bus[k].key) && bus[k].rowId > i;
      assert bus'[k] == bus[k];
    }
  }

  lemma AppendInOrder(who: Scope, bus: seq<Record>, rec: Record)
    ensures FirstsInOrder(who, bus + [rec])
       <==> FirstsInOrder(who, bus) && !(who(rec.key) && !OnBus(bus, rec.rowId) && LargerOnBus(who, bus, rec.rowId))
  {
    var bus', n := bus + [rec], |bus|;
    assert bus'[n] == rec && forall k | 0 <= k < n :: bus'[k] == bus[k];
    assert forall k | 0 <= k < n :: FirstAt(bus', k) <==> FirstAt(bus, k);
    assert FirstAt(bus', n) <==> !OnBus(bus, rec.rowId);
    if FirstsInOrder(who, bus') {
      forall j, k | 0 <= j < k < n && FirstAt(bus, k) && who(bus[j].key) && who(bus[k].key)
        ensures bus[j].rowId < bus[k].rowId
      {
        assert FirstAt(bus', k) && bus'[j] == bus[j] && bus'[k] == bus[k];
      }
    }
  }

  /** One step breaks the order exactly when it ships an overtaken row. */
  lemma OrderBreaksExactlyWhen(cfg: Config, who: Scope, s: State, step: Step)
    requires Enabled(cfg, s, step)
    ensures FirstsInOrder(who, Apply(cfg, s, step).bus)
       <==> FirstsInOrder(who, s.bus) && !exists i :: Overtaken(who, s, i) && Ships(s, step, i)
  {
    hide FirstsInOrder, OnBus, LargerOnBus;
    if step.Produce? {
      var id := s.relays[step.r].claimed[s.relays[step.r].produced];
      AppendInOrder(who, s.bus, Shipped(id, s.outbox[id]));
      assert Ships(s, step, id);
    }
  }

  /** A row is overtaken exactly by those steps, and stays so exactly until it is shipped. */
  lemma OvertakenExactlyWhen(cfg: Config, who: Scope, s: State, step: Step, i: nat)
    requires Inv(cfg, s) && Enabled(cfg, s, step)
    ensures Overtaken(who, Apply(cfg, s, step), i)
       <==> (Overtaken(who, s, i) && !Ships(s, step, i)) || Overtakes(who, s, step, i)
  {
    hide AuditKeysFresh, Paired, WritesMatch, ClaimsSound, ClaimsDisjoint, MarksSound, LargerOnBus;
    match step
    case Produce(r) =>
      var id := s.relays[r].claimed[s.relays[r].produced];
      AppendMeaning(who, s.bus, Shipped(id, s.outbox[id]), i);
      assert forall j :: Ships(s, step, j) <==> j == id;
      hide OnBus;
    case CommitPublish(p) =>
      var id := s.publishers[p].outbox.value.0;
      assert id !in s.outbox && !OnBus(s.bus, id);
    case _ => hide OnBus;
  }

  // ----- Over runs

  ghost predicate NeverShipsOvertaken(cfg: Config, who: Scope, s: State, steps: seq<Step>)
    requires Legal(cfg, s, steps)
    decreases |steps|
  {
    steps == []
    || (&& (forall i :: Overtaken(who, s, i) ==> !Ships(s, steps[0], i))
        && NeverShipsOvertaken(cfg, who, Apply(cfg, s, steps[0]), steps[1..]))
  }

  ghost predicate NeverOvertakes(cfg: Config, who: Scope, s: State, steps: seq<Step>)
    requires Legal(cfg, s, steps)
    decreases |steps|
  {
    steps == []
    || ((forall i :: !Overtakes(who, s, steps[0], i)) && NeverOvertakes(cfg, who, Apply(cfg, s, steps[0]), steps[1..]))
  }

  ghost predicate NoneOvertaken(who: Scope, s: State) {
    forall i :: !Overtaken(who, s, i)
  }

  lemma {:induction false} RunInOrder(cfg: Config, who: Scope, s: State, steps: seq<Step>)
    requires Legal(cfg, s, steps)
    ensures FirstsInOrder(who, Run(cfg, s, steps).bus)
       <==> FirstsInOrder(who, s.bus) && NeverShipsOvertaken(cfg, who, s, steps)
    decreases |steps|
  {
    hide FirstsInOrder, Overtaken, Ships, Enabled, Apply;
    if steps == [] {
    } else {
      OrderBreaksExactlyWhen(cfg, who, s, steps[0]);
      RunInOrder(cfg, who, Apply(cfg, s, steps[0]), steps[1..]);
    }
  }

  /** Over every run, whatever relays, commits and failures there are: rows reach the bus for the first time in id
      order exactly when the run never ships an overtaken row. */
  lemma BusInOrderExactlyWhen(cfg: Config, who: Scope, steps: seq<Step>)
    requires Legal(cfg, INIT, steps)
    ensures FirstsInOrder(who, Run(cfg, INIT, steps).bus) <==> NeverShipsOvertaken(cfg, who, INIT, steps)
  {
    RunInOrder(cfg, who, INIT, steps);
  }

  /** An overtaken row that is delivered at last breaks the order. */
  lemma OvertakenIsFatal(who: Scope, s: State, bus': seq<Record>, i: nat)
    requires Overtaken(who, s, i) && s.bus <= bus' && OnBus(bus', i)
    requires forall k | 0 <= k < |bus'| && bus'[k].rowId == i :: who(bus'[k].key)
    ensures !FirstsInOrder(who, bus')
  {
    var k :| 0 <= k < |s.bus| && who(s.bus[k].key) && s.bus[k].rowId > i;
    var m := FirstOf(bus', i);
    assert forall l | 0 <= l < |s.bus| :: bus'[l] == s.bus[l] && s.bus[l].rowId != i;
    assert k < |s.bus| <= m;
  }

  lemma FirstOf(bus: seq<Record>, i: nat) returns (m: nat)
    requires OnBus(bus, i)
    ensures m < |bus| && bus[m].rowId == i && FirstAt(bus, m)
  {
    var k :| 0 <= k < |bus| && bus[k].rowId == i;
    m := 0;
    while bus[m].rowId != i
      invariant m <= k && forall j | 0 <= j < m :: bus[j].rowId != i
      decreases k - m
    {
      m := m + 1;
    }
  }

  /** Every committed row of the scope has reached the bus. */
  ghost predicate Drained(who: Scope, s: State) {
    forall i | i in s.outbox && who(s.outbox[i].key) :: OnBus(s.bus, i)
  }

  lemma DrainedInOrder(cfg: Config, who: Scope, s: State, s': State)
    requires Inv(cfg, s') && Keeps(s, s') && Drained(who, s') && FirstsInOrder(who, s'.bus)
    ensures NoneOvertaken(who, s)
  {
    hide AuditKeysFresh, OutboxKeysFresh, Paired, WritesMatch, ClaimsSound, ClaimsDisjoint, MarksSound;
    hide AuditKeeps, OnBus, LargerOnBus, FirstsInOrder;
    forall i ensures !Overtaken(who, s, i) {
      if Overtaken(who, s, i) {
        assert i in s'.outbox && s'.outbox[i].key == s.outbox[i].key;
        OvertakenIsFatal(who, s, s'.bus, i);
      }
    }
  }

  lemma {:induction false} NothingOvertakenInOrder(cfg: Config, who: Scope, s: State, steps: seq<Step>)
    requires Inv(cfg, s) && Legal(cfg, s, steps) && NoneOvertaken(who, s) && NeverOvertakes(cfg, who, s, steps)
    ensures NoneOvertaken(who, Run(cfg, s, steps)) && NeverShipsOvertaken(cfg, who, s, steps)
    decreases |steps|
  {
    hide Inv, Overtaken, Overtakes, Ships, Enabled, Apply;
    if steps == [] {
    } else {
      var s' := Apply(cfg, s, steps[0]);
      forall i ensures !Overtaken(who, s', i) {
        OvertakenExactlyWhen(cfg, who, s, steps[0], i);
      }
      StepKeepsInv(cfg, s, steps[0]);
      NothingOvertakenInOrder(cfg, who, s', steps[1..]);
    }
  }

  lemma {:induction false} DrainedRunOvertakesNothing(cfg: Config, who: Scope, s: State, steps: seq<Step>)
    requires Inv(cfg, s) && Legal(cfg, s, steps)
    requires Drained(who, Run(cfg, s, steps)) && FirstsInOrder(who, Run(cfg, s, steps).bus)
    ensures NeverOvertakes(cfg, who, s, steps)
    decreases |steps|
  {
    hide Inv, Keeps, Overtaken, Overtakes, Ships, Enabled, Apply, Drained, FirstsInOrder;
    if steps == [] {
    } else {
      var s' := Apply(cfg, s, steps[0]);
      StepKeepsInv(cfg, s, steps[0]);
      RunKeepsInv(cfg, s', steps[1..]);
      DrainedInOrder(cfg, who, s', Run(cfg, s', steps[1..]));
      forall i ensures !Overtakes(who, s, steps[0], i) {
        OvertakenExactlyWhen(cfg, who, s, steps[0], i);
      }
      DrainedRunOvertakesNothing(cfg, who, s', steps[1..]);
    }
  }

  /** Over every run after which every committed row has been delivered: rows reached the bus in id order
      exactly when nothing was ever overtaken, that is, when no row was committed behind a larger id already on the bus
      and no row was shipped past a smaller committed one that was not. */
  lemma DeliveredInOrderExactlyWhen(cfg: Config, who: Scope, steps: seq<Step>)
    requires Legal(cfg, INIT, steps) && Drained(who, Run(cfg, INIT, steps))
    ensures FirstsInOrder(who, Run(cfg, INIT, steps).bus) <==> NeverOvertakes(cfg, who, INIT, steps)
  {
    InitInv(cfg);
    if NeverOvertakes(cfg, who, INIT, steps) {
      NothingOvertakenInOrder(cfg, who, INIT, steps);
      BusInOrderExactlyWhen(cfg, who, steps);
    }
    if FirstsInOrder(who, Run(cfg, INIT, steps).bus) {
      DrainedRunOvertakesNothing(cfg, who, INIT, steps);
    }
  }

  // ----- One relay, and ids committed in the order they were drawn

  /** The step keeps to one relay and commits outbox ids in increasing order. */
  ghost predicate Orderly(s: State, step: Step) {
    match step
    case Claim(r, _) => s.relays == map[]
    case CommitPublish(p) =>
      p in s.publishers && s.publishers[p].outbox.Some? &&
      forall i | i in s.outbox :: i < s.publishers[p].outbox.value.0
    case _ => true
  }

  ghost predicate OrderlyRun(cfg: Config, s: State, steps: seq<Step>)
    requires Legal(cfg, s, steps)
    decreases |steps|
  {
    steps == [] || (Orderly(s, steps[0]) && OrderlyRun(cfg, Apply(cfg, s, steps[0]), steps[1..]))
  }

  /** The published rows are a prefix of the committed ids. */
  ghost predicate PublishedPrefix(outbox: map<nat, OutboxRow>) {
    forall i, j | i in outbox && j in outbox && i < j && outbox[j].published :: outbox[i].published
  }

  /** A claim takes the pending rows without leaving gaps. */
  ghost predicate NoGaps(claimed: seq<nat>, outbox: map<nat, OutboxRow>) {
    forall i, k | 0 <= k < |claimed| && i in outbox && i < claimed[k] :: outbox[i].published || i in claimed[..k]
  }

  ghost predicate OrderInv(s: State) {
    && (forall r, q | r in s.relays && q in s.relays :: r == q)
    && (forall r | r in s.relays :: NoGaps(s.relays[r].claimed, s.outbox))
    && PublishedPrefix(s.outbox)
  }

  lemma ClaimHasNoGaps(s: State, limit: nat)
    requires s.relays == map[] && OutboxKeysFresh(s.nextId, s.outbox, s.publishers)
    ensures NoGaps(SelectPending(s, 0, limit), s.outbox)
  {
    var ids := SelectPending(s, 0, limit);
    SelectPendingMeaning(s, 0, limit);
    forall i, k | 0 <= k < |ids| && i in s.outbox && i < ids[k] && !s.outbox[i].published
      ensures i in ids[..k]
    {
      assert Available(s, i);
      assert i in ids;
      var j :| 0 <= j < |ids| && ids[j] == i;
      assert j < k && ids[..k][j] == i;
    }
  }

  /** Everything before the next row of a claim has already been on the bus. */
  lemma PredecessorsAreOnBus(s: State, tx: RelayTx, i: nat)
    requires ClaimSound(tx, s.outbox, s.bus) && NoGaps(tx.claimed, s.outbox) && tx.produced < |tx.claimed|
    requires MarksSound(s.marks, s.outbox, s.bus) && i in s.outbox && i < tx.claimed[tx.produced]
    ensures OnBus(s.bus, i)
  {
    hide OnBus, Increasing;
    if s.outbox[i].published {
      assert i in s.marks;
    } else {
      assert i in tx.claimed[..tx.produced];
      var j :| 0 <= j < tx.produced && tx.claimed[..tx.produced][j] == i;
      assert tx.claimed[j] == i;
    }
  }

  lemma OrderlyOvertakesNothing(cfg: Config, who: Scope, s: State, step: Step, i: nat)
    requires Inv(cfg, s) && OrderInv(s) && Enabled(cfg, s, step) && Orderly(s, step)
    ensures !Overtakes(who, s, step, i)
  {
    hide AuditKeysFresh, OutboxKeysFresh, Paired, WritesMatch, ClaimsDisjoint, OnBus, PublishedPrefix;
    match step
    case Produce(r) =>
      hide BusSound;
      assert ClaimSound(s.relays[r], s.outbox, s.bus);
      if i in s.outbox && i < s.relays[r].claimed[s.relays[r].produced] {
        PredecessorsAreOnBus(s, s.relays[r], i);
      }
    case CommitPublish(p) => assert forall k | 0 <= k < |s.bus| :: s.bus[k].rowId in s.outbox;
    case _ =>
  }

  lemma OrderlyCommitRelay(s: State, r: nat)
    requires r in s.relays && OrderInv(s) && ClaimSound(s.relays[r], s.outbox, s.bus)
    ensures PublishedPrefix(MarkAll(s.outbox, s.relays[r].claimed))
  {
    var ids := s.relays[r].claimed;
    forall i, j | i in s.outbox && j in s.outbox && i < j && j in ids ensures s.outbox[i].published || i in ids {
      var k :| 0 <= k < |ids| && ids[k] == j;
    }
  }

  lemma OrderlyStep(cfg: Config, s: State, step: Step)
    requires Inv(cfg, s) && OrderInv(s) && Enabled(cfg, s, step) && Orderly(s, step)
    ensures OrderInv(Apply(cfg, s, step))
  {
    hide AuditKeysFresh, Paired, ClaimSound, ClaimsDisjoint, MarksSound, BusSound;
    match step
    case Claim(_, limit) => ClaimHasNoGaps(s, limit);
    case CommitRelay(r) =>
      assert ClaimSound(s.relays[r], s.outbox, s.bus);
      OrderlyCommitRelay(s, r);
    case CommitPublish(p) => OrderlyCommitPublish(cfg, s, p);
    case _ =>
  }

  lemma OrderlyCommitPublish(cfg: Config, s: State, p: nat)
    requires Inv(cfg, s) && OrderInv(s) && Enabled(cfg, s, CommitPublish(p)) && Orderly(s, CommitPublish(p))
    ensures OrderInv(Apply(cfg, s, CommitPublish(p)))
  {
    hide AuditKeysFresh, Paired, ClaimsDisjoint, MarksSound, OnBus, BusSound;
    var s' := Apply(cfg, s, CommitPublish(p));
    var id := s.publishers[p].outbox.value.0;
    assert !s'.outbox[id].published;
    forall r | r in s.relays ensures NoGaps(s.relays[r].claimed, s'.outbox) {
      assert ClaimSound(s.relays[r], s.outbox, s.bus);
    }
  }

  lemma {:induction false} OrderlyRunOvertakesNothing(cfg: Config, who: Scope, s: State, steps: seq<Step>)
    requires Inv(cfg, s) && OrderInv(s) && Legal(cfg, s, steps) && OrderlyRun(cfg, s, steps)
    ensures NeverOvertakes(cfg, who, s, steps)
    decreases |steps|
  {
    hide Inv, OrderInv, Orderly, Overtakes, Enabled, Apply;
    if steps == [] {
    } else {
      forall i ensures !Overtakes(who, s, steps[0], i) {
        OrderlyOvertakesNothing(cfg, who, s, steps[0], i);
      }
      OrderlyStep(cfg, s, steps[0]);
      StepKeepsInv(cfg, s, steps[0]);
      OrderlyRunOvertakesNothing(cfg, who, Apply(cfg, s, steps[0]), steps[1..]);
    }
  }

  /** In every orderly run, despite mid-batch failures, replays and lost commits: the rows on the bus are a
      prefix of the committed ids, and rows appear for the first time in id order, for everyone together and hence
      for each tenant. */
  lemma BusKeepsIdOrder(cfg: Config, who: Scope, steps: seq<Step>)
    requires Legal(cfg, INIT, steps) && OrderlyRun(cfg, INIT, steps)
    ensures var s := Run(cfg, INIT, steps);
      && FirstsInOrder(who, s.bus)
      && (forall i, j | i in s.outbox && i < j && OnBus(s.bus, j) :: OnBus(s.bus, i))
  {
    InitInv(cfg);
    var everyone: Scope, s := _ => true, Run(cfg, INIT, steps);
    OrderlyRunOvertakesNothing(cfg, who, INIT, steps);
    NothingOvertakenInOrder(cfg, who, INIT, steps);
    BusInOrderExactlyWhen(cfg, who, steps);
    OrderlyRunOvertakesNothing(cfg, everyone, INIT, steps);
    NothingOvertakenInOrder(cfg, everyone, INIT, steps);
    hide Run, Legal, FirstsInOrder, OrderlyRun, NeverOvertakes, NeverShipsOvertaken;
    forall i, j | i in s.outbox && i < j && OnBus(s.bus, j) ensures OnBus(s.bus, i) {
      var k :| 0 <= k < |s.bus| && s.bus[k].rowId == j;
      assert everyone(s.bus[k].key) && LargerOnBus(everyone, s.bus, i);
      assert !Overtaken(everyone, s, i);
    }
  }

  // ----- Both conditions are needed

  const OPEN: Config := Config("verdicts", v => true)

  /** One relay, but the second publish transaction commits, and is shipped, before the first. */
  function LateCommit(v: Verdict): seq<Step> {
    [OpenPublish(1, v, None), WriteAudit(1), WriteOutbox(1), OpenPublish(2, v, None), WriteAudit(2), WriteOutbox(2),
     CommitPublish(2), Claim(1, 10), Produce(1), MarkPublished(1), CommitRelay(1),
     CommitPublish(1), Claim(1, 10), Produce(1)]
  }

  /** Ids committed in order, but a second relay skips the first one's locked row. */
  function TwoRelays(v: Verdict): seq<Step> {
    [OpenPublish(1, v, None), WriteAudit(1), WriteOutbox(1), CommitPublish(1),
     OpenPublish(2, v, None), WriteAudit(2), WriteOutbox(2), CommitPublish(2),
     Claim(1, 1), Claim(2, 1), Produce(2), Produce(1)]
  }

  lemma Advance(done: seq<Step>, s: State, step: Step) returns (done': seq<Step>, s': State)
    requires Legal(OPEN, INIT, done) && Run(OPEN, INIT, done) == s && Enabled(OPEN, s, step)
    ensures done' == done + [step] && s' == Apply(OPEN, s, step)
    ensures Legal(OPEN, INIT, done') && Run(OPEN, INIT, done') == s'
  {
    RunOneMore(OPEN, INIT, done, step);
    done', s' := done + [step], Apply(OPEN, s, step);
  }

  /** The claim when `i` is the smallest available row and no other is wanted. */
  lemma SelectsAlone(s: State, i: nat, limit: nat)
    requires limit >= 1 && i < s.nextId && Available(s, i) && forall j | 0 <= j < i :: !Available(s, j)
    requires limit == 1 || forall j | i < j < s.nextId :: !Available(s, j)
    ensures SelectPending(s, 0, limit) == [i]
  {
    SelectPendingMeaning(s, 0, limit);
    var ids := SelectPending(s, 0, limit);
    assert i in ids by {
      assert |ids| > 0 ==> Available(s, ids[0]);
    }
    assert forall k | 0 <= k < |ids| :: Available(s, ids[k]) && ids[k] in ids;
    assert Available(s, ids[0]) && Available(s, ids[|ids| - 1]);
  }

  function Tx(v: Verdict, key: nat): PublishTx {
    PublishTx(v, None, Some((key, AuditOf(v))), Some((key, RowOf(OPEN, v, None))))
  }

  /** A publish transaction up to, but not including, its commit. */
  lemma WriteBoth(done: seq<Step>, s: State, p: nat, v: Verdict) returns (done': seq<Step>, s': State)
    requires Legal(OPEN, INIT, done) && Run(OPEN, INIT, done) == s && p !in s.publishers && s.nextAudit == s.nextId
    ensures done' == done + [OpenPublish(p, v, None), WriteAudit(p), WriteOutbox(p)]
    ensures Legal(OPEN, INIT, done') && Run(OPEN, INIT, done') == s'
    ensures s' == s.(nextId := s.nextId + 1, nextAudit := s.nextAudit + 1,
            publishers := s.publishers[p := Tx(v, s.nextId)])
  {
    hide Legal, Run;
    done', s' := Advance(done, s, OpenPublish(p, v, None));
    done', s' := Advance(done', s', WriteAudit(p));
    done', s' := Advance(done', s', WriteOutbox(p));
    assert s'.publishers == s.publishers[p := Tx(v, s.nextId)];
  }

  lemma Commit(done: seq<Step>, s: State, p: nat, v: Verdict, key: nat) returns (done': seq<Step>, s': State)
    requires Legal(OPEN, INIT, done) && Run(OPEN, INIT, done) == s && p in s.publishers && s.publishers[p] == Tx(v, key)
    ensures done' == done + [CommitPublish(p)] && Legal(OPEN, INIT, done') && Run(OPEN, INIT, done') == s'
    ensures s' == s.(publishers := s.publishers - {p}, audit := s.audit[key := AuditOf(v)],
            outbox := s.outbox[key := RowOf(OPEN, v, None)], link := s.link[key := key])
  {
    hide Legal, Run;
    done', s' := Advance(done, s, CommitPublish(p));
  }

  /** Relay `r` claims the single row `i` and produces it. */
  lemma Ship(done: seq<Step>, s: State, r: nat, i: nat, limit: nat) returns (done': seq<Step>, s': State)
    requires Legal(OPEN, INIT, done) && Run(OPEN, INIT, done) == s && r !in s.relays
    requires limit >= 1 && i < s.nextId && Available(s, i) && forall j | 0 <= j < i :: !Available(s, j)
    requires limit == 1 || forall j | i < j < s.nextId :: !Available(s, j)
    ensures done' == done + [Claim(r, limit), Produce(r)] && Legal(OPEN, INIT, done') && Run(OPEN, INIT, done') == s'
    ensures s' == s.(bus := s.bus + [Shipped(i, s.outbox[i])], relays := s.relays[r := RelayTx([i], 1, false)])
  {
    SelectsAlone(s, i, limit);
    hide Legal, Run, SelectPending;
    done', s' := Advance(done, s, Claim(r, limit));
    done', s' := Advance(done', s', Produce(r));
    assert s'.relays == s.relays[r := RelayTx([i], 1, false)];
  }

  lemma Settle(done: seq<Step>, s: State, i: nat) returns (done': seq<Step>, s': State)
    requires Legal(OPEN, INIT, done) && Run(OPEN, INIT, done) == s
    requires s.relays == map[1 := RelayTx([i], 1, false)] && i in s.outbox
    ensures done' == done + [MarkPublished(1), CommitRelay(1)]
    ensures Legal(OPEN, INIT, done') && Run(OPEN, INIT, done') == s'
    ensures s' == s.(outbox := MarkAll(s.outbox, [i]), relays := map[], marks := s.marks + [i])
  {
    hide Legal, Run;
    done', s' := Advance(done, s, MarkPublished(1));
    done', s' := Advance(done', s', CommitRelay(1));
    assert s'.relays == map[];
  }

  /** Both transactions have written their rows; none is committed. */
  lemma BothWritten(v: Verdict) returns (done: seq<Step>, s: State)
    ensures done == LateCommit(v)[..6] && Legal(OPEN, INIT, done) && Run(OPEN, INIT, done) == s
    ensures s == INIT.(nextId := 2, nextAudit := 2, publishers := map[1 := Tx(v, 0), 2 := Tx(v, 1)])
  {
    done, s := WriteBoth([], INIT, 1, v);
    hide Legal, Run, Tx;
    done, s := WriteBoth(done, s, 2, v);
  }

  lemma LateCommitFirstHalf(v: Verdict) returns (done: seq<Step>, s: State)
    ensures done == LateCommit(v)[..9] && Legal(OPEN, INIT, done) && Run(OPEN, INIT, done) == s
    ensures s.nextId == 2 && s.publishers == map[1 := Tx(v, 0)] && s.outbox == map[1 := RowOf(OPEN, v, None)]
    ensures s.relays == map[1 := RelayTx([1], 1, false)] && s.bus == [Shipped(1, RowOf(OPEN, v, None))]
  {
    hide Legal, Run, Tx;
    done, s := BothWritten(v);
    done, s := Commit(done, s, 2, v, 1);
    assert s.publishers == map[1 := Tx(v, 0)] && s.outbox == map[1 := RowOf(OPEN, v, None)];
    done, s := Ship(done, s, 1, 1, 10);
  }

  lemma LateCommitReordersBus(v: Verdict)
    ensures Legal(OPEN, INIT, LateCommit(v))
    ensures var bus := Run(OPEN, INIT, LateCommit(v)).bus; |bus| == 2 && bus[0].rowId == 1 && bus[1].rowId == 0
  {
    var done, s := LateCommitFirstHalf(v);
    hide Legal, Run;
    done, s := Settle(done, s, 1);
    done, s := Commit(done, s, 1, v, 0);
    done, s := Ship(done, s, 1, 0, 10);
    assert done == LateCommit(v);
  }

  lemma TwoCommitted(v: Verdict) returns (done: seq<Step>, s: State)
    ensures done == TwoRelays(v)[..8] && Legal(OPEN, INIT, done) && Run(OPEN, INIT, done) == s
    ensures s.nextId == 2 && s.outbox == map[0 := RowOf(OPEN, v, None), 1 := RowOf(OPEN, v, None)]
    ensures s.relays == map[] && s.bus == []
  {
    done, s := WriteBoth([], INIT, 1, v);
    hide Legal, Run, Tx;
    done, s := Commit(done, s, 1, v, 0);
    assert s.publishers == map[];
    done, s := WriteBoth(done, s, 2, v);
    done, s := Commit(done, s, 2, v, 1);
  }

  lemma TwoRelaysReorderBus(v: Verdict)
    ensures Legal(OPEN, INIT, TwoRelays(v))
    ensures var bus := Run(OPEN, INIT, TwoRelays(v)).bus; |bus| == 2 && bus[0].rowId == 1 && bus[1].rowId == 0
  {
    hide Legal, Run;
    var done, s := TwoCommitted(v);
    SelectsAlone(s, 0, 1);
    hide SelectPending;
    done, s := Advance(done, s, Claim(1, 1));
    assert s.relays == map[1 := RelayTx([0], 0, false)] && 0 in s.relays[1].claimed;
    done, s := Ship(done, s, 2, 1, 1);
    done, s := Advance(done, s, Produce(1));
    assert done == TwoRelays(v);
  }
}
