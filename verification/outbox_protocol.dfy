/** The transactional outbox as a transition system: publish transactions, relay transactions and the
    bus, interleaved in any order. A step names everything that is left to chance, so a run is a list
    of steps. Failures are steps too: an abort is a rollback, a crash or a commit that did not take
    effect, and a commit whose acknowledgement is lost is a commit. */
module OutboxProtocol {
  import opened Text
  import opened Verdicts

  /** `admits` is what the callers of Publish promise about the verdicts they pass. */
  datatype Config = Config(topic: string, admits: Verdict -> bool)

  type Headers = map<string, string>

  datatype AuditRow = AuditRow(submissionId: string, organizationId: string, decision: Decision, source: Source,
                               rulesetVersion: string, findings: nat)

  /** `headers` is None for a stored blob that does not parse. `published` is `published_at IS NOT NULL`. */
  datatype OutboxRow = OutboxRow(
    topic: string, key: string, payload: Verdict, headers: Option<Headers>, published: bool)

  /** A bus record; `rowId` is history, the outbox row it was produced from. */
  datatype Record = Record(rowId: nat, topic: string, key: string, payload: Verdict, headers: Headers)

  /** An open publish transaction with the rows it has inserted so far; no one else sees them. */
  datatype PublishTx = PublishTx(verdict: Verdict, headers: Option<Headers>,
                                 audit: Option<(nat, AuditRow)>, outbox: Option<(nat, OutboxRow)>)

  /** An open relay transaction: the locked rows in id order, how many were produced, and whether the
      pending update marks them all. */
  datatype RelayTx = RelayTx(claimed: seq<nat>, produced: nat, marked: bool)

  /** `nextId` and `nextAudit` are the key generators, which transactions never roll back.
      `link` and `marks` are history: which audit row each outbox row was committed with, and the ids
      marked published in commit order. */
  datatype State = State(
    nextId: nat, nextAudit: nat,
    audit: map<nat, AuditRow>, outbox: map<nat, OutboxRow>, link: map<nat, nat>,
    publishers: map<nat, PublishTx>, relays: map<nat, RelayTx>,
    bus: seq<Record>, marks: seq<nat>)

  const INIT := State(0, 0, map[], map[], map[], map[], map[], [], [])

  function AuditOf(v: Verdict): AuditRow {
    AuditRow(v.submissionId, v.organizationId, v.decision, v.source, v.rulesetVersion, |v.findings|)
  }

  function RowOf(cfg: Config, v: Verdict, headers: Option<Headers>): OutboxRow {
    OutboxRow(cfg.topic, v.organizationId, v, headers, false)
  }

  /** The record produced for a row; a malformed headers blob is shipped as no headers. */
  function Shipped(id: nat, row: OutboxRow): Record {
    Record(id, row.topic, row.key, row.payload, if row.headers.Some? then row.headers.value else map[])
  }

  // ----- Claiming rows: SELECT ... WHERE published_at IS NULL ORDER BY id LIMIT n FOR UPDATE SKIP LOCKED

  predicate Locked(s: State, id: nat) {
    exists r | r in s.relays :: id in s.relays[r].claimed
  }

  predicate Available(s: State, id: nat) {
    id in s.outbox && !s.outbox[id].published && !Locked(s, id)
  }

  function SelectPending(s: State, from: nat, limit: nat): (ids: seq<nat>)
    decreases s.nextId - from
  {
    if limit == 0 || from >= s.nextId then []
    else if Available(s, from) then [from] + SelectPending(s, from + 1, limit - 1)
    else SelectPending(s, from + 1, limit)
  }

  ghost predicate Increasing(ids: seq<nat>) {
    forall j, k | 0 <= j < k < |ids| :: ids[j] < ids[k]
  }

  /** What the statement means: available rows in id order, at most `limit` of them, none skipped. */
  lemma {:induction false} SelectPendingMeaning(s: State, from: nat, limit: nat)
    ensures var ids := SelectPending(s, from, limit);
      && Increasing(ids) && |ids| <= limit
      && (forall k | 0 <= k < |ids| :: from <= ids[k] < s.nextId && Available(s, ids[k]))
      && (forall i | from <= i < s.nextId && Available(s, i) && i !in ids ::
            |ids| == limit && forall k | 0 <= k < |ids| :: ids[k] < i)
    decreases s.nextId - from
  {
    if limit == 0 || from >= s.nextId {
    } else {
      SelectPendingMeaning(s, from + 1, if Available(s, from) then limit - 1 else limit);
      var ids := SelectPending(s, from, limit);
      hide Available;
      if Available(s, from) {
        var rest := SelectPending(s, from + 1, limit - 1);
        assert ids == [from] + rest && ids[0] == from && forall k | 0 < k < |ids| :: ids[k] == rest[k - 1];
        assert forall i | i in rest :: i in ids;
      }
    }
  }

  // ----- Steps

  datatype Step =
    | OpenPublish(p: nat, verdict: Verdict, headers: Option<Headers>)
    | WriteAudit(p: nat)
    | WriteOutbox(p: nat)
    | CommitPublish(p: nat)
    | AbortPublish(p: nat)
    | Claim(r: nat, limit: nat)
    | Produce(r: nat)
    | MarkPublished(r: nat)
    | CommitRelay(r: nat)
    | AbortRelay(r: nat)

  predicate Enabled(cfg: Config, s: State, step: Step) {
    match step
    case OpenPublish(p, v, h) => p !in s.publishers && cfg.admits(v)
    case WriteAudit(p) => p in s.publishers && s.publishers[p].audit.None?
    case WriteOutbox(p) => p in s.publishers && s.publishers[p].audit.Some? && s.publishers[p].outbox.None?
    case CommitPublish(p) => p in s.publishers && s.publishers[p].audit.Some? && s.publishers[p].outbox.Some?
    case AbortPublish(p) => p in s.publishers
    case Claim(r, limit) => r !in s.relays
    case Produce(r) =>
      r in s.relays && !s.relays[r].marked && s.relays[r].produced < |s.relays[r].claimed|
      && s.relays[r].claimed[s.relays[r].produced] in s.outbox
    case MarkPublished(r) => r in s.relays && s.relays[r].produced == |s.relays[r].claimed|
    case CommitRelay(r) => r in s.relays && (s.relays[r].marked || s.relays[r].claimed == [])
    case AbortRelay(r) => r in s.relays
  }

  function Apply(cfg: Config, s: State, step: Step): State
    requires Enabled(cfg, s, step)
  {
    match step
    case OpenPublish(p, v, h) => s.(publishers := s.publishers[p := PublishTx(v, h, None, None)])
    case WriteAudit(p) =>
      var tx := s.publishers[p];
      s.(nextAudit := s.nextAudit + 1,
      publishers := s.publishers[p := tx.(audit := Some((s.nextAudit, AuditOf(tx.verdict))))])
    case WriteOutbox(p) =>
      var tx := s.publishers[p];
      s.(nextId := s.nextId + 1,
      publishers := s.publishers[p := tx.(outbox := Some((s.nextId, RowOf(cfg, tx.verdict, tx.headers))))])
    case CommitPublish(p) =>
      var tx := s.publishers[p];
      s.(publishers := s.publishers - {p},
      audit := s.audit[tx.audit.value.0 := tx.audit.value.1],
      outbox := s.outbox[tx.outbox.value.0 := tx.outbox.value.1],
      link := s.link[tx.outbox.value.0 := tx.audit.value.0])
    case AbortPublish(p) => s.(publishers := s.publishers - {p})
    case Claim(r, limit) => s.(relays := s.relays[r := RelayTx(SelectPending(s, 0, limit), 0, false)])
    case Produce(r) =>
      var tx := s.relays[r];
      var id := tx.claimed[tx.produced];
      s.(bus := s.bus + [Shipped(id, s.outbox[id])],
      relays := s.relays[r := tx.(produced := tx.produced + 1)])
    case MarkPublished(r) => s.(relays := s.relays[r := s.relays[r].(marked := true)])
    case CommitRelay(r) =>
      var ids := s.relays[r].claimed;
      s.(relays := s.relays - {r}, outbox := MarkAll(s.outbox, ids), marks := s.marks + ids)
    case AbortRelay(r) => s.(relays := s.relays - {r})
  }

  /** UPDATE outbox SET published_at = now() WHERE id = ANY(ids) */
  function MarkAll(outbox: map<nat, OutboxRow>, ids: seq<nat>): map<nat, OutboxRow> {
    map i | i in outbox :: if i in ids then outbox[i].(published := true) else outbox[i]
  }

  predicate Legal(cfg: Config, s: State, steps: seq<Step>)
    decreases |steps|
  {
    steps == [] || (Enabled(cfg, s, steps[0]) && Legal(cfg, Apply(cfg, s, steps[0]), steps[1..]))
  }

  function Run(cfg: Config, s: State, steps: seq<Step>): State
    requires Legal(cfg, s, steps)
    decreases |steps|
  {
    if steps == [] then s else Run(cfg, Apply(cfg, s, steps[0]), steps[1..])
  }

  lemma {:induction false} RunConcat(cfg: Config, s: State, a: seq<Step>, b: seq<Step>)
    requires Legal(cfg, s, a)
    ensures Legal(cfg, s, a + b) <==> Legal(cfg, Run(cfg, s, a), b)
    ensures Legal(cfg, s, a + b) ==> Run(cfg, s, a + b) == Run(cfg, Run(cfg, s, a), b)
    decreases |a|
  {
    if a == [] {
      assert a + b == b;
    } else {
      assert (a + b)[1..] == a[1..] + b;
      RunConcat(cfg, Apply(cfg, s, a[0]), a[1..], b);
    }
  }

  lemma RunOne(cfg: Config, s: State, step: Step)
    requires Enabled(cfg, s, step)
    ensures Legal(cfg, s, [step]) && Run(cfg, s, [step]) == Apply(cfg, s, step)
  {
    var s' := Apply(cfg, s, step);
    assert Legal(cfg, s', []) && Run(cfg, s', []) == s';
    assert [step][0] == step && [step][1..] == [];
    hide Enabled, Apply;
  }

  lemma RunOneMore(cfg: Config, s: State, steps: seq<Step>, step: Step)
    requires Legal(cfg, s, steps) && Enabled(cfg, Run(cfg, s, steps), step)
    ensures Legal(cfg, s, steps + [step])
    ensures Run(cfg, s, steps + [step]) == Apply(cfg, Run(cfg, s, steps), step)
  {
    RunOne(cfg, Run(cfg, s, steps), step);
    RunConcat(cfg, s, steps, [step]);
    hide Legal, Run, Enabled, Apply;
  }

  // ----- The invariant

  ghost predicate OnBus(bus: seq<Record>, id: nat) {
    exists k | 0 <= k < |bus| :: bus[k].rowId == id
  }

  /** Generated keys are fresh: no two rows, committed or not, share one. */
  ghost predicate AuditKeysFresh(next: nat, audit: map<nat, AuditRow>, publishers: map<nat, PublishTx>) {
    && (forall a | a in audit :: a < next)
    && (forall p | p in publishers && publishers[p].audit.Some? ::
          publishers[p].audit.value.0 < next && publishers[p].audit.value.0 !in audit)
    && (forall p, q | p in publishers && q in publishers && p != q
                      && publishers[p].audit.Some? && publishers[q].audit.Some? ::
          publishers[p].audit.value.0 != publishers[q].audit.value.0)
  }

  ghost predicate OutboxKeysFresh(next: nat, outbox: map<nat, OutboxRow>, publishers: map<nat, PublishTx>) {
    && (forall i | i in outbox :: i < next)
    && (forall p | p in publishers && publishers[p].outbox.Some? ::
          publishers[p].outbox.value.0 < next && publishers[p].outbox.value.0 !in outbox)
    && (forall p, q | p in publishers && q in publishers && p != q
                      && publishers[p].outbox.Some? && publishers[q].outbox.Some? ::
          publishers[p].outbox.value.0 != publishers[q].outbox.value.0)
  }

  /** A publish transaction writes both rows from the one verdict. */
  ghost predicate WritesMatch(cfg: Config, publishers: map<nat, PublishTx>) {
    forall p | p in publishers :: var tx := publishers[p];
      && cfg.admits(tx.verdict)
      && (tx.audit.Some? ==> tx.audit.value.1 == AuditOf(tx.verdict))
      && (tx.outbox.Some? ==> tx.audit.Some? && tx.outbox.value.1 == RowOf(cfg, tx.verdict, tx.headers))
  }

  /** Committed audit rows and outbox rows pair off one to one, and paired rows tell of the same verdict. */
  ghost predicate Paired(cfg: Config, audit: map<nat, AuditRow>, outbox: map<nat, OutboxRow>, link: map<nat, nat>) {
    && link.Keys == outbox.Keys
    && link.Values == audit.Keys
    && (forall i | i in link :: link[i] in audit && audit[link[i]] == AuditOf(outbox[i].payload))
    && (forall i, j | i in link && j in link && link[i] == link[j] :: i == j)
    && (forall i | i in outbox :: cfg.admits(outbox[i].payload) && outbox[i].topic == cfg.topic
                                  && outbox[i].key == outbox[i].payload.organizationId)
  }

  /** A relay's claim is a list of pending rows in id order; what it has produced is on the bus. */
  ghost predicate ClaimSound(tx: RelayTx, outbox: map<nat, OutboxRow>, bus: seq<Record>) {
    && Increasing(tx.claimed) && tx.produced <= |tx.claimed|
    && (tx.marked ==> tx.produced == |tx.claimed|)
    && (forall k | 0 <= k < |tx.claimed| :: tx.claimed[k] in outbox && !outbox[tx.claimed[k]].published)
    && (forall k | 0 <= k < tx.produced :: OnBus(bus, tx.claimed[k]))
  }

  ghost predicate ClaimsSound(relays: map<nat, RelayTx>, outbox: map<nat, OutboxRow>, bus: seq<Record>) {
    forall r | r in relays :: ClaimSound(relays[r], outbox, bus)
  }

  /** No row is claimed by two open relays. */
  ghost predicate ClaimsDisjoint(relays: map<nat, RelayTx>) {
    forall r, q, i | r in relays && q in relays && r != q && i in relays[r].claimed :: i !in relays[q].claimed
  }

  /** `marks` lists the published rows, each once, and every one of them is on the bus. */
  ghost predicate MarksSound(marks: seq<nat>, outbox: map<nat, OutboxRow>, bus: seq<Record>) {
    && (forall j, k | 0 <= j < k < |marks| :: marks[j] != marks[k])
    && (forall i | i in marks :: i in outbox && outbox[i].published && OnBus(bus, i))
    && (forall i | i in outbox && outbox[i].published :: i in marks)
  }

  /** Nothing is on the bus but shipped rows. */
  ghost predicate BusSound(bus: seq<Record>, outbox: map<nat, OutboxRow>) {
    forall k | 0 <= k < |bus| :: bus[k].rowId in outbox && bus[k] == Shipped(bus[k].rowId, outbox[bus[k].rowId])
  }

  ghost predicate Inv(cfg: Config, s: State) {
    && AuditKeysFresh(s.nextAudit, s.audit, s.publishers)
    && OutboxKeysFresh(s.nextId, s.outbox, s.publishers)
    && WritesMatch(cfg, s.publishers)
    && Paired(cfg, s.audit, s.outbox, s.link)
    && ClaimsSound(s.relays, s.outbox, s.bus)
    && ClaimsDisjoint(s.relays)
    && MarksSound(s.marks, s.outbox, s.bus)
    && BusSound(s.bus, s.outbox)
  }

  /** Rows are never deleted or rewritten, and a publication mark is never cleared. */
  ghost predicate OutboxKeeps(outbox: map<nat, OutboxRow>, outbox': map<nat, OutboxRow>) {
    forall i | i in outbox ::
      && i in outbox' && outbox'[i].(published := outbox[i].published) == outbox[i]
      && (outbox[i].published ==> outbox'[i].published)
  }

  ghost predicate AuditKeeps(audit: map<nat, AuditRow>, audit': map<nat, AuditRow>) {
    forall a | a in audit :: a in audit' && audit'[a] == audit[a]
  }

  /** What no step ever takes back. */
  ghost predicate Keeps(s: State, s': State) {
    && AuditKeeps(s.audit, s'.audit)
    && OutboxKeeps(s.outbox, s'.outbox)
    && s.bus <= s'.bus && s.marks <= s'.marks
  }

  lemma BusGrows(bus: seq<Record>, bus': seq<Record>, id: nat)
    requires bus <= bus' && OnBus(bus, id)
    ensures OnBus(bus', id)
  {
    var k :| 0 <= k < |bus| && bus[k].rowId == id;
    assert bus'[k].rowId == id;
  }

  lemma AuditKeysStayFresh(cfg: Config, s: State, step: Step)
    requires AuditKeysFresh(s.nextAudit, s.audit, s.publishers) && Enabled(cfg, s, step)
    ensures var s' := Apply(cfg, s, step); AuditKeysFresh(s'.nextAudit, s'.audit, s'.publishers)
  {
    match step
    case OpenPublish(_, _, _) =>
    case WriteAudit(_) =>
    case WriteOutbox(_) =>
    case CommitPublish(_) =>
    case _ =>
  }

  lemma OutboxKeysStayFresh(cfg: Config, s: State, step: Step)
    requires OutboxKeysFresh(s.nextId, s.outbox, s.publishers) && Enabled(cfg, s, step)
    ensures var s' := Apply(cfg, s, step); OutboxKeysFresh(s'.nextId, s'.outbox, s'.publishers)
  {
    match step
    case OpenPublish(_, _, _) =>
    case WriteAudit(_) =>
    case WriteOutbox(_) =>
    case CommitPublish(_) =>
    case CommitRelay(r) => assert MarkAll(s.outbox, s.relays[r].claimed).Keys == s.outbox.Keys;
    case _ =>
  }

  lemma WritesStayMatched(cfg: Config, s: State, step: Step)
    requires WritesMatch(cfg, s.publishers) && Enabled(cfg, s, step)
    ensures WritesMatch(cfg, Apply(cfg, s, step).publishers)
  {
  }

  lemma ValuesGrow(link: map<nat, nat>, i: nat, a: nat)
    requires i !in link
    ensures link[i := a].Values == link.Values + {a}
  {
    var link' := link[i := a];
    forall b ensures b in link'.Values <==> b in link.Values + {a} {
      if b in link.Values {
        var j :| j in link && link[j] == b;
        assert j in link' && link'[j] == b;
      }
      if b == a {
        assert i in link' && link'[i] == b;
      }
    }
  }

  lemma NewPair(cfg: Config, audit: map<nat, AuditRow>, outbox: map<nat, OutboxRow>, link: map<nat, nat>,
                a: nat, i: nat, v: Verdict, headers: Option<Headers>)
    requires Paired(cfg, audit, outbox, link) && a !in audit && i !in outbox && cfg.admits(v)
    ensures Paired(cfg, audit[a := AuditOf(v)], outbox[i := RowOf(cfg, v, headers)], link[i := a])
  {
    ValuesGrow(link, i, a);
    assert forall j | j in link :: link[j] in audit;
  }

  lemma CommitPairs(cfg: Config, s: State, p: nat)
    requires Inv(cfg, s) && Enabled(cfg, s, CommitPublish(p))
    ensures var s' := Apply(cfg, s, CommitPublish(p)); Paired(cfg, s'.audit, s'.outbox, s'.link)
  {
    hide Paired, ClaimsSound, ClaimsDisjoint, MarksSound, BusSound;
    var tx := s.publishers[p];
    NewPair(cfg, s.audit, s.outbox, s.link, tx.audit.value.0, tx.outbox.value.0, tx.verdict, tx.headers);
  }

  lemma CommitKeepsRelaySide(cfg: Config, s: State, p: nat)
    requires Inv(cfg, s) && Enabled(cfg, s, CommitPublish(p))
    ensures var s' := Apply(cfg, s, CommitPublish(p));
      && ClaimsSound(s'.relays, s'.outbox, s'.bus) && MarksSound(s'.marks, s'.outbox, s'.bus)
      && BusSound(s'.bus, s'.outbox)
  {
    hide AuditKeysFresh, Paired, ClaimsDisjoint;
  }

  lemma ClaimKeepsInv(cfg: Config, s: State, r: nat, limit: nat)
    requires Inv(cfg, s) && Enabled(cfg, s, Claim(r, limit))
    ensures Inv(cfg, Apply(cfg, s, Claim(r, limit)))
  {
    hide AuditKeysFresh, OutboxKeysFresh, Paired, WritesMatch, MarksSound, BusSound;
    var ids := SelectPending(s, 0, limit);
    SelectPendingMeaning(s, 0, limit);
    assert ClaimSound(RelayTx(ids, 0, false), s.outbox, s.bus);
    assert forall i | i in ids :: Available(s, i);
  }

  lemma ClaimGrows(tx: RelayTx, outbox: map<nat, OutboxRow>, bus: seq<Record>, bus': seq<Record>)
    requires ClaimSound(tx, outbox, bus) && bus <= bus'
    ensures ClaimSound(tx, outbox, bus')
  {
    forall k | 0 <= k < tx.produced ensures OnBus(bus', tx.claimed[k]) {
      BusGrows(bus, bus', tx.claimed[k]);
    }
  }

  lemma MarksGrow(marks: seq<nat>, outbox: map<nat, OutboxRow>, bus: seq<Record>, bus': seq<Record>)
    requires MarksSound(marks, outbox, bus) && bus <= bus'
    ensures MarksSound(marks, outbox, bus')
  {
    forall i | i in marks ensures OnBus(bus', i) {
      BusGrows(bus, bus', i);
    }
  }

  lemma ClaimProduces(tx: RelayTx, outbox: map<nat, OutboxRow>, bus: seq<Record>)
    requires ClaimSound(tx, outbox, bus) && !tx.marked && tx.produced < |tx.claimed|
    ensures var id := tx.claimed[tx.produced];
            ClaimSound(tx.(produced := tx.produced + 1), outbox, bus + [Shipped(id, outbox[id])])
  {
    var id := tx.claimed[tx.produced];
    var bus' := bus + [Shipped(id, outbox[id])];
    ClaimGrows(tx, outbox, bus, bus');
    assert bus'[|bus|].rowId == id;
  }

  lemma DisjointSurvives(relays: map<nat, RelayTx>, r: nat, tx: RelayTx)
    requires ClaimsDisjoint(relays) && r in relays && tx.claimed == relays[r].claimed
    ensures ClaimsDisjoint(relays[r := tx])
  {
  }

  lemma ProduceKeepsInv(cfg: Config, s: State, r: nat)
    requires Inv(cfg, s) && Enabled(cfg, s, Produce(r))
    ensures Inv(cfg, Apply(cfg, s, Produce(r)))
  {
    hide AuditKeysFresh, OutboxKeysFresh, Paired, WritesMatch, MarksSound, ClaimSound, ClaimsDisjoint;
    var s' := Apply(cfg, s, Produce(r));
    MarksGrow(s.marks, s.outbox, s.bus, s'.bus);
    DisjointSurvives(s.relays, r, s'.relays[r]);
    assert ClaimsSound(s'.relays, s'.outbox, s'.bus) by {
      forall q | q in s.relays ensures ClaimSound(s.relays[q], s.outbox, s'.bus) {
        ClaimGrows(s.relays[q], s.outbox, s.bus, s'.bus);
      }
      ClaimProduces(s.relays[r], s.outbox, s.bus);
    }
  }

  /** The claim of another relay is not touched by the update. */
  lemma ClaimSurvivesMarks(tx: RelayTx, ids: seq<nat>, outbox: map<nat, OutboxRow>, bus: seq<Record>)
    requires ClaimSound(tx, outbox, bus)
    requires forall i | i in ids :: i !in tx.claimed
    ensures ClaimSound(tx, MarkAll(outbox, ids), bus)
  {
    assert forall k | 0 <= k < |tx.claimed| :: tx.claimed[k] in tx.claimed;
  }

  lemma MarksExtend(marks: seq<nat>, ids: seq<nat>, outbox: map<nat, OutboxRow>, bus: seq<Record>)
    requires MarksSound(marks, outbox, bus) && Increasing(ids)
    requires forall i | i in ids :: i in outbox && !outbox[i].published && OnBus(bus, i)
    ensures MarksSound(marks + ids, MarkAll(outbox, ids), bus)
  {
    assert forall k | 0 <= k < |marks| :: marks[k] in marks;
    assert forall k | 0 <= k < |ids| :: ids[k] in ids;
  }

  lemma PairedSurvivesMarks(cfg: Config, audit: map<nat, AuditRow>, outbox: map<nat, OutboxRow>, link: map<nat, nat>,
                            ids: seq<nat>)
    requires Paired(cfg, audit, outbox, link)
    ensures Paired(cfg, audit, MarkAll(outbox, ids), link)
  {
    assert MarkAll(outbox, ids).Keys == outbox.Keys;
  }

  lemma CommitRelayKeepsInv(cfg: Config, s: State, r: nat)
    requires Inv(cfg, s) && Enabled(cfg, s, CommitRelay(r))
    ensures Inv(cfg, Apply(cfg, s, CommitRelay(r)))
  {
    hide AuditKeysFresh, OutboxKeysFresh, Paired, WritesMatch, MarksSound;
    var s' := Apply(cfg, s, CommitRelay(r));
    var tx := s.relays[r];
    OutboxKeysStayFresh(cfg, s, CommitRelay(r));
    PairedSurvivesMarks(cfg, s.audit, s.outbox, s.link, tx.claimed);
    assert ClaimSound(tx, s.outbox, s.bus);
    MarksExtend(s.marks, tx.claimed, s.outbox, s.bus);
    forall q | q in s'.relays ensures ClaimSound(s'.relays[q], s'.outbox, s'.bus) {
      ClaimSurvivesMarks(s.relays[q], tx.claimed, s.outbox, s.bus);
    }
  }

  lemma StepKeepsInv(cfg: Config, s: State, step: Step)
    requires Inv(cfg, s) && Enabled(cfg, s, step)
    ensures Inv(cfg, Apply(cfg, s, step))
  {
    hide AuditKeysFresh, OutboxKeysFresh, Paired, WritesMatch, MarksSound, BusSound;
    match step
    case Claim(r, limit) => ClaimKeepsInv(cfg, s, r, limit);
    case Produce(r) => ProduceKeepsInv(cfg, s, r);
    case CommitRelay(r) => CommitRelayKeepsInv(cfg, s, r);
    case CommitPublish(p) =>
      AuditKeysStayFresh(cfg, s, step);
      OutboxKeysStayFresh(cfg, s, step);
      WritesStayMatched(cfg, s, step);
      CommitPairs(cfg, s, p);
      CommitKeepsRelaySide(cfg, s, p);
    case MarkPublished(r) => assert ClaimSound(s.relays[r].(marked := true), s.outbox, s.bus);
    case AbortRelay(_) =>
    case _ =>
      AuditKeysStayFresh(cfg, s, step);
      OutboxKeysStayFresh(cfg, s, step);
      WritesStayMatched(cfg, s, step);
  }

  lemma StepKeeps(cfg: Config, s: State, step: Step)
    requires AuditKeysFresh(s.nextAudit, s.audit, s.publishers) && OutboxKeysFresh(s.nextId, s.outbox, s.publishers)
    requires Enabled(cfg, s, step)
    ensures Keeps(s, Apply(cfg, s, step))
  {
    match step
    case CommitPublish(_) =>
    case CommitRelay(_) =>
    case _ =>
  }

  lemma KeepsTransitive(a: State, b: State, c: State)
    requires Keeps(a, b) && Keeps(b, c)
    ensures Keeps(a, c)
  {
  }

  lemma {:induction false} RunKeepsInv(cfg: Config, s: State, steps: seq<Step>)
    requires Inv(cfg, s) && Legal(cfg, s, steps)
    ensures Inv(cfg, Run(cfg, s, steps)) && Keeps(s, Run(cfg, s, steps))
    decreases |steps|
  {
    if steps == [] {
    } else {
      StepKeepsInv(cfg, s, steps[0]);
      StepKeeps(cfg, s, steps[0]);
      RunKeepsInv(cfg, Apply(cfg, s, steps[0]), steps[1..]);
      KeepsTransitive(s, Apply(cfg, s, steps[0]), Run(cfg, s, steps));
    }
  }

  lemma {:induction false} LegalPrefix(cfg: Config, s: State, a: seq<Step>, b: seq<Step>)
    requires Legal(cfg, s, a + b)
    ensures Legal(cfg, s, a)
    decreases |a|
  {
    if a == [] {
    } else {
      assert (a + b)[1..] == a[1..] + b;
      LegalPrefix(cfg, Apply(cfg, s, a[0]), a[1..], b);
    }
  }

  lemma InitInv(cfg: Config)
    ensures Inv(cfg, INIT)
  {
  }

  /** The record carries the stored row: its verdict, under the topic, its tenant and its headers. */
  ghost predicate Carries(cfg: Config, rec: Record, row: OutboxRow) {
    && rec.topic == cfg.topic && rec.key == row.payload.organizationId && rec.payload == row.payload
    && rec.headers == (match row.headers case Some(h) => h case None => map[])
  }

  /** The audit row tells of the verdict. */
  ghost predicate TellsOf(row: AuditRow, v: Verdict) {
    && row.submissionId == v.submissionId && row.organizationId == v.organizationId && row.decision == v.decision
    && row.source == v.source && row.rulesetVersion == v.rulesetVersion && row.findings == |v.findings|
  }

  ghost predicate BusCarries(cfg: Config, bus: seq<Record>, outbox: map<nat, OutboxRow>) {
    forall k | 0 <= k < |bus| :: bus[k].rowId in outbox && Carries(cfg, bus[k], outbox[bus[k].rowId])
  }

  lemma BusCarriesRows(cfg: Config, s: State)
    requires Inv(cfg, s)
    ensures BusCarries(cfg, s.bus, s.outbox)
  {
    hide AuditKeysFresh, OutboxKeysFresh, WritesMatch, ClaimsSound, ClaimsDisjoint, MarksSound;
  }

  lemma AuditTellsOfRows(cfg: Config, s: State)
    requires Inv(cfg, s)
    ensures forall i | i in s.outbox ::
              i in s.link && s.link[i] in s.audit && TellsOf(s.audit[s.link[i]], s.outbox[i].payload)
  {
    hide AuditKeysFresh, OutboxKeysFresh, WritesMatch, ClaimsSound, ClaimsDisjoint, MarksSound, BusSound;
  }

  lemma RowsAreTheirVerdicts(cfg: Config, s: State)
    requires Inv(cfg, s)
    ensures forall i | i in s.outbox ::
              && s.outbox[i].topic == cfg.topic && s.outbox[i].key == s.outbox[i].payload.organizationId
              && cfg.admits(s.outbox[i].payload)
  {
    hide AuditKeysFresh, OutboxKeysFresh, WritesMatch, ClaimsSound, ClaimsDisjoint, MarksSound, BusSound;
  }

  /** Safety over every run: whatever publish and relay transactions do, and however they fail, at every
      point of the run (1) no row is claimed by two open relays; (2) no row is marked published twice and
      every marked row is on the bus; (3) the bus carries nothing but stored rows, under their topic, tenant and
      headers; (4) audit and outbox rows correspond one to one and tell of the same verdict; and (5) nothing
      recorded up to that point is lost or altered by what follows. */
  lemma EveryRunIsSafe(cfg: Config, before: seq<Step>, after: seq<Step>)
    requires Legal(cfg, INIT, before + after)
    ensures Legal(cfg, INIT, before)
    ensures var s := Run(cfg, INIT, before);
      && (forall r, q, i | r in s.relays && q in s.relays && r != q && i in s.relays[r].claimed ::
            i !in s.relays[q].claimed)
      && (forall j, k | 0 <= j < k < |s.marks| :: s.marks[j] != s.marks[k])
      && (forall i | i in s.marks :: OnBus(s.bus, i))
      && (forall i | i in s.outbox :: s.outbox[i].published <==> i in s.marks)
      && (forall k | 0 <= k < |s.bus| ::
            s.bus[k].rowId in s.outbox && Carries(cfg, s.bus[k], s.outbox[s.bus[k].rowId]))
      && (forall i | i in s.outbox ::
            i in s.link && s.link[i] in s.audit && TellsOf(s.audit[s.link[i]], s.outbox[i].payload))
      && (forall i | i in s.outbox ::
            && s.outbox[i].topic == cfg.topic && s.outbox[i].key == s.outbox[i].payload.organizationId
            && cfg.admits(s.outbox[i].payload))
      && (forall a | a in s.audit :: exists i | i in s.outbox :: i in s.link && s.link[i] == a)
      && (forall i, j | i in s.outbox && j in s.outbox && i in s.link && j in s.link && s.link[i] == s.link[j] ::
            i == j)
    ensures Keeps(Run(cfg, INIT, before), Run(cfg, INIT, before + after))
  {
    LegalPrefix(cfg, INIT, before, after);
    InitInv(cfg);
    RunKeepsInv(cfg, INIT, before);
    RunConcat(cfg, INIT, before, after);
    RunKeepsInv(cfg, Run(cfg, INIT, before), after);
    var s := Run(cfg, INIT, before);
    BusCarriesRows(cfg, s);
    AuditTellsOfRows(cfg, s);
    RowsAreTheirVerdicts(cfg, s);
    hide Keeps, Legal, Run, AuditKeysFresh, OutboxKeysFresh, WritesMatch, ClaimsSound, BusSound, Carries, TellsOf;
    forall a | a in s.audit ensures exists i | i in s.outbox :: i in s.link && s.link[i] == a {
      assert a in s.link.Values;
      var i :| i in s.link && s.link[i] == a;
      assert i in s.outbox;
    }
  }
}
