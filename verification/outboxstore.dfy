/** The outbox store and its relay as the methods that run against a shared database and bus, with other
    processes acting between any two of their statements. Each method is shown to take only steps of the
    protocol, and to do what it promises when it reports success. */
module OutboxStore {
  import opened Text
  import opened Verdicts
  import opened OutboxProtocol

  /** What others do at the k-th moment of a call. */
  type Others = (nat, State) -> State

  predicate ByPublisher(step: Step, p: nat) {
    match step
    case OpenPublish(q, _, _) => q == p
    case WriteAudit(q) => q == p
    case WriteOutbox(q) => q == p
    case CommitPublish(q) => q == p
    case AbortPublish(q) => q == p
    case _ => false
  }

  predicate ByRelay(step: Step, r: nat) {
    match step
    case Claim(q, _) => q == r
    case Produce(q) => q == r
    case MarkPublished(q) => q == r
    case CommitRelay(q) => q == r
    case AbortRelay(q) => q == r
    case _ => false
  }

  ghost predicate Reaches(cfg: Config, s: State, s': State) {
    exists steps :: Legal(cfg, s, steps) && Run(cfg, s, steps) == s'
  }

  ghost predicate ReachesWithoutPublisher(cfg: Config, p: nat, s: State, s': State) {
    exists steps ::
      Legal(cfg, s, steps) && Run(cfg, s, steps) == s' && forall step | step in steps :: !ByPublisher(step, p)
  }

  ghost predicate ReachesWithoutRelay(cfg: Config, r: nat, s: State, s': State) {
    exists steps ::
      Legal(cfg, s, steps) && Run(cfg, s, steps) == s' && forall step | step in steps :: !ByRelay(step, r)
  }

  /** Others take protocol steps of their own, never those of this transaction. */
  ghost predicate SparesPublisher(cfg: Config, p: nat, others: Others) {
    forall k, s | Inv(cfg, s) :: ReachesWithoutPublisher(cfg, p, s, others(k, s))
  }

  ghost predicate SparesRelay(cfg: Config, r: nat, others: Others) {
    forall k, s | Inv(cfg, s) :: ReachesWithoutRelay(cfg, r, s, others(k, s))
  }

  ghost predicate Idle(others: Others) {
    forall k, s :: others(k, s) == s
  }

  /** `s` came about from `s0` by protocol steps, so nothing recorded was lost and the invariant holds. */
  ghost predicate Since(cfg: Config, s0: State, s: State) {
    Reaches(cfg, s0, s) && Inv(cfg, s) && Keeps(s0, s)
  }

  lemma SinceItself(cfg: Config, s: State)
    requires Inv(cfg, s)
    ensures Since(cfg, s, s)
  {
    assert Legal(cfg, s, []) && Run(cfg, s, []) == s;
    hide Inv;
  }

  lemma SinceMeans(cfg: Config, a: State, b: State)
    requires Since(cfg, a, b)
    ensures Inv(cfg, b)
  {
  }

  lemma SinceCarries(cfg: Config, a: State, b: State)
    requires Since(cfg, a, b)
    ensures a.bus <= b.bus
    ensures BusCarries(cfg, b.bus, b.outbox)
  {
    hide Reaches;
    BusCarriesRows(cfg, b);
    hide Inv;
  }

  lemma SinceOn(cfg: Config, a: State, b: State, c: State)
    requires Since(cfg, a, b) && Since(cfg, b, c)
    ensures Since(cfg, a, c)
  {
    hide Inv, Keeps;
    var x :| Legal(cfg, a, x) && Run(cfg, a, x) == b;
    var y :| Legal(cfg, b, y) && Run(cfg, b, y) == c;
    RunConcat(cfg, a, x, y);
    assert Legal(cfg, a, x + y) && Run(cfg, a, x + y) == c;
    KeepsTransitive(a, b, c);
  }

  lemma SinceStep(cfg: Config, s: State, step: Step)
    requires Inv(cfg, s) && Enabled(cfg, s, step)
    ensures Since(cfg, s, Apply(cfg, s, step))
  {
    hide AuditKeysFresh, OutboxKeysFresh, Paired, WritesMatch, ClaimsSound, ClaimsDisjoint, MarksSound, BusSound;
    hide AuditKeeps, OutboxKeeps, Enabled, Apply;
    StepKeepsInv(cfg, s, step);
    StepKeeps(cfg, s, step);
    RunOne(cfg, s, step);
  }

  lemma {:induction false} PublisherUntouched(cfg: Config, p: nat, s: State, steps: seq<Step>)
    requires Legal(cfg, s, steps) && forall step | step in steps :: !ByPublisher(step, p)
    ensures var s' := Run(cfg, s, steps);
      (p in s'.publishers <==> p in s.publishers) && (p in s.publishers ==> s'.publishers[p] == s.publishers[p])
    decreases |steps|
  {
    if steps == [] {
    } else {
      assert steps[0] in steps && forall step | step in steps[1..] :: step in steps;
      PublisherUntouched(cfg, p, Apply(cfg, s, steps[0]), steps[1..]);
    }
  }

  lemma {:induction false} RelayUntouched(cfg: Config, r: nat, s: State, steps: seq<Step>)
    requires Legal(cfg, s, steps) && forall step | step in steps :: !ByRelay(step, r)
    ensures var s' := Run(cfg, s, steps);
      (r in s'.relays <==> r in s.relays) && (r in s.relays ==> s'.relays[r] == s.relays[r])
    decreases |steps|
  {
    if steps == [] {
    } else {
      assert steps[0] in steps && forall step | step in steps[1..] :: step in steps;
      RelayUntouched(cfg, r, Apply(cfg, s, steps[0]), steps[1..]);
    }
  }

  /** What a publisher may rely on after others have acted. */
  lemma OthersSparePublisher(cfg: Config, p: nat, others: Others, k: nat, s: State)
    requires Inv(cfg, s) && SparesPublisher(cfg, p, others)
    ensures var s' := others(k, s);
      && Since(cfg, s, s')
      && (p in s'.publishers <==> p in s.publishers) && (p in s.publishers ==> s'.publishers[p] == s.publishers[p])
  {
    hide Inv, Keeps;
    var s' := others(k, s);
    assert ReachesWithoutPublisher(cfg, p, s, s');
    var steps :|
      Legal(cfg, s, steps) && Run(cfg, s, steps) == s' && forall step | step in steps :: !ByPublisher(step, p);
    PublisherUntouched(cfg, p, s, steps);
    RunKeepsInv(cfg, s, steps);
  }

  lemma OthersSpareRelay(cfg: Config, r: nat, others: Others, k: nat, s: State)
    requires Inv(cfg, s) && SparesRelay(cfg, r, others)
    ensures var s' := others(k, s);
      && Since(cfg, s, s')
      && (r in s'.relays <==> r in s.relays) && (r in s.relays ==> s'.relays[r] == s.relays[r])
  {
    hide Inv, Keeps;
    var s' := others(k, s);
    assert ReachesWithoutRelay(cfg, r, s, s');
    var steps :| Legal(cfg, s, steps) && Run(cfg, s, steps) == s' && forall step | step in steps :: !ByRelay(step, r);
    RelayUntouched(cfg, r, s, steps);
    RunKeepsInv(cfg, s, steps);
  }

  /** How a commit may turn out for the client that asked for it. */
  datatype CommitResult = Acknowledged | RolledBack | AppliedUnacknowledged

  datatype PublishFaults = PublishFaults(begin: bool, audit: bool, outbox: bool, commit: CommitResult)

  /** A produce may fail after the record has reached the bus. */
  datatype SendResult = Sent | NotSent | SentUnacknowledged

  datatype RelayFaults = RelayFaults(begin: bool, select: bool, scan: nat -> bool, iterate: bool,
                                     send: nat -> SendResult, update: bool, commit: CommitResult)

  const NO_FAULTS := RelayFaults(false, false, k => false, false, k => Sent, false, Acknowledged)

  /** Postgres and the bus, shared by every process. */
  class Database {
    const cfg: Config
    var s: State

    constructor (cfg: Config)
      ensures this.cfg == cfg && s == INIT && Inv(cfg, s)
    {
      this.cfg := cfg;
      s := INIT;
      InitInv(cfg);
    }

    /** One statement of a transaction. `s0` is the state the caller started from. */
    method Exec(step: Step, ghost s0: State)
      requires Since(cfg, s0, s) && Enabled(cfg, s, step)
      modifies this
      ensures s == Apply(cfg, old(s), step) && Since(cfg, s0, s)
    {
      SinceStep(cfg, s, step);
      SinceOn(cfg, s0, s, Apply(cfg, s, step));
      s := Apply(cfg, s, step);
    }

    method LetOthersAct(others: Others, k: nat, ghost s0: State)
      requires Since(cfg, s0, s) && Since(cfg, s, others(k, s))
      modifies this
      ensures s == others(k, old(s)) && Since(cfg, s0, s)
    {
      SinceOn(cfg, s0, s, others(k, s));
      s := others(k, s);
    }
  }

  class Store {
    const db: Database

    constructor (db: Database)
      ensures this.db == db
    {
      this.db := db;
    }

    /** A statement of publish transaction `p`, after which others may act. */
    method Statement(p: nat, step: Step, others: Others, k: nat, ghost s0: State)
      requires Since(db.cfg, s0, db.s) && Enabled(db.cfg, db.s, step) && SparesPublisher(db.cfg, p, others)
      modifies db
      ensures var s := Apply(db.cfg, old(db.s), step);
        && Since(db.cfg, s0, db.s) && db.s == others(k, s)
        && (p in db.s.publishers <==> p in s.publishers)
        && (p in s.publishers ==> db.s.publishers[p] == s.publishers[p])
    {
      hide Inv, Keeps, Reaches, SparesPublisher;
      db.Exec(step, s0);
      OthersSparePublisher(db.cfg, p, others, k, db.s);
      db.LetOthersAct(others, k, s0);
    }

    /** Publish: one transaction inserts the audit row and the outbox row. */
    method Publish(p: nat, v: Verdict, headers: Headers, faults: PublishFaults, others: Others)
      returns (err: Option<string>)
      requires Inv(db.cfg, db.s) && p !in db.s.publishers && db.cfg.admits(v) && SparesPublisher(db.cfg, p, others)
      modifies db
      ensures Since(db.cfg, old(db.s), db.s) && p !in db.s.publishers
      // success, exactly when nothing fails: a new outbox row holds the verdict and is paired with a new audit row
      ensures err.None? <==> !faults.begin && !faults.audit && !faults.outbox && faults.commit == Acknowledged
      ensures err.None? ==> exists i | i in db.s.outbox :: i !in old(db.s.outbox) && Wrote(db.cfg, db.s, i, v, headers)
      // undisturbed: both rows or neither, and both whenever success is reported
      ensures Idle(others) ==>
                || (db.s.audit == old(db.s.audit) && db.s.outbox == old(db.s.outbox) && err.Some?)
                || (&& db.s.audit == old(db.s.audit)[old(db.s.nextAudit) := AuditRow(
                      v.submissionId, v.organizationId, v.decision, v.source, v.rulesetVersion, |v.findings|)]
                    && db.s.outbox == old(db.s.outbox)[old(db.s.nextId) := OutboxRow(
                      db.cfg.topic, v.organizationId, v, Some(headers), false)]
                    && (err.Some? ==> faults.commit == AppliedUnacknowledged))
    {
      hide Inv, Keeps, Reaches, Wrote, SparesPublisher, Legal, Run;
      ghost var s0 := db.s;
      SinceItself(db.cfg, s0);
      if faults.begin {
        return Some("begin tx");
      }
      Statement(p, OpenPublish(p, v, Some(headers)), others, 0, s0);
      if faults.audit {
        db.Exec(AbortPublish(p), s0);
        return Some("insert verdict_audit");
      }
      Statement(p, WriteAudit(p), others, 1, s0);
      if faults.outbox {
        db.Exec(AbortPublish(p), s0);
        return Some("insert outbox");
      }
      Statement(p, WriteOutbox(p), others, 2, s0);
      if faults.commit == RolledBack {
        db.Exec(AbortPublish(p), s0);
        return Some("commit tx");
      }
      ghost var id := db.s.publishers[p].outbox.value.0;
      CommitIsNew(db.cfg, s0, db.s, p);
      db.Exec(CommitPublish(p), s0);
      assert id in db.s.outbox && Wrote(db.cfg, db.s, id, v, headers);
      err := if faults.commit == Acknowledged then None else Some("commit tx");
    }

    /** Others act while relay transaction `r` is open: its own bookkeeping is spared, and rows keep their contents. */
    method RelayWaits(r: nat, others: Others, k: nat, ghost s0: State)
      requires Since(db.cfg, s0, db.s) && SparesRelay(db.cfg, r, others) && r in db.s.relays
      modifies db
      ensures Since(db.cfg, s0, db.s) && db.s == others(k, old(db.s))
      ensures r in db.s.relays && db.s.relays[r] == old(db.s).relays[r] && OutboxKeeps(old(db.s).outbox, db.s.outbox)
    {
      hide Inv, Reaches, SparesRelay, OutboxKeeps;
      OthersSpareRelay(db.cfg, r, others, k, db.s);
      db.LetOthersAct(others, k, s0);
    }

    /** One turn of the produce loop: publish the next row of the claim as it was scanned. */
    method ProduceOne(r: nat, id: nat, row: OutboxRow, send: SendResult, others: Others, k: nat, ghost s0: State)
      requires Since(db.cfg, s0, db.s) && SparesRelay(db.cfg, r, others)
      requires r in db.s.relays && !db.s.relays[r].marked && db.s.relays[r].produced < |db.s.relays[r].claimed|
      requires id == db.s.relays[r].claimed[db.s.relays[r].produced] && Holds(db.s.outbox, id, row)
      modifies db
      ensures Since(db.cfg, s0, db.s) && OutboxKeeps(old(db.s).outbox, db.s.outbox)
      ensures r in db.s.relays && db.s.relays[r].claimed == old(db.s).relays[r].claimed
      ensures send == Sent ==> db.s.relays[r] == old(db.s).relays[r].(produced := old(db.s).relays[r].produced + 1)
      // what was scanned is what is sent, to the row's own topic, under its own key
      ensures send != NotSent ==>
                && |db.s.bus| > 0
                && var rec := db.s.bus[|db.s.bus| - 1];
                   && rec.rowId == id && rec.topic == row.topic && rec.key == row.key && rec.payload == row.payload
                   && rec.headers == (match row.headers case Some(h) => h case None => map[])
      ensures Idle(others) ==> db.s == if send == NotSent then old(db.s) else AfterSend(old(db.s), r, id)
    {
      hide Inv, Reaches, SparesRelay, Legal, Run;
      RelayWaits(r, others, k, s0);
      var headers := if row.headers.Some? then row.headers.value else map[];
      if send != NotSent {
        var rec := Record(id, row.topic, row.key, row.payload, headers);
        assert rec == Shipped(id, db.s.outbox[id]);
        db.Exec(Produce(r), s0);
      }
    }

    /** The produce loop over the claimed rows; the ghost result counts the records that reached the bus. */
    method ProduceAll(r: nat, claimed: seq<(nat, OutboxRow)>, faults: RelayFaults, others: Others, ghost s0: State)
      returns (ids: seq<nat>, failed: bool, ghost sent: nat)
      requires Since(db.cfg, s0, db.s) && SparesRelay(db.cfg, r, others)
      requires r in db.s.relays && db.s.relays[r].produced == 0 && !db.s.relays[r].marked
      requires Scanned(claimed, db.s.relays[r].claimed, db.s.outbox)
      modifies db
      ensures Since(db.cfg, s0, db.s) && r in db.s.relays && db.s.relays[r].claimed == old(db.s).relays[r].claimed
      ensures sent <= |claimed| && (Idle(others) ==> db.s == Shipping(old(db.s), r, sent))
      ensures !failed ==> ids == db.s.relays[r].claimed && db.s.relays[r].produced == |ids| == sent
      ensures failed <==> exists k | 0 <= k < |claimed| :: faults.send(k) != Sent
    {
      hide Inv, Keeps, Reaches, SparesRelay, Legal, Run, Since, Apply;
      ghost var s := db.s;
      ids, sent := [], 0;
      ShippingNone(s, r);
      for j := 0 to |claimed|
        invariant Since(db.cfg, s0, db.s) && Scanned(claimed, s.relays[r].claimed, db.s.outbox)
        invariant r in db.s.relays && db.s.relays[r] == s.relays[r].(produced := j)
        invariant ids == s.relays[r].claimed[..j] && sent == j
        invariant forall k | 0 <= k < j :: faults.send(k) == Sent
        invariant Idle(others) ==> db.s == Shipping(s, r, j)
      {
        hide Shipping;
        var (id, row) := claimed[j];
        ghost var before := db.s;
        ProduceOne(r, id, row, faults.send(j), others, j, s0);
        ShippingOne(s, r, j);
        if faults.send(j) != Sent {
          sent := if faults.send(j) == NotSent then j else j + 1;
          return ids, true, sent;
        }
        ScannedStill(claimed, s.relays[r].claimed, before.outbox, db.s.outbox);
        ids, sent := ids + [id], j + 1;
      }
      failed := false;
    }

    method Rollback(r: nat, ghost s0: State)
      requires Since(db.cfg, s0, db.s) && r in db.s.relays
      modifies db
      ensures Since(db.cfg, s0, db.s) && db.s == old(db.s).(relays := old(db.s).relays - {r})
    {
      hide Since;
      db.Exec(AbortRelay(r), s0);
    }

    /** The closing UPDATE and COMMIT. */
    method MarkAndCommit(r: nat, ids: seq<nat>, faults: RelayFaults, others: Others, k: nat, ghost s0: State)
      returns (err: Option<string>)
      requires Since(db.cfg, s0, db.s) && SparesRelay(db.cfg, r, others)
      requires r in db.s.relays && db.s.relays[r].claimed == ids && db.s.relays[r].produced == |ids|
      modifies db
      ensures Since(db.cfg, s0, db.s) && r !in db.s.relays
      ensures err.None? ==> forall i | i in ids :: i in db.s.outbox && db.s.outbox[i].published && OnBus(db.s.bus, i)
      ensures Idle(others) ==>
                || (db.s == Marked(old(db.s), r, ids) && (err.Some? ==> faults.commit == AppliedUnacknowledged))
                || (db.s == old(db.s).(relays := old(db.s).relays - {r}) && err.Some?)
      ensures err.None? <==> !faults.update && faults.commit == Acknowledged
    {
      hide Inv, Keeps, Reaches, SparesRelay, Legal, Run;
      RelayWaits(r, others, k, s0);
      if faults.update {
        Rollback(r, s0);
        return Some("mark published");
      }
      db.Exec(MarkPublished(r), s0);
      RelayWaits(r, others, k + 1, s0);
      if faults.commit == RolledBack {
        Rollback(r, s0);
        return Some("commit relay tx");
      }
      ClaimIsCommitted(db.cfg, s0, db.s, r);
      db.Exec(CommitRelay(r), s0);
      err := if faults.commit == Acknowledged then None else Some("commit relay tx");
    }

    /** Reading the claimed rows. */
    method Scan(locked: seq<nat>, table: map<nat, OutboxRow>, faults: RelayFaults)
      returns (claimed: seq<(nat, OutboxRow)>, failed: bool)
      requires forall i | i in locked :: i in table
      ensures !failed ==> Scanned(claimed, locked, table)
      ensures failed <==> exists k | 0 <= k < |locked| :: faults.scan(k)
    {
      claimed := [];
      while |claimed| < |locked|
        invariant |claimed| <= |locked| && Scanned(claimed, locked[..|claimed|], table)
        invariant forall k | 0 <= k < |claimed| :: !faults.scan(k)
      {
        if faults.scan(|claimed|) {
          return claimed, true;
        }
        assert locked[|claimed|] in locked;
        claimed := claimed + [(locked[|claimed|], table[locked[|claimed|]])];
      }
      assert locked[..|claimed|] == locked;
      failed := false;
    }

    /** SELECT ... FOR UPDATE SKIP LOCKED and the reading of its rows. */
    method ClaimRows(r: nat, batch: nat, faults: RelayFaults, ghost s0: State)
      returns (claimed: seq<(nat, OutboxRow)>, err: Option<string>)
      requires Since(db.cfg, s0, db.s) && r !in db.s.relays
      modifies db
      ensures Since(db.cfg, s0, db.s)
      ensures err.None? ==>
                var rows := SelectPending(old(db.s), 0, batch);
                && db.s == Claimed(old(db.s), r, rows) && Scanned(claimed, rows, db.s.outbox)
                && |claimed| == |rows|
      ensures err.Some? ==> db.s == old(db.s)
      ensures err.None? <==>
                !faults.iterate && forall k | 0 <= k < |SelectPending(old(db.s), 0, batch)| :: !faults.scan(k)
    {
      hide Inv, Keeps, Reaches, SelectPending;
      db.Exec(Claim(r, batch), s0);
      ClaimIsCommitted(db.cfg, s0, db.s, r);
      var failed;
      claimed, failed := Scan(db.s.relays[r].claimed, db.s.outbox, faults);
      if failed {
        Rollback(r, s0);
        return claimed, Some("scan pending");
      }
      if faults.iterate {
        Rollback(r, s0);
        return claimed, Some("iterate pending");
      }
      err := None;
    }

    /** With no row to ship the transaction is just committed. */
    method CommitNothing(r: nat, faults: RelayFaults, ghost s0: State) returns (err: Option<string>)
      requires Since(db.cfg, s0, db.s) && r in db.s.relays && db.s.relays[r].claimed == []
      modifies db
      ensures Since(db.cfg, s0, db.s) && db.s == old(db.s).(relays := old(db.s).relays - {r})
      ensures err.None? <==> faults.commit == Acknowledged
    {
      hide Inv, Keeps, Reaches;
      assert MarkAll(db.s.outbox, []) == db.s.outbox;
      db.Exec(if faults.commit == RolledBack then AbortRelay(r) else CommitRelay(r), s0);
      err := if faults.commit == Acknowledged then None else Some("commit relay tx");
    }

    /** The body of PublishPending. The ghost results name the rows there are to claim and, after a failure, count the
        records that reached the bus. */
    method ClaimAndShip(r: nat, batch: int, faults: RelayFaults, others: Others)
      returns (n: nat, err: Option<string>, ghost rows: seq<nat>, ghost sent: nat)
      requires Inv(db.cfg, db.s) && r !in db.s.relays && SparesRelay(db.cfg, r, others)
      modifies db
      ensures Since(db.cfg, old(db.s), db.s) && r !in db.s.relays
      ensures err.None? ==> n == |rows|
      ensures err.None? ==> forall i | i in rows :: i in db.s.outbox && db.s.outbox[i].published && OnBus(db.s.bus, i)
      ensures err.Some? ==> n == 0
      ensures rows == if batch < 0 then [] else SelectPending(old(db.s), 0, batch)
      ensures err.None? <==> Spared(faults, batch, rows)
      ensures Idle(others) && err.None? ==> batch >= 0 && db.s == AfterBatch(old(db.s), rows)
      ensures Idle(others) && err.Some? ==>
                || db.s == old(db.s)
                || (&& batch >= 0 && sent <= |rows|
                    && (|| LeftUnmarked(old(db.s), db.s, rows, sent)
                        || (faults.commit == AppliedUnacknowledged && sent == |rows|
                            && db.s == AfterBatch(old(db.s), rows))))
    {
      hide Inv, Keeps, Reaches, SparesRelay, SelectPending, Holds, Records, MarkAll, LeftUnmarked, Shipping, Marked;
      hide Since, OnBus, Scanned, AfterBatch;
      ghost var s0 := db.s;
      SinceItself(db.cfg, s0);
      NoRows(s0);
      rows, sent := if batch < 0 then [] else SelectPending(s0, 0, batch), 0;
      if faults.begin {
        return 0, Some("begin relay tx"), rows, 0;
      }
      if faults.select || batch < 0 {
        return 0, Some("select pending"), rows, 0;
      }
      var claimed;
      claimed, err := ClaimRows(r, batch, faults, s0);
      if err.Some? {
        return 0, err, rows, 0;
      }
      if |claimed| == 0 {
        err := CommitNothing(r, faults, s0);
        return 0, err, rows, 0;
      }
      var ids, failed;
      ids, failed, sent := ProduceAll(r, claimed, faults, others, s0);
      if failed {
        Rollback(r, s0);
        ShippingUndone(s0, r, rows, sent);
        return 0, Some("relay publish"), rows, sent;
      }
      ShippingDone(s0, r, rows);
      err := MarkAndCommit(r, ids, faults, others, |claimed|, s0);
      n := if err.None? then |ids| else 0;
    }

    /** PublishPending: claim up to `batch` pending rows, produce them in id order, mark them published.
        The ghost result names the rows there are to claim. */
    method PublishPending(r: nat, batch: int, faults: RelayFaults, others: Others)
      returns (n: nat, err: Option<string>, ghost rows: seq<nat>)
      requires Inv(db.cfg, db.s) && r !in db.s.relays && SparesRelay(db.cfg, r, others)
      modifies db
      ensures Since(db.cfg, old(db.s), db.s) && r !in db.s.relays
      ensures rows == if batch < 0 then [] else SelectPending(old(db.s), 0, batch)
      // success, exactly when nothing fails: the rows counted are published, and have reached the bus
      ensures err.None? <==>
                && batch >= 0 && !faults.begin && !faults.select && !faults.iterate && faults.commit == Acknowledged
                && (forall k | 0 <= k < |rows| :: !faults.scan(k) && faults.send(k) == Sent)
                && (rows != [] ==> !faults.update)
      ensures err.None? ==> n == |rows|
      ensures err.None? ==> forall i | i in rows :: i in db.s.outbox && db.s.outbox[i].published && OnBus(db.s.bus, i)
      ensures err.Some? ==> n == 0
      // disturbed or not, failed or not: everything on the bus is a stored row under its topic, tenant and headers
      ensures old(db.s.bus) <= db.s.bus
      ensures BusCarries(db.cfg, db.s.bus, db.s.outbox)
      // undisturbed success: exactly the first pending rows are shipped, in id order, under their topic, tenant and
      // headers, and marked
      ensures Idle(others) && err.None? ==>
                batch >= 0 && db.s == AfterBatch(old(db.s), rows)
      ensures Idle(others) && err.None? ==> ShippedAndMarked(db.cfg, old(db.s), db.s, rows)
      // undisturbed failure: a first part of the claim may be on the bus, in id order
      ensures Idle(others) && err.Some? ==> PartOnBus(old(db.s), db.s, rows)
      // ... and nothing is marked unless the commit went through unacknowledged
      ensures Idle(others) && err.Some? ==>
                || db.s == old(db.s).(bus := db.s.bus)
                || (faults.commit == AppliedUnacknowledged && db.s == AfterBatch(old(db.s), rows))
    {
      hide Inv, Keeps, Reaches, SparesRelay, SelectPending, Records, AfterBatch, Since, BusCarries;
      hide ShippedAndMarked, PartOnBus;
      ghost var s0 := db.s;
      ghost var sent;
      n, err, rows, sent := ClaimAndShip(r, batch, faults, others);
      SinceCarries(db.cfg, s0, db.s);
      NoPart(s0, rows);
      if batch >= 0 {
        BatchMeaning(db.cfg, s0, batch);
        if sent <= |SelectPending(s0, 0, batch)| {
          PartMeaning(db.cfg, s0, batch, sent);
        }
      }
    }
  }

  /** No statement on the way of a batch of `rows` fails. */
  predicate Spared(faults: RelayFaults, batch: int, rows: seq<nat>) {
    && batch >= 0 && !faults.begin && !faults.select && !faults.iterate && faults.commit == Acknowledged
    && (forall k | 0 <= k < |rows| :: !faults.scan(k) && faults.send(k) == Sent)
    && (rows != [] ==> !faults.update)
  }

  /** Exactly `rows` have been put on the bus, in order, and marked; no other row has changed. */
  ghost predicate ShippedAndMarked(cfg: Config, s: State, s': State, rows: seq<nat>) {
    && |s'.bus| == |s.bus| + |rows|
    && (forall k | 0 <= k < |rows| :: rows[k] in s.outbox &&
          var rec := s'.bus[|s.bus| + k];
          rec.rowId == rows[k] && Carries(cfg, rec, s.outbox[rows[k]]))
    && s'.outbox.Keys == s.outbox.Keys
    && (forall i | i in s.outbox ::
          s'.outbox[i] == s.outbox[i].(published := s.outbox[i].published || i in rows))
  }

  /** A first part of `rows` has been put on the bus, in order. */
  ghost predicate PartOnBus(s: State, s': State, rows: seq<nat>) {
    && |s.bus| <= |s'.bus| <= |s.bus| + |rows|
    && forall k | |s.bus| <= k < |s'.bus| :: s'.bus[k].rowId == rows[k - |s.bus|]
  }

  lemma NoPart(s: State, rows: seq<nat>)
    ensures PartOnBus(s, s, rows)
  {
  }

  /** Relay `r` has produced the first `sent` rows of its claim. */
  function Shipping(s: State, r: nat, sent: nat): State
    requires r in s.relays && sent <= |s.relays[r].claimed|
  {
    s.(bus := s.bus + Records(s.outbox, s.relays[r].claimed[..sent]),
    relays := s.relays[r := s.relays[r].(produced := sent)])
  }

  /** The effect of producing row `id` in relay transaction `r`. */
  function AfterSend(s: State, r: nat, id: nat): State
    requires r in s.relays && id in s.outbox
  {
    s.(bus := s.bus + [Shipped(id, s.outbox[id])],
    relays := s.relays[r := s.relays[r].(produced := s.relays[r].produced + 1)])
  }

  lemma ShippingNone(s: State, r: nat)
    requires r in s.relays && s.relays[r].produced == 0
    ensures Shipping(s, r, 0) == s
  {
    assert s.relays[r := s.relays[r].(produced := 0)] == s.relays;
  }

  lemma ShippingOne(s: State, r: nat, j: nat)
    requires r in s.relays && j < |s.relays[r].claimed| && s.relays[r].claimed[j] in s.outbox
    ensures AfterSend(Shipping(s, r, j), r, s.relays[r].claimed[j]) == Shipping(s, r, j + 1)
  {
    var ids := s.relays[r].claimed;
    assert ids[..j + 1][..j] == ids[..j];
    var s', s'' := Shipping(s, r, j), Shipping(s, r, j + 1);
    assert s'.relays[r := s'.relays[r].(produced := j + 1)] == s''.relays;
    assert s'.bus + [Shipped(ids[j], s.outbox[ids[j]])] == s''.bus;
  }

  lemma ScannedStill(claimed: seq<(nat, OutboxRow)>, ids: seq<nat>,
                     outbox: map<nat, OutboxRow>, outbox': map<nat, OutboxRow>)
    requires Scanned(claimed, ids, outbox) && OutboxKeeps(outbox, outbox')
    ensures Scanned(claimed, ids, outbox')
  {
  }

  /** The state in which relay `r` holds the claim `rows` and has produced nothing. */
  function Claimed(s: State, r: nat, rows: seq<nat>): State {
    s.(relays := s.relays[r := RelayTx(rows, 0, false)])
  }

  /** The first `sent` rows of the claim are on the bus, and nothing else has changed. */
  ghost predicate LeftUnmarked(s: State, s': State, rows: seq<nat>, sent: nat) {
    sent <= |rows| && s' == s.(bus := s.bus + Records(s.outbox, rows[..sent]))
  }

  lemma ShippingUndone(s: State, r: nat, rows: seq<nat>, sent: nat)
    requires r !in s.relays && sent <= |rows|
    ensures var s' := Shipping(Claimed(s, r, rows), r, sent);
      LeftUnmarked(s, s'.(relays := s'.relays - {r}), rows, sent)
  {
  }

  lemma ShippingDone(s: State, r: nat, rows: seq<nat>)
    requires r !in s.relays
    ensures var s' := Shipping(Claimed(s, r, rows), r, |rows|);
      && Marked(s', r, rows) == AfterBatch(s, rows)
      && LeftUnmarked(s, s'.(relays := s'.relays - {r}), rows, |rows|)
  {
    ShippingUndone(s, r, rows, |rows|);
    assert rows[..|rows|] == rows;
  }

  /** The effect of the relay's commit. */
  function Marked(s: State, r: nat, ids: seq<nat>): State {
    s.(relays := s.relays - {r}, outbox := MarkAll(s.outbox, ids), marks := s.marks + ids)
  }

  ghost predicate Holds(outbox: map<nat, OutboxRow>, id: nat, row: OutboxRow) {
    id in outbox && outbox[id].(published := row.published) == row
  }

  /** The claimed rows exist; those produced are on the bus. */
  lemma ClaimIsCommitted(cfg: Config, s0: State, s: State, r: nat)
    requires Since(cfg, s0, s) && r in s.relays
    ensures forall i | i in s.relays[r].claimed :: i in s.outbox && !s.outbox[i].published
    ensures s.relays[r].produced == |s.relays[r].claimed| ==> forall i | i in s.relays[r].claimed :: OnBus(s.bus, i)
  {
    hide Reaches, Keeps, Paired, AuditKeysFresh, OutboxKeysFresh;
    assert ClaimSound(s.relays[r], s.outbox, s.bus);
  }

  /** What was read of the claimed rows is what they hold. */
  ghost predicate Scanned(claimed: seq<(nat, OutboxRow)>, ids: seq<nat>, outbox: map<nat, OutboxRow>) {
    |claimed| == |ids| && forall k | 0 <= k < |ids| ::
      claimed[k].0 == ids[k] && Holds(outbox, ids[k], claimed[k].1)
  }

  lemma CommitIsNew(cfg: Config, s0: State, s: State, p: nat)
    requires Since(cfg, s0, s) && Enabled(cfg, s, CommitPublish(p))
    ensures s.publishers[p].outbox.value.0 !in s0.outbox
    ensures s.publishers[p].headers.Some? ==>
              Wrote(cfg, Apply(cfg, s, CommitPublish(p)), s.publishers[p].outbox.value.0, s.publishers[p].verdict,
                    s.publishers[p].headers.value)
  {
    hide Reaches, Paired, ClaimsSound, MarksSound, BusSound, ClaimsDisjoint;
  }

  /** Row `i` holds the verdict, still to be published, and is paired with its audit row. */
  ghost predicate Wrote(cfg: Config, s: State, i: nat, v: Verdict, headers: Headers) {
    && i in s.outbox && i in s.link && s.link[i] in s.audit
    && s.outbox[i] == OutboxRow(cfg.topic, v.organizationId, v, Some(headers), false)
    && s.audit[s.link[i]] ==
       AuditRow(v.submissionId, v.organizationId, v.decision, v.source, v.rulesetVersion, |v.findings|)
  }

  /** The records of the given rows, in order. */
  function Records(outbox: map<nat, OutboxRow>, ids: seq<nat>): seq<Record>
  {
    if ids == [] then []
    else
      var last := ids[|ids| - 1];
      Records(outbox, ids[..|ids| - 1]) + if last in outbox then [Shipped(last, outbox[last])] else []
  }

  lemma NoRows(s: State)
    ensures AfterBatch(s, []) == s
  {
    assert MarkAll(s.outbox, []) == s.outbox && Records(s.outbox, []) == [];
  }

  lemma {:induction false} RecordsMeaning(outbox: map<nat, OutboxRow>, ids: seq<nat>)
    requires forall i | i in ids :: i in outbox
    ensures |Records(outbox, ids)| == |ids|
    ensures forall k | 0 <= k < |ids| ::
              Records(outbox, ids)[k] == Shipped(ids[k], outbox[ids[k]]) && Records(outbox, ids)[k].rowId == ids[k]
  {
    if ids == [] {
    } else {
      RecordsMeaning(outbox, ids[..|ids| - 1]);
    }
  }

  lemma ClaimExists(s: State, batch: nat)
    ensures forall i | i in SelectPending(s, 0, batch) :: i in s.outbox
  {
    SelectPendingMeaning(s, 0, batch);
    hide SelectPending, Locked, Increasing;
    assert forall i | i in SelectPending(s, 0, batch) :: Available(s, i);
  }

  /** What an undisturbed batch comes to, record by record, row by row and field by field. */
  lemma BatchMeaning(cfg: Config, s: State, batch: nat)
    requires Inv(cfg, s)
    ensures var rows := SelectPending(s, 0, batch); ShippedAndMarked(cfg, s, AfterBatch(s, rows), rows)
  {
    var rows := SelectPending(s, 0, batch);
    var recs := Records(s.outbox, rows);
    ClaimExists(s, batch);
    RowsAreTheirVerdicts(cfg, s);
    RecordsMeaning(s.outbox, rows);
    forall id, row: OutboxRow | row.topic == cfg.topic && row.key == row.payload.organizationId
      ensures Shipped(id, row).rowId == id && Carries(cfg, Shipped(id, row), row)
    {
    }
    hide *;
    forall k | 0 <= k < |rows|
      ensures rows[k] in s.outbox && (s.bus + recs)[|s.bus| + k].rowId == rows[k]
              && Carries(cfg, (s.bus + recs)[|s.bus| + k], s.outbox[rows[k]])
    {
      TailAt(s.bus, recs, k);
      assert rows[k] in rows;
    }
    AfterBatchBus(s, rows);
    BatchMarks(s, rows);
    ItIsShippedAndMarked(cfg, s, AfterBatch(s, rows), rows);
  }

  lemma ItIsShippedAndMarked(cfg: Config, s: State, s': State, rows: seq<nat>)
    requires |s'.bus| == |s.bus| + |rows|
    requires forall k | 0 <= k < |rows| ::
               && rows[k] in s.outbox && s'.bus[|s.bus| + k].rowId == rows[k]
               && Carries(cfg, s'.bus[|s.bus| + k], s.outbox[rows[k]])
    requires s'.outbox.Keys == s.outbox.Keys
    requires forall i | i in s.outbox ::
               s'.outbox[i] == s.outbox[i].(published := s.outbox[i].published || i in rows)
    ensures ShippedAndMarked(cfg, s, s', rows)
  {
    hide Carries;
  }

  lemma AfterBatchBus(s: State, rows: seq<nat>)
    ensures AfterBatch(s, rows).bus == s.bus + Records(s.outbox, rows)
  {
  }

  lemma TailAt<T>(a: seq<T>, b: seq<T>, k: nat)
    requires k < |b|
    ensures (a + b)[|a| + k] == b[k]
  {
  }

  /** What it does to the table. */
  lemma BatchMarks(s: State, rows: seq<nat>)
    ensures var outbox := AfterBatch(s, rows).outbox;
      && outbox.Keys == s.outbox.Keys
      && forall i | i in s.outbox ::
           outbox[i] == s.outbox[i].(published := s.outbox[i].published || i in rows)
  {
    hide Records;
  }

  /** Records of the first rows of a list, put on a bus. */
  lemma PartAppended(bus: seq<Record>, part: seq<Record>, rows: seq<nat>)
    requires |part| <= |rows| && forall k | 0 <= k < |part| :: part[k].rowId == rows[k]
    ensures forall k | |bus| <= k < |bus + part| :: (bus + part)[k].rowId == rows[k - |bus|]
  {
  }

  lemma FirstRecords(s: State, rows: seq<nat>, sent: nat)
    requires sent <= |rows| && forall i | i in rows :: i in s.outbox
    ensures PartOnBus(s, s.(bus := s.bus + Records(s.outbox, rows[..sent])), rows)
  {
    assert forall i | i in rows[..sent] :: i in rows;
    RecordsMeaning(s.outbox, rows[..sent]);
    hide *;
    var part := Records(s.outbox, rows[..sent]);
    assert forall k | 0 <= k < sent :: part[k].rowId == rows[..sent][k] == rows[k];
    PartAppended(s.bus, part, rows);
    ItIsPart(s, s.(bus := s.bus + part), rows);
  }

  /** A part of the claim that was shipped. */
  lemma PartMeaning(cfg: Config, s: State, batch: nat, sent: nat)
    requires Inv(cfg, s) && sent <= |SelectPending(s, 0, batch)|
    ensures var rows := SelectPending(s, 0, batch);
      && PartOnBus(s, s.(bus := s.bus + Records(s.outbox, rows[..sent])), rows)
      && (sent == |rows| ==> PartOnBus(s, AfterBatch(s, rows), rows))
  {
    var rows := SelectPending(s, 0, batch);
    ClaimExists(s, batch);
    hide *;
    FirstRecords(s, rows, sent);
    FirstRecords(s, rows, |rows|);
    assert rows[..|rows|] == rows;
    AfterBatchBus(s, rows);
    SameBusPart(s, s.(bus := s.bus + Records(s.outbox, rows)), AfterBatch(s, rows), rows);
  }

  lemma SameBusPart(s: State, s1: State, s2: State, rows: seq<nat>)
    requires PartOnBus(s, s1, rows) && s1.bus == s2.bus
    ensures PartOnBus(s, s2, rows)
  {
  }

  lemma ItIsPart(s: State, s': State, rows: seq<nat>)
    requires |s.bus| <= |s'.bus| <= |s.bus| + |rows|
    requires forall k | |s.bus| <= k < |s'.bus| :: s'.bus[k].rowId == rows[k - |s.bus|]
    ensures PartOnBus(s, s', rows)
  {
  }

  /** The effect of one undisturbed relay transaction that claimed `ids`. */
  function AfterBatch(s: State, ids: seq<nat>): State {
    s.(bus := s.bus + Records(s.outbox, ids), outbox := MarkAll(s.outbox, ids), marks := s.marks + ids)
  }
}
