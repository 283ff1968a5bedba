/** The relay loop: defaults, and how fast undisturbed ticks empty the outbox. */
module RelayLoop {
  import opened OutboxProtocol
  import opened OutboxStore
  import opened Sorting

  type Positive = n: int | n > 0 witness 1

  /** All rows a relay could claim, in id order. */
  function Pending(s: State): seq<nat> {
    SelectPending(s, 0, s.nextId)
  }

  function Min(a: nat, b: nat): nat {
    if a < b then a else b
  }

  lemma {:induction false} SelectTakes(s: State, from: nat, m: nat, n: nat)
    requires m <= n
    ensures var all := SelectPending(s, from, n); SelectPending(s, from, m) == all[..Min(m, |all|)]
    decreases s.nextId - from
  {
    if m == 0 || from >= s.nextId {
    } else {
      if Available(s, from) {
        SelectTakes(s, from + 1, m - 1, n - 1);
      } else {
        SelectTakes(s, from + 1, m, n);
      }
    }
  }

  lemma {:induction false} IncreasingAtLeast(ids: seq<nat>, k: nat)
    requires Increasing(ids) && k < |ids|
    ensures ids[k] >= k
  {
    if k == 0 {
    } else {
      IncreasingAtLeast(ids, k - 1);
    }
  }

  /** Nothing pending is left out. */
  lemma PendingMeaning(s: State)
    ensures Increasing(Pending(s)) && forall i: nat :: i in Pending(s) <==> i < s.nextId && Available(s, i)
  {
    var ids := Pending(s);
    SelectPendingMeaning(s, 0, s.nextId);
    if ids != [] {
      IncreasingAtLeast(ids, |ids| - 1);
    }
  }

  /** One undisturbed transaction takes the first rows off the pending list. */
  lemma BatchTakesFirst(s: State, m: nat)
    requires m <= |Pending(s)|
    ensures Pending(AfterBatch(s, Pending(s)[..m])) == Pending(s)[m..]
  {
    var all := Pending(s);
    var s' := AfterBatch(s, all[..m]);
    PendingMeaning(s);
    PendingMeaning(s');
    assert all == all[..m] + all[m..];
    forall i: nat ensures i in all[m..] <==> i in Pending(s') {
      assert i in all <==> i in all[..m] || i in all[m..];
      assert Locked(s', i) <==> Locked(s, i);
      assert i in s.outbox ==> s'.outbox[i].published == (s.outbox[i].published || i in all[..m]);
      if i in all[m..] {
        var k :| m <= k < |all| && all[k] == i;
      }
    }
    StrictUnique((a: nat, b: nat) => a < b, Pending(s'), all[m..]);
  }

  lemma {:induction false} RecordsConcat(outbox: map<nat, OutboxRow>, a: seq<nat>, b: seq<nat>)
    ensures Records(outbox, a + b) == Records(outbox, a) + Records(outbox, b)
  {
    if b == [] {
      assert a + b == a;
    } else {
      assert (a + b)[..|a + b| - 1] == a + b[..|b| - 1];
      RecordsConcat(outbox, a, b[..|b| - 1]);
    }
  }

  /** Marking rows does not change what would be shipped. */
  lemma {:induction false} RecordsIgnoreMarks(outbox: map<nat, OutboxRow>, marked: seq<nat>, ids: seq<nat>)
    ensures Records(MarkAll(outbox, marked), ids) == Records(outbox, ids)
  {
    if ids == [] {
    } else {
      RecordsIgnoreMarks(outbox, marked, ids[..|ids| - 1]);
    }
  }

  /** After `total` undisturbed shipments from `s0`: those rows are off the pending list and on the bus, in id order. */
  ghost predicate Progress(s0: State, s: State, total: nat) {
    && total <= |Pending(s0)| && Pending(s) == Pending(s0)[total..]
    && s.bus == s0.bus + Records(s0.outbox, Pending(s0)[..total])
    && forall ids :: Records(s.outbox, ids) == Records(s0.outbox, ids)
  }

  /** A claim takes the first rows of the pending list. */
  lemma ClaimTakesFirst(s: State, batch: nat)
    ensures SelectPending(s, 0, batch) == Pending(s)[..Min(batch, |Pending(s)|)]
  {
    if batch <= s.nextId {
      SelectTakes(s, 0, batch, s.nextId);
    } else {
      var ids := SelectPending(s, 0, batch);
      SelectTakes(s, 0, s.nextId, batch);
      SelectPendingMeaning(s, 0, batch);
      if ids != [] {
        IncreasingAtLeast(ids, |ids| - 1);
      }
    }
  }

  lemma ProgressByBatch(s0: State, s: State, total: nat, m: nat)
    requires Progress(s0, s, total) && m <= |Pending(s)|
    ensures Progress(s0, AfterBatch(s, Pending(s)[..m]), total + m)
  {
    var all, now := Pending(s0), Pending(s);
    var s' := AfterBatch(s, now[..m]);
    BatchTakesFirst(s, m);
    hide Pending;
    assert now[m..] == all[total + m..];
    assert all[..total + m] == all[..total] + now[..m];
    RecordsConcat(s0.outbox, all[..total], now[..m]);
    forall ids ensures Records(s'.outbox, ids) == Records(s0.outbox, ids) {
      RecordsIgnoreMarks(s.outbox, now[..m], ids);
    }
  }

  class Relay {
    const store: Store
    const interval: Positive
    const batch: Positive

    /** NewRelay: non-positive settings fall back to 500 ms and 100 rows. */
    constructor (store: Store, interval: int, batch: int)
      ensures this.store == store
      ensures (interval > 0 ==> this.interval == interval) && (interval <= 0 ==> this.interval == 500)
      ensures (batch > 0 ==> this.batch == batch) && (batch <= 0 ==> this.batch == 100)
    {
      this.store := store;
      this.interval := if interval <= 0 then 500 else interval;
      this.batch := if batch <= 0 then 100 else batch;
    }

    ghost predicate Calm(faults: RelayFaults, others: Others) {
      Idle(others) && faults == NO_FAULTS
    }

    /** One tick: errors are dropped, the next tick retries. */
    method Tick(r: nat, faults: RelayFaults, others: Others, ghost s0: State)
      requires Since(store.db.cfg, s0, store.db.s) && r !in store.db.s.relays && SparesRelay(store.db.cfg, r, others)
      modifies store.db
      ensures Since(store.db.cfg, s0, store.db.s) && r !in store.db.s.relays
      ensures Calm(faults, others) ==>
                var s := old(store.db.s); store.db.s == AfterBatch(s, Pending(s)[..Min(batch, |Pending(s)|)])
    {
      hide Inv, Keeps, Reaches, SparesRelay, Pending, SelectPending, AfterBatch;
      ghost var s := store.db.s;
      var n, err, rows := store.PublishPending(r, batch, faults, others);
      SinceOn(store.db.cfg, s0, s, store.db.s);
      ClaimTakesFirst(s, batch);
    }

    /** The first `ticks` turns of Run. Without faults and disturbance each tick ships the next
        min(batch, pending) rows, and the outbox is empty after exactly ceil(pending / batch) of them. */
    method Run(r: nat, ticks: nat, faults: nat -> RelayFaults, others: nat -> Others)
      requires Inv(store.db.cfg, store.db.s) && r !in store.db.s.relays
      requires forall t :: SparesRelay(store.db.cfg, r, others(t))
      modifies store.db
      ensures Since(store.db.cfg, old(store.db.s), store.db.s) && r !in store.db.s.relays
      ensures (forall t :: Calm(faults(t), others(t))) ==>
                && Progress(old(store.db.s), store.db.s, Min(ticks * batch, |Pending(old(store.db.s))|))
                && (Pending(store.db.s) == [] <==> ticks >= (|Pending(old(store.db.s))| + batch - 1) / batch)
    {
      hide Inv, Keeps, Reaches, SparesRelay, Pending, SelectPending, Legal, OutboxProtocol.Run, Calm, Since, AfterBatch;
      ghost var s0 := store.db.s;
      ghost var k := |Pending(s0)|;
      ghost var calm := forall t :: Calm(faults(t), others(t));
      SinceItself(store.db.cfg, s0);
      ProgressNone(s0);
      for t := 0 to ticks
        invariant Since(store.db.cfg, s0, store.db.s) && r !in store.db.s.relays
        invariant calm ==> Progress(s0, store.db.s, Min(t * batch, k))
      {
        hide Progress;
        ghost var s := store.db.s;
        Tick(r, faults(t), others(t), s0);
        if calm {
          ProgressByBatch(s0, s, Min(t * batch, k), Min(batch, |Pending(s)|));
          NextTotal(t, batch, k);
          ProgressLeaves(s0, s, Min(t * batch, k));
        }
      }
      if calm {
        DrainsInCeilTicks(s0, store.db.s, batch, ticks);
      }
    }
  }

  lemma ProgressNone(s: State)
    ensures Progress(s, s, 0)
  {
    assert Pending(s)[0..] == Pending(s) && Pending(s)[..0] == [];
  }

  lemma ProgressLeaves(s0: State, s: State, total: nat)
    requires Progress(s0, s, total)
    ensures |Pending(s)| == |Pending(s0)| - total
  {
  }

  lemma NextTotal(t: int, batch: nat, k: nat)
    requires t >= 0
    ensures Min((t + 1) * batch, k) == Min(t * batch, k) + Min(batch, k - Min(t * batch, k))
  {
    assert (t + 1) * batch == t * batch + batch;
  }

  lemma CeilReached(k: nat, batch: Positive, ticks: nat)
    ensures Min(ticks * batch, k) == k <==> ticks >= (k + batch - 1) / batch
  {
    var q := (k + batch - 1) / batch;
    assert q * batch <= k + batch - 1 < (q + 1) * batch;
    if ticks >= q {
      assert ticks * batch >= q * batch by { MulMonotone(q, ticks, batch); }
      assert (q + 1) * batch == q * batch + batch;
    } else {
      MulMonotone(ticks, q - 1, batch);
      assert (q - 1) * batch == q * batch - batch;
    }
  }

  /** The outbox is empty after exactly ceil(k / batch) undisturbed ticks, k being the rows pending at the start. */
  lemma DrainsInCeilTicks(s0: State, s: State, batch: Positive, ticks: nat)
    requires Progress(s0, s, Min(ticks * batch, |Pending(s0)|))
    ensures Pending(s) == [] <==> ticks >= (|Pending(s0)| + batch - 1) / batch
  {
    ProgressLeaves(s0, s, Min(ticks * batch, |Pending(s0)|));
    CeilReached(|Pending(s0)|, batch, ticks);
  }

  lemma MulMonotone(a: nat, b: nat, c: nat)
    requires a <= b
    ensures a * c <= b * c
  {
  }
}
