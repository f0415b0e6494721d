/** Invariants of every run of the daemon, under arbitrary failures. */
module DaemonLaws {
  import opened Seqs
  import opened Calls
  import opened Actions
  import opened ActionLaws
  import opened Sidecar
  import opened Pipeline
  import opened EmissionLaws
  import opened ProcessLaws
  import opened Poller
  import opened Daemon

  // ----- What the history says of each message -----

  /** The Message-IDs whose ledger row was stored, once for each attempt that stored it. */
  function Recorded(history: seq<Attempt>): multiset<string> {
    if history == [] then multiset{}
    else
      var a := history[|history| - 1];
      Recorded(history[..|history| - 1]) + (if a.recorded then multiset{a.env.mid} else multiset{})
  }

  /** The Message-IDs of attempts that failed before the ledger row. */
  function FailedEarly(history: seq<Attempt>): multiset<string> {
    if history == [] then multiset{}
    else
      var a := history[|history| - 1];
      FailedEarly(history[..|history| - 1])
      + (if a.outcome.Failed? && !a.recorded then multiset{a.env.mid} else multiset{})
  }

  /** The Message-IDs whose processing completed. */
  function Completed(history: seq<Attempt>): multiset<string> {
    if history == [] then multiset{}
    else
      var a := history[|history| - 1];
      Completed(history[..|history| - 1]) + (if a.outcome.Processed? then multiset{a.env.mid} else multiset{})
  }

  /** A past attempt as the present tables show it. */
  ghost predicate AttemptHolds(s: Settings, db: Db, a: Attempt) {
    && (a.outcome.Failed? ==> a.outcome.failure == Io)
    && (forall f :: f in a.unaudited ==> f == Io)
    && (a.recorded ==>
          && a.env.mid in Ledger(db) && NativeTagsFirst(s, a.env, a.tags)
          && a.plan == Consolidate(Resolved(a.tags, s.actions)) && a.ran == |a.plan|)
    && (a.outcome.Processed? ==>
          && a.recorded
          && AuditOf(db, a.env.mid)
             == Audit(TagRows(a.tags, a.env.mid), ActionRows(a.plan, a.env.mid), FiredRows(s, a.env)))
  }

  ghost predicate CountsHold(base: World, w: World, history: seq<Attempt>) {
    forall m ::
      && (m in Ledger(w.db) <==> m in Ledger(base.db) || Recorded(history)[m] > 0)
      && Recorded(history)[m] <= (if m in Ledger(base.db) then 0 else 1)
      && Completed(history)[m] <= Recorded(history)[m]
      && w.llmCalls[m] <= base.llmCalls[m] + FailedEarly(history)[m] + Recorded(history)[m]
  }

  ghost predicate DeliveriesHold(base: World, w: World) {
    && base.deliveries <= w.deliveries
    && Distinct(w.deliveries[|base.deliveries|..])
    && (forall d :: d in w.deliveries[|base.deliveries|..] ==> d.mid in Ledger(w.db) && d.mid !in Ledger(base.db))
  }

  /** What holds in every reachable state. */
  ghost predicate Invariant(s: Settings, base: World, w: World, history: seq<Attempt>) {
    && Sound(w.db)
    && CountsHold(base, w, history)
    && DeliveriesHold(base, w)
    && (forall a :: a in history ==> AttemptHolds(s, w.db, a))
  }

  lemma InvariantStarts(s: Settings, base: World)
    requires Sound(base.db)
    ensures Invariant(s, base, base, [])
  {
    assert base.deliveries[|base.deliveries|..] == [];
  }

  lemma CountsStep(s: Settings, base: World, w: World, history: seq<Attempt>, env: Envelope, p: Processing)
    requires CountsHold(base, w, history) && Step(s, env, w, p)
    requires Ledger(base.db) <= Ledger(w.db)
    ensures CountsHold(base, p.w, history + [p.attempt])
  {
    hide AuditOf, Conserved, Sound;
    assert (history + [p.attempt])[..|history|] == history;
    hide Recorded, FailedEarly, Completed;
    var a := p.attempt;
    CountsOfOneMore(history, a);
    if !a.recorded && !a.outcome.Failed? {
      assert a.outcome.AlreadyProcessed?;
    }
  }

  lemma CountsOfOneMore(history: seq<Attempt>, a: Attempt)
    ensures Recorded(history + [a]) == Recorded(history) + (if a.recorded then multiset{a.env.mid} else multiset{})
    ensures FailedEarly(history + [a])
         == FailedEarly(history) + (if a.outcome.Failed? && !a.recorded then multiset{a.env.mid} else multiset{})
    ensures Completed(history + [a])
         == Completed(history) + (if a.outcome.Processed? then multiset{a.env.mid} else multiset{})
  {
    assert (history + [a])[..|history|] == history;
  }

  lemma DeliveriesStep(s: Settings, base: World, w: World, env: Envelope, p: Processing)
    requires DeliveriesHold(base, w) && Step(s, env, w, p) && Ledger(base.db) <= Ledger(w.db)
    ensures DeliveriesHold(base, p.w)
  {
    hide AuditOf, Conserved, Sound, Wanted, HookNames;
    var old_, more := w.deliveries[|base.deliveries|..], p.w.deliveries[|w.deliveries|..];
    var all := p.w.deliveries[|base.deliveries|..];
    assert all == old_ + more;
    if more != [] {
      assert p.attempt.recorded;
      forall i, j | 0 <= i < j < |all| ensures all[i] != all[j] {
        if i < |old_| <= j {
          assert old_[i] in old_ && more[j - |old_|] in more;
        }
      }
    } else {
      assert all == old_;
    }
  }

  lemma AttemptsStep(s: Settings, w: World, history: seq<Attempt>, env: Envelope, p: Processing)
    requires forall a :: a in history ==> AttemptHolds(s, w.db, a)
    requires Step(s, env, w, p)
    ensures forall a :: a in history + [p.attempt] ==> AttemptHolds(s, p.w.db, a)
  {
    hide NativeTagsFirst, AuditOf, Conserved, Sound, FiredRows, TagRows, ActionRows, Consolidate, Resolved;
    forall a | a in history ensures AttemptHolds(s, p.w.db, a) {
      assert AttemptHolds(s, w.db, a);
      assert a.recorded && p.attempt.recorded ==> a.env.mid != env.mid;
    }
    assert AttemptHolds(s, p.w.db, p.attempt);
  }

  lemma InvariantStep(s: Settings, base: World, w: World, history: seq<Attempt>, env: Envelope, account: nat, o: Oracle)
    requires Invariant(s, base, w, history) && 1 <= account <= |w.db.accounts|
    ensures var p := Process(s, env, account, w, o); Invariant(s, base, p.w, history + [p.attempt])
  {
    hide Process, Step, CountsHold, DeliveriesHold, AttemptHolds, Sound;
    var p := Process(s, env, account, w, o);
    ProcessSteps(s, env, account, w, o);
    LedgerGrows(base, w, history);
    StepIsSound(s, env, w, p);
    CountsStep(s, base, w, history, env, p);
    DeliveriesStep(s, base, w, env, p);
    AttemptsStep(s, w, history, env, p);
  }

  lemma LedgerGrows(base: World, w: World, history: seq<Attempt>)
    requires CountsHold(base, w, history)
    ensures Ledger(base.db) <= Ledger(w.db)
  {
    hide Ledger;
  }

  lemma StepIsSound(s: Settings, env: Envelope, w: World, p: Processing)
    requires Step(s, env, w, p)
    ensures Sound(p.w.db) && p.w.tick > w.tick && p.w.db.accounts == w.db.accounts
  {
  }

  // ----- Batches, cycles, runs -----

  lemma {:induction false} InvariantOfBatch(s: Settings, base: World, w: World, history: seq<Attempt>,
                                            envelopes: seq<Envelope>, account: nat, o: Oracle)
    requires Invariant(s, base, w, history) && 1 <= account <= |w.db.accounts|
    ensures var b := ProcessAll(s, envelopes, account, w, o); Invariant(s, base, b.w, history + b.attempts)
  {
    hide Process, Invariant;
    if envelopes == [] {
      assert history + [] == history;
    } else {
      var front, env := envelopes[..|envelopes| - 1], envelopes[|envelopes| - 1];
      var b := ProcessAll(s, front, account, w, o);
      InvariantOfBatch(s, base, w, history, front, account, o);
      ProcessAllKeepsAccounts(s, front, account, w, o);
      InvariantStep(s, base, b.w, history + b.attempts, env, account, o);
      assert history + (b.attempts + [Process(s, env, account, b.w, o).attempt])
          == history + b.attempts + [Process(s, env, account, b.w, o).attempt];
    }
  }

  /** New accounts, watermarks, time and another mail server leave the invariant alone. */
  lemma InvariantElsewhere(s: Settings, base: World, w: World, history: seq<Attempt>, w': World)
    requires Invariant(s, base, w, history)
    requires w'.db == w.db.(accounts := w'.db.accounts) && |w'.db.accounts| >= |w.db.accounts|
    requires w'.llmCalls == w.llmCalls && w'.deliveries == w.deliveries
    ensures Invariant(s, base, w', history)
  {
    assert Ledger(w'.db) == Ledger(w.db);
    assert Sound(w'.db);
    assert CountsHold(base, w', history);
    assert DeliveriesHold(base, w');
    forall a | a in history ensures AttemptHolds(s, w'.db, a) {
      assert AttemptHolds(s, w.db, a);
      assert AuditOf(w'.db, a.env.mid) == AuditOf(w.db, a.env.mid);
    }
  }

  lemma InvariantOfHanding(s: Settings, base: World, w: World, history: seq<Attempt>, acct: AccountConfig, id: nat,
                           report: Report, o: Oracle)
    requires Invariant(s, base, w, history) && 1 <= id <= |w.db.accounts|
    ensures var c := Handing(s, acct, id, report, w, o); Invariant(s, base, c.w, history + c.attempts)
  {
    hide Invariant;
    var b := ProcessAll(s, report.handed, id, w, o);
    InvariantOfBatch(s, base, w, history, report.handed, id, o);
    ProcessAllKeepsAccounts(s, report.handed, id, w, o);
    InvariantElsewhere(s, base, b.w, history + b.attempts, Handing(s, acct, id, report, w, o).w);
  }

  /** One cycle keeps the invariant, wherever it stops. */
  lemma InvariantOfCycle(s: Settings, base: World, w: World, history: seq<Attempt>, acct: AccountConfig,
                         archive: seq<Envelope>, o: Oracle)
    requires Invariant(s, base, w, history)
    ensures var c := Cycle(s, acct, archive, w, o); Invariant(s, base, c.w, history + c.attempts)
  {
    hide Invariant, Handing, Sweeping, PollResult, Window;
    var r := Registering(acct, w, o);
    InvariantElsewhere(s, base, w, history, r.w);
    var c := Cycle(s, acct, archive, w, o);
    assert history + [] == history;
    if r.id.Some? && acct.bichonId.Some? && o(r.w.tick).fault == Fine {
      var cursor := r.w.db.accounts[r.id.value - 1].cursor;
      var watermark := if cursor.Some? then cursor.value else o(r.w.tick).now;
      var w1 := r.w.(tick := r.w.tick + 1);
      var window := Window(archive, Since(watermark));
      var sweep := Sweeping(|window|, w1.tick, o);
      InvariantElsewhere(s, base, r.w, history, w1.(tick := sweep.tick));
      InvariantElsewhere(s, base, r.w, history, w1.(tick := sweep.tick + 1));
      if sweep.ok && o(sweep.tick).fault == Fine {
        var report := Report(acct.name, cursor.None?, watermark, window, PollResult(archive, watermark).envelopes);
        InvariantOfHanding(s, base, w1.(tick := sweep.tick + 1), history, acct, r.id.value, report, o);
      }
    } else if r.id.Some? && acct.bichonId.Some? {
      InvariantElsewhere(s, base, r.w, history, r.w.(tick := r.w.tick + 1));
    }
  }

  /** Every reachable state satisfies the invariant. */
  lemma {:induction false} InvariantOfRun(s: Settings, start: System, events: seq<Event>, o: Oracle)
    requires Initial(start)
    ensures var sys := RunOf(s, start, events, o); Invariant(s, start.w, sys.w, sys.history)
  {
    hide Invariant, Cycle;
    if events == [] {
      InvariantStarts(s, start.w);
    } else {
      var front, event := events[..|events| - 1], events[|events| - 1];
      var sys := RunOf(s, start, front, o);
      InvariantOfRun(s, start, front, o);
      if event.Poll? {
        var w := sys.w.(mail := ServerOf(sys, event.acct.name));
        InvariantElsewhere(s, start.w, sys.w, sys.history, w);
        InvariantOfCycle(s, start.w, w, sys.history, event.acct, ArchiveOf(sys, event.acct.name), o);
      }
    }
  }

  // ----- What every run guarantees -----

  /** Triage happens at most once: one ledger row and one completed processing a message,
      and none for a message the sidecar already knew. */
  lemma AtMostOnce(s: Settings, start: System, events: seq<Event>, o: Oracle, mid: string)
    requires Initial(start)
    ensures var sys := RunOf(s, start, events, o);
      && Completed(sys.history)[mid] <= Recorded(sys.history)[mid] <= 1
      && (mid in Ledger(start.w.db) ==> Recorded(sys.history)[mid] == 0)
      && (forall i, j :: 0 <= i < j < |sys.w.db.messages| ==> sys.w.db.messages[i].mid != sys.w.db.messages[j].mid)
  {
    InvariantOfRun(s, start, events, o);
  }

  lemma {:induction false} RecordedMeansAttempt(history: seq<Attempt>, mid: string)
    requires Recorded(history)[mid] > 0
    ensures exists a :: a in history && a.env.mid == mid && a.recorded
  {
    var last := history[|history| - 1];
    if last.recorded && last.env.mid == mid {
      assert last in history;
    } else {
      RecordedMeansAttempt(history[..|history| - 1], mid);
    }
  }

  /** The attempt stored the message's ledger row after running, to the end, the
      consolidated actions of its tags. */
  ghost predicate ActedOn(s: Settings, a: Attempt, mid: string) {
    && a.env.mid == mid && a.recorded && NativeTagsFirst(s, a.env, a.tags)
    && a.plan == Consolidate(Resolved(a.tags, s.actions)) && a.ran == |a.plan|
  }

  /** A ledger row is stored only after the whole consolidated action list of its message ran. */
  lemma LedgerMeansActed(s: Settings, start: System, events: seq<Event>, o: Oracle, mid: string)
    requires Initial(start)
    requires mid in Ledger(RunOf(s, start, events, o).w.db) && mid !in Ledger(start.w.db)
    ensures exists a :: a in RunOf(s, start, events, o).history && ActedOn(s, a, mid)
  {
    InvariantOfRun(s, start, events, o);
    RecordedMeansAttempt(RunOf(s, start, events, o).history, mid);
    var sys := RunOf(s, start, events, o);
    var a :| a in sys.history && a.env.mid == mid && a.recorded;
    assert AttemptHolds(s, sys.w.db, a);
    assert ActedOn(s, a, mid);
  }

  /** No insert ever violates a key and no copy or move addresses a missing folder: every
      failure came from outside, those of webhook audit inserts included, which fail no attempt. */
  lemma OnlyTheOutsideFails(s: Settings, start: System, events: seq<Event>, o: Oracle, a: Attempt)
    requires Initial(start) && a in RunOf(s, start, events, o).history
    ensures a.outcome.Failed? ==> a.outcome.failure == Io
    ensures forall f :: f in a.unaudited ==> f == Io
  {
    InvariantOfRun(s, start, events, o);
    assert AttemptHolds(s, RunOf(s, start, events, o).w.db, a);
  }

  /** Every audit row refers to a ledger row; and the audit trail of a processed message is,
      in every later state, exactly its tags, its executed actions in order, and the filters
      that fired. */
  lemma AuditIntegrity(s: Settings, start: System, events: seq<Event>, o: Oracle, a: Attempt)
    requires Initial(start) && a in RunOf(s, start, events, o).history && a.outcome.Processed?
    ensures var db := RunOf(s, start, events, o).w.db;
      && AuditIsSound(db)
      && AuditOf(db, a.env.mid) == Audit(TagRows(a.tags, a.env.mid), ActionRows(a.plan, a.env.mid), FiredRows(s, a.env))
      && a.plan == Consolidate(Resolved(a.tags, s.actions))
  {
    InvariantOfRun(s, start, events, o);
    assert AttemptHolds(s, RunOf(s, start, events, o).w.db, a);
  }

  /** The model is called for a message at most once more than its attempts that failed
      before the ledger row: the cache never spares a call. */
  lemma ModelCallsAreBounded(s: Settings, start: System, events: seq<Event>, o: Oracle, mid: string)
    requires Initial(start) && start.w.llmCalls == multiset{}
    ensures var sys := RunOf(s, start, events, o);
      && sys.w.llmCalls[mid] <= FailedEarly(sys.history)[mid] + 1
      && (mid !in Ledger(sys.w.db) ==> sys.w.llmCalls[mid] <= FailedEarly(sys.history)[mid])
  {
    InvariantOfRun(s, start, events, o);
  }

  /** The dashboard's cache hits: decisions less distinct (message, prompt) pairs. */
  function CacheHits(db: Db): int {
    |db.decisions| - |set d | d in db.decisions :: (d.mid, d.promptHash)|
  }

  lemma {:induction false} DistinctPairs(decisions: seq<DecisionRow>)
    requires forall i, j :: 0 <= i < j < |decisions| ==> decisions[i].mid != decisions[j].mid
    ensures |set d | d in decisions :: (d.mid, d.promptHash)| == |decisions|
  {
    if decisions != [] {
      var front, last := decisions[..|decisions| - 1], decisions[|decisions| - 1];
      DistinctPairs(front);
      var before := set d | d in front :: (d.mid, d.promptHash);
      assert decisions == front + [last];
      assert (set d | d in decisions :: (d.mid, d.promptHash)) == before + {(last.mid, last.promptHash)};
      assert (last.mid, last.promptHash) !in before;
    }
  }

  /** There is at most one decision a message, so the dashboard never shows a hit. */
  lemma NoCacheHits(s: Settings, start: System, events: seq<Event>, o: Oracle)
    requires Initial(start)
    ensures CacheHits(RunOf(s, start, events, o).w.db) == 0
  {
    InvariantOfRun(s, start, events, o);
    DistinctPairs(RunOf(s, start, events, o).w.db.decisions);
  }

  /** Over a whole run no webhook is delivered twice for the same message. */
  lemma WebhooksFireOnce(s: Settings, start: System, events: seq<Event>, o: Oracle)
    requires Initial(start) && start.w.deliveries == []
    ensures Distinct(RunOf(s, start, events, o).w.deliveries)
  {
    InvariantOfRun(s, start, events, o);
    var w := RunOf(s, start, events, o).w;
    assert w.deliveries[0..] == w.deliveries;
  }
}
