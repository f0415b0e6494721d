/** The dry run: what a poll cycle would do, planned without writing anything; and how
    far a real run does the same. */
module DryRun {
  import opened Seqs
  import opened Calls
  import opened Actions
  import opened ActionLaws
  import opened Sidecar
  import opened Pipeline
  import opened ProcessLaws
  import opened Poller
  import opened Daemon
  import opened CoverageLaws

  datatype MessagePlan =
    | WouldProcess(mid: string, subject: string, tags: seq<string>, actions: seq<string>)
    | WouldSkip(mid: string, subject: string)

  function DescribeAction(action: Action): string {
    match action
    case CopyTo(folder) => "copy_to Berger/" + folder
    case MoveTo(folder) => "move_to Berger/" + folder
    case MarkSeen => "mark_seen"
    case MarkFlagged => "mark_flagged"
  }

  function DescribeAll(actions: seq<Action>): seq<string> {
    seq(|actions|, i requires 0 <= i < |actions| => DescribeAction(actions[i]))
  }

  function PlanOf(s: Settings, env: Envelope, db: Db): MessagePlan {
    if env.mid in Ledger(db) then WouldSkip(env.mid, env.subject)
    else
      var tags := FilterTags(s.filters, s.view(env), s.rx);
      WouldProcess(env.mid, env.subject, tags, DescribeAll(Resolved(tags, s.actions)))
  }

  /** The plan read off the sidecar, or a failed read or download. */
  method PlanMessage(s: Settings, env: Envelope, store: Store) returns (r: Result<MessagePlan>)
    modifies store.net
    ensures r.Ok? ==> r.value == PlanOf(s, env, store.State())
    ensures r.Err? ==> exists t :: old(store.net.tick) <= t < store.net.tick && store.net.oracle(t).fault != Fine
    ensures store.net.tick >= old(store.net.tick)
  {
    var known := store.IsAlreadyProcessed(env.mid);
    if known.Err? { return Err(Io); }
    if known.value { return Ok(WouldSkip(env.mid, env.subject)); }
    var eml := store.net.Call();
    if eml.fault != Fine { return Err(Io); }
    var tags := RunFilters(s.filters, s.view(env), s.rx);
    var actions := ResolveActions(tags, s.actions);
    r := Ok(WouldProcess(env.mid, env.subject, tags, DescribeAll(actions)));
  }

  /** The first row with this archive id, or the number of accounts. */
  function AccountFor(accounts: seq<Account>, bichonText: string): (i: nat)
    ensures i <= |accounts|
    ensures i < |accounts| ==> accounts[i].bichonId == bichonText
    ensures forall j :: 0 <= j < i ==> accounts[j].bichonId != bichonText
  {
    if accounts == [] then 0
    else if accounts[0].bichonId == bichonText then 0
    else 1 + AccountFor(accounts[1..], bichonText)
  }

  /** The watermark on record for an archive id. */
  function CursorFor(db: Db, bichonText: string): Option<int> {
    var i := AccountFor(db.accounts, bichonText);
    if i < |db.accounts| then db.accounts[i].cursor else None
  }

  /** Where a plan polls from: the watermark on record, else the clock. A failed read counts
      as nothing on record. */
  function PlanWatermark(db: Db, bichonText: string, t: nat, o: Oracle): int {
    var cursor := CursorFor(db, bichonText);
    if o(t).fault == Fine && cursor.Some? then cursor.value else o(t + 1).now
  }

  method ReadWatermark(store: Store, bichonText: string) returns (watermark: int)
    modifies store.net
    ensures store.net.tick == old(store.net.tick) + 1
    ensures watermark == PlanWatermark(store.State(), bichonText, old(store.net.tick), store.net.oracle)
  {
    var stored := store.net.Call();
    var i := AccountFor(store.accounts, bichonText);
    watermark := store.net.Clock();
    if stored.fault == Fine && i < |store.accounts| && store.accounts[i].cursor.Some? {
      watermark := store.accounts[i].cursor.value;
    }
  }

  /** Plans one poll cycle; the sidecar and the mail server are not in its frame. */
  method PlanAccount(s: Settings, source: Source, bichonText: string, store: Store) returns (r: Result<seq<MessagePlan>>)
    requires source.net == store.net
    modifies source, store.net
    ensures r.Ok? ==>
      var watermark := PlanWatermark(store.State(), bichonText, old(store.net.tick), store.net.oracle);
      var envelopes := PollResult(source.archive, watermark).envelopes;
      |r.value| == |envelopes| && forall i :: 0 <= i < |envelopes| ==> r.value[i] == PlanOf(s, envelopes[i], store.State())
    ensures r.Err? ==> exists t :: old(store.net.tick) < t < store.net.tick && store.net.oracle(t).fault != Fine
  {
    hide Sweeping, PlanOf, PollResult, PlanWatermark;
    var watermark := ReadWatermark(store, bichonText);
    SweepRequests(|Window(source.archive, Since(watermark))|, store.net.tick, store.net.oracle);
    var outcome := PollAccount(source, watermark);
    if outcome.Err? { return Err(Io); }
    var messages := [];
    var envelopes := outcome.value.envelopes;
    for i := 0 to |envelopes|
      invariant |messages| == i && forall j :: 0 <= j < i ==> messages[j] == PlanOf(s, envelopes[j], store.State())
      invariant store.net.tick > old(store.net.tick)
    {
      var plan := PlanMessage(s, envelopes[i], store);
      if plan.Err? { return Err(Io); }
      messages := messages + [plan.value];
    }
    r := Ok(messages);
  }

  /** The plan looks an account up by its archive id, a real cycle by its name. Both find the
      same watermark on record when no other row has that archive id. */
  lemma PlansFromTheSameWatermark(db: Db, name: string, bichonText: string, i: nat)
    requires i < |db.accounts| && i == AccountAt(db.accounts, name) && db.accounts[i].bichonId == bichonText
    requires forall j :: 0 <= j < i ==> db.accounts[j].bichonId != bichonText
    ensures CursorFor(db, bichonText) == CursorOf(db, name)
  {
  }

  /** With two rows for one archive id they need not. */
  lemma SharedArchiveIdsDiffer(a: Account, b: Account, db: Db)
    requires db.accounts == [a, b] && a.name != b.name && a.bichonId == b.bichonId && a.cursor != b.cursor
    ensures CursorFor(db, b.bichonId) != CursorOf(db, b.name)
  {
    assert db.accounts[0] == a && db.accounts[1] == b;
  }

  /** A plan's line names the action as its audit row will, with the folder it writes to. */
  lemma DescribesItsRow(action: Action, mid: string)
    ensures var row := ActionRowOf(action, mid);
      DescribeAction(action) == row.kind + (if row.target.Some? then " Berger/" + row.target.value else "")
  {
    match action
    case CopyTo(folder) => assert "copy_to Berger/" + folder == "copy_to" + (" Berger/" + folder);
    case MoveTo(folder) => assert "move_to Berger/" + folder == "move_to" + (" Berger/" + folder);
    case MarkSeen => assert "mark_seen" + "" == "mark_seen";
    case MarkFlagged => assert "mark_flagged" + "" == "mark_flagged";
  }

  /** Different actions read differently, so a plan's lines determine its actions. */
  lemma DescriptionsAreFaithful(a: Action, b: Action)
    requires DescribeAction(a) == DescribeAction(b)
    ensures a == b
  {
    var x, y := DescribeAction(a), DescribeAction(b);
    assert x[0] == y[0] && x[5] == y[5];
    assert a.CopyTo? || a.MoveTo? ==> x[15..] == a.folder;
    assert b.CopyTo? || b.MoveTo? ==> y[15..] == b.folder;
  }

  // ----- The real run against the plan -----

  function Mids(envelopes: seq<Envelope>): set<string> { set e | e in envelopes :: e.mid }

  /** An attempt does what a plan said. */
  ghost predicate DoesAsPlanned(s: Settings, a: Attempt, plan: MessagePlan) {
    && plan.WouldProcess? && a.outcome.Processed?
    && a.outcome.tags == plan.tags
    && a.ran == |a.plan| && a.plan == Consolidate(Resolved(plan.tags, s.actions))
    && plan.actions == DescribeAll(Resolved(plan.tags, s.actions))
  }

  lemma {:induction false} LedgerOfBatch(s: Settings, envelopes: seq<Envelope>, account: nat, w: World, o: Oracle)
    requires Sound(w.db) && 1 <= account <= |w.db.accounts|
    requires AllFine(o, w.tick, ProcessAll(s, envelopes, account, w, o).w.tick)
    ensures Ledger(ProcessAll(s, envelopes, account, w, o).w.db) == Ledger(w.db) + Mids(envelopes)
  {
    hide ProcessAll, Sound, Ledger, Mids;
    if envelopes == [] {
      NothingProcessed(s, account, w, o);
    } else {
      var front, env := envelopes[..|envelopes| - 1], envelopes[|envelopes| - 1];
      LedgerOfOneMore(s, envelopes, account, w, o);
      LedgerOfBatch(s, front, account, w, o);
      MidsOfOneMore(front, env);
      assert envelopes == front + [env];
    }
  }

  lemma NothingProcessed(s: Settings, account: nat, w: World, o: Oracle)
    ensures ProcessAll(s, [], account, w, o).w == w && Mids([]) == {}
  {
  }

  lemma LedgerOfOneMore(s: Settings, envelopes: seq<Envelope>, account: nat, w: World, o: Oracle)
    requires Sound(w.db) && 1 <= account <= |w.db.accounts| && envelopes != []
    requires AllFine(o, w.tick, ProcessAll(s, envelopes, account, w, o).w.tick)
    ensures var b := ProcessAll(s, envelopes[..|envelopes| - 1], account, w, o);
      && AllFine(o, w.tick, b.w.tick)
      && Ledger(ProcessAll(s, envelopes, account, w, o).w.db) == Ledger(b.w.db) + {envelopes[|envelopes| - 1].mid}
  {
    hide Process, Sound, Ledger;
    var front, env := envelopes[..|envelopes| - 1], envelopes[|envelopes| - 1];
    var b := ProcessAll(s, front, account, w, o);
    BatchFacts(s, front, account, w, o);
    ProcessSteps(s, env, account, b.w, o);
    StepLedger(s, env, b.w, Process(s, env, account, b.w, o));
  }

  lemma MidsOfOneMore(front: seq<Envelope>, env: Envelope)
    ensures Mids(front + [env]) == Mids(front) + {env.mid}
  {
    assert forall e :: e in front + [env] <==> e in front || e == env;
  }

  lemma StepLedger(s: Settings, env: Envelope, w: World, p: Processing)
    requires Step(s, env, w, p)
    ensures p.w.tick > w.tick
    ensures !p.attempt.outcome.Failed? ==> Ledger(p.w.db) == Ledger(w.db) + {env.mid}
    ensures p.attempt.outcome.Processed? <==> !p.attempt.outcome.Failed? && env.mid !in Ledger(w.db)
  {
    hide Sound, AuditOf, Conserved, Ledger, NativeTagsFirst;
  }

  /** With native filters only and no failures, a real run skips exactly what the dry run
      says it skips, and a second copy of a Message-ID met earlier in the same batch; every
      other message gets the planned tags and runs exactly the consolidated planned actions. */
  lemma {:induction false} DryRunIsFaithful(s: Settings, envelopes: seq<Envelope>, account: nat, w: World, o: Oracle, i: nat)
    requires Sound(w.db) && 1 <= account <= |w.db.accounts| && s.llm.None?
    requires AllFine(o, w.tick, ProcessAll(s, envelopes, account, w, o).w.tick)
    requires i < |envelopes|
    ensures |ProcessAll(s, envelopes, account, w, o).attempts| == |envelopes|
    ensures var plan := PlanOf(s, envelopes[i], w.db);
      var a := ProcessAll(s, envelopes, account, w, o).attempts[i];
      && (a.outcome.AlreadyProcessed? <==> plan.WouldSkip? || envelopes[i].mid in Mids(envelopes[..i]))
      && (!a.outcome.AlreadyProcessed? ==> DoesAsPlanned(s, a, plan))
  {
    hide Process, Sound, Ledger, DoesAsPlanned;
    var front, env := envelopes[..|envelopes| - 1], envelopes[|envelopes| - 1];
    var b := ProcessAll(s, front, account, w, o);
    BatchFacts(s, front, account, w, o);
    AttemptsFollowEnvelopes(s, front, account, w, o);
    var p := Process(s, env, account, b.w, o);
    ProcessSteps(s, env, account, b.w, o);
    StepLedger(s, env, b.w, p);
    if i < |front| {
      DryRunIsFaithful(s, front, account, w, o, i);
      assert front[..i] == envelopes[..i];
    } else {
      LedgerOfBatch(s, front, account, w, o);
      assert envelopes[..i] == front;
      if p.attempt.outcome.Processed? { StepDoesAsPlanned(s, env, w.db, b.w, p); }
    }
  }

  lemma StepDoesAsPlanned(s: Settings, env: Envelope, db: Db, w: World, p: Processing)
    requires Step(s, env, w, p) && p.attempt.outcome.Processed? && s.llm.None? && env.mid !in Ledger(db)
    ensures DoesAsPlanned(s, p.attempt, PlanOf(s, env, db))
  {
    hide Sound, AuditOf, Conserved, FilterTags, Consolidate, Resolved, DescribeAll;
  }
}
