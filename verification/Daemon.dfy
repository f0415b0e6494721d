/** The daemon: one poll cycle of one account, and runs of cycles interleaved with
    whatever the outside does to the archives and the mail servers. */
module Daemon {
  import opened Seqs
  import opened Calls
  import opened Actions
  import opened Sidecar
  import opened Pipeline
  import opened Poller

  /** A configured account; its Bichon id as text, and as the number it parses to. */
  datatype AccountConfig = AccountConfig(name: string, bichonText: string, bichonId: Option<nat>)

  // ----- The messages of one poll -----

  datatype Batch = Batch(w: World, attempts: seq<Attempt>)

  function ProcessAll(s: Settings, envelopes: seq<Envelope>, account: nat, w: World, o: Oracle): Batch {
    if envelopes == [] then Batch(w, [])
    else
      var b := ProcessAll(s, envelopes[..|envelopes| - 1], account, w, o);
      var p := Process(s, envelopes[|envelopes| - 1], account, b.w, o);
      Batch(p.w, b.attempts + [p.attempt])
  }

  // ----- Processing never touches the accounts table -----

  lemma {:induction false} SaveAllKeepsAccounts(rows: seq<Row>, db: Db, t: nat, o: Oracle)
    ensures SaveAll(rows, db, t, o).at.db.accounts == db.accounts
  {
    if rows != [] { SaveAllKeepsAccounts(rows[..|rows| - 1], db, t, o); }
  }

  lemma {:induction false} EmitAllKeepsAccounts(s: Settings, mid: string, tags: seq<string>, names: seq<string>, w: World, o: Oracle)
    ensures EmitAll(s, mid, tags, names, w, o).w.db.accounts == w.db.accounts
  {
    if names != [] { EmitAllKeepsAccounts(s, mid, tags, names[..|names| - 1], w, o); }
  }

  lemma ProcessKeepsAccounts(s: Settings, env: Envelope, account: nat, w: World, o: Oracle)
    ensures Process(s, env, account, w, o).w.db.accounts == w.db.accounts
  {
    hide Rows, Run, Consolidate, EmitAll, SaveAll, HookNames;
    var prep := Preparing(s, env, w, o);
    if prep.status.Ready? {
      var tags, decision := prep.status.tags, prep.status.decision;
      var plan := Consolidate(Resolved(tags, s.actions));
      var run := Run(plan, env.uid, prep.w.mail, prep.w.tick, o);
      var w1 := prep.w.(mail := run.at.box, tick := run.at.tick);
      var rows := Rows(s, env, account, decision, tags, plan);
      SaveAllKeepsAccounts(rows, w1.db, w1.tick, o);
      var rec := SaveAll(rows, w1.db, w1.tick, o);
      EmitAllKeepsAccounts(s, env.mid, tags, HookNames(s, tags), w1.(db := rec.at.db, tick := rec.at.tick), o);
    }
  }

  lemma {:induction false} ProcessAllKeepsAccounts(s: Settings, envelopes: seq<Envelope>, account: nat, w: World, o: Oracle)
    ensures ProcessAll(s, envelopes, account, w, o).w.db.accounts == w.db.accounts
  {
    hide Process;
    if envelopes != [] {
      var front := envelopes[..|envelopes| - 1];
      ProcessAllKeepsAccounts(s, front, account, w, o);
      ProcessKeepsAccounts(s, envelopes[|envelopes| - 1], account, ProcessAll(s, front, account, w, o).w, o);
    }
  }

  // ----- One cycle -----

  /** What a cycle that got as far as its messages did. */
  datatype Report = Report(
    account: string,
    firstPoll: bool,              // no watermark was stored: polling started now
    watermark: int,           // the watermark polled from
    seen: seq<Envelope>,      // every message the poll returned
    handed: seq<Envelope>)    // those handed to the pipeline

  datatype Cycled = Cycled(w: World, ok: bool, reports: seq<Report>, attempts: seq<Attempt>)

  datatype Registered = Registered(w: World, id: Option<nat>)

  /** Finds the account's row, inserting it the first time. */
  function Registering(acct: AccountConfig, w: World, o: Oracle): (r: Registered)
    ensures r.id.Some? ==> 1 <= r.id.value <= |r.w.db.accounts|
  {
    var w1 := w.(tick := w.tick + 1);
    var i := AccountAt(w.db.accounts, acct.name);
    if o(w.tick).fault != Fine then Registered(w1, None)
    else if i < |w.db.accounts| then Registered(w1, Some(i + 1))
    else if o(w1.tick).fault != Fine then Registered(w1.(tick := w1.tick + 1), None)
    else
      var accounts := w.db.accounts + [Account(acct.name, acct.bichonText, None)];
      Registered(w1.(tick := w1.tick + 1, db := w.db.(accounts := accounts)), Some(|accounts|))
  }

  function Cycle(s: Settings, acct: AccountConfig, archive: seq<Envelope>, w: World, o: Oracle): Cycled {
    var r := Registering(acct, w, o);
    if r.id.None? || acct.bichonId.None? then Cycled(r.w, false, [], [])
    else if o(r.w.tick).fault != Fine then Cycled(r.w.(tick := r.w.tick + 1), false, [], [])
    else
      var cursor := r.w.db.accounts[r.id.value - 1].cursor;
      var watermark := if cursor.Some? then cursor.value else o(r.w.tick).now;
      SweepingFor(s, acct, r.id.value, archive, cursor.None?, watermark, r.w.(tick := r.w.tick + 1), o)
  }

  function SweepingFor(s: Settings, acct: AccountConfig, id: nat, archive: seq<Envelope>, firstPoll: bool, watermark: int,
                     w: World, o: Oracle): Cycled
    requires 1 <= id <= |w.db.accounts|
  {
    var window := Window(archive, Since(watermark));
    var sweep := Sweeping(|window|, w.tick, o);
    if !sweep.ok then Cycled(w.(tick := sweep.tick), false, [], [])
    else if o(sweep.tick).fault != Fine then Cycled(w.(tick := sweep.tick + 1), false, [], [])
    else Handing(s, acct, id, Report(acct.name, firstPoll, watermark, window, PollResult(archive, watermark).envelopes),
                 w.(tick := sweep.tick + 1), o)
  }

  /** The messages, one after the other, then the new watermark. */
  function Handing(s: Settings, acct: AccountConfig, id: nat, report: Report, w: World, o: Oracle): Cycled
    requires 1 <= id <= |w.db.accounts|
  {
    var b := ProcessAll(s, report.handed, id, w, o);
    var w1 := b.w.(tick := b.w.tick + 1);
    if o(b.w.tick).fault != Fine then Cycled(w1, false, [report], b.attempts)
    else
      ProcessAllKeepsAccounts(s, report.handed, id, w, o);
      var db := WithCursor(b.w.db, id, Advanced(report.watermark, report.seen));
      Cycled(w1.(db := db), true, [report], b.attempts)
  }

  /** One cycle of one account: `target` is its mail server, `source` its archive. */
  method PollOneAccount(acct: AccountConfig, source: Source, pipeline: Triage, target: ImapServer)
    returns (ok: bool, triaged: nat, skipped: nat)
    requires pipeline.Wired(target) && source.net == pipeline.net
    modifies pipeline, pipeline.store, pipeline.net, source, target
    ensures var c := Cycle(pipeline.settings, acct, source.archive, old(pipeline.Here(target)), pipeline.net.oracle);
      && pipeline.Here(target) == c.w && ok == c.ok
      && (ok ==> triaged == CountProcessed(c.attempts) && skipped == CountSkipped(c.attempts))
  {
    hide SweepingFor, Registering;
    ok, triaged, skipped := false, 0, 0;
    var net, store := pipeline.net, pipeline.store;
    var row := EnsureAccount(acct, pipeline, target);
    if row.None? || acct.bichonId.None? { return; }
    var id, now := row.value, net.Clock();
    var stored := store.GetWatermark(id);
    if stored.Err? { return; }
    var firstPoll := stored.value.None?;
    var watermark := if firstPoll then now else stored.value.value;
    ok, triaged, skipped := SweepAndHand(acct, id, firstPoll, watermark, source, pipeline, target);
  }

  /** The account's row in the sidecar, inserted the first time. */
  method EnsureAccount(acct: AccountConfig, pipeline: Triage, ghost target: ImapServer) returns (id: Option<nat>)
    requires pipeline.Wired(target)
    modifies pipeline.store, pipeline.net
    ensures Registering(acct, old(pipeline.Here(target)), pipeline.net.oracle) == Registered(pipeline.Here(target), id)
  {
    var found := pipeline.store.FindByName(acct.name);
    if found.Err? { return None; }
    match found.value {
      case Some(existing) => id := found.value;
      case None =>
        var inserted := pipeline.store.InsertAccount(acct.name, acct.bichonText);
        id := if inserted.Ok? then Some(inserted.value) else None;
    }
  }

  method SweepAndHand(acct: AccountConfig, id: nat, firstPoll: bool, watermark: int, source: Source, pipeline: Triage, target: ImapServer)
    returns (ok: bool, triaged: nat, skipped: nat)
    requires pipeline.Wired(target) && source.net == pipeline.net
    requires 1 <= id <= |pipeline.store.accounts|
    modifies pipeline, pipeline.store, pipeline.net, source, target
    ensures var c := SweepingFor(pipeline.settings, acct, id, source.archive, firstPoll, watermark,
                               old(pipeline.Here(target)), pipeline.net.oracle);
      && pipeline.Here(target) == c.w && ok == c.ok
      && (ok ==> triaged == CountProcessed(c.attempts) && skipped == CountSkipped(c.attempts))
  {
    hide ProcessAll, Sweeping, Window, Process, Select, Advanced;
    ok, triaged, skipped := false, 0, 0;
    var outcome := PollAccount(source, watermark);
    if outcome.Err? { return; }
    var connected := pipeline.net.Call();
    if connected.fault != Fine { return; }
    ghost var attempts, w := [], pipeline.Here(target);
    triaged, skipped, attempts := HandAll(outcome.value.envelopes, id, pipeline, target);
    ProcessAllKeepsAccounts(pipeline.settings, outcome.value.envelopes, id, w, pipeline.net.oracle);
    var failure := pipeline.store.SaveWatermark(id, outcome.value.watermark);
    ok := failure.None?;
  }

  method HandAll(envelopes: seq<Envelope>, id: nat, pipeline: Triage, target: ImapServer)
    returns (triaged: nat, skipped: nat, ghost attempts: seq<Attempt>)
    requires pipeline.Wired(target)
    modifies pipeline, pipeline.store, pipeline.net, target
    ensures ProcessAll(pipeline.settings, envelopes, id, old(pipeline.Here(target)), pipeline.net.oracle)
         == Batch(pipeline.Here(target), attempts)
    ensures triaged == CountProcessed(attempts) && skipped == CountSkipped(attempts)
  {
    hide Process;
    ghost var w := pipeline.Here(target);
    ghost var o := pipeline.net.oracle;
    triaged, skipped, attempts := 0, 0, [];
    for i := 0 to |envelopes|
      invariant ProcessAll(pipeline.settings, envelopes[..i], id, w, o) == Batch(pipeline.Here(target), attempts)
      invariant triaged == CountProcessed(attempts) && skipped == CountSkipped(attempts)
    {
      assert envelopes[..i + 1][..i] == envelopes[..i];
      ghost var attempt := Process(pipeline.settings, envelopes[i], id, pipeline.Here(target), o).attempt;
      var one := pipeline.ProcessMessage(envelopes[i], id, target);
      assert (attempts + [attempt])[..|attempts|] == attempts;
      attempts := attempts + [attempt];
      match one {
        case Processed(_, _, _) => triaged := triaged + 1;
        case AlreadyProcessed => skipped := skipped + 1;
        case Failed(_) =>
      }
    }
    assert envelopes[..|envelopes|] == envelopes;
  }

  /** Which attempts completed, and which met a message already in the ledger. */
  function Done(attempts: seq<Attempt>): set<nat> { set i | 0 <= i < |attempts| && attempts[i].outcome.Processed? }
  function Met(attempts: seq<Attempt>): set<nat> { set i | 0 <= i < |attempts| && attempts[i].outcome.AlreadyProcessed? }

  lemma OneMoreAttempt(attempts: seq<Attempt>)
    requires attempts != []
    ensures var n := |attempts| - 1;
      && n !in Done(attempts[..n]) && n !in Met(attempts[..n])
      && Done(attempts) == Done(attempts[..n]) + (if attempts[n].outcome.Processed? then {n} else {})
      && Met(attempts) == Met(attempts[..n]) + (if attempts[n].outcome.AlreadyProcessed? then {n} else {})
  {
    var n := |attempts| - 1;
    assert forall i :: 0 <= i < n ==> attempts[..n][i] == attempts[i];
  }

  lemma {:induction false} CountsMean(attempts: seq<Attempt>)
    ensures CountProcessed(attempts) == |Done(attempts)| && CountSkipped(attempts) == |Met(attempts)|
  {
    if attempts != [] {
      CountsMean(attempts[..|attempts| - 1]);
      OneMoreAttempt(attempts);
      hide Done, Met;
    }
  }

  function CountProcessed(attempts: seq<Attempt>): nat {
    if attempts == [] then 0
    else CountProcessed(attempts[..|attempts| - 1]) + (if attempts[|attempts| - 1].outcome.Processed? then 1 else 0)
  }

  function CountSkipped(attempts: seq<Attempt>): nat {
    if attempts == [] then 0
    else CountSkipped(attempts[..|attempts| - 1]) + (if attempts[|attempts| - 1].outcome.AlreadyProcessed? then 1 else 0)
  }

  // ----- Runs -----

  /** The daemon and everything around it. */
  datatype System = System(
    w: World,
    servers: map<string, Imap>,             // each account's mail server
    archives: map<string, seq<Envelope>>,   // each account's archive
    history: seq<Attempt>,
    reports: seq<Report>)

  datatype Event =
    | Poll(acct: AccountConfig)
    | Outside(servers: map<string, Imap>, archives: map<string, seq<Envelope>>)

  function ServerOf(sys: System, name: string): Imap {
    if name in sys.servers then sys.servers[name] else Imap(map[], map[])
  }

  function ArchiveOf(sys: System, name: string): seq<Envelope> {
    if name in sys.archives then sys.archives[name] else []
  }

  function CycleOf(s: Settings, sys: System, acct: AccountConfig, o: Oracle): Cycled {
    Cycle(s, acct, ArchiveOf(sys, acct.name), sys.w.(mail := ServerOf(sys, acct.name)), o)
  }

  function Next(s: Settings, sys: System, event: Event, o: Oracle): System {
    match event
    case Outside(servers, archives) => sys.(servers := servers, archives := archives)
    case Poll(acct) =>
      var c := CycleOf(s, sys, acct, o);
      System(c.w, sys.servers[acct.name := c.w.mail], sys.archives, sys.history + c.attempts, sys.reports + c.reports)
  }

  function RunOf(s: Settings, start: System, events: seq<Event>, o: Oracle): System {
    if events == [] then start
    else Next(s, RunOf(s, start, events[..|events| - 1], o), events[|events| - 1], o)
  }

  /** Any sound sidecar, any servers and archives, and nothing on record yet. */
  ghost predicate Initial(sys: System) {
    Sound(sys.w.db) && sys.history == [] && sys.reports == []
  }
}
