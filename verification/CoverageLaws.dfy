/** Which messages the daemon hands to the pipeline, over every run; and that it loses no mail. */
module CoverageLaws {
  import opened Seqs
  import opened Calls
  import opened Folders
  import opened Actions
  import opened ActionLaws
  import opened Sidecar
  import opened Pipeline
  import opened ProcessLaws
  import opened Poller
  import opened Daemon
  import opened DaemonLaws

  // ----- Watermarks -----

  function CursorOf(db: Db, name: string): Option<int> {
    var i := AccountAt(db.accounts, name);
    if i < |db.accounts| then db.accounts[i].cursor else None
  }

  /** Where a watermark can have come from: the sidecar the run started with, the clock at a
      first poll, or the date of a message an earlier poll returned. */
  ghost predicate Explained(base: Db, reports: seq<Report>, name: string, v: int) {
    || CursorOf(base, name) == Some(v)
    || (exists r :: r in reports && r.account == name && r.firstPoll && r.watermark == v)
    || (exists r, e :: r in reports && r.account == name && e in r.seen && e.date == v)
  }

  ghost predicate WatermarksHold(base: Db, db: Db, reports: seq<Report>) {
    && (forall name :: CursorOf(db, name).Some? ==> Explained(base, reports, name, CursorOf(db, name).value))
    && (forall r :: r in reports && !r.firstPoll ==> Explained(base, reports, r.account, r.watermark))
  }

  lemma ExplainedStays(base: Db, reports: seq<Report>, more: seq<Report>, name: string, v: int)
    requires Explained(base, reports, name, v)
    ensures Explained(base, reports + more, name, v)
  {
    assert forall r :: r in reports ==> r in reports + more;
  }

  lemma {:induction false} AccountAtPrefix(accounts: seq<Account>, more: seq<Account>, name: string)
    ensures AccountAt(accounts, name) < |accounts| ==> AccountAt(accounts + more, name) == AccountAt(accounts, name)
    ensures AccountAt(accounts, name) == |accounts| ==>
      AccountAt(accounts + more, name) == |accounts| + AccountAt(more, name)
  {
    if accounts == [] {
      assert accounts + more == more;
    } else {
      AccountAtPrefix(accounts[1..], more, name);
      assert (accounts + more)[1..] == accounts[1..] + more;
    }
  }

  lemma {:induction false} AccountAtUpdate(accounts: seq<Account>, i: nat, a: Account, name: string)
    requires i < |accounts| && a.name == accounts[i].name
    ensures AccountAt(accounts[i := a], name) == AccountAt(accounts, name)
  {
    if accounts[0].name != name {
      if i > 0 {
        assert accounts[i := a][1..] == accounts[1..][i - 1 := a];
        AccountAtUpdate(accounts[1..], i - 1, a, name);
      } else {
        assert accounts[i := a][1..] == accounts[1..];
      }
    }
  }

  /** Registering gives the account's first row and changes no watermark. */
  lemma RegisteringKeepsCursors(acct: AccountConfig, w: World, o: Oracle)
    ensures var r := Registering(acct, w, o);
      && (forall name :: CursorOf(r.w.db, name) == CursorOf(w.db, name))
      && (r.id.Some? ==> r.id.value - 1 == AccountAt(r.w.db.accounts, acct.name))
      && r.w.mail == w.mail && r.w.tick > w.tick
      && (AllFine(o, w.tick, r.w.tick) ==> r.id.Some?)
  {
    var r := Registering(acct, w, o);
    var added := [Account(acct.name, acct.bichonText, None)];
    forall name ensures CursorOf(r.w.db, name) == CursorOf(w.db, name) {
      AccountAtPrefix(w.db.accounts, added, name);
    }
    AccountAtPrefix(w.db.accounts, added, acct.name);
  }

  /** What one cycle reports, when it got as far as its messages. */
  ghost predicate ReportIsTrue(acct: AccountConfig, archive: seq<Envelope>, w: World, c: Cycled) {
    |c.reports| <= 1 &&
    (c.reports != [] ==>
      var r := c.reports[0];
      && r.account == acct.name
      && r.firstPoll == CursorOf(w.db, acct.name).None?
      && (!r.firstPoll ==> r.watermark == CursorOf(w.db, acct.name).value)
      && r.seen == Window(archive, Since(r.watermark))
      && r.handed == PollResult(archive, r.watermark).envelopes
      && |c.attempts| == |r.handed| && forall i :: 0 <= i < |r.handed| ==> c.attempts[i].env == r.handed[i])
  }

  /** The watermarks after a cycle: the account's becomes the greatest date seen or stays,
      every other account's stays. */
  ghost predicate CursorsAdvance(acct: AccountConfig, w: World, c: Cycled) {
    && (forall name :: name != acct.name ==> CursorOf(c.w.db, name) == CursorOf(w.db, name))
    && (!c.ok ==> CursorOf(c.w.db, acct.name) == CursorOf(w.db, acct.name))
    && (c.ok ==> c.reports != [])
    && (c.ok ==> CursorOf(c.w.db, acct.name) == Some(Advanced(c.reports[0].watermark, c.reports[0].seen)))
  }

  lemma {:induction false} AttemptsFollowEnvelopes(s: Settings, envelopes: seq<Envelope>, account: nat, w: World, o: Oracle)
    ensures var b := ProcessAll(s, envelopes, account, w, o);
      |b.attempts| == |envelopes| && forall i :: 0 <= i < |envelopes| ==> b.attempts[i].env == envelopes[i]
  {
    hide Process;
    if envelopes != [] {
      var front := envelopes[..|envelopes| - 1];
      AttemptsFollowEnvelopes(s, front, account, w, o);
      AttemptNamesEnvelope(s, envelopes[|envelopes| - 1], account, ProcessAll(s, front, account, w, o).w, o);
    }
  }

  lemma AttemptNamesEnvelope(s: Settings, env: Envelope, account: nat, w: World, o: Oracle)
    ensures Process(s, env, account, w, o).attempt.env == env
  {
    hide Preparing, Run, SaveAll, EmitAll, Rows, Consolidate;
  }

  lemma HandingReports(s: Settings, acct: AccountConfig, id: nat, report: Report, w: World, o: Oracle)
    requires 1 <= id <= |w.db.accounts| && id - 1 == AccountAt(w.db.accounts, acct.name)
    ensures var c := Handing(s, acct, id, report, w, o);
      && c.reports == [report]
      && |c.attempts| == |report.handed| && (forall i :: 0 <= i < |report.handed| ==> c.attempts[i].env == report.handed[i])
      && (forall name :: name != acct.name ==> CursorOf(c.w.db, name) == CursorOf(w.db, name))
      && CursorOf(c.w.db, acct.name) ==
           if c.ok then Some(Advanced(report.watermark, report.seen)) else CursorOf(w.db, acct.name)
  {
    hide ProcessAll, Advanced;
    AttemptsFollowEnvelopes(s, report.handed, id, w, o);
    ProcessAllKeepsAccounts(s, report.handed, id, w, o);
    var b := ProcessAll(s, report.handed, id, w, o);
    var a := b.w.db.accounts[id - 1].(cursor := Some(Advanced(report.watermark, report.seen)));
    forall name { AccountAtUpdate(b.w.db.accounts, id - 1, a, name); }
  }

  lemma CycleReports(s: Settings, acct: AccountConfig, archive: seq<Envelope>, w: World, o: Oracle)
    ensures var c := Cycle(s, acct, archive, w, o); ReportIsTrue(acct, archive, w, c) && CursorsAdvance(acct, w, c)
  {
    hide Handing, Registering, Sweeping, PollResult, Window, Since, Advanced;
    var r := Registering(acct, w, o);
    RegisteringKeepsCursors(acct, w, o);
    if r.id.Some? && acct.bichonId.Some? && o(r.w.tick).fault == Fine {
      var cursor := r.w.db.accounts[r.id.value - 1].cursor;
      assert cursor == CursorOf(r.w.db, acct.name);
      var watermark := if cursor.Some? then cursor.value else o(r.w.tick).now;
      var w1 := r.w.(tick := r.w.tick + 1);
      var window := Window(archive, Since(watermark));
      var sweep := Sweeping(|window|, w1.tick, o);
      if sweep.ok && o(sweep.tick).fault == Fine {
        var report := Report(acct.name, cursor.None?, watermark, window, PollResult(archive, watermark).envelopes);
        HandingReports(s, acct, r.id.value, report, w1.(tick := sweep.tick + 1), o);
      }
    }
  }

  lemma {:induction false} WatermarksOfRun(s: Settings, start: System, events: seq<Event>, o: Oracle)
    requires Initial(start)
    ensures var sys := RunOf(s, start, events, o); WatermarksHold(start.w.db, sys.w.db, sys.reports)
  {
    hide Cycle, CursorOf;
    if events != [] {
      var front, event := events[..|events| - 1], events[|events| - 1];
      var sys := RunOf(s, start, front, o);
      WatermarksOfRun(s, start, front, o);
      if event.Poll? {
        WatermarksOfCycle(s, start.w.db, sys, event.acct, o);
      }
    }
  }

  lemma WatermarksOfCycle(s: Settings, base: Db, sys: System, acct: AccountConfig, o: Oracle)
    requires WatermarksHold(base, sys.w.db, sys.reports)
    ensures var next := Next(s, sys, Poll(acct), o); WatermarksHold(base, next.w.db, next.reports)
  {
    hide Cycle, CursorOf, Explained, Window, PollResult, Since, Advanced;
    var c := CycleOf(s, sys, acct, o);
    CycleReports(s, acct, ArchiveOf(sys, acct.name), sys.w.(mail := ServerOf(sys, acct.name)), o);
    var reports := sys.reports + c.reports;
    forall name, v | Explained(base, sys.reports, name, v) ensures Explained(base, reports, name, v) {
      ExplainedStays(base, sys.reports, c.reports, name, v);
    }
    if c.ok {
      AdvancedIsExplained(base, sys.reports, c.reports[0], acct.name);
      assert c.reports == [c.reports[0]];
    }
    forall r | r in reports && !r.firstPoll ensures Explained(base, reports, r.account, r.watermark) {
      assert r in sys.reports || r in c.reports;
    }
  }

  lemma AdvancedIsExplained(base: Db, reports: seq<Report>, r: Report, name: string)
    requires r.account == name && (r.firstPoll || Explained(base, reports, name, r.watermark))
    ensures Explained(base, reports + [r], name, Advanced(r.watermark, r.seen))
  {
    hide Advanced, CursorOf;
    AdvancedIsMax(r.watermark, r.seen);
    var v := Advanced(r.watermark, r.seen);
    assert r in reports + [r];
    if v != r.watermark {
      var e :| e in r.seen && e.date == v;
    } else if !r.firstPoll {
      ExplainedStays(base, reports, [r], name, v);
    }
  }

  /** 48-hour coverage. In any reachable state, a cycle that gets as far as its messages
      hands an INBOX message of the archive to the pipeline exactly when the watermark is at
      most its date + 48 h. So it can be passed over only because the clock of a first poll,
      the watermark the run started with, or the date of a message seen earlier lies more
      than 48 h beyond its own date. */
  lemma Coverage(s: Settings, start: System, events: seq<Event>, acct: AccountConfig, o: Oracle, e: Envelope)
    requires Initial(start)
    requires var sys := RunOf(s, start, events, o);
      && CycleOf(s, sys, acct, o).reports != []
      && e in ArchiveOf(sys, acct.name) && Polled(e.mailbox) && e.date >= I64_MIN
    ensures var sys := RunOf(s, start, events, o);
      var c := CycleOf(s, sys, acct, o);
      var r := c.reports[0];
      && (e in r.handed <==> r.watermark <= e.date + SAFETY_MARGIN_MS)
      && (e in r.handed ==> exists a :: a in c.attempts && a.env == e)
      && (e !in r.handed ==> r.firstPoll || Explained(start.w.db, sys.reports, acct.name, r.watermark))
  {
    hide Cycle, CursorOf, Explained, PollResult, Window;
    var sys := RunOf(s, start, events, o);
    var archive := ArchiveOf(sys, acct.name);
    WatermarksOfRun(s, start, events, o);
    CycleReports(s, acct, archive, sys.w.(mail := ServerOf(sys, acct.name)), o);
    var c := CycleOf(s, sys, acct, o);
    var r := c.reports[0];
    PollIsExact(archive, r.watermark);
    if e in r.handed {
      var i :| 0 <= i < |r.handed| && r.handed[i] == e;
      assert c.attempts[i] in c.attempts;
    }
    SameCursors(sys.w, ServerOf(sys, acct.name), acct.name);
  }

  lemma SameCursors(w: World, mail: Imap, name: string)
    ensures CursorOf(w.(mail := mail).db, name) == CursorOf(w.db, name)
  {
  }

  // ----- A cycle without faults -----

  /** Batches keep the tables sound, time running and every ledger row; and without faults
      every message of the batch ends up in the ledger. */
  lemma {:induction false} BatchFacts(s: Settings, envelopes: seq<Envelope>, account: nat, w: World, o: Oracle)
    requires Sound(w.db) && 1 <= account <= |w.db.accounts|
    ensures var b := ProcessAll(s, envelopes, account, w, o);
      && Sound(b.w.db) && b.w.tick >= w.tick && Ledger(w.db) <= Ledger(b.w.db)
      && b.w.db.accounts == w.db.accounts
      && (AllFine(o, w.tick, b.w.tick) ==> forall e :: e in envelopes ==> e.mid in Ledger(b.w.db))
      && ConservedApart(w.mail, b.w.mail, Uids(envelopes))
  {
    hide Process, Sound, Ledger, ConservedApart;
    if envelopes == [] {
      NothingApart(w.mail, Uids(envelopes));
    } else {
      var front, env := envelopes[..|envelopes| - 1], envelopes[|envelopes| - 1];
      assert envelopes == front + [env];
      BatchFacts(s, front, account, w, o);
      var b := ProcessAll(s, front, account, w, o);
      var p := Process(s, env, account, b.w, o);
      ProcessSteps(s, env, account, b.w, o);
      StepFacts(s, env, b.w, p);
      ConservedIsApart(w.mail, b.w.mail, p.w.mail, front, env);
    }
  }

  lemma StepFacts(s: Settings, env: Envelope, w: World, p: Processing)
    requires Step(s, env, w, p)
    ensures Sound(p.w.db) && p.w.tick > w.tick && p.w.db.accounts == w.db.accounts && Conserved(w.mail, p.w.mail, env.uid)
    ensures Ledger(w.db) <= Ledger(p.w.db)
    ensures !p.attempt.outcome.Failed? ==> env.mid in Ledger(p.w.db)
  {
    hide Sound, AuditOf, Conserved, Ledger;
  }

  /** Progress: a cycle no call of which fails completes, saves its watermark, and leaves
      every INBOX message of its window in the ledger. */
  lemma FaultFreeCycle(s: Settings, acct: AccountConfig, archive: seq<Envelope>, w: World, o: Oracle)
    requires Sound(w.db) && acct.bichonId.Some?
    requires AllFine(o, w.tick, Cycle(s, acct, archive, w, o).w.tick)
    ensures var c := Cycle(s, acct, archive, w, o);
      && c.ok && c.reports != []
      && (forall e :: e in archive && Polled(e.mailbox) && e.date >= Since(c.reports[0].watermark) ==> e.mid in Ledger(c.w.db))
  {
    hide Registering, SweepingFor, Since, Sound, Ledger;
    var r := Registering(acct, w, o);
    RegisteringKeepsCursors(acct, w, o);
    RegisteringIsSound(acct, w, o);
    if r.id.Some? && o(r.w.tick).fault == Fine {
      var cursor := r.w.db.accounts[r.id.value - 1].cursor;
      var watermark := if cursor.Some? then cursor.value else o(r.w.tick).now;
      SweepingForIsFine(s, acct, r.id.value, archive, cursor.None?, watermark, r.w.(tick := r.w.tick + 1), o);
    }
  }

  lemma SweepingForIsFine(
    s: Settings, acct: AccountConfig, id: nat, archive: seq<Envelope>, firstPoll: bool, watermark: int, w: World, o: Oracle)
    requires Sound(w.db) && 1 <= id <= |w.db.accounts|
    ensures var c := SweepingFor(s, acct, id, archive, firstPoll, watermark, w, o);
      && c.w.tick > w.tick
      && (AllFine(o, w.tick, c.w.tick) ==> c.ok && c.reports != [] && c.reports[0].watermark == watermark)
      && (AllFine(o, w.tick, c.w.tick) ==>
            forall e :: e in archive && Polled(e.mailbox) && e.date >= Since(watermark) ==> e.mid in Ledger(c.w.db))
  {
    hide Handing, Sweeping, PollResult, Window, Since, Sound, Ledger;
    var window := Window(archive, Since(watermark));
    var sweep := Sweeping(|window|, w.tick, o);
    SweepRequests(|window|, w.tick, o);
    if sweep.ok && o(sweep.tick).fault == Fine {
      var report := Report(acct.name, firstPoll, watermark, window, PollResult(archive, watermark).envelopes);
      HandingIsFine(s, acct, id, report, w.(tick := sweep.tick + 1), o);
      PollIsExact(archive, watermark);
    }
  }

  lemma RegisteringIsSound(acct: AccountConfig, w: World, o: Oracle)
    requires Sound(w.db)
    ensures Sound(Registering(acct, w, o).w.db)
  {
    var r := Registering(acct, w, o);
    assert Ledger(r.w.db) == Ledger(w.db);
  }

  lemma HandingIsFine(s: Settings, acct: AccountConfig, id: nat, report: Report, w: World, o: Oracle)
    requires Sound(w.db) && 1 <= id <= |w.db.accounts|
    ensures var c := Handing(s, acct, id, report, w, o);
      && c.w.tick > w.tick && c.reports == [report]
      && (AllFine(o, w.tick, c.w.tick) ==> c.ok && forall e :: e in report.handed ==> e.mid in Ledger(c.w.db))
  {
    hide ProcessAll, Sound, Advanced;
    BatchFacts(s, report.handed, id, w, o);
    var b := ProcessAll(s, report.handed, id, w, o);
    var c := Handing(s, acct, id, report, w, o);
    assert Ledger(c.w.db) == Ledger(b.w.db);
  }

  // ----- No lost mail -----

  function Uids(envelopes: seq<Envelope>): set<nat> { set e | e in envelopes :: e.uid }

  /** As `Conserved`, for several UIDs. */
  ghost predicate ConservedApart(before: Imap, after: Imap, uids: set<nat>) {
    && (forall u :: u in before.inbox && u !in uids ==> u in after.inbox && after.inbox[u] == before.inbox[u])
    && (forall u :: u in after.inbox && u !in uids ==> u in before.inbox)
    && (forall p :: p in before.folders ==> p in after.folders && before.folders[p] <= after.folders[p])
    && (forall c :: CopyCount(before, c) <= CopyCount(after, c))
  }

  lemma NothingApart(m: Imap, uids: set<nat>)
    ensures ConservedApart(m, m, uids)
  {
  }

  lemma ConservedIsApart(a: Imap, b: Imap, c: Imap, front: seq<Envelope>, env: Envelope)
    requires ConservedApart(a, b, Uids(front)) && Conserved(b, c, env.uid)
    ensures ConservedApart(a, c, Uids(front + [env]))
  {
    hide CopyCount;
    assert Uids(front + [env]) == Uids(front) + {env.uid} by {
      assert forall e :: e in front + [env] <==> e in front || e == env;
    }
  }

  /** A cycle loses no mail on the account's server: only messages it handed to the pipeline
      are touched in INBOX, and no message ends up with fewer copies. */
  lemma CycleLosesNoMail(s: Settings, acct: AccountConfig, archive: seq<Envelope>, w: World, o: Oracle)
    requires Sound(w.db)
    ensures var c := Cycle(s, acct, archive, w, o);
      ConservedApart(w.mail, c.w.mail, if c.reports == [] then {} else Uids(c.reports[0].handed))
  {
    hide Registering, Sweeping, PollResult, Window, Since, Sound, ConservedApart, ProcessAll, Advanced;
    var r := Registering(acct, w, o);
    RegisteringKeepsCursors(acct, w, o);
    RegisteringIsSound(acct, w, o);
    NothingApart(w.mail, {});
    if r.id.Some? && acct.bichonId.Some? && o(r.w.tick).fault == Fine {
      var cursor := r.w.db.accounts[r.id.value - 1].cursor;
      var watermark := if cursor.Some? then cursor.value else o(r.w.tick).now;
      var w1 := r.w.(tick := r.w.tick + 1);
      var window := Window(archive, Since(watermark));
      var sweep := Sweeping(|window|, w1.tick, o);
      if sweep.ok && o(sweep.tick).fault == Fine {
        BatchFacts(s, PollResult(archive, watermark).envelopes, r.id.value, w1.(tick := sweep.tick + 1), o);
      }
    }
  }

  lemma PollLosesNoMail(s: Settings, sys: System, acct: AccountConfig, o: Oracle, name: string, content: string)
    requires Sound(sys.w.db)
    ensures CopyCount(ServerOf(sys, name), content) <= CopyCount(ServerOf(Next(s, sys, Poll(acct), o), name), content)
  {
    hide Cycle, CopyCount, Sound;
    CycleLosesNoMail(s, acct, ArchiveOf(sys, acct.name), sys.w.(mail := ServerOf(sys, acct.name)), o);
  }

  /** Over a whole run a message's copy count on a server drops only when the outside drops it. */
  lemma {:induction false} RunLosesNoMail(s: Settings, start: System, events: seq<Event>, o: Oracle, name: string, content: string)
    requires Initial(start)
    requires forall i :: 0 <= i < |events| && events[i].Outside? ==>
      CopyCount(ServerOf(RunOf(s, start, events[..i], o), name), content)
      <= CopyCount(ServerOf(RunOf(s, start, events[..i + 1], o), name), content)
    ensures CopyCount(ServerOf(start, name), content)
         <= CopyCount(ServerOf(RunOf(s, start, events, o), name), content)
  {
    hide Next, ServerOf, CopyCount, Invariant;
    if events != [] {
      var n := |events| - 1;
      var front, event := events[..n], events[n];
      forall i | 0 <= i < n && front[i].Outside?
        ensures CopyCount(ServerOf(RunOf(s, start, front[..i], o), name), content)
             <= CopyCount(ServerOf(RunOf(s, start, front[..i + 1], o), name), content) {
        assert front[..i] == events[..i] && front[..i + 1] == events[..i + 1] && events[i] == front[i];
      }
      RunLosesNoMail(s, start, front, o, name, content);
      var sys := RunOf(s, start, front, o);
      if event.Poll? {
        InvariantOfRun(s, start, front, o);
        InvariantIsSound(s, start.w, sys.w, sys.history);
        PollLosesNoMail(s, sys, event.acct, o, name, content);
      } else {
        assert events[..n + 1] == events;
      }
    }
  }

  lemma InvariantIsSound(s: Settings, base: World, w: World, history: seq<Attempt>)
    requires Invariant(s, base, w, history)
    ensures Sound(w.db)
  {
  }

  // ----- From coverage to the ledger, over a whole run -----

  lemma CycleKeepsLedger(s: Settings, acct: AccountConfig, archive: seq<Envelope>, w: World, o: Oracle)
    requires Sound(w.db)
    ensures Ledger(w.db) <= Ledger(Cycle(s, acct, archive, w, o).w.db)
  {
    hide Cycle, Ledger, AttemptHolds, Sound;
    InvariantStarts(s, w);
    InvariantOfCycle(s, w, w, [], acct, archive, o);
    var c := Cycle(s, acct, archive, w, o);
    LedgerGrows(w, c.w, [] + c.attempts);
  }

  /** What is in the ledger stays there. */
  lemma {:induction false} LedgerStays(s: Settings, start: System, events: seq<Event>, i: nat, o: Oracle)
    requires Initial(start) && i <= |events|
    ensures Ledger(RunOf(s, start, events[..i], o).w.db) <= Ledger(RunOf(s, start, events, o).w.db)
  {
    hide Cycle, Ledger, Invariant, Sound;
    if i == |events| {
      assert events[..i] == events;
    } else {
      var front, event := events[..|events| - 1], events[|events| - 1];
      assert front[..i] == events[..i];
      LedgerStays(s, start, front, i, o);
      var sys := RunOf(s, start, front, o);
      if event.Poll? {
        InvariantOfRun(s, start, front, o);
        InvariantIsSound(s, start.w, sys.w, sys.history);
        CycleKeepsLedger(s, event.acct, ArchiveOf(sys, event.acct.name), sys.w.(mail := ServerOf(sys, event.acct.name)), o);
      }
    }
  }

  /** The i-th event of the run is a poll of the account in which no call fails. */
  ghost predicate PolledWithoutFault(s: Settings, start: System, events: seq<Event>, i: nat, acct: AccountConfig, o: Oracle) {
    i < |events| && events[i] == Poll(acct) && acct.bichonId.Some?
    && var sys := RunOf(s, start, events[..i], o); AllFine(o, sys.w.tick, CycleOf(s, sys, acct, o).w.tick)
  }

  /** No mail is left behind: an INBOX message that is in the archive at a fault-free poll
      whose watermark is at most its date + 48 h is in the ledger at the end of the run. */
  lemma NoMailIsLeftBehind(s: Settings, start: System, events: seq<Event>, i: nat, acct: AccountConfig, o: Oracle, e: Envelope)
    requires Initial(start) && PolledWithoutFault(s, start, events, i, acct, o)
    requires var sys := RunOf(s, start, events[..i], o);
      && e in ArchiveOf(sys, acct.name) && Polled(e.mailbox) && e.date >= I64_MIN
      && forall r :: r in CycleOf(s, sys, acct, o).reports ==> r.watermark <= e.date + SAFETY_MARGIN_MS
    ensures e.mid in Ledger(RunOf(s, start, events, o).w.db)
  {
    hide Cycle, Ledger, Invariant, Sound, Polled;
    var sys := RunOf(s, start, events[..i], o);
    InvariantOfRun(s, start, events[..i], o);
    InvariantIsSound(s, start.w, sys.w, sys.history);
    FaultFreeCycle(s, acct, ArchiveOf(sys, acct.name), sys.w.(mail := ServerOf(sys, acct.name)), o);
    assert events[..i + 1][..i] == events[..i];
    LedgerStays(s, start, events, i + 1, o);
  }
}
