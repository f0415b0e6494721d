/** What processing one message keeps and achieves, whatever fails. */
module ProcessLaws {
  import opened Seqs
  import opened Calls
  import opened Filters
  import opened Actions
  import opened ActionLaws
  import opened Sidecar
  import opened Webhooks
  import opened Pipeline
  import opened EmissionLaws

  // ----- The rows of one message always fit -----

  lemma {:induction false} MatchedRows(db: Db, rows: seq<MatchRow>)
    requires forall r :: r in rows ==> r.mid in Ledger(db)
    ensures Admissible(db, MatchedAll(rows))
    ensures AddAll(db, MatchedAll(rows)) == db.(matches := db.matches + rows)
  {
    if rows != [] {
      var front := rows[..|rows| - 1];
      MatchedRows(db, front);
      assert MatchedAll(rows)[..|rows| - 1] == MatchedAll(front);
      assert db.matches + front + [rows[|rows| - 1]] == db.matches + rows;
    } else {
      assert db.matches + [] == db.matches;
    }
  }

  lemma {:induction false} ExecutedRows(db: Db, rows: seq<ActionRow>)
    requires forall r :: r in rows ==> r.mid in Ledger(db)
    ensures Admissible(db, ExecutedAll(rows))
    ensures AddAll(db, ExecutedAll(rows)) == db.(actions := db.actions + rows)
  {
    if rows != [] {
      var front := rows[..|rows| - 1];
      ExecutedRows(db, front);
      assert ExecutedAll(rows)[..|rows| - 1] == ExecutedAll(front);
      assert db.actions + front + [rows[|rows| - 1]] == db.actions + rows;
    } else {
      assert db.actions + [] == db.actions;
    }
  }

  lemma {:induction false} TaggedRows(db: Db, rows: seq<TagRow>)
    requires forall r :: r in rows ==> r.mid in Ledger(db) && r !in db.tags
    requires Distinct(rows)
    ensures Admissible(db, TaggedAll(rows))
    ensures AddAll(db, TaggedAll(rows)) == db.(tags := db.tags + rows)
  {
    if rows != [] {
      var front, last := rows[..|rows| - 1], rows[|rows| - 1];
      TaggedRows(db, front);
      assert TaggedAll(rows)[..|rows| - 1] == TaggedAll(front);
      assert last !in db.tags + front;
      assert db.tags + front + [last] == db.tags + rows;
    } else {
      assert db.tags + [] == db.tags;
    }
  }

  /** The tables after all rows of a message. */
  function Audited(s: Settings, env: Envelope, account: nat, decision: Option<DecisionRow>,
                   tags: seq<string>, executed: seq<Action>, db: Db): Db {
    db.(messages := db.messages + [LedgerRow(s, env, account)],
        decisions := db.decisions + (if decision.Some? then [decision.value] else []),
        matches := db.matches + FiredRows(s, env),
        tags := db.tags + TagRows(tags, env.mid),
        actions := db.actions + ActionRows(executed, env.mid))
  }

  /** The ledger row and the model's decision. */
  lemma HeadRows(db: Db, row: MessageRow, decision: Option<DecisionRow>)
    requires Sound(db) && row.mid !in Ledger(db) && 1 <= row.account <= |db.accounts|
    requires decision.Some? ==> decision.value.mid == row.mid
    ensures Admissible(db, [Message(row)] + DecisionPart(decision))
    ensures AddAll(db, [Message(row)] + DecisionPart(decision))
         == db.(messages := db.messages + [row],
                decisions := db.decisions + (if decision.Some? then [decision.value] else []))
  {
    var db1 := db.(messages := db.messages + [row]);
    assert [Message(row)][..0] == [];
    assert AddAll(db, [Message(row)]) == db1;
    assert Fits(db, Message(row)) && Admissible(db, []) && AddAll(db, []) == db;
    assert [Message(row)][..|[Message(row)]| - 1] == [];
    assert Admissible(db, [Message(row)]);
    LedgerOfAdd(db, Message(row));
    if decision.Some? {
      assert ([Message(row)] + [Decision(decision.value)])[..1] == [Message(row)];
    } else {
      assert [Message(row)] + [] == [Message(row)];
      assert db.decisions + [] == db.decisions;
    }
  }

  lemma RowsFit(s: Settings, env: Envelope, account: nat, decision: Option<DecisionRow>,
                tags: seq<string>, executed: seq<Action>, db: Db)
    requires Sound(db) && env.mid !in Ledger(db) && 1 <= account <= |db.accounts|
    requires Distinct(tags) && (decision.Some? ==> decision.value.mid == env.mid)
    ensures Admissible(db, Rows(s, env, account, decision, tags, executed))
    ensures AddAll(db, Rows(s, env, account, decision, tags, executed))
         == Audited(s, env, account, decision, tags, executed, db)
  {
    hide Admissible, AddAll, MatchedAll, TaggedAll, ExecutedAll, DecisionPart;
    var mid := env.mid;
    var row := LedgerRow(s, env, account);
    var head := [Message(row)] + DecisionPart(decision);
    var matches, tagRows, actions := FiredRows(s, env), TagRows(tags, mid), ActionRows(executed, mid);
    HeadRows(db, row, decision);
    var db1 := AddAll(db, head);
    assert mid in Ledger(db1) by { assert row in db1.messages; }
    MatchedRows(db1, matches);
    var db2 := AddAll(db1, MatchedAll(matches));
    assert forall r :: r in db.tags ==> r.mid in Ledger(db);
    TaggedRows(db2, tagRows);
    var db3 := AddAll(db2, TaggedAll(tagRows));
    ExecutedRows(db3, actions);
    AdmissibleAppend(db, head, MatchedAll(matches));
    AddAllAppend(db, head, MatchedAll(matches));
    AdmissibleAppend(db, head + MatchedAll(matches), TaggedAll(tagRows));
    AddAllAppend(db, head + MatchedAll(matches), TaggedAll(tagRows));
    AdmissibleAppend(db, head + MatchedAll(matches) + TaggedAll(tagRows), ExecutedAll(actions));
    AddAllAppend(db, head + MatchedAll(matches) + TaggedAll(tagRows), ExecutedAll(actions));
  }

  // ----- Up to the first side effect -----

  lemma {:induction false} NothingCached(decisions: seq<DecisionRow>, mid: string, hash: string)
    requires forall d :: d in decisions ==> d.mid != mid
    ensures Cached(decisions, mid, hash) == None
  {
    if decisions != [] {
      assert decisions[0] in decisions;
      NothingCached(decisions[1..], mid, hash);
    }
  }

  /** The cache lookup made while processing never hits: a decision is stored only after
      its message is in the ledger, and a ledger message is not looked up again. */
  lemma CacheAlwaysMisses(s: Settings, env: Envelope, w: World, hash: string)
    requires Sound(w.db) && env.mid !in Ledger(w.db)
    ensures Cached(w.db.decisions, env.mid, hash) == None
  {
    NothingCached(w.db.decisions, env.mid, hash);
  }

  /** The tags begin with the native filters' and, without a classifier, are exactly those. */
  ghost predicate NativeTagsFirst(s: Settings, env: Envelope, tags: seq<string>) {
    var native := FilterTags(s.filters, s.view(env), s.rx);
    native <= tags && (s.llm.None? ==> tags == native)
  }

  lemma MergedKeepsNative(native: seq<string>, more: seq<string>)
    ensures native <= Merged(native, more)
  {
  }

  /** Nothing is written before the actions; a message gets past here only when new, with
      distinct tags, at the price of at most one model call. */
  lemma PreparationFacts(s: Settings, env: Envelope, w: World, o: Oracle)
    requires Sound(w.db)
    ensures var p := Preparing(s, env, w, o);
      && p.w.db == w.db && p.w.mail == w.mail && p.w.deliveries == w.deliveries && p.w.tick > w.tick
      && (env.mid in Ledger(w.db) ==> !p.status.Ready? && p.w == w.(tick := w.tick + 1))
      && (p.status.Known? ==> env.mid in Ledger(w.db))
      && (p.status.Ready? ==> Distinct(p.status.tags))
      && (p.status.Ready? && p.status.decision.Some? ==> p.status.decision.value.mid == env.mid)
      && (p.w.llmCalls == w.llmCalls || p.w.llmCalls == w.llmCalls + multiset{env.mid})
      && (p.status.Ready? && s.llm.Some? ==> p.w.llmCalls == w.llmCalls + multiset{env.mid})
      && (s.llm.None? ==> p.w.llmCalls == w.llmCalls)
      && (p.status.Ready? ==> NativeTagsFirst(s, env, p.status.tags))
      && (AllFine(o, w.tick, p.w.tick) ==> !p.status.Broken?)
  {
    hide FilterTags, Merged, ClassificationTags, ExtractJson, Cached;
    var native := FilterTags(s.filters, s.view(env), s.rx);
    TagsAreDistinct(s.filters, s.view(env), s.rx, []);
    if env.mid !in Ledger(w.db) && s.llm.Some? {
      CacheAlwaysMisses(s, env, w, s.llm.value.promptHash(env));
      TagsAreDistinct(s.filters, s.view(env), s.rx, [LLM_ERROR_TAG]);
      forall c { TagsAreDistinct(s.filters, s.view(env), s.rx, ClassificationTags(c)); }
      MergedKeepsNative(native, [LLM_ERROR_TAG]);
      forall c { MergedKeepsNative(native, ClassificationTags(c)); }
    }
  }

  // ----- Audit rows -----

  /** The audit trail of one message. */
  datatype Audit = Audit(tags: seq<TagRow>, actions: seq<ActionRow>, matches: seq<MatchRow>)

  function AuditOf(db: Db, mid: string): Audit { Audit(TagsOf(db, mid), ActionsOf(db, mid), MatchesOf(db, mid)) }

  lemma {:induction false} AddAllKeepsOthers(db: Db, rows: seq<Row>, mid: string)
    requires forall r :: r in rows ==> Mid(r) != mid
    ensures AuditOf(AddAll(db, rows), mid) == AuditOf(db, mid)
    ensures mid in Ledger(AddAll(db, rows)) <==> mid in Ledger(db)
  {
    hide TagsOf, ActionsOf, MatchesOf, Ledger, Add, Mid;
    if rows != [] {
      AddAllKeepsOthers(db, rows[..|rows| - 1], mid);
      AddKeepsOthers(AddAll(db, rows[..|rows| - 1]), rows[|rows| - 1], mid);
    }
  }

  ghost predicate About(rows: seq<Row>, mid: string) { forall r :: r in rows ==> Mid(r) == mid }

  lemma AboutConcat(a: seq<Row>, b: seq<Row>, mid: string)
    requires About(a, mid) && About(b, mid)
    ensures About(a + b, mid)
  {
    assert forall r :: r in a + b ==> r in a || r in b;
  }

  lemma RowsAreAbout(s: Settings, env: Envelope, account: nat, decision: Option<DecisionRow>,
                     tags: seq<string>, executed: seq<Action>)
    requires decision.Some? ==> decision.value.mid == env.mid
    ensures About(Rows(s, env, account, decision, tags, executed), env.mid)
    ensures Rows(s, env, account, decision, tags, executed) != []
    ensures Rows(s, env, account, decision, tags, executed)[0] == Message(LedgerRow(s, env, account))
  {
    hide FiredRows, TagRows, ActionRows;
    RowsOfMessage(s, env, tags, executed);
    var head := [Message(LedgerRow(s, env, account))];
    var matched := MatchedAll(FiredRows(s, env));
    var tagged := TaggedAll(TagRows(tags, env.mid));
    var ran := ExecutedAll(ActionRows(executed, env.mid));
    assert About(head, env.mid) && About(DecisionPart(decision), env.mid);
    assert About(matched, env.mid) && About(tagged, env.mid);
    assert About(ran, env.mid);
    hide About, DecisionPart, MatchedAll, TaggedAll, ExecutedAll;
    AboutConcat(head, DecisionPart(decision), env.mid);
    AboutConcat(head + DecisionPart(decision), matched, env.mid);
    AboutConcat(head + DecisionPart(decision) + matched, tagged, env.mid);
    AboutConcat(head + DecisionPart(decision) + matched + tagged, ran, env.mid);
  }

  lemma NoAuditYet(db: Db, mid: string)
    requires Sound(db) && mid !in Ledger(db)
    ensures AuditOf(db, mid) == Audit([], [], [])
  {
    SelectNone(db.tags, TagAbout(mid));
    SelectNone(db.actions, ActionAbout(mid));
    SelectNone(db.matches, MatchAbout(mid));
  }

  /** Once all rows of a new message are stored, its audit trail is exactly its tags, its
      executed actions in order, and the filters that fired. */
  lemma AuditIsExact(s: Settings, env: Envelope, account: nat, decision: Option<DecisionRow>,
                     tags: seq<string>, executed: seq<Action>, db: Db)
    requires Sound(db) && env.mid !in Ledger(db)
    ensures AuditOf(Audited(s, env, account, decision, tags, executed, db), env.mid)
         == Audit(TagRows(tags, env.mid), ActionRows(executed, env.mid), FiredRows(s, env))
  {
    hide Select, TagRows, ActionRows, FiredRows;
    NoAuditYet(db, env.mid);
    var mid := env.mid;
    var t, a, m := TagRows(tags, mid), ActionRows(executed, mid), FiredRows(s, env);
    RowsOfMessage(s, env, tags, executed);
    SelectAppend(db.tags, t, TagAbout(mid));
    SelectAppend(db.actions, a, ActionAbout(mid));
    SelectAppend(db.matches, m, MatchAbout(mid));
    SelectAll(t, TagAbout(mid));
    SelectAll(a, ActionAbout(mid));
    SelectAll(m, MatchAbout(mid));
  }

  lemma RowsOfMessage(s: Settings, env: Envelope, tags: seq<string>, executed: seq<Action>)
    ensures forall r :: r in TagRows(tags, env.mid) ==> r.mid == env.mid
    ensures forall r :: r in ActionRows(executed, env.mid) ==> r.mid == env.mid
    ensures forall r :: r in FiredRows(s, env) ==> r.mid == env.mid
  {
    hide MatchingFilters;
    assert forall i :: 0 <= i < |executed| ==> ActionRows(executed, env.mid)[i].mid == env.mid;
  }

  // ----- One message, start to finish -----

  /** Everything processing a message is bound to, whatever the outside does. */
  ghost predicate Step(s: Settings, env: Envelope, w: World, p: Processing) {
    && LedgerStep(env, w, p)
    && OutcomeStep(s, env, w, p)
    && OutsideStep(s, env, w, p)
  }

  /** Tables: only failures from outside, those passed over included; nothing written unless
      the whole action list ran; one new ledger row at most; other messages' audit trails
      untouched. */
  ghost predicate LedgerStep(env: Envelope, w: World, p: Processing) {
    var a := p.attempt;
    && a.env == env && p.w.tick > w.tick
    && Sound(p.w.db) && p.w.db.accounts == w.db.accounts
    && (a.outcome.Failed? ==> a.outcome.failure == Io)
    && (forall f :: f in a.unaudited ==> f == Io)
    && (!a.recorded ==> p.w.db == w.db)
    && (a.recorded ==> env.mid !in Ledger(w.db) && a.ran == |a.plan|)
    && Ledger(p.w.db) == Ledger(w.db) + (if a.recorded then {env.mid} else {})
    && (forall m :: m != env.mid ==> AuditOf(p.w.db, m) == AuditOf(w.db, m))
  }

  /** Outcomes: a known message is skipped at once; a processed one is recorded with its
      exact audit trail. */
  ghost predicate OutcomeStep(s: Settings, env: Envelope, w: World, p: Processing) {
    var a := p.attempt;
    && (env.mid in Ledger(w.db) ==> !a.outcome.Processed? && p.w == w.(tick := w.tick + 1))
    && (a.outcome.AlreadyProcessed? ==> env.mid in Ledger(w.db))
    && (a.recorded ==> a.plan == Consolidate(Resolved(a.tags, s.actions)) && NativeTagsFirst(s, env, a.tags))
    && (a.outcome.Processed? ==>
          && a.recorded && a.outcome.tags == a.tags && a.outcome.actionsApplied == |a.plan|
          && |p.w.db.emissions| == |w.db.emissions| + a.outcome.webhooksEmitted
          && AuditOf(p.w.db, env.mid) == Audit(TagRows(a.tags, env.mid), ActionRows(a.plan, env.mid), FiredRows(s, env)))
  }

  /** The outside: no mail lost, at most one model call, webhooks only when processed and
      each wanted one at most once. */
  ghost predicate OutsideStep(s: Settings, env: Envelope, w: World, p: Processing) {
    var a := p.attempt;
    && Conserved(w.mail, p.w.mail, env.uid)
    && (p.w.llmCalls == w.llmCalls || p.w.llmCalls == w.llmCalls + multiset{env.mid})
    && (a.recorded && s.llm.Some? ==> p.w.llmCalls == w.llmCalls + multiset{env.mid})
    && w.deliveries <= p.w.deliveries
    && (!a.outcome.Processed? ==> p.w.deliveries == w.deliveries)
    && Distinct(p.w.deliveries[|w.deliveries|..])
    && (forall d :: d in p.w.deliveries[|w.deliveries|..] ==>
          d.mid == env.mid && d.hook in HookNames(s, a.tags) && Wanted(s, a.tags, d.hook))
  }

  lemma RecordFacts(s: Settings, env: Envelope, account: nat, tags: seq<string>, decision: Option<DecisionRow>,
                    plan: seq<Action>, w: World, o: Oracle)
    requires Sound(w.db) && env.mid !in Ledger(w.db) && 1 <= account <= |w.db.accounts|
    requires Distinct(tags) && (decision.Some? ==> decision.value.mid == env.mid)
    ensures var rec := SaveAll(Rows(s, env, account, decision, tags, plan), w.db, w.tick, o);
      && Sound(rec.at.db) && rec.at.db.accounts == w.db.accounts
      && FromOutside(rec.at.failure) && rec.at.tick >= w.tick
      && (rec.done == 0 ==> rec.at.db == w.db && rec.at.failure.Some?)
      && Ledger(rec.at.db) == Ledger(w.db) + (if rec.done > 0 then {env.mid} else {})
      && (forall m :: m != env.mid ==> AuditOf(rec.at.db, m) == AuditOf(w.db, m))
      && (rec.at.failure.None? ==> rec.at.db == Audited(s, env, account, decision, tags, plan, w.db))
      && (AllFine(o, w.tick, rec.at.tick) ==> rec.at.failure.None?)
  {
    hide Sound, AuditOf, Rows, SaveAll, Admissible, Audited;
    var rows := Rows(s, env, account, decision, tags, plan);
    RowsFit(s, env, account, decision, tags, plan, w.db);
    RowsAreAbout(s, env, account, decision, tags, plan);
    AdmissibleRowsRecord(w.db, rows, w.tick, o);
    SaveAllIsPrefix(rows, w.db, w.tick, o);
    var rec := SaveAll(rows, w.db, w.tick, o);
    var saved := rows[..rec.done];
    forall m | m != env.mid
      ensures AuditOf(rec.at.db, m) == AuditOf(w.db, m) && (m in Ledger(rec.at.db) <==> m in Ledger(w.db)) {
      AddAllKeepsOthers(w.db, saved, m);
    }
    AddAllLedger(w.db, saved, env.mid);
    assert rec.done == |rows| ==> rows[..|rows|] == rows;
  }

  /** A recorded beginning of a message's rows starts with its ledger row. */
  lemma {:induction false} AddAllLedger(db: Db, rows: seq<Row>, mid: string)
    requires mid !in Ledger(db)
    requires rows != [] ==> rows[0].Message? && rows[0].message.mid == mid
    ensures mid in Ledger(AddAll(db, rows)) <==> rows != []
    ensures AddAll(db, rows).accounts == db.accounts
  {
    if rows != [] {
      var front := rows[..|rows| - 1];
      AddAllLedger(db, front, mid);
      LedgerOfAdd(AddAll(db, front), rows[|rows| - 1]);
    }
  }

  lemma RecordSteps(s: Settings, env: Envelope, account: nat, tags: seq<string>, decision: Option<DecisionRow>,
                    plan: seq<Action>, w0: World, w: World, o: Oracle)
    requires Sound(w.db) && env.mid !in Ledger(w.db) && 1 <= account <= |w.db.accounts|
    requires Distinct(tags) && (decision.Some? ==> decision.value.mid == env.mid) && NativeTagsFirst(s, env, tags)
    requires plan == Consolidate(Resolved(tags, s.actions))
    requires w.db == w0.db && Conserved(w0.mail, w.mail, env.uid) && w.deliveries == w0.deliveries && w.tick > w0.tick
    requires w.llmCalls == w0.llmCalls || w.llmCalls == w0.llmCalls + multiset{env.mid}
    requires s.llm.Some? ==> w.llmCalls == w0.llmCalls + multiset{env.mid}
    ensures Step(s, env, w0, Record(s, env, account, tags, decision, plan, w, o))
    ensures AllFine(o, w.tick, Record(s, env, account, tags, decision, plan, w, o).w.tick) ==>
      Record(s, env, account, tags, decision, plan, w, o).attempt.outcome.Processed?
  {
    hide NativeTagsFirst, Sound, Conserved, AuditOf, Ledger, Consolidate, Rows, SaveAll, EmitAll, Audited, HookNames, TagRows, ActionRows, FiredRows;
    var rec := SaveAll(Rows(s, env, account, decision, tags, plan), w.db, w.tick, o);
    RecordFacts(s, env, account, tags, decision, plan, w, o);
    var w1 := w.(db := rec.at.db, tick := rec.at.tick);
    if rec.at.failure.None? {
      var names := HookNames(s, tags);
      HookNamesAreDistinct(s, tags);
      EmissionFacts(s, env.mid, tags, names, w1, o);
      var e := EmitAll(s, env.mid, tags, names, w1, o);
      AuditIsExact(s, env, account, decision, tags, plan, w.db);
      AuditedKeepsEmissions(s, env, account, decision, tags, plan, w.db);
      forall m { EmissionKeepsAudit(rec.at.db, e.w.db, m); }
    } else {
      assert w1.deliveries[|w0.deliveries|..] == [];
    }
  }

  lemma HookNamesAreDistinct(s: Settings, tags: seq<string>)
    ensures Distinct(HookNames(s, tags))
  {
    DedupMembers(HooksOfTags(tags, s.actions));
  }

  lemma AuditedKeepsEmissions(s: Settings, env: Envelope, account: nat, decision: Option<DecisionRow>,
                              tags: seq<string>, executed: seq<Action>, db: Db)
    ensures Audited(s, env, account, decision, tags, executed, db).emissions == db.emissions
  {
  }

  lemma EmissionKeepsAudit(a: Db, b: Db, mid: string)
    requires b == a.(emissions := b.emissions)
    ensures AuditOf(b, mid) == AuditOf(a, mid) && Ledger(b) == Ledger(a)
  {
  }

  lemma FinishSteps(s: Settings, env: Envelope, account: nat, tags: seq<string>, decision: Option<DecisionRow>,
                    w0: World, w: World, o: Oracle)
    requires Sound(w.db) && env.mid !in Ledger(w.db) && 1 <= account <= |w.db.accounts|
    requires Distinct(tags) && (decision.Some? ==> decision.value.mid == env.mid) && NativeTagsFirst(s, env, tags)
    requires w.db == w0.db && w.mail == w0.mail && w.deliveries == w0.deliveries && w.tick > w0.tick
    requires w.llmCalls == w0.llmCalls || w.llmCalls == w0.llmCalls + multiset{env.mid}
    requires s.llm.Some? ==> w.llmCalls == w0.llmCalls + multiset{env.mid}
    ensures Step(s, env, w0, Finish(s, env, account, tags, decision, w, o))
    ensures AllFine(o, w.tick, Finish(s, env, account, tags, decision, w, o).w.tick) ==>
      Finish(s, env, account, tags, decision, w, o).attempt.outcome.Processed?
  {
    hide NativeTagsFirst, Sound, Record, Conserved, AuditOf, Ledger, Run, Consolidate;
    var plan := Consolidate(Resolved(tags, s.actions));
    var run := Run(plan, env.uid, w.mail, w.tick, o);
    RunConserves(plan, env.uid, w.mail, w.tick, o);
    RunBounds(plan, env.uid, w.mail, w.tick, o);
    RunIsFine(plan, env.uid, w.mail, w.tick, o);
    var w1 := w.(mail := run.at.box, tick := run.at.tick);
    if run.at.failure.None? {
      RecordSteps(s, env, account, tags, decision, plan, w0, w1, o);
    } else {
      assert w1.deliveries[|w0.deliveries|..] == [];
    }
  }

  /** Processing one message is always a `Step`, and without faults from outside it leaves
      the message in the ledger. */
  lemma ProcessSteps(s: Settings, env: Envelope, account: nat, w: World, o: Oracle)
    requires Sound(w.db) && 1 <= account <= |w.db.accounts|
    ensures Step(s, env, w, Process(s, env, account, w, o))
    ensures AllFine(o, w.tick, Process(s, env, account, w, o).w.tick) ==>
      !Process(s, env, account, w, o).attempt.outcome.Failed?
  {
    hide NativeTagsFirst, Sound, Preparing, Finish, Conserved, AuditOf, Ledger;
    var prep := Preparing(s, env, w, o);
    var p := Process(s, env, account, w, o);
    PreparationFacts(s, env, w, o);
    NothingConserves(w.mail, env.uid);
    if prep.status.Ready? {
      FinishSteps(s, env, account, prep.status.tags, prep.status.decision, w, prep.w, o);
    } else {
      assert p.w.deliveries[|w.deliveries|..] == [];
    }
  }
}
