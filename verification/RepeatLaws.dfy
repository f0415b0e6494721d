/** What an attempt does exactly, call by call, and what a second attempt at the same
    message repeats. */
module RepeatLaws {
  import opened Seqs
  import opened Calls
  import opened Actions
  import opened ActionLaws
  import opened Sidecar
  import opened Pipeline
  import opened ProcessLaws

  // ----- Which actions take effect -----

  /** The call that carries out the k-th action itself, after its folder was made sure of. */
  function CommandCall(plan: seq<Action>, k: nat, uid: nat, m: Imap, t: nat, o: Oracle): nat
    requires k < |plan|
  {
    var here := Run(plan[..k], uid, m, t, o).at;
    match plan[k]
    case CopyTo(folder) => Ensuring(here.box, BergerFolder(folder), here.tick, o).tick
    case MoveTo(folder) => Ensuring(here.box, BergerFolder(folder), here.tick, o).tick
    case _ => here.tick
  }

  /** Every call before the k-th command was fine, and that one was not refused: it was
      carried out, even if its reply was lost. */
  predicate TookEffect(plan: seq<Action>, k: nat, uid: nat, m: Imap, t: nat, o: Oracle)
    requires k < |plan|
  {
    AllFine(o, t, CommandCall(plan, k, uid, m, t, o)) && o(CommandCall(plan, k, uid, m, t, o)).fault != Refused
  }

  /** The folders of the copies that took effect, in order. */
  function Landed(plan: seq<Action>, uid: nat, m: Imap, t: nat, o: Oracle): seq<string> {
    if plan == [] then []
    else
      var last := |plan| - 1;
      Landed(plan[..last], uid, m, t, o)
      + (if plan[last].CopyTo? && TookEffect(plan, last, uid, m, t, o) then [plan[last].folder] else [])
  }

  /** The plan's move took effect. */
  ghost predicate Moved(plan: seq<Action>, uid: nat, m: Imap, t: nat, o: Oracle) {
    exists k :: 0 <= k < |plan| && plan[k].MoveTo? && TookEffect(plan, k, uid, m, t, o)
  }

  /** The folder's copy took effect. */
  ghost predicate Lands(plan: seq<Action>, f: string, uid: nat, m: Imap, t: nat, o: Oracle) {
    exists k :: 0 <= k < |plan| && plan[k] == CopyTo(f) && TookEffect(plan, k, uid, m, t, o)
  }

  lemma EffectOfFront(plan: seq<Action>, k: nat, uid: nat, m: Imap, t: nat, o: Oracle)
    requires k < |plan| - 1
    ensures TookEffect(plan[..|plan| - 1], k, uid, m, t, o) <==> TookEffect(plan, k, uid, m, t, o)
  {
    assert plan[..|plan| - 1][..k] == plan[..k];
  }

  lemma {:induction false} LandedMembers(plan: seq<Action>, uid: nat, m: Imap, t: nat, o: Oracle)
    ensures forall f :: f in Landed(plan, uid, m, t, o) ==> Lands(plan, f, uid, m, t, o)
    ensures forall f :: Lands(plan, f, uid, m, t, o) ==> f in Landed(plan, uid, m, t, o)
    ensures Distinct(plan) ==> Distinct(Landed(plan, uid, m, t, o))
    ensures forall f :: f in Landed(plan, uid, m, t, o) ==> CopyTo(f) in plan
  {
    hide TookEffect;
    if plan != [] {
      var front := plan[..|plan| - 1];
      LandedMembers(front, uid, m, t, o);
      forall k | 0 <= k < |front| ensures TookEffect(front, k, uid, m, t, o) <==> TookEffect(plan, k, uid, m, t, o) {
        EffectOfFront(plan, k, uid, m, t, o);
      }
      assert forall f :: CopyTo(f) in front ==> CopyTo(f) in plan;
    }
  }

  lemma EnsuringFailsByFault(m: Imap, path: string, t: nat, o: Oracle)
    ensures var ready := Ensuring(m, path, t, o);
      ready.tick > t && (ready.failure.None? <==> AllFine(o, t, ready.tick))
  {
  }

  lemma PerformFailsByFault(x: Action, uid: nat, m: Imap, t: nat, o: Oracle)
    ensures var r := Perform(x, uid, m, t, o); r.tick > t && (r.failure.None? <==> AllFine(o, t, r.tick))
  {
    hide Copying, Moving, Flagging;
    PerformIsFine(x, uid, m, t, o);
    if x.CopyTo? || x.MoveTo? { EnsuringFailsByFault(m, BergerFolder(x.folder), t, o); }
  }

  /** A run completes if and only if none of its calls fails. */
  lemma {:induction false} RunFailsByFault(plan: seq<Action>, uid: nat, m: Imap, t: nat, o: Oracle)
    ensures Run(plan, uid, m, t, o).at.failure.None? <==> AllFine(o, t, Run(plan, uid, m, t, o).at.tick)
    ensures Run(plan, uid, m, t, o).at.tick >= t
  {
    hide Perform;
    if plan != [] {
      var front := plan[..|plan| - 1];
      RunFailsByFault(front, uid, m, t, o);
      var p := Run(front, uid, m, t, o).at;
      if p.failure.None? { PerformFailsByFault(plan[|plan| - 1], uid, p.box, p.tick, o); }
    }
  }

  lemma EnsuringEffect(m: Imap, path: string, t: nat, o: Oracle, c: string)
    ensures var box := Ensuring(m, path, t, o).box; box.inbox == m.inbox && CopyCount(box, c) == CopyCount(m, c)
    ensures Ensuring(m, path, t, o).failure.None? ==> path in Ensuring(m, path, t, o).box.folders
  {
    hide CopyCount;
    CountsOfCommands(m, 0, path, Seen, c);
  }

  lemma InFolderEffect(m: Imap, uid: nat, path: string, move: bool, t: nat, o: Oracle, c: string)
    requires path in m.folders
    ensures var box := RespondInFolder(m, uid, path, move, t, o).box;
      var took := o(t).fault != Refused;
      && (uid in box.inbox <==> uid in m.inbox && !(move && took))
      && (uid in box.inbox ==> box.inbox[uid].content == m.inbox[uid].content)
      && CopyCount(box, c)
         == CopyCount(m, c) + (if !move && took && uid in m.inbox && m.inbox[uid].content == c then 1 else 0)
  {
    hide CopyCount;
    CountsOfCommands(m, uid, path, Seen, c);
  }

  lemma FlagEffect(m: Imap, uid: nat, flag: Flag, t: nat, o: Oracle, c: string)
    ensures var box := Respond(m, Flagging(m, uid, flag), t, o).box;
      && (uid in box.inbox <==> uid in m.inbox)
      && (uid in box.inbox ==> box.inbox[uid].content == m.inbox[uid].content)
      && CopyCount(box, c) == CopyCount(m, c)
  {
    hide CopyCount;
    CountsOfCommands(m, uid, "", flag, c);
  }

  /** One action on a server: where its own command stands, and what the command does. */
  lemma PerformEffect(x: Action, uid: nat, m: Imap, t: nat, o: Oracle, c: string)
    ensures var call := CommandCall([x], 0, uid, m, t, o);
      var box := Perform(x, uid, m, t, o).box;
      var took := AllFine(o, t, call) && o(call).fault != Refused;
      && (uid in box.inbox <==> uid in m.inbox && !(x.MoveTo? && took))
      && (uid in box.inbox ==> box.inbox[uid].content == m.inbox[uid].content)
      && CopyCount(box, c)
         == CopyCount(m, c) + (if x.CopyTo? && took && uid in m.inbox && m.inbox[uid].content == c then 1 else 0)
  {
    hide CopyCount, Ensuring, RespondInFolder, Respond, Flagging;
    RunNone(uid, m, t, o);
    assert [x][..0] == [];
    if x.CopyTo? || x.MoveTo? {
      var path := BergerFolder(x.folder);
      var ready := Ensuring(m, path, t, o);
      EnsuringFailsByFault(m, path, t, o);
      EnsuringEffect(m, path, t, o, c);
      if ready.failure.None? { InFolderEffect(ready.box, uid, path, x.MoveTo?, ready.tick, o, c); }
    } else {
      FlagEffect(m, uid, if x.MarkSeen? then Seen else Flagged, t, o, c);
    }
  }

  predicate MovesOnlyLast(plan: seq<Action>) { forall i :: 0 <= i < |plan| - 1 ==> !plan[i].MoveTo? }

  /** Exact conservation, whatever fails: every copy that took effect adds one copy of the
      message, nothing else adds or removes any; and the message leaves INBOX exactly when
      the move took effect. */
  lemma {:induction false} RunLands(plan: seq<Action>, uid: nat, m: Imap, t: nat, o: Oracle, c: string)
    requires MovesOnlyLast(plan)
    ensures var box := Run(plan, uid, m, t, o).at.box;
      && (uid in box.inbox <==> uid in m.inbox && !Moved(plan, uid, m, t, o))
      && (uid in box.inbox ==> box.inbox[uid].content == m.inbox[uid].content)
      && CopyCount(box, c) == CopyCount(m, c)
         + (if uid in m.inbox && m.inbox[uid].content == c then |Landed(plan, uid, m, t, o)| else 0)
  {
    hide CopyCount, Perform, CommandCall;
    if plan != [] {
      var n := |plan| - 1;
      var front, last := plan[..n], plan[n];
      RunLands(front, uid, m, t, o, c);
      RunFailsByFault(front, uid, m, t, o);
      CommandOfLast(plan, uid, m, t, o);
      var p := Run(front, uid, m, t, o).at;
      if p.failure.None? { PerformEffect(last, uid, p.box, p.tick, o, c); }
      assert Moved(plan, uid, m, t, o) <==> last.MoveTo? && TookEffect(plan, n, uid, m, t, o);
    }
  }

  lemma CommandOfLast(plan: seq<Action>, uid: nat, m: Imap, t: nat, o: Oracle)
    requires plan != []
    ensures var n := |plan| - 1;
      var p := Run(plan[..n], uid, m, t, o).at;
      && CommandCall(plan, n, uid, m, t, o) == CommandCall([plan[n]], 0, uid, p.box, p.tick, o) >= p.tick
  {
    assert [plan[|plan| - 1]][..0] == [];
  }

  lemma ConsolidateMovesLast(actions: seq<Action>)
    ensures MovesOnlyLast(Consolidate(actions))
  {
    hide FlagPart, KeptCopies, CopyAll;
    FrontHasNoMove(actions);
  }

  lemma {:induction false} AllLand(plan: seq<Action>, uid: nat, m: Imap, t: nat, o: Oracle)
    requires Run(plan, uid, m, t, o).at.failure.None?
    ensures Landed(plan, uid, m, t, o) == CopyTargets(plan)
    ensures plan != [] ==> TookEffect(plan, |plan| - 1, uid, m, t, o)
  {
    hide Perform, CommandCall;
    if plan != [] {
      var n := |plan| - 1;
      var p := Run(plan[..n], uid, m, t, o).at;
      AllLand(plan[..n], uid, m, t, o);
      CommandOfLast(plan, uid, m, t, o);
      RunFailsByFault(plan, uid, m, t, o);
      RunFailsByFault(plan[..n], uid, m, t, o);
      CommandBeforeEnd(plan[n], uid, p.box, p.tick, o);
    }
  }

  lemma CommandBeforeEnd(x: Action, uid: nat, m: Imap, t: nat, o: Oracle)
    requires Perform(x, uid, m, t, o).failure.None?
    ensures CommandCall([x], 0, uid, m, t, o) < Perform(x, uid, m, t, o).tick
  {
    assert [x][..0] == [];
  }

  /** An application that succeeds adds one copy for each kept copy action, none for a move;
      and the message is gone from INBOX exactly after a move. */
  lemma AppliedCopies(actions: seq<Action>, uid: nat, m: Imap, t: nat, o: Oracle, c: string)
    requires Run(Consolidate(actions), uid, m, t, o).at.failure.None?
    ensures var box := Run(Consolidate(actions), uid, m, t, o).at.box;
      && (uid in box.inbox <==> uid in m.inbox && MoveTargets(actions) == [])
      && (uid in box.inbox ==> box.inbox[uid].content == m.inbox[uid].content)
      && CopyCount(box, c)
         == CopyCount(m, c) + (if uid in m.inbox && m.inbox[uid].content == c then |KeptCopies(actions)| else 0)
  {
    hide CopyCount, Run, FlagPart, KeptCopies, CopyTargets, MoveTargets, CopyAll, TookEffect, Landed;
    var plan := Consolidate(actions);
    ConsolidateMovesLast(actions);
    RunLands(plan, uid, m, t, o, c);
    AllLand(plan, uid, m, t, o);
    TargetsOfConsolidated(actions);
    FrontHasNoMove(actions);
    assert MoveTargets(actions) != [] ==> plan[|plan| - 1].MoveTo?;
  }

  // ----- One attempt, call by call -----

  /** Where the actions of an attempt begun in `w` start: after the ledger read and the
      download, and with a classifier after the cache read and the model call. */
  function RunStart(s: Settings, w: World): nat { w.tick + (if s.llm.None? then 2 else 4) }

  /** The reads an attempt needs before its actions. */
  predicate ReadsFine(s: Settings, w: World, o: Oracle) { AllFine(o, w.tick, w.tick + (if s.llm.None? then 2 else 3)) }

  /** An attempt gets to its actions if and only if the message is new and the reads succeed. */
  lemma ReadyExactlyWhen(s: Settings, env: Envelope, w: World, o: Oracle)
    requires Sound(w.db)
    ensures var prep := Preparing(s, env, w, o);
      && (prep.status.Ready? <==> env.mid !in Ledger(w.db) && ReadsFine(s, w, o))
      && (prep.status.Ready? ==> prep.w.tick == RunStart(s, w))
      && (prep.status.Ready? && s.llm.None? ==> prep.status.tags == FilterTags(s.filters, s.view(env), s.rx))
  {
    hide Sound, Ledger, FilterTags, Cached, Merged, ClassificationTags, ExtractJson;
    if env.mid !in Ledger(w.db) && s.llm.Some? { CacheAlwaysMisses(s, env, w, s.llm.value.promptHash(env)); }
  }

  lemma {:induction false} FirstRowDecides(rows: seq<Row>, db: Db, t: nat, o: Oracle)
    requires rows != []
    ensures SaveAll(rows, db, t, o).done > 0 <==> Saving(db, rows[0], t, o).failure.None?
  {
    var front := rows[..|rows| - 1];
    if front == [] {
      assert SaveAll(front, db, t, o) == Recording(Saved(db, t, None), 0);
    } else {
      FirstRowDecides(front, db, t, o);
    }
  }

  lemma {:induction false} EmissionKeepsMail(s: Settings, mid: string, tags: seq<string>, names: seq<string>, w: World, o: Oracle)
    ensures EmitAll(s, mid, tags, names, w, o).w.mail == w.mail
    ensures EmitAll(s, mid, tags, names, w, o).w.llmCalls == w.llmCalls
    ensures EmitAll(s, mid, tags, names, w, o).w.tick >= w.tick
  {
    if names != [] { EmissionKeepsMail(s, mid, tags, names[..|names| - 1], w, o); }
  }

  /** What recording leaves alone, and when its ledger row is stored. */
  lemma RecordEffect(s: Settings, env: Envelope, account: nat, tags: seq<string>, decision: Option<DecisionRow>,
                     plan: seq<Action>, w: World, o: Oracle)
    requires env.mid !in Ledger(w.db) && 1 <= account <= |w.db.accounts|
    ensures var p := Record(s, env, account, tags, decision, plan, w, o);
      && p.w.mail == w.mail && p.w.llmCalls == w.llmCalls && p.w.tick > w.tick
      && p.attempt.plan == plan && p.attempt.ran == |plan|
      && (p.attempt.recorded <==> o(w.tick).fault == Fine)
  {
    hide SaveAll, Rows, EmitAll, HookNames;
    var rows := Rows(s, env, account, decision, tags, plan);
    var rec := SaveAll(rows, w.db, w.tick, o);
    SaveAllIsPrefix(rows, w.db, w.tick, o);
    LedgerRowIsFirst(s, env, account, decision, tags, plan);
    FirstRowDecides(rows, w.db, w.tick, o);
    EmissionKeepsMail(s, env.mid, tags, HookNames(s, tags), w.(db := rec.at.db, tick := rec.at.tick), o);
  }

  lemma LedgerRowIsFirst(s: Settings, env: Envelope, account: nat, decision: Option<DecisionRow>, tags: seq<string>, plan: seq<Action>)
    ensures var rows := Rows(s, env, account, decision, tags, plan); rows != [] && rows[0] == Message(LedgerRow(s, env, account))
  {
  }

  /** An attempt call by call. If it gets to its actions it runs their consolidation, else it
      runs none; and it is recorded if and only if every call of that run and the very next
      call, the ledger insert, are fine. */
  lemma AttemptRuns(s: Settings, env: Envelope, account: nat, w: World, o: Oracle)
    requires Sound(w.db) && 1 <= account <= |w.db.accounts|
    ensures var prep := Preparing(s, env, w, o);
      var p := Process(s, env, account, w, o);
      var run := Run(p.attempt.plan, env.uid, w.mail, RunStart(s, w), o);
      && p.attempt.plan == (if prep.status.Ready? then Consolidate(Resolved(prep.status.tags, s.actions)) else [])
      && p.w.mail == run.at.box && p.w.llmCalls == prep.w.llmCalls
      && p.attempt.ran == run.done
      && (p.attempt.recorded <==> prep.status.Ready? && AllFine(o, RunStart(s, w), run.at.tick + 1))
      && p.w.tick > w.tick
      && (prep.status.Ready? && run.at.failure.None? ==> p.w.tick > run.at.tick)
      && (prep.status.Ready? ==> p.w.tick >= run.at.tick)
      && (!prep.status.Ready? ==> p.w == prep.w)
  {
    hide Sound, Preparing, Consolidate, Resolved, Run, Record, NativeTagsFirst, RunStart;
    var prep := Preparing(s, env, w, o);
    PreparationFacts(s, env, w, o);
    ReadyExactlyWhen(s, env, w, o);
    match prep.status
    case Ready(tags, decision) =>
      var plan := Consolidate(Resolved(tags, s.actions));
      var run := Run(plan, env.uid, prep.w.mail, prep.w.tick, o);
      RunFailsByFault(plan, env.uid, prep.w.mail, prep.w.tick, o);
      RunBounds(plan, env.uid, prep.w.mail, prep.w.tick, o);
      RecordEffect(s, env, account, tags, decision, plan, prep.w.(mail := run.at.box, tick := run.at.tick), o);
    case _ =>
      RunNone(env.uid, w.mail, RunStart(s, w), o);
  }

  // ----- Copies of two attempts -----

  /** The folders an attempt begun in `w` put a copy of the message into. */
  function Copied(s: Settings, env: Envelope, w: World, p: Processing, o: Oracle): seq<string> {
    if env.uid in w.mail.inbox then Landed(p.attempt.plan, env.uid, w.mail, RunStart(s, w), o) else []
  }

  lemma CopiesOfAttempt(s: Settings, env: Envelope, account: nat, w: World, o: Oracle, c: string)
    requires Sound(w.db) && 1 <= account <= |w.db.accounts|
    ensures var p := Process(s, env, account, w, o);
      && Distinct(Copied(s, env, w, p, o))
      && CopyCount(p.w.mail, c) == CopyCount(w.mail, c)
         + (if env.uid in w.mail.inbox && w.mail.inbox[env.uid].content == c then |Copied(s, env, w, p, o)| else 0)
      && (env.uid in p.w.mail.inbox
          <==> env.uid in w.mail.inbox && !Moved(p.attempt.plan, env.uid, w.mail, RunStart(s, w), o))
      && (env.uid in p.w.mail.inbox ==> p.w.mail.inbox[env.uid].content == w.mail.inbox[env.uid].content)
  {
    hide Process, Sound, CopyCount, Preparing, Consolidate, Resolved, Run, RunStart, Landed, Moved;
    var p := Process(s, env, account, w, o);
    var prep := Preparing(s, env, w, o);
    AttemptRuns(s, env, account, w, o);
    if prep.status.Ready? {
      ConsolidateMovesLast(Resolved(prep.status.tags, s.actions));
      ConsolidateIsDistinct(Resolved(prep.status.tags, s.actions));
    }
    RunLands(p.attempt.plan, env.uid, w.mail, RunStart(s, w), o, c);
    LandedMembers(p.attempt.plan, env.uid, w.mail, RunStart(s, w), o);
  }

  /** The copies made by two attempts add up, whatever fails in either. */
  lemma CopiesOfTwoAttempts(s: Settings, env: Envelope, account: nat, w: World, o: Oracle, c: string)
    requires Sound(w.db) && 1 <= account <= |w.db.accounts|
    ensures var p := Process(s, env, account, w, o);
      var q := Process(s, env, account, p.w, o);
      CopyCount(q.w.mail, c) == CopyCount(w.mail, c)
        + (if env.uid in w.mail.inbox && w.mail.inbox[env.uid].content == c
           then |Copied(s, env, w, p, o)| + |Copied(s, env, p.w, q, o)| else 0)
  {
    hide Process, Sound, CopyCount, Moved, Landed, AuditOf, Conserved, Ledger;
    CopiesOfAttempt(s, env, account, w, o, c);
    ProcessSteps(s, env, account, w, o);
    CopiesOfAttempt(s, env, account, Process(s, env, account, w, o).w, o, c);
  }

  /** The first attempt stored its ledger row: every call from its actions to the ledger
      insert was fine. */
  ghost predicate Stored(s: Settings, env: Envelope, w: World, plan: seq<Action>, o: Oracle) {
    && env.mid !in Ledger(w.db) && ReadsFine(s, w, o)
    && AllFine(o, RunStart(s, w), Run(plan, env.uid, w.mail, RunStart(s, w), o).at.tick + 1)
  }

  /** The ledger does not prevent all double processing. The second attempt repeats the copy
      into a folder exactly when the first one's copy took effect, it stored no ledger row,
      its move did not take effect, and the second one's copy takes effect too. */
  lemma RepeatedExactlyWhen(s: Settings, env: Envelope, account: nat, w: World, o: Oracle, f: string)
    requires Sound(w.db) && 1 <= account <= |w.db.accounts| && env.uid in w.mail.inbox
    ensures var p := Process(s, env, account, w, o);
      var q := Process(s, env, account, p.w, o);
      (f in Copied(s, env, w, p, o) && f in Copied(s, env, p.w, q, o))
      <==>
      (&& Lands(p.attempt.plan, f, env.uid, w.mail, RunStart(s, w), o)
       && !Stored(s, env, w, p.attempt.plan, o)
       && !Moved(p.attempt.plan, env.uid, w.mail, RunStart(s, w), o)
       && Lands(q.attempt.plan, f, env.uid, p.w.mail, RunStart(s, p.w), o))
  {
    hide Process, Sound, Moved, Landed, Run, AuditOf, Conserved, CopyCount, Preparing, RunStart, ReadsFine, Consolidate, Resolved, Ledger;
    var p := Process(s, env, account, w, o);
    var q := Process(s, env, account, p.w, o);
    AttemptRuns(s, env, account, w, o);
    ReadyExactlyWhen(s, env, w, o);
    ProcessSteps(s, env, account, w, o);
    CopiesOfAttempt(s, env, account, w, o, "");
    AttemptRuns(s, env, account, p.w, o);
    ReadyExactlyWhen(s, env, p.w, o);
    LandedMembers(p.attempt.plan, env.uid, w.mail, RunStart(s, w), o);
    LandedMembers(q.attempt.plan, env.uid, p.w.mail, RunStart(s, p.w), o);
  }

  /** A second attempt none of whose calls fails repeats each copy of the first that it asks
      for again, if and only if the first stored no ledger row and left the message in INBOX;
      without a classifier it asks for all of them again. */
  lemma RetryRepeats(s: Settings, env: Envelope, account: nat, w: World, o: Oracle, f: string)
    requires Sound(w.db) && 1 <= account <= |w.db.accounts| && env.uid in w.mail.inbox
    requires var p := Process(s, env, account, w, o);
      f in Copied(s, env, w, p, o) && AllFine(o, p.w.tick, Process(s, env, account, p.w, o).w.tick)
    ensures var p := Process(s, env, account, w, o);
      var q := Process(s, env, account, p.w, o);
      var again := !Stored(s, env, w, p.attempt.plan, o) && !Moved(p.attempt.plan, env.uid, w.mail, RunStart(s, w), o);
      && (f in Copied(s, env, p.w, q, o) <==> again && CopyTo(f) in q.attempt.plan)
      && (s.llm.None? ==> (f in Copied(s, env, p.w, q, o) <==> again))
  {
    hide Process, Sound, Moved, Landed, Run, AuditOf, Conserved, CopyCount, Preparing, Consolidate, Resolved, FilterTags, Ledger;
    var p := Process(s, env, account, w, o);
    var q := Process(s, env, account, p.w, o);
    RepeatedExactlyWhen(s, env, account, w, o, f);
    AttemptRuns(s, env, account, w, o);
    ReadyExactlyWhen(s, env, w, o);
    ProcessSteps(s, env, account, w, o);
    AttemptRuns(s, env, account, p.w, o);
    ReadyExactlyWhen(s, env, p.w, o);
    PreparationFacts(s, env, p.w, o);
    LandedMembers(p.attempt.plan, env.uid, w.mail, RunStart(s, w), o);
    if Preparing(s, env, p.w, o).status.Ready? {
      var t := RunStart(s, p.w);
      RunFailsByFault(q.attempt.plan, env.uid, p.w.mail, t, o);
      assert AllFine(o, t, Run(q.attempt.plan, env.uid, p.w.mail, t, o).at.tick);
      AllLand(q.attempt.plan, env.uid, p.w.mail, t, o);
      TargetsAre(q.attempt.plan, f);
      LandedMembers(q.attempt.plan, env.uid, p.w.mail, t, o);
    }
  }

  lemma OneCopyPlan(f: string)
    ensures Consolidate([CopyTo(f)]) == [CopyTo(f)]
  {
    hide Dedup, Select, CopyTargets, MoveTargets;
    TargetsOfOne(CopyTo(f));
    DedupOfDistinct([f]);
    SelectAll([f], NotAmong([]));
    assert CopyAll([f]) == [CopyTo(f)];
    assert FlagPart([CopyTo(f)]) == [];
  }

  lemma OneCopyLands(f: string, uid: nat, m: Imap, t: nat, o: Oracle)
    requires BergerFolder(f) in m.folders && o(t).fault == Fine && o(t + 1).fault != Refused
    ensures Landed([CopyTo(f)], uid, m, t, o) == [f] && !Moved([CopyTo(f)], uid, m, t, o)
    ensures Run([CopyTo(f)], uid, m, t, o).at.tick == t + 2
  {
    hide Copying;
    RunOne(CopyTo(f), uid, m, t, o);
    RunNone(uid, m, t, o);
    assert [CopyTo(f)][..0] == [];
    assert CommandCall([CopyTo(f)], 0, uid, m, t, o) == t + 1;
  }

  lemma OneCopyAttempt(s: Settings, env: Envelope, account: nat, w: World, o: Oracle, f: string)
    requires Sound(w.db) && 1 <= account <= |w.db.accounts| && s.llm.None?
    requires env.mid !in Ledger(w.db) && env.uid in w.mail.inbox && BergerFolder(f) in w.mail.folders
    requires Resolved(FilterTags(s.filters, s.view(env), s.rx), s.actions) == [CopyTo(f)]
    requires AllFine(o, w.tick, w.tick + 3) && o(w.tick + 3).fault != Refused
    ensures var p := Process(s, env, account, w, o);
      && Copied(s, env, w, p, o) == [f]
      && p.w.tick >= w.tick + 4 && (AllFine(o, w.tick, w.tick + 4) ==> p.w.tick > w.tick + 4)
      && Sound(p.w.db) && p.w.db.accounts == w.db.accounts
      && env.uid in p.w.mail.inbox && BergerFolder(f) in p.w.mail.folders
      && p.w.mail.inbox[env.uid].content == w.mail.inbox[env.uid].content
      && (env.mid in Ledger(p.w.db) <==> AllFine(o, w.tick, w.tick + 5))
  {
    hide Process, Sound, FilterTags, Resolved, Consolidate, Run, Landed, Moved, Preparing, CopyCount, AuditOf, Ledger, Perform;
    OneCopyPlan(f);
    ReadyExactlyWhen(s, env, w, o);
    AttemptRuns(s, env, account, w, o);
    OneCopyLands(f, env.uid, w.mail, w.tick + 2, o);
    RunFailsByFault([CopyTo(f)], env.uid, w.mail, w.tick + 2, o);
    CopiesOfAttempt(s, env, account, w, o, "");
    ProcessSteps(s, env, account, w, o);
  }

  /** One failing call is enough: a message with a single copy action ends up with two more
      copies, when the reply to the copy is lost as when the ledger insert fails after it. */
  lemma ACopyCanBeMadeTwice(s: Settings, env: Envelope, account: nat, w: World, o: Oracle, f: string, bad: nat, fault: Fault)
    requires Sound(w.db) && 1 <= account <= |w.db.accounts| && s.llm.None?
    requires env.mid !in Ledger(w.db) && env.uid in w.mail.inbox && BergerFolder(f) in w.mail.folders
    requires Resolved(FilterTags(s.filters, s.view(env), s.rx), s.actions) == [CopyTo(f)]
    requires (bad == w.tick + 3 && fault == Lost) || (bad == w.tick + 4 && fault != Fine)
    requires forall t :: o(t).fault == if t == bad then fault else Fine
    ensures var q := Process(s, env, account, Process(s, env, account, w, o).w, o);
      var c := w.mail.inbox[env.uid].content;
      CopyCount(q.w.mail, c) == CopyCount(w.mail, c) + 2
  {
    hide Process, Sound, FilterTags, Resolved, CopyCount, Copied, Ledger;
    OneCopyAttempt(s, env, account, w, o, f);
    assert o(bad).fault != Fine;
    OneCopyAttempt(s, env, account, Process(s, env, account, w, o).w, o, f);
    CopiesOfTwoAttempts(s, env, account, w, o, w.mail.inbox[env.uid].content);
  }

  // ----- Model calls -----

  /** The model is called on an attempt if and only if the message is new and the ledger
      read, the download and the cache read succeed. */
  lemma ModelCalledExactlyWhen(s: Settings, env: Envelope, account: nat, w: World, o: Oracle)
    requires Sound(w.db) && 1 <= account <= |w.db.accounts| && s.llm.Some?
    ensures Process(s, env, account, w, o).w.llmCalls
         == w.llmCalls + (if env.mid !in Ledger(w.db) && AllFine(o, w.tick, w.tick + 3) then multiset{env.mid} else multiset{})
  {
    hide Sound, Ledger, Preparing, Process, Run, Consolidate, Resolved;
    AttemptRuns(s, env, account, w, o);
    ReadyExactlyWhen(s, env, w, o);
    PreparationFacts(s, env, w, o);
    OnlyReadyCalls(s, env, w, o);
  }

  lemma OnlyReadyCalls(s: Settings, env: Envelope, w: World, o: Oracle)
    ensures !Preparing(s, env, w, o).status.Ready? ==> Preparing(s, env, w, o).w.llmCalls == w.llmCalls
  {
    hide FilterTags, Cached, Merged, ClassificationTags, ExtractJson;
  }

  /** Two attempts at a new message classify it twice if and only if both get past their three
      reads and some call from the first one's actions to its ledger insert fails. */
  lemma ModelCanBeCalledAgain(s: Settings, env: Envelope, account: nat, w: World, o: Oracle)
    requires Sound(w.db) && 1 <= account <= |w.db.accounts| && s.llm.Some?
    ensures var p := Process(s, env, account, w, o);
      var ledgerCall := Run(p.attempt.plan, env.uid, w.mail, w.tick + 4, o).at.tick;
      Process(s, env, account, p.w, o).w.llmCalls[env.mid] == w.llmCalls[env.mid] + 2
      <==>
      (&& env.mid !in Ledger(w.db) && AllFine(o, w.tick, w.tick + 3) && AllFine(o, p.w.tick, p.w.tick + 3)
       && !AllFine(o, w.tick + 4, ledgerCall + 1))
  {
    hide Process, Sound, AuditOf, Conserved, Preparing, Run, Ledger, Consolidate, Resolved;
    var p := Process(s, env, account, w, o);
    ProcessSteps(s, env, account, w, o);
    AttemptRuns(s, env, account, w, o);
    ReadyExactlyWhen(s, env, w, o);
    ModelCalledExactlyWhen(s, env, account, w, o);
    ModelCalledExactlyWhen(s, env, account, p.w, o);
  }

  lemma {:induction false} NothingAsked(tags: seq<string>)
    ensures Resolved(tags, map[]) == []
  {
    if tags != [] { NothingAsked(tags[..|tags| - 1]); }
  }

  /** One refused ledger insert is enough, with no actions configured at all. */
  lemma TheModelCanBeCalledTwice(s: Settings, env: Envelope, account: nat, w: World, o: Oracle)
    requires Sound(w.db) && 1 <= account <= |w.db.accounts| && s.llm.Some? && s.actions == map[]
    requires env.mid !in Ledger(w.db)
    requires forall t :: o(t).fault == if t == w.tick + 4 then Refused else Fine
    ensures Process(s, env, account, Process(s, env, account, w, o).w, o).w.llmCalls[env.mid] == w.llmCalls[env.mid] + 2
  {
    hide Process, Sound, Preparing, Run, Ledger, Resolved;
    assert o(w.tick + 4).fault != Fine;
    ReadyExactlyWhen(s, env, w, o);
    AttemptRuns(s, env, account, w, o);
    NothingAsked(Preparing(s, env, w, o).status.tags);
    NothingPlanned();
    RunNone(env.uid, w.mail, w.tick + 4, o);
    ModelCanBeCalledAgain(s, env, account, w, o);
  }

  lemma NothingPlanned()
    ensures Consolidate([]) == []
  {
  }
}
