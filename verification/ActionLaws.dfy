/** What consolidation means, and what a run of actions does to the mail. */
module ActionLaws {
  import opened Seqs
  import opened Calls
  import opened Actions
  import Folders

  // ----- Consolidation -----

  lemma {:induction false} TargetsAre(actions: seq<Action>, f: string)
    ensures f in CopyTargets(actions) <==> CopyTo(f) in actions
    ensures f in MoveTargets(actions) <==> MoveTo(f) in actions
  {
    if actions != [] {
      TargetsAre(actions[..|actions| - 1], f);
      assert actions == actions[..|actions| - 1] + [actions[|actions| - 1]];
    }
  }

  lemma KeptMembers(actions: seq<Action>, f: string)
    ensures f in KeptCopies(actions) <==> CopyTo(f) in actions && MoveTo(f) !in actions
  {
    hide Dedup, Select, CopyTargets, MoveTargets;
    DedupMembers(CopyTargets(actions));
    SelectMembers(Dedup(CopyTargets(actions)), NotAmong(MoveTargets(actions)));
    TargetsAre(actions, f);
  }

  lemma CopyAllMembers(folders: seq<string>, x: Action)
    ensures x in CopyAll(folders) <==> x.CopyTo? && x.folder in folders
  {
    if x.CopyTo? && x.folder in folders {
      var i :| 0 <= i < |folders| && folders[i] == x.folder;
      assert CopyAll(folders)[i] == x;
    }
  }

  /** Flags survive; so does a copy into no move target, and the first move. */
  predicate Survives(actions: seq<Action>, x: Action) {
    match x
    case CopyTo(folder) => x in actions && MoveTo(folder) !in actions
    case MoveTo(folder) => MoveTargets(actions) != [] && folder == MoveTargets(actions)[0]
    case _ => x in actions
  }

  /** Exactly which actions survive, whatever their order and repetitions in the input. */
  lemma ConsolidateMembers(actions: seq<Action>, x: Action)
    ensures x in Consolidate(actions) <==> Survives(actions, x)
  {
    hide KeptCopies, MoveTargets, CopyAll;
    if x.CopyTo? { KeptMembers(actions, x.folder); }
    CopyAllMembers(KeptCopies(actions), x);
    assert x in Consolidate(actions) <==>
      x in FlagPart(actions) || x in CopyAll(KeptCopies(actions)) || x in MovePart(actions);
  }

  lemma KeptAreDistinct(actions: seq<Action>)
    ensures Distinct(KeptCopies(actions))
  {
    DedupMembers(CopyTargets(actions));
    SelectMembers(Dedup(CopyTargets(actions)), NotAmong(MoveTargets(actions)));
  }

  /** No action is carried out twice. */
  lemma ConsolidateIsDistinct(actions: seq<Action>)
    ensures Distinct(Consolidate(actions))
  {
    hide KeptCopies, MoveTargets;
    KeptAreDistinct(actions);
    assert Distinct(CopyAll(KeptCopies(actions)));
  }

  lemma {:induction false} TargetsOfAppend(a: seq<Action>, b: seq<Action>)
    ensures CopyTargets(a + b) == CopyTargets(a) + CopyTargets(b)
    ensures MoveTargets(a + b) == MoveTargets(a) + MoveTargets(b)
  {
    if b == [] {
      assert a + b == a;
    } else {
      var front, last := b[..|b| - 1], b[|b| - 1];
      TargetsOfAppend(a, front);
      assert (a + b)[..|a + b| - 1] == a + front && (a + b)[|a + b| - 1] == last;
    }
  }

  lemma {:induction false} TargetsOfCopies(folders: seq<string>)
    ensures CopyTargets(CopyAll(folders)) == folders && MoveTargets(CopyAll(folders)) == []
  {
    if folders != [] {
      TargetsOfCopies(folders[..|folders| - 1]);
      assert CopyAll(folders)[..|folders| - 1] == CopyAll(folders[..|folders| - 1]);
    }
  }

  lemma TargetsOfOne(x: Action)
    ensures CopyTargets([x]) == if x.CopyTo? then [x.folder] else []
    ensures MoveTargets([x]) == if x.MoveTo? then [x.folder] else []
    ensures CopyTargets([]) == [] && MoveTargets([]) == []
  {
    assert [x][..0] == [];
  }

  lemma TargetsOfFlags(actions: seq<Action>)
    ensures CopyTargets(FlagPart(actions)) == [] && MoveTargets(FlagPart(actions)) == []
  {
    TargetsOfOne(MarkSeen);
    TargetsOfOne(MarkFlagged);
    TargetsOfAppend(if MarkSeen in actions then [MarkSeen] else [], if MarkFlagged in actions then [MarkFlagged] else []);
  }

  lemma TargetsOfConsolidated(actions: seq<Action>)
    ensures CopyTargets(Consolidate(actions)) == KeptCopies(actions)
    ensures MoveTargets(Consolidate(actions)) == if MoveTargets(actions) == [] then [] else [MoveTargets(actions)[0]]
  {
    hide KeptCopies, CopyAll, FlagPart, CopyTargets, MoveTargets;
    var flags, copies, move := FlagPart(actions), CopyAll(KeptCopies(actions)), MovePart(actions);
    TargetsOfFlags(actions);
    TargetsOfCopies(KeptCopies(actions));
    TargetsOfOne(if move != [] then move[0] else MarkSeen);
    TargetsOfAppend(flags + copies, move);
    TargetsOfAppend(flags, copies);
    assert move != [] ==> move == [move[0]];
  }

  /** Consolidating a consolidated list changes nothing. */
  lemma ConsolidateIsIdempotent(actions: seq<Action>)
    ensures Consolidate(Consolidate(actions)) == Consolidate(actions)
  {
    var plan := Consolidate(actions);
    TargetsOfConsolidated(actions);
    KeptAreDistinct(actions);
    DedupOfDistinct(KeptCopies(actions));
    DedupMembers(CopyTargets(actions));
    SelectMembers(Dedup(CopyTargets(actions)), NotAmong(MoveTargets(actions)));
    SelectAll(KeptCopies(actions), NotAmong(MoveTargets(plan)));
    ConsolidateMembers(actions, MarkSeen);
    ConsolidateMembers(actions, MarkFlagged);
  }

  /** With at most one move target, what is carried out depends only on which actions were
      asked for, not on their order or number. */
  lemma OrderDoesNotMatter(a: seq<Action>, b: seq<Action>)
    requires forall x :: x in a <==> x in b
    requires forall f, g :: MoveTo(f) in a && MoveTo(g) in a ==> f == g
    ensures forall x :: x in Consolidate(a) <==> x in Consolidate(b)
  {
    forall x ensures x in Consolidate(a) <==> x in Consolidate(b) {
      ConsolidateMembers(a, x);
      ConsolidateMembers(b, x);
      if x.MoveTo? {
        TargetsAre(a, x.folder);
        TargetsAre(b, x.folder);
        FirstMove(a);
        FirstMove(b);
      }
    }
  }

  lemma FirstMove(actions: seq<Action>)
    ensures MoveTargets(actions) != [] ==> MoveTo(MoveTargets(actions)[0]) in actions
    ensures MoveTargets(actions) == [] ==> forall f :: MoveTo(f) !in actions
  {
    if MoveTargets(actions) != [] {
      TargetsAre(actions, MoveTargets(actions)[0]);
    } else {
      forall f ensures MoveTo(f) !in actions { TargetsAre(actions, f); }
    }
  }

  /** A requested copy's folder receives the message exactly when the folder is not a move
      target, or is the first one: a later move target swallows the copy and never runs. */
  lemma CopyReachesItsFolder(actions: seq<Action>, f: string)
    requires CopyTo(f) in actions
    ensures (CopyTo(f) in Consolidate(actions) || MoveTo(f) in Consolidate(actions))
       <==> (f !in MoveTargets(actions) || f == MoveTargets(actions)[0])
  {
    ConsolidateMembers(actions, CopyTo(f));
    ConsolidateMembers(actions, MoveTo(f));
    TargetsAre(actions, f);
  }

  /** So "every copy_to folder receives the message" fails. */
  lemma ACopyCanBeSwallowed()
    ensures var actions := [MoveTo("a"), MoveTo("b"), CopyTo("b")];
            Consolidate(actions) == [MoveTo("a")]
  {
    hide CopyTargets, MoveTargets, Dedup, Select;
    var actions := [MoveTo("a"), MoveTo("b"), CopyTo("b")];
    assert actions == ([MoveTo("a")] + [MoveTo("b")]) + [CopyTo("b")];
    TargetsOfAppend([MoveTo("a")] + [MoveTo("b")], [CopyTo("b")]);
    TargetsOfAppend([MoveTo("a")], [MoveTo("b")]);
    TargetsOfOne(MoveTo("a"));
    TargetsOfOne(MoveTo("b"));
    TargetsOfOne(CopyTo("b"));
    assert CopyTargets(actions) == ["b"] && MoveTargets(actions) == ["a", "b"];
    DedupOfDistinct(["b"]);
    SelectNone(["b"], NotAmong(["a", "b"]));
    assert KeptCopies(actions) == [];
  }

  // ----- How many copies of a message the server holds -----

  function Held(mails: multiset<Mail>, c: string): nat {
    mails[Mail(c, false, false)] + mails[Mail(c, false, true)] + mails[Mail(c, true, false)] + mails[Mail(c, true, true)]
  }

  ghost function InFolders(folders: map<string, multiset<Mail>>, c: string): nat
    decreases |folders|
  {
    if folders == map[] then 0
    else
      var p :| p in folders;
      Held(folders[p], c) + InFolders(folders - {p}, c)
  }

  function InInbox(inbox: map<nat, Mail>, c: string): set<nat> {
    set u | u in inbox && inbox[u].content == c
  }

  ghost function CopyCount(m: Imap, c: string): nat {
    |InInbox(m.inbox, c)| + InFolders(m.folders, c)
  }

  lemma {:induction false} InFoldersAt(folders: map<string, multiset<Mail>>, p: string, c: string)
    requires p in folders
    ensures InFolders(folders, c) == Held(folders[p], c) + InFolders(folders - {p}, c)
    decreases |folders|
  {
    var q :| q in folders && InFolders(folders, c) == Held(folders[q], c) + InFolders(folders - {q}, c);
    if q != p {
      InFoldersAt(folders - {q}, p, c);
      InFoldersAt(folders - {p}, q, c);
      assert folders - {q} - {p} == folders - {p} - {q};
    }
  }

  lemma InFoldersUpdate(folders: map<string, multiset<Mail>>, p: string, mails: multiset<Mail>, c: string)
    ensures InFolders(folders[p := mails], c)
         == InFolders(folders, c) + Held(mails, c) - (if p in folders then Held(folders[p], c) else 0)
  {
    InFoldersAt(folders[p := mails], p, c);
    assert folders[p := mails] - {p} == folders - {p};
    if p in folders {
      InFoldersAt(folders, p, c);
    } else {
      assert folders - {p} == folders;
    }
  }

  /** Flags and new folders leave every count alone, a copy adds one, a move none. */
  lemma CountsOfCommands(m: Imap, uid: nat, path: string, flag: Flag, c: string)
    ensures CopyCount(Flagging(m, uid, flag), c) == CopyCount(m, c)
    ensures CopyCount(Creating(m, path), c) == CopyCount(m, c)
    ensures path in m.folders ==> CopyCount(Moving(m, uid, path), c) == CopyCount(m, c)
    ensures path in m.folders ==>
      CopyCount(Copying(m, uid, path), c)
      == CopyCount(m, c) + (if uid in m.inbox && m.inbox[uid].content == c then 1 else 0)
  {
    hide InFolders, Held;
    InFoldersUpdate(m.folders, path, multiset{}, c);
    HeldOne(Before(m, path), if uid in m.inbox then m.inbox[uid] else Mail("", false, false), c);
    if uid in m.inbox {
      assert InInbox(Flagging(m, uid, flag).inbox, c) == InInbox(m.inbox, c);
      if path in m.folders {
        InFoldersUpdate(m.folders, path, m.folders[path] + multiset{m.inbox[uid]}, c);
        assert InInbox(m.inbox - {uid}, c) == InInbox(m.inbox, c) - {uid};
      }
    } else if path in m.folders {
      assert m.inbox - {uid} == m.inbox;
    }
  }

  lemma HeldOne(mails: multiset<Mail>, mail: Mail, c: string)
    ensures Held(multiset{}, c) == 0
    ensures Held(mails + multiset{mail}, c) == Held(mails, c) + (if mail.content == c then 1 else 0)
  {
  }

  // ----- What a run keeps -----

  /** Every other UID stays in INBOX unchanged, no folder disappears or loses mail, and no
      message has fewer copies than before. */
  ghost predicate Conserved(before: Imap, after: Imap, uid: nat) {
    && (forall u :: u in before.inbox && u != uid ==> u in after.inbox && after.inbox[u] == before.inbox[u])
    && (forall u :: u in after.inbox && u != uid ==> u in before.inbox)
    && (forall p :: p in before.folders ==> p in after.folders && before.folders[p] <= after.folders[p])
    && (forall c :: CopyCount(before, c) <= CopyCount(after, c))
  }

  lemma ConservedIsTransitive(a: Imap, b: Imap, c: Imap, uid: nat)
    requires Conserved(a, b, uid) && Conserved(b, c, uid)
    ensures Conserved(a, c, uid)
  {
    hide CopyCount;
  }

  lemma NothingConserves(m: Imap, uid: nat)
    ensures Conserved(m, m, uid)
  {
    hide CopyCount;
  }

  lemma FlaggingConserves(m: Imap, uid: nat, flag: Flag)
    ensures Conserved(m, Flagging(m, uid, flag), uid)
  {
    hide CopyCount;
    forall c { CountsOfCommands(m, uid, "", flag, c); }
  }

  lemma CreatingConserves(m: Imap, uid: nat, path: string)
    ensures Conserved(m, Creating(m, path), uid)
    ensures Creating(m, path).inbox == m.inbox && path in Creating(m, path).folders
  {
    hide CopyCount;
    forall c { CountsOfCommands(m, uid, path, Seen, c); }
  }

  lemma CopyingConserves(m: Imap, uid: nat, path: string)
    requires path in m.folders
    ensures Conserved(m, Copying(m, uid, path), uid) && Copying(m, uid, path).inbox == m.inbox
  {
    hide CopyCount;
    var after := Copying(m, uid, path);
    forall c ensures CopyCount(m, c) <= CopyCount(after, c) { CountsOfCommands(m, uid, path, Seen, c); }
    assert forall p :: p in m.folders ==> m.folders[p] <= after.folders[p];
  }

  lemma MovingConserves(m: Imap, uid: nat, path: string)
    requires path in m.folders
    ensures Conserved(m, Moving(m, uid, path), uid)
  {
    hide CopyCount, Copying;
    CopyingConserves(m, uid, path);
    var after := Moving(m, uid, path);
    forall c ensures CopyCount(m, c) <= CopyCount(after, c) { CountsOfCommands(m, uid, path, Seen, c); }
  }

  lemma InFolderConserves(folder: string, uid: nat, move: bool, m: Imap, t: nat, o: Oracle)
    ensures Conserved(m, PerformInFolder(folder, uid, move, m, t, o).box, uid)
    ensures FromOutside(PerformInFolder(folder, uid, move, m, t, o).failure)
    ensures !move && uid in m.inbox ==> uid in PerformInFolder(folder, uid, move, m, t, o).box.inbox
  {
    hide Conserved, Moving, Copying, Creating, BergerFolder;
    var path := BergerFolder(folder);
    var ready := Ensuring(m, path, t, o);
    NothingConserves(m, uid);
    NothingConserves(ready.box, uid);
    CreatingConserves(m, uid, path);
    if path in ready.box.folders {
      CopyingConserves(ready.box, uid, path);
      MovingConserves(ready.box, uid, path);
    }
    assert Conserved(m, ready.box, uid) && ready.box.inbox == m.inbox;
    assert ready.failure.None? ==> path in ready.box.folders;
    var written := RespondInFolder(ready.box, uid, path, move, ready.tick, o);
    if path in ready.box.folders {
      assert Conserved(ready.box, written.box, uid);
      ConservedIsTransitive(m, ready.box, written.box, uid);
    }
  }

  lemma PerformConserves(action: Action, uid: nat, m: Imap, t: nat, o: Oracle)
    ensures Conserved(m, Perform(action, uid, m, t, o).box, uid)
    ensures FromOutside(Perform(action, uid, m, t, o).failure)
    ensures !action.MoveTo? && uid in m.inbox ==> uid in Perform(action, uid, m, t, o).box.inbox
  {
    hide Conserved, PerformInFolder;
    NothingConserves(m, uid);
    match action
    case MarkSeen => FlaggingConserves(m, uid, Seen);
    case MarkFlagged => FlaggingConserves(m, uid, Flagged);
    case CopyTo(folder) => InFolderConserves(folder, uid, false, m, t, o);
    case MoveTo(folder) => InFolderConserves(folder, uid, true, m, t, o);
  }

  /** Whatever fails, a run loses no mail; it never addresses a missing folder; and before
      its move the message is still in INBOX. */
  lemma {:induction false} RunConserves(plan: seq<Action>, uid: nat, m: Imap, t: nat, o: Oracle)
    ensures Conserved(m, Run(plan, uid, m, t, o).at.box, uid)
    ensures FromOutside(Run(plan, uid, m, t, o).at.failure)
    ensures uid in m.inbox && (forall i :: 0 <= i < |plan| ==> !plan[i].MoveTo?)
        ==> uid in Run(plan, uid, m, t, o).at.box.inbox
  {
    hide Conserved, Perform;
    if plan == [] {
      NothingConserves(m, uid);
    } else {
      var front := plan[..|plan| - 1];
      var p := Run(front, uid, m, t, o);
      RunConserves(front, uid, m, t, o);
      if p.at.failure.None? {
        PerformConserves(plan[|plan| - 1], uid, p.at.box, p.at.tick, o);
        ConservedIsTransitive(m, p.at.box, Run(plan, uid, m, t, o).at.box, uid);
      }
    }
  }

  /** Without faults from outside a run completes. */
  lemma {:induction false} RunIsFine(plan: seq<Action>, uid: nat, m: Imap, t: nat, o: Oracle)
    ensures AllFine(o, t, Run(plan, uid, m, t, o).at.tick) ==> Run(plan, uid, m, t, o).at.failure.None?
  {
    hide Perform;
    if plan != [] {
      var front, last := plan[..|plan| - 1], plan[|plan| - 1];
      var p := Run(front, uid, m, t, o);
      RunIsFine(front, uid, m, t, o);
      RunBounds(front, uid, m, t, o);
      if p.at.failure.None? {
        PerformIsFine(last, uid, p.at.box, p.at.tick, o);
      }
    }
  }

  lemma PerformIsFine(action: Action, uid: nat, m: Imap, t: nat, o: Oracle)
    ensures Perform(action, uid, m, t, o).tick > t
    ensures AllFine(o, t, Perform(action, uid, m, t, o).tick) ==> Perform(action, uid, m, t, o).failure.None?
  {
    hide Copying, Moving, Flagging;
  }

  /** The message leaves INBOX only by the last action of the list, a move, with every
      earlier action completed. */
  lemma LeavesInboxLast(actions: seq<Action>, uid: nat, m: Imap, t: nat, o: Oracle)
    requires uid in m.inbox && uid !in Run(Consolidate(actions), uid, m, t, o).at.box.inbox
    ensures MoveTargets(actions) != []
    ensures Consolidate(actions)[|Consolidate(actions)| - 1] == MoveTo(MoveTargets(actions)[0])
    ensures Run(Consolidate(actions), uid, m, t, o).done >= |Consolidate(actions)| - 1
  {
    hide FlagPart, CopyAll, KeptCopies, MoveTargets, Run;
    var front := FlagPart(actions) + CopyAll(KeptCopies(actions));
    FrontHasNoMove(actions);
    RunConserves(front, uid, m, t, o);
    assert front + [] == front;
    if Run(front, uid, m, t, o).at.failure.Some? {
      RunStops(front, MovePart(actions), uid, m, t, o);
    } else {
      RunSnoc(front, MoveTo(MoveTargets(actions)[0]), uid, m, t, o);
    }
  }

  lemma FrontHasNoMove(actions: seq<Action>)
    ensures var front := FlagPart(actions) + CopyAll(KeptCopies(actions));
            forall i :: 0 <= i < |front| ==> !front[i].MoveTo?
  {
  }

  // ----- What a run achieves when nothing fails -----

  lemma {:induction false} RunAppend(a: seq<Action>, b: seq<Action>, uid: nat, m: Imap, t: nat, o: Oracle)
    requires Run(a, uid, m, t, o).at.failure.None?
    ensures var p := Run(a, uid, m, t, o).at;
            Run(a + b, uid, m, t, o).at == Run(b, uid, p.box, p.tick, o).at
  {
    hide Perform;
    if b == [] {
      assert a + b == a;
    } else {
      RunAppend(a, b[..|b| - 1], uid, m, t, o);
      assert (a + b)[..|a + b| - 1] == a + b[..|b| - 1];
    }
  }

  function Before(m: Imap, path: string): multiset<Mail> {
    if path in m.folders then m.folders[path] else multiset{}
  }

  /** The message with the requested flags. */
  function Marked(mail: Mail, actions: seq<Action>): Mail {
    mail.(seen := mail.seen || MarkSeen in actions, flagged := mail.flagged || MarkFlagged in actions)
  }

  function Paths(targets: seq<string>): set<string> { set f | f in targets :: BergerFolder(f) }

  /** INBOX and folders once the message under `uid` has one more copy in each target. */
  function Spread(m: Imap, uid: nat, targets: seq<string>): Imap {
    m.(folders := map p | p in m.folders.Keys + Paths(targets) ::
      if p in Paths(targets) && uid in m.inbox then Before(m, p) + multiset{m.inbox[uid]} else Before(m, p))
  }

  /** The server after every requested action: flags set, one copy in each kept folder,
      and the message moved to the first move target if there is one. */
  function Settled(m: Imap, uid: nat, actions: seq<Action>): Imap {
    var marked := if uid in m.inbox then m.(inbox := m.inbox[uid := Marked(m.inbox[uid], actions)]) else m;
    var moves := MoveTargets(actions);
    var targets := KeptCopies(actions) + (if moves == [] then [] else [moves[0]]);
    var spread := Spread(marked, uid, targets);
    if moves == [] then spread else spread.(inbox := spread.inbox - {uid})
  }

  lemma FolderNamesAreDistinct(f: string, g: string)
    ensures BergerFolder(f) == BergerFolder(g) ==> f == g
  {
    assert BergerFolder(f)[7..] == f && BergerFolder(g)[7..] == g;
  }

  lemma PathsOne(targets: seq<string>, f: string)
    requires f !in targets
    ensures BergerFolder(f) !in Paths(targets)
    ensures Paths(targets + [f]) == Paths(targets) + {BergerFolder(f)}
  {
    forall g | g in targets { FolderNamesAreDistinct(f, g); }
    assert forall g :: g in targets + [f] <==> g in targets || g == f;
  }

  lemma SpreadAt(m: Imap, uid: nat, targets: seq<string>, p: string)
    ensures p in Spread(m, uid, targets).folders <==> p in m.folders || p in Paths(targets)
    ensures Before(Spread(m, uid, targets), p)
         == if p in Paths(targets) && uid in m.inbox then Before(m, p) + multiset{m.inbox[uid]} else Before(m, p)
  {
  }

  lemma CopyAt(m: Imap, uid: nat, path: string, p: string)
    ensures var a := Copying(Creating(m, path), uid, path);
      && (p in a.folders <==> p in m.folders || p == path)
      && Before(a, p) == if p == path && uid in m.inbox then Before(m, p) + multiset{m.inbox[uid]} else Before(m, p)
  {
  }

  lemma SameFolders(a: Imap, b: Imap)
    requires a.inbox == b.inbox
    requires forall p :: (p in a.folders <==> p in b.folders) && Before(a, p) == Before(b, p)
    ensures a == b
  {
    assert forall p :: p in a.folders ==> a.folders[p] == Before(a, p);
    assert a.folders == b.folders;
  }

  lemma SpreadOne(m: Imap, uid: nat, targets: seq<string>, f: string)
    requires f !in targets
    ensures Copying(Creating(Spread(m, uid, targets), BergerFolder(f)), uid, BergerFolder(f))
         == Spread(m, uid, targets + [f])
  {
    SpreadKeepsInbox(m, uid, targets);
    SpreadKeepsInbox(m, uid, targets + [f]);
    hide Paths, BergerFolder, Spread, Before;
    var path, s := BergerFolder(f), Spread(m, uid, targets);
    PathsOne(targets, f);
    var a, b := Copying(Creating(s, path), uid, path), Spread(m, uid, targets + [f]);
    assert a.inbox == b.inbox;
    hide Copying, Creating;
    forall p ensures (p in a.folders <==> p in b.folders) && Before(a, p) == Before(b, p) {
      CopyAt(s, uid, path, p);
      SpreadAt(m, uid, targets, p);
      SpreadAt(m, uid, targets + [f], p);
    }
    SameFolders(a, b);
  }

  lemma SpreadNone(m: Imap, uid: nat)
    ensures Spread(m, uid, []) == m
  {
    assert Spread(m, uid, []).folders == m.folders;
  }

  lemma CopySucceeds(f: string, uid: nat, m: Imap, t: nat, o: Oracle)
    requires Perform(CopyTo(f), uid, m, t, o).failure.None?
    ensures Perform(CopyTo(f), uid, m, t, o).box == Copying(Creating(m, BergerFolder(f)), uid, BergerFolder(f))
  {
  }

  lemma {:induction false} CopiesSpread(folders: seq<string>, uid: nat, m: Imap, t: nat, o: Oracle)
    requires Distinct(folders) && Run(CopyAll(folders), uid, m, t, o).at.failure.None?
    ensures Run(CopyAll(folders), uid, m, t, o).at.box == Spread(m, uid, folders)
  {
    hide Spread, Perform, Copying, Creating, BergerFolder;
    if folders == [] {
      SpreadNone(m, uid);
    } else {
      var front, last := folders[..|folders| - 1], folders[|folders| - 1];
      assert CopyAll(folders)[..|folders| - 1] == CopyAll(front);
      CopiesSpread(front, uid, m, t, o);
      SpreadOne(m, uid, front, last);
      var p := Run(CopyAll(front), uid, m, t, o).at;
      CopySucceeds(last, uid, p.box, p.tick, o);
      assert front + [last] == folders;
    }
  }

  lemma RunOne(x: Action, uid: nat, m: Imap, t: nat, o: Oracle)
    ensures Run([x], uid, m, t, o).at == Perform(x, uid, m, t, o)
  {
    assert [x][..0] == [];
  }

  lemma FlagsMark(actions: seq<Action>, uid: nat, m: Imap, t: nat, o: Oracle)
    requires Run(FlagPart(actions), uid, m, t, o).at.failure.None?
    ensures Run(FlagPart(actions), uid, m, t, o).at.box
         == if uid in m.inbox then m.(inbox := m.inbox[uid := Marked(m.inbox[uid], actions)]) else m
  {
    var seen := if MarkSeen in actions then [MarkSeen] else [];
    var flagged := if MarkFlagged in actions then [MarkFlagged] else [];
    if Run(seen, uid, m, t, o).at.failure.Some? { RunStops(seen, flagged, uid, m, t, o); }
    RunAppend(seen, flagged, uid, m, t, o);
    RunOne(MarkSeen, uid, m, t, o);
    var p := Run(seen, uid, m, t, o).at;
    RunOne(MarkFlagged, uid, p.box, p.tick, o);
    RunNone(uid, m, t, o);
    RunNone(uid, p.box, p.tick, o);
    hide Run;
    if uid in m.inbox {
      assert m.inbox == m.inbox[uid := m.inbox[uid]];
    }
  }

  lemma MoveSucceeds(f: string, uid: nat, m: Imap, t: nat, o: Oracle)
    requires Perform(MoveTo(f), uid, m, t, o).failure.None?
    ensures Perform(MoveTo(f), uid, m, t, o).box
         == var copied := Copying(Creating(m, BergerFolder(f)), uid, BergerFolder(f));
            copied.(inbox := m.inbox - {uid})
  {
  }

  /** An application that reports success has done exactly what was asked. */
  lemma SuccessSettles(actions: seq<Action>, uid: nat, m: Imap, t: nat, o: Oracle)
    requires Run(Consolidate(actions), uid, m, t, o).at.failure.None?
    ensures Run(Consolidate(actions), uid, m, t, o).at.box == Settled(m, uid, actions)
  {
    hide Run, FlagPart, KeptCopies, MoveTargets, CopyAll, Perform, Spread, Marked, Copying, Creating, BergerFolder;
    var flags, copies, move := FlagPart(actions), CopyAll(KeptCopies(actions)), MovePart(actions);
    if Run(flags + copies, uid, m, t, o).at.failure.Some? { RunStops(flags + copies, move, uid, m, t, o); }
    if Run(flags, uid, m, t, o).at.failure.Some? { RunStops(flags, copies, uid, m, t, o); }
    var a := Run(flags, uid, m, t, o).at;
    RunAppend(flags, copies, uid, m, t, o);
    RunAppend(flags + copies, move, uid, m, t, o);
    FlagsMark(actions, uid, m, t, o);
    KeptAreDistinct(actions);
    CopiesSpread(KeptCopies(actions), uid, a.box, a.tick, o);
    var b := Run(copies, uid, a.box, a.tick, o).at;
    RunNone(uid, b.box, b.tick, o);
    if MoveTargets(actions) != [] {
      var first := MoveTargets(actions)[0];
      RunOne(MoveTo(first), uid, b.box, b.tick, o);
      FirstMove(actions);
      KeptMembers(actions, first);
      SpreadOne(a.box, uid, KeptCopies(actions), first);
      MoveSucceeds(first, uid, b.box, b.tick, o);
      SpreadKeepsInbox(a.box, uid, KeptCopies(actions));
      SpreadKeepsInbox(a.box, uid, KeptCopies(actions) + [first]);
    } else {
      assert KeptCopies(actions) + [] == KeptCopies(actions);
    }
  }

  lemma SpreadKeepsInbox(m: Imap, uid: nat, targets: seq<string>)
    ensures Spread(m, uid, targets).inbox == m.inbox
  {
  }


  // ----- Logical folders and server paths -----

  function OnServer(folder: string, separator: char): string { Folders.ServerPath(BergerFolder(folder), [separator]) }

  function TargetsOf(actions: seq<Action>): set<string> {
    set x | x in Consolidate(actions) && (x.CopyTo? || x.MoveTo?) :: x.folder
  }

  /** The folders an application writes to are as many on the server as in the list, if and
      only if no two of them are equal up to the server's separator. */
  lemma TargetsOnServer(actions: seq<Action>, separator: char)
    ensures (forall f, g :: f in TargetsOf(actions) && g in TargetsOf(actions) && f != g ==> OnServer(f, separator) != OnServer(g, separator))
      <==> (forall f, g :: f in TargetsOf(actions) && g in TargetsOf(actions) && f != g ==> !Folders.SameUpToSeparator(f, g, separator))
  {
    hide Consolidate, Folders.ServerPath, TargetsOf;
    forall f, g ensures OnServer(f, separator) == OnServer(g, separator) <==> Folders.SameUpToSeparator(f, g, separator) {
      Folders.PathsCollide(BergerFolder(f), BergerFolder(g), separator);
      AfterPrefix("Berger/", f, g, separator);
    }
  }

  lemma AfterPrefix(p: string, f: string, g: string, separator: char)
    ensures Folders.SameUpToSeparator(p + f, p + g, separator) <==> Folders.SameUpToSeparator(f, g, separator)
  {
    if Folders.SameUpToSeparator(p + f, p + g, separator) {
      forall i | 0 <= i < |f| ensures Folders.SameOnServer(f[i], g[i], separator) {
        assert Folders.SameOnServer((p + f)[|p| + i], (p + g)[|p| + i], separator);
      }
    }
  }
}
