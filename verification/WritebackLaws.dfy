/** Where an application of actions writes, by path, and what it leaves there. */
module WritebackLaws {
  import opened Seqs
  import opened Calls
  import opened Actions
  import opened ActionLaws
  import Folders

  // ----- Only Berger's own folders are ever written to -----

  predicate OwnPath(path: string) { |path| >= 7 && path[..7] == "Berger/" }

  /** The folder at `path` is new, gone, or holds something else than before. */
  predicate Touched(before: Imap, after: Imap, path: string) {
    || (path in before.folders && (path !in after.folders || after.folders[path] != before.folders[path]))
    || (path !in before.folders && path in after.folders)
  }

  lemma BergerFolderIsOwn(folder: string)
    ensures BergerFolder(folder) == "Berger/" + folder && OwnPath("Berger/" + folder)
  {
  }

  lemma EnsuringTouches(m: Imap, path: string, t: nat, o: Oracle, p: string)
    requires p != path
    ensures !Touched(m, Ensuring(m, path, t, o).box, p)
  {
  }

  lemma InFolderTouches(m: Imap, uid: nat, path: string, move: bool, t: nat, o: Oracle, p: string)
    requires p != path
    ensures !Touched(m, RespondInFolder(m, uid, path, move, t, o).box, p)
  {
  }

  lemma PerformTouches(x: Action, uid: nat, m: Imap, t: nat, o: Oracle, path: string)
    requires Touched(m, Perform(x, uid, m, t, o).box, path)
    ensures OwnPath(path)
  {
    hide BergerFolder, OwnPath, Ensuring, RespondInFolder;
    if x.CopyTo? || x.MoveTo? {
      var target := BergerFolder(x.folder);
      BergerFolderIsOwn(x.folder);
      if path != target {
        var ready := Ensuring(m, target, t, o);
        EnsuringTouches(m, target, t, o, path);
        InFolderTouches(ready.box, uid, target, x.MoveTo?, ready.tick, o, path);
      }
    }
  }

  /** Whatever fails, a run changes or creates no folder but those under `Berger/`. */
  lemma {:induction false} RunTouchesOnlyOwn(plan: seq<Action>, uid: nat, m: Imap, t: nat, o: Oracle, path: string)
    requires Touched(m, Run(plan, uid, m, t, o).at.box, path)
    ensures OwnPath(path)
  {
    hide Perform, OwnPath;
    if plan != [] {
      var front := plan[..|plan| - 1];
      var p := Run(front, uid, m, t, o).at;
      if Touched(m, p.box, path) {
        RunTouchesOnlyOwn(front, uid, m, t, o, path);
      } else {
        PerformTouches(plan[|plan| - 1], uid, p.box, p.tick, o, path);
      }
    }
  }

  /** So nothing a run writes is ever polled back, whatever the server's separator. */
  lemma WrittenIsNotPolled(plan: seq<Action>, uid: nat, m: Imap, t: nat, o: Oracle, path: string, separator: string)
    requires Touched(m, Run(plan, uid, m, t, o).at.box, path)
    ensures !Folders.Polled(Some(Folders.ServerPath(path, separator)))
  {
    hide Run, Touched, Folders.ServerPath, Folders.Polled;
    RunTouchesOnlyOwn(plan, uid, m, t, o, path);
    assert path == "Berger/" + path[7..];
    Folders.OwnFoldersAreNotPolled(path[7..], separator);
  }

  // ----- What a successful application leaves -----

  /** The first move of the list goes to `f`. */
  ghost predicate IsFirstMove(actions: seq<Action>, f: string) {
    exists i :: 0 <= i < |actions| && actions[i] == MoveTo(f) && forall j :: 0 <= j < i ==> !actions[j].MoveTo?
  }

  lemma {:induction false} FirstMoveTarget(actions: seq<Action>)
    ensures MoveTargets(actions) != [] ==> IsFirstMove(actions, MoveTargets(actions)[0])
    ensures MoveTargets(actions) == [] ==> forall i :: 0 <= i < |actions| ==> !actions[i].MoveTo?
  {
    if actions != [] {
      var n := |actions| - 1;
      FirstMoveTarget(actions[..n]);
      if MoveTargets(actions[..n]) != [] {
        var i :| 0 <= i < n && actions[..n][i] == MoveTo(MoveTargets(actions[..n])[0])
              && forall j :: 0 <= j < i ==> !actions[..n][j].MoveTo?;
        assert forall j :: 0 <= j < i ==> actions[j] == actions[..n][j];
        assert actions[i] == MoveTo(MoveTargets(actions)[0]);
      } else {
        assert forall j :: 0 <= j < n ==> actions[j] == actions[..n][j];
      }
    }
  }

  lemma FirstMoveIsOne(actions: seq<Action>, f: string, g: string)
    requires IsFirstMove(actions, f) && IsFirstMove(actions, g)
    ensures f == g
  {
  }

  /** The message ends up in the folder: a copy that no move into the same folder supersedes,
      or the first move. */
  ghost predicate Reaches(actions: seq<Action>, f: string) {
    (CopyTo(f) in actions && MoveTo(f) !in actions) || IsFirstMove(actions, f)
  }

  ghost predicate HasMove(actions: seq<Action>) { exists i :: 0 <= i < |actions| && actions[i].MoveTo? }

  /** The mail with the flags the actions ask for. */
  function WithFlags(mail: Mail, actions: seq<Action>): Mail {
    Mail(mail.content, mail.seen || MarkSeen in actions, mail.flagged || MarkFlagged in actions)
  }

  /** What stands at a path, nothing when there is no such folder. */
  function At(m: Imap, path: string): multiset<Mail> { if path in m.folders then m.folders[path] else multiset{} }

  function Added(m: Imap, uid: nat, actions: seq<Action>): multiset<Mail> {
    if uid in m.inbox then multiset{WithFlags(m.inbox[uid], actions)} else multiset{}
  }

  /** INBOX after the actions. */
  ghost predicate InboxAfter(before: Imap, after: Imap, uid: nat, actions: seq<Action>) {
    && (forall u :: u != uid ==> (u in after.inbox <==> u in before.inbox))
    && (forall u :: u != uid && u in after.inbox ==> after.inbox[u] == before.inbox[u])
    && (uid in after.inbox <==> uid in before.inbox && !HasMove(actions))
    && (uid in after.inbox ==> after.inbox[uid] == WithFlags(before.inbox[uid], actions))
  }

  /** Every folder and INBOX after the actions, path by path. */
  ghost predicate CarriedOut(before: Imap, after: Imap, uid: nat, actions: seq<Action>) {
    && (forall f :: Reaches(actions, f) ==>
          "Berger/" + f in after.folders && At(after, "Berger/" + f) == At(before, "Berger/" + f) + Added(before, uid, actions))
    && (forall path :: (forall f :: Reaches(actions, f) ==> path != "Berger/" + f) ==> !Touched(before, after, path))
    && InboxAfter(before, after, uid, actions)
  }

  lemma ReachesATarget(actions: seq<Action>, f: string)
    ensures Reaches(actions, f)
      <==> f in KeptCopies(actions) || (MoveTargets(actions) != [] && f == MoveTargets(actions)[0])
  {
    hide KeptCopies, MoveTargets;
    KeptMembers(actions, f);
    FirstMoveTarget(actions);
    if IsFirstMove(actions, f) {
      FirstMoveIsOne(actions, f, MoveTargets(actions)[0]);
    }
  }

  /** The targets of an application, and the paths they stand at. */
  function Targets(actions: seq<Action>): seq<string> {
    KeptCopies(actions) + (if MoveTargets(actions) == [] then [] else [MoveTargets(actions)[0]])
  }

  lemma PathsAreReached(actions: seq<Action>)
    ensures forall f :: Reaches(actions, f) ==> "Berger/" + f in Paths(Targets(actions))
    ensures forall p :: p in Paths(Targets(actions)) ==> exists f :: Reaches(actions, f) && p == "Berger/" + f
  {
    hide KeptCopies, MoveTargets, BergerFolder, Reaches;
    forall f ensures Reaches(actions, f) <==> f in Targets(actions) { ReachesATarget(actions, f); }
    forall f { BergerFolderIsOwn(f); }
    forall p | p in Paths(Targets(actions)) ensures exists f :: Reaches(actions, f) && p == "Berger/" + f {
      var f :| f in Targets(actions) && p == BergerFolder(f);
      assert Reaches(actions, f) && p == "Berger/" + f;
    }
    forall f | Reaches(actions, f) ensures "Berger/" + f in Paths(Targets(actions)) {
      assert BergerFolder(f) in Paths(Targets(actions));
    }
  }

  lemma MarkedIsWithFlags(mail: Mail, actions: seq<Action>)
    ensures Marked(mail, actions) == WithFlags(mail, actions)
  {
  }

  lemma SettledAt(m: Imap, uid: nat, actions: seq<Action>, p: string)
    ensures p in Settled(m, uid, actions).folders <==> p in m.folders || p in Paths(Targets(actions))
    ensures At(Settled(m, uid, actions), p)
         == if p in Paths(Targets(actions)) then At(m, p) + Added(m, uid, actions) else At(m, p)
  {
    hide KeptCopies, MoveTargets, Spread, Paths, Marked, WithFlags;
    var marked := if uid in m.inbox then m.(inbox := m.inbox[uid := Marked(m.inbox[uid], actions)]) else m;
    if uid in m.inbox { MarkedIsWithFlags(m.inbox[uid], actions); }
    SpreadAt(marked, uid, Targets(actions), p);
    assert At(m, p) + multiset{} == At(m, p);
  }

  lemma SettledInbox(m: Imap, uid: nat, actions: seq<Action>)
    ensures InboxAfter(m, Settled(m, uid, actions), uid, actions)
  {
    hide KeptCopies, MoveTargets, Spread, Marked, WithFlags;
    var marked := if uid in m.inbox then m.(inbox := m.inbox[uid := Marked(m.inbox[uid], actions)]) else m;
    if uid in m.inbox { MarkedIsWithFlags(m.inbox[uid], actions); }
    SpreadKeepsInbox(marked, uid, Targets(actions));
    FirstMoveTarget(actions);
  }

  /** After a success the mailbox `Berger/f` holds exactly one more copy of the message, with
      the requested flags, for each folder the message is to reach; no other folder changes;
      and the message is still in INBOX, flagged, exactly when nothing moves it. */
  lemma SuccessDelivers(actions: seq<Action>, uid: nat, m: Imap, t: nat, o: Oracle)
    requires Run(Consolidate(actions), uid, m, t, o).at.failure.None?
    ensures CarriedOut(m, Run(Consolidate(actions), uid, m, t, o).at.box, uid, actions)
  {
    hide Run, Consolidate, Settled, Targets, Paths, Reaches, WithFlags, HasMove, Added;
    var after := Run(Consolidate(actions), uid, m, t, o).at.box;
    SuccessSettles(actions, uid, m, t, o);
    PathsAreReached(actions);
    SettledInbox(m, uid, actions);
    forall f | Reaches(actions, f)
      ensures "Berger/" + f in after.folders && At(after, "Berger/" + f) == At(m, "Berger/" + f) + Added(m, uid, actions) {
      SettledAt(m, uid, actions, "Berger/" + f);
    }
    forall p | forall f :: Reaches(actions, f) ==> p != "Berger/" + f ensures !Touched(m, after, p) {
      SettledAt(m, uid, actions, p);
    }
  }

  // ----- The order of what is carried out -----

  function Place(x: Action): nat {
    match x
    case MarkSeen => 0
    case MarkFlagged => 1
    case CopyTo(_) => 2
    case MoveTo(_) => 3
  }

  lemma {:induction false} EarlierCopy(actions: seq<Action>, f: string, g: string)
    requires f in CopyTargets(actions) && g in CopyTargets(actions)
    requires IndexOf(CopyTargets(actions), f) < IndexOf(CopyTargets(actions), g)
    ensures IndexOf(actions, CopyTo(f)) < IndexOf(actions, CopyTo(g))
  {
    var n := |actions| - 1;
    var front, last := actions[..n], actions[n];
    assert actions == front + [last];
    TargetsAre(front, f);
    TargetsAre(front, g);
    TargetsAre(actions, f);
    TargetsAre(actions, g);
    var c := CopyTargets(front);
    if last.CopyTo? {
      if f in c { IndexOfFront(c, last.folder, f); }
      if g in c { IndexOfFront(c, last.folder, g); }
    } else {
      assert c + [] == c;
    }
    if f in c {
      IndexOfFront(front, last, CopyTo(f));
      if g in c {
        EarlierCopy(front, f, g);
        IndexOfFront(front, last, CopyTo(g));
      } else {
        NotBefore(front, last, CopyTo(g));
      }
    } else {
      NotBefore(c, f, f);
    }
  }

  lemma FlagsInOrder(actions: seq<Action>)
    ensures var flags := FlagPart(actions);
      && (forall i :: 0 <= i < |flags| ==> Place(flags[i]) < 2)
      && (forall i, j :: 0 <= i < j < |flags| ==> Place(flags[i]) < Place(flags[j]))
  {
  }

  /** Where the i-th action carried out comes from. */
  lemma PartAt(actions: seq<Action>, i: nat)
    requires i < |Consolidate(actions)|
    ensures var n, k := |FlagPart(actions)|, |KeptCopies(actions)|;
      && (i < n ==> Consolidate(actions)[i] == FlagPart(actions)[i])
      && (n <= i < n + k ==> Consolidate(actions)[i] == CopyTo(KeptCopies(actions)[i - n]))
      && (i >= n + k ==> i == n + k && Consolidate(actions)[i].MoveTo?)
  {
    hide FlagPart, KeptCopies, MoveTargets;
  }

  /** What is carried out stands in this order: flags, copies by their first request, the move. */
  lemma ConsolidateInOrder(actions: seq<Action>, i: nat, j: nat)
    requires i < j < |Consolidate(actions)|
    ensures var x, y := Consolidate(actions)[i], Consolidate(actions)[j];
      && Place(x) <= Place(y)
      && (Place(x) == Place(y) ==> x.CopyTo? && y.CopyTo? && IndexOf(actions, x) < IndexOf(actions, y) < |actions|)
  {
    hide Consolidate, FlagPart, KeptCopies;
    var n, k := |FlagPart(actions)|, |KeptCopies(actions)|;
    FlagsInOrder(actions);
    PartAt(actions, i);
    PartAt(actions, j);
    if n <= i && j < n + k { KeptInOrder(actions, i - n, j - n); }
  }

  lemma KeptInOrder(actions: seq<Action>, i: nat, j: nat)
    requires i < j < |KeptCopies(actions)|
    ensures IndexOf(actions, CopyTo(KeptCopies(actions)[i])) < IndexOf(actions, CopyTo(KeptCopies(actions)[j])) < |actions|
  {
    hide CopyTargets, MoveTargets, Dedup;
    var c, kept := CopyTargets(actions), KeptCopies(actions);
    var d := Dedup(c);
    SelectInOrder(d, NotAmong(MoveTargets(actions)), i, j);
    DedupMembers(c);
    var a, b :| 0 <= a < b < |d| && d[a] == kept[i] && d[b] == kept[j];
    DedupKeepsFirstOccurrences(c, a, b);
    EarlierCopy(actions, kept[i], kept[j]);
    TargetsAre(actions, kept[j]);
  }
}
