/** The IMAP writeback: a mailbox server any of whose commands may fail, and the
    consolidated application of a message's actions to it. */
module Actions {
  import opened Seqs
  import opened Calls

  datatype Flag = Seen | Flagged

  datatype Action = CopyTo(folder: string) | MoveTo(folder: string) | MarkSeen | MarkFlagged

  /** One stored copy of a message. */
  datatype Mail = Mail(content: string, seen: bool, flagged: bool)

  function Mark(mail: Mail, flag: Flag): Mail {
    match flag
    case Seen => mail.(seen := true)
    case Flagged => mail.(flagged := true)
  }

  /** The selected INBOX by UID, and what every other folder holds. */
  datatype Imap = Imap(inbox: map<nat, Mail>, folders: map<string, multiset<Mail>>)

  // ----- What each command does. A UID that INBOX does not hold is silently skipped
  //       (section 6.4.8 of RFC 3501); MOVE takes the message out of INBOX and puts it in
  //       the folder in one step (section 3 of RFC 6851). -----

  function Flagging(m: Imap, uid: nat, flag: Flag): Imap {
    if uid in m.inbox then m.(inbox := m.inbox[uid := Mark(m.inbox[uid], flag)]) else m
  }

  function Creating(m: Imap, path: string): Imap {
    if path in m.folders then m else m.(folders := m.folders[path := multiset{}])
  }

  function Copying(m: Imap, uid: nat, path: string): Imap
    requires path in m.folders
  {
    if uid in m.inbox then m.(folders := m.folders[path := m.folders[path] + multiset{m.inbox[uid]}]) else m
  }

  function Moving(m: Imap, uid: nat, path: string): Imap
    requires path in m.folders
  {
    Copying(m, uid, path).(inbox := m.inbox - {uid})
  }

  // ----- The same commands as calls that may fail -----

  /** The server and the tick after a call, and how the call failed if it did. */
  datatype Reply = Reply(box: Imap, tick: nat, failure: Option<Failure>)

  function Respond(before: Imap, effect: Imap, t: nat, o: Oracle): Reply {
    match o(t).fault
    case Fine => Reply(effect, t + 1, None)
    case Refused => Reply(before, t + 1, Some(Io))
    case Lost => Reply(effect, t + 1, Some(Io))
  }

  /** A command on a folder: the server answers NO when the folder is missing. */
  function RespondInFolder(m: Imap, uid: nat, path: string, move: bool, t: nat, o: Oracle): Reply {
    if path in m.folders then
      Respond(m, if move then Moving(m, uid, path) else Copying(m, uid, path), t, o)
    else
      Reply(m, t + 1, Some(if o(t).fault == Fine then NoFolder else Io))
  }

  function Ensuring(m: Imap, path: string, t: nat, o: Oracle): Reply {
    if o(t).fault != Fine then Reply(m, t + 1, Some(Io))
    else if path in m.folders then Reply(m, t + 1, None)
    else Respond(m, Creating(m, path), t + 1, o)
  }

  class ImapServer {
    const net: Network
    var inbox: map<nat, Mail>
    var folders: map<string, multiset<Mail>>

    ghost function State(): Imap
      reads this
    {
      Imap(inbox, folders)
    }

    constructor (net: Network, initial: Imap)
      ensures this.net == net && State() == initial
    {
      this.net := net;
      inbox, folders := initial.inbox, initial.folders;
    }

    method FolderExists(path: string) returns (r: Result<bool>)
      modifies net
      ensures net.tick == old(net.tick) + 1
      ensures r == if net.oracle(old(net.tick)).fault == Fine then Ok(path in folders) else Err(Io)
    {
      var a := net.Call();
      r := if a.fault == Fine then Ok(path in folders) else Err(Io);
    }

    method CreateFolder(path: string) returns (failure: Option<Failure>)
      modifies net, this
      ensures Reply(State(), net.tick, failure)
           == Respond(old(State()), Creating(old(State()), path), old(net.tick), net.oracle)
    {
      var a := net.Call();
      if a.fault != Refused && path !in folders {
        folders := folders[path := multiset{}];
      }
      failure := if a.fault == Fine then None else Some(Io);
    }

    method CopyMessage(uid: nat, path: string) returns (failure: Option<Failure>)
      modifies net, this
      ensures Reply(State(), net.tick, failure)
           == RespondInFolder(old(State()), uid, path, false, old(net.tick), net.oracle)
    {
      var a := net.Call();
      if path in folders && uid in inbox && a.fault != Refused {
        folders := folders[path := folders[path] + multiset{inbox[uid]}];
      }
      failure := if a.fault != Fine then Some(Io) else if path in folders then None else Some(NoFolder);
    }

    method MoveMessage(uid: nat, path: string) returns (failure: Option<Failure>)
      modifies net, this
      ensures Reply(State(), net.tick, failure)
           == RespondInFolder(old(State()), uid, path, true, old(net.tick), net.oracle)
    {
      var a := net.Call();
      if path in folders && a.fault != Refused {
        if uid in inbox {
          folders := folders[path := folders[path] + multiset{inbox[uid]}];
        }
        inbox := inbox - {uid};
      }
      failure := if a.fault != Fine then Some(Io) else if path in folders then None else Some(NoFolder);
    }

    method AddFlag(uid: nat, flag: Flag) returns (failure: Option<Failure>)
      modifies net, this
      ensures Reply(State(), net.tick, failure)
           == Respond(old(State()), Flagging(old(State()), uid, flag), old(net.tick), net.oracle)
    {
      var a := net.Call();
      if a.fault != Refused && uid in inbox {
        inbox := inbox[uid := Mark(inbox[uid], flag)];
      }
      failure := if a.fault == Fine then None else Some(Io);
    }
  }

  method EnsureFolderExists(target: ImapServer, path: string) returns (failure: Option<Failure>)
    modifies target, target.net
    ensures Reply(target.State(), target.net.tick, failure)
         == Ensuring(old(target.State()), path, old(target.net.tick), target.net.oracle)
  {
    var found := target.FolderExists(path);
    if found.Err? {
      return Some(found.failure);
    }
    failure := None;
    if !found.value {
      failure := target.CreateFolder(path);
    }
  }

  // ----- Consolidation -----

  function BergerFolder(folder: string): string { "Berger/" + folder }

  function CopyTargets(actions: seq<Action>): seq<string> {
    if actions == [] then []
    else
      CopyTargets(actions[..|actions| - 1]) +
      match actions[|actions| - 1] { case CopyTo(f) => [f] case _ => [] }
  }

  function MoveTargets(actions: seq<Action>): seq<string> {
    if actions == [] then []
    else
      MoveTargets(actions[..|actions| - 1]) +
      match actions[|actions| - 1] { case MoveTo(f) => [f] case _ => [] }
  }

  function CopyAll(folders: seq<string>): (r: seq<Action>)
    ensures |r| == |folders| && forall i :: 0 <= i < |r| ==> r[i] == CopyTo(folders[i])
  {
    seq(|folders|, i requires 0 <= i < |folders| => CopyTo(folders[i]))
  }

  function FlagPart(actions: seq<Action>): seq<Action> {
    (if MarkSeen in actions then [MarkSeen] else []) + (if MarkFlagged in actions then [MarkFlagged] else [])
  }

  function NotAmong(folders: seq<string>): string -> bool { folder => folder !in folders }

  /** The folders that get a copy: each once, in order, none that is also a move target. */
  function KeptCopies(actions: seq<Action>): seq<string> {
    Select(Dedup(CopyTargets(actions)), NotAmong(MoveTargets(actions)))
  }

  function MovePart(actions: seq<Action>): seq<Action> {
    if MoveTargets(actions) == [] then [] else [MoveTo(MoveTargets(actions)[0])]
  }

  /** What `ApplyActions` carries out: the flags, the kept copies, then the first move. */
  function Consolidate(actions: seq<Action>): seq<Action> {
    FlagPart(actions) + CopyAll(KeptCopies(actions)) + MovePart(actions)
  }

  // ----- Running a list of actions until one fails -----

  function Perform(action: Action, uid: nat, m: Imap, t: nat, o: Oracle): Reply {
    match action
    case MarkSeen => Respond(m, Flagging(m, uid, Seen), t, o)
    case MarkFlagged => Respond(m, Flagging(m, uid, Flagged), t, o)
    case CopyTo(folder) => PerformInFolder(folder, uid, false, m, t, o)
    case MoveTo(folder) => PerformInFolder(folder, uid, true, m, t, o)
  }

  function PerformInFolder(folder: string, uid: nat, move: bool, m: Imap, t: nat, o: Oracle): Reply {
    var ready := Ensuring(m, BergerFolder(folder), t, o);
    if ready.failure.Some? then ready
    else RespondInFolder(ready.box, uid, BergerFolder(folder), move, ready.tick, o)
  }

  /** The run so far, and how many of the actions it completed. */
  datatype Progress = Progress(at: Reply, done: nat)

  function Run(plan: seq<Action>, uid: nat, m: Imap, t: nat, o: Oracle): Progress {
    if plan == [] then Progress(Reply(m, t, None), 0)
    else
      var p := Run(plan[..|plan| - 1], uid, m, t, o);
      if p.at.failure.Some? then p
      else
        var r := Perform(plan[|plan| - 1], uid, p.at.box, p.at.tick, o);
        Progress(r, if r.failure.None? then p.done + 1 else p.done)
  }

  lemma {:induction false} RunBounds(plan: seq<Action>, uid: nat, m: Imap, t: nat, o: Oracle)
    ensures var p := Run(plan, uid, m, t, o);
            p.done <= |plan| && (p.at.failure.None? <==> p.done == |plan|) && p.at.tick >= t
  {
    hide Perform;
    if plan != [] {
      var p := Run(plan[..|plan| - 1], uid, m, t, o);
      RunBounds(plan[..|plan| - 1], uid, m, t, o);
      PerformTakesTime(plan[|plan| - 1], uid, p.at.box, p.at.tick, o);
    }
  }

  lemma PerformTakesTime(action: Action, uid: nat, m: Imap, t: nat, o: Oracle)
    ensures Perform(action, uid, m, t, o).tick > t
  {
    hide Copying, Moving, Creating, Flagging;
  }

  /** A failed beginning is the whole run. */
  lemma {:induction false} RunStops(plan: seq<Action>, rest: seq<Action>, uid: nat, m: Imap, t: nat, o: Oracle)
    requires Run(plan, uid, m, t, o).at.failure.Some?
    ensures Run(plan + rest, uid, m, t, o) == Run(plan, uid, m, t, o)
  {
    if rest == [] {
      assert plan + rest == plan;
    } else {
      RunStops(plan, rest[..|rest| - 1], uid, m, t, o);
      assert (plan + rest)[..|plan + rest| - 1] == plan + rest[..|rest| - 1];
    }
  }

  lemma RunSnoc(plan: seq<Action>, action: Action, uid: nat, m: Imap, t: nat, o: Oracle)
    requires Run(plan, uid, m, t, o).at.failure.None?
    ensures var p := Run(plan, uid, m, t, o);
            var r := Perform(action, uid, p.at.box, p.at.tick, o);
            Run(plan + [action], uid, m, t, o)
            == Progress(r, if r.failure.None? then |plan| + 1 else |plan|)
  {
    RunBounds(plan, uid, m, t, o);
    assert (plan + [action])[..|plan|] == plan;
  }

  /** The first loop of `ApplyActions`: sorts the actions by kind and drops every copy
      whose folder is also a move target. */
  method Collect(actions: seq<Action>)
    returns (copies: seq<string>, moves: seq<string>, markSeen: bool, markFlagged: bool)
    ensures copies == KeptCopies(actions) && moves == Dedup(MoveTargets(actions))
    ensures markSeen == (MarkSeen in actions) && markFlagged == (MarkFlagged in actions)
  {
    hide Dedup, CopyTargets, MoveTargets, Select;
    CollectNone();
    copies, moves, markSeen, markFlagged := [], [], false, false;
    for i := 0 to |actions|
      invariant copies == Dedup(CopyTargets(actions[..i]))
      invariant moves == Dedup(MoveTargets(actions[..i]))
      invariant markSeen <==> MarkSeen in actions[..i]
      invariant markFlagged <==> MarkFlagged in actions[..i]
    {
      assert actions[..i + 1] == actions[..i] + [actions[i]];
      CollectOne(actions[..i], actions[i]);
      match actions[i] {
        case CopyTo(folder) => if folder !in copies { copies := copies + [folder]; }
        case MoveTo(folder) => if folder !in moves { moves := moves + [folder]; }
        case MarkSeen => markSeen := true;
        case MarkFlagged => markFlagged := true;
      }
    }
    assert actions[..|actions|] == actions;
    DedupMembers(MoveTargets(actions));
    copies := Retain(copies, moves, MoveTargets(actions));
  }

  lemma CollectNone()
    ensures Dedup(CopyTargets([])) == [] && Dedup(MoveTargets([])) == []
  {
  }

  lemma CollectOne(actions: seq<Action>, action: Action)
    ensures Dedup(CopyTargets(actions + [action]))
         == var c := Dedup(CopyTargets(actions));
            if action.CopyTo? && action.folder !in c then c + [action.folder] else c
    ensures Dedup(MoveTargets(actions + [action]))
         == var m := Dedup(MoveTargets(actions));
            if action.MoveTo? && action.folder !in m then m + [action.folder] else m
  {
    assert (actions + [action])[..|actions|] == actions;
    match action
    case CopyTo(folder) =>
      DedupSnoc(CopyTargets(actions), folder);
      assert MoveTargets(actions) + [] == MoveTargets(actions);
    case MoveTo(folder) =>
      DedupSnoc(MoveTargets(actions), folder);
      assert CopyTargets(actions) + [] == CopyTargets(actions);
    case _ =>
      assert CopyTargets(actions) + [] == CopyTargets(actions);
      assert MoveTargets(actions) + [] == MoveTargets(actions);
  }

  /** One more action of a plan: the run goes on after it, or stops with it. */
  lemma RunStep(plan: seq<Action>, k: nat, uid: nat, m: Imap, t: nat, o: Oracle, here: Reply, r: Reply)
    requires k < |plan| && Run(plan[..k], uid, m, t, o) == Progress(here, k)
    requires r == Perform(plan[k], uid, here.box, here.tick, o)
    ensures r.failure.None? ==> Run(plan[..k + 1], uid, m, t, o) == Progress(r, k + 1)
    ensures r.failure.Some? ==> Run(plan, uid, m, t, o) == Progress(r, k)
  {
    assert plan[..k + 1] == plan[..k] + [plan[k]];
    RunBounds(plan[..k], uid, m, t, o);
    RunSnoc(plan[..k], plan[k], uid, m, t, o);
    if r.failure.Some? {
      RunStops(plan[..k + 1], plan[k + 1..], uid, m, t, o);
      assert plan[..k + 1] + plan[k + 1..] == plan;
    }
  }

  lemma RunNone(uid: nat, m: Imap, t: nat, o: Oracle)
    ensures Run([], uid, m, t, o) == Progress(Reply(m, t, None), 0)
  {
  }

  /** The first `k` actions of the plan have run since server `m` and tick `t`, none failing. */
  ghost predicate Reached(target: ImapServer, plan: seq<Action>, k: nat, uid: nat, m: Imap, t: nat)
    reads target, target.net
  {
    k <= |plan| &&
    Run(plan[..k], uid, m, t, target.net.oracle) == Progress(Reply(target.State(), target.net.tick, None), k)
  }

  /** The run of the whole plan ends here, with this failure or none. */
  ghost predicate Ended(target: ImapServer, plan: seq<Action>, uid: nat, m: Imap, t: nat, failure: Option<Failure>)
    reads target, target.net
  {
    Run(plan, uid, m, t, target.net.oracle).at == Reply(target.State(), target.net.tick, failure)
  }

  /** Carries out one action: a copy or move goes into a folder made sure of first. */
  method Carry(target: ImapServer, uid: nat, action: Action, ghost plan: seq<Action>, ghost k: nat, ghost m: Imap, ghost t: nat)
    returns (failure: Option<Failure>)
    requires Reached(target, plan, k, uid, m, t) && k < |plan| && plan[k] == action
    modifies target, target.net
    ensures failure.None? ==> Reached(target, plan, k + 1, uid, m, t)
    ensures failure.Some? ==> Ended(target, plan, uid, m, t, failure)
  {
    ghost var here := Reply(target.State(), target.net.tick, None);
    ghost var o := target.net.oracle;
    match action {
      case MarkSeen => failure := target.AddFlag(uid, Seen);
      case MarkFlagged => failure := target.AddFlag(uid, Flagged);
      case CopyTo(folder) =>
        failure := EnsureFolderExists(target, BergerFolder(folder));
        if failure.None? { failure := target.CopyMessage(uid, BergerFolder(folder)); }
      case MoveTo(folder) =>
        failure := EnsureFolderExists(target, BergerFolder(folder));
        if failure.None? { failure := target.MoveMessage(uid, BergerFolder(folder)); }
    }
    RunStep(plan, k, uid, m, t, o, here, Reply(target.State(), target.net.tick, failure));
  }

  /** The loop of `ApplyActions` over the kept copies. */
  method CarryCopies(target: ImapServer, uid: nat, copies: seq<string>, ghost plan: seq<Action>, ghost k: nat, ghost m: Imap, ghost t: nat)
    returns (failure: Option<Failure>)
    requires Reached(target, plan, k, uid, m, t)
    requires k + |copies| <= |plan| && plan[k..k + |copies|] == CopyAll(copies)
    modifies target, target.net
    ensures failure.None? ==> Reached(target, plan, k + |copies|, uid, m, t)
    ensures failure.Some? ==> Ended(target, plan, uid, m, t, failure)
  {
    hide Run;
    failure := None;
    for i := 0 to |copies|
      invariant Reached(target, plan, k + i, uid, m, t)
    {
      assert plan[k + i] == plan[k..k + |copies|][i];
      failure := Carry(target, uid, CopyTo(copies[i]), plan, k + i, m, t);
      if failure.Some? { return; }
    }
    failure := None;
  }

  method ApplyActions(target: ImapServer, uid: nat, actions: seq<Action>) returns (r: Result<seq<Action>>)
    modifies target, target.net
    ensures var run := Run(Consolidate(actions), uid, old(target.State()), old(target.net.tick), target.net.oracle);
      && target.State() == run.at.box
      && target.net.tick == run.at.tick
      && r == if run.at.failure.None? then Ok(Consolidate(actions)) else Err(run.at.failure.value)
  {
    hide Run, KeptCopies, MoveTargets, Dedup;
    var copies, moves, markSeen, markFlagged := Collect(actions);
    DedupHead(MoveTargets(actions));
    ghost var m, t, plan := target.State(), target.net.tick, Consolidate(actions);
    RunNone(uid, m, t, target.net.oracle);
    var executed: seq<Action> := [];
    var failure: Option<Failure>;

    // Everything that addresses the message by its INBOX UID comes before the move.
    if markSeen {
      failure := Carry(target, uid, MarkSeen, plan, 0, m, t);
      if failure.Some? { return Err(failure.value); }
      executed := executed + [MarkSeen];
    }
    if markFlagged {
      failure := Carry(target, uid, MarkFlagged, plan, |executed|, m, t);
      if failure.Some? { return Err(failure.value); }
      executed := executed + [MarkFlagged];
    }
    assert executed == FlagPart(actions);
    failure := CarryCopies(target, uid, copies, plan, |executed|, m, t);
    if failure.Some? { return Err(failure.value); }
    executed := executed + CopyAll(copies);

    // The move runs last: it takes the message out of INBOX.
    if moves != [] {
      failure := Carry(target, uid, MoveTo(moves[0]), plan, |executed|, m, t);
      if failure.Some? { return Err(failure.value); }
      executed := executed + [MoveTo(moves[0])];
    }
    assert executed == plan && plan[..|plan|] == plan;
    r := Ok(executed);
  }

  /** Drops from `copies` every folder in `moves`, in place in the source. */
  method Retain(copies: seq<string>, moves: seq<string>, ghost targets: seq<string>) returns (kept: seq<string>)
    requires forall f :: f in moves <==> f in targets
    ensures kept == Select(copies, NotAmong(targets))
  {
    kept := [];
    for i := 0 to |copies|
      invariant kept == Select(copies[..i], NotAmong(targets))
    {
      assert copies[..i + 1] == copies[..i] + [copies[i]];
      SelectSnoc(copies[..i], copies[i], NotAmong(targets));
      if copies[i] !in moves { kept := kept + [copies[i]]; }
    }
    assert copies[..|copies|] == copies;
  }

  lemma {:induction false} DedupHead(s: seq<string>)
    ensures (Dedup(s) == [] <==> s == []) && (s != [] ==> Dedup(s)[0] == s[0])
  {
    if |s| > 1 { DedupHead(s[..|s| - 1]); }
  }
}
