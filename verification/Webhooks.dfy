/** Webhook delivery: a bounded number of POSTs with a growing wait between them. */
module Webhooks {
  import opened Seqs
  import opened Calls

  datatype Backoff = Exponential | Fixed

  datatype Hook = Hook(name: string, maxAttempts: nat, backoff: Backoff, when: seq<string>) {
    /** With no `when` list the hook always fires; otherwise one listed tag must be present. */
    predicate FiresFor(tags: seq<string>) {
      when == [] || exists wanted :: wanted in when && wanted in tags
    }

    function Budget(): (b: nat)
      ensures b >= 1 && b >= maxAttempts && (b == maxAttempts || b == 1)
    {
      if maxAttempts > 1 then maxAttempts else 1
    }

    /** Seconds to wait after try number `attempt`, counted from 1. */
    function BackoffDelay(attempt: nat): nat {
      match backoff
      case Fixed => 1
      case Exponential =>
        var exponent := if attempt == 0 then 0 else attempt - 1;
        Pow4(if exponent < 10 then exponent else 10)
    }
  }

  function Pow4(e: nat): nat { if e == 0 then 1 else 4 * Pow4(e - 1) }

  datatype Report = Report(httpStatus: Option<nat>, attempts: nat, succeeded: bool)

  function StatusOf(p: Post): Option<nat> {
    match p
    case Success(status) => Some(status)
    case Retryable(status) => status
    case Permanent(status) => Some(status)
  }

  /** The number of the first POST from tick `t` that settles the delivery, or `left`. */
  function Tries(o: Oracle, t: nat, left: nat): nat
    requires left >= 1
    decreases left
  {
    if left == 1 || !o(t).post.Retryable? then 1 else 1 + Tries(o, t + 1, left - 1)
  }

  function Delivered(hook: Hook, o: Oracle, t: nat): Report {
    var attempts := Tries(o, t, hook.Budget());
    var last := o(t + attempts - 1).post;
    Report(StatusOf(last), attempts, last.Success?)
  }

  /** Seconds slept over the first `k` waits. */
  function Slept(hook: Hook, k: nat): nat {
    if k == 0 then 0 else Slept(hook, k - 1) + hook.BackoffDelay(k)
  }

  /** One POST at least, never more than the budget; only the last may be final. */
  lemma {:induction false} TriesBounds(o: Oracle, t: nat, left: nat)
    requires left >= 1
    ensures 1 <= Tries(o, t, left) <= left
    ensures forall k :: t <= k < t + Tries(o, t, left) - 1 ==> o(k).post.Retryable?
    ensures o(t + Tries(o, t, left) - 1).post.Retryable? ==> Tries(o, t, left) == left
    decreases left
  {
    if left > 1 && o(t).post.Retryable? {
      TriesBounds(o, t + 1, left - 1);
    }
  }

  /** The POST at tick `k` is the first of a delivery begun at `t` that is not retryable. */
  ghost predicate SettlesAt(o: Oracle, t: nat, k: nat) {
    t <= k && !o(k).post.Retryable? && forall j :: t <= j < k ==> o(j).post.Retryable?
  }

  /** The delivery in full: how many POSTs, what made it stop, and the status it reports. */
  lemma DeliveryIsBounded(hook: Hook, o: Oracle, t: nat)
    ensures var r := Delivered(hook, o, t);
      && 1 <= r.attempts <= hook.Budget()
      && (forall k :: t <= k < t + r.attempts - 1 ==> o(k).post.Retryable?)
      && r.httpStatus == StatusOf(o(t + r.attempts - 1).post)
      && (r.succeeded <==> exists k: nat :: SettlesAt(o, t, k) && k < t + hook.Budget() && o(k).post.Success?)
      && (r.attempts < hook.Budget() ==> SettlesAt(o, t, t + r.attempts - 1))
  {
    var r := Delivered(hook, o, t);
    TriesBounds(o, t, hook.Budget());
    var last := t + r.attempts - 1;
    assert r.succeeded ==> SettlesAt(o, t, last);
    if exists k: nat :: SettlesAt(o, t, k) && k < t + hook.Budget() && o(k).post.Success? {
      var k: nat :| SettlesAt(o, t, k) && k < t + hook.Budget() && o(k).post.Success?;
      assert k == last;
    }
  }

  const DELAY_CAP := 1_048_576

  /** The status reported is that of the last POST: the one received, for a retryable failure
      the one received if any. */
  lemma ReportedStatus(hook: Hook, o: Oracle, t: nat)
    ensures var r := Delivered(hook, o, t);
      match o(t + r.attempts - 1).post
      case Success(status) => r.httpStatus == Some(status) && r.succeeded
      case Permanent(status) => r.httpStatus == Some(status) && !r.succeeded
      case Retryable(lastStatus) => r.httpStatus == lastStatus && !r.succeeded && r.attempts == hook.Budget()
  {
    TriesBounds(o, t, hook.Budget());
  }

  /** The budget is the configured number of attempts, and one when that is zero. */
  lemma BudgetMeans(hook: Hook)
    ensures hook.Budget() == if hook.maxAttempts == 0 then 1 else hook.maxAttempts
  {
  }

  lemma CapIsPow4()
    ensures Pow4(10) == DELAY_CAP && Pow4(11) == 4 * DELAY_CAP
  {
    assert Pow4(3) == 64 && Pow4(6) == 4096;
    assert Pow4(9) == 262_144;
  }

  /** The geometric sum of the waits: (4^k - 1)/3 up to the eleventh, a constant 4^10 after it. */
  lemma {:induction false} ExponentialSleep(hook: Hook, k: nat)
    requires hook.backoff == Exponential
    ensures k <= 11 ==> 3 * Slept(hook, k) == Pow4(k) - 1
    ensures k > 11 ==> 3 * Slept(hook, k) == Pow4(11) - 1 + 3 * (k - 11) * DELAY_CAP
  {
    if k > 0 {
      ExponentialSleep(hook, k - 1);
      if k >= 11 { CapIsPow4(); }
    }
  }

  lemma {:induction false} FixedSleep(hook: Hook, k: nat)
    requires hook.backoff == Fixed
    ensures Slept(hook, k) == k
  {
    if k > 0 { FixedSleep(hook, k - 1); }
  }

  /** POSTs until one settles the delivery or the budget is spent. */
  method Deliver(net: Network, hook: Hook) returns (report: Report, slept: nat)
    modifies net
    ensures report == Delivered(hook, net.oracle, old(net.tick))
    ensures net.tick == old(net.tick) + report.attempts
    ensures slept == Slept(hook, report.attempts - 1)
  {
    var maxAttempts := hook.Budget();
    ghost var start := net.tick;
    var lastStatus := None;
    slept := 0;
    for attempt := 1 to maxAttempts + 1
      invariant net.tick == start + attempt - 1
      invariant attempt <= maxAttempts ==>
        Tries(net.oracle, start, maxAttempts) == attempt - 1 + Tries(net.oracle, net.tick, maxAttempts - attempt + 1)
      invariant attempt > maxAttempts ==>
        Tries(net.oracle, start, maxAttempts) == maxAttempts && net.oracle(net.tick - 1).post.Retryable?
      invariant attempt > 1 ==> lastStatus == StatusOf(net.oracle(net.tick - 1).post)
      invariant slept == Slept(hook, if attempt <= maxAttempts then attempt - 1 else maxAttempts - 1)
    {
      var a := net.Call();
      match a.post {
        case Success(status) =>
          return Report(Some(status), attempt, true), slept;
        case Retryable(status) =>
          lastStatus := status;
          if attempt < maxAttempts {
            slept := slept + hook.BackoffDelay(attempt);
          }
        case Permanent(status) =>
          return Report(Some(status), attempt, false), slept;
      }
    }
    report := Report(lastStatus, maxAttempts, false);
  }

  // ----- The registry -----

  function Names(webhooks: seq<Hook>): seq<string> {
    seq(|webhooks|, i requires 0 <= i < |webhooks| => webhooks[i].name)
  }

  /** Every hook is found under its name, and nothing else is. */
  ghost predicate IsRegistry(registry: map<string, Hook>, webhooks: seq<Hook>) {
    && (forall i :: 0 <= i < |webhooks| ==> webhooks[i].name in registry && registry[webhooks[i].name] == webhooks[i])
    && (forall name :: name in registry ==> name in Names(webhooks))
  }

  lemma OneMoreHook(registry: map<string, Hook>, webhooks: seq<Hook>, hook: Hook)
    requires IsRegistry(registry, webhooks) && Distinct(Names(webhooks))
    ensures Names(webhooks + [hook]) == Names(webhooks) + [hook.name]
    ensures hook.name in registry <==> !Distinct(Names(webhooks + [hook]))
    ensures hook.name !in registry ==> IsRegistry(registry[hook.name := hook], webhooks + [hook])
  {
    var names := Names(webhooks);
    assert Names(webhooks + [hook]) == names + [hook.name];
    if hook.name in registry {
      var j :| 0 <= j < |names| && names[j] == hook.name;
      assert (names + [hook.name])[j] == (names + [hook.name])[|names|];
    } else {
      forall i | 0 <= i < |webhooks| ensures webhooks[i].name != hook.name { assert webhooks[i].name in registry; }
    }
  }

  lemma RepeatedPrefix(s: seq<string>, k: nat)
    requires k <= |s| && !Distinct(s[..k])
    ensures !Distinct(s)
  {
    var i, j :| 0 <= i < j < k && s[..k][i] == s[..k][j];
    assert s[i] == s[j];
  }

  /** The hooks by name; nothing when two share one. */
  method Register(webhooks: seq<Hook>) returns (registry: Option<map<string, Hook>>)
    ensures registry.Some? <==> Distinct(Names(webhooks))
    ensures registry.Some? ==> IsRegistry(registry.value, webhooks)
  {
    hide IsRegistry, Distinct;
    var hooks: map<string, Hook> := map[];
    EmptyRegistry();
    for i := 0 to |webhooks|
      invariant IsRegistry(hooks, webhooks[..i]) && Distinct(Names(webhooks[..i]))
    {
      assert webhooks[..i + 1] == webhooks[..i] + [webhooks[i]];
      OneMoreHook(hooks, webhooks[..i], webhooks[i]);
      if webhooks[i].name in hooks {
        assert Names(webhooks[..i + 1]) == Names(webhooks)[..i + 1];
        RepeatedPrefix(Names(webhooks), i + 1);
        return None;
      }
      hooks := hooks[webhooks[i].name := webhooks[i]];
    }
    assert webhooks[..|webhooks|] == webhooks;
    registry := Some(hooks);
  }

  lemma EmptyRegistry()
    ensures IsRegistry(map[], []) && Distinct(Names([]))
  {
  }
}
