/**
  The compiled configuration, run by an event-driven host, shows the same
  node over time as the runtime scheduler.

  The host is simulated directly on the plan: a trigger key reaches every
  gimmick listening on it; a hide gimmick sits on its node and acts on it
  (target This), a show gimmick sits on the node's child and acts on the node
  (target Parent). The timer of the visible node runs out after its delay and
  fires its triggers in order. This is a property of the model: the two
  source files use different keys (`Video_{i}` for the script's signals,
  `ShowVideo{i}` for the tool's gimmicks) and neither relies on the other.
 */
module RingEquivalence {
  import opened Wrappers
  import opened Keys
  import opened Ring
  import opened VideoSequencePlayer
  import opened Wiring

  /** Whether node `cfg` is visible after `key` is delivered, given whether it was before. */
  function NodeAfter(cfg: NodeConfig, visible: bool, key: string): bool {
    if cfg.hide.key.key == key && cfg.hide.target == ActiveTargetThis then cfg.hide.active
    else if cfg.show.key.key == key && cfg.show.target == ActiveTargetParent then cfg.show.active
    else visible
  }

  /** Visibility of every node after `key` is delivered to every gimmick. */
  function Deliver(plan: seq<NodeConfig>, vis: seq<bool>, key: string): (r: seq<bool>)
    requires |vis| == |plan|
    ensures |r| == |plan|
  {
    seq(|plan|, j requires 0 <= j < |plan| => NodeAfter(plan[j], vis[j], key))
  }

  /** Visibility after the triggers are fired one after the other. */
  function FireAll(plan: seq<NodeConfig>, vis: seq<bool>, triggers: seq<TriggerParam>): (r: seq<bool>)
    requires |vis| == |plan|
    ensures |r| == |plan|
    decreases |triggers|
  {
    if triggers == [] then vis else FireAll(plan, Deliver(plan, vis, triggers[0].key), triggers[1..])
  }

  /** Only node `a` of `n` is visible. */
  function OnlyActive(n: nat, a: nat): seq<bool> {
    seq(n, j requires 0 <= j < n => j == a)
  }

  /** The first visible node from position `from` on, if any. */
  function FirstVisibleFrom(vis: seq<bool>, from: nat): (r: Option<nat>)
    requires from <= |vis|
    ensures r.Some? ==> from <= r.value < |vis| && vis[r.value]
    ensures r.Some? ==> forall j :: from <= j < r.value ==> !vis[j]
    ensures r.None? ==> forall j :: from <= j < |vis| ==> !vis[j]
    decreases |vis| - from
  {
    if from == |vis| then None
    else if vis[from] then Some(from)
    else FirstVisibleFrom(vis, from + 1)
  }

  /** The visible node as seen by the host: the first one, if any. */
  function FirstVisible(vis: seq<bool>): Option<nat> {
    FirstVisibleFrom(vis, 0)
  }

  /** The initial visibility the plan prescribes. */
  function InitialVisibility(plan: seq<NodeConfig>): seq<bool> {
    seq(|plan|, j requires 0 <= j < |plan| => plan[j].active)
  }

  /**
    One timer period: the visible node's timer runs out after its
    `delayTimeSeconds` and fires its triggers. The result is the new
    visibility and the time that passed (none when no node is visible).
   */
  function HostStep(plan: seq<NodeConfig>, vis: seq<bool>): (r: (seq<bool>, real))
    requires |vis| == |plan|
    ensures |r.0| == |plan|
  {
    match FirstVisible(vis)
    case None => (vis, 0.0)
    case Some(a) => (FireAll(plan, vis, plan[a].timer.triggers), plan[a].timer.delayTimeSeconds)
  }

  /** `k` timer periods: the final visibility and the total time they took. */
  function HostRun(plan: seq<NodeConfig>, vis: seq<bool>, k: nat): (r: (seq<bool>, real))
    requires |vis| == |plan|
    ensures |r.0| == |plan|
    decreases k
  {
    if k == 0 then (vis, 0.0)
    else
      var first := HostStep(plan, vis);
      var rest := HostRun(plan, first.0, k - 1);
      (rest.0, first.1 + rest.1)
  }

  lemma FirstVisibleOfOnlyActive(n: nat, a: nat)
    requires a < n
    ensures FirstVisible(OnlyActive(n, a)) == Some(a)
  {
    var r := FirstVisible(OnlyActive(n, a));
    assert OnlyActive(n, a)[a];
  }

  /** The plan starts with exactly node 0 visible. */
  lemma InitiallyOnlyFirst(n: nat, duration: real)
    requires n >= 1
    ensures InitialVisibility(Compile(n, duration)) == OnlyActive(n, 0)
  {
  }

  /** Delivering node `a`'s hide key to a ring where only `a` is visible hides every node. */
  lemma HideKeyHidesAll(n: nat, duration: real, a: nat)
    requires a < n
    ensures Deliver(Compile(n, duration), OnlyActive(n, a), HideKey(a)) == seq(n, j => false)
  {
    var plan := Compile(n, duration);
    var hidden := Deliver(plan, OnlyActive(n, a), HideKey(a));
    forall j | 0 <= j < n
      ensures !hidden[j]
    {
      HideKeyInjective(j, a);
      HideShowDistinct(a, j);
    }
  }

  /** Delivering node `b`'s show key to a ring where no node is visible shows node `b` alone. */
  lemma ShowKeyShowsOne(n: nat, duration: real, b: nat)
    requires b < n
    ensures Deliver(Compile(n, duration), seq(n, j => false), ShowKey(b)) == OnlyActive(n, b)
  {
    var plan := Compile(n, duration);
    var shown := Deliver(plan, seq(n, j => false), ShowKey(b));
    forall j | 0 <= j < n
      ensures shown[j] == (j == b)
    {
      HideShowDistinct(j, b);
      ShowKeyInjective(j, b);
    }
  }

  /**
    When node `a` alone is visible and its timer runs out, hiding itself and
    then showing its successor leaves exactly the successor visible (for a
    ring of one node, the node hides and shows itself again).
   */
  lemma TimerExpiryPassesOn(n: nat, duration: real, a: nat)
    requires a < n
    ensures var plan := Compile(n, duration);
            FireAll(plan, OnlyActive(n, a), plan[a].timer.triggers) == OnlyActive(n, Next(a, n))
  {
    var plan := Compile(n, duration);
    var next := Next(a, n);
    var triggers := plan[a].timer.triggers;
    var none := seq(n, j => false);
    assert triggers[0].key == HideKey(a) && triggers[1].key == ShowKey(next);
    HideKeyHidesAll(n, duration, a);
    ShowKeyShowsOne(n, duration, next);
    calc {
      FireAll(plan, OnlyActive(n, a), triggers);
      FireAll(plan, none, triggers[1..]);
      FireAll(plan, OnlyActive(n, next), triggers[1..][1..]);
      { assert triggers[1..][1..] == []; }
      OnlyActive(n, next);
    }
  }

  /**
    One timer period moves the single visible node one place round the ring
    and lasts exactly the configured `duration`.
   */
  lemma HostStepPassesOn(n: nat, duration: real, a: nat)
    requires a < n
    ensures HostStep(Compile(n, duration), OnlyActive(n, a)) == (OnlyActive(n, Next(a, n)), duration)
  {
    FirstVisibleOfOnlyActive(n, a);
    TimerExpiryPassesOn(n, duration, a);
    CompiledTimer(n, duration, a);
  }

  /**
    From node `a` alone visible, `k` periods leave node `k` places further
    alone visible, after `k` times `duration` seconds.
   */
  lemma {:induction false} HostRunFrom(n: nat, duration: real, a: nat, k: nat)
    requires a < n
    ensures HostRun(Compile(n, duration), OnlyActive(n, a), k)
            == (OnlyActive(n, Advance(a, n, k)), k as real * duration)
    decreases k
  {
    if k > 0 {
      var plan := Compile(n, duration);
      HostStepPassesOn(n, duration, a);
      HostRunFrom(n, duration, Next(a, n), k - 1);
      var rest := HostRun(plan, OnlyActive(n, Next(a, n)), k - 1);
      assert HostRun(plan, OnlyActive(n, a), k) == (rest.0, duration + rest.1);
      assert duration + (k - 1) as real * duration == k as real * duration;
      assert rest.0 == OnlyActive(n, Advance(a, n, k));
      assert duration + rest.1 == k as real * duration;
    }
  }

  /** Every node plays for the same `duration`, as the tool configures it. */
  function UniformLengths(n: nat, duration: real): seq<real> {
    seq(n, j => duration)
  }

  /**
    Equivalence: after `k` timer periods, the host running the compiled
    plan shows exactly the node that the scheduler, given the same length
    for every node and one frame per period, has made active; and the
    host's timers took exactly as long as the scheduler's frames.
   */
  lemma HostMatchesScheduler(n: nat, duration: real, k: nat)
    requires n >= 1
    ensures var plan := Compile(n, duration);
            var frames := seq(k, j => duration);
            var host := HostRun(plan, InitialVisibility(plan), k);
            host.0 == OnlyActive(n, Run(UniformLengths(n, duration), n, RingState(0, 0.0), frames).0.idx)
            && host.1 == Sum(frames)
  {
    var lengths := UniformLengths(n, duration);
    assert Boundaries(lengths, n, 0, k) == seq(k, j => duration) by {
      UniformBoundaries(n, duration, 0, k);
    }
    ExactDurationsVisitInOrder(lengths, n, 0, k);
    InitiallyOnlyFirst(n, duration);
    HostRunFrom(n, duration, 0, k);
    SumUniform(duration, k);
  }

  lemma {:induction false} UniformBoundaries(n: nat, duration: real, i: nat, k: nat)
    requires i < n
    ensures Boundaries(UniformLengths(n, duration), n, i, k) == seq(k, j => duration)
    decreases k
  {
    if k > 0 {
      UniformBoundaries(n, duration, Next(i, n), k - 1);
      assert seq(k, j => duration) == [duration] + seq(k - 1, j => duration);
    }
  }

  /** `k` frames of `duration` last `k` times `duration`. */
  lemma {:induction false} SumUniform(duration: real, k: nat)
    ensures Sum(seq(k, j => duration)) == k as real * duration
    decreases k
  {
    if k > 0 {
      var frames := seq(k, j => duration);
      assert frames != [] && frames[0] == duration;
      assert frames[1..] == seq(k - 1, j => duration);
      assert Sum(frames) == duration + Sum(seq(k - 1, j => duration));
      SumUniform(duration, k - 1);
    }
  }
}
