/**
  The configuration the editor tool derives for a ring of video nodes.

  For node `i` the tool sets up an item timer that, after the video duration,
  fires two triggers in order: hide node `i`, then show the next node round the
  ring. Node `i` carries the gimmick that hides it; a child of node `i` carries
  the gimmick that shows it. Only node 0 starts visible. The tool writes these
  values through serialized properties; here they are typed records, and
  `Compile` is the whole derivation as one value.
 */
module Wiring {
  import opened Keys
  import opened Ring

  /** `GimmickTarget.Item`, written into the `target` of every gimmick key. */
  const GimmickTargetItem: int := 0
  /** `TriggerTarget.Item`, written into the `target` of every constant trigger. */
  const TriggerTargetItem: int := 1
  /** `ParameterType.Signal`, the type of every constant trigger. */
  const ParameterTypeSignal: int := 0
  /** `SetGameObjectActiveTarget.This`: the gimmick acts on the object it sits on. */
  const ActiveTargetThis: int := 0
  /** `SetGameObjectActiveTarget.Parent`: the gimmick acts on its object's parent. */
  const ActiveTargetParent: int := 1
  /** The key every item timer is started by. */
  const TimerStartKey: string := "StartTimer"

  datatype GimmickKey = GimmickKey(target: int, key: string)

  datatype TriggerParam = TriggerParam(target: int, key: string, paramType: int, rawValue: string)

  datatype TimerConfig = TimerConfig(key: GimmickKey, delayTimeSeconds: real, triggers: seq<TriggerParam>)

  datatype GimmickConfig = GimmickConfig(key: GimmickKey, target: int, active: bool)

  /** Everything the tool decides for one node. */
  datatype NodeConfig = NodeConfig(
    name: string,
    active: bool,
    playOnAwake: bool,
    timer: TimerConfig,
    hide: GimmickConfig,
    show: GimmickConfig)

  /** A constant trigger as the tool fills it in: item-targeted signal with an empty value. */
  function ConstantTrigger(key: string): TriggerParam {
    TriggerParam(TriggerTargetItem, key, ParameterTypeSignal, "")
  }

  /** The timer of node `current`, whose successor is `next`. */
  function TimerFor(current: nat, next: nat, duration: real): TimerConfig {
    TimerConfig(
      GimmickKey(GimmickTargetItem, TimerStartKey),
      duration,
      [ConstantTrigger(HideKey(current)), ConstantTrigger(ShowKey(next))])
  }

  /** A set-active gimmick listening on `key`. */
  function GimmickFor(key: string, active: bool, target: int): GimmickConfig {
    GimmickConfig(GimmickKey(GimmickTargetItem, key), target, active)
  }

  /** The gimmick on node `i` itself that hides it. */
  function HideGimmick(i: nat): GimmickConfig {
    GimmickFor(HideKey(i), false, ActiveTargetThis)
  }

  /** The gimmick on node `i`'s child that shows node `i`. */
  function ShowGimmick(i: nat): GimmickConfig {
    GimmickFor(ShowKey(i), true, ActiveTargetParent)
  }

  function NodeFor(i: nat, n: nat, duration: real): NodeConfig
    requires i < n
  {
    NodeConfig(PlayerName(i), i == 0, i == 0,
               TimerFor(i, Next(i, n), duration), HideGimmick(i), ShowGimmick(i))
  }

  /** The configuration of a ring of `n` nodes that each play for `duration` seconds. */
  function Compile(n: nat, duration: real): (plan: seq<NodeConfig>)
    requires n >= 1
    ensures |plan| == n
  {
    seq(n, i requires 0 <= i < n => NodeFor(i, n, duration))
  }

  /** Node `i` is named `VideoPlayer{i+1}`; only node 0 starts active and plays on awake. */
  lemma CompiledVisibility(n: nat, duration: real, i: nat)
    requires i < n
    ensures var node := Compile(n, duration)[i];
            node.name == PlayerName(i)
            && (node.active <==> i == 0) && (node.playOnAwake <==> i == 0)
  {
  }

  /**
    Node `i`'s timer is started by `StartTimer`, waits the common duration and
    then fires exactly two item-targeted signal triggers with empty values:
    hide node `i` first, show node `(i + 1) % n` second.
   */
  lemma CompiledTimer(n: nat, duration: real, i: nat)
    requires i < n
    ensures var timer := Compile(n, duration)[i].timer;
            timer.delayTimeSeconds == duration
            && timer.key == GimmickKey(GimmickTargetItem, TimerStartKey)
            && timer.triggers
               == [TriggerParam(TriggerTargetItem, HideKey(i), ParameterTypeSignal, ""),
                   TriggerParam(TriggerTargetItem, ShowKey(Next(i, n)), ParameterTypeSignal, "")]
  {
  }

  /** Node `i`'s hide gimmick deactivates the node it sits on; its show gimmick activates its parent, node `i`. */
  lemma CompiledGimmicks(n: nat, duration: real, i: nat)
    requires i < n
    ensures var node := Compile(n, duration)[i];
            node.hide == GimmickConfig(GimmickKey(GimmickTargetItem, HideKey(i)), ActiveTargetThis, false)
            && node.show == GimmickConfig(GimmickKey(GimmickTargetItem, ShowKey(i)), ActiveTargetParent, true)
  {
  }

  /** A gimmick that can receive a trigger: the hide gimmick or the show gimmick of a node. */
  datatype Receiver = HideOf(node: nat) | ShowOf(node: nat)

  /**
    Every set-active gimmick of the plan that listens on `key`. The timers
    listen too, on `TimerStartKey`; `TriggersNeverStartTimers` shows that no
    trigger of the plan sends that key, so they are no receivers of a trigger.
   */
  function GimmickReceivers(plan: seq<NodeConfig>, key: string): set<Receiver> {
    (set j: nat | j < |plan| && plan[j].hide.key.key == key :: HideOf(j))
    + (set j: nat | j < |plan| && plan[j].show.key.key == key :: ShowOf(j))
  }

  /** No trigger of the plan sends `StartTimer`: a timer is started only from outside the plan. */
  lemma TriggersNeverStartTimers(n: nat, duration: real, i: nat, slot: nat)
    requires i < n && slot < |Compile(n, duration)[i].timer.triggers|
    ensures Compile(n, duration)[i].timer.triggers[slot].key != TimerStartKey
  {
    CompiledTimer(n, duration, i);
    var key := Compile(n, duration)[i].timer.triggers[slot].key;
    assert key == HideKey(i) || key == ShowKey(Next(i, n));
    assert HideKey(i)[1] == 'i' && ShowKey(Next(i, n))[1] == 'h' && TimerStartKey[1] == 't';
  }

  /** A trigger of the plan: the `slot`-th trigger of node `node`'s timer. */
  datatype TriggerSlot = TriggerSlot(node: nat, slot: nat)

  /** Every timer trigger of the plan that fires `key`. */
  function Triggerers(plan: seq<NodeConfig>, key: string): set<TriggerSlot> {
    set j: nat, k: nat | j < |plan| && k < |plan[j].timer.triggers| && plan[j].timer.triggers[k].key == key
      :: TriggerSlot(j, k)
  }

  /**
    The ring closes: node `i`'s second trigger is exactly the key of node
    `(i + 1) % n`'s show gimmick, and the last node's names node 0's.
   */
  lemma RingCloses(n: nat, duration: real)
    requires n >= 1
    ensures var plan := Compile(n, duration);
            (forall i :: 0 <= i < n ==>
               plan[i].timer.triggers[1].key == plan[Next(i, n)].show.key.key
               && plan[i].timer.triggers[0].key == plan[i].hide.key.key)
            && plan[n - 1].timer.triggers[1].key == plan[0].show.key.key
  {
  }

  /** Node `i`'s first trigger has exactly one receiver: node `i`'s own hide gimmick. */
  lemma HideTriggerHasOneReceiver(n: nat, duration: real, i: nat)
    requires i < n
    ensures var plan := Compile(n, duration);
            GimmickReceivers(plan, plan[i].timer.triggers[0].key) == {HideOf(i)}
  {
    var plan := Compile(n, duration);
    var key := HideKey(i);
    forall r | r in GimmickReceivers(plan, key)
      ensures r == HideOf(i)
    {
      if r.HideOf? {
        HideKeyInjective(r.node, i);
      } else {
        HideShowDistinct(i, r.node);
      }
    }
    assert HideOf(i) in GimmickReceivers(plan, key);
  }

  /** Node `i`'s second trigger has exactly one receiver: the show gimmick of node `(i + 1) % n`. */
  lemma ShowTriggerHasOneReceiver(n: nat, duration: real, i: nat)
    requires i < n
    ensures var plan := Compile(n, duration);
            GimmickReceivers(plan, plan[i].timer.triggers[1].key) == {ShowOf(Next(i, n))}
  {
    var plan := Compile(n, duration);
    var next := Next(i, n);
    var key := ShowKey(next);
    forall r | r in GimmickReceivers(plan, key)
      ensures r == ShowOf(next)
    {
      if r.HideOf? {
        HideShowDistinct(r.node, next);
      } else {
        ShowKeyInjective(r.node, next);
      }
    }
    assert ShowOf(next) in GimmickReceivers(plan, key);
  }

  /** Node `i`'s hide key is fired by node `i`'s first trigger and by no other trigger. */
  lemma HideGimmickHasOneTrigger(n: nat, duration: real, i: nat)
    requires i < n
    ensures var plan := Compile(n, duration);
            Triggerers(plan, plan[i].hide.key.key) == {TriggerSlot(i, 0)}
  {
    var plan := Compile(n, duration);
    var key := HideKey(i);
    forall t | t in Triggerers(plan, key)
      ensures t == TriggerSlot(i, 0)
    {
      var j := t.node;
      if t.slot == 0 {
        HideKeyInjective(j, i);
      } else {
        HideShowDistinct(i, Next(j, n));
      }
    }
    assert TriggerSlot(i, 0) in Triggerers(plan, key);
  }

  /** Node `i`'s show key is fired by the second trigger of the node before it, and by no other trigger. */
  lemma ShowGimmickHasOneTrigger(n: nat, duration: real, i: nat)
    requires i < n
    ensures var plan := Compile(n, duration);
            Triggerers(plan, plan[i].show.key.key) == {TriggerSlot(Prev(i, n), 1)}
  {
    var plan := Compile(n, duration);
    var key := ShowKey(i);
    var prev := Prev(i, n);
    forall t | t in Triggerers(plan, key)
      ensures t == TriggerSlot(prev, 1)
    {
      var j := t.node;
      if t.slot == 0 {
        HideShowDistinct(j, i);
      } else {
        ShowKeyInjective(Next(j, n), i);
        NextInjective(j, prev, n);
      }
    }
    assert TriggerSlot(prev, 1) in Triggerers(plan, key);
  }

  /** Distinct nodes get distinct object names and distinct gimmick keys. */
  lemma NamesAndKeysDistinct(n: nat, duration: real, i: nat, j: nat)
    requires i < n && j < n && i != j
    ensures var plan := Compile(n, duration);
            plan[i].name != plan[j].name
            && plan[i].hide.key.key != plan[j].hide.key.key
            && plan[i].show.key.key != plan[j].show.key.key
  {
    PlayerNameInjective(i, j);
    HideKeyInjective(i, j);
    ShowKeyInjective(i, j);
  }

  /** The tool builds five nodes: the fifth node's timer shows the first node again. */
  const SourceNodeCount: nat := 5

  lemma FiveNodeRingWraps(duration: real)
    ensures var plan := Compile(SourceNodeCount, duration);
            plan[4].name == "VideoPlayer5"
            && plan[4].timer.triggers[0].key == "HideVideo5"
            && plan[4].timer.triggers[1].key == "ShowVideo1"
  {
    FirstKeys();
    assert NatToString(5) == "5";
  }
}
