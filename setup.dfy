/**
  The editor tool's object-building steps, on node objects updated in place.

  A node object carries its name, its active flag, its video player's
  play-on-awake flag, its item timer, its hide gimmick and a list of child
  objects. Configuring a node overwrites the timer and the hide gimmick, and
  puts the show gimmick on the first child named `ShowGimmick`, creating that
  child only when there is none. `Created` and `Configured` state these steps
  on values; the class `VideoNode` and `CreateVideoSystemWithGimmicks` are
  proved to perform them.
 */
module AutoSetup {
  import opened Wrappers
  import opened Keys
  import opened Ring
  import opened Wiring

  /** Name of the child that carries a node's show gimmick. */
  const ShowChildName: string := "ShowGimmick"
  /** Name of the child that holds a node's screen quad. */
  const ScreenChildName: string := "Screen"

  /** A child object, reduced to its name and its set-active gimmick, if any. */
  datatype ChildObject = ChildObject(name: string, gimmick: Option<GimmickConfig>)

  /** The state of one node object. */
  datatype NodeState = NodeState(
    name: string,
    active: bool,
    playOnAwake: bool,
    timer: TimerConfig,
    hide: GimmickConfig,
    children: seq<ChildObject>)

  /** A timer component as first added, before it is configured. */
  const BlankTimer: TimerConfig := TimerConfig(GimmickKey(0, ""), 0.0, [])
  /** A gimmick component as first added, before it is configured. */
  const BlankGimmick: GimmickConfig := GimmickConfig(GimmickKey(0, ""), 0, false)
  /** A trigger element as a freshly enlarged array holds it. */
  const BlankTrigger: TriggerParam := TriggerParam(0, "", 0, "")

  /** Node `index` right after it is created and given its components. */
  function Created(index: nat): NodeState {
    NodeState(PlayerName(index), index == 0, index == 0, BlankTimer, BlankGimmick,
              [ChildObject(ScreenChildName, None)])
  }

  /** The position of the first child called `name`, looking from position `from` on. */
  function FindChildFrom(children: seq<ChildObject>, name: string, from: nat): (r: Option<nat>)
    requires from <= |children|
    ensures r.Some? ==> from <= r.value < |children| && children[r.value].name == name
    ensures r.Some? ==> forall j :: from <= j < r.value ==> children[j].name != name
    ensures r.None? ==> forall j :: from <= j < |children| ==> children[j].name != name
    decreases |children| - from
  {
    if from == |children| then None
    else if children[from].name == name then Some(from)
    else FindChildFrom(children, name, from + 1)
  }

  /** The first direct child called `name`, as a lookup by name among the children finds it. */
  function FindChild(children: seq<ChildObject>, name: string): Option<nat> {
    FindChildFrom(children, name, 0)
  }

  /** The children after the show gimmick is placed: reuse the first `ShowGimmick` child, else add one. */
  function WithShowGimmick(children: seq<ChildObject>, show: GimmickConfig): seq<ChildObject> {
    match FindChild(children, ShowChildName)
    case Some(k) => children[k := children[k].(gimmick := Some(show))]
    case None => children + [ChildObject(ShowChildName, Some(show))]
  }

  /** Node `index` of a ring of `n` after configuration with the given duration. */
  function Configured(s: NodeState, index: nat, n: nat, duration: real): NodeState
    requires index < n
  {
    s.(timer := TimerFor(index, Next(index, n), duration),
       hide := HideGimmick(index),
       children := WithShowGimmick(s.children, ShowGimmick(index)))
  }

  /** How many children are called `name`. */
  function CountNamed(children: seq<ChildObject>, name: string): nat {
    if children == [] then 0
    else (if children[0].name == name then 1 else 0) + CountNamed(children[1..], name)
  }

  /** What the configured node amounts to, or None when it has no show gimmick. */
  function Summary(s: NodeState): Option<NodeConfig> {
    match FindChild(s.children, ShowChildName)
    case Some(k) =>
      if s.children[k].gimmick.Some? then
        Some(NodeConfig(s.name, s.active, s.playOnAwake, s.timer, s.hide, s.children[k].gimmick.value))
      else None
    case None => None
  }

  lemma {:induction false} CountNamedAppend(a: seq<ChildObject>, c: ChildObject, name: string)
    ensures CountNamed(a + [c], name) == CountNamed(a, name) + (if c.name == name then 1 else 0)
    decreases |a|
  {
    if a != [] {
      assert (a + [c])[1..] == a[1..] + [c];
      CountNamedAppend(a[1..], c, name);
    }
  }

  lemma {:induction false} CountNamedUpdate(a: seq<ChildObject>, k: nat, c: ChildObject, name: string)
    requires k < |a| && c.name == a[k].name
    ensures CountNamed(a[k := c], name) == CountNamed(a, name)
    decreases |a|
  {
    if k > 0 {
      assert a[k := c][1..] == a[1..][k - 1 := c];
      CountNamedUpdate(a[1..], k - 1, c, name);
    }
  }

  lemma {:induction false} CountNamedZero(a: seq<ChildObject>, name: string)
    requires forall j :: 0 <= j < |a| ==> a[j].name != name
    ensures CountNamed(a, name) == 0
    decreases |a|
  {
    if a != [] {
      CountNamedZero(a[1..], name);
    }
  }

  lemma {:induction false} CountNamedPositive(a: seq<ChildObject>, k: nat, name: string)
    requires k < |a| && a[k].name == name
    ensures CountNamed(a, name) >= 1
    decreases |a|
  {
    if k > 0 {
      CountNamedPositive(a[1..], k - 1, name);
    }
  }

  /**
    Configuring keeps the number of `ShowGimmick` children when there is one
    and creates exactly one when there is none; the other children are left
    as they were.
   */
  lemma ConfigureKeepsOneShowChild(s: NodeState, index: nat, n: nat, duration: real)
    requires index < n
    ensures var after := Configured(s, index, n, duration).children;
            CountNamed(after, ShowChildName)
              == (if CountNamed(s.children, ShowChildName) == 0 then 1 else CountNamed(s.children, ShowChildName))
            && |s.children| <= |after| <= |s.children| + 1
            && forall j :: 0 <= j < |s.children| && s.children[j].name != ShowChildName ==> after[j] == s.children[j]
  {
    var show := ShowGimmick(index);
    match FindChild(s.children, ShowChildName)
    case Some(k) =>
      CountNamedUpdate(s.children, k, s.children[k].(gimmick := Some(show)), ShowChildName);
      CountNamedPositive(s.children, k, ShowChildName);
    case None =>
      CountNamedZero(s.children, ShowChildName);
      CountNamedAppend(s.children, ChildObject(ShowChildName, Some(show)), ShowChildName);
  }

  /** Configuring a second time changes nothing: reruns of the tool do not drift. */
  lemma ConfigureIdempotent(s: NodeState, index: nat, n: nat, duration: real)
    requires index < n
    ensures Configured(Configured(s, index, n, duration), index, n, duration) == Configured(s, index, n, duration)
  {
    var show := ShowGimmick(index);
    var once := Configured(s, index, n, duration).children;
    match FindChild(s.children, ShowChildName)
    case Some(k) =>
      assert FindChild(once, ShowChildName) == Some(k) by {
        assert forall j :: 0 <= j < k ==> once[j] == s.children[j];
        FindChildFirst(once, ShowChildName, k);
      }
    case None =>
      assert FindChild(once, ShowChildName) == Some(|s.children|) by {
        assert forall j :: 0 <= j < |s.children| ==> once[j] == s.children[j];
        FindChildFirst(once, ShowChildName, |s.children|);
      }
  }

  /** A child called `name` with no earlier namesake is the one found. */
  lemma FindChildFirst(children: seq<ChildObject>, name: string, k: nat)
    requires k < |children| && children[k].name == name
    requires forall j :: 0 <= j < k ==> children[j].name != name
    ensures FindChild(children, name) == Some(k)
  {
  }

  /** The result of configuring does not depend on what the timer and hide gimmick held before. */
  lemma ConfigureOverwritesComponents(s: NodeState, t: NodeState, index: nat, n: nat, duration: real)
    requires index < n
    requires s.(timer := t.timer, hide := t.hide) == t
    ensures Configured(s, index, n, duration) == Configured(t, index, n, duration)
  {
  }

  /** A freshly created node, once configured, is exactly entry `i` of the compiled plan. */
  lemma CreatedThenConfiguredIsPlanned(i: nat, n: nat, duration: real)
    requires i < n
    ensures Summary(Configured(Created(i), i, n, duration)) == Some(Compile(n, duration)[i])
  {
    var after := Configured(Created(i), i, n, duration);
    assert after.children == [ChildObject(ScreenChildName, None), ChildObject(ShowChildName, Some(ShowGimmick(i)))];
    FindChildFirst(after.children, ShowChildName, 1);
  }

  /** A node object: the game object with its item timer, hide gimmick and children. */
  class VideoNode {
    const name: string
    var active: bool
    var playOnAwake: bool
    var timer: TimerConfig
    var hideGimmick: GimmickConfig
    var children: seq<ChildObject>

    function State(): NodeState
      reads this
    {
      NodeState(name, active, playOnAwake, timer, hideGimmick, children)
    }

    /**
      Creates node `index` with its screen child and its components: only
      node 0 stays active and plays on awake.
     */
    constructor (index: nat)
      ensures State() == Created(index)
    {
      name := PlayerName(index);
      children := [ChildObject(ScreenChildName, None)];
      playOnAwake := index == 0;
      timer := BlankTimer;
      hideGimmick := BlankGimmick;
      active := true;
      if index != 0 {
        active := false;
      }
    }

    /** Fills in one element of the timer's trigger array. */
    method SetConstantTriggerParam(slot: nat, keyValue: string)
      requires slot < |timer.triggers|
      modifies this
      ensures timer == old(timer).(triggers := old(timer.triggers)[slot := ConstantTrigger(keyValue)])
      ensures State() == old(State()).(timer := timer)
    {
      var trigger := timer.triggers[slot];
      trigger := trigger.(target := TriggerTargetItem);
      trigger := trigger.(key := keyValue);
      trigger := trigger.(paramType := ParameterTypeSignal);
      trigger := trigger.(rawValue := "");
      timer := timer.(triggers := timer.triggers[slot := trigger]);
    }

    /** Sets the timer's start key and delay and rebuilds its trigger array from scratch. */
    method ConfigureItemTimer(currentIndex: nat, nextIndex: nat, duration: real)
      modifies this
      ensures timer == TimerFor(currentIndex, nextIndex, duration)
      ensures State() == old(State()).(timer := timer)
    {
      timer := timer.(key := timer.key.(target := GimmickTargetItem));
      timer := timer.(key := timer.key.(key := TimerStartKey));
      timer := timer.(delayTimeSeconds := duration);
      timer := timer.(triggers := []);
      timer := timer.(triggers := [BlankTrigger, BlankTrigger]);
      SetConstantTriggerParam(0, HideKey(currentIndex));
      SetConstantTriggerParam(1, ShowKey(nextIndex));
    }

    /** Configures node `index` of a ring of `n`: timer, hide gimmick, show gimmick on the child. */
    method ConfigureComponentValues(index: nat, n: nat, duration: real)
      requires index < n
      modifies this
      ensures State() == Configured(old(State()), index, n, duration)
    {
      var nextIndex := (index + 1) % n;
      ConfigureItemTimer(index, nextIndex, duration);
      hideGimmick := GimmickFor(HideKey(index), false, ActiveTargetThis);
      var show := GimmickFor(ShowKey(index), true, ActiveTargetParent);
      var existing := FindChild(children, ShowChildName);
      if existing.Some? {
        var k := existing.value;
        children := children[k := children[k].(gimmick := Some(show))];
      } else {
        children := children + [ChildObject(ShowChildName, Some(show))];
      }
    }
  }

  /** Creates the `n` node objects in order, each with its components. */
  method CreateVideoPlayers(n: nat) returns (nodes: seq<VideoNode>)
    ensures |nodes| == n
    ensures forall i :: 0 <= i < n ==> fresh(nodes[i])
    ensures forall i, j :: 0 <= i < j < n ==> nodes[i] != nodes[j]
    ensures forall i :: 0 <= i < n ==> nodes[i].State() == Created(i)
  {
    nodes := [];
    var i := 0;
    while i < n
      invariant 0 <= i <= n && |nodes| == i
      invariant forall j :: 0 <= j < i ==> fresh(nodes[j]) && nodes[j].State() == Created(j)
      invariant forall j, k :: 0 <= j < k < i ==> nodes[j] != nodes[k]
    {
      var node := new VideoNode(i);
      nodes := nodes + [node];
      i := i + 1;
    }
  }

  /** Configures every node of the ring in index order. */
  method ConfigureAll(nodes: seq<VideoNode>, duration: real)
    requires |nodes| >= 1
    requires forall i, j :: 0 <= i < j < |nodes| ==> nodes[i] != nodes[j]
    modifies set i | 0 <= i < |nodes| :: nodes[i]
    ensures forall i :: 0 <= i < |nodes| ==>
              nodes[i].State() == Configured(old(nodes[i].State()), i, |nodes|, duration)
  {
    var n := |nodes|;
    var i := 0;
    while i < n
      invariant 0 <= i <= n
      invariant forall j :: 0 <= j < i ==> nodes[j].State() == Configured(old(nodes[j].State()), j, n, duration)
      invariant forall j :: i <= j < n ==> nodes[j].State() == old(nodes[j].State())
    {
      nodes[i].ConfigureComponentValues(i, n, duration);
      i := i + 1;
    }
  }

  /**
    Creates the `n` nodes, then configures each: every node ends as the
    plan's entry for its index.
   */
  method CreateVideoSystemWithGimmicks(n: nat, duration: real) returns (nodes: seq<VideoNode>)
    requires n >= 1
    ensures |nodes| == n
    ensures forall i :: 0 <= i < n ==> fresh(nodes[i])
    ensures forall i :: 0 <= i < n ==> nodes[i].State() == Configured(Created(i), i, n, duration)
    ensures forall i :: 0 <= i < n ==> Summary(nodes[i].State()) == Some(Compile(n, duration)[i])
  {
    nodes := CreateVideoPlayers(n);
    ConfigureAll(nodes, duration);
    forall i | 0 <= i < n
      ensures Summary(nodes[i].State()) == Some(Compile(n, duration)[i])
    {
      CreatedThenConfiguredIsPlanned(i, n, duration);
    }
  }
}
