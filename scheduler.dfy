/**
  The runtime ring scheduler of the video sequence script.

  The script keeps two pieces of state, the active node `idx` and the time `t`
  spent in it. Starting selects node 0 with a negative pre-roll; every frame
  adds the frame time and, once the active node's length is reached, resets the
  time to 0, moves to the next node around the ring and broadcasts one signal
  naming it. `Step` and `Run` state that rule as functions; the class `Player`
  is the script itself, whose callbacks are proved to follow them.
 */
module VideoSequencePlayer {
  import opened Wrappers
  import opened Keys
  import opened Ring

  /** A broadcast signal: the channel it is sent on and its key. */
  datatype Signal = Signal(channel: string, key: string)

  /**
    The signal that announces node `i`: on the global channel, a key made of
    the prefix `Video_` and the decimal text of the 1-based position `i + 1`,
    from which the position can be read back.
   */
  function VideoSignal(i: nat): (s: Signal)
    ensures s.channel == "global"
    ensures |s.key| > 6 && s.key[..6] == "Video_"
    ensures AllDigits(s.key[6..]) && ParseDecimal(s.key[6..]) == i + 1
  {
    var key := VideoKey(i);
    assert key[..6] == "Video_" && key[6..] == NatToString(i + 1);
    ParseNatToString(i + 1);
    Signal("global", key)
  }

  /** The signals that announce the nodes of a ring of `n`. */
  function VideoSignals(n: nat): set<Signal> {
    set j: nat | j < n :: VideoSignal(j)
  }

  /** The scheduler's state: active node and time spent in it (negative during pre-roll). */
  datatype RingState = RingState(idx: int, t: real)

  /** Length of node `i`; a node without an entry counts as length 0. */
  function LengthAt(lengths: seq<real>, i: int): (len: real)
    ensures 0 <= i < |lengths| ==> len == lengths[i]
    ensures !(0 <= i < |lengths|) ==> len == 0.0
  {
    if 0 <= i < |lengths| then lengths[i] else 0.0
  }

  /** The state right after starting: node 0, with the pre-roll still to elapse. */
  function StartState(buffer: real): RingState {
    RingState(0, -buffer)
  }

  /**
    One frame of `dt` seconds over a ring of `n` nodes. The time is advanced
    first; reaching the active node's length (inclusive) moves to the next node
    exactly once, however far the time overshot, drops the overshoot, and
    yields the signal of the node now active. Otherwise only the time changes.
   */
  function Step(lengths: seq<real>, n: nat, s: RingState, dt: real): (r: (RingState, Option<Signal>))
    requires n >= 1 && 0 <= s.idx < n
    ensures 0 <= r.0.idx < n
    ensures r.1.Some? <==> s.t + dt >= LengthAt(lengths, s.idx)
    ensures r.1.None? ==> r.0.idx == s.idx && r.0.t == s.t + dt
    ensures r.1.Some? ==> r.0.t == 0.0 && r.0.idx == (s.idx + 1) % n
    ensures r.1.Some? ==> r.1.value == VideoSignal(r.0.idx)
  {
    var t := s.t + dt;
    if t >= LengthAt(lengths, s.idx) then
      var next := (s.idx + 1) % n;
      (RingState(next, 0.0), Some(VideoSignal(next)))
    else
      (RingState(s.idx, t), None)
  }

  /**
    A node with no length entry counts as length 0: from a non-negative time,
    any frame that does not push the time below 0 transitions to the next node.
   */
  lemma MissingLengthTransitions(lengths: seq<real>, n: nat, s: RingState, dt: real)
    requires 0 <= s.idx < n && s.idx >= |lengths| && s.t + dt >= 0.0
    ensures Step(lengths, n, s, dt) == (RingState(Next(s.idx, n), 0.0), Some(VideoSignal(Next(s.idx, n))))
  {
  }

  /** The signals of a single step, as a list of zero or one. */
  function Emitted(o: Option<Signal>): seq<Signal> {
    if o.Some? then [o.value] else []
  }

  /** Successive frames: the final state and every signal sent, in order. */
  function Run(lengths: seq<real>, n: nat, s: RingState, dts: seq<real>): (r: (RingState, seq<Signal>))
    requires n >= 1 && 0 <= s.idx < n
    ensures 0 <= r.0.idx < n
    ensures |r.1| <= |dts|
    ensures forall k :: 0 <= k < |r.1| ==> r.1[k] in VideoSignals(n)
    decreases |dts|
  {
    if dts == [] then (s, [])
    else
      var first := Step(lengths, n, s, dts[0]);
      assert first.1.Some? ==> first.1.value in VideoSignals(n);
      var rest := Run(lengths, n, first.0, dts[1..]);
      (rest.0, Emitted(first.1) + rest.1)
  }

  /** Frames that each last exactly the active node's length, starting at node `i`. */
  function Boundaries(lengths: seq<real>, n: nat, i: nat, k: nat): (dts: seq<real>)
    requires i < n
    decreases k
  {
    if k == 0 then [] else [LengthAt(lengths, i)] + Boundaries(lengths, n, Next(i, n), k - 1)
  }

  /** The signals of `k` consecutive transitions from node `i`. */
  function Visits(n: nat, i: nat, k: nat): seq<Signal>
    requires i < n
    decreases k
  {
    if k == 0 then [] else [VideoSignal(Next(i, n))] + Visits(n, Next(i, n), k - 1)
  }

  /**
    Frames whose times sum exactly to each node's length make one transition
    per node boundary and never skip a node: after `k` of them the scheduler is
    `k` nodes further round the ring and has announced every node on the way.
   */
  lemma {:induction false} ExactDurationsVisitInOrder(lengths: seq<real>, n: nat, i: nat, k: nat)
    requires i < n
    ensures Run(lengths, n, RingState(i, 0.0), Boundaries(lengths, n, i, k))
            == (RingState(Advance(i, n, k), 0.0), Visits(n, i, k))
    decreases k
  {
    if k > 0 {
      var dts := Boundaries(lengths, n, i, k);
      assert dts[0] == LengthAt(lengths, i);
      assert dts[1..] == Boundaries(lengths, n, Next(i, n), k - 1);
      ExactDurationsVisitInOrder(lengths, n, Next(i, n), k - 1);
    }
  }

  /** Total time of a list of frames. */
  function Sum(dts: seq<real>): real
    decreases |dts|
  {
    if dts == [] then 0.0 else dts[0] + Sum(dts[1..])
  }

  lemma {:induction false} SumPositive(dts: seq<real>)
    requires dts != [] && forall k :: 0 <= k < |dts| ==> dts[k] > 0.0
    ensures Sum(dts) > 0.0
    decreases |dts|
  {
    if |dts| > 1 {
      SumPositive(dts[1..]);
    }
  }

  /** Running two lists of frames one after the other is running their concatenation. */
  lemma {:induction false} RunAppend(lengths: seq<real>, n: nat, s: RingState, a: seq<real>, b: seq<real>)
    requires 0 <= s.idx < n
    ensures var first := Run(lengths, n, s, a);
            var second := Run(lengths, n, first.0, b);
            Run(lengths, n, s, a + b) == (second.0, first.1 + second.1)
    decreases |a|
  {
    if a == [] {
      assert a + b == b;
      assert Run(lengths, n, s, a) == (s, []);
      var second := Run(lengths, n, s, b);
      assert [] + second.1 == second.1;
    } else {
      assert (a + b)[0] == a[0] && (a + b)[1..] == a[1..] + b;
      var step := Step(lengths, n, s, a[0]);
      RunAppend(lengths, n, step.0, a[1..], b);
      var mid := Run(lengths, n, step.0, a[1..]);
      var second := Run(lengths, n, mid.0, b);
      assert Emitted(step.1) + (mid.1 + second.1) == (Emitted(step.1) + mid.1) + second.1;
    }
  }

  /**
    Frames of any positive sizes whose times, added to the time already spent,
    sum exactly to the active node's length: none but the last transitions, and
    the last moves exactly one node on and announces it.
   */
  lemma {:induction false} FramesSummingToLength(lengths: seq<real>, n: nat, i: nat, t0: real, dts: seq<real>)
    requires i < n && dts != []
    requires forall k :: 0 <= k < |dts| ==> dts[k] > 0.0
    requires t0 + Sum(dts) == LengthAt(lengths, i)
    ensures Run(lengths, n, RingState(i, t0), dts) == (RingState(Next(i, n), 0.0), [VideoSignal(Next(i, n))])
    decreases |dts|
  {
    var rest := dts[1..];
    if rest == [] {
      assert Sum(rest) == 0.0;
      assert t0 + dts[0] == LengthAt(lengths, i);
      var step := Step(lengths, n, RingState(i, t0), dts[0]);
      assert step == (RingState(Next(i, n), 0.0), Some(VideoSignal(Next(i, n))));
      assert Run(lengths, n, step.0, rest) == (step.0, []);
      assert Emitted(step.1) + [] == [VideoSignal(Next(i, n))];
    } else {
      SumPositive(rest);
      assert t0 + dts[0] < LengthAt(lengths, i);
      assert Step(lengths, n, RingState(i, t0), dts[0]) == (RingState(i, t0 + dts[0]), None);
      assert (t0 + dts[0]) + Sum(rest) == LengthAt(lengths, i);
      FramesSummingToLength(lengths, n, i, t0 + dts[0], rest);
      var after := Run(lengths, n, RingState(i, t0 + dts[0]), rest);
      assert Emitted(None) + after.1 == after.1;
    }
  }

  /**
    Blocks of frames, one block per node starting at node `i`: each block is
    non-empty, every frame is positive, and each block sums to its node's length.
   */
  ghost predicate BlocksFit(lengths: seq<real>, n: nat, i: nat, blocks: seq<seq<real>>)
    requires i < n
    decreases |blocks|
  {
    blocks == []
    || (blocks[0] != []
        && (forall k :: 0 <= k < |blocks[0]| ==> blocks[0][k] > 0.0)
        && Sum(blocks[0]) == LengthAt(lengths, i)
        && BlocksFit(lengths, n, Next(i, n), blocks[1..]))
  }

  /** The frames of all blocks, in order. */
  function Flatten(blocks: seq<seq<real>>): seq<real>
    decreases |blocks|
  {
    if blocks == [] then [] else blocks[0] + Flatten(blocks[1..])
  }

  /**
    With variable frame times whose sums match each node's length in turn,
    the scheduler transitions exactly once per node boundary, never skips a
    node, and announces every node on the way in ring order.
   */
  lemma {:induction false} VariableFramesVisitInOrder(lengths: seq<real>, n: nat, i: nat, blocks: seq<seq<real>>)
    requires i < n && BlocksFit(lengths, n, i, blocks)
    ensures Run(lengths, n, RingState(i, 0.0), Flatten(blocks))
            == (RingState(Advance(i, n, |blocks|), 0.0), Visits(n, i, |blocks|))
    decreases |blocks|
  {
    if blocks != [] {
      var next := Next(i, n);
      RunAppend(lengths, n, RingState(i, 0.0), blocks[0], Flatten(blocks[1..]));
      FramesSummingToLength(lengths, n, i, 0.0, blocks[0]);
      VariableFramesVisitInOrder(lengths, n, next, blocks[1..]);
    }
  }

  /** The script's configuration and its two module-level variables. */
  class Player {
    const nodeNames: seq<string>
    const lengthsSec: seq<real>
    const initialBufferSec: real
    var idx: int
    var t: real

    ghost predicate Valid()
      reads this
    {
      |nodeNames| >= 1 && 0 <= idx < |nodeNames|
    }

    function State(): RingState
      reads this
    {
      RingState(idx, t)
    }

    /** Loads the script with its configuration; both variables start at 0. */
    constructor (names: seq<string>, lengths: seq<real>, buffer: real)
      requires |names| >= 1
      ensures Valid()
      ensures nodeNames == names && lengthsSec == lengths && initialBufferSec == buffer
      ensures State() == RingState(0, 0.0)
    {
      nodeNames, lengthsSec, initialBufferSec := names, lengths, buffer;
      idx, t := 0, 0.0;
    }

    /** The configuration the script ships with: four 15-second clips, 10 seconds of pre-roll. */
    constructor Shipped()
      ensures Valid()
      ensures nodeNames == ["VP1", "VP2", "VP3", "VP4"]
      ensures lengthsSec == [15.0, 15.0, 15.0, 15.0] && initialBufferSec == 10.0
      ensures State() == RingState(0, 0.0)
    {
      nodeNames := ["VP1", "VP2", "VP3", "VP4"];
      lengthsSec := [15.0, 15.0, 15.0, 15.0];
      initialBufferSec := 10.0;
      idx, t := 0, 0.0;
    }

    /** The start callback: select node 0 with the pre-roll pending and announce it. */
    method OnStart() returns (sig: Signal)
      requires |nodeNames| >= 1
      modifies this
      ensures Valid()
      ensures State() == StartState(initialBufferSec)
      ensures sig == VideoSignal(0) && sig.key == "Video_1"
    {
      idx := 0;
      t := -initialBufferSec;
      sig := VideoSignal(idx);
      FirstKeys();
    }

    /** The per-frame callback: exactly the transition rule `Step`. */
    method OnUpdate(dt: real) returns (sig: Option<Signal>)
      requires Valid()
      modifies this
      ensures Valid()
      ensures (State(), sig) == Step(lengthsSec, |nodeNames|, old(State()), dt)
    {
      t := t + dt;
      var len := if 0 <= idx < |lengthsSec| then lengthsSec[idx] else 0.0;
      if t >= len {
        t := 0.0;
        idx := (idx + 1) % |nodeNames|;
        sig := Some(VideoSignal(idx));
      } else {
        sig := None;
      }
    }
  }

  /**
    The shipped configuration: starting puts the time at -10, a first frame of
    10 seconds only consumes the pre-roll (0 < 15, no signal), then four frames
    of 15 seconds announce nodes 2, 3, 4 and wrap back to node 1.
   */
  lemma ShippedScenario()
    ensures var lengths := [15.0, 15.0, 15.0, 15.0];
            var s0 := StartState(10.0);
            var s1 := Step(lengths, 4, s0, 10.0);
            s1 == (RingState(0, 0.0), None)
            && Run(lengths, 4, s1.0, [15.0, 15.0, 15.0, 15.0])
               == (RingState(0, 0.0), [VideoSignal(1), VideoSignal(2), VideoSignal(3), VideoSignal(0)])
  {
    var lengths := [15.0, 15.0, 15.0, 15.0];
    assert Boundaries(lengths, 4, 0, 4) == [15.0, 15.0, 15.0, 15.0];
    assert Visits(4, 0, 4) == [VideoSignal(1), VideoSignal(2), VideoSignal(3), VideoSignal(0)];
    assert Advance(0, 4, 4) == 0;
    ExactDurationsVisitInOrder(lengths, 4, 0, 4);
  }

  /** A frame one step short of the boundary does not transition; a frame reaching it does. */
  lemma BoundaryIsInclusive(lengths: seq<real>, n: nat, s: RingState)
    requires n >= 1 && 0 <= s.idx < n
    ensures var remaining := LengthAt(lengths, s.idx) - s.t;
            Step(lengths, n, s, remaining).1.Some?
            && Step(lengths, n, s, remaining - 1.0).1.None?
  {
  }
}
