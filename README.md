# Video ring: scheduler and wiring, modelled in Dafny

The repository plays N video clips one after another in a loop, in a Cluster world built with Unity. Two pieces of logic do the work.

* **The runtime script** (`Assets/ClusterScripts/VideoSequencePlayer.js`) is a per-frame state machine over `idx`, the active node, and `t`, the time spent in it. On start it selects node 0, sets `t` to minus the pre-roll, and sends the signal `Video_1`. On each frame it adds `dt` to `t`. Once `t` reaches the active node's length (a missing length counts as 0), it resets `t` to 0 and moves `idx` exactly one place round the ring, with no catch-up. It then sends `Video_{idx+1}` on the `global` channel.
* **The editor tool** (`Assets/Editor/ClusterVideoAutoSetup.cs`) builds five nodes `VideoPlayer1..5`. Only the first starts active and plays on awake. Each node gets three things:
  * an item timer started by `StartTimer`, which waits `videoDuration` and then fires two signal triggers in order: `HideVideo{i+1}`, then `ShowVideo{next+1}` with `next = (i+1) % 5`;
  * a hide gimmick on the node itself;
  * a show gimmick on a child object `ShowGimmick`, reused if the child already exists.

The model has six modules.

| file | module | contents |
|---|---|---|
| `keys.dfy` | `Keys` | decimal rendering of indices and the keys built from them, with injectivity |
| `ring.dfy` | `Ring` | successor and predecessor round a ring of `n` nodes |
| `scheduler.dfy` | `VideoSequencePlayer` | the transition rule as functions (`Step`, `Run`) and the script as a class `Player` whose callbacks are proved to follow it |
| `wiring.dfy` | `Wiring` | the tool's derived values as typed records, `Compile(n, duration)`, and the key-graph properties |
| `setup.dfy` | `AutoSetup` | node objects updated in place (`VideoNode`), the reuse-if-present show child, and the create-then-configure loops, proved against `Created`/`Configured`/`Compile` |
| `equivalence.dfy` | `RingEquivalence` | a simulation of the host running the compiled plan, proved to show the same node as the scheduler |

Time is `real`. The script only adds, compares and resets time, so no floating-point behaviour is needed. The serialized property pokes become record fields. Each enum index comes from the tool's own code:

| constant | value | meaning |
|---|---|---|
| `GimmickTarget.Item` | 0 | gimmick key target |
| `TriggerTarget.Item` | 1 | trigger target |
| `ParameterType.Signal` | 0 | trigger type |
| `SetGameObjectActiveTarget.This` | 0 | hide gimmick acts on its own object |
| `SetGameObjectActiveTarget.Parent` | 1 | show gimmick acts on its parent |

The tool hard-codes 5 nodes. The model takes any `n >= 1`, and `FiveNodeRingWraps` instantiates it at 5.

The model keeps the code's behaviour where one might expect more:

* Neither file rejects an empty node list, a non-positive duration or a negative `dt`. There are no error paths for these. The only precondition is a non-empty ring. With no nodes the script does not stop: `x % 0` is NaN in JavaScript, so `idx` becomes NaN, `lengthsSec[NaN] ?? 0` is 0, and it sends `Video_NaN` on every frame with `t >= 0`. That run is not modelled (see "Left out").
* Every timer gets the same `videoDuration`, not a per-node duration.
* Keys are built from the index (`HideVideo{i+1}`, `ShowVideo{i+1}`), not from node names.
* One frame moves at most one node, however much `dt` overshoots. This is kept as written.
* The script's signals are `Video_{i+1}`, a different key scheme from the tool's. The equivalence in `RingEquivalence` is this model's own lemma. Neither file relies on it.

## Model

| member | source | states |
|---|---|---|
| Keys.NatToString | Assets/Editor/ClusterVideoAutoSetup.cs:177 | the interpolated index is a non-empty string of decimal digits with no leading zero |
| Keys.ParseNatToString | Assets/Editor/ClusterVideoAutoSetup.cs:177 | reading the decimal text back gives the number: the rendering has an inverse |
| Keys.NatToStringInjective | Assets/Editor/ClusterVideoAutoSetup.cs:177 | two numbers have the same decimal text iff they are equal |
| Keys.IndexedKeyInjective | Assets/Editor/ClusterVideoAutoSetup.cs:239-243 | two keys with the same prefix are equal iff their indices are |
| Keys.HideKeyInjective | Assets/Editor/ClusterVideoAutoSetup.cs:177 | `HideVideo{i+1}` identifies `i` |
| Keys.ShowKeyInjective | Assets/Editor/ClusterVideoAutoSetup.cs:198 | `ShowVideo{i+1}` identifies `i` |
| Keys.PlayerNameInjective | Assets/Editor/ClusterVideoAutoSetup.cs:95 | distinct nodes get distinct object names `VideoPlayer{i+1}` |
| Keys.HideShowDistinct | Assets/Editor/ClusterVideoAutoSetup.cs:239-243 | no hide key equals any show key |
| Keys.PrefixesDistinct | Assets/Editor/ClusterVideoAutoSetup.cs:172-199 | for any indices, no two of `Video_`, `HideVideo`, `ShowVideo` and `VideoPlayer` keys coincide |
| Keys.FirstKeys | Assets/ClusterScripts/VideoSequencePlayer.js:24 | node 0's keys are `Video_1`, `HideVideo1`, `ShowVideo1`, `VideoPlayer1` |
| Ring.Next | Assets/ClusterScripts/VideoSequencePlayer.js:41 | the successor is `(i + 1) % n`, stays in `[0, n)`, and is 0 after the last node |
| Ring.Prev | Assets/Editor/ClusterVideoAutoSetup.cs:155 | every node has a predecessor in range whose successor it is |
| Ring.NextInjective | Assets/Editor/ClusterVideoAutoSetup.cs:155 | two nodes have the same successor iff they are the same node |
| Ring.AdvanceIsModulo | Assets/ClusterScripts/VideoSequencePlayer.js:41 | `k` successive advances from `i` land on `(i + k) % n` |
| VideoSequencePlayer.VideoSignal | Assets/ClusterScripts/VideoSequencePlayer.js:22-27 | the signal for node `i` goes on `global` with key `Video_` followed by digits that read back as `i + 1` |
| VideoSequencePlayer.MissingLengthTransitions | Assets/ClusterScripts/VideoSequencePlayer.js:31-46 | on a node with no length entry (`?? 0`), any frame that leaves `t >= 0` moves to the next node, resets `t` to 0 and announces it |
| VideoSequencePlayer.Step | Assets/ClusterScripts/VideoSequencePlayer.js:29-47 | `idx` stays in `[0, n)`; a signal is sent iff `t + dt` reaches the length (inclusive); without a signal only `t` advances, by exactly `dt`; with one, `t` is exactly 0, `idx` moves exactly one place, and the signal is `Video_{idx+1}` on `global` for the new node |
| VideoSequencePlayer.Run | Assets/ClusterScripts/VideoSequencePlayer.js:29-47 | over any frames `idx` stays in range, no more signals are sent than there are frames, and each one announces a node of the ring (`Video_{j+1}` on `global` for some `j < n`) |
| VideoSequencePlayer.ExactDurationsVisitInOrder | Assets/ClusterScripts/VideoSequencePlayer.js:38-46 | frames that each last exactly the active node's length transition once per boundary, never skip a node, and announce every node on the way in ring order |
| VideoSequencePlayer.RunAppend | Assets/ClusterScripts/VideoSequencePlayer.js:29-47 | running two batches of frames is running the second from the state the first leaves, with the signals concatenated |
| VideoSequencePlayer.FramesSummingToLength | Assets/ClusterScripts/VideoSequencePlayer.js:29-46 | positive frames that together fill exactly the rest of node `i`'s length make exactly one transition, at the last frame, to the next node, announcing it |
| VideoSequencePlayer.VariableFramesVisitInOrder | Assets/ClusterScripts/VideoSequencePlayer.js:38-46 | blocks of positive frames, each filling exactly its node's length, visit the nodes in ring order, one announcement per block, ending at `t = 0` on the node `|blocks|` places further |
| VideoSequencePlayer.BoundaryIsInclusive | Assets/ClusterScripts/VideoSequencePlayer.js:38 | a frame reaching exactly the remaining time transitions; one a unit shorter does not |
| VideoSequencePlayer.ShippedScenario | Assets/ClusterScripts/VideoSequencePlayer.js:5-46 | with pre-roll 10 and four 15 s clips, a 10 s frame leaves `idx` 0 and `t` 0 with no signal; four 15 s frames then announce nodes 2, 3, 4, 1 and wrap `idx` to 0 |
| VideoSequencePlayer.Player.constructor | Assets/ClusterScripts/VideoSequencePlayer.js:5-10 | the script holds its configuration and starts with `idx = 0`, `t = 0` |
| VideoSequencePlayer.Player.Shipped | Assets/ClusterScripts/VideoSequencePlayer.js:5-10 | the shipped configuration: `VP1..VP4`, four 15 s lengths, 10 s pre-roll |
| VideoSequencePlayer.Player.OnStart | Assets/ClusterScripts/VideoSequencePlayer.js:12-19 | start sets `idx = 0`, `t = -initialBufferSec`, and sends exactly one signal, `Video_1` on `global` |
| VideoSequencePlayer.Player.OnUpdate | Assets/ClusterScripts/VideoSequencePlayer.js:29-48 | a frame changes the state and sends exactly what `Step` prescribes, keeping `idx` in range |
| Wiring.Compile | Assets/Editor/ClusterVideoAutoSetup.cs:53-57 | the plan has one entry per node |
| Wiring.CompiledVisibility | Assets/Editor/ClusterVideoAutoSetup.cs:95-121 | node `i` is named `VideoPlayer{i+1}`; it is active and plays on awake iff `i == 0` |
| Wiring.CompiledTimer | Assets/Editor/ClusterVideoAutoSetup.cs:205-283 | every timer listens on `StartTimer` with target 0 and waits `videoDuration`; its triggers are exactly two (item target 1, signal type 0, empty raw value): `HideVideo{i+1}`, then `ShowVideo{next+1}` |
| Wiring.CompiledGimmicks | Assets/Editor/ClusterVideoAutoSetup.cs:172-199 | the hide gimmick is keyed `HideVideo{i+1}` with `active = false`, target This(0); the show gimmick is keyed `ShowVideo{i+1}` with `active = true`, target Parent(1) |
| Wiring.TriggersNeverStartTimers | Assets/Editor/ClusterVideoAutoSetup.cs:216-243 | no trigger of the plan sends `StartTimer`, the key every timer listens on |
| Wiring.RingCloses | Assets/Editor/ClusterVideoAutoSetup.cs:234-243 | node `i`'s first trigger is its own hide key and its second is node `(i+1) % n`'s show key; the last node's names node 0's |
| Wiring.HideTriggerHasOneReceiver | Assets/Editor/ClusterVideoAutoSetup.cs:237-239 | the hide trigger of node `i` is received by exactly one gimmick, node `i`'s hide gimmick |
| Wiring.ShowTriggerHasOneReceiver | Assets/Editor/ClusterVideoAutoSetup.cs:241-243 | the show trigger of node `i` is received by exactly one gimmick, the show gimmick of node `(i+1) % n` |
| Wiring.HideGimmickHasOneTrigger | Assets/Editor/ClusterVideoAutoSetup.cs:172-178 | node `i`'s hide gimmick is fired by exactly one trigger, node `i`'s first |
| Wiring.ShowGimmickHasOneTrigger | Assets/Editor/ClusterVideoAutoSetup.cs:194-199 | node `i`'s show gimmick is fired by exactly one trigger, the second trigger of the node before it |
| Wiring.NamesAndKeysDistinct | Assets/Editor/ClusterVideoAutoSetup.cs:95 | distinct nodes have distinct names, hide keys and show keys |
| Wiring.FiveNodeRingWraps | Assets/Editor/ClusterVideoAutoSetup.cs:155 | with the tool's five nodes, `VideoPlayer5` hides `HideVideo5` and shows `ShowVideo1` |
| AutoSetup.FindChildFrom | Assets/Editor/ClusterVideoAutoSetup.cs:182 | the lookup returns the first child with the name, or none when no child has it |
| AutoSetup.ConfigureKeepsOneShowChild | Assets/Editor/ClusterVideoAutoSetup.cs:181-194 | configuring creates a `ShowGimmick` child only when none exists, otherwise keeps their number; other children are untouched |
| AutoSetup.ConfigureIdempotent | Assets/Editor/ClusterVideoAutoSetup.cs:153-199 | configuring a node twice leaves it as configuring it once |
| AutoSetup.ConfigureOverwritesComponents | Assets/Editor/ClusterVideoAutoSetup.cs:205-249 | the configured node does not depend on what its timer and hide gimmick held before (the trigger array is cleared first) |
| AutoSetup.CreatedThenConfiguredIsPlanned | Assets/Editor/ClusterVideoAutoSetup.cs:92-199 | a freshly created node, once configured, is exactly its plan entry |
| AutoSetup.VideoNode.constructor | Assets/Editor/ClusterVideoAutoSetup.cs:92-124 | a new node is `VideoPlayer{i+1}` with a screen child, plays on awake iff `i == 0`, and is deactivated unless `i == 0` |
| AutoSetup.VideoNode.SetConstantTriggerParam | Assets/Editor/ClusterVideoAutoSetup.cs:251-283 | one trigger element becomes item-targeted, signal-typed, with the key and an empty value; nothing else changes |
| AutoSetup.VideoNode.ConfigureItemTimer | Assets/Editor/ClusterVideoAutoSetup.cs:205-249 | the timer becomes exactly `TimerFor`: start key, delay and a cleared then two-element trigger array; nothing else changes |
| AutoSetup.VideoNode.ConfigureComponentValues | Assets/Editor/ClusterVideoAutoSetup.cs:153-203 | the node becomes `Configured` of its old state: timer, hide gimmick, and the show gimmick on the first `ShowGimmick` child, created only if absent |
| AutoSetup.CreateVideoPlayers | Assets/Editor/ClusterVideoAutoSetup.cs:52-57 | creates `n` distinct fresh nodes, node `i` as `Created(i)` |
| AutoSetup.ConfigureAll | Assets/Editor/ClusterVideoAutoSetup.cs:69-78 | configures every node with its own index, changing no other node |
| AutoSetup.CreateVideoSystemWithGimmicks | Assets/Editor/ClusterVideoAutoSetup.cs:46-90 | every node ends as the compiled plan's entry for its index |
| RingEquivalence.InitiallyOnlyFirst | Assets/Editor/ClusterVideoAutoSetup.cs:115-121 | the plan starts with node 0 alone visible |
| RingEquivalence.HideKeyHidesAll | Assets/Editor/ClusterVideoAutoSetup.cs:172-178 | with only node `a` visible, delivering `HideVideo{a+1}` hides every node |
| RingEquivalence.ShowKeyShowsOne | Assets/Editor/ClusterVideoAutoSetup.cs:180-199 | with no node visible, delivering `ShowVideo{b+1}` makes node `b` alone visible |
| RingEquivalence.TimerExpiryPassesOn | Assets/Editor/ClusterVideoAutoSetup.cs:237-243 | the visible node's timer, firing hide-self then show-next in that order, leaves exactly the successor visible (for one node, the node itself) |
| RingEquivalence.HostStepPassesOn | Assets/Editor/ClusterVideoAutoSetup.cs:237-243 | one timer period moves the single visible node one place round the ring and lasts the configured `videoDuration` |
| RingEquivalence.HostRunFrom | Assets/Editor/ClusterVideoAutoSetup.cs:234-243 | after `k` periods from node `a`, exactly the node `k` places further is visible, and `k` times `videoDuration` has passed |
| RingEquivalence.HostMatchesScheduler | Assets/ClusterScripts/VideoSequencePlayer.js:38-46 | with every node lasting `duration`, after `k` timer periods the host running the compiled plan shows exactly the scheduler's active node after `k` frames of `duration`, and its timers took exactly the frames' total time |

## Left out

- Editor UI (`Init`, `OnGUI`, the clip fields, the button, `DisplayDialog`): user interface with no sequencing logic.
- Quad and transform creation, scales, the video player's clip/renderer/render-mode/looping settings, `SetDirty`, `Selection`, `PingObject`: engine object creation. The node keeps only its name, `active`, `playOnAwake`, its components and its children (the screen child is kept by name only, so the `ShowGimmick` lookup has something to skip).
- `GetClusterType` and reflection-based `AddComponent(Type)`: foreign assembly scanning. The model assumes the Creator Kit types are found. The branches where a type or component is missing are not modelled.
- `SerializedObject`/`FindProperty`: replaced by typed record fields. The `!= null` guards on missing properties are not modelled.
- The initial values of freshly added components are engine defaults and are represented by blank records. `ConfigureOverwritesComponents` shows the configured result does not depend on them.
- `ConfigureGimmick` writes every modelled field of a gimmick, so it is one record assignment (`GimmickFor`), not field-by-field writes.
- Unity object identity: a node's components and children are values inside the node object. Reusing the existing child is captured as updating the child found by name in place. Aliasing between Unity objects is not captured.
- `EditorApplication.delayCall`: host scheduling. Configuration is a plain call after creation.
- `Debug.Log`, `$.log`, and the 5-second progress log (`Math.floor`, float comparison): output only.
- `$.sendSignal` delivery: host I/O. The signal is the value `OnStart`/`OnUpdate` return.
- Floating-point time: time is `real`, so rounding in `t += dt` is not modelled.
- The trailing comment block of the runtime script: notes on engine workarounds, no code.
- The host simulation in `RingEquivalence` delivers every trigger key to every gimmick listening on it, and runs the timer of the visible node. Cluster's rules for Item-targeted trigger scope, and what sends `StartTimer`, are not modelled.
- RingEquivalence.NodeAfter: a show gimmick sits on a child of its node (Assets/Editor/ClusterVideoAutoSetup.cs:189-190), and the node is created inactive (lines 118-121). In Unity a child of an inactive object is itself inactive. The model still lets that gimmick receive its key and fire. Whether Cluster delivers to gimmicks that are inactive in the hierarchy is host behaviour, not part of either file.
- VideoSequencePlayer.Step: requires a non-empty ring. With no nodes the script sets `idx` to NaN (`x % 0`), reads length 0 (`lengthsSec[NaN] ?? 0`), and sends `Video_NaN` on every frame with `t >= 0`. NaN is not a ring index, so this run is not modelled.
- RingEquivalence.HostMatchesScheduler: stated for uniform node durations only, because the tool gives every timer the same `videoDuration`.
