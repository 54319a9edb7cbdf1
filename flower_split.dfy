/** The flower-pattern log splitter of split_logs_behaviours.py: find the
    loop transitions of a discovered Petri net, the places right after them,
    keep those places with a large labelled fan-out ("flower" places), collect
    the labels one arc away from them, and split the event log into the traces
    that touch one of those labels (coordinated) and the rest (uncoordinated). */
module FlowerSplit {
  import opened Wrappers
  import opened Sequences
  import opened EventLogs

  /** The marker that the discovery algorithm puts in the name of the
      transition that enters a loop; matched anywhere in the name. */
  const LoopMarker: string := "init_loop_"

  /** The least number of labelled outgoing arcs that makes a place a flower. */
  const FlowerThreshold: nat := 20

  /** A transition; `activityLabel` is `None` (Python `label`) for a silent transition. */
  datatype Transition = Transition(name: string, activityLabel: Option<string>)

  datatype Place = Place(name: string)

  /** An arc of the net. The net is bipartite, so an arc either leaves a place
      for a transition or leaves a transition for a place. */
  datatype Arc =
    | PlaceToTransition(place: Place, transition: Transition)
    | TransitionToPlace(transition: Transition, place: Place)

  datatype PetriNet = PetriNet(places: seq<Place>, transitions: seq<Transition>, arcs: seq<Arc>)

  // ---------------------------------------------------------------------
  // Substring test (Python's `sub in s` on strings)
  // ---------------------------------------------------------------------

  /** `sub` occurs in `s` starting at position `i`. */
  ghost predicate OccursAt(s: string, sub: string, i: int)
  {
    0 <= i && i + |sub| <= |s| && s[i..i + |sub|] == sub
  }

  /** Python's `sub in s`: `sub` occurs somewhere in `s`. */
  function ContainsSubstring(s: string, sub: string): (b: bool)
    ensures b <==> exists i :: OccursAt(s, sub, i)
    decreases |s|
  {
    if sub <= s then
      assert OccursAt(s, sub, 0);
      true
    else if |s| == 0 then
      false
    else
      var rest := ContainsSubstring(s[1..], sub);
      assert forall i :: OccursAt(s[1..], sub, i) ==> OccursAt(s, sub, i + 1);
      assert forall i :: OccursAt(s, sub, i) && i > 0 ==> OccursAt(s[1..], sub, i - 1);
      rest
  }

  // ---------------------------------------------------------------------
  // From `loop_t` to `flower_users`: the net's flower labels
  // ---------------------------------------------------------------------

  predicate IsLoopTransition(t: Transition)
  {
    ContainsSubstring(t.name, LoopMarker)
  }

  /** `loop_t`: the transitions whose name contains the loop marker. */
  function LoopTransitions(net: PetriNet): (r: seq<Transition>)
    ensures forall t :: t in r <==> t in net.transitions && IsLoopTransition(t)
  {
    forall t | t in net.transitions && IsLoopTransition(t)
      ensures t in Filter(net.transitions, IsLoopTransition)
    {
      var i :| 0 <= i < |net.transitions| && net.transitions[i] == t;
    }
    Filter(net.transitions, IsLoopTransition)
  }

  /** `loop_place`: the targets of the arcs that leave one of `loopT`, in arc
      order, with repetitions. */
  function LoopPlaces(arcs: seq<Arc>, loopT: seq<Transition>): (r: seq<Place>)
    ensures forall p :: p in r <==>
      exists a :: a in arcs && a.TransitionToPlace? && a.transition in loopT && a.place == p
    decreases |arcs|
  {
    if arcs == [] then []
    else
      var a := arcs[|arcs| - 1];
      LoopPlaces(arcs[..|arcs| - 1], loopT)
        + (if a.TransitionToPlace? && a.transition in loopT then [a.place] else [])
  }

  /** The arc leaves place `p` for a labelled (non-silent) transition. */
  predicate IsLabelledArcFrom(a: Arc, p: Place)
  {
    a.PlaceToTransition? && a.place == p && a.transition.activityLabel.Some?
  }

  function LabelledArcFrom(p: Place): Arc -> bool
  {
    (a: Arc) => IsLabelledArcFrom(a, p)
  }

  /** The number of arcs that leave `p` for a labelled transition. */
  function LabelledOutDegree(arcs: seq<Arc>, p: Place): (n: nat)
    ensures n == |Filter(arcs, LabelledArcFrom(p))|
    decreases |arcs|
  {
    if arcs == [] then 0
    else LabelledOutDegree(arcs[..|arcs| - 1], p) + (if IsLabelledArcFrom(arcs[|arcs| - 1], p) then 1 else 0)
  }

  function ReachesThreshold(arcs: seq<Arc>): Place -> bool
  {
    p => LabelledOutDegree(arcs, p) >= FlowerThreshold
  }

  /** `flower_places`: the candidates, in order, whose labelled out-degree
      reaches the threshold. */
  function FlowerPlaces(arcs: seq<Arc>, candidates: seq<Place>): seq<Place>
  {
    Filter(candidates, ReachesThreshold(arcs))
  }

  /** `flower_users`: the labels of the labelled transitions one arc after a
      flower place, in arc order, with repetitions. */
  function FlowerUsers(arcs: seq<Arc>, flowerPlaces: seq<Place>): (r: seq<string>)
    ensures forall l :: l in r <==>
      exists a :: a in arcs && a.PlaceToTransition? && a.place in flowerPlaces && a.transition.activityLabel == Some(l)
    decreases |arcs|
  {
    if arcs == [] then []
    else
      var a := arcs[|arcs| - 1];
      FlowerUsers(arcs[..|arcs| - 1], flowerPlaces)
        + (if a.PlaceToTransition? && a.place in flowerPlaces && a.transition.activityLabel.Some?
           then [a.transition.activityLabel.value] else [])
  }

  /** The imperative count of lines 38-41: the labelled out-degree of `p`. */
  method CountLabelledOutArcs(arcs: seq<Arc>, p: Place) returns (count: nat)
    ensures count == LabelledOutDegree(arcs, p)
    ensures count <= |arcs|
  {
    count := 0;
    for k := 0 to |arcs|
      invariant count == LabelledOutDegree(arcs[..k], p)
    {
      assert arcs[..k + 1][..k] == arcs[..k];
      var arc := arcs[k];
      if arc.PlaceToTransition? && arc.place == p && arc.transition.activityLabel.Some? {
        count := count + 1;
      }
    }
    assert arcs[..|arcs|] == arcs;
  }

  /** The loop of lines 35-43: keep, in order, every candidate place with at
      least `FlowerThreshold` labelled outgoing arcs. */
  method SelectFlowerPlaces(arcs: seq<Arc>, loopPlace: seq<Place>) returns (flowerPlaces: seq<Place>)
    ensures flowerPlaces == FlowerPlaces(arcs, loopPlace)
    ensures forall p :: p in flowerPlaces <==> p in loopPlace && LabelledOutDegree(arcs, p) >= FlowerThreshold
  {
    flowerPlaces := [];
    for j := 0 to |loopPlace|
      invariant flowerPlaces == FlowerPlaces(arcs, loopPlace[..j])
    {
      assert loopPlace[..j + 1][..j] == loopPlace[..j];
      var p := loopPlace[j];
      var count := CountLabelledOutArcs(arcs, p);
      if count >= FlowerThreshold {
        flowerPlaces := flowerPlaces + [p];
      }
    }
    assert loopPlace[..|loopPlace|] == loopPlace;
  }

  // ---------------------------------------------------------------------
  // Reference definition of the flower labels
  // ---------------------------------------------------------------------

  /** `p` is entered by an arc from a loop transition of the net. */
  ghost predicate IsCandidatePlace(net: PetriNet, p: Place)
  {
    exists a :: a in net.arcs && a.TransitionToPlace? && a.place == p &&
      a.transition in net.transitions && IsLoopTransition(a.transition)
  }

  /** A flower place: right after a loop transition, with a labelled fan-out
      of at least `FlowerThreshold`. */
  ghost predicate IsFlowerPlace(net: PetriNet, p: Place)
  {
    IsCandidatePlace(net, p) && LabelledOutDegree(net.arcs, p) >= FlowerThreshold
  }

  /** The flower activity set: every label one arc after a flower place. */
  ghost function FlowerLabels(net: PetriNet): set<string>
  {
    set a | a in net.arcs && a.PlaceToTransition? && IsFlowerPlace(net, a.place) && a.transition.activityLabel.Some?
      :: a.transition.activityLabel.value
  }

  /** The set of elements of a sequence. */
  function Elements<T>(s: seq<T>): set<T>
  {
    set x | x in s
  }

  /** `loop_t`, `loop_place`, `flower_places` and `flower_users` compute
      exactly the flower activity set: duplicates in the
      intermediate lists aside, `flower_users` holds a label iff some labelled
      transition one arc after a flower place carries it. */
  lemma FlowerUsersAreFlowerLabels(net: PetriNet)
    ensures Elements(FlowerUsers(net.arcs, FlowerPlaces(net.arcs, LoopPlaces(net.arcs, LoopTransitions(net)))))
         == FlowerLabels(net)
  {
    var loopT := LoopTransitions(net);
    var loopPlace := LoopPlaces(net.arcs, loopT);
    var flower := FlowerPlaces(net.arcs, loopPlace);
    forall p
      ensures p in flower <==> IsFlowerPlace(net, p)
    {
      FlowerPlaceMembership(net.arcs, loopPlace, p);
    }
  }

  lemma {:induction false} FlowerPlaceMembership(arcs: seq<Arc>, candidates: seq<Place>, p: Place)
    ensures p in FlowerPlaces(arcs, candidates) <==>
      p in candidates && LabelledOutDegree(arcs, p) >= FlowerThreshold
  {
    var r := FlowerPlaces(arcs, candidates);
    if p in r {
      var i :| 0 <= i < |r| && r[i] == p;
    }
    if p in candidates && LabelledOutDegree(arcs, p) >= FlowerThreshold {
      var i :| 0 <= i < |candidates| && candidates[i] == p;
      assert ReachesThreshold(arcs)(candidates[i]);
    }
  }

  // ---------------------------------------------------------------------
  // The partition loop
  // ---------------------------------------------------------------------

  /** Some event of the trace has an activity in `labels`. */
  predicate Touches(trace: Trace, labels: set<string>)
  {
    exists i :: 0 <= i < |trace.events| && trace.events[i].activity in labels
  }

  function Coordinated(labels: set<string>): Trace -> bool
  {
    (t: Trace) => Touches(t, labels)
  }

  function Uncoordinated(labels: set<string>): Trace -> bool
  {
    (t: Trace) => !Touches(t, labels)
  }

  /** `any(event['concept:name'] in flower_users for event in trace)`,
      stopping at the first match. */
  function AnyEventIn(events: seq<Event>, users: seq<string>): (b: bool)
    ensures b <==> exists i :: 0 <= i < |events| && events[i].activity in users
    decreases |events|
  {
    if events == [] then false
    else if events[0].activity in users then true
    else
      var rest := AnyEventIn(events[1..], users);
      assert forall i :: 0 < i < |events| ==> events[i] == events[1..][i - 1];
      rest
  }

  /** The loop of lines 50-54. The two output logs are the traces that touch
      a flower label and those that do not, each in input order; together
      they are an interleaving of the input log. Only which labels occur in
      `users` matters, not their order or repetitions. */
  method PartitionLog(log: EventLog, users: seq<string>) returns (cLog: EventLog, uLog: EventLog)
    ensures cLog == Filter(log, Coordinated(Elements(users)))
    ensures uLog == Filter(log, Uncoordinated(Elements(users)))
    ensures Interleaves(log, cLog, uLog)
    ensures |cLog| + |uLog| == |log|
    ensures forall t :: t in log && t.events == [] ==> t !in cLog
  {
    var labels := Elements(users);
    cLog, uLog := [], [];
    for i := 0 to |log|
      invariant cLog == Filter(log[..i], Coordinated(labels))
      invariant uLog == Filter(log[..i], Uncoordinated(labels))
    {
      assert log[..i + 1][..i] == log[..i];
      var trace := log[i];
      if AnyEventIn(trace.events, users) {
        cLog := cLog + [trace];
      } else {
        uLog := uLog + [trace];
      }
    }
    assert log[..|log|] == log;
    FilterPartition(log, Coordinated(labels), Uncoordinated(labels));
    InterleavesCounts(log, cLog, uLog);
  }

  /** `log_split`: the whole procedure. The coordinated log holds, in order,
      exactly the traces with an event whose activity is in the flower
      activity set; the uncoordinated log holds the others, in order. */
  method LogSplit(log: EventLog, net: PetriNet) returns (cLog: EventLog, uLog: EventLog)
    ensures cLog == Filter(log, Coordinated(FlowerLabels(net)))
    ensures uLog == Filter(log, Uncoordinated(FlowerLabels(net)))
    ensures Interleaves(log, cLog, uLog)
    ensures |cLog| + |uLog| == |log|
  {
    var loopT := LoopTransitions(net);
    var loopPlace := LoopPlaces(net.arcs, loopT);
    var flowerPlaces := SelectFlowerPlaces(net.arcs, loopPlace);
    var flowerUsers := FlowerUsers(net.arcs, flowerPlaces);
    FlowerUsersAreFlowerLabels(net);
    cLog, uLog := PartitionLog(log, flowerUsers);
  }

  // ---------------------------------------------------------------------
  // Properties
  // ---------------------------------------------------------------------

  /** With an empty flower activity set every trace is uncoordinated. */
  lemma {:induction false} NoFlowerLabelsNoCoordination(log: EventLog)
    ensures Filter(log, Coordinated({})) == []
    ensures Filter(log, Uncoordinated({})) == log
    decreases |log|
  {
    if log != [] {
      NoFlowerLabelsNoCoordination(log[..|log| - 1]);
      assert log == log[..|log| - 1] + [log[|log| - 1]];
    }
  }

  /** Without a loop transition, or without a candidate place that reaches the
      threshold, the coordinated log is empty and the uncoordinated log is the
      input log. */
  lemma {:induction false} NoFlowerNoSplit(net: PetriNet, log: EventLog)
    requires (forall t :: t in net.transitions ==> !IsLoopTransition(t))
          || (forall p :: IsCandidatePlace(net, p) ==> LabelledOutDegree(net.arcs, p) < FlowerThreshold)
    ensures FlowerLabels(net) == {}
    ensures Filter(log, Coordinated(FlowerLabels(net))) == []
    ensures Filter(log, Uncoordinated(FlowerLabels(net))) == log
  {
    NoFlowerLabelsNoCoordination(log);
  }

  /** The threshold boundary: a candidate place with 19 labelled outgoing arcs
      is not a flower place, and no computed flower place; with 20 it is both. */
  lemma ThresholdBoundary(net: PetriNet, p: Place)
    requires IsCandidatePlace(net, p)
    ensures LabelledOutDegree(net.arcs, p) == FlowerThreshold - 1 ==>
      !IsFlowerPlace(net, p) && p !in FlowerPlaces(net.arcs, LoopPlaces(net.arcs, LoopTransitions(net)))
    ensures LabelledOutDegree(net.arcs, p) == FlowerThreshold ==>
      IsFlowerPlace(net, p) && p in FlowerPlaces(net.arcs, LoopPlaces(net.arcs, LoopTransitions(net)))
  {
    var loopT := LoopTransitions(net);
    assert p in LoopPlaces(net.arcs, loopT);
  }

  /** A silent transition never contributes a label; a transition labelled
      with the empty string after a flower place does. */
  lemma {:induction false} SilentAndEmptyLabels(net: PetriNet, p: Place, name: string)
    requires IsFlowerPlace(net, p)
    requires PlaceToTransition(p, Transition(name, Some(""))) in net.arcs
    ensures "" in FlowerLabels(net)
    ensures forall l :: l in FlowerLabels(net) ==>
      exists a :: a in net.arcs && a.PlaceToTransition? && a.transition.activityLabel == Some(l)
  {
    var a := PlaceToTransition(p, Transition(name, Some("")));
    assert a.transition.activityLabel.value == "";
  }
}
