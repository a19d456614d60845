/**
 * The ROS 2 managed-node lifecycle as the panel sees it: the four primary
 * states a lifecycle node reports, the five transitions an operator can
 * request, the labels the lifecycle services use for both, and the primary
 * state machine of the "Managed nodes" design (design.ros2.org), which the
 * menu's icons refer to.
 */
module Lifecycle {

  datatype Option<T> = None | Some(value: T)

  datatype PrimaryState = Unconfigured | Inactive | Active | Finalized

  datatype Transition = Configure | Activate | Deactivate | Cleanup | Shutdown

  /** A row of the state list: the `NodeState` named tuple (name, state label). */
  datatype NodeState = NodeState(name: string, state: string)

  /** The label a lifecycle node reports for a primary state. */
  function StateLabel(s: PrimaryState): string
  {
    match s
    case Unconfigured => "unconfigured"
    case Inactive => "inactive"
    case Active => "active"
    case Finalized => "finalized"
  }

  /** Reads a reported label back; labels of other states (transition states,
      the empty label) are not primary states. */
  function ParseState(text: string): (r: Option<PrimaryState>)
    ensures r.Some? ==> StateLabel(r.value) == text
    ensures r.None? <==> forall s :: StateLabel(s) != text
  {
    if text == "unconfigured" then Some(Unconfigured)
    else if text == "inactive" then Some(Inactive)
    else if text == "active" then Some(Active)
    else if text == "finalized" then Some(Finalized)
    else None
  }

  /** The label a transition request carries (`Transition(label=...)`). */
  function TransitionLabel(t: Transition): string
  {
    match t
    case Configure => "configure"
    case Activate => "activate"
    case Deactivate => "deactivate"
    case Cleanup => "cleanup"
    case Shutdown => "shutdown"
  }

  /** One step of the primary state machine; None when `t` is not offered in `s`. */
  function Step(s: PrimaryState, t: Transition): (r: Option<PrimaryState>)
    ensures s == Finalized ==> r.None?
    ensures t == Shutdown ==> (r.Some? <==> s != Finalized)
    ensures r.Some? ==> r.value != s
  {
    match (s, t)
    case (Unconfigured, Configure) => Some(Inactive)
    case (Inactive, Activate) => Some(Active)
    case (Inactive, Cleanup) => Some(Unconfigured)
    case (Active, Deactivate) => Some(Inactive)
    case (Unconfigured, Shutdown) => Some(Finalized)
    case (Inactive, Shutdown) => Some(Finalized)
    case (Active, Shutdown) => Some(Finalized)
    case _ => None
  }

  /** The state reached by a sequence of transitions, each taken only if the
      state machine offers it. */
  function Run(s: PrimaryState, ts: seq<Transition>): Option<PrimaryState>
    decreases |ts|
  {
    if ts == [] then Some(s)
    else match Step(s, ts[0])
      case None => None
      case Some(next) => Run(next, ts[1..])
  }

  /** Finalized is terminal: no non-empty sequence of transitions leaves it. */
  lemma {:induction false} FinalizedIsTerminal(ts: seq<Transition>)
    requires ts != []
    ensures Run(Finalized, ts).None?
  {
  }
}
