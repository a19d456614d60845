/**
 * The context menu of a node row: which entries exist for the row's state
 * label, which transitions a chosen entry requests and in what order, and how
 * the reply to each transition request is reported.
 */
module NodeMenu {

  import opened Lifecycle

  /** The menu entries, named after the actions the panel creates
      ("unspawn" is deactivate-and-cleanup, "spawn" is configure-and-activate). */
  datatype Item =
    | DeactivateItem | UnspawnItem | ShutdownItem
    | ActivateItem | CleanupItem
    | ConfigureItem | SpawnItem

  /** The text an entry shows. */
  function ItemText(a: Item): string
  {
    match a
    case DeactivateItem => "Deactivate"
    case UnspawnItem => "Deactivate and cleanup"
    case ShutdownItem => "Shutdown"
    case ActivateItem => "Activate"
    case CleanupItem => "Cleanup"
    case ConfigureItem => "Configure"
    case SpawnItem => "Configure and Activate"
  }

  /** A menu entry: its icon, keyed by the label of a primary state, and the item. */
  datatype MenuEntry = MenuEntry(icon: PrimaryState, item: Item)

  function Texts(menu: seq<MenuEntry>): (r: seq<string>)
    ensures |r| == |menu|
  {
    seq(|menu|, i requires 0 <= i < |menu| => ItemText(menu[i].item))
  }

  function Items(menu: seq<MenuEntry>): (r: set<Item>)
    ensures forall a :: a in r <==> exists i :: 0 <= i < |menu| && menu[i].item == a
  {
    set i | 0 <= i < |menu| :: menu[i].item
  }

  /** The entries offered for a row whose state label is `state`. Only the
      three non-terminal primary states get a menu; "finalized" and every
      other label get none. */
  function MenuFor(state: string): (menu: seq<MenuEntry>)
    ensures state == "active" ==> Texts(menu) == ["Deactivate", "Deactivate and cleanup", "Shutdown"]
    ensures state == "inactive" ==> Texts(menu) == ["Activate", "Cleanup", "Shutdown"]
    ensures state == "unconfigured" ==> Texts(menu) == ["Configure", "Configure and Activate", "Shutdown"]
    ensures menu == [] <==> ParseState(state).None? || ParseState(state) == Some(Finalized)
  {
    if state == "active" then
      [MenuEntry(Inactive, DeactivateItem), MenuEntry(Unconfigured, UnspawnItem), MenuEntry(Finalized, ShutdownItem)]
    else if state == "inactive" then
      [MenuEntry(Active, ActivateItem), MenuEntry(Unconfigured, CleanupItem), MenuEntry(Finalized, ShutdownItem)]
    else if state == "unconfigured" then
      [MenuEntry(Inactive, ConfigureItem), MenuEntry(Active, SpawnItem), MenuEntry(Finalized, ShutdownItem)]
    else
      []
  }

  /** The transitions requested, in order, when `chosen` is picked from the
      menu of a row labelled `state` (None: the menu was dismissed). Each
      branch first tests the label, then which of that label's entries was
      picked; anything else falls through without a request. */
  function TransitionsFor(state: string, chosen: Option<Item>): (ts: seq<Transition>)
    ensures chosen.None? ==> ts == []
    ensures |ts| <= 2
    ensures ts != [] ==> ParseState(state).Some? && Run(ParseState(state).value, ts).Some?
  {
    if state == "active" then
      if chosen == Some(DeactivateItem) then [Deactivate]
      else if chosen == Some(ShutdownItem) then [Shutdown]
      else if chosen == Some(UnspawnItem) then [Deactivate, Cleanup]
      else []
    else if state == "inactive" then
      if chosen == Some(ActivateItem) then [Activate]
      else if chosen == Some(CleanupItem) then [Cleanup]
      else if chosen == Some(ShutdownItem) then [Shutdown]
      else []
    else if state == "unconfigured" then
      if chosen == Some(ConfigureItem) then [Configure]
      else if chosen == Some(ShutdownItem) then [Shutdown]
      else if chosen == Some(SpawnItem) then [Configure, Activate]
      else []
    else
      []
  }

  /** What each entry stands for, independently of the row it was opened on. */
  function ItemSequence(a: Item): seq<Transition>
  {
    match a
    case DeactivateItem => [Deactivate]
    case UnspawnItem => [Deactivate, Cleanup]
    case ShutdownItem => [Shutdown]
    case ActivateItem => [Activate]
    case CleanupItem => [Cleanup]
    case ConfigureItem => [Configure]
    case SpawnItem => [Configure, Activate]
  }

  /** A picked entry requests exactly its own fixed sequence; an entry the
      menu did not offer, or a dismissed menu, requests nothing. */
  lemma ChosenItemSequence(state: string, chosen: Option<Item>)
    ensures chosen.Some? && chosen.value in Items(MenuFor(state)) ==>
              TransitionsFor(state, chosen) == ItemSequence(chosen.value)
    ensures !(chosen.Some? && chosen.value in Items(MenuFor(state))) ==>
              TransitionsFor(state, chosen) == []
  {
    var menu := MenuFor(state);
    if chosen.Some? && chosen.value !in Items(menu) {
      if state == "active" {
        assert menu[0].item == DeactivateItem && menu[1].item == UnspawnItem && menu[2].item == ShutdownItem;
      } else if state == "inactive" {
        assert menu[0].item == ActivateItem && menu[1].item == CleanupItem && menu[2].item == ShutdownItem;
      } else if state == "unconfigured" {
        assert menu[0].item == ConfigureItem && menu[1].item == SpawnItem && menu[2].item == ShutdownItem;
      }
    }
  }

  /** Only the three non-terminal labels ever lead to a transition request;
      a row without a menu is not in a primary state, or is in the terminal
      one, from which the state machine allows no transition at all. */
  lemma NoMenuNoRequest(state: string, chosen: Option<Item>)
    requires MenuFor(state) == []
    ensures TransitionsFor(state, chosen) == []
    ensures ParseState(state).Some? ==> forall ts :: ts != [] ==> Run(ParseState(state).value, ts).None?
  {
    ChosenItemSequence(state, chosen);
    if ParseState(state).Some? {
      forall ts: seq<Transition> | ts != []
        ensures Run(ParseState(state).value, ts).None?
      {
        FinalizedIsTerminal(ts);
      }
    }
  }

  /** Every entry's icon names the state its transitions lead to in the
      managed-node state machine, starting from the row's state. */
  lemma IconIsTarget(state: string, e: MenuEntry)
    requires e in MenuFor(state)
    ensures ParseState(state).Some?
    ensures Run(ParseState(state).value, TransitionsFor(state, Some(e.item))) == Some(e.icon)
  {
    var menu := MenuFor(state);
    var k :| 0 <= k < |menu| && menu[k] == e;
    var s := ParseState(state).value;
    var ts := TransitionsFor(state, Some(e.item));
    assert 1 <= |ts| <= 2;
    if |ts| == 1 {
      assert Run(s, ts) == Step(s, ts[0]);
    } else {
      assert Run(s, ts) == Run(Step(s, ts[0]).value, [ts[1]]);
      assert Run(Step(s, ts[0]).value, [ts[1]]) == Step(Step(s, ts[0]).value, ts[1]);
    }
  }

  /** Every transition the state machine offers from a primary state is
      available as a single-step entry of that state's menu. */
  lemma MenuCoversMachine(s: PrimaryState, t: Transition)
    requires Step(s, t).Some?
    ensures exists e :: e in MenuFor(StateLabel(s)) && TransitionsFor(StateLabel(s), Some(e.item)) == [t]
  {
    var menu := MenuFor(StateLabel(s));
    var k := if t == Shutdown then 2 else if t == Cleanup then 1 else 0;
    assert TransitionsFor(StateLabel(s), Some(menu[k].item)) == [t];
  }

  /** One call of the transition service: node name and transition label. */
  datatype Call = Call(node: string, transition: string)

  function Calls(node: string, ts: seq<Transition>): (calls: seq<Call>)
    ensures |calls| == |ts|
    ensures forall i :: 0 <= i < |ts| ==> calls[i] == Call(node, TransitionLabel(ts[i]))
  {
    seq(|ts|, i requires 0 <= i < |ts| => Call(node, TransitionLabel(ts[i])))
  }

  /** The transition calls made when the menu is opened on `row` of the
      state list and `chosen` is picked. A negative row is a click outside
      the table (no menu); a row is otherwise one the table shows. */
  function OnNodeMenu(nodes: seq<NodeState>, row: int, chosen: Option<Item>): (calls: seq<Call>)
    requires row < |nodes|
    ensures row < 0 ==> calls == []
    ensures forall c :: c in calls ==> 0 <= row && c.node == nodes[row].name
    ensures calls != [] ==> chosen.Some? && chosen.value in Items(MenuFor(nodes[row].state))
    ensures 0 <= row && chosen.Some? && chosen.value in Items(MenuFor(nodes[row].state)) ==>
              calls == Calls(nodes[row].name, ItemSequence(chosen.value))
    ensures |calls| <= 2
  {
    if row < 0 then []
    else
      var node := nodes[row];
      ChosenItemSequence(node.state, chosen);
      Calls(node.name, TransitionsFor(node.state, chosen))
  }

  /** The transition service's answer: an exception, or a truth value. */
  datatype ChangeReply = ChangeRaised(message: string) | ChangeReturned(success: bool)

  /** Which of the three reports is logged for a reply. */
  datatype Outcome = ExceptionLogged | SuccessLogged | FailureLogged

  function Classify(reply: ChangeReply): (o: Outcome)
    ensures o == ExceptionLogged <==> reply.ChangeRaised?
    ensures o == SuccessLogged <==> reply == ChangeReturned(true)
    ensures o == FailureLogged <==> reply == ChangeReturned(false)
  {
    match reply
    case ChangeRaised(_) => ExceptionLogged
    case ChangeReturned(ok) => if ok then SuccessLogged else FailureLogged
  }

  datatype Attempt = Attempt(call: Call, outcome: Outcome)

  /** Issues the calls one after the other, the i-th answered by `replies[i]`,
      and logs each outcome. Nothing is returned to the menu and no outcome
      stops a later call. */
  function Perform(calls: seq<Call>, replies: seq<ChangeReply>): (log: seq<Attempt>)
    requires |replies| == |calls|
    ensures |log| == |calls|
    ensures forall i :: 0 <= i < |calls| ==> log[i] == Attempt(calls[i], Classify(replies[i]))
    decreases |calls|
  {
    if calls == [] then []
    else [Attempt(calls[0], Classify(replies[0]))] + Perform(calls[1..], replies[1..])
  }

  /** The two combined entries always issue their second transition, even when
      the first one raised or reported failure. */
  lemma {:induction false} CombinedEntryNeverAborts(nodes: seq<NodeState>, row: nat, chosen: Item, replies: seq<ChangeReply>)
    requires row < |nodes|
    requires chosen in Items(MenuFor(nodes[row].state))
    requires chosen == UnspawnItem || chosen == SpawnItem
    requires |replies| == 2
    ensures var log := Perform(OnNodeMenu(nodes, row, Some(chosen)), replies);
            |log| == 2 &&
            log[0].call == Call(nodes[row].name, if chosen == UnspawnItem then "deactivate" else "configure") &&
            log[1].call == Call(nodes[row].name, if chosen == UnspawnItem then "cleanup" else "activate")
  {
    ChosenItemSequence(nodes[row].state, Some(chosen));
  }
}
