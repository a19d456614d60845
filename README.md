# rqt_lifecycle_manager: node menu, state list and table, modelled in Dafny

`rqt_lifecycle_manager` is an rqt plugin that shows the ROS 2 lifecycle
("managed") nodes that are running, each with its current primary state
(unconfigured, inactive, active, finalized), and lets an operator request
state transitions from a context menu on a node's row. This project models
the logic of `rqt_lifecycle_manager/lifecycle_manager.py` that is not Qt or
ROS plumbing:

- **The menu decision table** (`NodeMenu`). This covers which entries a row
  offers for its state label, and the ordered transition labels a picked
  entry sends. It also covers how each reply of the transition service is
  reported (exception / success / failure). The menu entries' icons are
  checked against the primary state machine of the ROS 2 "Managed nodes"
  design (`Lifecycle.Step`, `Lifecycle.Run`).
- **The state list rebuild** (`Manager.LifecycleManager.UpdateNodesState`,
  `AppendStates`, `DropFailures`). It queries every stored node name and
  removes exception replies. It then appends the remaining replies in sorted
  key order. `sorted()` on Python strings is modelled in `KeyOrder`.
- **The node list refresh** (`Manager.LifecycleManager.UpdateNodeList`). A
  listing equal to the stored names changes nothing. Any other listing
  replaces the names and rebuilds the state list. A failed listing counts as
  the empty listing.
- **The table model** (`NodeTable`). It has two columns, one row per entry,
  and headers "node" and "state". It defines the cell value for each role:
  the name, the label or "not loaded", the status lamp from the icon table,
  the bold font and the centring.

The model follows the code. The code has none of these:

- an explicit "unknown" state;
- retaining the node set through a listing outage;
- per-node locking or rejecting busy nodes;
- re-validating a request at dispatch time;
- stopping a combined action when its first step fails.

So the model does not assume them either:

- A node whose query raised is dropped from the state list, not marked unknown.
- A listing failure clears the stored names.
- Both steps of "Deactivate and cleanup" and "Configure and Activate" are
  always issued.

Services are inputs:

- The node listing is a `Listing`: the names, or a RuntimeError.
- The per-node state query is a function from a node name to the dict of
  replies. Each reply is a state label or an exception.
- The transition service's answers are a sequence of `ChangeReply` values,
  one per call issued.
- The operator's menu choice is an `Option<Item>`; `None` means the menu was
  dismissed.

## Model

| member | source | states |
|---|---|---|
| `KeyOrder.SortKeys` | rqt_lifecycle_manager/lifecycle_manager.py:128 | `sorted(states.keys())` lists every key exactly once, in strictly increasing Python string order |
| `KeyOrder.SortedKeysUnique` | rqt_lifecycle_manager/lifecycle_manager.py:138 | the key order does not depend on the dict: any strictly increasing listing of exactly the keys is the sorted one |
| `NodeMenu.MenuFor` | rqt_lifecycle_manager/lifecycle_manager.py:171-185 | "active" offers exactly Deactivate / Deactivate and cleanup / Shutdown; "inactive" offers Activate / Cleanup / Shutdown; "unconfigured" offers Configure / Configure and Activate / Shutdown; the menu is empty exactly when the label is "finalized" or not a primary state |
| `NodeMenu.TransitionsFor` | rqt_lifecycle_manager/lifecycle_manager.py:189-214 | a dismissed menu requests nothing; at most two transitions are requested; every requested sequence is one the managed-node state machine allows, in order, from the row's state |
| `NodeMenu.ChosenItemSequence` | rqt_lifecycle_manager/lifecycle_manager.py:187-212 | an offered entry requests its own fixed sequence: one transition for the single entries, [deactivate, cleanup] and [configure, activate] for the combined ones; a dismissed menu or an entry the row did not offer requests nothing |
| `NodeMenu.NoMenuNoRequest` | rqt_lifecycle_manager/lifecycle_manager.py:184-185 | a row with no menu ("finalized" or any other label) never leads to a transition request, whatever is chosen; such a row is not in a primary state, or is finalized, from which the state machine allows no transition |
| `NodeMenu.IconIsTarget` | rqt_lifecycle_manager/lifecycle_manager.py:172-183 | each entry's icon key is the primary state that its transition sequence reaches from the row's state in the managed-node state machine |
| `NodeMenu.MenuCoversMachine` | rqt_lifecycle_manager/lifecycle_manager.py:172-183 | every transition the state machine allows from a primary state is offered as a single-step entry of that state's menu |
| `NodeMenu.OnNodeMenu` | rqt_lifecycle_manager/lifecycle_manager.py:162-214 | a click outside the rows calls nothing; every call goes to the clicked row's node; a call happens only when an entry of that row's menu was picked, and picking one sends that entry's fixed transition labels, in order, to the row's node; at most two calls are made |
| `NodeMenu.Classify` | rqt_lifecycle_manager/lifecycle_manager.py:224-232 | a reply is reported as an exception exactly when the service raised, as success exactly when it returned true, and as failure exactly when it returned false |
| `NodeMenu.Perform` | rqt_lifecycle_manager/lifecycle_manager.py:216-232 | every call of the sequence is issued, in order, whatever the earlier replies were; each is logged with its own reply's outcome |
| `NodeMenu.CombinedEntryNeverAborts` | rqt_lifecycle_manager/lifecycle_manager.py:195-197 | "Deactivate and cleanup" issues deactivate and then cleanup, and "Configure and Activate" issues configure and then activate, even when the first call raised or failed |
| `NodeTable.RowCount` | rqt_lifecycle_manager/lifecycle_manager.py:247-248 | one row per state-list entry, each row showing its own node's name in column 0 |
| `NodeTable.ColumnCount` | rqt_lifecycle_manager/lifecycle_manager.py:250-251 | the table has two columns |
| `NodeTable.HeaderData` | rqt_lifecycle_manager/lifecycle_manager.py:253-259 | a header title exists exactly for horizontal display-role headers of the two columns; the titles are "node" for column 0 and "state" for column 1 |
| `NodeTable.StateText` | rqt_lifecycle_manager/lifecycle_manager.py:271 | the state column is never blank: an empty label shows as "not loaded", any other label as itself |
| `NodeTable.Data` | rqt_lifecycle_manager/lifecycle_manager.py:261-282 | an invalid index or a column outside the two gives nothing; column 0 displays the node's name; column 1 displays the state text (the label, or "not loaded"); a cell has an icon exactly in column 0 under the decoration role for a primary-state label |
| `NodeTable.TableShape` | rqt_lifecycle_manager/lifecycle_manager.py:247-259 | every cell within the row and column counts displays a text under a titled column, and only column 0 can carry an icon |
| `NodeTable.LampShowsState` | rqt_lifecycle_manager/lifecycle_manager.py:76-81 | the lamp is green exactly for "active", red exactly for "inactive", and off exactly for "unconfigured" and "finalized" |
| `Manager.DropFailures` | rqt_lifecycle_manager/lifecycle_manager.py:128-135 | after the exception entries are deleted, the dict keeps exactly the keys whose reply is a state, with their replies unchanged |
| `Manager.RebuiltConcat` | rqt_lifecycle_manager/lifecycle_manager.py:125 | the entries follow the order of the stored name list: rebuilding over two lists in turn gives their state lists in turn |
| `Manager.RebuiltSound` | rqt_lifecycle_manager/lifecycle_manager.py:126-140 | every entry of the state list is a successful reply, with its own label, to the query of one of the stored names; no entry comes from an exception |
| `Manager.RebuiltComplete` | rqt_lifecycle_manager/lifecycle_manager.py:137-140 | every successful reply to the query of a stored name appears in the state list with its label |
| `Manager.RebuiltLength` | rqt_lifecycle_manager/lifecycle_manager.py:122-140 | the state list has at most as many entries as the queries returned replies, and exactly as many when no reply was an exception |
| `Manager.EntriesAreReplies` | rqt_lifecycle_manager/lifecycle_manager.py:137-140 | one query result adds one entry per successful reply, each carrying that reply's label |
| `Manager.EntriesSorted` | rqt_lifecycle_manager/lifecycle_manager.py:138-140 | within one query result the entries come in strictly increasing name order |
| `Manager.RefreshAdoptsListing` | rqt_lifecycle_manager/lifecycle_manager.py:114-120 | after a refresh the stored names are exactly the listed ones, and a state list that matched the stored names matches the new ones |
| `Manager.RefreshIdempotent` | rqt_lifecycle_manager/lifecycle_manager.py:118 | refreshing again with the same listing changes nothing, whatever the queries answer the second time |
| `Manager.ListLcNodes` | rqt_lifecycle_manager/lifecycle_manager.py:144-155 | a successful listing gives its names unchanged; a RuntimeError gives the empty list |
| `Manager.ListingFailureClears` | rqt_lifecycle_manager/lifecycle_manager.py:150-155 | from any state the panel can be in (no names means no entries), a failed listing leaves no stored names and an empty state list |
| `Manager.LifecycleManager.constructor` | rqt_lifecycle_manager/lifecycle_manager.py:67-68 | the panel starts with no node names and an empty state list, which establishes its invariant (no names means no entries) |
| `Manager.LifecycleManager.AppendStates` | rqt_lifecycle_manager/lifecycle_manager.py:126-140 | one node's query result is appended to the state list: exceptions removed, the rest by sorted key |
| `Manager.LifecycleManager.UpdateNodesState` | rqt_lifecycle_manager/lifecycle_manager.py:122-142 | the state list is rebuilt from empty from the queries of the stored names, in their order, and the table is rebuilt from it; the stored names do not change; the invariant holds afterwards |
| `Manager.LifecycleManager.UpdateNodeList` | rqt_lifecycle_manager/lifecycle_manager.py:114-120 | a listing equal to the stored names changes nothing (the table included); any other listing, including the empty one a failure gives, becomes the stored names and the state list is rebuilt; the invariant is preserved |

## Left out

- Qt: the widget, `loadUi`, the `QMenu` object and `exec_`, the view's
  `rowAt`, the timers and their 1 Hz period, and icon file paths. These are
  UI plumbing. The clicked row and the picked entry are inputs. The lamps are
  named values, and the font and centring roles yield plain markers.
- `NodeMenu.OnNodeMenu` requires the row to be below the row count, because
  the view only reports rows it shows. The code itself checks only for a
  negative row.
- The ROS 2 service clients `get_node_names`, `call_get_states` and
  `call_change_states`. Their library is not part of this model, and their
  results are inputs.
- A listing failure other than RuntimeError propagates out of the timer
  callback in the code. It is not modelled.
- The state query is assumed to answer the same dict for the same name within
  one rebuild.
- Writing to stdout/stderr. `NodeMenu.Classify` models only which of the
  three reports is logged.
- A transition reply is a bool. Python truthiness of other reply values is
  not modelled.
- A `None` state label. Labels are strings, so only the empty label shows as
  "not loaded".
- Timers can fire while the menu is open. The code then evaluates the
  choice against the row state captured when the menu opened. The model
  reflects this by deciding the menu and the requests from one `state`
  argument. Interleaving itself is not modelled.
- The table model keeps a reference to the list it was built from. It is
  modelled as a copy in the field `shown`, set when the list is shown.
- `shutdown_plugin`, `save_settings`, `restore_settings` and
  `rqt_lifecycle_manager/main.py`. These are plugin hooks and a launcher with
  no logic.
