/**
 * The panel's own state: the list of lifecycle node names last listed and
 * the state list built from querying each of them. Listing and querying are
 * services outside the panel; they appear here as inputs.
 */
module Manager {

  import opened Lifecycle
  import opened KeyOrder

  /** An entry of the node listing; its `name` is what the state query is asked about. */
  datatype NodeName = NodeName(name: string, namespace: string, fullName: string)

  /** One value of the state query's result dict: a state with its label, or an exception. */
  datatype StateReply = Reported(stateLabel: string) | QueryFailed(message: string)

  /** The outcome of listing lifecycle nodes; a RuntimeError is the failure caught. */
  datatype Listing = Listed(names: seq<NodeName>) | ListingFailed(message: string)

  /** The state query for one node name, giving the dict of replies by node name. */
  type StateQuery = string -> map<string, StateReply>

  /** The names the panel takes from a listing: none when listing failed. */
  function ListLcNodes(listing: Listing): (names: seq<NodeName>)
    ensures listing.Listed? ==> names == listing.names
    ensures listing.ListingFailed? ==> names == []
  {
    match listing
    case Listed(names) => names
    case ListingFailed(_) => []
  }

  /** The keys of a query result whose value is not an exception. */
  ghost function ReportedKeys(states: map<string, StateReply>): (ks: set<string>)
    ensures forall k :: k in ks <==> k in states && states[k].Reported?
  {
    set k | k in states && states[k].Reported?
  }

  /** What one query result adds to the state list: the successful replies,
      by increasing key. */
  ghost function EntriesOf(states: map<string, StateReply>): seq<NodeState>
  {
    var keys := SortedKeys(ReportedKeys(states));
    seq(|keys|, i requires 0 <= i < |keys| => NodeState(keys[i], states[keys[i]].stateLabel))
  }

  /** One entry per successful reply, each carrying that reply's label. */
  lemma EntriesAreReplies(states: map<string, StateReply>)
    ensures |EntriesOf(states)| == |ReportedKeys(states)|
    ensures forall e :: e in EntriesOf(states) ==> e.name in states && states[e.name] == Reported(e.state)
  {
    SortedKeysSize(ReportedKeys(states));
  }

  /** The state list rebuilt from `names`: each name's entries in list order. */
  ghost function Rebuilt(names: seq<NodeName>, query: StateQuery): seq<NodeState>
    decreases |names|
  {
    if names == [] then []
    else Rebuilt(names[..|names| - 1], query) + EntriesOf(query(names[|names| - 1].name))
  }

  /** Rebuilding over two name lists in turn gives the two state lists in
      turn: entries follow the order of the stored names. */
  lemma {:induction false} RebuiltConcat(xs: seq<NodeName>, ys: seq<NodeName>, query: StateQuery)
    ensures Rebuilt(xs + ys, query) == Rebuilt(xs, query) + Rebuilt(ys, query)
    decreases |ys|
  {
    if ys == [] {
      assert xs + ys == xs;
    } else {
      var n := |ys| - 1;
      var last := EntriesOf(query(ys[n].name));
      assert (xs + ys)[..|xs + ys| - 1] == xs + ys[..n];
      assert (xs + ys)[|xs + ys| - 1] == ys[n];
      calc {
        Rebuilt(xs + ys, query);
        Rebuilt(xs + ys[..n], query) + last;
        { RebuiltConcat(xs, ys[..n], query); }
        (Rebuilt(xs, query) + Rebuilt(ys[..n], query)) + last;
        Rebuilt(xs, query) + (Rebuilt(ys[..n], query) + last);
        Rebuilt(xs, query) + Rebuilt(ys, query);
      }
    }
  }

  /** Every entry comes from a successful reply to the query of a stored
      name: nothing is recorded for an exception. */
  lemma {:induction false} RebuiltSound(names: seq<NodeName>, query: StateQuery, e: NodeState)
    requires e in Rebuilt(names, query)
    ensures exists i :: 0 <= i < |names| && e.name in query(names[i].name) &&
                        query(names[i].name)[e.name] == Reported(e.state)
    decreases |names|
  {
    var n := |names| - 1;
    var es := EntriesOf(query(names[n].name));
    if e in es {
      EntriesAreReplies(query(names[n].name));
    } else {
      RebuiltSound(names[..n], query, e);
      var i :| 0 <= i < n && e.name in query(names[..n][i].name) &&
                query(names[..n][i].name)[e.name] == Reported(e.state);
      assert names[..n][i] == names[i];
    }
  }

  /** Every successful reply to the query of a stored name is recorded. */
  lemma {:induction false} RebuiltComplete(names: seq<NodeName>, query: StateQuery, i: int, k: string)
    requires 0 <= i < |names|
    requires k in query(names[i].name) && query(names[i].name)[k].Reported?
    ensures NodeState(k, query(names[i].name)[k].stateLabel) in Rebuilt(names, query)
    decreases |names|
  {
    var n := |names| - 1;
    if i == n {
      var m := query(names[n].name);
      var keys := SortedKeys(ReportedKeys(m));
      var j :| 0 <= j < |keys| && keys[j] == k;
      assert EntriesOf(m)[j] == NodeState(k, m[k].stateLabel);
    } else {
      assert names[..n][i] == names[i];
      RebuiltComplete(names[..n], query, i, k);
    }
  }

  lemma {:induction false} SubsetSize<T>(a: set<T>, b: set<T>)
    requires a <= b
    ensures |a| <= |b|
    decreases |b|
  {
    if a != {} {
      var x :| x in a;
      SubsetSize(a - {x}, b - {x});
    }
  }

  /** The number of replies the queries of `names` return, failed or not. */
  ghost function ReplyCount(names: seq<NodeName>, query: StateQuery): nat
    decreases |names|
  {
    if names == [] then 0
    else ReplyCount(names[..|names| - 1], query) + |query(names[|names| - 1].name)|
  }

  /** No query of a stored name raised. */
  ghost predicate NoneFailed(names: seq<NodeName>, query: StateQuery)
  {
    forall i, k :: 0 <= i < |names| && k in query(names[i].name) ==> query(names[i].name)[k].Reported?
  }

  /** One query result adds at most one entry per reply, and exactly one
      per reply when none of them is an exception. */
  lemma EntriesCount(m: map<string, StateReply>)
    ensures |EntriesOf(m)| <= |m|
    ensures (forall k :: k in m ==> m[k].Reported?) ==> |EntriesOf(m)| == |m|
  {
    EntriesAreReplies(m);
    SubsetSize(ReportedKeys(m), m.Keys);
    assert |m.Keys| == |m|;
    if forall k :: k in m ==> m[k].Reported? {
      assert ReportedKeys(m) == m.Keys;
    }
  }

  /** The state list never has more entries than the queries returned
      replies, and has exactly as many when no reply was an exception. */
  lemma {:induction false} RebuiltLength(names: seq<NodeName>, query: StateQuery)
    ensures |Rebuilt(names, query)| <= ReplyCount(names, query)
    ensures NoneFailed(names, query) ==> |Rebuilt(names, query)| == ReplyCount(names, query)
    decreases |names|
  {
    if names != [] {
      var n := |names| - 1;
      var m := query(names[n].name);
      RebuiltLength(names[..n], query);
      EntriesCount(m);
      if NoneFailed(names, query) {
        NoneFailedPrefix(names, query);
        assert forall k :: k in m ==> m[k].Reported?;
      }
    }
  }

  lemma NoneFailedPrefix(names: seq<NodeName>, query: StateQuery)
    requires names != [] && NoneFailed(names, query)
    ensures NoneFailed(names[..|names| - 1], query)
  {
    var p := names[..|names| - 1];
    forall i, k | 0 <= i < |p| && k in query(p[i].name)
      ensures query(p[i].name)[k].Reported?
    {
      assert p[i] == names[i];
    }
  }

  /** The entries one query result adds are in increasing name order, each
      name once. */
  lemma EntriesSorted(states: map<string, StateReply>)
    ensures var es := EntriesOf(states);
            forall i, j :: 0 <= i < j < |es| ==> Below(es[i].name, es[j].name) && es[i].name != es[j].name
  {
    SortedKeysIncreasing(ReportedKeys(states));
  }

  /** Removes the exception entries from a query result, visiting the keys
      in sorted order. */
  method DropFailures(states: map<string, StateReply>) returns (kept: map<string, StateReply>)
    ensures kept.Keys == ReportedKeys(states)
    ensures forall k :: k in kept ==> kept[k] == states[k]
  {
    var keys := SortKeys(states.Keys);
    kept := states;
    ghost var visited: set<string> := {};
    var j := 0;
    while j < |keys|
      invariant 0 <= j <= |keys|
      invariant forall i :: 0 <= i < j ==> keys[i] in visited
      invariant forall i :: j <= i < |keys| ==> keys[i] !in visited
      invariant forall k :: k in kept <==> k in states && (states[k].Reported? || k !in visited)
      invariant forall k :: k in kept ==> kept[k] == states[k]
    {
      var key := keys[j];
      if kept[key].QueryFailed? {
        kept := kept - {key};
      }
      visited := visited + {key};
      j := j + 1;
    }
  }

  /** The `j`-th key of a cleaned query result gives the `j`-th entry. */
  lemma EntryAt(replies: map<string, StateReply>, states: map<string, StateReply>, keys: seq<string>, j: nat)
    requires states.Keys == ReportedKeys(replies)
    requires forall k :: k in states ==> states[k] == replies[k]
    requires Increasing(keys) && forall x :: x in keys <==> x in states
    requires j < |keys|
    ensures |EntriesOf(replies)| == |keys|
    ensures keys[j] in states && states[keys[j]].Reported?
    ensures EntriesOf(replies)[j] == NodeState(keys[j], states[keys[j]].stateLabel)
  {
    SortedKeysUnique(keys, states.Keys);
    EntriesAreReplies(replies);
  }

  /** A cleaned query result has one entry per key. */
  lemma EntriesLength(replies: map<string, StateReply>, states: map<string, StateReply>, keys: seq<string>)
    requires states.Keys == ReportedKeys(replies)
    requires Increasing(keys) && forall x :: x in keys <==> x in states
    ensures |EntriesOf(replies)| == |keys|
  {
    SortedKeysUnique(keys, states.Keys);
  }

  lemma RebuiltSnoc(names: seq<NodeName>, i: nat, query: StateQuery)
    requires i < |names|
    ensures Rebuilt(names[..i + 1], query) == Rebuilt(names[..i], query) + EntriesOf(query(names[i].name))
  {
    assert names[..i + 1][..i] == names[..i];
  }

  lemma PrefixGrows<T>(s: seq<T>, j: nat)
    requires j < |s|
    ensures s[..j + 1] == s[..j] + [s[j]]
  {
  }

  /** The stored state of the panel, as a value. */
  datatype Panel = Panel(nodeNames: seq<NodeName>, nodes: seq<NodeState>)

  /** One refresh of the node list: a listing equal to the stored names
      changes nothing; any other listing, including the empty one a failed
      listing yields, replaces the names and rebuilds the state list. */
  ghost function Refreshed(p: Panel, listing: Listing, query: StateQuery): Panel
  {
    var listed := ListLcNodes(listing);
    if p.nodeNames == listed then p else Panel(listed, Rebuilt(listed, query))
  }

  /** After a refresh the stored names are exactly the listed ones, and a
      state list that matched the stored names still matches them. */
  lemma RefreshAdoptsListing(p: Panel, listing: Listing, query: StateQuery)
    requires p.nodes == Rebuilt(p.nodeNames, query)
    ensures Refreshed(p, listing, query).nodeNames == ListLcNodes(listing)
    ensures Refreshed(p, listing, query).nodes == Rebuilt(ListLcNodes(listing), query)
  {
  }

  /** Refreshing again with the same listing changes nothing, whatever the
      queries answer the second time. */
  lemma RefreshIdempotent(p: Panel, listing: Listing, query: StateQuery, later: StateQuery)
    ensures Refreshed(Refreshed(p, listing, query), listing, later) == Refreshed(p, listing, query)
  {
  }

  /** A panel state the plugin can be in: with no names there are no
      entries. It holds initially and after every rebuild, since rebuilding
      over no names gives the empty list (LifecycleManager.Valid). */
  ghost predicate Consistent(p: Panel)
  {
    p.nodeNames == [] ==> p.nodes == []
  }

  /** A failed listing empties the panel: the names and the state list are
      cleared, not kept from before. */
  lemma ListingFailureClears(p: Panel, message: string, query: StateQuery)
    requires Consistent(p)
    ensures Refreshed(p, ListingFailed(message), query) == Panel([], [])
  {
  }

  class LifecycleManager {
    /** The node names last listed. */
    var nodeNames: seq<NodeName>
    /** The state list. */
    var nodes: seq<NodeState>
    /** The rows the table model on display was built from. */
    var shown: seq<NodeState>

    ghost function Current(): Panel
      reads this
    {
      Panel(nodeNames, nodes)
    }

    /** The invariant between the timer callbacks. */
    ghost predicate Valid()
      reads this
    {
      Consistent(Current())
    }

    constructor ()
      ensures Valid()
      ensures nodeNames == [] && nodes == [] && shown == []
    {
      nodeNames := [];
      nodes := [];
      shown := [];
    }

    /** Appends the entries of one node's query result: exceptions are
        removed first, then the remaining replies are appended by sorted key. */
    method AppendStates(replies: map<string, StateReply>)
      modifies this`nodes
      ensures nodes == old(nodes) + EntriesOf(replies)
    {
      var states := DropFailures(replies);
      var keys := SortKeys(states.Keys);
      ghost var entries := EntriesOf(replies);
      EntriesLength(replies, states, keys);
      var j := 0;
      while j < |keys|
        invariant 0 <= j <= |keys|
        invariant nodes == old(nodes) + entries[..j]
      {
        EntryAt(replies, states, keys, j);
        nodes := nodes + [NodeState(keys[j], states[keys[j]].stateLabel)];
        PrefixGrows(entries, j);
        j := j + 1;
      }
      assert entries[..j] == entries;
    }

    /** Rebuilds the state list from scratch by querying every stored name,
        then shows it. */
    method UpdateNodesState(query: StateQuery)
      modifies this`nodes, this`shown
      ensures Valid()
      ensures nodes == Rebuilt(nodeNames, query)
      ensures shown == nodes
    {
      nodes := [];
      var i := 0;
      while i < |nodeNames|
        invariant 0 <= i <= |nodeNames|
        invariant nodes == Rebuilt(nodeNames[..i], query)
      {
        var states := query(nodeNames[i].name);
        AppendStates(states);
        RebuiltSnoc(nodeNames, i, query);
        i := i + 1;
      }
      assert nodeNames[..i] == nodeNames;
      shown := nodes;
    }

    /** Lists the lifecycle nodes and, when the listing differs from the
        stored names, stores it and rebuilds the state list. */
    method UpdateNodeList(listing: Listing, query: StateQuery)
      requires Valid()
      modifies this
      ensures Valid()
      ensures Current() == Refreshed(old(Current()), listing, query)
      ensures shown == if old(nodeNames) == ListLcNodes(listing) then old(shown) else nodes
    {
      var names := ListLcNodes(listing);
      if nodeNames != names {
        nodeNames := names;
        UpdateNodesState(query);
      }
    }
  }
}
