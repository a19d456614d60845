/**
 * The read-only two-column table model that shows the state list: row and
 * column counts, header titles, and the value of each cell for each role
 * the view asks about.
 */
module NodeTable {

  import opened Lifecycle

  datatype Orientation = Horizontal | Vertical

  /** The roles the table answers; every other role is `OtherRole`. */
  datatype Role = DisplayRole | DecorationRole | FontRole | TextAlignmentRole | OtherRole

  /** The status lamps shown next to node names. */
  datatype Lamp = LedGreen | LedRed | LedOff

  /** What a cell yields: nothing, a text, an icon, a bold font or centring. */
  datatype CellValue = NoValue | Text(text: string) | Icon(lamp: Lamp) | BoldFont | AlignCenter

  /** A model index: invalid, or a cell position. */
  datatype ModelIndex = InvalidIndex | At(row: int, column: int)

  /** The icon table, keyed by state label. */
  const StateIcons: map<string, Lamp> :=
    map["active" := LedGreen, "finalized" := LedOff, "inactive" := LedRed, "unconfigured" := LedOff]

  /** One row per entry of the state list, each showing its node's name. */
  function RowCount(nodes: seq<NodeState>): (n: nat)
    ensures n == |nodes|
    ensures forall r :: 0 <= r < n ==> Data(nodes, At(r, 0), DisplayRole) == Text(nodes[r].name)
  {
    |nodes|
  }

  /** The name column and the state column. */
  function ColumnCount(): (c: nat)
    ensures c == 2
  {
    2
  }

  /** Column titles; only horizontal headers in the display role have one. */
  function HeaderData(col: int, orientation: Orientation, role: Role): (h: Option<string>)
    ensures h.Some? <==> orientation == Horizontal && role == DisplayRole && 0 <= col < ColumnCount()
    ensures h.Some? ==> h.value == (if col == 0 then "node" else "state")
  {
    if orientation != Horizontal || role != DisplayRole then None
    else if col == 0 then Some("node")
    else if col == 1 then Some("state")
    else None
  }

  /** The text of the state column: the label, or "not loaded" for an empty one. */
  function StateText(state: string): (t: string)
    ensures t != []
    ensures state == [] ==> t == "not loaded"
    ensures state != [] ==> t == state
  {
    if state == "" then "not loaded" else state
  }

  function Data(nodes: seq<NodeState>, index: ModelIndex, role: Role): (v: CellValue)
    requires index.At? ==> 0 <= index.row < |nodes|
    ensures index.InvalidIndex? ==> v == NoValue
    ensures index.At? && !(0 <= index.column < ColumnCount()) ==> v == NoValue
    ensures index.At? && role == DisplayRole && index.column == 0 ==> v == Text(nodes[index.row].name)
    ensures index.At? && role == DisplayRole && index.column == 1 ==>
              v == Text(StateText(nodes[index.row].state))
    ensures v.Icon? <==> index.At? && role == DecorationRole && index.column == 0 &&
                         ParseState(nodes[index.row].state).Some?
  {
    if index.InvalidIndex? then NoValue
    else
      var node := nodes[index.row];
      if role == DisplayRole && index.column == 0 then Text(node.name)
      else if role == DisplayRole && index.column == 1 then Text(StateText(node.state))
      else if role == DecorationRole && index.column == 0 then
        if node.state in StateIcons then Icon(StateIcons[node.state]) else NoValue
      else if role == FontRole && index.column == 0 then BoldFont
      else if role == TextAlignmentRole && index.column == 1 then AlignCenter
      else NoValue
  }

  /** Every cell inside the table's dimensions shows a text under a titled
      column, and the name column is the only one with an icon. */
  lemma TableShape(nodes: seq<NodeState>, r: int, c: int)
    requires 0 <= r < RowCount(nodes) && 0 <= c < ColumnCount()
    ensures Data(nodes, At(r, c), DisplayRole).Text?
    ensures HeaderData(c, Horizontal, DisplayRole).Some?
    ensures c != 0 ==> !Data(nodes, At(r, c), DecorationRole).Icon?
  {
  }

  /** The lamp distinguishes the operable states: green exactly for
      "active", red exactly for "inactive", and off for the other two
      primary states. */
  lemma {:induction false} LampShowsState(nodes: seq<NodeState>, r: int)
    requires 0 <= r < |nodes|
    ensures var v := Data(nodes, At(r, 0), DecorationRole);
            (v == Icon(LedGreen) <==> ParseState(nodes[r].state) == Some(Active)) &&
            (v == Icon(LedRed) <==> ParseState(nodes[r].state) == Some(Inactive)) &&
            (v == Icon(LedOff) <==> ParseState(nodes[r].state) in {Some(Unconfigured), Some(Finalized)})
  {
  }
}
