/** The shapes of the flowchart data (types/index.ts). */
module Types {
  import opened Wrappers

  /** The `type` of a node: exactly one of 'question' or 'result'. */
  datatype NodeType = Question | Result

  /** The `status` of a node, when present: exactly one of 'capacity' or 'incapacity'. */
  datatype Status = Capacity | Incapacity

  /** A labelled edge from a question to its successor node (`label` is a Dafny keyword,
      so the field is `labelText`). */
  datatype Option = Option(labelText: string, nextNodeId: string, statement: Optional<string>)

  /** One step of the decision tree. `options`, when present, is in display order. */
  datatype Node = Node(
    id: string,
    text: string,
    details: Optional<string>,
    info: Optional<string>,
    nodeType: NodeType,
    options: Optional<seq<Option>>,
    status: Optional<Status>,
    emailTemplate: Optional<string>)

  /** The whole tree: a finite map from id to node (so each id has at most one node)
      and the id of the entry node, which nothing forces to be a key of `nodes`. */
  datatype FlowchartData = FlowchartData(startNodeId: string, nodes: map<string, Node>)

  /** The options a node offers, in display order; none when the property is absent. */
  function OptionsOf(n: Node): (r: seq<Option>)
    ensures n.options.Present? ==> r == n.options.value
    ensures n.options.Absent? ==> r == []
  {
    n.options.GetOr([])
  }

  /** The ids an option button of `n` leads to, one per option, in display order. */
  function Targets(n: Node): (r: seq<string>)
    ensures |r| == |OptionsOf(n)|
    ensures forall i :: 0 <= i < |r| ==> r[i] == OptionsOf(n)[i].nextNodeId
  {
    var opts := OptionsOf(n);
    seq(|opts|, i requires 0 <= i < |opts| => opts[i].nextNodeId)
  }

  /** The assumption the program makes silently about its data: the start id and every
      option's target name nodes of the tree. */
  ghost predicate WellFormed(data: FlowchartData)
    ensures WellFormed(data) ==> data.startNodeId in data.nodes
    ensures WellFormed(data) ==>
      forall id, o :: id in data.nodes && o in OptionsOf(data.nodes[id]) ==> o.nextNodeId in data.nodes
  {
    && data.startNodeId in data.nodes
    && forall id, t :: id in data.nodes && t in Targets(data.nodes[id]) ==> t in data.nodes
  }
}
