/** The decision-tree navigation of the assessment page (app/page.tsx): the current node id,
    the stack of ids visited before it, the three transitions and the views derived from them. */
module Navigation {
  import opened Wrappers
  import opened Types

  /** The page's two pieces of state, as one value. */
  datatype Session = Session(current: string, history: seq<string>)

  /** The state the page starts in, and the one restart returns to. */
  function Start(data: FlowchartData): (s: Session)
    ensures s.current == data.startNodeId && s.history == []
  {
    Session(data.startNodeId, [])
  }

  /** Choosing an option: the current id is pushed, the option's target becomes current. */
  function Choose(s: Session, nextNodeId: string): (r: Session)
    ensures |r.history| == |s.history| + 1
    ensures r.history[..|s.history|] == s.history
    ensures r.history[|s.history|] == s.current
    ensures r.current == nextNodeId
  {
    Session(nextNodeId, s.history + [s.current])
  }

  /** Going back: nothing on an empty history; otherwise the last entry is popped and, unless
      it is the empty string (which JavaScript treats as false), made current. */
  function Back(s: Session): (r: Session)
    ensures s.history == [] ==> r == s
    ensures s.history != [] ==> r.history + [s.history[|s.history| - 1]] == s.history
    ensures s.history != [] && s.history[|s.history| - 1] != "" ==> r.current == s.history[|s.history| - 1]
    ensures s.history != [] && s.history[|s.history| - 1] == "" ==> r.current == s.current
  {
    if |s.history| == 0 then s
    else
      var newHistory := s.history[..|s.history| - 1];
      var prevNodeId := s.history[|s.history| - 1];
      Session(if prevNodeId != "" then prevNodeId else s.current, newHistory)
  }

  /** The "Step n" counter in the footer. */
  function StepNumber(s: Session): (n: nat)
    ensures n >= 1
    ensures n == |s.history| + 1
  {
    |s.history| + 1
  }

  /** Whether the Back button is rendered. */
  function BackOffered(s: Session): (b: bool)
    ensures b <==> s.history != []
  {
    |s.history| > 0
  }

  /** The three ways the current node is styled (icon and heading colour). */
  datatype Appearance = QuestionLook | CapacityLook | NonCapacityLook

  function AppearanceOf(n: Node): (a: Appearance)
    ensures a == QuestionLook <==> n.nodeType == Question
    ensures a == CapacityLook <==> n.nodeType == Result && n.status == Present(Capacity)
    ensures a == NonCapacityLook <==> n.nodeType == Result && n.status != Present(Capacity)
  {
    var isResult := n.nodeType == Result;
    var isCapacity := n.status == Present(Capacity);
    if isResult then (if isCapacity then CapacityLook else NonCapacityLook) else QuestionLook
  }

  /** Whether the "Start New Assessment" button is rendered: on result nodes only. */
  function RestartOffered(n: Node): (b: bool)
    ensures b <==> AppearanceOf(n) != QuestionLook
  {
    n.nodeType == Result
  }

  /** Every id the state refers to names a node, so looking up the current node is safe. */
  ghost predicate Consistent(data: FlowchartData, s: Session) {
    && s.current in data.nodes
    && forall i :: 0 <= i < |s.history| ==> s.history[i] in data.nodes
  }

  lemma StartConsistent(data: FlowchartData)
    requires WellFormed(data)
    ensures Consistent(data, Start(data))
  {
  }

  lemma ChooseKeepsConsistent(data: FlowchartData, s: Session, nextNodeId: string)
    requires WellFormed(data) && Consistent(data, s)
    requires nextNodeId in Targets(data.nodes[s.current])
    ensures Consistent(data, Choose(s, nextNodeId))
  {
  }

  lemma BackKeepsConsistent(data: FlowchartData, s: Session)
    requires Consistent(data, s)
    ensures Consistent(data, Back(s))
  {
  }

  /** Back immediately after a choice restores the state before it, provided the id that
      was pushed is not the empty string. */
  lemma BackUndoesChoose(s: Session, nextNodeId: string)
    requires s.current != ""
    ensures Back(Choose(s, nextNodeId)) == s
  {
  }

  /** With an empty current id the undo is incomplete: the stack shrinks but the chosen
      node stays current. */
  lemma BackAfterChooseFromEmptyId(h: seq<string>, nextNodeId: string)
    ensures Back(Choose(Session("", h), nextNodeId)) == Session(nextNodeId, h)
  {
  }

  /** The Back button is offered exactly when pressing it would change the state. */
  lemma BackOfferedIffBackActs(s: Session)
    ensures BackOffered(s) <==> Back(s) != s
  {
  }

  /** A run of choices with no Back in between. */
  function ChooseAll(s: Session, path: seq<string>): Session
    decreases |path|
  {
    if path == [] then s else Choose(ChooseAll(s, path[..|path| - 1]), path[|path| - 1])
  }

  /** `n` presses of Back. */
  function BackTimes(s: Session, n: nat): Session
    decreases n
  {
    if n == 0 then s else BackTimes(Back(s), n - 1)
  }

  /** After a run of choices the history is the old history, then the old current id, then
      every chosen id but the last; the last chosen id is current. */
  lemma {:induction false} ChooseAllPushes(s: Session, path: seq<string>)
    ensures ChooseAll(s, path).history == s.history + ([s.current] + path)[..|path|]
    ensures ChooseAll(s, path).current == ([s.current] + path)[|path|]
    decreases |path|
  {
    if path != [] {
      var init := path[..|path| - 1];
      ChooseAllPushes(s, init);
      assert ([s.current] + path)[..|path|] == ([s.current] + init)[..|init|] + [([s.current] + init)[|init|]];
    }
  }

  /** The step counter after n choices from the start reads n + 1. */
  lemma StepsAfterChoices(data: FlowchartData, path: seq<string>)
    ensures StepNumber(ChooseAll(Start(data), path)) == |path| + 1
  {
    ChooseAllPushes(Start(data), path);
  }

  /** As many presses of Back as there were choices return to the state before them,
      when no id involved is the empty string. */
  lemma {:induction false} BackTimesUndoesChooseAll(s: Session, path: seq<string>)
    requires s.current != ""
    requires forall i :: 0 <= i < |path| ==> path[i] != ""
    ensures BackTimes(ChooseAll(s, path), |path|) == s
    decreases |path|
  {
    if path != [] {
      var init := path[..|path| - 1];
      var y := ChooseAll(s, init);
      ChooseAllPushes(s, init);
      assert y.current != "" by {
        if init != [] { assert y.current == init[|init| - 1]; }
      }
      BackUndoesChoose(y, path[|path| - 1]);
      BackTimesUndoesChooseAll(s, init);
    }
  }

  /** Every choice in `path` is the target of an option of the node current at that moment. */
  ghost predicate FollowsOptions(data: FlowchartData, s: Session, path: seq<string>)
    decreases |path|
  {
    path == [] ||
    (var init := path[..|path| - 1];
     var y := ChooseAll(s, init);
     && FollowsOptions(data, s, init)
     && y.current in data.nodes
     && path[|path| - 1] in Targets(data.nodes[y.current]))
  }

  /** Clicking through options never leaves the tree. */
  lemma {:induction false} ChooseAllKeepsConsistent(data: FlowchartData, s: Session, path: seq<string>)
    requires WellFormed(data) && Consistent(data, s)
    requires FollowsOptions(data, s, path)
    ensures Consistent(data, ChooseAll(s, path))
    decreases |path|
  {
    if path != [] {
      var init := path[..|path| - 1];
      ChooseAllKeepsConsistent(data, s, init);
      ChooseKeepsConsistent(data, ChooseAll(s, init), path[|path| - 1]);
    }
  }

  /** The page's state: `currentNodeId` and `history` are updated in place by the handlers. */
  class DecisionTree {
    const data: FlowchartData
    var currentNodeId: string
    var history: seq<string>

    function State(): Session
      reads this
    {
      Session(currentNodeId, history)
    }

    ghost predicate Valid()
      reads this
    {
      WellFormed(data) && Consistent(data, State())
    }

    constructor (data: FlowchartData)
      requires WellFormed(data)
      ensures this.data == data
      ensures Valid() && State() == Start(data)
    {
      this.data := data;
      currentNodeId := data.startNodeId;
      history := [];
    }

    /** The node on screen. */
    function CurrentNode(): (n: Node)
      reads this
      requires Valid()
      ensures n == data.nodes[currentNodeId]
    {
      data.nodes[currentNodeId]
    }

    method HandleOptionClick(nextNodeId: string)
      requires Valid()
      requires nextNodeId in Targets(CurrentNode())
      modifies this
      ensures Valid()
      ensures State() == Choose(old(State()), nextNodeId)
    {
      ChooseKeepsConsistent(data, State(), nextNodeId);
      history := history + [currentNodeId];
      currentNodeId := nextNodeId;
    }

    method HandleBack()
      requires Valid()
      modifies this
      ensures Valid()
      ensures State() == Back(old(State()))
    {
      BackKeepsConsistent(data, State());
      if |history| == 0 {
        return;
      }
      var newHistory := history[..|history| - 1];
      var prevNodeId := history[|history| - 1];
      history := newHistory;
      if prevNodeId != "" {
        currentNodeId := prevNodeId;
      }
    }

    method HandleRestart()
      requires Valid()
      modifies this
      ensures Valid()
      ensures State() == Start(data)
    {
      StartConsistent(data);
      history := [];
      currentNodeId := data.startNodeId;
    }
  }
}
