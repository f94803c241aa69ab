/** The graph both workflows compile (workflow.py `build_workflow`,
    multi_agent_research.py `build_graph`) and a fuel-bounded driver that
    runs it the way the graph runtime does: run the current node, merge its
    update into the state, follow the fixed edge or, after the reviewer,
    the routing predicate. */
module Pipeline {
  import opened Wrappers
  import opened State

  datatype Node = Planner | Researcher | Writer | Reviewer

  /** The runtime's step budget (LangGraph's default recursion limit). */
  const RecursionLimit := 25

  /** An entry node, the unconditional edges, and one conditional edge from
      `branchFrom` that goes to `branchTo` or ends the run. */
  datatype Graph = Graph(entry: Node, edges: map<Node, Node>, branchFrom: Node, branchTo: Node)

  function BuildWorkflow(): Graph {
    Graph(Planner, map[Planner := Researcher, Researcher := Writer, Writer := Reviewer], Reviewer, Writer)
  }

  /** Where the run goes after `node`, given the state after its update;
      `None` is `END`. */
  function Successor(g: Graph, node: Node, s: Record, toBranch: Record -> bool): Option<Node> {
    if node in g.edges then Some(g.edges[node])
    else if node == g.branchFrom && toBranch(s) then Some(g.branchTo)
    else None
  }

  /** The graph's paths: fixed edges chain planner, researcher, writer and
      reviewer, and only the reviewer's exit depends on the state. */
  lemma WorkflowShape(s: Record, toBranch: Record -> bool)
    ensures BuildWorkflow().entry == Planner
    ensures Successor(BuildWorkflow(), Planner, s, toBranch) == Some(Researcher)
    ensures Successor(BuildWorkflow(), Researcher, s, toBranch) == Some(Writer)
    ensures Successor(BuildWorkflow(), Writer, s, toBranch) == Some(Reviewer)
    ensures Successor(BuildWorkflow(), Reviewer, s, toBranch) == (if toBranch(s) then Some(Writer) else None)
  {
  }

  /** What a run has produced so far: the merged state, the nodes run and
      their updates, in order. */
  datatype Trace = Trace(state: Record, visited: seq<Node>, updates: seq<Update>)

  /** How a run stops: it reached `END`, a node raised, or the step budget
      (the runtime's recursion limit) ran out. */
  datatype Halt = Finished(trace: Trace) | Crashed(error: string, trace: Trace) | OutOfFuel(trace: Trace)

  /** Run `node` and its successors for at most `fuel` steps. A step is the
      node's update, or the text of the exception it raised. */
  function Drive(g: Graph, step: (Node, Record) -> Result<Update, string>, toBranch: Record -> bool,
                 node: Node, t: Trace, fuel: nat): (h: Halt)
    decreases fuel
  {
    if fuel == 0 then OutOfFuel(t)
    else
      match step(node, t.state)
      case Failure(e) => Crashed(e, t)
      case Success(u) =>
        var t' := Trace(Merge(t.state, u), t.visited + [node], t.updates + [u]);
        match Successor(g, node, t'.state, toBranch)
        case None => Finished(t')
        case Some(next) => Drive(g, step, toBranch, next, t', fuel - 1)
  }

  /** One step of a run whose node does not raise. */
  lemma DriveUnfold(g: Graph, step: (Node, Record) -> Result<Update, string>, toBranch: Record -> bool,
                    node: Node, t: Trace, fuel: nat)
    requires fuel > 0 && step(node, t.state).Success?
    ensures var u := step(node, t.state).value;
      var t' := Trace(Merge(t.state, u), t.visited + [node], t.updates + [u]);
      var next := Successor(g, node, t'.state, toBranch);
      Drive(g, step, toBranch, node, t, fuel)
        == if next.Some? then Drive(g, step, toBranch, next.value, t', fuel - 1) else Finished(t')
  {
  }

  /** The trace after running `node` once more. */
  function After(step: (Node, Record) -> Result<Update, string>, node: Node, t: Trace): Trace
    requires step(node, t.state).Success?
  {
    var u := step(node, t.state).value;
    Trace(Merge(t.state, u), t.visited + [node], t.updates + [u])
  }

  /** With steps that never raise, a run from the entry goes through the
      planner, researcher, writer and reviewer in that order, and then ends
      or turns back to the writer as the routing predicate says. */
  lemma MainLine(step: (Node, Record) -> Result<Update, string>, toBranch: Record -> bool, t0: Trace, fuel: nat)
    requires fuel >= 4
    requires forall n, s :: step(n, s).Success?
    ensures var t4 := After(step, Reviewer, After(step, Writer, After(step, Researcher, After(step, Planner, t0))));
      && t4.visited == t0.visited + [Planner, Researcher, Writer, Reviewer]
      && Drive(BuildWorkflow(), step, toBranch, Planner, t0, fuel)
        == if toBranch(t4.state) then Drive(BuildWorkflow(), step, toBranch, Writer, t4, fuel - 4) else Finished(t4)
  {
    var g := BuildWorkflow();
    var t1 := After(step, Planner, t0);
    var t2 := After(step, Researcher, t1);
    var t3 := After(step, Writer, t2);
    var t4 := After(step, Reviewer, t3);
    WorkflowShape(t1.state, toBranch);
    WorkflowShape(t2.state, toBranch);
    WorkflowShape(t3.state, toBranch);
    WorkflowShape(t4.state, toBranch);
    DriveUnfold(g, step, toBranch, Planner, t0, fuel);
    DriveUnfold(g, step, toBranch, Researcher, t1, fuel - 1);
    DriveUnfold(g, step, toBranch, Writer, t2, fuel - 2);
    DriveUnfold(g, step, toBranch, Reviewer, t3, fuel - 3);
  }

  /** A second pass, from the writer: the writer and the reviewer run, and
      the routing predicate decides again. */
  lemma WriterPass(step: (Node, Record) -> Result<Update, string>, toBranch: Record -> bool, t: Trace, fuel: nat)
    requires fuel >= 2
    requires forall n, s :: step(n, s).Success?
    ensures var t2 := After(step, Reviewer, After(step, Writer, t));
      && t2.visited == t.visited + [Writer, Reviewer]
      && Drive(BuildWorkflow(), step, toBranch, Writer, t, fuel)
        == if toBranch(t2.state) then Drive(BuildWorkflow(), step, toBranch, Writer, t2, fuel - 2) else Finished(t2)
  {
    var g := BuildWorkflow();
    var t1 := After(step, Writer, t);
    var t2 := After(step, Reviewer, t1);
    WorkflowShape(t1.state, toBranch);
    WorkflowShape(t2.state, toBranch);
    DriveUnfold(g, step, toBranch, Writer, t, fuel);
    DriveUnfold(g, step, toBranch, Reviewer, t1, fuel - 1);
  }

  /** The state obtained by merging `updates` into `s0` in order. */
  function Replay(s0: Record, updates: seq<Update>): Record
    decreases |updates|
  {
    if updates == [] then s0
    else Merge(Replay(s0, updates[..|updates| - 1]), updates[|updates| - 1])
  }

  /** All messages of `updates`, in order. */
  function Flatten(updates: seq<Update>): seq<Message>
    decreases |updates|
  {
    if updates == [] then []
    else Flatten(updates[..|updates| - 1]) + updates[|updates| - 1].messages
  }

  /** Replaying only appends messages and never changes the query. */
  lemma {:induction false} ReplayMessages(s0: Record, updates: seq<Update>)
    ensures Replay(s0, updates).messages == s0.messages + Flatten(updates)
    ensures Replay(s0, updates).query == s0.query
    decreases |updates|
  {
    if updates != [] {
      ReplayMessages(s0, updates[..|updates| - 1]);
    }
  }

  /** Appending more updates extends the flattened messages. */
  lemma {:induction false} FlattenPrefix(us: seq<Update>, vs: seq<Update>)
    ensures |Flatten(us)| <= |Flatten(us + vs)|
    ensures Flatten(us + vs)[..|Flatten(us)|] == Flatten(us)
    decreases |vs|
  {
    if vs == [] {
      assert us + vs == us;
    } else {
      var ws := us + vs;
      assert ws[..|ws| - 1] == us + vs[..|vs| - 1];
      FlattenPrefix(us, vs[..|vs| - 1]);
    }
  }

  /** When every update carries exactly one message, there are as many
      messages as updates. */
  lemma {:induction false} FlattenOnePerUpdate(updates: seq<Update>)
    requires forall i :: 0 <= i < |updates| ==> |updates[i].messages| == 1
    ensures |Flatten(updates)| == |updates|
    decreases |updates|
  {
    if updates != [] {
      FlattenOnePerUpdate(updates[..|updates| - 1]);
    }
  }

  /** A run only extends its trace: the state stays the replay of the
      updates, the nodes run so far and their updates are kept as a prefix,
      one update is recorded per node run, and no more nodes run than the
      budget allows. */
  lemma {:induction false} DriveExtends(g: Graph, step: (Node, Record) -> Result<Update, string>,
                                        toBranch: Record -> bool, node: Node, t: Trace, fuel: nat, s0: Record)
    requires t.state == Replay(s0, t.updates) && |t.visited| == |t.updates|
    ensures var h := Drive(g, step, toBranch, node, t, fuel);
      && h.trace.state == Replay(s0, h.trace.updates)
      && |h.trace.visited| == |h.trace.updates|
      && |t.visited| <= |h.trace.visited|
      && h.trace.visited[..|t.visited|] == t.visited
      && h.trace.updates[..|t.updates|] == t.updates
      && |h.trace.visited| <= |t.visited| + fuel
    decreases fuel
  {
    if fuel > 0 && step(node, t.state).Success? {
      var u := step(node, t.state).value;
      var t' := Trace(Merge(t.state, u), t.visited + [node], t.updates + [u]);
      assert (t.updates + [u])[..|t.updates|] == t.updates;
      assert t'.state == Replay(s0, t'.updates);
      var next := Successor(g, node, t'.state, toBranch);
      if next.Some? {
        DriveExtends(g, step, toBranch, next.value, t', fuel - 1, s0);
        var h := Drive(g, step, toBranch, next.value, t', fuel - 1);
        assert h.trace.visited[..|t.visited|] == h.trace.visited[..|t'.visited|][..|t.visited|];
        assert h.trace.updates[..|t.updates|] == h.trace.updates[..|t'.updates|][..|t.updates|];
      }
    }
  }

  /** A run whose state keeps an invariant that every node preserves
      without raising, and under which the conditional edge always turns
      back, never reaches `END`: it only stops when the budget runs out. */
  lemma {:induction false} NeverFinishes(g: Graph, step: (Node, Record) -> Result<Update, string>,
                                         toBranch: Record -> bool, inv: Record -> bool,
                                         node: Node, t: Trace, fuel: nat)
    requires inv(t.state)
    requires forall n, s :: inv(s) ==> step(n, s).Success? && inv(Merge(s, step(n, s).value))
    requires forall s :: inv(s) ==> toBranch(s)
    requires forall n: Node :: n in g.edges || n == g.branchFrom
    ensures Drive(g, step, toBranch, node, t, fuel).OutOfFuel?
    decreases fuel
  {
    if fuel > 0 {
      var u := step(node, t.state).value;
      var t' := Trace(Merge(t.state, u), t.visited + [node], t.updates + [u]);
      assert inv(t'.state);
      var next := Successor(g, node, t'.state, toBranch);
      assert next.Some?;
      NeverFinishes(g, step, toBranch, inv, next.value, t', fuel - 1);
    }
  }
}
