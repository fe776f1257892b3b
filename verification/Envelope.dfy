/** The data passed between nodes, and the successor choice it drives. */
module Envelopes {
  import opened Sequences
  import opened Graphs

  datatype Value =
    | Null
    | Text(text: string)
    | Number(number: int)
    | Decision(targets: seq<string>)
    | Object(fields: map<string, Value>)

  type Vars = map<string, Value>

  datatype NodeError = NodeError(nodeID: string, attempt: nat)

  datatype Envelope = Envelope(vars: Vars, errors: seq<NodeError>)

  const GATE_REDIRECT := "__gate_redirect__"

  function DecisionKey(id: string): string {
    id + "_decision"
  }

  /** The members of `successors` that a decision names, in graph order. */
  function Selected(successors: seq<string>, targets: seq<string>): (kept: seq<string>)
    ensures forall id :: id in kept <==> id in successors && id in targets
  {
    if successors == [] then []
    else
      var last := |successors| - 1;
      var kept := Selected(successors[..last], targets);
      if successors[last] in targets then kept + [successors[last]] else kept
  }

  /** Which nodes follow, what the envelope looks like afterwards, and the targets of the decision announced, if any. */
  datatype Routing = Routing(targets: seq<string>, env: Envelope, announced: Option<seq<string>>)

  /** A gate's redirect wins, then a router's stored decision; otherwise every graph successor follows. */
  function Route(g: Graph, node: Node, env: Envelope): (r: Routing)
    ensures forall id :: id in r.targets ==> id in g.Successors(node.id)
  {
    var successors := g.Successors(node.id);
    var everyone := Routing(successors, env, None);
    if successors == [] then everyone
    else if GATE_REDIRECT in env.vars && env.vars[GATE_REDIRECT].Text? && env.vars[GATE_REDIRECT].text != ""
            && env.vars[GATE_REDIRECT].text in successors then
      var redirect := [env.vars[GATE_REDIRECT].text];
      Routing(redirect, env.(vars := env.vars[GATE_REDIRECT := Null]), Some(redirect))
    else if !node.kind.Router? then everyone
    else if DecisionKey(node.id) !in env.vars || !env.vars[DecisionKey(node.id)].Decision? then everyone
    else
      var named := env.vars[DecisionKey(node.id)].targets;
      Routing(Selected(successors, named), env, Some(named))
  }

  /** A gate names one of the node's successors. */
  ghost predicate Redirects(g: Graph, node: Node, env: Envelope) {
    && "__gate_redirect__" in env.vars && env.vars["__gate_redirect__"].Text?
    && env.vars["__gate_redirect__"].text != "" && env.vars["__gate_redirect__"].text in g.Successors(node.id)
  }

  /** A router has stored its decision. */
  ghost predicate Decides(node: Node, env: Envelope) {
    node.kind.Router? && node.id + "_decision" in env.vars && env.vars[node.id + "_decision"].Decision?
  }

  /** The positions, in order, of exactly the listed elements that are wanted. */
  ghost predicate Picks(all: seq<string>, wanted: seq<string>, at: seq<nat>) {
    && (forall i, j :: 0 <= i < j < |at| ==> at[i] < at[j])
    && (forall k: nat :: k in at <==> k < |all| && all[k] in wanted)
  }

  /** The kept elements are those at the positions picked. */
  lemma {:induction false} SelectedPicks(all: seq<string>, wanted: seq<string>) returns (at: seq<nat>)
    ensures Picks(all, wanted, at) && |Selected(all, wanted)| == |at|
    ensures forall i :: 0 <= i < |at| ==> at[i] < |all| && Selected(all, wanted)[i] == all[at[i]]
  {
    if all == [] {
      at := [];
    } else {
      var last := |all| - 1;
      at := SelectedPicks(all[..last], wanted);
      forall i | 0 <= i < |at|
        ensures at[i] < last
      {
        assert at[i] in at;
      }
      if all[last] in wanted {
        at := at + [last];
      }
    }
  }

  /** A valid redirect: that one target follows, and the hint alone is cleared. */
  lemma RedirectWins(g: Graph, node: Node, env: Envelope)
    requires Redirects(g, node, env)
    ensures var r, target := Route(g, node, env), env.vars["__gate_redirect__"].text;
            && r.targets == [target] && r.announced == Some([target])
            && r.env.errors == env.errors && r.env.vars.Keys == env.vars.Keys
            && r.env.vars["__gate_redirect__"] == Null
            && forall k :: k in env.vars && k != "__gate_redirect__" ==> r.env.vars[k] == env.vars[k]
  {
  }

  /** A stored decision: exactly the successors it names follow, in graph order; nothing else changes. */
  lemma DecisionFilters(g: Graph, node: Node, env: Envelope) returns (at: seq<nat>)
    requires !Redirects(g, node, env) && Decides(node, env) && g.Successors(node.id) != []
    ensures var r, named := Route(g, node, env), env.vars[node.id + "_decision"].targets;
            && Picks(g.Successors(node.id), named, at) && |r.targets| == |at|
            && (forall i :: 0 <= i < |at| ==> at[i] < |g.Successors(node.id)| && r.targets[i] == g.Successors(node.id)[at[i]])
            && r.announced == Some(named) && r.env == env
  {
    hide Selected, Picks;
    at := SelectedPicks(g.Successors(node.id), env.vars[node.id + "_decision"].targets);
  }

  /** In every other case all successors follow, in silence. */
  lemma OtherwiseAllFollow(g: Graph, node: Node, env: Envelope)
    requires !Redirects(g, node, env) && (Decides(node, env) ==> g.Successors(node.id) == [])
    ensures Route(g, node, env) == Routing(g.Successors(node.id), env, None)
  {
  }

  /** Only the hint of a redirect that was followed is cleared. */
  ghost predicate ClearsHint(g: Graph, node: Node, left: Envelope, env: Envelope) {
    if Redirects(g, node, left) then env == left.(vars := left.vars["__gate_redirect__" := Null]) else env == left
  }

  /** A followed redirect is the only target, a stored decision keeps the successors it names, otherwise all follow. */
  ghost predicate FollowedBy(g: Graph, node: Node, left: Envelope, targets: seq<string>) {
    var all := g.Successors(node.id);
    if Redirects(g, node, left) then targets == [left.vars["__gate_redirect__"].text]
    else if Decides(node, left) && all != [] then
      exists at ::
        && Picks(all, left.vars[node.id + "_decision"].targets, at) && |targets| == |at|
        && forall i :: 0 <= i < |at| ==> at[i] < |all| && targets[i] == all[at[i]]
    else targets == all
  }

  /** The routing, case by case. */
  lemma RouteFollows(g: Graph, node: Node, left: Envelope)
    ensures ClearsHint(g, node, left, Route(g, node, left).env) && FollowedBy(g, node, left, Route(g, node, left).targets)
  {
    if Redirects(g, node, left) {
      RedirectWins(g, node, left);
      assert Route(g, node, left).env.vars == left.vars["__gate_redirect__" := Null];
    } else if !Decides(node, left) || g.Successors(node.id) == [] {
      OtherwiseAllFollow(g, node, left);
    } else {
      var at := DecisionFilters(g, node, left);
    }
  }

  /** No gate asks for a redirect. */
  ghost predicate Unrouted(env: Envelope) {
    GATE_REDIRECT !in env.vars || !env.vars[GATE_REDIRECT].Text?
  }

  lemma UnroutedFollowsAll(g: Graph, node: Node, env: Envelope)
    requires Unrouted(env) && !node.kind.Router?
    ensures Route(g, node, env) == Routing(g.Successors(node.id), env, None)
  {
  }
}
