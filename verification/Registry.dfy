/**
 Registry: the index of core/src/upstream/registry.rs. Groups are found by model name (or alias)
 and protocol, provider nodes by provider name. Writers replace the whole snapshot under a lock.
 */
module Registry {
  import opened Options
  import Admission
  import Upstreams

  type Protocol = Upstreams.ApiCompatibility

  /** A node of a group: its credential's name, its protocol, and the rest of it. */
  datatype Node = Node(providerId: string, api: Protocol, profile: string)

  datatype Group = Group(
    modelId: string,
    aliases: seq<string>,
    nodes: seq<Node>,
    limits: Admission.ModelLimits,
    capacity: Admission.Capacity)

  datatype Snapshot = Snapshot(groups: map<string, Group>, modelIds: set<string>, providers: map<string, Node>)

  const EMPTY: Snapshot := Snapshot(map[], {}, map[])

  function Name(p: Protocol): string {
    match p
    case OpenAi => "openai"
    case Anthropic => "anthropic"
    case Native => "native"
  }

  const NUL: char := '\0'

  function GroupKey(model: string, protocol: string): string {
    model + [NUL] + protocol
  }

  function ProtocolOf(g: Group): string {
    if g.nodes == [] then "openai" else Name(g.nodes[0].api)
  }

  lemma NamesHaveNoNul(p: Protocol)
    ensures NUL !in Name(p)
  {
  }

  lemma NamesDiffer(p: Protocol, q: Protocol)
    ensures Name(p) == Name(q) <==> p == q
  {
    assert "openai"[0] != "native"[0] && "openai"[0] != "anthropic"[0] && "native"[0] != "anthropic"[0];
  }

  /** Keys tell model and protocol apart, even for model names that hold a NUL. */
  lemma KeysAreInjective(m: string, p: string, n: string, q: string)
    requires NUL !in p && NUL !in q && GroupKey(m, p) == GroupKey(n, q)
    ensures m == n && p == q
  {
    var k := GroupKey(m, p);
    assert k[|m|] == NUL && k[|n|] == NUL;
    forall i | |m| < i < |k|
      ensures k[i] != NUL
    {
      assert k[i] == p[i - |m| - 1];
    }
    forall i | |n| < i < |k|
      ensures k[i] != NUL
    {
      assert k[i] == q[i - |n| - 1];
    }
    assert m == k[..|m|] && n == k[..|n|];
    assert p == k[|m| + 1..] && q == k[|n| + 1..];
  }

  // ---- One registration ----

  /** The names under which a group is found. */
  predicate Serves(g: Group, model: string) {
    model == g.modelId || model in g.aliases
  }

  function WithNames(groups: map<string, Group>, g: Group, names: seq<string>): map<string, Group> {
    if names == [] then groups
    else WithNames(groups, g, names[..|names| - 1])[GroupKey(names[|names| - 1], ProtocolOf(g)) := g]
  }

  /** A provider already known keeps its node. */
  function WithNodes(providers: map<string, Node>, nodes: seq<Node>): map<string, Node> {
    if nodes == [] then providers
    else
      var before, n := WithNodes(providers, nodes[..|nodes| - 1]), nodes[|nodes| - 1];
      if n.providerId in before then before else before[n.providerId := n]
  }

  function Registered(s: Snapshot, g: Group): Snapshot {
    Snapshot(WithNames(s.groups, g, [g.modelId] + g.aliases), s.modelIds + {g.modelId}, WithNodes(s.providers, g.nodes))
  }

  function RegisteredAll(s: Snapshot, gs: seq<Group>): Snapshot {
    if gs == [] then s else Registered(RegisteredAll(s, gs[..|gs| - 1]), gs[|gs| - 1])
  }

  // ---- What the index answers ----

  /** The last group that serves the model with the protocol. */
  function LastServing(gs: seq<Group>, model: string, protocol: string): Option<Group> {
    if gs == [] then None
    else
      var g := gs[|gs| - 1];
      if Serves(g, model) && ProtocolOf(g) == protocol then Some(g) else LastServing(gs[..|gs| - 1], model, protocol)
  }

  /** The first node of a provider. */
  function FirstNode(nodes: seq<Node>, providerId: string): Option<Node> {
    if nodes == [] then None
    else if nodes[0].providerId == providerId then Some(nodes[0])
    else FirstNode(nodes[1..], providerId)
  }

  function NodesOf(gs: seq<Group>): seq<Node> {
    if gs == [] then [] else NodesOf(gs[..|gs| - 1]) + gs[|gs| - 1].nodes
  }

  function Lookup<T>(m: map<string, T>, k: string): Option<T> {
    if k in m then Some(m[k]) else None
  }

  lemma ProtocolHasNoNul(g: Group)
    ensures NUL !in ProtocolOf(g)
  {
    if g.nodes != [] {
      NamesHaveNoNul(g.nodes[0].api);
    }
  }

  lemma {:induction false} NamesAnswer(
      groups: map<string, Group>, g: Group, names: seq<string>, model: string, protocol: string)
    requires NUL !in protocol
    ensures Lookup(WithNames(groups, g, names), GroupKey(model, protocol)) ==
            if model in names && ProtocolOf(g) == protocol then Some(g) else Lookup(groups, GroupKey(model, protocol))
  {
    hide GroupKey, ProtocolOf;
    if names != [] {
      var before, last := names[..|names| - 1], names[|names| - 1];
      NamesAnswer(groups, g, before, model, protocol);
      ProtocolHasNoNul(g);
      if GroupKey(last, ProtocolOf(g)) == GroupKey(model, protocol) {
        KeysAreInjective(last, ProtocolOf(g), model, protocol);
      }
      assert names == before + [last];
    }
  }

  lemma FirstNodeConcat(a: seq<Node>, b: seq<Node>, id: string)
    ensures FirstNode(a + b, id) == if FirstNode(a, id).Some? then FirstNode(a, id) else FirstNode(b, id)
  {
    if a == [] {
      assert a + b == b;
    } else {
      FirstNodeConcat(a[1..], b, id);
      assert (a + b)[1..] == a[1..] + b;
    }
  }

  lemma {:induction false} NodesAnswer(providers: map<string, Node>, nodes: seq<Node>, id: string)
    ensures Lookup(WithNodes(providers, nodes), id) ==
            if id in providers then Some(providers[id]) else FirstNode(nodes, id)
  {
    if nodes != [] {
      var before, last := nodes[..|nodes| - 1], nodes[|nodes| - 1];
      NodesAnswer(providers, before, id);
      FirstNodeConcat(before, [last], id);
      assert nodes == before + [last];
    }
  }

  /**
   What an index built from nothing answers: for each name and protocol the last group registered
   for them, for each provider its first node, and the names of all models.
   */
  lemma {:induction false} IndexAnswers(gs: seq<Group>, model: string, p: Protocol, providerId: string)
    ensures var s := RegisteredAll(EMPTY, gs);
            && Lookup(s.groups, GroupKey(model, Name(p))) == LastServing(gs, model, Name(p))
            && Lookup(s.providers, providerId) == FirstNode(NodesOf(gs), providerId)
            && (model in s.modelIds <==> exists i :: 0 <= i < |gs| && gs[i].modelId == model)
  {
    hide GroupKey, ProtocolOf, Name, WithNames, WithNodes;
    if gs != [] {
      var before, g := gs[..|gs| - 1], gs[|gs| - 1];
      var s := RegisteredAll(EMPTY, before);
      IndexAnswers(before, model, p, providerId);
      NamesHaveNoNul(p);
      NamesAnswer(s.groups, g, [g.modelId] + g.aliases, model, Name(p));
      NodesAnswer(s.providers, g.nodes, providerId);
      FirstNodeConcat(NodesOf(before), g.nodes, providerId);
      if exists i :: 0 <= i < |gs| && gs[i].modelId == model {
        var i :| 0 <= i < |gs| && gs[i].modelId == model;
        assert i < |before| ==> before[i].modelId == model;
      }
    }
  }

  /** Registering a group leaves what is found under another protocol as it was, for every model. */
  lemma ProtocolsAreApart(s: Snapshot, g: Group, model: string, p: Protocol)
    requires g.nodes != [] && g.nodes[0].api != p
    ensures Lookup(Registered(s, g).groups, GroupKey(model, Name(p))) == Lookup(s.groups, GroupKey(model, Name(p)))
  {
    hide GroupKey, Name, WithNames;
    NamesHaveNoNul(p);
    NamesDiffer(g.nodes[0].api, p);
    NamesAnswer(s.groups, g, [g.modelId] + g.aliases, model, Name(p));
  }

  // ---- Lookups that try both protocols ----

  const UNLIMITED: Admission.ModelLimits := Admission.ModelLimits(None, None, None, None)

  /** The limits of the OpenAI group of a model, or else those of its Anthropic group. */
  function RateLimits(s: Snapshot, model: string): Admission.ModelLimits {
    var openai := Lookup(s.groups, GroupKey(model, "openai"));
    var anthropic := Lookup(s.groups, GroupKey(model, "anthropic"));
    if openai.Some? then openai.value.limits else if anthropic.Some? then anthropic.value.limits else UNLIMITED
  }

  /** A model is limited as the group registered last for it says; one with native groups only is not limited. */
  lemma RateLimitsOfIndex(gs: seq<Group>, model: string)
    ensures RateLimits(RegisteredAll(EMPTY, gs), model) ==
            var openai := LastServing(gs, model, "openai");
            var anthropic := LastServing(gs, model, "anthropic");
            if openai.Some? then openai.value.limits else if anthropic.Some? then anthropic.value.limits else UNLIMITED
  {
    hide LastServing, RegisteredAll, GroupKey;
    IndexAnswers(gs, model, Upstreams.OpenAi, "");
    IndexAnswers(gs, model, Upstreams.Anthropic, "");
  }

  // ---- The registry as an object ----

  class UpstreamRegistry {
    var snapshot: Snapshot

    constructor ()
      ensures snapshot == EMPTY
    {
      snapshot := EMPTY;
    }

    /** Adds one group to copies of the maps, then swaps the snapshot. */
    method Register(g: Group)
      modifies this
      ensures snapshot == Registered(old(snapshot), g)
    {
      hide GroupKey, ProtocolOf;
      var protocol := ProtocolOf(g);
      var groups := InsertNames(snapshot.groups, g, protocol);
      var providers := InsertNodes(snapshot.providers, g.nodes);
      snapshot := Snapshot(groups, snapshot.modelIds + {g.modelId}, providers);
    }

    /** Builds the maps of all groups, then the providers of all groups, then swaps the snapshot. */
    method ReloadAll(gs: seq<Group>)
      modifies this
      ensures snapshot == RegisteredAll(EMPTY, gs)
    {
      hide GroupKey, ProtocolOf, WithNames, WithNodes;
      var groups: map<string, Group> := map[];
      var modelIds: set<string> := {};
      for i := 0 to |gs|
        invariant groups == RegisteredAll(EMPTY, gs[..i]).groups && modelIds == RegisteredAll(EMPTY, gs[..i]).modelIds
      {
        assert gs[..i + 1][..i] == gs[..i];
        groups := InsertNames(groups, gs[i], ProtocolOf(gs[i]));
        modelIds := modelIds + {gs[i].modelId};
      }
      var providers := BuildProviderMap(gs);
      assert gs[..|gs|] == gs;
      snapshot := Snapshot(groups, modelIds, providers);
    }
  }

  method InsertNames(groups: map<string, Group>, g: Group, protocol: string) returns (more: map<string, Group>)
    requires protocol == ProtocolOf(g)
    ensures more == WithNames(groups, g, [g.modelId] + g.aliases)
  {
    hide GroupKey, ProtocolOf;
    ghost var names := [g.modelId] + g.aliases;
    more := groups[GroupKey(g.modelId, protocol) := g];
    assert names[..1] == [g.modelId] && [g.modelId][..0] == [];
    for i := 0 to |g.aliases|
      invariant more == WithNames(groups, g, names[..i + 1])
    {
      assert names[..i + 2][..i + 1] == names[..i + 1];
      more := more[GroupKey(g.aliases[i], protocol) := g];
    }
    assert names[..|g.aliases| + 1] == names;
  }

  method InsertNodes(providers: map<string, Node>, nodes: seq<Node>) returns (more: map<string, Node>)
    ensures more == WithNodes(providers, nodes)
  {
    more := providers;
    for i := 0 to |nodes|
      invariant more == WithNodes(providers, nodes[..i])
    {
      assert nodes[..i + 1][..i] == nodes[..i];
      if nodes[i].providerId !in more {
        more := more[nodes[i].providerId := nodes[i]];
      }
    }
    assert nodes[..|nodes|] == nodes;
  }

  method BuildProviderMap(gs: seq<Group>) returns (providers: map<string, Node>)
    ensures providers == RegisteredAll(EMPTY, gs).providers
  {
    hide WithNames, WithNodes;
    providers := map[];
    for i := 0 to |gs|
      invariant providers == RegisteredAll(EMPTY, gs[..i]).providers
    {
      assert gs[..i + 1][..i] == gs[..i];
      providers := InsertNodes(providers, gs[i].nodes);
    }
    assert gs[..|gs|] == gs;
  }
}
