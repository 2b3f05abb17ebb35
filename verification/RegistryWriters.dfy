/**
 RegistryWriters: `register` and `reload_all` of core/src/upstream/registry.rs called by many
 threads. A step takes the write lock, loads the snapshot, or stores the new one and unlocks.
 Readers load whatever snapshot is stored.
 */
module RegistryWriters {
  import opened Registry

  datatype Write = RegisterOne(g: Group) | Reload(gs: seq<Group>)

  function Applied(s: Snapshot, w: Write): Snapshot {
    match w
    case RegisterOne(g) => Registered(s, g)
    case Reload(gs) => RegisteredAll(EMPTY, gs)
  }

  datatype Phase = Waiting | Locked | Loaded(copy: Snapshot) | Finished

  datatype Writer = Writer(write: Write, phase: Phase)

  /** The stored snapshot, the calls, and the calls that stored, in order. */
  datatype State = State(snapshot: Snapshot, writers: map<nat, Writer>, log: seq<nat>)

  const NEW: State := State(EMPTY, map[], [])

  datatype Event = Call(id: nat, write: Write) | Next(id: nat)

  predicate Inside(w: Writer) {
    w.phase.Locked? || w.phase.Loaded?
  }

  predicate Free(writers: map<nat, Writer>) {
    forall id :: id in writers ==> !Inside(writers[id])
  }

  function Step(s: State, e: Event): State {
    match e
    case Call(id, w) => if id in s.writers then s else s.(writers := s.writers[id := Writer(w, Waiting)])
    case Next(id) => if id in s.writers then Act(s, id) else s
  }

  function Act(s: State, id: nat): State
    requires id in s.writers
  {
    var w := s.writers[id].write;
    match s.writers[id].phase
    case Waiting => if Free(s.writers) then s.(writers := s.writers[id := Writer(w, Locked)]) else s
    case Locked => s.(writers := s.writers[id := Writer(w, Loaded(s.snapshot))])
    case Loaded(copy) => State(Applied(copy, w), s.writers[id := Writer(w, Finished)], s.log + [id])
    case Finished => s
  }

  function Run(es: seq<Event>): State {
    if es == [] then NEW else Step(Run(es[..|es| - 1]), es[|es| - 1])
  }

  /** All logged writes, one after another. */
  function Replay(writers: map<nat, Writer>, log: seq<nat>): Snapshot
    requires forall id :: id in log ==> id in writers
  {
    if log == [] then EMPTY
    else Applied(Replay(writers, log[..|log| - 1]), writers[log[|log| - 1]].write)
  }

  ghost predicate Sound(s: State) {
    && (forall id :: id in s.log <==> id in s.writers && s.writers[id].phase.Finished?)
    && (forall i, j :: 0 <= i < j < |s.log| ==> s.log[i] != s.log[j])
    && s.snapshot == Replay(s.writers, s.log)
    && (forall i, j :: i in s.writers && j in s.writers && Inside(s.writers[i]) && Inside(s.writers[j]) ==> i == j)
    && (forall id :: id in s.writers && s.writers[id].phase.Loaded? ==> s.writers[id].phase.copy == s.snapshot)
  }

  /** Phases do not matter to a replay. */
  lemma {:induction false} ReplayKeeps(writers: map<nat, Writer>, more: map<nat, Writer>, log: seq<nat>)
    requires forall id :: id in log ==> id in writers && id in more && writers[id].write == more[id].write
    ensures Replay(writers, log) == Replay(more, log)
  {
    if log != [] {
      ReplayKeeps(writers, more, log[..|log| - 1]);
    }
  }

  lemma StepKeepsSound(s: State, e: Event)
    requires Sound(s)
    ensures Sound(Step(s, e))
  {
    hide Applied, Replay;
    var t := Step(s, e);
    ReplayKeeps(s.writers, t.writers, s.log);
    if e.Next? && e.id in s.writers && s.writers[e.id].phase.Loaded? {
      ReplaySnoc(t.writers, s.log, e.id);
    }
  }

  lemma ReplaySnoc(writers: map<nat, Writer>, log: seq<nat>, id: nat)
    requires id in writers && forall j :: j in log ==> j in writers
    ensures Replay(writers, log + [id]) == Applied(Replay(writers, log), writers[id].write)
  {
    assert (log + [id])[..|log|] == log;
  }

  /**
   Writers are serialised: after any interleaving the snapshot is what the finished writes make one
   after another, each applied exactly once, in the order in which they stored.
   */
  lemma {:induction false} WritesAreSerial(es: seq<Event>)
    ensures Sound(Run(es))
  {
    hide Step;
    if es != [] {
      WritesAreSerial(es[..|es| - 1]);
      StepKeepsSound(Run(es[..|es| - 1]), es[|es| - 1]);
    }
  }

  ghost predicate OnlyRegisters(s: State) {
    forall id :: id in s.writers ==> s.writers[id].write.RegisterOne?
  }

  function Groups(writers: map<nat, Writer>, log: seq<nat>): (gs: seq<Group>)
    requires forall id :: id in log ==> id in writers && writers[id].write.RegisterOne?
    ensures |gs| == |log| && forall i :: 0 <= i < |log| ==> gs[i] == writers[log[i]].write.g
  {
    if log == [] then [] else Groups(writers, log[..|log| - 1]) + [writers[log[|log| - 1]].write.g]
  }

  lemma {:induction false} ReplayRegisters(writers: map<nat, Writer>, log: seq<nat>)
    requires forall id :: id in log ==> id in writers && writers[id].write.RegisterOne?
    ensures Replay(writers, log) == RegisteredAll(EMPTY, Groups(writers, log))
  {
    hide Registered;
    if log != [] {
      ReplayRegisters(writers, log[..|log| - 1]);
      var gs := Groups(writers, log);
      assert gs[..|gs| - 1] == Groups(writers, log[..|log| - 1]);
    }
  }

  lemma LogOf(s: State, id: nat)
    requires Sound(s) && OnlyRegisters(s) && id in s.writers && s.writers[id].phase.Finished?
    ensures id in s.log && forall j :: j in s.log ==> j in s.writers && s.writers[j].write.RegisterOne?
    ensures s.snapshot == RegisteredAll(EMPTY, Groups(s.writers, s.log))
  {
    hide RegisteredAll, Replay;
    ReplayRegisters(s.writers, s.log);
  }

  /**
   No lost update: when all calls are registrations, the model of every finished one is in the index,
   and is answered by the last of the finished groups that serve it.
   */
  lemma NoUpdateIsLost(es: seq<Event>, id: nat, p: Protocol)
    requires OnlyRegisters(Run(es)) && id in Run(es).writers && Run(es).writers[id].phase.Finished?
    ensures var s := Run(es); var g := s.writers[id].write.g;
            && g.modelId in s.snapshot.modelIds
            && (forall j :: j in s.log ==> j in s.writers && s.writers[j].write.RegisterOne?)
            && Lookup(s.snapshot.groups, GroupKey(g.modelId, Name(p))) ==
               LastServing(Groups(s.writers, s.log), g.modelId, Name(p))
  {
    hide Run, RegisteredAll, LastServing, GroupKey, Name, Sound, Replay;
    WritesAreSerial(es);
    var s := Run(es);
    var g := s.writers[id].write.g;
    LogOf(s, id);
    var gs := Groups(s.writers, s.log);
    IndexAnswers(gs, g.modelId, p, "");
    var i :| 0 <= i < |s.log| && s.log[i] == id;
    assert gs[i].modelId == g.modelId;
  }
}
