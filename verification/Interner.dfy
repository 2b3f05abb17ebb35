/**
 Interner: the capped string interner of core/src/observability/metrics.rs, called by many threads.
 A step is one atomic action of `intern_string`: the shared read, taking the map entry (which locks
 it for one string until the call lets go), the counter's add, the insert, the counter's undo.
 */
module Interner {

  const MAX_ENTRIES: nat := 4096

  datatype Thread =
    | Looking(s: string)
    | Entering(s: string)
    | Holding(s: string)
    | Granted(s: string)
    | Undoing(s: string)
    | Answered(s: string)
    | AnsweredOther(s: string)

  datatype State = State(entries: set<string>, count: int, threads: map<nat, Thread>)

  const NEW: State := State({}, 0, map[])

  datatype Event = Call(id: nat, s: string) | Next(id: nat)

  /** The thread has the entry of its string, which was vacant. */
  predicate HasEntry(t: Thread) {
    t.Holding? || t.Granted? || t.Undoing?
  }

  predicate Locked(threads: map<nat, Thread>, s: string) {
    exists id :: id in threads && HasEntry(threads[id]) && threads[id].s == s
  }

  /** One step of one thread; a thread waiting for an entry stays where it is. */
  function Act(s: State, id: nat): State
    requires id in s.threads
  {
    match s.threads[id]
    case Looking(x) => Goes(s, id, if x in s.entries then Answered(x) else Entering(x))
    case Entering(x) =>
      if Locked(s.threads, x) then s
      else Goes(s, id, if x in s.entries then Answered(x) else Holding(x))
    case Holding(x) => Goes(s, id, if s.count >= MAX_ENTRIES then Undoing(x) else Granted(x)).(count := s.count + 1)
    case Granted(x) => Goes(s, id, Answered(x)).(entries := s.entries + {x})
    case Undoing(x) => Goes(s, id, AnsweredOther(x)).(count := s.count - 1)
    case Answered(_) => s
    case AnsweredOther(_) => s
  }

  function Goes(s: State, id: nat, t: Thread): State {
    s.(threads := s.threads[id := t])
  }

  function Step(s: State, e: Event): State {
    match e
    case Call(id, x) => if id in s.threads then s else Goes(s, id, Looking(x))
    case Next(id) => if id in s.threads then Act(s, id) else s
  }

  function Run(es: seq<Event>): State {
    if es == [] then NEW else Step(Run(es[..|es| - 1]), es[|es| - 1])
  }

  function GrantedIds(threads: map<nat, Thread>): set<nat> {
    set id | id in threads && threads[id].Granted?
  }

  function UndoingIds(threads: map<nat, Thread>): set<nat> {
    set id | id in threads && threads[id].Undoing?
  }

  /** Slots taken: entries, and entries about to be inserted. */
  function Slots(s: State): nat {
    |s.entries| + |GrantedIds(s.threads)|
  }

  ghost predicate OneHolderEach(threads: map<nat, Thread>) {
    forall i, j :: i in threads && j in threads && i != j && HasEntry(threads[i]) && HasEntry(threads[j]) ==>
      threads[i].s != threads[j].s
  }

  /** What a thread's place says about its string. */
  ghost predicate Placed(s: State, t: Thread) {
    && (HasEntry(t) ==> t.s !in s.entries)
    && (t.Answered? ==> t.s in s.entries)
    && (t.Undoing? || t.AnsweredOther? ==> Slots(s) == MAX_ENTRIES)
    && (t.AnsweredOther? ==> t.s !in s.entries && !Claimed(s.threads, t.s))
  }

  /** The string is about to be inserted. */
  ghost predicate Claimed(threads: map<nat, Thread>, x: string) {
    exists id :: id in threads && threads[id] == Granted(x)
  }

  ghost predicate Sound(s: State) {
    && s.count == Slots(s) + |UndoingIds(s.threads)|
    && Slots(s) <= MAX_ENTRIES
    && OneHolderEach(s.threads)
    && (forall id :: id in s.threads ==> Placed(s, s.threads[id]))
  }

  lemma MovedGranted(m: map<nat, Thread>, id: nat, t: Thread)
    ensures |GrantedIds(m[id := t])| == |GrantedIds(m)|
              + (if t.Granted? then 1 else 0) - (if id in m && m[id].Granted? then 1 else 0)
  {
    assert GrantedIds(m[id := t]) == if t.Granted? then GrantedIds(m) + {id} else GrantedIds(m) - {id};
  }

  lemma MovedUndoing(m: map<nat, Thread>, id: nat, t: Thread)
    ensures |UndoingIds(m[id := t])| == |UndoingIds(m)|
              + (if t.Undoing? then 1 else 0) - (if id in m && m[id].Undoing? then 1 else 0)
  {
    assert UndoingIds(m[id := t]) == if t.Undoing? then UndoingIds(m) + {id} else UndoingIds(m) - {id};
  }

  /** The counter reaches the cap only when the slots do, however many claims are being undone. */
  lemma CapMeansFull(s: State)
    requires Sound(s) && s.count >= MAX_ENTRIES
    ensures Slots(s) == MAX_ENTRIES
  {
    if |UndoingIds(s.threads)| > 0 {
      var id :| id in UndoingIds(s.threads);
      assert Placed(s, s.threads[id]);
    }
  }

  /** A move that changes neither entries nor slots. */
  lemma MoveKeepsSound(s: State, id: nat, t: Thread, count: int)
    requires Sound(s)
    requires !t.Granted? && (id in s.threads ==> !s.threads[id].Granted?)
    requires var undoing := id in s.threads && s.threads[id].Undoing?;
             count == s.count + (if t.Undoing? then 1 else 0) - (if undoing then 1 else 0)
    requires HasEntry(t) ==>
               !Locked(s.threads, t.s) || (id in s.threads && HasEntry(s.threads[id]) && s.threads[id].s == t.s)
    requires Placed(s, t)
    ensures Sound(s.(threads := s.threads[id := t], count := count))
    ensures Slots(s.(threads := s.threads[id := t], count := count)) == Slots(s)
  {
    hide GrantedIds, UndoingIds;
    MovedGranted(s.threads, id, t);
    MovedUndoing(s.threads, id, t);
    forall x | Claimed(s.threads[id := t], x)
      ensures Claimed(s.threads, x)
    {
      var j :| j in s.threads[id := t] && s.threads[id := t][j] == Granted(x);
      assert j in s.threads && s.threads[j] == Granted(x);
    }
  }

  lemma GrantKeepsSound(s: State, id: nat)
    requires Sound(s) && id in s.threads && s.threads[id].Holding? && s.count < MAX_ENTRIES
    ensures Sound(Act(s, id)) && Slots(Act(s, id)) == Slots(s) + 1
  {
    hide GrantedIds, UndoingIds;
    var t := Granted(s.threads[id].s);
    MovedGranted(s.threads, id, t);
    MovedUndoing(s.threads, id, t);
    NobodyUndoes(s);
  }

  lemma NobodyUndoes(s: State)
    requires Sound(s) && s.count < MAX_ENTRIES
    ensures forall id :: id in s.threads ==> !s.threads[id].Undoing? && !s.threads[id].AnsweredOther?
  {
    hide GrantedIds, UndoingIds;
    forall id | id in s.threads
      ensures !s.threads[id].Undoing? && !s.threads[id].AnsweredOther?
    {
      assert Placed(s, s.threads[id]);
    }
  }

  lemma InsertKeepsSound(s: State, id: nat)
    requires Sound(s) && id in s.threads && s.threads[id].Granted?
    ensures Sound(Act(s, id)) && Slots(Act(s, id)) == Slots(s)
  {
    hide GrantedIds, UndoingIds;
    var x := s.threads[id].s;
    MovedGranted(s.threads, id, Answered(x));
    MovedUndoing(s.threads, id, Answered(x));
    assert Placed(s, s.threads[id]);
  }

  lemma ActKeepsSound(s: State, id: nat)
    requires Sound(s) && id in s.threads
    ensures Sound(Act(s, id)) && Slots(s) <= Slots(Act(s, id)) && s.entries <= Act(s, id).entries
  {
    hide GrantedIds, UndoingIds, Sound, Slots;
    assert Placed(s, s.threads[id]) by {
      PlacedOf(s, id);
    }
    match s.threads[id]
    case Looking(x) => MoveKeepsSound(s, id, if x in s.entries then Answered(x) else Entering(x), s.count);
    case Entering(x) =>
      if !Locked(s.threads, x) {
        MoveKeepsSound(s, id, if x in s.entries then Answered(x) else Holding(x), s.count);
      }
    case Holding(x) =>
      if s.count >= MAX_ENTRIES {
        CapMeansFull(s);
        MoveKeepsSound(s, id, Undoing(x), s.count + 1);
      } else {
        GrantKeepsSound(s, id);
      }
    case Granted(_) => InsertKeepsSound(s, id);
    case Undoing(x) =>
      HeldIsUnclaimed(s, id);
      MoveKeepsSound(s, id, AnsweredOther(x), s.count - 1);
    case Answered(_) =>
    case AnsweredOther(_) =>
  }

  lemma HeldIsUnclaimed(s: State, id: nat)
    requires Sound(s) && id in s.threads && s.threads[id].Undoing?
    ensures !Claimed(s.threads, s.threads[id].s)
  {
  }

  lemma PlacedOf(s: State, id: nat)
    requires Sound(s) && id in s.threads
    ensures Placed(s, s.threads[id])
  {
  }

  lemma StepKeepsSound(s: State, e: Event)
    requires Sound(s)
    ensures Sound(Step(s, e)) && Slots(s) <= Slots(Step(s, e)) && s.entries <= Step(s, e).entries
  {
    hide Sound, Slots, Act;
    match e
    case Call(id, x) =>
      if id !in s.threads {
        MoveKeepsSound(s, id, Looking(x), s.count);
      }
    case Next(id) =>
      if id in s.threads {
        ActKeepsSound(s, id);
      }
  }

  lemma {:induction false} RunIsSound(es: seq<Event>)
    ensures Sound(Run(es))
  {
    hide Sound, Step;
    if es == [] {
      NewIsSound();
    } else {
      RunIsSound(es[..|es| - 1]);
      StepKeepsSound(Run(es[..|es| - 1]), es[|es| - 1]);
    }
  }

  lemma NewIsSound()
    ensures Sound(NEW)
  {
    assert GrantedIds(NEW.threads) == {} && UndoingIds(NEW.threads) == {};
  }

  /**
   Under every interleaving: entries and granted claims never exceed the cap; a string is answered
   with itself only when it is interned; "other" is answered only when every slot was taken or
   granted, and then that string never gets in. The counter is the number of entries exactly when no
   claim is granted or being undone; until then it is ahead of it.
   */
  lemma NeverOverCap(es: seq<Event>, id: nat)
    ensures var s := Run(es);
            && |s.entries| + |GrantedIds(s.threads)| <= 4096
            && (id in s.threads && s.threads[id].Answered? ==> s.threads[id].s in s.entries)
            && (id in s.threads && s.threads[id].AnsweredOther? ==>
                  s.threads[id].s !in s.entries && !Claimed(s.threads, s.threads[id].s))
            && (id in s.threads && (s.threads[id].Undoing? || s.threads[id].AnsweredOther?) ==>
                  |s.entries| + |GrantedIds(s.threads)| == 4096)
            && s.count >= |s.entries|
            && (s.count == |s.entries| <==>
                  forall j :: j in s.threads ==> !s.threads[j].Granted? && !s.threads[j].Undoing?)
  {
    hide Run;
    RunIsSound(es);
    var s := Run(es);
    if id in s.threads {
      PlacedOf(s, id);
    }
    NobodyClaims(s.threads);
  }

  lemma NobodyClaims(threads: map<nat, Thread>)
    ensures |GrantedIds(threads)| + |UndoingIds(threads)| == 0 <==>
              forall j :: j in threads ==> !threads[j].Granted? && !threads[j].Undoing?
  {
    var granted, undoing := GrantedIds(threads), UndoingIds(threads);
    assert |granted| == 0 <==> granted == {};
    assert |undoing| == 0 <==> undoing == {};
    assert forall j :: j in threads ==> (j in granted <==> threads[j].Granted?);
    assert forall j :: j in threads ==> (j in undoing <==> threads[j].Undoing?);
  }

  lemma RunSnoc(es: seq<Event>, e: Event)
    ensures Run(es + [e]) == Step(Run(es), e)
  {
    assert (es + [e])[..|es|] == es;
  }

  /** A claim that is granted but not inserted: the counter is one ahead of an empty map. */
  lemma CounterRunsAhead()
    ensures Run([Call(0, "a"), Next(0), Next(0), Next(0)]).count == 1
    ensures Run([Call(0, "a"), Next(0), Next(0), Next(0)]).entries == {}
  {
    var one, two := [Call(0, "a")], [Call(0, "a"), Next(0)];
    var three := two + [Next(0)];
    RunSnoc([], Call(0, "a"));
    RunSnoc(one, Next(0));
    RunSnoc(two, Next(0));
    RunSnoc(three, Next(0));
    assert [] + [Call(0, "a")] == one && one + [Next(0)] == two;
    assert three + [Next(0)] == [Call(0, "a"), Next(0), Next(0), Next(0)];
  }

  /** The first call of a string that is answered "other" was refused at a moment when all slots were in use. */
  lemma RefusalMeansFull(es: seq<Event>, id: nat)
    requires id in Run(es).threads && Run(es).threads[id].Holding?
    ensures Act(Run(es), id).threads[id].Undoing? <==> Slots(Run(es)) == MAX_ENTRIES
    ensures Run(es).threads[id].s !in Run(es).entries
  {
    hide Run, GrantedIds, UndoingIds;
    RunIsSound(es);
    PlacedOf(Run(es), id);
    if Run(es).count >= MAX_ENTRIES {
      CapMeansFull(Run(es));
    }
  }

  // ---- One caller at a time ----

  class StringInterner {
    var entries: set<string>
    var count: nat

    predicate Valid()
      reads this
    {
      count == |entries| && count <= MAX_ENTRIES
    }

    constructor ()
      ensures Valid() && entries == {}
    {
      entries, count := {}, 0;
    }

    /** The string itself if it is or can be interned, otherwise "other"; the map never outgrows the cap. */
    method Intern(s: string) returns (name: string)
      requires Valid()
      modifies this
      ensures Valid()
      ensures s in old(entries) || |old(entries)| < MAX_ENTRIES ==> name == s && entries == old(entries) + {s}
      ensures s !in old(entries) && |old(entries)| == MAX_ENTRIES ==> name == "other" && entries == old(entries)
    {
      if s in entries {
        return s;
      }
      var prev := count;
      count := count + 1;
      if prev >= MAX_ENTRIES {
        count := count - 1;
        return "other";
      }
      entries := entries + {s};
      name := s;
    }
  }
}
