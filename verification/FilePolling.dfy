/**
 FilePolling: the pollers that watch a configuration file (server/src/server.rs). Unlike the database
 pollers they note the change before a load that may fail, and never come back to it. A version is
 the number of edits so far; every edit changes the file's modification time.
 */
module FilePolling {

  /** The file's version, the version in the cache, and the version last noticed. */
  datatype State = State(version: nat, cached: nat, lastMod: nat, loading: bool)

  datatype Event = Edit | Tick | Load(ok: bool)

  /** After the startup load of `cached`, the poller first looks at the file when it is at `version`. */
  function Started(cached: nat, version: nat): State {
    State(version, cached, version, false)
  }

  function Step(s: State, e: Event): State {
    match e
    case Edit => s.(version := s.version + 1)
    case Tick => if s.loading || s.version == s.lastMod then s else s.(lastMod := s.version, loading := true)
    case Load(ok) =>
      if !s.loading then s else s.(cached := if ok then s.version else s.cached, loading := false)
  }

  function Run(s: State, es: seq<Event>): State {
    if es == [] then s else Step(Run(s, es[..|es| - 1]), es[|es| - 1])
  }

  predicate Fresh(s: State) {
    s.cached == s.version
  }

  /** Once a change has been noticed, nothing happens until the next edit, whatever the cache holds. */
  lemma {:induction false} NoticedIsNotRetried(s: State, more: seq<Event>)
    requires !s.loading && s.lastMod == s.version && Edit !in more
    ensures Run(s, more) == s
  {
    if more != [] {
      var before, e := more[..|more| - 1], more[|more| - 1];
      assert e in more && forall x :: x in before ==> x in more;
      NoticedIsNotRetried(s, before);
    }
  }

  /** The poller still has something to do: a load under way, or a change it has not noticed. */
  predicate Pending(s: State) {
    s.loading || s.lastMod != s.version
  }

  /** Without a further edit, some polls and loads would make the cache current. */
  ghost predicate CanRecover(s: State) {
    exists more :: Edit !in more && Fresh(Run(s, more))
  }

  lemma RunOne(s: State, e: Event)
    ensures Run(s, [e]) == Step(s, e)
  {
    assert [e][..0] == [];
  }

  lemma RunTwo(s: State, e: Event, f: Event)
    ensures Run(s, [e, f]) == Step(Step(s, e), f)
  {
    assert [e, f][..1] == [e];
    RunOne(s, e);
  }

  /**
   Exactly when a stale cache can be made current again without touching the file: while a load is
   under way or the change is unnoticed. A tick clears the second before the load that it starts may
   fail, so a stale cache with neither is stale until the next edit.
   */
  lemma RecoversIffPending(s: State)
    ensures CanRecover(s) <==> Fresh(s) || Pending(s)
  {
    var none: seq<Event> := [];
    if Fresh(s) {
      assert Edit !in none && Fresh(Run(s, none));
    } else if s.loading {
      RunOne(s, Load(true));
      assert Edit !in [Load(true)] && Fresh(Run(s, [Load(true)]));
    } else if s.lastMod != s.version {
      RunTwo(s, Tick, Load(true));
      assert Edit !in [Tick, Load(true)] && Fresh(Run(s, [Tick, Load(true)]));
    } else {
      forall more: seq<Event> | Edit !in more
        ensures !Fresh(Run(s, more))
      {
        NoticedIsNotRetried(s, more);
      }
    }
  }

  /** A failed load always leaves nothing pending, unless the file changed while it ran. */
  lemma FailedLoadPendsIffEdited(s: State)
    requires s.loading && !Fresh(s)
    ensures CanRecover(Step(s, Load(false))) <==> s.lastMod != s.version
  {
    hide CanRecover;
    RecoversIffPending(Step(s, Load(false)));
  }

  /** One edit and one failed load: the cache stays stale through any number of polls. */
  lemma FailedLoadStaysStale(version: nat, more: seq<Event>)
    requires Edit !in more
    ensures var s := Run(Started(version, version), [Edit, Tick, Load(false)]);
            s.lastMod == s.version && !Fresh(s) && Run(s, more) == s
  {
    var es := [Edit, Tick, Load(false)];
    assert es[..2] == [Edit, Tick];
    RunTwo(Started(version, version), Edit, Tick);
    NoticedIsNotRetried(Run(Started(version, version), es), more);
  }

  /** So does an edit between the startup load and the first look at the file. */
  lemma EarlyEditStaysStale(cached: nat, version: nat, more: seq<Event>)
    requires cached < version && Edit !in more
    ensures !Fresh(Run(Started(cached, version), more))
  {
    NoticedIsNotRetried(Started(cached, version), more);
  }
}
