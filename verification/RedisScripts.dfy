/**
 RedisScripts: the Redis limiter as an object whose methods run the scripts. A call that does not
 reach Redis is allowed and changes nothing. Each call draws a new member id.
 */
module RedisScripts {
  import opened Windows
  import opened RedisLimiter
  import Decimals
  import opened MemoryLimiter

  class RedisRateLimiter {
    const window: nat
    var rpmSets: map<Key, Zset>
    var tpmSets: map<Key, Zset>
    ghost const ids: Ids
    ghost var drawn: nat
    ghost var ledger: Ledger
    ghost var clock: int

    ghost function View(): RedisLimiter.State
      reads this
    {
      RedisLimiter.State(rpmSets, tpmSets)
    }

    /** The sorted sets stand for everything counted up to `clock`. */
    ghost predicate Valid()
      reads this
    {
      && RedisLimiter.StandsFor(window, View(), ledger, clock, ids, drawn)
      && LedgerOrdered(ledger, clock) && GoodIds(ids) && clock >= 0
    }

    constructor (windowSecs: nat, now: nat, ghost ids: Ids)
      requires GoodIds(ids)
      ensures Valid() && window == windowSecs * 1000 && ledger == EMPTY && clock == now && drawn == 0 && this.ids == ids
    {
      window := windowSecs * 1000;
      rpmSets, tpmSets := map[], map[];
      this.ids, drawn := ids, 0;
      ledger, clock := EMPTY, now;
      new;
      RedisLimiter.NewStandsForEmpty(window, now, ids);
      EmptyIsOrdered(now);
    }

    ghost method Advance(op: Op, was: RedisLimiter.State, now: int)
      requires clock <= now && clock >= 0 && LedgerOrdered(ledger, clock) && GoodIds(ids)
      requires RedisLimiter.StandsFor(window, was, ledger, clock, ids, drawn)
      requires View() == RedisLimiter.Step(window, was, op, now, ids(drawn)).0
      modifies this`ledger, this`clock, this`drawn
      ensures Valid() && clock == now && ledger == After(window, old(ledger), op, now) && drawn == old(drawn) + 1
      ensures RedisLimiter.Step(window, was, op, now, ids(old(drawn))).1 == Allows(window, old(ledger), op, now)
    {
      hide RedisLimiter.StandsFor, LedgerOrdered, RedisLimiter.Step, After, Allows, GoodIds;
      RedisLimiter.StepRefines(window, was, ledger, op, clock, now, ids, drawn);
      AfterKeepsOrder(window, ledger, op, clock, now);
      ledger, clock, drawn := After(window, ledger, op, now), now, drawn + 1;
    }

    /** Allows, and counts the request, exactly when the window holds fewer than `limit`. */
    method CheckRequest(key: Key, limit: U32, now: int, member: string, reachable: bool) returns (d: Decision)
      requires Valid() && clock <= now && member == ids(drawn)
      modifies this
      ensures Valid()
      ensures !reachable ==> d == Allow && View() == old(View()) && ledger == old(ledger)
      ensures reachable ==> clock == now && ledger == After(window, old(ledger), CheckRpm(key, limit), now)
      ensures reachable ==> (d.Allow? <==> WindowSum(Of(old(ledger).rpm, key), now, window) < limit)
      ensures d.Denied? ==> d.retryAfterSecs == window / 1000
    {
      hide RedisLimiter.StandsFor, LedgerOrdered, GoodIds, RemRange, RedisLimiter.Members, ZAdd;
      if !reachable {
        return Allow;
      }
      ghost var was := View();
      var members := RemRange(RedisLimiter.Members(rpmSets, key, now), now - window);
      if |members| >= limit {
        rpmSets := Store(rpmSets, key, members);
        d := Denied(window / 1000);
      } else {
        rpmSets := Put(rpmSets, key, members, Member(now, member), now, window);
        d := Allow;
      }
      Advance(CheckRpm(key, limit), was, now);
    }

    /** The number after the first colon of a member's name. */
    method TokensIn(name: string) returns (tokens: nat)
      ensures tokens == TokensOf(name)
    {
      var i := 0;
      assert name[0..] == name;
      while i < |name| && name[i] != ':'
        invariant i <= |name| && TokensOf(name[i..]) == TokensOf(name)
      {
        assert name[i..][1..] == name[i + 1..];
        i := i + 1;
      }
      tokens := 0;
      if i < |name| {
        assert name[i..][1..] == name[i + 1..];
        tokens := Decimals.Parse(name[i + 1..]);
      }
    }

    /** Allows exactly when the window holds fewer than `limit` tokens; counts nothing. */
    method CheckTokens(key: Key, limit: U32, now: int, reachable: bool) returns (d: Decision)
      requires Valid() && clock <= now
      modifies this
      ensures Valid() && ledger == old(ledger)
      ensures !reachable ==> d == Allow && View() == old(View())
      ensures reachable ==> clock == now
      ensures reachable ==> (d.Allow? <==> WindowSum(Of(old(ledger).tpm, key), now, window) < limit)
      ensures d.Denied? ==> d.retryAfterSecs == window / 1000
    {
      hide RedisLimiter.StandsFor, LedgerOrdered, GoodIds, RemRange, RedisLimiter.Members, TokensOf;
      if !reachable {
        return Allow;
      }
      ghost var was := View();
      var members := RemRange(RedisLimiter.Members(tpmSets, key, now), now - window);
      var total := 0;
      for i := 0 to |members|
        invariant total == Sum(members[..i])
        modifies {}
      {
        assert members[..i + 1][..i] == members[..i];
        var n := TokensIn(members[i].name);
        total := total + n;
      }
      assert members[..|members|] == members;
      tpmSets := Store(tpmSets, key, members);
      d := if total >= limit then Denied(window / 1000) else Allow;
      Advance(CheckTpm(key, limit), was, now);
    }

    method RecordTokens(key: Key, tokens: U32, now: int, id: string, reachable: bool)
      requires Valid() && clock <= now && id == ids(drawn)
      modifies this
      ensures Valid()
      ensures !reachable || tokens == 0 ==> View() == old(View()) && ledger == old(ledger)
      ensures reachable ==> ledger == After(window, old(ledger), Record(key, tokens), now)
    {
      hide RedisLimiter.StandsFor, LedgerOrdered, GoodIds, RedisLimiter.Members, ZAdd, TokenName;
      if tokens == 0 || !reachable {
        return;
      }
      ghost var was := View();
      var members := RedisLimiter.Members(tpmSets, key, now);
      tpmSets := Put(tpmSets, key, members, Member(now, TokenName(id, tokens)), now, window);
      Advance(Record(key, tokens), was, now);
    }
  }
}
