/**
  The lock that guards rebuilding a cached video (internal/middleware/redis/redis.go, Lock and Unlock):
  SETNX of a random token with a lifetime, and a script that deletes the key only if it still holds the
  caller's token.  Times are milliseconds.
*/
module TokenLock {
  import opened Wrappers

  datatype Held = Held(token: nat, expires: nat)

  datatype Event = Acquired(token: nat, time: nat) | Released(token: nat, time: nat)

  /** The key, and the history of what it held. */
  datatype State = State(now: nat, key: Option<Held>, log: seq<Event>)

  predicate Taken(s: State) {
    s.key.Some? && s.now < s.key.value.expires
  }

  // ---------------------------------------------------------------- commands

  datatype Command = Wait(time: nat) | SetNX(token: nat) | Unlock(token: nat)

  function Do(s: State, c: Command, ttl: nat): State {
    match c
    case Wait(time) => s.(now := s.now + time)
    case SetNX(token) =>
      if Taken(s) then s
      else s.(key := Some(Held(token, s.now + ttl)), log := s.log + [Acquired(token, s.now)])
    case Unlock(token) =>
      if Taken(s) && s.key.value.token == token then s.(key := None, log := s.log + [Released(token, s.now)]) else s
  }

  function Run(commands: seq<Command>, ttl: nat): State {
    if commands == [] then State(0, None, [])
    else Do(Run(commands[..|commands| - 1], ttl), commands[|commands| - 1], ttl)
  }

  // ---------------------------------------------------------------- exclusion

  /** The holder of event i gave the lock back before event j. */
  predicate GivenBack(log: seq<Event>, i: nat, j: nat) {
    i < j <= |log| && exists k | i < k < j :: log[k].Released? && log[k].token == log[i].token
  }

  /** Between two acquisitions the first one was given back by its own token, or its lifetime passed. */
  predicate Apart(log: seq<Event>, ttl: nat, i: nat, j: nat) {
    i < j < |log| && log[i].Acquired? && log[j].Acquired? ==> GivenBack(log, i, j) || log[i].time + ttl <= log[j].time
  }

  ghost predicate Exclusive(log: seq<Event>, ttl: nat) {
    forall i: nat, j: nat :: Apart(log, ttl, i, j)
  }

  /** An acquisition that is neither given back nor too old is what the key holds. */
  predicate Standing(s: State, ttl: nat, i: nat) {
    i < |s.log| && s.log[i].Acquired? ==>
      || GivenBack(s.log, i, |s.log|)
      || s.log[i].time + ttl <= s.now
      || s.key == Some(Held(s.log[i].token, s.log[i].time + ttl))
  }

  ghost predicate Inv(s: State, ttl: nat) {
    Exclusive(s.log, ttl) && forall i: nat :: Standing(s, ttl, i)
  }

  lemma GivenBackGrows(log: seq<Event>, e: Event, i: nat, j: nat)
    requires j <= |log|
    ensures GivenBack(log, i, j) <==> GivenBack(log + [e], i, j)
    ensures GivenBack(log, i, |log|) ==> GivenBack(log + [e], i, |log| + 1)
    ensures i < |log| && e.Released? && e.token == log[i].token ==> GivenBack(log + [e], i, |log| + 1)
  {
    var log' := log + [e];
    if GivenBack(log, i, j) {
      var k :| i < k < j && log[k].Released? && log[k].token == log[i].token;
      assert log'[k] == log[k];
    }
    if GivenBack(log, i, |log|) {
      var k :| i < k < |log| && log[k].Released? && log[k].token == log[i].token;
      assert log'[k] == log[k];
    }
    if i < |log| && e.Released? && e.token == log[i].token {
      assert log'[|log|] == e;
    }
  }

  lemma DoKeepsInv(s: State, c: Command, ttl: nat)
    requires Inv(s, ttl)
    ensures Inv(Do(s, c, ttl), ttl)
  {
    var s' := Do(s, c, ttl);
    if s'.log == s.log {
      forall i: nat ensures Standing(s', ttl, i) {
        assert Standing(s, ttl, i);
      }
    } else {
      var e := s'.log[|s.log|];
      assert s'.log == s.log + [e];
      forall i: nat, j: nat ensures Apart(s'.log, ttl, i, j) {
        if i < j <= |s.log| {
          GivenBackGrows(s.log, e, i, j);
          assert Apart(s.log, ttl, i, j) && Standing(s, ttl, i);
        }
      }
      forall i: nat ensures Standing(s', ttl, i) {
        GivenBackGrows(s.log, e, i, |s.log|);
        assert Standing(s, ttl, i);
      }
    }
  }

  /** In every run of commands by any clients - tries, stale and repeated unlocks, clients that never
      unlock - whoever gets the lock gets it after the one before gave it back itself, or after the
      lifetime of that one passed. */
  lemma {:induction false} MutualExclusion(commands: seq<Command>, ttl: nat)
    ensures Inv(Run(commands, ttl), ttl)
  {
    if commands != [] {
      MutualExclusion(commands[..|commands| - 1], ttl);
      DoKeepsInv(Run(commands[..|commands| - 1], ttl), commands[|commands| - 1], ttl);
    }
  }

  /** The client's view of the lock. */
  class Lock {
    var state: State
    const ttl: nat

    constructor (ttl: nat)
      ensures this.ttl == ttl && state == Run([], ttl)
    {
      this.ttl := ttl;
      state := State(0, None, []);
    }

    /** `token` is freshly drawn.  The set can take effect although an error is returned. */
    method TryLock(token: nat, outcome: Outcome) returns (locked: bool, err: bool)
      modifies this
      ensures state == if outcome.Applied() then Do(old(state), SetNX(token), ttl) else old(state)
      ensures err <==> !outcome.Reported()
      ensures locked <==> !err && !Taken(old(state))
      ensures locked ==> state.key == Some(Held(token, state.now + ttl))
      ensures locked <==> outcome == Done
                          && (old(state).key.None? || old(state).key.value.expires <= old(state).now)
      ensures state.now == old(state).now
      ensures state.key != old(state).key ==> state.key == Some(Held(token, state.now + ttl))
    {
      var free := !(state.key.Some? && state.now < state.key.value.expires);
      if outcome.Applied() && free {
        state := state.(key := Some(Held(token, state.now + ttl)), log := state.log + [Acquired(token, state.now)]);
      }
      err := !outcome.Reported();
      locked := !err && free;
    }

    method Release(token: nat, outcome: Outcome) returns (err: bool)
      modifies this
      ensures state == if outcome.Applied() then Do(old(state), Unlock(token), ttl) else old(state)
      ensures err <==> !outcome.Reported()
      ensures state.now == old(state).now
      ensures state.key == if outcome != NotDone && old(state).key.Some? && old(state).key.value.token == token
                              && old(state).now < old(state).key.value.expires
                           then None else old(state).key
    {
      if outcome.Applied() {
        if state.key.Some? && state.now < state.key.value.expires && state.key.value.token == token {
          state := state.(key := None, log := state.log + [Released(token, state.now)]);
        }
      }
      err := !outcome.Reported();
    }
  }
}
