/** Whose identifier a request's session is found by, and when it is the one already there (src/sessions.rs). */
module SessionIdentity {
  import opened Wrappers
  import opened Text
  import opened Sessions
  import opened SessionRuns
  import WS = WhiteSpace

  // -------- When a session is used again --------

  /** Once more at `now`, the uses of this life would still be within its limits. */
  ghost predicate Within(config: SessionConfig, life: seq<Use>, now: Time) {
    var times := Times(life);
    && times != [] && |times| < config.maxRequests
    && now < times[0] + config.maxTtl && now - times[|times| - 1] < config.idleTtl
  }

  /** Which limit of a life that has ended is named. */
  ghost function Limit(config: SessionConfig, life: seq<Use>, now: Time): ExpirationReason {
    var times := Times(life);
    if config.maxRequests <= |times| then MaxRequests
    else if times != [] && times[0] + config.maxTtl <= now then MaxTtl
    else IdleTtl
  }

  lemma LivesUntil(config: SessionConfig, session: SessionContext, life: seq<Use>, now: Time)
    requires config.Valid() && Lives(config, session, life)
    ensures Expiration(config, session, now) ==
            if Within(config, life, now) then None else Some(Limit(config, life, now))
  {
    hide WellServed, Times, WellAttested, Attests;
  }

  /** Every life that could still be used is in the store. */
  ghost predicate Kept(config: SessionConfig, store: Store, log: seq<Use>, now: Time) {
    forall key, later: Time :: now <= later && Within(config, Life(log, key), later) ==> key in store
  }

  lemma WithinEarlier(config: SessionConfig, life: seq<Use>, now: Time, later: Time)
    requires now <= later && Within(config, life, later)
    ensures Within(config, life, now)
  {
    hide Times;
  }

  /** A use of one key leaves the others where they were. */
  lemma UseKeeps(config: SessionConfig, store: Store, log: seq<Use>, from: Time, use: Use, session: SessionContext,
      now: Time)
    requires Kept(config, store, log, from) && from <= now
    ensures Kept(config, store[use.session.sessionKey := session], log + [use], now)
  {
    hide Within, Life;
    forall key, later: Time | now <= later && Within(config, Life(log + [use], key), later)
      ensures key in store || key == use.session.sessionKey
    {
      LifeSnoc(log, use, key);
    }
  }

  /** What is removed at `now` could not be used any more. */
  lemma RemovalKeeps(config: SessionConfig, store: Store, log: seq<Use>, from: Time, fewer: Store, now: Time)
    requires config.Valid() && Tracks(config, store, log) && Kept(config, store, log, from) && from <= now
    requires forall key :: key in store && key !in fewer ==> Expiration(config, store[key], now).Some?
    ensures Kept(config, fewer, log, now)
  {
    hide Within, Life, Lives, Expiration, Consistent, WellServed, WellAttested, Limit;
    forall key, later: Time | now <= later && Within(config, Life(log, key), later) ensures key in fewer {
      assert key in store;
      WithinEarlier(config, Life(log, key), now, later);
      LivesUntil(config, store[key], Life(log, key), now);
    }
  }

  lemma SameKeeps(config: SessionConfig, store: Store, log: seq<Use>, from: Time, now: Time)
    requires Kept(config, store, log, from) && from <= now
    ensures Kept(config, store, log + [], now)
  {
    hide Within;
    assert log + [] == log;
  }

  lemma StepKeeps(config: SessionConfig, store: Store, log: seq<Use>, from: Time, op: Op)
    requires config.Valid() && Tracks(config, store, log) && Kept(config, store, log, from) && from <= op.now
    ensures var (next, responses) := Step(config, store, op); Kept(config, next, log + UseOf(op, responses), op.now)
  {
    hide Tracks, Kept, Expiration, Blank;
    TrackedIsConsistent(config, store, log);
    hide Consistent;
    var (next, responses) := Step(config, store, op);
    var uses := UseOf(op, responses);
    if uses == [] {
      assert log + [] == log;
      RemovalKeeps(config, store, log, from, next, op.now);
    } else {
      UsedKey(config, store, op);
      UseKeeps(config, store, log, from, uses[0], next[uses[0].session.sessionKey], op.now);
      assert uses == [uses[0]];
    }
  }

  /** A use puts its session under its own key, and nothing else changes. */
  lemma UsedKey(config: SessionConfig, store: Store, op: Op)
    requires Consistent(config, store)
    ensures var (next, responses) := Step(config, store, op);
            var uses := UseOf(op, responses);
            uses != [] ==> |uses| == 1 && next == store[uses[0].session.sessionKey := uses[0].session]
  {
  }

  lemma {:induction false} RunKeeps(config: SessionConfig, store: Store, log: seq<Use>, from: Time, ops: seq<Op>,
      now: Time)
    requires config.Valid() && Tracks(config, store, log) && Kept(config, store, log, from)
    requires Nondecreasing(ops, from) && from <= now && forall op <- ops :: op.now <= now
    ensures Kept(config, RunFrom(config, store, ops).0, log + Log(config, store, ops), now)
    decreases |ops|
  {
    hide Tracks, Kept, Step, UseOf;
    if ops == [] {
      SameKeeps(config, store, log, from, now);
    } else {
      var (mid, responses) := Step(config, store, ops[0]);
      var use, rest := UseOf(ops[0], responses), Log(config, mid, ops[1..]);
      assert ops[0] in ops;
      StepKeeps(config, store, log, from, ops[0]);
      StepTracks(config, store, log, ops[0]);
      RunKeeps(config, mid, log + use, ops[0].now, ops[1..], now);
      assert log + use + rest == log + (use + rest);
    }
  }

  lemma NothingIsTracked(config: SessionConfig, from: Time)
    ensures Tracks(config, map[], []) && Kept(config, map[], [], from)
  {
  }

  lemma AfterRun(config: SessionConfig, ops: seq<Op>, from: Time, now: Time)
    requires config.Valid() && Nondecreasing(ops, from) && from <= now && forall op <- ops :: op.now <= now
    ensures var store, log := RunFrom(config, map[], ops).0, Log(config, map[], ops);
            Tracks(config, store, log) && Kept(config, store, log, now)
  {
    hide Tracks, Kept, RunFrom, Log;
    NothingIsTracked(config, from);
    RunTracks(config, map[], [], ops);
    RunKeeps(config, map[], [], from, ops, now);
    assert [] + Log(config, map[], ops) == Log(config, map[], ops);
  }

  /**
   Over every run with a clock that does not go back: a request uses the session of its key again
   exactly if that session's uses, with this one, stay within every limit. A replaced session is
   named by the limit it had reached.
   */
  lemma ReuseIsExact(config: SessionConfig, ops: seq<Op>, from: Time, modelId: string, id: Identifier, now: Time)
    requires config.Valid() && Nondecreasing(ops, from) && from <= now && forall op <- ops :: op.now <= now
    requires !Blank(modelId)
    ensures var store := RunFrom(config, map[], ops).0;
            var key := SessionKey(modelId, id.agentSessionId);
            var life := Life(Log(config, map[], ops), key);
            var (next, r) := GetOrCreate(config, store, modelId, Success(id), now);
            && r.Success? && next == store[key := r.value.session]
            && (r.value.created <==> !Within(config, life, now))
            && r.value.session.requestCount == (if r.value.created then 1 else |Times(life)| + 1)
            && (r.value.replacedExpired.Some? ==>
                  r.value.created && life != [] && r.value.replacedExpired == Some(Limit(config, life, now)))
  {
    hide RunFrom, Log, Life, Blank, Within, Limit, Expiration, Consistent, WellServed, WellAttested, Attests;
    AfterRun(config, ops, from, now);
    var store, log := RunFrom(config, map[], ops).0, Log(config, map[], ops);
    var key := SessionKey(modelId, id.agentSessionId);
    if key in store {
      LivesUntil(config, store[key], Life(log, key), now);
    }
  }

  /**
   Attestation is stored exactly where the session's life is still within its limits, and the answer
   is that session with the state; what has reached a limit is removed and named by it.
   */
  lemma AttestationIsExact(config: SessionConfig, ops: seq<Op>, from: Time, key: string, state: AttestedModelState,
      now: Time)
    requires config.Valid() && Nondecreasing(ops, from) && from <= now && forall op <- ops :: op.now <= now
    ensures var store := RunFrom(config, map[], ops).0;
            var life := Life(Log(config, map[], ops), key);
            var (next, r) := SetAttested(config, store, key, state, now);
            && (r.Success? <==> Within(config, life, now))
            && (r.Success? ==>
                  && next == store[key := r.value] && Attests(r.value, Some(state))
                  && r.value.requestCount == |Times(life)| && r.value.lastUsedAt == Times(life)[|Times(life)| - 1])
            && (r.Failure? ==>
                  && next == store - {key}
                  && r.error ==
                     (if key in store then SessionExpired(Limit(config, life, now)) else SessionNotFound(key)))
  {
    hide RunFrom, Log, Life, Within, Limit, Expiration, Consistent, WellServed, WellAttested;
    AfterRun(config, ops, from, now);
    var store, log := RunFrom(config, map[], ops).0, Log(config, map[], ops);
    if key in store {
      LivesUntil(config, store[key], Life(log, key), now);
      LifeHasTimes(config, store[key], Life(log, key));
    }
  }

  lemma LifeHasTimes(config: SessionConfig, session: SessionContext, life: seq<Use>)
    requires Lives(config, session, life)
    ensures Times(life) != [] && session.requestCount == |Times(life)|
            && session.lastUsedAt == Times(life)[|Times(life)| - 1]
  {
    hide WellServed, WellAttested, Attests, Times;
  }

  /** A cleanup keeps exactly the sessions whose lives are still within their limits. */
  lemma CleanupIsExact(config: SessionConfig, ops: seq<Op>, from: Time, now: Time)
    requires config.Valid() && Nondecreasing(ops, from) && from <= now && forall op <- ops :: op.now <= now
    ensures var store, log := RunFrom(config, map[], ops).0, Log(config, map[], ops);
            var kept := CleanUp(config, store, now);
            && (forall key :: key in kept <==> Within(config, Life(log, key), now))
            && (forall key :: key in kept ==> kept[key] == store[key])
  {
    hide RunFrom, Log, Life, Within, Limit, Expiration, Consistent, WellServed, WellAttested, Attests, Lives;
    AfterRun(config, ops, from, now);
    var store, log := RunFrom(config, map[], ops).0, Log(config, map[], ops);
    forall key | key in store
      ensures Expiration(config, store[key], now).None? <==> Within(config, Life(log, key), now) {
      LivesUntil(config, store[key], Life(log, key), now);
    }
  }

  // -------- Whose identifier it is --------

  /** A request as it reaches the manager: what the caller gave, and an identifier made up for it. */
  datatype Ask = Ask(modelId: string, explicit: Result<Option<string>, SessionError>, freshId: string, now: Time)

  /** The store and the answer of `GetOrCreateAt`. */
  function Answered(config: SessionConfig, fallbackId: string, store: Store, ask: Ask)
    : (Store, Result<SessionResolution, SessionError>)
  {
    GetOrCreate(config, store, ask.modelId,
      ResolveIdentifier(config, fallbackId, ask.explicit, ask.freshId), ask.now)
  }

  /** The answer is the session of `id` for the model: the stored one, used once more, or a new one of `scope`. */
  ghost predicate Serves(config: SessionConfig, store: Store, ask: Ask, id: string, scope: SessionScope, next: Store,
      r: Result<SessionResolution, SessionError>)
  {
    var key := ask.modelId + ":" + id;
    && r.Success? && next == store[key := r.value.session]
    && if r.value.created then
         && r.value.session.modelId == ask.modelId && r.value.session.agentSessionId == id
         && r.value.session.scope == scope && r.value.session.requestCount == 1
         && r.value.session.createdAt == r.value.session.lastUsedAt == ask.now
         && r.value.session.expiresAt == ask.now + config.maxTtl && Attests(r.value.session, None)
       else
         && key in store
         && r.value.session == store[key].(requestCount := store[key].requestCount + 1, lastUsedAt := ask.now)
  }

  /**
   Every request: without a model or with a refused identifier it is an error and changes nothing;
   the caller's identifier decides, else the manager's own, else a made-up one, and where there is
   no fallback the identifier is missing.
   */
  lemma AnswersAreExact(config: SessionConfig, fallbackId: string, store: Store, ask: Ask)
    ensures var (next, r) := Answered(config, fallbackId, store, ask);
            if Blank(ask.modelId) then next == store && r == Failure(InvalidModelId)
            else if ask.explicit.Failure? then next == store && r == Failure(ask.explicit.error)
            else if ask.explicit.value.Some? then
              Serves(config, store, ask, ask.explicit.value.value, AgentScope, next, r)
            else if config.fallbackScope.AgentFallback? then
              Serves(config, store, ask, fallbackId, AgentScope, next, r)
            else if config.fallbackScope.RequestFallback? then
              Serves(config, store, ask, ask.freshId, RequestScope, next, r)
            else next == store && r == Failure(MissingSessionIdentifier)
  {
    hide Expiration, Blank;
  }

  predicate Unidentified(ask: Ask) {
    !Blank(ask.modelId) && ask.explicit == Success(None)
  }

  /** Made-up identifiers that were not used before: each request gets a session of its own. */
  lemma MadeUpSessionsAreNew(config: SessionConfig, fallbackId: string, store: Store, ask: Ask)
    requires config.fallbackScope.RequestFallback? && Unidentified(ask)
    requires ask.modelId + ":" + ask.freshId !in store
    ensures var (next, r) := Answered(config, fallbackId, store, ask);
            && r.Success? && r.value.created && r.value.session.scope == RequestScope
            && r.value.session.agentSessionId == ask.freshId && r.value.replacedExpired == None
            && next == store[ask.modelId + ":" + ask.freshId := r.value.session]
  {
    hide Blank;
  }

  // -------- Runs of requests --------

  /** What callers and the clock do to a manager. */
  datatype Call = Asked(ask: Ask) | Other(op: Op)

  function OpOf(config: SessionConfig, fallbackId: string, call: Call): Op {
    match call
    case Asked(ask) =>
      Get(ask.modelId, ResolveIdentifier(config, fallbackId, ask.explicit, ask.freshId), ask.now)
    case Other(op) => op
  }

  function OpsOf(config: SessionConfig, fallbackId: string, calls: seq<Call>): (ops: seq<Op>)
    ensures |ops| == |calls|
  {
    if calls == [] then [] else [OpOf(config, fallbackId, calls[0])] + OpsOf(config, fallbackId, calls[1..])
  }

  /**
   Under the agent fallback, requests without an identifier for one model share one session: each
   uses it again exactly if its life, with this request, stays within the limits.
   */
  lemma AgentFallbackShares(config: SessionConfig, fallbackId: string, calls: seq<Call>, from: Time, ask: Ask)
    requires config.Valid() && config.fallbackScope.AgentFallback? && Unidentified(ask)
    requires var ops := OpsOf(config, fallbackId, calls);
             Nondecreasing(ops, from) && from <= ask.now && forall op <- ops :: op.now <= ask.now
    ensures var ops := OpsOf(config, fallbackId, calls);
            var store, log := RunFrom(config, map[], ops).0, Log(config, map[], ops);
            var key := ask.modelId + ":" + fallbackId;
            var (next, r) := Answered(config, fallbackId, store, ask);
            && r.Success? && next == store[key := r.value.session]
            && (r.value.created <==> !Within(config, Life(log, key), ask.now))
            && (!r.value.created ==> key in store)
  {
    hide RunFrom, Log, Life, Blank, Within, Limit, Nondecreasing;
    var ops := OpsOf(config, fallbackId, calls);
    ReuseIsExact(config, ops, from, ask.modelId, Identifier(fallbackId, AgentScope), ask.now);
    AnswersAreExact(config, fallbackId, RunFrom(config, map[], ops).0, ask);
  }

  /** Without the request fallback, no session is ever a request's own. */
  ghost predicate AgentScoped(store: Store) {
    forall key :: key in store ==> store[key].scope == AgentScope
  }

  lemma {:induction false} FallbackScopesAreKept(config: SessionConfig, fallbackId: string, store: Store,
      calls: seq<Call>)
    requires !config.fallbackScope.RequestFallback? && AgentScoped(store)
    requires forall call <- calls :: call.Other? ==> !call.op.Get?
    ensures AgentScoped(RunFrom(config, store, OpsOf(config, fallbackId, calls)).0)
    decreases |calls|
  {
    hide Step;
    if calls != [] {
      var ops := OpsOf(config, fallbackId, calls);
      assert calls[0] in calls && ops[1..] == OpsOf(config, fallbackId, calls[1..]);
      CallKeepsScopes(config, fallbackId, store, calls[0]);
      FallbackScopesAreKept(config, fallbackId, Step(config, store, ops[0]).0, calls[1..]);
    }
  }

  lemma CallKeepsScopes(config: SessionConfig, fallbackId: string, store: Store, call: Call)
    requires !config.fallbackScope.RequestFallback? && AgentScoped(store) && (call.Other? ==> !call.op.Get?)
    ensures AgentScoped(Step(config, store, OpOf(config, fallbackId, call)).0)
  {
    hide Expiration, Blank;
  }

  // -------- What the caller gave --------

  /** The units of some characters, as every string of a request is. */
  ghost predicate Characters(text: string) {
    exists cs: seq<int> :: (forall c <- cs :: WS.Scalar(c)) && WS.Encoded(cs) == text
  }

  /**
   The header decides where it has more than white space, and the metadata where it has not; what
   is found is never empty and has no white space around it.
   */
  lemma ExplicitIsUsable(header: Header, metadata: Option<string>)
    requires header.HeaderText? ==> Characters(header.text)
    requires metadata.Some? ==> Characters(metadata.value)
    ensures var found := ExplicitIdentifier(header, metadata);
            && (found.Failure? <==> header.BadName? || header.BadText?)
            && (found.Success? && found.value.Some? ==> Usable(found.value.value))
            && (header.HeaderText? && !Blank(header.text) ==> found == Success(Some(Trim(header.text))))
            && (header.NoHeader? || (header.HeaderText? && Blank(header.text)) ==>
                  found ==
                  Success(if metadata.None? || Blank(metadata.value) then None else Some(Trim(metadata.value))))
  {
    hide Trim, Blank;
    if header.HeaderText? {
      TrimmedIsUsable(header.text);
    }
    if metadata.Some? {
      TrimmedIsUsable(metadata.value);
    }
  }

  lemma TrimmedIsUsable(text: string)
    requires Characters(text)
    ensures (Trim(text) == "" <==> Blank(text)) && (Trim(text) != "" ==> Usable(Trim(text)))
  {
    hide WS.Encoded, WS.Scalar, Trim, Blank;
    var cs :| (forall c <- cs :: WS.Scalar(c)) && WS.Encoded(cs) == text;
    WS.TrimmedStays(cs);
    WS.TrimmedToNothing(cs);
  }
}
