/** Properties of whole runs of the session store (src/sessions.rs). */
module SessionRuns {
  import opened Wrappers
  import opened Text
  import opened Sessions

  // -------- Every reachable store --------

  ghost predicate Consistent(config: SessionConfig, store: Store) {
    forall key :: key in store ==>
      var session := store[key];
      && session.sessionKey == key == SessionKey(session.modelId, session.agentSessionId)
      && 1 <= session.requestCount <= config.maxRequests
      && session.expiresAt == session.createdAt + config.maxTtl
  }

  lemma StepKeepsConsistent(config: SessionConfig, store: Store, op: Op)
    requires config.Valid() && Consistent(config, store)
    ensures Consistent(config, Step(config, store, op).0)
  {
  }

  /** Counts, lifetimes and keys stay right in every store a run can reach. */
  lemma {:induction false} RunsAreConsistent(config: SessionConfig, store: Store, ops: seq<Op>)
    requires config.Valid() && Consistent(config, store)
    ensures Consistent(config, RunFrom(config, store, ops).0)
    decreases |ops|
  {
    hide Step;
    if ops != [] {
      StepKeepsConsistent(config, store, ops[0]);
      RunsAreConsistent(config, Step(config, store, ops[0]).0, ops[1..]);
    }
  }

  // -------- The life of one session --------

  /** One visible use of a session: a served request, or stored attestation. */
  datatype Use =
    | Served(session: SessionContext, created: bool, at: Time)
    | Stored(session: SessionContext, state: AttestedModelState, at: Time)

  function UseOf(op: Op, responses: seq<Response>): seq<Use> {
    match op
    case Get(_, _, now) =>
      if |responses| == 1 && responses[0].Resolved? && responses[0].r.Success?
      then [Served(responses[0].r.value.session, responses[0].r.value.created, now)] else []
    case Attest(_, state, now) =>
      if |responses| == 1 && responses[0].Updated? && responses[0].u.Success?
      then [Stored(responses[0].u.value, state, now)] else []
    case Cleanup(_) => []
  }

  /** Everything a run did, in order. */
  function Log(config: SessionConfig, store: Store, ops: seq<Op>): seq<Use>
    decreases |ops|
  {
    if ops == [] then []
    else
      var (mid, responses) := Step(config, store, ops[0]);
      UseOf(ops[0], responses) + Log(config, mid, ops[1..])
  }

  /** The uses of `key` since it was last created. */
  function Life(log: seq<Use>, key: string): seq<Use> {
    if log == [] then []
    else
      var before, last := Life(log[..|log| - 1], key), log[|log| - 1];
      if last.session.sessionKey != key then before
      else if last.Served? && last.created then [last]
      else before + [last]
  }

  /** The times at which a life was served. */
  function Times(life: seq<Use>): seq<Time> {
    if life == [] then []
    else Times(life[..|life| - 1]) + if life[|life| - 1].Served? then [life[|life| - 1].at] else []
  }

  /** The state a caller last stored in a life. */
  function StoredState(life: seq<Use>): Option<AttestedModelState> {
    if life == [] then None
    else if life[|life| - 1].Stored? then Some(life[|life| - 1].state)
    else StoredState(life[..|life| - 1])
  }

  /** A session's attestation is the state given, and nothing where none was. */
  predicate Attests(session: SessionContext, stored: Option<AttestedModelState>) {
    match stored
    case None =>
      && session.attestedModelPublicKey.None? && session.attestationTeeProvider.None?
      && session.attestationTdxDebug.None? && session.attestationNvidiaVerified.None? && session.verifiedAt.None?
    case Some(state) =>
      && session.attestedModelPublicKey == Some(state.modelPublicKey)
      && session.attestationTeeProvider == state.teeProvider && session.attestationTdxDebug == state.tdxDebug
      && session.attestationNvidiaVerified == Some(state.nvidiaVerified) && session.verifiedAt == Some(state.verifiedAt)
  }

  /** Every answer of a life carries the state a caller had last stored in it. */
  ghost predicate WellAttested(life: seq<Use>) {
    life == []
    || (WellAttested(life[..|life| - 1]) && Attests(life[|life| - 1].session, StoredState(life)))
  }

  /** Served at most `maxRequests` times, before the expiry time, with every idle gap shorter than `idleTtl`. */
  ghost predicate WellServed(config: SessionConfig, life: seq<Use>) {
    var times := Times(life);
    && |times| <= config.maxRequests
    && (forall i :: 0 <= i < |times| ==> times[i] < times[0] + config.maxTtl)
    && (forall i :: 1 <= i < |times| ==> times[i] - times[i - 1] < config.idleTtl)
  }

  /** A stored session is what its life says. */
  ghost predicate Lives(config: SessionConfig, session: SessionContext, life: seq<Use>) {
    var times := Times(life);
    && WellServed(config, life)
    && times != [] && |times| == session.requestCount
    && times[0] + config.maxTtl == session.expiresAt && times[|times| - 1] == session.lastUsedAt
    && WellAttested(life) && Attests(session, StoredState(life))
  }

  ghost predicate Tracks(config: SessionConfig, store: Store, log: seq<Use>) {
    && Consistent(config, store)
    && (forall key :: WellServed(config, Life(log, key)) && WellAttested(Life(log, key)))
    && (forall key :: key in store ==> Lives(config, store[key], Life(log, key)))
  }

  lemma LifeSnoc(log: seq<Use>, use: Use, key: string)
    ensures Life(log + [use], key) ==
            if use.session.sessionKey != key then Life(log, key)
            else if use.Served? && use.created then [use] else Life(log, key) + [use]
  {
    assert (log + [use])[..|log|] == log;
  }

  lemma TimesSnoc(life: seq<Use>, use: Use)
    ensures Times(life + [use]) == Times(life) + if use.Served? then [use.at] else []
    ensures StoredState(life + [use]) == if use.Stored? then Some(use.state) else StoredState(life)
    ensures WellAttested(life + [use]) <==> WellAttested(life) && Attests(use.session, StoredState(life + [use]))
  {
    assert (life + [use])[..|life|] == life;
  }

  /** A new session starts a life of its own. */
  lemma CreatedLives(config: SessionConfig, session: SessionContext, now: Time)
    requires config.Valid()
    requires session.requestCount == 1 && session.createdAt == session.lastUsedAt == now
    requires session.expiresAt == now + config.maxTtl && Attests(session, None)
    ensures Lives(config, session, [Served(session, true, now)])
  {
    var use := Served(session, true, now);
    TimesSnoc([], use);
    assert [] + [use] == [use];
    assert Times([]) == [] && StoredState([]) == None;
  }

  /** Serving a session that has not expired keeps its life within bounds. */
  lemma UsedLives(config: SessionConfig, session: SessionContext, life: seq<Use>, now: Time)
    requires config.Valid() && Lives(config, session, life) && Expiration(config, session, now).None?
    ensures Lives(config, Used(session, now), life + [Served(Used(session, now), false, now)])
  {
    TimesSnoc(life, Served(Used(session, now), false, now));
  }

  lemma AttestedLives(config: SessionConfig, session: SessionContext, life: seq<Use>, state: AttestedModelState,
      now: Time)
    requires Lives(config, session, life)
    ensures Lives(config, Attested(session, state), life + [Stored(Attested(session, state), state, now)])
  {
    TimesSnoc(life, Stored(Attested(session, state), state, now));
  }

  /** One more use, of one key, seen from every key. */
  lemma UseTracks(config: SessionConfig, store: Store, log: seq<Use>, key: string, session: SessionContext, use: Use)
    requires Tracks(config, store, log)
    requires use.session == session && session.sessionKey == key
    requires Lives(config, session, Life(log + [use], key))
    requires Consistent(config, store[key := session])
    ensures Tracks(config, store[key := session], log + [use])
  {
    hide Consistent, WellServed;
    forall other ensures other != key ==> Life(log + [use], other) == Life(log, other) {
      LifeSnoc(log, use, other);
    }
    assert WellServed(config, Life(log + [use], key)) && WellAttested(Life(log + [use], key));
  }

  lemma GetTracks(config: SessionConfig, store: Store, log: seq<Use>, modelId: string, id: Identifier, now: Time)
    requires config.Valid() && Tracks(config, store, log) && !Blank(modelId)
    requires Consistent(config, GetOrCreate(config, store, modelId, Success(id), now).0)
    ensures var (next, r) := GetOrCreate(config, store, modelId, Success(id), now);
            r.Success? && Tracks(config, next, log + [Served(r.value.session, r.value.created, now)])
  {
    hide Consistent, Lives, WellServed, Life, Blank;
    var next := GetOrCreate(config, store, modelId, Success(id), now).0;
    var key := SessionKey(modelId, id.agentSessionId);
    var session := next[key];
    if key in store && Expiration(config, store[key], now).None? {
      KeyOf(config, store, key);
      UsedLives(config, store[key], Life(log, key), now);
      LifeSnoc(log, Served(session, false, now), key);
      UseTracks(config, store, log, key, session, Served(session, false, now));
    } else {
      CreatedLives(config, session, now);
      LifeSnoc(log, Served(session, true, now), key);
      UseTracks(config, store, log, key, session, Served(session, true, now));
    }
  }

  lemma AttestTracks(config: SessionConfig, store: Store, log: seq<Use>, key: string, state: AttestedModelState,
      now: Time)
    requires config.Valid() && Tracks(config, store, log)
    requires key in store && Expiration(config, store[key], now).None?
    requires Consistent(config, store[key := Attested(store[key], state)])
    ensures var session := Attested(store[key], state);
            Tracks(config, store[key := session], log + [Stored(session, state, now)])
  {
    hide Consistent, Lives, WellServed, Life;
    var session := Attested(store[key], state);
    KeyOf(config, store, key);
    AttestedLives(config, store[key], Life(log, key), state, now);
    LifeSnoc(log, Stored(session, state, now), key);
    UseTracks(config, store, log, key, session, Stored(session, state, now));
  }

  lemma FewerTracks(config: SessionConfig, store: Store, log: seq<Use>, fewer: Store)
    requires Tracks(config, store, log)
    requires forall key :: key in fewer ==> key in store && fewer[key] == store[key]
    ensures Tracks(config, fewer, log + [])
  {
    hide Lives, WellServed, Life;
    assert log + [] == log;
  }

  lemma StepTracks(config: SessionConfig, store: Store, log: seq<Use>, op: Op)
    requires config.Valid() && Tracks(config, store, log)
    ensures var (next, responses) := Step(config, store, op); Tracks(config, next, log + UseOf(op, responses))
  {
    hide Tracks, Blank;
    TrackedIsConsistent(config, store, log);
    StepKeepsConsistent(config, store, op);
    match op {
      case Get(modelId, id, now) =>
        if !Blank(modelId) && id.Success? {
          GetTracks(config, store, log, modelId, id.value, now);
        } else {
          FewerTracks(config, store, log, store);
        }
      case Attest(key, state, now) =>
        if key in store && Expiration(config, store[key], now).None? {
          AttestTracks(config, store, log, key, state, now);
        } else {
          FewerTracks(config, store, log, Step(config, store, op).0);
        }
      case Cleanup(now) =>
        FewerTracks(config, store, log, CleanUp(config, store, now));
    }
  }

  lemma TrackedIsConsistent(config: SessionConfig, store: Store, log: seq<Use>)
    requires Tracks(config, store, log)
    ensures Consistent(config, store)
  {
  }

  lemma KeyOf(config: SessionConfig, store: Store, key: string)
    requires Consistent(config, store) && key in store
    ensures store[key].sessionKey == key
  {
  }

  lemma {:induction false} RunTracks(config: SessionConfig, store: Store, log: seq<Use>, ops: seq<Op>)
    requires config.Valid() && Tracks(config, store, log)
    ensures Tracks(config, RunFrom(config, store, ops).0, log + Log(config, store, ops))
    decreases |ops|
  {
    hide Tracks, Step, UseOf;
    if ops == [] {
      assert log + [] == log;
    } else {
      var (mid, responses) := Step(config, store, ops[0]);
      StepTracks(config, store, log, ops[0]);
      var use, rest := UseOf(ops[0], responses), Log(config, mid, ops[1..]);
      RunTracks(config, mid, log + use, ops[1..]);
      assert log + use + rest == log + (use + rest);
    }
  }

  /**
   In a run from the empty store, every session in the store was served within
   its limits since it was created, and holds the state a caller last stored in
   it since then, if any; and no life, past or present, broke its limits or had
   an answer with another state.
   */
  lemma SessionsAreServedWithinLimits(config: SessionConfig, ops: seq<Op>)
    requires config.Valid()
    ensures var store, log := RunFrom(config, map[], ops).0, Log(config, map[], ops);
            && (forall key :: WellServed(config, Life(log, key)) && WellAttested(Life(log, key)))
            && (forall key :: key in store ==> Lives(config, store[key], Life(log, key)))
  {
    RunTracks(config, map[], [], ops);
    assert [] + Log(config, map[], ops) == Log(config, map[], ops);
  }

  // -------- Whose session is returned --------

  /** The session a request gets belongs to its own model and identifier. */
  ghost predicate OwnSession(op: Op, responses: seq<Response>) {
    op.Get? && op.id.Success? && |responses| == 1 && responses[0].Resolved? && responses[0].r.Success? ==>
      && responses[0].r.value.session.modelId == op.modelId
      && responses[0].r.value.session.agentSessionId == op.id.value.agentSessionId
  }

  /** Every request of a run from an empty store gets its own session. */
  ghost predicate OwnSessions(config: SessionConfig, ops: seq<Op>) {
    forall k :: 0 <= k < |ops| ==> OwnSession(ops[k], Step(config, RunFrom(config, map[], ops[..k]).0, ops[k]).1)
  }

  /** No two allowed pairs of model and identifier share a key. */
  ghost predicate KeepsApart(allowed: (string, string) -> bool) {
    forall a, x, b, y :: allowed(a, x) && allowed(b, y) && SessionKey(a, x) == SessionKey(b, y) ==> a == b && x == y
  }

  ghost predicate Asks(allowed: (string, string) -> bool, op: Op) {
    op.Get? && op.id.Success? ==> allowed(op.modelId, op.id.value.agentSessionId)
  }

  ghost predicate Holds(allowed: (string, string) -> bool, store: Store) {
    forall key :: key in store ==> allowed(store[key].modelId, store[key].agentSessionId)
  }

  lemma StepGivesOwnSession(allowed: (string, string) -> bool, config: SessionConfig, store: Store, op: Op)
    requires config.Valid() && Consistent(config, store) && KeepsApart(allowed)
    requires Holds(allowed, store) && Asks(allowed, op)
    ensures Holds(allowed, Step(config, store, op).0) && OwnSession(op, Step(config, store, op).1)
  {
    hide SessionKey, Expiration;
    if op.Get? && op.id.Success? {
      var key := SessionKey(op.modelId, op.id.value.agentSessionId);
      if key in store {
        assert SessionKey(store[key].modelId, store[key].agentSessionId) == key;
      }
    }
  }

  /** Where allowed pairs share no key, every request of a run over them gets its own session. */
  lemma {:induction false} ApartRunsGiveOwnSessions(allowed: (string, string) -> bool, config: SessionConfig,
      store: Store, ops: seq<Op>, k: nat)
    requires config.Valid() && Consistent(config, store) && KeepsApart(allowed) && k < |ops|
    requires Holds(allowed, store) && forall i :: 0 <= i < |ops| ==> Asks(allowed, ops[i])
    ensures OwnSession(ops[k], Step(config, RunFrom(config, store, ops[..k]).0, ops[k]).1)
    decreases k
  {
    hide Step, OwnSession, KeepsApart, Asks, Holds;
    StepGivesOwnSession(allowed, config, store, ops[0]);
    StepKeepsConsistent(config, store, ops[0]);
    if k > 0 {
      var mid := Step(config, store, ops[0]).0;
      ApartRunsGiveOwnSessions(allowed, config, mid, ops[1..], k - 1);
      assert ops[..k][1..] == ops[1..][..k - 1];
    }
  }

  // -------- Colons in model ids --------

  /** An identifier as a caller's header or metadata can give it: trimmed, and not empty (src/sessions.rs:413-416). */
  predicate Usable(id: string) {
    id != "" && Trim(id) == id
  }

  /** `b` is `a`, a colon, and then no white space: some usable identifiers then meet in one key. */
  predicate Meets(a: string, b: string) {
    a + ":" <= b && SpaceLen(b[|a| + 1..], 0) == 0
  }

  lemma {:induction false} TrimStartShrinks(s: string)
    ensures |TrimStart(s)| <= |s|
    decreases |s|
  {
    if 0 < SpaceLen(s, 0) {
      TrimStartShrinks(s[SpaceLen(s, 0)..]);
    }
  }

  lemma {:induction false} TrimEndShrinks(s: string)
    ensures |TrimEnd(s)| <= |s|
    decreases |s|
  {
    hide SpaceLen;
    if 1 <= |s| {
      TrimEndShrinks(s[..|s| - 1]);
    }
    if 2 <= |s| {
      TrimEndShrinks(s[..|s| - 2]);
    }
    if 3 <= |s| {
      TrimEndShrinks(s[..|s| - 3]);
    }
  }

  /** A usable identifier does not start with white space. */
  lemma UsableStart(id: string)
    requires Usable(id)
    ensures SpaceLen(id, 0) == 0
  {
    hide SpaceLen;
    if 0 < SpaceLen(id, 0) {
      TrimStartShrinks(id[SpaceLen(id, 0)..]);
      TrimEndShrinks(TrimStart(id));
    }
  }

  /** A colon and a letter behind a text do not make white space of its start. */
  lemma ColonStartsNoSpace(rest: string)
    requires SpaceLen(rest, 0) == 0
    ensures SpaceLen(rest + ":c", 0) == 0
  {
    var id := rest + ":c";
    assert id[|rest|] == ':' && id[|rest| + 1] == 'c';
    assert forall i :: 0 <= i < |rest| ==> id[i] == rest[i];
  }

  /** No white space ends in a colon and a letter. */
  lemma ColonEndsNoSpace(rest: string)
    ensures var id := rest + ":c";
            && SpaceLen(id, |id| - 1) == SpaceLen(id, |id| - 2) == 0
            && (3 <= |id| ==> SpaceLen(id, |id| - 3) != 3)
  {
    var id := rest + ":c";
    assert id[|rest|] == ':' && id[|rest| + 1] == 'c';
  }

  /** What is left of `b`, a colon and a letter make a usable identifier of `a`. */
  lemma MeetingId(rest: string)
    requires SpaceLen(rest, 0) == 0
    ensures Usable(rest + ":c")
  {
    hide SpaceLen;
    var id := rest + ":c";
    ColonStartsNoSpace(rest);
    ColonEndsNoSpace(rest);
    assert TrimStart(id) == id;
    assert TrimEnd(id) == id;
  }

  lemma LetterIsUsable()
    ensures Usable("c")
  {
  }

  /** Two models can meet in one key of usable identifiers exactly when they are equal or one meets the other. */
  lemma KeysCollideExactlyOnColons(a: string, b: string)
    ensures (exists x, y :: Usable(x) && Usable(y) && SessionKey(a, x) == SessionKey(b, y)) <==>
            a == b || Meets(a, b) || Meets(b, a)
  {
    hide Usable;
    LetterIsUsable();
    if x, y :| Usable(x) && Usable(y) && SessionKey(a, x) == SessionKey(b, y) {
      SharedKeyMeets(a, x, b, y);
      SharedKeyMeets(b, y, a, x);
    }
    if a == b {
      assert SessionKey(a, "c") == SessionKey(b, "c");
    } else if Meets(a, b) {
      MeetingKey(a, b);
    } else if Meets(b, a) {
      MeetingKey(b, a);
    }
  }

  lemma SharedKeyMeets(a: string, x: string, b: string, y: string)
    requires Usable(x) && SessionKey(a, x) == SessionKey(b, y)
    ensures |a| < |b| ==> Meets(a, b)
    ensures |a| == |b| ==> a == b && x == y
  {
    hide SpaceLen;
    UsableStart(x);
    var key := SessionKey(a, x);
    assert key[..|a|] == a && key[|a| + 1..] == x && key[..|b|] == b && key[|b| + 1..] == y;
    if |a| < |b| {
      assert key[..|a| + 1] == a + ":" && b[..|a| + 1] == a + ":";
      var rest := b[|a| + 1..];
      assert x == rest + (":" + y);
      SpaceIsComplete(rest, ":" + y);
    }
  }

  /** White space at the start of a text is still there in front of a colon. */
  lemma SpaceIsComplete(rest: string, more: string)
    requires more != "" && more[0] == ':' && SpaceLen(rest + more, 0) == 0
    ensures SpaceLen(rest, 0) == 0
  {
  }

  lemma MeetingKey(a: string, b: string)
    requires Meets(a, b)
    ensures var id := b[|a| + 1..] + ":c"; Usable(id) && SessionKey(a, id) == SessionKey(b, "c")
  {
    hide Usable, SpaceLen;
    MeetingId(b[|a| + 1..]);
    assert b == b[..|a| + 1] + b[|a| + 1..];
    assert SessionKey(a, b[|a| + 1..] + ":c") == a + ":" + (b[|a| + 1..] + ":c") == SessionKey(b, "c");
  }

  ghost predicate Over(models: set<string>, ops: seq<Op>) {
    forall i :: 0 <= i < |ops| ==> Asks((m: string, id: string) => m in models && Usable(id), ops[i])
  }

  /** A run in which `b` asks for the key that `a` has just opened. */
  lemma MeetingModelsMix(config: SessionConfig, models: set<string>, a: string, b: string) returns (ops: seq<Op>)
    requires config.Valid() && 1 < config.maxRequests
    requires a in models && b in models && !Blank(a) && !Blank(b) && Meets(a, b)
    ensures Over(models, ops) && !OwnSessions(config, ops)
  {
    hide Usable, Blank, SpaceLen, SessionKey;
    var id := b[|a| + 1..] + ":c";
    MeetingKey(a, b);
    LetterIsUsable();
    var first := Get(a, Success(Identifier(id, AgentScope)), 0);
    var second := Get(b, Success(Identifier("c", AgentScope)), 0);
    ops := [first, second];
    assert ops[..1] == [first] && [first][1..] == [];
    assert RunFrom(config, map[], [first]).0 == Step(config, map[], first).0;
    assert a != b;
    assert !OwnSession(ops[1], Step(config, RunFrom(config, map[], ops[..1]).0, ops[1]).1);
  }

  /** A session that can be used once only is never shared. */
  lemma {:induction false} OneRequestEachIsOwn(config: SessionConfig, store: Store, ops: seq<Op>, k: nat)
    requires config.Valid() && Consistent(config, store) && config.maxRequests == 1 && k < |ops|
    ensures OwnSession(ops[k], Step(config, RunFrom(config, store, ops[..k]).0, ops[k]).1)
    decreases k
  {
    hide SessionKey;
    if k > 0 {
      StepKeepsConsistent(config, store, ops[0]);
      OneRequestEachIsOwn(config, Step(config, store, ops[0]).0, ops[1..], k - 1);
      assert ops[..k][1..] == ops[1..][..k - 1];
    }
  }

  /**
   For a set of model ids: every run over them gives every request its own model's session if
   and only if sessions serve one request only or no id of the set meets another.
   */
  lemma OwnSessionsExactly(config: SessionConfig, models: set<string>)
    requires config.Valid() && forall m <- models :: !Blank(m)
    ensures (forall ops :: Over(models, ops) ==> OwnSessions(config, ops)) <==>
            config.maxRequests == 1 || forall a, b :: a in models && b in models ==> !Meets(a, b)
  {
    hide Usable, Blank, Meets, Step, OwnSession, SessionKey, Asks;
    if config.maxRequests == 1 {
      forall ops: seq<Op> ensures OwnSessions(config, ops) {
        forall k | 0 <= k < |ops|
          ensures OwnSession(ops[k], Step(config, RunFrom(config, map[], ops[..k]).0, ops[k]).1) {
          OneRequestEachIsOwn(config, map[], ops, k);
        }
      }
    } else if a, b :| a in models && b in models && Meets(a, b) {
      var ops := MeetingModelsMix(config, models, a, b);
      assert Over(models, ops) && !OwnSessions(config, ops);
    } else {
      ApartModels(models);
      var allowed := (m: string, id: string) => m in models && Usable(id);
      forall ops | Over(models, ops) ensures OwnSessions(config, ops) {
        forall k | 0 <= k < |ops|
          ensures OwnSession(ops[k], Step(config, RunFrom(config, map[], ops[..k]).0, ops[k]).1) {
          ApartRunsGiveOwnSessions(allowed, config, map[], ops, k);
        }
      }
    }
  }

  lemma ApartModels(models: set<string>)
    requires forall a, b :: a in models && b in models ==> !Meets(a, b)
    ensures KeepsApart((m: string, id: string) => m in models && Usable(id))
  {
    hide Usable, Meets, SessionKey;
    forall a, x, b, y | a in models && Usable(x) && b in models && Usable(y) && SessionKey(a, x) == SessionKey(b, y)
      ensures a == b && x == y
    {
      SharedKeyMeets(a, x, b, y);
      SharedKeyMeets(b, y, a, x);
    }
  }

  ghost predicate ColonFree(ops: seq<Op>) {
    forall i :: 0 <= i < |ops| ==> ops[i].Get? ==> ':' !in ops[i].modelId
  }

  ghost predicate ColonFreeModels(store: Store) {
    forall key :: key in store ==> ':' !in store[key].modelId
  }

  lemma ColonFreeKeysDiffer(a: string, x: string, b: string, y: string)
    requires ':' !in a && ':' !in b && SessionKey(a, x) == SessionKey(b, y)
    ensures a == b && x == y
  {
    var key := SessionKey(a, x);
    assert key[|a|] == ':' && SessionKey(b, y)[|b|] == ':';
    assert forall i :: 0 <= i < |a| ==> key[i] == a[i];
    assert forall i :: 0 <= i < |b| ==> SessionKey(b, y)[i] == b[i];
    assert |a| == |b|;
    assert key[..|a|] == a && key[|a| + 1..] == x;
    assert SessionKey(b, y)[..|b|] == b && SessionKey(b, y)[|b| + 1..] == y;
  }

  /** Without colons in model ids, identifiers may be any text at all. */
  lemma ColonFreeRunsGiveOwnSessions(config: SessionConfig, store: Store, ops: seq<Op>, k: nat)
    requires config.Valid() && Consistent(config, store) && ColonFreeModels(store) && ColonFree(ops) && k < |ops|
    ensures OwnSession(ops[k], Step(config, RunFrom(config, store, ops[..k]).0, ops[k]).1)
  {
    hide Step, OwnSession, SessionKey;
    var allowed := (m: string, id: string) => ':' !in m;
    forall a, x, b, y | allowed(a, x) && allowed(b, y) && SessionKey(a, x) == SessionKey(b, y)
      ensures a == b && x == y {
      ColonFreeKeysDiffer(a, x, b, y);
    }
    ApartRunsGiveOwnSessions(allowed, config, store, ops, k);
  }

  /** With a colon in a model id, a request can be given another model's session. */
  lemma ColonsCanMixSessions(config: SessionConfig)
    requires config.Valid() && 1 < config.maxRequests
    ensures var first := Get("a", Success(Identifier("b:c", AgentScope)), 0);
            var second := Get("a:b", Success(Identifier("c", AgentScope)), 0);
            var store := Step(config, map[], first).0;
            !OwnSession(second, Step(config, store, second).1)
  {
    assert "a" + ":" + "b:c" == "a:b:c" == "a:b" + ":" + "c";
    assert SpaceLen("a", 0) == 0 && SpaceLen("a:b", 0) == 0;
    assert !Blank("a") && !Blank("a:b");
  }

  // -------- Cleanup is transparent --------

  /** An expired session stays expired until it is touched. */
  lemma ExpiryIsStable(config: SessionConfig, session: SessionContext, now: Time, later: Time)
    requires now <= later && Expiration(config, session, now).Some?
    ensures Expiration(config, session, later).Some?
  {
  }

  /** `clean` holds what `full` holds, except sessions of `full` that have expired by `now`. */
  ghost predicate Cleaner(config: SessionConfig, full: Store, clean: Store, now: Time) {
    && (forall key :: key in clean ==> key in full && full[key] == clean[key])
    && (forall key :: key in full && key !in clean ==> Expiration(config, full[key], now).Some?)
  }

  /** Equal answers, except that a cleaned-up session is missing instead of expired. */
  ghost predicate SameAnswer(full: Response, clean: Response) {
    match (full, clean)
    case (Resolved(Success(a)), Resolved(Success(b))) =>
      a.session == b.session && a.created == b.created
      && (a.replacedExpired == b.replacedExpired || (b.replacedExpired.None? && a.created))
    case (Resolved(a), Resolved(b)) => a == b
    case (Updated(Failure(a)), Updated(Failure(b))) => a == b || (a.SessionExpired? && b.SessionNotFound?)
    case (Updated(a), Updated(b)) => a == b
    case _ => false
  }

  ghost predicate SameAnswers(full: seq<Response>, clean: seq<Response>) {
    |full| == |clean| && forall i :: 0 <= i < |full| ==> SameAnswer(full[i], clean[i])
  }

  lemma SameStep(config: SessionConfig, full: Store, clean: Store, op: Op, now: Time)
    requires Cleaner(config, full, clean, now) && now <= op.now
    ensures var (full', a) := Step(config, full, op);
            var (clean', b) := Step(config, clean, op);
            Cleaner(config, full', clean', op.now) && SameAnswers(a, b)
  {
    forall key | key in full && key !in clean ensures Expiration(config, full[key], op.now).Some? {
      ExpiryIsStable(config, full[key], now, op.now);
    }
  }

  lemma ExtraCleanup(config: SessionConfig, full: Store, clean: Store, now: Time, at: Time)
    requires Cleaner(config, full, clean, now) && now <= at
    ensures Cleaner(config, full, CleanUp(config, clean, at), at)
  {
    forall key | key in full && key !in clean ensures Expiration(config, full[key], at).Some? {
      ExpiryIsStable(config, full[key], now, at);
    }
  }

  /** `more` is `ops` with any number of cleanups inserted anywhere. */
  ghost predicate WithCleanups(ops: seq<Op>, more: seq<Op>)
    decreases |more|
  {
    if more == [] then ops == []
    else || (ops != [] && ops[0] == more[0] && WithCleanups(ops[1..], more[1..]))
         || (more[0].Cleanup? && WithCleanups(ops, more[1..]))
  }

  ghost predicate Nondecreasing(ops: seq<Op>, from: Time) {
    ops != [] ==> from <= ops[0].now && Nondecreasing(ops[1..], ops[0].now)
  }

  lemma SameAnswersJoin(a: seq<Response>, b: seq<Response>, c: seq<Response>, d: seq<Response>)
    requires SameAnswers(a, b) && SameAnswers(c, d)
    ensures SameAnswers(a + c, b + d)
  {
  }

  /** Cleanups inserted anywhere in a run change no answer beyond what `SameAnswer` allows. */
  lemma {:induction false} CleanupIsTransparent(config: SessionConfig, full: Store, clean: Store, ops: seq<Op>,
      more: seq<Op>, now: Time)
    requires Cleaner(config, full, clean, now)
    requires WithCleanups(ops, more) && Nondecreasing(more, now)
    ensures SameAnswers(RunFrom(config, full, ops).1, RunFrom(config, clean, more).1)
    decreases |more|
  {
    hide Cleaner, SameAnswer;
    if more != [] {
      if ops != [] && ops[0] == more[0] && WithCleanups(ops[1..], more[1..]) {
        hide Step;
        SameStep(config, full, clean, ops[0], now);
        var (full', a) := Step(config, full, ops[0]);
        var (clean', b) := Step(config, clean, ops[0]);
        CleanupIsTransparent(config, full', clean', ops[1..], more[1..], ops[0].now);
        SameAnswersJoin(a, b, RunFrom(config, full', ops[1..]).1, RunFrom(config, clean', more[1..]).1);
      } else {
        var at := more[0].now;
        ExtraCleanup(config, full, clean, now, at);
        CleanupIsTransparent(config, full, CleanUp(config, clean, at), ops, more[1..], at);
        assert [] + RunFrom(config, CleanUp(config, clean, at), more[1..]).1 ==
          RunFrom(config, CleanUp(config, clean, at), more[1..]).1;
      }
    }
  }

  /** From any store, with the clock never going back. */
  lemma CleanupChangesNoAnswer(config: SessionConfig, store: Store, ops: seq<Op>, more: seq<Op>, now: Time)
    requires WithCleanups(ops, more) && Nondecreasing(more, now)
    ensures SameAnswers(RunFrom(config, store, ops).1, RunFrom(config, store, more).1)
  {
    hide RunFrom, SameAnswers, WithCleanups, Nondecreasing;
    CleanupIsTransparent(config, store, store, ops, more, now);
  }
}
