/**
 The in-memory session store (src/sessions.rs). Times are whole nanoseconds; the
 caller's identifier, a fresh request-scoped identifier and the clock are inputs.
 */
module Sessions {
  import opened Wrappers
  import opened Text

  type Time = int

  datatype FallbackScope = AgentFallback | RequestFallback | Disabled

  datatype SessionConfig = SessionConfig(idleTtl: nat, maxTtl: nat, maxRequests: nat, fallbackScope: FallbackScope) {
    /** What configuration loading enforces (src/config.rs:70-84). */
    predicate Valid() {
      0 < idleTtl <= maxTtl && 0 < maxRequests
    }
  }

  datatype SessionScope = AgentScope | RequestScope

  datatype ExpirationReason = IdleTtl | MaxTtl | MaxRequests

  datatype SessionContext = SessionContext(
    sessionKey: string, modelId: string, agentSessionId: string, scope: SessionScope,
    createdAt: Time, lastUsedAt: Time, expiresAt: Time, requestCount: nat,
    attestedModelPublicKey: Option<string>, attestationTeeProvider: Option<string>,
    attestationTdxDebug: Option<bool>, attestationNvidiaVerified: Option<string>, verifiedAt: Option<Time>)

  datatype AttestedModelState = AttestedModelState(
    modelPublicKey: string, teeProvider: Option<string>, tdxDebug: Option<bool>,
    nvidiaVerified: string, verifiedAt: Time)

  datatype SessionResolution = SessionResolution(session: SessionContext, created: bool,
    replacedExpired: Option<ExpirationReason>)

  datatype SessionError =
    | InvalidModelId
    | MissingSessionIdentifier
    | InvalidHeader
    | SessionNotFound(sessionKey: string)
    | SessionExpired(reason: ExpirationReason)

  datatype Identifier = Identifier(agentSessionId: string, scope: SessionScope)

  type Store = map<string, SessionContext>

  // -------- The operations on a store --------

  function SessionKey(modelId: string, agentSessionId: string): string {
    modelId + ":" + agentSessionId
  }

  function ElapsedSince(start: Time, now: Time): nat {
    if start <= now then now - start else 0
  }

  function Expiration(config: SessionConfig, session: SessionContext, now: Time): Option<ExpirationReason> {
    if config.maxRequests <= session.requestCount then Some(MaxRequests)
    else if session.expiresAt <= now then Some(MaxTtl)
    else if config.idleTtl <= ElapsedSince(session.lastUsedAt, now) then Some(IdleTtl)
    else None
  }

  function NewSession(config: SessionConfig, modelId: string, id: Identifier, now: Time): SessionContext {
    SessionContext(SessionKey(modelId, id.agentSessionId), modelId, id.agentSessionId, id.scope,
                   now, now, now + config.maxTtl, 1, None, None, None, None, None)
  }

  function Attested(session: SessionContext, state: AttestedModelState): SessionContext {
    session.(attestedModelPublicKey := Some(state.modelPublicKey), attestationTeeProvider := state.teeProvider,
             attestationTdxDebug := state.tdxDebug, attestationNvidiaVerified := Some(state.nvidiaVerified),
             verifiedAt := Some(state.verifiedAt))
  }

  function Used(session: SessionContext, now: Time): SessionContext {
    session.(requestCount := session.requestCount + 1, lastUsedAt := now)
  }

  /** The configured header of a request: absent, of a name that is none, not text, or text. */
  datatype Header = NoHeader | BadName | BadText | HeaderText(text: string)

  /** `non_empty_string`. */
  function NonEmpty(text: string): Option<string> {
    if Trim(text) == "" then None else Some(Trim(text))
  }

  /** `explicit_identifier`: from the header, else from the body's metadata. */
  function ExplicitIdentifier(header: Header, metadata: Option<string>): Result<Option<string>, SessionError> {
    var inMetadata := if metadata.Some? then NonEmpty(metadata.value) else None;
    match header
    case BadName => Failure(InvalidHeader)
    case BadText => Failure(InvalidHeader)
    case NoHeader => Success(inMetadata)
    case HeaderText(text) => Success(if NonEmpty(text).Some? then NonEmpty(text) else inMetadata)
  }

  /** `resolve_identifier`: the caller's identifier, else the configured fallback. */
  function ResolveIdentifier(config: SessionConfig, agentFallbackSessionId: string,
      explicit: Result<Option<string>, SessionError>, freshId: string): Result<Identifier, SessionError>
  {
    match explicit
    case Failure(e) => Failure(e)
    case Success(Some(value)) => Success(Identifier(value, AgentScope))
    case Success(None) =>
      match config.fallbackScope
      case AgentFallback => Success(Identifier(agentFallbackSessionId, AgentScope))
      case RequestFallback => Success(Identifier(freshId, RequestScope))
      case Disabled => Failure(MissingSessionIdentifier)
  }

  function GetOrCreate(config: SessionConfig, store: Store, modelId: string, id: Result<Identifier, SessionError>,
      now: Time): (Store, Result<SessionResolution, SessionError>)
  {
    if Blank(modelId) then (store, Failure(InvalidModelId))
    else match id
      case Failure(e) => (store, Failure(e))
      case Success(id) =>
        var key := SessionKey(modelId, id.agentSessionId);
        if key in store && Expiration(config, store[key], now).None? then
          var used := Used(store[key], now);
          (store[key := used], Success(SessionResolution(used, false, None)))
        else
          var session := NewSession(config, modelId, id, now);
          var replaced := if key in store then Expiration(config, store[key], now) else None;
          (store[key := session], Success(SessionResolution(session, true, replaced)))
  }

  function SetAttested(config: SessionConfig, store: Store, key: string, state: AttestedModelState, now: Time)
    : (Store, Result<SessionContext, SessionError>)
  {
    if key !in store then (store, Failure(SessionNotFound(key)))
    else match Expiration(config, store[key], now)
      case Some(reason) => (store - {key}, Failure(SessionExpired(reason)))
      case None =>
        var session := Attested(store[key], state);
        (store[key := session], Success(session))
  }

  function CleanUp(config: SessionConfig, store: Store, now: Time): Store {
    map key | key in store && Expiration(config, store[key], now).None? :: store[key]
  }

  /** The keys of the sessions a cleanup removes. */
  function Expired(config: SessionConfig, store: Store, now: Time): set<string> {
    set key | key in store && Expiration(config, store[key], now).Some?
  }

  // -------- The manager --------

  class SessionManager {
    const config: SessionConfig
    const agentFallbackSessionId: string
    var sessions: Store

    constructor (config: SessionConfig, agentFallbackSessionId: string)
      ensures this.config == config && this.agentFallbackSessionId == agentFallbackSessionId && sessions == map[]
    {
      this.config := config;
      this.agentFallbackSessionId := agentFallbackSessionId;
      sessions := map[];
    }

    method GetOrCreateAt(modelId: string, explicit: Result<Option<string>, SessionError>, freshId: string, now: Time)
      returns (r: Result<SessionResolution, SessionError>)
      modifies this`sessions
      ensures var id := ResolveIdentifier(config, agentFallbackSessionId, explicit, freshId);
              (sessions, r) == GetOrCreate(config, old(sessions), modelId, id, now)
    {
      if Blank(modelId) {
        return Failure(InvalidModelId);
      }
      var resolved := ResolveIdentifier(config, agentFallbackSessionId, explicit, freshId);
      if resolved.Failure? {
        return Failure(resolved.error);
      }
      var id := resolved.value;
      var key := SessionKey(modelId, id.agentSessionId);
      var replacedExpired: Option<ExpirationReason> := None;
      if key in sessions {
        replacedExpired := Expiration(config, sessions[key], now);
      }
      if replacedExpired.Some? {
        sessions := sessions - {key};
      }
      if key in sessions {
        sessions := sessions[key := Used(sessions[key], now)];
        return Success(SessionResolution(sessions[key], false, None));
      }
      var session := NewSession(config, modelId, id, now);
      assert sessions[key := session] == old(sessions)[key := session];
      sessions := sessions[key := session];
      return Success(SessionResolution(session, true, replacedExpired));
    }

    method SetAttestedModelStateAt(key: string, state: AttestedModelState, now: Time)
      returns (r: Result<SessionContext, SessionError>)
      modifies this`sessions
      ensures (sessions, r) == SetAttested(config, old(sessions), key, state, now)
    {
      if key in sessions {
        var expired := Expiration(config, sessions[key], now);
        if expired.Some? {
          sessions := sessions - {key};
          return Failure(SessionExpired(expired.value));
        }
      }
      if key !in sessions {
        return Failure(SessionNotFound(key));
      }
      var session := Attested(sessions[key], state);
      sessions := sessions[key := session];
      return Success(session);
    }

    /** Walk the map in some order and keep what has not expired. */
    method CleanupExpiredAt(now: Time) returns (removed: nat)
      modifies this`sessions
      ensures forall key :: key in sessions <==>
              key in old(sessions) && Expiration(config, old(sessions)[key], now).None?
      ensures forall key :: key in sessions ==> sessions[key] == old(sessions)[key]
      ensures removed == |Expired(config, old(sessions), now)|
      ensures sessions == CleanUp(config, old(sessions), now)
    {
      hide Expiration, CleanUp;
      var before := |sessions|;
      var unseen := sessions.Keys;
      ghost var gone: set<string> := {};
      while unseen != {}
        invariant unseen <= sessions.Keys <= old(sessions).Keys
        invariant forall key :: key in sessions ==> sessions[key] == old(sessions)[key]
        invariant gone == set key | key in Expired(config, old(sessions), now) && key !in unseen
        invariant sessions.Keys == old(sessions).Keys - gone && |sessions| + |gone| == before
        decreases unseen
      {
        var key :| key in unseen;
        unseen := unseen - {key};
        if Expiration(config, sessions[key], now).Some? {
          sessions := sessions - {key};
          gone := gone + {key};
        }
      }
      assert gone == Expired(config, old(sessions), now);
      removed := before - |sessions|;
      CleanUpIs(config, old(sessions), sessions, now);
    }
  }

  lemma CleanUpIs(config: SessionConfig, store: Store, kept: Store, now: Time)
    requires forall key :: key in kept <==> key in store && Expiration(config, store[key], now).None?
    requires forall key :: key in kept ==> kept[key] == store[key]
    ensures kept == CleanUp(config, store, now)
  {
    hide Expiration;
  }

  // -------- Runs --------

  datatype Op =
    | Get(modelId: string, id: Result<Identifier, SessionError>, now: Time)
    | Attest(key: string, state: AttestedModelState, now: Time)
    | Cleanup(now: Time)

  /** What callers see: cleanups answer nothing. */
  datatype Response =
    | Resolved(r: Result<SessionResolution, SessionError>)
    | Updated(u: Result<SessionContext, SessionError>)

  function Step(config: SessionConfig, store: Store, op: Op): (Store, seq<Response>) {
    match op
    case Get(modelId, id, now) => var (next, r) := GetOrCreate(config, store, modelId, id, now); (next, [Resolved(r)])
    case Attest(key, state, now) => var (next, r) := SetAttested(config, store, key, state, now); (next, [Updated(r)])
    case Cleanup(now) => (CleanUp(config, store, now), [])
  }

  function RunFrom(config: SessionConfig, store: Store, ops: seq<Op>): (Store, seq<Response>)
    decreases |ops|
  {
    if ops == [] then (store, [])
    else
      var (mid, first) := Step(config, store, ops[0]);
      var (end, rest) := RunFrom(config, mid, ops[1..]);
      (end, first + rest)
  }
}
