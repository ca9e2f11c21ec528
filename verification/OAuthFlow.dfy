/**
 The authorize and token endpoints as small programs over the shared store.  One event is one atomic
 step of one request: a store call together with the local work up to the next `await`.  A run is any
 sequence of events, so requests interleave freely and may stop for ever between two steps.
 */
module OAuthFlow {
  import opened Options
  import opened OAuthStore
  import opened Jwt

  const CODE_SECONDS := 300
  const ACCESS_SECONDS := 3600
  const REFRESH_SECONDS := 30 * 24 * 3600

  // ----- requests -----

  /** The posted consent form; an absent or empty field is None. */
  datatype AuthorizeForm = AuthorizeForm(
    base: Text, clientId: Option<Id>, redirectUri: Option<Text>, redirectUriIsValid: bool, scope: Option<Text>,
    codeChallenge: Option<Text>, methodIsS256: bool, isDeny: bool, resource: Option<Text>)

  /** What the user agreed to. */
  datatype Consent = Consent(
    base: Text, clientId: Id, redirectUri: Text, scope: Text, resource: Text, codeChallenge: Text)

  datatype ExchangeForm = ExchangeForm(
    base: Text, verifier: Text, clientId: Option<Id>, redirectUri: Option<Text>)

  /** Where a request stands. */
  datatype Request =
    | Agreed(consent: Consent)
    | CodeKept(consent: Consent, code: CodeRecord)
    | Redirected
    | CodeVerified(form: ExchangeForm, claims: Claims)
    | CodeTaken(form: ExchangeForm, claims: Claims, code: CodeRecord)
    | TokenVerified(base: Text, claims: Claims)
    | TokenTaken(base: Text, token: RefreshRecord)
    | Minted(base: Text, next: RefreshRecord)
    | Kept(base: Text, next: RefreshRecord)
    | Answered
    | Rejected

  // ----- history, kept only to state properties -----

  /** Who an identifier was generated for. */
  datatype Role =
    | ClientRole
    | CodeRole
    | FamilyRole
    | RefreshRole(familyId: Id, index: nat)
    | AccessRole(familyId: Id, index: nat)

  /** A refresh family: the code that opened it, the verifier presented for that code, and the
      refresh and access identifiers minted in it, oldest first. */
  datatype Family = Family(code: Id, verifier: Text, chain: seq<Id>, access: seq<Id>)

  datatype System = System(
    store: Memory,
    signed: set<Claims>,
    requests: map<Id, Request>,
    roles: map<Id, Role>,
    consents: map<Id, Consent>,
    families: map<Id, Family>)

  const INITIAL := System(EMPTY_MEMORY, {}, map[], map[], map[], map[])

  // ----- events -----

  datatype Event =
    | Register(freshId: Id, clientName: Text, redirectUris: seq<Text>)
    | Throttle(key: Id, windowMs: int, maxRequests: int)
    | PostConsent(rid: Id, consentForm: AuthorizeForm)
    | KeepCode(rid: Id, freshId: Id)
    | SignCode(rid: Id)
    | PostCode(rid: Id, form: ExchangeForm, claims: Claims)
    | TakeCode(rid: Id)
    | MintFirst(rid: Id, freshAccess: Id, freshRefresh: Id, freshFamily: Id)
    | PostRefresh(rid: Id, base: Text, claims: Claims)
    | TakeToken(rid: Id)
    | MintNext(rid: Id, freshAccess: Id, freshRefresh: Id)
    | KeepToken(rid: Id)
    | SignToken(rid: Id)
    | Abort(rid: Id)

  /** `generateId` answers an identifier that was never used. */
  predicate Fresh(s: System, id: Id) { id != EMPTY && id !in s.roles }

  predicate At(s: System, rid: Id) { rid in s.requests }

  function Put(s: System, rid: Id, q: Request): System { s.(requests := s.requests[rid := q]) }

  function DoRegister(s: System, id: Id, name: Text, uris: seq<Text>, nowMs: int): System {
    if !Fresh(s, id) then s else
    s.(store := MemRegister(s.store, id, name, uris, nowMs).next, roles := s.roles[id := ClientRole])
  }

  function ScopeText(texts: Texts, scope: Option<Text>): Option<string> {
    if scope.None? then None else Some(texts.chars(scope.value))
  }

  /** `scope || "mcp:read"`. */
  function RecordedScope(texts: Texts, scope: Option<Text>): Text {
    if scope.None? || texts.chars(scope.value) == "" then texts.mcpRead else scope.value
  }

  /** The checks on a form whose client id the store answered with `client`; the consent that passes them. */
  function CheckClient(texts: Texts, form: AuthorizeForm, client: Option<ClientRecord>): Option<Consent> {
    if form.clientId.None? || form.redirectUri.None? then None
    else if client.None? || form.redirectUri.value !in client.value.redirectUris then None
    else if !form.redirectUriIsValid then None
    else if !form.methodIsS256 || form.codeChallenge.None? then None
    else if !IsAcceptedScope(ScopeText(texts, form.scope)) then None
    else if form.resource.Some? && form.resource.value != texts.mcpOf(form.base) then None
    else if form.isDeny then None
    else Some(Consent(form.base, client.value.clientId, form.redirectUri.value,
                      RecordedScope(texts, form.scope), form.resource.GetOr(texts.mcpOf(form.base)),
                      form.codeChallenge.value))
  }

  /** `validateRegisteredClient` and the checks after it. */
  function CheckConsent(texts: Texts, s: System, form: AuthorizeForm, nowMs: int): Option<Consent> {
    if form.clientId.None? then None else CheckClient(texts, form, MemGetClient(s.store, form.clientId.value, nowMs))
  }

  function DoPostConsent(texts: Texts, s: System, rid: Id, form: AuthorizeForm, nowMs: int): System {
    if At(s, rid) then s else
    var consent := CheckConsent(texts, s, form, nowMs);
    Put(s, rid, if consent.None? then Rejected else Agreed(consent.value))
  }

  /** The record of the code given for a consent. */
  function CodeToKeep(c: Consent, jti: Id, nowMs: int): CodeRecord {
    CodeRecord(jti, c.clientId, c.redirectUri, c.scope, c.resource, c.codeChallenge, Seconds(nowMs) + CODE_SECONDS,
        None)
  }

  function DoKeepCode(s: System, rid: Id, jti: Id, nowMs: int): System {
    if !At(s, rid) || !s.requests[rid].Agreed? || !Fresh(s, jti) then s else
    var c := s.requests[rid].consent;
    var code := CodeToKeep(c, jti, nowMs);
    Put(s, rid, CodeKept(c, code)).(
      store := MemStoreCode(s.store, code),
      roles := s.roles[jti := CodeRole],
      consents := s.consents[jti := c])
  }

  function CodeClaimsOf(texts: Texts, c: Consent, jti: Id, nowMs: int): Claims {
    CodeClaims(c.base, texts.tokenEndpointOf(c.base), jti, c.clientId, c.redirectUri, c.scope,
               c.codeChallenge, c.resource, Seconds(nowMs) + CODE_SECONDS)
  }

  function DoSignCode(texts: Texts, s: System, rid: Id, nowMs: int): System {
    if !At(s, rid) || !s.requests[rid].CodeKept? then s else
    var q := s.requests[rid];
    Put(s, rid, Redirected).(signed := s.signed + {CodeClaimsOf(texts, q.consent, q.code.jti, nowMs)})
  }

  function DoPostCode(s: System, rid: Id, form: ExchangeForm, claims: Claims, nowMs: int): System {
    if At(s, rid) then s
    else if Verifies(s.signed, claims, nowMs) && claims.CodeClaims? then Put(s, rid, CodeVerified(form, claims))
    else Put(s, rid, Rejected)
  }

  function DoTakeCode(s: System, rid: Id, nowMs: int): System {
    if !At(s, rid) || !s.requests[rid].CodeVerified? then s else
    var q := s.requests[rid];
    var step := MemConsumeCode(s.store, q.claims.jti, nowMs);
    Put(s, rid, if step.reply.code.None? then Rejected else CodeTaken(q.form, q.claims, step.reply.code.value)).(
      store := step.next)
  }

  /** The checks between consuming a code and minting: verifier, redirect, client, issuer, audience. */
  predicate ExchangeAllowed(texts: Texts, form: ExchangeForm, claims: Claims, code: CodeRecord) {
    && VerifyPkceS256(texts, form.verifier, code.codeChallenge)
    && (form.redirectUri.None? || form.redirectUri.value == code.redirectUri)
    && (form.clientId.None? || form.clientId.value == code.clientId)
    && claims.iss == form.base && claims.aud == texts.tokenEndpointOf(form.base)
  }

  function DoMintFirst(texts: Texts, s: System, rid: Id, access: Id, refresh: Id, family: Id, nowMs: int): System {
    if !At(s, rid) || !s.requests[rid].CodeTaken? then s else
    var q := s.requests[rid];
    if !ExchangeAllowed(texts, q.form, q.claims, q.code) then Put(s, rid, Rejected)
    else if !Fresh(s, access) || !Fresh(s, refresh) || !Fresh(s, family)
            || access == refresh || refresh == family || access == family then s
    else
      var code := q.code;
      var next := RefreshRecord(refresh, family, code.clientId, code.clientId, code.scope, code.resource,
                                Seconds(nowMs) + REFRESH_SECONDS, None);
      Put(s, rid, Minted(q.form.base, next)).(
        signed := s.signed + {AccessClaims(q.form.base, code.clientId, code.resource, code.scope, access,
                                           code.resource, Seconds(nowMs) + ACCESS_SECONDS)},
        roles := s.roles[family := FamilyRole][refresh := RefreshRole(family, 0)][access := AccessRole(family, 0)],
        families := s.families[family := Family(code.jti, q.form.verifier, [refresh], [access])])
  }

  function DoPostRefresh(s: System, rid: Id, base: Text, claims: Claims, nowMs: int): System {
    if At(s, rid) then s
    else if Verifies(s.signed, claims, nowMs) && claims.RefreshClaims? && claims.iss == base then
      Put(s, rid, TokenVerified(base, claims))
    else Put(s, rid, Rejected)
  }

  function DoTakeToken(s: System, rid: Id, nowMs: int): System {
    if !At(s, rid) || !s.requests[rid].TokenVerified? then s else
    var q := s.requests[rid];
    var step := MemConsumeRefresh(s.store, q.claims.jti, nowMs);
    Put(s, rid, if step.reply.result.Consumed? then TokenTaken(q.base, step.reply.result.record) else Rejected).(
      store := step.next)
  }

  function FamilyOf(s: System, id: Id): Family {
    if id in s.families then s.families[id] else Family(EMPTY, 0, [], [])
  }

  function DoMintNext(s: System, rid: Id, access: Id, refresh: Id, nowMs: int): System {
    if !At(s, rid) || !s.requests[rid].TokenTaken? then s
    else if !Fresh(s, access) || !Fresh(s, refresh) || access == refresh then s else
    var q := s.requests[rid];
    var taken := q.token;
    var next := RefreshRecord(refresh, taken.familyId, taken.clientId, taken.subject, taken.scope, taken.resource,
                              Seconds(nowMs) + REFRESH_SECONDS, None);
    var f := FamilyOf(s, taken.familyId);
    Put(s, rid, Minted(q.base, next)).(
      signed := s.signed + {AccessClaims(q.base, taken.subject, taken.resource, taken.scope, access,
                                         taken.resource, Seconds(nowMs) + ACCESS_SECONDS)},
      roles := s.roles[refresh := RefreshRole(taken.familyId, |f.chain|)]
                      [access := AccessRole(taken.familyId, |f.access|)],
      families := s.families[taken.familyId := f.(chain := f.chain + [refresh], access := f.access + [access])])
  }

  function DoKeepToken(s: System, rid: Id): System {
    if !At(s, rid) || !s.requests[rid].Minted? then s else
    var q := s.requests[rid];
    Put(s, rid, Kept(q.base, q.next)).(store := MemStoreRefresh(s.store, q.next))
  }

  function DoSignToken(s: System, rid: Id, nowMs: int): System {
    if !At(s, rid) || !s.requests[rid].Kept? then s else
    var q := s.requests[rid];
    var t := q.next;
    Put(s, rid, Answered).(
      signed := s.signed + {RefreshClaims(q.base, t.subject, t.resource, t.scope, t.jti, t.familyId, t.resource,
                                          Seconds(nowMs) + REFRESH_SECONDS)})
  }

  /** One atomic step at time `nowMs`; an event that does not fit the state changes nothing. */
  function Step(texts: Texts, s: System, e: Event, nowMs: int): System {
    match e
    case Register(id, name, uris) => DoRegister(s, id, name, uris, nowMs)
    case Throttle(key, w, m) => s.(store := MemRateLimit(s.store, key, w, m, nowMs).next)
    case PostConsent(rid, form) => DoPostConsent(texts, s, rid, form, nowMs)
    case KeepCode(rid, jti) => DoKeepCode(s, rid, jti, nowMs)
    case SignCode(rid) => DoSignCode(texts, s, rid, nowMs)
    case PostCode(rid, form, claims) => DoPostCode(s, rid, form, claims, nowMs)
    case TakeCode(rid) => DoTakeCode(s, rid, nowMs)
    case MintFirst(rid, access, refresh, family) => DoMintFirst(texts, s, rid, access, refresh, family, nowMs)
    case PostRefresh(rid, base, claims) => DoPostRefresh(s, rid, base, claims, nowMs)
    case TakeToken(rid) => DoTakeToken(s, rid, nowMs)
    case MintNext(rid, access, refresh) => DoMintNext(s, rid, access, refresh, nowMs)
    case KeepToken(rid) => DoKeepToken(s, rid)
    case SignToken(rid) => DoSignToken(s, rid, nowMs)
    case Abort(rid) => if At(s, rid) then Put(s, rid, Rejected) else s
  }

  datatype TimedEvent = TimedEvent(event: Event, nowMs: int)

  function Run(texts: Texts, s: System, events: seq<TimedEvent>): System
    decreases |events|
  {
    if events == [] then s else Run(texts, Step(texts, s, events[0].event, events[0].nowMs), events[1..])
  }
}
