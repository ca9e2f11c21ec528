/**
 What every step of every interleaving keeps.  `Inv` ties the stored records, the signed claims and
 the requests in flight to the history of consents and families.
 */
module OAuthInvariant {
  import opened Options
  import opened OAuthStore
  import opened Jwt
  import opened OAuthFlow

  predicate CodeMatches(code: CodeRecord, c: Consent) {
    && code.clientId == c.clientId && code.redirectUri == c.redirectUri && code.scope == c.scope
    && code.resource == c.resource && code.codeChallenge == c.codeChallenge
  }

  predicate TokenMatches(t: RefreshRecord, c: Consent) {
    t.clientId == c.clientId && t.subject == c.clientId && t.scope == c.scope && t.resource == c.resource
  }

  /** The consent named a registered client, one of its redirects, read scope and this server's resource. */
  ghost predicate ConsentOk(texts: Texts, clients: map<Id, ClientRecord>, c: Consent) {
    && c.clientId != EMPTY && c.clientId in clients && c.redirectUri in clients[c.clientId].redirectUris
    && MCP_READ in ScopeSet(texts.chars(c.scope)) && c.resource == texts.mcpOf(c.base)
  }

  ghost predicate ClientsOk(clients: map<Id, ClientRecord>, roles: map<Id, Role>) {
    forall k :: k in clients ==> clients[k].clientId == k && k != EMPTY && k in roles
  }

  ghost predicate ConsentsOk(texts: Texts, clients: map<Id, ClientRecord>, consents: map<Id, Consent>) {
    forall k :: k in consents ==> ConsentOk(texts, clients, consents[k])
  }

  ghost predicate CodesOk(codes: map<Id, CodeRecord>, consents: map<Id, Consent>, roles: map<Id, Role>) {
    && codes.Keys == consents.Keys
    && (forall k :: k in codes ==>
        codes[k].jti == k && CodeMatches(codes[k], consents[k]) && k in roles && roles[k] == CodeRole)
  }

  /** The family was opened by a consumed code with a verifier that answers its challenge. */
  ghost predicate FamilyOk(texts: Texts, f: Family, codes: map<Id, CodeRecord>, consents: map<Id, Consent>) {
    && f.code in consents && f.code in codes && codes[f.code].consumedAt.Some?
    && VerifyPkceS256(texts, f.verifier, consents[f.code].codeChallenge)
    && |f.chain| == |f.access| > 0
  }

  ghost predicate FamiliesOk(texts: Texts, families: map<Id, Family>, codes: map<Id, CodeRecord>,
          consents: map<Id, Consent>, roles: map<Id, Role>) {
    forall k :: k in families ==> k in roles && roles[k] == FamilyRole && FamilyOk(texts, families[k], codes, consents)
  }

  ghost predicate ChainsOk(families: map<Id, Family>, roles: map<Id, Role>) {
    forall k :: k in families ==>
      && (forall i :: 0 <= i < |families[k].chain| ==>
          families[k].chain[i] in roles && roles[families[k].chain[i]] == RefreshRole(k, i))
      && (forall i :: 0 <= i < |families[k].access| ==>
          families[k].access[i] in roles && roles[families[k].access[i]] == AccessRole(k, i))
  }

  ghost predicate RoleOk(id: Id, role: Role, families: map<Id, Family>) {
    match role
    case RefreshRole(f, i) => f in families && i < |families[f].chain| && families[f].chain[i] == id
    case AccessRole(f, i) => f in families && i < |families[f].access| && families[f].access[i] == id
    case _ => true
  }

  ghost predicate RolesOk(families: map<Id, Family>, roles: map<Id, Role>) {
    forall id :: id in roles ==> RoleOk(id, roles[id], families)
  }

  ghost predicate CodesOnce(families: map<Id, Family>) {
    forall f, g :: f in families && g in families && families[f].code == families[g].code ==> f == g
  }

  ghost predicate TokenOk(id: Id, t: RefreshRecord, families: map<Id, Family>, consents: map<Id, Consent>,
          roles: map<Id, Role>) {
    && t.jti == id && id in roles && roles[id].RefreshRole? && roles[id].familyId == t.familyId
    && t.familyId in families && families[t.familyId].code in consents
    && TokenMatches(t, consents[families[t.familyId].code])
  }

  ghost predicate TokensOk(tokens: map<Id, RefreshRecord>, families: map<Id, Family>, consents: map<Id, Consent>,
          roles: map<Id, Role>) {
    forall k :: k in tokens ==> TokenOk(k, tokens[k], families, consents, roles)
  }

  /** Every token of a chain but the last was stored and consumed. */
  ghost predicate OnlyLastLive(tokens: map<Id, RefreshRecord>, families: map<Id, Family>) {
    forall k :: k in families ==>
      forall i :: 0 <= i < |families[k].chain| - 1 ==> Used(tokens, families[k].chain[i])
  }

  predicate Used(tokens: map<Id, RefreshRecord>, id: Id) { id in tokens && tokens[id].consumedAt.Some? }

  /** The claims name a code, or a place in a family, and repeat its consent. */
  ghost predicate ClaimsOk(texts: Texts, c: Claims, families: map<Id, Family>, consents: map<Id, Consent>,
          roles: map<Id, Role>) {
    match c
    case CodeClaims(iss, aud, jti, client, redirect, scope, challenge, resource, _) =>
      && jti in consents
      && var k := consents[jti];
         && iss == k.base && aud == texts.tokenEndpointOf(iss) && client == k.clientId && redirect == k.redirectUri
         && scope == k.scope && challenge == k.codeChallenge && resource == k.resource
    case AccessClaims(iss, sub, aud, scope, jti, resource, _) =>
      && jti in roles && roles[jti].AccessRole? && roles[jti].familyId in families
      && families[roles[jti].familyId].code in consents
      && var k := consents[families[roles[jti].familyId].code];
         && iss == k.base && sub == k.clientId && aud == resource == k.resource && scope == k.scope
    case RefreshClaims(iss, sub, aud, scope, jti, family, resource, _) =>
      && jti in roles && roles[jti].RefreshRole? && roles[jti].familyId == family && family in families
      && families[family].code in consents
      && var k := consents[families[family].code];
         && iss == k.base && sub == k.clientId && aud == resource == k.resource && scope == k.scope
  }

  ghost predicate SignedOk(texts: Texts, signed: set<Claims>, families: map<Id, Family>, consents: map<Id, Consent>,
          roles: map<Id, Role>) {
    forall c :: c in signed ==> ClaimsOk(texts, c, families, consents, roles)
  }

  /** What a request knows and no later step of another request can undo. */
  ghost predicate Grounded(texts: Texts, s: System, q: Request) {
    match q
    case Agreed(c) => ConsentOk(texts, s.store.clients, c)
    case CodeKept(c, code) => code.jti in s.consents && s.consents[code.jti] == c
    case CodeVerified(_, claims) => claims in s.signed && claims.CodeClaims?
    case CodeTaken(_, claims, code) =>
      && claims in s.signed && claims.CodeClaims? && claims.jti == code.jti && code.jti in s.consents
      && CodeMatches(code, s.consents[code.jti])
      && code.jti in s.store.authorizationCodes && s.store.authorizationCodes[code.jti].consumedAt.Some?
    case TokenVerified(base, claims) => claims in s.signed && claims.RefreshClaims? && claims.iss == base
    case TokenTaken(base, t) =>
        TokenOk(t.jti, t, s.families, s.consents, s.roles) && base == s.consents[s.families[t.familyId].code].base &&
            Used(s.store.refreshTokens, t.jti)
    case Minted(base, t) =>
        TokenOk(t.jti, t, s.families, s.consents, s.roles) && base == s.consents[s.families[t.familyId].code].base &&
            t.consumedAt.None?
    case Kept(base, t) =>
        TokenOk(t.jti, t, s.families, s.consents, s.roles) && base == s.consents[s.families[t.familyId].code].base
    case _ => true
  }

  /** The code or token a request alone is responsible for. */
  function Carried(q: Request): Option<Id> {
    match q
    case CodeTaken(_, _, code) => Some(code.jti)
    case TokenTaken(_, t) => Some(t.jti)
    case Minted(_, t) => Some(t.jti)
    case _ => None
  }

  predicate IsLast(s: System, id: Id, familyId: Id) {
    && id in s.roles && familyId in s.families && |s.families[familyId].chain| > 0
    && s.roles[id] == RefreshRole(familyId, |s.families[familyId].chain| - 1)
  }

  /** What a request holds on its own: an unexchanged code, or the last token of its chain. */
  ghost predicate Held(s: System, q: Request) {
    match q
    case CodeTaken(_, _, code) => forall f :: f in s.families ==> s.families[f].code != code.jti
    case TokenTaken(_, t) => IsLast(s, t.jti, t.familyId)
    case Minted(_, t) => IsLast(s, t.jti, t.familyId) && t.jti !in s.store.refreshTokens
    case _ => true
  }

  ghost predicate RequestsOk(texts: Texts, s: System) {
    forall r :: r in s.requests ==> Grounded(texts, s, s.requests[r]) && Held(s, s.requests[r])
  }

  ghost predicate Exclusive(requests: map<Id, Request>) {
    forall r, q | r in requests && q in requests && Carried(requests[r]).Some? &&
        Carried(requests[r]) == Carried(requests[q])
      :: r == q
  }

  ghost predicate HistoryOk(texts: Texts, s: System) {
    && ClientsOk(s.store.clients, s.roles)
    && ConsentsOk(texts, s.store.clients, s.consents)
    && CodesOk(s.store.authorizationCodes, s.consents, s.roles)
    && FamiliesOk(texts, s.families, s.store.authorizationCodes, s.consents, s.roles)
    && ChainsOk(s.families, s.roles)
    && RolesOk(s.families, s.roles)
    && CodesOnce(s.families)
  }

  ghost predicate TokenStateOk(texts: Texts, s: System) {
    && TokensOk(s.store.refreshTokens, s.families, s.consents, s.roles)
    && OnlyLastLive(s.store.refreshTokens, s.families)
    && SignedOk(texts, s.signed, s.families, s.consents, s.roles)
  }

  ghost predicate Inv(texts: Texts, s: System) {
    && HistoryOk(texts, s)
    && TokenStateOk(texts, s)
    && RequestsOk(texts, s)
    && Exclusive(s.requests)
  }

  // ----- growth: what no step takes back -----

  ghost predicate Grows(s: System, t: System) {
    && (forall k :: k in s.store.clients ==> k in t.store.clients && t.store.clients[k] == s.store.clients[k])
    && (forall k :: k in s.consents ==> k in t.consents && t.consents[k] == s.consents[k])
    && (forall k :: k in s.roles ==> k in t.roles && t.roles[k] == s.roles[k])
    && (forall k :: k in s.families ==> k in t.families && t.families[k].code == s.families[k].code)
    && (forall k :: k in s.store.authorizationCodes && s.store.authorizationCodes[k].consumedAt.Some? ==>
          k in t.store.authorizationCodes && t.store.authorizationCodes[k].consumedAt.Some?)
    && (forall k :: Used(s.store.refreshTokens, k) ==> Used(t.store.refreshTokens, k))
    && s.signed <= t.signed
    && s.store.compromisedFamilies <= t.store.compromisedFamilies
  }

  lemma GroundedGrows(texts: Texts, s: System, t: System, q: Request)
    requires Grows(s, t) && Grounded(texts, s, q)
    ensures Grounded(texts, t, q)
  {}

  // ----- requests -----

  /** Requests other than `rid` stay as they are when nothing they hold is touched. */
  lemma RequestsFollow(texts: Texts, s: System, t: System, rid: Id)
    requires RequestsOk(texts, s) && Exclusive(s.requests) && Grows(s, t)
    requires rid in t.requests && t.requests == s.requests[rid := t.requests[rid]]
    requires Grounded(texts, t, t.requests[rid]) && Held(t, t.requests[rid])
    requires forall r :: r in s.requests && r != rid ==> Held(t, s.requests[r])
    requires Carried(t.requests[rid]).Some? ==> forall r :: r in s.requests && r != rid ==>
        Carried(s.requests[r]) != Carried(t.requests[rid])
    ensures RequestsOk(texts, t) && Exclusive(t.requests)
  {
    forall r | r in t.requests
      ensures Grounded(texts, t, t.requests[r]) && Held(t, t.requests[r])
    {
      if r != rid {
        GroundedGrows(texts, s, t, s.requests[r]);
      }
    }
  }

  lemma AllGroundedGrow(texts: Texts, s: System, t: System)
    requires RequestsOk(texts, s) && Grows(s, t) && t.requests == s.requests
    requires t.families == s.families && t.store.refreshTokens == s.store.refreshTokens
    ensures RequestsOk(texts, t)
  {
    forall r | r in t.requests
      ensures Grounded(texts, t, t.requests[r]) && Held(t, t.requests[r])
    {
      GroundedGrows(texts, s, t, s.requests[r]);
    }
  }

  lemma PutKeepsState(texts: Texts, s: System, rid: Id, q: Request)
    requires HistoryOk(texts, s) && TokenStateOk(texts, s)
    ensures HistoryOk(texts, Put(s, rid, q)) && TokenStateOk(texts, Put(s, rid, q))
  {}

  lemma PutKeepsRequests(texts: Texts, s: System, rid: Id, q: Request)
    requires RequestsOk(texts, s) && Exclusive(s.requests) && Grounded(texts, s, q) && Carried(q) == None
    ensures RequestsOk(texts, Put(s, rid, q)) && Exclusive(Put(s, rid, q).requests)
  {
    var t := Put(s, rid, q);
    PutGrows(s, rid, q);
    GroundedGrows(texts, s, t, q);
    RequestsFollow(texts, s, t, rid);
  }

  /** A step that touches neither the store nor the history, and carries nothing new. */
  lemma MovesOnly(texts: Texts, s: System, rid: Id, q: Request)
    requires Inv(texts, s) && Grounded(texts, s, q) && Carried(q) == None
    ensures Inv(texts, Put(s, rid, q)) && Grows(s, Put(s, rid, q))
  {
    PutGrows(s, rid, q);
    PutKeepsState(texts, s, rid, q);
    PutKeepsRequests(texts, s, rid, q);
  }

  lemma PutGrows(s: System, rid: Id, q: Request)
    ensures Grows(s, Put(s, rid, q))
  {}

  // ----- growth of single parts -----

  /** A fresh identifier for a client or a code disturbs nothing. */
  lemma PlainRoleKeepsHistory(texts: Texts, s: System, id: Id, role: Role)
    requires HistoryOk(texts, s) && id !in s.roles && (role == ClientRole || role == CodeRole)
    ensures HistoryOk(texts, s.(roles := s.roles[id := role]))
  {}

  lemma PlainRoleKeepsTokens(texts: Texts, s: System, id: Id, role: Role)
    requires TokenStateOk(texts, s) && id !in s.roles
    ensures TokenStateOk(texts, s.(roles := s.roles[id := role]))
  {
    var t := s.(roles := s.roles[id := role]);
    assert SignedOk(texts, t.signed, t.families, t.consents, t.roles);
  }

  lemma NewClientKeepsHistory(texts: Texts, s: System, client: ClientRecord)
    requires HistoryOk(texts, s) && client.clientId in s.roles && client.clientId !in s.store.clients &&
        client.clientId != EMPTY
    ensures HistoryOk(texts, s.(store := s.store.(clients := s.store.clients[client.clientId := client])))
  {
    var clients := s.store.clients[client.clientId := client];
    assert ConsentsOk(texts, clients, s.consents);
  }

  lemma RegisterKeeps(texts: Texts, s: System, id: Id, name: Text, uris: seq<Text>, nowMs: int)
    requires Inv(texts, s)
    ensures Inv(texts, DoRegister(s, id, name, uris, nowMs)) && Grows(s, DoRegister(s, id, name, uris, nowMs))
  {
    if Fresh(s, id) {
      var t := DoRegister(s, id, name, uris, nowMs);
      var u := s.(roles := s.roles[id := ClientRole]);
      PlainRoleKeepsHistory(texts, s, id, ClientRole);
      PlainRoleKeepsTokens(texts, s, id, ClientRole);
      NewClientKeepsHistory(texts, u, NewClient(id, name, uris, nowMs));
      RegisterGrows(s, id, name, uris, nowMs);
      AllGroundedGrow(texts, s, t);
    }
  }

  lemma RegisterGrows(s: System, id: Id, name: Text, uris: seq<Text>, nowMs: int)
    requires Fresh(s, id) && id !in s.store.clients
    ensures Grows(s, DoRegister(s, id, name, uris, nowMs))
  {}
}
