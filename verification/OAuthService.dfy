/**
 What the endpoints grant.  The theorems of safety would hold of a server that refuses everything; here every step that
 can refuse is shown to succeed exactly when it should, and an honest client to get the tokens of its consent.
 */
module OAuthService {
  import opened Options
  import opened OAuthStore
  import opened Jwt
  import opened OAuthFlow
  import opened OAuthInvariant
  import opened OAuthMinting
  import opened OAuthTheorems
  import opened OAuthFirestore

  // ----- registered clients -----

  /** Event i registered the client, and this is its record. */
  ghost predicate RegisteredAt(events: seq<TimedEvent>, i: int, client: ClientRecord) {
    && 0 <= i < |events|
    && events[i].event == Register(client.clientId, client.clientName, client.redirectUris)
    && client.issuedAt == events[i].nowMs / 1000 && client.expiresAt == events[i].nowMs / 1000 + 7_776_000
  }

  lemma StepRegisters(texts: Texts, s: System, e: Event, nowMs: int)
    ensures var t := Step(texts, s, e, nowMs);
            forall id :: id in t.store.clients ==>
              || (id in s.store.clients && s.store.clients[id] == t.store.clients[id])
              || (RegisteredAt([TimedEvent(e, nowMs)], 0, t.store.clients[id]) && t.store.clients[id].clientId == id)
  {
    if !e.Register? { OnlyRegisteringTouchesClients(texts, s, e, nowMs); }
  }

  lemma OnlyRegisteringTouchesClients(texts: Texts, s: System, e: Event, nowMs: int)
    requires !e.Register?
    ensures Step(texts, s, e, nowMs).store.clients == s.store.clients
  {
    var call := CallOf(s, e, nowMs);
    if call.None? {
      SilentStep(texts, s, EMPTY_MEMORY, e, nowMs);
    } else {
      CallingStep(texts, s, e, nowMs);
      CallKeepsClients(s.store, TimedCall(call.value, nowMs));
    }
  }

  lemma CallKeepsClients(s: Memory, c: TimedCall)
    requires !c.call.RegisterClient?
    ensures MemCall(s, c).next.clients == s.clients
  {}

  /** Every client of every run was registered in it, for ninety days, with the name and redirects it posted. */
  lemma {:induction false} ClientsWereRegistered(texts: Texts, s: System, events: seq<TimedEvent>, id: Id)
    requires id in Run(texts, s, events).store.clients
    ensures var client := Run(texts, s, events).store.clients[id];
            || (id in s.store.clients && client == s.store.clients[id])
            || (client.clientId == id && exists i :: RegisteredAt(events, i, client))
    decreases |events|
  {
    if events != [] {
      var e := events[0];
      var t := Step(texts, s, e.event, e.nowMs);
      var client := Run(texts, s, events).store.clients[id];
      StepRegisters(texts, s, e.event, e.nowMs);
      ClientsWereRegistered(texts, t, events[1..], id);
      if exists i :: RegisteredAt(events[1..], i, client) {
        var i :| RegisteredAt(events[1..], i, client);
        assert RegisteredAt(events, i + 1, client);
      } else if !(id in s.store.clients && client == s.store.clients[id]) {
        assert RegisteredAt(events, 0, client);
      }
    }
  }

  // ----- consents -----

  /** The client's record allows the posted redirect at this time. */
  predicate ClientAllows(clients: map<Id, ClientRecord>, form: AuthorizeForm, nowMs: int) {
    && form.clientId.Some? && form.redirectUri.Some? && form.clientId.value in clients
    && nowMs / 1000 < clients[form.clientId.value].expiresAt
    && form.redirectUri.value in clients[form.clientId.value].redirectUris
  }

  /** The rest of the form asks for what the server offers: an S256 challenge, read scope and this server. */
  predicate FormIsSound(texts: Texts, form: AuthorizeForm) {
    && form.redirectUriIsValid && form.methodIsS256 && form.codeChallenge.Some? && !form.isDeny
    && (form.scope.Some? && texts.chars(form.scope.value) != "" ==>
          ScopeSet(texts.chars(form.scope.value)) == {MCP_READ})
    && (form.resource.Some? ==> form.resource.value == texts.mcpOf(form.base))
  }

  lemma OneWordScope(words: set<string>)
    ensures |words| == 1 && MCP_READ in words <==> words == {MCP_READ}
  {
    if |words| == 1 && MCP_READ in words { assert |words - {MCP_READ}| == 0; }
  }

  /** A posted form is agreed to exactly when its client and the form allow it; what is recorded is the form. */
  lemma ConsentIsAgreedIff(texts: Texts, before: seq<TimedEvent>, rid: Id, form: AuthorizeForm, nowMs: int)
    requires texts.Valid() && !At(Run(texts, INITIAL, before), rid)
    ensures var s := Run(texts, INITIAL, before);
            var q := Step(texts, s, PostConsent(rid, form), nowMs).requests[rid];
            && (q.Agreed? <==> ClientAllows(s.store.clients, form, nowMs) && FormIsSound(texts, form))
            && (!q.Agreed? ==> q == Rejected)
            && (q.Agreed? ==> RecordsForm(texts, q.consent, form))
  {
    EveryRunKeeps(texts, before);
    ConsentOfForm(texts, Run(texts, INITIAL, before), form, nowMs);
  }

  /** The consent repeats the form; what the form leaves open is read scope on this server. */
  predicate RecordsForm(texts: Texts, c: Consent, form: AuthorizeForm) {
    && c.base == form.base && form.clientId == Some(c.clientId) && form.redirectUri == Some(c.redirectUri)
    && form.codeChallenge == Some(c.codeChallenge) && c.resource == texts.mcpOf(form.base)
    && (if form.scope.Some? && texts.chars(form.scope.value) != "" then form.scope == Some(c.scope)
        else texts.chars(c.scope) == MCP_READ)
  }

  lemma ConsentOfForm(texts: Texts, s: System, form: AuthorizeForm, nowMs: int)
    requires texts.Valid() && ClientsOk(s.store.clients, s.roles)
    ensures var c := CheckConsent(texts, s, form, nowMs);
            && (c.Some? <==> ClientAllows(s.store.clients, form, nowMs) && FormIsSound(texts, form))
            && (c.Some? ==> RecordsForm(texts, c.value, form))
  {
    if form.scope.Some? { OneWordScope(ScopeSet(texts.chars(form.scope.value))); }
  }

  // ----- codes -----

  /** The posted form answers the consent: its challenge, its redirect and client where posted, and its issuer. */
  predicate Answers(texts: Texts, form: ExchangeForm, c: Consent) {
    && texts.s256(form.verifier) == c.codeChallenge
    && (form.redirectUri.Some? ==> form.redirectUri.value == c.redirectUri)
    && (form.clientId.Some? ==> form.clientId.value == c.clientId)
    && form.base == c.base
  }

  lemma AllowedIffAnswers(texts: Texts, s: System, q: Request)
    requires q.CodeTaken? && Grounded(texts, s, q) && SignedOk(texts, s.signed, s.families, s.consents, s.roles)
    ensures ExchangeAllowed(texts, q.form, q.claims, q.code) <==> Answers(texts, q.form, s.consents[q.code.jti])
  {
    assert ClaimsOk(texts, q.claims, s.families, s.consents, s.roles);
  }

  /** The exchange went as it should: tokens for the answer to a consent, and a refusal for anything else. */
  ghost predicate ExchangeIsRight(texts: Texts, s: System, rid: Id, after: Request)
    requires At(s, rid) && s.requests[rid].CodeTaken?
  {
    var q := s.requests[rid];
    && q.code.jti in s.consents
    && (after.Minted? <==> Answers(texts, q.form, s.consents[q.code.jti]))
    && (!after.Minted? ==> after == Rejected)
  }

  lemma ExchangeIsRightAt(texts: Texts, s: System, rid: Id, access: Id, refresh: Id, family: Id, nowMs: int)
    requires Inv(texts, s) && At(s, rid) && s.requests[rid].CodeTaken? && NewIds(s, family, refresh, access)
    ensures var t := Step(texts, s, MintFirst(rid, access, refresh, family), nowMs);
            ExchangeIsRight(texts, s, rid, t.requests[rid])
  {
    assert Grounded(texts, s, s.requests[rid]);
    AllowedIffAnswers(texts, s, s.requests[rid]);
  }

  /**
   In every run: a request that holds a code gets tokens if and only if the posted verifier hashes to the challenge of
   the consent, the posted redirect and client, if any, are the consent's, and so is the issuer; else it is refused.
   */
  lemma ExchangeMintsIff(texts: Texts, before: seq<TimedEvent>, rid: Id, access: Id, refresh: Id, family: Id,
          nowMs: int)
    requires texts.Valid()
    requires var s := Run(texts, INITIAL, before);
             At(s, rid) && s.requests[rid].CodeTaken? && NewIds(s, family, refresh, access)
    ensures var s := Run(texts, INITIAL, before);
            var t := Step(texts, s, MintFirst(rid, access, refresh, family), nowMs);
            ExchangeIsRight(texts, s, rid, t.requests[rid])
  {
    EveryRunKeeps(texts, before);
    ExchangeIsRightAt(texts, Run(texts, INITIAL, before), rid, access, refresh, family, nowMs);
  }

  /** The same over Firestore. */
  lemma FirestoreExchangeMintsIff(texts: Texts, before: seq<TimedEvent>, rid: Id, access: Id, refresh: Id, family: Id,
          nowMs: int)
    requires texts.Valid()
    requires var s := FirestoreRun(texts, FIRESTORE_INITIAL, before).local;
             At(s, rid) && s.requests[rid].CodeTaken? && NewIds(s, family, refresh, access)
    ensures var f := FirestoreRun(texts, FIRESTORE_INITIAL, before);
            var t := FirestoreStep(texts, f, MintFirst(rid, access, refresh, family), nowMs).local;
            At(t, rid) && ExchangeIsRight(texts, f.local, rid, t.requests[rid])
  {
    EveryRunMirrors(texts, before);
    var f, s := FirestoreRun(texts, FIRESTORE_INITIAL, before), Run(texts, INITIAL, before);
    StepMirrors(texts, f, s, MintFirst(rid, access, refresh, family), nowMs);
    ExchangeMintsIff(texts, before, rid, access, refresh, family, nowMs);
  }

  // ----- how long codes and tokens live -----

  /** Event i stored a code under this id, to live five minutes. */
  ghost predicate CodeKeptAt(events: seq<TimedEvent>, i: int, jti: Id, expiresAt: int) {
    && 0 <= i < |events| && events[i].event.KeepCode? && events[i].event.freshId == jti
    && expiresAt == events[i].nowMs / 1000 + 300
  }

  predicate StoresCode(s: System, jti: Id, expiresAt: int) {
    jti in s.store.authorizationCodes && s.store.authorizationCodes[jti].expiresAt == expiresAt
  }

  lemma CallKeepsCodes(s: Memory, c: TimedCall, jti: Id, expiresAt: int)
    requires !c.call.StoreCode? && jti in MemCall(s, c).next.authorizationCodes
    requires MemCall(s, c).next.authorizationCodes[jti].expiresAt == expiresAt
    ensures jti in s.authorizationCodes && s.authorizationCodes[jti].expiresAt == expiresAt
  {}

  lemma StepKeepsCodes(texts: Texts, s: System, e: Event, nowMs: int, jti: Id, expiresAt: int)
    requires StoresCode(Step(texts, s, e, nowMs), jti, expiresAt) && !StoresCode(s, jti, expiresAt)
    ensures CodeKeptAt([TimedEvent(e, nowMs)], 0, jti, expiresAt)
  {
    var call := CallOf(s, e, nowMs);
    if call.None? {
      SilentStep(texts, s, EMPTY_MEMORY, e, nowMs);
    } else {
      CallingStep(texts, s, e, nowMs);
      if !e.KeepCode? { CallKeepsCodes(s.store, TimedCall(call.value, nowMs), jti, expiresAt); }
    }
  }

  /** Every stored code of every run was stored in it, and expires five minutes after. */
  lemma {:induction false} CodesWereKept(texts: Texts, s: System, events: seq<TimedEvent>, jti: Id, expiresAt: int)
    requires StoresCode(Run(texts, s, events), jti, expiresAt) && !StoresCode(s, jti, expiresAt)
    ensures exists i :: CodeKeptAt(events, i, jti, expiresAt)
    decreases |events|
  {
    if events != [] {
      var e := events[0];
      var t := Step(texts, s, e.event, e.nowMs);
      if StoresCode(t, jti, expiresAt) {
        StepKeepsCodes(texts, s, e.event, e.nowMs, jti, expiresAt);
        assert CodeKeptAt(events, 0, jti, expiresAt);
      } else {
        CodesWereKept(texts, t, events[1..], jti, expiresAt);
        var i :| CodeKeptAt(events[1..], i, jti, expiresAt);
        assert CodeKeptAt(events, i + 1, jti, expiresAt);
      }
    }
  }

  /** Event i minted a refresh token under this id, to live thirty days. */
  ghost predicate TokenMintedAt(events: seq<TimedEvent>, i: int, jti: Id, expiresAt: int) {
    && 0 <= i < |events| && (events[i].event.MintFirst? || events[i].event.MintNext?)
    && events[i].event.freshRefresh == jti && expiresAt == events[i].nowMs / 1000 + 2_592_000
  }

  /** The token is stored, or minted and not yet stored. */
  ghost predicate HasToken(s: System, jti: Id, expiresAt: int) {
    || (jti in s.store.refreshTokens && s.store.refreshTokens[jti].expiresAt == expiresAt)
    || exists r :: r in s.requests && MintedToken(s.requests[r], jti, expiresAt)
  }

  predicate MintedToken(q: Request, jti: Id, expiresAt: int) {
    q.Minted? && q.next.jti == jti && q.next.expiresAt == expiresAt
  }

  lemma CallKeepsTokens(s: Memory, c: TimedCall, jti: Id, expiresAt: int)
    requires jti in MemCall(s, c).next.refreshTokens && MemCall(s, c).next.refreshTokens[jti].expiresAt == expiresAt
    requires c.call.StoreRefresh? ==> c.call.token.jti != jti || c.call.token.expiresAt != expiresAt
    ensures jti in s.refreshTokens && s.refreshTokens[jti].expiresAt == expiresAt
  {}

  /** A token new in the store was held by the request that stored it. */
  lemma StoredTokensWereMinted(texts: Texts, s: System, e: Event, nowMs: int, jti: Id, expiresAt: int)
    requires var m := Step(texts, s, e, nowMs).store.refreshTokens; jti in m && m[jti].expiresAt == expiresAt
    ensures HasToken(s, jti, expiresAt)
  {
    var call := CallOf(s, e, nowMs);
    if call.None? {
      SilentStep(texts, s, EMPTY_MEMORY, e, nowMs);
    } else {
      CallingStep(texts, s, e, nowMs);
      if !(e.KeepToken? && MintedToken(s.requests[e.rid], jti, expiresAt)) {
        CallKeepsTokens(s.store, TimedCall(call.value, nowMs), jti, expiresAt);
      }
    }
  }

  lemma MintingMints(texts: Texts, s: System, e: Event, nowMs: int, r: Id, jti: Id, expiresAt: int)
    requires (e.MintFirst? || e.MintNext?) && r in Step(texts, s, e, nowMs).requests
    requires MintedToken(Step(texts, s, e, nowMs).requests[r], jti, expiresAt)
    requires !(r in s.requests && s.requests[r] == Step(texts, s, e, nowMs).requests[r])
    ensures TokenMintedAt([TimedEvent(e, nowMs)], 0, jti, expiresAt)
  {}

  lemma OnlyMintingMints(texts: Texts, s: System, e: Event, nowMs: int, r: Id)
    requires !e.MintFirst? && !e.MintNext? && r in Step(texts, s, e, nowMs).requests
    requires Step(texts, s, e, nowMs).requests[r].Minted?
    ensures r in s.requests && s.requests[r] == Step(texts, s, e, nowMs).requests[r]
  {
    if e.Register? || e.Throttle? {
      NoRequestMoves(texts, s, e, nowMs);
    } else if r != e.rid {
      OneRequestMoves(texts, s, e, nowMs);
    } else if e.PostConsent? || e.KeepCode? || e.SignCode? || e.PostCode? {
      CodePathMintsNothing(texts, s, e, nowMs);
    } else {
      TokenPathMintsNothing(texts, s, e, nowMs);
    }
  }

  lemma CodePathMintsNothing(texts: Texts, s: System, e: Event, nowMs: int)
    requires e.PostConsent? || e.KeepCode? || e.SignCode? || e.PostCode?
    requires e.rid in Step(texts, s, e, nowMs).requests && Step(texts, s, e, nowMs).requests[e.rid].Minted?
    ensures Step(texts, s, e, nowMs).requests == s.requests
  {}

  lemma TokenPathMintsNothing(texts: Texts, s: System, e: Event, nowMs: int)
    requires e.TakeCode? || e.PostRefresh? || e.TakeToken? || e.KeepToken? || e.SignToken? || e.Abort?
    requires e.rid in Step(texts, s, e, nowMs).requests && Step(texts, s, e, nowMs).requests[e.rid].Minted?
    ensures Step(texts, s, e, nowMs).requests == s.requests
  {}

  lemma StepKeepsTokens(texts: Texts, s: System, e: Event, nowMs: int, jti: Id, expiresAt: int)
    requires HasToken(Step(texts, s, e, nowMs), jti, expiresAt) && !HasToken(s, jti, expiresAt)
    ensures TokenMintedAt([TimedEvent(e, nowMs)], 0, jti, expiresAt)
  {
    var t := Step(texts, s, e, nowMs);
    if jti in t.store.refreshTokens && t.store.refreshTokens[jti].expiresAt == expiresAt {
      StoredTokensWereMinted(texts, s, e, nowMs, jti, expiresAt);
    } else {
      var r :| r in t.requests && MintedToken(t.requests[r], jti, expiresAt);
      if e.MintFirst? || e.MintNext? {
        MintingMints(texts, s, e, nowMs, r, jti, expiresAt);
      } else {
        OnlyMintingMints(texts, s, e, nowMs, r);
      }
    }
  }

  /** Every refresh token of every run was minted in it, and expires thirty days after. */
  lemma {:induction false} TokensWereMinted(texts: Texts, s: System, events: seq<TimedEvent>, jti: Id, expiresAt: int)
    requires HasToken(Run(texts, s, events), jti, expiresAt) && !HasToken(s, jti, expiresAt)
    ensures exists i :: TokenMintedAt(events, i, jti, expiresAt)
    decreases |events|
  {
    if events != [] {
      var e := events[0];
      var t := Step(texts, s, e.event, e.nowMs);
      if HasToken(t, jti, expiresAt) {
        StepKeepsTokens(texts, s, e.event, e.nowMs, jti, expiresAt);
        assert TokenMintedAt(events, 0, jti, expiresAt);
      } else {
        TokensWereMinted(texts, t, events[1..], jti, expiresAt);
        var i :| TokenMintedAt(events[1..], i, jti, expiresAt);
        assert TokenMintedAt(events, i + 1, jti, expiresAt);
      }
    }
  }

  /** Event i signed the claims: codes for five minutes, access tokens for an hour, refresh tokens for thirty days. */
  ghost predicate SignedAt(events: seq<TimedEvent>, i: int, c: Claims) {
    && 0 <= i < |events|
    && var e, now := events[i].event, events[i].nowMs / 1000;
       match c
       case CodeClaims(_, _, _, _, _, _, _, _, exp) => e.SignCode? && exp == now + 300
       case AccessClaims(_, _, _, _, jti, _, exp) =>
         (e.MintFirst? || e.MintNext?) && e.freshAccess == jti && exp == now + 3600
       case RefreshClaims(_, _, _, _, _, _, _, exp) => e.SignToken? && exp == now + 2_592_000
  }

  lemma SigningSigns(texts: Texts, s: System, e: Event, nowMs: int, c: Claims)
    requires e.SignCode? || e.SignToken?
    requires c in Step(texts, s, e, nowMs).signed && c !in s.signed
    ensures SignedAt([TimedEvent(e, nowMs)], 0, c)
  {}

  lemma MintingSigns(texts: Texts, s: System, e: Event, nowMs: int, c: Claims)
    requires e.MintFirst? || e.MintNext?
    requires c in Step(texts, s, e, nowMs).signed && c !in s.signed
    ensures SignedAt([TimedEvent(e, nowMs)], 0, c)
  {}

  lemma OthersSignNothing(texts: Texts, s: System, e: Event, nowMs: int)
    requires !e.SignCode? && !e.SignToken? && !e.MintFirst? && !e.MintNext?
    ensures Step(texts, s, e, nowMs).signed == s.signed
  {}

  lemma StepSigns(texts: Texts, s: System, e: Event, nowMs: int, c: Claims)
    requires c in Step(texts, s, e, nowMs).signed && c !in s.signed
    ensures SignedAt([TimedEvent(e, nowMs)], 0, c)
  {
    if e.SignCode? || e.SignToken? {
      SigningSigns(texts, s, e, nowMs, c);
    } else if e.MintFirst? || e.MintNext? {
      MintingSigns(texts, s, e, nowMs, c);
    } else {
      OthersSignNothing(texts, s, e, nowMs);
    }
  }

  /** Every signed token of every run was signed in it, with the lifetime of its kind. */
  lemma {:induction false} ClaimsWereSigned(texts: Texts, s: System, events: seq<TimedEvent>, c: Claims)
    requires c in Run(texts, s, events).signed && c !in s.signed
    ensures exists i :: SignedAt(events, i, c)
    decreases |events|
  {
    if events != [] {
      var e := events[0];
      var t := Step(texts, s, e.event, e.nowMs);
      if c in t.signed {
        StepSigns(texts, s, e.event, e.nowMs, c);
        assert SignedAt(events, 0, c);
      } else {
        ClaimsWereSigned(texts, t, events[1..], c);
        var i :| SignedAt(events[1..], i, c);
        assert SignedAt(events, i + 1, c);
      }
    }
  }

  // ----- presented codes and tokens -----

  /** The token was signed here and its expiry second has not passed; an expiry of 0 never passes. */
  predicate IsGenuine(signed: set<Claims>, c: Claims, nowMs: int) {
    c in signed && (c.exp == 0 || nowMs / 1000 <= c.exp)
  }

  /** A posted code or refresh token goes on exactly when it is genuine, of its kind, and of this issuer. */
  lemma PostedCodeGoesOn(texts: Texts, s: System, rid: Id, form: ExchangeForm, c: Claims, nowMs: int)
    requires !At(s, rid)
    ensures var t := Step(texts, s, PostCode(rid, form, c), nowMs);
            t.requests == s.requests[rid := if IsGenuine(s.signed, c, nowMs) && c.CodeClaims? then CodeVerified(form, c)
                                            else Rejected]
  {}

  lemma PostedRefreshGoesOn(texts: Texts, s: System, rid: Id, base: Text, c: Claims, nowMs: int)
    requires !At(s, rid)
    ensures var t := Step(texts, s, PostRefresh(rid, base, c), nowMs);
            t.requests == s.requests[rid := if IsGenuine(s.signed, c, nowMs) && c.RefreshClaims? && c.iss == base
                                            then TokenVerified(base, c) else Rejected]
  {}

  /** What becomes of a presented code: the request takes it if it is unconsumed and unexpired, else it is refused. */
  ghost predicate CodeIsTakenRightly(s: System, rid: Id, nowMs: int, t: System)
    requires At(s, rid) && s.requests[rid].CodeVerified? && At(t, rid)
  {
    var q := s.requests[rid];
    && q.claims.CodeClaims? && q.claims.jti in s.store.authorizationCodes
    && var code := s.store.authorizationCodes[q.claims.jti];
       if code.consumedAt.None? && nowMs / 1000 < code.expiresAt then
         t.requests[rid] == CodeTaken(q.form, q.claims, code) && CodeSpent(t.store, q.claims.jti)
       else t.requests[rid] == Rejected && t.store == s.store
  }

  lemma CodeIsTaken(texts: Texts, s: System, rid: Id, nowMs: int)
    requires Inv(texts, s) && At(s, rid) && s.requests[rid].CodeVerified?
    ensures CodeIsTakenRightly(s, rid, nowMs, Step(texts, s, TakeCode(rid), nowMs))
  {
    assert Grounded(texts, s, s.requests[rid]);
    assert ClaimsOk(texts, s.requests[rid].claims, s.families, s.consents, s.roles);
  }

  /** In every run a verified code is taken exactly when no request consumed it in the five minutes since it was
      stored. */
  lemma CodeIsTakenIff(texts: Texts, before: seq<TimedEvent>, rid: Id, nowMs: int)
    requires texts.Valid()
    requires var s := Run(texts, INITIAL, before); At(s, rid) && s.requests[rid].CodeVerified?
    ensures var s := Run(texts, INITIAL, before);
            CodeIsTakenRightly(s, rid, nowMs, Step(texts, s, TakeCode(rid), nowMs))
    ensures var s := Run(texts, INITIAL, before);
            var jti := s.requests[rid].claims.jti;
            jti in s.store.authorizationCodes
            && exists i :: CodeKeptAt(before, i, jti, s.store.authorizationCodes[jti].expiresAt)
  {
    var s := Run(texts, INITIAL, before);
    EveryRunKeeps(texts, before);
    CodeIsTaken(texts, s, rid, nowMs);
    var jti := s.requests[rid].claims.jti;
    CodesWereKept(texts, INITIAL, before, jti, s.store.authorizationCodes[jti].expiresAt);
  }

  /** What becomes of a presented refresh token: taken if it is stored, unconsumed and unexpired and its family is not
      compromised; else refused. */
  ghost predicate TokenIsTakenRightly(s: System, rid: Id, nowMs: int, t: System)
    requires At(s, rid) && s.requests[rid].TokenVerified? && At(t, rid)
  {
    var q := s.requests[rid];
    var tokens := s.store.refreshTokens;
    if q.claims.jti in tokens && tokens[q.claims.jti].consumedAt.None? && nowMs / 1000 < tokens[q.claims.jti].expiresAt
       && tokens[q.claims.jti].familyId !in s.store.compromisedFamilies
    then t.requests[rid] == TokenTaken(q.base, tokens[q.claims.jti]) && Used(t.store.refreshTokens, q.claims.jti)
    else t.requests[rid] == Rejected && t.store.refreshTokens == tokens
  }

  lemma TokenIsTakenIff(texts: Texts, s: System, rid: Id, nowMs: int)
    requires At(s, rid) && s.requests[rid].TokenVerified?
    ensures TokenIsTakenRightly(s, rid, nowMs, Step(texts, s, TakeToken(rid), nowMs))
  {}

  // ----- an honest client -----

  /** A client that registers, is agreed to, and exchanges its code; with the identifiers the server draws. */
  datatype Honest = Honest(
    client: Id, clientName: Text, redirectUris: seq<Text>, form: AuthorizeForm, exchange: ExchangeForm,
    consentRid: Id, exchangeRid: Id, code: Id, access: Id, refresh: Id, family: Id)

  /** The milliseconds of its steps. */
  datatype Times = Times(
    registered: int, agreed: int, kept: int, signed: int, presented: int, taken: int, minted: int, stored: int,
    answered: int)

  function ConsentOf(texts: Texts, h: Honest): Consent
    requires h.form.redirectUri.Some? && h.form.codeChallenge.Some?
  {
    Consent(h.form.base, h.client, h.form.redirectUri.value, RecordedScope(texts, h.form.scope),
            texts.mcpOf(h.form.base), h.form.codeChallenge.value)
  }

  /** It posts its own client id and one of its redirects, and later the verifier of its challenge. */
  predicate IsHonest(texts: Texts, h: Honest) {
    && h.form.clientId == Some(h.client) && h.form.redirectUri.Some? && h.form.redirectUri.value in h.redirectUris
    && FormIsSound(texts, h.form) && Answers(texts, h.exchange, ConsentOf(texts, h))
  }

  /** Within the lifetimes of registration and code. */
  predicate InTime(t: Times) {
    && t.agreed / 1000 < t.registered / 1000 + 7_776_000
    && t.presented / 1000 <= t.signed / 1000 + 300 && t.taken / 1000 < t.kept / 1000 + 300
  }

  predicate Unused(s: System, ids: seq<Id>) {
    && (forall i :: 0 <= i < |ids| ==> Fresh(s, ids[i]))
    && forall i, j :: 0 <= i < j < |ids| ==> ids[i] != ids[j]
  }

  function Drawn(h: Honest): seq<Id> { [h.code, h.access, h.refresh, h.family] }

  /** The server has not seen the client's identifiers and requests. */
  predicate IsNew(s: System, h: Honest) {
    && Unused(s, [h.client] + Drawn(h))
    && !At(s, h.consentRid) && !At(s, h.exchangeRid) && h.consentRid != h.exchangeRid
  }

  /** Registered: the client's record is there, and the rest is still unused. */
  predicate IsRegistered(s: System, h: Honest, t: Times) {
    && h.client in s.store.clients && s.store.clients[h.client].redirectUris == h.redirectUris
    && s.store.clients[h.client].expiresAt == t.registered / 1000 + 7_776_000
    && s.store.clients[h.client].clientId == h.client
    && Unused(s, Drawn(h)) && !At(s, h.consentRid) && !At(s, h.exchangeRid) && h.consentRid != h.exchangeRid
  }

  lemma Registers(texts: Texts, s: System, h: Honest, t: Times)
    requires IsNew(s, h)
    ensures IsRegistered(Step(texts, s, Register(h.client, h.clientName, h.redirectUris), t.registered), h, t)
  {
    var ids := [h.client] + Drawn(h);
    assert ids[0] == h.client && ids[1] == h.code && ids[2] == h.access && ids[3] == h.refresh && ids[4] == h.family;
  }

  predicate IsAgreed(texts: Texts, s: System, h: Honest)
    requires IsHonest(texts, h)
  {
    && At(s, h.consentRid) && s.requests[h.consentRid] == Agreed(ConsentOf(texts, h))
    && Unused(s, Drawn(h)) && !At(s, h.exchangeRid) && h.consentRid != h.exchangeRid
  }

  lemma Agrees(texts: Texts, s: System, h: Honest, t: Times)
    requires texts.Valid() && IsHonest(texts, h) && IsRegistered(s, h, t) && InTime(t)
    ensures IsAgreed(texts, Step(texts, s, PostConsent(h.consentRid, h.form), t.agreed), h)
  {
    if h.form.scope.Some? { OneWordScope(ScopeSet(texts.chars(h.form.scope.value))); }
  }

  predicate IsCodeOf(texts: Texts, code: CodeRecord, h: Honest)
    requires IsHonest(texts, h)
  {
    code.jti == h.code && CodeMatches(code, ConsentOf(texts, h))
  }

  /** The code of the honest client, as stored. */
  predicate HasCode(texts: Texts, s: System, h: Honest, t: Times)
    requires IsHonest(texts, h)
  {
    && h.code in s.store.authorizationCodes && IsCodeOf(texts, s.store.authorizationCodes[h.code], h)
    && s.store.authorizationCodes[h.code].consumedAt.None?
    && s.store.authorizationCodes[h.code].expiresAt == t.kept / 1000 + 300
    && Unused(s, [h.access, h.refresh, h.family]) && !At(s, h.exchangeRid) && h.consentRid != h.exchangeRid
  }

  lemma KeepsCode(texts: Texts, s: System, h: Honest, t: Times)
    requires IsHonest(texts, h) && IsAgreed(texts, s, h)
    ensures var u := Step(texts, s, KeepCode(h.consentRid, h.code), t.kept);
            && HasCode(texts, u, h, t)
            && At(u, h.consentRid) && u.requests[h.consentRid].CodeKept?
            && u.requests[h.consentRid].consent == ConsentOf(texts, h) && u.requests[h.consentRid].code.jti == h.code
  {
    var ids := Drawn(h);
    assert ids[0] == h.code && ids[1] == h.access && ids[2] == h.refresh && ids[3] == h.family;
  }

  function PresentedCode(texts: Texts, h: Honest, t: Times): Claims
    requires IsHonest(texts, h)
  {
    CodeClaimsOf(texts, ConsentOf(texts, h), h.code, t.signed)
  }

  lemma SignsCode(texts: Texts, s: System, h: Honest, t: Times)
    requires IsHonest(texts, h) && HasCode(texts, s, h, t) && At(s, h.consentRid) && s.requests[h.consentRid].CodeKept?
    requires s.requests[h.consentRid].consent == ConsentOf(texts, h) && s.requests[h.consentRid].code.jti == h.code
    ensures var u := Step(texts, s, SignCode(h.consentRid), t.signed);
            HasCode(texts, u, h, t) && PresentedCode(texts, h, t) in u.signed
  {}

  /** The exchange has verified the code, which is still there. */
  predicate IsVerified(texts: Texts, s: System, h: Honest, t: Times)
    requires IsHonest(texts, h)
  {
    && At(s, h.exchangeRid) && s.requests[h.exchangeRid] == CodeVerified(h.exchange, PresentedCode(texts, h, t))
    && HasCode(texts, s.(requests := s.requests - {h.exchangeRid}), h, t)
  }

  lemma PresentsCode(texts: Texts, s: System, h: Honest, t: Times)
    requires IsHonest(texts, h) && HasCode(texts, s, h, t) && PresentedCode(texts, h, t) in s.signed && InTime(t)
    ensures var e := PostCode(h.exchangeRid, h.exchange, PresentedCode(texts, h, t));
            IsVerified(texts, Step(texts, s, e, t.presented), h, t)
  {}

  predicate HoldsCode(texts: Texts, s: System, h: Honest, t: Times)
    requires IsHonest(texts, h)
  {
    && At(s, h.exchangeRid) && s.requests[h.exchangeRid].CodeTaken? && s.requests[h.exchangeRid].form == h.exchange
    && s.requests[h.exchangeRid].claims == PresentedCode(texts, h, t)
    && IsCodeOf(texts, s.requests[h.exchangeRid].code, h)
    && Unused(s, [h.access, h.refresh, h.family])
  }

  lemma TakesCode(texts: Texts, s: System, h: Honest, t: Times)
    requires IsHonest(texts, h) && IsVerified(texts, s, h, t) && InTime(t)
    ensures HoldsCode(texts, Step(texts, s, TakeCode(h.exchangeRid), t.taken), h, t)
  {}

  function AccessOf(c: Consent, jti: Id, nowMs: int): Claims {
    AccessClaims(c.base, c.clientId, c.resource, c.scope, jti, c.resource, nowMs / 1000 + 3600)
  }

  function RefreshOf(c: Consent, jti: Id, family: Id, nowMs: int): Claims {
    RefreshClaims(c.base, c.clientId, c.resource, c.scope, jti, family, c.resource, nowMs / 1000 + 2_592_000)
  }

  /** The record is of the consent's next refresh token. */
  predicate IsNext(r: RefreshRecord, c: Consent, jti: Id, family: Id, nowMs: int) {
    && r.jti == jti && r.familyId == family && TokenMatches(r, c) && r.consumedAt.None?
    && r.expiresAt == nowMs / 1000 + 2_592_000
  }

  /** The request minted tokens of this consent; the access token is signed. */
  predicate HasMinted(s: System, rid: Id, c: Consent, access: Id, refresh: Id, family: Id, nowMs: int) {
    && At(s, rid) && s.requests[rid].Minted? && s.requests[rid].base == c.base
    && IsNext(s.requests[rid].next, c, refresh, family, nowMs)
    && AccessOf(c, access, nowMs) in s.signed
  }

  lemma Mints(texts: Texts, s: System, h: Honest, t: Times)
    requires IsHonest(texts, h) && HoldsCode(texts, s, h, t)
    ensures var u := Step(texts, s, MintFirst(h.exchangeRid, h.access, h.refresh, h.family), t.minted);
            HasMinted(u, h.exchangeRid, ConsentOf(texts, h), h.access, h.refresh, h.family, t.minted)
  {
    var ids := [h.access, h.refresh, h.family];
    assert ids[0] == h.access && ids[1] == h.refresh && ids[2] == h.family;
  }

  /** The reply: both tokens signed, and the refresh token stored for later. */
  predicate IsAnswered(s: System, rid: Id, c: Consent, access: Id, refresh: Id, family: Id, mintedMs: int, nowMs: int) {
    && At(s, rid) && s.requests[rid] == Answered
    && AccessOf(c, access, mintedMs) in s.signed && RefreshOf(c, refresh, family, nowMs) in s.signed
    && refresh in s.store.refreshTokens && IsNext(s.store.refreshTokens[refresh], c, refresh, family, mintedMs)
  }

  lemma KeepsToken(texts: Texts, s: System, rid: Id, c: Consent, access: Id, refresh: Id, family: Id, mintedMs: int,
          nowMs: int)
    requires HasMinted(s, rid, c, access, refresh, family, mintedMs)
    ensures var u := Step(texts, s, KeepToken(rid), nowMs);
            && At(u, rid) && u.requests[rid] == Kept(c.base, s.requests[rid].next)
            && AccessOf(c, access, mintedMs) in u.signed
            && refresh in u.store.refreshTokens && u.store.refreshTokens[refresh] == s.requests[rid].next
  {}

  lemma SignsToken(texts: Texts, s: System, rid: Id, c: Consent, access: Id, refresh: Id, family: Id, mintedMs: int,
          nowMs: int, next: RefreshRecord)
    requires At(s, rid) && s.requests[rid] == Kept(c.base, next) && IsNext(next, c, refresh, family, mintedMs)
    requires AccessOf(c, access, mintedMs) in s.signed
    requires refresh in s.store.refreshTokens && s.store.refreshTokens[refresh] == next
    ensures IsAnswered(Step(texts, s, SignToken(rid), nowMs), rid, c, access, refresh, family, mintedMs, nowMs)
  {}

  function TwoMore(rid: Id, storedMs: int, nowMs: int): seq<TimedEvent> {
    [TimedEvent(KeepToken(rid), storedMs), TimedEvent(SignToken(rid), nowMs)]
  }

  /** A request that has minted is answered after its last two steps. */
  lemma MintedIsAnswered(texts: Texts, s: System, rid: Id, c: Consent, access: Id, refresh: Id, family: Id,
          mintedMs: int, storedMs: int, nowMs: int)
    requires HasMinted(s, rid, c, access, refresh, family, mintedMs)
    ensures IsAnswered(Run(texts, s, TwoMore(rid, storedMs, nowMs)), rid, c, access, refresh, family, mintedMs, nowMs)
  {
    var events := TwoMore(rid, storedMs, nowMs);
    var t := Step(texts, s, KeepToken(rid), storedMs);
    KeepsToken(texts, s, rid, c, access, refresh, family, mintedMs, storedMs);
    SignsToken(texts, t, rid, c, access, refresh, family, mintedMs, nowMs, s.requests[rid].next);
    RunOfFirst(texts, s, events);
    RunOfFirst(texts, t, events[1..]);
    assert events[1..][1..] == [];
  }

  lemma RunOfFirst(texts: Texts, s: System, events: seq<TimedEvent>)
    requires events != []
    ensures Run(texts, s, events) == Run(texts, Step(texts, s, events[0].event, events[0].nowMs), events[1..])
  {}

  /** The steps up to the signed code. */
  function ConsentEvents(h: Honest, t: Times): seq<TimedEvent> {
    [TimedEvent(Register(h.client, h.clientName, h.redirectUris), t.registered),
     TimedEvent(PostConsent(h.consentRid, h.form), t.agreed),
     TimedEvent(KeepCode(h.consentRid, h.code), t.kept), TimedEvent(SignCode(h.consentRid), t.signed)]
  }

  function ExchangeEvents(texts: Texts, h: Honest, t: Times): seq<TimedEvent>
    requires IsHonest(texts, h)
  {
    [TimedEvent(PostCode(h.exchangeRid, h.exchange, PresentedCode(texts, h, t)), t.presented),
     TimedEvent(TakeCode(h.exchangeRid), t.taken),
     TimedEvent(MintFirst(h.exchangeRid, h.access, h.refresh, h.family), t.minted)]
  }

  lemma ConsentSucceeds(texts: Texts, s: System, h: Honest, t: Times)
    requires texts.Valid() && IsHonest(texts, h) && IsNew(s, h) && InTime(t)
    ensures var u := Run(texts, s, ConsentEvents(h, t));
            HasCode(texts, u, h, t) && PresentedCode(texts, h, t) in u.signed
  {
    var events := ConsentEvents(h, t);
    var s1 := Step(texts, s, events[0].event, t.registered);
    var s2 := Step(texts, s1, events[1].event, t.agreed);
    var s3 := Step(texts, s2, events[2].event, t.kept);
    Registers(texts, s, h, t);
    Agrees(texts, s1, h, t);
    KeepsCode(texts, s2, h, t);
    SignsCode(texts, s3, h, t);
    RunOfFour(texts, s, events);
  }

  lemma RunOfFour(texts: Texts, s: System, events: seq<TimedEvent>)
    requires |events| == 4
    ensures var s1 := Step(texts, s, events[0].event, events[0].nowMs);
            var s2 := Step(texts, s1, events[1].event, events[1].nowMs);
            var s3 := Step(texts, s2, events[2].event, events[2].nowMs);
            Run(texts, s, events) == Step(texts, s3, events[3].event, events[3].nowMs)
  {
    RunOfFirst(texts, s, events);
    RunOfThree(texts, Step(texts, s, events[0].event, events[0].nowMs), events[1..]);
  }

  lemma RunOfThree(texts: Texts, s: System, events: seq<TimedEvent>)
    requires |events| == 3
    ensures var s1 := Step(texts, s, events[0].event, events[0].nowMs);
            var s2 := Step(texts, s1, events[1].event, events[1].nowMs);
            Run(texts, s, events) == Step(texts, s2, events[2].event, events[2].nowMs)
  {
    var s1 := Step(texts, s, events[0].event, events[0].nowMs);
    var s2 := Step(texts, s1, events[1].event, events[1].nowMs);
    RunOfFirst(texts, s, events);
    RunOfFirst(texts, s1, events[1..]);
    RunOfFirst(texts, s2, events[1..][1..]);
    assert events[1..][1..][0] == events[2] && events[1..][1..][1..] == [];
  }

  lemma ExchangeSucceeds(texts: Texts, s: System, h: Honest, t: Times)
    requires IsHonest(texts, h) && HasCode(texts, s, h, t) && PresentedCode(texts, h, t) in s.signed && InTime(t)
    ensures var u := Run(texts, s, ExchangeEvents(texts, h, t));
            HasMinted(u, h.exchangeRid, ConsentOf(texts, h), h.access, h.refresh, h.family, t.minted)
  {
    var events := ExchangeEvents(texts, h, t);
    var s1 := Step(texts, s, events[0].event, t.presented);
    var s2 := Step(texts, s1, events[1].event, t.taken);
    PresentsCode(texts, s, h, t);
    TakesCode(texts, s1, h, t);
    Mints(texts, s2, h, t);
    RunOfThree(texts, s, events);
  }

  /**
   From any state, and so after any run: a new client that registers, posts a sound form and presents its code and
   verifier in time is answered with an access token and a refresh token of its consent, and the refresh token is
   stored to be used once.
   */
  lemma HonestClientIsAnswered(texts: Texts, s: System, h: Honest, t: Times)
    requires texts.Valid() && IsHonest(texts, h) && IsNew(s, h) && InTime(t)
    ensures var agreed := Run(texts, s, ConsentEvents(h, t));
            var minted := Run(texts, agreed, ExchangeEvents(texts, h, t));
            IsAnswered(Run(texts, minted, TwoMore(h.exchangeRid, t.stored, t.answered)), h.exchangeRid,
                ConsentOf(texts, h), h.access, h.refresh, h.family, t.minted, t.answered)
  {
    var agreed := Run(texts, s, ConsentEvents(h, t));
    ConsentSucceeds(texts, s, h, t);
    ExchangeSucceeds(texts, agreed, h, t);
    MintedIsAnswered(texts, Run(texts, agreed, ExchangeEvents(texts, h, t)), h.exchangeRid, ConsentOf(texts, h),
        h.access, h.refresh, h.family, t.minted, t.stored, t.answered);
  }

  /** And the same over Firestore, whose documents hold the refresh token. */
  lemma FirestoreHonestClientIsAnswered(texts: Texts, before: seq<TimedEvent>, h: Honest, t: Times)
    requires texts.Valid() && IsHonest(texts, h) && InTime(t)
    requires IsNew(FirestoreRun(texts, FIRESTORE_INITIAL, before).local, h)
    ensures var f := FirestoreRun(texts, FIRESTORE_INITIAL, before);
            var agreed := FirestoreRun(texts, f, ConsentEvents(h, t));
            var minted := FirestoreRun(texts, agreed, ExchangeEvents(texts, h, t));
            var u := FirestoreRun(texts, minted, TwoMore(h.exchangeRid, t.stored, t.answered));
            var c := ConsentOf(texts, h);
            && At(u.local, h.exchangeRid) && u.local.requests[h.exchangeRid] == Answered
            && AccessOf(c, h.access, t.minted) in u.local.signed
            && RefreshOf(c, h.refresh, h.family, t.answered) in u.local.signed
            && h.refresh in u.store.refreshTokens
            && IsNext(u.store.refreshTokens[h.refresh].record, c, h.refresh, h.family, t.minted)
  {
    EveryRunMirrors(texts, before);
    var f, s := FirestoreRun(texts, FIRESTORE_INITIAL, before), Run(texts, INITIAL, before);
    ThreeRunsMirror(texts, f, s, ConsentEvents(h, t), ExchangeEvents(texts, h, t),
        TwoMore(h.exchangeRid, t.stored, t.answered));
    HonestClientIsAnswered(texts, s, h, t);
  }

  lemma ThreeRunsMirror(texts: Texts, f: FirestoreSystem, s: System, a: seq<TimedEvent>, b: seq<TimedEvent>,
          c: seq<TimedEvent>)
    requires Mirrors(f, s)
    ensures Mirrors(FirestoreRun(texts, FirestoreRun(texts, FirestoreRun(texts, f, a), b), c),
                    Run(texts, Run(texts, Run(texts, s, a), b), c))
  {
    RunMirrors(texts, f, s, a);
    RunMirrors(texts, FirestoreRun(texts, f, a), Run(texts, s, a), b);
    RunMirrors(texts, FirestoreRun(texts, FirestoreRun(texts, f, a), b), Run(texts, Run(texts, s, a), b), c);
  }

  // ----- an honest refresh -----

  /** The consent a family goes back to. */
  function ConsentOfFamily(s: System, family: Id): Consent
    requires family in s.families && s.families[family].code in s.consents
  {
    s.consents[s.families[family].code]
  }

  /** The claims are of a stored, unconsumed token of a family that is not compromised. */
  ghost predicate IsLive(s: System, c: Claims) {
    && c.RefreshClaims? && c in s.signed && c.jti in s.store.refreshTokens
    && s.store.refreshTokens[c.jti].consumedAt.None? && c.familyId !in s.store.compromisedFamilies
  }

  lemma LiveTokenMatches(texts: Texts, s: System, c: Claims)
    requires Inv(texts, s) && IsLive(s, c)
    ensures c.familyId in s.families && s.families[c.familyId].code in s.consents
    ensures var k := s.store.refreshTokens[c.jti];
            k.familyId == c.familyId && TokenMatches(k, ConsentOfFamily(s, c.familyId))
            && c.iss == ConsentOfFamily(s, c.familyId).base
  {
    assert ClaimsOk(texts, c, s.families, s.consents, s.roles);
    assert TokenOk(c.jti, s.store.refreshTokens[c.jti], s.families, s.consents, s.roles);
  }

  /** The request holds a consumed token of the consent. */
  predicate HoldsToken(s: System, rid: Id, k: Consent, family: Id) {
    && At(s, rid) && s.requests[rid].TokenTaken? && s.requests[rid].base == k.base
    && s.requests[rid].token.familyId == family && TokenMatches(s.requests[rid].token, k)
  }

  lemma TakesToken(texts: Texts, s: System, rid: Id, c: Claims, k: Consent, presentedMs: int, nowMs: int)
    requires IsLive(s, c) && !At(s, rid) && IsGenuine(s.signed, c, presentedMs) && c.iss == k.base
    requires nowMs / 1000 < s.store.refreshTokens[c.jti].expiresAt
    requires s.store.refreshTokens[c.jti].familyId == c.familyId && TokenMatches(s.store.refreshTokens[c.jti], k)
    ensures var t := Step(texts, s, PostRefresh(rid, c.iss, c), presentedMs);
            var u := Step(texts, t, TakeToken(rid), nowMs);
            HoldsToken(u, rid, k, c.familyId) && u.roles == s.roles
  {
    PostedRefreshGoesOn(texts, s, rid, c.iss, c, presentedMs);
    PostingKeepsRest(texts, s, rid, c, presentedMs);
    TokenIsTakenIff(texts, Step(texts, s, PostRefresh(rid, c.iss, c), presentedMs), rid, nowMs);
  }

  lemma PostingKeepsRest(texts: Texts, s: System, rid: Id, c: Claims, nowMs: int)
    ensures var t := Step(texts, s, PostRefresh(rid, c.iss, c), nowMs); t.store == s.store && t.roles == s.roles
  {}

  lemma MintsNext(texts: Texts, s: System, rid: Id, k: Consent, family: Id, access: Id, refresh: Id, nowMs: int)
    requires HoldsToken(s, rid, k, family) && Fresh(s, access) && Fresh(s, refresh) && access != refresh
    ensures var u := Step(texts, s, MintNext(rid, access, refresh), nowMs);
            HasMinted(u, rid, k, access, refresh, family, nowMs)
  {}

  function RefreshEvents(rid: Id, c: Claims, access: Id, refresh: Id, presentedMs: int, takenMs: int,
        mintedMs: int): seq<TimedEvent> {
    [TimedEvent(PostRefresh(rid, c.iss, c), presentedMs), TimedEvent(TakeToken(rid), takenMs),
     TimedEvent(MintNext(rid, access, refresh), mintedMs)]
  }

  /** After any run: a live refresh token presented in time is answered with the next tokens of its consent. */
  lemma HonestRefreshIsAnswered(texts: Texts, before: seq<TimedEvent>, rid: Id, c: Claims, access: Id, refresh: Id,
          presentedMs: int, takenMs: int, mintedMs: int, storedMs: int, answeredMs: int)
    requires texts.Valid()
    requires var s := Run(texts, INITIAL, before);
             && IsLive(s, c) && !At(s, rid) && IsGenuine(s.signed, c, presentedMs)
             && takenMs / 1000 < s.store.refreshTokens[c.jti].expiresAt && Fresh(s, access) && Fresh(s, refresh)
             && access != refresh
    ensures var s := Run(texts, INITIAL, before);
            var minted := Run(texts, s, RefreshEvents(rid, c, access, refresh, presentedMs, takenMs, mintedMs));
            && c.familyId in s.families && s.families[c.familyId].code in s.consents
            && IsAnswered(Run(texts, minted, TwoMore(rid, storedMs, answeredMs)), rid, ConsentOfFamily(s, c.familyId),
                   access, refresh, c.familyId, mintedMs, answeredMs)
  {
    var s := Run(texts, INITIAL, before);
    EveryRunKeeps(texts, before);
    LiveTokenMatches(texts, s, c);
    var k := ConsentOfFamily(s, c.familyId);
    var events := RefreshEvents(rid, c, access, refresh, presentedMs, takenMs, mintedMs);
    TakesToken(texts, s, rid, c, k, presentedMs, takenMs);
    var u := Step(texts, Step(texts, s, events[0].event, presentedMs), events[1].event, takenMs);
    MintsNext(texts, u, rid, k, c.familyId, access, refresh, mintedMs);
    RunOfThree(texts, s, events);
    MintedIsAnswered(texts, Run(texts, s, events), rid, k, access, refresh, c.familyId, mintedMs, storedMs, answeredMs);
  }
}
