/** Minting and storing tokens keeps the invariant; so does every step, and hence every run. */
module OAuthMinting {
  import opened Options
  import opened OAuthStore
  import opened Jwt
  import opened OAuthFlow
  import opened OAuthInvariant
  import opened OAuthSteps

  // ----- the first tokens of a family -----

  ghost predicate NewIds(s: System, family: Id, refresh: Id, access: Id) {
    Fresh(s, family) && Fresh(s, refresh) && Fresh(s, access) && access != refresh && refresh != family &&
        access != family
  }

  /** The history with a family of one refresh and one access token added. */
  function WithFamily(s: System, family: Id, f: Family, refresh: Id, access: Id): System {
    s.(roles := s.roles[family := FamilyRole][refresh := RefreshRole(family, 0)][access := AccessRole(family, 0)],
       families := s.families[family := f])
  }

  lemma NewFamilyGrows(texts: Texts, s: System, family: Id, f: Family, refresh: Id, access: Id)
    requires HistoryOk(texts, s) && NewIds(s, family, refresh, access)
    ensures Grows(s, WithFamily(s, family, f, refresh, access))
  {
    assert family !in s.families;
  }

  lemma NewFamilyKeepsChains(s: System, family: Id, f: Family, refresh: Id, access: Id)
    requires ChainsOk(s.families, s.roles) && RolesOk(s.families, s.roles)
    requires NewIds(s, family, refresh, access) && family !in s.families && f.chain == [refresh] && f.access == [access]
    ensures var t := WithFamily(s, family, f, refresh, access);
            ChainsOk(t.families, t.roles) && RolesOk(t.families, t.roles)
  {
    var t := WithFamily(s, family, f, refresh, access);
    forall id | id in t.roles
      ensures RoleOk(id, t.roles[id], t.families)
    {
      if id in s.roles {
        assert RoleOk(id, s.roles[id], s.families);
      }
    }
  }

  lemma NewFamilyKeepsFamilies(texts: Texts, s: System, family: Id, f: Family, refresh: Id, access: Id)
    requires NewIds(s, family, refresh, access)
    requires FamiliesOk(texts, s.families, s.store.authorizationCodes, s.consents, s.roles) && CodesOnce(s.families)
    requires FamilyOk(texts, f, s.store.authorizationCodes, s.consents)
    requires forall g :: g in s.families ==> s.families[g].code != f.code
    ensures var t := WithFamily(s, family, f, refresh, access);
            FamiliesOk(texts, t.families, t.store.authorizationCodes, t.consents, t.roles) && CodesOnce(t.families)
  {}

  lemma NewFamilyKeepsHistory(texts: Texts, s: System, family: Id, f: Family, refresh: Id, access: Id)
    requires HistoryOk(texts, s) && NewIds(s, family, refresh, access)
    requires f.chain == [refresh] && f.access == [access] && FamilyOk(texts, f, s.store.authorizationCodes, s.consents)
    requires forall g :: g in s.families ==> s.families[g].code != f.code
    ensures HistoryOk(texts, WithFamily(s, family, f, refresh, access))
  {
    assert family !in s.families;
    NewFamilyKeepsChains(s, family, f, refresh, access);
    NewFamilyKeepsFamilies(texts, s, family, f, refresh, access);
  }

  lemma NewFamilyKeepsTokens(texts: Texts, s: System, family: Id, f: Family, refresh: Id, access: Id)
    requires TokenStateOk(texts, s) && NewIds(s, family, refresh, access) && family !in s.families
    requires f.chain == [refresh]
    ensures TokenStateOk(texts, WithFamily(s, family, f, refresh, access))
  {
    var t := WithFamily(s, family, f, refresh, access);
    forall c | c in t.signed
      ensures ClaimsOk(texts, c, t.families, t.consents, t.roles)
    {
      assert ClaimsOk(texts, c, s.families, s.consents, s.roles);
    }
    forall k | k in t.store.refreshTokens
      ensures TokenOk(k, t.store.refreshTokens[k], t.families, t.consents, t.roles)
    {
      assert TokenOk(k, s.store.refreshTokens[k], s.families, s.consents, s.roles);
    }
  }

  // ----- the next tokens of a family -----

  function WithSuccessor(s: System, family: Id, refresh: Id, access: Id): System {
    var f := FamilyOf(s, family);
    s.(roles := s.roles[refresh := RefreshRole(family, |f.chain|)][access := AccessRole(family, |f.access|)],
       families := s.families[family := f.(chain := f.chain + [refresh], access := f.access + [access])])
  }

  lemma SuccessorGrows(s: System, family: Id, refresh: Id, access: Id)
    requires family in s.families && Fresh(s, refresh) && Fresh(s, access) && refresh != access
    ensures Grows(s, WithSuccessor(s, family, refresh, access))
  {}

  lemma SuccessorKeepsChains(s: System, family: Id, refresh: Id, access: Id)
    requires ChainsOk(s.families, s.roles)
    requires family in s.families && Fresh(s, refresh) && Fresh(s, access) && refresh != access
    ensures var t := WithSuccessor(s, family, refresh, access); ChainsOk(t.families, t.roles)
  {}

  lemma SuccessorKeepsRoles(s: System, family: Id, refresh: Id, access: Id)
    requires RolesOk(s.families, s.roles)
    requires family in s.families && Fresh(s, refresh) && Fresh(s, access) && refresh != access
    ensures var t := WithSuccessor(s, family, refresh, access); RolesOk(t.families, t.roles)
  {
    var t := WithSuccessor(s, family, refresh, access);
    forall id | id in t.roles
      ensures RoleOk(id, t.roles[id], t.families)
    {
      if id in s.roles {
        assert RoleOk(id, s.roles[id], s.families);
      }
    }
  }

  lemma SuccessorKeepsFamilies(texts: Texts, s: System, family: Id, refresh: Id, access: Id)
    requires FamiliesOk(texts, s.families, s.store.authorizationCodes, s.consents, s.roles) && CodesOnce(s.families)
    requires family in s.families && Fresh(s, refresh) && Fresh(s, access) && refresh != access
    ensures var t := WithSuccessor(s, family, refresh, access);
            FamiliesOk(texts, t.families, t.store.authorizationCodes, t.consents, t.roles) && CodesOnce(t.families)
  {}

  lemma SuccessorKeepsHistory(texts: Texts, s: System, family: Id, refresh: Id, access: Id)
    requires HistoryOk(texts, s) && family in s.families && Fresh(s, refresh) && Fresh(s, access) && refresh != access
    ensures HistoryOk(texts, WithSuccessor(s, family, refresh, access))
  {
    SuccessorKeepsChains(s, family, refresh, access);
    SuccessorKeepsRoles(s, family, refresh, access);
    SuccessorKeepsFamilies(texts, s, family, refresh, access);
  }

  lemma SuccessorKeepsTokens(texts: Texts, s: System, family: Id, refresh: Id, access: Id, last: Id)
    requires TokenStateOk(texts, s) && family in s.families && Fresh(s, refresh) && Fresh(s, access) &&
        refresh != access
    requires var chain := s.families[family].chain;
             |chain| > 0 && chain[|chain| - 1] == last && Used(s.store.refreshTokens, last)
    ensures TokenStateOk(texts, WithSuccessor(s, family, refresh, access))
  {
    var t := WithSuccessor(s, family, refresh, access);
    forall c | c in t.signed
      ensures ClaimsOk(texts, c, t.families, t.consents, t.roles)
    {
      assert ClaimsOk(texts, c, s.families, s.consents, s.roles);
    }
    forall k | k in t.store.refreshTokens
      ensures TokenOk(k, t.store.refreshTokens[k], t.families, t.consents, t.roles)
    {
      assert TokenOk(k, s.store.refreshTokens[k], s.families, s.consents, s.roles);
    }
  }

  // ----- minting steps -----

  lemma MintFirstKeeps(texts: Texts, s: System, rid: Id, access: Id, refresh: Id, family: Id, nowMs: int)
    requires Inv(texts, s)
    ensures Keeps(texts, s, DoMintFirst(texts, s, rid, access, refresh, family, nowMs))
  {
    if At(s, rid) && s.requests[rid].CodeTaken? {
      var q := s.requests[rid];
      assert Grounded(texts, s, q) && Held(s, q);
      if !ExchangeAllowed(texts, q.form, q.claims, q.code) {
        MovesOnly(texts, s, rid, Rejected);
      } else if NewIds(s, family, refresh, access) {
        MintFirstAllowed(texts, s, rid, access, refresh, family, nowMs);
      } else {
        NothingKeeps(texts, s);
      }
    } else {
      NothingKeeps(texts, s);
    }
  }

  /** Claims added and one request moved, on top of a grown history. */
  function Minting(s: System, rid: Id, q: Request, c: Claims): System {
    Put(s, rid, q).(signed := s.signed + {c})
  }

  lemma MintingKeepsState(texts: Texts, s: System, rid: Id, q: Request, c: Claims)
    requires HistoryOk(texts, s) && TokenStateOk(texts, s) && ClaimsOk(texts, c, s.families, s.consents, s.roles)
    ensures HistoryOk(texts, Minting(s, rid, q, c)) && TokenStateOk(texts, Minting(s, rid, q, c))
  {
    NewClaimsKeepTokens(texts, s, c);
  }

  /** The access token minted for a consumed code. */
  function FirstClaims(q: Request, access: Id, nowMs: int): Claims
    requires q.CodeTaken?
  {
    AccessClaims(q.form.base, q.code.clientId, q.code.resource, q.code.scope, access, q.code.resource,
        Seconds(nowMs) + ACCESS_SECONDS)
  }

  lemma MintingGrows(s: System, rid: Id, q: Request, c: Claims)
    ensures Grows(s, Minting(s, rid, q, c))
  {}

  lemma MintFirstState(texts: Texts, s: System, rid: Id, access: Id, refresh: Id, family: Id, nowMs: int)
    requires HistoryOk(texts, s) && TokenStateOk(texts, s) && At(s, rid) && s.requests[rid].CodeTaken?
    requires Grounded(texts, s, s.requests[rid]) && Held(s, s.requests[rid]) && NewIds(s, family, refresh, access)
    requires ExchangeAllowed(texts, s.requests[rid].form, s.requests[rid].claims, s.requests[rid].code)
    ensures var t := DoMintFirst(texts, s, rid, access, refresh, family, nowMs);
            HistoryOk(texts, t) && TokenStateOk(texts, t) && Grows(s, t)
  {
    var q := s.requests[rid];
    var t := DoMintFirst(texts, s, rid, access, refresh, family, nowMs);
    var f := Family(q.code.jti, q.form.verifier, [refresh], [access]);
    var u := WithFamily(s, family, f, refresh, access);
    assert ClaimsOk(texts, q.claims, s.families, s.consents, s.roles);
    assert family !in s.families;
    NewFamilyGrows(texts, s, family, f, refresh, access);
    NewFamilyKeepsHistory(texts, s, family, f, refresh, access);
    NewFamilyKeepsTokens(texts, s, family, f, refresh, access);
    var c := FirstClaims(q, access, nowMs);
    MintingKeepsState(texts, u, rid, t.requests[rid], c);
    MintingGrows(u, rid, t.requests[rid], c);
    assert t == Minting(u, rid, t.requests[rid], c);
    GrowsTrans(s, u, t);
  }

  lemma MintFirstAllowed(texts: Texts, s: System, rid: Id, access: Id, refresh: Id, family: Id, nowMs: int)
    requires Inv(texts, s) && At(s, rid) && s.requests[rid].CodeTaken? && NewIds(s, family, refresh, access)
    requires ExchangeAllowed(texts, s.requests[rid].form, s.requests[rid].claims, s.requests[rid].code)
    ensures Keeps(texts, s, DoMintFirst(texts, s, rid, access, refresh, family, nowMs))
  {
    assert Grounded(texts, s, s.requests[rid]) && Held(s, s.requests[rid]);
    assert family !in s.families;
    MintFirstState(texts, s, rid, access, refresh, family, nowMs);
    MintFirstRequests(texts, s, rid, access, refresh, family, nowMs);
  }

  /** The request that minted is grounded in the new family and holds its last token. */
  lemma FirstIsHeld(texts: Texts, s: System, rid: Id, access: Id, refresh: Id, family: Id, nowMs: int)
    requires SignedOk(texts, s.signed, s.families, s.consents, s.roles)
    requires At(s, rid) && s.requests[rid].CodeTaken? && NewIds(s, family, refresh, access)
    requires Grounded(texts, s, s.requests[rid]) && refresh !in s.store.refreshTokens
    requires ExchangeAllowed(texts, s.requests[rid].form, s.requests[rid].claims, s.requests[rid].code)
    ensures var t := DoMintFirst(texts, s, rid, access, refresh, family, nowMs);
            Grounded(texts, t, t.requests[rid]) && Held(t, t.requests[rid])
  {
    assert ClaimsOk(texts, s.requests[rid].claims, s.families, s.consents, s.roles);
  }

  lemma OthersHeldAfterFirst(texts: Texts, s: System, rid: Id, access: Id, refresh: Id, family: Id, nowMs: int, r: Id)
    requires At(s, rid) && s.requests[rid].CodeTaken? && NewIds(s, family, refresh, access) && family !in s.families
    requires ExchangeAllowed(texts, s.requests[rid].form, s.requests[rid].claims, s.requests[rid].code)
    requires r in s.requests && r != rid && Held(s, s.requests[r])
    requires Carried(s.requests[r]) != Some(s.requests[rid].code.jti)
    ensures Held(DoMintFirst(texts, s, rid, access, refresh, family, nowMs), s.requests[r])
  {}

  /** No request carries an identifier that was never used. */
  lemma FreshIsNotCarried(texts: Texts, s: System, id: Id)
    requires HistoryOk(texts, s) && RequestsOk(texts, s) && id !in s.roles
    ensures forall r :: r in s.requests ==> Carried(s.requests[r]) != Some(id)
  {
    forall r | r in s.requests
      ensures Carried(s.requests[r]) != Some(id)
    {
      assert Grounded(texts, s, s.requests[r]);
    }
  }

  lemma MintFirstRequests(texts: Texts, s: System, rid: Id, access: Id, refresh: Id, family: Id, nowMs: int)
    requires Inv(texts, s) && At(s, rid) && s.requests[rid].CodeTaken? && NewIds(s, family, refresh, access) &&
        family !in s.families
    requires ExchangeAllowed(texts, s.requests[rid].form, s.requests[rid].claims, s.requests[rid].code)
    requires Grows(s, DoMintFirst(texts, s, rid, access, refresh, family, nowMs))
    ensures var t := DoMintFirst(texts, s, rid, access, refresh, family, nowMs);
            RequestsOk(texts, t) && Exclusive(t.requests)
  {
    var t := DoMintFirst(texts, s, rid, access, refresh, family, nowMs);
    assert refresh !in s.store.refreshTokens;
    FirstIsHeld(texts, s, rid, access, refresh, family, nowMs);
    FreshIsNotCarried(texts, s, refresh);
    forall r | r in s.requests && r != rid
      ensures Held(t, s.requests[r])
    {
      assert Carried(s.requests[r]) != Carried(s.requests[rid]);
      OthersHeldAfterFirst(texts, s, rid, access, refresh, family, nowMs, r);
    }
    RequestsFollow(texts, s, t, rid);
  }

  lemma MintNextState(texts: Texts, s: System, rid: Id, access: Id, refresh: Id, nowMs: int)
    requires HistoryOk(texts, s) && TokenStateOk(texts, s) && At(s, rid) && s.requests[rid].TokenTaken?
    requires Grounded(texts, s, s.requests[rid]) && Held(s, s.requests[rid])
    requires Fresh(s, access) && Fresh(s, refresh) && access != refresh
    ensures var t := DoMintNext(s, rid, access, refresh, nowMs);
            HistoryOk(texts, t) && TokenStateOk(texts, t) && Grows(s, t)
  {
    var q := s.requests[rid];
    var t := DoMintNext(s, rid, access, refresh, nowMs);
    var k := q.token;
    var u := WithSuccessor(s, k.familyId, refresh, access);
    assert RoleOk(k.jti, s.roles[k.jti], s.families);
    SuccessorGrows(s, k.familyId, refresh, access);
    SuccessorKeepsHistory(texts, s, k.familyId, refresh, access);
    SuccessorKeepsTokens(texts, s, k.familyId, refresh, access, k.jti);
    var c := AccessClaims(q.base, k.subject, k.resource, k.scope, access, k.resource, Seconds(nowMs) + ACCESS_SECONDS);
    MintingKeepsState(texts, u, rid, t.requests[rid], c);
    MintingGrows(u, rid, t.requests[rid], c);
    assert t == Minting(u, rid, t.requests[rid], c);
    GrowsTrans(s, u, t);
  }

  lemma MintNextKeeps(texts: Texts, s: System, rid: Id, access: Id, refresh: Id, nowMs: int)
    requires Inv(texts, s)
    ensures Keeps(texts, s, DoMintNext(s, rid, access, refresh, nowMs))
  {
    if At(s, rid) && s.requests[rid].TokenTaken? && Fresh(s, access) && Fresh(s, refresh) && access != refresh {
      assert Grounded(texts, s, s.requests[rid]) && Held(s, s.requests[rid]);
      MintNextState(texts, s, rid, access, refresh, nowMs);
      MintNextRequests(texts, s, rid, access, refresh, nowMs);
    } else {
      NothingKeeps(texts, s);
    }
  }

  lemma LastsAgree(s: System, a: Id, b: Id, family: Id)
    requires RolesOk(s.families, s.roles) && IsLast(s, a, family) && IsLast(s, b, family)
    ensures a == b
  {
    assert RoleOk(a, s.roles[a], s.families) && RoleOk(b, s.roles[b], s.families);
  }

  /** Two requests that both hold the last token of one family are the same request. */
  lemma LastIsHeldOnce(texts: Texts, s: System, r: Id, q: Id)
    requires RolesOk(s.families, s.roles) && RequestsOk(texts, s) && Exclusive(s.requests)
    requires r in s.requests && q in s.requests
    requires HoldsFamily(s.requests[r]).Some? && HoldsFamily(s.requests[r]) == HoldsFamily(s.requests[q])
    ensures r == q
  {
    assert Held(s, s.requests[r]) && Held(s, s.requests[q]);
    LastsAgree(s, Carried(s.requests[r]).value, Carried(s.requests[q]).value, HoldsFamily(s.requests[r]).value);
  }

  /** The family a request has consumed the last token of, or minted the next one for. */
  function HoldsFamily(q: Request): Option<Id> {
    match q
    case TokenTaken(_, t) => Some(t.familyId)
    case Minted(_, t) => Some(t.familyId)
    case _ => None
  }

  lemma NextIsHeld(texts: Texts, s: System, rid: Id, access: Id, refresh: Id, nowMs: int)
    requires At(s, rid) && s.requests[rid].TokenTaken? && Grounded(texts, s, s.requests[rid])
    requires Fresh(s, access) && Fresh(s, refresh) && access != refresh && refresh !in s.store.refreshTokens
    ensures var t := DoMintNext(s, rid, access, refresh, nowMs);
            Grounded(texts, t, t.requests[rid]) && Held(t, t.requests[rid])
  {}

  lemma OthersHeldAfterNext(s: System, rid: Id, access: Id, refresh: Id, nowMs: int, r: Id)
    requires At(s, rid) && s.requests[rid].TokenTaken? && s.requests[rid].token.familyId in s.families
    requires Fresh(s, access) && Fresh(s, refresh) && access != refresh
    requires r in s.requests && r != rid && Held(s, s.requests[r])
    requires HoldsFamily(s.requests[r]) != Some(s.requests[rid].token.familyId)
    ensures Held(DoMintNext(s, rid, access, refresh, nowMs), s.requests[r])
  {}

  lemma MintNextRequests(texts: Texts, s: System, rid: Id, access: Id, refresh: Id, nowMs: int)
    requires Inv(texts, s) && At(s, rid) && s.requests[rid].TokenTaken? && Fresh(s, access) && Fresh(s, refresh) &&
        access != refresh
    requires Grows(s, DoMintNext(s, rid, access, refresh, nowMs))
    ensures var t := DoMintNext(s, rid, access, refresh, nowMs); RequestsOk(texts, t) && Exclusive(t.requests)
  {
    var t := DoMintNext(s, rid, access, refresh, nowMs);
    assert Grounded(texts, s, s.requests[rid]);
    assert refresh !in s.store.refreshTokens;
    NextIsHeld(texts, s, rid, access, refresh, nowMs);
    FreshIsNotCarried(texts, s, refresh);
    forall r | r in s.requests && r != rid
      ensures Held(t, s.requests[r])
    {
      if HoldsFamily(s.requests[r]) == HoldsFamily(s.requests[rid]) {
        LastIsHeldOnce(texts, s, r, rid);
      }
      OthersHeldAfterNext(s, rid, access, refresh, nowMs, r);
    }
    RequestsFollow(texts, s, t, rid);
  }

  // ----- taking and keeping refresh tokens -----

  lemma PostedRefresh(texts: Texts, s: System, rid: Id, base: Text, claims: Claims, nowMs: int)
    requires Inv(texts, s) && !At(s, rid)
    ensures Keeps(texts, s, DoPostRefresh(s, rid, base, claims, nowMs))
  {
    if Verifies(s.signed, claims, nowMs) && claims.RefreshClaims? && claims.iss == base {
      MovesOnly(texts, s, rid, TokenVerified(base, claims));
    } else {
      MovesOnly(texts, s, rid, Rejected);
    }
  }

  lemma PostRefreshKeeps(texts: Texts, s: System, rid: Id, base: Text, claims: Claims, nowMs: int)
    requires Inv(texts, s)
    ensures Keeps(texts, s, DoPostRefresh(s, rid, base, claims, nowMs))
  {
    if At(s, rid) {
      NothingKeeps(texts, s);
    } else {
      PostedRefresh(texts, s, rid, base, claims, nowMs);
    }
  }

  /** An unconsumed stored token is the last of its chain and is carried by no request. */
  lemma UnconsumedTokenIsLast(texts: Texts, s: System, jti: Id)
    requires Inv(texts, s) && jti in s.store.refreshTokens && s.store.refreshTokens[jti].consumedAt.None?
    ensures IsLast(s, jti, s.store.refreshTokens[jti].familyId)
    ensures forall r :: r in s.requests ==> Carried(s.requests[r]) != Some(jti)
  {
    var t := s.store.refreshTokens[jti];
    assert TokenOk(jti, t, s.families, s.consents, s.roles);
    assert RoleOk(jti, s.roles[jti], s.families);
    assert !Used(s.store.refreshTokens, jti);
    forall r | r in s.requests
      ensures Carried(s.requests[r]) != Some(jti)
    {
      assert Grounded(texts, s, s.requests[r]) && Held(s, s.requests[r]);
    }
  }

  lemma TakeTokenGrows(s: System, rid: Id, nowMs: int)
    ensures Grows(s, DoTakeToken(s, rid, nowMs))
  {}

  lemma TakeTokenKeepsTokens(texts: Texts, s: System, rid: Id, nowMs: int)
    requires TokenStateOk(texts, s)
    ensures TokenStateOk(texts, DoTakeToken(s, rid, nowMs))
  {
    var t := DoTakeToken(s, rid, nowMs);
    forall k | k in t.store.refreshTokens
      ensures TokenOk(k, t.store.refreshTokens[k], t.families, t.consents, t.roles)
    {
      assert TokenOk(k, s.store.refreshTokens[k], s.families, s.consents, s.roles);
    }
    TakeTokenGrows(s, rid, nowMs);
    assert OnlyLastLive(t.store.refreshTokens, t.families);
  }

  lemma TakeTokenKeeps(texts: Texts, s: System, rid: Id, nowMs: int)
    requires Inv(texts, s)
    ensures Keeps(texts, s, DoTakeToken(s, rid, nowMs))
  {
    TakeTokenGrows(s, rid, nowMs);
    TakeTokenKeepsTokens(texts, s, rid, nowMs);
    if At(s, rid) && s.requests[rid].TokenVerified? {
      TakeTokenKeepsHistory(texts, s, rid, nowMs);
      TakerIsAlone(texts, s, rid, nowMs);
      TakeTokenRequests(texts, s, rid, nowMs);
    }
  }

  lemma TakeTokenKeepsHistory(texts: Texts, s: System, rid: Id, nowMs: int)
    requires HistoryOk(texts, s)
    ensures HistoryOk(texts, DoTakeToken(s, rid, nowMs))
  {
    TakeTokenTouchesTokens(s, rid, nowMs);
  }

  /** Taking a token touches the refresh tokens and compromised families alone. */
  lemma TakeTokenTouchesTokens(s: System, rid: Id, nowMs: int)
    ensures var t := DoTakeToken(s, rid, nowMs);
            && t.roles == s.roles && t.families == s.families && t.consents == s.consents && t.signed == s.signed
            && t.store.clients == s.store.clients && t.store.authorizationCodes == s.store.authorizationCodes
  {}

  /** The token a verified request names is stored, is the last of its chain, and repeats the request's consent. */
  ghost predicate NamesLast(s: System, q: Request)
    requires q.TokenVerified? && q.claims.jti in s.store.refreshTokens
  {
    var record := s.store.refreshTokens[q.claims.jti];
    && record.jti == q.claims.jti && TokenOk(record.jti, record, s.families, s.consents, s.roles)
    && q.base == s.consents[s.families[record.familyId].code].base
    && IsLast(s, record.jti, record.familyId)
  }

  predicate CanTake(s: System, q: Request, nowMs: int) {
    q.TokenVerified? && MemConsumeRefresh(s.store, q.claims.jti, nowMs).reply.result.Consumed?
  }

  /** The token a request takes is the last of its chain, and no other request carries it. */
  lemma TakenIsHeld(texts: Texts, s: System, rid: Id, nowMs: int)
    requires Inv(texts, s) && At(s, rid) && CanTake(s, s.requests[rid], nowMs)
    ensures NamesLast(s, s.requests[rid])
    ensures forall r :: r in s.requests ==> Carried(s.requests[r]) != Some(s.requests[rid].claims.jti)
  {
    var q := s.requests[rid];
    assert Grounded(texts, s, q);
    assert ClaimsOk(texts, q.claims, s.families, s.consents, s.roles);
    UnconsumedTokenIsLast(texts, s, q.claims.jti);
    assert TokenOk(q.claims.jti, s.store.refreshTokens[q.claims.jti], s.families, s.consents, s.roles);
  }

  lemma OthersHeldAfterTake(s: System, rid: Id, nowMs: int, r: Id)
    requires r in s.requests && Held(s, s.requests[r])
    ensures Held(DoTakeToken(s, rid, nowMs), s.requests[r])
  {}

  lemma TakerIsHeld(texts: Texts, s: System, rid: Id, nowMs: int)
    requires At(s, rid) && s.requests[rid].TokenVerified?
    requires CanTake(s, s.requests[rid], nowMs) ==> NamesLast(s, s.requests[rid])
    ensures var t := DoTakeToken(s, rid, nowMs);
            && Grounded(texts, t, t.requests[rid]) && Held(t, t.requests[rid])
            && Carried(t.requests[rid]) ==
                 if CanTake(s, s.requests[rid], nowMs) then Some(s.requests[rid].claims.jti) else None
  {}

  /** The request that took a token is grounded, and it alone carries what it took. */
  lemma TakerIsAlone(texts: Texts, s: System, rid: Id, nowMs: int)
    requires Inv(texts, s) && At(s, rid) && s.requests[rid].TokenVerified?
    ensures var t := DoTakeToken(s, rid, nowMs);
            && Grounded(texts, t, t.requests[rid]) && Held(t, t.requests[rid])
            && (Carried(t.requests[rid]).Some? ==>
                forall r :: r in s.requests ==> Carried(s.requests[r]) != Carried(t.requests[rid]))
  {
    if CanTake(s, s.requests[rid], nowMs) {
      TakenIsHeld(texts, s, rid, nowMs);
    }
    TakerIsHeld(texts, s, rid, nowMs);
  }

  lemma TakeTokenRequests(texts: Texts, s: System, rid: Id, nowMs: int)
    requires RequestsOk(texts, s) && Exclusive(s.requests) && Grows(s, DoTakeToken(s, rid, nowMs)) && At(s, rid)
    requires var t := DoTakeToken(s, rid, nowMs);
             && Grounded(texts, t, t.requests[rid]) && Held(t, t.requests[rid])
             && (Carried(t.requests[rid]).Some? ==>
                 forall r :: r in s.requests && r != rid ==> Carried(s.requests[r]) != Carried(t.requests[rid]))
    ensures var t := DoTakeToken(s, rid, nowMs); RequestsOk(texts, t) && Exclusive(t.requests)
  {
    var t := DoTakeToken(s, rid, nowMs);
    forall r | r in s.requests && r != rid
      ensures Held(t, s.requests[r])
    {
      OthersHeldAfterTake(s, rid, nowMs, r);
    }
    RequestsFollow(texts, s, t, rid);
  }

  lemma KeepTokenGrows(s: System, rid: Id)
    requires At(s, rid) && s.requests[rid].Minted? ==> s.requests[rid].next.jti !in s.store.refreshTokens
    ensures Grows(s, DoKeepToken(s, rid))
  {}

  lemma KeepTokenKeeps(texts: Texts, s: System, rid: Id)
    requires Inv(texts, s)
    ensures Keeps(texts, s, DoKeepToken(s, rid))
  {
    if At(s, rid) && s.requests[rid].Minted? {
      var t := DoKeepToken(s, rid);
      var q := s.requests[rid];
      assert Grounded(texts, s, q) && Held(s, q);
      KeepTokenGrows(s, rid);
      KeepTokenKeepsTokens(texts, s, q.next);
      KeepTokenRequests(texts, s, rid);
    } else {
      NothingKeeps(texts, s);
    }
  }

  lemma KeepTokenKeepsTokens(texts: Texts, s: System, next: RefreshRecord)
    requires TokenStateOk(texts, s) && TokenOk(next.jti, next, s.families, s.consents, s.roles) &&
        next.jti !in s.store.refreshTokens
    ensures TokenStateOk(texts, s.(store := MemStoreRefresh(s.store, next)))
  {
    var t := s.(store := MemStoreRefresh(s.store, next));
    assert forall k :: Used(s.store.refreshTokens, k) ==> Used(t.store.refreshTokens, k);
  }

  lemma KeepTokenRequests(texts: Texts, s: System, rid: Id)
    requires Inv(texts, s) && At(s, rid) && s.requests[rid].Minted? && Grows(s, DoKeepToken(s, rid))
    ensures var t := DoKeepToken(s, rid); RequestsOk(texts, t) && Exclusive(t.requests)
  {
    var t := DoKeepToken(s, rid);
    assert Grounded(texts, s, s.requests[rid]);
    GroundedGrows(texts, s, t, s.requests[rid]);
    forall r | r in s.requests && r != rid
      ensures Held(t, s.requests[r])
    {
      assert Held(s, s.requests[r]);
      assert Carried(s.requests[r]) != Carried(s.requests[rid]);
    }
    RequestsFollow(texts, s, t, rid);
  }

  lemma SignTokenKeeps(texts: Texts, s: System, rid: Id, nowMs: int)
    requires Inv(texts, s)
    ensures Keeps(texts, s, DoSignToken(s, rid, nowMs))
  {
    if At(s, rid) && s.requests[rid].Kept? {
      var q := s.requests[rid];
      var t := q.next;
      assert Grounded(texts, s, q);
      SignsOnly(texts, s, rid, RefreshClaims(q.base, t.subject, t.resource, t.scope, t.jti, t.familyId, t.resource,
                                             Seconds(nowMs) + REFRESH_SECONDS), Answered);
    } else {
      NothingKeeps(texts, s);
    }
  }

  lemma ThrottleKeeps(texts: Texts, s: System, key: Id, windowMs: int, maxRequests: int, nowMs: int)
    requires Inv(texts, s)
    ensures Keeps(texts, s, s.(store := MemRateLimit(s.store, key, windowMs, maxRequests, nowMs).next))
  {
    var t := s.(store := MemRateLimit(s.store, key, windowMs, maxRequests, nowMs).next);
    assert t.store == s.store.(rateLimits := t.store.rateLimits);
    assert Grows(s, t);
    AllGroundedGrow(texts, s, t);
  }

  // ----- every step, every run -----

  lemma AuthorizeKeeps(texts: Texts, s: System, e: Event, nowMs: int)
    requires texts.Valid() && Inv(texts, s)
    requires e.Register? || e.Throttle? || e.PostConsent? || e.KeepCode? || e.SignCode?
    ensures Keeps(texts, s, Step(texts, s, e, nowMs))
  {
    match e
    case Register(id, name, uris) =>
      if Fresh(s, id) { RegisterKeeps(texts, s, id, name, uris, nowMs); } else { NothingKeeps(texts, s); }
    case Throttle(key, w, m) => ThrottleKeeps(texts, s, key, w, m, nowMs);
    case PostConsent(rid, form) => PostConsentKeeps(texts, s, rid, form, nowMs);
    case KeepCode(rid, jti) => KeepCodeKeeps(texts, s, rid, jti, nowMs);
    case SignCode(rid) => SignCodeKeeps(texts, s, rid, nowMs);
  }

  lemma ExchangeKeeps(texts: Texts, s: System, e: Event, nowMs: int)
    requires Inv(texts, s) && (e.PostCode? || e.TakeCode? || e.MintFirst? || e.Abort?)
    ensures Keeps(texts, s, Step(texts, s, e, nowMs))
  {
    match e
    case PostCode(rid, form, claims) => PostCodeKeeps(texts, s, rid, form, claims, nowMs);
    case TakeCode(rid) => TakeCodeKeeps(texts, s, rid, nowMs);
    case MintFirst(rid, access, refresh, family) => MintFirstKeeps(texts, s, rid, access, refresh, family, nowMs);
    case Abort(rid) => if At(s, rid) { MovesOnly(texts, s, rid, Rejected); } else { NothingKeeps(texts, s); }
  }

  lemma RefreshKeeps(texts: Texts, s: System, e: Event, nowMs: int)
    requires Inv(texts, s) && (e.PostRefresh? || e.TakeToken? || e.MintNext? || e.KeepToken? || e.SignToken?)
    ensures Keeps(texts, s, Step(texts, s, e, nowMs))
  {
    match e
    case PostRefresh(rid, base, claims) => PostRefreshKeeps(texts, s, rid, base, claims, nowMs);
    case TakeToken(rid) => TakeTokenKeeps(texts, s, rid, nowMs);
    case MintNext(rid, access, refresh) => MintNextKeeps(texts, s, rid, access, refresh, nowMs);
    case KeepToken(rid) => KeepTokenKeeps(texts, s, rid);
    case SignToken(rid) => SignTokenKeeps(texts, s, rid, nowMs);
  }

  lemma StepKeeps(texts: Texts, s: System, e: Event, nowMs: int)
    requires texts.Valid() && Inv(texts, s)
    ensures Keeps(texts, s, Step(texts, s, e, nowMs))
  {
    if e.Register? || e.Throttle? || e.PostConsent? || e.KeepCode? || e.SignCode? {
      AuthorizeKeeps(texts, s, e, nowMs);
    } else if e.PostCode? || e.TakeCode? || e.MintFirst? || e.Abort? {
      ExchangeKeeps(texts, s, e, nowMs);
    } else {
      RefreshKeeps(texts, s, e, nowMs);
    }
  }

  lemma {:induction false} RunKeeps(texts: Texts, s: System, events: seq<TimedEvent>)
    requires texts.Valid() && Inv(texts, s)
    ensures Keeps(texts, s, Run(texts, s, events))
    decreases |events|
  {
    if events == [] {
      NothingKeeps(texts, s);
    } else {
      var t := Step(texts, s, events[0].event, events[0].nowMs);
      StepKeeps(texts, s, events[0].event, events[0].nowMs);
      RunKeeps(texts, t, events[1..]);
      GrowsTrans(s, t, Run(texts, s, events));
    }
  }

  lemma EveryRunKeeps(texts: Texts, events: seq<TimedEvent>)
    requires texts.Valid()
    ensures Inv(texts, Run(texts, INITIAL, events))
  {
    RunKeeps(texts, INITIAL, events);
  }
}
