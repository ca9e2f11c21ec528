/**
 What the token life cycle promises in every interleaving: families are unbranching chains, tokens
 trace back to one consent, codes are exchanged at most once, and a replayed token ends its family.
 */
module OAuthTheorems {
  import opened Options
  import opened OAuthStore
  import opened Jwt
  import opened OAuthFlow
  import opened OAuthInvariant
  import opened OAuthMinting

  // ----- one unbranching chain per family -----

  /** Who can extend a family: an unconsumed stored token, or a request between consume and store. */
  datatype Holder = Stored(jti: Id) | InFlight(rid: Id)

  function Holders(s: System, family: Id): set<Holder> {
    (set j | j in s.store.refreshTokens && s.store.refreshTokens[j].familyId == family
             && s.store.refreshTokens[j].consumedAt.None? :: Stored(j))
    + (set r | r in s.requests && HoldsFamily(s.requests[r]) == Some(family) :: InFlight(r))
  }

  /** While the last token of a family is stored and unconsumed, no request holds the family. */
  lemma StoredExcludesInFlight(texts: Texts, s: System, jti: Id, r: Id)
    requires Inv(texts, s) && r in s.requests
    requires jti in s.store.refreshTokens && s.store.refreshTokens[jti].consumedAt.None?
    ensures HoldsFamily(s.requests[r]) != Some(s.store.refreshTokens[jti].familyId)
  {
    UnconsumedTokenIsLast(texts, s, jti);
    assert RoleOk(jti, s.roles[jti], s.families);
    if HoldsFamily(s.requests[r]).Some? {
      var held := Carried(s.requests[r]).value;
      assert Held(s, s.requests[r]);
      assert RoleOk(held, s.roles[held], s.families);
    }
  }

  lemma StoredHoldersAgree(texts: Texts, s: System, j: Id, k: Id)
    requires Inv(texts, s) && j in s.store.refreshTokens && k in s.store.refreshTokens
    requires s.store.refreshTokens[j].consumedAt.None? && s.store.refreshTokens[k].consumedAt.None?
    requires s.store.refreshTokens[j].familyId == s.store.refreshTokens[k].familyId
    ensures j == k
  {
    UnconsumedTokenIsLast(texts, s, j);
    UnconsumedTokenIsLast(texts, s, k);
    assert RoleOk(j, s.roles[j], s.families) && RoleOk(k, s.roles[k], s.families);
  }

  lemma HoldersAgree(texts: Texts, s: System, family: Id, a: Holder, b: Holder)
    requires Inv(texts, s) && a in Holders(s, family) && b in Holders(s, family)
    ensures a == b
  {
    match (a, b)
    case (InFlight(r), InFlight(q)) => LastIsHeldOnce(texts, s, r, q);
    case (Stored(j), Stored(k)) => StoredHoldersAgree(texts, s, j, k);
    case (Stored(j), InFlight(r)) => StoredExcludesInFlight(texts, s, j, r);
    case (InFlight(r), Stored(j)) => StoredExcludesInFlight(texts, s, j, r);
  }

  lemma AtMostOneHolder(texts: Texts, s: System, family: Id)
    requires Inv(texts, s)
    ensures |Holders(s, family)| <= 1
  {
    if Holders(s, family) != {} {
      var a :| a in Holders(s, family);
      forall b | b in Holders(s, family)
        ensures b == a
      {
        HoldersAgree(texts, s, family, a, b);
      }
      assert Holders(s, family) == {a};
    }
  }

  /** In every interleaving, unconsumed stored tokens plus requests in flight are at most one a family. */
  lemma OneHolderPerFamily(texts: Texts, events: seq<TimedEvent>, family: Id)
    requires texts.Valid()
    ensures |Holders(Run(texts, INITIAL, events), family)| <= 1
  {
    EveryRunKeeps(texts, events);
    AtMostOneHolder(texts, Run(texts, INITIAL, events), family);
  }

  ghost predicate AtIndex(ids: seq<Id>, i: int, id: Id) { 0 <= i < |ids| && ids[i] == id }

  /** Every stored refresh token stands at exactly one place of exactly one chain, and only the
      last token of a chain can be unconsumed: successors follow each other without branching. */
  lemma FamiliesAreChains(texts: Texts, events: seq<TimedEvent>, jti: Id)
    requires texts.Valid()
    ensures var s := Run(texts, INITIAL, events);
            jti in s.store.refreshTokens ==>
              var t := s.store.refreshTokens[jti];
              && t.familyId in s.families
              && (exists i ::
                  AtIndex(s.families[t.familyId].chain, i, jti) &&
                      (i < |s.families[t.familyId].chain| - 1 ==> t.consumedAt.Some?))
              && (forall f, g, i, j | f in s.families && g in s.families && AtIndex(s.families[f].chain, i, jti) &&
                  AtIndex(s.families[g].chain, j, jti)
                    :: f == g == t.familyId && i == j)
  {
    var s := Run(texts, INITIAL, events);
    EveryRunKeeps(texts, events);
    if jti in s.store.refreshTokens {
      var t := s.store.refreshTokens[jti];
      assert TokenOk(jti, t, s.families, s.consents, s.roles);
      assert RoleOk(jti, s.roles[jti], s.families);
      var i := s.roles[jti].index;
      assert AtIndex(s.families[t.familyId].chain, i, jti);
      if i < |s.families[t.familyId].chain| - 1 {
        assert Used(s.store.refreshTokens, s.families[t.familyId].chain[i]);
      }
      ChainPlacesAreUnique(s, jti, t.familyId, i);
    }
  }

  lemma ChainPlacesAreUnique(s: System, jti: Id, family: Id, index: nat)
    requires ChainsOk(s.families, s.roles) && jti in s.roles && s.roles[jti] == RefreshRole(family, index)
    ensures forall f, i :: f in s.families && AtIndex(s.families[f].chain, i, jti) ==> f == family && i == index
  {
    forall f, i | f in s.families && AtIndex(s.families[f].chain, i, jti)
      ensures f == family && i == index
    {
      assert s.roles[s.families[f].chain[i]] == RefreshRole(f, i);
    }
  }

  // ----- tracing tokens to consents -----

  /** `family` was opened by a consent whose terms are these, given to a registered client for one of
      its redirects, and redeemed with a verifier for its challenge. */
  ghost predicate TracesTo(texts: Texts, s: System, family: Id, iss: Text, sub: Id, aud: Text, scope: Text,
          resource: Text) {
    && family in s.families && s.families[family].code in s.consents
    && var k := s.consents[s.families[family].code];
       && k == Consent(iss, sub, k.redirectUri, scope, resource, k.codeChallenge) && aud == resource
       && ConsentOk(texts, s.store.clients, k)
       && VerifyPkceS256(texts, s.families[family].verifier, k.codeChallenge)
  }

  /** Every access token ever signed stands at one place of one family and repeats its consent. */
  lemma AccessTokensTrace(texts: Texts, events: seq<TimedEvent>, c: Claims)
    requires texts.Valid() && c in Run(texts, INITIAL, events).signed && c.AccessClaims?
    ensures var s := Run(texts, INITIAL, events);
            exists f, i ::
              && f in s.families && AtIndex(s.families[f].access, i, c.jti)
              && TracesTo(texts, s, f, c.iss, c.sub, c.aud, c.scope, c.resource)
              && (forall g, j :: g in s.families && AtIndex(s.families[g].access, j, c.jti) ==> g == f && j == i)
  {
    var s := Run(texts, INITIAL, events);
    EveryRunKeeps(texts, events);
    assert ClaimsOk(texts, c, s.families, s.consents, s.roles);
    assert RoleOk(c.jti, s.roles[c.jti], s.families);
    var f, i := s.roles[c.jti].familyId, s.roles[c.jti].index;
    assert AtIndex(s.families[f].access, i, c.jti);
    FamilyTraces(texts, s, f);
    forall g, j | g in s.families && AtIndex(s.families[g].access, j, c.jti)
      ensures g == f && j == i
    {
      assert s.roles[s.families[g].access[j]] == AccessRole(g, j);
    }
  }

  lemma FamilyTraces(texts: Texts, s: System, f: Id)
    requires HistoryOk(texts, s) && f in s.families
    ensures s.families[f].code in s.consents
    ensures var k := s.consents[s.families[f].code];
            TracesTo(texts, s, f, k.base, k.clientId, k.resource, k.scope, k.resource)
  {
    assert FamilyOk(texts, s.families[f], s.store.authorizationCodes, s.consents);
  }

  /** Every refresh token ever signed stands at one place of the chain it names and repeats its consent. */
  lemma RefreshTokensTrace(texts: Texts, events: seq<TimedEvent>, c: Claims)
    requires texts.Valid() && c in Run(texts, INITIAL, events).signed && c.RefreshClaims?
    ensures var s := Run(texts, INITIAL, events);
            && TracesTo(texts, s, c.familyId, c.iss, c.sub, c.aud, c.scope, c.resource)
            && (exists i :: AtIndex(s.families[c.familyId].chain, i, c.jti))
            && (forall g, i, j | g in s.families && AtIndex(s.families[g].chain, j, c.jti) &&
                AtIndex(s.families[c.familyId].chain, i, c.jti)
                  :: g == c.familyId && j == i)
  {
    var s := Run(texts, INITIAL, events);
    EveryRunKeeps(texts, events);
    assert ClaimsOk(texts, c, s.families, s.consents, s.roles);
    assert RoleOk(c.jti, s.roles[c.jti], s.families);
    assert AtIndex(s.families[c.familyId].chain, s.roles[c.jti].index, c.jti);
    ChainPlacesAreUnique(s, c.jti, c.familyId, s.roles[c.jti].index);
    FamilyTraces(texts, s, c.familyId);
  }

  /** Every signed access token passes the resource server's check for its own issuer and resource,
      and no code or refresh token passes any such check. */
  lemma OnlyAccessTokensAreAccepted(texts: Texts, events: seq<TimedEvent>, c: Claims)
    requires texts.Valid() && c in Run(texts, INITIAL, events).signed
    ensures c.AccessClaims? <==> ValidateMcpAccessToken(texts, c, c.iss, texts.mcpOf(c.iss), MCP_READ).Some?
    ensures !c.AccessClaims? ==> forall iss, aud, scope :: ValidateMcpAccessToken(texts, c, iss, aud, scope) == None
  {
    if c.AccessClaims? {
      AccessTokensTrace(texts, events, c);
    }
  }

  // ----- codes -----

  /** Two families never come from one code, and a code that opened a family is consumed. */
  lemma CodesAreExchangedOnce(texts: Texts, events: seq<TimedEvent>, f: Id, g: Id)
    requires texts.Valid()
    ensures var s := Run(texts, INITIAL, events);
            f in s.families && g in s.families ==>
              && (s.families[f].code == s.families[g].code ==> f == g)
              && CodeSpent(s.store, s.families[f].code)
  {
    EveryRunKeeps(texts, events);
    var s := Run(texts, INITIAL, events);
    if f in s.families {
      assert FamilyOk(texts, s.families[f], s.store.authorizationCodes, s.consents);
    }
  }

  /** A consumed code no request is still holding and that opened no family. */
  ghost predicate Wasted(s: System, jti: Id) {
    && CodeSpent(s.store, jti)
    && (forall f :: f in s.families ==> s.families[f].code != jti)
    && (forall r :: r in s.requests && s.requests[r].CodeTaken? ==> s.requests[r].code.jti != jti)
  }

  /** The step moves at most request `rid`. */
  ghost predicate MovesOne(s: System, t: System, rid: Id) {
    t.requests == s.requests || (rid in t.requests && t.requests == s.requests[rid := t.requests[rid]])
  }

  lemma AuthorizeMovesOne(texts: Texts, s: System, e: Event, nowMs: int)
    requires e.PostConsent? || e.KeepCode? || e.SignCode?
    ensures MovesOne(s, Step(texts, s, e, nowMs), e.rid)
  {}

  lemma ExchangeMovesOne(texts: Texts, s: System, e: Event, nowMs: int)
    requires e.PostCode? || e.TakeCode? || e.Abort?
    ensures MovesOne(s, Step(texts, s, e, nowMs), e.rid)
  {}

  lemma RefreshMovesOne(texts: Texts, s: System, e: Event, nowMs: int)
    requires e.PostRefresh? || e.TakeToken? || e.KeepToken? || e.SignToken?
    ensures MovesOne(s, Step(texts, s, e, nowMs), e.rid)
  {}

  lemma MintMovesOne(texts: Texts, s: System, e: Event, nowMs: int)
    requires e.MintFirst? || e.MintNext?
    ensures MovesOne(s, Step(texts, s, e, nowMs), e.rid)
  {}

  /** A step moves at most the request it names. */
  lemma OneRequestMoves(texts: Texts, s: System, e: Event, nowMs: int)
    requires !e.Register? && !e.Throttle?
    ensures MovesOne(s, Step(texts, s, e, nowMs), e.rid)
  {
    if e.PostConsent? || e.KeepCode? || e.SignCode? {
      AuthorizeMovesOne(texts, s, e, nowMs);
    } else if e.PostCode? || e.TakeCode? || e.Abort? {
      ExchangeMovesOne(texts, s, e, nowMs);
    } else if e.MintFirst? || e.MintNext? {
      MintMovesOne(texts, s, e, nowMs);
    } else {
      RefreshMovesOne(texts, s, e, nowMs);
    }
  }

  lemma NoRequestMoves(texts: Texts, s: System, e: Event, nowMs: int)
    requires e.Register? || e.Throttle?
    ensures Step(texts, s, e, nowMs).requests == s.requests
  {}

  /** A request holds a code or a refresh token it consumed. */
  predicate Takes(q: Request) { q.CodeTaken? || q.TokenTaken? }

  /** No request takes anything new. */
  ghost predicate TakesNothing(s: System, t: System) {
    forall r :: r in t.requests && Takes(t.requests[r]) ==> r in s.requests && s.requests[r] == t.requests[r]
  }

  lemma AuthorizeTakesNothing(texts: Texts, s: System, e: Event, nowMs: int)
    requires e.PostConsent? || e.KeepCode? || e.SignCode?
    ensures TakesNothing(s, Step(texts, s, e, nowMs))
  {}

  lemma PostTakesNothing(texts: Texts, s: System, e: Event, nowMs: int)
    requires e.PostCode? || e.PostRefresh?
    ensures TakesNothing(s, Step(texts, s, e, nowMs))
  {}

  lemma AbortTakesNothing(texts: Texts, s: System, e: Event, nowMs: int)
    requires e.Abort?
    ensures TakesNothing(s, Step(texts, s, e, nowMs))
  {}

  lemma MintTakesNothing(texts: Texts, s: System, e: Event, nowMs: int)
    requires e.MintFirst? || e.MintNext?
    ensures TakesNothing(s, Step(texts, s, e, nowMs))
  {}

  lemma KeepingTakesNothing(texts: Texts, s: System, e: Event, nowMs: int)
    requires e.Register? || e.Throttle? || e.KeepToken? || e.SignToken?
    ensures TakesNothing(s, Step(texts, s, e, nowMs))
  {}

  /** Only `TakeCode` and `TakeToken` make a request hold a code or a refresh token. */
  lemma OnlyTakingTakes(texts: Texts, s: System, e: Event, nowMs: int)
    requires !e.TakeCode? && !e.TakeToken?
    ensures TakesNothing(s, Step(texts, s, e, nowMs))
  {
    if e.PostConsent? || e.KeepCode? || e.SignCode? {
      AuthorizeTakesNothing(texts, s, e, nowMs);
    } else if e.PostCode? || e.PostRefresh? {
      PostTakesNothing(texts, s, e, nowMs);
    } else if e.Abort? {
      AbortTakesNothing(texts, s, e, nowMs);
    } else if e.MintFirst? || e.MintNext? {
      MintTakesNothing(texts, s, e, nowMs);
    } else {
      KeepingTakesNothing(texts, s, e, nowMs);
    }
  }

  /** Only minting changes a family. */
  lemma OtherStepsKeepFamilies(texts: Texts, s: System, e: Event, nowMs: int)
    requires !e.MintFirst? && !e.MintNext?
    ensures Step(texts, s, e, nowMs).families == s.families
  {}

  /** Only `MintFirst` opens a family, and for the code its request holds. */
  lemma FamiliesComeFromCodes(texts: Texts, s: System, e: Event, nowMs: int, f: Id)
    ensures var t := Step(texts, s, e, nowMs);
            f in t.families && (f !in s.families || t.families[f].code != s.families[f].code) ==>
              (e.MintFirst? && At(s, e.rid) && s.requests[e.rid].CodeTaken? &&
                  t.families[f].code == s.requests[e.rid].code.jti)
              || (e.MintNext? && At(s, e.rid) && s.requests[e.rid].TokenTaken? &&
                  s.requests[e.rid].token.familyId == f && f !in s.families)
  {
    match e
    case MintFirst(rid, access, refresh, family) =>
    case MintNext(rid, access, refresh) =>
    case _ => OtherStepsKeepFamilies(texts, s, e, nowMs);
  }

  lemma WastedOpensNoFamily(texts: Texts, s: System, e: Event, nowMs: int, jti: Id)
    requires texts.Valid() && Inv(texts, s) && Wasted(s, jti)
    ensures var t := Step(texts, s, e, nowMs); forall f :: f in t.families ==> t.families[f].code != jti
  {
    var t := Step(texts, s, e, nowMs);
    forall f | f in t.families
      ensures t.families[f].code != jti
    {
      FamiliesComeFromCodes(texts, s, e, nowMs, f);
      if e.MintNext? && At(s, e.rid) && s.requests[e.rid].TokenTaken? {
        assert Grounded(texts, s, s.requests[e.rid]);
      }
    }
  }

  lemma TakeTokenTakesNoCode(texts: Texts, s: System, e: Event, nowMs: int)
    requires e.TakeToken?
    ensures var t := Step(texts, s, e, nowMs);
            forall r :: r in t.requests && t.requests[r].CodeTaken? ==>
                r in s.requests && s.requests[r] == t.requests[r]
  {}

  lemma SpentIsNotTaken(texts: Texts, s: System, e: Event, nowMs: int, jti: Id)
    requires e.TakeCode? && CodeSpent(s.store, jti)
    requires CodesOk(s.store.authorizationCodes, s.consents, s.roles)
    ensures var t := Step(texts, s, e, nowMs);
            forall r :: r in t.requests && t.requests[r].CodeTaken? && t.requests[r].code.jti == jti ==>
                r in s.requests && s.requests[r] == t.requests[r]
  {}

  /** No request comes to hold a spent code. */
  lemma SpentIsHeldByNone(texts: Texts, s: System, e: Event, nowMs: int, jti: Id)
    requires CodeSpent(s.store, jti) && CodesOk(s.store.authorizationCodes, s.consents, s.roles)
    ensures var t := Step(texts, s, e, nowMs);
            forall r :: r in t.requests && t.requests[r].CodeTaken? && t.requests[r].code.jti == jti ==>
                r in s.requests && s.requests[r] == t.requests[r]
  {
    match e
    case TakeCode(rid) => SpentIsNotTaken(texts, s, e, nowMs, jti);
    case TakeToken(rid) => TakeTokenTakesNoCode(texts, s, e, nowMs);
    case _ => OnlyTakingTakes(texts, s, e, nowMs);
  }

  lemma WastedStays(texts: Texts, s: System, e: Event, nowMs: int, jti: Id)
    requires texts.Valid() && Inv(texts, s) && Wasted(s, jti)
    ensures Wasted(Step(texts, s, e, nowMs), jti)
  {
    StepKeeps(texts, s, e, nowMs);
    WastedOpensNoFamily(texts, s, e, nowMs, jti);
    SpentIsHeldByNone(texts, s, e, nowMs, jti);
  }

  lemma {:induction false} WastedForEver(texts: Texts, s: System, events: seq<TimedEvent>, jti: Id)
    requires texts.Valid() && Inv(texts, s) && Wasted(s, jti)
    ensures Wasted(Run(texts, s, events), jti)
    decreases |events|
  {
    if events != [] {
      WastedStays(texts, s, events[0].event, events[0].nowMs, jti);
      StepKeeps(texts, s, events[0].event, events[0].nowMs);
      WastedForEver(texts, Step(texts, s, events[0].event, events[0].nowMs), events[1..], jti);
    }
  }

  /** The step of an exchange that fails its checks leaves its code wasted. */
  lemma FailedExchangeWastes(texts: Texts, s: System, mint: Event, nowMs: int)
    requires Inv(texts, s) && mint.MintFirst? && At(s, mint.rid) && s.requests[mint.rid].CodeTaken?
    requires var q := s.requests[mint.rid]; !ExchangeAllowed(texts, q.form, q.claims, q.code)
    ensures Wasted(Step(texts, s, mint, nowMs), s.requests[mint.rid].code.jti)
  {
    var q := s.requests[mint.rid];
    assert Grounded(texts, s, q) && Held(s, q);
    assert Step(texts, s, mint, nowMs) == Put(s, mint.rid, Rejected);
    forall r | r in s.requests && s.requests[r].CodeTaken? && r != mint.rid
      ensures s.requests[r].code.jti != q.code.jti
    {
      assert Carried(s.requests[r]) != Carried(q);
    }
  }

  /**
   An exchange that consumed its code and then fails the verifier, redirect, client or issuer check has
   spent it: in no continuation does that code open a family.
   */
  lemma FailedExchangeSpendsCode(texts: Texts, before: seq<TimedEvent>, mint: TimedEvent, after: seq<TimedEvent>)
    requires texts.Valid() && mint.event.MintFirst?
    requires var s := Run(texts, INITIAL, before);
             var rid := mint.event.rid;
             At(s, rid) && s.requests[rid].CodeTaken?
             && !ExchangeAllowed(texts, s.requests[rid].form, s.requests[rid].claims, s.requests[rid].code)
    ensures var s := Run(texts, INITIAL, before);
            var jti := s.requests[mint.event.rid].code.jti;
            var t := Run(texts, Step(texts, s, mint.event, mint.nowMs), after);
            CodeSpent(t.store, jti) && forall f :: f in t.families ==> t.families[f].code != jti
  {
    var s := Run(texts, INITIAL, before);
    EveryRunKeeps(texts, before);
    FailedExchangeWastes(texts, s, mint.event, mint.nowMs);
    StepKeeps(texts, s, mint.event, mint.nowMs);
    WastedForEver(texts, Step(texts, s, mint.event, mint.nowMs), after, s.requests[mint.event.rid].code.jti);
  }

  // ----- compromise -----

  lemma CompromiseIsForEver(texts: Texts, s: System, events: seq<TimedEvent>, family: Id)
    requires texts.Valid() && Inv(texts, s) && family in s.store.compromisedFamilies
    ensures family in Run(texts, s, events).store.compromisedFamilies
  {
    RunKeeps(texts, s, events);
  }

  /** A verified request names a stored token by its own family, if the token is stored. */
  lemma VerifiedNamesItsFamily(texts: Texts, s: System, rid: Id)
    requires Inv(texts, s) && At(s, rid) && s.requests[rid].TokenVerified?
    ensures var c := s.requests[rid].claims;
            && c.RefreshClaims?
            && (c.jti in s.store.refreshTokens ==> s.store.refreshTokens[c.jti].familyId == c.familyId)
  {
    var c := s.requests[rid].claims;
    assert Grounded(texts, s, s.requests[rid]);
    assert ClaimsOk(texts, c, s.families, s.consents, s.roles);
    if c.jti in s.store.refreshTokens {
      assert TokenOk(c.jti, s.store.refreshTokens[c.jti], s.families, s.consents, s.roles);
    }
  }

  lemma CompromisedIsRefused(texts: Texts, s: System, rid: Id, nowMs: int)
    requires At(s, rid) && s.requests[rid].TokenVerified? && s.requests[rid].claims.RefreshClaims?
    requires var c := s.requests[rid].claims;
             && c.familyId in s.store.compromisedFamilies
             && (c.jti in s.store.refreshTokens ==> s.store.refreshTokens[c.jti].familyId == c.familyId)
    ensures Step(texts, s, TakeToken(rid), nowMs).requests[rid] == Rejected
  {}

  /**
   Once a family is compromised, every later request that presents one of its tokens is rejected, in
   every continuation and also when the token was stored by a request already in flight.
   */
  lemma CompromisedTokenIsRejected(texts: Texts, before: seq<TimedEvent>, after: seq<TimedEvent>, rid: Id, nowMs: int)
    requires texts.Valid()
    ensures var s := Run(texts, INITIAL, before);
            var t := Run(texts, s, after);
            At(t, rid) && t.requests[rid].TokenVerified? && t.requests[rid].claims.RefreshClaims? &&
                t.requests[rid].claims.familyId in s.store.compromisedFamilies
            ==> Step(texts, t, TakeToken(rid), nowMs).requests[rid] == Rejected
  {
    var s := Run(texts, INITIAL, before);
    var t := Run(texts, s, after);
    EveryRunKeeps(texts, before);
    RunKeeps(texts, s, after);
    if At(t, rid) && t.requests[rid].TokenVerified? && t.requests[rid].claims.RefreshClaims?
       && t.requests[rid].claims.familyId in s.store.compromisedFamilies {
      VerifiedNamesItsFamily(texts, t, rid);
      CompromisedIsRefused(texts, t, rid, nowMs);
    }
  }

  lemma ReplayIsDetected(texts: Texts, s: System, rid: Id, nowMs: int)
    requires At(s, rid) && s.requests[rid].TokenVerified?
    requires var jti := s.requests[rid].claims.jti;
             && Used(s.store.refreshTokens, jti) && s.store.refreshTokens[jti].expiresAt > Seconds(nowMs)
    ensures var t := Step(texts, s, TakeToken(rid), nowMs);
            && t.requests[rid] == Rejected
            && s.store.refreshTokens[s.requests[rid].claims.jti].familyId in t.store.compromisedFamilies
  {}

  /**
   A replay ends its family: a verified request whose token was already consumed and has not expired is rejected,
   and the family its claims name is compromised in every continuation.
   */
  lemma ReplayEndsFamily(texts: Texts, before: seq<TimedEvent>, after: seq<TimedEvent>, rid: Id, nowMs: int)
    requires texts.Valid()
    requires var s := Run(texts, INITIAL, before);
             && At(s, rid) && s.requests[rid].TokenVerified?
             && var jti := s.requests[rid].claims.jti;
                Used(s.store.refreshTokens, jti) && s.store.refreshTokens[jti].expiresAt > Seconds(nowMs)
    ensures var s := Run(texts, INITIAL, before);
            var t := Step(texts, s, TakeToken(rid), nowMs);
            && t.requests[rid] == Rejected
            && s.requests[rid].claims.RefreshClaims?
            && s.requests[rid].claims.familyId in Run(texts, t, after).store.compromisedFamilies
  {
    var s := Run(texts, INITIAL, before);
    var t := Step(texts, s, TakeToken(rid), nowMs);
    EveryRunKeeps(texts, before);
    VerifiedNamesItsFamily(texts, s, rid);
    ReplayIsDetected(texts, s, rid, nowMs);
    StepKeeps(texts, s, TakeToken(rid), nowMs);
    CompromiseIsForEver(texts, t, after, s.requests[rid].claims.familyId);
  }

  /** Tokens minted in a family, plus one if a request has already consumed its last token. */
  function Potential(s: System, family: Id): nat {
    |FamilyOf(s, family).chain| + |set r | r in s.requests && TakesFamily(s.requests[r], family)|
  }

  predicate TakesFamily(q: Request, family: Id) { q.TokenTaken? && q.token.familyId == family }

  lemma PotentialBound(texts: Texts, s: System, family: Id)
    requires Inv(texts, s)
    ensures Potential(s, family) <= |FamilyOf(s, family).chain| + 1
  {
    var taking := set r | r in s.requests && TakesFamily(s.requests[r], family);
    if exists a :: a in taking {
      var a :| a in taking;
      forall b | b in taking
        ensures b == a
      {
        LastIsHeldOnce(texts, s, a, b);
      }
      assert taking == {a};
    } else {
      assert taking == {};
    }
  }

  /** The set of takers after request `rid` moved to `q`. */
  lemma TakersAfter(s: System, t: System, rid: Id, family: Id)
    requires rid in t.requests && t.requests == s.requests[rid := t.requests[rid]]
    ensures var before := set r | r in s.requests && TakesFamily(s.requests[r], family);
            var after := set r | r in t.requests && TakesFamily(t.requests[r], family);
            && (!TakesFamily(t.requests[rid], family) ==> |after| <= |before|)
            && (!TakesFamily(t.requests[rid], family) && rid in before ==> |after| == |before| - 1)
  {
    var before := set r | r in s.requests && TakesFamily(s.requests[r], family);
    var after := set r | r in t.requests && TakesFamily(t.requests[r], family);
    if !TakesFamily(t.requests[rid], family) {
      assert after == before - {rid};
      if rid !in before {
        assert after == before;
      }
    }
  }

  lemma MintFirstKeepsFamily(texts: Texts, s: System, e: Event, nowMs: int, family: Id)
    requires e.MintFirst? && family in s.families && family in s.roles
    ensures var t := Step(texts, s, e, nowMs); family in t.families && t.families[family] == s.families[family]
  {}

  lemma MintNextKeepsFamily(texts: Texts, s: System, e: Event, nowMs: int, family: Id)
    requires e.MintNext? && family in s.families
    ensures family in Step(texts, s, e, nowMs).families
  {}

  /** A family that no step takes out of the history. */
  lemma FamilyStays(texts: Texts, s: System, e: Event, nowMs: int, family: Id)
    requires family in s.families && family in s.roles
    ensures family in Step(texts, s, e, nowMs).families
  {
    match e
    case MintFirst(_, _, _, _) => MintFirstKeepsFamily(texts, s, e, nowMs, family);
    case MintNext(_, _, _) => MintNextKeepsFamily(texts, s, e, nowMs, family);
    case _ => OtherStepsKeepFamilies(texts, s, e, nowMs);
  }

  /** A chain grows only by one token, which a request mints that had consumed the last one. */
  lemma MintNextGrowsChain(texts: Texts, s: System, e: Event, nowMs: int, family: Id)
    requires e.MintNext? && family in s.families && family in s.roles
    ensures var t := Step(texts, s, e, nowMs);
            FamilyOf(t, family).chain != s.families[family].chain ==>
              && At(s, e.rid) && TakesFamily(s.requests[e.rid], family)
              && |FamilyOf(t, family).chain| == |s.families[family].chain| + 1
              && At(t, e.rid) && !TakesFamily(t.requests[e.rid], family)
  {}

  lemma ChainGrowsByTakers(texts: Texts, s: System, e: Event, nowMs: int, family: Id)
    requires family in s.families && family in s.roles
    ensures var t := Step(texts, s, e, nowMs);
            FamilyOf(t, family).chain != s.families[family].chain ==>
              && e.MintNext? && At(s, e.rid) && TakesFamily(s.requests[e.rid], family)
              && |FamilyOf(t, family).chain| == |s.families[family].chain| + 1
              && At(t, e.rid) && !TakesFamily(t.requests[e.rid], family)
  {
    match e
    case MintFirst(_, _, _, _) => MintFirstKeepsFamily(texts, s, e, nowMs, family);
    case MintNext(_, _, _) => MintNextGrowsChain(texts, s, e, nowMs, family);
    case _ => OtherStepsKeepFamilies(texts, s, e, nowMs);
  }

  lemma TakeTokenTakesOther(texts: Texts, s: System, e: Event, nowMs: int, family: Id)
    requires e.TakeToken? && family in s.store.compromisedFamilies
    ensures var t := Step(texts, s, e, nowMs);
            forall r :: r in t.requests && TakesFamily(t.requests[r], family) ==>
                r in s.requests && s.requests[r] == t.requests[r]
  {}

  /** No request comes to hold a token of a compromised family. */
  lemma NoNewTakers(texts: Texts, s: System, e: Event, nowMs: int, family: Id)
    requires family in s.store.compromisedFamilies
    ensures var t := Step(texts, s, e, nowMs);
            forall r :: r in t.requests && TakesFamily(t.requests[r], family) ==>
                r in s.requests && s.requests[r] == t.requests[r]
  {
    match e
    case TakeCode(rid) =>
    case TakeToken(rid) => TakeTokenTakesOther(texts, s, e, nowMs, family);
    case _ => OnlyTakingTakes(texts, s, e, nowMs);
  }

  /** Two systems of which the second's chain and takers are the first's, up to one taker that minted. */
  lemma PotentialOfStep(s: System, t: System, rid: Id, family: Id)
    requires family in s.families && family in t.families && MovesOne(s, t, rid)
    requires forall r :: r in t.requests && TakesFamily(t.requests[r], family) ==>
                 r in s.requests && s.requests[r] == t.requests[r]
    requires t.families[family].chain != s.families[family].chain ==>
               && rid in s.requests && TakesFamily(s.requests[rid], family)
               && |t.families[family].chain| == |s.families[family].chain| + 1
               && rid in t.requests && !TakesFamily(t.requests[rid], family)
    ensures Potential(t, family) <= Potential(s, family)
  {
    if t.requests == s.requests || TakesFamily(t.requests[rid], family) {
      assert t.requests == s.requests;
    } else {
      TakersAfter(s, t, rid, family);
    }
  }

  lemma PotentialNeverGrows(texts: Texts, s: System, e: Event, nowMs: int, family: Id)
    requires family in s.store.compromisedFamilies && family in s.families && family in s.roles
    ensures Potential(Step(texts, s, e, nowMs), family) <= Potential(s, family)
    ensures family in Step(texts, s, e, nowMs).families
  {
    var t := Step(texts, s, e, nowMs);
    FamilyStays(texts, s, e, nowMs, family);
    ChainGrowsByTakers(texts, s, e, nowMs, family);
    NoNewTakers(texts, s, e, nowMs, family);
    if e.Register? || e.Throttle? {
      NoRequestMoves(texts, s, e, nowMs);
      PotentialOfStep(s, t, 0, family);
    } else {
      OneRequestMoves(texts, s, e, nowMs);
      PotentialOfStep(s, t, e.rid, family);
    }
  }

  lemma {:induction false} PotentialNeverGrowsInRun(texts: Texts, s: System, events: seq<TimedEvent>, family: Id)
    requires texts.Valid() && Inv(texts, s) && family in s.store.compromisedFamilies && family in s.families
    ensures Potential(Run(texts, s, events), family) <= Potential(s, family)
    decreases |events|
  {
    if events != [] {
      var t := Step(texts, s, events[0].event, events[0].nowMs);
      PotentialNeverGrows(texts, s, events[0].event, events[0].nowMs, family);
      StepKeeps(texts, s, events[0].event, events[0].nowMs);
      PotentialNeverGrowsInRun(texts, t, events[1..], family);
    }
  }

  /** After a family is compromised at most one more token is ever minted in it, in any continuation:
      the one of a request that had already consumed the last token. */
  lemma CompromiseStopsMinting(texts: Texts, before: seq<TimedEvent>, after: seq<TimedEvent>, family: Id)
    requires texts.Valid()
    requires var s := Run(texts, INITIAL, before); family in s.store.compromisedFamilies && family in s.families
    ensures var s := Run(texts, INITIAL, before);
            |FamilyOf(Run(texts, s, after), family).chain| <= |s.families[family].chain| + 1
  {
    var s := Run(texts, INITIAL, before);
    EveryRunKeeps(texts, before);
    PotentialBound(texts, s, family);
    PotentialNeverGrowsInRun(texts, s, after, family);
  }
}
