/** Every step of the authorize and token endpoints keeps the invariant and only grows the history. */
module OAuthSteps {
  import opened Options
  import opened OAuthStore
  import opened Jwt
  import opened OAuthFlow
  import opened OAuthInvariant

  ghost predicate Keeps(texts: Texts, s: System, t: System) { Inv(texts, t) && Grows(s, t) }

  // ----- authorize -----

  lemma PostConsentKeeps(texts: Texts, s: System, rid: Id, form: AuthorizeForm, nowMs: int)
    requires texts.Valid() && Inv(texts, s)
    ensures Keeps(texts, s, DoPostConsent(texts, s, rid, form, nowMs))
  {
    if At(s, rid) {
      NothingKeeps(texts, s);
    } else {
      var consent := CheckConsent(texts, s, form, nowMs);
      if consent.Some? {
        AcceptedConsentOk(texts, s, form, nowMs);
        MovesOnly(texts, s, rid, Agreed(consent.value));
      } else {
        MovesOnly(texts, s, rid, Rejected);
      }
    }
  }

  lemma NothingKeeps(texts: Texts, s: System)
    requires Inv(texts, s)
    ensures Keeps(texts, s, s)
  {}

  lemma AcceptedConsentOk(texts: Texts, s: System, form: AuthorizeForm, nowMs: int)
    requires texts.Valid() && ClientsOk(s.store.clients, s.roles)
    ensures var c := CheckConsent(texts, s, form, nowMs); c.Some? ==> ConsentOk(texts, s.store.clients, c.value)
  {
    if IsAcceptedScope(ScopeText(texts, form.scope)) {
      AcceptedScopeGrantsRead(ScopeText(texts, form.scope));
    }
  }

  lemma NewCodeKeepsHistory(texts: Texts, s: System, code: CodeRecord, c: Consent)
    requires HistoryOk(texts, s) && ConsentOk(texts, s.store.clients, c) && CodeMatches(code, c)
    requires code.jti !in s.store.authorizationCodes && code.jti in s.roles && s.roles[code.jti] == CodeRole
    ensures HistoryOk(texts, s.(store := MemStoreCode(s.store, code), consents := s.consents[code.jti := c]))
  {
    var codes, consents := s.store.authorizationCodes[code.jti := code], s.consents[code.jti := c];
    assert FamiliesOk(texts, s.families, codes, consents, s.roles);
    assert CodesOk(codes, consents, s.roles);
  }

  lemma NewConsentKeepsTokens(texts: Texts, s: System, jti: Id, c: Consent)
    requires TokenStateOk(texts, s) && jti !in s.consents
    ensures TokenStateOk(texts, s.(consents := s.consents[jti := c]))
  {
    var consents := s.consents[jti := c];
    assert SignedOk(texts, s.signed, s.families, consents, s.roles);
    assert TokensOk(s.store.refreshTokens, s.families, consents, s.roles);
  }

  lemma KeepCodeGrows(texts: Texts, s: System, rid: Id, jti: Id, nowMs: int)
    requires HistoryOk(texts, s)
    ensures Grows(s, DoKeepCode(s, rid, jti, nowMs))
  {}

  lemma KeepCodeKeeps(texts: Texts, s: System, rid: Id, jti: Id, nowMs: int)
    requires Inv(texts, s)
    ensures Keeps(texts, s, DoKeepCode(s, rid, jti, nowMs))
  {
    var t := DoKeepCode(s, rid, jti, nowMs);
    KeepCodeGrows(texts, s, rid, jti, nowMs);
    if At(s, rid) && s.requests[rid].Agreed? && Fresh(s, jti) {
      assert Grounded(texts, s, s.requests[rid]);
      var q := t.requests[rid];
      var u := s.(roles := s.roles[jti := CodeRole]);
      PlainRoleKeepsHistory(texts, s, jti, CodeRole);
      PlainRoleKeepsTokens(texts, s, jti, CodeRole);
      NewCodeKeepsHistory(texts, u, q.code, q.consent);
      NewConsentKeepsTokens(texts, u, jti, q.consent);
      KeepCodeRequests(texts, s, rid, jti, nowMs);
    }
  }

  lemma KeepCodeRequests(texts: Texts, s: System, rid: Id, jti: Id, nowMs: int)
    requires RequestsOk(texts, s) && Exclusive(s.requests) && Grows(s, DoKeepCode(s, rid, jti, nowMs))
    requires At(s, rid) && s.requests[rid].Agreed? && Fresh(s, jti)
    ensures var t := DoKeepCode(s, rid, jti, nowMs); RequestsOk(texts, t) && Exclusive(t.requests)
  {
    RequestsFollow(texts, s, DoKeepCode(s, rid, jti, nowMs), rid);
  }

  lemma NewClaimsKeepTokens(texts: Texts, s: System, c: Claims)
    requires TokenStateOk(texts, s) && ClaimsOk(texts, c, s.families, s.consents, s.roles)
    ensures TokenStateOk(texts, s.(signed := s.signed + {c}))
  {}

  /** Signing a claim that is true of the history, on the way to a request that carries nothing. */
  lemma SignsOnly(texts: Texts, s: System, rid: Id, c: Claims, q: Request)
    requires Inv(texts, s) && ClaimsOk(texts, c, s.families, s.consents, s.roles)
    requires q == Redirected || q == Answered
    ensures Keeps(texts, s, Put(s, rid, q).(signed := s.signed + {c}))
  {
    var t := s.(signed := s.signed + {c});
    NewClaimsKeepTokens(texts, s, c);
    SigningGrows(s, c);
    AllGroundedGrow(texts, s, t);
    MovesOnly(texts, t, rid, q);
    GrowsTrans(s, t, Put(t, rid, q));
    assert Put(t, rid, q) == Put(s, rid, q).(signed := s.signed + {c});
  }

  lemma SigningGrows(s: System, c: Claims)
    ensures Grows(s, s.(signed := s.signed + {c}))
  {}

  lemma GrowsTrans(s: System, t: System, u: System)
    requires Grows(s, t) && Grows(t, u)
    ensures Grows(s, u)
  {}

  lemma SignCodeKeeps(texts: Texts, s: System, rid: Id, nowMs: int)
    requires Inv(texts, s)
    ensures Keeps(texts, s, DoSignCode(texts, s, rid, nowMs))
  {
    if At(s, rid) && s.requests[rid].CodeKept? {
      var q := s.requests[rid];
      assert Grounded(texts, s, q);
      SignsOnly(texts, s, rid, CodeClaimsOf(texts, q.consent, q.code.jti, nowMs), Redirected);
    } else {
      NothingKeeps(texts, s);
    }
  }

  // ----- code exchange -----

  lemma PostedCode(texts: Texts, s: System, rid: Id, form: ExchangeForm, claims: Claims, nowMs: int)
    requires Inv(texts, s) && !At(s, rid)
    ensures Keeps(texts, s, DoPostCode(s, rid, form, claims, nowMs))
  {
    if Verifies(s.signed, claims, nowMs) && claims.CodeClaims? {
      MovesOnly(texts, s, rid, CodeVerified(form, claims));
    } else {
      MovesOnly(texts, s, rid, Rejected);
    }
  }

  lemma PostCodeKeeps(texts: Texts, s: System, rid: Id, form: ExchangeForm, claims: Claims, nowMs: int)
    requires Inv(texts, s)
    ensures Keeps(texts, s, DoPostCode(s, rid, form, claims, nowMs))
  {
    if At(s, rid) {
      NothingKeeps(texts, s);
    } else {
      PostedCode(texts, s, rid, form, claims, nowMs);
    }
  }

  lemma MarkedCodeKeepsHistory(texts: Texts, s: System, jti: Id, at: int)
    requires HistoryOk(texts, s) && jti in s.store.authorizationCodes
    ensures var codes := s.store.authorizationCodes[jti := s.store.authorizationCodes[jti].(consumedAt := Some(at))];
            HistoryOk(texts, s.(store := s.store.(authorizationCodes := codes)))
  {
    var codes := s.store.authorizationCodes[jti := s.store.authorizationCodes[jti].(consumedAt := Some(at))];
    assert FamiliesOk(texts, s.families, codes, s.consents, s.roles);
    assert CodesOk(codes, s.consents, s.roles);
  }

  /** A code that is still unconsumed has opened no family and is carried by no request. */
  lemma UnconsumedCodeIsFree(texts: Texts, s: System, jti: Id)
    requires Inv(texts, s) && jti in s.store.authorizationCodes && s.store.authorizationCodes[jti].consumedAt.None?
    ensures forall f :: f in s.families ==> s.families[f].code != jti
    ensures forall r :: r in s.requests ==> Carried(s.requests[r]) != Some(jti)
  {
    forall r | r in s.requests
      ensures Carried(s.requests[r]) != Some(jti)
    {
      assert Grounded(texts, s, s.requests[r]);
    }
    forall f | f in s.families
      ensures s.families[f].code != jti
    {
      assert FamilyOk(texts, s.families[f], s.store.authorizationCodes, s.consents);
    }
  }

  lemma TakeCodeGrows(s: System, rid: Id, nowMs: int)
    ensures Grows(s, DoTakeCode(s, rid, nowMs))
  {}

  lemma TakeCodeKeeps(texts: Texts, s: System, rid: Id, nowMs: int)
    requires Inv(texts, s)
    ensures Keeps(texts, s, DoTakeCode(s, rid, nowMs))
  {
    var t := DoTakeCode(s, rid, nowMs);
    TakeCodeGrows(s, rid, nowMs);
    if At(s, rid) && s.requests[rid].CodeVerified? {
      var jti := s.requests[rid].claims.jti;
      var step := MemConsumeCode(s.store, jti, nowMs);
      if step.reply.code.None? {
        MovesOnly(texts, s, rid, Rejected);
      } else {
        MarkedCodeKeepsHistory(texts, s, jti, Seconds(nowMs));
        TakerOfCodeIsAlone(texts, s, rid, nowMs);
        TakeCodeRequests(texts, s, rid, nowMs);
      }
    }
  }

  lemma TakerOfCodeIsGrounded(texts: Texts, s: System, rid: Id, nowMs: int)
    requires CodesOk(s.store.authorizationCodes, s.consents, s.roles)
    requires At(s, rid) && s.requests[rid].CodeVerified? && Grounded(texts, s, s.requests[rid])
    ensures var t := DoTakeCode(s, rid, nowMs); Grounded(texts, t, t.requests[rid])
  {}

  /** The request that took a code is grounded in its consent, and it alone carries the code. */
  lemma TakerOfCodeIsAlone(texts: Texts, s: System, rid: Id, nowMs: int)
    requires Inv(texts, s) && At(s, rid) && s.requests[rid].CodeVerified?
    requires MemConsumeCode(s.store, s.requests[rid].claims.jti, nowMs).reply.code.Some?
    ensures var t := DoTakeCode(s, rid, nowMs);
            && Grounded(texts, t, t.requests[rid]) && Held(t, t.requests[rid])
            && forall r :: r in s.requests ==> Carried(s.requests[r]) != Carried(t.requests[rid])
  {
    UnconsumedCodeIsFree(texts, s, s.requests[rid].claims.jti);
    assert Grounded(texts, s, s.requests[rid]);
    TakerOfCodeIsGrounded(texts, s, rid, nowMs);
  }

  lemma TakeCodeRequests(texts: Texts, s: System, rid: Id, nowMs: int)
    requires RequestsOk(texts, s) && Exclusive(s.requests) && Grows(s, DoTakeCode(s, rid, nowMs)) && At(s, rid)
    requires var t := DoTakeCode(s, rid, nowMs);
             && Grounded(texts, t, t.requests[rid]) && Held(t, t.requests[rid])
             && forall r :: r in s.requests ==> Carried(s.requests[r]) != Carried(t.requests[rid])
    ensures var t := DoTakeCode(s, rid, nowMs); RequestsOk(texts, t) && Exclusive(t.requests)
  {
    RequestsFollow(texts, s, DoTakeCode(s, rid, nowMs), rid);
  }
}
