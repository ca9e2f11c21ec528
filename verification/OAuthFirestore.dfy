/**
 The same server over the Firestore store.  Each event makes at most one call of the store interface and answers
 with local work, so the two servers differ in the store alone and every run of one mirrors a run of the other.
 */
module OAuthFirestore {
  import opened Options
  import opened OAuthStore
  import opened Jwt
  import opened OAuthFlow
  import opened OAuthMinting
  import opened OAuthTheorems

  /** `local` holds everything but the store; its own memory store stays empty. */
  datatype FirestoreSystem = FirestoreSystem(store: Firestore, local: System)

  const FIRESTORE_INITIAL := FirestoreSystem(EMPTY_FIRESTORE, INITIAL)

  /** The store call an event makes, which the requests alone decide. */
  function CallOf(s: System, e: Event, nowMs: int): Option<Call> {
    match e
    case Register(id, name, uris) => if Fresh(s, id) then Some(RegisterClient(id, name, uris)) else None
    case Throttle(key, w, m) => Some(RateLimit(key, w, m))
    case PostConsent(rid, form) =>
      if At(s, rid) || form.clientId.None? || form.redirectUri.None? then None else Some(GetClient(form.clientId.value))
    case KeepCode(rid, jti) =>
      if !At(s, rid) || !s.requests[rid].Agreed? || !Fresh(s, jti) then None
      else Some(StoreCode(CodeToKeep(s.requests[rid].consent, jti, nowMs)))
    case TakeCode(rid) =>
      if !At(s, rid) || !s.requests[rid].CodeVerified? then None else Some(ConsumeCode(s.requests[rid].claims.jti))
    case TakeToken(rid) =>
      if !At(s, rid) || !s.requests[rid].TokenVerified? then None else Some(ConsumeRefresh(s.requests[rid].claims.jti))
    case KeepToken(rid) =>
      if !At(s, rid) || !s.requests[rid].Minted? then None else Some(StoreRefresh(s.requests[rid].next))
    case _ => None
  }

  /** What an event that called the store does with the reply. */
  function Respond(texts: Texts, s: System, e: Event, nowMs: int, reply: Reply): System
    requires CallOf(s, e, nowMs).Some?
  {
    match e
    case Register(id, name, uris) => s.(roles := s.roles[id := ClientRole])
    case PostConsent(rid, form) =>
      var consent := CheckClient(texts, form, if reply.Client? then reply.client else None);
      Put(s, rid, if consent.None? then Rejected else Agreed(consent.value))
    case KeepCode(rid, jti) =>
      var c := s.requests[rid].consent;
      Put(s, rid, CodeKept(c, CodeToKeep(c, jti, nowMs))).(roles := s.roles[jti := CodeRole],
          consents := s.consents[jti := c])
    case TakeCode(rid) =>
      var q := s.requests[rid];
      Put(s, rid, if reply.Code? && reply.code.Some? then CodeTaken(q.form, q.claims, reply.code.value) else Rejected)
    case TakeToken(rid) =>
      var taken := reply.Refresh? && reply.result.Consumed?;
      Put(s, rid, if taken then TokenTaken(s.requests[rid].base, reply.result.record) else Rejected)
    case KeepToken(rid) => Put(s, rid, Kept(s.requests[rid].base, s.requests[rid].next))
    case _ => s
  }

  /** One atomic step over Firestore. */
  function FirestoreStep(texts: Texts, f: FirestoreSystem, e: Event, nowMs: int): FirestoreSystem {
    var call := CallOf(f.local, e, nowMs);
    if call.None? then f.(local := Step(texts, f.local, e, nowMs))
    else
      var step := FsCall(f.store, TimedCall(call.value, nowMs));
      FirestoreSystem(step.next, Respond(texts, f.local, e, nowMs, step.reply))
  }

  function FirestoreRun(texts: Texts, f: FirestoreSystem, events: seq<TimedEvent>): FirestoreSystem
    decreases |events|
  {
    if events == [] then f
    else FirestoreRun(texts, FirestoreStep(texts, f, events[0].event, events[0].nowMs), events[1..])
  }

  // ----- an event is one store call and local work -----

  lemma CallIsLocal(s: System, m: Memory, e: Event, nowMs: int)
    ensures CallOf(s.(store := m), e, nowMs) == CallOf(s, e, nowMs)
  {}

  ghost predicate IgnoresStore(texts: Texts, s: System, m: Memory, e: Event, nowMs: int) {
    && Step(texts, s.(store := m), e, nowMs) == Step(texts, s, e, nowMs).(store := m)
    && Step(texts, s, e, nowMs).store == s.store
  }

  ghost predicate MintsFirst(texts: Texts, s: System, rid: Id, access: Id, refresh: Id, family: Id) {
    && At(s, rid) && s.requests[rid].CodeTaken?
    && ExchangeAllowed(texts, s.requests[rid].form, s.requests[rid].claims, s.requests[rid].code)
    && NewIds(s, family, refresh, access)
  }

  lemma FirstMintedIgnoresStore(texts: Texts, s: System, m: Memory, rid: Id, access: Id, refresh: Id, family: Id,
          nowMs: int)
    requires MintsFirst(texts, s, rid, access, refresh, family)
    ensures IgnoresStore(texts, s, m, MintFirst(rid, access, refresh, family), nowMs)
  {}

  lemma MintFirstIgnoresStore(texts: Texts, s: System, m: Memory, rid: Id, access: Id, refresh: Id, family: Id,
          nowMs: int)
    ensures IgnoresStore(texts, s, m, MintFirst(rid, access, refresh, family), nowMs)
  {
    if MintsFirst(texts, s, rid, access, refresh, family) {
      FirstMintedIgnoresStore(texts, s, m, rid, access, refresh, family, nowMs);
    }
  }

  lemma MintNextIgnoresStore(texts: Texts, s: System, m: Memory, rid: Id, access: Id, refresh: Id, nowMs: int)
    ensures IgnoresStore(texts, s, m, MintNext(rid, access, refresh), nowMs)
  {}

  lemma SignCodeIgnoresStore(texts: Texts, s: System, m: Memory, rid: Id, nowMs: int)
    ensures IgnoresStore(texts, s, m, SignCode(rid), nowMs)
  {}

  lemma SignTokenIgnoresStore(texts: Texts, s: System, m: Memory, rid: Id, nowMs: int)
    ensures IgnoresStore(texts, s, m, SignToken(rid), nowMs)
  {}

  lemma AbortIgnoresStore(texts: Texts, s: System, m: Memory, rid: Id, nowMs: int)
    ensures IgnoresStore(texts, s, m, Abort(rid), nowMs)
  {}

  lemma PostCodeIgnoresStore(texts: Texts, s: System, m: Memory, rid: Id, form: ExchangeForm, claims: Claims,
          nowMs: int)
    ensures IgnoresStore(texts, s, m, PostCode(rid, form, claims), nowMs)
  {}

  lemma PostRefreshIgnoresStore(texts: Texts, s: System, m: Memory, rid: Id, base: Text, claims: Claims, nowMs: int)
    ensures IgnoresStore(texts, s, m, PostRefresh(rid, base, claims), nowMs)
  {}

  lemma IdleIgnoresStore(texts: Texts, s: System, m: Memory, e: Event, nowMs: int)
    requires CallOf(s, e, nowMs).None?
    requires e.Register? || e.Throttle? || e.PostConsent? || e.KeepCode? || e.TakeCode? || e.TakeToken? || e.KeepToken?
    ensures IgnoresStore(texts, s, m, e, nowMs)
  {}

  /** Without a store call, the step neither reads nor writes the store. */
  lemma SilentStep(texts: Texts, s: System, m: Memory, e: Event, nowMs: int)
    requires CallOf(s, e, nowMs).None?
    ensures IgnoresStore(texts, s, m, e, nowMs)
  {
    match e
    case MintFirst(rid, access, refresh, family) =>
        MintFirstIgnoresStore(texts, s, m, rid, access, refresh, family, nowMs);
    case MintNext(rid, access, refresh) => MintNextIgnoresStore(texts, s, m, rid, access, refresh, nowMs);
    case SignCode(rid) => SignCodeIgnoresStore(texts, s, m, rid, nowMs);
    case SignToken(rid) => SignTokenIgnoresStore(texts, s, m, rid, nowMs);
    case Abort(rid) => AbortIgnoresStore(texts, s, m, rid, nowMs);
    case PostCode(rid, form, claims) => PostCodeIgnoresStore(texts, s, m, rid, form, claims, nowMs);
    case PostRefresh(rid, base, claims) => PostRefreshIgnoresStore(texts, s, m, rid, base, claims, nowMs);
    case _ => IdleIgnoresStore(texts, s, m, e, nowMs);
  }

  ghost predicate IsCalling(texts: Texts, s: System, e: Event, nowMs: int)
    requires CallOf(s, e, nowMs).Some?
  {
    var step := MemCall(s.store, TimedCall(CallOf(s, e, nowMs).value, nowMs));
    Step(texts, s, e, nowMs) == Respond(texts, s, e, nowMs, step.reply).(store := step.next)
  }

  lemma TakingCalls(texts: Texts, s: System, e: Event, nowMs: int)
    requires CallOf(s, e, nowMs).Some? && (e.TakeCode? || e.TakeToken?)
    ensures IsCalling(texts, s, e, nowMs)
  {}

  lemma StoringCalls(texts: Texts, s: System, e: Event, nowMs: int)
    requires CallOf(s, e, nowMs).Some? && (e.KeepCode? || e.KeepToken?)
    ensures IsCalling(texts, s, e, nowMs)
  {}

  /** With one, it is the reply's local work, and the store moves as the call says. */
  lemma CallingStep(texts: Texts, s: System, e: Event, nowMs: int)
    requires CallOf(s, e, nowMs).Some?
    ensures IsCalling(texts, s, e, nowMs)
  {
    match e
    case Register(id, name, uris) =>
    case PostConsent(rid, form) =>
    case KeepCode(rid, jti) => StoringCalls(texts, s, e, nowMs);
    case TakeCode(rid) => TakingCalls(texts, s, e, nowMs);
    case TakeToken(rid) => TakingCalls(texts, s, e, nowMs);
    case KeepToken(rid) => StoringCalls(texts, s, e, nowMs);
    case _ =>
  }

  ghost predicate AnswersLocally(texts: Texts, s: System, m: Memory, e: Event, nowMs: int, reply: Reply) {
    CallOf(s, e, nowMs).Some? && CallOf(s.(store := m), e, nowMs).Some? ==>
      Respond(texts, s.(store := m), e, nowMs, reply) == Respond(texts, s, e, nowMs, reply).(store := m)
  }

  lemma ConsentIsLocal(texts: Texts, s: System, m: Memory, e: Event, nowMs: int, reply: Reply)
    requires e.PostConsent? || e.KeepCode?
    ensures AnswersLocally(texts, s, m, e, nowMs, reply)
  {}

  lemma TakeCodeIsLocal(texts: Texts, s: System, m: Memory, rid: Id, nowMs: int, reply: Reply)
    ensures AnswersLocally(texts, s, m, TakeCode(rid), nowMs, reply)
  {}

  lemma TakeTokenIsLocal(texts: Texts, s: System, m: Memory, rid: Id, nowMs: int, reply: Reply)
    ensures AnswersLocally(texts, s, m, TakeToken(rid), nowMs, reply)
  {}

  lemma KeepTokenIsLocal(texts: Texts, s: System, m: Memory, rid: Id, nowMs: int, reply: Reply)
    ensures AnswersLocally(texts, s, m, KeepToken(rid), nowMs, reply)
  {}

  lemma RespondIsLocal(texts: Texts, s: System, m: Memory, e: Event, nowMs: int, reply: Reply)
    requires CallOf(s, e, nowMs).Some? && CallOf(s.(store := m), e, nowMs).Some?
    ensures Respond(texts, s.(store := m), e, nowMs, reply) == Respond(texts, s, e, nowMs, reply).(store := m)
  {
    match e
    case PostConsent(_, _) => ConsentIsLocal(texts, s, m, e, nowMs, reply);
    case KeepCode(_, _) => ConsentIsLocal(texts, s, m, e, nowMs, reply);
    case TakeCode(rid) => TakeCodeIsLocal(texts, s, m, rid, nowMs, reply);
    case TakeToken(rid) => TakeTokenIsLocal(texts, s, m, rid, nowMs, reply);
    case KeepToken(rid) => KeepTokenIsLocal(texts, s, m, rid, nowMs, reply);
    case _ =>
  }

  // ----- the two servers mirror each other -----

  /** The stores are related and everything else is the same: requests, signed tokens and history. */
  ghost predicate Mirrors(f: FirestoreSystem, s: System) {
    Simulates(f.store, s.store) && f.local == s.(store := EMPTY_MEMORY)
  }

  lemma StepMirrors(texts: Texts, f: FirestoreSystem, s: System, e: Event, nowMs: int)
    requires Mirrors(f, s)
    ensures Mirrors(FirestoreStep(texts, f, e, nowMs), Step(texts, s, e, nowMs))
  {
    CallIsLocal(s, EMPTY_MEMORY, e, nowMs);
    var call := CallOf(s, e, nowMs);
    if call.None? {
      SilentStep(texts, s, EMPTY_MEMORY, e, nowMs);
    } else {
      var c := TimedCall(call.value, nowMs);
      CallSimulates(f.store, s.store, c);
      CallingStep(texts, s, e, nowMs);
      RespondIsLocal(texts, s, EMPTY_MEMORY, e, nowMs, MemCall(s.store, c).reply);
    }
  }

  /** In every interleaving the two servers have the same requests, signed tokens and history. */
  lemma {:induction false} RunMirrors(texts: Texts, f: FirestoreSystem, s: System, events: seq<TimedEvent>)
    requires Mirrors(f, s)
    ensures Mirrors(FirestoreRun(texts, f, events), Run(texts, s, events))
    decreases |events|
  {
    if events != [] {
      var e := events[0];
      StepMirrors(texts, f, s, e.event, e.nowMs);
      RunMirrors(texts, FirestoreStep(texts, f, e.event, e.nowMs), Step(texts, s, e.event, e.nowMs), events[1..]);
    }
  }

  lemma EveryRunMirrors(texts: Texts, events: seq<TimedEvent>)
    ensures Mirrors(FirestoreRun(texts, FIRESTORE_INITIAL, events), Run(texts, INITIAL, events))
  {
    RunMirrors(texts, FIRESTORE_INITIAL, INITIAL, events);
  }

  // ----- what carries over -----

  function FirestoreHolders(f: FirestoreSystem, family: Id): set<Holder> {
    (set j | j in f.store.refreshTokens && f.store.refreshTokens[j].record.familyId == family
             && f.store.refreshTokens[j].record.consumedAt.None? :: Stored(j))
    + (set r | r in f.local.requests && HoldsFamily(f.local.requests[r]) == Some(family) :: InFlight(r))
  }

  lemma HoldersMirror(f: FirestoreSystem, s: System, family: Id)
    requires Mirrors(f, s)
    ensures FirestoreHolders(f, family) == Holders(s, family)
  {}

  /** So with Firestore too a family never has two unconsumed tokens or requests in flight. */
  lemma FirestoreOneHolderPerFamily(texts: Texts, events: seq<TimedEvent>, family: Id)
    requires texts.Valid()
    ensures |FirestoreHolders(FirestoreRun(texts, FIRESTORE_INITIAL, events), family)| <= 1
  {
    EveryRunMirrors(texts, events);
    HoldersMirror(FirestoreRun(texts, FIRESTORE_INITIAL, events), Run(texts, INITIAL, events), family);
    OneHolderPerFamily(texts, events, family);
  }

  /** And after a family document says it is compromised, at most one more token is minted in the family. */
  lemma FirestoreCompromiseStopsMinting(texts: Texts, before: seq<TimedEvent>, after: seq<TimedEvent>, family: Id)
    requires texts.Valid()
    requires var f := FirestoreRun(texts, FIRESTORE_INITIAL, before);
             FamilyCompromised(f.store.refreshFamilies, family) && family in f.local.families
    ensures var f := FirestoreRun(texts, FIRESTORE_INITIAL, before);
            |FamilyOf(FirestoreRun(texts, f, after).local, family).chain| <= |f.local.families[family].chain| + 1
  {
    EveryRunMirrors(texts, before);
    var f, s := FirestoreRun(texts, FIRESTORE_INITIAL, before), Run(texts, INITIAL, before);
    RunMirrors(texts, f, s, after);
    CompromiseStopsMinting(texts, before, after, family);
  }
}
