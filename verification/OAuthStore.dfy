/**
 The shared OAuth state store.  `Memory` and `Firestore` are the abstract states of the two
 implementations of the same interface; every interface method is a total function on each of them,
 and the two classes below perform those functions on their fields.  All times are milliseconds
 since the epoch; a stored time is in whole seconds.
 */
module OAuthStore {
  import opened Options

  /** An identifier or key.  The store only compares these for equality, so integers stand for their texts. */
  type Id = int

  /** Any other text the store keeps and returns unread. */
  type Text = int

  const CLIENT_LIFETIME_SECONDS := 90 * 24 * 3600

  datatype ClientRecord = ClientRecord(
    clientId: Id, clientName: Text, redirectUris: seq<Text>, issuedAt: int, expiresAt: int)

  datatype CodeRecord = CodeRecord(
    jti: Id, clientId: Id, redirectUri: Text, scope: Text, resource: Text,
    codeChallenge: Text, expiresAt: int, consumedAt: Option<int>)

  datatype RefreshRecord = RefreshRecord(
    jti: Id, familyId: Id, clientId: Id, subject: Id, scope: Text,
    resource: Text, expiresAt: int, consumedAt: Option<int>)

  datatype RefreshResult = Consumed(record: RefreshRecord) | Missing | Reused | Compromised

  datatype Bucket = Bucket(count: int, resetAt: int)

  function Seconds(nowMs: int): int { nowMs / 1000 }

  function NewClient(clientId: Id, clientName: Text, redirectUris: seq<Text>, nowMs: int): ClientRecord {
    ClientRecord(clientId, clientName, redirectUris, Seconds(nowMs), Seconds(nowMs) + CLIENT_LIFETIME_SECONDS)
  }

  /** What an interface call answers. */
  datatype Reply =
    | Registered(registered: ClientRecord)
    | Client(client: Option<ClientRecord>)
    | Done
    | Code(code: Option<CodeRecord>)
    | Refresh(result: RefreshResult)
    | Allowed(allowed: bool)

  // ----- the in-process store -----

  datatype Memory = Memory(
    clients: map<Id, ClientRecord>,
    authorizationCodes: map<Id, CodeRecord>,
    refreshTokens: map<Id, RefreshRecord>,
    compromisedFamilies: set<Id>,
    rateLimits: map<Id, Bucket>)

  datatype MemStep = MemStep(next: Memory, reply: Reply)

  const EMPTY_MEMORY := Memory(map[], map[], map[], {}, map[])

  function MemRegister(s: Memory, clientId: Id, clientName: Text, redirectUris: seq<Text>, nowMs: int): MemStep {
    var client := NewClient(clientId, clientName, redirectUris, nowMs);
    MemStep(s.(clients := s.clients[clientId := client]), Registered(client))
  }

  function MemGetClient(s: Memory, clientId: Id, nowMs: int): Option<ClientRecord> {
    if clientId !in s.clients || s.clients[clientId].expiresAt <= Seconds(nowMs) then None
    else Some(s.clients[clientId])
  }

  function MemStoreCode(s: Memory, record: CodeRecord): Memory {
    s.(authorizationCodes := s.authorizationCodes[record.jti := record])
  }

  function MemConsumeCode(s: Memory, jti: Id, nowMs: int): MemStep {
    if jti !in s.authorizationCodes then MemStep(s, Code(None)) else
    var record := s.authorizationCodes[jti];
    if record.consumedAt.Some? || record.expiresAt <= Seconds(nowMs) then MemStep(s, Code(None))
    else
      MemStep(s.(authorizationCodes := s.authorizationCodes[jti := record.(consumedAt := Some(Seconds(nowMs)))]),
          Code(Some(record)))
  }

  function MemStoreRefresh(s: Memory, record: RefreshRecord): Memory {
    s.(refreshTokens := s.refreshTokens[record.jti := record])
  }

  function MemConsumeRefresh(s: Memory, jti: Id, nowMs: int): MemStep {
    if jti !in s.refreshTokens then MemStep(s, Refresh(Missing)) else
    var record := s.refreshTokens[jti];
    if record.expiresAt <= Seconds(nowMs) then MemStep(s, Refresh(Missing))
    else if record.familyId in s.compromisedFamilies then MemStep(s, Refresh(Compromised))
    else if record.consumedAt.Some? then
      MemStep(s.(compromisedFamilies := s.compromisedFamilies + {record.familyId}), Refresh(Reused))
    else
      MemStep(s.(refreshTokens := s.refreshTokens[jti := record.(consumedAt := Some(Seconds(nowMs)))]),
          Refresh(Consumed(record)))
  }

  function MemRateLimit(s: Memory, key: Id, windowMs: int, maxRequests: int, nowMs: int): MemStep {
    if key !in s.rateLimits || s.rateLimits[key].resetAt <= nowMs then
      MemStep(s.(rateLimits := s.rateLimits[key := Bucket(1, nowMs + windowMs)]), Allowed(true))
    else
      var bucket := s.rateLimits[key];
      if bucket.count >= maxRequests then MemStep(s, Allowed(false))
      else MemStep(s.(rateLimits := s.rateLimits[key := bucket.(count := bucket.count + 1)]), Allowed(true))
  }

  // ----- the Firestore documents -----

  /** A document: the record plus the `expiresAtDate` that is added on write and dropped on read. */
  datatype Document<T> = Document(record: T, expiresAtDateMs: Option<int>)

  /** Every field is optional because `merge: true` writes only the fields it names. */
  datatype FamilyDocument = FamilyDocument(
    compromised: Option<bool>, compromisedAt: Option<int>, lastUsedAt: Option<int>)

  datatype RateDocument = RateDocument(count: Option<int>, resetAt: Option<int>, resetAtDateMs: Option<int>)

  /** SHA-256 of a rate-limit key, taken to be injective. */
  datatype Digest = Sha256(preimage: Id)

  datatype Firestore = Firestore(
    clients: map<Id, Document<ClientRecord>>,
    authorizationCodes: map<Id, Document<CodeRecord>>,
    refreshTokens: map<Id, Document<RefreshRecord>>,
    refreshFamilies: map<Id, FamilyDocument>,
    rateLimits: map<Digest, RateDocument>)

  datatype FsStep = FsStep(next: Firestore, reply: Reply)

  const EMPTY_FIRESTORE := Firestore(map[], map[], map[], map[], map[])

  function ToDocument<T>(record: T, expiresAt: int): Document<T> { Document(record, Some(expiresAt * 1000)) }

  function FsRegister(s: Firestore, clientId: Id, clientName: Text, redirectUris: seq<Text>, nowMs: int): FsStep {
    var client := NewClient(clientId, clientName, redirectUris, nowMs);
    FsStep(s.(clients := s.clients[clientId := ToDocument(client, client.expiresAt)]), Registered(client))
  }

  function FsGetClient(s: Firestore, clientId: Id, nowMs: int): Option<ClientRecord> {
    if clientId !in s.clients then None else
    var client := s.clients[clientId].record;
    if client.expiresAt <= Seconds(nowMs) then None else Some(client)
  }

  function FsStoreCode(s: Firestore, record: CodeRecord): Firestore {
    s.(authorizationCodes := s.authorizationCodes[record.jti := ToDocument(record, record.expiresAt)])
  }

  function FsConsumeCode(s: Firestore, jti: Id, nowMs: int): FsStep {
    if jti !in s.authorizationCodes then FsStep(s, Code(None)) else
    var doc := s.authorizationCodes[jti];
    if doc.record.consumedAt.Some? || doc.record.expiresAt <= Seconds(nowMs) then FsStep(s, Code(None))
    else
      var updated := doc.(record := doc.record.(consumedAt := Some(Seconds(nowMs))));
      FsStep(s.(authorizationCodes := s.authorizationCodes[jti := updated]), Code(Some(doc.record)))
  }

  function FsStoreRefresh(s: Firestore, record: RefreshRecord): Firestore {
    s.(refreshTokens := s.refreshTokens[record.jti := ToDocument(record, record.expiresAt)])
  }

  /** `transaction.set(ref, fields, { merge: true })`: fields not named keep their old value. */
  function MergeFamily(s: Firestore, family: Id, fields: FamilyDocument): Firestore {
    var prior := if family in s.refreshFamilies then s.refreshFamilies[family] else FamilyDocument(None, None, None);
    var merged := FamilyDocument(
      if fields.compromised.Some? then fields.compromised else prior.compromised,
      if fields.compromisedAt.Some? then fields.compromisedAt else prior.compromisedAt,
      if fields.lastUsedAt.Some? then fields.lastUsedAt else prior.lastUsedAt);
    s.(refreshFamilies := s.refreshFamilies[family := merged])
  }

  predicate FamilyCompromised(docs: map<Id, FamilyDocument>, family: Id) {
    family in docs && docs[family].compromised == Some(true)
  }

  function FsConsumeRefresh(s: Firestore, jti: Id, nowMs: int): FsStep {
    if jti !in s.refreshTokens then FsStep(s, Refresh(Missing)) else
    var doc := s.refreshTokens[jti];
    var record := doc.record;
    var now := Seconds(nowMs);
    if record.expiresAt <= now then FsStep(s, Refresh(Missing))
    else if FamilyCompromised(s.refreshFamilies, record.familyId) then FsStep(s, Refresh(Compromised))
    else if record.consumedAt.Some? then
      FsStep(MergeFamily(s, record.familyId, FamilyDocument(Some(true), Some(now), None)), Refresh(Reused))
    else
      var updated := s.(refreshTokens := s.refreshTokens[jti := doc.(record := record.(consumedAt := Some(now)))]);
      FsStep(MergeFamily(updated, record.familyId, FamilyDocument(Some(false), None, Some(now))),
          Refresh(Consumed(record)))
  }

  function FsRateLimit(s: Firestore, key: Id, windowMs: int, maxRequests: int, nowMs: int): FsStep {
    var ref := Sha256(key);
    var data := if ref in s.rateLimits then s.rateLimits[ref] else RateDocument(None, None, None);
    var count := if data.count.Some? then data.count.value else 0;
    var resetAt := if data.resetAt.Some? then data.resetAt.value else 0;
    if ref !in s.rateLimits || resetAt <= nowMs then
      FsStep(s.(rateLimits := s.rateLimits[ref := RateDocument(Some(1), Some(nowMs + windowMs),
          Some(nowMs + windowMs))]), Allowed(true))
    else if count >= maxRequests then FsStep(s, Allowed(false))
    else FsStep(s.(rateLimits := s.rateLimits[ref := data.(count := Some(count + 1))]), Allowed(true))
  }

  // ----- one call of the interface, and runs of calls -----

  /** One interface call; `freshId` is what `generateId` returned. */
  datatype Call =
    | RegisterClient(freshId: Id, clientName: Text, redirectUris: seq<Text>)
    | GetClient(clientId: Id)
    | StoreCode(code: CodeRecord)
    | ConsumeCode(jti: Id)
    | StoreRefresh(token: RefreshRecord)
    | ConsumeRefresh(jti: Id)
    | RateLimit(key: Id, windowMs: int, maxRequests: int)

  datatype TimedCall = TimedCall(call: Call, nowMs: int)

  datatype MemTrace = MemTrace(final: Memory, replies: seq<Reply>)

  datatype FsTrace = FsTrace(final: Firestore, replies: seq<Reply>)

  function MemCall(s: Memory, c: TimedCall): MemStep {
    match c.call
    case RegisterClient(id, name, uris) => MemRegister(s, id, name, uris, c.nowMs)
    case GetClient(id) => MemStep(s, Client(MemGetClient(s, id, c.nowMs)))
    case StoreCode(code) => MemStep(MemStoreCode(s, code), Done)
    case ConsumeCode(jti) => MemConsumeCode(s, jti, c.nowMs)
    case StoreRefresh(token) => MemStep(MemStoreRefresh(s, token), Done)
    case ConsumeRefresh(jti) => MemConsumeRefresh(s, jti, c.nowMs)
    case RateLimit(key, w, m) => MemRateLimit(s, key, w, m, c.nowMs)
  }

  function FsCall(s: Firestore, c: TimedCall): FsStep {
    match c.call
    case RegisterClient(id, name, uris) => FsRegister(s, id, name, uris, c.nowMs)
    case GetClient(id) => FsStep(s, Client(FsGetClient(s, id, c.nowMs)))
    case StoreCode(code) => FsStep(FsStoreCode(s, code), Done)
    case ConsumeCode(jti) => FsConsumeCode(s, jti, c.nowMs)
    case StoreRefresh(token) => FsStep(FsStoreRefresh(s, token), Done)
    case ConsumeRefresh(jti) => FsConsumeRefresh(s, jti, c.nowMs)
    case RateLimit(key, w, m) => FsRateLimit(s, key, w, m, c.nowMs)
  }

  function MemRun(s: Memory, calls: seq<TimedCall>): (r: MemTrace)
    ensures |r.replies| == |calls|
    decreases |calls|
  {
    if calls == [] then MemTrace(s, [])
    else
      var first := MemCall(s, calls[0]);
      var rest := MemRun(first.next, calls[1..]);
      MemTrace(rest.final, [first.reply] + rest.replies)
  }

  function FsRun(s: Firestore, calls: seq<TimedCall>): (r: FsTrace)
    ensures |r.replies| == |calls|
    decreases |calls|
  {
    if calls == [] then FsTrace(s, [])
    else
      var first := FsCall(s, calls[0]);
      var rest := FsRun(first.next, calls[1..]);
      FsTrace(rest.final, [first.reply] + rest.replies)
  }

  // ----- a registered client is found for ninety days -----

  ghost predicate NeverRegisters(calls: seq<TimedCall>, id: Id) {
    forall i :: 0 <= i < |calls| && calls[i].call.RegisterClient? ==> calls[i].call.freshId != id
  }

  lemma MemCallKeepsClient(s: Memory, c: TimedCall, id: Id)
    requires c.call.RegisterClient? ==> c.call.freshId != id
    ensures id in MemCall(s, c).next.clients <==> id in s.clients
    ensures id in s.clients ==> MemCall(s, c).next.clients[id] == s.clients[id]
  {}

  lemma {:induction false} ClientStays(s: Memory, calls: seq<TimedCall>, id: Id)
    requires NeverRegisters(calls, id)
    ensures var t := MemRun(s, calls).final;
            (id in t.clients <==> id in s.clients) && (id in s.clients ==> t.clients[id] == s.clients[id])
    decreases |calls|
  {
    if calls != [] {
      MemCallKeepsClient(s, calls[0], id);
      ClientStays(MemCall(s, calls[0]).next, calls[1..], id);
    }
  }

  lemma FsCallKeepsClient(s: Firestore, c: TimedCall, id: Id)
    requires c.call.RegisterClient? ==> c.call.freshId != id
    ensures id in FsCall(s, c).next.clients <==> id in s.clients
    ensures id in s.clients ==> FsCall(s, c).next.clients[id] == s.clients[id]
  {}

  lemma {:induction false} ClientDocumentStays(s: Firestore, calls: seq<TimedCall>, id: Id)
    requires NeverRegisters(calls, id)
    ensures var t := FsRun(s, calls).final;
            (id in t.clients <==> id in s.clients) && (id in s.clients ==> t.clients[id] == s.clients[id])
    decreases |calls|
  {
    if calls != [] {
      FsCallKeepsClient(s, calls[0], id);
      ClientDocumentStays(FsCall(s, calls[0]).next, calls[1..], id);
    }
  }

  /** What was registered at `atMs`, as long as it lives. */
  predicate IsAnswerFor(answer: Option<ClientRecord>, id: Id, name: Text, uris: seq<Text>, atMs: int, nowMs: int) {
    if nowMs / 1000 < atMs / 1000 + 7_776_000
    then answer == Some(ClientRecord(id, name, uris, atMs / 1000, atMs / 1000 + 7_776_000))
    else answer.None?
  }

  /** In every continuation that does not register the id again, the client registered at `atMs` is answered, with its
      name and redirects, exactly for ninety days; a client that was never registered is not. */
  lemma RegisteredClientIsFoundIff(s: Memory, id: Id, name: Text, uris: seq<Text>, atMs: int, calls: seq<TimedCall>,
          nowMs: int)
    requires NeverRegisters(calls, id)
    ensures var t := MemRun(MemRegister(s, id, name, uris, atMs).next, calls).final;
            IsAnswerFor(MemGetClient(t, id, nowMs), id, name, uris, atMs, nowMs)
    ensures MemRegister(s, id, name, uris, atMs).reply ==
              Registered(ClientRecord(id, name, uris, atMs / 1000, atMs / 1000 + 7_776_000))
    ensures MemGetClient(MemRun(EMPTY_MEMORY, calls).final, id, nowMs) == None
  {
    ClientStays(MemRegister(s, id, name, uris, atMs).next, calls, id);
    ClientStays(EMPTY_MEMORY, calls, id);
  }

  /** The same for the documents of the Firestore store. */
  lemma RegisteredDocumentIsFoundIff(s: Firestore, id: Id, name: Text, uris: seq<Text>, atMs: int,
          calls: seq<TimedCall>, nowMs: int)
    requires NeverRegisters(calls, id)
    ensures var t := FsRun(FsRegister(s, id, name, uris, atMs).next, calls).final;
            IsAnswerFor(FsGetClient(t, id, nowMs), id, name, uris, atMs, nowMs)
    ensures FsRegister(s, id, name, uris, atMs).reply ==
              Registered(ClientRecord(id, name, uris, atMs / 1000, atMs / 1000 + 7_776_000))
    ensures FsGetClient(FsRun(EMPTY_FIRESTORE, calls).final, id, nowMs) == None
  {
    ClientDocumentStays(FsRegister(s, id, name, uris, atMs).next, calls, id);
    ClientDocumentStays(EMPTY_FIRESTORE, calls, id);
  }

  // ----- the Firestore store simulates the memory store -----

  ghost predicate ClientsMirror(docs: map<Id, Document<ClientRecord>>, records: map<Id, ClientRecord>) {
    docs.Keys == records.Keys && forall k :: k in records ==> docs[k] == ToDocument(records[k], records[k].expiresAt)
  }

  ghost predicate CodesMirror(docs: map<Id, Document<CodeRecord>>, records: map<Id, CodeRecord>) {
    docs.Keys == records.Keys && forall k :: k in records ==> docs[k] == ToDocument(records[k], records[k].expiresAt)
  }

  ghost predicate TokensMirror(docs: map<Id, Document<RefreshRecord>>, records: map<Id, RefreshRecord>) {
    docs.Keys == records.Keys && forall k :: k in records ==> docs[k] == ToDocument(records[k], records[k].expiresAt)
  }

  ghost predicate FamiliesMirror(docs: map<Id, FamilyDocument>, compromised: set<Id>) {
    forall family :: family in compromised <==> FamilyCompromised(docs, family)
  }

  ghost predicate RatesMirror(docs: map<Digest, RateDocument>, buckets: map<Id, Bucket>) {
    && (forall k :: k in buckets <==> Sha256(k) in docs)
    && (forall k :: k in buckets ==>
          && docs[Sha256(k)].count == Some(buckets[k].count)
          && docs[Sha256(k)].resetAt == Some(buckets[k].resetAt))
  }

  /** A family is in the compromised set exactly when its document says `compromised: true`. */
  ghost predicate Simulates(f: Firestore, m: Memory) {
    && ClientsMirror(f.clients, m.clients)
    && CodesMirror(f.authorizationCodes, m.authorizationCodes)
    && TokensMirror(f.refreshTokens, m.refreshTokens)
    && FamiliesMirror(f.refreshFamilies, m.compromisedFamilies)
    && RatesMirror(f.rateLimits, m.rateLimits)
  }

  lemma RegisterSimulates(f: Firestore, m: Memory, id: Id, name: Text, uris: seq<Text>, nowMs: int)
    requires ClientsMirror(f.clients, m.clients)
    ensures ClientsMirror(FsRegister(f, id, name, uris, nowMs).next.clients,
        MemRegister(m, id, name, uris, nowMs).next.clients)
  {}

  lemma StoreCodeSimulates(f: Firestore, m: Memory, code: CodeRecord)
    requires CodesMirror(f.authorizationCodes, m.authorizationCodes)
    ensures CodesMirror(FsStoreCode(f, code).authorizationCodes, MemStoreCode(m, code).authorizationCodes)
  {}

  lemma ConsumeCodeSimulates(f: Firestore, m: Memory, jti: Id, nowMs: int)
    requires CodesMirror(f.authorizationCodes, m.authorizationCodes)
    ensures FsConsumeCode(f, jti, nowMs).reply == MemConsumeCode(m, jti, nowMs).reply
    ensures CodesMirror(FsConsumeCode(f, jti, nowMs).next.authorizationCodes,
        MemConsumeCode(m, jti, nowMs).next.authorizationCodes)
  {}

  lemma StoreRefreshSimulates(f: Firestore, m: Memory, token: RefreshRecord)
    requires TokensMirror(f.refreshTokens, m.refreshTokens)
    ensures TokensMirror(FsStoreRefresh(f, token).refreshTokens, MemStoreRefresh(m, token).refreshTokens)
  {}

  lemma TokenWrittenMirrors(docs: map<Id, Document<RefreshRecord>>, records: map<Id, RefreshRecord>, jti: Id,
          record: RefreshRecord)
    requires TokensMirror(docs, records)
    ensures TokensMirror(docs[jti := ToDocument(record, record.expiresAt)], records[jti := record])
  {}

  lemma ConsumeRefreshAnswersAgree(f: Firestore, m: Memory, jti: Id, nowMs: int)
    requires TokensMirror(f.refreshTokens, m.refreshTokens) && FamiliesMirror(f.refreshFamilies, m.compromisedFamilies)
    ensures FsConsumeRefresh(f, jti, nowMs).reply == MemConsumeRefresh(m, jti, nowMs).reply
  {
    if jti in m.refreshTokens {
      assert f.refreshTokens[jti].record == m.refreshTokens[jti];
    }
  }

  lemma ConsumeRefreshMirrorsTokens(f: Firestore, m: Memory, jti: Id, nowMs: int)
    requires TokensMirror(f.refreshTokens, m.refreshTokens) && FamiliesMirror(f.refreshFamilies, m.compromisedFamilies)
    ensures TokensMirror(FsConsumeRefresh(f, jti, nowMs).next.refreshTokens,
        MemConsumeRefresh(m, jti, nowMs).next.refreshTokens)
  {
    if jti in m.refreshTokens {
      var record := m.refreshTokens[jti];
      assert f.refreshTokens[jti] == ToDocument(record, record.expiresAt);
      TokenWrittenMirrors(f.refreshTokens, m.refreshTokens, jti, record.(consumedAt := Some(Seconds(nowMs))));
    }
  }

  /** What a merge does to the flag of each family. */
  lemma MergeSetsOneFlag(f: Firestore, family: Id, fields: FamilyDocument, other: Id)
    ensures fields.compromised.Some? ==>
              (FamilyCompromised(MergeFamily(f, family, fields).refreshFamilies, other)
               <==> if other == family then fields.compromised.value else FamilyCompromised(f.refreshFamilies, other))
  {}

  lemma ConsumeRefreshMirrorsFamilies(f: Firestore, m: Memory, jti: Id, nowMs: int)
    requires TokensMirror(f.refreshTokens, m.refreshTokens) && FamiliesMirror(f.refreshFamilies, m.compromisedFamilies)
    ensures FamiliesMirror(FsConsumeRefresh(f, jti, nowMs).next.refreshFamilies,
        MemConsumeRefresh(m, jti, nowMs).next.compromisedFamilies)
  {
    var f', m' := FsConsumeRefresh(f, jti, nowMs).next, MemConsumeRefresh(m, jti, nowMs).next;
    if f'.refreshFamilies != f.refreshFamilies || m' != m {
      var record := m.refreshTokens[jti];
      assert f.refreshTokens[jti].record == record;
      forall other
        ensures other in m'.compromisedFamilies <==> FamilyCompromised(f'.refreshFamilies, other)
      {
        var now := Seconds(nowMs);
        MergeSetsOneFlag(f, record.familyId, FamilyDocument(Some(true), Some(now), None), other);
        MergeSetsOneFlag(f, record.familyId, FamilyDocument(Some(false), None, Some(now)), other);
        assert other in m.compromisedFamilies <==> FamilyCompromised(f.refreshFamilies, other);
      }
    }
  }

  lemma ConsumeRefreshSimulates(f: Firestore, m: Memory, jti: Id, nowMs: int)
    requires Simulates(f, m)
    ensures FsConsumeRefresh(f, jti, nowMs).reply == MemConsumeRefresh(m, jti, nowMs).reply
    ensures Simulates(FsConsumeRefresh(f, jti, nowMs).next, MemConsumeRefresh(m, jti, nowMs).next)
  {
    ConsumeRefreshAnswersAgree(f, m, jti, nowMs);
    ConsumeRefreshMirrorsTokens(f, m, jti, nowMs);
    ConsumeRefreshMirrorsFamilies(f, m, jti, nowMs);
  }

  lemma BucketWrittenMirrors(docs: map<Digest, RateDocument>, buckets: map<Id, Bucket>, key: Id, doc: RateDocument,
          bucket: Bucket)
    requires RatesMirror(docs, buckets)
    requires doc.count == Some(bucket.count) && doc.resetAt == Some(bucket.resetAt)
    ensures RatesMirror(docs[Sha256(key) := doc], buckets[key := bucket])
  {}

  lemma RateLimitSimulates(f: Firestore, m: Memory, key: Id, windowMs: int, maxRequests: int, nowMs: int)
    requires Simulates(f, m)
    ensures FsRateLimit(f, key, windowMs, maxRequests, nowMs).reply ==
        MemRateLimit(m, key, windowMs, maxRequests, nowMs).reply
    ensures Simulates(FsRateLimit(f, key, windowMs, maxRequests, nowMs).next,
        MemRateLimit(m, key, windowMs, maxRequests, nowMs).next)
  {
    var ref := Sha256(key);
    assert key in m.rateLimits <==> ref in f.rateLimits;
    if key !in m.rateLimits || m.rateLimits[key].resetAt <= nowMs {
      BucketWrittenMirrors(f.rateLimits, m.rateLimits, key,
        RateDocument(Some(1), Some(nowMs + windowMs), Some(nowMs + windowMs)), Bucket(1, nowMs + windowMs));
    } else {
      var count := m.rateLimits[key].count + 1;
      BucketWrittenMirrors(f.rateLimits, m.rateLimits, key,
        f.rateLimits[ref].(count := Some(count)), m.rateLimits[key].(count := count));
    }
  }

  /** Both stores answer the call alike and stay related. */
  ghost predicate InStep(f: Firestore, m: Memory, c: TimedCall) {
    FsCall(f, c).reply == MemCall(m, c).reply && Simulates(FsCall(f, c).next, MemCall(m, c).next)
  }

  lemma ClientCallSimulates(f: Firestore, m: Memory, c: TimedCall)
    requires Simulates(f, m) && (c.call.RegisterClient? || c.call.GetClient?)
    ensures InStep(f, m, c)
  {
    if c.call.RegisterClient? {
      RegisterSimulates(f, m, c.call.freshId, c.call.clientName, c.call.redirectUris, c.nowMs);
    }
  }

  lemma CodeCallSimulates(f: Firestore, m: Memory, c: TimedCall)
    requires Simulates(f, m) && (c.call.StoreCode? || c.call.ConsumeCode?)
    ensures InStep(f, m, c)
  {
    match c.call
    case StoreCode(code) => StoreCodeSimulates(f, m, code);
    case ConsumeCode(jti) => ConsumeCodeSimulates(f, m, jti, c.nowMs);
  }

  lemma TokenCallSimulates(f: Firestore, m: Memory, c: TimedCall)
    requires Simulates(f, m) && (c.call.StoreRefresh? || c.call.ConsumeRefresh?)
    ensures InStep(f, m, c)
  {
    match c.call
    case StoreRefresh(token) => StoreRefreshSimulates(f, m, token);
    case ConsumeRefresh(jti) => ConsumeRefreshSimulates(f, m, jti, c.nowMs);
  }

  lemma RateCallSimulates(f: Firestore, m: Memory, c: TimedCall)
    requires Simulates(f, m) && c.call.RateLimit?
    ensures InStep(f, m, c)
  {
    RateLimitSimulates(f, m, c.call.key, c.call.windowMs, c.call.maxRequests, c.nowMs);
  }

  lemma CallSimulates(f: Firestore, m: Memory, c: TimedCall)
    requires Simulates(f, m)
    ensures FsCall(f, c).reply == MemCall(m, c).reply
    ensures Simulates(FsCall(f, c).next, MemCall(m, c).next)
  {
    if c.call.RegisterClient? || c.call.GetClient? {
      ClientCallSimulates(f, m, c);
    } else if c.call.StoreCode? || c.call.ConsumeCode? {
      CodeCallSimulates(f, m, c);
    } else if c.call.RateLimit? {
      RateCallSimulates(f, m, c);
    } else {
      TokenCallSimulates(f, m, c);
    }
  }

  /** Any sequence of calls, from related states, gets the same replies from both stores. */
  lemma {:induction false} LockStep(f: Firestore, m: Memory, calls: seq<TimedCall>)
    requires Simulates(f, m)
    ensures FsRun(f, calls).replies == MemRun(m, calls).replies
    ensures Simulates(FsRun(f, calls).final, MemRun(m, calls).final)
    decreases |calls|
  {
    if calls != [] {
      CallSimulates(f, m, calls[0]);
      LockStep(FsCall(f, calls[0]).next, MemCall(m, calls[0]).next, calls[1..]);
    }
  }

  /** The two stores cannot be told apart from their initial states on. */
  lemma StoresAreInterchangeable(calls: seq<TimedCall>)
    ensures FsRun(EMPTY_FIRESTORE, calls).replies == MemRun(EMPTY_MEMORY, calls).replies
  {
    LockStep(EMPTY_FIRESTORE, EMPTY_MEMORY, calls);
  }

  /** Writing `compromised: false` on a successful consume never clears a compromised family. */
  lemma {:induction false} FirestoreCompromiseSticks(f: Firestore, calls: seq<TimedCall>, family: Id)
    requires FamilyCompromised(f.refreshFamilies, family)
    ensures FamilyCompromised(FsRun(f, calls).final.refreshFamilies, family)
    decreases |calls|
  {
    if calls != [] {
      FirestoreCompromiseSticks(FsCall(f, calls[0]).next, calls[1..], family);
    }
  }

  // ----- codes are consumed once -----

  /** The code `jti` is stored and marked, so it can never be consumed again. */
  predicate CodeSpent(s: Memory, jti: Id) {
    jti in s.authorizationCodes && s.authorizationCodes[jti].consumedAt.Some?
  }

  /** `jti` is not written again: `generateId` gave it to an earlier authorisation. */
  predicate NeverRestores(calls: seq<TimedCall>, jti: Id) {
    forall i :: 0 <= i < |calls| && calls[i].call.StoreCode? ==> calls[i].call.code.jti != jti
  }

  /**
   A consume that answers a record spends the code: in every continuation that does not store the
   same identifier again, no consume of it answers a record.
   */
  lemma {:induction false} SpentCodeStaysSpent(s: Memory, calls: seq<TimedCall>, jti: Id, i: nat)
    requires CodeSpent(s, jti) && NeverRestores(calls, jti)
    requires i < |calls| && calls[i].call == ConsumeCode(jti)
    ensures MemRun(s, calls).replies[i] == Code(None)
    decreases |calls|
  {
    var s' := MemCall(s, calls[0]).next;
    if i > 0 {
      assert CodeSpent(s', jti);
      SpentCodeStaysSpent(s', calls[1..], jti, i - 1);
    }
  }

  lemma ConsumedCodeIsSpent(s: Memory, jti: Id, nowMs: int)
    ensures MemConsumeCode(s, jti, nowMs).reply.code.Some? ==>
        !CodeSpent(s, jti) && CodeSpent(MemConsumeCode(s, jti, nowMs).next, jti)
  {}

  // ----- reuse detection -----

  /** Presenting a consumed, unexpired token of a family not yet compromised compromises it. */
  lemma ReplayCompromises(s: Memory, jti: Id, nowMs: int)
    requires jti in s.refreshTokens
    requires s.refreshTokens[jti].consumedAt.Some? && s.refreshTokens[jti].expiresAt > Seconds(nowMs)
    ensures s.refreshTokens[jti].familyId in MemConsumeRefresh(s, jti, nowMs).next.compromisedFamilies
    ensures MemConsumeRefresh(s, jti, nowMs).reply in {Refresh(Reused), Refresh(Compromised)}
  {}

  /** In every continuation no consume answers a record of a compromised family, however and
      whenever the presented token came to be stored. */
  lemma {:induction false} CompromisedFamilyIsDead(s: Memory, calls: seq<TimedCall>, family: Id, i: nat)
    requires family in s.compromisedFamilies
    requires i < |calls| && calls[i].call.ConsumeRefresh?
    ensures var reply := MemRun(s, calls).replies[i];
            reply.Refresh? && (reply.result.Consumed? ==> reply.result.record.familyId != family)
    decreases |calls|
  {
    if i > 0 {
      CompromisedFamilyIsDead(MemCall(s, calls[0]).next, calls[1..], family, i - 1);
    }
  }

  ghost predicate TokensAgreeOutside(s: map<Id, RefreshRecord>, t: map<Id, RefreshRecord>, family: Id) {
    && s.Keys == t.Keys
    && (forall k :: k in s ==> s[k].familyId == t[k].familyId && (s[k].familyId != family ==> s[k] == t[k]))
  }

  /** The two states agree except for tokens of `family` and for whether it is compromised. */
  ghost predicate AgreeOutside(s: Memory, t: Memory, family: Id) {
    && s.clients == t.clients && s.authorizationCodes == t.authorizationCodes && s.rateLimits == t.rateLimits
    && TokensAgreeOutside(s.refreshTokens, t.refreshTokens, family)
    && s.compromisedFamilies - {family} == t.compromisedFamilies - {family}
  }

  /** The call presents a token of `family`. */
  predicate PresentsFamily(s: Memory, c: TimedCall, family: Id) {
    c.call.ConsumeRefresh? && c.call.jti in s.refreshTokens && s.refreshTokens[c.call.jti].familyId == family
  }

  lemma TokenWrittenAgreesOutside(s: map<Id, RefreshRecord>, t: map<Id, RefreshRecord>, jti: Id, record: RefreshRecord,
          family: Id)
    requires TokensAgreeOutside(s, t, family)
    ensures TokensAgreeOutside(s[jti := record], t[jti := record], family)
    ensures jti in s && s[jti].familyId == record.familyId == family ==> TokensAgreeOutside(s[jti := record], t, family)
    ensures jti in t && t[jti].familyId == record.familyId == family ==> TokensAgreeOutside(s, t[jti := record], family)
  {}

  lemma ConsumeRefreshAgreesOutside(s: Memory, t: Memory, jti: Id, nowMs: int, family: Id)
    requires AgreeOutside(s, t, family) && jti in s.refreshTokens && s.refreshTokens[jti].familyId != family
    ensures MemConsumeRefresh(s, jti, nowMs).reply == MemConsumeRefresh(t, jti, nowMs).reply
    ensures AgreeOutside(MemConsumeRefresh(s, jti, nowMs).next, MemConsumeRefresh(t, jti, nowMs).next, family)
  {
    var record := s.refreshTokens[jti];
    var own := record.familyId;
    assert own in s.compromisedFamilies - {family} <==> own in t.compromisedFamilies - {family};
    assert s.compromisedFamilies + {own} - {family} == s.compromisedFamilies - {family} + {own};
    assert t.compromisedFamilies + {own} - {family} == t.compromisedFamilies - {family} + {own};
    TokenWrittenAgreesOutside(s.refreshTokens, t.refreshTokens, jti, record.(consumedAt := Some(Seconds(nowMs))),
        family);
  }

  /** Presenting a token of `family` changes nothing outside `family`. */
  lemma ConsumeRefreshIsLocal(s: Memory, jti: Id, nowMs: int, family: Id)
    requires jti in s.refreshTokens && s.refreshTokens[jti].familyId == family
    ensures AgreeOutside(s, MemConsumeRefresh(s, jti, nowMs).next, family)
  {
    assert s.compromisedFamilies + {family} - {family} == s.compromisedFamilies - {family};
  }

  lemma AgreeOutsideTrans(s: Memory, t: Memory, u: Memory, family: Id)
    requires AgreeOutside(s, t, family) && AgreeOutside(t, u, family)
    ensures AgreeOutside(s, u, family) && AgreeOutside(t, s, family)
  {}

  lemma ClientCallsAgreeOutside(s: Memory, t: Memory, c: TimedCall, family: Id)
    requires AgreeOutside(s, t, family) && (c.call.RegisterClient? || c.call.GetClient?)
    ensures AgreeOutside(MemCall(s, c).next, MemCall(t, c).next, family) && MemCall(s, c).reply == MemCall(t, c).reply
  {}

  lemma CodeCallsAgreeOutside(s: Memory, t: Memory, c: TimedCall, family: Id)
    requires AgreeOutside(s, t, family) && (c.call.StoreCode? || c.call.ConsumeCode?)
    ensures AgreeOutside(MemCall(s, c).next, MemCall(t, c).next, family) && MemCall(s, c).reply == MemCall(t, c).reply
  {}

  lemma RateCallsAgreeOutside(s: Memory, t: Memory, c: TimedCall, family: Id)
    requires AgreeOutside(s, t, family) && c.call.RateLimit?
    ensures AgreeOutside(MemCall(s, c).next, MemCall(t, c).next, family) && MemCall(s, c).reply == MemCall(t, c).reply
  {}

  lemma CallAgreesOutside(s: Memory, t: Memory, c: TimedCall, family: Id)
    requires AgreeOutside(s, t, family)
    ensures AgreeOutside(MemCall(s, c).next, MemCall(t, c).next, family)
    ensures !PresentsFamily(s, c, family) ==> MemCall(s, c).reply == MemCall(t, c).reply
  {
    match c.call
    case ConsumeRefresh(jti) =>
      if PresentsFamily(s, c, family) {
        ConsumeRefreshIsLocal(s, jti, c.nowMs, family);
        ConsumeRefreshIsLocal(t, jti, c.nowMs, family);
        AgreeOutsideTrans(s, MemCall(s, c).next, s, family);
        AgreeOutsideTrans(s, t, MemCall(t, c).next, family);
        AgreeOutsideTrans(MemCall(s, c).next, s, MemCall(t, c).next, family);
      } else if jti in s.refreshTokens {
        ConsumeRefreshAgreesOutside(s, t, jti, c.nowMs, family);
      }
    case StoreRefresh(token) =>
      TokenWrittenAgreesOutside(s.refreshTokens, t.refreshTokens, token.jti, token, family);
    case RegisterClient(_, _, _) => ClientCallsAgreeOutside(s, t, c, family);
    case GetClient(_) => ClientCallsAgreeOutside(s, t, c, family);
    case StoreCode(_) => CodeCallsAgreeOutside(s, t, c, family);
    case ConsumeCode(_) => CodeCallsAgreeOutside(s, t, c, family);
    case RateLimit(_, _, _) => RateCallsAgreeOutside(s, t, c, family);
  }

  /**
   Whatever one family suffers, no other call notices: replies in two runs that start in states
   agreeing outside `family` differ at most where a token of `family` is presented.
   */
  lemma {:induction false} OtherFamiliesUnaffected(s: Memory, t: Memory, calls: seq<TimedCall>, family: Id, i: nat)
    requires AgreeOutside(s, t, family) && i < |calls|
    ensures PresentsFamily(MemRun(s, calls[..i]).final, calls[i], family) ||
        MemRun(s, calls).replies[i] == MemRun(t, calls).replies[i]
    decreases |calls|
  {
    CallAgreesOutside(s, t, calls[0], family);
    if i > 0 {
      var s', t' := MemCall(s, calls[0]).next, MemCall(t, calls[0]).next;
      OtherFamiliesUnaffected(s', t', calls[1..], family, i - 1);
      assert calls[..i][1..] == calls[1..][..i - 1];
      assert calls[..i][0] == calls[0];
    } else {
      assert calls[..0] == [];
    }
  }

  /** The replay itself leaves a state that agrees with the one before it outside its family. */
  lemma ReplayIsLocal(s: Memory, calls: seq<TimedCall>, jti: Id, nowMs: int, i: nat)
    requires jti in s.refreshTokens && i < |calls|
    requires s.refreshTokens[jti].consumedAt.Some? && s.refreshTokens[jti].expiresAt > Seconds(nowMs)
    ensures var family := s.refreshTokens[jti].familyId;
            var replayed := MemConsumeRefresh(s, jti, nowMs).next;
            PresentsFamily(MemRun(s, calls[..i]).final, calls[i], family) ||
                MemRun(s, calls).replies[i] == MemRun(replayed, calls).replies[i]
  {
    OtherFamiliesUnaffected(s, MemConsumeRefresh(s, jti, nowMs).next, calls, s.refreshTokens[jti].familyId, i);
  }

  // ----- the two classes -----

  class MemoryOAuthStore {
    var clients: map<Id, ClientRecord>
    var authorizationCodes: map<Id, CodeRecord>
    var refreshTokens: map<Id, RefreshRecord>
    var compromisedRefreshFamilies: set<Id>
    var rateLimits: map<Id, Bucket>

    ghost function View(): Memory
      reads this
    {
      Memory(clients, authorizationCodes, refreshTokens, compromisedRefreshFamilies, rateLimits)
    }

    constructor ()
      ensures View() == EMPTY_MEMORY
    {
      clients, authorizationCodes, refreshTokens := map[], map[], map[];
      compromisedRefreshFamilies, rateLimits := {}, map[];
    }

    method RegisterClient(clientId: Id, clientName: Text, redirectUris: seq<Text>, nowMs: int) returns (r: ClientRecord)
      modifies this
      ensures MemStep(View(), Registered(r)) == MemRegister(old(View()), clientId, clientName, redirectUris, nowMs)
    {
      r := NewClient(clientId, clientName, redirectUris, nowMs);
      clients := clients[clientId := r];
    }

    method GetClient(clientId: Id, nowMs: int) returns (r: Option<ClientRecord>)
      ensures r == MemGetClient(View(), clientId, nowMs)
    {
      if clientId !in clients {
        return None;
      }
      if clients[clientId].expiresAt <= Seconds(nowMs) {
        return None;
      }
      return Some(clients[clientId]);
    }

    method StoreAuthorizationCode(record: CodeRecord)
      modifies this
      ensures View() == MemStoreCode(old(View()), record)
    {
      authorizationCodes := authorizationCodes[record.jti := record];
    }

    method ConsumeAuthorizationCode(jti: Id, nowMs: int) returns (r: Option<CodeRecord>)
      modifies this
      ensures MemStep(View(), Code(r)) == MemConsumeCode(old(View()), jti, nowMs)
    {
      var now := Seconds(nowMs);
      if jti !in authorizationCodes {
        return None;
      }
      var record := authorizationCodes[jti];
      if record.consumedAt != None || record.expiresAt <= now {
        return None;
      }
      authorizationCodes := authorizationCodes[jti := record.(consumedAt := Some(now))];
      return Some(record);
    }

    method StoreRefreshToken(record: RefreshRecord)
      modifies this
      ensures View() == MemStoreRefresh(old(View()), record)
    {
      refreshTokens := refreshTokens[record.jti := record];
    }

    method ConsumeRefreshToken(jti: Id, nowMs: int) returns (r: RefreshResult)
      modifies this
      ensures MemStep(View(), Refresh(r)) == MemConsumeRefresh(old(View()), jti, nowMs)
    {
      var now := Seconds(nowMs);
      if jti !in refreshTokens {
        return Missing;
      }
      var record := refreshTokens[jti];
      if record.expiresAt <= now {
        return Missing;
      }
      if record.familyId in compromisedRefreshFamilies {
        return Compromised;
      }
      if record.consumedAt != None {
        compromisedRefreshFamilies := compromisedRefreshFamilies + {record.familyId};
        return Reused;
      }
      refreshTokens := refreshTokens[jti := record.(consumedAt := Some(now))];
      return Consumed(record);
    }

    method ConsumeRateLimit(key: Id, windowMs: int, maxRequests: int, nowMs: int) returns (allowed: bool)
      modifies this
      ensures MemStep(View(), Allowed(allowed)) == MemRateLimit(old(View()), key, windowMs, maxRequests, nowMs)
    {
      if key !in rateLimits || rateLimits[key].resetAt <= nowMs {
        rateLimits := rateLimits[key := Bucket(1, nowMs + windowMs)];
        return true;
      }
      var bucket := rateLimits[key];
      if bucket.count >= maxRequests {
        return false;
      }
      rateLimits := rateLimits[key := bucket.(count := bucket.count + 1)];
      return true;
    }
  }

  /** Each method is one serialisable transaction over the collections. */
  class FirestoreOAuthStore {
    var clientDocs: map<Id, Document<ClientRecord>>
    var codeDocs: map<Id, Document<CodeRecord>>
    var tokenDocs: map<Id, Document<RefreshRecord>>
    var familyDocs: map<Id, FamilyDocument>
    var rateDocs: map<Digest, RateDocument>

    ghost function View(): Firestore
      reads this
    {
      Firestore(clientDocs, codeDocs, tokenDocs, familyDocs, rateDocs)
    }

    constructor ()
      ensures View() == EMPTY_FIRESTORE
    {
      clientDocs, codeDocs, tokenDocs := map[], map[], map[];
      familyDocs, rateDocs := map[], map[];
    }

    method RegisterClient(clientId: Id, clientName: Text, redirectUris: seq<Text>, nowMs: int) returns (r: ClientRecord)
      modifies this
      ensures FsStep(View(), Registered(r)) == FsRegister(old(View()), clientId, clientName, redirectUris, nowMs)
    {
      r := NewClient(clientId, clientName, redirectUris, nowMs);
      clientDocs := clientDocs[clientId := ToDocument(r, r.expiresAt)];
    }

    method GetClient(clientId: Id, nowMs: int) returns (r: Option<ClientRecord>)
      ensures r == FsGetClient(View(), clientId, nowMs)
    {
      if clientId !in clientDocs {
        return None;
      }
      var client := clientDocs[clientId].record;
      return if client.expiresAt <= Seconds(nowMs) then None else Some(client);
    }

    method StoreAuthorizationCode(record: CodeRecord)
      modifies this
      ensures View() == FsStoreCode(old(View()), record)
    {
      codeDocs := codeDocs[record.jti := ToDocument(record, record.expiresAt)];
    }

    method ConsumeAuthorizationCode(jti: Id, nowMs: int) returns (r: Option<CodeRecord>)
      modifies this
      ensures FsStep(View(), Code(r)) == FsConsumeCode(old(View()), jti, nowMs)
    {
      if jti !in codeDocs {
        return None;
      }
      var doc := codeDocs[jti];
      var now := Seconds(nowMs);
      if doc.record.consumedAt != None || doc.record.expiresAt <= now {
        return None;
      }
      codeDocs := codeDocs[jti := doc.(record := doc.record.(consumedAt := Some(now)))];
      return Some(doc.record);
    }

    method StoreRefreshToken(record: RefreshRecord)
      modifies this
      ensures View() == FsStoreRefresh(old(View()), record)
    {
      tokenDocs := tokenDocs[record.jti := ToDocument(record, record.expiresAt)];
    }

    method MergeFamilyDocument(family: Id, fields: FamilyDocument)
      modifies this`familyDocs
      ensures View() == MergeFamily(old(View()), family, fields)
    {
      var prior := if family in familyDocs then familyDocs[family] else FamilyDocument(None, None, None);
      if fields.compromised.Some? {
        prior := prior.(compromised := fields.compromised);
      }
      if fields.compromisedAt.Some? {
        prior := prior.(compromisedAt := fields.compromisedAt);
      }
      if fields.lastUsedAt.Some? {
        prior := prior.(lastUsedAt := fields.lastUsedAt);
      }
      familyDocs := familyDocs[family := prior];
    }

    method ConsumeRefreshToken(jti: Id, nowMs: int) returns (r: RefreshResult)
      modifies this
      ensures FsStep(View(), Refresh(r)) == FsConsumeRefresh(old(View()), jti, nowMs)
    {
      if jti !in tokenDocs {
        return Missing;
      }
      var doc := tokenDocs[jti];
      var record := doc.record;
      var now := Seconds(nowMs);
      if record.expiresAt <= now {
        return Missing;
      }
      if record.familyId in familyDocs && familyDocs[record.familyId].compromised == Some(true) {
        return Compromised;
      }
      if record.consumedAt != None {
        MergeFamilyDocument(record.familyId, FamilyDocument(Some(true), Some(now), None));
        return Reused;
      }
      tokenDocs := tokenDocs[jti := doc.(record := record.(consumedAt := Some(now)))];
      MergeFamilyDocument(record.familyId, FamilyDocument(Some(false), None, Some(now)));
      return Consumed(record);
    }

    method ConsumeRateLimit(key: Id, windowMs: int, maxRequests: int, nowMs: int) returns (allowed: bool)
      modifies this
      ensures FsStep(View(), Allowed(allowed)) == FsRateLimit(old(View()), key, windowMs, maxRequests, nowMs)
    {
      var ref := Sha256(key);
      var isStored := ref in rateDocs;
      var data := if isStored then rateDocs[ref] else RateDocument(None, None, None);
      var count := if data.count.Some? then data.count.value else 0;
      var resetAt := if data.resetAt.Some? then data.resetAt.value else 0;
      if !isStored || resetAt <= nowMs {
        rateDocs := rateDocs[ref := RateDocument(Some(1), Some(nowMs + windowMs), Some(nowMs + windowMs))];
        return true;
      }
      if count >= maxRequests {
        return false;
      }
      rateDocs := rateDocs[ref := data.(count := Some(count + 1))];
      return true;
    }
  }
}
