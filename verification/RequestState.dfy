/**
 Sealed request state of src/RequestState.ts: seal, open and the replay store, with
 AES-GCM taken as an ideal cipher: a vault remembers what was encrypted, and only
 that decrypts, under the additional data it was encrypted with. Random bytes are fresh.
 */
module RequestState {
  import opened Common
  import Base64
  import JsonText
  import opened RequestEnvelope
  import Utf8

  datatype Reason =
    | InvalidConfiguration | InvalidInput | InvalidToken | AuthenticationFailed
    | FutureIssued | Expired | Replay | ReplayStoreFull

  const IV_BYTES := 12
  const TAG_BYTES := 16
  const MAX_TOKEN := 16_384
  const MAX_REPLAY_CAPACITY := 1_024

  // ----- the replay store -----

  /** Nonces and when they expire. */
  type Store = map<JsString, int>

  function Live(entries: Store, now: int): Store {
    map n | n in entries && entries[n] > now :: entries[n]
  }

  /** `consume`: the error, if any, and the entries left behind. */
  function Consumed(entries: Store, capacity: nat, nonce: JsString, expiresAt: int, now: int): (Option<Reason>, Store) {
    var live := Live(entries, now);
    if nonce in live then (Some(Replay), live)
    else if |live| >= capacity then (Some(ReplayStoreFull), live)
    else (None, live[nonce := expiresAt])
  }

  lemma LiveIsNoLarger(entries: Store, now: int)
    ensures |Live(entries, now)| <= |entries|
  {
    KeysBound(Live(entries, now), entries);
  }

  lemma KeysBound(a: Store, b: Store)
    requires a.Keys <= b.Keys
    ensures |a| <= |b|
  {
    SubsetBound(a.Keys, b.Keys);
    assert |a| == |a.Keys| && |b| == |b.Keys|;
  }

  class ReplayStore {
    const capacity: nat
    var entries: Store

    constructor (capacity: nat)
      ensures this.capacity == capacity && entries == map[]
    {
      this.capacity := capacity;
      entries := map[];
    }

    /** `consume`: the expired entries are dropped whatever the outcome. */
    method Consume(nonce: JsString, expiresAt: int, now: int) returns (error: Option<Reason>)
      modifies this
      ensures (error, entries) == Consumed(old(entries), capacity, nonce, expiresAt, now)
    {
      var live: Store := map[];
      var pending := entries.Keys;
      while pending != {}
        invariant pending <= entries.Keys && entries == old(entries)
        invariant live == map n | n in entries && n !in pending && entries[n] > now :: entries[n]
        decreases |pending|
      {
        var key :| key in pending;
        pending := pending - {key};
        if entries[key] > now {
          live := live[key := entries[key]];
        }
      }
      assert live == Live(entries, now);
      if nonce in live {
        error := Some(Replay);
      } else if |live| >= capacity {
        error := Some(ReplayStoreFull);
      } else {
        error := None;
        live := live[nonce := expiresAt];
      }
      entries := live;
    }
  }

  /** `RequestStateReplayStore.memory`. */
  method MakeReplayStore(capacity: int) returns (store: Result<ReplayStore, Reason>)
    ensures store.Ok? <==> 1 <= capacity <= MAX_REPLAY_CAPACITY
    ensures store.Ok? ==> fresh(store.value) && store.value.capacity == capacity && store.value.entries == map[]
  {
    if capacity <= 0 || capacity > MAX_REPLAY_CAPACITY {
      return Err(InvalidConfiguration);
    }
    var made := new ReplayStore(capacity);
    return Ok(made);
  }

  // ----- tokens and the ideal cipher -----

  datatype Box = Box(iv: Bytes, ciphertext: Bytes)

  datatype Secret = Secret(aad: Bytes, plaintext: Bytes)

  type Vault = map<Box, Secret>

  function Decrypt(vault: Vault, box: Box, aad: Bytes): Option<Bytes> {
    if box in vault && vault[box].aad == aad then Some(vault[box].plaintext) else None
  }

  predicate BoxShape(box: Box) {
    |box.iv| == IV_BYTES && |box.ciphertext| > TAG_BYTES
  }

  function Token(box: Box): JsString {
    Base64.Encode(true, [VERSION] + box.iv + box.ciphertext)
  }

  function ReadToken(token: JsString): Option<Box> {
    if token == [] || |token| > MAX_TOKEN then None
    else
      match Base64.Decode(true, token)
      case None => None
      case Some(bytes) =>
        if |bytes| <= 1 + IV_BYTES + TAG_BYTES || bytes[0] != VERSION then None
        else Some(Box(bytes[1..1 + IV_BYTES], bytes[1 + IV_BYTES..]))
  }

  /** A token is accepted as a box exactly when it is that box's own text and within the limit. */
  lemma ReadTokenExact(token: JsString, box: Box)
    ensures ReadToken(token) == Some(box) <==> BoxShape(box) && token == Token(box) && |token| <= MAX_TOKEN
  {
    var bytes := [VERSION] + box.iv + box.ciphertext;
    Base64.DecodeExact(true, token, bytes);
    Base64.EncodedShape(true, bytes);
    hide Base64.Decode;
    hide Base64.Encode;
    if ReadToken(token) == Some(box) {
      var read := Base64.Decode(true, token).value;
      assert read == [read[0]] + read[1..1 + IV_BYTES] + read[1 + IV_BYTES..];
    }
    if BoxShape(box) && token == Token(box) && |token| <= MAX_TOKEN {
      assert bytes[1..1 + IV_BYTES] == box.iv && bytes[1 + IV_BYTES..] == box.ciphertext;
    }
  }

  // ----- seal and open -----

  predicate ClockReading(now: int) {
    0 <= now <= MAX_SAFE
  }

  /** `seal` up to the encryption: the additional data and the envelope. */
  function Prepare(principal: JsString, purpose: JsString, state: JsString, now: int, ttl: nat, nonce: Bytes): Result<(Bytes, Envelope), Reason> {
    if Bound(principal).None? || Bound(purpose).None? || !StateAllowed(state) then Err(InvalidInput)
    else if !ClockReading(now) || now + ttl > MAX_SAFE then Err(InvalidInput)
    else
      var aad := AdditionalData(Bound(principal).value, Bound(purpose).value);
      Ok((aad, Envelope(now, now + ttl, Base64.Encode(true, nonce), state)))
  }

  /** A bound name: not empty, no lone surrogate, at most 256 bytes. */
  predicate Name(text: JsString) {
    text != [] && Utf8.WellFormed(text) && |Utf8.Encode(text)| <= 256
  }

  /** Sealing is refused exactly for a bad name, a state that is too long or has a lone surrogate, or a time out of range. */
  lemma PrepareExactly(principal: JsString, purpose: JsString, state: JsString, now: int, ttl: nat, nonce: Bytes)
    ensures Prepare(principal, purpose, state, now, ttl, nonce).Ok? <==>
            && Name(principal) && Name(purpose)
            && Utf8.WellFormed(state) && |Utf8.Encode(state)| <= 8_192
            && 0 <= now && now + ttl <= 9_007_199_254_740_991
    ensures Prepare(principal, purpose, state, now, ttl, nonce).Err? ==> Prepare(principal, purpose, state, now, ttl, nonce) == Err(InvalidInput)
  {
    hide Utf8.Encode;
    hide Utf8.WellFormed;
    hide AdditionalData;
    hide Base64.Encode;
  }

  /** The clock checks of `open`. */
  function Judge(envelope: Envelope, now: int): Result<Envelope, Reason> {
    if !ClockReading(now) then Err(InvalidInput)
    else if envelope.iat > now then Err(FutureIssued)
    else if now >= envelope.exp then Err(Expired)
    else Ok(envelope)
  }

  /** `open` up to the replay store. */
  function Admit(vault: Vault, token: JsString, principal: JsString, purpose: JsString, now: int): Result<Envelope, Reason> {
    if Bound(principal).None? || Bound(purpose).None? then Err(InvalidInput)
    else
      match ReadToken(token)
      case None => Err(InvalidToken)
      case Some(box) =>
        match Decrypt(vault, box, AdditionalData(Bound(principal).value, Bound(purpose).value))
        case None => Err(AuthenticationFailed)
        case Some(plaintext) =>
          match Parse(plaintext)
          case None => Err(InvalidToken)
          case Some(envelope) => Judge(envelope, now)
  }

  /** `open`: the answer and the entries of the replay store afterwards. */
  function Open(vault: Vault, entries: Store, capacity: nat, token: JsString, principal: JsString, purpose: JsString, now: int): (Result<JsString, Reason>, Store) {
    match Admit(vault, token, principal, purpose, now)
    case Err(reason) => (Err(reason), entries)
    case Ok(envelope) =>
      var (error, left) := Consumed(entries, capacity, envelope.n, envelope.exp, now);
      (if error.Some? then Err(error.value) else Ok(envelope.state), left)
  }

  // ----- runs -----

  datatype Sealing = Sealing(principal: JsString, purpose: JsString, envelope: Envelope)

  /** A successful `open`: the token's box, what the caller asked for, the envelope it opened, when. */
  datatype Opening = Opening(box: Box, principal: JsString, purpose: JsString, envelope: Envelope, at: int)

  datatype World = World(vault: Vault, sealings: map<Box, Sealing>, store: Store, clock: int, openings: seq<Opening>)

  datatype Action =
    | SealAction(principal: JsString, purpose: JsString, state: JsString, at: int, nonce: Bytes, box: Box)
    | OpenAction(token: JsString, principal: JsString, purpose: JsString, at: int)

  datatype Settings = Settings(capacity: nat, ttl: nat)

  const START := World(map[], map[], map[], 0, [])

  /** The nonce was never drawn before and the cipher has not returned this box. */
  predicate Fresh(w: World, nonce: Bytes, box: Box, plaintext: Bytes) {
    && |nonce| == NONCE_BYTES && |box.iv| == IV_BYTES
    && box !in w.vault && box !in w.sealings && |box.ciphertext| == |plaintext| + TAG_BYTES
    && forall b :: b in w.sealings ==> w.sealings[b].envelope.n != Base64.Encode(true, nonce)
  }

  function Sealed(w: World, a: Action, ttl: nat): Option<World>
    requires a.SealAction?
  {
    match Prepare(a.principal, a.purpose, a.state, a.at, ttl, a.nonce)
    case Err(_) => Some(w)
    case Ok((aad, envelope)) =>
      var plaintext := Utf8.Encode(Text(envelope));
      if !Fresh(w, a.nonce, a.box, plaintext) then None
      else
        Some(w.(vault := w.vault[a.box := Secret(aad, plaintext)],
                sealings := w.sealings[a.box := Sealing(a.principal, a.purpose, envelope)]))
  }

  /** Clock readings passed to the replay store do not go back. */
  function Opened(w: World, a: Action, capacity: nat): Option<World>
    requires a.OpenAction?
  {
    if a.at < w.clock then None
    else
      var (answer, left) := Open(w.vault, w.store, capacity, a.token, a.principal, a.purpose, a.at);
      var tried := w.(store := left, clock := a.at);
      match (answer, ReadToken(a.token), Admit(w.vault, a.token, a.principal, a.purpose, a.at))
      case (Ok(_), Some(box), Ok(envelope)) => Some(tried.(openings := w.openings + [Opening(box, a.principal, a.purpose, envelope, a.at)]))
      case _ => Some(tried)
  }

  function Step(w: World, a: Action, s: Settings): Option<World> {
    if a.SealAction? then Sealed(w, a, s.ttl) else Opened(w, a, s.capacity)
  }

  function Run(w: World, actions: seq<Action>, s: Settings): Option<World>
    decreases |actions|
  {
    if actions == [] then Some(w)
    else
      match Step(w, actions[0], s)
      case None => None
      case Some(next) => Run(next, actions[1..], s)
  }

  // ----- what every run keeps -----

  /** A vault entry is the encryption of the sealing recorded under its box. */
  predicate SealingFits(box: Box, secret: Secret, sealing: Sealing) {
    && Bound(sealing.principal).Some? && Bound(sealing.purpose).Some?
    && Valid(sealing.envelope) && BoxShape(box)
    && secret == Secret(AdditionalData(Bound(sealing.principal).value, Bound(sealing.purpose).value), Utf8.Encode(Text(sealing.envelope)))
    && |box.ciphertext| == |secret.plaintext| + TAG_BYTES
  }

  predicate VaultFits(vault: Vault, sealings: map<Box, Sealing>) {
    && vault.Keys == sealings.Keys
    && (forall b {:trigger SealingFits(b, vault[b], sealings[b])} :: b in vault ==> SealingFits(b, vault[b], sealings[b]))
  }

  predicate NoncesDiffer(sealings: map<Box, Sealing>) {
    forall b, c :: b in sealings && c in sealings && b != c ==> sealings[b].envelope.n != sealings[c].envelope.n
  }

  /** An opening answers its own sealing, inside its lifetime. */
  predicate Answers(sealings: map<Box, Sealing>, o: Opening) {
    && o.box in sealings && sealings[o.box] == Sealing(o.principal, o.purpose, o.envelope)
    && o.envelope.iat <= o.at < o.envelope.exp
  }

  /** The nonce of an opened token stays in the store until the token expires. */
  predicate Remembered(store: Store, clock: int, o: Opening) {
    o.at <= clock && (clock < o.envelope.exp ==> o.envelope.n in store && store[o.envelope.n] == o.envelope.exp)
  }

  predicate OpeningsFit(w: World) {
    && (forall i :: 0 <= i < |w.openings| ==> Answers(w.sealings, w.openings[i]) && Remembered(w.store, w.clock, w.openings[i]))
    && (forall i, j :: 0 <= i < j < |w.openings| ==> w.openings[i].box != w.openings[j].box)
  }

  predicate Spent(openings: seq<Opening>, n: JsString) {
    exists i :: 0 <= i < |openings| && openings[i].envelope.n == n
  }

  predicate BoxOpened(openings: seq<Opening>, box: Box) {
    exists i :: 0 <= i < |openings| && openings[i].box == box
  }

  predicate StoreFits(store: Store, openings: seq<Opening>, capacity: nat) {
    |store| <= capacity && forall n {:trigger Spent(openings, n)} :: n in store ==> Spent(openings, n)
  }

  predicate Inv(w: World, capacity: nat) {
    && VaultFits(w.vault, w.sealings) && NoncesDiffer(w.sealings)
    && OpeningsFit(w) && StoreFits(w.store, w.openings, capacity)
  }

  /** What `open` answers for a sealed token, said by the sealing and not by the token. */
  function Verdict(sealing: Sealing, length: nat, principal: JsString, purpose: JsString, now: int): Result<Envelope, Reason> {
    if Bound(principal).None? || Bound(purpose).None? then Err(InvalidInput)
    else if length > MAX_TOKEN then Err(InvalidToken)
    else if principal != sealing.principal || purpose != sealing.purpose then Err(AuthenticationFailed)
    else Judge(sealing.envelope, now)
  }

  lemma SealedDecrypts(vault: Vault, sealings: map<Box, Sealing>, box: Box, principal: JsString, purpose: JsString)
    requires VaultFits(vault, sealings) && box in sealings
    requires Bound(principal).Some? && Bound(purpose).Some?
    ensures var sealing := sealings[box];
            Decrypt(vault, box, AdditionalData(Bound(principal).value, Bound(purpose).value)) ==
            if principal == sealing.principal && purpose == sealing.purpose then Some(Utf8.Encode(Text(sealing.envelope))) else None
  {
    hide Bound;
    hide AdditionalData;
    hide Valid;
    hide Text;
    hide Utf8.Encode;
    var sealing := sealings[box];
    assert SealingFits(box, vault[box], sealing);
    BindingsDetermined(principal, purpose, sealing.principal, sealing.purpose);
  }

  lemma SealedParses(vault: Vault, sealings: map<Box, Sealing>, box: Box)
    requires VaultFits(vault, sealings) && box in sealings
    ensures BoxShape(box) && |box.ciphertext| == |Utf8.Encode(Text(sealings[box].envelope))| + TAG_BYTES
    ensures Parse(Utf8.Encode(Text(sealings[box].envelope))) == Some(sealings[box].envelope)
  {
    assert SealingFits(box, vault[box], sealings[box]);
    ParseExact(Utf8.Encode(Text(sealings[box].envelope)), sealings[box].envelope);
    hide Parse;
    hide Valid;
    hide Text;
    hide Utf8.Encode;
    hide Bound;
    hide VaultFits;
  }

  lemma AdmitSealed(vault: Vault, sealings: map<Box, Sealing>, box: Box, principal: JsString, purpose: JsString, now: int)
    requires VaultFits(vault, sealings) && box in sealings
    ensures Admit(vault, Token(box), principal, purpose, now) == Verdict(sealings[box], |Token(box)|, principal, purpose, now)
  {
    hide *;
    SealedParses(vault, sealings, box);
    ReadTokenExact(Token(box), box);
    if |Token(box)| > MAX_TOKEN { TooLong(Token(box)); }
    if Bound(principal).Some? && Bound(purpose).Some? { SealedDecrypts(vault, sealings, box, principal, purpose); }
    AdmitByCases(vault, Token(box), principal, purpose, now, box, sealings[box]);
  }

  lemma AdmitByCases(vault: Vault, token: JsString, principal: JsString, purpose: JsString, now: int, box: Box, sealing: Sealing)
    requires ReadToken(token) == if |token| <= MAX_TOKEN then Some(box) else None
    requires Parse(Utf8.Encode(Text(sealing.envelope))) == Some(sealing.envelope)
    requires Bound(principal).Some? && Bound(purpose).Some? ==>
               Decrypt(vault, box, AdditionalData(Bound(principal).value, Bound(purpose).value)) ==
               if principal == sealing.principal && purpose == sealing.purpose then Some(Utf8.Encode(Text(sealing.envelope))) else None
    ensures Admit(vault, token, principal, purpose, now) == Verdict(sealing, |token|, principal, purpose, now)
  {
    hide ReadToken;
    hide Decrypt;
    hide AdditionalData;
    hide Bound;
    hide Parse;
    hide Utf8.Encode;
    hide Text;
    hide Judge;
  }

  lemma TooLong(token: JsString)
    requires |token| > MAX_TOKEN
    ensures ReadToken(token).None?
  {
  }

  /** Nothing but a sealed token is ever admitted, and only as what was sealed. */
  lemma AdmitOnlySealed(vault: Vault, sealings: map<Box, Sealing>, token: JsString, principal: JsString, purpose: JsString, now: int)
    requires VaultFits(vault, sealings) && Admit(vault, token, principal, purpose, now).Ok?
    ensures ReadToken(token).Some? && ReadToken(token).value in sealings && token == Token(ReadToken(token).value)
    ensures Verdict(sealings[ReadToken(token).value], |token|, principal, purpose, now) == Admit(vault, token, principal, purpose, now)
  {
    var box := ReadToken(token).value;
    ReadTokenExact(token, box);
    assert box in sealings by {
      hide Admit;
      hide ReadToken;
      AdmittedIsInVault(vault, token, principal, purpose, now);
      hide SealingFits;
    }
    AdmitSealed(vault, sealings, box, principal, purpose, now);
    hide *;
  }

  lemma AdmittedIsInVault(vault: Vault, token: JsString, principal: JsString, purpose: JsString, now: int)
    requires Admit(vault, token, principal, purpose, now).Ok?
    ensures ReadToken(token).Some? && ReadToken(token).value in vault
  {
    hide ReadToken;
    hide Parse;
    hide Bound;
    hide AdditionalData;
  }

  lemma SealKeeps(w: World, a: Action, s: Settings)
    requires Inv(w, s.capacity) && a.SealAction? && Sealed(w, a, s.ttl).Some? && 1 <= s.ttl
    ensures Inv(Sealed(w, a, s.ttl).value, s.capacity)
  {
    var prepared := Prepare(a.principal, a.purpose, a.state, a.at, s.ttl, a.nonce);
    if prepared.Ok? {
      PreparedFits(w, a, s.ttl);
      hide SealingFits;
      hide Prepare;
      hide Fresh;
      hide Inv;
      hide Text;
      hide Utf8.Encode;
      NewSealing(w, a.box, Secret(prepared.value.0, Utf8.Encode(Text(prepared.value.1))), Sealing(a.principal, a.purpose, prepared.value.1), s.capacity);
    }
  }

  lemma PreparedFits(w: World, a: Action, ttl: nat)
    requires a.SealAction? && 1 <= ttl && Prepare(a.principal, a.purpose, a.state, a.at, ttl, a.nonce).Ok?
    requires Sealed(w, a, ttl).Some?
    ensures var (aad, envelope) := Prepare(a.principal, a.purpose, a.state, a.at, ttl, a.nonce).value;
            && SealingFits(a.box, Secret(aad, Utf8.Encode(Text(envelope))), Sealing(a.principal, a.purpose, envelope))
            && a.box !in w.vault && a.box !in w.sealings
            && forall b :: b in w.sealings ==> w.sealings[b].envelope.n != envelope.n
  {
    var envelope := Prepare(a.principal, a.purpose, a.state, a.at, ttl, a.nonce).value.1;
    Base64.DecodeInvertsEncode(true, a.nonce);
    TextNotEmpty(envelope);
    hide Text;
    hide Utf8.Encode;
    hide Base64.Encode;
    hide Base64.Decode;
    hide Bound;
    hide AdditionalData;
  }

  lemma TextNotEmpty(e: Envelope)
    ensures |Utf8.Encode(Text(e))| > 0
  {
    assert Text(e)[0] == 123;
  }

  lemma NewSealing(w: World, box: Box, secret: Secret, sealing: Sealing, capacity: nat)
    requires Inv(w, capacity) && SealingFits(box, secret, sealing)
    requires box !in w.vault && box !in w.sealings
    requires forall b :: b in w.sealings ==> w.sealings[b].envelope.n != sealing.envelope.n
    ensures Inv(w.(vault := w.vault[box := secret], sealings := w.sealings[box := sealing]), capacity)
  {
    hide SealingFits;
    hide Answers;
    hide Remembered;
    hide StoreFits;
    VaultGrows(w.vault, w.sealings, box, secret, sealing);
    hide VaultFits;
    hide NoncesDiffer;
    forall i | 0 <= i < |w.openings| ensures Answers(w.sealings[box := sealing], w.openings[i]) {
      AnswersStill(w.sealings, w.openings[i], box, sealing);
    }
  }

  lemma VaultGrows(vault: Vault, sealings: map<Box, Sealing>, box: Box, secret: Secret, sealing: Sealing)
    requires VaultFits(vault, sealings) && NoncesDiffer(sealings) && SealingFits(box, secret, sealing)
    requires forall b :: b in sealings ==> sealings[b].envelope.n != sealing.envelope.n
    ensures VaultFits(vault[box := secret], sealings[box := sealing]) && NoncesDiffer(sealings[box := sealing])
  {
    hide SealingFits;
  }

  lemma AnswersStill(sealings: map<Box, Sealing>, o: Opening, box: Box, sealing: Sealing)
    requires Answers(sealings, o) && box !in sealings
    ensures Answers(sealings[box := sealing], o)
  {
  }

  /** The store at a later instant: what has not expired is still there. */
  lemma StoreAges(w: World, at: int, capacity: nat)
    requires Inv(w, capacity) && w.clock <= at
    ensures Inv(w.(store := Live(w.store, at), clock := at), capacity)
  {
    LiveIsNoLarger(w.store, at);
    forall i | 0 <= i < |w.openings| ensures Remembered(Live(w.store, at), at, w.openings[i]) {
      assert Remembered(w.store, w.clock, w.openings[i]);
    }
    hide VaultFits;
    hide NoncesDiffer;
    hide Answers;
    hide Remembered;
    hide Spent;
  }

  /** An `open` that failed before the store leaves the entries and only moves the clock. */
  lemma ClockMoves(w: World, at: int, capacity: nat)
    requires Inv(w, capacity) && w.clock <= at
    ensures Inv(w.(clock := at), capacity)
  {
    forall i | 0 <= i < |w.openings| ensures Remembered(w.store, at, w.openings[i]) {
      assert Remembered(w.store, w.clock, w.openings[i]);
    }
    hide VaultFits;
    hide NoncesDiffer;
    hide Answers;
    hide Remembered;
    hide StoreFits;
  }

  /** A live sealing's nonce is in the store exactly when its token was opened. */
  lemma ConsumedExactly(w: World, box: Box, at: int, capacity: nat)
    requires Inv(w, capacity) && box in w.sealings && w.clock <= at < w.sealings[box].envelope.exp
    ensures w.sealings[box].envelope.n in Live(w.store, at) <==> BoxOpened(w.openings, box)
  {
    hide VaultFits;
    var n := w.sealings[box].envelope.n;
    if BoxOpened(w.openings, box) {
      var i :| 0 <= i < |w.openings| && w.openings[i].box == box;
      assert Answers(w.sealings, w.openings[i]) && Remembered(w.store, w.clock, w.openings[i]);
    }
    if n in Live(w.store, at) {
      assert Spent(w.openings, n);
      var i :| 0 <= i < |w.openings| && w.openings[i].envelope.n == n;
      assert Answers(w.sealings, w.openings[i]);
      assert w.openings[i].box == box;
    }
  }

  lemma OpenKeeps(w: World, a: Action, s: Settings)
    requires Inv(w, s.capacity) && a.OpenAction? && Opened(w, a, s.capacity).Some?
    ensures Inv(Opened(w, a, s.capacity).value, s.capacity)
  {
    InvVault(w, s.capacity);
    hide *;
    var admitted := Admit(w.vault, a.token, a.principal, a.purpose, a.at);
    OpenedByCases(w, a, s.capacity);
    if admitted.Err? {
      ClockMoves(w, a.at, s.capacity);
    } else {
      StoreAges(w, a.at, s.capacity);
      AdmittedAnswers(w.vault, w.sealings, a.token, a.principal, a.purpose, a.at);
      if admitted.value.n !in Live(w.store, a.at) && |Live(w.store, a.at)| < s.capacity {
        NewOpening(w, Opening(ReadToken(a.token).value, a.principal, a.purpose, admitted.value, a.at), s.capacity);
      }
    }
  }

  /** The three ways an `open` changes the world. */
  lemma OpenedByCases(w: World, a: Action, capacity: nat)
    requires a.OpenAction? && Opened(w, a, capacity).Some?
    ensures w.clock <= a.at
    ensures var admitted := Admit(w.vault, a.token, a.principal, a.purpose, a.at);
            var live := Live(w.store, a.at);
            && (admitted.Err? ==> Opened(w, a, capacity).value == w.(clock := a.at))
            && (admitted.Ok? ==> ReadToken(a.token).Some?)
            && (admitted.Ok? && (admitted.value.n in live || |live| >= capacity) ==> Opened(w, a, capacity).value == w.(store := live, clock := a.at))
            && (admitted.Ok? && admitted.value.n !in live && |live| < capacity ==>
                  Opened(w, a, capacity).value ==
                  w.(store := live[admitted.value.n := admitted.value.exp], clock := a.at,
                     openings := w.openings + [Opening(ReadToken(a.token).value, a.principal, a.purpose, admitted.value, a.at)]))
  {
    if Admit(w.vault, a.token, a.principal, a.purpose, a.at).Ok? {
      AdmittedIsInVault(w.vault, a.token, a.principal, a.purpose, a.at);
    }
    hide Admit;
    hide ReadToken;
    hide Live;
  }

  lemma AdmittedAnswers(vault: Vault, sealings: map<Box, Sealing>, token: JsString, principal: JsString, purpose: JsString, now: int)
    requires VaultFits(vault, sealings) && Admit(vault, token, principal, purpose, now).Ok?
    ensures ReadToken(token).Some?
    ensures Answers(sealings, Opening(ReadToken(token).value, principal, purpose, Admit(vault, token, principal, purpose, now).value, now))
  {
    AdmitOnlySealed(vault, sealings, token, principal, purpose, now);
    VerdictOk(sealings[ReadToken(token).value], |token|, principal, purpose, now);
    hide VaultFits;
    hide Admit;
    hide ReadToken;
    hide Verdict;
    hide Token;
  }

  lemma VerdictOk(sealing: Sealing, length: nat, principal: JsString, purpose: JsString, now: int)
    requires Verdict(sealing, length, principal, purpose, now).Ok?
    ensures sealing == Sealing(principal, purpose, Verdict(sealing, length, principal, purpose, now).value)
    ensures sealing.envelope.iat <= now < sealing.envelope.exp
  {
  }

  lemma InvVault(w: World, capacity: nat)
    requires Inv(w, capacity)
    ensures VaultFits(w.vault, w.sealings)
  {
  }

  /** Consuming a live nonce for the first time. */
  lemma NewOpening(w: World, o: Opening, capacity: nat)
    requires Inv(w, capacity) && Answers(w.sealings, o) && w.clock <= o.at
    requires o.envelope.n !in Live(w.store, o.at) && |Live(w.store, o.at)| < capacity
    ensures Inv(w.(store := Live(w.store, o.at)[o.envelope.n := o.envelope.exp], clock := o.at, openings := w.openings + [o]), capacity)
  {
    hide VaultFits;
    hide NoncesDiffer;
    hide Spent;
    hide Live;
    StoreAges(w, o.at, capacity);
    assert !BoxOpened(w.openings, o.box) by {
      AnswerBox(w.sealings, o);
      ConsumedExactly(w, o.box, o.at, capacity);
    }
    var live := Live(w.store, o.at);
    StoreGrows(live, w.openings, o, capacity);
    hide StoreFits;
    OpeningsGrow(w.(store := live, clock := o.at), o);
    hide OpeningsFit;
  }

  lemma AnswerBox(sealings: map<Box, Sealing>, o: Opening)
    requires Answers(sealings, o)
    ensures o.box in sealings && sealings[o.box].envelope == o.envelope && o.at < o.envelope.exp
  {
  }

  lemma StoreGrows(store: Store, openings: seq<Opening>, o: Opening, capacity: nat)
    requires StoreFits(store, openings, capacity) && |store| < capacity
    ensures StoreFits(store[o.envelope.n := o.envelope.exp], openings + [o], capacity)
  {
    var grown := openings + [o];
    forall n | n in store[o.envelope.n := o.envelope.exp] ensures Spent(grown, n) {
      if n == o.envelope.n {
        assert grown[|openings|] == o;
      } else {
        assert Spent(openings, n);
        var i :| 0 <= i < |openings| && openings[i].envelope.n == n;
        assert grown[i] == openings[i];
      }
    }
  }

  lemma OpeningsGrow(w: World, o: Opening)
    requires OpeningsFit(w) && Answers(w.sealings, o) && !BoxOpened(w.openings, o.box) && w.clock == o.at
    requires o.envelope.n !in w.store
    ensures OpeningsFit(w.(store := w.store[o.envelope.n := o.envelope.exp], openings := w.openings + [o]))
  {
    var grown := w.(store := w.store[o.envelope.n := o.envelope.exp], openings := w.openings + [o]);
    forall i | 0 <= i < |grown.openings| ensures Answers(w.sealings, grown.openings[i]) && Remembered(grown.store, o.at, grown.openings[i]) {
      if i < |w.openings| { assert Remembered(w.store, o.at, w.openings[i]); }
    }
    hide Answers;
    hide Remembered;
  }

  lemma {:induction false} RunInv(w: World, actions: seq<Action>, s: Settings)
    requires Inv(w, s.capacity) && 1 <= s.ttl && Run(w, actions, s).Some?
    ensures Inv(Run(w, actions, s).value, s.capacity)
    decreases |actions|
  {
    hide Inv;
    hide Sealed;
    hide Opened;
    if actions != [] {
      if actions[0].SealAction? { SealKeeps(w, actions[0], s); } else { OpenKeeps(w, actions[0], s); }
      RunInv(Step(w, actions[0], s).value, actions[1..], s);
    }
  }

  lemma StartInv(capacity: nat)
    ensures Inv(START, capacity)
  {
  }

  /**
   In every run each token opens at most once, for the principal and purpose it was
   sealed for, as the envelope that was sealed, inside its lifetime; the store stays
   within capacity.
   */
  lemma EachTokenOpensOnce(actions: seq<Action>, s: Settings)
    requires 1 <= s.ttl && Run(START, actions, s).Some?
    ensures var w := Run(START, actions, s).value;
            && |w.store| <= s.capacity
            && (forall i, j :: 0 <= i < j < |w.openings| ==> Token(w.openings[i].box) != Token(w.openings[j].box))
            && (forall i :: 0 <= i < |w.openings| ==> Answers(w.sealings, w.openings[i]))
  {
    StartInv(s.capacity);
    RunInv(START, actions, s);
    var w := Run(START, actions, s).value;
    hide Run;
    hide Token;
    hide VaultFits;
    forall i, j | 0 <= i < j < |w.openings| ensures Token(w.openings[i].box) != Token(w.openings[j].box) {
      var b, c := w.openings[i].box, w.openings[j].box;
      assert Answers(w.sealings, w.openings[i]) && Answers(w.sealings, w.openings[j]);
      SealedShape(w.vault, w.sealings, b);
      SealedShape(w.vault, w.sealings, c);
      if Token(b) == Token(c) { TokensDiffer(b, c); }
    }
  }

  lemma SealedShape(vault: Vault, sealings: map<Box, Sealing>, box: Box)
    requires VaultFits(vault, sealings) && box in sealings
    ensures BoxShape(box)
  {
    assert SealingFits(box, vault[box], sealings[box]);
  }

  lemma TokensDiffer(b: Box, c: Box)
    requires BoxShape(b) && BoxShape(c) && Token(b) == Token(c)
    ensures b == c
  {
    var x, y := [VERSION] + b.iv + b.ciphertext, [VERSION] + c.iv + c.ciphertext;
    Base64.DecodeInvertsEncode(true, x);
    Base64.DecodeInvertsEncode(true, y);
    hide Base64.Encode;
    hide Base64.Decode;
    assert x == y;
    assert x[1..13] == b.iv && y[1..13] == c.iv && x[13..] == b.ciphertext && y[13..] == c.ciphertext;
  }

  /** After any run, what `open` answers for a sealed token, at an instant the clock allows. */
  lemma OpenExact(actions: seq<Action>, s: Settings, box: Box, principal: JsString, purpose: JsString, now: int)
    requires 1 <= s.ttl && Run(START, actions, s).Some?
    requires box in Run(START, actions, s).value.sealings && Run(START, actions, s).value.clock <= now
    ensures var w := Run(START, actions, s).value;
            var verdict := Verdict(w.sealings[box], |Token(box)|, principal, purpose, now);
            Open(w.vault, w.store, s.capacity, Token(box), principal, purpose, now).0 ==
            if verdict.Err? then Err(verdict.error)
            else if BoxOpened(w.openings, box) then Err(Replay)
            else if |Live(w.store, now)| >= s.capacity then Err(ReplayStoreFull)
            else Ok(w.sealings[box].envelope.state)
  {
    StartInv(s.capacity);
    RunInv(START, actions, s);
    var w := Run(START, actions, s).value;
    hide Run;
    InvVault(w, s.capacity);
    AdmitSealed(w.vault, w.sealings, box, principal, purpose, now);
    hide Inv;
    hide VaultFits;
    hide Admit;
    hide Token;
    hide Live;
    hide BoxOpened;
    if Verdict(w.sealings[box], |Token(box)|, principal, purpose, now).Ok? {
      VerdictOk(w.sealings[box], |Token(box)|, principal, purpose, now);
      ConsumedExactly(w, box, now, s.capacity);
    }
    hide Verdict;
  }

  /** After any run, a text that is no sealing's token opens for nobody. */
  lemma OnlySealedTokensOpen(actions: seq<Action>, s: Settings, token: JsString, principal: JsString, purpose: JsString, now: int)
    requires 1 <= s.ttl && Run(START, actions, s).Some?
    requires forall box :: box in Run(START, actions, s).value.sealings ==> Token(box) != token
    ensures var w := Run(START, actions, s).value;
            Open(w.vault, w.store, s.capacity, token, principal, purpose, now).0.Err?
  {
    StartInv(s.capacity);
    RunInv(START, actions, s);
    var w := Run(START, actions, s).value;
    InvVault(w, s.capacity);
    hide Inv;
    hide Run;
    hide Admit;
    hide VaultFits;
    hide Token;
    if Admit(w.vault, token, principal, purpose, now).Ok? {
      AdmitOnlySealed(w.vault, w.sealings, token, principal, purpose, now);
    }
  }

  // ----- which states fit in a token -----

  /** The token of a sealing is short enough exactly when the envelope takes at most 12259 bytes. */
  lemma TokenFitsExactly(box: Box)
    requires BoxShape(box)
    ensures |Token(box)| <= MAX_TOKEN <==> |box.ciphertext| - TAG_BYTES <= MAX_ENVELOPE_BYTES
  {
    Base64.EncodedShape(true, [VERSION] + box.iv + box.ciphertext);
    hide Base64.Encode;
  }

  /** How many bytes the printed envelope may take. */
  const MAX_ENVELOPE_BYTES := 12_259

  /**
   `open` undoes `seal`. After any run, for the same principal and purpose, inside the
   lifetime, with the token unused and room in the store: the sealed state comes back if
   and only if the printed envelope takes at most 12259 bytes; otherwise the token is invalid.
   */
  lemma OpenUndoesSeal(actions: seq<Action>, s: Settings, box: Box, now: int)
    requires 1 <= s.ttl && Run(START, actions, s).Some? && box in Run(START, actions, s).value.sealings
    requires var w := Run(START, actions, s).value;
             && w.clock <= now && w.sealings[box].envelope.iat <= now < w.sealings[box].envelope.exp
             && !BoxOpened(w.openings, box) && |Live(w.store, now)| < s.capacity
    ensures var w := Run(START, actions, s).value;
            var sealing := w.sealings[box];
            Open(w.vault, w.store, s.capacity, Token(box), sealing.principal, sealing.purpose, now).0 ==
            if |Utf8.Encode(Text(sealing.envelope))| <= MAX_ENVELOPE_BYTES then Ok(sealing.envelope.state) else Err(InvalidToken)
  {
    hide *;
    var w := Run(START, actions, s).value;
    StartInv(s.capacity);
    RunInv(START, actions, s);
    InvVault(w, s.capacity);
    OpenExact(actions, s, box, w.sealings[box].principal, w.sealings[box].purpose, now);
    SealedParses(w.vault, w.sealings, box);
    TokenFitsExactly(box);
    OwnVerdict(w.vault, w.sealings, box, now);
  }

  lemma OwnVerdict(vault: Vault, sealings: map<Box, Sealing>, box: Box, now: int)
    requires VaultFits(vault, sealings) && box in sealings && sealings[box].envelope.iat <= now < sealings[box].envelope.exp
    ensures var sealing := sealings[box];
            Verdict(sealing, |Token(box)|, sealing.principal, sealing.purpose, now) ==
            if |Token(box)| > MAX_TOKEN then Err(InvalidToken) else Ok(sealing.envelope)
  {
    hide Token;
    hide NonceText;
    hide StateAllowed;
    assert SealingFits(box, vault[box], sealings[box]);
  }

  lemma {:induction false} RunSnoc(w: World, actions: seq<Action>, a: Action, s: Settings)
    ensures Run(w, actions + [a], s) == (match Run(w, actions, s) case None => None case Some(next) => Step(next, a, s))
    decreases |actions|
  {
    hide Step;
    if actions == [] {
      assert [] + [a] == [a] && [a][1..] == [];
    } else {
      assert (actions + [a])[0] == actions[0] && (actions + [a])[1..] == actions[1..] + [a];
      if Step(w, actions[0], s).Some? { RunSnoc(Step(w, actions[0], s).value, actions[1..], a, s); }
    }
  }

  /** A token just sealed was never opened. */
  lemma JustSealedIsUnused(w: World, box: Box, capacity: nat)
    requires Inv(w, capacity) && box !in w.sealings
    ensures !BoxOpened(w.openings, box)
  {
    hide VaultFits;
    forall i | 0 <= i < |w.openings| ensures w.openings[i].box != box {
      assert Answers(w.sealings, w.openings[i]);
    }
  }

  /** The envelope `seal` makes of its input, its clock, its lifetime and its nonce. */
  function SealedEnvelope(a: Action, ttl: nat): Envelope
    requires a.SealAction? && a.at >= 0
  {
    Envelope(a.at, a.at + ttl, Base64.Encode(true, a.nonce), a.state)
  }

  lemma SealStep(w: World, a: Action, s: Settings)
    requires a.SealAction? && Prepare(a.principal, a.purpose, a.state, a.at, s.ttl, a.nonce).Ok? && Step(w, a, s).Some?
    ensures a.at >= 0 && a.box !in w.sealings
    ensures var t := Step(w, a, s).value;
            t.clock == w.clock && t.store == w.store && t.openings == w.openings
            && a.box in t.sealings && t.sealings[a.box] == Sealing(a.principal, a.purpose, SealedEnvelope(a, s.ttl))
  {
    hide Text;
    hide Utf8.Encode;
    hide Base64.Encode;
    hide Bound;
    hide AdditionalData;
    hide StateAllowed;
  }

  /** After any run and one successful `seal`, its own token opens as the state sealed exactly when the envelope fits. */
  lemma SealThenOpen(actions: seq<Action>, s: Settings, a: Action, now: int)
    requires 1 <= s.ttl && a.SealAction? && Prepare(a.principal, a.purpose, a.state, a.at, s.ttl, a.nonce).Ok?
    requires Run(START, actions + [a], s).Some?
    requires var w := Run(START, actions + [a], s).value;
             w.clock <= now && a.at <= now < a.at + s.ttl && |Live(w.store, now)| < s.capacity
    ensures a.at >= 0
    ensures var w := Run(START, actions + [a], s).value;
            Open(w.vault, w.store, s.capacity, Token(a.box), a.principal, a.purpose, now).0 ==
            if |Utf8.Encode(Text(SealedEnvelope(a, s.ttl)))| <= MAX_ENVELOPE_BYTES then Ok(a.state) else Err(InvalidToken)
  {
    RunSnoc(START, actions, a, s);
    var w := Run(START, actions, s).value;
    SealStep(w, a, s);
    StartInv(s.capacity);
    RunInv(START, actions, s);
    JustSealedIsUnused(w, a.box, s.capacity);
    hide Run;
    hide Prepare;
    hide Step;
    hide Inv;
    hide Live;
    hide BoxOpened;
    hide Open;
    hide Token;
    hide Text;
    hide Utf8.Encode;
    OpenUndoesSeal(actions + [a], s, a.box, now);
  }

  /** `n` copies of U+0001. */
  function Ones(n: nat): (s: JsString)
    ensures |s| == n
  {
    if n == 0 then [] else [1] + Ones(n - 1)
  }

  lemma {:induction false} OnesSizes(n: nat)
    ensures Utf8.WellFormed(Ones(n)) && |Utf8.Encode(Ones(n))| == n
    ensures |JsonText.Escape(Ones(n))| == 6 * n
  {
    if n > 0 {
      OnesSizes(n - 1);
      TailOfCons<CodeUnit>(1, Ones(n - 1));
      assert !JsonText.StartsWithPair(Ones(n));
      assert |JsonText.EscapeUnit(1)| == 6;
    }
  }

  lemma {:induction false} EncodeNoShorter(s: JsString)
    ensures |Utf8.Encode(s)| >= |s|
    decreases |s|
  {
    if s == [] {
    } else if JsonText.StartsWithPair(s) {
      EncodeNoShorter(s[2..]);
    } else {
      EncodeNoShorter(s[1..]);
    }
  }

  /** The escaped state is part of the plaintext. */
  lemma PlaintextHoldsState(e: Envelope)
    ensures |Utf8.Encode(Text(e))| >= |JsonText.Escape(e.state)|
  {
    EncodeNoShorter(Text(e));
    hide Utf8.Encode;
    hide JsonText.Escape;
  }

  lemma OnesAllowed()
    ensures StateAllowed(Ones(MAX_STATE_BYTES))
  {
    OnesSizes(MAX_STATE_BYTES);
    hide Ones;
  }

  lemma OnesOutgrow(ttl: nat)
    ensures |Utf8.Encode(Text(SealedEnvelope(OnesSeal(ttl), ttl)))| > MAX_ENVELOPE_BYTES
  {
    var e := SealedEnvelope(OnesSeal(ttl), ttl);
    assert e.state == Ones(MAX_STATE_BYTES);
    hide Ones;
    hide Text;
    hide Utf8.Encode;
    hide JsonText.Escape;
    hide OnesSeal;
    OnesSizes(MAX_STATE_BYTES);
    PlaintextHoldsState(e);
  }

  /** A sealing of the longest run of U+0001: principal `p`, purpose `q`, at instant 0, with one cipher output of the right length. */
  function OnesSeal(ttl: nat): Action {
    var nonce: Bytes := seq(NONCE_BYTES, _ => 0);
    var envelope := Envelope(0, ttl, Base64.Encode(true, nonce), Ones(MAX_STATE_BYTES));
    var ciphertext: Bytes := seq(|Utf8.Encode(Text(envelope))| + TAG_BYTES, _ => 0);
    SealAction(Ascii("p"), Ascii("q"), Ones(MAX_STATE_BYTES), 0, nonce, Box(seq(IV_BYTES, _ => 0), ciphertext))
  }

  lemma OneLetterBinds(s: JsString)
    requires |s| == 1 && s[0] < 0x80
    ensures Bound(s).Some?
  {
    assert s[1..] == [];
    assert Utf8.Encode(s) == Utf8.EncodeScalar(s[0]) + Utf8.Encode([]);
    assert Utf8.WellFormed([]) && Utf8.WellFormed(s);
  }

  lemma OnesSealRuns(s: Settings)
    requires 1 <= s.ttl <= MAX_SAFE
    ensures var a := OnesSeal(s.ttl);
            && Prepare(a.principal, a.purpose, a.state, a.at, s.ttl, a.nonce).Ok?
            && Run(START, [a], s).Some? && Run(START, [a], s).value.store == map[] && Run(START, [a], s).value.clock == 0
  {
    var a := OnesSeal(s.ttl);
    OnesAllowed();
    OneLetterBinds(a.principal);
    OneLetterBinds(a.purpose);
    hide Ones;
    hide Text;
    hide Utf8.Encode;
    hide Bound;
    hide AdditionalData;
    hide Base64.Encode;
    hide StateAllowed;
    assert [a][1..] == [];
    assert Step(START, a, s).Some?;
    SealStep(START, a, s);
    hide Step;
    hide Prepare;
  }

  /** A state within the byte limit that `seal` accepts and whose token `open` never does: its escapes outgrow the token. */
  lemma EscapesOutgrowTheToken(s: Settings, now: int)
    requires 1 <= s.ttl <= MAX_SAFE && s.capacity >= 1 && 0 <= now < s.ttl
    ensures var a := OnesSeal(s.ttl);
            && Prepare(a.principal, a.purpose, a.state, a.at, s.ttl, a.nonce).Ok? && Run(START, [a], s).Some?
            && var w := Run(START, [a], s).value;
               Open(w.vault, w.store, s.capacity, Token(a.box), a.principal, a.purpose, now).0 == Err(InvalidToken)
  {
    var a := OnesSeal(s.ttl);
    OnesSealRuns(s);
    assert [] + [a] == [a];
    OnesOutgrow(s.ttl);
    assert a.SealAction? && a.at == 0;
    hide OnesSeal;
    hide Run;
    hide Prepare;
    hide Token;
    hide Text;
    hide Utf8.Encode;
    var w := Run(START, [a], s).value;
    assert |Live(w.store, now)| == 0;
    SealThenOpen([], s, a, now);
    assert Run(START, [] + [a], s) == Run(START, [a], s);
    hide Open;
  }
}
