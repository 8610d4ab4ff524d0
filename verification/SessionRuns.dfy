/**
 Runs of one session: any interleaving of encryptions and decryptions, with any headers and ciphertexts at all. A
 peer is a session together with a ledger of what it sent, accepted and tried.
 */
module SessionRuns {
  import opened Wrappers
  import opened SymbolicCrypto
  import opened MessageHeader
  import opened SessionSpec
  import opened SkipLimits
  import opened KeyDiscipline

  /** `turn` counts the ratchet keys the sender had drawn before the one in the header. */
  datatype Sent = Sent(header: Header, encrypted: Encrypted, plaintext: Plaintext, key: Bytes, turn: nat)

  datatype Accepted = Accepted(header: Header, encrypted: Encrypted, plaintext: Plaintext, key: Bytes)

  datatype Peer = Peer(
    state: State,
    sent: seq<Sent>,
    accepted: seq<Accepted>,
    used: seq<Bytes>,          // message keys encrypted with or tried, in order
    own: seq<PublicKey>,       // the session's ratchet keys, in order
    limitErrors: nat)

  datatype Call =
    | Encrypt(plaintext: Plaintext, nonce: nat)
    | Decrypt(header: Header, encrypted: Encrypted, drawn: Secret)

  function NewAlice(secret: Bytes, bobSpk: PublicKey, drawn: Secret): Peer {
    Peer(InitAlice(secret, bobSpk, drawn), [], [], [], [drawn.public], 0)
  }

  function NewBob(secret: Bytes, spk: SignedPreKey): Peer {
    Peer(InitBob(secret, spk), [], [], [], [spk.public], 0)
  }

  ghost predicate IsNew(secret: Bytes, p: Peer) {
    || (exists bobSpk, drawn :: p == NewAlice(secret, bobSpk, drawn))
    || (exists spk :: p == NewBob(secret, spk))
  }

  function ActEncrypt(p: Peer, plaintext: Plaintext, nonce: nat): Peer
    requires |p.own| > 0
  {
    var e := EncryptStep(p.state, plaintext, nonce);
    match e.outcome
    case Err(_) => p.(state := e.state)
    case Ok((header, encrypted)) =>
      var key := encrypted.ciphertext.key;
      p.(state := e.state,
         sent := p.sent + [Sent(header, encrypted, plaintext, key, |p.own| - 1)],
         used := p.used + [key])
  }

  function ActDecrypt(p: Peer, header: Header, encrypted: Encrypted, drawn: Secret): Peer {
    var d := DecryptStep(p.state, header, encrypted, drawn);
    p.(state := d.state,
       accepted := if d.outcome.Ok?
                   then p.accepted + [Accepted(header, encrypted, d.outcome.value, d.tried.value)]
                   else p.accepted,
       used := WithTried(p.used, d.tried),
       own := if d.ratcheted then p.own + [drawn.public] else p.own,
       limitErrors := if d.outcome == Err(SkipLimit) then p.limitErrors + 1 else p.limitErrors)
  }

  /** What a decryption leaves of the sending side's ledger. */
  lemma DecryptLedger(p: Peer, header: Header, encrypted: Encrypted, drawn: Secret)
    ensures var p' := ActDecrypt(p, header, encrypted, drawn);
            var d := DecryptStep(p.state, header, encrypted, drawn);
            && p'.sent == p.sent && p'.state == d.state
            && p'.own == (if d.ratcheted then p.own + [drawn.public] else p.own)
            && (!d.outcome.Ok? ==> p'.accepted == p.accepted)
  {
  }

  function Act(p: Peer, call: Call): (p': Peer)
    requires |p.own| > 0
    ensures |p'.own| > 0 && p.own <= p'.own
  {
    match call
    case Encrypt(plaintext, nonce) => ActEncrypt(p, plaintext, nonce)
    case Decrypt(header, encrypted, drawn) => ActDecrypt(p, header, encrypted, drawn)
  }

  function Play(p: Peer, calls: seq<Call>): (p': Peer)
    requires |p.own| > 0
    ensures |p'.own| > 0
    decreases |calls|
  {
    if calls == [] then p else Act(Play(p, calls[..|calls| - 1]), calls[|calls| - 1])
  }

  // ---------- The key discipline over runs ----------

  /** The ledger agrees with the keys used: what was sent and what was accepted took a different key each time. */
  ghost predicate LedgerSound(p: Peer) {
    && (forall i :: 0 <= i < |p.sent| ==>
          var m := p.sent[i];
          && m.key in p.used
          && m.encrypted.ciphertext == Sealed(m.key, m.encrypted.nonce, m.plaintext, ToBytes(m.header)))
    && (forall i :: 0 <= i < |p.accepted| ==>
          var m := p.accepted[i];
          && m.key in p.used
          && m.encrypted.ciphertext == Sealed(m.key, m.encrypted.nonce, m.plaintext, ToBytes(m.header)))
    && (forall i, j :: 0 <= i < j < |p.sent| ==> p.sent[i].key != p.sent[j].key)
    && (forall i, j :: 0 <= i < j < |p.accepted| ==> p.accepted[i].key != p.accepted[j].key)
    && (forall i, j :: 0 <= i < |p.sent| && 0 <= j < |p.accepted| ==> p.sent[i].key != p.accepted[j].key)
  }

  ghost predicate Sound(secret: Bytes, p: Peer) {
    Disciplined(secret, p.state, p.used) && LedgerSound(p)
  }

  lemma NewPeersSound(secret: Bytes, p: Peer)
    requires IsNew(secret, p)
    ensures |p.own| == 1 && Sound(secret, p)
  {
    if spk :| p == NewBob(secret, spk) {
      NewSessionsDisciplined(secret, spk.public, spk, spk.secret);
    } else {
      var bobSpk, drawn :| p == NewAlice(secret, bobSpk, drawn);
      NewSessionsDisciplined(secret, bobSpk, SignedPreKey(drawn, bobSpk), drawn);
    }
  }

  lemma EncryptKeepsSound(secret: Bytes, p: Peer, plaintext: Plaintext, nonce: nat)
    requires |p.own| > 0 && Sound(secret, p)
    ensures Sound(secret, ActEncrypt(p, plaintext, nonce))
  {
    if p.state.sendingChain.Some? {
      NextKeyIsNew(secret, p.state, p.used, p.state.sendingChain.value);
      SendKeeps(secret, p.state, p.used);
    }
  }

  /** A key that is new to the ledger can be tried, and if it opened something, that can be accepted. */
  lemma TriedKeepsLedger(p: Peer, p': Peer, key: Bytes)
    requires LedgerSound(p) && key !in p.used
    requires p'.sent == p.sent && p'.used == p.used + [key]
    requires p'.accepted == p.accepted
          || exists m: Accepted ::
               && p'.accepted == p.accepted + [m] && m.key == key
               && m.encrypted.ciphertext == Sealed(key, m.encrypted.nonce, m.plaintext, ToBytes(m.header))
    ensures LedgerSound(p')
  {
  }

  lemma DecryptTries(s: State, h: Header, encrypted: Encrypted, drawn: Secret)
    ensures var d := DecryptStep(s, h, encrypted, drawn);
            d.outcome.Ok? ==> d.tried.Some? && Open(d.tried.value, encrypted, ToBytes(h)) == d.outcome
  {
    if Id(h) !in s.skippedKeys && NeedsRatchet(s, h) {
      SkipCurrentGrows(s, h.previousChainLength);
    }
  }

  lemma ResultKeepsSound(
    secret: Bytes, p: Peer, h: Header, encrypted: Encrypted, drawn: Secret, d: DecryptResult)
    requires LedgerSound(p) && d == DecryptStep(p.state, h, encrypted, drawn)
    requires Disciplined(secret, d.state, WithTried(p.used, d.tried))
    requires d.outcome.Ok? ==> d.tried.Some? && Open(d.tried.value, encrypted, ToBytes(h)) == d.outcome
    ensures LedgerSound(ActDecrypt(p, h, encrypted, drawn))
  {
    if d.tried.Some? {
      var used' := WithTried(p.used, d.tried);
      assert used'[|p.used|] == d.tried.value && forall i :: 0 <= i < |p.used| ==> used'[i] == p.used[i];
      assert d.tried.value !in p.used;
      TriedKeepsLedger(p, ActDecrypt(p, h, encrypted, drawn), d.tried.value);
    }
  }

  lemma DecryptKeepsSound(secret: Bytes, p: Peer, h: Header, encrypted: Encrypted, drawn: Secret)
    requires Sound(secret, p)
    ensures Sound(secret, ActDecrypt(p, h, encrypted, drawn))
  {
    DecryptKeeps(secret, p.state, p.used, h, encrypted, drawn);
    DecryptTries(p.state, h, encrypted, drawn);
    ResultKeepsSound(secret, p, h, encrypted, drawn, DecryptStep(p.state, h, encrypted, drawn));
  }

  lemma ActKeepsSound(secret: Bytes, p: Peer, call: Call)
    requires |p.own| > 0 && Sound(secret, p)
    ensures Sound(secret, Act(p, call))
  {
    match call
    case Encrypt(plaintext, nonce) => EncryptKeepsSound(secret, p, plaintext, nonce);
    case Decrypt(header, encrypted, drawn) => DecryptKeepsSound(secret, p, header, encrypted, drawn);
  }

  lemma {:induction false} RunsSound(secret: Bytes, p: Peer, calls: seq<Call>)
    requires |p.own| > 0 && Sound(secret, p)
    ensures Sound(secret, Play(p, calls))
    decreases |calls|
  {
    if calls != [] {
      RunsSound(secret, p, calls[..|calls| - 1]);
      ActKeepsSound(secret, Play(p, calls[..|calls| - 1]), calls[|calls| - 1]);
    }
  }

  /** In any run of a session, all keys it encrypts with or tries are different. */
  lemma KeysNeverReused(secret: Bytes, p: Peer, calls: seq<Call>)
    requires IsNew(secret, p)
    ensures |p.own| > 0 && NoRepeats(Play(p, calls).used)
  {
    NewPeersSound(secret, p);
    RunsSound(secret, p, calls);
  }

  /** After any run, no key used in it can be computed from what the session then holds. */
  lemma ForwardSecrecy(secret: Bytes, p: Peer, calls: seq<Call>, secrets: set<Secret>)
    requires IsNew(secret, p)
    requires !Derivable({}, secrets, secret)
    ensures |p.own| > 0
    ensures var p' := Play(p, calls);
            forall key :: key in p'.used ==> !Derivable(Holdings(p'.state), secrets, key)
  {
    NewPeersSound(secret, p);
    RunsSound(secret, p, calls);
    var p' := Play(p, calls);
    UsedKeysHidden(secret, p'.state, p'.used, secrets);
  }

  /** Nothing that was sealed under a key of an unrelated origin is ever accepted. */
  lemma OnlyOwnSecretOpens(secret: Bytes, p: Peer, i: nat)
    requires Sound(secret, p) && i < |p.accepted|
    ensures GrowsFrom(secret, p.accepted[i].encrypted.ciphertext.key)
  {
    assert Accounted(secret, p.state, p.accepted[i].key);
    KeysGrowFromSecret(secret, p.accepted[i].key);
  }

  /** Isolation: sessions started from unrelated secrets never accept each other's messages, in any two runs. */
  lemma Isolation(secret1: Bytes, p1: Peer, calls1: seq<Call>, secret2: Bytes, p2: Peer, calls2: seq<Call>)
    requires IsNew(secret1, p1) && IsNew(secret2, p2) && Unrelated(secret1, secret2)
    ensures |p1.own| > 0 && |p2.own| > 0
    ensures var (q1, q2) := (Play(p1, calls1), Play(p2, calls2));
            forall i, j :: 0 <= i < |q1.sent| && 0 <= j < |q2.accepted| ==>
              q1.sent[i].encrypted.ciphertext != q2.accepted[j].encrypted.ciphertext
  {
    NewPeersSound(secret1, p1);
    NewPeersSound(secret2, p2);
    RunsSound(secret1, p1, calls1);
    RunsSound(secret2, p2, calls2);
    var q1, q2 := Play(p1, calls1), Play(p2, calls2);
    forall i, j | 0 <= i < |q1.sent| && 0 <= j < |q2.accepted|
      ensures q1.sent[i].encrypted.ciphertext != q2.accepted[j].encrypted.ciphertext
    {
      assert Accounted(secret1, q1.state, q1.sent[i].key);
      KeysGrowFromSecret(secret1, q1.sent[i].key);
      UnrelatedGrowApart(secret1, secret2, q1.sent[i].key);
      OnlyOwnSecretOpens(secret2, q2, j);
    }
  }

  // ---------- Nonces and texts over runs ----------

  /** The encryptions among some calls that go out: those made when there is a sending chain. */
  function Encryptions(p: Peer, calls: seq<Call>): (sending: seq<Call>)
    requires |p.own| > 0
    ensures forall c :: c in sending ==> c.Encrypt?
    decreases |calls|
  {
    if calls == [] then []
    else
      var earlier, call := calls[..|calls| - 1], calls[|calls| - 1];
      Encryptions(p, earlier)
        + (if call.Encrypt? && Play(p, earlier).state.sendingChain.Some? then [call] else [])
  }

  /** In any run, what is sent is what was encrypted, in order: each text, with the nonce drawn for it. */
  lemma {:induction false} SentAsEncrypted(p: Peer, calls: seq<Call>)
    requires |p.own| > 0
    ensures var (sent, sending) := (Play(p, calls).sent, Encryptions(p, calls));
            && |sent| == |p.sent| + |sending| && p.sent <= sent
            && forall i :: 0 <= i < |sending| ==>
                 var m := sent[|p.sent| + i];
                 && m.plaintext == sending[i].plaintext == m.encrypted.ciphertext.plaintext
                 && m.encrypted.nonce == sending[i].nonce == m.encrypted.ciphertext.nonce
    decreases |calls|
  {
    if calls != [] {
      SentAsEncrypted(p, calls[..|calls| - 1]);
      var q, call := Play(p, calls[..|calls| - 1]), calls[|calls| - 1];
      if call.Encrypt? {
        NonceGoesOut(q.state, call.plaintext, call.nonce);
      }
    }
  }

  lemma NothingSentYet(secret: Bytes, p: Peer)
    requires IsNew(secret, p)
    ensures p.sent == []
  {
  }

  lemma NonceAt(sent: seq<Sent>, sending: seq<Call>, before: seq<Sent>, i: nat)
    requires |before| == 0 && |sent| == |sending| && i < |sent|
    requires forall c :: c in sending ==> c.Encrypt?
    requires forall n :: 0 <= n < |sending| ==> sent[|before| + n].encrypted.nonce == sending[n].nonce
    ensures sending[i].Encrypt? && sent[i].encrypted.nonce == sending[i].nonce
  {
    assert sent[|before| + i].encrypted.nonce == sending[i].nonce;
  }

  /** So two messages of a new session go out with the same nonce exactly if the same nonce was drawn for both. */
  lemma SameNonceIff(secret: Bytes, p: Peer, calls: seq<Call>, i: nat, j: nat)
    requires IsNew(secret, p)
    ensures |p.own| > 0
    ensures var (sent, sending) := (Play(p, calls).sent, Encryptions(p, calls));
            && |sent| == |sending|
            && (i < |sent| && j < |sent| ==>
                  (sent[i].encrypted.nonce == sent[j].encrypted.nonce <==> sending[i].nonce == sending[j].nonce))
  {
    hide *;
    NewPeersSound(secret, p);
    NothingSentYet(secret, p);
    SentAsEncrypted(p, calls);
    if i < |Play(p, calls).sent| && j < |Play(p, calls).sent| {
      NonceAt(Play(p, calls).sent, Encryptions(p, calls), p.sent, i);
      NonceAt(Play(p, calls).sent, Encryptions(p, calls), p.sent, j);
    }
  }

  // ---------- Bounds over runs ----------

  /** In any run, the stored keys number at most MAX_SKIP plus the skip-limit errors there were. */
  lemma {:induction false} StorageBound(secret: Bytes, p: Peer, calls: seq<Call>)
    requires IsNew(secret, p)
    ensures |p.own| > 0
    ensures |Play(p, calls).state.skippedKeys| <= MAX_SKIP + Play(p, calls).limitErrors
    decreases |calls|
  {
    NewPeersSound(secret, p);
    if calls != [] {
      StorageBound(secret, p, calls[..|calls| - 1]);
      var q, call := Play(p, calls[..|calls| - 1]), calls[|calls| - 1];
      if call.Decrypt? {
        StorageAfterDecrypt(q.state, call.header, call.encrypted, call.drawn);
      }
    }
  }

  predicate IndicesWithin(s: State, bound: nat) {
    IndexOf(s.sendingChain) <= bound && IndexOf(s.receivingChain) <= bound && s.previousSendingChainLength <= bound
  }

  lemma FinishIndex(s: State, h: Header, encrypted: Encrypted, ratcheted: bool, before: nat)
    ensures var d := Finish(s, h, encrypted, ratcheted, before);
            && d.state.sendingChain == s.sendingChain
            && d.state.previousSendingChainLength == s.previousSendingChainLength
            && IndexOf(d.state.receivingChain) <= IndexOf(s.receivingChain) + (d.advances - before)
  {
  }

  lemma DecryptIndex(s: State, h: Header, encrypted: Encrypted, drawn: Secret, bound: nat)
    requires IndicesWithin(s, bound)
    ensures var d := DecryptStep(s, h, encrypted, drawn);
            IndicesWithin(d.state, bound + d.advances)
  {
    if Id(h) !in s.skippedKeys {
      if NeedsRatchet(s, h) {
        var (s1, ok) := SkipCurrent(s, h.previousChainLength);
        SkipCurrentGrows(s, h.previousChainLength);
        FinishIndex(Ratchet(s1, h.dhPublicKey, drawn), h, encrypted, true,
                    IndexOf(s1.receivingChain) - IndexOf(s.receivingChain));
      } else {
        FinishIndex(s, h, encrypted, false, 0);
      }
    }
  }

  /**
   No run of n calls takes a counter beyond 101 n. Chain indices are 32-bit in the program, so up to 42 524 428
   calls (and the chains restart at every ratchet) none of them can wrap around.
   */
  lemma {:induction false} IndexBound(secret: Bytes, p: Peer, calls: seq<Call>)
    requires IsNew(secret, p)
    ensures |p.own| > 0
    ensures IndicesWithin(Play(p, calls).state, (MAX_SKIP + 1) * |calls|)
    ensures |calls| <= 42_524_428 ==> IndicesWithin(Play(p, calls).state, 0xFFFF_FFFF)
    decreases |calls|
  {
    NewPeersSound(secret, p);
    if calls != [] {
      IndexBound(secret, p, calls[..|calls| - 1]);
      var q, call := Play(p, calls[..|calls| - 1]), calls[|calls| - 1];
      if call.Decrypt? {
        WorkBound(q.state, call.header, call.encrypted, call.drawn);
        DecryptIndex(q.state, call.header, call.encrypted, call.drawn, (MAX_SKIP + 1) * (|calls| - 1));
      }
    }
  }

  // ---------- The history of sent headers ----------

  /** How many messages were sent under a ratchet key. */
  function CountOn(sent: seq<Sent>, dh: PublicKey): nat {
    if sent == [] then 0
    else CountOn(sent[..|sent| - 1], dh) + (if sent[|sent| - 1].header.dhPublicKey == dh then 1 else 0)
  }

  lemma CountOnAppend(sent: seq<Sent>, m: Sent, dh: PublicKey)
    ensures CountOn(sent + [m], dh) == CountOn(sent, dh) + (if m.header.dhPublicKey == dh then 1 else 0)
  {
    assert (sent + [m])[..|sent|] == sent;
  }

  lemma {:induction false} CountOnAbsent(sent: seq<Sent>, dh: PublicKey)
    requires forall i :: 0 <= i < |sent| ==> sent[i].header.dhPublicKey != dh
    ensures CountOn(sent, dh) == 0
  {
    if sent != [] {
      CountOnAbsent(sent[..|sent| - 1], dh);
    }
  }

  lemma {:induction false} CountOnPrefix(sent: seq<Sent>, i: nat, dh: PublicKey)
    requires i < |sent|
    ensures CountOn(sent[..i], dh) <= CountOn(sent, dh)
    ensures sent[i].header.dhPublicKey == dh ==> CountOn(sent[..i], dh) < CountOn(sent, dh)
  {
    var shorter := sent[..|sent| - 1];
    if i < |shorter| {
      CountOnPrefix(shorter, i, dh);
      assert shorter[..i] == sent[..i];
    }
  }

  /** The number of messages on the chain before the one of a given turn; nothing came before the first. */
  function CountBefore(p: Peer, turn: nat): nat
    requires turn < |p.own|
  {
    if turn == 0 then 0 else CountOn(p.sent, p.own[turn - 1])
  }

  /** The i-th message sent carries the right ratchet key, number and previous chain length. */
  predicate HeaderRight(p: Peer, i: nat)
    requires i < |p.sent|
  {
    var m := p.sent[i];
    && m.turn < |p.own|
    && m.header.dhPublicKey == p.own[m.turn]
    && m.header.messageNumber == CountOn(p.sent[..i], m.header.dhPublicKey)
    && m.header.previousChainLength == CountBefore(p, m.turn)
  }

  ghost predicate HistoryRight(p: Peer) {
    && |p.own| > 0 && NoRepeats(p.own)
    && p.state.dhPublic == p.own[|p.own| - 1]
    && IndexOf(p.state.sendingChain) == CountOn(p.sent, p.state.dhPublic)
    && p.state.previousSendingChainLength == CountBefore(p, |p.own| - 1)
    && forall i :: 0 <= i < |p.sent| ==> HeaderRight(p, i)
  }

  predicate DrawsFresh(p: Peer, call: Call) {
    call.Decrypt? ==> call.drawn.public !in p.own
  }

  /** Every key pair drawn in the run is new to the session. */
  predicate FreshRun(p: Peer, calls: seq<Call>)
    requires |p.own| > 0
    decreases |calls|
  {
    calls == [] || (FreshRun(p, calls[..|calls| - 1]) && DrawsFresh(Play(p, calls[..|calls| - 1]), calls[|calls| - 1]))
  }

  /** That is, each is new when it is drawn. */
  lemma {:induction false} FreshIff(p: Peer, calls: seq<Call>)
    requires |p.own| > 0
    ensures FreshRun(p, calls)
       <==> forall i :: 0 <= i < |calls| && calls[i].Decrypt? ==> calls[i].drawn.public !in Play(p, calls[..i]).own
    decreases |calls|
  {
    hide Play;
    if calls != [] {
      var last := |calls| - 1;
      var before := calls[..last];
      FreshIff(p, before);
      assert forall i :: 0 <= i < last ==> before[..i] == calls[..i] && before[i] == calls[i];
      if FreshRun(p, calls) {
        forall i | 0 <= i < |calls| && calls[i].Decrypt?
          ensures calls[i].drawn.public !in Play(p, calls[..i]).own
        {
          assert i < last ==> before[i] == calls[i];
        }
      } else if FreshRun(p, before) {
        assert !DrawsFresh(Play(p, calls[..last]), calls[last]);
      } else {
        var i :| 0 <= i < last && before[i].Decrypt? && before[i].drawn.public in Play(p, before[..i]).own;
        assert calls[i].Decrypt? && calls[i].drawn.public in Play(p, calls[..i]).own;
      }
    }
  }

  /** One more message under the last ratchet key changes no count of the keys before it. */
  lemma CountBeforeStays(p: Peer, p': Peer, m: Sent, turn: nat)
    requires turn < |p.own| && NoRepeats(p.own) && p'.own == p.own && p'.sent == p.sent + [m]
    requires m.header.dhPublicKey == p.own[|p.own| - 1]
    ensures CountBefore(p', turn) == CountBefore(p, turn)
  {
    if turn > 0 {
      CountOnAppend(p.sent, m, p.own[turn - 1]);
    }
  }

  lemma HeaderStays(p: Peer, p': Peer, m: Sent, i: nat)
    requires HistoryRight(p) && i < |p.sent| && p'.own == p.own && p'.sent == p.sent + [m]
    requires m.header.dhPublicKey == p.state.dhPublic
    ensures HeaderRight(p', i)
  {
    hide CountOn, CountBefore;
    assert HeaderRight(p, i);
    assert p'.sent[..i] == p.sent[..i];
    CountBeforeStays(p, p', m, p.sent[i].turn);
  }

  lemma OneMoreHistory(p: Peer, p': Peer, m: Sent)
    requires HistoryRight(p) && p'.own == p.own && p'.sent == p.sent + [m]
    requires m.turn == |p.own| - 1
    requires m.header == Header(p.state.dhPublic, IndexOf(p.state.sendingChain), p.state.previousSendingChainLength)
    requires p'.state.dhPublic == p.state.dhPublic
    requires IndexOf(p'.state.sendingChain) == IndexOf(p.state.sendingChain) + 1
    requires p'.state.previousSendingChainLength == p.state.previousSendingChainLength
    ensures HistoryRight(p')
  {
    hide CountOn, CountBefore;
    CountOnAppend(p.sent, m, p.state.dhPublic);
    CountBeforeStays(p, p', m, |p.own| - 1);
    assert p'.sent[..|p.sent|] == p.sent && p'.sent[|p.sent|] == m;
    forall i | 0 <= i < |p'.sent|
      ensures HeaderRight(p', i)
    {
      if i < |p.sent| {
        HeaderStays(p, p', m, i);
      }
    }
  }

  lemma SameHistory(p: Peer, p': Peer)
    requires HistoryRight(p) && p'.sent == p.sent && p'.own == p.own
    requires p'.state.dhPublic == p.state.dhPublic && p'.state.sendingChain == p.state.sendingChain
    requires p'.state.previousSendingChainLength == p.state.previousSendingChainLength
    ensures HistoryRight(p')
  {
    forall i | 0 <= i < |p.sent|
      ensures HeaderRight(p', i)
    {
      assert HeaderRight(p, i);
    }
  }

  lemma EncryptKeepsHistory(p: Peer, plaintext: Plaintext, nonce: nat)
    requires HistoryRight(p)
    ensures HistoryRight(ActEncrypt(p, plaintext, nonce))
  {
    var p' := ActEncrypt(p, plaintext, nonce);
    hide HistoryRight, ToBytes, DeriveChainAndMessageKey;
    if p.state.sendingChain.Some? {
      OneMoreHistory(p, p', p'.sent[|p.sent|]);
    } else {
      SameHistory(p, p');
    }
  }

  /** What a decryption does to the sending side: nothing, or a fresh chain. */
  lemma DecryptSendingSide(s: State, h: Header, encrypted: Encrypted, drawn: Secret)
    ensures var d := DecryptStep(s, h, encrypted, drawn);
            if d.ratcheted
            then d.state.dhPublic == drawn.public && IndexOf(d.state.sendingChain) == 0
                 && d.state.previousSendingChainLength == IndexOf(s.sendingChain)
            else d.state.dhPublic == s.dhPublic && d.state.sendingChain == s.sendingChain
                 && d.state.previousSendingChainLength == s.previousSendingChainLength
  {
    if Id(h) !in s.skippedKeys && NeedsRatchet(s, h) {
      var (s1, ok) := SkipCurrent(s, h.previousChainLength);
      SkipCurrentGrows(s, h.previousChainLength);
      assert s1.sendingChain == s.sendingChain;
    }
  }

  /** Root, ratchet secret and sending chain change only by a ratchet, which nothing before it in the call affects. */
  lemma DecryptRootSide(s: State, h: Header, encrypted: Encrypted, drawn: Secret)
    ensures var d := DecryptStep(s, h, encrypted, drawn);
            var s' := if d.ratcheted then Ratchet(s, h.dhPublicKey, drawn) else s;
            && d.state.rootKey == s'.rootKey && d.state.dhSecret == s'.dhSecret
            && d.state.sendingChain == s'.sendingChain
  {
    if Id(h) !in s.skippedKeys && NeedsRatchet(s, h) {
      SkipCurrentGrows(s, h.previousChainLength);
    }
  }

  lemma RatchetKeepsHistory(p: Peer, p': Peer, drawn: PublicKey)
    requires HistoryRight(p) && drawn !in p.own
    requires p'.own == p.own + [drawn] && p'.sent == p.sent && p'.state.dhPublic == drawn
    requires IndexOf(p'.state.sendingChain) == 0
    requires p'.state.previousSendingChainLength == IndexOf(p.state.sendingChain)
    ensures HistoryRight(p')
  {
    forall i | 0 <= i < |p.sent|
      ensures HeaderRight(p', i) && p.sent[i].header.dhPublicKey in p.own
    {
      assert HeaderRight(p, i);
    }
    CountOnAbsent(p.sent, drawn);
  }

  lemma DecryptKeepsHistory(p: Peer, h: Header, encrypted: Encrypted, drawn: Secret)
    requires HistoryRight(p) && drawn.public !in p.own
    ensures HistoryRight(ActDecrypt(p, h, encrypted, drawn))
  {
    var p' := ActDecrypt(p, h, encrypted, drawn);
    DecryptSendingSide(p.state, h, encrypted, drawn);
    if DecryptStep(p.state, h, encrypted, drawn).ratcheted {
      RatchetKeepsHistory(p, p', drawn.public);
    } else {
      forall i | 0 <= i < |p.sent| ensures HeaderRight(p', i) { assert HeaderRight(p, i); }
    }
  }

  lemma ActKeepsHistory(p: Peer, call: Call)
    requires HistoryRight(p) && DrawsFresh(p, call)
    ensures HistoryRight(Act(p, call))
  {
    match call
    case Encrypt(plaintext, nonce) => EncryptKeepsHistory(p, plaintext, nonce);
    case Decrypt(header, encrypted, drawn) => DecryptKeepsHistory(p, header, encrypted, drawn);
  }

  /**
   The history of sent headers: in any run with fresh ratchet keys, the messages under each key are numbered
   0, 1, 2, ... in the order sent, and each header states how many messages were sent under the key before.
   */
  lemma {:induction false} SentHistory(secret: Bytes, p: Peer, calls: seq<Call>)
    requires IsNew(secret, p) && |p.own| > 0 && FreshRun(p, calls)
    ensures HistoryRight(Play(p, calls))
    decreases |calls|
  {
    if calls == [] {
      NewPeersSound(secret, p);
    } else {
      SentHistory(secret, p, calls[..|calls| - 1]);
      ActKeepsHistory(Play(p, calls[..|calls| - 1]), calls[|calls| - 1]);
    }
  }

  /** So no two messages of a session share a ratchet key and a number. */
  lemma HeadersDiffer(p: Peer, i: nat, j: nat)
    requires HistoryRight(p) && i < j < |p.sent|
    ensures Id(p.sent[i].header) != Id(p.sent[j].header)
  {
    assert HeaderRight(p, i) && HeaderRight(p, j);
    assert p.sent[..j][..i] == p.sent[..i];
    CountOnPrefix(p.sent[..j], i, p.sent[i].header.dhPublicKey);
  }
}
