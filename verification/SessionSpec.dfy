/**
 What one call on a session does, as functions on values. The classes in Session.dfy do the same in place and are
 proved against these functions; every property of the protocol is proved about them.
 */
module SessionSpec {
  import opened Wrappers
  import opened SymbolicCrypto
  import opened MessageHeader

  const MAX_SKIP: nat := 100

  datatype ChainState = ChainState(key: Bytes, index: nat)

  /** A message is named by the ratchet key and the number in its header. */
  datatype MessageId = MessageId(dhPublicKey: PublicKey, number: nat)

  type SkippedKeys = map<MessageId, Bytes>

  datatype State = State(
    rootKey: Bytes,
    dhSecret: Secret,
    dhPublic: PublicKey,
    remoteDhPublic: Option<PublicKey>,
    sendingChain: Option<ChainState>,
    receivingChain: Option<ChainState>,
    previousSendingChainLength: nat,
    skippedKeys: SkippedKeys)

  datatype SignedPreKey = SignedPreKey(secret: Secret, public: PublicKey)

  function Id(h: Header): MessageId {
    MessageId(h.dhPublicKey, h.messageNumber)
  }

  // ---------- Chains ----------

  function Advance(c: ChainState): (ChainState, Bytes) {
    var (next, messageKey) := DeriveChainAndMessageKey(c.key);
    (ChainState(next, c.index + 1), messageKey)
  }

  lemma AdvanceCounts(c: ChainState)
    ensures Advance(c).0.index == c.index + 1
  {
  }

  /** The chain key `n` steps along, and the message key derived there. */
  function ChainKeyAt(start: Bytes, n: nat): Bytes {
    if n == 0 then start else Advance(ChainState(ChainKeyAt(start, n - 1), n - 1)).0.key
  }

  function MessageKeyAt(start: Bytes, n: nat): Bytes {
    Advance(ChainState(ChainKeyAt(start, n), n)).1
  }

  function IndexOf(c: Option<ChainState>): nat {
    if c.Some? then c.value.index else 0
  }

  // ---------- Starting a session ----------

  function InitAlice(sharedSecret: Bytes, bobSpk: PublicKey, drawn: Secret): State {
    var (rootKey, chainKey) := DhRatchetStep(sharedSecret, Dh(drawn, bobSpk));
    State(rootKey, drawn, drawn.public, Some(bobSpk), Some(ChainState(chainKey, 0)), None, 0, map[])
  }

  function InitBob(sharedSecret: Bytes, spk: SignedPreKey): State {
    State(sharedSecret, spk.secret, spk.public, None, None, None, 0, map[])
  }

  // ---------- Encrypt ----------

  datatype EncryptResult = EncryptResult(state: State, outcome: Result<(Header, Encrypted)>)

  function EncryptStep(s: State, plaintext: Plaintext, nonce: nat): EncryptResult {
    match s.sendingChain
    case None => EncryptResult(s, Err(NoSendingChain))
    case Some(chain) =>
      var (next, messageKey) := Advance(chain);
      var header := Header(s.dhPublic, chain.index, s.previousSendingChainLength);
      EncryptResult(
        s.(sendingChain := Some(next)),
        Ok((header, Seal(messageKey, nonce, plaintext, ToBytes(header)))))
  }

  /** An encryption goes out with the nonce drawn for it, both beside the ciphertext and in it. */
  lemma NonceGoesOut(s: State, plaintext: Plaintext, nonce: nat)
    ensures var r := EncryptStep(s, plaintext, nonce).outcome;
            r.Ok? ==> r.value.1.nonce == nonce && r.value.1.ciphertext.nonce == nonce
  {
  }

  // ---------- Decrypt ----------

  datatype SkipResult = SkipResult(chain: ChainState, skipped: SkippedKeys, ok: bool)

  /** Stores the keys of a chain one by one until `until`, giving up as soon as the map holds too many. */
  function SkipTo(chain: ChainState, until: nat, dh: PublicKey, skipped: SkippedKeys): SkipResult
    decreases until - chain.index
  {
    if chain.index >= until then SkipResult(chain, skipped, true)
    else
      var (next, messageKey) := Advance(chain);
      var skipped' := skipped[MessageId(dh, chain.index) := messageKey];
      if |skipped'| > MAX_SKIP then SkipResult(next, skipped', false)
      else SkipTo(next, until, dh, skipped')
  }

  lemma SkipToDone(chain: ChainState, until: nat, dh: PublicKey, skipped: SkippedKeys)
    requires chain.index >= until
    ensures SkipTo(chain, until, dh, skipped) == SkipResult(chain, skipped, true)
  {
  }

  /** One pass of the loop. */
  lemma SkipToPass(chain: ChainState, until: nat, dh: PublicKey, skipped: SkippedKeys)
    requires chain.index < until
    ensures var (next, messageKey) := Advance(chain);
            var skipped' := skipped[MessageId(dh, chain.index) := messageKey];
            SkipTo(chain, until, dh, skipped)
              == if |skipped'| > MAX_SKIP then SkipResult(next, skipped', false) else SkipTo(next, until, dh, skipped')
  {
  }

  predicate NeedsRatchet(s: State, h: Header) {
    s.remoteDhPublic != Some(h.dhPublicKey)
  }

  /** Stores what is left of the current receiving chain; the flag says whether the limit held. */
  function SkipCurrent(s: State, until: nat): (State, bool) {
    if s.receivingChain.Some? && s.remoteDhPublic.Some? then
      var r := SkipTo(s.receivingChain.value, until, s.remoteDhPublic.value, s.skippedKeys);
      (s.(receivingChain := Some(r.chain), skippedKeys := r.skipped), r.ok)
    else (s, true)
  }

  /** Two root steps: a receiving chain from the new remote key, then a sending chain from a fresh key of ours. */
  function Ratchet(s: State, remote: PublicKey, drawn: Secret): State {
    var (rootKey1, receivingKey) := DhRatchetStep(s.rootKey, Dh(s.dhSecret, remote));
    var (rootKey2, sendingKey) := DhRatchetStep(rootKey1, Dh(drawn, remote));
    s.(rootKey := rootKey2,
       dhSecret := drawn,
       dhPublic := drawn.public,
       remoteDhPublic := Some(remote),
       sendingChain := Some(ChainState(sendingKey, 0)),
       receivingChain := Some(ChainState(receivingKey, 0)),
       previousSendingChainLength := IndexOf(s.sendingChain))
  }

  /**
   What one decryption does: the new state, the outcome, the message key it tried (if it got that far), whether it
   drew a fresh ratchet key, and how many times it advanced a chain.
   */
  datatype DecryptResult = DecryptResult(
    state: State, outcome: Result<Plaintext>, tried: Option<Bytes>, ratcheted: bool, advances: nat)

  function Try(s: State, key: Bytes, h: Header, encrypted: Encrypted, ratcheted: bool, advances: nat): DecryptResult {
    DecryptResult(s, Open(key, encrypted, ToBytes(h)), Some(key), ratcheted, advances)
  }

  lemma SkipToGrows(chain: ChainState, until: nat, dh: PublicKey, skipped: SkippedKeys)
    ensures SkipTo(chain, until, dh, skipped).chain.index >= chain.index
    decreases until - chain.index
  {
  }

  /** Skips ahead on the receiving chain to the message's number, then tries the key found there. */
  function Finish(s: State, h: Header, encrypted: Encrypted, ratcheted: bool, before: nat): (d: DecryptResult)
    ensures d.ratcheted == ratcheted && d.advances >= before
  {
    match s.receivingChain
    case None => DecryptResult(s, Err(NoReceivingChain), None, ratcheted, before)
    case Some(chain) =>
      var r := SkipTo(chain, h.messageNumber, h.dhPublicKey, s.skippedKeys);
      SkipToGrows(chain, h.messageNumber, h.dhPublicKey, s.skippedKeys);
      var advances := before + (r.chain.index - chain.index);
      var s' := s.(receivingChain := Some(r.chain), skippedKeys := r.skipped);
      if !r.ok then DecryptResult(s', Err(SkipLimit), None, ratcheted, advances)
      else
        var (next, messageKey) := Advance(r.chain);
        Try(s'.(receivingChain := Some(next)), messageKey, h, encrypted, ratcheted, advances + 1)
  }

  lemma SkipCurrentGrows(s: State, until: nat)
    ensures IndexOf(SkipCurrent(s, until).0.receivingChain) >= IndexOf(s.receivingChain)
  {
    if s.receivingChain.Some? && s.remoteDhPublic.Some? {
      SkipToGrows(s.receivingChain.value, until, s.remoteDhPublic.value, s.skippedKeys);
    }
  }

  function DecryptStep(s: State, h: Header, encrypted: Encrypted, drawn: Secret): DecryptResult {
    if Id(h) in s.skippedKeys then
      Try(s.(skippedKeys := s.skippedKeys - {Id(h)}), s.skippedKeys[Id(h)], h, encrypted, false, 0)
    else if NeedsRatchet(s, h) then
      var (s1, ok) := SkipCurrent(s, h.previousChainLength);
      SkipCurrentGrows(s, h.previousChainLength);
      var before := IndexOf(s1.receivingChain) - IndexOf(s.receivingChain);
      if !ok then DecryptResult(s1, Err(SkipLimit), None, false, before)
      else Finish(Ratchet(s1, h.dhPublicKey, drawn), h, encrypted, true, before)
    else Finish(s, h, encrypted, false, 0)
  }

  // ---------- Calls with no chain ----------

  /** A responder cannot encrypt before the first message has reached him, and stays as he is. */
  lemma ResponderMustWait(sharedSecret: Bytes, spk: SignedPreKey, plaintext: Plaintext, nonce: nat)
    ensures EncryptStep(InitBob(sharedSecret, spk), plaintext, nonce)
         == EncryptResult(InitBob(sharedSecret, spk), Err(NoSendingChain))
  {
  }

  /** An initiator has no chain to receive on for the signed pre-key she started from, and stays as she is. */
  lemma InitiatorHasNoChain(
    sharedSecret: Bytes, bobSpk: PublicKey, drawn: Secret, number: nat, previous: nat,
    encrypted: Encrypted, next: Secret)
    ensures var s := InitAlice(sharedSecret, bobSpk, drawn);
            var d := DecryptStep(s, Header(bobSpk, number, previous), encrypted, next);
            d.outcome == Err(NoReceivingChain) && d.state == s && !d.ratcheted
  {
  }
}
