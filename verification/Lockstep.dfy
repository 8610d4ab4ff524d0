/**
 Two honest sessions over a network that may drop and reorder but delivers nothing twice. Their epochs stay one apart,
 both follow the key schedule, and each decryption of a message of the peer either returns its plaintext or stops at
 the skip limit, whatever was lost or overtaken on the way.
 */
module Lockstep {
  import opened Wrappers
  import opened SymbolicCrypto
  import opened MessageHeader
  import opened SessionSpec
  import opened SkipLimits
  import opened KeyDiscipline
  import opened SessionRuns
  import opened KeySchedule

  // ---------- One honest message at one receiver ----------

  /** A message of chain j, number and previous length included, as an honest sender makes it. */
  ghost predicate Honest(
    secret: Bytes, keys: seq<PublicKey>, j: nat, peerSent: seq<Sent>, h: Header, encrypted: Encrypted, text: Plaintext)
    requires 1 <= j < |keys|
  {
    && h.dhPublicKey == keys[j]
    && h.messageNumber < CountOn(peerSent, keys[j])
    && h.previousChainLength == (if j == 1 then 0 else CountOn(peerSent, keys[j - 2]))
    && encrypted.ciphertext ==
         Sealed(MessageKeyAt(StartOf(secret, keys, j), h.messageNumber), encrypted.nonce, text, ToBytes(h))
  }

  /** A skip loop keeps the receiving half, however far it goes. */
  lemma SkipKeepsReceives(
    secret: Bytes, keys: seq<PublicKey>, k: nat, s: State, delivered: set<MessageId>, peerSent: seq<Sent>, until: nat)
    requires 2 <= k < |keys| && Receives(secret, keys, k, s, delivered, peerSent)
    ensures var r := SkipTo(s.receivingChain.value, until, keys[k - 1], s.skippedKeys);
            Receives(
              secret, keys, k, s.(receivingChain := Some(r.chain), skippedKeys := r.skipped), delivered, peerSent)
  {
    var chain := s.receivingChain.value;
    var r := SkipTo(chain, until, keys[k - 1], s.skippedKeys);
    SkipToStores(chain, until, keys[k - 1], s.skippedKeys);
    SkipToKeys(chain, until, keys[k - 1], s.skippedKeys, StartOf(secret, keys, k - 1));
    StoreKeepsConserved(
      secret, keys, k, s, s.(receivingChain := Some(r.chain), skippedKeys := r.skipped), delivered, peerSent);
  }

  /** Taking the next key for its own message keeps the receiving half, with one more message delivered. */
  lemma UseNextKeepsReceives(
    secret: Bytes, keys: seq<PublicKey>, k: nat, s: State, delivered: set<MessageId>, peerSent: seq<Sent>)
    requires 2 <= k < |keys| && Receives(secret, keys, k, s, delivered, peerSent)
    ensures var chain := s.receivingChain.value;
            && chain.key == ChainKeyAt(StartOf(secret, keys, k - 1), chain.index)
            && Receives(secret, keys, k, s.(receivingChain := Some(Advance(chain).0)),
                        delivered + {MessageId(keys[k - 1], chain.index)}, peerSent)
  {
    var chain := s.receivingChain.value;
    UseNextKeepsConserved(
      secret, keys, k, s, s.(receivingChain := Some(Advance(chain).0)), delivered, peerSent);
    assert Advance(chain).0.key == ChainKeyAt(StartOf(secret, keys, k - 1), chain.index + 1);
  }

  lemma FinishHonest(
    secret: Bytes, keys: seq<PublicKey>, k: nat, s: State, delivered: set<MessageId>, peerSent: seq<Sent>,
    h: Header, encrypted: Encrypted, text: Plaintext, ratcheted: bool, before: nat)
    requires 2 <= k < |keys| && Receives(secret, keys, k, s, delivered, peerSent)
    requires Honest(secret, keys, k - 1, peerSent, h, encrypted, text)
    requires IndexOf(s.receivingChain) <= h.messageNumber
    ensures var d := Finish(s, h, encrypted, ratcheted, before);
            || (&& d.outcome == Err(SkipLimit)
                && Receives(secret, keys, k, d.state, delivered, peerSent))
            || (&& d.outcome == Ok(text)
                && Receives(secret, keys, k, d.state, delivered + {Id(h)}, peerSent))
  {
    hide Conserved, SkipTo, StartOf;
    var r := SkipTo(s.receivingChain.value, h.messageNumber, h.dhPublicKey, s.skippedKeys);
    SkipKeepsReceives(secret, keys, k, s, delivered, peerSent, h.messageNumber);
    SkipToStores(s.receivingChain.value, h.messageNumber, h.dhPublicKey, s.skippedKeys);
    if r.ok {
      UseNextKeepsReceives(
        secret, keys, k, s.(receivingChain := Some(r.chain), skippedKeys := r.skipped), delivered, peerSent);
    }
  }

  /** The key of an undelivered message is stored exactly if its chain has been passed that far. */
  lemma LateKeyStored(
    secret: Bytes, keys: seq<PublicKey>, k: nat, s: State, delivered: set<MessageId>, peerSent: seq<Sent>,
    j: nat, id: MessageId)
    requires k < |keys| && Receives(secret, keys, k, s, delivered, peerSent)
    requires OnIncoming(keys, k, id, j) && id !in delivered
    ensures Sendable(keys, k, peerSent, j, id.number) ==> (id in s.skippedKeys <==> IsPast(k, s, j, id.number))
    ensures id in s.skippedKeys ==> s.skippedKeys[id] == MessageKeyAt(StartOf(secret, keys, j), id.number)
  {
    assert id == MessageId(keys[j], id.number);
    assert Kept(s, delivered, keys[j], id.number) <==> id in s.skippedKeys;
  }

  /** What is promised of one decryption: the plaintext, or the skip limit; the invariant holds after either. */
  ghost predicate DeliveredRight(
    secret: Bytes, keys: seq<PublicKey>, k: nat, s: State, delivered: set<MessageId>, peerSent: seq<Sent>,
    h: Header, text: Plaintext, drawn: Secret, d: DecryptResult)
    requires k < |keys|
    requires d.ratcheted ==> |keys| == k + 2
  {
    var keys' := if d.ratcheted then keys + [drawn.public] else keys;
    var k' := if d.ratcheted then k + 2 else k;
    && (d.ratcheted ==> NeedsRatchet(s, h) && !NeedsRatchet(d.state, h))
    && (|| (&& d.outcome == Ok(text)
            && Receives(secret, keys', k', d.state, delivered + {Id(h)}, peerSent))
        || (&& d.outcome == Err(SkipLimit)
            && Receives(secret, keys', k', d.state, delivered, peerSent)
            && Id(h) !in s.skippedKeys))
  }

  lemma UseStored(
    secret: Bytes, keys: seq<PublicKey>, k: nat, s: State, delivered: set<MessageId>, peerSent: seq<Sent>,
    id: MessageId)
    requires k < |keys| && Receives(secret, keys, k, s, delivered, peerSent)
    requires id in s.skippedKeys
    ensures Receives(
              secret, keys, k, s.(skippedKeys := s.skippedKeys - {id}), delivered + {id}, peerSent)
  {
    UseStoredKeepsConserved(secret, keys, k, s, delivered, peerSent, id);
  }

  lemma DecryptOnOldChain(
    secret: Bytes, keys: seq<PublicKey>, k: nat, s: State, delivered: set<MessageId>, peerSent: seq<Sent>,
    j: nat, h: Header, encrypted: Encrypted, text: Plaintext, drawn: Secret)
    requires k < |keys| && Receives(secret, keys, k, s, delivered, peerSent)
    requires Incoming(k, j) && Honest(secret, keys, j, peerSent, h, encrypted, text)
    requires Id(h) in s.skippedKeys && Id(h) !in delivered
    ensures var d := DecryptStep(s, h, encrypted, drawn);
            !d.ratcheted && DeliveredRight(secret, keys, k, s, delivered, peerSent, h, text, drawn, d)
  {
    LateKeyStored(secret, keys, k, s, delivered, peerSent, j, Id(h));
    assert DecryptStep(s, h, encrypted, drawn).outcome == Ok(text);
    UseStored(secret, keys, k, s, delivered, peerSent, Id(h));
  }

  lemma DecryptOnCurrentChain(
    secret: Bytes, keys: seq<PublicKey>, k: nat, s: State, delivered: set<MessageId>, peerSent: seq<Sent>,
    h: Header, encrypted: Encrypted, text: Plaintext, drawn: Secret)
    requires 2 <= k < |keys| && Receives(secret, keys, k, s, delivered, peerSent)
    requires Honest(secret, keys, k - 1, peerSent, h, encrypted, text)
    requires Id(h) !in s.skippedKeys && Id(h) !in delivered
    ensures var d := DecryptStep(s, h, encrypted, drawn);
            !d.ratcheted && DeliveredRight(secret, keys, k, s, delivered, peerSent, h, text, drawn, d)
  {
    assert OnIncoming(keys, k, Id(h), k - 1);
    LateKeyStored(secret, keys, k, s, delivered, peerSent, k - 1, Id(h));
    FinishHonest(secret, keys, k, s, delivered, peerSent, h, encrypted, text, false, 0);
  }

  /** The first half of a ratchet: what is left of the current chain. */
  lemma SkipCurrentKeepsReceives(
    secret: Bytes, keys: seq<PublicKey>, k: nat, s: State, delivered: set<MessageId>, peerSent: seq<Sent>, until: nat)
    requires k < |keys| && Receives(secret, keys, k, s, delivered, peerSent)
    ensures var (s1, ok) := SkipCurrent(s, until);
            && Receives(secret, keys, k, s1, delivered, peerSent)
            && (k >= 2 && ok ==> IndexOf(s1.receivingChain) == Max(IndexOf(s.receivingChain), until))
            && (k < 2 ==> s1 == s && ok)
  {
    if k >= 2 {
      SkipKeepsReceives(secret, keys, k, s, delivered, peerSent, until);
      SkipToStores(s.receivingChain.value, until, keys[k - 1], s.skippedKeys);
    }
  }

  lemma RatchetHonest(
    secret: Bytes, keys: seq<PublicKey>, k: nat, s: State, delivered: set<MessageId>, peerSent: seq<Sent>,
    drawn: Secret)
    requires |keys| == k + 2 && Receives(secret, keys, k, s, delivered, peerSent)
    requires k >= 2 ==> IndexOf(s.receivingChain) >= CountOn(peerSent, keys[k - 1])
    requires drawn.public !in keys
    ensures Receives(
              secret, keys + [drawn.public], k + 2, Ratchet(s, keys[k + 1], drawn), delivered, peerSent)
  {
    RatchetKeepsConserved(
      secret, keys, k, s, Ratchet(s, keys[k + 1], drawn), delivered, peerSent, drawn.public);
    RatchetOnSchedule(secret, keys, k, s, drawn);
  }

  lemma NewChainUnknown(
    secret: Bytes, keys: seq<PublicKey>, k: nat, s: State, delivered: set<MessageId>, peerSent: seq<Sent>,
    id: MessageId)
    requires |keys| == k + 2 && Receives(secret, keys, k, s, delivered, peerSent)
    requires id.dhPublicKey == keys[k + 1]
    ensures id !in s.skippedKeys && s.remoteDhPublic != Some(keys[k + 1])
  {
    assert !IsKeyFor(secret, keys, k, id, if id in s.skippedKeys then s.skippedKeys[id] else s.rootKey);
  }

  lemma FinishOnNewChain(
    secret: Bytes, keys: seq<PublicKey>, k: nat, s: State, s1: State, delivered: set<MessageId>, peerSent: seq<Sent>,
    h: Header, encrypted: Encrypted, text: Plaintext, drawn: Secret)
    requires |keys| == k + 2 && Honest(secret, keys, k + 1, peerSent, h, encrypted, text)
    requires Id(h) !in s.skippedKeys && NeedsRatchet(s, h) && Id(h) !in delivered
    requires (s1, true) == SkipCurrent(s, h.previousChainLength)
    requires Receives(
              secret, keys + [drawn.public], k + 2, Ratchet(s1, keys[k + 1], drawn), delivered, peerSent)
    ensures DeliveredRight(
              secret, keys, k, s, delivered, peerSent, h, text, drawn, DecryptStep(s, h, encrypted, drawn))
  {
    var keys', k', s2 := keys + [drawn.public], k + 2, Ratchet(s1, keys[k + 1], drawn);
    ScheduleExtends(secret, keys, drawn.public);
    SkipCurrentGrows(s, h.previousChainLength);
    FinishHonest(secret, keys', k', s2, delivered, peerSent, h, encrypted, text, true,
                 IndexOf(s1.receivingChain) - IndexOf(s.receivingChain));
  }

  lemma DecryptOnNewChain(
    secret: Bytes, keys: seq<PublicKey>, k: nat, s: State, delivered: set<MessageId>, peerSent: seq<Sent>,
    h: Header, encrypted: Encrypted, text: Plaintext, drawn: Secret)
    requires |keys| == k + 2 && Receives(secret, keys, k, s, delivered, peerSent)
    requires Honest(secret, keys, k + 1, peerSent, h, encrypted, text)
    requires Id(h) !in delivered && drawn.public !in keys
    ensures DeliveredRight(
              secret, keys, k, s, delivered, peerSent, h, text, drawn, DecryptStep(s, h, encrypted, drawn))
  {
    NewChainUnknown(secret, keys, k, s, delivered, peerSent, Id(h));
    SkipCurrentKeepsReceives(secret, keys, k, s, delivered, peerSent, h.previousChainLength);
    var (s1, ok) := SkipCurrent(s, h.previousChainLength);
    SkipCurrentGrows(s, h.previousChainLength);
    NewChainUnknown(secret, keys, k, s1, delivered, peerSent, Id(h));
    if ok {
      RatchetHonest(secret, keys, k, s1, delivered, peerSent, drawn);
      FinishOnNewChain(secret, keys, k, s, s1, delivered, peerSent, h, encrypted, text, drawn);
    }
  }

  /** Of the current chain and of the next one, no key still ahead is stored. */
  lemma KeysAreNew(
    secret: Bytes, keys: seq<PublicKey>, k: nat, s: State, delivered: set<MessageId>, peerSent: seq<Sent>, h: Header)
    requires k < |keys| && Receives(secret, keys, k, s, delivered, peerSent)
    ensures CurrentKeysNew(s)
    ensures (k >= 2 && h.dhPublicKey == keys[k - 1]) || (|keys| == k + 2 && h.dhPublicKey == keys[k + 1]) ==>
              StoresNewKeys(s, h)
  {
    forall id | id in s.skippedKeys && s.remoteDhPublic == Some(id.dhPublicKey)
      ensures id.number < IndexOf(s.receivingChain)
    {
      assert IsKeyFor(secret, keys, k, id, s.skippedKeys[id]);
      assert Incoming(k, k - 1);
      assert id == MessageId(keys[k - 1], id.number);
      assert Kept(s, delivered, keys[k - 1], id.number);
    }
    forall id | id in s.skippedKeys && |keys| == k + 2
      ensures id.dhPublicKey != keys[k + 1]
    {
      assert IsKeyFor(secret, keys, k, id, s.skippedKeys[id]);
    }
  }

  lemma DecryptLimit(
    secret: Bytes, keys: seq<PublicKey>, k: nat, s: State, delivered: set<MessageId>, peerSent: seq<Sent>,
    j: nat, h: Header, encrypted: Encrypted, text: Plaintext, drawn: Secret)
    requires k < |keys| && Receives(secret, keys, k, s, delivered, peerSent)
    requires Incoming(k, j) || (j == k + 1 && |keys| == k + 2)
    requires Honest(secret, keys, j, peerSent, h, encrypted, text)
    requires Id(h) !in delivered && Id(h) !in s.skippedKeys
    ensures var d := DecryptStep(s, h, encrypted, drawn);
            && (d.outcome == Err(SkipLimit) <==> !Fits(s, h))
            && (d.outcome == Err(SkipLimit) ==> StoppedShort(s, d.state, h))
  {
    hide DecryptStep;
    if Incoming(k, j) {
      LateKeyStored(secret, keys, k, s, delivered, peerSent, j, Id(h));
    }
    hide Receives;
    KeysAreNew(secret, keys, k, s, delivered, peerSent, h);
    NewKeysLimitExactly(s, h, encrypted, drawn);
  }

  /** What is promised exactly: which of the two it is can be told before, and so can how far an error gets. */
  ghost predicate DeliveredExactly(s: State, h: Header, text: Plaintext, d: DecryptResult) {
    if Fits(s, h) then d.outcome == Ok(text) else d.outcome == Err(SkipLimit) && StoppedShort(s, d.state, h)
  }

  /** One decryption of an undelivered honest message, whichever chain it is on. */
  lemma DecryptHonest(
    secret: Bytes, keys: seq<PublicKey>, k: nat, s: State, delivered: set<MessageId>, peerSent: seq<Sent>,
    j: nat, h: Header, encrypted: Encrypted, text: Plaintext, drawn: Secret)
    requires k < |keys| && Receives(secret, keys, k, s, delivered, peerSent)
    requires Incoming(k, j) || (j == k + 1 && |keys| == k + 2)
    requires Honest(secret, keys, j, peerSent, h, encrypted, text)
    requires Id(h) !in delivered && drawn.public !in keys
    ensures var d := DecryptStep(s, h, encrypted, drawn);
            && (d.ratcheted ==> |keys| == k + 2)
            && DeliveredRight(secret, keys, k, s, delivered, peerSent, h, text, drawn, d)
            && DeliveredExactly(s, h, text, d)
  {
    hide Conserved, OnSchedule, DecryptStep, StartOf, ToBytes;
    if Id(h) !in s.skippedKeys {
      DecryptLimit(secret, keys, k, s, delivered, peerSent, j, h, encrypted, text, drawn);
    }
    if j == k + 1 {
      DecryptOnNewChain(secret, keys, k, s, delivered, peerSent, h, encrypted, text, drawn);
    } else {
      LateKeyStored(secret, keys, k, s, delivered, peerSent, j, Id(h));
      if Id(h) in s.skippedKeys {
        DecryptOnOldChain(secret, keys, k, s, delivered, peerSent, j, h, encrypted, text, drawn);
      } else {
        DecryptOnCurrentChain(secret, keys, k, s, delivered, peerSent, h, encrypted, text, drawn);
      }
    }
  }

  // ---------- Two honest peers ----------

  lemma SentOnTurn(secret: Bytes, keys: seq<PublicKey>, m: nat, q: Peer, n: nat)
    requires m < |keys| && SendsRight(secret, keys, m, q) && n < |q.sent|
    ensures HeaderRight(q, n) && 1 <= ChainOf(m, q, q.sent[n].turn) && 0 <= ChainOf(m, q, 0) <= 1
  {
    assert SealedRight(secret, keys, ChainOf(m, q, q.sent[n].turn), q.sent[n]);
  }

  lemma OwnKeyAt(secret: Bytes, keys: seq<PublicKey>, m: nat, q: Peer, turn: nat)
    requires m < |keys| && SendsRight(secret, keys, m, q) && turn < |q.own|
    ensures 0 <= ChainOf(m, q, turn) <= m && q.own[turn] == keys[ChainOf(m, q, turn)]
  {
  }

  lemma SentNumbers(secret: Bytes, keys: seq<PublicKey>, m: nat, q: Peer, n: nat)
    requires m < |keys| && SendsRight(secret, keys, m, q) && n < |q.sent|
    ensures var h := q.sent[n].header;
            var j := ChainOf(m, q, q.sent[n].turn);
            && 1 <= j <= m && h.dhPublicKey == keys[j]
            && h.messageNumber < CountOn(q.sent, keys[j])
            && h.previousChainLength == (if j == 1 then 0 else CountOn(q.sent, keys[j - 2]))
  {
    hide SendsRight, HistoryRight, SealedRight;
    var r := q.sent[n];
    SentOnTurn(secret, keys, m, q, n);
    OwnKeyAt(secret, keys, m, q, r.turn);
    CountOnPrefix(q.sent, n, r.header.dhPublicKey);
    if r.turn > 0 {
      OwnKeyAt(secret, keys, m, q, r.turn - 1);
    }
  }

  /** The messages a peer on schedule has sent are honest. */
  lemma SentIsHonest(secret: Bytes, keys: seq<PublicKey>, m: nat, q: Peer, n: nat)
    requires m < |keys| && SendsRight(secret, keys, m, q) && n < |q.sent|
    ensures var r := q.sent[n];
            var j := ChainOf(m, q, r.turn);
            1 <= j <= m && (m - j) % 2 == 0 && Honest(secret, keys, j, q.sent, r.header, r.encrypted, r.plaintext)
  {
    assert SealedRight(secret, keys, ChainOf(m, q, q.sent[n].turn), q.sent[n]);
    SentNumbers(secret, keys, m, q, n);
  }

  /** A chain of a peer one epoch away is incoming, or is the one chain the receiver does not know yet. */
  lemma IncomingOrNew(k: nat, m: nat, j: nat)
    requires (k == m + 1 || m == k + 1) && 1 <= j <= m && (m - j) % 2 == 0
    ensures Incoming(k, j) || (j == k + 1 && m == k + 1)
  {
  }

  /** Party p at epoch k and party q at epoch m, one apart, the later one at the end of the schedule. */
  ghost predicate Linked(secret: Bytes, keys: seq<PublicKey>, k: nat, p: Peer, m: nat, q: Peer) {
    && (k == m + 1 || m == k + 1) && |keys| == Max(k, m) + 1
    && SendsRight(secret, keys, k, p) && SendsRight(secret, keys, m, q)
    && Receives(secret, keys, k, p.state, Delivered(p.accepted), q.sent)
    && Receives(secret, keys, m, q.state, Delivered(q.accepted), p.sent)
  }

  // ---------- A send keeps the link ----------

  lemma SendKeepsSchedule(secret: Bytes, keys: seq<PublicKey>, k: nat, p: Peer, text: Plaintext, nonce: nat)
    requires k < |keys| && |p.own| > 0 && OnSchedule(secret, keys, k, p.state)
    ensures var p' := ActEncrypt(p, text, nonce);
            && OnSchedule(secret, keys, k, p'.state)
            && (if k == 0 then p'.sent == p.sent
                else |p'.sent| == |p.sent| + 1 && p'.sent[..|p.sent|] == p.sent
                     && ChainOf(k, p', p'.sent[|p.sent|].turn) == k
                     && SealedRight(secret, keys, k, p'.sent[|p.sent|]))
  {
    if k > 0 {
      var chain := p.state.sendingChain.value;
      assert Advance(chain).0.key == ChainKeyAt(StartOf(secret, keys, k), chain.index + 1);
    }
  }

  lemma OneMoreSends(secret: Bytes, keys: seq<PublicKey>, k: nat, p: Peer, p': Peer)
    requires k < |keys| && SendsRight(secret, keys, k, p)
    requires p'.own == p.own && HistoryRight(p')
    requires || p'.sent == p.sent
             || (&& |p'.sent| == |p.sent| + 1 && p'.sent[..|p.sent|] == p.sent
                 && SealedRight(secret, keys, ChainOf(k, p', p'.sent[|p.sent|].turn), p'.sent[|p.sent|]))
    ensures SendsRight(secret, keys, k, p')
  {
    hide HistoryRight, SealedRight;
    assert forall turn: nat :: ChainOf(k, p', turn) == ChainOf(k, p, turn);
    forall n | 0 <= n < |p'.sent|
      ensures SealedRight(secret, keys, ChainOf(k, p', p'.sent[n].turn), p'.sent[n])
    {
      if n < |p.sent| {
        assert p'.sent[n] == p.sent[n];
      }
    }
  }

  lemma SendKeepsOwnHalf(secret: Bytes, keys: seq<PublicKey>, k: nat, p: Peer, text: Plaintext, nonce: nat)
    requires k < |keys| && SendsRight(secret, keys, k, p) && OnSchedule(secret, keys, k, p.state)
    ensures SendsRight(secret, keys, k, ActEncrypt(p, text, nonce))
  {
    EncryptKeepsHistory(p, text, nonce);
    SendKeepsSchedule(secret, keys, k, p, text, nonce);
    var p' := ActEncrypt(p, text, nonce);
    assert p'.own == p.own;
    hide ActEncrypt, SendsRight, OnSchedule, HistoryRight;
    OneMoreSends(secret, keys, k, p, p');
  }

  lemma ConservedFrame(
    secret: Bytes, keys: seq<PublicKey>, k: nat, s: State, s': State, delivered: set<MessageId>, peerSent: seq<Sent>)
    requires k < |keys| && Conserved(secret, keys, k, s, delivered, peerSent)
    requires s'.receivingChain == s.receivingChain && s'.skippedKeys == s.skippedKeys
    ensures Conserved(secret, keys, k, s', delivered, peerSent)
  {
    forall j: nat, i: nat | Incoming(k, j) && Sendable(keys, k, peerSent, j, i) && IsPast(k, s', j, i)
      ensures Kept(s', delivered, keys[j], i)
    {
      assert IsPast(k, s, j, i) && Kept(s, delivered, keys[j], i);
    }
    forall dh: PublicKey, i: nat
      ensures Kept(s', delivered, dh, i) <==> Kept(s, delivered, dh, i)
    {
    }
  }

  /** A receiver does not notice a message sent on a chain it has not left behind. */
  lemma ConservedPeerSends(
    secret: Bytes, keys: seq<PublicKey>, m: nat, s: State, delivered: set<MessageId>,
    sent: seq<Sent>, more: Sent, k: nat)
    requires m < |keys| && k < |keys| && NoRepeats(keys) && Conserved(secret, keys, m, s, delivered, sent)
    requires more.header.dhPublicKey == keys[k] && (k == m + 1 || (k == m - 1 && |keys| == m + 1))
    ensures Conserved(secret, keys, m, s, delivered, sent + [more])
  {
    forall j: nat, i: nat | Incoming(m, j) && Sendable(keys, m, sent + [more], j, i) && IsPast(m, s, j, i)
      ensures Kept(s, delivered, keys[j], i)
    {
      CountOnAppend(sent, more, keys[j]);
      assert Sendable(keys, m, sent, j, i);
    }
  }

  lemma SendKeepsLink(
    secret: Bytes, keys: seq<PublicKey>, k: nat, p: Peer, m: nat, q: Peer, text: Plaintext, nonce: nat)
    requires Linked(secret, keys, k, p, m, q)
    ensures Linked(secret, keys, k, ActEncrypt(p, text, nonce), m, q)
  {
    var p' := ActEncrypt(p, text, nonce);
    SendKeepsSchedule(secret, keys, k, p, text, nonce);
    SendKeepsOwnHalf(secret, keys, k, p, text, nonce);
    ConservedFrame(secret, keys, k, p.state, p'.state, Delivered(p.accepted), q.sent);
    if k > 0 {
      ConservedPeerSends(secret, keys, m, q.state, Delivered(q.accepted), p.sent, p'.sent[|p.sent|], k);
    }
  }

  // ---------- A delivery keeps the link ----------

  lemma ExtendKeepsReceives(
    secret: Bytes, keys: seq<PublicKey>, m: nat, s: State, delivered: set<MessageId>, peerSent: seq<Sent>,
    drawn: PublicKey)
    requires m < |keys| && Receives(secret, keys, m, s, delivered, peerSent) && drawn !in keys
    ensures Receives(secret, keys + [drawn], m, s, delivered, peerSent)
  {
    var keys' := keys + [drawn];
    ScheduleExtends(secret, keys, drawn);
    forall j: nat, i: nat | Incoming(m, j) && Sendable(keys', m, peerSent, j, i) && IsPast(m, s, j, i)
      ensures Kept(s, delivered, keys'[j], i)
    {
      assert Sendable(keys, m, peerSent, j, i) && Kept(s, delivered, keys[j], i);
    }
    forall id | id in s.skippedKeys
      ensures IsKeyFor(secret, keys', m, id, s.skippedKeys[id])
    {
      var j: nat :| OnIncoming(keys, m, id, j)
                    && s.skippedKeys[id] == MessageKeyAt(StartOf(secret, keys, j), id.number);
      assert OnIncoming(keys', m, id, j);
    }
    forall id | id in delivered
      ensures IsIncoming(keys', m, id)
    {
      var j: nat :| OnIncoming(keys, m, id, j);
      assert OnIncoming(keys', m, id, j);
    }
  }

  /** A longer schedule does not change what was sealed, nor does a new key of the sender's, two epochs on. */
  lemma ExtendKeepsSealed(secret: Bytes, keys: seq<PublicKey>, k: nat, p: Peer, k': nat, p': Peer, drawn: PublicKey)
    requires k < |keys| && SendsRight(secret, keys, k, p)
    requires p'.sent == p.sent && k' - k == 2 * (|p'.own| - |p.own|)
    ensures forall n :: 0 <= n < |p.sent| ==>
              SealedRight(secret, keys + [drawn], ChainOf(k', p', p.sent[n].turn), p.sent[n])
  {
    ScheduleExtends(secret, keys, drawn);
    forall n | 0 <= n < |p.sent|
      ensures SealedRight(secret, keys + [drawn], ChainOf(k', p', p.sent[n].turn), p.sent[n])
    {
      assert SealedRight(secret, keys, ChainOf(k, p, p.sent[n].turn), p.sent[n]);
    }
  }

  lemma NewKeySends(secret: Bytes, keys: seq<PublicKey>, k: nat, p: Peer, p': Peer, drawn: PublicKey)
    requires |keys| == k + 2 && SendsRight(secret, keys, k, p)
    requires p'.sent == p.sent && p'.own == p.own + [drawn] && HistoryRight(p')
    ensures SendsRight(secret, keys + [drawn], k + 2, p')
  {
    ExtendKeepsSealed(secret, keys, k, p, k + 2, p', drawn);
    hide HistoryRight, SealedRight;
    assert forall turn: nat :: ChainOf(k + 2, p', turn) == ChainOf(k, p, turn);
  }

  lemma DeliveryKeepsSends(
    secret: Bytes, keys: seq<PublicKey>, k: nat, p: Peer, h: Header, encrypted: Encrypted, drawn: Secret)
    requires k < |keys| && SendsRight(secret, keys, k, p) && drawn.public !in keys
    requires DecryptStep(p.state, h, encrypted, drawn).ratcheted ==> |keys| == k + 2
    ensures var p' := ActDecrypt(p, h, encrypted, drawn);
            if DecryptStep(p.state, h, encrypted, drawn).ratcheted
            then SendsRight(secret, keys + [drawn.public], k + 2, p')
            else SendsRight(secret, keys, k, p')
  {
    DecryptKeepsHistory(p, h, encrypted, drawn);
    DecryptLedger(p, h, encrypted, drawn);
    hide HistoryRight, SendsRight, ActDecrypt, DecryptStep;
    if DecryptStep(p.state, h, encrypted, drawn).ratcheted {
      NewKeySends(secret, keys, k, p, ActDecrypt(p, h, encrypted, drawn), drawn.public);
    } else {
      OneMoreSends(secret, keys, k, p, ActDecrypt(p, h, encrypted, drawn));
    }
  }

  /** What a receiver's own ledger says after a delivery. */
  ghost predicate DeliveryOutcome(p: Peer, p': Peer, r: Sent) {
    || (&& p'.accepted == p.accepted + [Accepted(r.header, r.encrypted, r.plaintext, r.encrypted.ciphertext.key)]
        && p'.limitErrors == p.limitErrors
        && Fits(p.state, r.header))
    || (&& p'.accepted == p.accepted
        && p'.limitErrors == p.limitErrors + 1
        && !Fits(p.state, r.header) && StoppedShort(p.state, p'.state, r.header))
  }

  lemma DeliveryReceives(
    secret: Bytes, keys: seq<PublicKey>, k: nat, p: Peer, m: nat, q: Peer, n: nat, drawn: Secret)
    requires Linked(secret, keys, k, p, m, q) && n < |q.sent|
    requires Id(q.sent[n].header) !in Delivered(p.accepted) && drawn.public !in keys
    ensures var r := q.sent[n];
            var d := DecryptStep(p.state, r.header, r.encrypted, drawn);
            && (d.ratcheted ==> |keys| == k + 2)
            && DeliveredRight(
                 secret, keys, k, p.state, Delivered(p.accepted), q.sent, r.header, r.plaintext, drawn, d)
            && DeliveredExactly(p.state, r.header, r.plaintext, d)
  {
    var r := q.sent[n];
    var j := ChainOf(m, q, r.turn);
    SentIsHonest(secret, keys, m, q, n);
    IncomingOrNew(k, m, j);
    DecryptHonest(secret, keys, k, p.state, Delivered(p.accepted), q.sent, j,
                  r.header, r.encrypted, r.plaintext, drawn);
  }

  lemma DeliveryKeepsReceives(
    secret: Bytes, keys: seq<PublicKey>, k: nat, p: Peer, q: Peer, r: Sent, drawn: Secret, d: DecryptResult)
    requires k < |keys| && d == DecryptStep(p.state, r.header, r.encrypted, drawn)
    requires d.ratcheted ==> |keys| == k + 2
    requires DeliveredRight(
               secret, keys, k, p.state, Delivered(p.accepted), q.sent, r.header, r.plaintext, drawn, d)
    requires DeliveredExactly(p.state, r.header, r.plaintext, d)
    ensures var p' := ActDecrypt(p, r.header, r.encrypted, drawn);
            && (if d.ratcheted
                then Receives(secret, keys + [drawn.public], k + 2, p'.state, Delivered(p'.accepted), q.sent)
                else Receives(secret, keys, k, p'.state, Delivered(p'.accepted), q.sent))
            && DeliveryOutcome(p, p', r)
  {
    DecryptTries(p.state, r.header, r.encrypted, drawn);
    if d.outcome.Ok? {
      DeliveredAppend(p.accepted, Accepted(r.header, r.encrypted, r.plaintext, d.tried.value));
    }
  }

  /** The party that did not ratchet is where it was, on the longer schedule. */
  lemma PeerAfterRatchet(
    secret: Bytes, keys: seq<PublicKey>, k: nat, p: Peer, m: nat, q: Peer, drawn: PublicKey)
    requires Linked(secret, keys, k, p, m, q) && drawn !in keys
    ensures SendsRight(secret, keys + [drawn], m, q)
    ensures Receives(secret, keys + [drawn], m, q.state, Delivered(q.accepted), p.sent)
  {
    ExtendKeepsReceives(secret, keys, m, q.state, Delivered(q.accepted), p.sent, drawn);
    ExtendKeepsSealed(secret, keys, m, q, m, q, drawn);
  }

  /** Delivering a message the peer sent, and that was not accepted before, keeps the link and has the right outcome. */
  lemma DeliveryKeepsLink(
    secret: Bytes, keys: seq<PublicKey>, k: nat, p: Peer, m: nat, q: Peer, n: nat, drawn: Secret)
    requires Linked(secret, keys, k, p, m, q) && n < |q.sent|
    requires Id(q.sent[n].header) !in Delivered(p.accepted) && drawn.public !in keys
    ensures var p' := ActDecrypt(p, q.sent[n].header, q.sent[n].encrypted, drawn);
            && (if p'.own == p.own then Linked(secret, keys, k, p', m, q)
                else k + 1 == m && p'.own == p.own + [drawn.public]
                     && Linked(secret, keys + [drawn.public], k + 2, p', m, q))
            && DeliveryOutcome(p, p', q.sent[n])
  {
    var r := q.sent[n];
    var d := DecryptStep(p.state, r.header, r.encrypted, drawn);
    DeliveryReceives(secret, keys, k, p, m, q, n, drawn);
    DeliveryKeepsReceives(secret, keys, k, p, q, r, drawn, d);
    DeliveryKeepsSends(secret, keys, k, p, r.header, r.encrypted, drawn);
    if d.ratcheted {
      PeerAfterRatchet(secret, keys, k, p, m, q, drawn.public);
    }
  }
}
