/**
 The key schedule two honest parties share. `keys` lists their ratchet keys in the order drawn: the responder's signed
 pre-key, the initiator's first key, the responder's next, and so on in turns. A party at epoch k owns key k, sends on
 chain k and receives on chain k - 1.
 */
module KeySchedule {
  import opened Wrappers
  import opened SymbolicCrypto
  import opened MessageHeader
  import opened SessionSpec
  import opened SkipLimits
  import opened KeyDiscipline
  import opened SessionRuns

  function RootAt(secret: Bytes, keys: seq<PublicKey>, i: nat): Bytes
    requires i < |keys|
  {
    if i == 0 then secret else Root(RootAt(secret, keys, i - 1), Dh(Secret(keys[i - 1]), keys[i]))
  }

  /** The first key of chain j. */
  function StartOf(secret: Bytes, keys: seq<PublicKey>, j: nat): Bytes
    requires 1 <= j < |keys|
  {
    Chain(RootAt(secret, keys, j - 1), Dh(Secret(keys[j - 1]), keys[j]))
  }

  lemma {:induction false} RootExtends(secret: Bytes, keys: seq<PublicKey>, key: PublicKey, i: nat)
    requires i < |keys|
    ensures RootAt(secret, keys + [key], i) == RootAt(secret, keys, i)
  {
    if i > 0 {
      RootExtends(secret, keys, key, i - 1);
    }
  }

  lemma ScheduleExtends(secret: Bytes, keys: seq<PublicKey>, key: PublicKey)
    ensures forall i: nat :: i < |keys| ==> RootAt(secret, keys + [key], i) == RootAt(secret, keys, i)
    ensures forall j: nat :: 1 <= j < |keys| ==> StartOf(secret, keys + [key], j) == StartOf(secret, keys, j)
  {
    forall i: nat | i < |keys|
      ensures RootAt(secret, keys + [key], i) == RootAt(secret, keys, i)
    {
      RootExtends(secret, keys, key, i);
    }
  }

  // ---------- A party on schedule ----------

  predicate ChainOn(c: Option<ChainState>, start: Bytes) {
    c.Some? && c.value.key == ChainKeyAt(start, c.value.index)
  }

  ghost predicate OnSchedule(secret: Bytes, keys: seq<PublicKey>, k: nat, s: State)
    requires k < |keys|
  {
    && s.rootKey == RootAt(secret, keys, k)
    && s.dhSecret == Secret(keys[k]) && s.dhPublic == keys[k]
    && s.remoteDhPublic == (if k == 0 then None else Some(keys[k - 1]))
    && (if k == 0 then s.sendingChain.None? else ChainOn(s.sendingChain, StartOf(secret, keys, k)))
    && (if k < 2 then s.receivingChain.None? else ChainOn(s.receivingChain, StartOf(secret, keys, k - 1)))
  }

  /** The key of the schedule, and the chain, that belong to a party's own key number `turn`: two epochs for each. */
  function ChainOf(k: nat, p: Peer, turn: nat): int {
    k - 2 * (|p.own| - 1 - turn)
  }

  /** A message is sealed under the key of its number on chain j. */
  ghost predicate SealedRight(secret: Bytes, keys: seq<PublicKey>, j: int, m: Sent) {
    && 1 <= j < |keys|
    && m.encrypted.ciphertext ==
         Sealed(MessageKeyAt(StartOf(secret, keys, j), m.header.messageNumber), m.encrypted.nonce, m.plaintext,
                ToBytes(m.header))
  }

  /** The sending half of a party at epoch k: its own keys, and the keys of all it has sent, are the schedule's. */
  ghost predicate SendsRight(secret: Bytes, keys: seq<PublicKey>, k: nat, p: Peer)
    requires k < |keys|
  {
    && |p.own| > 0 && 0 <= ChainOf(k, p, 0) <= 1
    && (forall t :: 0 <= t < |p.own| ==> p.own[t] == keys[ChainOf(k, p, t)])
    && HistoryRight(p)
    && (forall n :: 0 <= n < |p.sent| ==> SealedRight(secret, keys, ChainOf(k, p, p.sent[n].turn), p.sent[n]))
  }

  // ---------- Conservation ----------

  predicate Incoming(k: nat, j: nat) {
    1 <= j < k && (k - j) % 2 == 1
  }

  /** A number of an incoming chain that the receiver has passed: all of an old chain, some of the current one. */
  predicate IsPast(k: nat, s: State, j: nat, i: nat) {
    j == k - 1 ==> i < IndexOf(s.receivingChain)
  }

  /** The peer has sent the message of that number, or can still send it: one epoch behind, it is on that chain. */
  predicate Sendable(keys: seq<PublicKey>, k: nat, peerSent: seq<Sent>, j: nat, i: nat)
    requires j < k < |keys|
  {
    i < CountOn(peerSent, keys[j]) || (j == k - 1 && |keys| == k + 1)
  }

  predicate Kept(s: State, delivered: set<MessageId>, dh: PublicKey, i: nat) {
    MessageId(dh, i) in delivered || MessageId(dh, i) in s.skippedKeys
  }

  ghost predicate NothingAhead(s: State, delivered: set<MessageId>, dh: PublicKey) {
    forall id: MessageId :: id.dhPublicKey == dh && (id in delivered || id in s.skippedKeys) ==>
      id.number < IndexOf(s.receivingChain)
  }

  predicate OnIncoming(keys: seq<PublicKey>, k: nat, id: MessageId, j: nat)
    requires k < |keys|
  {
    Incoming(k, j) && keys[j] == id.dhPublicKey
  }

  /** The identifier belongs to an incoming chain. */
  ghost predicate IsIncoming(keys: seq<PublicKey>, k: nat, id: MessageId)
    requires k < |keys|
  {
    exists j: nat :: OnIncoming(keys, k, id, j)
  }

  /** The identifier belongs to an incoming chain, and the key is the schedule's key for it. */
  ghost predicate IsKeyFor(secret: Bytes, keys: seq<PublicKey>, k: nat, id: MessageId, key: Bytes)
    requires k < |keys|
  {
    exists j: nat :: OnIncoming(keys, k, id, j) && key == MessageKeyAt(StartOf(secret, keys, j), id.number)
  }

  /**
   On each incoming chain, of the messages there are or can be, those already passed are delivered or stored, and
   nothing ahead is; nothing is both; and every stored key is the schedule's key for its name. The receiver may be ahead
   of what was sent.
   */
  ghost predicate Conserved(
    secret: Bytes, keys: seq<PublicKey>, k: nat, s: State, delivered: set<MessageId>, peerSent: seq<Sent>)
    requires k < |keys|
  {
    && (forall j: nat, i: nat :: Incoming(k, j) && Sendable(keys, k, peerSent, j, i) && IsPast(k, s, j, i) ==>
          Kept(s, delivered, keys[j], i))
    && (k >= 2 ==> NothingAhead(s, delivered, keys[k - 1]))
    && (forall id :: id in s.skippedKeys ==> id !in delivered && IsKeyFor(secret, keys, k, id, s.skippedKeys[id]))
    && (forall id :: id in delivered ==> IsIncoming(keys, k, id))
  }

  function Delivered(accepted: seq<Accepted>): set<MessageId> {
    set i | 0 <= i < |accepted| :: Id(accepted[i].header)
  }

  lemma DeliveredAppend(accepted: seq<Accepted>, m: Accepted)
    ensures Delivered(accepted + [m]) == Delivered(accepted) + {Id(m.header)}
  {
    var more := accepted + [m];
    forall id | id in Delivered(accepted) + {Id(m.header)}
      ensures id in Delivered(more)
    {
      if id == Id(m.header) {
        assert more[|accepted|] == m;
      } else {
        var i :| 0 <= i < |accepted| && id == Id(accepted[i].header);
        assert more[i] == accepted[i];
      }
    }
  }

  /** The receiving half of a party at epoch k. */
  ghost predicate Receives(
    secret: Bytes, keys: seq<PublicKey>, k: nat, s: State, delivered: set<MessageId>, peerSent: seq<Sent>)
    requires k < |keys|
  {
    NoRepeats(keys) && OnSchedule(secret, keys, k, s) && Conserved(secret, keys, k, s, delivered, peerSent)
  }

  // ---------- What each piece of a decryption does to it ----------

  /** The skip loop stores the schedule's keys. */
  lemma {:induction false} SkipToKeys(
    chain: ChainState, until: nat, dh: PublicKey, skipped: SkippedKeys, start: Bytes)
    requires chain.key == ChainKeyAt(start, chain.index)
    ensures var r := SkipTo(chain, until, dh, skipped);
            && r.chain.key == ChainKeyAt(start, r.chain.index)
            && forall id :: id in r.skipped && InRange(id, dh, chain.index, r.chain.index) ==>
                 r.skipped[id] == MessageKeyAt(start, id.number)
    decreases until - chain.index
  {
    if chain.index < until {
      var (next, messageKey) := Advance(chain);
      var skipped' := skipped[MessageId(dh, chain.index) := messageKey];
      assert next.key == ChainKeyAt(start, next.index);
      if |skipped'| <= MAX_SKIP {
        SkipToKeys(next, until, dh, skipped', start);
        SkipToStores(next, until, dh, skipped');
      }
    }
  }

  lemma StoreKeepsConserved(
    secret: Bytes, keys: seq<PublicKey>, k: nat, s: State, s': State, delivered: set<MessageId>, peerSent: seq<Sent>)
    requires 2 <= k < |keys| && NoRepeats(keys) && Conserved(secret, keys, k, s, delivered, peerSent)
    requires IndexOf(s.receivingChain) <= IndexOf(s'.receivingChain)
    requires forall id :: id in s'.skippedKeys <==>
               id in s.skippedKeys || InRange(id, keys[k - 1], IndexOf(s.receivingChain), IndexOf(s'.receivingChain))
    requires forall id :: id in s'.skippedKeys ==>
               s'.skippedKeys[id] == if InRange(id, keys[k - 1], IndexOf(s.receivingChain), IndexOf(s'.receivingChain))
                                     then MessageKeyAt(StartOf(secret, keys, k - 1), id.number)
                                     else s.skippedKeys[id]
    ensures Conserved(secret, keys, k, s', delivered, peerSent)
  {
    var lo, hi := IndexOf(s.receivingChain), IndexOf(s'.receivingChain);
    assert Incoming(k, k - 1);
    forall j: nat, i: nat | Incoming(k, j) && Sendable(keys, k, peerSent, j, i) && IsPast(k, s', j, i)
      ensures Kept(s', delivered, keys[j], i)
    {
      assert IsPast(k, s, j, i) ==> Kept(s, delivered, keys[j], i);
    }
    forall id | id in s'.skippedKeys
      ensures id !in delivered && IsKeyFor(secret, keys, k, id, s'.skippedKeys[id])
    {
      if InRange(id, keys[k - 1], lo, hi) {
        assert !Kept(s, delivered, keys[k - 1], id.number);
        assert id == MessageId(keys[k - 1], id.number);
        assert OnIncoming(keys, k, id, k - 1);
      }
    }
  }

  lemma UseNextKeepsConserved(
    secret: Bytes, keys: seq<PublicKey>, k: nat, s: State, s': State, delivered: set<MessageId>, peerSent: seq<Sent>)
    requires 2 <= k < |keys| && NoRepeats(keys) && Conserved(secret, keys, k, s, delivered, peerSent)
    requires IndexOf(s'.receivingChain) == IndexOf(s.receivingChain) + 1
    requires s'.skippedKeys == s.skippedKeys
    ensures Conserved(secret, keys, k, s', delivered + {MessageId(keys[k - 1], IndexOf(s.receivingChain))}, peerSent)
  {
    var i0 := IndexOf(s.receivingChain);
    var delivered' := delivered + {MessageId(keys[k - 1], i0)};
    assert !Kept(s, delivered, keys[k - 1], i0);
    assert OnIncoming(keys, k, MessageId(keys[k - 1], i0), k - 1);
    forall j: nat, i: nat | Incoming(k, j) && Sendable(keys, k, peerSent, j, i) && IsPast(k, s', j, i)
      ensures Kept(s', delivered', keys[j], i)
    {
      assert IsPast(k, s, j, i) ==> Kept(s, delivered, keys[j], i);
    }
  }

  lemma UseStoredKeepsConserved(
    secret: Bytes, keys: seq<PublicKey>, k: nat, s: State, delivered: set<MessageId>, peerSent: seq<Sent>,
    id: MessageId)
    requires k < |keys| && Conserved(secret, keys, k, s, delivered, peerSent)
    requires id in s.skippedKeys
    ensures Conserved(secret, keys, k, s.(skippedKeys := s.skippedKeys - {id}), delivered + {id}, peerSent)
  {
    var s', delivered' := s.(skippedKeys := s.skippedKeys - {id}), delivered + {id};
    forall dh: PublicKey, i: nat
      ensures Kept(s', delivered', dh, i) <==> Kept(s, delivered, dh, i)
    {
    }
  }

  lemma NamesSurviveRatchet(secret: Bytes, keys: seq<PublicKey>, k: nat, drawn: PublicKey)
    requires |keys| == k + 2
    ensures forall id :: IsIncoming(keys, k, id) ==> IsIncoming(keys + [drawn], k + 2, id)
    ensures forall id, key :: IsKeyFor(secret, keys, k, id, key) ==> IsKeyFor(secret, keys + [drawn], k + 2, id, key)
  {
    var keys', k' := keys + [drawn], k + 2;
    ScheduleExtends(secret, keys, drawn);
    forall id | IsIncoming(keys, k, id)
      ensures IsIncoming(keys', k', id)
    {
      var j: nat :| OnIncoming(keys, k, id, j);
      assert OnIncoming(keys', k', id, j);
    }
    forall id, key | IsKeyFor(secret, keys, k, id, key)
      ensures IsKeyFor(secret, keys', k', id, key)
    {
      var j: nat :| OnIncoming(keys, k, id, j) && key == MessageKeyAt(StartOf(secret, keys, j), id.number);
      assert OnIncoming(keys', k', id, j);
    }
  }

  /** When all of the old chain is passed, a ratchet to the peer's next key moves the receiver two epochs on. */
  lemma RatchetKeepsConserved(
    secret: Bytes, keys: seq<PublicKey>, k: nat, s: State, s': State, delivered: set<MessageId>, peerSent: seq<Sent>,
    drawn: PublicKey)
    requires |keys| == k + 2 && NoRepeats(keys) && Conserved(secret, keys, k, s, delivered, peerSent)
    requires k >= 2 ==> IndexOf(s.receivingChain) >= CountOn(peerSent, keys[k - 1])
    requires s'.skippedKeys == s.skippedKeys && IndexOf(s'.receivingChain) == 0
    ensures Conserved(secret, keys + [drawn], k + 2, s', delivered, peerSent)
  {
    var keys', k' := keys + [drawn], k + 2;
    forall j: nat, i: nat | Incoming(k', j) && Sendable(keys', k', peerSent, j, i) && IsPast(k', s', j, i)
      ensures Kept(s', delivered, keys'[j], i)
    {
      assert Incoming(k, j) && Sendable(keys, k, peerSent, j, i) && IsPast(k, s, j, i);
      assert Kept(s, delivered, keys[j], i);
    }
    forall id: MessageId | id in delivered || id in s.skippedKeys
      ensures id.dhPublicKey != keys[k + 1]
    {
      assert id in delivered ==> IsIncoming(keys, k, id);
      assert id in s.skippedKeys ==> IsKeyFor(secret, keys, k, id, s.skippedKeys[id]);
    }
    NamesSurviveRatchet(secret, keys, k, drawn);
  }

  lemma RatchetOnSchedule(secret: Bytes, keys: seq<PublicKey>, k: nat, s: State, drawn: Secret)
    requires |keys| == k + 2 && OnSchedule(secret, keys, k, s)
    ensures OnSchedule(secret, keys + [drawn.public], k + 2, Ratchet(s, keys[k + 1], drawn))
  {
    var keys' := keys + [drawn.public];
    ScheduleExtends(secret, keys, drawn.public);
    DhAgrees(drawn.public, keys[k + 1], keys[k + 1]);
    assert RootAt(secret, keys', k + 1) == Root(s.rootKey, Dh(s.dhSecret, keys[k + 1]));
    assert drawn == Secret(drawn.public);
  }
}
