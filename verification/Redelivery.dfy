/**
 What a second delivery of an accepted message does. The program has no check for a message number that lies behind
 the receiving chain, so such a delivery burns a key, or ratchets to an old key, or stores keys too early. These lemmas
 give the shortest run in which a duplicate loses the next message, and say for every duplicate what it does and what
 is lost for good.
 */
module Redelivery {
  import opened Wrappers
  import opened SymbolicCrypto
  import opened MessageHeader
  import opened SessionSpec
  import opened SkipLimits
  import opened KeyDiscipline
  import opened SessionRuns
  import opened HostileNetwork
  import opened KeySchedule
  import opened Lockstep
  import opened Delivery
  import opened Interference
  import opened Loss
  import opened Guarantee
  import opened Forgery

  // ---------- A message behind the chain ----------

  /** A message whose number the receiving chain has passed, and whose key is not stored, fails and costs a key. */
  lemma BehindFails(s: State, start: Bytes, h: Header, encrypted: Encrypted, drawn: Secret)
    requires !NeedsRatchet(s, h) && ChainOn(s.receivingChain, start) && Id(h) !in s.skippedKeys
    requires h.messageNumber < s.receivingChain.value.index
    requires encrypted.ciphertext.key == MessageKeyAt(start, h.messageNumber)
    ensures var d := DecryptStep(s, h, encrypted, drawn);
            && d.outcome == Err(AeadFailure) && !d.ratcheted
            && d.tried == Some(Advance(s.receivingChain.value).1)
            && d.state == s.(receivingChain := Some(Advance(s.receivingChain.value).0))
  {
    MessageKeysDiffer(start, h.messageNumber, s.receivingChain.value.index);
  }

  /** The two messages the initiator sends first, and the chain both parties have for them. */
  lemma FirstTwo(
    secret: Bytes, spk: SignedPreKey, first: Secret, text0: Plaintext, nonce0: nat, text1: Plaintext, nonce1: nat)
    requires spk.secret.public == spk.public
    ensures var e0 := EncryptStep(Start(secret, spk, first).alice.state, text0, nonce0);
            var e1 := EncryptStep(e0.state, text1, nonce1);
            var start := Chain(secret, Dh(spk.secret, first.public));
            var (h0, h1) := (Header(first.public, 0, 0), Header(first.public, 1, 0));
            && e0.outcome == Ok((h0, Seal(MessageKeyAt(start, 0), nonce0, text0, ToBytes(h0))))
            && e1.outcome == Ok((h1, Seal(MessageKeyAt(start, 1), nonce1, text1, ToBytes(h1))))
  {
    DhAgrees(spk.public, first.public, first.public);
    assert spk.secret == Secret(spk.public) && first == Secret(first.public);
    var start := Chain(secret, Dh(spk.secret, first.public));
    assert ChainKeyAt(start, 1) == Advance(ChainState(start, 0)).0.key;
  }

  /**
   The shortest loss, between two sessions just set up: if message 0 is delivered twice, message 1 cannot be read,
   though it can without the duplicate.
   */
  lemma DuplicateLosesNext(
    secret: Bytes, spk: SignedPreKey, first: Secret, text0: Plaintext, nonce0: nat, text1: Plaintext, nonce1: nat,
    drawn: Secret)
    requires spk.secret.public == spk.public
    ensures var sys := Start(secret, spk, first);
            var e0 := EncryptStep(sys.alice.state, text0, nonce0);
            var e1 := EncryptStep(e0.state, text1, nonce1);
            && e0.outcome.Ok? && e1.outcome.Ok?
            && (var ((h0, c0), (h1, c1)) := (e0.outcome.value, e1.outcome.value);
                var once := DecryptStep(sys.bob.state, h0, c0, drawn);
                var twice := DecryptStep(once.state, h0, c0, drawn);
                && once.outcome == Ok(text0)
                && DecryptStep(once.state, h1, c1, drawn).outcome == Ok(text1)
                && twice.outcome == Err(AeadFailure)
                && DecryptStep(twice.state, h1, c1, drawn).outcome == Err(AeadFailure))
  {
    FirstTwo(secret, spk, first, text0, nonce0, text1, nonce1);
    var start := Chain(secret, Dh(spk.secret, first.public));
    var h0, h1 := Header(first.public, 0, 0), Header(first.public, 1, 0);
    var c0 := Seal(MessageKeyAt(start, 0), nonce0, text0, ToBytes(h0));
    var c1 := Seal(MessageKeyAt(start, 1), nonce1, text1, ToBytes(h1));
    var once := DecryptStep(InitBob(secret, spk), h0, c0, drawn).state;
    assert ChainKeyAt(start, 1) == Advance(ChainState(start, 0)).0.key;
    assert once.receivingChain == Some(ChainState(ChainKeyAt(start, 1), 1));
    BehindFails(once, start, h0, c0, drawn);
    var twice := DecryptStep(once, h0, c0, drawn).state;
    assert twice.receivingChain == Some(ChainState(ChainKeyAt(start, 2), 2));
    BehindFails(twice, start, h1, c1, drawn);
  }

  // ---------- When the lockstep survives a duplicate ----------

  /** Where an accepted message was: behind the current chain, or on an older one that would need a ratchet. */
  lemma DeliveredNotStored(
    secret: Bytes, keys: seq<PublicKey>, k: nat, s: State, delivered: set<MessageId>, peerSent: seq<Sent>, h: Header)
    returns (j: nat)
    requires k < |keys| && Receives(secret, keys, k, s, delivered, peerSent) && Id(h) in delivered
    ensures OnIncoming(keys, k, Id(h), j) && Id(h) !in s.skippedKeys && s.receivingChain.Some?
    ensures NeedsRatchet(s, h) <==> j != k - 1
    ensures !NeedsRatchet(s, h) ==> h.messageNumber < IndexOf(s.receivingChain)
  {
    assert IsIncoming(keys, k, Id(h));
    j :| OnIncoming(keys, k, Id(h), j);
  }

  /**
   A duplicate that costs nothing: one from an old chain that the limit stops before its ratchet, or one on the current
   chain when the peer has sent all it will on it and all of that is passed.
   */
  predicate CostsNothing(s: State, h: Header, next: PublicKey, peerSent: seq<Sent>) {
    if NeedsRatchet(s, h) then !HasRoom(|s.skippedKeys|, Missing(s, h.previousChainLength))
    else NeverSent(MessageId(h.dhPublicKey, IndexOf(s.receivingChain)), next, peerSent)
  }

  lemma DuplicateCost(
    secret: Bytes, keys: seq<PublicKey>, k: nat, s: State, delivered: set<MessageId>, peerSent: seq<Sent>,
    m: nat, h: Header)
    requires k < |keys| && m < |keys| && (k == m + 1 || m == k + 1)
    requires Receives(secret, keys, k, s, delivered, peerSent) && Id(h) in delivered
    ensures LosesNothing(s, h, keys[m], peerSent) <==> CostsNothing(s, h, keys[m], peerSent)
    ensures Id(h) !in s.skippedKeys && s.receivingChain.Some?
    ensures if NeedsRatchet(s, h) then h.dhPublicKey != keys[m] else h.messageNumber < IndexOf(s.receivingChain)
  {
    var j := DeliveredNotStored(secret, keys, k, s, delivered, peerSent, h);
    assert j < m + 1 && keys[j] == h.dhPublicKey;
  }

  /** The same between two parties in lockstep. */
  lemma DuplicateCostNow(secret: Bytes, sys: System, who: Party, h: Header)
    requires InLockstep(secret, sys) && Id(h) in Delivered(At(sys, who).accepted)
    ensures var (s, q) := (At(sys, who).state, At(sys, Other(who)));
            && (LosesNothing(s, h, q.state.dhPublic, q.sent) <==> CostsNothing(s, h, q.state.dhPublic, q.sent))
            && Id(h) !in s.skippedKeys && s.receivingChain.Some?
            && if NeedsRatchet(s, h) then h.dhPublicKey != q.state.dhPublic
               else h.messageNumber < s.receivingChain.value.index
  {
    hide SendsRight, Conserved, LosesNothing, CostsNothing;
    var p, q := At(sys, who), At(sys, Other(who));
    PartyLinked(secret, sys, who);
    LockstepBasics(secret, sys, who);
    LockstepBasics(secret, sys, Other(who));
    DuplicateCost(secret, sys.keys, EpochOf(sys, who), p.state, Delivered(p.accepted), q.sent,
                  EpochOf(sys, Other(who)), h);
  }

  /** A duplicate in lockstep: nothing but a failure of some kind. */
  lemma DuplicateFails(secret: Bytes, sys: System, who: Party, n: nat, drawn: Secret)
    requires InLockstep(secret, sys) && Guarded(secret, sys)
    requires n < |At(sys, Other(who)).sent| && !Undelivered(sys, who, n)
    ensures var m := At(sys, Other(who)).sent[n];
            DecryptStep(At(sys, who).state, m.header, m.encrypted, drawn).outcome.Err?
  {
    hide InLockstep, Guarded, DecryptStep;
    var q := At(sys, Other(who));
    var m := q.sent[n];
    LockstepHistory(secret, sys, Other(who));
    assert WasSent(q.sent, m.encrypted.ciphertext);
    if DecryptStep(At(sys, who).state, m.header, m.encrypted, drawn).outcome.Ok? {
      OnlyUndeliveredAccepted(secret, sys, who, m.header, m.encrypted, drawn);
    }
  }

  /**
   The delivery guarantee survives a duplicate, and the lockstep with it, exactly when the duplicate costs nothing;
   that can be told before the call.
   */
  lemma DuplicateSurvivedIff(secret: Bytes, sys: System, who: Party, n: nat, drawn: Secret)
    requires InLockstep(secret, sys) && Guarded(secret, sys) && drawn.public !in sys.keys
    requires n < |At(sys, Other(who)).sent| && !Undelivered(sys, who, n)
    ensures HasKeys(sys)
    ensures var (s, q) := (At(sys, who).state, At(sys, Other(who)));
            var sys' := Step(sys, Deliver(sys, who, n, drawn));
            && (Delivers(sys') <==> CostsNothing(s, q.sent[n].header, q.state.dhPublic, q.sent))
            && (InLockstep(secret, sys') <==> Delivers(sys'))
  {
    hide InLockstep, Guarded, Step, LosesNothing, CostsNothing, DecryptStep, Delivers;
    var q := At(sys, Other(who));
    LockstepBasics(secret, sys, who);
    DuplicateFails(secret, sys, who, n, drawn);
    DuplicateCostNow(secret, sys, who, q.sent[n].header);
    FailureKeepsLockstepIff(secret, sys, who, q.sent[n].header, q.sent[n].encrypted, drawn);
    if CostsNothing(At(sys, who).state, q.sent[n].header, q.state.dhPublic, q.sent) {
      LockstepDelivers(secret, Step(sys, Deliver(sys, who, n, drawn)));
    } else {
      FailureBreaks(secret, sys, who, q.sent[n].header, q.sent[n].encrypted, drawn);
    }
  }

  // ---------- What is lost ----------

  /**
   A duplicate on the current chain: it fails, and the message whose number the chain had reached is lost. In no later
   run of the two, whatever else happens, is it accepted, be it on its way already or yet to be sent.
   */
  lemma DuplicateOnCurrentLoses(
    secret: Bytes, sys: System, who: Party, n: nat, drawn: Secret, calls: seq<Call>, peerCalls: seq<Call>)
    requires InLockstep(secret, sys) && Guarded(secret, sys)
    requires n < |At(sys, Other(who)).sent| && !Undelivered(sys, who, n)
    requires !NeedsRatchet(At(sys, who).state, At(sys, Other(who)).sent[n].header)
    requires DrawsNoneOf(peerCalls, {At(sys, Other(who)).sent[n].header.dhPublicKey})
    ensures var (p, q) := (At(sys, who), At(sys, Other(who)));
            var h := q.sent[n].header;
            var after := ActDecrypt(p, h, q.sent[n].encrypted, drawn);
            var lost := MessageId(h.dhPublicKey, IndexOf(p.state.receivingChain));
            && |after.own| > 0 && |q.own| > 0 && after.accepted == p.accepted && lost !in Delivered(p.accepted)
            && NeverAccepted(after, calls, q, peerCalls, lost)
  {
    hide InLockstep, Guarded, NeverAccepted, DecryptStep, ActDecrypt, LosesNothing, CostsNothing;
    var p, q := At(sys, who), At(sys, Other(who));
    var h, encrypted := q.sent[n].header, q.sent[n].encrypted;
    DuplicateCostNow(secret, sys, who, h);
    DuplicateFails(secret, sys, who, n, drawn);
    DecryptLedger(p, h, encrypted, drawn);
    TakenKeyIsLost(secret, sys, who, h, encrypted, drawn, calls, peerCalls);
  }

  /**
   A duplicate from an old chain that the limit does not stop: it fails, and it cuts the receiver off. In no later run
   of the two is any message of the peer accepted, except those whose keys were stored by then.
   */
  lemma DuplicateOnOldCutsOff(
    secret: Bytes, sys: System, who: Party, n: nat, drawn: Secret, calls: seq<Call>, peerCalls: seq<Call>)
    requires InLockstep(secret, sys) && Guarded(secret, sys)
    requires n < |At(sys, Other(who)).sent| && !Undelivered(sys, who, n)
    requires var (s, h) := (At(sys, who).state, At(sys, Other(who)).sent[n].header);
             && NeedsRatchet(s, h) && HasRoom(|s.skippedKeys|, Missing(s, h.previousChainLength))
             && DrawsNoneOf(peerCalls, {s.dhPublic, h.dhPublicKey})
    ensures var (p, q) := (At(sys, who), At(sys, Other(who)));
            var after := ActDecrypt(p, q.sent[n].header, q.sent[n].encrypted, drawn);
            && |after.own| > 0 && |q.own| > 0 && after.accepted == p.accepted
            && Severed(after, calls, q, peerCalls)
  {
    hide InLockstep, Guarded, Severed, DecryptStep, ActDecrypt, LosesNothing, CostsNothing;
    var p, q := At(sys, who), At(sys, Other(who));
    var h, encrypted := q.sent[n].header, q.sent[n].encrypted;
    DuplicateCostNow(secret, sys, who, h);
    DuplicateFails(secret, sys, who, n, drawn);
    DecryptLedger(p, h, encrypted, drawn);
    AstrayCutsOff(secret, sys, who, h, encrypted, drawn, calls, peerCalls);
  }

  // ---------- A duplicate that stalls ----------

  lemma StoresEarly(s: State, until: nat)
    requires CurrentKeysNew(s) && !HasRoom(|s.skippedKeys|, Missing(s, until))
    ensures s.receivingChain.Some? && s.remoteDhPublic.Some? && !SkipCurrent(s, until).1
    ensures var last := s.receivingChain.value.index + Burst(|s.skippedKeys|) - 1;
            MessageId(s.remoteDhPublic.value, last) in SkipCurrent(s, until).0.skippedKeys
  {
    SkipCurrentExactly(s, until);
    SkipToStores(s.receivingChain.value, until, s.remoteDhPublic.value, s.skippedKeys);
  }

  lemma NumbersBelowCount(secret: Bytes, keys: seq<PublicKey>, m: nat, q: Peer)
    requires m < |keys| && SendsRight(secret, keys, m, q)
    ensures forall b :: 0 <= b < |q.sent| ==>
              q.sent[b].header.messageNumber < CountOn(q.sent, q.sent[b].header.dhPublicKey)
  {
    hide SendsRight;
    forall b | 0 <= b < |q.sent|
      ensures q.sent[b].header.messageNumber < CountOn(q.sent, q.sent[b].header.dhPublicKey)
    {
      SentIsHonest(secret, keys, m, q, b);
    }
  }

  /** What such a duplicate does: the skip-limit error, and keys stored, of unsent messages too if it gets that far. */
  lemma DuplicateStoresEarly(
    secret: Bytes, keys: seq<PublicKey>, k: nat, p: Peer, m: nat, q: Peer,
    h: Header, encrypted: Encrypted, drawn: Secret)
    requires Linked(secret, keys, k, p, m, q) && Id(h) !in p.state.skippedKeys && NeedsRatchet(p.state, h)
    requires !HasRoom(|p.state.skippedKeys|, Missing(p.state, h.previousChainLength))
    ensures var d := DecryptStep(p.state, h, encrypted, drawn);
            && d.outcome == Err(SkipLimit) && !d.ratcheted
            && (SentOnCurrent(p.state, q.sent) < IndexOf(p.state.receivingChain) + Burst(|p.state.skippedKeys|) ==>
                  exists id :: id in d.state.skippedKeys
                    && forall b :: 0 <= b < |q.sent| ==> Id(q.sent[b].header) != id)
  {
    hide SendsRight, Conserved, OnSchedule, DecryptStep, SkipCurrent, HasRoom;
    KeysAreNew(secret, keys, k, p.state, Delivered(p.accepted), q.sent, h);
    RatchetedParts(p.state, h, encrypted, drawn);
    StoresEarly(p.state, h.previousChainLength);
    NumbersBelowCount(secret, keys, m, q);
  }

  /**
   A duplicate from an old chain that the limit stops: it stores keys, of messages not sent yet if it comes to that, and
   costs no message. Everything is still delivered as it should, in every honest run from then on.
   */
  lemma DuplicateStalls(secret: Bytes, sys: System, who: Party, n: nat, drawn: Secret)
    requires InLockstep(secret, sys) && Guarded(secret, sys) && drawn.public !in sys.keys
    requires n < |At(sys, Other(who)).sent| && !Undelivered(sys, who, n)
    requires var (s, h) := (At(sys, who).state, At(sys, Other(who)).sent[n].header);
             NeedsRatchet(s, h) && !HasRoom(|s.skippedKeys|, Missing(s, h.previousChainLength))
    ensures var (p, q) := (At(sys, who), At(sys, Other(who)));
            var d := DecryptStep(p.state, q.sent[n].header, q.sent[n].encrypted, drawn);
            && HasKeys(sys) && Delivers(Step(sys, Deliver(sys, who, n, drawn)))
            && d.outcome == Err(SkipLimit) && !d.ratcheted
            && (SentOnCurrent(p.state, q.sent) < IndexOf(p.state.receivingChain) + Burst(|p.state.skippedKeys|) ==>
                  exists id :: id in d.state.skippedKeys
                    && forall b :: 0 <= b < |q.sent| ==> Id(q.sent[b].header) != id)
  {
    hide InLockstep, Guarded, Linked, Step, DecryptStep, LosesNothing, Delivers, HasRoom;
    var p, q := At(sys, who), At(sys, Other(who));
    LockstepBasics(secret, sys, who);
    LockstepBasics(secret, sys, Other(who));
    PartyLinked(secret, sys, who);
    DuplicateCostNow(secret, sys, who, q.sent[n].header);
    DuplicateSurvivedIff(secret, sys, who, n, drawn);
    DuplicateStoresEarly(secret, sys.keys, EpochOf(sys, who), p, EpochOf(sys, Other(who)), q,
                         q.sent[n].header, q.sent[n].encrypted, drawn);
  }
}
