/**
 What an arbitrary delivery does to the lockstep of two sessions. The program changes its state before it
 authenticates, so any header can do damage; these lemmas say exactly which deliveries the lockstep survives, for every
 header and every ciphertext the network can present.
 */
module Interference {
  import opened Wrappers
  import opened SymbolicCrypto
  import opened MessageHeader
  import opened SessionSpec
  import opened SkipLimits
  import opened KeyDiscipline
  import opened SessionRuns
  import opened HostileNetwork
  import opened KeySchedule
  import opened Lockstep
  import opened Delivery

  // ---------- Calls that lose nothing ----------

  function SentOnCurrent(s: State, peerSent: seq<Sent>): nat {
    if s.remoteDhPublic.Some? then CountOn(peerSent, s.remoteDhPublic.value) else 0
  }

  /** No message of that name was sent, and none will be: the ratchet key the peer has now, `next`, is another one. */
  predicate NeverSent(id: MessageId, next: PublicKey, peerSent: seq<Sent>) {
    id.dhPublicKey != next && CountOn(peerSent, id.dhPublicKey) <= id.number
  }

  /**
   A failed call that costs the receiver no message: it takes no key, because there is no chain or the limit stops it
   first; or the key it takes is of a message that never was and never will be; or it ratchets to the ratchet key the
   peer has now, passing over nothing that was sent, and the limit stops it there.
   */
  predicate LosesNothing(s: State, h: Header, next: PublicKey, peerSent: seq<Sent>) {
    var stored, index := |s.skippedKeys|, IndexOf(s.receivingChain);
    if Id(h) in s.skippedKeys then NeverSent(Id(h), next, peerSent)
    else if !NeedsRatchet(s, h) then
      || s.receivingChain.None?
      || !HasRoom(stored, Missing(s, h.messageNumber))
      || NeverSent(MessageId(h.dhPublicKey, Max(index, h.messageNumber)), next, peerSent)
    else
      var rest := Missing(s, h.previousChainLength);
      || !HasRoom(stored, rest)
      || (&& h.dhPublicKey == next
          && (s.receivingChain.Some? ==> SentOnCurrent(s, peerSent) <= index + rest)
          && !HasRoom(stored + rest, h.messageNumber))
  }

  // ---------- At the receiver ----------

  /** The ratchet key the peer has now: the receiver's next one, or the one it has. */
  predicate IsPeerKey(keys: seq<PublicKey>, k: nat, next: PublicKey) {
    k < |keys| && if |keys| == k + 2 then next == keys[k + 1] else |keys| == k + 1 && k > 0 && next == keys[k - 1]
  }

  lemma SendableIff(keys: seq<PublicKey>, k: nat, peerSent: seq<Sent>, next: PublicKey, j: nat, i: nat)
    requires NoRepeats(keys) && IsPeerKey(keys, k, next) && Incoming(k, j)
    ensures Sendable(keys, k, peerSent, j, i) <==> !NeverSent(MessageId(keys[j], i), next, peerSent)
  {
  }

  lemma UselessKeyDropped(
    secret: Bytes, keys: seq<PublicKey>, k: nat, s: State, delivered: set<MessageId>, peerSent: seq<Sent>,
    j: nat, number: nat)
    requires k < |keys| && Receives(secret, keys, k, s, delivered, peerSent)
    requires Incoming(k, j) && !Sendable(keys, k, peerSent, j, number)
    ensures Conserved(secret, keys, k, s.(skippedKeys := s.skippedKeys - {MessageId(keys[j], number)}), delivered,
                      peerSent)
  {
    var s' := s.(skippedKeys := s.skippedKeys - {MessageId(keys[j], number)});
    forall x: nat, i: nat | Incoming(k, x) && Sendable(keys, k, peerSent, x, i) && IsPast(k, s', x, i)
      ensures Kept(s', delivered, keys[x], i)
    {
      assert IsPast(k, s, x, i) && Kept(s, delivered, keys[x], i);
    }
  }

  lemma UsefulKeyDropped(
    secret: Bytes, keys: seq<PublicKey>, k: nat, s: State, delivered: set<MessageId>, peerSent: seq<Sent>,
    j: nat, number: nat)
    requires k < |keys| && Receives(secret, keys, k, s, delivered, peerSent)
    requires Incoming(k, j) && Sendable(keys, k, peerSent, j, number) && MessageId(keys[j], number) in s.skippedKeys
    ensures !Conserved(secret, keys, k, s.(skippedKeys := s.skippedKeys - {MessageId(keys[j], number)}), delivered,
                       peerSent)
  {
    var s' := s.(skippedKeys := s.skippedKeys - {MessageId(keys[j], number)});
    assert IsPast(k, s', j, number) && !Kept(s', delivered, keys[j], number);
  }

  lemma StoredKeyBurned(
    secret: Bytes, keys: seq<PublicKey>, k: nat, s: State, delivered: set<MessageId>, peerSent: seq<Sent>,
    next: PublicKey, id: MessageId)
    requires IsPeerKey(keys, k, next) && Receives(secret, keys, k, s, delivered, peerSent) && id in s.skippedKeys
    ensures Conserved(secret, keys, k, s.(skippedKeys := s.skippedKeys - {id}), delivered, peerSent)
       <==> NeverSent(id, next, peerSent)
  {
    var s' := s.(skippedKeys := s.skippedKeys - {id});
    assert IsKeyFor(secret, keys, k, id, s.skippedKeys[id]);
    var j: nat :| OnIncoming(keys, k, id, j);
    assert id == MessageId(keys[j], id.number);
    SendableIff(keys, k, peerSent, next, j, id.number);
    hide Receives, Conserved, NeverSent;
    if Sendable(keys, k, peerSent, j, id.number) {
      UsefulKeyDropped(secret, keys, k, s, delivered, peerSent, j, id.number);
    } else {
      UselessKeyDropped(secret, keys, k, s, delivered, peerSent, j, id.number);
    }
  }

  /** The session with the next key of its receiving chain used up for nothing. */
  function Burned(s: State): State
    requires s.receivingChain.Some?
  {
    s.(receivingChain := Some(Advance(s.receivingChain.value).0))
  }

  lemma UselessNextDropped(
    secret: Bytes, keys: seq<PublicKey>, k: nat, s: State, delivered: set<MessageId>, peerSent: seq<Sent>)
    requires 2 <= k < |keys| && Receives(secret, keys, k, s, delivered, peerSent) && s.receivingChain.Some?
    requires !Sendable(keys, k, peerSent, k - 1, s.receivingChain.value.index)
    ensures Receives(secret, keys, k, Burned(s), delivered, peerSent)
  {
    var i0 := s.receivingChain.value.index;
    assert Advance(s.receivingChain.value).0.key == ChainKeyAt(StartOf(secret, keys, k - 1), i0 + 1);
    forall j: nat, i: nat | Incoming(k, j) && Sendable(keys, k, peerSent, j, i) && IsPast(k, Burned(s), j, i)
      ensures Kept(Burned(s), delivered, keys[j], i)
    {
      assert IsPast(k, s, j, i) && Kept(s, delivered, keys[j], i);
    }
  }

  lemma NextKeyBurned(
    secret: Bytes, keys: seq<PublicKey>, k: nat, s: State, delivered: set<MessageId>, peerSent: seq<Sent>,
    next: PublicKey)
    requires 2 <= k && IsPeerKey(keys, k, next) && Receives(secret, keys, k, s, delivered, peerSent)
    ensures s.receivingChain.Some?
    ensures Receives(secret, keys, k, Burned(s), delivered, peerSent)
       <==> NeverSent(MessageId(keys[k - 1], s.receivingChain.value.index), next, peerSent)
  {
    var i0 := s.receivingChain.value.index;
    SendableIff(keys, k, peerSent, next, k - 1, i0);
    assert !Kept(s, delivered, keys[k - 1], i0) && !Kept(Burned(s), delivered, keys[k - 1], i0);
    if Sendable(keys, k, peerSent, k - 1, i0) {
      assert IsPast(k, Burned(s), k - 1, i0);
    } else {
      UselessNextDropped(secret, keys, k, s, delivered, peerSent);
    }
  }

  /** A failed attempt on the current chain: either the limit stopped it, or it used up a key. */
  lemma FinishFailsIff(
    secret: Bytes, keys: seq<PublicKey>, k: nat, s: State, delivered: set<MessageId>, peerSent: seq<Sent>,
    next: PublicKey, h: Header, encrypted: Encrypted, ratcheted: bool, before: nat)
    requires 2 <= k && IsPeerKey(keys, k, next) && Receives(secret, keys, k, s, delivered, peerSent)
    requires h.dhPublicKey == keys[k - 1] && Finish(s, h, encrypted, ratcheted, before).outcome.Err?
    ensures Receives(secret, keys, k, Finish(s, h, encrypted, ratcheted, before).state, delivered, peerSent)
       <==> || !HasRoom(|s.skippedKeys|, Missing(s, h.messageNumber))
            || NeverSent(MessageId(h.dhPublicKey, Max(IndexOf(s.receivingChain), h.messageNumber)), next, peerSent)
  {
    hide Conserved, SkipTo, NeverSent;
    var chain := s.receivingChain.value;
    var r := SkipTo(chain, h.messageNumber, keys[k - 1], s.skippedKeys);
    KeysAreNew(secret, keys, k, s, delivered, peerSent, h);
    SkipToExactly(chain, h.messageNumber, keys[k - 1], s.skippedKeys);
    SkipKeepsReceives(secret, keys, k, s, delivered, peerSent, h.messageNumber);
    if r.ok {
      NextKeyBurned(
        secret, keys, k, s.(receivingChain := Some(r.chain), skippedKeys := r.skipped), delivered, peerSent, next);
    }
  }

  /** After a ratchet that passed over part of the old chain, a message is lost. */
  lemma NothingPassedOver(
    secret: Bytes, keys: seq<PublicKey>, k: nat, s: State, s': State, delivered: set<MessageId>, peerSent: seq<Sent>,
    until: nat, drawn: PublicKey)
    requires 2 <= k && |keys| == k + 2 && Receives(secret, keys, k, s, delivered, peerSent)
    requires IndexOf(s.receivingChain) <= until
    requires forall id: MessageId :: id.dhPublicKey == keys[k - 1] ==>
               (id in s'.skippedKeys <==> id in s.skippedKeys || IndexOf(s.receivingChain) <= id.number < until)
    requires Conserved(secret, keys + [drawn], k + 2, s', delivered, peerSent)
    ensures CountOn(peerSent, keys[k - 1]) <= until
  {
    var keys', id := keys + [drawn], MessageId(keys[k - 1], until);
    assert Incoming(k + 2, k - 1) && keys'[k - 1] == keys[k - 1];
    assert id !in s.skippedKeys && id !in delivered;
    assert !Kept(s', delivered, keys'[k - 1], until);
    assert IsPast(k + 2, s', k - 1, until);
  }

  /** The skips before a ratchet store the numbers passed, and the call stores nothing more of the old chain. */
  lemma RatchetStores(s: State, h: Header, encrypted: Encrypted, drawn: Secret)
    requires NeedsRatchet(s, h) && Id(h) !in s.skippedKeys && SkipCurrent(s, h.previousChainLength).1
    requires s.receivingChain.Some? && s.remoteDhPublic.Some?
    ensures var until := IndexOf(s.receivingChain) + Missing(s, h.previousChainLength);
            forall id: MessageId :: s.remoteDhPublic == Some(id.dhPublicKey) ==>
              (id in DecryptStep(s, h, encrypted, drawn).state.skippedKeys
               <==> id in s.skippedKeys || IndexOf(s.receivingChain) <= id.number < until)
  {
    SkipCurrentGrows(s, h.previousChainLength);
    SkipToStores(s.receivingChain.value, h.previousChainLength, s.remoteDhPublic.value, s.skippedKeys);
    var s2 := Ratchet(SkipCurrent(s, h.previousChainLength).0, h.dhPublicKey, drawn);
    SkipToStores(s2.receivingChain.value, h.messageNumber, h.dhPublicKey, s2.skippedKeys);
  }

  /** What a decryption with a ratchet is made of. */
  lemma RatchetedParts(s: State, h: Header, encrypted: Encrypted, drawn: Secret)
    requires NeedsRatchet(s, h) && Id(h) !in s.skippedKeys
    ensures var d := DecryptStep(s, h, encrypted, drawn);
            var (s1, ok) := SkipCurrent(s, h.previousChainLength);
            var before := IndexOf(s1.receivingChain) - IndexOf(s.receivingChain);
            && before >= 0 && d.ratcheted == ok
            && d == if ok then Finish(Ratchet(s1, h.dhPublicKey, drawn), h, encrypted, true, before)
                    else DecryptResult(s1, Err(SkipLimit), None, false, before)
  {
    SkipCurrentGrows(s, h.previousChainLength);
  }

  /** A failed attempt that ratchets to the peer's next key. */
  lemma RatchetFailsIff(
    secret: Bytes, keys: seq<PublicKey>, k: nat, s: State, delivered: set<MessageId>, peerSent: seq<Sent>,
    h: Header, encrypted: Encrypted, drawn: Secret)
    requires |keys| == k + 2 && Receives(secret, keys, k, s, delivered, peerSent) && drawn.public !in keys
    requires h.dhPublicKey == keys[k + 1] && SkipCurrent(s, h.previousChainLength).1
    requires DecryptStep(s, h, encrypted, drawn).outcome.Err?
    ensures var d := DecryptStep(s, h, encrypted, drawn);
            && d.ratcheted
            && (Receives(secret, keys + [drawn.public], k + 2, d.state, delivered, peerSent)
                <==> LosesNothing(s, h, keys[k + 1], peerSent))
  {
    hide DecryptStep, Finish, SkipTo, HasRoom, Burst, Conserved;
    NewChainUnknown(secret, keys, k, s, delivered, peerSent, Id(h));
    KeysAreNew(secret, keys, k, s, delivered, peerSent, h);
    RatchetedParts(s, h, encrypted, drawn);
    SkipCurrentExactly(s, h.previousChainLength);
    var s1 := SkipCurrent(s, h.previousChainLength).0;
    var s2 := Ratchet(s1, h.dhPublicKey, drawn);
    var before := IndexOf(s1.receivingChain) - IndexOf(s.receivingChain);
    if k < 2 || IndexOf(s1.receivingChain) >= CountOn(peerSent, keys[k - 1]) {
      SkipCurrentKeepsReceives(secret, keys, k, s, delivered, peerSent, h.previousChainLength);
      RatchetHonest(secret, keys, k, s1, delivered, peerSent, drawn);
      FinishFailsIff(
        secret, keys + [drawn.public], k + 2, s2, delivered, peerSent, keys[k + 1], h, encrypted, true, before);
    } else {
      var d := DecryptStep(s, h, encrypted, drawn);
      RatchetStores(s, h, encrypted, drawn);
      if Receives(secret, keys + [drawn.public], k + 2, d.state, delivered, peerSent) {
        NothingPassedOver(secret, keys, k, s, d.state, delivered, peerSent, IndexOf(s1.receivingChain), drawn.public);
      }
    }
  }

  lemma FailureOnCurrentIff(
    secret: Bytes, keys: seq<PublicKey>, k: nat, s: State, delivered: set<MessageId>, peerSent: seq<Sent>,
    next: PublicKey, h: Header, encrypted: Encrypted, drawn: Secret)
    requires IsPeerKey(keys, k, next) && Receives(secret, keys, k, s, delivered, peerSent)
    requires Id(h) !in s.skippedKeys && !NeedsRatchet(s, h)
    requires DecryptStep(s, h, encrypted, drawn).outcome.Err?
    ensures var d := DecryptStep(s, h, encrypted, drawn);
            && !d.ratcheted
            && (LosesNothing(s, h, next, peerSent)
                <==> Receives(secret, keys, k, d.state, delivered, peerSent))
  {
    if s.receivingChain.Some? {
      FinishFailsIff(secret, keys, k, s, delivered, peerSent, next, h, encrypted, false, 0);
    }
  }

  /** A ratchet to anything but the peer's next key leaves a state no schedule has. */
  lemma OffSchedule(
    secret: Bytes, keys: seq<PublicKey>, k: nat, s: State, h: Header, encrypted: Encrypted, drawn: Secret)
    requires |keys| == k + 2 && h.dhPublicKey != keys[k + 1]
    requires DecryptStep(s, h, encrypted, drawn).ratcheted
    ensures !OnSchedule(secret, keys + [drawn.public], k + 2, DecryptStep(s, h, encrypted, drawn).state)
  {
    RemoteKept(s, h, encrypted, drawn);
    assert (keys + [drawn.public])[k + 1] == keys[k + 1];
  }

  /** A failed attempt leaves the receiving half intact exactly when it lost nothing. */
  lemma FailureReceivesIff(
    secret: Bytes, keys: seq<PublicKey>, k: nat, s: State, delivered: set<MessageId>, peerSent: seq<Sent>,
    next: PublicKey, h: Header, encrypted: Encrypted, drawn: Secret)
    requires IsPeerKey(keys, k, next) && Receives(secret, keys, k, s, delivered, peerSent) && drawn.public !in keys
    requires DecryptStep(s, h, encrypted, drawn).outcome.Err?
    ensures var d := DecryptStep(s, h, encrypted, drawn);
            LosesNothing(s, h, next, peerSent)
            <==> if d.ratcheted
                 then |keys| == k + 2
                      && Receives(secret, keys + [drawn.public], k + 2, d.state, delivered, peerSent)
                 else Receives(secret, keys, k, d.state, delivered, peerSent)
  {
    hide Finish, SkipTo, Conserved, HasRoom, Burst;
    if Id(h) in s.skippedKeys {
      StoredKeyBurned(secret, keys, k, s, delivered, peerSent, next, Id(h));
    } else if !NeedsRatchet(s, h) {
      FailureOnCurrentIff(secret, keys, k, s, delivered, peerSent, next, h, encrypted, drawn);
    } else {
      RatchetedParts(s, h, encrypted, drawn);
      hide DecryptStep;
      KeysAreNew(secret, keys, k, s, delivered, peerSent, h);
      SkipCurrentExactly(s, h.previousChainLength);
      if !SkipCurrent(s, h.previousChainLength).1 {
        SkipCurrentKeepsReceives(secret, keys, k, s, delivered, peerSent, h.previousChainLength);
      } else if |keys| == k + 2 && h.dhPublicKey == keys[k + 1] {
        RatchetFailsIff(secret, keys, k, s, delivered, peerSent, h, encrypted, drawn);
      } else if |keys| == k + 2 {
        OffSchedule(secret, keys, k, s, h, encrypted, drawn);
      }
    }
  }

  // ---------- At both parties ----------

  lemma FailureKeepsSends(
    secret: Bytes, keys: seq<PublicKey>, k: nat, p: Peer, h: Header, encrypted: Encrypted, drawn: Secret)
    requires k < |keys| && SendsRight(secret, keys, k, p)
    requires !DecryptStep(p.state, h, encrypted, drawn).ratcheted
    ensures SendsRight(secret, keys, k, ActDecrypt(p, h, encrypted, drawn))
  {
    DecryptSendingSide(p.state, h, encrypted, drawn);
    DecryptLedger(p, h, encrypted, drawn);
    SameHistory(p, ActDecrypt(p, h, encrypted, drawn));
    OneMoreSends(secret, keys, k, p, ActDecrypt(p, h, encrypted, drawn));
  }

  lemma FailureKeepsLinkIff(
    secret: Bytes, keys: seq<PublicKey>, k: nat, p: Peer, m: nat, q: Peer,
    h: Header, encrypted: Encrypted, drawn: Secret)
    requires Linked(secret, keys, k, p, m, q) && drawn.public !in keys
    requires DecryptStep(p.state, h, encrypted, drawn).outcome.Err?
    ensures var p' := ActDecrypt(p, h, encrypted, drawn);
            LosesNothing(p.state, h, q.state.dhPublic, q.sent)
            <==> if p'.own == p.own then Linked(secret, keys, k, p', m, q)
                 else Linked(secret, keys + [drawn.public], k + 2, p', m, q)
  {
    hide SendsRight, LosesNothing;
    var d := DecryptStep(p.state, h, encrypted, drawn);
    var p' := ActDecrypt(p, h, encrypted, drawn);
    assert q.state.dhPublic == keys[m];
    hide DecryptStep, ActDecrypt;
    DecryptLedger(p, h, encrypted, drawn);
    FailureReceivesIff(
      secret, keys, k, p.state, Delivered(p.accepted), q.sent, q.state.dhPublic, h, encrypted, drawn);
    hide Receives;
    if !d.ratcheted {
      FailureKeepsSends(secret, keys, k, p, h, encrypted, drawn);
    } else if m == k + 1 {
      DeliveryKeepsSends(secret, keys, k, p, h, encrypted, drawn);
      PeerAfterRatchet(secret, keys, k, p, m, q, drawn.public);
    }
  }

  // ---------- Any delivery, exactly ----------

  /** The header and ciphertext are those of a message of the peer that was not accepted yet. */
  ghost predicate IsUndelivered(sys: System, who: Party, h: Header, encrypted: Encrypted) {
    exists n: nat :: Undelivered(sys, who, n)
      && At(sys, Other(who)).sent[n].header == h && At(sys, Other(who)).sent[n].encrypted == encrypted
  }

  /** A newly accepted message is one the peer sent, and not one accepted before. */
  lemma NewlyAcceptedIsNew(p: Peer, p': Peer, q: Peer) returns (n: nat)
    requires LedgerSound(p') && LedgerSound(q) && FromPeer(p'.accepted, q.sent) && HistoryRight(q)
    requires |p'.accepted| == |p.accepted| + 1 && p.accepted <= p'.accepted
    ensures n < |q.sent|
    ensures var m := p'.accepted[|p.accepted|];
            && q.sent[n].header == m.header && q.sent[n].encrypted == m.encrypted
            && Id(m.header) !in Delivered(p.accepted)
  {
    hide LedgerSound, HistoryRight;
    var origin := AgreementNow(p', q);
    var last := |p.accepted|;
    n := origin[last];
    if Id(p'.accepted[last].header) in Delivered(p.accepted) {
      var i :| 0 <= i < last && Id(p.accepted[i].header) == Id(p'.accepted[last].header);
      assert p'.accepted[i] == p.accepted[i];
      assert origin[i] != n;
      HeadersDiffer(q, if origin[i] < n then origin[i] else n, if origin[i] < n then n else origin[i]);
    }
  }

  /** Nothing but an undelivered message of the peer is ever accepted. */
  lemma OnlyUndeliveredAccepted(
    secret: Bytes, sys: System, who: Party, h: Header, encrypted: Encrypted, drawn: Secret)
    requires HasKeys(sys) && Guarded(secret, sys) && HistoryRight(At(sys, Other(who)))
    requires SentOrForeign(secret, sys, encrypted.ciphertext)
    requires DecryptStep(At(sys, who).state, h, encrypted, drawn).outcome.Ok?
    ensures IsUndelivered(sys, who, h, encrypted)
  {
    hide HistoryRight, DecryptStep, LedgerSound;
    var p, q := At(sys, who), At(sys, Other(who));
    var a := Action(who, Decrypt(h, encrypted, drawn));
    AcceptedComesFromPeer(secret, sys, a);
    ActKeepsSound(secret, p, a.call);
    var n := NewlyAcceptedIsNew(p, Act(p, a.call), q);
    assert Undelivered(sys, who, n);
  }

  lemma AnyDecryptStep(sys: System, who: Party, h: Header, encrypted: Encrypted, drawn: Secret)
    requires HasKeys(sys)
    ensures var sys' := Step(sys, Action(who, Decrypt(h, encrypted, drawn)));
            var (p, p') := (At(sys, who), ActDecrypt(At(sys, who), h, encrypted, drawn));
            && At(sys', who) == p' && At(sys', Other(who)) == At(sys, Other(who))
            && EpochOf(sys', Other(who)) == EpochOf(sys, Other(who))
            && if p'.own == p.own then sys'.keys == sys.keys && EpochOf(sys', who) == EpochOf(sys, who)
               else sys'.keys == sys.keys + [drawn.public] && EpochOf(sys', who) == EpochOf(sys, who) + 2
  {
  }

  lemma FailureKeepsLockstepIff(
    secret: Bytes, sys: System, who: Party, h: Header, encrypted: Encrypted, drawn: Secret)
    requires InLockstep(secret, sys) && drawn.public !in sys.keys
    requires DecryptStep(At(sys, who).state, h, encrypted, drawn).outcome.Err?
    ensures InLockstep(secret, Step(sys, Action(who, Decrypt(h, encrypted, drawn))))
       <==> LosesNothing(At(sys, who).state, h, At(sys, Other(who)).state.dhPublic, At(sys, Other(who)).sent)
  {
    hide Linked, LosesNothing, DecryptStep;
    PartyLinked(secret, sys, who);
    var p, q := At(sys, who), At(sys, Other(who));
    FailureKeepsLinkIff(
      secret, sys.keys, EpochOf(sys, who), p, EpochOf(sys, Other(who)), q, h, encrypted, drawn);
    AnyDecryptStep(sys, who, h, encrypted, drawn);
    hide Step;
    var sys' := Step(sys, Action(who, Decrypt(h, encrypted, drawn)));
    if InLockstep(secret, sys') {
      PartyLinked(secret, sys', who);
    } else if Linked(secret, sys'.keys, EpochOf(sys', who), At(sys', who), EpochOf(sys', Other(who)), q) {
      LinkedIsLockstep(secret, sys', who);
    }
  }

  /**
   Interference, exactly: from lockstep, the lockstep survives a delivery of any header with any ciphertext the network
   can present if and only if it is a message of the peer not accepted yet, or the call loses nothing. Both can be told
   before the call.
   */
  lemma LockstepSurvivesIff(
    secret: Bytes, net: Knowledge, sys: System, who: Party, h: Header, encrypted: Encrypted, drawn: Secret)
    requires InLockstep(secret, sys) && Guarded(secret, sys)
    requires Outside(net, secret) && Presentable(net, sys, encrypted.ciphertext) && drawn.public !in sys.keys
    ensures InLockstep(secret, Step(sys, Action(who, Decrypt(h, encrypted, drawn))))
       <==> || IsUndelivered(sys, who, h, encrypted)
            || LosesNothing(At(sys, who).state, h, At(sys, Other(who)).state.dhPublic, At(sys, Other(who)).sent)
  {
    hide InLockstep, Guarded, Step, LosesNothing, DecryptStep, Presentable;
    LockstepBasics(secret, sys, who);
    if IsUndelivered(sys, who, h, encrypted) {
      var n: nat :| Undelivered(sys, who, n) && At(sys, Other(who)).sent[n].header == h
                    && At(sys, Other(who)).sent[n].encrypted == encrypted;
      DeliverKeepsLockstep(secret, sys, who, n, drawn);
    } else {
      LockstepHistory(secret, sys, Other(who));
      if DecryptStep(At(sys, who).state, h, encrypted, drawn).outcome.Ok? {
        PresentableIsSentOrForeign(secret, net, sys, encrypted.ciphertext);
        OnlyUndeliveredAccepted(secret, sys, who, h, encrypted, drawn);
      }
      FailureKeepsLockstepIff(secret, sys, who, h, encrypted, drawn);
    }
  }

  /** The same after every honest run of two sessions just set up, which is all it takes to be in lockstep. */
  lemma InterferenceExactly(
    secret: Bytes, spk: SignedPreKey, first: Secret, actions: seq<Action>, net: Knowledge, who: Party,
    h: Header, encrypted: Encrypted, drawn: Secret)
    requires spk.secret.public == spk.public && first.public != spk.public
    requires HonestRun(Start(secret, spk, first), actions) && Outside(net, secret)
    requires var now := Run(Start(secret, spk, first), actions);
             Presentable(net, now, encrypted.ciphertext) && drawn.public !in now.keys
    ensures var now := Run(Start(secret, spk, first), actions);
            var (p, q) := (At(now, who), At(now, Other(who)));
            InLockstep(secret, Step(now, Action(who, Decrypt(h, encrypted, drawn))))
            <==> IsUndelivered(now, who, h, encrypted) || LosesNothing(p.state, h, q.state.dhPublic, q.sent)
  {
    hide InLockstep, Guarded, HonestRun, Step, LosesNothing, IsUndelivered, Presentable, Outside;
    StartInLockstep(secret, spk, first);
    RunsInLockstep(secret, Start(secret, spk, first), actions);
    StartGuarded(secret, spk, first);
    HonestRunsGuarded(secret, Start(secret, spk, first), actions);
    LockstepSurvivesIff(secret, net, Run(Start(secret, spk, first), actions), who, h, encrypted, drawn);
  }
}
