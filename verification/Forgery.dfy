/**
 What a header costs that the peer never sent. A session changes its state before it authenticates, so a header alone,
 with any ciphertext, can make it take a key or a root step that it cannot take back. Each loss is stated over every
 later run of both sessions, and holds whether the header was invented, altered or repeated.
 */
module Forgery {
  import opened Wrappers
  import opened SymbolicCrypto
  import opened MessageHeader
  import opened SessionSpec
  import opened SkipLimits
  import opened KeyDiscipline
  import opened SessionRuns
  import opened HostileNetwork
  import opened KeySchedule
  import opened Lockstep
  import opened Delivery
  import opened Interference
  import opened Loss
  import opened Guarantee

  lemma GuardedSound(secret: Bytes, sys: System, who: Party)
    requires Guarded(secret, sys)
    ensures Sound(secret, At(sys, who))
  {
  }

  // ---------- A key taken ----------

  /** In no later run of the two does the receiver accept the peer's message of that name. */
  ghost predicate NeverAccepted(p: Peer, calls: seq<Call>, q: Peer, peerCalls: seq<Call>, id: MessageId)
    requires |p.own| > 0 && |q.own| > 0
  {
    var (p', q') := (Play(p, calls), Play(q, peerCalls));
    forall i, b :: |p.accepted| <= i < |p'.accepted| && 0 <= b < |q'.sent| && Id(q'.sent[b].header) == id ==>
      p'.accepted[i].encrypted.ciphertext != q'.sent[b].encrypted.ciphertext
  }

  /** A key of a chain that one session has used up, and that the other seals on. */
  lemma KeyIsLost(
    secret: Bytes, p: Peer, calls: seq<Call>, q: Peer, peerCalls: seq<Call>, id: MessageId, start: Bytes)
    requires |p.own| > 0 && Sound(secret, p) && MessageKeyAt(start, id.number) in p.used
    requires |q.own| > 0 && SealsOn(q, id.dhPublicKey, start) && DrawsNoneOf(peerCalls, {id.dhPublicKey})
    ensures NeverAccepted(p, calls, q, peerCalls, id)
  {
    hide Play, MessageKeyAt, Disciplined;
    UsedKeysStayClosed(secret, p, calls);
    RunsSound(secret, p, calls);
    RunsSealOn(q, peerCalls, id.dhPublicKey, start);
  }

  /** Whose key a call takes that does not ratchet: the stored one of its name, or the one the chain skips to. */
  function Taken(s: State, h: Header): MessageId {
    if Id(h) in s.skippedKeys then Id(h)
    else MessageId(h.dhPublicKey, Max(IndexOf(s.receivingChain), h.messageNumber))
  }

  /** The call gets as far as taking a key of a chain the session knows. */
  predicate TakesKnownKey(s: State, h: Header) {
    || Id(h) in s.skippedKeys
    || (!NeedsRatchet(s, h) && s.receivingChain.Some? && HasRoom(|s.skippedKeys|, Missing(s, h.messageNumber)))
  }

  lemma NextTaken(
    secret: Bytes, keys: seq<PublicKey>, k: nat, s: State, delivered: set<MessageId>, peerSent: seq<Sent>,
    h: Header, encrypted: Encrypted, drawn: Secret)
    requires k < |keys| && Receives(secret, keys, k, s, delivered, peerSent)
    requires Id(h) !in s.skippedKeys && TakesKnownKey(s, h)
    ensures k >= 2 && h.dhPublicKey == keys[k - 1] && Taken(s, h) !in delivered
    ensures DecryptStep(s, h, encrypted, drawn).tried
              == Some(MessageKeyAt(StartOf(secret, keys, k - 1), Taken(s, h).number))
  {
    hide MessageKeyAt, SkipTo;
    var chain, start := s.receivingChain.value, StartOf(secret, keys, k - 1);
    KeysAreNew(secret, keys, k, s, delivered, peerSent, h);
    SkipToExactly(chain, h.messageNumber, h.dhPublicKey, s.skippedKeys);
    TriesFixed(s, h, encrypted, drawn);
    ChainSums(start, chain.index, Max(h.messageNumber - chain.index, 0));
  }

  /** The key taken is the schedule's key for its name. */
  lemma TakenOnSchedule(
    secret: Bytes, keys: seq<PublicKey>, k: nat, s: State, delivered: set<MessageId>, peerSent: seq<Sent>,
    h: Header, encrypted: Encrypted, drawn: Secret) returns (j: nat)
    requires k < |keys| && Receives(secret, keys, k, s, delivered, peerSent) && TakesKnownKey(s, h)
    ensures OnIncoming(keys, k, Taken(s, h), j) && Taken(s, h) !in delivered
    ensures DecryptStep(s, h, encrypted, drawn).tried
              == Some(MessageKeyAt(StartOf(secret, keys, j), Taken(s, h).number))
  {
    if Id(h) in s.skippedKeys {
      assert IsKeyFor(secret, keys, k, Id(h), s.skippedKeys[Id(h)]);
      j :| OnIncoming(keys, k, Id(h), j)
           && s.skippedKeys[Id(h)] == MessageKeyAt(StartOf(secret, keys, j), Id(h).number);
    } else {
      j := k - 1;
      NextTaken(secret, keys, k, s, delivered, peerSent, h, encrypted, drawn);
    }
  }

  lemma TakenLinked(
    secret: Bytes, keys: seq<PublicKey>, k: nat, p: Peer, m: nat, q: Peer,
    h: Header, encrypted: Encrypted, drawn: Secret) returns (start: Bytes)
    requires Linked(secret, keys, k, p, m, q) && TakesKnownKey(p.state, h)
    ensures |p.own| > 0 && |q.own| > 0
    ensures var id := Taken(p.state, h);
            && SealsOn(q, id.dhPublicKey, start) && id !in Delivered(p.accepted)
            && DecryptStep(p.state, h, encrypted, drawn).tried == Some(MessageKeyAt(start, id.number))
  {
    hide HistoryRight, SealedRight, Conserved, MessageKeyAt, TakesKnownKey, DecryptStep;
    var j := TakenOnSchedule(
      secret, keys, k, p.state, Delivered(p.accepted), q.sent, h, encrypted, drawn);
    start := StartOf(secret, keys, j);
    PeerSealsOn(secret, keys, m, q, j);
  }

  /**
   A header with the name of a stored key, or with a number on the current chain: the message whose key it takes was not
   accepted before, and if this call does not accept it, it is lost. In no later run of the two is it accepted, be it on
   its way already or yet to be sent.
   */
  lemma TakenKeyIsLost(
    secret: Bytes, sys: System, who: Party, h: Header, encrypted: Encrypted, drawn: Secret,
    calls: seq<Call>, peerCalls: seq<Call>)
    requires InLockstep(secret, sys) && Guarded(secret, sys)
    requires TakesKnownKey(At(sys, who).state, h)
    requires DrawsNoneOf(peerCalls, {h.dhPublicKey})
    ensures var (p, q) := (At(sys, who), At(sys, Other(who)));
            var after := ActDecrypt(p, h, encrypted, drawn);
            && |after.own| > 0 && |q.own| > 0 && Taken(p.state, h) !in Delivered(p.accepted)
            && NeverAccepted(after, calls, q, peerCalls, Taken(p.state, h))
  {
    hide InLockstep, Linked, Guarded, Sound, SealsOn, TakesKnownKey, NeverAccepted, DecryptStep, MessageKeyAt;
    var p, q := At(sys, who), At(sys, Other(who));
    PartyLinked(secret, sys, who);
    LockstepBasics(secret, sys, who);
    LockstepBasics(secret, sys, Other(who));
    var start := TakenLinked(secret, sys.keys, EpochOf(sys, who), p, EpochOf(sys, Other(who)), q, h, encrypted, drawn);
    GuardedSound(secret, sys, who);
    DecryptKeepsSound(secret, p, h, encrypted, drawn);
    KeyIsLost(secret, ActDecrypt(p, h, encrypted, drawn), calls, q, peerCalls, Taken(p.state, h), start);
  }

  // ---------- A root step taken ----------

  /** The root step that a session takes with a ratchet, whatever key it is given. */
  lemma RatchetTakesStep(s: State, h: Header, encrypted: Encrypted, drawn: Secret)
    requires NeedsRatchet(s, h) && Id(h) !in s.skippedKeys && SkipCurrent(s, h.previousChainLength).1
    ensures var d := DecryptStep(s, h, encrypted, drawn);
            && d.ratcheted
            && TookStep(s.rootKey, Dh(s.dhSecret, h.dhPublicKey), d.state, d.state.skippedKeys.Values)
  {
    var root, dh := s.rootKey, Dh(s.dhSecret, h.dhPublicKey);
    RatchetedParts(s, h, encrypted, drawn);
    var (s1, ok) := SkipCurrent(s, h.previousChainLength);
    var s2 := Ratchet(s1, h.dhPublicKey, drawn);
    assert Through(root, dh, Root(root, dh)) && Through(root, dh, Chain(root, dh));
    assert s2.rootKey == Root(Root(root, dh), Dh(drawn, h.dhPublicKey));
    assert TookStep(root, dh, s2, s1.skippedKeys.Values);
    FinishTakesStep(root, dh, s1.skippedKeys.Values, s2, h, encrypted, true,
                    IndexOf(s1.receivingChain) - IndexOf(s.receivingChain));
  }

  lemma PeerAvoidsStep(secret: Bytes, keys: seq<PublicKey>, k: nat, m: nat, q: Peer, other: PublicKey)
    requires k < |keys| && m < |keys| && NoRepeats(keys) && (k == m + 1 || m == k + 1)
    requires (k > 0 ==> other != keys[k - 1]) && (k + 1 < |keys| ==> other != keys[k + 1])
    requires SendsRight(secret, keys, m, q) && OnSchedule(secret, keys, m, q.state)
    ensures AvoidsStep(RootAt(secret, keys, k), Dh(Secret(keys[k]), other), q)
  {
    hide SendsRight;
    var root, dh := RootAt(secret, keys, k), Dh(Secret(keys[k]), other);
    ScheduleAvoidsStep(secret, keys, k, other, m);
    if q.state.sendingChain.Some? {
      ChainAvoidsStep(root, dh, StartOf(secret, keys, m), q.state.sendingChain.value.index);
    }
    forall n | 0 <= n < |q.sent|
      ensures !Through(root, dh, q.sent[n].encrypted.ciphertext.key)
    {
      SentIsHonest(secret, keys, m, q, n);
      ScheduleAvoidsStep(secret, keys, k, other, ChainOf(m, q, q.sent[n].turn));
      ChainAvoidsStep(root, dh, StartOf(secret, keys, ChainOf(m, q, q.sent[n].turn)), q.sent[n].header.messageNumber);
    }
  }

  /** The call ratchets, and to a key that is not the one the peer has now. */
  predicate RatchetsAstray(s: State, h: Header, peerKey: PublicKey) {
    && Id(h) !in s.skippedKeys && NeedsRatchet(s, h) && h.dhPublicKey != peerKey
    && HasRoom(|s.skippedKeys|, Missing(s, h.previousChainLength))
  }

  lemma AstrayLinked(secret: Bytes, keys: seq<PublicKey>, k: nat, p: Peer, m: nat, q: Peer, h: Header)
    requires Linked(secret, keys, k, p, m, q) && RatchetsAstray(p.state, h, q.state.dhPublic)
    ensures var dh := Dh(p.state.dhSecret, h.dhPublicKey);
            && |p.own| > 0 && |q.own| > 0
            && SkipCurrent(p.state, h.previousChainLength).1
            && dh.ends == {p.state.dhPublic, h.dhPublicKey}
            && AvoidsStep(p.state.rootKey, dh, q)
  {
    hide HistoryRight, SealedRight, Conserved, AvoidsStep, SkipCurrent, HasRoom, Missing;
    PeerAvoidsStep(secret, keys, k, m, q, h.dhPublicKey);
    KeysAreNew(secret, keys, k, p.state, Delivered(p.accepted), q.sent, h);
    SkipCurrentExactly(p.state, h.previousChainLength);
  }

  /**
   A header with any ratchet key but the peer's own, new, old or invented, that the limit does not stop: whatever its
   ciphertext, it cuts the receiver off from all but what it has stored.
   */
  lemma AstrayCutsOff(
    secret: Bytes, sys: System, who: Party, h: Header, encrypted: Encrypted, drawn: Secret,
    calls: seq<Call>, peerCalls: seq<Call>)
    requires InLockstep(secret, sys)
    requires RatchetsAstray(At(sys, who).state, h, At(sys, Other(who)).state.dhPublic)
    requires DrawsNoneOf(peerCalls, {At(sys, who).state.dhPublic, h.dhPublicKey})
    ensures var (p, q) := (At(sys, who), At(sys, Other(who)));
            var after := ActDecrypt(p, h, encrypted, drawn);
            |after.own| > 0 && |q.own| > 0 && Severed(after, calls, q, peerCalls)
  {
    hide InLockstep, Linked, Play, ActDecrypt, DecryptStep, TookStep, AvoidsStep, DrawsNoneOf, HasRoom, Missing;
    var p, q := At(sys, who), At(sys, Other(who));
    PartyLinked(secret, sys, who);
    LockstepBasics(secret, sys, who);
    LockstepBasics(secret, sys, Other(who));
    AstrayLinked(secret, sys.keys, EpochOf(sys, who), p, EpochOf(sys, Other(who)), q, h);
    RatchetTakesStep(p.state, h, encrypted, drawn);
    DecryptLedger(p, h, encrypted, drawn);
    var after := ActDecrypt(p, h, encrypted, drawn);
    assert after.state == DecryptStep(p.state, h, encrypted, drawn).state;
    CutOff(p.state.rootKey, Dh(p.state.dhSecret, h.dhPublicKey), after, calls, q, peerCalls);
  }

  /**
   One packet ends a session that has just been set up: the responder gets a header with an invented ratchet key and
   any ciphertext before anything of the initiator's, and in no later run does he accept anything the initiator sends.
   */
  lemma FirstHeaderForged(
    secret: Bytes, spk: SignedPreKey, first: Secret, forged: PublicKey, encrypted: Encrypted, drawn: Secret,
    calls: seq<Call>, peerCalls: seq<Call>)
    requires spk.secret.public == spk.public && first.public != spk.public && forged != first.public
    requires DrawsNoneOf(peerCalls, {spk.public, forged})
    ensures var sys := Start(secret, spk, first);
            var after := ActDecrypt(sys.bob, Header(forged, 0, 0), encrypted, drawn);
            && |after.own| > 0
            && (var (bob, alice) := (Play(after, calls), Play(sys.alice, peerCalls));
                forall i, n :: |after.accepted| <= i < |bob.accepted| && 0 <= n < |alice.sent| ==>
                  bob.accepted[i].encrypted.ciphertext != alice.sent[n].encrypted.ciphertext)
  {
    var sys, h := Start(secret, spk, first), Header(forged, 0, 0);
    StartInLockstep(secret, spk, first);
    assert ActDecrypt(sys.bob, h, encrypted, drawn).state.skippedKeys.Values == {};
    hide InLockstep, Play, ActDecrypt, DrawsNoneOf;
    AstrayCutsOff(secret, sys, Bob, h, encrypted, drawn, calls, peerCalls);
  }
}
