/**
 The delivery guarantee itself. A call keeps it exactly when it keeps the lockstep: if a call loses something, there is
 an honest run after it in which an honest message is not read. So the conditions for the lockstep to survive are exact
 for what the sessions are for, and not for the bookkeeping only.
 */
module Guarantee {
  import opened Wrappers
  import opened SymbolicCrypto
  import opened MessageHeader
  import opened SessionSpec
  import opened SkipLimits
  import opened KeyDiscipline
  import opened SessionRuns
  import opened HostileNetwork
  import opened KeySchedule
  import opened Lockstep
  import opened Delivery
  import opened Interference
  import opened Loss

  // ---------- The key a session will try ----------

  lemma {:induction false} ChainSums(start: Bytes, a: nat, b: nat)
    ensures ChainKeyAt(ChainKeyAt(start, a), b) == ChainKeyAt(start, a + b)
    ensures MessageKeyAt(ChainKeyAt(start, a), b) == MessageKeyAt(start, a + b)
  {
    if b > 0 {
      ChainSums(start, a, b - 1);
    }
  }

  lemma {:induction false} SkipToAlong(chain: ChainState, until: nat, dh: PublicKey, skipped: SkippedKeys)
    ensures var r := SkipTo(chain, until, dh, skipped).chain;
            chain.index <= r.index && r.key == ChainKeyAt(chain.key, r.index - chain.index)
    decreases until - chain.index
  {
    if chain.index < until {
      var (next, messageKey) := Advance(chain);
      var skipped' := skipped[MessageId(dh, chain.index) := messageKey];
      assert ChainKeyAt(chain.key, 1) == Advance(ChainState(ChainKeyAt(chain.key, 0), 0)).0.key == next.key;
      if |skipped'| <= MAX_SKIP {
        SkipToAlong(next, until, dh, skipped');
        ChainSums(chain.key, 1, SkipTo(next, until, dh, skipped').chain.index - next.index);
      }
    }
  }

  /** The key a session will try for a message whose key is not stored, once the skip limit lets it. */
  function WouldTry(s: State, id: MessageId): Option<Bytes> {
    if s.remoteDhPublic != Some(id.dhPublicKey) then
      Some(MessageKeyAt(Chain(s.rootKey, Dh(s.dhSecret, id.dhPublicKey)), id.number))
    else if s.receivingChain.None? then None
    else Some(MessageKeyAt(s.receivingChain.value.key, Max(id.number - s.receivingChain.value.index, 0)))
  }

  lemma NextIsMessageKey(c: ChainState)
    ensures Advance(c).1 == MessageKeyAt(c.key, 0)
  {
  }

  /** The key of a number, counted from where a chain is, is the same before a skip loop and after it. */
  lemma SkipKeepsTry(chain: ChainState, until: nat, dh: PublicKey, skipped: SkippedKeys)
    ensures var r := SkipTo(chain, until, dh, skipped).chain;
            MessageKeyAt(r.key, Max(until - r.index, 0)) == MessageKeyAt(chain.key, Max(until - chain.index, 0))
  {
    SkipToAlong(chain, until, dh, skipped);
    SkipToStores(chain, until, dh, skipped);
    var r := SkipTo(chain, until, dh, skipped).chain;
    hide SkipTo, ChainKeyAt, MessageKeyAt;
    ChainSums(chain.key, r.index - chain.index, Max(until - r.index, 0));
    if r.index == chain.index {
      ChainSums(chain.key, 0, 0);
    }
  }

  lemma FinishTries(s: State, h: Header, encrypted: Encrypted, ratcheted: bool, before: nat)
    requires s.remoteDhPublic == Some(h.dhPublicKey) && Id(h) !in s.skippedKeys
    ensures var d := Finish(s, h, encrypted, ratcheted, before);
            && (d.tried.Some? ==> d.tried == WouldTry(s, Id(h)))
            && (d.outcome == Err(SkipLimit) ==>
                  && Id(h) !in d.state.skippedKeys && WouldTry(d.state, Id(h)) == WouldTry(s, Id(h))
                  && Needed(d.state, h) < Needed(s, h))
  {
    hide SkipTo, MessageKeyAt, Advance;
    if s.receivingChain.Some? {
      var chain := s.receivingChain.value;
      SkipToStores(chain, h.messageNumber, h.dhPublicKey, s.skippedKeys);
      SkipKeepsTry(chain, h.messageNumber, h.dhPublicKey, s.skippedKeys);
      NextIsMessageKey(SkipTo(chain, h.messageNumber, h.dhPublicKey, s.skippedKeys).chain);
    }
  }

  /** Which key is tried does not depend on when: a skip-limit error changes nothing but what is still to be skipped. */
  lemma TriesFixed(s: State, h: Header, encrypted: Encrypted, drawn: Secret)
    requires Id(h) !in s.skippedKeys
    ensures var d := DecryptStep(s, h, encrypted, drawn);
            && (d.tried.Some? ==> d.tried == WouldTry(s, Id(h)))
            && (d.outcome == Err(SkipLimit) ==>
                  && Id(h) !in d.state.skippedKeys && WouldTry(d.state, Id(h)) == WouldTry(s, Id(h))
                  && Needed(d.state, h) < Needed(s, h))
  {
    if NeedsRatchet(s, h) {
      RatchetedParts(s, h, encrypted, drawn);
      SkipCurrentNames(s, h.previousChainLength, h.dhPublicKey);
      var (s1, ok) := SkipCurrent(s, h.previousChainLength);
      assert Id(h) == MessageId(h.dhPublicKey, h.messageNumber);
      if ok {
        var s2 := Ratchet(s1, h.dhPublicKey, drawn);
        FinishTries(s2, h, encrypted, true, IndexOf(s1.receivingChain) - IndexOf(s.receivingChain));
        assert WouldTry(s2, Id(h)) == WouldTry(s, Id(h));
      } else {
        SkipToStores(s.receivingChain.value, h.previousChainLength, s.remoteDhPublic.value, s.skippedKeys);
      }
    } else {
      FinishTries(s, h, encrypted, false, 0);
    }
  }

  // ---------- A message that cannot be read breaks the guarantee ----------

  function LongerThan(keys: seq<PublicKey>): (n: nat)
    ensures forall k :: k in keys ==> |k.bytes| < n
  {
    if keys == [] then 0
    else
      var rest := LongerThan(keys[1..]);
      assert forall k :: k in keys <==> k == keys[0] || k in keys[1..];
      if |keys[0].bytes| < rest then rest else |keys[0].bytes| + 1
  }

  /** There is always another key pair to draw. */
  lemma AnotherKey(keys: seq<PublicKey>) returns (drawn: Secret)
    ensures drawn.public !in keys
  {
    drawn := Secret(PublicKey(seq(LongerThan(keys), (i: nat) => 0)));
  }

  lemma {:induction false} RunCons(sys: System, a: Action, actions: seq<Action>)
    requires HasKeys(sys)
    ensures Run(sys, [a] + actions) == Run(Step(sys, a), actions)
    ensures HonestRun(sys, [a] + actions) <==> HonestMay(sys, a) && HonestRun(Step(sys, a), actions)
    decreases |actions|
  {
    hide Step, HonestMay;
    var all := [a] + actions;
    if actions == [] {
      assert all == [a] && all[..0] == [];
      assert Run(sys, []) == sys && HonestRun(sys, []);
    } else {
      RunCons(sys, a, actions[..|actions| - 1]);
      assert all[..|all| - 1] == [a] + actions[..|actions| - 1];
    }
  }

  lemma BreaksBefore(sys: System, a: Action)
    requires HasKeys(sys) && HonestMay(sys, a) && !Delivers(Step(sys, a))
    ensures !Delivers(sys)
  {
    hide Step, HonestMay, HonestRun, Run, ReadsAll;
    var actions :| HonestRun(Step(sys, a), actions) && !ReadsAll(Run(Step(sys, a), actions));
    RunCons(sys, a, actions);
  }

  /** An undelivered message whose key is neither stored nor the one that will be tried. */
  ghost predicate Unreadable(sys: System, who: Party, n: nat) {
    && Undelivered(sys, who, n)
    && (var (s, m) := (At(sys, who).state, At(sys, Other(who)).sent[n]);
        && Id(m.header) !in s.skippedKeys
        && WouldTry(s, Id(m.header)) != Some(m.encrypted.ciphertext.key))
  }

  lemma UnreadableStays(sys: System, who: Party, n: nat, drawn: Secret)
    requires HasKeys(sys) && Unreadable(sys, who, n)
    ensures var (s, m) := (At(sys, who).state, At(sys, Other(who)).sent[n]);
            var d := DecryptStep(s, m.header, m.encrypted, drawn);
            var sys' := Step(sys, Deliver(sys, who, n, drawn));
            && d.outcome.Err?
            && (d.outcome == Err(SkipLimit) ==>
                  && At(sys', Other(who)) == At(sys, Other(who)) && Unreadable(sys', who, n)
                  && Needed(At(sys', who).state, m.header) < Needed(s, m.header))
  {
    var (s, m) := (At(sys, who).state, At(sys, Other(who)).sent[n]);
    TriesFixed(s, m.header, m.encrypted, drawn);
    DecryptTries(s, m.header, m.encrypted, drawn);
    DeliverStep(sys, who, n, drawn);
    DecryptLedger(At(sys, who), m.header, m.encrypted, drawn);
    hide Step, DecryptStep, ActDecrypt, WouldTry, Needed;
  }

  lemma BreaksNow(sys: System, who: Party, n: nat, drawn: Secret)
    requires HasKeys(sys) && Undelivered(sys, who, n) && drawn.public !in sys.keys
    requires !OutcomeRight(sys, who, n, drawn)
    ensures !Delivers(sys)
  {
    hide OutcomeRight;
    assert HonestRun(sys, []) && Run(sys, []) == sys;
  }

  /** If it is offered often enough, it ends in a failure that is not the skip limit. */
  lemma {:induction false} UnreadableBreaks(sys: System, who: Party, n: nat)
    requires HasKeys(sys) && Unreadable(sys, who, n)
    ensures !Delivers(sys)
    decreases Needed(At(sys, who).state, At(sys, Other(who)).sent[n].header)
  {
    hide DecryptStep, Step, WouldTry, Needed, Delivers, Fits;
    var drawn := AnotherKey(sys.keys);
    var a := Deliver(sys, who, n, drawn);
    UnreadableStays(sys, who, n, drawn);
    if OutcomeRight(sys, who, n, drawn) {
      UnreadableBreaks(Step(sys, a), who, n);
      assert HonestMay(sys, a);
      BreaksBefore(sys, a);
    } else {
      BreaksNow(sys, who, n, drawn);
    }
  }

  /** Every number below the count has been sent. */
  lemma {:induction false} NumberWasSent(p: Peer, count: nat, dh: PublicKey, number: nat) returns (n: nat)
    requires HistoryRight(p) && count <= |p.sent| && number < CountOn(p.sent[..count], dh)
    ensures n < |p.sent| && Id(p.sent[n].header) == MessageId(dh, number)
    decreases count
  {
    var sent := p.sent[..count];
    assert sent[..count - 1] == p.sent[..count - 1];
    assert HeaderRight(p, count - 1);
    if number < CountOn(p.sent[..count - 1], dh) {
      n := NumberWasSent(p, count - 1, dh, number);
    } else {
      n := count - 1;
    }
  }

  ghost predicate StillSends(q: Peer, id: MessageId, start: Bytes) {
    && HistoryRight(q) && SealsOn(q, id.dhPublicKey, start)
    && !NeverSent(id, q.state.dhPublic, q.sent)
    && (id.dhPublicKey == q.state.dhPublic ==> q.state.sendingChain.Some?)
  }

  /**
   A message that was or can be sent, sealed under a key of one chain, is lost on the receiver: it was not accepted, its
   key is not stored, and another key will be tried for it.
   */
  ghost predicate LostBetween(p: Peer, q: Peer, id: MessageId, start: Bytes) {
    && StillSends(q, id, start)
    && id !in Delivered(p.accepted) && id !in p.state.skippedKeys
    && WouldTry(p.state, id) != Some(MessageKeyAt(start, id.number))
  }

  ghost predicate Lost(sys: System, who: Party, id: MessageId, start: Bytes) {
    LostBetween(At(sys, who), At(sys, Other(who)), id, start)
  }

  lemma SentLostIsUnreadable(sys: System, who: Party, id: MessageId, start: Bytes) returns (n: nat)
    requires Lost(sys, who, id, start)
    requires id.number < CountOn(At(sys, Other(who)).sent, id.dhPublicKey)
    ensures Unreadable(sys, who, n)
  {
    hide WouldTry, MessageKeyAt, CountOn;
    var q := At(sys, Other(who));
    assert q.sent[..|q.sent|] == q.sent;
    n := NumberWasSent(q, |q.sent|, id.dhPublicKey, id.number);
  }

  lemma LostStaysLost(sys: System, who: Party, id: MessageId, start: Bytes)
    requires HasKeys(sys) && Lost(sys, who, id, start)
    requires CountOn(At(sys, Other(who)).sent, id.dhPublicKey) <= id.number
    ensures var sys' := Step(sys, Action(Other(who), Encrypt([], 0)));
            && Lost(sys', who, id, start)
            && CountOn(At(sys', Other(who)).sent, id.dhPublicKey)
                 == CountOn(At(sys, Other(who)).sent, id.dhPublicKey) + 1
  {
    hide WouldTry, MessageKeyAt;
    var q := At(sys, Other(who));
    EncryptStepKeys(sys, Other(who), [], 0);
    EncryptKeepsHistory(q, [], 0);
    ActSealsOn(q, Encrypt([], 0), id.dhPublicKey, start);
    var q' := ActEncrypt(q, [], 0);
    CountOnAppend(q.sent, q'.sent[|q.sent|], id.dhPublicKey);
  }

  /** So the guarantee is broken: the peer sends the message if it has not, and the receiver cannot read it. */
  lemma {:induction false} LostBreaks(sys: System, who: Party, id: MessageId, start: Bytes)
    requires HasKeys(sys) && Lost(sys, who, id, start)
    ensures !Delivers(sys)
    decreases id.number - CountOn(At(sys, Other(who)).sent, id.dhPublicKey)
  {
    hide Lost, Step, Unreadable, Delivers;
    if id.number < CountOn(At(sys, Other(who)).sent, id.dhPublicKey) {
      var n := SentLostIsUnreadable(sys, who, id, start);
      UnreadableBreaks(sys, who, n);
    } else {
      var a := Action(Other(who), Encrypt([], 0));
      LostStaysLost(sys, who, id, start);
      LostBreaks(Step(sys, a), who, id, start);
      BreaksBefore(sys, a);
    }
  }

  // ---------- Every failed call that loses something loses a message ----------

  /** Everything a peer on schedule seals under one of its ratchet keys takes its key from the schedule's chain. */
  lemma PeerSealsOn(secret: Bytes, keys: seq<PublicKey>, m: nat, q: Peer, j: nat)
    requires 1 <= j < |keys| && m < |keys| && NoRepeats(keys)
    requires SendsRight(secret, keys, m, q) && OnSchedule(secret, keys, m, q.state)
    ensures SealsOn(q, keys[j], StartOf(secret, keys, j))
  {
    hide SendsRight;
    forall n | 0 <= n < |q.sent| && q.sent[n].header.dhPublicKey == keys[j]
      ensures q.sent[n].encrypted.ciphertext.key
           == MessageKeyAt(StartOf(secret, keys, j), q.sent[n].header.messageNumber)
    {
      SentIsHonest(secret, keys, m, q, n);
      assert keys[ChainOf(m, q, q.sent[n].turn)] == keys[j];
    }
  }

  lemma PeerStillSends(
    secret: Bytes, keys: seq<PublicKey>, m: nat, q: Peer, j: nat, number: nat)
    requires 1 <= j <= m < |keys| && NoRepeats(keys)
    requires SendsRight(secret, keys, m, q) && OnSchedule(secret, keys, m, q.state)
    requires !NeverSent(MessageId(keys[j], number), q.state.dhPublic, q.sent)
    ensures StillSends(q, MessageId(keys[j], number), StartOf(secret, keys, j))
  {
    hide SealsOn;
    PeerSealsOn(secret, keys, m, q, j);
  }

  lemma {:induction false} ChainLevel(start: Bytes, n: nat)
    ensures Level(ChainKeyAt(start, n)) == Level(start) == Level(MessageKeyAt(start, n))
  {
    if n > 0 {
      ChainLevel(start, n - 1);
    }
  }

  /** A session that would ratchet tries a key of a higher level than all chains it has left behind. */
  lemma OldKeyNotTried(s: State, id: MessageId, start: Bytes)
    requires s.remoteDhPublic != Some(id.dhPublicKey) && Level(start) <= Level(s.rootKey)
    ensures WouldTry(s, id) != Some(MessageKeyAt(start, id.number))
  {
    ChainLevel(start, id.number);
    ChainLevel(Chain(s.rootKey, Dh(s.dhSecret, id.dhPublicKey)), id.number);
  }

  lemma StartLevel(secret: Bytes, keys: seq<PublicKey>, j: nat)
    requires 1 <= j < |keys|
    ensures Level(StartOf(secret, keys, j)) == Level(secret) + j
  {
    RootLevels(secret, keys, j - 1);
  }

  lemma BehindNotTried(s: State, start: Bytes, id: MessageId)
    requires s.remoteDhPublic == Some(id.dhPublicKey) && ChainOn(s.receivingChain, start)
    requires id.number < s.receivingChain.value.index
    ensures WouldTry(s, id) != Some(MessageKeyAt(start, id.number))
  {
    ChainSums(start, s.receivingChain.value.index, 0);
    MessageKeysDiffer(start, id.number, s.receivingChain.value.index);
  }

  /** A stored key taken for nothing. */
  lemma StoredKeyLost(
    secret: Bytes, keys: seq<PublicKey>, k: nat, s: State, delivered: set<MessageId>, peerSent: seq<Sent>,
    id: MessageId) returns (j: nat)
    requires k < |keys| && Receives(secret, keys, k, s, delivered, peerSent) && id in s.skippedKeys
    ensures OnIncoming(keys, k, id, j) && id !in delivered
    ensures WouldTry(s.(skippedKeys := s.skippedKeys - {id}), id)
              != Some(MessageKeyAt(StartOf(secret, keys, j), id.number))
  {
    hide WouldTry, MessageKeyAt;
    var s' := s.(skippedKeys := s.skippedKeys - {id});
    assert IsKeyFor(secret, keys, k, id, s.skippedKeys[id]);
    j :| OnIncoming(keys, k, id, j) && s.skippedKeys[id] == MessageKeyAt(StartOf(secret, keys, j), id.number);
    if j == k - 1 {
      BehindNotTried(s', StartOf(secret, keys, j), id);
    } else {
      RootLevels(secret, keys, k);
      StartLevel(secret, keys, j);
      OldKeyNotTried(s', id, StartOf(secret, keys, j));
    }
  }

  /** The next key of the current chain taken for nothing. */
  lemma NextKeyLost(
    secret: Bytes, keys: seq<PublicKey>, k: nat, s: State, delivered: set<MessageId>, peerSent: seq<Sent>)
    requires 2 <= k < |keys| && Receives(secret, keys, k, s, delivered, peerSent)
    ensures s.receivingChain.Some?
    ensures var id := MessageId(keys[k - 1], s.receivingChain.value.index);
            && id !in delivered && id !in s.skippedKeys
            && WouldTry(Burned(s), id) != Some(MessageKeyAt(StartOf(secret, keys, k - 1), id.number))
  {
    hide WouldTry, MessageKeyAt;
    var start, i0 := StartOf(secret, keys, k - 1), s.receivingChain.value.index;
    assert Advance(s.receivingChain.value).0.key == ChainKeyAt(start, i0 + 1);
    BehindNotTried(Burned(s), start, MessageId(keys[k - 1], i0));
  }

  /** A message of the old chain that a ratchet passed over. */
  lemma PassedOverLost(
    secret: Bytes, keys: seq<PublicKey>, k: nat, s: State, delivered: set<MessageId>, peerSent: seq<Sent>,
    h: Header, encrypted: Encrypted, drawn: Secret)
    requires 2 <= k && |keys| == k + 2 && Receives(secret, keys, k, s, delivered, peerSent)
    requires h.dhPublicKey == keys[k + 1] && SkipCurrent(s, h.previousChainLength).1
    ensures var id := MessageId(keys[k - 1], IndexOf(s.receivingChain) + Missing(s, h.previousChainLength));
            var s' := DecryptStep(s, h, encrypted, drawn).state;
            && id !in delivered && id !in s'.skippedKeys
            && WouldTry(s', id) != Some(MessageKeyAt(StartOf(secret, keys, k - 1), id.number))
  {
    hide WouldTry, MessageKeyAt, DecryptStep;
    NewChainUnknown(secret, keys, k, s, delivered, peerSent, Id(h));
    RatchetStores(s, h, encrypted, drawn);
    RatchetedParts(s, h, encrypted, drawn);
    RemoteKept(s, h, encrypted, drawn);
    DecryptRootSide(s, h, encrypted, drawn);
    RootLevels(secret, keys, k);
    StartLevel(secret, keys, k - 1);
    var id := MessageId(keys[k - 1], IndexOf(s.receivingChain) + Missing(s, h.previousChainLength));
    OldKeyNotTried(DecryptStep(s, h, encrypted, drawn).state, id, StartOf(secret, keys, k - 1));
  }

  lemma NewKeyUnused(secret: Bytes, keys: seq<PublicKey>, k: nat, p: Peer, key: PublicKey)
    requires k < |keys| && SendsRight(secret, keys, k, p) && key !in keys
    ensures HistoryRight(p) && key !in p.own
    ensures forall n :: 0 <= n < |p.sent| ==> p.sent[n].header.dhPublicKey != key
  {
    forall n | 0 <= n < |p.sent|
      ensures p.sent[n].header.dhPublicKey in p.own
    {
      assert HeaderRight(p, n);
    }
  }

  /** After a ratchet to anything but the peer's key, the peer cannot read what comes on the new sending chain. */
  lemma OffScheduleSends(
    secret: Bytes, keys: seq<PublicKey>, k: nat, p: Peer, h: Header, encrypted: Encrypted, drawn: Secret)
    requires k < |keys| && SendsRight(secret, keys, k, p) && drawn.public !in keys
    requires DecryptStep(p.state, h, encrypted, drawn).ratcheted
    ensures var p' := ActDecrypt(p, h, encrypted, drawn);
            && p'.state.sendingChain.Some?
            && StillSends(p', MessageId(drawn.public, 0), p'.state.sendingChain.value.key)
            && p'.state.sendingChain.value.key
                 == Chain(Root(p.state.rootKey, Dh(p.state.dhSecret, h.dhPublicKey)), Dh(drawn, h.dhPublicKey))
  {
    hide SendsRight, DecryptStep, ActDecrypt, HistoryRight;
    NewKeyUnused(secret, keys, k, p, drawn.public);
    DecryptKeepsHistory(p, h, encrypted, drawn);
    DecryptRootSide(p.state, h, encrypted, drawn);
    DecryptSendingSide(p.state, h, encrypted, drawn);
    DecryptLedger(p, h, encrypted, drawn);
  }

  lemma NewNameUnknown(
    secret: Bytes, keys: seq<PublicKey>, k: nat, s: State, delivered: set<MessageId>, peerSent: seq<Sent>,
    id: MessageId)
    requires k < |keys| && Receives(secret, keys, k, s, delivered, peerSent) && id.dhPublicKey !in keys
    ensures id !in s.skippedKeys && id !in delivered
  {
    assert id in s.skippedKeys ==> IsKeyFor(secret, keys, k, id, s.skippedKeys[id]);
    assert id in delivered ==> IsIncoming(keys, k, id);
  }

  lemma OffScheduleLost(
    secret: Bytes, keys: seq<PublicKey>, k: nat, p: Peer, m: nat, q: Peer,
    h: Header, encrypted: Encrypted, drawn: Secret)
    requires Linked(secret, keys, k, p, m, q) && drawn.public !in keys
    requires DecryptStep(p.state, h, encrypted, drawn).ratcheted && h.dhPublicKey != q.state.dhPublic
    ensures var p' := ActDecrypt(p, h, encrypted, drawn);
            p'.state.sendingChain.Some?
            && LostBetween(q, p', MessageId(drawn.public, 0), p'.state.sendingChain.value.key)
  {
    hide SendsRight, StillSends, DecryptStep, ActDecrypt;
    OffScheduleSends(secret, keys, k, p, h, encrypted, drawn);
    var id := MessageId(drawn.public, 0);
    NewNameUnknown(secret, keys, m, q.state, Delivered(q.accepted), p.sent, id);
    var mine, theirs := Dh(q.state.dhSecret, drawn.public), Dh(drawn, h.dhPublicKey);
    assert keys[m] in mine.ends && keys[m] !in theirs.ends;
  }

  lemma FinishLosesKey(
    secret: Bytes, keys: seq<PublicKey>, k: nat, s: State, delivered: set<MessageId>, peerSent: seq<Sent>,
    h: Header, encrypted: Encrypted, ratcheted: bool, before: nat)
    requires 2 <= k < |keys| && Receives(secret, keys, k, s, delivered, peerSent)
    requires h.dhPublicKey == keys[k - 1] && Finish(s, h, encrypted, ratcheted, before).outcome.Err?
    requires HasRoom(|s.skippedKeys|, Missing(s, h.messageNumber))
    ensures s.receivingChain.Some?
    ensures var number := Max(s.receivingChain.value.index, h.messageNumber);
            var (s', id) := (Finish(s, h, encrypted, ratcheted, before).state, MessageId(keys[k - 1], number));
            && id !in delivered && id !in s'.skippedKeys
            && WouldTry(s', id) != Some(MessageKeyAt(StartOf(secret, keys, k - 1), number))
  {
    hide WouldTry, MessageKeyAt, Conserved, SkipTo;
    var chain := s.receivingChain.value;
    var r := SkipTo(chain, h.messageNumber, keys[k - 1], s.skippedKeys);
    KeysAreNew(secret, keys, k, s, delivered, peerSent, h);
    SkipToExactly(chain, h.messageNumber, keys[k - 1], s.skippedKeys);
    SkipKeepsReceives(secret, keys, k, s, delivered, peerSent, h.messageNumber);
    NextKeyLost(
      secret, keys, k, s.(receivingChain := Some(r.chain), skippedKeys := r.skipped), delivered, peerSent);
  }

  lemma CurrentLosesKey(
    secret: Bytes, keys: seq<PublicKey>, k: nat, s: State, delivered: set<MessageId>, peerSent: seq<Sent>,
    next: PublicKey, h: Header, encrypted: Encrypted, drawn: Secret) returns (j: nat, number: nat)
    requires k < |keys| && Receives(secret, keys, k, s, delivered, peerSent)
    requires DecryptStep(s, h, encrypted, drawn).outcome.Err?
    requires Id(h) !in s.skippedKeys && !NeedsRatchet(s, h) && !LosesNothing(s, h, next, peerSent)
    ensures Incoming(k, j)
    ensures var (s', id) := (DecryptStep(s, h, encrypted, drawn).state, MessageId(keys[j], number));
            && !NeverSent(id, next, peerSent)
            && id !in delivered && id !in s'.skippedKeys
            && WouldTry(s', id) != Some(MessageKeyAt(StartOf(secret, keys, j), number))
  {
    hide WouldTry, MessageKeyAt, Conserved, Finish, HasRoom;
    j, number := k - 1, Max(IndexOf(s.receivingChain), h.messageNumber);
    FinishLosesKey(secret, keys, k, s, delivered, peerSent, h, encrypted, false, 0);
  }

  lemma RatchetLosesKey(
    secret: Bytes, keys: seq<PublicKey>, k: nat, s: State, delivered: set<MessageId>, peerSent: seq<Sent>,
    next: PublicKey, h: Header, encrypted: Encrypted, drawn: Secret) returns (j: nat, number: nat)
    requires IsPeerKey(keys, k, next) && Receives(secret, keys, k, s, delivered, peerSent) && drawn.public !in keys
    requires DecryptStep(s, h, encrypted, drawn).outcome.Err?
    requires Id(h) !in s.skippedKeys && NeedsRatchet(s, h) && !LosesNothing(s, h, next, peerSent)
    requires DecryptStep(s, h, encrypted, drawn).ratcheted ==> h.dhPublicKey == next
    ensures Incoming(k, j) || (j == k + 1 && |keys| == k + 2)
    ensures var (s', id) := (DecryptStep(s, h, encrypted, drawn).state, MessageId(keys[j], number));
            && !NeverSent(id, next, peerSent)
            && id !in delivered && id !in s'.skippedKeys
            && WouldTry(s', id) != Some(MessageKeyAt(StartOf(secret, keys, j), number))
  {
    hide WouldTry, MessageKeyAt, Conserved, Finish, HasRoom, DecryptStep, SkipTo;
    RatchetedParts(s, h, encrypted, drawn);
    KeysAreNew(secret, keys, k, s, delivered, peerSent, h);
    SkipCurrentExactly(s, h.previousChainLength);
    assert |keys| == k + 2 && h.dhPublicKey == keys[k + 1];
    var s1 := SkipCurrent(s, h.previousChainLength).0;
    if k >= 2 && IndexOf(s1.receivingChain) < CountOn(peerSent, keys[k - 1]) {
      j, number := k - 1, IndexOf(s1.receivingChain);
      PassedOverLost(secret, keys, k, s, delivered, peerSent, h, encrypted, drawn);
    } else {
      j, number := k + 1, h.messageNumber;
      SkipCurrentKeepsReceives(secret, keys, k, s, delivered, peerSent, h.previousChainLength);
      RatchetHonest(secret, keys, k, s1, delivered, peerSent, drawn);
      ScheduleExtends(secret, keys, drawn.public);
      FinishLosesKey(secret, keys + [drawn.public], k + 2, Ratchet(s1, h.dhPublicKey, drawn), delivered, peerSent,
                     h, encrypted, true, IndexOf(s1.receivingChain) - IndexOf(s.receivingChain));
    }
  }

  /** A failed call at the receiver that leaves its position, with the name of a message it lost. */
  lemma FailureLosesKey(
    secret: Bytes, keys: seq<PublicKey>, k: nat, s: State, delivered: set<MessageId>, peerSent: seq<Sent>,
    next: PublicKey, h: Header, encrypted: Encrypted, drawn: Secret) returns (j: nat, number: nat)
    requires IsPeerKey(keys, k, next) && Receives(secret, keys, k, s, delivered, peerSent) && drawn.public !in keys
    requires DecryptStep(s, h, encrypted, drawn).outcome.Err?
    requires !LosesNothing(s, h, next, peerSent)
    requires DecryptStep(s, h, encrypted, drawn).ratcheted ==> h.dhPublicKey == next
    ensures Incoming(k, j) || (j == k + 1 && |keys| == k + 2)
    ensures var (s', id) := (DecryptStep(s, h, encrypted, drawn).state, MessageId(keys[j], number));
            && !NeverSent(id, next, peerSent)
            && id !in delivered && id !in s'.skippedKeys
            && WouldTry(s', id) != Some(MessageKeyAt(StartOf(secret, keys, j), number))
  {
    hide WouldTry, MessageKeyAt, Receives, Finish;
    if Id(h) in s.skippedKeys {
      j := StoredKeyLost(secret, keys, k, s, delivered, peerSent, Id(h));
      number := h.messageNumber;
      assert Id(h) == MessageId(keys[j], number);
    } else if !NeedsRatchet(s, h) {
      j, number := CurrentLosesKey(secret, keys, k, s, delivered, peerSent, next, h, encrypted, drawn);
    } else {
      j, number := RatchetLosesKey(secret, keys, k, s, delivered, peerSent, next, h, encrypted, drawn);
    }
  }

  // ---------- The guarantee, exactly ----------

  lemma FailureLosesMessage(
    secret: Bytes, keys: seq<PublicKey>, k: nat, p: Peer, m: nat, q: Peer,
    h: Header, encrypted: Encrypted, drawn: Secret) returns (id: MessageId, start: Bytes)
    requires Linked(secret, keys, k, p, m, q) && drawn.public !in keys
    requires DecryptStep(p.state, h, encrypted, drawn).outcome.Err?
    requires !LosesNothing(p.state, h, q.state.dhPublic, q.sent)
    requires DecryptStep(p.state, h, encrypted, drawn).ratcheted ==> h.dhPublicKey == q.state.dhPublic
    ensures LostBetween(ActDecrypt(p, h, encrypted, drawn), q, id, start)
  {
    hide SendsRight, LosesNothing, WouldTry, MessageKeyAt, NeverSent, StillSends, Conserved;
    assert q.state.dhPublic == keys[m];
    var j, number := FailureLosesKey(
      secret, keys, k, p.state, Delivered(p.accepted), q.sent, q.state.dhPublic, h, encrypted, drawn);
    id, start := MessageId(keys[j], number), StartOf(secret, keys, j);
    PeerStillSends(secret, keys, m, q, j, number);
    DecryptLedger(p, h, encrypted, drawn);
    hide ActDecrypt, DecryptStep, Receives;
  }

  lemma FailureBreaks(secret: Bytes, sys: System, who: Party, h: Header, encrypted: Encrypted, drawn: Secret)
    requires InLockstep(secret, sys) && drawn.public !in sys.keys
    requires DecryptStep(At(sys, who).state, h, encrypted, drawn).outcome.Err?
    requires !LosesNothing(At(sys, who).state, h, At(sys, Other(who)).state.dhPublic, At(sys, Other(who)).sent)
    ensures HasKeys(sys) && !Delivers(Step(sys, Action(who, Decrypt(h, encrypted, drawn))))
  {
    hide InLockstep, Linked, LosesNothing, LostBetween, DecryptStep, ActDecrypt, Delivers;
    var p, q := At(sys, who), At(sys, Other(who));
    LockstepBasics(secret, sys, who);
    LockstepBasics(secret, sys, Other(who));
    PartyLinked(secret, sys, who);
    AnyDecryptStep(sys, who, h, encrypted, drawn);
    var sys' := Step(sys, Action(who, Decrypt(h, encrypted, drawn)));
    hide Step;
    if DecryptStep(p.state, h, encrypted, drawn).ratcheted && h.dhPublicKey != q.state.dhPublic {
      OffScheduleLost(
        secret, sys.keys, EpochOf(sys, who), p, EpochOf(sys, Other(who)), q, h, encrypted, drawn);
      LostBreaks(sys', Other(who), MessageId(drawn.public, 0), At(sys', who).state.sendingChain.value.key);
    } else {
      var id, start := FailureLosesMessage(
        secret, sys.keys, EpochOf(sys, who), p, EpochOf(sys, Other(who)), q, h, encrypted, drawn);
      LostBreaks(sys', who, id, start);
    }
  }

  /**
   The guarantee, exactly: from lockstep, after a delivery of any header with any ciphertext the network can present,
   everything sent from then on or before is still delivered as it should, in both directions and over every honest
   run, if and only if it was a message of the peer not accepted yet, or the call loses nothing.
   */
  lemma GuaranteeSurvivesIff(
    secret: Bytes, net: Knowledge, sys: System, who: Party, h: Header, encrypted: Encrypted, drawn: Secret)
    requires InLockstep(secret, sys) && Guarded(secret, sys)
    requires Outside(net, secret) && Presentable(net, sys, encrypted.ciphertext) && drawn.public !in sys.keys
    ensures HasKeys(sys)
    ensures Delivers(Step(sys, Action(who, Decrypt(h, encrypted, drawn))))
       <==> || IsUndelivered(sys, who, h, encrypted)
            || LosesNothing(At(sys, who).state, h, At(sys, Other(who)).state.dhPublic, At(sys, Other(who)).sent)
  {
    hide InLockstep, Guarded, Step, LosesNothing, DecryptStep, Presentable, Delivers, IsUndelivered, Outside;
    LockstepBasics(secret, sys, who);
    LockstepSurvivesIff(secret, net, sys, who, h, encrypted, drawn);
    var sys' := Step(sys, Action(who, Decrypt(h, encrypted, drawn)));
    if InLockstep(secret, sys') {
      LockstepDelivers(secret, sys');
    } else {
      LockstepHistory(secret, sys, Other(who));
      if DecryptStep(At(sys, who).state, h, encrypted, drawn).outcome.Ok? {
        PresentableIsSentOrForeign(secret, net, sys, encrypted.ciphertext);
        OnlyUndeliveredAccepted(secret, sys, who, h, encrypted, drawn);
      }
      FailureBreaks(secret, sys, who, h, encrypted, drawn);
    }
  }

  /** The same after every honest run of two sessions just set up. */
  lemma GuaranteeExactly(
    secret: Bytes, spk: SignedPreKey, first: Secret, actions: seq<Action>, net: Knowledge, who: Party,
    h: Header, encrypted: Encrypted, drawn: Secret)
    requires spk.secret.public == spk.public && first.public != spk.public
    requires HonestRun(Start(secret, spk, first), actions) && Outside(net, secret)
    requires var now := Run(Start(secret, spk, first), actions);
             Presentable(net, now, encrypted.ciphertext) && drawn.public !in now.keys
    ensures var now := Run(Start(secret, spk, first), actions);
            var (p, q) := (At(now, who), At(now, Other(who)));
            Delivers(Step(now, Action(who, Decrypt(h, encrypted, drawn))))
            <==> IsUndelivered(now, who, h, encrypted) || LosesNothing(p.state, h, q.state.dhPublic, q.sent)
  {
    hide InLockstep, Guarded, HonestRun, Step, LosesNothing, IsUndelivered, Presentable, Outside, Delivers;
    StartInLockstep(secret, spk, first);
    RunsInLockstep(secret, Start(secret, spk, first), actions);
    StartGuarded(secret, spk, first);
    HonestRunsGuarded(secret, Start(secret, spk, first), actions);
    GuaranteeSurvivesIff(secret, net, Run(Start(secret, spk, first), actions), who, h, encrypted, drawn);
  }
}
