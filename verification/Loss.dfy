/**
 What is lost for good. Two ways for a session to become unable to read what its peer seals, each stated over every
 later run of both: a key that has been used up, and a root step that the peer never takes.
 */
module Loss {
  import opened SymbolicCrypto
  import opened MessageHeader
  import opened SessionSpec
  import opened KeyDiscipline
  import opened SessionRuns
  import opened KeySchedule

  /** None of the key pairs drawn in the calls is one of some keys. */
  predicate DrawsNoneOf(calls: seq<Call>, keys: set<PublicKey>) {
    forall c :: c in calls && c.Decrypt? ==> c.drawn.public !in keys
  }

  // ---------- A key that has been used up ----------

  /** What one call adds to the ledger: keys are only ever added to those used, and what is accepted took a new one. */
  lemma LedgerGrows(secret: Bytes, p: Peer, call: Call)
    requires |p.own| > 0 && Sound(secret, p)
    ensures var p' := Act(p, call);
            && p.used <= p'.used && p.accepted <= p'.accepted
            && forall i :: |p.accepted| <= i < |p'.accepted| ==> p'.accepted[i].key !in p.used
  {
    if call.Decrypt? {
      var d := DecryptStep(p.state, call.header, call.encrypted, call.drawn);
      DecryptKeeps(secret, p.state, p.used, call.header, call.encrypted, call.drawn);
      DecryptTries(p.state, call.header, call.encrypted, call.drawn);
      if d.tried.Some? {
        var used' := WithTried(p.used, d.tried);
        assert used'[|p.used|] == d.tried.value && forall i :: 0 <= i < |p.used| ==> used'[i] == p.used[i];
        assert d.tried.value !in p.used;
      }
    }
  }

  /** A key once used opens nothing more, in any later run. */
  lemma {:induction false} UsedKeysStayClosed(secret: Bytes, p: Peer, calls: seq<Call>)
    requires |p.own| > 0 && Sound(secret, p)
    ensures var p' := Play(p, calls);
            && p.used <= p'.used && p.accepted <= p'.accepted
            && forall i :: |p.accepted| <= i < |p'.accepted| ==> p'.accepted[i].key !in p.used
    decreases |calls|
  {
    if calls != [] {
      UsedKeysStayClosed(secret, p, calls[..|calls| - 1]);
      RunsSound(secret, p, calls[..|calls| - 1]);
      LedgerGrows(secret, Play(p, calls[..|calls| - 1]), calls[|calls| - 1]);
    }
  }

  /** All messages under a ratchet key, sent or yet to be sent, take their keys from one chain. */
  ghost predicate SealsOn(q: Peer, dh: PublicKey, start: Bytes) {
    && (forall n :: 0 <= n < |q.sent| && q.sent[n].header.dhPublicKey == dh ==>
          q.sent[n].encrypted.ciphertext.key == MessageKeyAt(start, q.sent[n].header.messageNumber))
    && (q.state.dhPublic == dh && q.state.sendingChain.Some? ==> ChainOn(q.state.sendingChain, start))
  }

  lemma ActSealsOn(q: Peer, call: Call, dh: PublicKey, start: Bytes)
    requires |q.own| > 0 && SealsOn(q, dh, start) && DrawsNoneOf([call], {dh})
    ensures SealsOn(Act(q, call), dh, start)
  {
    match call
    case Encrypt(_, _) =>
      if q.state.sendingChain.Some? && q.state.dhPublic == dh {
        var chain := q.state.sendingChain.value;
        assert Advance(chain).0.key == ChainKeyAt(start, chain.index + 1);
      }
    case Decrypt(h, encrypted, drawn) =>
      assert call in [call];
      DecryptSendingSide(q.state, h, encrypted, drawn);
      DecryptLedger(q, h, encrypted, drawn);
  }

  lemma {:induction false} RunsSealOn(q: Peer, calls: seq<Call>, dh: PublicKey, start: Bytes)
    requires |q.own| > 0 && SealsOn(q, dh, start) && DrawsNoneOf(calls, {dh})
    ensures SealsOn(Play(q, calls), dh, start)
    decreases |calls|
  {
    if calls != [] {
      RunsSealOn(q, calls[..|calls| - 1], dh, start);
      ActSealsOn(Play(q, calls[..|calls| - 1]), calls[|calls| - 1], dh, start);
    }
  }

  // ---------- A root step the peer never takes ----------

  /** A byte string was made through one particular root step: from a root, with a Diffie-Hellman output. */
  predicate Through(root: Bytes, dh: DhOutput, b: Bytes) {
    match b
    case Okm(ikm, salt, _, _) => (salt == root && ikm == [dh]) || Through(root, dh, salt)
    case Mac(key, _) => Through(root, dh, key)
    case _ => false
  }

  /** The session has taken the step: all it will derive goes through it. `kept` are the keys it stored before. */
  ghost predicate TookStep(root: Bytes, dh: DhOutput, s: State, kept: set<Bytes>) {
    && Through(root, dh, s.rootKey)
    && (s.sendingChain.Some? ==> Through(root, dh, s.sendingChain.value.key))
    && (s.receivingChain.Some? ==> Through(root, dh, s.receivingChain.value.key))
    && forall id :: id in s.skippedKeys ==> s.skippedKeys[id] in kept || Through(root, dh, s.skippedKeys[id])
  }

  lemma {:induction false} SkipTakesStep(
    root: Bytes, dh: DhOutput, kept: set<Bytes>, chain: ChainState, until: nat, remote: PublicKey,
    skipped: SkippedKeys)
    requires Through(root, dh, chain.key)
    requires forall id :: id in skipped ==> skipped[id] in kept || Through(root, dh, skipped[id])
    ensures var r := SkipTo(chain, until, remote, skipped);
            && Through(root, dh, r.chain.key)
            && forall id :: id in r.skipped ==> r.skipped[id] in kept || Through(root, dh, r.skipped[id])
    decreases until - chain.index
  {
    if chain.index < until {
      var (next, messageKey) := Advance(chain);
      var skipped' := skipped[MessageId(remote, chain.index) := messageKey];
      if |skipped'| <= MAX_SKIP {
        SkipTakesStep(root, dh, kept, next, until, remote, skipped');
      }
    }
  }

  lemma FinishTakesStep(
    root: Bytes, dh: DhOutput, kept: set<Bytes>, s: State,
    h: Header, encrypted: Encrypted, ratcheted: bool, before: nat)
    requires TookStep(root, dh, s, kept)
    ensures var d := Finish(s, h, encrypted, ratcheted, before);
            && TookStep(root, dh, d.state, kept)
            && (d.tried.Some? ==> Through(root, dh, d.tried.value))
  {
    if s.receivingChain.Some? {
      SkipTakesStep(root, dh, kept, s.receivingChain.value, h.messageNumber, h.dhPublicKey, s.skippedKeys);
    }
  }

  lemma DecryptTakesStep(
    root: Bytes, dh: DhOutput, kept: set<Bytes>, s: State, h: Header, encrypted: Encrypted, drawn: Secret)
    requires TookStep(root, dh, s, kept)
    ensures var d := DecryptStep(s, h, encrypted, drawn);
            && TookStep(root, dh, d.state, kept)
            && (d.tried.Some? ==> d.tried.value in kept || Through(root, dh, d.tried.value))
  {
    if Id(h) !in s.skippedKeys {
      if NeedsRatchet(s, h) {
        var (s1, ok) := SkipCurrent(s, h.previousChainLength);
        SkipCurrentGrows(s, h.previousChainLength);
        if s.receivingChain.Some? && s.remoteDhPublic.Some? {
          SkipTakesStep(root, dh, kept, s.receivingChain.value, h.previousChainLength, s.remoteDhPublic.value,
                        s.skippedKeys);
        }
        if ok {
          FinishTakesStep(root, dh, kept, Ratchet(s1, h.dhPublicKey, drawn), h, encrypted, true,
                          IndexOf(s1.receivingChain) - IndexOf(s.receivingChain));
        }
      } else {
        FinishTakesStep(root, dh, kept, s, h, encrypted, false, 0);
      }
    }
  }

  /** In any run after the step, what is accepted was sealed under a kept key or one made through the step. */
  lemma {:induction false} RunsTakeStep(root: Bytes, dh: DhOutput, kept: set<Bytes>, p: Peer, calls: seq<Call>)
    requires |p.own| > 0 && TookStep(root, dh, p.state, kept)
    ensures var p' := Play(p, calls);
            && TookStep(root, dh, p'.state, kept) && p.accepted <= p'.accepted
            && forall i :: |p.accepted| <= i < |p'.accepted| ==>
                 var key := p'.accepted[i].encrypted.ciphertext.key;
                 key in kept || Through(root, dh, key)
    decreases |calls|
  {
    if calls != [] {
      RunsTakeStep(root, dh, kept, p, calls[..|calls| - 1]);
      var q, call := Play(p, calls[..|calls| - 1]), calls[|calls| - 1];
      if call.Decrypt? {
        DecryptTakesStep(root, dh, kept, q.state, call.header, call.encrypted, call.drawn);
        DecryptTries(q.state, call.header, call.encrypted, call.drawn);
      }
    }
  }

  /** The session is not past the step, and holds none of the secrets it would need to take it. */
  ghost predicate AvoidsStep(root: Bytes, dh: DhOutput, q: Peer) {
    && !Through(root, dh, q.state.rootKey)
    && (q.state.sendingChain.Some? ==> !Through(root, dh, q.state.sendingChain.value.key))
    && q.state.dhSecret.public !in dh.ends
    && forall n :: 0 <= n < |q.sent| ==> !Through(root, dh, q.sent[n].encrypted.ciphertext.key)
  }

  lemma NextRootAvoidsStep(root: Bytes, dh: DhOutput, b: Bytes, ours: Secret, remote: PublicKey)
    requires !Through(root, dh, b) && ours.public !in dh.ends
    ensures !Through(root, dh, Root(b, Dh(ours, remote))) && !Through(root, dh, Chain(b, Dh(ours, remote)))
  {
    assert ours.public in Dh(ours, remote).ends;
  }

  lemma DecryptAvoidsStep(
    root: Bytes, dh: DhOutput, q: Peer, h: Header, encrypted: Encrypted, drawn: Secret)
    requires AvoidsStep(root, dh, q) && drawn.public !in dh.ends
    ensures AvoidsStep(root, dh, ActDecrypt(q, h, encrypted, drawn))
  {
    DecryptRootSide(q.state, h, encrypted, drawn);
    DecryptLedger(q, h, encrypted, drawn);
    hide DecryptStep, ActDecrypt;
    NextRootAvoidsStep(root, dh, q.state.rootKey, q.state.dhSecret, h.dhPublicKey);
    NextRootAvoidsStep(root, dh, Root(q.state.rootKey, Dh(q.state.dhSecret, h.dhPublicKey)), drawn, h.dhPublicKey);
  }

  lemma {:induction false} RunsAvoidStep(root: Bytes, dh: DhOutput, q: Peer, calls: seq<Call>)
    requires |q.own| > 0 && AvoidsStep(root, dh, q) && DrawsNoneOf(calls, dh.ends)
    ensures AvoidsStep(root, dh, Play(q, calls))
    decreases |calls|
  {
    if calls != [] {
      RunsAvoidStep(root, dh, q, calls[..|calls| - 1]);
      var q', call := Play(q, calls[..|calls| - 1]), calls[|calls| - 1];
      if call.Decrypt? {
        DecryptAvoidsStep(root, dh, q', call.header, call.encrypted, call.drawn);
      }
    }
  }

  /** In no later run of the two does the receiver accept anything of the peer's but what it had keys stored for. */
  ghost predicate Severed(p: Peer, calls: seq<Call>, q: Peer, peerCalls: seq<Call>)
    requires |p.own| > 0 && |q.own| > 0
  {
    var (p', q') := (Play(p, calls), Play(q, peerCalls));
    forall i, b :: |p.accepted| <= i < |p'.accepted| && 0 <= b < |q'.sent|
                   && p'.accepted[i].encrypted.ciphertext == q'.sent[b].encrypted.ciphertext ==>
      q'.sent[b].encrypted.ciphertext.key in p.state.skippedKeys.Values
  }

  /** After a root step its peer never takes, a session is severed from it. */
  lemma CutOff(root: Bytes, dh: DhOutput, p: Peer, calls: seq<Call>, q: Peer, peerCalls: seq<Call>)
    requires |p.own| > 0 && TookStep(root, dh, p.state, p.state.skippedKeys.Values)
    requires |q.own| > 0 && AvoidsStep(root, dh, q) && DrawsNoneOf(peerCalls, dh.ends)
    ensures Severed(p, calls, q, peerCalls)
  {
    RunsTakeStep(root, dh, p.state.skippedKeys.Values, p, calls);
    RunsAvoidStep(root, dh, q, peerCalls);
  }

  // ---------- The key schedule and a step that is not on it ----------

  lemma {:induction false} ThroughLiesAbove(root: Bytes, dh: DhOutput, b: Bytes)
    requires Through(root, dh, b)
    ensures Level(root) < Level(b)
  {
    match b
    case Okm(ikm, salt, _, _) =>
      if !(salt == root && ikm == [dh]) {
        ThroughLiesAbove(root, dh, salt);
      }
    case Mac(key, _) => ThroughLiesAbove(root, dh, key);
  }

  lemma {:induction false} RootLevels(secret: Bytes, keys: seq<PublicKey>, i: nat)
    requires i < |keys|
    ensures Level(RootAt(secret, keys, i)) == Level(secret) + i
  {
    if i > 0 {
      RootLevels(secret, keys, i - 1);
    }
  }

  /** An exchange of key k with any key that is not its neighbour on the schedule is in no root and no chain of it. */
  lemma {:induction false} ScheduleAvoidsStep(secret: Bytes, keys: seq<PublicKey>, k: nat, other: PublicKey, i: nat)
    requires NoRepeats(keys) && k < |keys| && i < |keys|
    requires (k > 0 ==> other != keys[k - 1]) && (k + 1 < |keys| ==> other != keys[k + 1])
    ensures var (root, dh) := (RootAt(secret, keys, k), Dh(Secret(keys[k]), other));
            && !Through(root, dh, RootAt(secret, keys, i))
            && (i > 0 ==> !Through(root, dh, StartOf(secret, keys, i)))
  {
    var root, dh := RootAt(secret, keys, k), Dh(Secret(keys[k]), other);
    if i == 0 {
      RootLevels(secret, keys, k);
      if Through(root, dh, secret) {
        ThroughLiesAbove(root, dh, secret);
      }
    } else {
      ScheduleAvoidsStep(secret, keys, k, other, i - 1);
      var here := Dh(Secret(keys[i - 1]), keys[i]);
      assert here != dh by {
        assert keys[k] in dh.ends && keys[i - 1] in here.ends && keys[i] in here.ends;
        assert keys[i - 1] != keys[i];
      }
    }
  }

  lemma {:induction false} ChainAvoidsStep(root: Bytes, dh: DhOutput, start: Bytes, n: nat)
    requires !Through(root, dh, start)
    ensures !Through(root, dh, ChainKeyAt(start, n)) && !Through(root, dh, MessageKeyAt(start, n))
  {
    if n > 0 {
      ChainAvoidsStep(root, dh, start, n - 1);
    }
  }
}
