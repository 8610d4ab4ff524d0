/**
 Order independence: a set of messages that a session can read can be delivered in any order, with the same plaintexts
 and the same session in the end. The messages may be late ones of old chains, ones of the current chain, and ones of
 the chain the peer has moved on to, in any mixture. In lockstep these are all the messages not delivered yet.
 */
module OrderIndependence {
  import opened Wrappers
  import opened SymbolicCrypto
  import opened MessageHeader
  import opened SessionSpec
  import opened SkipLimits
  import opened KeyDiscipline
  import opened SessionRuns
  import opened HostileNetwork
  import opened KeySchedule
  import opened Lockstep
  import opened Delivery

  // ---------- Messages a session can read ----------

  /** Where a session stands: its current chain, and the next key of the peer with what was sent on the chain before. */
  datatype Position = Position(dh: PublicKey, start: Bytes, next: PublicKey, previous: nat)

  predicate SealedUnder(m: Sent, key: Bytes) {
    m.encrypted.ciphertext == Sealed(key, m.encrypted.nonce, m.plaintext, ToBytes(m.header))
  }

  /** The session receives on the chain from `start`, and what it has stored for it is the keys it has passed. */
  ghost predicate Coherent(s: State, dh: PublicKey, start: Bytes) {
    && (s.receivingChain.Some? ==> s.remoteDhPublic == Some(dh) && ChainOn(s.receivingChain, start))
    && forall id :: id in s.skippedKeys && id.dhPublicKey == dh ==>
         id.number < IndexOf(s.receivingChain) && s.skippedKeys[id] == MessageKeyAt(start, id.number)
  }

  /** The key of the message is stored, or still ahead on the current chain. */
  predicate Pending(s: State, dh: PublicKey, start: Bytes, m: Sent) {
    if Id(m.header) in s.skippedKeys then SealedUnder(m, s.skippedKeys[Id(m.header)])
    else
      && s.receivingChain.Some? && m.header.dhPublicKey == dh
      && s.receivingChain.value.index <= m.header.messageNumber
      && SealedUnder(m, MessageKeyAt(start, m.header.messageNumber))
  }

  /** The session with its current chain skipped and a ratchet to the peer's next key. */
  function Ratcheted(s: State, next: PublicKey, previous: nat, drawn: Secret): State {
    Ratchet(SkipCurrent(s, previous).0, next, drawn)
  }

  function NextStart(s: State, next: PublicKey): Bytes {
    Chain(s.rootKey, Dh(s.dhSecret, next))
  }

  ghost predicate Ready(s: State, pos: Position) {
    && Coherent(s, pos.dh, pos.start)
    && pos.dh != pos.next && s.remoteDhPublic != Some(pos.next)
    && forall id :: id in s.skippedKeys ==> id.dhPublicKey != pos.next
  }

  predicate OnNext(pos: Position, m: Sent) {
    m.header.dhPublicKey == pos.next
  }

  predicate Readable(s: State, pos: Position, m: Sent) {
    if OnNext(pos, m) then
      && m.header.previousChainLength == pos.previous
      && SealedUnder(m, MessageKeyAt(NextStart(s, pos.next), m.header.messageNumber))
    else
      && Pending(s, pos.dh, pos.start, m)
      && (m.header.dhPublicKey == pos.dh ==> m.header.messageNumber < pos.previous)
  }

  ghost predicate DistinctIds(messages: seq<Sent>) {
    forall i, j :: 0 <= i < j < |messages| ==> Id(messages[i].header) != Id(messages[j].header)
  }

  /** Distinct readable messages; what each makes the session skip, as it is now, is within the limit. */
  ghost predicate Deliverable(s: State, pos: Position, messages: seq<Sent>) {
    && (forall m :: m in messages ==> Readable(s, pos, m) && Fits(s, m.header))
    && DistinctIds(messages)
  }

  function AfterAll(s: State, messages: seq<Sent>, drawn: Secret): State
    decreases |messages|
  {
    if messages == [] then s
    else
      var m := messages[|messages| - 1];
      DecryptStep(AfterAll(s, messages[..|messages| - 1], drawn), m.header, m.encrypted, drawn).state
  }

  /** The outcome of the i-th delivery. */
  function OutcomeAt(s: State, messages: seq<Sent>, i: nat, drawn: Secret): Result<Plaintext>
    requires i < |messages|
  {
    DecryptStep(AfterAll(s, messages[..i], drawn), messages[i].header, messages[i].encrypted, drawn).outcome
  }

  ghost predicate AllRead(s: State, messages: seq<Sent>, drawn: Secret) {
    forall i :: 0 <= i < |messages| ==> OutcomeAt(s, messages, i, drawn) == Ok(messages[i].plaintext)
  }

  // ---------- The state after a set of deliveries, without their order ----------

  /**
   From s, on one chain: the chain has moved just past the largest number done, and the map gained what it passed and
   lost what is done.
   */
  ghost predicate Settled(s: State, dh: PublicKey, start: Bytes, done: set<MessageId>, t: State) {
    && t == s.(receivingChain := t.receivingChain, skippedKeys := t.skippedKeys)
    && (if s.receivingChain.Some? then ChainOn(t.receivingChain, start) else t.receivingChain.None?)
    && IndexOf(s.receivingChain) <= IndexOf(t.receivingChain)
    && (forall id :: id in done && id.dhPublicKey == dh ==> id.number < IndexOf(t.receivingChain))
    && (IndexOf(s.receivingChain) < IndexOf(t.receivingChain) ==>
          MessageId(dh, IndexOf(t.receivingChain) - 1) in done)
    && (forall id :: id in t.skippedKeys <==>
          && (id in s.skippedKeys || InRange(id, dh, IndexOf(s.receivingChain), IndexOf(t.receivingChain)))
          && id !in done)
    && (forall id :: id in t.skippedKeys ==>
          t.skippedKeys[id] == if id in s.skippedKeys then s.skippedKeys[id] else MessageKeyAt(start, id.number))
  }

  lemma SettledUnique(s: State, dh: PublicKey, start: Bytes, done: set<MessageId>, t: State, u: State)
    requires Settled(s, dh, start, done, t) && Settled(s, dh, start, done, u)
    ensures t == u
  {
    assert IndexOf(t.receivingChain) == IndexOf(u.receivingChain);
    assert t.skippedKeys == u.skippedKeys;
  }

  /** Whatever has been delivered, what fitted at first still fits. */
  lemma SkipFits(s: State, dh: PublicKey, start: Bytes, done: set<MessageId>, t: State, until: nat)
    requires Coherent(s, dh, start) && Settled(s, dh, start, done, t) && s.receivingChain.Some?
    requires HasRoom(|s.skippedKeys|, Missing(s, until))
    ensures SkipTo(t.receivingChain.value, until, dh, t.skippedKeys).ok
  {
    var chain, lo := t.receivingChain.value, IndexOf(s.receivingChain);
    if chain.index < until {
      var total := t.skippedKeys.Keys + Ids(dh, chain.index, until);
      SkipToFailsIff(chain, until, dh, t.skippedKeys, total);
      IdsSize(dh, lo, until);
      CoverSize(total, s.skippedKeys.Keys, Ids(dh, lo, until));
    }
  }

  /** A message on the current chain, not behind it, opens after the skips up to it. */
  lemma AheadOpens(t: State, dh: PublicKey, start: Bytes, m: Sent, drawn: Secret)
    requires t.remoteDhPublic == Some(dh) == Some(m.header.dhPublicKey) && ChainOn(t.receivingChain, start)
    requires Id(m.header) !in t.skippedKeys && IndexOf(t.receivingChain) <= m.header.messageNumber
    requires SealedUnder(m, MessageKeyAt(start, m.header.messageNumber))
    requires SkipTo(t.receivingChain.value, m.header.messageNumber, dh, t.skippedKeys).ok
    ensures var d := DecryptStep(t, m.header, m.encrypted, drawn);
            var r := SkipTo(t.receivingChain.value, m.header.messageNumber, dh, t.skippedKeys);
            && d.outcome == Ok(m.plaintext)
            && d.state == t.(receivingChain := Some(Advance(r.chain).0), skippedKeys := r.skipped)
            && ChainOn(d.state.receivingChain, start)
            && IndexOf(d.state.receivingChain) == m.header.messageNumber + 1
  {
    hide SkipTo, ToBytes;
    var number := m.header.messageNumber;
    var r := SkipTo(t.receivingChain.value, number, dh, t.skippedKeys);
    SkipToStores(t.receivingChain.value, number, dh, t.skippedKeys);
    SkipToKeys(t.receivingChain.value, number, dh, t.skippedKeys, start);
    assert r.chain == ChainState(ChainKeyAt(start, number), number);
  }

  lemma SettleAhead(
    s: State, dh: PublicKey, start: Bytes, done: set<MessageId>, t: State, number: nat, u: State)
    requires Coherent(s, dh, start) && Settled(s, dh, start, done, t)
    requires s.receivingChain.Some? && IndexOf(t.receivingChain) <= number
    requires ChainOn(u.receivingChain, start) && IndexOf(u.receivingChain) == number + 1
    requires u == t.(receivingChain := u.receivingChain, skippedKeys := u.skippedKeys)
    requires forall id :: id in u.skippedKeys <==>
               id in t.skippedKeys || InRange(id, dh, IndexOf(t.receivingChain), number)
    requires forall id :: id in u.skippedKeys ==>
               u.skippedKeys[id] == if InRange(id, dh, IndexOf(t.receivingChain), number)
                                    then MessageKeyAt(start, id.number) else t.skippedKeys[id]
    ensures Settled(s, dh, start, done + {MessageId(dh, number)}, u)
  {
  }

  lemma DeliverAhead(
    s: State, dh: PublicKey, start: Bytes, done: set<MessageId>, t: State, m: Sent, drawn: Secret)
    requires Coherent(s, dh, start) && Settled(s, dh, start, done, t) && s.receivingChain.Some?
    requires m.header.dhPublicKey == dh && SealedUnder(m, MessageKeyAt(start, m.header.messageNumber))
    requires Id(m.header) !in t.skippedKeys && IndexOf(t.receivingChain) <= m.header.messageNumber
    requires HasRoom(|s.skippedKeys|, Missing(s, m.header.messageNumber))
    ensures var d := DecryptStep(t, m.header, m.encrypted, drawn);
            d.outcome == Ok(m.plaintext) && Settled(s, dh, start, done + {Id(m.header)}, d.state)
  {
    hide DecryptStep;
    var number := m.header.messageNumber;
    SkipFits(s, dh, start, done, t, number);
    SkipToStores(t.receivingChain.value, number, dh, t.skippedKeys);
    SkipToKeys(t.receivingChain.value, number, dh, t.skippedKeys, start);
    AheadOpens(t, dh, start, m, drawn);
    SettleAhead(s, dh, start, done, t, number, DecryptStep(t, m.header, m.encrypted, drawn).state);
  }

  /** A message whose key is stored. */
  lemma DeliverStored(
    s: State, dh: PublicKey, start: Bytes, done: set<MessageId>, t: State, m: Sent, drawn: Secret)
    requires Coherent(s, dh, start) && Settled(s, dh, start, done, t)
    requires Pending(s, dh, start, m) && Id(m.header) in t.skippedKeys
    ensures var d := DecryptStep(t, m.header, m.encrypted, drawn);
            d.outcome == Ok(m.plaintext) && Settled(s, dh, start, done + {Id(m.header)}, d.state)
  {
    hide ToBytes, MessageKeyAt, ChainOn;
    var id := Id(m.header);
    assert SealedUnder(m, t.skippedKeys[id]);
    assert DecryptStep(t, m.header, m.encrypted, drawn).state == t.(skippedKeys := t.skippedKeys - {id});
  }

  /** One more message without a ratchet, in any settled state. */
  lemma DeliverOne(
    s: State, dh: PublicKey, start: Bytes, done: set<MessageId>, t: State, m: Sent, drawn: Secret)
    requires Coherent(s, dh, start) && Settled(s, dh, start, done, t)
    requires Pending(s, dh, start, m) && Id(m.header) !in done
    requires Id(m.header) in s.skippedKeys || HasRoom(|s.skippedKeys|, Missing(s, m.header.messageNumber))
    ensures var d := DecryptStep(t, m.header, m.encrypted, drawn);
            d.outcome == Ok(m.plaintext) && Settled(s, dh, start, done + {Id(m.header)}, d.state)
  {
    hide DecryptStep, ToBytes, MessageKeyAt, ChainOn, HasRoom;
    if Id(m.header) in t.skippedKeys {
      DeliverStored(s, dh, start, done, t, m, drawn);
    } else {
      DeliverAhead(s, dh, start, done, t, m, drawn);
    }
  }

  // ---------- The ratchet can be moved to the front ----------

  /** What skipping the current chain to its end makes of it and of the map. */
  lemma SkippedToEnd(s: State, dh: PublicKey, start: Bytes, previous: nat)
    requires Coherent(s, dh, start) && SkipCurrent(s, previous).1
    ensures var s1 := SkipCurrent(s, previous).0;
            var end := IndexOf(s.receivingChain) + Missing(s, previous);
            && s1 == s.(receivingChain := s1.receivingChain, skippedKeys := s1.skippedKeys)
            && (forall id :: id in s1.skippedKeys <==>
                  id in s.skippedKeys || InRange(id, dh, IndexOf(s.receivingChain), end))
            && (forall id :: id in s1.skippedKeys ==>
                  s1.skippedKeys[id]
                    == if id in s.skippedKeys then s.skippedKeys[id] else MessageKeyAt(start, id.number))
  {
    if s.receivingChain.Some? {
      SkipToStores(s.receivingChain.value, previous, dh, s.skippedKeys);
      SkipToKeys(s.receivingChain.value, previous, dh, s.skippedKeys, start);
    }
  }

  /** The messages done are ones of old chains or of the current one, below what the peer sent on it. */
  predicate Before(pos: Position, done: set<MessageId>) {
    forall id :: id in done ==>
      id.dhPublicKey != pos.next && (id.dhPublicKey == pos.dh ==> id.number < pos.previous)
  }

  lemma RatchetSkips(s: State, pos: Position, done: set<MessageId>, t: State)
    requires Ready(s, pos) && Settled(s, pos.dh, pos.start, done, t) && Before(pos, done)
    requires HasRoom(|s.skippedKeys|, Missing(s, pos.previous))
    ensures SkipCurrent(s, pos.previous).1 && SkipCurrent(t, pos.previous).1
    ensures Ready(t, pos)
    ensures IndexOf(t.receivingChain) + Missing(t, pos.previous) == IndexOf(s.receivingChain) + Missing(s, pos.previous)
  {
    if s.receivingChain.Some? {
      SkipCurrentExactly(s, pos.previous);
      SkipFits(s, pos.dh, pos.start, done, t, pos.previous);
    }
  }

  lemma RatchetKeepsDone(s: State, pos: Position, done: set<MessageId>, t: State)
    requires Ready(s, pos) && Settled(s, pos.dh, pos.start, done, t) && Before(pos, done)
    requires HasRoom(|s.skippedKeys|, Missing(s, pos.previous))
    ensures var (s1, t1) := (SkipCurrent(s, pos.previous).0, SkipCurrent(t, pos.previous).0);
            && t1 == s1.(receivingChain := t1.receivingChain, skippedKeys := t1.skippedKeys)
            && (forall id :: id in t1.skippedKeys <==> id in s1.skippedKeys && id !in done)
            && (forall id :: id in t1.skippedKeys ==> t1.skippedKeys[id] == s1.skippedKeys[id])
  {
    RatchetSkips(s, pos, done, t);
    SkippedToEnd(s, pos.dh, pos.start, pos.previous);
    SkippedToEnd(t, pos.dh, pos.start, pos.previous);
    hide SkipCurrent, HasRoom, Missing, ChainOn;
  }

  /** Deliveries before the ratchet and after it settle in the same state. */
  lemma RatchetSettles(s: State, pos: Position, done: set<MessageId>, t: State, drawn: Secret)
    requires Ready(s, pos) && Settled(s, pos.dh, pos.start, done, t) && Before(pos, done)
    requires HasRoom(|s.skippedKeys|, Missing(s, pos.previous))
    ensures Settled(Ratcheted(s, pos.next, pos.previous, drawn), pos.next, NextStart(s, pos.next), done,
                    Ratcheted(t, pos.next, pos.previous, drawn))
  {
    RatchetKeepsDone(s, pos, done, t);
    RatchetSkips(s, pos, done, t);
    SkippedToEnd(s, pos.dh, pos.start, pos.previous);
    hide SkipCurrent, HasRoom, Missing, Coherent;
    assert ChainKeyAt(NextStart(s, pos.next), 0) == NextStart(s, pos.next);
  }

  /** The first message of the next chain does what it would do had the ratchet already happened. */
  lemma RatchetThenDecrypt(t: State, h: Header, encrypted: Encrypted, drawn: Secret)
    requires NeedsRatchet(t, h) && SkipCurrent(t, h.previousChainLength).1
    requires Id(h) !in t.skippedKeys
    requires Id(h) !in SkipCurrent(t, h.previousChainLength).0.skippedKeys
    ensures var d := DecryptStep(t, h, encrypted, drawn);
            var e := DecryptStep(Ratcheted(t, h.dhPublicKey, h.previousChainLength, drawn), h, encrypted, drawn);
            d.state == e.state && d.outcome == e.outcome
  {
    SkipCurrentGrows(t, h.previousChainLength);
  }

  lemma RatchetedCoherent(s: State, pos: Position, drawn: Secret)
    requires Ready(s, pos) && HasRoom(|s.skippedKeys|, Missing(s, pos.previous))
    ensures var s2 := Ratcheted(s, pos.next, pos.previous, drawn);
            && s2.receivingChain.Some? && Coherent(s2, pos.next, NextStart(s, pos.next))
            && |s2.skippedKeys| == |s.skippedKeys| + Missing(s, pos.previous)
  {
    SkipCurrentExactly(s, pos.previous);
    SkippedToEnd(s, pos.dh, pos.start, pos.previous);
    hide SkipCurrent;
    assert ChainKeyAt(NextStart(s, pos.next), 0) == NextStart(s, pos.next);
  }

  /** After the ratchet everything readable is pending: on the new chain, or stored. */
  lemma ReadableThenPending(s: State, pos: Position, m: Sent, drawn: Secret)
    requires Ready(s, pos) && HasRoom(|s.skippedKeys|, Missing(s, pos.previous))
    requires Readable(s, pos, m) && Fits(s, m.header)
    ensures var s2 := Ratcheted(s, pos.next, pos.previous, drawn);
            && Pending(s2, pos.next, NextStart(s, pos.next), m)
            && (Id(m.header) in s2.skippedKeys || HasRoom(|s2.skippedKeys|, Missing(s2, m.header.messageNumber)))
  {
    SkipCurrentExactly(s, pos.previous);
    SkippedToEnd(s, pos.dh, pos.start, pos.previous);
    hide SkipCurrent;
  }

  // ---------- Any order ----------

  predicate AnyNext(pos: Position, messages: seq<Sent>) {
    exists m :: m in messages && OnNext(pos, m)
  }

  function IdsOf(messages: seq<Sent>): set<MessageId> {
    set m | m in messages :: Id(m.header)
  }

  /** What the session is after some messages: settled from where it stands, or from the ratchet if one was due. */
  ghost predicate SettledAfter(s: State, pos: Position, messages: seq<Sent>, drawn: Secret, t: State) {
    if AnyNext(pos, messages)
    then Settled(Ratcheted(s, pos.next, pos.previous, drawn), pos.next, NextStart(s, pos.next), IdsOf(messages), t)
    else Settled(s, pos.dh, pos.start, IdsOf(messages), t)
  }

  lemma OneMoreId(messages: seq<Sent>, m: Sent)
    ensures IdsOf(messages + [m]) == IdsOf(messages) + {Id(m.header)}
    ensures DistinctIds(messages + [m]) ==> DistinctIds(messages) && Id(m.header) !in IdsOf(messages)
  {
    var more := messages + [m];
    assert forall x :: x in more <==> x in messages || x == m;
    if DistinctIds(more) {
      forall i | 0 <= i < |messages|
        ensures Id(messages[i].header) != Id(m.header)
      {
        assert more[i] == messages[i] && more[|messages|] == m;
      }
      forall i, j | 0 <= i < j < |messages|
        ensures Id(messages[i].header) != Id(messages[j].header)
      {
        assert more[i] == messages[i] && more[j] == messages[j];
      }
    }
  }

  lemma NoneNextBefore(s: State, pos: Position, messages: seq<Sent>)
    requires !AnyNext(pos, messages) && forall m :: m in messages ==> Readable(s, pos, m)
    ensures Before(pos, IdsOf(messages))
  {
  }

  /** What a message needs is there, on the chain it belongs to. */
  lemma FitsMeansRoom(s: State, pos: Position, m: Sent)
    requires Ready(s, pos) && Readable(s, pos, m) && Fits(s, m.header)
    ensures if OnNext(pos, m) then NeedsRatchet(s, m.header) && HasRoom(|s.skippedKeys|, Missing(s, pos.previous))
            else Id(m.header) in s.skippedKeys || HasRoom(|s.skippedKeys|, Missing(s, m.header.messageNumber))
  {
  }

  /** Any message once the ratchet has happened. */
  lemma DeliverAfterRatchet(s: State, pos: Position, done: set<MessageId>, t: State, m: Sent, drawn: Secret)
    requires Ready(s, pos) && HasRoom(|s.skippedKeys|, Missing(s, pos.previous))
    requires Settled(Ratcheted(s, pos.next, pos.previous, drawn), pos.next, NextStart(s, pos.next), done, t)
    requires Readable(s, pos, m) && Fits(s, m.header) && Id(m.header) !in done
    ensures var d := DecryptStep(t, m.header, m.encrypted, drawn);
            && d.outcome == Ok(m.plaintext)
            && Settled(Ratcheted(s, pos.next, pos.previous, drawn), pos.next, NextStart(s, pos.next),
                       done + {Id(m.header)}, d.state)
  {
    hide *;
    RatchetedCoherent(s, pos, drawn);
    ReadableThenPending(s, pos, m, drawn);
    DeliverOne(Ratcheted(s, pos.next, pos.previous, drawn), pos.next, NextStart(s, pos.next), done, t, m, drawn);
  }

  /** The first message of the next chain, in any settled state. */
  lemma DeliverFirstNext(s: State, pos: Position, done: set<MessageId>, t: State, m: Sent, drawn: Secret)
    requires Ready(s, pos) && Settled(s, pos.dh, pos.start, done, t) && Before(pos, done)
    requires Readable(s, pos, m) && OnNext(pos, m) && Fits(s, m.header)
    ensures var d := DecryptStep(t, m.header, m.encrypted, drawn);
            && d.outcome == Ok(m.plaintext)
            && Settled(Ratcheted(s, pos.next, pos.previous, drawn), pos.next, NextStart(s, pos.next),
                       done + {Id(m.header)}, d.state)
  {
    hide DecryptStep, Settled, Fits, SkipCurrent, HasRoom, Missing, Coherent;
    FitsMeansRoom(s, pos, m);
    RatchetSettles(s, pos, done, t, drawn);
    RatchetSkips(s, pos, done, t);
    SkipCurrentNames(t, pos.previous, pos.next);
    assert Id(m.header) == MessageId(pos.next, m.header.messageNumber);
    RatchetThenDecrypt(t, m.header, m.encrypted, drawn);
    DeliverAfterRatchet(s, pos, done, Ratcheted(t, pos.next, pos.previous, drawn), m, drawn);
  }

  lemma DeliverOnCurrent(s: State, pos: Position, done: set<MessageId>, t: State, m: Sent, drawn: Secret)
    requires Ready(s, pos) && Settled(s, pos.dh, pos.start, done, t)
    requires Readable(s, pos, m) && !OnNext(pos, m) && Fits(s, m.header) && Id(m.header) !in done
    ensures var d := DecryptStep(t, m.header, m.encrypted, drawn);
            d.outcome == Ok(m.plaintext) && Settled(s, pos.dh, pos.start, done + {Id(m.header)}, d.state)
  {
    hide DecryptStep, Settled, Fits, Coherent, Pending;
    FitsMeansRoom(s, pos, m);
    DeliverOne(s, pos.dh, pos.start, done, t, m, drawn);
  }

  lemma DeliverNext(s: State, pos: Position, messages: seq<Sent>, t: State, m: Sent, drawn: Secret)
    requires Ready(s, pos) && Deliverable(s, pos, messages + [m]) && SettledAfter(s, pos, messages, drawn, t)
    ensures var d := DecryptStep(t, m.header, m.encrypted, drawn);
            d.outcome == Ok(m.plaintext) && SettledAfter(s, pos, messages + [m], drawn, d.state)
  {
    hide DecryptStep, Settled, Ready, Readable, Fits, HasRoom;
    var done := IdsOf(messages);
    OneMoreId(messages, m);
    assert m in messages + [m];
    assert forall x :: x in messages ==> x in messages + [m];
    FitsMeansRoom(s, pos, m);
    if AnyNext(pos, messages) {
      var first :| first in messages && OnNext(pos, first);
      FitsMeansRoom(s, pos, first);
      DeliverAfterRatchet(s, pos, done, t, m, drawn);
    } else if OnNext(pos, m) {
      NoneNextBefore(s, pos, messages);
      DeliverFirstNext(s, pos, done, t, m, drawn);
    } else {
      DeliverOnCurrent(s, pos, done, t, m, drawn);
    }
  }

  lemma OneMoreRead(s: State, messages: seq<Sent>, drawn: Secret)
    requires messages != [] && AllRead(s, messages[..|messages| - 1], drawn)
    requires OutcomeAt(s, messages, |messages| - 1, drawn) == Ok(messages[|messages| - 1].plaintext)
    ensures AllRead(s, messages, drawn)
  {
    hide DecryptStep, AfterAll;
    var shorter := messages[..|messages| - 1];
    forall i | 0 <= i < |shorter|
      ensures OutcomeAt(s, messages, i, drawn) == Ok(messages[i].plaintext)
    {
      assert OutcomeAt(s, shorter, i, drawn) == Ok(shorter[i].plaintext);
      assert shorter[..i] == messages[..i];
    }
  }

  /** Every message is read, and the session ends settled, which depends on what was delivered and not on the order. */
  lemma {:induction false} DeliverAll(s: State, pos: Position, messages: seq<Sent>, drawn: Secret)
    requires Ready(s, pos) && Deliverable(s, pos, messages)
    ensures SettledAfter(s, pos, messages, drawn, AfterAll(s, messages, drawn))
    ensures AllRead(s, messages, drawn)
    decreases |messages|
  {
    if messages == [] {
      assert IdsOf(messages) == {};
    } else {
      hide Ready, Readable, Fits, DecryptStep, SettledAfter, DistinctIds, AllRead;
      var shorter, m := messages[..|messages| - 1], messages[|messages| - 1];
      assert messages == shorter + [m];
      OneMoreId(shorter, m);
      DeliverAll(s, pos, shorter, drawn);
      DeliverNext(s, pos, shorter, AfterAll(s, shorter, drawn), m, drawn);
      OneMoreRead(s, messages, drawn);
    }
  }

  // ---------- The same messages in another order ----------

  lemma SameMembers(a: seq<Sent>, b: seq<Sent>)
    requires multiset(a) == multiset(b)
    ensures forall m :: m in a <==> m in b
  {
    assert forall m :: m in a <==> m in multiset(a);
    assert forall m :: m in b <==> m in multiset(b);
  }

  lemma CountAtLeastTwo(b: seq<Sent>, i: nat, j: nat)
    requires i < j < |b| && b[i] == b[j]
    ensures multiset(b)[b[i]] >= 2
  {
    assert b == b[..j] + b[j..];
    assert b[..j][i] == b[i] && b[j..][0] == b[i];
    assert b[i] in multiset(b[..j]) && b[i] in multiset(b[j..]);
  }

  lemma {:induction false} OnceEach(a: seq<Sent>, m: Sent)
    requires DistinctIds(a)
    ensures multiset(a)[m] <= 1
    decreases |a|
  {
    if a != [] {
      var last := |a| - 1;
      OnceEach(a[..last], m);
      assert a == a[..last] + [a[last]];
      if a[last] == m {
        assert m !in a[..last];
        assert m !in multiset(a[..last]);
      }
    }
  }

  lemma StillDistinct(a: seq<Sent>, b: seq<Sent>)
    requires multiset(a) == multiset(b) && DistinctIds(a)
    ensures DistinctIds(b)
  {
    forall i, j | 0 <= i < j < |b|
      ensures Id(b[i].header) != Id(b[j].header)
    {
      SameMembers(a, b);
      var p, q := b[i], b[j];
      assert p in a && q in a;
      if p == q {
        CountAtLeastTwo(b, i, j);
        OnceEach(a, p);
      }
    }
  }

  /**
   Delivering the same readable messages in two orders gives each its plaintext both times, and ends in one and the same
   session: same keys, same chains, same stored keys. If a ratchet is due on the way, it happens at different times but
   with the same key pair drawn.
   */
  lemma OrderDoesNotMatter(s: State, pos: Position, messages: seq<Sent>, shuffled: seq<Sent>, drawn: Secret)
    requires Ready(s, pos) && Deliverable(s, pos, messages)
    requires multiset(messages) == multiset(shuffled)
    ensures AfterAll(s, messages, drawn) == AfterAll(s, shuffled, drawn)
    ensures AllRead(s, messages, drawn) && AllRead(s, shuffled, drawn)
  {
    hide Settled, Ready, Readable, Fits, DistinctIds, AfterAll, AllRead;
    SameMembers(messages, shuffled);
    StillDistinct(messages, shuffled);
    DeliverAll(s, pos, messages, drawn);
    DeliverAll(s, pos, shuffled, drawn);
    var t, u := AfterAll(s, messages, drawn), AfterAll(s, shuffled, drawn);
    assert IdsOf(messages) == IdsOf(shuffled);
    if AnyNext(pos, messages) {
      SettledUnique(
        Ratcheted(s, pos.next, pos.previous, drawn), pos.next, NextStart(s, pos.next), IdsOf(messages), t, u);
    } else {
      SettledUnique(s, pos.dh, pos.start, IdsOf(messages), t, u);
    }
  }

  // ---------- In lockstep, everything undelivered is readable ----------

  /**
   Where a receiver at epoch k stands. If the peer has not moved on, any key that is not on the schedule does for its
   next one: no message is on it.
   */
  function PositionAt(
    secret: Bytes, keys: seq<PublicKey>, k: nat, peerSent: seq<Sent>, unused: PublicKey): Position
    requires k < |keys|
  {
    Position(
      if k == 0 then keys[0] else keys[k - 1],
      if k < 2 then secret else StartOf(secret, keys, k - 1),
      if |keys| == k + 2 then keys[k + 1] else unused,
      if k == 0 then 0 else CountOn(peerSent, keys[k - 1]))
  }

  lemma StoredKeyPlace(
    secret: Bytes, keys: seq<PublicKey>, k: nat, s: State, delivered: set<MessageId>, peerSent: seq<Sent>,
    id: MessageId)
    requires k < |keys| && Receives(secret, keys, k, s, delivered, peerSent) && id in s.skippedKeys
    ensures k >= 2 && id.dhPublicKey in keys && (|keys| == k + 2 ==> id.dhPublicKey != keys[k + 1])
    ensures id.dhPublicKey == keys[k - 1] ==>
              && id.number < IndexOf(s.receivingChain)
              && s.skippedKeys[id] == MessageKeyAt(StartOf(secret, keys, k - 1), id.number)
  {
    assert IsKeyFor(secret, keys, k, id, s.skippedKeys[id]);
    assert Incoming(k, k - 1);
  }

  lemma ReceiverReady(
    secret: Bytes, keys: seq<PublicKey>, k: nat, s: State, delivered: set<MessageId>, peerSent: seq<Sent>,
    unused: PublicKey)
    requires k < |keys| && Receives(secret, keys, k, s, delivered, peerSent) && unused !in keys
    ensures Ready(s, PositionAt(secret, keys, k, peerSent, unused))
  {
    forall id | id in s.skippedKeys
      ensures id.dhPublicKey in keys && (|keys| == k + 2 ==> id.dhPublicKey != keys[k + 1])
      ensures k >= 2
      ensures id.dhPublicKey == keys[k - 1] ==>
                && id.number < IndexOf(s.receivingChain)
                && s.skippedKeys[id] == MessageKeyAt(StartOf(secret, keys, k - 1), id.number)
    {
      StoredKeyPlace(secret, keys, k, s, delivered, peerSent, id);
    }
  }

  lemma HonestReadable(
    secret: Bytes, keys: seq<PublicKey>, k: nat, s: State, delivered: set<MessageId>, peerSent: seq<Sent>,
    unused: PublicKey, j: nat, m: Sent)
    requires k < |keys| && Receives(secret, keys, k, s, delivered, peerSent) && unused !in keys
    requires Incoming(k, j) || (j == k + 1 && |keys| == k + 2)
    requires Honest(secret, keys, j, peerSent, m.header, m.encrypted, m.plaintext) && Id(m.header) !in delivered
    ensures Readable(s, PositionAt(secret, keys, k, peerSent, unused), m)
  {
    if Incoming(k, j) {
      LateKeyStored(secret, keys, k, s, delivered, peerSent, j, Id(m.header));
      assert m.header.dhPublicKey == keys[j];
    }
  }

  ghost predicate Awaits(sys: System, who: Party, m: Sent) {
    exists n: nat :: Undelivered(sys, who, n) && At(sys, Other(who)).sent[n] == m
  }

  /** Different messages of the peer, none of them accepted so far, each within the limit as it is now. */
  ghost predicate AwaitDelivery(sys: System, who: Party, messages: seq<Sent>) {
    && NoRepeats(messages)
    && forall m :: m in messages ==> Awaits(sys, who, m) && Fits(At(sys, who).state, m.header)
  }

  /** Any choice of undelivered messages that each fit now will do. */
  lemma UndeliveredAwait(sys: System, who: Party, numbers: seq<nat>, messages: seq<Sent>)
    requires HistoryRight(At(sys, Other(who))) && NoRepeats(numbers) && |messages| == |numbers|
    requires forall i :: 0 <= i < |numbers| ==>
               && Undelivered(sys, who, numbers[i]) && messages[i] == At(sys, Other(who)).sent[numbers[i]]
               && Fits(At(sys, who).state, messages[i].header)
    ensures AwaitDelivery(sys, who, messages)
  {
    forall i, j | 0 <= i < j < |numbers|
      ensures messages[i] != messages[j]
    {
      var (a, b) := (numbers[i], numbers[j]);
      HeadersDiffer(At(sys, Other(who)), if a < b then a else b, if a < b then b else a);
    }
    forall m | m in messages
      ensures Awaits(sys, who, m) && Fits(At(sys, who).state, m.header)
    {
      var i :| 0 <= i < |messages| && messages[i] == m;
      assert Undelivered(sys, who, numbers[i]);
    }
  }

  lemma AwaitingDistinct(sys: System, who: Party, messages: seq<Sent>)
    requires AwaitDelivery(sys, who, messages) && HistoryRight(At(sys, Other(who)))
    ensures DistinctIds(messages)
  {
    var sent := At(sys, Other(who)).sent;
    forall i, j | 0 <= i < j < |messages|
      ensures Id(messages[i].header) != Id(messages[j].header)
    {
      assert Awaits(sys, who, messages[i]) && Awaits(sys, who, messages[j]);
      var a: nat :| Undelivered(sys, who, a) && sent[a] == messages[i];
      var b: nat :| Undelivered(sys, who, b) && sent[b] == messages[j];
      HeadersDiffer(At(sys, Other(who)), if a < b then a else b, if a < b then b else a);
    }
  }

  lemma AwaitingReadable(
    secret: Bytes, keys: seq<PublicKey>, k: nat, p: Peer, m: nat, q: Peer, unused: PublicKey, n: nat)
    requires Linked(secret, keys, k, p, m, q) && unused !in keys
    requires n < |q.sent| && Id(q.sent[n].header) !in Delivered(p.accepted)
    ensures Readable(p.state, PositionAt(secret, keys, k, q.sent, unused), q.sent[n])
  {
    hide SendsRight, Receives, Readable;
    SentIsHonest(secret, keys, m, q, n);
    var j := ChainOf(m, q, q.sent[n].turn);
    IncomingOrNew(k, m, j);
    HonestReadable(secret, keys, k, p.state, Delivered(p.accepted), q.sent, unused, j, q.sent[n]);
  }

  lemma AwaitingDeliverable(
    secret: Bytes, sys: System, who: Party, messages: seq<Sent>, unused: PublicKey) returns (pos: Position)
    requires InLockstep(secret, sys) && AwaitDelivery(sys, who, messages) && unused !in sys.keys
    ensures Ready(At(sys, who).state, pos) && Deliverable(At(sys, who).state, pos, messages)
  {
    hide InLockstep, Receives, Linked, Ready, Readable, HistoryRight, Fits;
    var p, q, k := At(sys, who), At(sys, Other(who)), EpochOf(sys, who);
    LockstepReceives(secret, sys, who);
    PartyLinked(secret, sys, who);
    pos := PositionAt(secret, sys.keys, k, q.sent, unused);
    ReceiverReady(secret, sys.keys, k, p.state, Delivered(p.accepted), q.sent, unused);
    LockstepHistory(secret, sys, Other(who));
    AwaitingDistinct(sys, who, messages);
    forall m | m in messages
      ensures Readable(p.state, pos, m)
    {
      assert Awaits(sys, who, m);
      var n: nat :| Undelivered(sys, who, n) && q.sent[n] == m;
      AwaitingReadable(secret, sys.keys, k, p, EpochOf(sys, Other(who)), q, unused, n);
    }
  }

  /**
   Order independence, after every honest run of two sessions just set up: any messages of the peer that wait to be
   delivered, of old chains, the current one or the next, can be delivered in any order. Each order yields every
   plaintext, and all end in the same session.
   */
  lemma AnyOrder(
    secret: Bytes, spk: SignedPreKey, first: Secret, actions: seq<Action>, who: Party,
    messages: seq<Sent>, shuffled: seq<Sent>, drawn: Secret)
    requires spk.secret.public == spk.public && first.public != spk.public
    requires HonestRun(Start(secret, spk, first), actions)
    requires var now := Run(Start(secret, spk, first), actions);
             AwaitDelivery(now, who, messages) && drawn.public !in now.keys
    requires multiset(messages) == multiset(shuffled)
    ensures var s := At(Run(Start(secret, spk, first), actions), who).state;
            && AfterAll(s, messages, drawn) == AfterAll(s, shuffled, drawn)
            && AllRead(s, messages, drawn) && AllRead(s, shuffled, drawn)
  {
    hide InLockstep, AwaitDelivery, AfterAll, AllRead, Ready, Deliverable, HonestRun;
    StartInLockstep(secret, spk, first);
    RunsInLockstep(secret, Start(secret, spk, first), actions);
    var now := Run(Start(secret, spk, first), actions);
    var pos := AwaitingDeliverable(secret, now, who, messages, drawn.public);
    OrderDoesNotMatter(At(now, who).state, pos, messages, shuffled, drawn);
  }
}
