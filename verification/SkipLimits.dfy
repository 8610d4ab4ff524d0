/**
 What the skip limit does guarantee. It is tested after each insertion and counts the whole map, so the map may hold
 one key more than MAX_SKIP; these lemmas say exactly when the limit is hit, how large the map can get, and how much
 work one header can cause, for every state and every header.
 */
module SkipLimits {
  import opened Wrappers
  import opened SymbolicCrypto
  import opened MessageHeader
  import opened SessionSpec

  function Max(a: int, b: int): int {
    if a < b then b else a
  }

  /** The identifiers of one ratchet key with numbers in a range. */
  predicate InRange(id: MessageId, dh: PublicKey, lo: nat, hi: nat) {
    id.dhPublicKey == dh && lo <= id.number < hi
  }

  function Ids(dh: PublicKey, lo: nat, hi: nat): (ids: set<MessageId>)
    ensures forall id :: id in ids <==> InRange(id, dh, lo, hi)
  {
    set i: nat | lo <= i < hi :: MessageId(dh, i)
  }

  lemma {:induction false} IdsSize(dh: PublicKey, lo: nat, hi: nat)
    requires lo <= hi
    ensures |Ids(dh, lo, hi)| == hi - lo
    decreases hi - lo
  {
    if lo == hi {
      assert Ids(dh, lo, hi) == {};
    } else {
      IdsSize(dh, lo + 1, hi);
      assert Ids(dh, lo, hi) == {MessageId(dh, lo)} + Ids(dh, lo + 1, hi);
    }
  }

  lemma SubsetSize<T>(a: set<T>, b: set<T>)
    requires a <= b
    ensures |a| <= |b|
  {
    assert b == a + (b - a);
  }

  lemma PartsSize<T>(a: set<T>, b: set<T>, whole: set<T>)
    requires a <= whole && b <= whole && a !! b
    ensures |a| + |b| <= |whole|
  {
    SubsetSize(b, whole - a);
    assert whole == a + (whole - a);
  }

  lemma CoverSize<T>(total: set<T>, a: set<T>, b: set<T>)
    requires forall x :: x in total ==> x in a || x in b
    ensures |total| <= |a| + |b|
  {
    SubsetSize(total * a, a);
    SubsetSize(total - a, b);
    assert total == total * a + (total - a);
  }

  // ---------- One skip loop ----------

  /** The loop stores exactly the numbers it passes, and stops only at its goal or over the limit. */
  lemma {:induction false} SkipToStores(chain: ChainState, until: nat, dh: PublicKey, skipped: SkippedKeys)
    ensures var r := SkipTo(chain, until, dh, skipped);
            && chain.index <= r.chain.index <= Max(chain.index, until)
            && (r.ok ==> r.chain.index == Max(chain.index, until))
            && (!r.ok ==> chain.index < r.chain.index)
            && (forall id :: id in r.skipped <==> id in skipped || InRange(id, dh, chain.index, r.chain.index))
            && (forall id :: id in skipped && !InRange(id, dh, chain.index, r.chain.index) ==>
                  r.skipped[id] == skipped[id])
    decreases until - chain.index
  {
    if chain.index < until {
      var (next, messageKey) := Advance(chain);
      var skipped' := skipped[MessageId(dh, chain.index) := messageKey];
      if |skipped'| <= MAX_SKIP {
        SkipToStores(next, until, dh, skipped');
      }
    }
  }

  /** The loop fails exactly when it has something to store and the map would end up over the limit. */
  lemma {:induction false} SkipToFailsIff(
    chain: ChainState, until: nat, dh: PublicKey, skipped: SkippedKeys, total: set<MessageId>)
    requires forall id :: id in total <==> id in skipped || InRange(id, dh, chain.index, until)
    ensures !SkipTo(chain, until, dh, skipped).ok <==> chain.index < until && |total| > MAX_SKIP
    decreases until - chain.index
  {
    if chain.index < until {
      var (next, messageKey) := Advance(chain);
      var skipped' := skipped[MessageId(dh, chain.index) := messageKey];
      SubsetSize(skipped'.Keys, total);
      if |skipped'| <= MAX_SKIP {
        SkipToFailsIff(next, until, dh, skipped', total);
        if next.index == until {
          assert total == skipped'.Keys;
        }
      }
    }
  }

  lemma {:induction false} SkipToSize(chain: ChainState, until: nat, dh: PublicKey, skipped: SkippedKeys)
    ensures var r := SkipTo(chain, until, dh, skipped);
            && (r.ok ==> |r.skipped| <= Max(|skipped|, MAX_SKIP))
            && (r.ok && chain.index < until ==> |r.skipped| <= MAX_SKIP)
            && (!r.ok ==> MAX_SKIP < |r.skipped| <= Max(|skipped|, MAX_SKIP) + 1)
            && (!r.ok && |skipped| > MAX_SKIP ==> r.chain.index == chain.index + 1)
    decreases until - chain.index
  {
    if chain.index < until {
      var (next, messageKey) := Advance(chain);
      var skipped' := skipped[MessageId(dh, chain.index) := messageKey];
      SubsetSize(skipped.Keys, skipped'.Keys);
      if |skipped'| <= MAX_SKIP {
        SkipToSize(next, until, dh, skipped');
      }
    }
  }

  /** Every pass leaves a key of its own in the map: `marks` are the entries stored earlier in the same call. */
  lemma SkipToWork(chain: ChainState, until: nat, dh: PublicKey, skipped: SkippedKeys, marks: set<MessageId>)
    requires marks <= skipped.Keys
    requires forall id :: id in marks ==> id.dhPublicKey != dh
    requires |skipped| > MAX_SKIP ==> marks == {}
    ensures var r := SkipTo(chain, until, dh, skipped);
            var passes := r.chain.index - chain.index;
            && (passes == 0 || |marks| + passes <= MAX_SKIP + 1)
            && (r.ok ==> passes == 0 || |marks| + passes <= MAX_SKIP)
            && Ids(dh, chain.index, r.chain.index) <= r.skipped.Keys
  {
    var r := SkipTo(chain, until, dh, skipped);
    SkipToStores(chain, until, dh, skipped);
    SkipToSize(chain, until, dh, skipped);
    IdsSize(dh, chain.index, r.chain.index);
    PartsSize(marks, Ids(dh, chain.index, r.chain.index), r.skipped.Keys);
  }

  // ---------- One decryption ----------

  /** What a header makes a session store from the chain it currently receives on. */
  function WantedFromCurrent(s: State, until: nat): set<MessageId> {
    if s.receivingChain.Some? && s.remoteDhPublic.Some?
    then Ids(s.remoteDhPublic.value, s.receivingChain.value.index, until)
    else {}
  }

  /** Everything a header makes a session store, read off the header and the state before the call. */
  function Wanted(s: State, h: Header): set<MessageId> {
    if NeedsRatchet(s, h)
    then WantedFromCurrent(s, h.previousChainLength) + Ids(h.dhPublicKey, 0, h.messageNumber)
    else WantedFromCurrent(s, h.messageNumber)
  }

  /** With a ratchet, the skip-limit error comes from the loop before it or from the loop after it. */
  lemma LoopsOnRatchet(s: State, h: Header, encrypted: Encrypted, drawn: Secret)
    requires Id(h) !in s.skippedKeys && NeedsRatchet(s, h)
    ensures var (s1, ok) := SkipCurrent(s, h.previousChainLength);
            var chain := Ratchet(s1, h.dhPublicKey, drawn).receivingChain.value;
            && chain.index == 0 && Ratchet(s1, h.dhPublicKey, drawn).skippedKeys == s1.skippedKeys
            && (DecryptStep(s, h, encrypted, drawn).outcome == Err(SkipLimit)
                <==> !ok || !SkipTo(chain, h.messageNumber, h.dhPublicKey, s1.skippedKeys).ok)
  {
    SkipCurrentGrows(s, h.previousChainLength);
  }

  lemma SkipCurrentFailsIff(s: State, until: nat, total: set<MessageId>)
    requires forall id :: id in total <==> id in s.skippedKeys || id in WantedFromCurrent(s, until)
    ensures !SkipCurrent(s, until).1 <==> WantedFromCurrent(s, until) != {} && |total| > MAX_SKIP
    ensures SkipCurrent(s, until).1 ==> SkipCurrent(s, until).0.skippedKeys.Keys == total
  {
    if s.receivingChain.Some? && s.remoteDhPublic.Some? {
      var chain, remote := s.receivingChain.value, s.remoteDhPublic.value;
      SkipToFailsIff(chain, until, remote, s.skippedKeys, total);
      SkipToStores(chain, until, remote, s.skippedKeys);
      assert chain.index < until ==> MessageId(remote, chain.index) in WantedFromCurrent(s, until);
    }
  }

  lemma LimitErrorOnRatchet(
    s: State, h: Header, encrypted: Encrypted, drawn: Secret, first: set<MessageId>, total: set<MessageId>)
    requires Id(h) !in s.skippedKeys && NeedsRatchet(s, h)
    requires forall id :: id in first <==> id in s.skippedKeys || id in WantedFromCurrent(s, h.previousChainLength)
    requires forall id :: id in total <==> id in first || InRange(id, h.dhPublicKey, 0, h.messageNumber)
    ensures DecryptStep(s, h, encrypted, drawn).outcome == Err(SkipLimit)
       <==> (WantedFromCurrent(s, h.previousChainLength) != {} || h.messageNumber > 0) && |total| > MAX_SKIP
  {
    LoopsOnRatchet(s, h, encrypted, drawn);
    hide DecryptStep, SkipCurrent, SkipTo, WantedFromCurrent;
    var (s1, ok) := SkipCurrent(s, h.previousChainLength);
    SkipCurrentFailsIff(s, h.previousChainLength, first);
    SubsetSize(first, total);
    if ok {
      var newChain := Ratchet(s1, h.dhPublicKey, drawn).receivingChain.value;
      SkipToFailsIff(newChain, h.messageNumber, h.dhPublicKey, s1.skippedKeys, total);
      assert h.messageNumber == 0 ==> total == first;
    }
  }

  /** The same with the sets of keys named. */
  lemma LimitErrorWith(
    s: State, h: Header, encrypted: Encrypted, drawn: Secret, first: set<MessageId>, total: set<MessageId>)
    requires forall id :: id in first <==> id in s.skippedKeys || id in WantedFromCurrent(s, h.previousChainLength)
    requires forall id :: id in total <==> id in s.skippedKeys || id in Wanted(s, h)
    ensures DecryptStep(s, h, encrypted, drawn).outcome == Err(SkipLimit)
       <==> Id(h) !in s.skippedKeys && Wanted(s, h) != {} && |total| > MAX_SKIP
  {
    if Id(h) !in s.skippedKeys {
      if NeedsRatchet(s, h) {
        LimitErrorOnRatchet(s, h, encrypted, drawn, first, total);
        assert h.messageNumber > 0 ==> MessageId(h.dhPublicKey, 0) in Wanted(s, h);
        assert h.messageNumber == 0 ==> Wanted(s, h) == WantedFromCurrent(s, h.previousChainLength);
      } else if s.receivingChain.Some? {
        var chain := s.receivingChain.value;
        SkipToFailsIff(chain, h.messageNumber, h.dhPublicKey, s.skippedKeys, total);
        assert chain.index < h.messageNumber ==> MessageId(h.dhPublicKey, chain.index) in Wanted(s, h);
      }
    }
  }

  /** A decryption ends in the skip-limit error exactly when the keys it must store do not fit. */
  lemma LimitErrorIff(s: State, h: Header, encrypted: Encrypted, drawn: Secret)
    ensures DecryptStep(s, h, encrypted, drawn).outcome == Err(SkipLimit)
       <==> Id(h) !in s.skippedKeys && Wanted(s, h) != {} && |s.skippedKeys.Keys + Wanted(s, h)| > MAX_SKIP
  {
    hide DecryptStep, Wanted, WantedFromCurrent;
    var first := s.skippedKeys.Keys + WantedFromCurrent(s, h.previousChainLength);
    LimitErrorWith(s, h, encrypted, drawn, first, s.skippedKeys.Keys + Wanted(s, h));
  }

  lemma StorageAfterFinish(s: State, h: Header, encrypted: Encrypted, ratcheted: bool, before: nat)
    ensures var d := Finish(s, h, encrypted, ratcheted, before);
            var (size, after) := (|s.skippedKeys|, |d.state.skippedKeys|);
            if d.outcome == Err(SkipLimit)
            then MAX_SKIP < after <= Max(size, MAX_SKIP) + 1
            else after <= Max(size, MAX_SKIP)
  {
    if s.receivingChain.Some? {
      SkipToSize(s.receivingChain.value, h.messageNumber, h.dhPublicKey, s.skippedKeys);
    }
  }

  /** How many keys a session holds after a call, by the way the call ended. */
  lemma StorageAfterDecrypt(s: State, h: Header, encrypted: Encrypted, drawn: Secret)
    ensures var d := DecryptStep(s, h, encrypted, drawn);
            var (before, after) := (|s.skippedKeys|, |d.state.skippedKeys|);
            if d.outcome == Err(SkipLimit)
            then MAX_SKIP < after <= Max(before, MAX_SKIP) + 1
            else after <= Max(before, MAX_SKIP)
  {
    if Id(h) in s.skippedKeys {
      SubsetSize((s.skippedKeys - {Id(h)}).Keys, s.skippedKeys.Keys);
    } else if NeedsRatchet(s, h) {
      var s1 := SkipCurrent(s, h.previousChainLength).0;
      SkipCurrentGrows(s, h.previousChainLength);
      if s.receivingChain.Some? && s.remoteDhPublic.Some? {
        SkipToSize(s.receivingChain.value, h.previousChainLength, s.remoteDhPublic.value, s.skippedKeys);
      }
      StorageAfterFinish(Ratchet(s1, h.dhPublicKey, drawn), h, encrypted, true,
                         IndexOf(s1.receivingChain) - IndexOf(s.receivingChain));
    } else {
      StorageAfterFinish(s, h, encrypted, false, 0);
    }
  }

  /** A call that does not use a stored key keeps all of them. */
  lemma StoredStay(s: State, h: Header, encrypted: Encrypted, drawn: Secret)
    requires Id(h) !in s.skippedKeys
    ensures s.skippedKeys.Keys <= DecryptStep(s, h, encrypted, drawn).state.skippedKeys.Keys
  {
    if NeedsRatchet(s, h) {
      var (s1, ok) := SkipCurrent(s, h.previousChainLength);
      SkipCurrentGrows(s, h.previousChainLength);
      if s.receivingChain.Some? && s.remoteDhPublic.Some? {
        SkipToStores(s.receivingChain.value, h.previousChainLength, s.remoteDhPublic.value, s.skippedKeys);
      }
      if ok {
        var s2 := Ratchet(s1, h.dhPublicKey, drawn);
        SkipToStores(s2.receivingChain.value, h.messageNumber, h.dhPublicKey, s2.skippedKeys);
      }
    } else if s.receivingChain.Some? {
      SkipToStores(s.receivingChain.value, h.messageNumber, h.dhPublicKey, s.skippedKeys);
    }
  }

  lemma EndsWithinLimitWith(s: State, h: Header, encrypted: Encrypted, drawn: Secret, total: set<MessageId>)
    requires Id(h) !in s.skippedKeys && total == s.skippedKeys.Keys + Wanted(s, h)
    ensures |DecryptStep(s, h, encrypted, drawn).state.skippedKeys| <= MAX_SKIP <==> |total| <= MAX_SKIP
  {
    hide DecryptStep, Wanted;
    LimitErrorIff(s, h, encrypted, drawn);
    StorageAfterDecrypt(s, h, encrypted, drawn);
    StoredStay(s, h, encrypted, drawn);
    SubsetSize(s.skippedKeys.Keys, DecryptStep(s, h, encrypted, drawn).state.skippedKeys.Keys);
    SubsetSize(s.skippedKeys.Keys, total);
    if Wanted(s, h) == {} {
      assert total == s.skippedKeys.Keys;
    }
  }

  /**
   MAX_SKIP is meant as the most keys a session stores. From any state, one already over that limit too, a call ends
   within it exactly when it uses a stored key of at most one too many, or the keys it must store fit beside the others.
   */
  lemma EndsWithinLimitIff(s: State, h: Header, encrypted: Encrypted, drawn: Secret)
    ensures |DecryptStep(s, h, encrypted, drawn).state.skippedKeys| <= MAX_SKIP
       <==> if Id(h) in s.skippedKeys then |s.skippedKeys| <= MAX_SKIP + 1
            else |s.skippedKeys.Keys + Wanted(s, h)| <= MAX_SKIP
  {
    if Id(h) in s.skippedKeys {
      assert s.skippedKeys.Keys == (s.skippedKeys - {Id(h)}).Keys + {Id(h)};
    } else {
      EndsWithinLimitWith(s, h, encrypted, drawn, s.skippedKeys.Keys + Wanted(s, h));
    }
  }

  /** The first header a responder sees can already take him over the limit. */
  lemma LimitExceededAtOnce(secret: Bytes, spk: SignedPreKey, dh: PublicKey, encrypted: Encrypted, drawn: Secret)
    ensures var d := DecryptStep(InitBob(secret, spk), Header(dh, 101, 0), encrypted, drawn);
            d.outcome == Err(SkipLimit) && |d.state.skippedKeys| == 101
  {
    hide DecryptStep;
    var s, h := InitBob(secret, spk), Header(dh, 101, 0);
    IdsSize(dh, 0, 101);
    assert Wanted(s, h) == Ids(dh, 0, 101) == s.skippedKeys.Keys + Wanted(s, h);
    LimitErrorIff(s, h, encrypted, drawn);
    StorageAfterDecrypt(s, h, encrypted, drawn);
  }

  /** Of the numbers a header can bring to a new responder, exactly those above 100 meet the limit. */
  lemma FirstHeaderLimitIff(
    secret: Bytes, spk: SignedPreKey, dh: PublicKey, n: nat, encrypted: Encrypted, drawn: Secret)
    ensures DecryptStep(InitBob(secret, spk), Header(dh, n, 0), encrypted, drawn).outcome == Err(SkipLimit) <==> n > 100
  {
    hide DecryptStep;
    var s, h := InitBob(secret, spk), Header(dh, n, 0);
    IdsSize(dh, 0, n);
    assert Wanted(s, h) == Ids(dh, 0, n) == s.skippedKeys.Keys + Wanted(s, h);
    LimitErrorIff(s, h, encrypted, drawn);
  }

  /** Whatever its header and state, one decryption advances chains at most MAX_SKIP + 1 times. */
  lemma WorkBound(s: State, h: Header, encrypted: Encrypted, drawn: Secret)
    ensures DecryptStep(s, h, encrypted, drawn).advances <= MAX_SKIP + 1
  {
    if Id(h) !in s.skippedKeys {
      if NeedsRatchet(s, h) {
        var (s1, ok) := SkipCurrent(s, h.previousChainLength);
        var marks: set<MessageId> := {};
        if s.receivingChain.Some? && s.remoteDhPublic.Some? {
          var chain, remote := s.receivingChain.value, s.remoteDhPublic.value;
          SkipToWork(chain, h.previousChainLength, remote, s.skippedKeys, {});
          SkipToSize(chain, h.previousChainLength, remote, s.skippedKeys);
          SkipToStores(chain, h.previousChainLength, remote, s.skippedKeys);
          IdsSize(remote, chain.index, s1.receivingChain.value.index);
          marks := Ids(remote, chain.index, s1.receivingChain.value.index);
        }
        if ok {
          var s2 := Ratchet(s1, h.dhPublicKey, drawn);
          SkipToWork(s2.receivingChain.value, h.messageNumber, h.dhPublicKey, s2.skippedKeys, marks);
        }
      } else if s.receivingChain.Some? {
        SkipToWork(s.receivingChain.value, h.messageNumber, h.dhPublicKey, s.skippedKeys, {});
      }
    }
  }

  // ---------- When nothing is stored twice ----------

  /** How many keys of its current chain a session has yet to store. */
  function Missing(s: State, until: nat): nat {
    if s.receivingChain.Some? then Max(until - s.receivingChain.value.index, 0) else 0
  }

  /** How many keys a session must skip before it can try a message. */
  function Needed(s: State, h: Header): nat {
    if Id(h) in s.skippedKeys then 0
    else if NeedsRatchet(s, h) then Missing(s, h.previousChainLength) + h.messageNumber
    else Max(h.messageNumber - IndexOf(s.receivingChain), 0)
  }

  predicate HasRoom(stored: nat, wanted: nat) {
    wanted == 0 || stored + wanted <= MAX_SKIP
  }

  /** The keys a message makes the receiver store fit beside those it has. */
  predicate Fits(s: State, h: Header) {
    HasRoom(|s.skippedKeys|, Needed(s, h))
  }

  /** How many keys are stored before a skip loop gives up: all the room there is and one more, but at least one. */
  function Burst(stored: nat): nat {
    Max(1, MAX_SKIP + 1 - stored)
  }

  /** Where no key the loop may store is in the map yet, its end can be told from the numbers alone. */
  lemma {:induction false} SkipToExactly(chain: ChainState, until: nat, dh: PublicKey, skipped: SkippedKeys)
    requires forall id :: id in skipped && id.dhPublicKey == dh ==> id.number < chain.index
    ensures var r := SkipTo(chain, until, dh, skipped);
            && |r.skipped| == |skipped| + (r.chain.index - chain.index)
            && (r.ok <==> HasRoom(|skipped|, Max(until - chain.index, 0)))
            && (r.ok ==> r.chain.index == Max(chain.index, until))
            && (!r.ok ==> r.chain.index == chain.index + Burst(|skipped|) <= until)
    decreases until - chain.index
  {
    if chain.index < until {
      var (next, messageKey) := Advance(chain);
      var id := MessageId(dh, chain.index);
      var skipped' := skipped[id := messageKey];
      assert skipped'.Keys == skipped.Keys + {id};
      if |skipped'| <= MAX_SKIP {
        SkipToExactly(next, until, dh, skipped');
      }
    }
  }

  ghost predicate CurrentKeysNew(s: State) {
    s.receivingChain.Some? ==>
      && s.remoteDhPublic.Some?
      && forall id :: id in s.skippedKeys && id.dhPublicKey == s.remoteDhPublic.value ==>
           id.number < s.receivingChain.value.index
  }

  lemma SkipCurrentExactly(s: State, until: nat)
    requires CurrentKeysNew(s)
    ensures var (s1, ok) := SkipCurrent(s, until);
            var passed := IndexOf(s1.receivingChain) - IndexOf(s.receivingChain);
            && |s1.skippedKeys| == |s.skippedKeys| + passed
            && (ok <==> HasRoom(|s.skippedKeys|, Missing(s, until)))
            && passed == (if ok then Missing(s, until) else Burst(|s.skippedKeys|)) <= Missing(s, until)
            && s1.receivingChain.Some? == s.receivingChain.Some? && s1.remoteDhPublic == s.remoteDhPublic
  {
    if s.receivingChain.Some? {
      SkipToExactly(s.receivingChain.value, until, s.remoteDhPublic.value, s.skippedKeys);
    }
  }

  /** The keys of other chains are not touched. */
  lemma SkipCurrentNames(s: State, until: nat, dh: PublicKey)
    requires s.remoteDhPublic != Some(dh)
    ensures forall i: nat :: MessageId(dh, i) in SkipCurrent(s, until).0.skippedKeys
                        <==> MessageId(dh, i) in s.skippedKeys
  {
    if s.receivingChain.Some? && s.remoteDhPublic.Some? {
      SkipToStores(s.receivingChain.value, until, s.remoteDhPublic.value, s.skippedKeys);
    }
  }

  /** The keys a call may store are new: none of those still ahead is in the map. */
  ghost predicate StoresNewKeys(s: State, h: Header) {
    && CurrentKeysNew(s)
    && (NeedsRatchet(s, h) || s.receivingChain.Some?)
    && (NeedsRatchet(s, h) ==> forall id :: id in s.skippedKeys ==> id.dhPublicKey != h.dhPublicKey)
  }

  /** A skip-limit error stored exactly a burst of keys, and is that much closer to the message. */
  predicate StoppedShort(s: State, s': State, h: Header) {
    && |s'.skippedKeys| == |s.skippedKeys| + Burst(|s.skippedKeys|)
    && Needed(s', h) == Needed(s, h) - Burst(|s.skippedKeys|)
  }

  lemma FinishLimitExactly(s: State, h: Header, encrypted: Encrypted, ratcheted: bool, before: nat)
    requires s.receivingChain.Some? && s.remoteDhPublic == Some(h.dhPublicKey) && Id(h) !in s.skippedKeys
    requires forall id :: id in s.skippedKeys && id.dhPublicKey == h.dhPublicKey ==>
               id.number < IndexOf(s.receivingChain)
    ensures var d := Finish(s, h, encrypted, ratcheted, before);
            && (d.outcome == Err(SkipLimit) <==> !Fits(s, h))
            && (d.outcome == Err(SkipLimit) ==> StoppedShort(s, d.state, h))
  {
    SkipToExactly(s.receivingChain.value, h.messageNumber, h.dhPublicKey, s.skippedKeys);
    SkipToStores(s.receivingChain.value, h.messageNumber, h.dhPublicKey, s.skippedKeys);
  }

  /** With new keys to store, the skip-limit error comes exactly when their number does not fit. */
  lemma NewKeysLimitExactly(s: State, h: Header, encrypted: Encrypted, drawn: Secret)
    requires StoresNewKeys(s, h) && Id(h) !in s.skippedKeys
    ensures var d := DecryptStep(s, h, encrypted, drawn);
            && (d.outcome == Err(SkipLimit) <==> !Fits(s, h))
            && (d.outcome == Err(SkipLimit) ==> StoppedShort(s, d.state, h))
  {
    if NeedsRatchet(s, h) {
      var (s1, ok) := SkipCurrent(s, h.previousChainLength);
      SkipCurrentGrows(s, h.previousChainLength);
      SkipCurrentExactly(s, h.previousChainLength);
      SkipCurrentNames(s, h.previousChainLength, h.dhPublicKey);
      if ok {
        var s2 := Ratchet(s1, h.dhPublicKey, drawn);
        assert Id(h) !in s2.skippedKeys && s2.remoteDhPublic == Some(h.dhPublicKey);
        hide SkipCurrent, Ratchet;
        FinishLimitExactly(s2, h, encrypted, true, IndexOf(s1.receivingChain) - IndexOf(s.receivingChain));
      }
    } else {
      FinishLimitExactly(s, h, encrypted, false, 0);
    }
  }

  lemma FinishAdvances(s: State, h: Header, encrypted: Encrypted, ratcheted: bool, before: nat)
    requires s.receivingChain.Some? && s.remoteDhPublic == Some(h.dhPublicKey)
    requires forall id :: id in s.skippedKeys && id.dhPublicKey == h.dhPublicKey ==>
               id.number < IndexOf(s.receivingChain)
    ensures var d := Finish(s, h, encrypted, ratcheted, before);
            d.advances - before
              == |d.state.skippedKeys| - |s.skippedKeys| + (if d.tried.Some? then 1 else 0)
  {
    SkipToExactly(s.receivingChain.value, h.messageNumber, h.dhPublicKey, s.skippedKeys);
  }

  /** Each advance of a chain yields a key that the call stores, but for the last, which yields the one it tries. */
  lemma AdvancesExactly(s: State, h: Header, encrypted: Encrypted, drawn: Secret)
    requires StoresNewKeys(s, h) && Id(h) !in s.skippedKeys
    ensures var d := DecryptStep(s, h, encrypted, drawn);
            d.advances == |d.state.skippedKeys| - |s.skippedKeys| + (if d.tried.Some? then 1 else 0)
  {
    if NeedsRatchet(s, h) {
      var (s1, ok) := SkipCurrent(s, h.previousChainLength);
      SkipCurrentGrows(s, h.previousChainLength);
      SkipCurrentExactly(s, h.previousChainLength);
      SkipCurrentNames(s, h.previousChainLength, h.dhPublicKey);
      if ok {
        var s2 := Ratchet(s1, h.dhPublicKey, drawn);
        assert forall id :: id in s2.skippedKeys && id.dhPublicKey == h.dhPublicKey ==>
                 id == MessageId(h.dhPublicKey, id.number) && id in s.skippedKeys;
        hide SkipCurrent, Ratchet, Finish, HasRoom;
        FinishAdvances(s2, h, encrypted, true, IndexOf(s1.receivingChain) - IndexOf(s.receivingChain));
      }
    } else {
      FinishAdvances(s, h, encrypted, false, 0);
    }
  }
}
