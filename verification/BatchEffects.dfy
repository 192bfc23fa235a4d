/** What an accepted batch of readings leaves behind: per stream the last reading it stores, and one penalty for every
    stale one. */
module BatchEffects {
  import opened Arithmetic
  import opened Sequences
  import opened Ledger
  import opened OracleRegistry
  import opened OracleState
  import opened OracleRuns
  import opened Eligibility
  import opened OracleAdmission
  import Vaults = OracleVault

  // ----- Streams -----

  predicate StoresIn(s: Store, dt: Symbol, items: Items, oracle: Address, now: nat, key: Symbol, i: nat)
    requires i < |items|
  {
    items[i].0 == key && !TooOld(s, dt, ItemAt(items, oracle, i), now)
  }

  ghost predicate StoresNone(s: Store, dt: Symbol, items: Items, oracle: Address, now: nat, key: Symbol) {
    forall i :: 0 <= i < |items| ==> !StoresIn(s, dt, items, oracle, now, key, i)
  }

  ghost predicate StoresLast(s: Store, dt: Symbol, items: Items, oracle: Address, now: nat, key: Symbol, i: nat) {
    && i < |items| && StoresIn(s, dt, items, oracle, now, key, i)
    && forall j :: i < j < |items| ==> !StoresIn(s, dt, items, oracle, now, key, j)
  }

  /** The stream as before, or with `p` as its newest reading behind the others that stay. */
  ghost predicate StreamAfter(s: Store, t: Store, dt: Symbol, key: Symbol, p: DataPoint, now: nat) {
    && PointsOf(t, dt, key) == Filter(PointsOf(s, dt, key), StaysFn(s, dt, p.oracle, now)) + [p]
    && (dt, key, p.oracle) in t.lastReading && t.lastReading[(dt, key, p.oracle)] == p.timestamp
  }

  ghost predicate StreamSame(s: Store, t: Store, dt: Symbol, key: Symbol, oracle: Address) {
    && PointsOf(t, dt, key) == PointsOf(s, dt, key)
    && ((dt, key, oracle) in t.lastReading <==> (dt, key, oracle) in s.lastReading)
    && ((dt, key, oracle) in s.lastReading ==> t.lastReading[(dt, key, oracle)] == s.lastReading[(dt, key, oracle)])
  }

  lemma SameReputation(s: Store, t: Store, oracle: Address, dt: Symbol)
    requires t.reputation == s.reputation && t.settings == s.settings
    ensures StaleReputation(t, oracle, dt) == t.(reputation := StaleReputation(s, oracle, dt).reputation)
  {
  }

  lemma StaleIs(s: Store, oracle: Address, dt: Symbol)
    ensures var count, slashed := Min(Get(s.staleCount, (dt, oracle), 0) + 1, U32_MAX),
                                  Vaults.StaleSlash(s.vault, (dt, oracle), s.settings.staleSlash, s.settings.treasury);
      HandleStale(s, oracle, dt) ==
      if s.settings.staleThreshold == 0 || count < s.settings.staleThreshold then Some(s.(staleCount := s.staleCount[(dt, oracle) := count]))
      else if slashed.None? then None
      else Some(s.(vault := slashed.value, reputation := StaleReputation(s, oracle, dt).reputation,
                   staleCount := s.staleCount[(dt, oracle) := 0]))
  {
    var slashed := Vaults.StaleSlash(s.vault, (dt, oracle), s.settings.staleSlash, s.settings.treasury);
    if slashed.Some? {
      SameReputation(s, s.(vault := slashed.value), oracle, dt);
    }
  }

  lemma FirstStored(s: Store, t: Store, dt: Symbol, k: Symbol, p: DataPoint, now: nat, key: Symbol)
    requires StoredWith(s, t, dt, k, p, now)
    ensures t.registry == s.registry && t.settings == s.settings
    ensures k == key ==> StreamAfter(s, t, dt, key, p, now)
    ensures k != key ==> StreamSame(s, t, dt, key, p.oracle)
  {
  }

  lemma FirstStale(s: Store, t: Store, dt: Symbol, oracle: Address, key: Symbol)
    requires HandleStale(s, oracle, dt) == Some(t)
    ensures t.registry == s.registry && t.settings == s.settings && StreamSame(s, t, dt, key, oracle)
  {
    StaleIs(s, oracle, dt);
  }

  /** What the first item does to a stream. */
  lemma FirstItem(s: Store, t: Store, dt: Symbol, items: Items, oracle: Address, now: nat, key: Symbol)
    requires Sound(s) && !NotServing(s, dt, oracle) && items != []
    requires AcceptReading(s, dt, items[0].0, ItemAt(items, oracle, 0), now) == Some(t)
    ensures Sound(t) && t.registry == s.registry && t.settings == s.settings
    ensures StoresIn(s, dt, items, oracle, now, key, 0) ==> StreamAfter(s, t, dt, key, ItemAt(items, oracle, 0), now)
    ensures !StoresIn(s, dt, items, oracle, now, key, 0) ==> StreamSame(s, t, dt, key, oracle)
  {
    var p := ItemAt(items, oracle, 0);
    AcceptExact(s, dt, items[0].0, p, now);
    AcceptReadingSound(s, dt, items[0].0, p, now);
    if TooOld(s, dt, p, now) {
      FirstStale(s, t, dt, oracle, key);
    } else {
      StoreExact(s, dt, items[0].0, p, now);
      FirstStored(s, t, dt, items[0].0, p, now, key);
    }
  }

  lemma KeptAgain(points: seq<DataPoint>, p: DataPoint, keep: DataPoint -> bool)
    requires !keep(p)
    ensures Filter(Filter(points, keep) + [p], keep) == Filter(points, keep)
  {
    FilterSnoc(Filter(points, keep), p, keep);
    FilterAll(Filter(points, keep), keep);
  }

  lemma ThenLast(s: Store, t: Store, u: Store, dt: Symbol, key: Symbol, p: DataPoint, q: DataPoint, now: nat)
    requires t.registry == s.registry && t.settings == s.settings && p.oracle == q.oracle
    requires StreamAfter(s, t, dt, key, p, now) && StreamAfter(t, u, dt, key, q, now)
    ensures StreamAfter(s, u, dt, key, q, now)
  {
    var keep := StaysFn(s, dt, p.oracle, now);
    FilterAgree(PointsOf(t, dt, key), StaysFn(t, dt, q.oracle, now), keep);
    KeptAgain(PointsOf(s, dt, key), p, keep);
  }

  lemma SameThenLast(s: Store, t: Store, u: Store, dt: Symbol, key: Symbol, q: DataPoint, now: nat)
    requires t.registry == s.registry && t.settings == s.settings
    requires StreamSame(s, t, dt, key, q.oracle) && StreamAfter(t, u, dt, key, q, now)
    ensures StreamAfter(s, u, dt, key, q, now)
  {
    FilterAgree(PointsOf(s, dt, key), StaysFn(t, dt, q.oracle, now), StaysFn(s, dt, q.oracle, now));
  }

  lemma RestStores(s: Store, t: Store, dt: Symbol, items: Items, oracle: Address, now: nat, key: Symbol, i: nat)
    requires t.settings == s.settings && i + 1 < |items|
    ensures StoresIn(t, dt, items[1..], oracle, now, key, i) <==> StoresIn(s, dt, items, oracle, now, key, i + 1)
  {
    assert items[1..][i] == items[i + 1];
  }

  lemma RestStoresNone(s: Store, t: Store, dt: Symbol, items: Items, oracle: Address, now: nat, key: Symbol, i: nat)
    requires t.settings == s.settings && i < |items| && forall j :: i < j < |items| ==> !StoresIn(s, dt, items, oracle, now, key, j)
    ensures i == 0 ==> StoresNone(t, dt, items[1..], oracle, now, key)
    ensures i > 0 && StoresIn(s, dt, items, oracle, now, key, i) ==> StoresLast(t, dt, items[1..], oracle, now, key, i - 1)
  {
    forall j | 0 <= j < |items| - 1
      ensures StoresIn(t, dt, items[1..], oracle, now, key, j) <==> StoresIn(s, dt, items, oracle, now, key, j + 1)
    {
      RestStores(s, t, dt, items, oracle, now, key, j);
    }
  }

  /** A stream for which the batch stores nothing is as before. */
  lemma {:induction false} UntouchedStream(s: Store, entry: Entry, dt: Symbol, items: Items, oracle: Address, now: nat, key: Symbol)
    requires Sound(s) && !NotServing(s, dt, oracle) && AcceptAll(s, entry, dt, items, oracle, now).Some?
    requires StoresNone(s, dt, items, oracle, now, key)
    ensures StreamSame(s, AcceptAll(s, entry, dt, items, oracle, now).value, dt, key, oracle)
    decreases |items|
  {
    if items != [] {
      var t := AcceptReading(s, dt, items[0].0, ItemAt(items, oracle, 0), now).value;
      FirstItem(s, t, dt, items, oracle, now, key);
      assert !StoresIn(s, dt, items, oracle, now, key, 0);
      RestStoresNone(s, t, dt, items, oracle, now, key, 0);
      UntouchedStream(t, entry, dt, items[1..], oracle, now, key);
    }
  }

  /** Any other ends with the last item that is stored in it, behind the readings of the others that stay. */
  lemma {:induction false} LastItemStays(s: Store, entry: Entry, dt: Symbol, items: Items, oracle: Address, now: nat, key: Symbol, i: nat)
    requires Sound(s) && !NotServing(s, dt, oracle) && AcceptAll(s, entry, dt, items, oracle, now).Some?
    requires StoresLast(s, dt, items, oracle, now, key, i)
    ensures StreamAfter(s, AcceptAll(s, entry, dt, items, oracle, now).value, dt, key, ItemAt(items, oracle, i), now)
    decreases |items|
  {
    var t, u := AcceptReading(s, dt, items[0].0, ItemAt(items, oracle, 0), now).value, AcceptAll(s, entry, dt, items, oracle, now).value;
    FirstItem(s, t, dt, items, oracle, now, key);
    RestStoresNone(s, t, dt, items, oracle, now, key, i);
    if i == 0 {
      UntouchedStream(t, entry, dt, items[1..], oracle, now, key);
    } else {
      LastItemStays(t, entry, dt, items[1..], oracle, now, key, i - 1);
      assert ItemAt(items[1..], oracle, i - 1) == ItemAt(items, oracle, i);
      if StoresIn(s, dt, items, oracle, now, key, 0) {
        ThenLast(s, t, u, dt, key, ItemAt(items, oracle, 0), ItemAt(items, oracle, i), now);
      } else {
        SameThenLast(s, t, u, dt, key, ItemAt(items, oracle, i), now);
      }
    }
  }

  // ----- Penalties -----

  ghost predicate SameCustody(s: Store, t: Store) {
    t.vault == s.vault && t.reputation == s.reputation && t.staleCount == s.staleCount && t.settings == s.settings
  }

  /** After `n` stale submissions. */
  function Penalized(s: Store, oracle: Address, dt: Symbol, n: nat): Store
    decreases n
  {
    if n == 0 then s
    else
      var t := HandleStale(s, oracle, dt);
      Penalized(if t.Some? then t.value else s, oracle, dt, n - 1)
  }

  lemma SameStale(s: Store, t: Store, oracle: Address, dt: Symbol)
    requires SameCustody(s, t)
    ensures HandleStale(t, oracle, dt).Some? <==> HandleStale(s, oracle, dt).Some?
    ensures HandleStale(s, oracle, dt).Some? ==> SameCustody(HandleStale(s, oracle, dt).value, HandleStale(t, oracle, dt).value)
  {
    StaleIs(s, oracle, dt);
    StaleIs(t, oracle, dt);
    SameReputation(s, t, oracle, dt);
  }

  lemma {:induction false} SamePenalties(s: Store, t: Store, oracle: Address, dt: Symbol, n: nat)
    requires SameCustody(s, t)
    ensures SameCustody(Penalized(s, oracle, dt, n), Penalized(t, oracle, dt, n))
    decreases n
  {
    if n > 0 {
      SameStale(s, t, oracle, dt);
      var a, b := HandleStale(s, oracle, dt), HandleStale(t, oracle, dt);
      SamePenalties(if a.Some? then a.value else s, if b.Some? then b.value else t, oracle, dt, n - 1);
    }
  }

  /** How many items are stale. */
  function StaleItems(s: Store, dt: Symbol, items: Items, oracle: Address, now: nat): nat
    decreases |items|
  {
    if items == [] then 0
    else (if TooOld(s, dt, ItemAt(items, oracle, 0), now) then 1 else 0) + StaleItems(s, dt, items[1..], oracle, now)
  }

  lemma {:induction false} SameStaleItems(s: Store, t: Store, dt: Symbol, items: Items, oracle: Address, now: nat)
    requires t.settings == s.settings
    ensures StaleItems(t, dt, items, oracle, now) == StaleItems(s, dt, items, oracle, now)
    decreases |items|
  {
    if items != [] {
      SameStaleItems(s, t, dt, items[1..], oracle, now);
    }
  }

  /** Stakes, scores and counts are those after as many stale submissions, whatever was stored between them. */
  lemma {:induction false} PenaltiesOnly(s: Store, entry: Entry, dt: Symbol, items: Items, oracle: Address, now: nat)
    requires Sound(s) && !NotServing(s, dt, oracle) && AcceptAll(s, entry, dt, items, oracle, now).Some?
    ensures SameCustody(Penalized(s, oracle, dt, StaleItems(s, dt, items, oracle, now)), AcceptAll(s, entry, dt, items, oracle, now).value)
    decreases |items|
  {
    if items != [] {
      var p := ItemAt(items, oracle, 0);
      var t := AcceptReading(s, dt, items[0].0, p, now).value;
      FirstItem(s, t, dt, items, oracle, now, items[0].0);
      AcceptExact(s, dt, items[0].0, p, now);
      PenaltiesOnly(t, entry, dt, items[1..], oracle, now);
      SameStaleItems(s, t, dt, items[1..], oracle, now);
      if !TooOld(s, dt, p, now) {
        SamePenalties(s, t, oracle, dt, StaleItems(s, dt, items[1..], oracle, now));
      }
    }
  }

  // ----- The batch -----

  lemma BatchIs(s: Store, entry: Entry, dt: Symbol, items: Items, oracle: Address, now: nat)
    requires Sound(s) && SubmitBatch(s, entry, dt, items, oracle, now).Some?
    ensures !NotServing(s, dt, oracle) && Sound(Charged(s, oracle, dt, now))
    ensures AcceptAll(Charged(s, oracle, dt, now), entry, dt, items, oracle, now).Some?
    ensures var u := AcceptAll(Charged(s, oracle, dt, now), entry, dt, items, oracle, now).value;
      SubmitBatch(s, entry, dt, items, oracle, now).value
      == u.(staleCount := if entry == SubmitDataBatch then CountCleared(u, oracle, dt) else u.staleCount)
  {
    SameStreamsSound(s, Charged(s, oracle, dt, now));
  }

  lemma ChargedStreams(s: Store, entry: Entry, dt: Symbol, items: Items, oracle: Address, now: nat, key: Symbol, i: nat)
    requires Sound(s) && !NotServing(s, dt, oracle) && Sound(Charged(s, oracle, dt, now))
    requires AcceptAll(Charged(s, oracle, dt, now), entry, dt, items, oracle, now).Some?
    ensures var u := AcceptAll(Charged(s, oracle, dt, now), entry, dt, items, oracle, now).value;
      && (StoresNone(s, dt, items, oracle, now, key) ==> StreamSame(s, u, dt, key, oracle))
      && (StoresLast(s, dt, items, oracle, now, key, i) ==> StreamAfter(s, u, dt, key, ItemAt(items, oracle, i), now))
  {
    var charged := Charged(s, oracle, dt, now);
    FilterAgree(PointsOf(s, dt, key), StaysFn(charged, dt, oracle, now), StaysFn(s, dt, oracle, now));
    assert forall j :: 0 <= j < |items| ==>
      (StoresIn(charged, dt, items, oracle, now, key, j) <==> StoresIn(s, dt, items, oracle, now, key, j));
    if StoresNone(s, dt, items, oracle, now, key) {
      UntouchedStream(charged, entry, dt, items, oracle, now, key);
    }
    if StoresLast(s, dt, items, oracle, now, key, i) {
      LastItemStays(charged, entry, dt, items, oracle, now, key, i);
    }
  }

  /** An accepted batch: every stream holds the last item stored in it, and nothing changes in the others; the oracle is
      penalized as by single stale submissions of the same number; and only `submit_data_batch` then clears the count. */
  lemma BatchLeaves(s: Store, entry: Entry, dt: Symbol, items: Items, oracle: Address, now: nat, key: Symbol, i: nat)
    requires Sound(s) && SubmitBatch(s, entry, dt, items, oracle, now).Some?
    ensures var t, u := SubmitBatch(s, entry, dt, items, oracle, now).value,
                        Penalized(s, oracle, dt, StaleItems(s, dt, items, oracle, now));
      && (StoresNone(s, dt, items, oracle, now, key) ==> StreamSame(s, t, dt, key, oracle))
      && (StoresLast(s, dt, items, oracle, now, key, i) ==> StreamAfter(s, t, dt, key, ItemAt(items, oracle, i), now))
      && t.vault == u.vault && t.reputation == u.reputation
      && t.staleCount == if entry == SubmitDataBatch then CountCleared(u, oracle, dt) else u.staleCount
  {
    BatchIs(s, entry, dt, items, oracle, now);
    var charged := Charged(s, oracle, dt, now);
    ChargedStreams(s, entry, dt, items, oracle, now, key, i);
    SamePenalties(s, charged, oracle, dt, StaleItems(s, dt, items, oracle, now));
    SameStaleItems(s, charged, dt, items, oracle, now);
    PenaltiesOnly(charged, entry, dt, items, oracle, now);
  }
}
