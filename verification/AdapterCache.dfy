/**
 * The manager's cache of open driver adapters (manager/ipc_driver.go): a map under a
 * read-write lock, and a mutex in every adapter. Any number of threads find, use, unlock
 * and release adapters; one action of the model is one operation on a lock, on the map or
 * on the driver.
 */
module AdapterCache {
  import opened Text

  type Thread = int
  type AdapterId = int
  type Name = string

  datatype Adapter = Adapter(name: Name, open: bool, closes: nat, holder: Option<Thread>)

  /** Where a thread is. The comments say which locks it holds there. */
  datatype Pc =
    | Idle
    // findDriverAdapter
    | FindStart(name: Name)                     // none; next: RLock
    | FindReading(name: Name)                   // map read lock; next: look up
    | FindHit(name: Name, a: AdapterId)         // map read lock; next: lock the adapter
    | FindHitLocked(name: Name, a: AdapterId)   // map read lock, adapter; next: RUnlock
    | FindMiss(name: Name)                      // map read lock; next: RUnlock
    | FindAgain(name: Name)                     // none; next: Lock
    | FindDraining(name: Name)                  // map write lock pending on the readers
    | FindWriting(name: Name)                   // map write lock; next: look up
    | FindHitWriting(name: Name, a: AdapterId)  // map write lock; next: lock the adapter
    | FindOpening(name: Name)                   // map write lock; next: OpenAdapter
    | FindOpened(name: Name, a: AdapterId)      // map write lock; next: insert
    | FindDone(name: Name, a: AdapterId)        // map write lock, adapter; next: Unlock
    | FindFailed(name: Name)                    // map write lock; next: Unlock
    | Using(name: Name, a: AdapterId)           // adapter; next: unlock the adapter
    // releaseDriverAdapter
    | ReleaseStart(name: Name)                  // none; next: Lock
    | ReleaseDraining(name: Name)               // map write lock pending on the readers
    | ReleaseWriting(name: Name)                // map write lock; next: look up
    | ReleaseHit(name: Name, a: AdapterId)      // map write lock; next: lock the adapter
    | ReleaseLocked(name: Name, a: AdapterId)   // map write lock, adapter; next: delete
    | ReleaseDeleted(name: Name, a: AdapterId)  // map write lock, adapter; next: Close
    | ReleaseClosed(name: Name, a: AdapterId)   // map write lock, adapter; next: unlock the adapter
    | ReleaseDone(name: Name)                   // map write lock; next: Unlock

  /** The map read lock is held. */
  predicate Reads(pc: Pc) {
    pc.FindReading? || pc.FindHit? || pc.FindHitLocked? || pc.FindMiss?
  }

  /** Waiting for the readers to leave, which already keeps new readers out. */
  predicate Drains(pc: Pc) {
    pc.FindDraining? || pc.ReleaseDraining?
  }

  /** The map write lock is held. */
  predicate Writes(pc: Pc) {
    || pc.FindWriting? || pc.FindHitWriting? || pc.FindOpening? || pc.FindOpened? || pc.FindDone? || pc.FindFailed?
    || pc.ReleaseWriting? || pc.ReleaseHit? || pc.ReleaseLocked? || pc.ReleaseDeleted? || pc.ReleaseClosed?
    || pc.ReleaseDone?
  }

  /** The mutex of the adapter in the pc is held. */
  predicate Holds(pc: Pc) {
    || pc.FindHitLocked? || pc.FindDone? || pc.Using?
    || pc.ReleaseLocked? || pc.ReleaseDeleted? || pc.ReleaseClosed?
  }

  /** The adapter in the pc is the one the map has for the name. */
  predicate Mapped(pc: Pc) {
    || pc.FindHit? || pc.FindHitLocked? || pc.FindHitWriting? || pc.FindDone? || pc.Using?
    || pc.ReleaseHit? || pc.ReleaseLocked?
  }

  /** The adapter in the pc is open but not in the map. */
  predicate Between(pc: Pc) {
    pc.FindOpened? || pc.ReleaseDeleted?
  }

  /** The cache, the adapters, the read-write lock and the threads. `writer` is the thread
      that has or awaits the write lock. */
  datatype State = State(cache: map<Name, AdapterId>, adapters: map<AdapterId, Adapter>,
                         readers: set<Thread>, writer: Option<Thread>, pcs: map<Thread, Pc>)

  function At(s: State, t: Thread): Pc {
    if t in s.pcs then s.pcs[t] else Idle
  }

  function Go(s: State, t: Thread, pc: Pc): State {
    s.(pcs := s.pcs[t := pc])
  }

  function WithHolder(s: State, a: AdapterId, holder: Option<Thread>): State
    requires a in s.adapters
  {
    s.(adapters := s.adapters[a := s.adapters[a].(holder := holder)])
  }

  predicate Free(s: State, a: AdapterId) {
    a in s.adapters && s.adapters[a].holder.None?
  }

  predicate IsOpen(s: State, a: AdapterId) {
    a in s.adapters && s.adapters[a].open
  }

  // ----- Actions -----

  /** A thread moves on without changing anything shared. */
  predicate Moves(s: State, t: Thread, next: Pc, s': State) {
    s' == Go(s, t, next)
  }

  predicate ReadLocks(s: State, t: Thread, next: Pc, s': State) {
    s.writer.None? && s' == Go(s.(readers := s.readers + {t}), t, next)
  }

  predicate ReadUnlocks(s: State, t: Thread, next: Pc, s': State) {
    s' == Go(s.(readers := s.readers - {t}), t, next)
  }

  /** RWMutex.Lock keeps new readers out first; then it waits for the others to leave. */
  predicate Announces(s: State, t: Thread, next: Pc, s': State) {
    s.writer.None? && s' == Go(s.(writer := Some(t)), t, next)
  }

  predicate WriteUnlocks(s: State, t: Thread, next: Pc, s': State) {
    s' == Go(s.(writer := None), t, next)
  }

  predicate LocksAdapter(s: State, t: Thread, a: AdapterId, next: Pc, s': State) {
    Free(s, a) && s' == Go(WithHolder(s, a, Some(t)), t, next)
  }

  predicate UnlocksAdapter(s: State, t: Thread, a: AdapterId, next: Pc, s': State) {
    a in s.adapters && s' == Go(WithHolder(s, a, None), t, next)
  }

  predicate Opens(s: State, t: Thread, n: Name, a: AdapterId, s': State) {
    a !in s.adapters && s' == Go(s.(adapters := s.adapters[a := Adapter(n, true, 0, None)]), t, FindOpened(n, a))
  }

  /** The new adapter enters the cache, and its mutex is taken. */
  predicate Inserts(s: State, t: Thread, n: Name, a: AdapterId, s': State) {
    Free(s, a) && s' == Go(WithHolder(s, a, Some(t)).(cache := s.cache[n := a]), t, FindDone(n, a))
  }

  predicate Deletes(s: State, t: Thread, n: Name, a: AdapterId, s': State) {
    s' == Go(s.(cache := s.cache - {n}), t, ReleaseDeleted(n, a))
  }

  predicate Closes(s: State, t: Thread, n: Name, a: AdapterId, s': State) {
    && a in s.adapters
    && var ad := s.adapters[a];
       s' == Go(s.(adapters := s.adapters[a := ad.(open := false, closes := ad.closes + 1)]), t, ReleaseClosed(n, a))
  }

  /** One action of thread t. */
  ghost predicate Next(s: State, t: Thread, s': State) {
    match At(s, t)
    case Idle => exists name :: Moves(s, t, FindStart(name), s') || Moves(s, t, ReleaseStart(name), s')
    case FindStart(n) => ReadLocks(s, t, FindReading(n), s')
    case FindReading(n) => Moves(s, t, if n in s.cache then FindHit(n, s.cache[n]) else FindMiss(n), s')
    case FindHit(n, a) => LocksAdapter(s, t, a, FindHitLocked(n, a), s')
    case FindHitLocked(n, a) => ReadUnlocks(s, t, Using(n, a), s')
    case FindMiss(n) => ReadUnlocks(s, t, FindAgain(n), s')
    case FindAgain(n) => Announces(s, t, FindDraining(n), s')
    case FindDraining(n) => s.readers == {} && Moves(s, t, FindWriting(n), s')
    case FindWriting(n) => Moves(s, t, if n in s.cache then FindHitWriting(n, s.cache[n]) else FindOpening(n), s')
    case FindHitWriting(n, a) => LocksAdapter(s, t, a, FindDone(n, a), s')
    case FindOpening(n) => Moves(s, t, FindFailed(n), s') || exists a :: Opens(s, t, n, a, s')
    case FindOpened(n, a) => Inserts(s, t, n, a, s')
    case FindDone(n, a) => WriteUnlocks(s, t, Using(n, a), s')
    case FindFailed(n) => WriteUnlocks(s, t, Idle, s')
    case Using(n, a) => UnlocksAdapter(s, t, a, Idle, s')
    case ReleaseStart(n) => Announces(s, t, ReleaseDraining(n), s')
    case ReleaseDraining(n) => s.readers == {} && Moves(s, t, ReleaseWriting(n), s')
    case ReleaseWriting(n) => Moves(s, t, if n in s.cache then ReleaseHit(n, s.cache[n]) else ReleaseDone(n), s')
    case ReleaseHit(n, a) => LocksAdapter(s, t, a, ReleaseLocked(n, a), s')
    case ReleaseLocked(n, a) => Deletes(s, t, n, a, s')
    case ReleaseDeleted(n, a) => Closes(s, t, n, a, s')
    case ReleaseClosed(n, a) => UnlocksAdapter(s, t, a, ReleaseDone(n), s')
    case ReleaseDone(n) => WriteUnlocks(s, t, Idle, s')
  }

  // ----- The invariant -----

  /** What holds of a thread at a place. */
  predicate ThreadInv(s: State, t: Thread, pc: Pc) {
    && (t in s.readers <==> Reads(pc))
    && (s.writer == Some(t) <==> Writes(pc) || Drains(pc))
    && (Writes(pc) ==> s.readers == {})
    && (Holds(pc) ==> pc.a in s.adapters && s.adapters[pc.a].holder == Some(t))
    && (Mapped(pc) ==> pc.name in s.cache && s.cache[pc.name] == pc.a)
    && (Between(pc) ==>
      pc.name !in s.cache && pc.a in s.adapters && s.adapters[pc.a].open && s.adapters[pc.a].name == pc.name)
    && (pc.FindOpening? || pc.ReleaseClosed? || pc.ReleaseDone? ==> pc.name !in s.cache)
    && (pc.FindOpened? ==> s.adapters[pc.a].holder.None?)
  }

  predicate IsCached(s: State, a: AdapterId, name: Name) {
    name in s.cache && s.cache[name] == a
  }

  predicate IsBetween(s: State, a: AdapterId) {
    s.writer.Some? && Between(At(s, s.writer.value)) && At(s, s.writer.value).a == a
  }

  predicate AdapterInv(s: State, a: AdapterId)
    requires a in s.adapters
  {
    var ad := s.adapters[a];
    && (ad.holder.Some? ==> Holds(At(s, ad.holder.value)) && At(s, ad.holder.value).a == a)
    && (ad.open ==> IsCached(s, a, ad.name) || IsBetween(s, a))
    && ad.closes == if ad.open then 0 else 1
  }

  predicate NameInv(s: State, n: Name)
    requires n in s.cache
  {
    s.cache[n] in s.adapters && s.adapters[s.cache[n]].open && s.adapters[s.cache[n]].name == n
  }

  ghost predicate Inv(s: State) {
    && (forall t :: ThreadInv(s, t, At(s, t)))
    && (forall a :: a in s.adapters ==> AdapterInv(s, a))
    && (forall n :: n in s.cache ==> NameInv(s, n))
  }

  const INITIAL := State(map[], map[], {}, None, map[])

  lemma {:induction false} InitialInv()
    ensures Inv(INITIAL)
  {
  }

  // ----- Every action keeps it -----

  /** Places that say the same about locks and adapters. */
  predicate SameLocks(pc: Pc, next: Pc) {
    && (Reads(pc) <==> Reads(next)) && (Writes(pc) || Drains(pc) <==> Writes(next) || Drains(next))
    && !Holds(pc) && !Holds(next) && !Between(pc) && !Between(next)
  }

  lemma {:induction false} MovesKeeps(s: State, t: Thread, next: Pc, s': State)
    requires Inv(s) && Moves(s, t, next, s') && SameLocks(At(s, t), next) && ThreadInv(s', t, next)
    ensures Inv(s')
  {
    forall u ensures ThreadInv(s', u, At(s', u)) { assert ThreadInv(s, u, At(s, u)); }
    forall a | a in s'.adapters ensures AdapterInv(s', a) { assert AdapterInv(s, a); assert ThreadInv(s, t, At(s, t)); }
    forall n | n in s'.cache ensures NameInv(s', n) { assert NameInv(s, n); }
  }

  lemma {:induction false} ReadLocksKeeps(s: State, t: Thread, next: Pc, s': State)
    requires Inv(s) && ReadLocks(s, t, next, s') && At(s, t).FindStart? && next.FindReading?
    ensures Inv(s')
  {
    forall u ensures ThreadInv(s', u, At(s', u)) { assert ThreadInv(s, u, At(s, u)); assert ThreadInv(s, t, At(s, t)); }
    forall a | a in s'.adapters ensures AdapterInv(s', a) { assert AdapterInv(s, a); assert ThreadInv(s, t, At(s, t)); }
    forall n | n in s'.cache ensures NameInv(s', n) { assert NameInv(s, n); }
  }

  lemma {:induction false} ReadUnlocksKeeps(s: State, t: Thread, next: Pc, s': State)
    requires Inv(s) && ReadUnlocks(s, t, next, s') && Reads(At(s, t)) && (Holds(At(s, t)) <==> Holds(next))
    requires if next.Using? then Mapped(At(s, t)) && next.name == At(s, t).name && next.a == At(s, t).a
      else next.FindAgain?
    ensures Inv(s')
  {
    forall u ensures ThreadInv(s', u, At(s', u)) { assert ThreadInv(s, u, At(s, u)); assert ThreadInv(s, t, At(s, t)); }
    forall a | a in s'.adapters ensures AdapterInv(s', a) { assert AdapterInv(s, a); assert ThreadInv(s, t, At(s, t)); }
    forall n | n in s'.cache ensures NameInv(s', n) { assert NameInv(s, n); }
  }

  lemma {:induction false} AnnouncesKeeps(s: State, t: Thread, next: Pc, s': State)
    requires Inv(s) && Announces(s, t, next, s') && (At(s, t).FindAgain? || At(s, t).ReleaseStart?) && Drains(next)
    ensures Inv(s')
  {
    forall u ensures ThreadInv(s', u, At(s', u)) { assert ThreadInv(s, u, At(s, u)); assert ThreadInv(s, t, At(s, t)); }
    forall a | a in s'.adapters ensures AdapterInv(s', a) { assert AdapterInv(s, a); assert ThreadInv(s, t, At(s, t)); }
    forall n | n in s'.cache ensures NameInv(s', n) { assert NameInv(s, n); }
  }

  lemma {:induction false} WriteUnlocksKeeps(s: State, t: Thread, next: Pc, s': State)
    requires Inv(s) && WriteUnlocks(s, t, next, s') && Writes(At(s, t))
    requires (Holds(At(s, t)) <==> Holds(next)) && !Between(At(s, t))
    requires if next.Using? then Mapped(At(s, t)) && next.name == At(s, t).name && next.a == At(s, t).a else next.Idle?
    ensures Inv(s')
  {
    forall u ensures ThreadInv(s', u, At(s', u)) { assert ThreadInv(s, u, At(s, u)); assert ThreadInv(s, t, At(s, t)); }
    forall a | a in s'.adapters ensures AdapterInv(s', a) { assert AdapterInv(s, a); assert ThreadInv(s, t, At(s, t)); }
    forall n | n in s'.cache ensures NameInv(s', n) { assert NameInv(s, n); }
  }

  lemma {:induction false} LocksAdapterKeeps(s: State, t: Thread, a: AdapterId, next: Pc, s': State)
    requires Inv(s) && LocksAdapter(s, t, a, next, s')
    requires At(s, t).FindHit? || At(s, t).FindHitWriting? || At(s, t).ReleaseHit?
    requires Holds(next) && Mapped(next) && next.name == At(s, t).name && next.a == At(s, t).a == a
    requires (Reads(At(s, t)) <==> Reads(next)) && (Writes(At(s, t)) <==> Writes(next)) && !Between(next)
    ensures Inv(s')
  {
    forall u ensures ThreadInv(s', u, At(s', u)) { assert ThreadInv(s, u, At(s, u)); assert ThreadInv(s, t, At(s, t)); }
    forall b | b in s'.adapters ensures AdapterInv(s', b) { assert AdapterInv(s, b); assert ThreadInv(s, t, At(s, t)); }
    forall n | n in s'.cache ensures NameInv(s', n) { assert NameInv(s, n); }
  }

  lemma {:induction false} UnlocksAdapterKeeps(s: State, t: Thread, a: AdapterId, next: Pc, s': State)
    requires Inv(s) && UnlocksAdapter(s, t, a, next, s')
    requires (At(s, t).Using? || At(s, t).ReleaseClosed?) && At(s, t).a == a
    requires (At(s, t).Using? && next.Idle?) || (At(s, t).ReleaseClosed? && next == ReleaseDone(At(s, t).name))
    ensures Inv(s')
  {
    forall u ensures ThreadInv(s', u, At(s', u)) { assert ThreadInv(s, u, At(s, u)); assert ThreadInv(s, t, At(s, t)); }
    forall b | b in s'.adapters ensures AdapterInv(s', b) { assert AdapterInv(s, b); assert ThreadInv(s, t, At(s, t)); }
    forall n | n in s'.cache ensures NameInv(s', n) { assert NameInv(s, n); }
  }

  lemma {:induction false} OpensKeeps(s: State, t: Thread, n: Name, a: AdapterId, s': State)
    requires Inv(s) && Opens(s, t, n, a, s') && At(s, t) == FindOpening(n)
    ensures Inv(s')
  {
    forall u ensures ThreadInv(s', u, At(s', u)) { assert ThreadInv(s, u, At(s, u)); assert ThreadInv(s, t, At(s, t)); }
    forall b | b in s'.adapters ensures AdapterInv(s', b) {
      assert b != a ==> AdapterInv(s, b);
      assert ThreadInv(s, t, At(s, t));
    }
    forall n0 | n0 in s'.cache ensures NameInv(s', n0) { assert NameInv(s, n0); }
  }

  lemma {:induction false} InsertsKeeps(s: State, t: Thread, n: Name, a: AdapterId, s': State)
    requires Inv(s) && Inserts(s, t, n, a, s') && At(s, t) == FindOpened(n, a)
    ensures Inv(s')
  {
    forall u ensures ThreadInv(s', u, At(s', u)) { assert ThreadInv(s, u, At(s, u)); assert ThreadInv(s, t, At(s, t)); }
    forall b | b in s'.adapters ensures AdapterInv(s', b) { assert AdapterInv(s, b); assert ThreadInv(s, t, At(s, t)); }
    forall n0 | n0 in s'.cache ensures NameInv(s', n0) {
      assert n0 != n ==> NameInv(s, n0);
      assert ThreadInv(s, t, At(s, t));
    }
  }

  lemma {:induction false} DeletesKeeps(s: State, t: Thread, n: Name, a: AdapterId, s': State)
    requires Inv(s) && Deletes(s, t, n, a, s') && At(s, t) == ReleaseLocked(n, a)
    ensures Inv(s')
  {
    forall u ensures ThreadInv(s', u, At(s', u)) { assert ThreadInv(s, u, At(s, u)); assert ThreadInv(s, t, At(s, t)); }
    forall b | b in s'.adapters ensures AdapterInv(s', b) { assert AdapterInv(s, b); assert ThreadInv(s, t, At(s, t)); }
    forall n0 | n0 in s'.cache ensures NameInv(s', n0) { assert NameInv(s, n0); }
  }

  lemma {:induction false} ClosesKeeps(s: State, t: Thread, n: Name, a: AdapterId, s': State)
    requires Inv(s) && Closes(s, t, n, a, s') && At(s, t) == ReleaseDeleted(n, a)
    ensures Inv(s')
  {
    forall u ensures ThreadInv(s', u, At(s', u)) { assert ThreadInv(s, u, At(s, u)); assert ThreadInv(s, t, At(s, t)); }
    forall b | b in s'.adapters ensures AdapterInv(s', b) { assert AdapterInv(s, b); assert ThreadInv(s, t, At(s, t)); }
    forall n0 | n0 in s'.cache ensures NameInv(s', n0) { assert NameInv(s, n0); assert ThreadInv(s, t, At(s, t)); }
  }

  predicate IsRelease(pc: Pc) {
    || pc.ReleaseStart? || pc.ReleaseDraining? || pc.ReleaseWriting? || pc.ReleaseHit?
    || pc.ReleaseLocked? || pc.ReleaseDeleted? || pc.ReleaseClosed? || pc.ReleaseDone?
  }

  lemma {:induction false} ReadSideKeeps(s: State, t: Thread, s': State)
    requires Inv(s) && Next(s, t, s') && !IsRelease(At(s, t)) && !Writes(At(s, t))
    ensures Inv(s')
  {
    hide ThreadInv, AdapterInv, NameInv;
    match At(s, t)
    case FindStart(n) => ReadLocksKeeps(s, t, FindReading(n), s');
    case FindHit(n, a) => LocksAdapterKeeps(s, t, a, FindHitLocked(n, a), s');
    case FindHitLocked(n, a) => ReadUnlocksKeeps(s, t, Using(n, a), s');
    case FindMiss(n) => ReadUnlocksKeeps(s, t, FindAgain(n), s');
    case FindAgain(n) => AnnouncesKeeps(s, t, FindDraining(n), s');
    case Using(n, a) => UnlocksAdapterKeeps(s, t, a, Idle, s');
    case Idle => LocalKeeps(s, t, s');
    case FindReading(n) => LocalKeeps(s, t, s');
    case FindDraining(n) => LocalKeeps(s, t, s');
  }

  lemma {:induction false} WriteSideKeeps(s: State, t: Thread, s': State)
    requires Inv(s) && Next(s, t, s') && !IsRelease(At(s, t)) && Writes(At(s, t))
    ensures Inv(s')
  {
    hide ThreadInv, AdapterInv, NameInv;
    match At(s, t)
    case FindWriting(n) => LocalKeeps(s, t, s');
    case FindHitWriting(n, a) => LocksAdapterKeeps(s, t, a, FindDone(n, a), s');
    case FindOpening(n) =>
      if a :| Opens(s, t, n, a, s') { OpensKeeps(s, t, n, a, s'); } else { LocalKeeps(s, t, s'); }
    case FindOpened(n, a) => InsertsKeeps(s, t, n, a, s');
    case FindDone(n, a) => WriteUnlocksKeeps(s, t, Using(n, a), s');
    case FindFailed(n) => WriteUnlocksKeeps(s, t, Idle, s');
  }

  lemma {:induction false} ReleaseKeeps(s: State, t: Thread, s': State)
    requires Inv(s) && Next(s, t, s') && IsRelease(At(s, t))
    ensures Inv(s')
  {
    hide ThreadInv, AdapterInv, NameInv;
    match At(s, t)
    case ReleaseStart(n) => AnnouncesKeeps(s, t, ReleaseDraining(n), s');
    case ReleaseDraining(n) => LocalKeeps(s, t, s');
    case ReleaseWriting(n) => LocalKeeps(s, t, s');
    case ReleaseHit(n, a) => LocksAdapterKeeps(s, t, a, ReleaseLocked(n, a), s');
    case ReleaseLocked(n, a) => DeletesKeeps(s, t, n, a, s');
    case ReleaseDeleted(n, a) => ClosesKeeps(s, t, n, a, s');
    case ReleaseClosed(n, a) => UnlocksAdapterKeeps(s, t, a, ReleaseDone(n), s');
    case ReleaseDone(n) => WriteUnlocksKeeps(s, t, Idle, s');
  }

  lemma {:induction false} NextKeeps(s: State, t: Thread, s': State)
    requires Inv(s) && Next(s, t, s')
    ensures Inv(s')
  {
    hide Next, Inv;
    if IsRelease(At(s, t)) {
      ReleaseKeeps(s, t, s');
    } else if Writes(At(s, t)) {
      WriteSideKeeps(s, t, s');
    } else {
      ReadSideKeeps(s, t, s');
    }
  }

  /** The actions that change only the place of the thread. */
  lemma {:induction false} LocalKeeps(s: State, t: Thread, s': State)
    requires Inv(s) && Next(s, t, s') && Moves(s, t, At(s', t), s')
    requires
      || At(s, t).Idle? || At(s, t).FindReading? || At(s, t).FindDraining? || At(s, t).FindWriting?
      || At(s, t).FindOpening? || At(s, t).ReleaseDraining? || At(s, t).ReleaseWriting?
    ensures Inv(s')
  {
    assert ThreadInv(s, t, At(s, t));
    MovesKeeps(s, t, At(s', t), s');
  }

  // ----- Whole runs -----

  /** A run: from the first state, every next one by an action of some thread. */
  ghost predicate Run(states: seq<State>, threads: seq<Thread>) {
    && |states| == |threads| + 1
    && forall i :: 0 <= i < |threads| ==> Next(states[i], threads[i], states[i + 1])
  }

  lemma {:induction false} RunKeeps(states: seq<State>, threads: seq<Thread>, k: nat)
    requires Run(states, threads) && Inv(states[0]) && k < |states|
    ensures Inv(states[k])
  {
    hide Inv, Next;
    if k == 0 {
    } else {
      RunKeeps(states, threads, k - 1);
      assert Next(states[k - 1], threads[k - 1], states[k - 1 + 1]);
      NextKeeps(states[k - 1], threads[k - 1], states[k]);
    }
  }

  /** In every reachable state a thread that came out of findDriverAdapter alone holds the lock
      of an open adapter of the name it asked for, a name has at most one open adapter, and no
      adapter has been closed more than once, nor while open. */
  lemma {:induction false} Safety(states: seq<State>, threads: seq<Thread>, k: nat)
    requires Run(states, threads) && states[0] == INITIAL && k < |states|
    ensures forall t, n, a :: At(states[k], t) == Using(n, a) ==>
      && IsOpen(states[k], a) && states[k].adapters[a].name == n
      && states[k].adapters[a].holder == Some(t)
      && forall u, m :: At(states[k], u) == Using(m, a) ==> u == t
    ensures var s := states[k];
      forall a, b :: IsOpen(s, a) && IsOpen(s, b) && s.adapters[a].name == s.adapters[b].name ==> a == b
    ensures var s := states[k];
      forall a :: a in s.adapters ==> s.adapters[a].closes == if IsOpen(s, a) then 0 else 1
  {
    InitialInv();
    RunKeeps(states, threads, k);
    var s := states[k];
    forall t, n, a | At(s, t) == Using(n, a)
      ensures a in s.adapters && s.adapters[a].open && s.adapters[a].name == n && s.adapters[a].holder == Some(t)
      ensures forall u, m :: At(s, u) == Using(m, a) ==> u == t
    {
      UsingIsSafe(s, t);
      forall u, m | At(s, u) == Using(m, a) ensures u == t { UsingIsSafe(s, u); }
    }
    forall a, b | IsOpen(s, a) && IsOpen(s, b) && s.adapters[a].name == s.adapters[b].name
      ensures a == b
    {
      OpenIsUnique(s, a, b);
    }
    forall a | a in s.adapters ensures s.adapters[a].closes == if s.adapters[a].open then 0 else 1 {
      assert AdapterInv(s, a);
    }
  }

  lemma {:induction false} UsingIsSafe(s: State, t: Thread)
    requires Inv(s) && At(s, t).Using?
    ensures var pc := At(s, t); pc.a in s.adapters && s.adapters[pc.a] == Adapter(pc.name, true, 0, Some(t))
  {
    assert ThreadInv(s, t, At(s, t));
    assert NameInv(s, At(s, t).name);
    assert AdapterInv(s, At(s, t).a);
  }

  lemma {:induction false} OpenIsUnique(s: State, a: AdapterId, b: AdapterId)
    requires Inv(s) && IsOpen(s, a) && IsOpen(s, b) && s.adapters[a].name == s.adapters[b].name
    ensures a == b
  {
    assert AdapterInv(s, a) && AdapterInv(s, b);
    if s.writer.Some? { assert ThreadInv(s, s.writer.value, At(s, s.writer.value)); }
  }

  // ----- What a call does -----

  /** In every reachable state: where a release has done its work, the name is not in the cache
      and no adapter of that name is open. */
  lemma {:induction false} ReleaseReleases(states: seq<State>, threads: seq<Thread>, k: nat, t: Thread, n: Name)
    requires Run(states, threads) && states[0] == INITIAL && k < |states| && At(states[k], t) == ReleaseDone(n)
    ensures n !in states[k].cache
    ensures forall a :: a in states[k].adapters && states[k].adapters[a].name == n ==> !states[k].adapters[a].open
  {
    hide Next;
    InitialInv();
    RunKeeps(states, threads, k);
    var s := states[k];
    assert ThreadInv(s, t, At(s, t));
    forall a | a in s.adapters && s.adapters[a].name == n ensures !s.adapters[a].open { assert AdapterInv(s, a); }
  }

  /** Thread t does not return between the two states. */
  ghost predicate StaysInCall(states: seq<State>, t: Thread, i: nat, j: nat) {
    i <= j < |states| && forall m :: i <= m <= j ==> At(states[m], t) != Idle
  }

  lemma {:induction false} OnlyWritersChangeTheCache(s: State, u: Thread, s': State)
    requires Next(s, u, s') && !Writes(At(s, u))
    ensures s'.cache == s.cache
  {
  }

  /** While a thread has the map locked, no other thread changes the cache. */
  lemma {:induction false} CacheIsLocked(s: State, t: Thread, u: Thread, s': State)
    requires Inv(s) && Next(s, u, s') && u != t && (Reads(At(s, t)) || Writes(At(s, t)))
    ensures s'.cache == s.cache
  {
    hide Next;
    assert ThreadInv(s, t, At(s, t)) && ThreadInv(s, u, At(s, u));
    OnlyWritersChangeTheCache(s, u, s');
  }

  /** Adapters stay, and a closed one is never opened again. */
  ghost predicate Persist(s: State, s': State) {
    && s.adapters.Keys <= s'.adapters.Keys
    && forall a :: a in s.adapters ==>
      s'.adapters[a].name == s.adapters[a].name && (!s.adapters[a].open ==> !s'.adapters[a].open)
  }

  lemma {:induction false} AdaptersPersist(s: State, t: Thread, s': State)
    requires Next(s, t, s')
    ensures Persist(s, s')
  {
  }

  lemma {:induction false} OthersAreWhereTheyWere(s: State, t: Thread, u: Thread, s': State)
    requires Next(s, u, s') && u != t
    ensures At(s', t) == At(s, t)
  {
    hide Next;
    OthersStay(s, u, s');
  }

  lemma {:induction false} ClosedOnce(s: State, a: AdapterId)
    requires Inv(s) && a in s.adapters && !s.adapters[a].open
    ensures s.adapters[a].closes == 1
  {
    assert AdapterInv(s, a);
  }

  /** Thread t is in a call with the name: a release, or a find and the use of what it found. */
  predicate InCall(s: State, t: Thread, release: bool, n: Name) {
    At(s, t) != Idle && (IsRelease(At(s, t)) <==> release) && At(s, t).name == n
  }

  /** A call keeps its kind and its name, and ends in one of three places. */
  lemma {:induction false} CallMoves(s: State, t: Thread, s': State, release: bool, n: Name)
    requires Next(s, t, s') && InCall(s, t, release, n)
    ensures if At(s', t) == Idle then At(s, t).Using? || At(s, t).FindFailed? || At(s, t).ReleaseDone?
      else InCall(s', t, release, n)
  {
    hide Next;
    if release {
      ReleaseMoves(s, t, s');
    } else if Writes(At(s, t)) {
      WritingFindMoves(s, t, s');
    } else {
      FindMoves(s, t, s');
    }
  }

  lemma {:induction false} ReleaseMoves(s: State, t: Thread, s': State)
    requires Next(s, t, s') && IsRelease(At(s, t))
    ensures if At(s', t) == Idle then At(s, t).ReleaseDone?
      else IsRelease(At(s', t)) && At(s', t).name == At(s, t).name
  {
  }

  lemma {:induction false} WritingFindMoves(s: State, t: Thread, s': State)
    requires Next(s, t, s') && !IsRelease(At(s, t)) && Writes(At(s, t))
    ensures if At(s', t) == Idle then At(s, t).FindFailed?
      else !IsRelease(At(s', t)) && At(s', t).name == At(s, t).name
  {
  }

  lemma {:induction false} FindMoves(s: State, t: Thread, s': State)
    requires Next(s, t, s') && !IsRelease(At(s, t)) && !Writes(At(s, t)) && At(s, t) != Idle
    ensures if At(s', t) == Idle then At(s, t).Using?
      else !IsRelease(At(s', t)) && At(s', t).name == At(s, t).name
  {
  }

  lemma {:induction false} UnlockKeepsTheRest(s: State, t: Thread, s': State)
    requires Next(s, t, s') && At(s, t).ReleaseDone?
    ensures s'.cache == s.cache && s'.adapters == s.adapters
  {
  }

  lemma {:induction false} StaysTheCall(states: seq<State>, threads: seq<Thread>, t: Thread, i: nat, j: nat,
                                        release: bool, n: Name)
    requires Run(states, threads) && StaysInCall(states, t, i, j) && InCall(states[i], t, release, n)
    ensures InCall(states[j], t, release, n)
    decreases j
  {
    hide Next, InCall;
    if i == j {
    } else {
      StaysTheCall(states, threads, t, i, j - 1, release, n);
      var s, u, s' := states[j - 1], threads[j - 1], states[j];
      assert Next(states[j - 1], threads[j - 1], states[j - 1 + 1]);
      if u == t { CallMoves(s, t, s', release, n); } else { SameCall(s, t, u, s', release, n); }
    }
  }

  lemma {:induction false} SameCall(s: State, t: Thread, u: Thread, s': State, release: bool, n: Name)
    requires Next(s, u, s') && u != t && InCall(s, t, release, n)
    ensures InCall(s', t, release, n)
  {
    hide Next;
    OthersAreWhereTheyWere(s, t, u, s');
  }

  /** Thread t returns from its call by the action that leads to state j. */
  ghost predicate Returns(states: seq<State>, t: Thread, i: nat, j: nat) {
    i < j < |states| && StaysInCall(states, t, i, j - 1) && At(states[j], t) == Idle
  }

  lemma {:induction false} ReturnsItself(states: seq<State>, threads: seq<Thread>, t: Thread, i: nat, j: nat)
    requires Run(states, threads) && Returns(states, t, i, j)
    ensures threads[j - 1] == t && Next(states[j - 1], t, states[j])
  {
    hide Next;
    var s, u := states[j - 1], threads[j - 1];
    assert Next(states[j - 1], threads[j - 1], states[j - 1 + 1]);
    if u != t { OthersAreWhereTheyWere(s, t, u, states[j]); }
  }

  /** Whenever a release returns, the name is not in the cache, and every adapter of that name has
      been closed, and closed once. */
  lemma {:induction false} ReleaseReturns(states: seq<State>, threads: seq<Thread>, t: Thread, i: nat, j: nat, n: Name)
    requires Run(states, threads) && states[0] == INITIAL && Returns(states, t, i, j)
    requires At(states[i], t) == ReleaseStart(n)
    ensures n !in states[j].cache
    ensures forall a :: a in states[j].adapters && states[j].adapters[a].name == n ==>
      !states[j].adapters[a].open && states[j].adapters[a].closes == 1
  {
    hide Next, Inv;
    InitialInv();
    StaysTheCall(states, threads, t, i, j - 1, true, n);
    ReturnsItself(states, threads, t, i, j);
    CallMoves(states[j - 1], t, states[j], true, n);
    UnlockKeepsTheRest(states[j - 1], t, states[j]);
    ReleaseReleases(states, threads, j - 1, t, n);
    RunKeeps(states, threads, j);
    forall a | a in states[j].adapters && states[j].adapters[a].name == n ensures states[j].adapters[a].closes == 1 {
      ClosedOnce(states[j], a);
    }
  }

  /** No adapter is forgotten, and none gets another name. */
  lemma {:induction false} AdaptersStay(states: seq<State>, threads: seq<Thread>, i: nat, j: nat, a: AdapterId)
    requires Run(states, threads) && i <= j < |states| && a in states[i].adapters
    ensures a in states[j].adapters && states[j].adapters[a].name == states[i].adapters[a].name
    decreases j
  {
    hide Next;
    if i == j {
    } else {
      AdaptersStay(states, threads, i, j - 1, a);
      assert Next(states[j - 1], threads[j - 1], states[j - 1 + 1]);
      AdaptersPersist(states[j - 1], threads[j - 1], states[j]);
    }
  }

  /** So an adapter of that name that was there when the call began, cached or not, is closed. */
  lemma {:induction false} ReleaseClosesWhatWasThere(states: seq<State>, threads: seq<Thread>, t: Thread,
                                                     i: nat, j: nat, n: Name, k: nat, a: AdapterId)
    requires Run(states, threads) && states[0] == INITIAL && Returns(states, t, i, j)
    requires At(states[i], t) == ReleaseStart(n) && k <= j && IsCached(states[k], a, n)
    ensures a in states[j].adapters && !states[j].adapters[a].open && states[j].adapters[a].closes == 1
  {
    hide Next, Inv;
    InitialInv();
    RunKeeps(states, threads, k);
    assert a in states[k].adapters && states[k].adapters[a].name == n by { CachedHasName(states[k], n); }
    AdaptersStay(states, threads, k, j, a);
    ReleaseReturns(states, threads, t, i, j, n);
  }

  lemma {:induction false} CachedHasName(s: State, n: Name)
    requires Inv(s) && n in s.cache
    ensures s.cache[n] in s.adapters && s.adapters[s.cache[n]].name == n
  {
    assert NameInv(s, n);
  }

  /** Whenever a find is over, the caller has used the adapter it came out with, or it failed. */
  lemma {:induction false} FindReturns(states: seq<State>, threads: seq<Thread>, t: Thread, i: nat, j: nat, n: Name)
    requires Run(states, threads) && Returns(states, t, i, j) && At(states[i], t) == FindStart(n)
    ensures At(states[j - 1], t) == FindFailed(n) || (At(states[j - 1], t).Using? && At(states[j - 1], t).name == n)
  {
    hide Next;
    StaysTheCall(states, threads, t, i, j - 1, false, n);
    ReturnsItself(states, threads, t, i, j);
    CallMoves(states[j - 1], t, states[j], false, n);
  }

  /** A find that met adapter a in the cache for n. */
  predicate Finding(s: State, t: Thread, n: Name, a: AdapterId) {
    match At(s, t)
    case FindReading(m) => m == n && IsCached(s, a, n)
    case FindWriting(m) => m == n && IsCached(s, a, n)
    case FindHit(m, b) => m == n && b == a
    case FindHitLocked(m, b) => m == n && b == a
    case FindHitWriting(m, b) => m == n && b == a
    case FindDone(m, b) => m == n && b == a
    case Using(m, b) => m == n && b == a
    case _ => false
  }

  lemma {:induction false} FindingKeeps(s: State, t: Thread, u: Thread, s': State, n: Name, a: AdapterId)
    requires Inv(s) && Next(s, u, s') && Finding(s, t, n, a) && At(s', t) != Idle
    ensures Finding(s', t, n, a)
  {
    if u == t {
    } else {
      hide Next;
      OthersAreWhereTheyWere(s, t, u, s');
      if !At(s, t).Using? { CacheIsLocked(s, t, u, s'); }
    }
  }

  /** Whoever looks the name up and meets an adapter comes out with that adapter. */
  lemma {:induction false} FindReturnsTheCached(states: seq<State>, threads: seq<Thread>, t: Thread, i: nat, j: nat,
                                                n: Name, a: AdapterId)
    requires Run(states, threads) && Inv(states[0]) && StaysInCall(states, t, i, j)
    requires At(states[i], t) == FindReading(n) || At(states[i], t) == FindWriting(n)
    requires IsCached(states[i], a, n)
    ensures Finding(states[j], t, n, a)
    ensures At(states[j], t).Using? ==> At(states[j], t) == Using(n, a)
    decreases j
  {
    hide Next, Inv;
    if i == j {
    } else {
      hide Finding;
      FindReturnsTheCached(states, threads, t, i, j - 1, n, a);
      RunKeeps(states, threads, j - 1);
      assert Next(states[j - 1], threads[j - 1], states[j - 1 + 1]);
      FindingKeeps(states[j - 1], t, threads[j - 1], states[j], n, a);
      assert At(states[j], t).Using? ==> At(states[j], t) == Using(n, a) by { FindingUses(states[j], t, n, a); }
    }
  }

  lemma {:induction false} FindingUses(s: State, t: Thread, n: Name, a: AdapterId)
    requires Finding(s, t, n, a)
    ensures At(s, t).Using? ==> At(s, t) == Using(n, a)
  {
  }

  /** A find that met no adapter of the name, when there were only the given ones at all. */
  predicate Opening(s: State, t: Thread, n: Name, known: set<AdapterId>) {
    && known <= s.adapters.Keys
    && match At(s, t)
       case FindWriting(m) => m == n && n !in s.cache
       case FindOpening(m) => m == n
       case FindFailed(m) => m == n
       case FindOpened(m, b) => m == n && b !in known
       case FindDone(m, b) => m == n && b !in known
       case Using(m, b) => m == n && b !in known
       case _ => false
  }

  lemma {:induction false} OpeningKeeps(s: State, t: Thread, u: Thread, s': State, n: Name, known: set<AdapterId>)
    requires Inv(s) && Next(s, u, s') && Opening(s, t, n, known) && At(s', t) != Idle
    ensures Opening(s', t, n, known)
  {
    if u == t {
      OpeningMoves(s, t, s', n, known);
    } else {
      hide Next;
      AdaptersPersist(s, u, s');
      OthersAreWhereTheyWere(s, t, u, s');
      if !At(s, t).Using? { CacheIsLocked(s, t, u, s'); }
    }
  }

  lemma {:induction false} OpeningMoves(s: State, t: Thread, s': State, n: Name, known: set<AdapterId>)
    requires Next(s, t, s') && Opening(s, t, n, known) && At(s', t) != Idle
    ensures Opening(s', t, n, known)
  {
  }

  /** Whoever looks the name up with the map locked and meets none comes out with an adapter that
      did not exist before, or with the driver's failure. */
  lemma {:induction false} FindOpensANewOne(states: seq<State>, threads: seq<Thread>, t: Thread, i: nat, j: nat,
                                            n: Name)
    requires Run(states, threads) && Inv(states[0]) && StaysInCall(states, t, i, j)
    requires At(states[i], t) == FindWriting(n) && n !in states[i].cache
    ensures Opening(states[j], t, n, states[i].adapters.Keys)
    ensures At(states[j], t).Using? ==> At(states[j], t).name == n && At(states[j], t).a !in states[i].adapters
    decreases j
  {
    hide Next, Inv;
    if i == j {
    } else {
      hide Opening;
      var known := states[i].adapters.Keys;
      FindOpensANewOne(states, threads, t, i, j - 1, n);
      RunKeeps(states, threads, j - 1);
      assert Next(states[j - 1], threads[j - 1], states[j - 1 + 1]);
      OpeningKeeps(states[j - 1], t, threads[j - 1], states[j], n, known);
      OpeningUses(states[j], t, n, known);
    }
  }

  lemma {:induction false} OpeningUses(s: State, t: Thread, n: Name, known: set<AdapterId>)
    requires Opening(s, t, n, known)
    ensures At(s, t).Using? ==> At(s, t).name == n && At(s, t).a !in known
  {
  }

  // ----- No deadlock -----

  lemma {:induction false} NonEmpty(ts: set<Thread>)
    requires ts != {}
    ensures exists t :: t in ts
  {
    assert (forall t :: t !in ts) ==> ts == {};
  }

  /** The thread is inside a call and can act. */
  ghost predicate Able(s: State, t: Thread) {
    At(s, t) != Idle && exists s' :: Next(s, t, s')
  }

  /** Whoever holds an adapter never waits. */
  lemma {:induction false} HolderIsAble(s: State, t: Thread)
    requires Inv(s) && Holds(At(s, t))
    ensures Able(s, t)
  {
    assert ThreadInv(s, t, At(s, t));
    match At(s, t)
    case FindHitLocked(n, a) => assert Next(s, t, Go(s.(readers := s.readers - {t}), t, Using(n, a)));
    case FindDone(n, a) => assert Next(s, t, Go(s.(writer := None), t, Using(n, a)));
    case Using(n, a) => assert Next(s, t, Go(WithHolder(s, a, None), t, Idle));
    case ReleaseLocked(n, a) => assert Next(s, t, Go(s.(cache := s.cache - {n}), t, ReleaseDeleted(n, a)));
    case ReleaseDeleted(n, a) =>
      var ad := s.adapters[a];
      var closed := s.(adapters := s.adapters[a := ad.(open := false, closes := ad.closes + 1)]);
      assert Next(s, t, Go(closed, t, ReleaseClosed(n, a)));
    case ReleaseClosed(n, a) => assert Next(s, t, Go(WithHolder(s, a, None), t, ReleaseDone(n)));
  }

  /** Whoever waits for an adapter waits for a thread that can act. */
  lemma {:induction false} WaiterFindsAble(s: State, t: Thread) returns (u: Thread)
    requires Inv(s) && (At(s, t).FindHit? || At(s, t).FindHitWriting? || At(s, t).ReleaseHit?)
    ensures Able(s, u)
  {
    var pc := At(s, t);
    assert ThreadInv(s, t, pc);
    assert NameInv(s, pc.name);
    if Free(s, pc.a) {
      u := t;
      var next := if pc.FindHit? then FindHitLocked(pc.name, pc.a)
                  else if pc.FindHitWriting? then FindDone(pc.name, pc.a) else ReleaseLocked(pc.name, pc.a);
      assert Next(s, t, Go(WithHolder(s, pc.a, Some(t)), t, next));
    } else {
      u := s.adapters[pc.a].holder.value;
      assert AdapterInv(s, pc.a);
      HolderIsAble(s, u);
    }
  }

  lemma {:induction false} ReaderFindsAble(s: State, t: Thread) returns (u: Thread)
    requires Inv(s) && Reads(At(s, t))
    ensures Able(s, u)
  {
    var pc := At(s, t);
    if pc.FindHit? {
      u := WaiterFindsAble(s, t);
    } else if pc.FindHitLocked? {
      u := t;
      HolderIsAble(s, t);
    } else {
      u := t;
      if pc.FindMiss? {
        assert Next(s, t, Go(s.(readers := s.readers - {t}), t, FindAgain(pc.name)));
      } else {
        var next := if pc.name in s.cache then FindHit(pc.name, s.cache[pc.name]) else FindMiss(pc.name);
        assert Next(s, t, Go(s, t, next));
      }
    }
  }

  /** Whoever has or awaits the write lock can act, or waits for one who can. */
  lemma {:induction false} WriterFindsAble(s: State, t: Thread) returns (u: Thread)
    requires Inv(s) && (Writes(At(s, t)) || Drains(At(s, t)))
    ensures Able(s, u)
  {
    var pc := At(s, t);
    assert ThreadInv(s, t, pc);
    u := t;
    if Holds(pc) {
      HolderIsAble(s, t);
    } else if pc.FindHitWriting? || pc.ReleaseHit? {
      u := WaiterFindsAble(s, t);
    } else if Drains(pc) && s.readers != {} {
      NonEmpty(s.readers);
      var r :| r in s.readers;
      assert ThreadInv(s, r, At(s, r));
      u := ReaderFindsAble(s, r);
    } else {
      FreeWriterIsAble(s, t);
    }
  }

  lemma {:induction false} FreeWriterIsAble(s: State, t: Thread)
    requires Inv(s) && !Holds(At(s, t)) && !At(s, t).FindHitWriting? && !At(s, t).ReleaseHit?
    requires Writes(At(s, t)) || (Drains(At(s, t)) && s.readers == {})
    ensures Able(s, t)
  {
    assert ThreadInv(s, t, At(s, t));
    match At(s, t)
    case FindDraining(n) => assert Next(s, t, Go(s, t, FindWriting(n)));
    case FindWriting(n) =>
      assert Next(s, t, Go(s, t, if n in s.cache then FindHitWriting(n, s.cache[n]) else FindOpening(n)));
    case FindOpening(n) => assert Next(s, t, Go(s, t, FindFailed(n)));
    case FindOpened(n, a) =>
      assert Inserts(s, t, n, a, Go(WithHolder(s, a, Some(t)).(cache := s.cache[n := a]), t, FindDone(n, a)));
      assert Next(s, t, Go(WithHolder(s, a, Some(t)).(cache := s.cache[n := a]), t, FindDone(n, a)));
    case ReleaseDraining(n) => assert Next(s, t, Go(s, t, ReleaseWriting(n)));
    case ReleaseWriting(n) =>
      assert Next(s, t, Go(s, t, if n in s.cache then ReleaseHit(n, s.cache[n]) else ReleaseDone(n)));
    case FindFailed(n) => assert Next(s, t, Go(s.(writer := None), t, Idle));
    case ReleaseDone(n) => assert Next(s, t, Go(s.(writer := None), t, Idle));
  }

  /** As long as some thread is inside a call, some thread inside a call can act. */
  lemma {:induction false} NoDeadlock(s: State, t: Thread) returns (u: Thread)
    requires Inv(s) && At(s, t) != Idle
    ensures Able(s, u)
  {
    var pc := At(s, t);
    if Reads(pc) {
      u := ReaderFindsAble(s, t);
    } else if Writes(pc) || Drains(pc) {
      u := WriterFindsAble(s, t);
    } else if pc.Using? {
      u := t;
      HolderIsAble(s, t);
    } else if s.writer.Some? {
      var w := s.writer.value;
      assert ThreadInv(s, w, At(s, w));
      u := WriterFindsAble(s, w);
    } else {
      u := t;
      match pc
      case FindStart(n) => assert Next(s, t, Go(s.(readers := s.readers + {t}), t, FindReading(n)));
      case FindAgain(n) => assert Next(s, t, Go(s.(writer := Some(t)), t, FindDraining(n)));
      case ReleaseStart(n) => assert Next(s, t, Go(s.(writer := Some(t)), t, ReleaseDraining(n)));
    }
  }

  // ----- Every call ends -----

  /** An upper bound on the actions left before the thread is idle again. */
  function Rank(pc: Pc): nat {
    match pc
    case Idle => 0
    case Using(_, _) => 1
    case FindHitLocked(_, _) => 2
    case FindHit(_, _) => 3
    case FindDone(_, _) => 2
    case FindFailed(_) => 1
    case FindHitWriting(_, _) => 3
    case FindOpened(_, _) => 3
    case FindOpening(_) => 4
    case FindWriting(_) => 5
    case FindDraining(_) => 6
    case FindAgain(_) => 7
    case FindMiss(_) => 8
    case FindReading(_) => 9
    case FindStart(_) => 10
    case ReleaseDone(_) => 1
    case ReleaseClosed(_, _) => 2
    case ReleaseDeleted(_, _) => 3
    case ReleaseLocked(_, _) => 4
    case ReleaseHit(_, _) => 5
    case ReleaseWriting(_) => 6
    case ReleaseDraining(_) => 7
    case ReleaseStart(_) => 8
  }

  ghost function Work(ts: set<Thread>, s: State): nat {
    if ts == {} then 0 else
      NonEmpty(ts);
      var t :| t in ts;
      Rank(At(s, t)) + Work(ts - {t}, s)
  }

  lemma {:induction false} WorkSplits(ts: set<Thread>, s: State, t: Thread)
    requires t in ts
    ensures Work(ts, s) == Rank(At(s, t)) + Work(ts - {t}, s)
  {
    var u :| u in ts && Work(ts, s) == Rank(At(s, u)) + Work(ts - {u}, s);
    if u != t {
      WorkSplits(ts - {u}, s, t);
      WorkSplits(ts - {t}, s, u);
      assert ts - {u} - {t} == ts - {t} - {u};
    }
  }

  lemma {:induction false} WorkOfOthers(ts: set<Thread>, s: State, s': State)
    requires forall t :: t in ts ==> At(s, t) == At(s', t)
    ensures Work(ts, s) == Work(ts, s')
  {
    if ts != {} {
      NonEmpty(ts);
      var t :| t in ts;
      WorkSplits(ts, s, t);
      WorkSplits(ts, s', t);
      WorkOfOthers(ts - {t}, s, s');
    }
  }

  /** Only the place of the acting thread changes. */
  lemma {:induction false} OthersStay(s: State, t: Thread, s': State)
    requires Next(s, t, s')
    ensures s'.pcs == s.pcs[t := At(s', t)]
  {
    if IsRelease(At(s, t)) {
      OthersStayInRelease(s, t, s');
    }
  }

  lemma {:induction false} OthersStayInRelease(s: State, t: Thread, s': State)
    requires Next(s, t, s') && IsRelease(At(s, t))
    ensures s'.pcs == s.pcs[t := At(s', t)]
  {
  }

  lemma {:induction false} RankFalls(s: State, t: Thread, s': State)
    requires Next(s, t, s') && At(s, t) != Idle
    ensures Rank(At(s', t)) < Rank(At(s, t))
  {
  }

  lemma {:induction false} WorkFalls(s: State, t: Thread, s': State)
    requires Next(s, t, s') && At(s, t) != Idle
    ensures Work(s'.pcs.Keys, s') < Work(s.pcs.Keys, s)
  {
    hide Next, Rank;
    RankFalls(s, t, s');
    OthersStay(s, t, s');
    var ts := s.pcs.Keys;
    assert s'.pcs.Keys == ts;
    WorkSplits(ts, s, t);
    WorkSplits(ts, s', t);
    WorkOfOthers(ts - {t}, s, s');
  }

  /** Every run in which no thread starts a new call is at most as long as the work left. */
  lemma {:induction false} CallsEnd(states: seq<State>, threads: seq<Thread>)
    requires Run(states, threads)
    requires forall i :: 0 <= i < |threads| ==> At(states[i], threads[i]) != Idle
    ensures |threads| <= Work(states[0].pcs.Keys, states[0])
  {
    hide Next, Rank;
    if threads == [] {
    } else {
      var s, t, s' := states[0], threads[0], states[1];
      assert Next(states[0], threads[0], states[0 + 1]);
      WorkFalls(s, t, s');
      RunTail(states, threads);
      CallsEnd(states[1..], threads[1..]);
    }
  }

  lemma {:induction false} RunTail(states: seq<State>, threads: seq<Thread>)
    requires Run(states, threads) && threads != []
    ensures Run(states[1..], threads[1..])
  {
    hide Next;
    forall i | 0 <= i < |threads[1..]| ensures Next(states[1..][i], threads[1..][i], states[1..][i + 1]) {
      assert Next(states[i + 1], threads[i + 1], states[i + 1 + 1]);
    }
  }

  ghost predicate AllIdle(s: State) {
    forall t :: At(s, t) == Idle
  }

  /** From every reachable state all calls can be completed: if no thread starts a new one,
      a run cannot stop before every thread is idle. */
  lemma {:induction false} CallsComplete(s: State) returns (states: seq<State>, threads: seq<Thread>)
    requires Inv(s)
    ensures Run(states, threads) && states[0] == s
    ensures AllIdle(states[|states| - 1])
    decreases Work(s.pcs.Keys, s)
  {
    hide Next, Rank, Inv;
    if t :| At(s, t) != Idle {
      var u := NoDeadlock(s, t);
      var s' :| Next(s, u, s');
      NextKeeps(s, u, s');
      WorkFalls(s, u, s');
      states, threads := CallsComplete(s');
      ConsRun(s, u, states, threads);
      states, threads := [s] + states, [u] + threads;
    } else {
      states, threads := [s], [];
    }
  }

  lemma {:induction false} ConsRun(s: State, t: Thread, states: seq<State>, threads: seq<Thread>)
    requires Run(states, threads) && Next(s, t, states[0])
    ensures Run([s] + states, [t] + threads)
  {
    hide Next;
    var states', threads' := [s] + states, [t] + threads;
    forall i | 0 <= i < |threads'| ensures Next(states'[i], threads'[i], states'[i + 1]) {
      assert i > 0 ==> Next(states[i - 1], threads[i - 1], states[i - 1 + 1]);
    }
  }
}
