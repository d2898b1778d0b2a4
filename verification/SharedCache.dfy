/**
 * The file cache under concurrency: any number of downloads, lockers, open files and sweeps, each
 * critical section one step, file removals after the mutex as steps of their own.
 */
module SharedCache {
  import opened Downloader

  type Id = nat

  /** Where one download stands. `evicted` is history: its key was swept after the path was chosen. */
  datatype Phase =
    | Fetching(key: Key)
    | Written(key: Key, name: Name)
    | Ready(key: Key, path: Name, evicted: bool)
    | Holding(key: Key, path: Name, evicted: bool)
    | Done

  /** `hits` and `leaks` are history: cache hits, and opens whose file could not be opened. */
  datatype State = State(
    cache: Cache,
    disk: set<Name>,
    doomed: set<Name>,
    calls: map<Id, Phase>,
    handles: map<Id, Key>,
    hits: map<Key, nat>,
    leaks: map<Key, nat>)

  datatype Step =
    | LookUp(id: Id, key: Key, now: int)
    | GiveUp(id: Id)
    | Write(id: Id)
    | Install(id: Id, now: int)
    | Lock(id: Id)
    | Unlock(id: Id)
    | Open(id: Id, key: Key, ok: bool)
    | Close(id: Id)
    | Sweep(now: int, expire: int)
    | Remove(name: Name)

  const START := State(EMPTY_CACHE, {}, {}, map[], map[], map[], map[])

  function Count(m: map<Key, nat>, k: Key): nat {
    if k in m then m[k] else 0
  }

  /** An id names one download, or one open; a file handle is closed once. */
  predicate Enabled(s: State, step: Step) {
    match step
    case LookUp(id, _, _) => id !in s.calls
    case GiveUp(id) => id in s.calls && (s.calls[id].Fetching? || s.calls[id].Written?)
    case Write(id) => id in s.calls && s.calls[id].Fetching?
    case Install(id, _) => id in s.calls && s.calls[id].Written?
    case Lock(id) => id in s.calls && s.calls[id].Ready?
    case Unlock(id) => id in s.calls && s.calls[id].Holding?
    case Open(id, _, _) => id !in s.handles
    case Close(id) => id in s.handles
    case Sweep(_, _) => true
    case Remove(name) => name in s.doomed
  }

  function AfterSweep(p: Phase, expired: set<Key>): Phase {
    match p
    case Ready(k, path, evicted) => Ready(k, path, evicted || k in expired)
    case _ => p
  }

  /** What indexing the map gives, the empty name when the key is missing. */
  function FileOf(c: Cache, k: Key): Name {
    if k in c.file then c.file[k] else ""
  }

  function Next(s: State, step: Step): State
    requires Enabled(s, step)
  {
    var c := s.cache;
    match step
    case LookUp(id, k, now) =>
      if k in c.counter then
        s.(cache := Hit(c, k, now), calls := s.calls[id := Ready(k, FileOf(c, k), false)],
          hits := s.hits[k := Count(s.hits, k) + 1])
      else s.(calls := s.calls[id := Fetching(k)])
    case GiveUp(id) => s.(calls := s.calls[id := Done])
    case Write(id) =>
      var name := FileName(c.made + 1);
      s.(cache := c.(made := c.made + 1), disk := s.disk + {name},
         calls := s.calls[id := Written(s.calls[id].key, name)])
    case Install(id, now) =>
      var Written(k, name) := s.calls[id];
      if k in c.counter then s.(disk := s.disk - {name}, calls := s.calls[id := Ready(k, FileOf(c, k), false)])
      else s.(cache := Installed(c, k, name, now), calls := s.calls[id := Ready(k, name, false)])
    case Lock(id) =>
      var Ready(k, path, evicted) := s.calls[id];
      if k in c.counter then s.(cache := Pinned(c, k, 1), calls := s.calls[id := Holding(k, path, evicted)])
      else s.(calls := s.calls[id := Done])
    case Unlock(id) => s.(cache := Pinned(c, s.calls[id].key, -1), calls := s.calls[id := Done])
    case Open(id, k, ok) =>
      if k !in c.file then s
      else if ok then s.(cache := Pinned(c, k, 1), handles := s.handles[id := k])
      else s.(cache := Pinned(c, k, 1), leaks := s.leaks[k := Count(s.leaks, k) + 1])
    case Close(id) => s.(cache := Pinned(c, s.handles[id], -1), handles := s.handles - {id})
    case Sweep(now, expire) =>
      var expired := Expired(c, now, expire);
      s.(cache := Without(c, expired),
         doomed := s.doomed + (set k | k in expired && k in c.file :: c.file[k]),
         calls := map id | id in s.calls :: AfterSweep(s.calls[id], expired))
    case Remove(name) => s.(disk := s.disk - {name}, doomed := s.doomed - {name})
  }

  // ---------------------------------------------------------------- pin accounting

  function Lockers(s: State, k: Key): set<Id> {
    set id | id in s.calls && s.calls[id].Holding? && s.calls[id].key == k
  }

  function OpenFiles(s: State, k: Key): set<Id> {
    set id | id in s.handles && s.handles[id] == k
  }

  /** Live lockers, open files, and the two kinds of pins nobody gives back. */
  function Pins(s: State, k: Key): nat {
    |Lockers(s, k)| + |OpenFiles(s, k)| + Count(s.hits, k) + Count(s.leaks, k)
  }

  function CounterOf(s: State, k: Key): int {
    if k in s.cache.counter then s.cache.counter[k] else 0
  }

  /** The counter of every key is exactly its pins; a key that is not cached has none. */
  ghost predicate Accounted(s: State) {
    SameKeys(s.cache) && forall k :: CounterOf(s, k) == Pins(s, k)
  }

  function Locks(calls: map<Id, Phase>, id: Id, k: Key): int {
    if id in calls && calls[id].Holding? && calls[id].key == k then 1 else 0
  }

  function Opens(handles: map<Id, Key>, id: Id, k: Key): int {
    if id in handles && handles[id] == k then 1 else 0
  }

  /** When one call moves on, the pins of a key change by what that call held and holds, and by new hits. */
  lemma PinsOfCall(s: State, s': State, id: Id, k: Key)
    requires id in s'.calls && s'.calls == s.calls[id := s'.calls[id]]
    requires s'.handles == s.handles && s'.leaks == s.leaks
    ensures Pins(s', k) ==
      Pins(s, k) + Locks(s'.calls, id, k) - Locks(s.calls, id, k) + Count(s'.hits, k) - Count(s.hits, k)
  {
    hide Lockers, OpenFiles, Count, Locks;
    SameOpenFiles(s, s', k);
    LockersOfCall(s, s', id, k);
  }

  lemma SameOpenFiles(s: State, s': State, k: Key)
    requires s'.handles == s.handles
    ensures OpenFiles(s', k) == OpenFiles(s, k)
  {
  }

  lemma SameLockers(s: State, s': State, k: Key)
    requires s'.calls == s.calls
    ensures Lockers(s', k) == Lockers(s, k)
  {
  }

  lemma LockersOfCall(s: State, s': State, id: Id, k: Key)
    requires id in s'.calls && s'.calls == s.calls[id := s'.calls[id]]
    ensures |Lockers(s', k)| == |Lockers(s, k)| + Locks(s'.calls, id, k) - Locks(s.calls, id, k)
  {
    var rest := Lockers(s, k) - {id};
    assert Lockers(s, k) == if Locks(s.calls, id, k) == 1 then rest + {id} else rest;
    assert Lockers(s', k) == if Locks(s'.calls, id, k) == 1 then rest + {id} else rest;
  }

  lemma PinsOfOpen(s: State, s': State, id: Id, k: Key)
    requires id !in s.handles && id in s'.handles && s'.handles == s.handles[id := s'.handles[id]]
    requires s'.calls == s.calls && s'.hits == s.hits && s'.leaks == s.leaks
    ensures Pins(s', k) == Pins(s, k) + Opens(s'.handles, id, k)
  {
    hide Lockers, Count;
    SameLockers(s, s', k);
    assert OpenFiles(s', k) == if Opens(s'.handles, id, k) == 1 then OpenFiles(s, k) + {id} else OpenFiles(s, k);
  }

  lemma PinsOfClose(s: State, s': State, id: Id, k: Key)
    requires id in s.handles && s'.handles == s.handles - {id}
    requires s'.calls == s.calls && s'.hits == s.hits && s'.leaks == s.leaks
    ensures Pins(s', k) == Pins(s, k) - Opens(s.handles, id, k)
  {
    hide Lockers, Count;
    SameLockers(s, s', k);
    assert OpenFiles(s', k) == OpenFiles(s, k) - {id};
    assert id in OpenFiles(s, k) <==> Opens(s.handles, id, k) == 1;
  }

  lemma PinsOfLeak(s: State, s': State, k: Key)
    requires s'.handles == s.handles && s'.calls == s.calls && s'.hits == s.hits
    ensures Pins(s', k) == Pins(s, k) + Count(s'.leaks, k) - Count(s.leaks, k)
  {
    SameLockers(s, s', k);
    SameOpenFiles(s, s', k);
  }

  lemma LookUpAccounted(s: State, step: Step)
    requires Accounted(s) && Enabled(s, step) && step.LookUp?
    ensures Accounted(Next(s, step))
  {
    hide Pins;
    var s' := Next(s, step);
    forall k ensures CounterOf(s', k) == Pins(s', k) {
      assert CounterOf(s, k) == Pins(s, k);
      PinsOfCall(s, s', step.id, k);
    }
  }

  lemma InstallAccounted(s: State, step: Step)
    requires Accounted(s) && Enabled(s, step) && (step.GiveUp? || step.Write? || step.Install?)
    ensures Accounted(Next(s, step))
  {
    hide Pins;
    var s' := Next(s, step);
    forall k ensures CounterOf(s', k) == Pins(s', k) {
      assert CounterOf(s, k) == Pins(s, k);
      PinsOfCall(s, s', step.id, k);
    }
  }

  lemma LockAccounted(s: State, step: Step)
    requires Accounted(s) && Enabled(s, step) && (step.Lock? || step.Unlock?)
    ensures Accounted(Next(s, step))
  {
    hide Pins;
    var s' := Next(s, step);
    if step.Unlock? {
      HeldIsCached(s, step.id);
    }
    forall k ensures CounterOf(s', k) == Pins(s', k) {
      assert CounterOf(s, k) == Pins(s, k);
      PinsOfCall(s, s', step.id, k);
    }
  }

  /** A live locker keeps its key in the cache, with a positive counter. */
  lemma HeldIsCached(s: State, id: Id)
    requires Accounted(s) && id in s.calls && s.calls[id].Holding?
    ensures s.calls[id].key in s.cache.counter && s.cache.counter[s.calls[id].key] >= 1
  {
    var k := s.calls[id].key;
    assert CounterOf(s, k) == Pins(s, k);
    assert id in Lockers(s, k);
  }

  /** So does an open file. */
  lemma OpenIsCached(s: State, id: Id)
    requires Accounted(s) && id in s.handles
    ensures s.handles[id] in s.cache.counter && s.cache.counter[s.handles[id]] >= 1
  {
    var k := s.handles[id];
    assert CounterOf(s, k) == Pins(s, k);
    assert id in OpenFiles(s, k);
  }

  lemma OpenAccounted(s: State, step: Step)
    requires Accounted(s) && Enabled(s, step) && step.Open?
    ensures Accounted(Next(s, step))
  {
    hide Pins;
    var s' := Next(s, step);
    forall k ensures CounterOf(s', k) == Pins(s', k) {
      assert CounterOf(s, k) == Pins(s, k);
      if step.key in s.cache.file && step.ok {
        PinsOfOpen(s, s', step.id, k);
      } else {
        PinsOfLeak(s, s', k);
      }
    }
  }

  lemma CloseAccounted(s: State, step: Step)
    requires Accounted(s) && Enabled(s, step) && step.Close?
    ensures Accounted(Next(s, step))
  {
    hide Pins;
    var s' := Next(s, step);
    OpenIsCached(s, step.id);
    forall k ensures CounterOf(s', k) == Pins(s', k) {
      assert CounterOf(s, k) == Pins(s, k);
      PinsOfClose(s, s', step.id, k);
    }
  }

  lemma SweepStepAccounted(s: State, step: Step)
    requires Accounted(s) && Enabled(s, step) && (step.Sweep? || step.Remove?)
    ensures Accounted(Next(s, step))
  {
    var s' := Next(s, step);
    forall k ensures CounterOf(s', k) == Pins(s', k) {
      assert CounterOf(s, k) == Pins(s, k);
      assert Lockers(s', k) == Lockers(s, k);
      assert OpenFiles(s', k) == OpenFiles(s, k);
    }
  }

  lemma StepAccounted(s: State, step: Step)
    requires Accounted(s) && Enabled(s, step)
    ensures Accounted(Next(s, step))
  {
    if step.Open? {
      OpenAccounted(s, step);
    } else if step.Close? {
      CloseAccounted(s, step);
    } else if step.Sweep? || step.Remove? {
      SweepStepAccounted(s, step);
    } else if step.Lock? || step.Unlock? {
      LockAccounted(s, step);
    } else if step.LookUp? {
      LookUpAccounted(s, step);
    } else {
      InstallAccounted(s, step);
    }
  }

  // ---------------------------------------------------------------- files

  ghost predicate Made(c: Cache, n: Name) {
    exists i :: 1 <= i <= c.made && n == FileName(i)
  }

  ghost predicate Mapped(c: Cache, n: Name) {
    exists k :: k in c.file && c.file[k] == n
  }

  ghost predicate Unmapped(s: State, id: Id, n: Name) {
    id in s.calls && s.calls[id].Written? && s.calls[id].name == n
  }

  /** Mapped files exist, are not about to be removed, and belong to one key. */
  ghost predicate FilesRight(s: State) {
    && (forall k :: k in s.cache.file ==>
      Made(s.cache, s.cache.file[k]) && s.cache.file[k] in s.disk && s.cache.file[k] !in s.doomed)
    && (forall k, k' :: k in s.cache.file && k' in s.cache.file && k != k' ==> s.cache.file[k] != s.cache.file[k'])
    && (forall n :: n in s.doomed ==> Made(s.cache, n))
  }

  /** A file being downloaded belongs to its call alone. */
  ghost predicate WrittenRight(s: State) {
    && (forall id, n :: Unmapped(s, id, n) ==> Made(s.cache, n) && n in s.disk && n !in s.doomed && !Mapped(s.cache, n))
    && (forall id, id', n :: Unmapped(s, id, n) && Unmapped(s, id', n) ==> id == id')
  }

  /** A chosen path is the key's file until its key is swept, and no key's file ever after. */
  ghost predicate PathRight(s: State, k: Key, path: Name, evicted: bool) {
    && Made(s.cache, path) && (forall id :: !Unmapped(s, id, path))
    && (if evicted then !Mapped(s.cache, path) else k in s.cache.file && s.cache.file[k] == path)
  }

  ghost predicate PathsRight(s: State) {
    forall id :: id in s.calls ==> PhaseRight(s, s.calls[id])
  }

  ghost predicate Safe(s: State) {
    SameKeys(s.cache) && FilesRight(s) && WrittenRight(s) && PathsRight(s)
  }

  lemma StartSafe()
    ensures Accounted(START) && Safe(START)
  {
  }

  /** Steps that neither map, write nor remove a file. */
  ghost predicate KeepsFiles(s: State, s': State) {
    && s'.cache.file == s.cache.file && s'.cache.made == s.cache.made
    && s'.disk == s.disk && s'.doomed == s.doomed
    && forall id, n :: Unmapped(s', id, n) ==> Unmapped(s, id, n)
  }

  lemma KeptRight(s: State, s': State)
    requires FilesRight(s) && WrittenRight(s) && KeepsFiles(s, s')
    ensures FilesRight(s') && WrittenRight(s')
    ensures forall k, path, e :: PathRight(s, k, path, e) ==> PathRight(s', k, path, e)
  {
    assert forall n :: Mapped(s'.cache, n) <==> Mapped(s.cache, n);
    assert forall n :: Made(s'.cache, n) <==> Made(s.cache, n);
  }

  lemma MappedRight(s: State, k: Key)
    requires FilesRight(s) && WrittenRight(s) && k in s.cache.file
    ensures PathRight(s, k, s.cache.file[k], false)
  {
    assert Mapped(s.cache, s.cache.file[k]);
  }

  /** Phases that come with a path. */
  ghost predicate PhaseRight(s: State, p: Phase) {
    match p
    case Ready(k, path, evicted) => PathRight(s, k, path, evicted)
    case Holding(k, path, evicted) => PathRight(s, k, path, evicted)
    case _ => true
  }

  lemma CallStepKeeps(s: State, step: Step)
    requires SameKeys(s.cache) && Enabled(s, step) && (step.LookUp? || step.GiveUp?)
    ensures KeepsFiles(s, Next(s, step)) && SameKeys(Next(s, step).cache)
  {
  }

  lemma LockStepKeeps(s: State, step: Step)
    requires SameKeys(s.cache) && Enabled(s, step) && (step.Lock? || step.Unlock?)
    ensures KeepsFiles(s, Next(s, step)) && SameKeys(Next(s, step).cache)
  {
  }

  lemma OpenStepKeeps(s: State, step: Step)
    requires SameKeys(s.cache) && Enabled(s, step) && step.Open?
    ensures KeepsFiles(s, Next(s, step)) && SameKeys(Next(s, step).cache) && Next(s, step).calls == s.calls
  {
  }

  lemma CloseStepKeeps(s: State, step: Step)
    requires SameKeys(s.cache) && Enabled(s, step) && step.Close?
    ensures KeepsFiles(s, Next(s, step)) && SameKeys(Next(s, step).cache) && Next(s, step).calls == s.calls
  {
  }

  lemma OtherPathsKept(s: State, s': State, id: Id)
    requires PathsRight(s)
    requires forall k, path, e :: PathRight(s, k, path, e) ==> PathRight(s', k, path, e)
    requires forall i :: i in s'.calls && i != id ==> i in s.calls && s'.calls[i] == s.calls[i]
    requires id in s'.calls ==> PhaseRight(s', s'.calls[id])
    ensures PathsRight(s')
  {
    forall i | i in s'.calls ensures PhaseRight(s', s'.calls[i]) {
      if i != id {
        assert PhaseRight(s, s.calls[i]);
      }
    }
  }

  lemma AllPathsKept(s: State, s': State)
    requires PathsRight(s) && s'.calls == s.calls
    requires forall k, path, e :: PathRight(s, k, path, e) ==> PathRight(s', k, path, e)
    ensures PathsRight(s')
  {
    forall i | i in s'.calls ensures PhaseRight(s', s'.calls[i]) {
      assert PhaseRight(s, s.calls[i]);
    }
  }

  lemma CallKept(s: State, s': State, id: Id)
    requires Safe(s) && KeepsFiles(s, s') && SameKeys(s'.cache)
    requires forall i :: i in s'.calls && i != id ==> i in s.calls && s'.calls[i] == s.calls[i]
    requires id in s'.calls ==> PhaseRight(s, s'.calls[id])
    ensures Safe(s')
  {
    KeptRight(s, s');
    OtherPathsKept(s, s', id);
  }

  lemma CallStepSafe(s: State, step: Step)
    requires Safe(s) && Enabled(s, step) && (step.LookUp? || step.GiveUp?)
    ensures Safe(Next(s, step))
  {
    hide Enabled, Next, PhaseRight, KeepsFiles, FilesRight, WrittenRight, PathsRight;
    CallStepKeeps(s, step);
    CallStepPhase(s, step);
    CallKept(s, Next(s, step), step.id);
  }

  lemma CallStepPhase(s: State, step: Step)
    requires Safe(s) && Enabled(s, step) && (step.LookUp? || step.GiveUp?)
    ensures var s' := Next(s, step);
      step.id in s'.calls && s'.calls == s.calls[step.id := s'.calls[step.id]] && PhaseRight(s, s'.calls[step.id])
  {
    hide FilesRight, WrittenRight, PathsRight, PathRight;
    if step.LookUp? && step.key in s.cache.file.Keys {
      MappedRight(s, step.key);
    }
  }

  lemma LockStepSafe(s: State, step: Step)
    requires Safe(s) && Enabled(s, step) && (step.Lock? || step.Unlock?)
    ensures Safe(Next(s, step))
  {
    LockStepKeeps(s, step);
    assert PhaseRight(s, s.calls[step.id]);
    CallKept(s, Next(s, step), step.id);
  }

  lemma SafeKept(s: State, s': State)
    requires Safe(s) && KeepsFiles(s, s') && SameKeys(s'.cache) && s'.calls == s.calls
    ensures Safe(s')
  {
    KeptRight(s, s');
    AllPathsKept(s, s');
  }

  lemma OpenStepSafe(s: State, step: Step)
    requires Safe(s) && Enabled(s, step) && (step.Open? || step.Close?)
    ensures Safe(Next(s, step))
  {
    if step.Open? {
      OpenStepKeeps(s, step);
    } else {
      CloseStepKeeps(s, step);
    }
    SafeKept(s, Next(s, step));
  }

  lemma NewNameUnseen(c: Cache)
    ensures !Made(c, FileName(c.made + 1))
    ensures forall n :: Made(c, n) ==> Made(c.(made := c.made + 1), n)
    ensures Made(c.(made := c.made + 1), FileName(c.made + 1))
  {
    forall i | 1 <= i <= c.made ensures FileName(i) != FileName(c.made + 1) {
      if FileName(i) == FileName(c.made + 1) {
        FileNameInjective(i, c.made + 1);
      }
    }
  }

  /** A new file is written under a name nobody has used. */
  ghost predicate Writes(s: State, s': State, id: Id, k: Key, name: Name) {
    && s'.cache == s.cache.(made := s.cache.made + 1) && name == FileName(s.cache.made + 1)
    && s'.disk == s.disk + {name} && s'.doomed == s.doomed && s'.calls == s.calls[id := Written(k, name)]
  }

  lemma WroteFiles(s: State, s': State, id: Id, k: Key, name: Name)
    requires FilesRight(s) && WrittenRight(s) && Writes(s, s', id, k, name)
    ensures FilesRight(s') && WrittenRight(s')
    ensures forall k, path, e :: PathRight(s, k, path, e) ==> PathRight(s', k, path, e)
  {
    NewNameUnseen(s.cache);
    assert forall n :: Mapped(s'.cache, n) <==> Mapped(s.cache, n);
    assert forall i, n :: Unmapped(s', i, n) ==> (i != id && Unmapped(s, i, n)) || (i == id && n == name);
    assert !Mapped(s.cache, name);
  }

  lemma WriteSafe(s: State, step: Step)
    requires Safe(s) && Enabled(s, step) && step.Write?
    ensures Safe(Next(s, step))
  {
    var s', name := Next(s, step), FileName(s.cache.made + 1);
    WroteFiles(s, s', step.id, s.calls[step.id].key, name);
    OtherPathsKept(s, s', step.id);
  }

  /** A written file becomes the file of its key. */
  ghost predicate Maps(s: State, s': State, id: Id, k: Key, name: Name) {
    && k !in s.cache.file && Unmapped(s, id, name)
    && s'.cache.file == s.cache.file[k := name] && s'.cache.made == s.cache.made
    && s'.disk == s.disk && s'.doomed == s.doomed && s'.calls == s.calls[id := Ready(k, name, false)]
  }

  lemma NowMapped(s: State, s': State, id: Id, k: Key, name: Name)
    requires Maps(s, s', id, k, name)
    ensures forall n :: Mapped(s'.cache, n) <==> Mapped(s.cache, n) || n == name
  {
    assert s'.cache.file[k] == name;
    forall n | Mapped(s.cache, n) ensures Mapped(s'.cache, n) {
      var q :| q in s.cache.file && s.cache.file[q] == n;
      assert s'.cache.file[q] == n;
    }
  }

  lemma InstalledFiles(s: State, s': State, id: Id, k: Key, name: Name)
    requires FilesRight(s) && WrittenRight(s) && Maps(s, s', id, k, name)
    ensures FilesRight(s') && WrittenRight(s')
  {
    NowMapped(s, s', id, k, name);
    OthersWritten(s, s', id, k, name, Ready(k, name, false));
    assert forall n :: Made(s'.cache, n) <==> Made(s.cache, n);
    assert forall q :: q in s.cache.file ==> Mapped(s.cache, s.cache.file[q]);
  }

  lemma InstalledPaths(s: State, s': State, id: Id, k: Key, name: Name)
    requires WrittenRight(s) && Maps(s, s', id, k, name)
    ensures PathRight(s', k, name, false)
    ensures forall k, path, e :: PathRight(s, k, path, e) ==> PathRight(s', k, path, e)
  {
    NowMapped(s, s', id, k, name);
    OthersWritten(s, s', id, k, name, Ready(k, name, false));
    assert forall n :: Made(s'.cache, n) <==> Made(s.cache, n);
  }

  /** Once a call no longer holds its written file, nobody does. */
  lemma OthersWritten(s: State, s': State, id: Id, k: Key, name: Name, p: Phase)
    requires WrittenRight(s) && Unmapped(s, id, name) && s'.calls == s.calls[id := p] && !p.Written?
    ensures forall i, n :: Unmapped(s', i, n) ==> Unmapped(s, i, n) && n != name
  {
    forall i, n | Unmapped(s', i, n) ensures Unmapped(s, i, n) && n != name {
      assert i != id && Unmapped(s, i, n);
    }
  }

  lemma InstallSafe(s: State, step: Step)
    requires Safe(s) && Enabled(s, step) && step.Install? && s.calls[step.id].key !in s.cache.counter
    ensures Safe(Next(s, step))
  {
    var s', k, name := Next(s, step), s.calls[step.id].key, s.calls[step.id].name;
    assert k !in s.cache.file.Keys;
    InstalledFiles(s, s', step.id, k, name);
    InstalledPaths(s, s', step.id, k, name);
    OtherPathsKept(s, s', step.id);
  }

  /** The losing racer removes its own file, which nobody has mapped. */
  lemma DroppedFiles(s: State, s': State, id: Id, k: Key, name: Name, p: Phase)
    requires Safe(s) && Unmapped(s, id, name) && !p.Written?
    requires s'.cache == s.cache
    requires s'.disk == s.disk - {name} && s'.doomed == s.doomed && s'.calls == s.calls[id := p]
    ensures FilesRight(s') && WrittenRight(s')
    ensures forall k, path, e :: PathRight(s, k, path, e) ==> PathRight(s', k, path, e)
  {
    hide Made;
    OthersWritten(s, s', id, k, name, p);
    assert forall n :: Made(s'.cache, n) <==> Made(s.cache, n);
    assert forall q :: q in s.cache.file ==> Mapped(s.cache, s.cache.file[q]);
  }

  lemma LostRaceSafe(s: State, step: Step)
    requires Safe(s) && Enabled(s, step) && step.Install? && s.calls[step.id].key in s.cache.counter
    ensures Safe(Next(s, step))
  {
    var s', k, name := Next(s, step), s.calls[step.id].key, s.calls[step.id].name;
    assert k in s.cache.file.Keys;
    DroppedFiles(s, s', step.id, k, name, s'.calls[step.id]);
    MappedRight(s, k);
    OtherPathsKept(s, s', step.id);
  }

  lemma RemoveSafe(s: State, step: Step)
    requires Safe(s) && Enabled(s, step) && step.Remove?
    ensures Safe(Next(s, step))
  {
    var s' := Next(s, step);
    assert forall id, n :: Unmapped(s', id, n) <==> Unmapped(s, id, n);
    assert forall k, path, e :: PathRight(s, k, path, e) ==> PathRight(s', k, path, e);
    AllPathsKept(s, s');
  }

  // ---------------------------------------------------------------- the sweep

  ghost predicate Sweeps(s: State, s': State, expired: set<Key>) {
    && s'.cache == Without(s.cache, expired) && s'.disk == s.disk
    && s'.doomed == s.doomed + (set k | k in expired && k in s.cache.file :: s.cache.file[k])
    && s'.calls == map id | id in s.calls :: AfterSweep(s.calls[id], expired)
  }

  lemma SweptFiles(s: State, s': State, expired: set<Key>)
    requires FilesRight(s) && WrittenRight(s) && Sweeps(s, s', expired)
    ensures FilesRight(s') && WrittenRight(s')
  {
    assert forall n :: Made(s'.cache, n) <==> Made(s.cache, n);
    assert forall k :: k in s'.cache.file ==> k in s.cache.file && k !in expired && s'.cache.file[k] == s.cache.file[k];
    assert forall k :: k in s.cache.file ==> Mapped(s.cache, s.cache.file[k]);
    assert forall n :: Mapped(s'.cache, n) ==> Mapped(s.cache, n);
    assert forall id, n :: Unmapped(s', id, n) ==> Unmapped(s, id, n);
  }

  /** A path survives the sweep of other keys; when its own key goes, no key maps it any more. */
  lemma SweptPath(s: State, s': State, expired: set<Key>, k: Key, path: Name, evicted: bool)
    requires FilesRight(s) && Sweeps(s, s', expired) && PathRight(s, k, path, evicted)
    ensures PathRight(s', k, path, evicted || k in expired)
  {
    assert Made(s'.cache, path);
    assert forall q :: q in s'.cache.file ==> q in s.cache.file && q !in expired && s'.cache.file[q] == s.cache.file[q];
    assert forall id :: Unmapped(s', id, path) ==> Unmapped(s, id, path);
    assert Mapped(s'.cache, path) ==> Mapped(s.cache, path);
  }

  lemma SweepSafe(s: State, step: Step)
    requires Accounted(s) && Safe(s) && Enabled(s, step) && step.Sweep?
    ensures Safe(Next(s, step))
  {
    var s', expired := Next(s, step), Expired(s.cache, step.now, step.expire);
    SweptFiles(s, s', expired);
    forall id | id in s'.calls ensures PhaseRight(s', s'.calls[id]) {
      assert PhaseRight(s, s.calls[id]);
      match s.calls[id]
      case Ready(k, path, evicted) => SweptPath(s, s', expired, k, path, evicted);
      case Holding(k, path, evicted) =>
        HeldIsCached(s, id);
        SweptPath(s, s', expired, k, path, evicted);
      case _ =>
    }
  }

  lemma StepSafe(s: State, step: Step)
    requires Accounted(s) && Safe(s) && Enabled(s, step)
    ensures Safe(Next(s, step))
  {
    match step
    case LookUp(_, _, _) => CallStepSafe(s, step);
    case GiveUp(_) => CallStepSafe(s, step);
    case Write(_) => WriteSafe(s, step);
    case Install(id, _) =>
      if s.calls[id].key in s.cache.counter {
        LostRaceSafe(s, step);
      } else {
        InstallSafe(s, step);
      }
    case Lock(_) => LockStepSafe(s, step);
    case Unlock(_) => LockStepSafe(s, step);
    case Open(_, _, _) => OpenStepSafe(s, step);
    case Close(_) => OpenStepSafe(s, step);
    case Sweep(_, _) => SweepSafe(s, step);
    case Remove(_) => RemoveSafe(s, step);
  }

  // ---------------------------------------------------------------- what is on disk

  ghost predicate Writing(s: State, n: Name) {
    exists id :: Unmapped(s, id, n)
  }

  /**
   * The files on disk are those mapped, those to be removed, those being written, and those in `left`, which nobody
   * knows any more.
   */
  ghost predicate Conserved(s: State, left: set<Name>) {
    && (forall n :: n in s.disk <==> Mapped(s.cache, n) || n in s.doomed || Writing(s, n) || n in left)
    && (forall n :: n in left ==> Made(s.cache, n) && !Mapped(s.cache, n) && n !in s.doomed && !Writing(s, n))
  }

  /** The file of a download that fails after it was created. */
  function Abandons(s: State, step: Step): set<Name>
    requires Enabled(s, step)
  {
    if step.GiveUp? && s.calls[step.id].Written? then {s.calls[step.id].name} else {}
  }

  lemma SameConserved(s: State, s': State, left: set<Name>)
    requires Conserved(s, left)
    requires s'.cache.file == s.cache.file && s'.cache.made == s.cache.made && s'.disk == s.disk
    requires s'.doomed == s.doomed && forall id, n :: Unmapped(s', id, n) <==> Unmapped(s, id, n)
    ensures Conserved(s', left)
  {
    assert forall n :: Mapped(s'.cache, n) <==> Mapped(s.cache, n);
    assert forall n :: Made(s'.cache, n) <==> Made(s.cache, n);
    assert forall n :: Writing(s', n) <==> Writing(s, n);
  }

  /** A call no longer writes its file. */
  lemma NoLongerWriting(s: State, s': State, id: Id, name: Name, p: Phase)
    requires WrittenRight(s) && Unmapped(s, id, name) && s'.calls == s.calls[id := p] && !p.Written?
    ensures forall n :: Writing(s', n) <==> Writing(s, n) && n != name
  {
    forall n ensures Writing(s', n) <==> Writing(s, n) && n != name {
      if i :| Unmapped(s', i, n) {
        assert i != id && Unmapped(s, i, n);
      }
      if i :| Unmapped(s, i, n) {
        assert n != name ==> i != id && Unmapped(s', i, n);
      }
    }
  }

  lemma GaveUpConserved(s: State, step: Step, left: set<Name>)
    requires Safe(s) && Conserved(s, left) && Enabled(s, step) && step.GiveUp? && s.calls[step.id].Written?
    ensures Conserved(Next(s, step), left + {s.calls[step.id].name})
  {
    var s', name := Next(s, step), s.calls[step.id].name;
    assert Unmapped(s, step.id, name);
    NoLongerWriting(s, s', step.id, name, Done);
    assert s'.cache == s.cache;
  }

  lemma WriteConserved(s: State, s': State, id: Id, k: Key, name: Name, left: set<Name>)
    requires Safe(s) && Conserved(s, left) && Writes(s, s', id, k, name) && !(id in s.calls && s.calls[id].Written?)
    ensures Conserved(s', left)
  {
    hide FilesRight, PathsRight, SameKeys;
    NewNameUnseen(s.cache);
    assert forall n :: Mapped(s'.cache, n) <==> Mapped(s.cache, n);
    assert Unmapped(s', id, name);
    forall n ensures Writing(s', n) <==> Writing(s, n) || n == name {
      if i :| Unmapped(s, i, n) {
        assert Unmapped(s', i, n);
      }
      if i :| Unmapped(s', i, n) && n != name {
        assert Unmapped(s, i, n);
      }
    }
    NewNameFree(s, left, name);
  }

  lemma NewNameFree(s: State, left: set<Name>, name: Name)
    requires FilesRight(s) && Conserved(s, left) && !Made(s.cache, name)
    ensures name !in left && name !in s.doomed && !Mapped(s.cache, name)
  {
  }

  lemma InstallConserved(s: State, s': State, id: Id, k: Key, name: Name, left: set<Name>)
    requires Safe(s) && Conserved(s, left) && Maps(s, s', id, k, name)
    ensures Conserved(s', left)
  {
    NowMapped(s, s', id, k, name);
    NoLongerWriting(s, s', id, name, Ready(k, name, false));
    assert forall n :: Made(s'.cache, n) <==> Made(s.cache, n);
  }

  lemma LostRaceConserved(s: State, step: Step, left: set<Name>)
    requires Safe(s) && Conserved(s, left) && Enabled(s, step) && step.Install? &&
      s.calls[step.id].key in s.cache.counter
    ensures Conserved(Next(s, step), left)
  {
    var s', name := Next(s, step), s.calls[step.id].name;
    assert Unmapped(s, step.id, name);
    NoLongerWriting(s, s', step.id, name, s'.calls[step.id]);
    assert s'.cache == s.cache;
  }

  lemma RemoveConserved(s: State, step: Step, left: set<Name>)
    requires Safe(s) && Conserved(s, left) && Enabled(s, step) && step.Remove?
    ensures Conserved(Next(s, step), left)
  {
    var s' := Next(s, step);
    assert forall id, n :: Unmapped(s', id, n) <==> Unmapped(s, id, n);
    assert forall n :: Writing(s', n) <==> Writing(s, n);
    assert s'.cache == s.cache;
    assert !Mapped(s.cache, step.name) && !Writing(s, step.name);
  }

  /** What a sweep no longer maps, it removes. */
  lemma SweepConserved(s: State, s': State, expired: set<Key>, left: set<Name>)
    requires Safe(s) && Conserved(s, left) && Sweeps(s, s', expired)
    ensures Conserved(s', left)
  {
    assert forall id, n :: Unmapped(s', id, n) <==> Unmapped(s, id, n);
    assert forall n :: Writing(s', n) <==> Writing(s, n);
    assert forall n :: Made(s'.cache, n) <==> Made(s.cache, n);
    forall n ensures Mapped(s'.cache, n) || n in s'.doomed <==> Mapped(s.cache, n) || n in s.doomed {
      if k :| k in s.cache.file && s.cache.file[k] == n {
        assert k !in expired ==> k in s'.cache.file && s'.cache.file[k] == n;
      }
      if k :| k in s'.cache.file && s'.cache.file[k] == n {
        assert k in s.cache.file && s.cache.file[k] == n;
      }
    }
  }

  lemma StepConserved(s: State, step: Step, left: set<Name>)
    requires Safe(s) && Conserved(s, left) && Enabled(s, step)
    ensures Conserved(Next(s, step), left + Abandons(s, step))
  {
    var s' := Next(s, step);
    assert left + {} == left;
    match step
    case GiveUp(id) =>
      if s.calls[id].Written? {
        GaveUpConserved(s, step, left);
      } else {
        SameConserved(s, s', left);
      }
    case Write(id) => WriteConserved(s, s', id, s.calls[id].key, FileName(s.cache.made + 1), left);
    case Install(id, _) =>
      if s.calls[id].key in s.cache.counter {
        LostRaceConserved(s, step, left);
      } else {
        assert s.calls[id].key !in s.cache.file.Keys;
        InstallConserved(s, s', id, s.calls[id].key, s.calls[id].name, left);
      }
    case Sweep(now, expire) => SweepConserved(s, s', Expired(s.cache, now, expire), left);
    case Remove(_) => RemoveConserved(s, step, left);
    case _ => OtherConserved(s, step, left);
  }

  lemma OtherConserved(s: State, step: Step, left: set<Name>)
    requires Safe(s) && Conserved(s, left) && Enabled(s, step)
    requires step.LookUp? || step.Lock? || step.Unlock? || step.Open? || step.Close?
    ensures Conserved(Next(s, step), left)
  {
    hide Conserved, Enabled, Next, Unmapped;
    if step.LookUp? {
      CallStepKeeps(s, step);
    } else if step.Lock? || step.Unlock? {
      LockStepKeeps(s, step);
    } else if step.Open? {
      OpenStepKeeps(s, step);
    } else {
      CloseStepKeeps(s, step);
    }
    SameWritten(s, step);
    SameConserved(s, Next(s, step), left);
  }

  lemma SameWritten(s: State, step: Step)
    requires Enabled(s, step) && (step.LookUp? || step.Lock? || step.Unlock? || step.Open? || step.Close?)
    ensures forall id, n :: Unmapped(Next(s, step), id, n) <==> Unmapped(s, id, n)
  {
  }

  // ---------------------------------------------------------------- whole runs

  ghost predicate Runs(s: State, steps: seq<Step>)
    decreases |steps|
  {
    steps != [] ==> Enabled(s, steps[0]) && Runs(Next(s, steps[0]), steps[1..])
  }

  ghost function After(s: State, steps: seq<Step>): State
    requires Runs(s, steps)
    decreases |steps|
  {
    if steps == [] then s else After(Next(s, steps[0]), steps[1..])
  }

  lemma {:induction false} RunSafe(s: State, steps: seq<Step>)
    requires Accounted(s) && Safe(s) && Runs(s, steps)
    ensures Accounted(After(s, steps)) && Safe(After(s, steps))
    decreases |steps|
  {
    if steps != [] {
      StepAccounted(s, steps[0]);
      StepSafe(s, steps[0]);
      RunSafe(Next(s, steps[0]), steps[1..]);
    }
  }

  /**
   * In every reachable state the three maps have the same keys, a counter is exactly its live lockers,
   * open files, hits and leaks, and every mapped file is on disk and not about to be removed.
   */
  lemma PinAccounting(steps: seq<Step>, k: Key)
    requires Runs(START, steps)
    ensures var s := After(START, steps);
      && SameKeys(s.cache)
      && CounterOf(s, k) == |Lockers(s, k)| + |OpenFiles(s, k)| + Count(s.hits, k) + Count(s.leaks, k)
      && (k in s.cache.file ==> s.cache.file[k] in s.disk && s.cache.file[k] !in s.doomed)
  {
    StartSafe();
    RunSafe(START, steps);
    var s := After(START, steps);
    assert CounterOf(s, k) == Pins(s, k);
  }

  /** The files that failed downloads leave behind in a run. */
  ghost function Abandoned(s: State, steps: seq<Step>): set<Name>
    requires Runs(s, steps)
    decreases |steps|
  {
    if steps == [] then {} else Abandons(s, steps[0]) + Abandoned(Next(s, steps[0]), steps[1..])
  }

  lemma {:induction false} RunConserved(s: State, steps: seq<Step>, left: set<Name>)
    requires Accounted(s) && Safe(s) && Conserved(s, left) && Runs(s, steps)
    ensures Conserved(After(s, steps), left + Abandoned(s, steps))
    decreases |steps|
  {
    if steps == [] {
      assert left + {} == left;
    } else {
      StepAccounted(s, steps[0]);
      StepSafe(s, steps[0]);
      StepConserved(s, steps[0], left);
      RunConserved(Next(s, steps[0]), steps[1..], left + Abandons(s, steps[0]));
      assert left + Abandons(s, steps[0]) + Abandoned(Next(s, steps[0]), steps[1..]) == left + Abandoned(s, steps);
    }
  }

  /**
   * In every reachable state a file is on disk if and only if a key maps it, a sweep has still to remove it, a
   * download has just written it, or a download failed after creating it: these stay for good, and nothing else does.
   */
  lemma DiskConserved(steps: seq<Step>, n: Name)
    requires Runs(START, steps)
    ensures var s := After(START, steps);
      n in s.disk <==>
        || (exists k :: k in s.cache.file && s.cache.file[k] == n)
        || n in s.doomed
        || (exists id :: id in s.calls && s.calls[id].Written? && s.calls[id].name == n)
        || n in Abandoned(START, steps)
  {
    StartSafe();
    RunConserved(START, steps, {});
    var s := After(START, steps);
    assert Writing(s, n) <==> exists id :: Unmapped(s, id, n);
    if id :| id in s.calls && s.calls[id].Written? && s.calls[id].name == n {
      assert Unmapped(s, id, n);
    }
  }

  /** A sweep never takes a key that somebody locks or reads. */
  lemma SweepSparesPinned(steps: seq<Step>, now: int, expire: int, k: Key)
    requires Runs(START, steps)
    requires var s := After(START, steps); Lockers(s, k) != {} || OpenFiles(s, k) != {} || Count(s.hits, k) > 0
    ensures k in After(START, steps).cache.file && k !in Expired(After(START, steps).cache, now, expire)
  {
    PinAccounting(steps, k);
    var s := After(START, steps);
    assert Lockers(s, k) != {} ==> |Lockers(s, k)| > 0;
    assert OpenFiles(s, k) != {} ==> |OpenFiles(s, k)| > 0;
    assert k in s.cache.counter.Keys;
  }

  /**
   * The path a download returned, while its locker is live: it is the cached file of the key, and on
   * disk, exactly if no sweep came between choosing the path and taking the locker.
   */
  lemma HeldPath(steps: seq<Step>, id: Id)
    requires Runs(START, steps)
    requires id in After(START, steps).calls && After(START, steps).calls[id].Holding?
    ensures var s := After(START, steps); var p := s.calls[id];
      && p.key in s.cache.file
      && (s.cache.file[p.key] == p.path <==> !p.evicted)
      && (!p.evicted ==> p.path in s.disk)
  {
    StartSafe();
    RunSafe(START, steps);
    var s := After(START, steps);
    HeldIsCached(s, id);
    assert s.calls[id].key in s.cache.counter.Keys;
    assert PhaseRight(s, s.calls[id]);
    assert Mapped(s.cache, s.cache.file[s.calls[id].key]);
  }

  /** When a step uses a key: a hit, or its file being installed. */
  predicate Uses(s: State, step: Step, k: Key)
    requires Enabled(s, step)
  {
    match step
    case LookUp(_, key, _) => key == k && k in s.cache.counter
    case Install(id, _) => s.calls[id].key == k && k !in s.cache.counter
    case _ => false
  }

  /** The time of the last use of a key along a run, `before` if there is none. */
  ghost function LastUse(s: State, steps: seq<Step>, k: Key, before: int): int
    requires Runs(s, steps)
    decreases |steps|
  {
    if steps == [] then before
    else LastUse(Next(s, steps[0]), steps[1..], k, if Uses(s, steps[0], k) then steps[0].now else before)
  }

  lemma StepStamps(s: State, step: Step, k: Key)
    requires Accounted(s) && Enabled(s, step) && k in Next(s, step).cache.stamp
    ensures if Uses(s, step, k) then Next(s, step).cache.stamp[k] == step.now
            else k in s.cache.stamp && Next(s, step).cache.stamp[k] == s.cache.stamp[k]
  {
    hide CounterOf, Pins, Count, FileOf, AfterSweep;
    assert s.cache.stamp.Keys == s.cache.counter.Keys;
    if step.Sweep? {
      assert k !in Expired(s.cache, step.now, step.expire);
    }
  }

  lemma {:induction false} StampIsLastUse(s: State, steps: seq<Step>, k: Key, before: int)
    requires Accounted(s) && Runs(s, steps) && k in After(s, steps).cache.stamp
    requires k in s.cache.stamp ==> s.cache.stamp[k] == before
    ensures After(s, steps).cache.stamp[k] == LastUse(s, steps, k, before)
    decreases |steps|
  {
    if steps != [] {
      StepAccounted(s, steps[0]);
      var s' := Next(s, steps[0]);
      if k in s'.cache.stamp {
        StepStamps(s, steps[0], k);
      }
      StampIsLastUse(s', steps[1..], k, if Uses(s, steps[0], k) then steps[0].now else before);
    }
  }

  /** A sweep takes exactly the cached keys without any pin whose last use is longer ago than the expiry. */
  lemma SweptExactly(steps: seq<Step>, now: int, expire: int, k: Key)
    requires Runs(START, steps)
    ensures var s := After(START, steps);
      k in Expired(s.cache, now, expire) <==>
        k in s.cache.file && Pins(s, k) == 0 && now - LastUse(START, steps, k, 0) > expire
  {
    PinAccounting(steps, k);
    StartSafe();
    var s := After(START, steps);
    assert k in s.cache.stamp.Keys <==> k in s.cache.file.Keys;
    assert k in s.cache.counter.Keys <==> k in s.cache.file.Keys;
    if k in s.cache.stamp {
      StampIsLastUse(START, steps, k, 0);
    }
  }

  lemma HitsGrow(s: State, step: Step, k: Key)
    requires Enabled(s, step)
    ensures Count(Next(s, step).hits, k) >= Count(s.hits, k)
  {
  }

  /** A hit is counted and never given back, so a key that was hit once is never swept again. */
  lemma {:induction false} HitPinsForever(s: State, steps: seq<Step>, k: Key)
    requires Accounted(s) && Runs(s, steps) && Count(s.hits, k) > 0
    ensures k in After(s, steps).cache.counter && After(s, steps).cache.counter[k] > 0
    decreases |steps|
  {
    if steps == [] {
      assert CounterOf(s, k) == Pins(s, k);
    } else {
      StepAccounted(s, steps[0]);
      HitsGrow(s, steps[0], k);
      HitPinsForever(Next(s, steps[0]), steps[1..], k);
    }
  }

  lemma {:induction false} OneMore(s: State, steps: seq<Step>, step: Step)
    requires Runs(s, steps) && Enabled(After(s, steps), step)
    ensures Runs(s, steps + [step]) && After(s, steps + [step]) == Next(After(s, steps), step)
    decreases |steps|
  {
    if steps == [] {
      assert [step][1..] == [];
    } else {
      OneMore(Next(s, steps[0]), steps[1..], step);
      assert (steps + [step])[1..] == steps[1..] + [step];
    }
  }

  lemma {:induction false} OneAfterAnother(s: State, steps: seq<Step>, more: seq<Step>)
    requires Runs(s, steps) && Runs(After(s, steps), more)
    ensures Runs(s, steps + more) && After(s, steps + more) == After(After(s, steps), more)
    decreases |more|
  {
    if more == [] {
      assert steps + more == steps;
    } else {
      OneMore(s, steps, more[0]);
      OneAfterAnother(s, steps + [more[0]], more[1..]);
      assert steps + [more[0]] + more[1..] == steps + more;
    }
  }

  /** Call 1 has chosen its path; a sweep has taken the key and is about to remove the file. */
  const SWEPT := State(Cache(map[], map[], map[], 1), {FileName(1)}, {FileName(1)},
    map[1 := Ready("k", FileName(1), true)], map[], map[], map[])

  lemma TwoSteps(s: State, a: Step, b: Step)
    requires Enabled(s, a) && Enabled(Next(s, a), b)
    ensures Runs(s, [a, b]) && After(s, [a, b]) == Next(Next(s, a), b)
  {
    assert [a, b][1..] == [b] && [b][1..] == [];
    assert After(Next(s, a), [b]) == Next(Next(s, a), b);
  }

  lemma SweptExample()
    ensures Runs(START, [LookUp(1, "k", 0), Write(1)] + [Install(1, 0), Sweep(2 * MINUTE, MINUTE)])
    ensures After(START, [LookUp(1, "k", 0), Write(1)] + [Install(1, 0), Sweep(2 * MINUTE, MINUTE)]) == SWEPT
  {
    var s2 := State(EMPTY_CACHE.(made := 1), {FileName(1)}, {}, map[1 := Written("k", FileName(1))], map[], map[],
      map[]);
    TwoSteps(START, LookUp(1, "k", 0), Write(1));
    assert After(START, [LookUp(1, "k", 0), Write(1)]) == s2;
    var s3 := s2.(cache := Cache(map["k" := FileName(1)], map["k" := 0], map["k" := 0], 1),
      calls := map[1 := Ready("k", FileName(1), false)]);
    assert Next(s2, Install(1, 0)) == s3;
    assert Expired(s3.cache, 2 * MINUTE, MINUTE) == {"k"};
    assert (set k | k in {"k"} && k in s3.cache.file :: s3.cache.file[k]) == {FileName(1)} by {
      assert "k" in s3.cache.file;
    }
    assert Next(s3, Sweep(2 * MINUTE, MINUTE)) == SWEPT;
    TwoSteps(s2, Install(1, 0), Sweep(2 * MINUTE, MINUTE));
    OneAfterAnother(START, [LookUp(1, "k", 0), Write(1)], [Install(1, 0), Sweep(2 * MINUTE, MINUTE)]);
  }

  lemma LockedExample() returns (s: State)
    ensures Runs(SWEPT, [LookUp(2, "k", 0), Write(2)] + [Install(2, 0), Lock(1)])
    ensures s == After(SWEPT, [LookUp(2, "k", 0), Write(2)] + [Install(2, 0), Lock(1)])
    ensures 1 in s.calls && s.calls[1] == Holding("k", FileName(1), true)
    ensures s.cache.file == map["k" := FileName(2)] && FileName(1) in s.doomed
  {
    var s2 := SWEPT.(cache := SWEPT.cache.(made := 2), disk := {FileName(1), FileName(2)},
                     calls := map[1 := Ready("k", FileName(1), true), 2 := Written("k", FileName(2))]);
    TwoSteps(SWEPT, LookUp(2, "k", 0), Write(2));
    assert After(SWEPT, [LookUp(2, "k", 0), Write(2)]) == s2;
    TwoSteps(s2, Install(2, 0), Lock(1));
    OneAfterAnother(SWEPT, [LookUp(2, "k", 0), Write(2)], [Install(2, 0), Lock(1)]);
    s := After(s2, [Install(2, 0), Lock(1)]);
    assert s == Next(Next(s2, Install(2, 0)), Lock(1));
  }

  /**
   * A live locker whose path is gone: call 1 chose its path, a sweep took the key, call 2 downloaded the
   * file again, and only then did call 1 take its locker.
   */
  lemma LateLockExample() returns (steps: seq<Step>)
    ensures Runs(START, steps)
    ensures var s := After(START, steps);
      && 1 in s.calls && s.calls[1].Holding? && s.calls[1].path !in s.disk
      && s.calls[1].key in s.cache.file && s.cache.file[s.calls[1].key] != s.calls[1].path
  {
    var first := [LookUp(1, "k", 0), Write(1)] + [Install(1, 0), Sweep(2 * MINUTE, MINUTE)];
    var second := [LookUp(2, "k", 0), Write(2)] + [Install(2, 0), Lock(1)];
    SweptExample();
    var s := LockedExample();
    OneAfterAnother(START, first, second);
    OneMore(START, first + second, Remove(FileName(1)));
    steps := first + second + [Remove(FileName(1))];
    assert FileName(1) != FileName(2) by {
      if FileName(1) == FileName(2) {
        FileNameInjective(1, 2);
      }
    }
  }
}
