/** The calls of `Cache` are paths of the steps in `CacheRuns`: a lookup or cleanup with no other worker in
    between changes the stores as those steps do (execution-engine/engine/cache.go). */
module CacheCalls {
  import opened Options
  import opened Paths
  import opened CacheKeys
  import opened Cache
  import opened CacheRuns

  // ---------------------------------------------------------------- the database lookup

  function HitSteps(w: nat): seq<Action> {
    [DbRead(w)]
  }

  function MissSteps(w: nat, d1: nat, d2: nat, row: Option<ProblemData>): seq<Action> {
    [DbRead(w)] + [DbAcquire(w)] + [Tick(d1)] + [DbRecheck(w)] + [Tick(d2)] + [DbLoad(w, row)]
  }

  /** The worker is about to load the problem, and holds the database lock. */
  ghost function AboutToLoad(s: State, w: nat, problem: string, clock: int): State
    requires w < |s.workers|
  {
    s.(workers := s.workers[w := DbLoading(problem)], dbLock := ByWorker(w), clock := clock)
  }

  lemma MissReads(s: State, w: nat, problem: string)
    requires w < |s.workers| && s.workers[w] == DbCheck(problem) && s.dbLock == Free && !Fresh(s.db, problem, s.clock)
    ensures Enabled(s, DbRead(w))
    ensures var s1 := Do(s, DbRead(w));
            && Enabled(s1, DbAcquire(w))
            && Do(s1, DbAcquire(w)) == s.(workers := s.workers[w := DbLocked(problem)], dbLock := ByWorker(w))
  {
    assert s.workers[w := DbWait(problem)][w := DbLocked(problem)] == s.workers[w := DbLocked(problem)];
  }

  lemma MissRechecks(s: State, w: nat, problem: string, d1: nat, d2: nat)
    requires w < |s.workers| && !Fresh(s.db, problem, s.clock)
    ensures var s2 := s.(workers := s.workers[w := DbLocked(problem)], dbLock := ByWorker(w));
            && Enabled(Do(s2, Tick(d1)), DbRecheck(w))
            && Do(Do(Do(s2, Tick(d1)), DbRecheck(w)), Tick(d2)) == AboutToLoad(s, w, problem, s.clock + d1 + d2)
  {
    assert s.workers[w := DbLocked(problem)][w := DbLoading(problem)] == s.workers[w := DbLoading(problem)];
  }

  lemma MissLoads(s: State, w: nat, problem: string, clock: int, row: Option<ProblemData>)
    requires w < |s.workers| && (row.Some? ==> row.value.problemId == problem)
    ensures var s5 := AboutToLoad(s, w, problem, clock);
            && Enabled(s5, DbLoad(w, row))
            && var t := Do(s5, DbLoad(w, row));
               && t.db == Loaded(s.db, problem, row, clock) && t.dbLock == Free && w < |t.workers|
               && t.workers[w] == (if row.Some? then S3Check(row.value) else Idle)
               && t.s3 == s.s3 && t.s3Lock == s.s3Lock && t.disk == s.disk && t.clock == clock
  {
  }

  lemma MissPath(s: State, w: nat, problem: string, d1: nat, d2: nat, row: Option<ProblemData>) returns (t: State)
    requires w < |s.workers| && s.workers[w] == DbCheck(problem) && s.dbLock == Free && !Fresh(s.db, problem, s.clock)
    requires row.Some? ==> row.value.problemId == problem
    ensures Path(After, s, MissSteps(w, d1, d2, row), t)
    ensures t.db == Loaded(s.db, problem, row, s.clock + d1 + d2) && t.dbLock == Free && w < |t.workers|
    ensures t.workers[w] == (if row.Some? then S3Check(row.value) else Idle)
    ensures t.s3 == s.s3 && t.s3Lock == s.s3Lock && t.disk == s.disk && t.clock == s.clock + d1 + d2
  {
    MissReads(s, w, problem);
    MissRechecks(s, w, problem, d1, d2);
    var s1 := Do(s, DbRead(w));
    var s2 := Do(s1, DbAcquire(w));
    var s3 := Do(s2, Tick(d1));
    var s4 := Do(s3, DbRecheck(w));
    var s5 := Do(s4, Tick(d2));
    MissLoads(s, w, problem, s.clock + d1 + d2, row);
    t := Do(s5, DbLoad(w, row));
    SixSteps(s, DbRead(w), s1, DbAcquire(w), s2, Tick(d1), s3, DbRecheck(w), s4, Tick(d2), s5, DbLoad(w, row), t);
  }

  lemma SixSteps(s: State, a1: Action, s1: State, a2: Action, s2: State, a3: Action, s3: State,
                 a4: Action, s4: State, a5: Action, s5: State, a6: Action, t: State)
    requires After(s, a1) == Some(s1) && After(s1, a2) == Some(s2) && After(s2, a3) == Some(s3)
    requires After(s3, a4) == Some(s4) && After(s4, a5) == Some(s5) && After(s5, a6) == Some(t)
    ensures Path(After, s, [a1] + [a2] + [a3] + [a4] + [a5] + [a6], t)
  {
    FourSteps(s, a1, s1, a2, s2, a3, s3, a4, s4);
    PathMore(After, s, [a1] + [a2] + [a3] + [a4], s4, a5);
    PathMore(After, s, [a1] + [a2] + [a3] + [a4] + [a5], s5, a6);
  }

  lemma FourSteps(s: State, a1: Action, s1: State, a2: Action, s2: State, a3: Action, s3: State, a4: Action, s4: State)
    requires After(s, a1) == Some(s1) && After(s1, a2) == Some(s2) && After(s2, a3) == Some(s3) && After(s3, a4) == Some(s4)
    ensures Path(After, s, [a1] + [a2] + [a3] + [a4], s4)
  {
    PathFrom(After, s, a1, [], s1);
    assert [a1] + [] == [a1];
    PathMore(After, s, [a1], s1, a2);
    PathMore(After, s, [a1] + [a2], s2, a3);
    PathMore(After, s, [a1] + [a2] + [a3], s3, a4);
  }

  /** A call of the database cache by worker `w`: what it stores, answers and leaves locked is where the
      protocol's steps lead. */
  method LookUp(db: DbCache, problem: string, row: Option<ProblemData>, t1: int, t2: int, t3: int, w: nat, ghost s: State)
    returns (data: Option<ProblemData>, ghost t: State)
    requires db.store == s.db && t1 == s.clock <= t2 <= t3
    requires w < |s.workers| && s.workers[w] == DbCheck(problem) && s.dbLock == Free
    requires row.Some? ==> row.value.problemId == problem
    modifies db
    ensures Path(After, s, if Fresh(old(db.store), problem, t1) then HitSteps(w) else MissSteps(w, t2 - t1, t3 - t2, row), t)
    ensures db.store == t.db && t.dbLock == Free && w < |t.workers|
    ensures t.workers[w] == if data.Some? then S3Check(data.value) else Idle
  {
    if Fresh(s.db, problem, t1) {
      t := Do(s, DbRead(w));
      PathFrom(After, s, DbRead(w), [], t);
      assert [DbRead(w)] + [] == HitSteps(w);
    } else {
      t := MissPath(s, w, problem, t2 - t1, t3 - t2, row);
    }
    data := db.GetOrLoad(problem, row, t1, t2, t3);
  }

  // ---------------------------------------------------------------- the artefact lookup

  ghost predicate ShowsArtefacts(s: State, cache: S3Cache)
    reads cache
  {
    s.s3.Keys == cache.store.Keys && s.disk == cache.disk
  }

  function LoadSteps(w: nat, downloads: bool): seq<Action> {
    [S3Read(w)] + [S3Acquire(w)] + [S3Recheck(w)] + [S3Load(w, downloads)]
  }

  lemma LoadReads(s: State, w: nat, data: ProblemData)
    requires w < |s.workers| && s.workers[w] == S3Check(data) && s.s3Lock == Free && DataKey(data) !in s.s3
    ensures Enabled(s, S3Read(w))
    ensures var s1 := Do(s, S3Read(w));
            && Enabled(s1, S3Acquire(w))
            && var s2 := Do(s1, S3Acquire(w));
               && Enabled(s2, S3Recheck(w))
               && Do(s2, S3Recheck(w)) == s.(workers := s.workers[w := S3Loading(data)], s3Lock := ByWorker(w))
  {
    assert s.workers[w := S3Wait(data)][w := S3Locked(data)][w := S3Loading(data)] == s.workers[w := S3Loading(data)];
  }

  lemma LoadLoads(s: State, w: nat, data: ProblemData, downloads: bool)
    requires w < |s.workers| && DataKey(data) !in s.s3
    ensures var s3 := s.(workers := s.workers[w := S3Loading(data)], s3Lock := ByWorker(w));
            && Enabled(s3, S3Load(w, downloads))
            && var t := Do(s3, S3Load(w, downloads));
               && t.s3.Keys == s.s3.Keys + (if downloads then {DataKey(data)} else {})
               && t.disk == s.disk + {DataKey(data)} && t.s3Lock == Free && w < |t.workers|
               && (if downloads then t.workers[w].Got? && t.workers[w].data == data else t.workers[w].Idle?)
  {
  }

  lemma LoadPath(s: State, w: nat, data: ProblemData, downloads: bool) returns (t: State)
    requires w < |s.workers| && s.workers[w] == S3Check(data) && s.s3Lock == Free && DataKey(data) !in s.s3
    ensures Path(After, s, LoadSteps(w, downloads), t)
    ensures t.s3.Keys == s.s3.Keys + (if downloads then {DataKey(data)} else {})
    ensures t.disk == s.disk + {DataKey(data)} && t.s3Lock == Free && w < |t.workers|
    ensures if downloads then t.workers[w].Got? && t.workers[w].data == data else t.workers[w].Idle?
  {
    LoadReads(s, w, data);
    LoadLoads(s, w, data, downloads);
    var s1 := Do(s, S3Read(w));
    var s2 := Do(s1, S3Acquire(w));
    var s3 := Do(s2, S3Recheck(w));
    t := Do(s3, S3Load(w, downloads));
    FourSteps(s, S3Read(w), s1, S3Acquire(w), s2, S3Recheck(w), s3, S3Load(w, downloads), t);
  }

  function FetchSteps(stored: bool, w: nat, downloads: bool): seq<Action> {
    if stored then [S3Read(w)] else LoadSteps(w, downloads)
  }

  lemma HandedPath(s: State, w: nat, data: ProblemData) returns (t: State)
    requires w < |s.workers| && s.workers[w] == S3Check(data) && s.s3Lock == Free && DataKey(data) in s.s3
    ensures Path(After, s, [S3Read(w)], t)
    ensures t.s3 == s.s3 && t.disk == s.disk && t.s3Lock == Free && w < |t.workers|
    ensures t.workers[w].Got? && t.workers[w].data == data
  {
    t := Do(s, S3Read(w));
    PathFrom(After, s, S3Read(w), [], t);
    assert [S3Read(w)] + [] == [S3Read(w)];
  }

  lemma FetchPath(s: State, w: nat, data: ProblemData, downloads: bool) returns (t: State)
    requires w < |s.workers| && s.workers[w] == S3Check(data) && s.s3Lock == Free
    ensures Path(After, s, FetchSteps(DataKey(data) in s.s3, w, downloads), t)
    ensures var stored := DataKey(data) in s.s3;
            && t.s3.Keys == s.s3.Keys + (if downloads && !stored then {DataKey(data)} else {})
            && t.disk == s.disk + (if stored then {} else {DataKey(data)})
            && t.s3Lock == Free && w < |t.workers|
            && (if downloads || stored then t.workers[w].Got? && t.workers[w].data == data else t.workers[w].Idle?)
  {
    if DataKey(data) in s.s3 {
      t := HandedPath(s, w, data);
    } else {
      t := LoadPath(s, w, data, downloads);
    }
  }

  /** What a call does to the keys and the disk. */
  method FetchKeys(cache: S3Cache, data: ProblemData, downloads: bool) returns (item: S3Item?)
    requires cache.Valid() && '_' !in data.problemId
    modifies cache
    ensures cache.Valid()
    ensures var stored := DataKey(data) in old(cache.store.Keys);
            && (item != null <==> stored || downloads)
            && cache.store.Keys == old(cache.store.Keys) + (if downloads && !stored then {DataKey(data)} else {})
            && cache.disk == old(cache.disk) + (if stored then {} else {DataKey(data)})
  {
    item := cache.GetOrLoad(data, downloads);
  }

  ghost predicate IsServed(s: State, w: nat, data: ProblemData, handed: bool) {
    && w < |s.workers| && s.s3Lock == Free
    && if handed then s.workers[w].Got? && s.workers[w].data == data else s.workers[w].Idle?
  }

  /** A call of the artefact cache by worker `w`. */
  method FetchArtefact(cache: S3Cache, data: ProblemData, downloads: bool, w: nat, ghost s: State)
    returns (item: S3Item?, ghost t: State)
    requires cache.Valid() && '_' !in data.problemId && ShowsArtefacts(s, cache)
    requires w < |s.workers| && s.workers[w] == S3Check(data) && s.s3Lock == Free
    modifies cache
    ensures cache.Valid() && ShowsArtefacts(t, cache) && IsServed(t, w, data, item != null)
    ensures Path(After, s, FetchSteps(DataKey(data) in old(cache.store.Keys), w, downloads), t)
  {
    t := FetchPath(s, w, data, downloads);
    item := FetchKeys(cache, data, downloads);
  }

  // ---------------------------------------------------------------- the cleaner

  function CleanSteps(): seq<Action> {
    [CleanArm] + [CleanLockDb] + [Clean]
  }

  lemma CleanPath(s: State) returns (t: State)
    requires s.cleaner.Resting? && s.dbLock == Free && s.s3Lock == Free
    requires |s.s3.Keys| > CLEANUP_THRESHOLD && SplitAll(s.s3.Keys)
    ensures Path(After, s, CleanSteps(), t)
    ensures t.db == Unexpired(s.db, s.clock)
    ensures t.s3.Keys == Kept(s.s3.Keys, t.db.Keys) && t.disk == s.disk - (s.s3.Keys - t.s3.Keys)
  {
    var s1 := Do(s, CleanArm);
    var s2 := Do(s1, CleanLockDb);
    t := Do(s2, Clean);
    assert t.s3.Keys == Kept(s.s3.Keys, t.db.Keys);
    PathFrom(After, s, CleanArm, [], s1);
    assert [CleanArm] + [] == [CleanArm];
    PathMore(After, s, [CleanArm], s1, CleanLockDb);
    PathMore(After, s, [CleanArm] + [CleanLockDb], s2, Clean);
  }

  /** A run of the cleaner with its clock read at `now`. */
  method CleanUp(db: DbCache, cache: S3Cache, now: int, ghost s: State) returns (ghost t: State)
    requires now == s.clock && cache.Valid() && db.store == s.db && ShowsArtefacts(s, cache)
    requires s.cleaner.Resting? && s.dbLock == Free && s.s3Lock == Free
    modifies db, cache
    ensures Path(After, s, if |old(cache.store.Keys)| > CLEANUP_THRESHOLD then CleanSteps() else [], t)
    ensures cache.Valid() && db.store == t.db && ShowsArtefacts(t, cache)
  {
    if |s.s3.Keys| > CLEANUP_THRESHOLD {
      t := CleanPath(s);
    } else {
      t := s;
    }
    CleanCache(db, cache, now);
  }
}
