/** The caches under concurrency: execution-engine/engine/cache.go with its locks.

    Each worker steps through the double-checked lookups; a section under a read lock is one step that
    needs the lock free of writers, a section under a write lock is several steps that hold it.  The
    cleaner reads its clock and the size of the artefact store before it takes any lock, then takes the
    database lock, then the artefact lock.  The clock only moves forward.  Problem ids carry no
    underscore, and a database row carries the id it was asked for. */
module CacheRuns {
  import opened Options
  import opened CacheKeys
  import opened Cache

  datatype Pc =
    | Idle
    | DbCheck(problem: string)
    | DbWait(problem: string)
    | DbLocked(problem: string)
    | DbLoading(problem: string)
    | S3Check(data: ProblemData)
    | S3Wait(data: ProblemData)
    | S3Locked(data: ProblemData)
    | S3Loading(data: ProblemData)
    | Got(data: ProblemData, item: nat)

  datatype CleanerPc = Resting | Armed(now: int) | DbHeld(now: int)

  datatype Lock = Free | ByWorker(w: nat) | ByCleaner

  /** `DbCache.GetOrLoad` handed out this version at this time. */
  datatype Served = Served(problem: string, version: nat, time: int)

  datatype State = State(
    clock: int,
    db: map<string, DbItem>,
    dbLock: Lock,
    s3: map<string, nat>,
    s3Lock: Lock,
    disk: set<string>,
    workers: seq<Pc>,
    cleaner: CleanerPc,
    lastClean: int,
    nextItem: nat,
    served: set<Served>,
    loads: map<string, nat>,
    handed: map<string, set<nat>>)

  datatype Action =
    | Tick(seconds: nat)
    | Begin(w: nat, problem: string)
    | DbRead(w: nat)
    | DbAcquire(w: nat)
    | DbRecheck(w: nat)
    | DbLoad(w: nat, row: Option<ProblemData>)
    | S3Read(w: nat)
    | S3Acquire(w: nat)
    | S3Recheck(w: nat)
    | S3Load(w: nat, downloads: bool)
    | Again(w: nat)
    | Finish(w: nat)
    | CleanArm
    | CleanLockDb
    | Clean

  function LoadsOf(s: State, k: string): nat {
    if k in s.loads then s.loads[k] else 0
  }

  function HandedOf(s: State, k: string): set<nat> {
    if k in s.handed then s.handed[k] else {}
  }

  ghost predicate Enabled(s: State, a: Action) {
    match a
    case Tick(_) => true
    case CleanArm => s.cleaner.Resting? && |s.s3.Keys| > CLEANUP_THRESHOLD
    case CleanLockDb => s.cleaner.Armed? && s.dbLock == Free
    case Clean => s.cleaner.DbHeld? && s.s3Lock == Free && SplitAll(s.s3.Keys)
    case Begin(w, problem) => w < |s.workers| && s.workers[w].Idle? && '_' !in problem
    case DbRead(w) => w < |s.workers| && s.workers[w].DbCheck? && s.dbLock == Free
    case DbAcquire(w) => w < |s.workers| && s.workers[w].DbWait? && s.dbLock == Free
    case DbRecheck(w) => w < |s.workers| && s.workers[w].DbLocked?
    case DbLoad(w, row) => w < |s.workers| && s.workers[w].DbLoading? && (row.Some? ==> row.value.problemId == s.workers[w].problem)
    case S3Read(w) => w < |s.workers| && s.workers[w].S3Check? && s.s3Lock == Free
    case S3Acquire(w) => w < |s.workers| && s.workers[w].S3Wait? && s.s3Lock == Free
    case S3Recheck(w) => w < |s.workers| && s.workers[w].S3Locked?
    case S3Load(w, _) => w < |s.workers| && s.workers[w].S3Loading?
    case Again(w) => w < |s.workers| && s.workers[w].Got?
    case Finish(w) => w < |s.workers| && s.workers[w].Got?
  }

  /** The database lookup answers `data` now. */
  function Serve(s: State, w: nat, data: ProblemData): State
    requires w < |s.workers|
  {
    s.(workers := s.workers[w := S3Check(data)],
       served := s.served + {Served(data.problemId, data.problemVersion, s.clock)})
  }

  /** The artefact lookup hands out the stored item. */
  function Hand(s: State, w: nat, data: ProblemData): State
    requires w < |s.workers| && DataKey(data) in s.s3
  {
    var k := DataKey(data);
    s.(workers := s.workers[w := Got(data, s.s3[k])],
       handed := s.handed[k := HandedOf(s, k) + {s.s3[k]}])
  }

  /** A downloaded artefact is stored as a new item and handed out. */
  function StoreNew(s: State, w: nat, data: ProblemData, k: string): State
    requires w < |s.workers|
  {
    s.(s3 := s.s3[k := s.nextItem],
       nextItem := s.nextItem + 1,
       loads := s.loads[k := LoadsOf(s, k) + 1],
       handed := s.handed[k := HandedOf(s, k) + {s.nextItem}],
       workers := s.workers[w := Got(data, s.nextItem)])
  }

  function MoveTo(s: State, w: nat, pc: Pc): State
    requires w < |s.workers|
  {
    s.(workers := s.workers[w := pc])
  }

  ghost function CleanStep(s: State): State
    requires s.cleaner.DbHeld? && SplitAll(s.s3.Keys)
  {
    var db := Unexpired(s.db, s.cleaner.now);
    var kept := Kept(s.s3.Keys, db.Keys);
    s.(db := db,
       s3 := map k | k in s.s3 && k in kept :: s.s3[k],
       disk := s.disk - (s.s3.Keys - kept),
       loads := map k | k in s.loads && k in kept :: s.loads[k],
       handed := map k | k in s.handed && k in kept :: s.handed[k],
       dbLock := Free,
       lastClean := s.cleaner.now,
       cleaner := Resting)
  }

  ghost function Do(s: State, a: Action): State
    requires Enabled(s, a)
  {
    match a
    case Tick(seconds) => s.(clock := s.clock + seconds)
    case CleanArm => s.(cleaner := Armed(s.clock))
    case CleanLockDb => s.(cleaner := DbHeld(s.cleaner.now), dbLock := ByCleaner)
    case Clean => CleanStep(s)
    case Begin(w, problem) => MoveTo(s, w, DbCheck(problem))
    case DbRead(w) =>
      var p := s.workers[w].problem;
      if Fresh(s.db, p, s.clock) then Serve(s, w, s.db[p].data) else MoveTo(s, w, DbWait(p))
    case DbAcquire(w) => MoveTo(s, w, DbLocked(s.workers[w].problem)).(dbLock := ByWorker(w))
    case DbRecheck(w) =>
      var p := s.workers[w].problem;
      if Fresh(s.db, p, s.clock) then Serve(s, w, s.db[p].data).(dbLock := Free) else MoveTo(s, w, DbLoading(p))
    case DbLoad(w, row) =>
      var p := s.workers[w].problem;
      if row.Some? then Serve(s, w, row.value).(db := Loaded(s.db, p, row, s.clock), dbLock := Free)
      else MoveTo(s, w, Idle).(dbLock := Free)
    case S3Read(w) =>
      var d := s.workers[w].data;
      if DataKey(d) in s.s3 then Hand(s, w, d) else MoveTo(s, w, S3Wait(d))
    case S3Acquire(w) => MoveTo(s, w, S3Locked(s.workers[w].data)).(s3Lock := ByWorker(w))
    case S3Recheck(w) =>
      var d := s.workers[w].data;
      if DataKey(d) in s.s3 then Hand(s, w, d).(s3Lock := Free) else MoveTo(s, w, S3Loading(d))
    case S3Load(w, downloads) =>
      var d := s.workers[w].data;
      var k := DataKey(d);
      var tried := s.(disk := s.disk + {k}, s3Lock := Free);
      if downloads then
        StoreNew(tried, w, d, k)
      else MoveTo(tried, w, Idle)
    case Again(w) => MoveTo(s, w, S3Check(s.workers[w].data))
    case Finish(w) => MoveTo(s, w, Idle)
  }

  ghost function After(s: State, a: Action): Option<State> {
    if Enabled(s, a) then Some(Do(s, a)) else None
  }

  function Initial(n: nat): State {
    State(0, map[], Free, map[], Free, {}, seq(n, i => Idle), Resting, 0, 0, {}, map[], map[])
  }

  ghost predicate Next(s: State, t: State) {
    exists a :: Enabled(s, a) && t == Do(s, a)
  }

  ghost predicate IsRun(ss: seq<State>, n: nat) {
    && ss != []
    && ss[0] == Initial(n)
    && forall i :: 0 <= i < |ss| - 1 ==> Next(ss[i], ss[i + 1])
  }

  // ---------------------------------------------------------------- what each kind of step leaves alone

  predicate IsDbStep(a: Action) {
    a.Begin? || a.DbRead? || a.DbAcquire? || a.DbRecheck? || a.DbLoad?
  }

  predicate IsS3Step(a: Action) {
    a.S3Read? || a.S3Acquire? || a.S3Recheck? || a.S3Load? || a.Again? || a.Finish?
  }

  predicate IsCleanerStep(a: Action) {
    a.Tick? || a.CleanArm? || a.CleanLockDb? || a.Clean?
  }

  lemma S3LookupFrame(s: State, a: Action)
    requires Enabled(s, a) && IsS3Step(a) && !a.S3Load?
    ensures var t := Do(s, a); LeavesDbAlone(s, a.w, t)
  {
  }

  lemma S3LoadFrame(s: State, w: nat, downloads: bool)
    requires Enabled(s, S3Load(w, downloads))
    ensures var t := Do(s, S3Load(w, downloads)); LeavesDbAlone(s, w, t)
  {
  }

  ghost predicate LeavesDbAlone(s: State, w: nat, t: State)
    requires w < |s.workers|
  {
    && t.db == s.db && t.dbLock == s.dbLock && t.clock == s.clock && t.cleaner == s.cleaner
    && t.served == s.served && t.lastClean == s.lastClean
    && |t.workers| == |s.workers| && t.workers == s.workers[w := t.workers[w]]
    && HasData(s.workers[w])
    && (t.workers[w].Idle? || (HasData(t.workers[w]) && t.workers[w].data == s.workers[w].data))
  }

  lemma S3StepFrame(s: State, a: Action)
    requires Enabled(s, a) && IsS3Step(a)
    ensures a.w < |s.workers| && LeavesDbAlone(s, a.w, Do(s, a))
  {
    if a.S3Load? {
      S3LoadFrame(s, a.w, a.downloads);
    } else {
      S3LookupFrame(s, a);
    }
  }

  lemma DbStepFrame(s: State, a: Action)
    requires Enabled(s, a) && IsDbStep(a)
    ensures var t := Do(s, a);
            && t.s3 == s.s3 && t.s3Lock == s.s3Lock && t.disk == s.disk && t.loads == s.loads && t.handed == s.handed
            && t.clock == s.clock && t.cleaner == s.cleaner && t.lastClean == s.lastClean
            && |t.workers| == |s.workers| && t.workers == s.workers[a.w := t.workers[a.w]]
            && !HoldsS3(s.workers[a.w]) && !HoldsS3(t.workers[a.w])
  {
    DbStepMoves(s, a);
  }

  lemma DbStepMoves(s: State, a: Action)
    requires Enabled(s, a) && IsDbStep(a)
    ensures var t := Do(s, a);
            && |t.workers| == |s.workers| && t.workers == s.workers[a.w := t.workers[a.w]]
            && !HoldsS3(s.workers[a.w]) && !HoldsS3(t.workers[a.w])
  {
    if a.DbLoad? {
      DbLoadMoves(s, a.w, a.row);
    }
  }

  lemma DbLoadMoves(s: State, w: nat, row: Option<ProblemData>)
    requires Enabled(s, DbLoad(w, row))
    ensures var t := Do(s, DbLoad(w, row));
            && |t.workers| == |s.workers| && t.workers == s.workers[w := t.workers[w]]
            && !HoldsS3(s.workers[w]) && !HoldsS3(t.workers[w])
  {
  }

  lemma CleanerStepFrame(s: State, a: Action)
    requires Enabled(s, a) && IsCleanerStep(a)
    ensures var t := Do(s, a);
            && t.workers == s.workers && t.served == s.served && t.s3Lock == s.s3Lock && t.clock >= s.clock
            && t.s3.Keys <= s.s3.Keys
            && (forall p :: p in t.db ==> p in s.db && t.db[p] == s.db[p])
            && (!a.Clean? ==> t.db == s.db && t.s3 == s.s3 && t.disk == s.disk && t.loads == s.loads && t.handed == s.handed
                              && t.lastClean == s.lastClean)
  {
  }

  // ---------------------------------------------------------------- ids and keys

  predicate HasData(pc: Pc) {
    pc.S3Check? || pc.S3Wait? || pc.S3Locked? || pc.S3Loading? || pc.Got?
  }

  predicate HasProblem(pc: Pc) {
    pc.DbCheck? || pc.DbWait? || pc.DbLocked? || pc.DbLoading?
  }

  ghost predicate GoodPc(pc: Pc) {
    && (HasData(pc) ==> '_' !in pc.data.problemId)
    && (HasProblem(pc) ==> '_' !in pc.problem)
  }

  ghost predicate GoodDb(db: map<string, DbItem>) {
    forall p :: p in db ==> db[p].data.problemId == p && '_' !in p
  }

  ghost predicate KeysInv(s: State) {
    && AllKeys(s.s3.Keys)
    && GoodDb(s.db)
    && (forall w :: 0 <= w < |s.workers| ==> GoodPc(s.workers[w]))
    && (forall v :: v in s.served ==> '_' !in v.problem)
  }

  lemma KeysFrame(s: State, t: State, w: nat, pc: Pc)
    requires KeysInv(s) && w < |s.workers| && GoodPc(pc)
    requires t.workers == s.workers[w := pc]
    requires AllKeys(t.s3.Keys) && GoodDb(t.db)
    requires forall v :: v in t.served && v !in s.served ==> '_' !in v.problem
    ensures KeysInv(t)
  {
  }

  lemma StepKeepsKeys(s: State, a: Action)
    requires KeysInv(s) && Enabled(s, a)
    ensures KeysInv(Do(s, a))
  {
    if IsCleanerStep(a) {
      CleanerStepFrame(s, a);
    } else if IsDbStep(a) {
      DbStepKeepsKeys(s, a);
    } else {
      S3StepKeepsKeys(s, a);
    }
  }

  lemma S3StepKeepsKeys(s: State, a: Action)
    requires KeysInv(s) && Enabled(s, a) && IsS3Step(a)
    ensures KeysInv(Do(s, a))
  {
    StoredKeysAreKeys(s, a);
    S3StepFrame(s, a);
    S3StepKeepsKeysAux(s, Do(s, a), a.w);
  }

  lemma S3StepKeepsKeysAux(s: State, t: State, w: nat)
    requires KeysInv(s) && w < |s.workers| && |t.workers| == |s.workers| && t.workers == s.workers[w := t.workers[w]]
    requires t.db == s.db && t.served == s.served && AllKeys(t.s3.Keys)
    requires HasData(s.workers[w])
    requires t.workers[w].Idle? || (HasData(t.workers[w]) && t.workers[w].data == s.workers[w].data)
    ensures KeysInv(t)
  {
    assert GoodPc(s.workers[w]);
    KeysFrame(s, t, w, t.workers[w]);
  }

  lemma StoredKeys(s: State, a: Action)
    requires Enabled(s, a) && IsS3Step(a)
    ensures HasData(s.workers[a.w]) && Do(s, a).s3.Keys <= s.s3.Keys + {DataKey(s.workers[a.w].data)}
  {
  }

  lemma StoredKeysAreKeys(s: State, a: Action)
    requires KeysInv(s) && Enabled(s, a) && IsS3Step(a)
    ensures AllKeys(Do(s, a).s3.Keys)
  {
    StoredKeys(s, a);
    assert GoodPc(s.workers[a.w]);
    var d := s.workers[a.w].data;
    KeyIsKey(d);
    forall k | k in Do(s, a).s3.Keys ensures IsKey(k) {
      assert k in s.s3.Keys || k == DataKey(d);
    }
  }

  /** What a database step stores, hands out and holds belongs to the problem it was about. */
  lemma DbStepProblem(s: State, a: Action)
    requires KeysInv(s) && Enabled(s, a) && IsDbStep(a) && !a.DbLoad?
    ensures var t := Do(s, a);
            && a.w < |t.workers| && GoodPc(t.workers[a.w]) && t.db == s.db
            && forall v :: v in t.served && v !in s.served ==> '_' !in v.problem
  {
    assert GoodPc(s.workers[a.w]);
  }

  lemma DbLoadProblem(s: State, w: nat, row: Option<ProblemData>)
    requires KeysInv(s) && Enabled(s, DbLoad(w, row))
    ensures var t := Do(s, DbLoad(w, row));
            && w < |t.workers| && GoodPc(t.workers[w]) && GoodDb(t.db)
            && forall v :: v in t.served && v !in s.served ==> '_' !in v.problem
  {
    assert GoodPc(s.workers[w]);
  }

  lemma DbStepKeepsKeys(s: State, a: Action)
    requires KeysInv(s) && Enabled(s, a)
    requires IsDbStep(a)
    ensures KeysInv(Do(s, a))
  {
    DbStepFrame(s, a);
    if a.DbLoad? {
      DbLoadProblem(s, a.w, a.row);
    } else {
      DbStepProblem(s, a);
    }
    DbStepKeepsKeysAux(s, Do(s, a), a.w);
  }

  lemma DbStepKeepsKeysAux(s: State, t: State, w: nat)
    requires KeysInv(s) && w < |s.workers| == |t.workers| && t.workers == s.workers[w := t.workers[w]]
    requires GoodPc(t.workers[w]) && GoodDb(t.db) && t.s3 == s.s3
    requires forall v :: v in t.served && v !in s.served ==> '_' !in v.problem
    ensures KeysInv(t)
  {
    KeysFrame(s, t, w, t.workers[w]);
  }

  // ---------------------------------------------------------------- one load per residency

  predicate HoldsS3(pc: Pc) {
    pc.S3Locked? || pc.S3Loading?
  }

  /** The artefact lock is held by exactly the worker inside its section, which loads only what is
      missing; each resident key was loaded once since it was last evicted, everyone was handed that
      item, and its directory is on disk. */
  ghost predicate S3Inv(s: State) {
    && (forall w :: 0 <= w < |s.workers| ==> (HoldsS3(s.workers[w]) <==> s.s3Lock == ByWorker(w)))
    && (s.s3Lock.ByWorker? ==> s.s3Lock.w < |s.workers|)
    && !s.s3Lock.ByCleaner?
    && (forall w :: 0 <= w < |s.workers| && s.workers[w].S3Loading? ==> DataKey(s.workers[w].data) !in s.s3)
    && s.loads.Keys <= s.s3.Keys
    && s.handed.Keys <= s.s3.Keys
    && (forall k :: k in s.s3 ==> LoadsOf(s, k) == 1 && HandedOf(s, k) <= {s.s3[k]})
    && s.s3.Keys <= s.disk
  }

  /** A step of a worker outside the locked section that leaves the artefact store alone. */
  lemma S3Frame(s: State, t: State, w: nat)
    requires S3Inv(s) && w < |s.workers| && w < |t.workers|
    requires t.workers == s.workers[w := t.workers[w]] && !HoldsS3(s.workers[w]) && !HoldsS3(t.workers[w])
    requires t.s3Lock == s.s3Lock && t.s3 == s.s3 && t.loads == s.loads && t.handed == s.handed && t.disk == s.disk
    ensures S3Inv(t)
  {
  }

  lemma HandKeepsS3(s: State, w: nat, data: ProblemData)
    requires S3Inv(s) && w < |s.workers| && DataKey(data) in s.s3
    requires s.workers[w].S3Check? || s.workers[w].S3Locked?
    ensures s.workers[w].S3Check? ==> S3Inv(Hand(s, w, data))
    ensures s.workers[w].S3Locked? ==> S3Inv(Hand(s, w, data).(s3Lock := Free))
  {
  }

  /** A missing artefact is stored and handed to the worker that holds the lock. */
  lemma StoringKeepsS3(s: State, t: State, w: nat, k: string, item: nat)
    requires S3Inv(s) && w < |s.workers| && s.workers[w].S3Loading? && k !in s.s3
    requires |t.workers| == |s.workers| && t.workers == s.workers[w := t.workers[w]] && !HoldsS3(t.workers[w])
    requires t.s3Lock == Free && t.s3 == s.s3[k := item] && t.disk == s.disk + {k}
    requires t.loads == s.loads[k := 1] && t.handed == s.handed[k := {item}]
    ensures S3Inv(t)
  {
  }

  lemma S3LoadStores(s: State, w: nat)
    requires Enabled(s, S3Load(w, true))
    ensures var t, k := Do(s, S3Load(w, true)), DataKey(s.workers[w].data);
            t.s3Lock == Free && t.s3 == s.s3[k := s.nextItem] && t.disk == s.disk + {k}
  {
  }

  lemma S3LoadRecords(s: State, w: nat)
    requires Enabled(s, S3Load(w, true))
    ensures var t, k := Do(s, S3Load(w, true)), DataKey(s.workers[w].data);
            t.loads == s.loads[k := LoadsOf(s, k) + 1] && t.handed == s.handed[k := HandedOf(s, k) + {s.nextItem}]
  {
  }

  lemma S3LoadReleases(s: State, w: nat)
    requires Enabled(s, S3Load(w, true))
    ensures var t := Do(s, S3Load(w, true)); w < |t.workers| && !HoldsS3(t.workers[w])
  {
  }

  lemma S3LoadKeepsS3(s: State, w: nat)
    requires S3Inv(s) && Enabled(s, S3Load(w, true))
    ensures S3Inv(Do(s, S3Load(w, true)))
  {
    var k := DataKey(s.workers[w].data);
    assert k !in s.s3 && k !in s.loads && k !in s.handed;
    assert HandedOf(s, k) == {} && LoadsOf(s, k) == 0;
    assert {} + {s.nextItem} == {s.nextItem};
    S3LoadFrame(s, w, true);
    S3LoadReleases(s, w);
    S3LoadStores(s, w);
    S3LoadRecords(s, w);
    StoringKeepsS3(s, Do(s, S3Load(w, true)), w, k, s.nextItem);
  }

  lemma S3FailKeepsS3(s: State, w: nat)
    requires S3Inv(s) && Enabled(s, S3Load(w, false))
    ensures S3Inv(Do(s, S3Load(w, false)))
  {
  }

  lemma S3LockKeepsS3(s: State, a: Action)
    requires S3Inv(s) && Enabled(s, a)
    requires a.S3Acquire? || (a.S3Recheck? && DataKey(s.workers[a.w].data) !in s.s3)
    ensures S3Inv(Do(s, a))
  {
  }

  /** Evicting keys everywhere keeps what is known of the others. */
  lemma EvictKeepsS3(s: State, t: State, kept: set<string>)
    requires S3Inv(s) && t.workers == s.workers && t.s3Lock == s.s3Lock
    requires t.s3 == (map k | k in s.s3 && k in kept :: s.s3[k])
    requires t.loads == (map k | k in s.loads && k in kept :: s.loads[k])
    requires t.handed == (map k | k in s.handed && k in kept :: s.handed[k])
    requires t.disk == s.disk - (s.s3.Keys - kept)
    ensures S3Inv(t)
  {
  }

  lemma CleanKeepsS3(s: State)
    requires S3Inv(s) && Enabled(s, Clean)
    ensures S3Inv(Do(s, Clean))
  {
    EvictKeepsS3(s, CleanStep(s), Kept(s.s3.Keys, Unexpired(s.db, s.cleaner.now).Keys));
  }

  lemma StepKeepsS3(s: State, a: Action)
    requires S3Inv(s) && Enabled(s, a)
    ensures S3Inv(Do(s, a))
  {
    if a.Clean? {
      CleanKeepsS3(s);
    } else if IsDbStep(a) {
      DbStepFrame(s, a);
      S3Frame(s, Do(s, a), a.w);
    } else if a.S3Load? {
      if a.downloads {
        S3LoadKeepsS3(s, a.w);
      } else {
        S3FailKeepsS3(s, a.w);
      }
    } else if IsS3Step(a) {
      S3LookupKeepsS3(s, a);
    }
  }

  lemma S3LookupKeepsS3(s: State, a: Action)
    requires S3Inv(s) && Enabled(s, a) && IsS3Step(a) && !a.S3Load?
    ensures S3Inv(Do(s, a))
  {
    var d := s.workers[a.w].data;
    if a.S3Acquire? {
      S3LockKeepsS3(s, a);
    } else if (a.S3Read? || a.S3Recheck?) && DataKey(d) in s.s3 {
      HandKeepsS3(s, a.w, d);
    } else if a.S3Recheck? {
      S3LockKeepsS3(s, a);
    } else {
      S3Frame(s, Do(s, a), a.w);
    }
  }

  // ---------------------------------------------------------------- eviction

  predicate HoldsDb(pc: Pc) {
    pc.DbLocked? || pc.DbLoading?
  }

  ghost predicate DbLockInv(s: State) {
    && (forall w :: 0 <= w < |s.workers| ==> (HoldsDb(s.workers[w]) <==> s.dbLock == ByWorker(w)))
    && (s.dbLock.ByWorker? ==> s.dbLock.w < |s.workers|)
    && (s.dbLock.ByCleaner? <==> s.cleaner.DbHeld?)
    && (forall w :: 0 <= w < |s.workers| && s.workers[w].DbLoading? ==>
          s.workers[w].problem !in s.db || s.db[s.workers[w].problem].expiresAt <= s.clock)
  }

  ghost predicate TimesInv(s: State) {
    && s.lastClean <= s.clock
    && (!s.cleaner.Resting? ==> s.lastClean <= s.cleaner.now <= s.clock)
  }

  /** While no cleanup has run past the buffer, a served problem keeps a database entry that expires no
      earlier than the time it was served. */
  ghost predicate ServedInv(s: State) {
    forall v :: v in s.served ==>
      s.lastClean > v.time + CLEANUP_BUFFER || (v.problem in s.db && s.db[v.problem].expiresAt >= v.time)
  }

  lemma DbFrame(s: State, t: State, w: nat)
    requires DbLockInv(s) && w < |s.workers| && w < |t.workers|
    requires t.workers == s.workers[w := t.workers[w]] && !HoldsDb(s.workers[w]) && !HoldsDb(t.workers[w])
    requires t.dbLock == s.dbLock && t.db == s.db && t.clock == s.clock && t.cleaner == s.cleaner
    ensures DbLockInv(t)
  {
  }

  lemma DbLockedStepKeepsDbLock(s: State, a: Action)
    requires DbLockInv(s) && Enabled(s, a)
    requires a.DbAcquire? || a.DbRecheck? || a.DbLoad?
    ensures DbLockInv(Do(s, a))
  {
    var t := Do(s, a);
    assert t.workers == s.workers[a.w := t.workers[a.w]] && t.clock == s.clock && t.cleaner == s.cleaner;
  }

  lemma CleanerKeepsDbLock(s: State, a: Action)
    requires DbLockInv(s) && Enabled(s, a)
    requires a.Tick? || a.CleanArm? || a.CleanLockDb? || a.Clean?
    ensures DbLockInv(Do(s, a))
  {
    var t := Do(s, a);
    assert t.workers == s.workers && t.clock >= s.clock;
    assert forall p :: p in t.db ==> p in s.db && t.db[p] == s.db[p];
  }

  lemma StepKeepsDbLock(s: State, a: Action)
    requires DbLockInv(s) && Enabled(s, a)
    ensures DbLockInv(Do(s, a))
  {
    if IsCleanerStep(a) {
      CleanerKeepsDbLock(s, a);
    } else if a.DbAcquire? || a.DbRecheck? || a.DbLoad? {
      DbLockedStepKeepsDbLock(s, a);
    } else if IsS3Step(a) {
      S3StepFrame(s, a);
      DbFrame(s, Do(s, a), a.w);
    } else {
      OutsideStepKeepsDbLock(s, a);
    }
  }

  lemma OutsideStepKeepsDbLock(s: State, a: Action)
    requires DbLockInv(s) && Enabled(s, a) && (a.Begin? || a.DbRead?)
    ensures DbLockInv(Do(s, a))
  {
    DbFrame(s, Do(s, a), a.w);
  }

  lemma StepKeepsTimes(s: State, a: Action)
    requires TimesInv(s) && Enabled(s, a)
    ensures TimesInv(Do(s, a))
  {
  }

  lemma LookupKeepsServed(s: State, a: Action)
    requires KeysInv(s) && ServedInv(s) && Enabled(s, a) && (a.DbRead? || a.DbRecheck?)
    ensures ServedInv(Do(s, a))
  {
    var t, p := Do(s, a), s.workers[a.w].problem;
    assert t.lastClean == s.lastClean && t.db == s.db;
    assert forall v :: v in t.served && v !in s.served ==>
             v.problem == p && v.time == s.clock && Fresh(s.db, p, s.clock);
  }

  lemma LoadKeepsServed(s: State, w: nat, row: Option<ProblemData>)
    requires DbLockInv(s) && ServedInv(s) && Enabled(s, DbLoad(w, row))
    ensures ServedInv(Do(s, DbLoad(w, row)))
  {
    var t, p := Do(s, DbLoad(w, row)), s.workers[w].problem;
    assert t.lastClean == s.lastClean && t.db == Loaded(s.db, p, row, s.clock);
    if row.Some? {
      assert t.served == s.served + {Served(p, row.value.problemVersion, s.clock)};
      assert p in s.db ==> s.db[p].expiresAt <= s.clock;
    } else {
      assert t.served == s.served;
    }
  }

  lemma CleanKeepsServedEntries(s: State)
    requires TimesInv(s) && ServedInv(s) && Enabled(s, Clean)
    ensures ServedInv(Do(s, Clean))
  {
    var t := CleanStep(s);
    assert t.served == s.served;
    assert t.lastClean == s.cleaner.now >= s.lastClean;
    assert t.db == Unexpired(s.db, s.cleaner.now);
  }

  lemma StepKeepsServed(s: State, a: Action)
    requires KeysInv(s) && DbLockInv(s) && TimesInv(s) && ServedInv(s) && Enabled(s, a)
    ensures ServedInv(Do(s, a))
  {
    if a.Clean? {
      CleanKeepsServedEntries(s);
    } else if IsCleanerStep(a) {
      CleanerStepFrame(s, a);
    } else if IsS3Step(a) {
      S3StepFrame(s, a);
    } else if a.DbRead? || a.DbRecheck? {
      LookupKeepsServed(s, a);
    } else if a.DbLoad? {
      LoadKeepsServed(s, a.w, a.row);
    } else {
      QuietKeepsServed(s, a);
    }
  }

  lemma QuietKeepsServed(s: State, a: Action)
    requires ServedInv(s) && Enabled(s, a) && (a.Begin? || a.DbAcquire?)
    ensures ServedInv(Do(s, a))
  {
  }

  ghost predicate Inv(s: State) {
    KeysInv(s) && S3Inv(s) && DbLockInv(s) && TimesInv(s) && ServedInv(s)
  }

  lemma {:induction false} RunKeepsInv(ss: seq<State>, n: nat, i: nat)
    requires IsRun(ss, n) && i < |ss|
    ensures Inv(ss[i])
  {
    if i > 0 {
      RunKeepsInv(ss, n, i - 1);
      var s, t := ss[i - 1], ss[i - 1 + 1];
      assert Next(s, t);
      var a :| Enabled(s, a) && t == Do(s, a);
      StepKeepsKeys(s, a);
      StepKeepsS3(s, a);
      StepKeepsDbLock(s, a);
      StepKeepsTimes(s, a);
      StepKeepsServed(s, a);
    }
  }

  /** A worker that a database step answers was served the answer's problem and version at that time. */
  lemma AnsweredIsServed(s: State, a: Action)
    requires Enabled(s, a) && IsDbStep(a)
    ensures var pc := Do(s, a).workers[a.w];
            pc.S3Check? ==> Served(pc.data.problemId, pc.data.problemVersion, s.clock) in Do(s, a).served
  {
    if a.DbLoad? {
      LoadedIsServed(s, a.w, a.row);
    }
  }

  lemma LoadedIsServed(s: State, w: nat, row: Option<ProblemData>)
    requires Enabled(s, DbLoad(w, row))
    ensures var t := Do(s, DbLoad(w, row));
            t.workers[w].S3Check? ==>
              Served(t.workers[w].data.problemId, t.workers[w].data.problemVersion, s.clock) in t.served
  {
  }

  /** A worker that an artefact step hands an item gets the stored one, and that is recorded. */
  lemma HandedIsRecorded(s: State, a: Action)
    requires Enabled(s, a) && (a.S3Read? || a.S3Recheck?)
    ensures var t := Do(s, a);
            var pc := t.workers[a.w];
            pc.Got? ==> DataKey(pc.data) in t.s3 && t.s3[DataKey(pc.data)] == pc.item && pc.item in HandedOf(t, DataKey(pc.data))
  {
  }

  lemma LoadedIsRecorded(s: State, w: nat, downloads: bool)
    requires Enabled(s, S3Load(w, downloads))
    ensures var t := Do(s, S3Load(w, downloads));
            var pc := t.workers[w];
            pc.Got? ==> DataKey(pc.data) in t.s3 && t.s3[DataKey(pc.data)] == pc.item && pc.item in HandedOf(t, DataKey(pc.data))
                        && LoadsOf(t, DataKey(pc.data)) == LoadsOf(s, DataKey(pc.data)) + 1
  {
  }

  /** At most one successful download between two evictions of a key, and every caller in between gets
      the same item; the directory of every stored artefact is on disk. */
  lemma OneLoadPerResidency(ss: seq<State>, n: nat, i: nat, key: string)
    requires IsRun(ss, n) && i < |ss|
    ensures LoadsOf(ss[i], key) <= 1
    ensures LoadsOf(ss[i], key) == 1 <==> key in ss[i].s3
    ensures forall x, y :: x in HandedOf(ss[i], key) && y in HandedOf(ss[i], key) ==> x == y
    ensures key in ss[i].s3 ==> key in ss[i].disk
  {
    RunKeepsInv(ss, n, i);
  }

  /** In-use eviction: a step that takes away the artefact of a version handed out at some time is a
      cleanup, and one whose clock is within the buffer of that time takes it away exactly if a strictly
      newer version of the problem is stored; the newer one stays. */
  lemma EvictionSafety(ss: seq<State>, n: nat, i: nat, v: Served)
    requires IsRun(ss, n) && i < |ss| - 1
    requires v in ss[i].served && Key(v.problem, v.version) in ss[i].s3
    ensures Key(v.problem, v.version) !in ss[i + 1].s3 ==>
              && ss[i].cleaner.DbHeld?
              && (ss[i].cleaner.now > v.time + CLEANUP_BUFFER || StoredFrom(ss[i + 1], v.problem, v.version + 1))
    ensures Enabled(ss[i], Clean) && ss[i + 1] == Do(ss[i], Clean) && ss[i].cleaner.now <= v.time + CLEANUP_BUFFER ==>
              (Key(v.problem, v.version) !in ss[i + 1].s3 <==> StoredFrom(ss[i], v.problem, v.version + 1))
  {
    var s, t := ss[i], ss[i + 1];
    RunKeepsInv(ss, n, i);
    assert Next(s, t);
    var a :| Enabled(s, a) && t == Do(s, a);
    if Key(v.problem, v.version) !in t.s3 {
      OnlyCleanRemoves(s, a, Key(v.problem, v.version));
    }
    if Enabled(s, Clean) && t == Do(s, Clean) && s.cleaner.now <= v.time + CLEANUP_BUFFER {
      CleanEvictsIffOlder(s, v);
    }
  }

  /** A version of the problem from this one on is in the store. */
  ghost predicate StoredFrom(s: State, problem: string, version: nat) {
    exists newer: nat :: newer >= version && Key(problem, newer) in s.s3
  }

  lemma OnlyCleanRemoves(s: State, a: Action, key: string)
    requires Enabled(s, a) && key in s.s3 && key !in Do(s, a).s3
    ensures a.Clean?
  {
    if IsCleanerStep(a) {
      CleanerStepFrame(s, a);
    } else if IsDbStep(a) {
      DbStepFrame(s, a);
    } else {
      S3StepKeepsStored(s, a, key);
    }
  }

  lemma S3StepKeepsStored(s: State, a: Action, key: string)
    requires Enabled(s, a) && IsS3Step(a) && key in s.s3
    ensures key in Do(s, a).s3
  {
  }

  /** Within the buffer a cleanup keeps the newest stored version of a problem that was handed out, so
      that something at least as new as any stored version stays. */
  lemma CleanKeepsNewest(s: State, v: Served, version: nat)
    requires Inv(s) && Enabled(s, Clean) && v in s.served
    requires Key(v.problem, version) in s.s3 && s.cleaner.now <= v.time + CLEANUP_BUFFER
    ensures StoredFrom(CleanStep(s), v.problem, version)
    ensures Key(v.problem, version) !in CleanStep(s).s3 ==> StoredFrom(CleanStep(s), v.problem, version + 1)
  {
    var k := Key(v.problem, version);
    SplitKey(v.problem, version);
    var db := Unexpired(s.db, s.cleaner.now);
    assert v.problem in db;
    var newest := NewestExists(s.s3.Keys, k);
    assert newest in Kept(s.s3.Keys, db.Keys);
    KeyParts(newest);
    assert newest == Key(v.problem, VersionOf(newest)) && newest in CleanStep(s).s3;
  }

  lemma CleanEvictsIffOlder(s: State, v: Served)
    requires Inv(s) && Enabled(s, Clean) && v in s.served
    requires Key(v.problem, v.version) in s.s3 && s.cleaner.now <= v.time + CLEANUP_BUFFER
    ensures Key(v.problem, v.version) !in CleanStep(s).s3 <==> StoredFrom(s, v.problem, v.version + 1)
    ensures Key(v.problem, v.version) !in CleanStep(s).s3 ==> StoredFrom(CleanStep(s), v.problem, v.version + 1)
  {
    CleanKeepsNewest(s, v, v.version);
    if StoredFrom(s, v.problem, v.version + 1) {
      CleanEvictsOlder(s, v);
    }
  }

  lemma CleanEvictsOlder(s: State, v: Served)
    requires KeysInv(s) && Enabled(s, Clean) && v in s.served
    requires StoredFrom(s, v.problem, v.version + 1)
    ensures Key(v.problem, v.version) !in CleanStep(s).s3
  {
    var newer: nat :| newer >= v.version + 1 && Key(v.problem, newer) in s.s3;
    SplitKey(v.problem, v.version);
    SplitKey(v.problem, newer);
  }

  /** One step while the clock is within the buffer. */
  lemma StepKeepsStored(s: State, a: Action, v: Served)
    requires Inv(s) && Enabled(s, a) && v in s.served && StoredFrom(s, v.problem, v.version)
    requires s.clock <= v.time + CLEANUP_BUFFER
    ensures StoredFrom(Do(s, a), v.problem, v.version)
  {
    var version: nat :| version >= v.version && Key(v.problem, version) in s.s3;
    if Key(v.problem, version) !in Do(s, a).s3 {
      OnlyCleanRemoves(s, a, Key(v.problem, version));
      CleanKeepsNewest(s, v, version);
    }
  }

  /** Through any number of steps: once a version handed out, or a newer one, is stored, such a version
      stays stored as long as the clock is within the buffer of the time it was handed out. */
  lemma InUseStaysStored(ss: seq<State>, n: nat, i: nat, j: nat, v: Served)
    requires IsRun(ss, n) && i <= j < |ss|
    requires v in ss[i].served && StoredFrom(ss[i], v.problem, v.version)
    requires ss[j].clock <= v.time + CLEANUP_BUFFER
    ensures v in ss[j].served && StoredFrom(ss[j], v.problem, v.version)
  {
    var kept := (s: State) => v in s.served && StoredFrom(s, v.problem, v.version);
    forall k | i <= k < j && kept(ss[k]) ensures kept(ss[k + 1]) {
      ClockMonotone(ss, n, k, j);
      RunKeepsStored(ss, n, k, v);
    }
    KeptThrough(ss, i, j, kept);
  }

  lemma {:induction false} KeptThrough(ss: seq<State>, i: nat, j: nat, kept: State -> bool)
    requires i <= j < |ss| && kept(ss[i])
    requires forall k | i <= k < j && kept(ss[k]) :: kept(ss[k + 1])
    ensures kept(ss[j])
  {
    if i < j {
      KeptThrough(ss, i, j - 1, kept);
      assert kept(ss[j - 1]);
    }
  }

  lemma {:induction false} ClockMonotone(ss: seq<State>, n: nat, i: nat, j: nat)
    requires IsRun(ss, n) && i <= j < |ss|
    ensures ss[i].clock <= ss[j].clock
    decreases j - i
  {
    if i < j {
      RunClock(ss, n, i);
      ClockMonotone(ss, n, i + 1, j);
    }
  }

  lemma RunClock(ss: seq<State>, n: nat, i: nat)
    requires IsRun(ss, n) && i < |ss| - 1
    ensures ss[i].clock <= ss[i + 1].clock
  {
    var a := StepOfRun(ss, n, i);
    ServedStays(ss[i], a);
  }

  lemma RunKeepsStored(ss: seq<State>, n: nat, i: nat, v: Served)
    requires IsRun(ss, n) && i < |ss| - 1
    requires v in ss[i].served && StoredFrom(ss[i], v.problem, v.version) && ss[i].clock <= v.time + CLEANUP_BUFFER
    ensures v in ss[i + 1].served && StoredFrom(ss[i + 1], v.problem, v.version)
  {
    var a := StepOfRun(ss, n, i);
    ServedStays(ss[i], a);
    StepKeepsStored(ss[i], a, v);
  }

  lemma StepOfRun(ss: seq<State>, n: nat, i: nat) returns (a: Action)
    requires IsRun(ss, n) && i < |ss| - 1
    ensures Inv(ss[i]) && Enabled(ss[i], a) && ss[i + 1] == Do(ss[i], a)
  {
    RunKeepsInv(ss, n, i);
    assert Next(ss[i], ss[i + 1]);
    a :| Enabled(ss[i], a) && ss[i + 1] == Do(ss[i], a);
  }

  lemma ServedStays(s: State, a: Action)
    requires Enabled(s, a)
    ensures s.served <= Do(s, a).served && s.clock <= Do(s, a).clock
  {
    if IsCleanerStep(a) {
      CleanerStepFrame(s, a);
    } else if IsS3Step(a) {
      S3StepFrame(s, a);
    } else {
      DbStepFrame(s, a);
      if a.DbLoad? {
        DbLoadServes(s, a.w, a.row);
      } else {
        DbStepServes(s, a);
      }
    }
  }

  lemma DbStepServes(s: State, a: Action)
    requires Enabled(s, a) && IsDbStep(a) && !a.DbLoad?
    ensures s.served <= Do(s, a).served
  {
  }

  lemma DbLoadServes(s: State, w: nat, row: Option<ProblemData>)
    requires Enabled(s, DbLoad(w, row))
    ensures s.served <= Do(s, DbLoad(w, row)).served
  {
  }

  /** The cleaner never indexes past a key's parts: every stored key splits in two. */
  lemma CleanerNeverPanics(ss: seq<State>, n: nat, i: nat)
    requires IsRun(ss, n) && i < |ss|
    ensures SplitAll(ss[i].s3.Keys)
  {
    RunKeepsInv(ss, n, i);
    AllKeysSplit(ss[i].s3.Keys);
  }

  /** The worker is inside a lookup. */
  predicate LookingUp(pc: Pc) {
    !pc.Idle? && !pc.Got?
  }

  /** A step of a lookup or cleanup already begun. */
  predicate GoesOn(a: Action) {
    a.DbRead? || a.DbAcquire? || a.DbRecheck? || a.DbLoad? || a.S3Read? || a.S3Acquire? || a.S3Recheck? || a.S3Load?
    || a.CleanLockDb? || a.Clean?
  }

  /** With a lookup or a cleanup under way, one of them can always go on, whatever becomes of the workers
      that were served. */
  lemma NoDeadlock(ss: seq<State>, n: nat, i: nat) returns (a: Action)
    requires IsRun(ss, n) && i < |ss|
    requires !ss[i].cleaner.Resting? || exists w :: 0 <= w < |ss[i].workers| && LookingUp(ss[i].workers[w])
    ensures Enabled(ss[i], a) && GoesOn(a)
  {
    var s := ss[i];
    RunKeepsInv(ss, n, i);
    if s.s3Lock.ByWorker? {
      a := HolderGoesOn(s, s.s3Lock.w);
    } else if s.dbLock.ByWorker? {
      a := HolderGoesOn(s, s.dbLock.w);
    } else if s.cleaner.DbHeld? {
      CleanerNeverPanics(ss, n, i);
      a := Clean;
    } else if s.cleaner.Armed? {
      a := CleanLockDb;
    } else {
      var w :| 0 <= w < |s.workers| && LookingUp(s.workers[w]);
      a := WorkerGoesOn(s, w);
    }
  }

  lemma HolderGoesOn(s: State, w: nat) returns (a: Action)
    requires w < |s.workers| && (HoldsS3(s.workers[w]) || HoldsDb(s.workers[w]))
    ensures Enabled(s, a) && GoesOn(a)
  {
    match s.workers[w] {
      case DbLocked(_) => a := DbRecheck(w);
      case DbLoading(_) => a := DbLoad(w, None);
      case S3Locked(_) => a := S3Recheck(w);
      case S3Loading(_) => a := S3Load(w, false);
    }
  }

  lemma WorkerGoesOn(s: State, w: nat) returns (a: Action)
    requires w < |s.workers| && LookingUp(s.workers[w]) && s.dbLock == Free && s.s3Lock == Free
    ensures Enabled(s, a) && GoesOn(a)
  {
    match s.workers[w] {
      case DbCheck(_) => a := DbRead(w);
      case DbWait(_) => a := DbAcquire(w);
      case S3Check(_) => a := S3Read(w);
      case S3Wait(_) => a := S3Acquire(w);
      case _ => a := HolderGoesOn(s, w);
    }
  }
}
