/** The two caches and their cleaner, one call at a time: execution-engine/engine/cache.go.
    Times are seconds read from one clock that never runs backwards. */
module Cache {
  import opened Options
  import opened Tally
  import opened Decimal
  import opened CacheKeys

  const CLEANUP_THRESHOLD := 30
  const CLEANUP_BUFFER := 5 * 60
  const TTL := 5 * 60

  datatype ProblemData = ProblemData(problemId: string, problemVersion: nat, testCount: nat, checkerLanguage: string,
                                     s3Hash: string, localProblemDir: string)

  datatype DbItem = DbItem(data: ProblemData, expiresAt: int)

  predicate Fresh(store: map<string, DbItem>, problem: string, now: int) {
    problem in store && now < store[problem].expiresAt
  }

  function Loaded(store: map<string, DbItem>, problem: string, row: Option<ProblemData>, at: int): map<string, DbItem> {
    if row.Some? then store[problem := DbItem(row.value, at + TTL)] else store
  }

  function DataKey(data: ProblemData): string {
    Key(data.problemId, data.problemVersion)
  }

  /** A loaded row is served for five minutes, and then no more. */
  lemma FreshForFiveMinutes(store: map<string, DbItem>, problem: string, row: ProblemData, at: int, now: int)
    ensures Fresh(Loaded(store, problem, Some(row), at), problem, now) <==> now < at + 300
    ensures Loaded(store, problem, Some(row), at)[problem].data == row
  {
  }

  /** The database cache. */
  class DbCache {
    var store: map<string, DbItem>

    constructor ()
      ensures store == map[]
    {
      store := map[];
    }

    /** The check under the read lock. */
    method ReadFresh(problem: string, now: int) returns (data: Option<ProblemData>)
      ensures data == if Fresh(store, problem, now) then Some(store[problem].data) else None
    {
      if problem in store && now < store[problem].expiresAt {
        return Some(store[problem].data);
      }
      data := None;
    }

    /** The re-check and load under the write lock; `row` is the database's answer if it is asked, and
        the times are the clock at the re-check and after loading. */
    method LoadLocked(problem: string, row: Option<ProblemData>, now: int, loadedAt: int) returns (data: Option<ProblemData>)
      modifies this
      ensures Fresh(old(store), problem, now) ==> data == Some(old(store)[problem].data) && store == old(store)
      ensures !Fresh(old(store), problem, now) ==> data == row && store == Loaded(old(store), problem, row, loadedAt)
    {
      if problem in store && now < store[problem].expiresAt {
        return Some(store[problem].data);
      }
      if row.Some? {
        store := store[problem := DbItem(row.value, loadedAt + TTL)];
      }
      data := row;
    }

    /** The double-checked lookup, with no other worker between the two sections. */
    method GetOrLoad(problem: string, row: Option<ProblemData>, t1: int, t2: int, t3: int)
      returns (data: Option<ProblemData>)
      requires t1 <= t2 <= t3
      modifies this
      ensures Fresh(old(store), problem, t1) ==> data == Some(old(store)[problem].data) && store == old(store)
      ensures !Fresh(old(store), problem, t1) ==> data == row && store == Loaded(old(store), problem, row, t3)
      ensures problem !in old(store) || old(store)[problem].expiresAt <= t1 ==>
                && data == row
                && (row.Some? ==> store == old(store)[problem := DbItem(row.value, t3 + 300)])
                && (row.None? ==> store == old(store))
    {
      data := ReadFresh(problem, t1);
      if data.None? {
        data := LoadLocked(problem, row, t2, t3);
      }
    }
  }

  /** One downloaded problem; workers keep the reference after the cleaner drops it. */
  class S3Item {
    const path: string
    var compiledBin: Option<seq<bv8>>

    constructor (path: string)
      ensures this.path == path && compiledBin == None
    {
      this.path := path;
      compiledBin := None;
    }
  }

  /** The artefact cache, and the directories under its temporary folder. */
  class S3Cache {
    var store: map<string, S3Item>
    var disk: set<string>

    ghost predicate Valid()
      reads this
    {
      && AllKeys(store.Keys)
      && SplitAll(store.Keys)
      && (forall k :: k in store ==> store[k].path == k)
      && store.Keys <= disk
    }

    constructor ()
      ensures Valid() && store == map[] && disk == {}
    {
      store, disk := map[], {};
    }

    /** The re-check and download under the write lock; a failed download may leave its directory. */
    method LoadLocked(data: ProblemData, downloads: bool) returns (item: S3Item?)
      requires Valid() && '_' !in data.problemId
      modifies this
      ensures Valid()
      ensures var k := DataKey(data);
              && (k in old(store) ==> item == old(store)[k] && store == old(store) && disk == old(disk))
              && (k !in old(store) && downloads ==> item != null && fresh(item) && item.compiledBin == None
                                                    && store == old(store)[k := item])
              && (k !in old(store) && !downloads ==> item == null && store == old(store))
              && (k !in old(store) ==> disk == old(disk) + {k})
    {
      var key := DataKey(data);
      if key in store {
        return store[key];
      }
      disk := disk + {key};
      if !downloads {
        return null;
      }
      KeyIsKey(data);
      item := new S3Item(key);
      store := store[key := item];
    }

    /** The check under the read lock, then the locked section if it missed. */
    method GetOrLoad(data: ProblemData, downloads: bool) returns (item: S3Item?)
      requires Valid() && '_' !in data.problemId
      modifies this
      ensures Valid()
      ensures var k := DataKey(data);
              && (k in old(store) ==> item == old(store)[k] && store == old(store) && disk == old(disk))
              && (k !in old(store) && downloads ==> item != null && fresh(item) && item.compiledBin == None
                                                    && store == old(store)[k := item])
              && (k !in old(store) && !downloads ==> item == null && store == old(store))
              && (k !in old(store) ==> disk == old(disk) + {k})
    {
      if DataKey(data) in store {
        return store[DataKey(data)];
      }
      item := LoadLocked(data, downloads);
    }
  }

  /** The key of an artefact names its problem and version. */
  lemma KeyIsKey(data: ProblemData)
    requires '_' !in data.problemId
    ensures IsKey(DataKey(data)) && |Split(DataKey(data), '_')| >= 2
    ensures IdOf(DataKey(data)) == data.problemId && VersionOf(DataKey(data)) == data.problemVersion
    ensures DataKey(data) == data.problemId + "_" + Itoa(data.problemVersion)
  {
    SplitKey(data.problemId, data.problemVersion);
  }

  /** The database entries a cleanup at `now` keeps. */
  function Unexpired(store: map<string, DbItem>, now: int): map<string, DbItem> {
    map p | p in store && now <= store[p].expiresAt + CLEANUP_BUFFER :: store[p]
  }

  method DropExpired(db: DbCache, now: int) returns (validKeys: set<string>)
    modifies db
    ensures db.store == Unexpired(old(db.store), now) && validKeys == db.store.Keys
    ensures forall p :: p in db.store <==> p in old(db.store) && now <= old(db.store)[p].expiresAt + 300
  {
    var rest := db.store.Keys;
    validKeys := {};
    while rest != {}
      invariant rest <= old(db.store).Keys
      invariant validKeys == set p | p in old(db.store) && p !in rest && now <= old(db.store)[p].expiresAt + CLEANUP_BUFFER
      invariant db.store == map p | p in old(db.store) && (p in rest || now <= old(db.store)[p].expiresAt + CLEANUP_BUFFER)
                            :: old(db.store)[p]
      decreases rest
    {
      var k :| k in rest;
      if now > db.store[k].expiresAt + CLEANUP_BUFFER {
        db.store := Without(db.store, k);
      } else {
        validKeys := validKeys + {k};
      }
      rest := rest - {k};
    }
  }

  /** Largest stored version of each problem. */
  method LatestVersions(keys: set<string>) returns (latest: map<string, int>)
    requires SplitAll(keys)
    ensures forall k :: k in keys ==> IdOf(k) in latest && VersionOf(k) <= latest[IdOf(k)]
    ensures forall id :: id in latest ==> exists k :: k in keys && IdOf(k) == id && VersionOf(k) == latest[id]
  {
    latest := map[];
    var rest := keys;
    while rest != {}
      invariant rest <= keys
      invariant forall k :: k in keys && k !in rest ==> IdOf(k) in latest && VersionOf(k) <= latest[IdOf(k)]
      invariant forall id :: id in latest ==> exists k :: k in keys && IdOf(k) == id && VersionOf(k) == latest[id]
      decreases rest
    {
      var k :| k in rest;
      var key, version := Split(k, '_')[0], AtoiOrZero(Split(k, '_')[1]);
      if key !in latest || latest[key] < version {
        latest := latest[key := version];
      }
      rest := rest - {k};
    }
  }

  /** The test the cleaner applies to one stored key. */
  predicate Stays(key: string, validKeys: set<string>, latest: map<string, int>)
    requires |Split(key, '_')| >= 2 && IdOf(key) in latest
  {
    IdOf(key) in validKeys && VersionOf(key) >= latest[IdOf(key)]
  }

  /** Removes the artefacts of dropped problems and of older versions, with their directories. */
  method DropStale(s3: S3Cache, validKeys: set<string>, latest: map<string, int>)
    requires s3.Valid()
    requires forall k :: k in s3.store ==> IdOf(k) in latest
    modifies s3
    ensures s3.Valid()
    ensures s3.store.Keys == set k | k in old(s3.store) && Stays(k, validKeys, latest)
    ensures forall k :: k in s3.store ==> s3.store[k] == old(s3.store)[k]
    ensures s3.disk == old(s3.disk) - (old(s3.store.Keys) - s3.store.Keys)
  {
    ghost var before, dirs := s3.store, s3.disk;
    var rest := s3.store.Keys;
    while rest != {}
      invariant rest <= s3.store.Keys <= before.Keys
      invariant forall k :: k in s3.store ==> s3.store[k] == before[k]
      invariant forall k :: k in before && k !in rest ==> (k in s3.store <==> Stays(k, validKeys, latest))
      invariant s3.disk == dirs - (before.Keys - s3.store.Keys)
      decreases rest
    {
      var k :| k in rest;
      var key, version := Split(k, '_')[0], AtoiOrZero(Split(k, '_')[1]);
      rest := rest - {k};
      if key !in validKeys || version < latest[key] {
        s3.disk := s3.disk - {s3.store[k].path};
        s3.store := Without(s3.store, k);
      }
    }
  }

  lemma KeptByLatest(keys: set<string>, validKeys: set<string>, latest: map<string, int>)
    requires SplitAll(keys)
    requires forall k :: k in keys ==> IdOf(k) in latest && VersionOf(k) <= latest[IdOf(k)]
    requires forall id :: id in latest ==> exists k :: k in keys && IdOf(k) == id && VersionOf(k) == latest[id]
    ensures Kept(keys, validKeys) == set k | k in keys && Stays(k, validKeys, latest)
  {
    forall k | k in Kept(keys, validKeys) ensures VersionOf(k) >= latest[IdOf(k)] {
      var l :| l in keys && IdOf(l) == IdOf(k) && VersionOf(l) == latest[IdOf(k)];
    }
  }

  /** The cleaner.  Up to the threshold it touches nothing; above it, the database entries past their
      expiry and buffer go, and of the artefacts exactly the newest stored version of each remaining
      problem stays, on disk too. */
  method CleanCache(db: DbCache, s3: S3Cache, now: int)
    requires s3.Valid()
    modifies db, s3
    ensures s3.Valid()
    ensures |old(s3.store.Keys)| <= 30 ==>
              db.store == old(db.store) && s3.store == old(s3.store) && s3.disk == old(s3.disk)
    ensures |old(s3.store.Keys)| > 30 ==>
              && db.store == Unexpired(old(db.store), now)
              && s3.store.Keys == Kept(old(s3.store.Keys), db.store.Keys)
              && (forall k :: k in s3.store ==> s3.store[k] == old(s3.store)[k])
              && s3.disk == old(s3.disk) - (old(s3.store.Keys) - s3.store.Keys)
  {
    if |s3.store.Keys| <= CLEANUP_THRESHOLD {
      return;
    }
    var validKeys := DropExpired(db, now);
    var latest := LatestVersions(s3.store.Keys);
    KeptByLatest(s3.store.Keys, validKeys, latest);
    DropStale(s3, validKeys, latest);
  }

  /** The combined lookup: metadata first, then the artefact of the version the metadata names. */
  method GetOrLoad(db: DbCache, s3: S3Cache, problem: string, row: Option<ProblemData>, downloads: bool,
                   t1: int, t2: int, t3: int) returns (data: Option<ProblemData>)
    requires s3.Valid() && t1 <= t2 <= t3
    requires forall p :: p in db.store ==> '_' !in db.store[p].data.problemId
    requires row.Some? ==> '_' !in row.value.problemId
    modifies db, s3
    ensures s3.Valid()
    ensures data.Some? ==>
              && DataKey(data.value) in s3.store
              && data.value.localProblemDir == DataKey(data.value)
              && problem in db.store
              && data.value == db.store[problem].data.(localProblemDir := DataKey(data.value))
              && (t1 < db.store[problem].expiresAt || t3 < db.store[problem].expiresAt)
  {
    var problemData := db.GetOrLoad(problem, row, t1, t2, t3);
    if problemData.None? {
      return None;
    }
    var item := s3.GetOrLoad(problemData.value, downloads);
    if item == null {
      return None;
    }
    data := Some(problemData.value.(localProblemDir := item.path));
  }
}
