/** Keys of the artefact store: execution-engine/engine/cache.go joins a problem id and a version with
    an underscore and the cleaner splits them apart again. */
module CacheKeys {
  import opened Decimal

  function Key(id: string, version: nat): string {
    id + ['_'] + Itoa(version)
  }

  function IdOf(key: string): string {
    Split(key, '_')[0]
  }

  /** The cleaner would index past the end on a key without the separator. */
  function VersionOf(key: string): int
    requires |Split(key, '_')| >= 2
  {
    AtoiOrZero(Split(key, '_')[1])
  }

  /** Keys built from an id without underscores. */
  ghost predicate IsKey(key: string) {
    exists id: string, version: nat :: '_' !in id && key == Key(id, version)
  }

  /** Splitting a key gives back the id and the version it was built from. */
  lemma SplitKey(id: string, version: nat)
    requires '_' !in id
    ensures |Split(Key(id, version), '_')| >= 2
    ensures IdOf(Key(id, version)) == id && VersionOf(Key(id, version)) == version
  {
    SplitFirst(id, Itoa(version), '_');
    assert '_' !in Itoa(version);
    SplitWhole(Itoa(version), '_');
    AtoiItoa(version);
  }

  lemma KeyParts(key: string)
    requires IsKey(key)
    ensures |Split(key, '_')| >= 2 && '_' !in IdOf(key) && VersionOf(key) >= 0
    ensures key == Key(IdOf(key), VersionOf(key))
  {
    var id: string, version: nat :| '_' !in id && key == Key(id, version);
    SplitKey(id, version);
  }

  ghost predicate AllKeys(keys: set<string>) {
    forall k :: k in keys ==> IsKey(k)
  }

  lemma AllKeysSplit(keys: set<string>)
    requires AllKeys(keys)
    ensures forall k :: k in keys ==> |Split(k, '_')| >= 2
  {
    forall k | k in keys ensures |Split(k, '_')| >= 2 {
      KeyParts(k);
    }
  }

  ghost predicate SplitAll(keys: set<string>) {
    forall k :: k in keys ==> |Split(k, '_')| >= 2
  }

  /** The keys the cleaner leaves: the problem is still cached, and no stored version of it is newer. */
  ghost function Kept(keys: set<string>, problems: set<string>): set<string>
    requires SplitAll(keys)
  {
    set k | k in keys && IdOf(k) in problems && forall l :: l in keys && IdOf(l) == IdOf(k) ==> VersionOf(l) <= VersionOf(k)
  }

  lemma {:induction false} NewestExists(keys: set<string>, k: string) returns (newest: string)
    requires SplitAll(keys) && k in keys
    ensures newest in keys && IdOf(newest) == IdOf(k) && VersionOf(k) <= VersionOf(newest)
    ensures forall l :: l in keys && IdOf(l) == IdOf(k) ==> VersionOf(l) <= VersionOf(newest)
    decreases keys
  {
    if j :| j in keys && IdOf(j) == IdOf(k) && VersionOf(j) > VersionOf(k) {
      newest := NewestExists(keys - {k}, j);
    } else {
      newest := k;
    }
  }

  /** Cleaner exactness: of each cached problem with stored artefacts exactly one key survives, the one
      with its largest stored version, and of other problems none. */
  lemma KeptIsNewestPerProblem(keys: set<string>, problems: set<string>, id: string)
    requires AllKeys(keys)
    requires SplitAll(keys)
    ensures forall k, l :: k in Kept(keys, problems) && l in Kept(keys, problems) && IdOf(k) == IdOf(l) ==> k == l
    ensures (exists k :: k in Kept(keys, problems) && IdOf(k) == id) <==> id in problems && exists k :: k in keys && IdOf(k) == id
    ensures forall k, l :: k in Kept(keys, problems) && l in keys && IdOf(l) == IdOf(k) ==> VersionOf(l) <= VersionOf(k)
  {
    forall k, l | k in Kept(keys, problems) && l in Kept(keys, problems) && IdOf(k) == IdOf(l) ensures k == l {
      KeyParts(k);
      KeyParts(l);
    }
    if k :| k in keys && IdOf(k) == id && id in problems {
      var newest := NewestExists(keys, k);
      assert newest in Kept(keys, problems);
    }
  }
}
