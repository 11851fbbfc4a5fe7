/** Test files, as the importer accepts them and as the engine opens them:
    polygon-service/src/services/polygon/polygon-tests.service.ts and execution-engine/models/job.go. */
module TestFiles {
  import opened Seqs
  import opened Decimal

  // ---------------------------------------------------------------- names

  function Zeros(k: nat): (s: string)
    ensures |s| == k && AllDigits(s)
  {
    seq(k, i => '0')
  }

  /** `String(i).padStart(width, '0')`. */
  function PadStart(s: string, width: nat): string {
    Zeros(if width > |s| then width - |s| else 0) + s
  }

  /** The importer's name of an input file. */
  function ImportName(testCount: nat, i: nat): string {
    PadStart(Itoa(i), |Itoa(testCount)|)
  }

  /** `%0*d`: digits from the right, and zeros until the width is reached. */
  function Formatted(width: nat, n: nat): (s: string)
    ensures s != [] && AllDigits(s)
    decreases n, width
  {
    if n < 10 && width <= 1 then [DigitChar(n)]
    else Formatted(if width > 0 then width - 1 else 0, n / 10) + [DigitChar(n % 10)]
  }

  function GetTestFileName(testCount: nat, test: nat): string {
    Formatted(|Itoa(testCount)|, test)
  }

  function GetAnswerFileName(testCount: nat, test: nat): string {
    GetTestFileName(testCount, test) + ".a"
  }

  /** `name.replace(/^0+/, '')`. */
  function Strip(name: string): string {
    if name != [] && name[0] == '0' then Strip(name[1..]) else name
  }

  lemma {:induction false} FormattedIsPadded(width: nat, n: nat)
    ensures Formatted(width, n) == PadStart(Itoa(n), width)
    decreases n, width
  {
    if !(n < 10 && width <= 1) {
      var w := if width > 0 then width - 1 else 0;
      FormattedIsPadded(w, n / 10);
      if n < 10 {
        assert Zeros(w) == Zeros(w - 1) + ['0'];
        assert DigitChar(0) == '0';
      }
    }
  }

  /** The two services name every test alike. */
  lemma NamesAgree(testCount: nat, i: nat)
    ensures GetTestFileName(testCount, i) == ImportName(testCount, i)
  {
    FormattedIsPadded(|Itoa(testCount)|, i);
  }

  /** A name is as long as the numeral of the number of tests: zeros, and then the test's own numeral. */
  lemma NameLength(testCount: nat, i: nat)
    requires i <= testCount
    ensures |GetTestFileName(testCount, i)| == |Itoa(testCount)| >= |Itoa(i)|
    ensures GetTestFileName(testCount, i) == Zeros(|Itoa(testCount)| - |Itoa(i)|) + Itoa(i)
    ensures GetAnswerFileName(testCount, i) == GetTestFileName(testCount, i) + ['.', 'a']
  {
    ItoaLengthMonotone(i, testCount);
    FormattedIsPadded(|Itoa(testCount)|, i);
  }

  lemma {:induction false} FormattedValue(width: nat, n: nat)
    ensures DigitsValue(Formatted(width, n)) == n
    decreases n, width
  {
    var s := Formatted(width, n);
    if n < 10 && width <= 1 {
      assert s[..0] == [];
    } else {
      var w := if width > 0 then width - 1 else 0;
      FormattedValue(w, n / 10);
      assert s[..|s| - 1] == Formatted(w, n / 10);
      assert DigitValue(s[|s| - 1]) == n % 10;
    }
  }

  /** Different tests have different files, whatever the widths, and no input file is an answer file. */
  lemma NamesDistinct(v: nat, w: nat, i: nat, j: nat)
    ensures Formatted(v, i) == Formatted(w, j) ==> i == j
    ensures Formatted(v, i) + ".a" == Formatted(w, j) + ".a" ==> i == j
    ensures Formatted(v, i) != Formatted(w, j) + ".a"
  {
    FormattedValue(v, i);
    FormattedValue(w, j);
    var a, b := Formatted(v, i), Formatted(w, j) + ".a";
    assert b[..|b| - 2] == Formatted(w, j);
    assert (a + ".a")[..|a|] == a;
    assert b[|b| - 1] == 'a' && !IsDigit('a');
    assert IsDigit(a[|a| - 1]);
  }

  lemma {:induction false} StripZeros(k: nat, s: string)
    ensures Strip(Zeros(k) + s) == Strip(s)
  {
    if k > 0 {
      assert (Zeros(k) + s)[1..] == Zeros(k - 1) + s;
      StripZeros(k - 1, s);
    } else {
      assert Zeros(0) + s == s;
    }
  }

  /** Stripping undoes padding of any width. */
  lemma StripUndoesPadding(width: nat, i: nat, suffix: string)
    requires i >= 1
    ensures Strip(Formatted(width, i) + suffix) == Itoa(i) + suffix
  {
    var k := if width > |Itoa(i)| then width - |Itoa(i)| else 0;
    FormattedIsPadded(width, i);
    assert Formatted(width, i) + suffix == Zeros(k) + (Itoa(i) + suffix);
    StripZeros(k, Itoa(i) + suffix);
    ItoaLeadingDigit(i);
  }

  /** Stripping takes away all leading zeros and nothing else. */
  lemma {:induction false} StripMeaning(name: string)
    ensures exists k: nat :: k <= |name| && Strip(name) == name[k..] && (forall i :: 0 <= i < k ==> name[i] == '0')
                             && (k < |name| ==> name[k] != '0')
  {
    if name != [] && name[0] == '0' {
      StripMeaning(name[1..]);
      var k: nat :| k <= |name[1..]| && Strip(name[1..]) == name[1..][k..] && (forall i :: 0 <= i < k ==> name[1..][i] == '0')
                    && (k < |name[1..]| ==> name[1..][k] != '0');
      assert name[1..][k..] == name[k + 1..];
      assert forall i :: 1 <= i < k + 1 ==> name[i] == name[1..][i - 1];
    } else {
      assert name[0..] == name;
    }
  }

  lemma {:induction false} StripIsIdempotent(name: string)
    ensures Strip(name) != [] ==> Strip(name)[0] != '0'
    ensures Strip(Strip(name)) == Strip(name)
    ensures |Strip(name)| <= |name|
  {
    if name != [] && name[0] == '0' {
      StripIsIdempotent(name[1..]);
    }
  }

  // ---------------------------------------------------------------- what the engine opens

  /** The files of tests 1 to `k`. */
  function FilesUpTo(testCount: nat, k: nat): set<string> {
    if k == 0 then {}
    else FilesUpTo(testCount, k - 1) + {GetTestFileName(testCount, k), GetAnswerFileName(testCount, k)}
  }

  function EngineFiles(testCount: nat): set<string> {
    FilesUpTo(testCount, testCount)
  }

  ghost predicate IsTestFile(testCount: nat, k: nat, name: string) {
    exists i: nat :: 1 <= i <= k && (name == GetTestFileName(testCount, i) || name == GetAnswerFileName(testCount, i))
  }

  lemma {:induction false} FilesUpToMembers(testCount: nat, k: nat, name: string)
    ensures name in FilesUpTo(testCount, k) <==> IsTestFile(testCount, k, name)
  {
    if k > 0 {
      FilesUpToMembers(testCount, k - 1, name);
    }
  }

  /** Two files a test: no name is used twice. */
  lemma {:induction false} FilesUpToCount(testCount: nat, k: nat)
    ensures |FilesUpTo(testCount, k)| == 2 * k
  {
    if k > 0 {
      FilesUpToCount(testCount, k - 1);
      NewNames(testCount, k - 1, k);
      var w := |Itoa(testCount)|;
      NamesDistinct(w, w, k, k);
      var before, a, b := FilesUpTo(testCount, k - 1), GetTestFileName(testCount, k), GetAnswerFileName(testCount, k);
      assert |before + {a}| == |before| + 1;
      assert before + {a, b} == before + {a} + {b};
    }
  }

  lemma NewNames(testCount: nat, k: nat, i: nat)
    requires k < i
    ensures GetTestFileName(testCount, i) !in FilesUpTo(testCount, k)
    ensures GetAnswerFileName(testCount, i) !in FilesUpTo(testCount, k)
  {
    var w := |Itoa(testCount)|;
    var input, answer := GetTestFileName(testCount, i), GetAnswerFileName(testCount, i);
    FilesUpToMembers(testCount, k, input);
    FilesUpToMembers(testCount, k, answer);
    forall j: nat | j <= k
      ensures input != GetTestFileName(testCount, j) && input != GetAnswerFileName(testCount, j)
      ensures answer != GetTestFileName(testCount, j) && answer != GetAnswerFileName(testCount, j)
    {
      NamesDistinct(w, w, i, j);
      NamesDistinct(w, w, j, i);
    }
  }

  lemma Pigeonhole<T>(small: set<T>, big: set<T>)
    requires small <= big && |big| <= |small|
    ensures small == big
  {
    assert |big - small| == |big| - |small|;
  }

  // ---------------------------------------------------------------- the directory

  datatype Node = File(content: seq<bv8>) | Directory | Special

  type Dir = map<string, Node>

  /** Where an entry goes when leading zeros are stripped from the files. */
  function Target(dir: Dir, name: string): string
    requires name in dir
  {
    if dir[name].File? then Strip(name) else name
  }

  /** A rename that the file system refuses: onto the directory itself, or onto a directory. */
  predicate Refused(dir: Dir, name: string)
    requires name in dir
  {
    && dir[name].File? && Target(dir, name) != name
    && (Target(dir, name) == "" || (Target(dir, name) in dir && dir[Target(dir, name)].Directory?))
  }

  /** The names after stripping. */
  function Targets(dir: Dir): set<string> {
    set name | name in dir :: Target(dir, name)
  }

  function FileTargets(dir: Dir): set<string> {
    set name | name in dir && dir[name].File? :: Target(dir, name)
  }

  ghost predicate CameFrom(before: Dir, done: set<string>, name: string, node: Node) {
    exists n :: n in before && n in done && Target(before, n) == name && node == before[n]
  }

  ghost predicate RenamedTo(before: Dir, done: set<string>, name: string, node: Node) {
    exists n :: n in before && n in done && Target(before, n) == name && n != name && node == before[n]
  }

  /** What stripping may leave: each target once, holding one of the entries that went there, a file
      whenever one of them is a file, and a renamed one whenever one of them was renamed. */
  ghost predicate IsFixed(before: Dir, after: Dir) {
    && after.Keys == Targets(before)
    && (forall m :: m in after ==> CameFrom(before, before.Keys, m, after[m]))
    && (forall n :: n in before && before[n].File? ==> after[Target(before, n)].File?)
    && (forall n :: n in before && Target(before, n) != n ==>
          RenamedTo(before, before.Keys, Target(before, n), after[Target(before, n)]))
  }

  /** Part of the way there: the entries in `done` have been looked at. */
  ghost predicate Progress(before: Dir, now: Dir, done: set<string>) {
    && done <= before.Keys
    && (forall m :: m in now ==> (m in before && m !in done && now[m] == before[m]) || CameFrom(before, done, m, now[m]))
    && (forall n :: n in done ==> Target(before, n) in now && (before[n].File? ==> now[Target(before, n)].File?))
    && (forall n :: n in done && Target(before, n) != n ==> RenamedTo(before, done, Target(before, n), now[Target(before, n)]))
    && (forall n :: n in before && n !in done ==> n in now && (Target(before, n) != n ==> now[n] == before[n]))
    && (forall n :: n in before && before[n].Directory? ==> n in now && now[n].Directory?)
  }

  /** Stripped names have no leading zero, so no rename goes to an entry that is still to be renamed. */
  lemma TargetsAreSettled(before: Dir, n: string, m: string)
    requires n in before && m in before && Target(before, m) != m
    requires n != m
    ensures Target(before, n) != m
  {
    StripIsIdempotent(n);
    StripIsIdempotent(m);
  }

  lemma ProgressKept(before: Dir, now: Dir, done: set<string>, name: string)
    requires Progress(before, now, done) && name in before && name !in done
    requires Target(before, name) == name
    ensures Progress(before, now, done + {name})
  {
    var more := done + {name};
    forall m | m in now ensures (m in before && m !in more && now[m] == before[m]) || CameFrom(before, more, m, now[m]) {
      if CameFrom(before, done, m, now[m]) {
        var n :| n in before && n in done && Target(before, n) == m && now[m] == before[n];
        assert n in more;
      }
    }
    forall n | n in more && Target(before, n) != n
      ensures RenamedTo(before, more, Target(before, n), now[Target(before, n)])
    {
      RenamedMore(before, done, more, Target(before, n), now[Target(before, n)]);
    }
  }

  lemma RenamedMore(before: Dir, done: set<string>, more: set<string>, name: string, node: Node)
    requires RenamedTo(before, done, name, node) && done <= more
    ensures RenamedTo(before, more, name, node)
  {
    var n :| n in before && n in done && Target(before, n) == name && n != name && node == before[n];
    assert n in more;
  }

  lemma ProgressRenamed(before: Dir, now: Dir, done: set<string>, name: string, after: Dir)
    requires Progress(before, now, done) && name in before && name !in done
    requires Target(before, name) != name && !Refused(before, name)
    requires after == (now - {name})[Target(before, name) := now[name]]
    ensures Progress(before, after, done + {name})
  {
    var more := done + {name};
    var to := Target(before, name);
    forall n | n in before && n != name ensures Target(before, n) != name {
      TargetsAreSettled(before, n, name);
    }
    forall n | n in before && Target(before, n) != n ensures to != n {
      if n != name { TargetsAreSettled(before, name, n); }
    }
    forall m | m in after ensures (m in before && m !in more && after[m] == before[m]) || CameFrom(before, more, m, after[m]) {
      if m == to {
        assert name in more;
      } else if CameFrom(before, done, m, now[m]) {
        var n :| n in before && n in done && Target(before, n) == m && now[m] == before[n];
        assert n in more;
      }
    }
    forall n | n in more && Target(before, n) != n
      ensures Target(before, n) in after && RenamedTo(before, more, Target(before, n), after[Target(before, n)])
    {
      if Target(before, n) == to {
        assert name in more;
      } else {
        RenamedMore(before, done, more, Target(before, n), now[Target(before, n)]);
      }
    }
  }

  lemma ProgressDone(before: Dir, now: Dir)
    requires Progress(before, now, before.Keys)
    ensures IsFixed(before, now)
  {
  }

  /** An entry still to be looked at is as it was at the start, and so is what a rename would meet. */
  lemma EntryAsAtStart(before: Dir, now: Dir, done: set<string>, name: string)
    requires Progress(before, now, done) && name in before && name !in done
    ensures name in now && (Target(before, name) == name <==> Target(now, name) == name)
    ensures Target(before, name) != name ==> now[name] == before[name]
    ensures Refused(now, name) <==> Refused(before, name)
  {
    if CameFrom(before, done, name, now[name]) {
      var n :| n in before && n in done && Target(before, n) == name && now[name] == before[n];
      StripIsIdempotent(n);
    }
  }

  lemma StartOfProgress(before: Dir)
    ensures Progress(before, before, {})
  {
  }

  class TestsDir {
    var entries: Dir

    constructor (dir: Dir)
      ensures entries == dir
    {
      entries := dir;
    }

    /** `readdir`: every name once, in an order of the file system's choice. */
    method ReadDir() returns (names: seq<string>)
      ensures NoDuplicates(names)
      ensures forall name :: name in names <==> name in entries
      ensures |names| == |entries|
    {
      names := [];
      var rest := entries.Keys;
      while rest != {}
        invariant rest <= entries.Keys && NoDuplicates(names)
        invariant forall name :: name in names <==> name in entries && name !in rest
        invariant |names| + |rest| == |entries|
      {
        var name :| name in rest;
        names := names + [name];
        rest := rest - {name};
      }
    }

    /** One entry of the loop in `FixTestCases`. */
    method FixEntry(name: string, ghost before: Dir, ghost done: set<string>) returns (ok: bool)
      requires Progress(before, entries, done) && name in before && name !in done
      modifies this
      ensures ok <==> !Refused(before, name)
      ensures ok ==> Progress(before, entries, done + {name})
      ensures !ok ==> entries == old(entries)
    {
      if entries[name].File? {
        var newName := Strip(name);
        EntryAsAtStart(before, entries, done, name);
        if newName != name {
          if newName == "" || (newName in entries && entries[newName].Directory?) {
            return false;
          }
          entries := (entries - {name})[newName := entries[name]];
          ProgressRenamed(before, old(entries), done, name, entries);
          return true;
        }
      }
      EntryAsAtStart(before, entries, done, name);
      ProgressKept(before, entries, done, name);
      ok := true;
    }

    /** Strips the leading zeros of every file's name.  It stops when the file system refuses a rename. */
    method FixTestCases() returns (ok: bool)
      modifies this
      ensures ok <==> forall name :: name in old(entries) ==> !Refused(old(entries), name)
      ensures ok ==> IsFixed(old(entries), entries)
    {
      ghost var before := entries;
      var names := ReadDir();
      ghost var done: set<string> := {};
      StartOfProgress(before);
      for i := 0 to |names|
        invariant forall name :: name in done <==> name in names[..i]
        invariant Progress(before, entries, done)
        invariant forall name :: name in done ==> !Refused(before, name)
      {
        assert names[..i + 1] == names[..i] + [names[i]];
        assert names[i] in before && names[i] !in done;
        var fixed := FixEntry(names[i], before, done);
        if !fixed {
          return false;
        }
        done := done + {names[i]};
      }
      assert done == before.Keys;
      ProgressDone(before, entries);
      ok := true;
    }

    /** Accepts a directory for `testCount` tests. */
    method ValidateTestCases(testCount: nat) returns (ok: bool)
      modifies this
      ensures ok ==> IsPackage(entries, testCount)
      ensures ok ==> forall name :: name in entries ==> |name| in {|Itoa(testCount)|, |Itoa(testCount)| + 2}
      ensures testCount >= 10 ==> entries == old(entries) && (ok <==> IsPackage(entries, testCount))
      ensures testCount < 10 ==> (ok <==> StripsToPackage(old(entries), testCount))
      ensures testCount < 10 && ok ==> IsFixed(old(entries), entries)
    {
      if testCount < 10 {
        var fixed := FixTestCases();
        if !fixed {
          return false;
        }
        FixedIsPackage(old(entries), entries, testCount);
      }
      ok := CheckTestCases(testCount);
      if ok {
        PackageNameLengths(entries, testCount);
      }
    }

    /** The part of `ValidateTestCases` that only looks. */
    method CheckTestCases(testCount: nat) returns (ok: bool)
      ensures ok <==> IsPackage(entries, testCount)
    {
      var names := ReadDir();
      if |names| != testCount * 2 {
        FilesUpToCount(testCount, testCount);
        return false;
      }
      for k := 0 to |names|
        invariant forall j :: 0 <= j < k ==> entries[names[j]].File?
      {
        if !entries[names[k]].File? {
          return false;
        }
      }
      for i := 1 to testCount + 1
        invariant FilesUpTo(testCount, i - 1) <= entries.Keys
      {
        var fileName := ImportName(testCount, i);
        NamesAgree(testCount, i);
        FilesUpToMembers(testCount, testCount, fileName);
        FilesUpToMembers(testCount, testCount, fileName + ".a");
        if fileName !in names {
          return false;
        }
        if fileName + ".a" !in names {
          return false;
        }
      }
      FilesUpToCount(testCount, testCount);
      Pigeonhole(EngineFiles(testCount), entries.Keys);
      ok := true;
    }
  }

  // ---------------------------------------------------------------- what acceptance means

  /** The entries are exactly the files the engine opens. */
  ghost predicate IsPackage(dir: Dir, testCount: nat) {
    && dir.Keys == EngineFiles(testCount)
    && forall name :: name in dir ==> dir[name].File?
  }

  lemma PackageNameLengths(dir: Dir, testCount: nat)
    requires IsPackage(dir, testCount)
    ensures forall name :: name in dir ==> |name| in {|Itoa(testCount)|, |Itoa(testCount)| + 2}
  {
    forall name | name in dir ensures |name| in {|Itoa(testCount)|, |Itoa(testCount)| + 2} {
      FilesUpToMembers(testCount, testCount, name);
      var i: nat :| 1 <= i <= testCount && (name == GetTestFileName(testCount, i) || name == GetAnswerFileName(testCount, i));
      NameLength(testCount, i);
    }
  }

  /** What a package of fewer than ten tests may look like before its names are stripped: no rename is
      refused, every entry goes to a file the engine opens, and a file goes to each of them. */
  ghost predicate StripsToPackage(dir: Dir, testCount: nat) {
    && (forall name :: name in dir ==> !Refused(dir, name))
    && Targets(dir) == EngineFiles(testCount) == FileTargets(dir)
  }

  lemma FixedIsPackage(before: Dir, after: Dir, testCount: nat)
    requires IsFixed(before, after)
    requires forall name :: name in before ==> !Refused(before, name)
    ensures IsPackage(after, testCount) <==> StripsToPackage(before, testCount)
  {
    assert FileTargets(before) <= Targets(before);
    forall m | m in after ensures after[m].File? <==> m in FileTargets(before) {
      var n :| n in before && Target(before, n) == m && after[m] == before[n];
    }
  }

  ghost predicate IsPaddedName(name: string, testCount: nat, inputWidth: nat -> nat, answerWidth: nat -> nat) {
    exists i: nat :: 1 <= i <= testCount && (name == Formatted(inputWidth(i), i) || name == Formatted(answerWidth(i), i) + ".a")
  }

  /** Every test's two files, each padded to any width, and nothing else. */
  ghost predicate IsPadded(dir: Dir, testCount: nat, inputWidth: nat -> nat, answerWidth: nat -> nat) {
    && (forall name :: name in dir <==> IsPaddedName(name, testCount, inputWidth, answerWidth))
    && (forall name :: name in dir ==> dir[name].File?)
  }

  lemma ShortNames(testCount: nat, i: nat)
    requires 1 <= i <= testCount < 10
    ensures GetTestFileName(testCount, i) == Itoa(i)
  {
  }

  /** With fewer than ten tests, a package padded to any widths at all is accepted. */
  lemma PaddedPackageAccepted(dir: Dir, testCount: nat, inputWidth: nat -> nat, answerWidth: nat -> nat)
    requires testCount < 10 && IsPadded(dir, testCount, inputWidth, answerWidth)
    ensures StripsToPackage(dir, testCount)
  {
    forall name | name in dir ensures Target(dir, name) in EngineFiles(testCount) && !Refused(dir, name) {
      PaddedGoesToFile(dir, testCount, inputWidth, answerWidth, name);
    }
    forall file | file in EngineFiles(testCount) ensures file in FileTargets(dir) {
      FileIsReached(dir, testCount, inputWidth, answerWidth, file);
    }
    assert FileTargets(dir) <= Targets(dir);
  }

  lemma PaddedGoesToFile(dir: Dir, testCount: nat, inputWidth: nat -> nat, answerWidth: nat -> nat, name: string)
    requires testCount < 10 && IsPadded(dir, testCount, inputWidth, answerWidth) && name in dir
    ensures Target(dir, name) in EngineFiles(testCount) && Target(dir, name) != ""
  {
    assert IsPaddedName(name, testCount, inputWidth, answerWidth);
    var i: nat :| 1 <= i <= testCount && (name == Formatted(inputWidth(i), i) || name == Formatted(answerWidth(i), i) + ".a");
    PaddedTarget(testCount, i, inputWidth(i), answerWidth(i));
    FilesUpToMembers(testCount, testCount, Target(dir, name));
  }

  lemma FileIsReached(dir: Dir, testCount: nat, inputWidth: nat -> nat, answerWidth: nat -> nat, file: string)
    requires testCount < 10 && IsPadded(dir, testCount, inputWidth, answerWidth) && file in EngineFiles(testCount)
    ensures file in FileTargets(dir)
  {
    FilesUpToMembers(testCount, testCount, file);
    var i: nat :| 1 <= i <= testCount && (file == GetTestFileName(testCount, i) || file == GetAnswerFileName(testCount, i));
    PaddedTarget(testCount, i, inputWidth(i), answerWidth(i));
    var name := if file == GetTestFileName(testCount, i) then Formatted(inputWidth(i), i) else Formatted(answerWidth(i), i) + ".a";
    assert IsPaddedName(name, testCount, inputWidth, answerWidth);
  }

  lemma PaddedTarget(testCount: nat, i: nat, v: nat, w: nat)
    requires 1 <= i <= testCount < 10
    ensures Strip(Formatted(v, i)) == GetTestFileName(testCount, i) != ""
    ensures Strip(Formatted(w, i) + ".a") == GetAnswerFileName(testCount, i)
  {
    ShortNames(testCount, i);
    StripUndoesPadding(v, i, "");
    StripUndoesPadding(w, i, ".a");
    assert Formatted(v, i) + "" == Formatted(v, i);
    assert Itoa(i) + "" == Itoa(i);
  }

  lemma {:induction false} TargetsCount(dir: Dir, names: set<string>)
    requires names <= dir.Keys
    ensures |set name | name in names :: Target(dir, name)| <= |names|
  {
    if names != {} {
      var n :| n in names;
      var rest := names - {n};
      TargetsCount(dir, rest);
      assert (set name | name in names :: Target(dir, name)) == (set name | name in rest :: Target(dir, name)) + {Target(dir, n)};
    }
  }

  lemma CollisionShrinks(dir: Dir, n: string, m: string)
    requires n in dir && m in dir && n != m && Target(dir, n) == Target(dir, m)
    ensures |Targets(dir)| < |dir.Keys|
  {
    var rest := dir.Keys - {m};
    TargetsCount(dir, rest);
    assert n in rest;
    assert Targets(dir) == set name | name in rest :: Target(dir, name);
  }

  /** Stripping keeps every entry's content under its stripped name exactly if entries whose stripped
      names are equal have equal contents. */
  lemma NothingLostIff(before: Dir, after: Dir)
    requires IsFixed(before, after)
    ensures (forall n :: n in before ==> after[Target(before, n)] == before[n]) <==>
            (forall n, m :: n in before && m in before && Target(before, n) == Target(before, m) ==> before[n] == before[m])
  {
    forall n | n in before ensures CameFrom(before, before.Keys, Target(before, n), after[Target(before, n)]) {
    }
  }

  /** If stripping leaves as many entries as there were, no two of them went to one name. */
  lemma NothingOverwritten(before: Dir, after: Dir, name: string)
    requires IsFixed(before, after) && |after| == |before| && name in before
    ensures after[Target(before, name)] == before[name]
  {
    var to := Target(before, name);
    assert |after.Keys| == |after| && |before.Keys| == |before|;
    var n :| n in before && Target(before, n) == to && after[to] == before[n];
    if n != name {
      CollisionShrinks(before, n, name);
    }
  }

  /** An accepted directory that loses a test: the file 01 replaces the file 1, whatever order the
      directory is listed in, and the package of one test is accepted. */
  lemma AcceptedWithLoss(a: seq<bv8>, b: seq<bv8>, c: seq<bv8>) returns (before: Dir)
    requires a != b
    ensures before == map["1" := File(a), "01" := File(b), "1.a" := File(c)]
    ensures StripsToPackage(before, 1)
    ensures forall after | IsFixed(before, after) :: after == map["1" := File(b), "1.a" := File(c)]
  {
    before := map["1" := File(a), "01" := File(b), "1.a" := File(c)];
    StripExamples();
    OneTestFiles();
    assert Targets(before) == {"1", "1.a"} == FileTargets(before) by {
      assert Target(before, "1") == "1" && Target(before, "1.a") == "1.a" && Target(before, "01") == "1";
    }
    forall after | IsFixed(before, after) ensures after == map["1" := File(b), "1.a" := File(c)] {
      assert RenamedTo(before, before.Keys, Target(before, "01"), after["1"]);
      assert CameFrom(before, before.Keys, "1.a", after["1.a"]);
    }
  }

  lemma StripExamples()
    ensures Strip("1") == "1" && Strip("1.a") == "1.a" && Strip("01") == "1"
  {
    assert "01"[1..] == "1";
  }

  lemma OneTestFiles()
    ensures EngineFiles(1) == {"1", "1.a"}
  {
    assert FilesUpTo(1, 0) == {};
    assert GetTestFileName(1, 1) == "1";
    assert GetAnswerFileName(1, 1) == "1.a";
  }
}
