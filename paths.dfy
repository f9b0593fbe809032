/** How the fallback code names files.

    Every path the code touches is derived from the value path of a slot:
    `directory/name` for the committed value, a sibling `<name><postfix>` for the
    lock marker and a sibling `<name>.<millis>.<random>` for each write's temp file.
    Since the sibling of `directory/name` called `name + x` is the string
    `directory/name + x`, these derivations are string suffixes here. */
module Paths {
  import opened FileSystems

  /** Path.resolve: the file called `name` inside `directory`. */
  function Resolve(directory: Path, name: string): Path {
    directory + "/" + name
  }

  /** Path.resolveSibling(p.getFileName() + suffix). */
  function Sibling(p: Path, suffix: string): Path {
    p + suffix
  }

  /** The sibling of a resolved path is the resolved path of the extended name. */
  lemma SiblingOfResolved(directory: Path, name: string, suffix: string)
    ensures Sibling(Resolve(directory, name), suffix) == Resolve(directory, name + suffix)
  {
    assert directory + "/" + name + suffix == directory + "/" + (name + suffix);
  }

  /** "." + the canonical name of a locking class + ".lock" */
  function ClassPostfix(canonicalName: string): string {
    "." + canonicalName + ".lock"
  }

  /** A class postfix is a dot followed by the class's canonical name. */
  lemma ClassPostfixStartsWithName(canonicalName: string)
    requires |canonicalName| > 0
    ensures |ClassPostfix(canonicalName)| >= 2
    ensures ClassPostfix(canonicalName)[0] == '.' && ClassPostfix(canonicalName)[1] == canonicalName[0]
  {
    assert ClassPostfix(canonicalName) == "." + (canonicalName + ".lock");
  }

  const LOCKED_FILE_POSTFIX: string := ClassPostfix("no.digipost.cache2.fallback.disk.LockedFile")
  const DISK_LOCK_FILE_POSTFIX: string := ClassPostfix("no.digipost.cache.fallback.disk.LockFile")
  const LOCK_FILE_POSTFIX: string := ClassPostfix("no.digipost.cache.fallback.LockFile")
  /** The plain postfix of the first two generations' lock files. */
  const LOCK_SUFFIX: string := ".lock"

  /** Length of the random part of a temp-file name. */
  const RANDOM_LENGTH: nat := 10

  predicate IsDigit(c: char) {
    '0' <= c <= '9'
  }

  function DigitChar(d: nat): char
    requires d < 10
  {
    ('0' as int + d) as char
  }

  /** The decimal digits of `n`, most significant first. */
  function Digits(n: nat): (s: string)
    ensures |s| >= 1
    ensures forall i :: 0 <= i < |s| ==> IsDigit(s[i])
  {
    if n < 10 then [DigitChar(n)] else Digits(n / 10) + [DigitChar(n % 10)]
  }

  /** Long.toString, as used when System.currentTimeMillis() is appended to a name. */
  function Decimal(n: int): (s: string)
    ensures |s| >= 1
    ensures s[0] == '-' || IsDigit(s[0])
    ensures n >= 0 ==> forall i :: 0 <= i < |s| ==> IsDigit(s[i])
  {
    if n < 0 then "-" + Digits(-n) else Digits(n)
  }

  /** One value of random.nextInt(25). */
  type Draw = d: int | 0 <= d < 25

  /** (char) (random.nextInt(25) + 'a') */
  function Letter(d: Draw): char {
    (d + 'a' as int) as char
  }

  /** The first `n` values that the random source yields. */
  function Draws(random: nat -> Draw, n: nat): (ds: seq<Draw>)
    ensures |ds| == n
  {
    seq(n, i requires 0 <= i < n => random(i))
  }

  /** The letters the draws `ds` stand for. */
  function Letters(ds: seq<Draw>): (s: string)
    ensures |s| == |ds|
    ensures forall i :: 0 <= i < |s| ==> 'a' <= s[i] <= 'y'
  {
    seq(|ds|, i requires 0 <= i < |ds| => Letter(ds[i]))
  }

  /** randomString(length): appends one letter per draw of the random source. */
  method RandomString(length: nat, random: nat -> Draw) returns (s: string)
    ensures s == Letters(Draws(random, length))
    ensures |s| == length && forall i :: 0 <= i < length ==> 'a' <= s[i] <= 'y'
  {
    s := "";
    var i := 0;
    while i < length
      invariant i <= length
      invariant s == Letters(Draws(random, i))
    {
      s := s + [Letter(random(i))];
      i := i + 1;
    }
  }

  /** The temp file of one write: `<name>.<millis>.<random letters>`. */
  function TempPath(p: Path, millis: int, random: nat -> Draw): Path {
    Sibling(p, "." + Decimal(millis) + "." + Letters(Draws(random, RANDOM_LENGTH)))
  }

  /** A temp path never equals the value path, nor a sibling whose postfix starts
      with a dot followed by something other than a digit or a minus sign. */
  lemma TempPathAvoids(p: Path, millis: int, random: nat -> Draw, postfix: string)
    requires |postfix| >= 2 && postfix[0] == '.' && !IsDigit(postfix[1]) && postfix[1] != '-'
    ensures TempPath(p, millis, random) != p
    ensures TempPath(p, millis, random) != Sibling(p, postfix)
  {
    var t := TempPath(p, millis, random);
    var d := Decimal(millis);
    assert t == p + ("." + d + "." + Letters(Draws(random, RANDOM_LENGTH)));
    assert t[|p| + 1] == d[0];
    assert Sibling(p, postfix)[|p| + 1] == postfix[1];
  }

  /** Temp files never collide with the value file or with any generation's lock marker. */
  lemma TempPathIsNoMarker(p: Path, millis: int, random: nat -> Draw)
    ensures TempPath(p, millis, random) != p
    ensures TempPath(p, millis, random) != Sibling(p, LOCKED_FILE_POSTFIX)
    ensures TempPath(p, millis, random) != Sibling(p, DISK_LOCK_FILE_POSTFIX)
    ensures TempPath(p, millis, random) != Sibling(p, LOCK_FILE_POSTFIX)
    ensures TempPath(p, millis, random) != Sibling(p, LOCK_SUFFIX)
  {
    ClassPostfixStartsWithName("no.digipost.cache2.fallback.disk.LockedFile");
    ClassPostfixStartsWithName("no.digipost.cache.fallback.disk.LockFile");
    ClassPostfixStartsWithName("no.digipost.cache.fallback.LockFile");
    assert LOCK_SUFFIX[1] == 'l';
    TempPathAvoids(p, millis, random, LOCKED_FILE_POSTFIX);
    TempPathAvoids(p, millis, random, DISK_LOCK_FILE_POSTFIX);
    TempPathAvoids(p, millis, random, LOCK_FILE_POSTFIX);
    TempPathAvoids(p, millis, random, LOCK_SUFFIX);
  }

  /** A lock marker is never the value file it guards. */
  lemma MarkerIsNotValue(p: Path, postfix: string)
    requires postfix != ""
    ensures Sibling(p, postfix) != p
  {
    assert |Sibling(p, postfix)| > |p|;
  }
}
