// Version ordering and the choice of the build a host installs.
module Versions {
  import opened Prelude

  // ---- Version numbers ----

  // The pieces of a string between its dots; a string without a dot is one piece.
  function SplitDots(s: string): (r: seq<string>)
    ensures |r| >= 1
  {
    if s == "" then [""]
    else
      var rest := SplitDots(s[1..]);
      if s[0] == '.' then [""] + rest else [[s[0]] + rest[0]] + rest[1..]
  }

  predicate IsDigit(c: char) {
    '0' <= c <= '9'
  }

  function Digit(c: char): nat {
    if IsDigit(c) then c as int - '0' as int else 0
  }

  function DigitsValue(s: string): nat {
    if s == "" then 0 else DigitsValue(s[..|s| - 1]) * 10 + Digit(s[|s| - 1])
  }

  predicate AllDigits(s: string) {
    forall i :: 0 <= i < |s| ==> IsDigit(s[i])
  }

  function Unsigned(s: string): string {
    if s != "" && s[0] == '+' then s[1..] else s
  }

  // An unsigned 32-bit number in decimal, with an optional plus sign.
  function ParseU32(s: string): Option<nat> {
    if Unsigned(s) == "" || !AllDigits(Unsigned(s)) then None
    else if DigitsValue(Unsigned(s)) >= TWO_32 then None
    else Some(DigitsValue(Unsigned(s)))
  }

  // Pieces that are not numbers are passed over.
  function Numbers(pieces: seq<string>): seq<nat> {
    if pieces == [] then []
    else
      var n := ParseU32(pieces[0]);
      (if n.Some? then [n.value] else []) + Numbers(pieces[1..])
  }

  function Parts(version: string): seq<nat> {
    Numbers(SplitDots(version))
  }

  // Missing parts count as zero.
  function Part(parts: seq<nat>, i: nat): nat {
    if i < |parts| then parts[i] else 0
  }

  predicate AgreeBelow(a: seq<nat>, b: seq<nat>, i: nat) {
    forall j: nat :: j < i ==> Part(a, j) == Part(b, j)
  }

  predicate SmallerAt(a: seq<nat>, b: seq<nat>, i: nat) {
    AgreeBelow(a, b, i) && Part(a, i) < Part(b, i)
  }

  // `a` is smaller at the first place where the two differ.
  ghost predicate Older(a: seq<nat>, b: seq<nat>) {
    exists i: nat :: SmallerAt(a, b, i)
  }

  ghost predicate Same(a: seq<nat>, b: seq<nat>) {
    forall i: nat :: Part(a, i) == Part(b, i)
  }

  datatype Ordering = Less | Equal | Greater

  method CompareVersions(a: string, b: string) returns (r: Ordering)
    ensures r.Less? <==> Older(Parts(a), Parts(b))
    ensures r.Greater? <==> Older(Parts(b), Parts(a))
    ensures r.Equal? <==> Same(Parts(a), Parts(b))
  {
    var pa, pb := Parts(a), Parts(b);
    hide Parts;
    var n := if |pa| >= |pb| then |pa| else |pb|;
    for i := 0 to n
      invariant AgreeBelow(pa, pb, i)
    {
      var x, y := Part(pa, i), Part(pb, i);
      if x != y {
        if x < y {
          assert SmallerAt(pa, pb, i);
          OneWay(pa, pb, i);
          return Less;
        }
        assert SmallerAt(pb, pa, i);
        OneWay(pb, pa, i);
        return Greater;
      }
    }
    assert Same(pa, pb) by {
      forall i: nat ensures Part(pa, i) == Part(pb, i) {}
    }
    r := Equal;
  }

  lemma {:induction false} OneWay(a: seq<nat>, b: seq<nat>, i: nat)
    requires SmallerAt(a, b, i)
    ensures Older(a, b) && !Older(b, a) && !Same(a, b)
  {
    forall j: nat ensures !SmallerAt(b, a, j) {
      if i < j {
        assert Part(b, i) != Part(a, i);
      } else if j < i {
        assert Part(a, j) == Part(b, j);
      }
    }
    assert Part(a, i) != Part(b, i);
  }

  // The order is a total preorder: exactly one of older, the same, newer holds of any two versions,
  lemma {:induction false} Trichotomy(a: seq<nat>, b: seq<nat>)
    ensures Older(a, b) || Older(b, a) || Same(a, b)
    ensures !(Older(a, b) && Older(b, a)) && !(Older(a, b) && Same(a, b))
  {
    if !Same(a, b) {
      var k: nat :| Part(a, k) != Part(b, k);
      var i := FirstDifference(a, b, k);
      assert SmallerAt(a, b, i) || SmallerAt(b, a, i);
    }
    if Older(a, b) {
      var i: nat :| SmallerAt(a, b, i);
      OneWay(a, b, i);
    }
  }

  lemma {:induction false} FirstDifference(a: seq<nat>, b: seq<nat>, k: nat) returns (i: nat)
    requires Part(a, k) != Part(b, k)
    ensures Part(a, i) != Part(b, i) && AgreeBelow(a, b, i)
    decreases k
  {
    if AgreeBelow(a, b, k) {
      i := k;
    } else {
      var j: nat :| j < k && Part(a, j) != Part(b, j);
      i := FirstDifference(a, b, j);
    }
  }

  ghost predicate NotOlder(a: seq<nat>, b: seq<nat>) {
    Older(b, a) || Same(b, a)
  }

  // and being no older is transitive.
  lemma {:induction false} NotOlderTransitive(a: seq<nat>, b: seq<nat>, c: seq<nat>)
    requires NotOlder(a, b) && NotOlder(b, c)
    ensures NotOlder(a, c)
  {
    if Older(b, a) && Older(c, b) {
      var j: nat :| SmallerAt(b, a, j);
      var k: nat :| SmallerAt(c, b, k);
      assert SmallerAt(c, a, Min(j, k));
    } else if Older(b, a) {
      var j: nat :| SmallerAt(b, a, j);
      assert SmallerAt(c, a, j);
    } else if Older(c, b) {
      var k: nat :| SmallerAt(c, b, k);
      assert SmallerAt(c, a, k);
    }
  }

  // ---- Builds ----

  datatype Package = Package(name: string, format: string, url: string, sha256: string, size: nat)

  datatype Build = Build(platform: string, packages: seq<Package>, package: Option<Package>)

  // The operating system is what stands before the first dash.
  function OsOf(platform: string): string {
    if platform == "" || platform[0] == '-' then "" else [platform[0]] + OsOf(platform[1..])
  }

  function Preference(os: string): seq<string> {
    if os == "darwin" then ["pkg"]
    else if os == "linux" then ["deb", "rpm"]
    else if os == "windows" then ["msi", "exe"]
    else []
  }

  predicate FirstWith(packages: seq<Package>, format: string, i: nat) {
    i < |packages| && packages[i].format == format && forall j :: 0 <= j < i ==> packages[j].format != format
  }

  predicate Offers(packages: seq<Package>, format: string) {
    exists i :: 0 <= i < |packages| && packages[i].format == format
  }

  method FindFormat(packages: seq<Package>, format: string) returns (r: Option<Package>)
    ensures r.None? <==> !Offers(packages, format)
    ensures r.Some? ==> exists i: nat :: FirstWith(packages, format, i) && r.value == packages[i]
  {
    for i := 0 to |packages|
      invariant forall j :: 0 <= j < i ==> packages[j].format != format
    {
      if packages[i].format == format {
        assert FirstWith(packages, format, i);
        return Some(packages[i]);
      }
    }
    r := None;
  }

  // The installer in the most preferred format on offer; failing that, whatever comes first; failing
  // that, the legacy one.
  ghost predicate IsPrimary(b: Build, r: Option<Package>) {
    var preference := Preference(OsOf(b.platform));
    && (forall f :: 0 <= f < |preference| && Offers(b.packages, preference[f])
          && (forall g :: 0 <= g < f ==> !Offers(b.packages, preference[g]))
          ==> exists i: nat :: FirstWith(b.packages, preference[f], i) && r == Some(b.packages[i]))
    && ((forall f :: 0 <= f < |preference| ==> !Offers(b.packages, preference[f]))
          ==> r == if b.packages != [] then Some(b.packages[0]) else b.package)
  }

  method PrimaryPackage(b: Build) returns (r: Option<Package>)
    ensures IsPrimary(b, r)
  {
    var preference := Preference(OsOf(b.platform));
    hide Preference, OsOf;
    for f := 0 to |preference|
      invariant forall g :: 0 <= g < f ==> !Offers(b.packages, preference[g])
    {
      var found := FindFormat(b.packages, preference[f]);
      if found.Some? {
        assert Offers(b.packages, preference[f]);
        return found;
      }
    }
    r := if b.packages != [] then Some(b.packages[0]) else b.package;
  }

  ghost predicate Installable(b: Build) {
    b.packages != [] || b.package.Some?
  }

  lemma {:induction false} OsIs(os: string, rest: string)
    requires forall i :: 0 <= i < |os| ==> os[i] != '-'
    ensures OsOf(os + "-" + rest) == os && OsOf(os) == os
  {
    if os == "" {
      assert os + "-" + rest == "-" + rest;
    } else {
      assert (os + "-" + rest)[1..] == os[1..] + "-" + rest;
      OsIs(os[1..], rest);
    }
  }

  // A package is the first of its format among the build's.
  ghost predicate FirstOf(b: Build, format: string, r: Option<Package>) {
    exists i: nat :: FirstWith(b.packages, format, i) && r == Some(b.packages[i])
  }

  // By platform: a pkg on darwin, a deb or failing that an rpm on linux, an msi or failing that an exe on
  // windows; then whatever the build lists first, and at last the legacy installer.
  lemma {:induction false} PrimaryByPlatform(b: Build, os: string, arch: string, r: Option<Package>)
    requires b.platform == os + "-" + arch && (forall i :: 0 <= i < |os| ==> os[i] != '-') && IsPrimary(b, r)
    ensures var fallback := if b.packages != [] then Some(b.packages[0]) else b.package;
      && (os == "darwin" ==> if Offers(b.packages, "pkg") then FirstOf(b, "pkg", r) else r == fallback)
      && (os == "linux" ==>
            if Offers(b.packages, "deb") then FirstOf(b, "deb", r)
            else if Offers(b.packages, "rpm") then FirstOf(b, "rpm", r) else r == fallback)
      && (os == "windows" ==>
            if Offers(b.packages, "msi") then FirstOf(b, "msi", r)
            else if Offers(b.packages, "exe") then FirstOf(b, "exe", r) else r == fallback)
      && (os != "darwin" && os != "linux" && os != "windows" ==> r == fallback)
  {
    OsIs(os, arch);
    hide OsOf, Offers, FirstWith;
    var preference := Preference(os);
    assert os == "linux" ==> preference[0] == "deb" && preference[1] == "rpm";
    assert os == "windows" ==> preference[0] == "msi" && preference[1] == "exe";
    assert os == "darwin" ==> preference[0] == "pkg";
  }

  lemma {:induction false} FirstOffered(packages: seq<Package>, formats: seq<string>, some: nat) returns (f: nat)
    requires some < |formats| && Offers(packages, formats[some])
    ensures f < |formats| && Offers(packages, formats[f]) && forall g :: 0 <= g < f ==> !Offers(packages, formats[g])
    decreases some
  {
    hide Offers;
    if g :| 0 <= g < some && Offers(packages, formats[g]) {
      f := FirstOffered(packages, formats, g);
    } else {
      f := some;
    }
  }

  // The primary package is one of the build's, and is missing only when the build ships no installer.
  lemma {:induction false} PrimaryIsOwn(b: Build, r: Option<Package>)
    requires IsPrimary(b, r)
    ensures r.Some? <==> Installable(b)
    ensures r.Some? ==> r.value in b.packages || (b.packages == [] && r == b.package)
  {
    var preference := Preference(OsOf(b.platform));
    hide Preference, OsOf;
    if some :| 0 <= some < |preference| && Offers(b.packages, preference[some]) {
      var f := FirstOffered(b.packages, preference, some);
      var i: nat :| FirstWith(b.packages, preference[f], i) && r == Some(b.packages[i]);
    }
  }

  // ---- Resolution ----

  datatype Cartridge = Cartridge(latest: string, versions: map<string, seq<Build>>, available: seq<string>)

  datatype Resolution =
    | Compatible(version: string, package: Package)
    | CompatibleOutdated(version: string, package: Package)
    | Incompatible

  // The build list of a version names a platform at the first of its entries for it.
  predicate HostBuildAt(builds: seq<Build>, host: string, i: nat) {
    i < |builds| && builds[i].platform == host && forall j :: 0 <= j < i ==> builds[j].platform != host
  }

  // The version has a build for the host, and that build ships an installer.
  ghost predicate Usable(c: Cartridge, version: string, host: string) {
    version in c.versions && exists i: nat :: HostBuildAt(c.versions[version], host, i) && Installable(c.versions[version][i])
  }

  // The package the host gets from a version.
  ghost predicate Gets(c: Cartridge, version: string, host: string, p: Package) {
    version in c.versions && exists i: nat :: HostBuildAt(c.versions[version], host, i) && IsPrimary(c.versions[version][i], Some(p))
  }

  // What the registry transformation leaves: every version once, newest first.
  ghost predicate NewestFirst(c: Cartridge) {
    && (forall v :: v in c.available <==> v in c.versions)
    && (forall i, j :: 0 <= i < j < |c.available| ==> c.available[i] != c.available[j])
    && (forall i, j :: 0 <= i < j < |c.available| ==> NotOlder(Parts(c.available[i]), Parts(c.available[j])))
  }

  method BuildForHost(c: Cartridge, version: string, host: string) returns (r: Option<Build>)
    ensures r.None? ==> forall i: nat :: !(version in c.versions && HostBuildAt(c.versions[version], host, i))
    ensures r.Some? ==> version in c.versions && exists i: nat :: HostBuildAt(c.versions[version], host, i) && r.value == c.versions[version][i]
  {
    if version !in c.versions {
      return None;
    }
    var builds := c.versions[version];
    for i := 0 to |builds|
      invariant forall j :: 0 <= j < i ==> builds[j].platform != host
    {
      if builds[i].platform == host {
        assert HostBuildAt(builds, host, i);
        return Some(builds[i]);
      }
    }
    r := None;
  }

  lemma {:induction false} OneHostBuild(builds: seq<Build>, host: string, i: nat, j: nat)
    requires HostBuildAt(builds, host, i) && HostBuildAt(builds, host, j)
    ensures i == j
  {
  }

  // The package a version gives the host, if it gives one.
  method PackageFor(c: Cartridge, version: string, host: string) returns (r: Option<Package>)
    ensures r.Some? <==> Usable(c, version, host)
    ensures r.Some? ==> Gets(c, version, host, r.value)
  {
    hide IsPrimary, Installable;
    var build := BuildForHost(c, version, host);
    if build.None? {
      return None;
    }
    r := PrimaryPackage(build.value);
    PrimaryIsOwn(build.value, r);
    ghost var i: nat :| HostBuildAt(c.versions[version], host, i) && build.value == c.versions[version][i];
    forall j: nat | HostBuildAt(c.versions[version], host, j) ensures j == i {
      OneHostBuild(c.versions[version], host, i, j);
    }
  }

  // The first entry of the list that the host can use.
  ghost predicate FirstUsable(c: Cartridge, host: string, k: nat) {
    k < |c.available| && Usable(c, c.available[k], host) && forall j :: 0 <= j < k ==> !Usable(c, c.available[j], host)
  }

  // What the host is told: the first usable entry, or that there is none.
  ghost predicate Resolves(c: Cartridge, host: string, r: Resolution) {
    if r.Incompatible? then forall v :: v in c.available ==> !Usable(c, v, host)
    else
      && (exists k: nat :: FirstUsable(c, host, k) && r.version == c.available[k])
      && Gets(c, r.version, host, r.package)
      && (r.Compatible? <==> r.version == c.latest)
  }

  // The first usable version in the list, which is one no usable version is newer than.
  method ResolveForHost(c: Cartridge, host: string) returns (r: Resolution)
    ensures Resolves(c, host, r)
    ensures NewestFirst(c) && !r.Incompatible? ==>
      forall v :: Usable(c, v, host) ==> !Older(Parts(r.version), Parts(v))
    ensures NewestFirst(c) ==> (r.Incompatible? <==> forall v :: !Usable(c, v, host))
  {
    hide Usable, Gets, Parts, Older, Same;
    for k := 0 to |c.available|
      invariant forall j :: 0 <= j < k ==> !Usable(c, c.available[j], host)
    {
      var v := c.available[k];
      var package := PackageFor(c, v, host);
      if package.Some? {
        assert FirstUsable(c, host, k);
        Newest(c, host, k);
        if v == c.latest {
          return Compatible(v, package.value);
        }
        return CompatibleOutdated(v, package.value);
      }
    }
    forall v | v in c.available ensures !Usable(c, v, host) {
      var j :| 0 <= j < |c.available| && c.available[j] == v;
    }
    forall v | NewestFirst(c) && Usable(c, v, host) ensures v in c.available {
      UsableIsKnown(c, v, host);
    }
    r := Incompatible;
  }

  lemma {:induction false} UsableIsKnown(c: Cartridge, v: string, host: string)
    requires Usable(c, v, host)
    ensures v in c.versions
  {
  }

  lemma {:induction false} Newest(c: Cartridge, host: string, k: nat)
    requires k < |c.available| && forall j :: 0 <= j < k ==> !Usable(c, c.available[j], host)
    ensures NewestFirst(c) ==> forall v :: Usable(c, v, host) ==> !Older(Parts(c.available[k]), Parts(v))
  {
    hide Usable, Parts;
    forall v | NewestFirst(c) && Usable(c, v, host) ensures !Older(Parts(c.available[k]), Parts(v)) {
      UsableIsKnown(c, v, host);
      var j :| 0 <= j < |c.available| && c.available[j] == v;
      if j == k {
        Irreflexive(Parts(v));
      } else {
        assert NotOlder(Parts(c.available[k]), Parts(c.available[j]));
        Trichotomy(Parts(v), Parts(c.available[k]));
      }
    }
  }

  lemma {:induction false} Irreflexive(a: seq<nat>)
    ensures !Older(a, a)
  {
  }

  // ---- When the latest version is called outdated ----

  // Another usable entry stands before the one called latest.
  ghost predicate Preceded(c: Cartridge, host: string) {
    exists i, j :: 0 <= i < j < |c.available| && c.available[j] == c.latest && Usable(c, c.available[i], host)
  }

  // The outcome `CompatibleOutdated` is meant for a latest version without a build for the host. With
  // such a build it is still given exactly when a usable entry stands before the latest in the list.
  lemma {:induction false} OutdatedAlthoughUsableIff(c: Cartridge, host: string, r: Resolution)
    requires NewestFirst(c) && Usable(c, c.latest, host) && Resolves(c, host, r)
    ensures r.CompatibleOutdated? <==> Preceded(c, host)
  {
    hide Usable, Gets, NotOlder;
    UsableIsKnown(c, c.latest, host);
    var j :| 0 <= j < |c.available| && c.available[j] == c.latest;
    var k: nat :| FirstUsable(c, host, k) && r.version == c.available[k];
    assert j >= k;
    if j > k {
      assert r.version != c.latest;
    }
  }

  // Such an entry is newer than the latest, or an equal version spelled differently.
  lemma {:induction false} PrecededByNewerOrEqual(c: Cartridge, host: string)
    requires NewestFirst(c)
    ensures Preceded(c, host) ==>
      exists v :: v != c.latest && Usable(c, v, host) && NotOlder(Parts(v), Parts(c.latest))
    ensures c.latest in c.versions && (exists v :: Usable(c, v, host) && Older(Parts(c.latest), Parts(v))) ==> Preceded(c, host)
  {
    hide Usable, Parts;
    if Preceded(c, host) {
      var i, j :| 0 <= i < j < |c.available| && c.available[j] == c.latest && Usable(c, c.available[i], host);
      assert NotOlder(Parts(c.available[i]), Parts(c.available[j]));
    }
    if v :| c.latest in c.versions && Usable(c, v, host) && Older(Parts(c.latest), Parts(v)) {
      UsableIsKnown(c, v, host);
      var i :| 0 <= i < |c.available| && c.available[i] == v;
      var j :| 0 <= j < |c.available| && c.available[j] == c.latest;
      Irreflexive(Parts(v));
      if j < i {
        assert NotOlder(Parts(c.available[j]), Parts(c.available[i]));
      }
      Trichotomy(Parts(c.latest), Parts(v));
    }
  }

  // The two orders in which a map may yield two spellings of one version.
  function Registry(latest: string, first: string, second: string, host: string, p: Package): Cartridge {
    Cartridge(latest, map[first := [Build(host, [p], None)], second := [Build(host, [p], None)]], [first, second])
  }

  lemma {:induction false} SplitOne(c: char)
    requires c != '.'
    ensures SplitDots([c]) == [[c]]
  {
    assert [c][1..] == "" && [c] + "" == [c] && [""][1..] == [];
  }

  lemma {:induction false} SameNumber()
    ensures Same(Parts("1"), Parts("1.0")) && Same(Parts("1.0"), Parts("1"))
  {
    SplitOne('0');
    SplitOne('1');
    assert ".0"[1..] == "0" && SplitDots(".0") == [""] + ["0"];
    assert "1.0"[1..] == ".0" && ["", "0"][1..] == ["0"] && ['1'] + "" == "1";
    assert SplitDots("1.0") == ["1"] + ["0"];
    assert "1"[..0] == "" && DigitsValue("1") == 1 && "0"[..0] == "" && DigitsValue("0") == 0;
    assert ["0"][1..] == [] && Numbers(["0"]) == [0];
    assert ["1"][1..] == [] && Numbers(["1"]) == [1];
    assert ["1", "0"][1..] == ["0"] && Numbers(["1", "0"]) == [1, 0];
  }

  lemma {:induction false} BothUsable(latest: string, first: string, second: string, host: string, p: Package)
    requires first != second
    ensures Usable(Registry(latest, first, second, host, p), first, host) && Usable(Registry(latest, first, second, host, p), second, host)
  {
    var c := Registry(latest, first, second, host, p);
    assert HostBuildAt(c.versions[first], host, 0) && Installable(c.versions[first][0]);
    assert HostBuildAt(c.versions[second], host, 0) && Installable(c.versions[second][0]);
  }

  // Both are sorted, and the outcome for the same versions with the same latest one is Compatible in one
  // and CompatibleOutdated in the other: among equal versions the order of the map decides.
  lemma {:induction false} EqualVersionsDependOnTheMap(host: string, p: Package, one: Resolution, other: Resolution)
    requires Resolves(Registry("1.0", "1.0", "1", host, p), host, one) && Resolves(Registry("1.0", "1", "1.0", host, p), host, other)
    ensures NewestFirst(Registry("1.0", "1.0", "1", host, p)) && NewestFirst(Registry("1.0", "1", "1.0", host, p))
    ensures one.Compatible? && other.CompatibleOutdated?
  {
    SameNumber();
    assert |"1"| != |"1.0"|;
    BothUsable("1.0", "1.0", "1", host, p);
    BothUsable("1.0", "1", "1.0", host, p);
    hide Parts, Usable, Resolves;
    SortedEitherWay("1.0", "1.0", "1", host, p);
    SortedEitherWay("1.0", "1", "1.0", host, p);
    var a, b := Registry("1.0", "1.0", "1", host, p), Registry("1.0", "1", "1.0", host, p);
    OutdatedAlthoughUsableIff(a, host, one);
    OutdatedAlthoughUsableIff(b, host, other);
    assert a.available[0] == "1.0" && b.available[0] == "1" && b.available[1] == "1.0";
    SomeUsable(a, host, one);
    SomeUsable(b, host, other);
  }

  lemma {:induction false} SortedEitherWay(latest: string, first: string, second: string, host: string, p: Package)
    requires first != second && Same(Parts(second), Parts(first))
    ensures NewestFirst(Registry(latest, first, second, host, p))
  {
    hide Parts;
  }

  lemma {:induction false} SomeUsable(c: Cartridge, host: string, r: Resolution)
    requires Resolves(c, host, r) && exists v :: v in c.available && Usable(c, v, host)
    ensures !r.Incompatible?
  {
    hide Usable;
  }
}
