/** How `parseVMwareHardware` (agent/vmware_hardware.go) keeps the names of disks and of network
    interfaces apart. */
module DeviceNames {
  import opened Text

  /** What a device is called, and the base name it was made from. */
  datatype Named = Named(name: string, rawName: string)

  function Count(bases: seq<string>, base: string): nat {
    if bases == [] then 0
    else Count(bases[..|bases| - 1], base) + if bases[|bases| - 1] == base then 1 else 0
  }

  function Suffixed(base: string, k: nat): string { base + "-" + Itoa(k) }

  function NextName(bases: seq<string>, names: seq<string>, base: string): string {
    if base in names then Suffixed(base, Count(bases, base) + 1) else base
  }

  /** The names given to devices with these base names, in order. */
  function Names(bases: seq<string>): (names: seq<string>)
    ensures |names| == |bases|
  {
    if bases == [] then []
    else
      var front := bases[..|bases| - 1];
      Names(front) + [NextName(front, Names(front), bases[|bases| - 1])]
  }

  function NamesOf(devices: seq<Named>): seq<string> {
    seq(|devices|, i requires 0 <= i < |devices| => devices[i].name)
  }

  function BasesOf(devices: seq<Named>): seq<string> {
    seq(|devices|, i requires 0 <= i < |devices| => devices[i].rawName)
  }

  /** The nested loops that pick a name for the next device. */
  method UniqueName(devices: seq<Named>, baseName: string) returns (name: string)
    ensures name == NextName(BasesOf(devices), NamesOf(devices), baseName)
  {
    name := baseName;
    for i := 0 to |devices|
      invariant name == baseName && baseName !in NamesOf(devices)[..i]
    {
      assert NamesOf(devices)[i] == devices[i].name;
      if devices[i].name == name {
        var same := 0;
        for j := 0 to |devices|
          invariant same == Count(BasesOf(devices)[..j], baseName)
        {
          assert BasesOf(devices)[..j + 1][..j] == BasesOf(devices)[..j];
          if devices[j].rawName == baseName {
            same := same + 1;
          }
        }
        assert BasesOf(devices)[..|devices|] == BasesOf(devices);
        name := baseName + "-" + Itoa(same + 1);
        return;
      }
      assert NamesOf(devices)[..i + 1] == NamesOf(devices)[..i] + [devices[i].name];
    }
    assert NamesOf(devices)[..|devices|] == NamesOf(devices);
  }

  /** The loop over the devices. */
  method NameDevices(bases: seq<string>) returns (devices: seq<Named>)
    ensures BasesOf(devices) == bases && NamesOf(devices) == Names(bases)
  {
    devices := [];
    for i := 0 to |bases|
      invariant BasesOf(devices) == bases[..i] && NamesOf(devices) == Names(bases[..i])
    {
      var name := UniqueName(devices, bases[i]);
      assert bases[..i + 1][..i] == bases[..i];
      devices := devices + [Named(name, bases[i])];
      assert NamesOf(devices) == Names(bases[..i]) + [name];
    }
    assert bases[..|bases|] == bases;
  }

  // ---- the k-th name ---------------------------------------------------------------------------

  lemma {:induction false} NameAt(bases: seq<string>, j: nat)
    requires j < |bases|
    ensures Names(bases)[..j] == Names(bases[..j])
    ensures Names(bases)[j] == NextName(bases[..j], Names(bases[..j]), bases[j])
  {
    var n := |bases| - 1;
    if j < n {
      NameAt(bases[..n], j);
      assert bases[..n][..j] == bases[..j];
      assert Names(bases)[..j] == Names(bases[..n])[..j];
    } else {
      assert Names(bases)[..j] == Names(bases[..n]);
    }
  }

  lemma {:induction false} CountGrows(bases: seq<string>, i: nat, j: nat)
    requires i < j <= |bases|
    ensures Count(bases[..j], bases[i]) >= Count(bases[..i], bases[i]) + 1
  {
    assert bases[..j][..j - 1] == bases[..j - 1];
    if i < j - 1 {
      CountGrows(bases, i, j - 1);
    }
  }

  lemma {:induction false} CountFinds(bases: seq<string>, base: string) returns (i: nat)
    requires Count(bases, base) > 0
    ensures i < |bases| && bases[i] == base && Count(bases[..i], base) == 0
  {
    var n := |bases| - 1;
    if Count(bases[..n], base) > 0 {
      i := CountFinds(bases[..n], base);
      assert bases[..n][..i] == bases[..i];
    } else {
      i := n;
    }
  }

  // ---- when names are distinct -----------------------------------------------------------------

  ghost predicate Distinct(names: seq<string>) { forall i, j | 0 <= i < j < |names| :: names[i] != names[j] }

  /** The name that the i-th device gets if its base name is taken. */
  function SuffixedBase(bases: seq<string>, i: nat): string
    requires i < |bases|
  {
    Suffixed(bases[i], Count(bases[..i], bases[i]) + 1)
  }

  /** One of the first n devices has the base name b, or gets b because its own base name is taken. */
  ghost predicate Taken(bases: seq<string>, n: nat, b: string)
    requires n <= |bases|
  {
    exists i | 0 <= i < n :: bases[i] == b || (SuffixedBase(bases, i) == b && Taken(bases, i, bases[i]))
  }

  /** The j-th device gets a suffix, and an earlier device has the very name that results as its base. */
  ghost predicate Clash(bases: seq<string>, i: nat, j: nat)
    requires i < j < |bases|
  {
    Taken(bases, j, bases[j]) && bases[i] == SuffixedBase(bases, j)
  }

  /** The i-th name, from the base names alone. */
  lemma NameIs(bases: seq<string>, i: nat)
    requires i < |bases|
    ensures Names(bases)[i] == if Taken(bases, i, bases[i]) then SuffixedBase(bases, i) else bases[i]
  {
    hide Names, Count, Suffixed, Taken;
    NameAt(bases, i);
    TakenExactly(bases, i, bases[i]);
  }

  /** What is taken is what an earlier device is called. */
  lemma {:induction false} TakenExactly(bases: seq<string>, n: nat, b: string)
    requires n <= |bases|
    ensures Taken(bases, n, b) <==> b in Names(bases[..n])
    decreases n, 0
  {
    if Taken(bases, n, b) {
      var i :| 0 <= i < n && (bases[i] == b || (SuffixedBase(bases, i) == b && Taken(bases, i, bases[i])));
      TakenIsName(bases, n, b, i);
    } else if b in Names(bases[..n]) {
      var i :| 0 <= i < n && Names(bases[..n])[i] == b;
      NameIsTaken(bases, n, b, i);
    }
  }

  lemma {:induction false} NameBefore(bases: seq<string>, n: nat, i: nat)
    requires i < n <= |bases|
    ensures Names(bases[..n])[..i] == Names(bases[..i])
    ensures Names(bases[..n])[i] == if bases[i] in Names(bases[..i]) then SuffixedBase(bases, i) else bases[i]
  {
    hide Names, Count, Suffixed;
    NameAt(bases[..n], i);
    assert bases[..n][..i] == bases[..i];
  }

  lemma {:induction false} TakenIsName(bases: seq<string>, n: nat, b: string, i: nat)
    requires i < n <= |bases| && (bases[i] == b || (SuffixedBase(bases, i) == b && Taken(bases, i, bases[i])))
    ensures b in Names(bases[..n])
    decreases i, 1
  {
    hide Names, Count, Suffixed, Taken, SuffixedBase;
    var names := Names(bases[..n]);
    NameBefore(bases, n, i);
    TakenExactly(bases, i, bases[i]);
    if bases[i] in Names(bases[..i]) {
      assert names[i] == SuffixedBase(bases, i);
      var k :| 0 <= k < i && names[..i][k] == bases[i];
      assert names[k] == bases[i];
    } else {
      assert names[i] == b;
    }
  }

  lemma {:induction false} NameIsTaken(bases: seq<string>, n: nat, b: string, i: nat)
    requires i < n <= |bases| && Names(bases[..n])[i] == b
    ensures Taken(bases, n, b)
    decreases i, 1
  {
    hide Names, Count, Suffixed, SuffixedBase;
    NameBefore(bases, n, i);
    TakenExactly(bases, i, bases[i]);
  }

  lemma SuffixedInjective(a: string, b: string, m: nat, n: nat)
    ensures Suffixed(a, m) == Suffixed(b, n) <==> a == b && m == n
  {
    SuffixInjective(a, b, m, n);
  }

  lemma {:induction false} EarlierDiffers(bases: seq<string>, i: nat, j: nat)
    requires i < j < |bases| && !Clash(bases, i, j)
    ensures Names(bases)[i] != Names(bases)[j]
  {
    hide Itoa, Names, Count, Suffixed, Taken;
    NameIs(bases, i);
    NameIs(bases, j);
    NameAt(bases, j);
    TakenExactly(bases, j, bases[j]);
    assert Names(bases)[i] == Names(bases)[..j][i];
    SuffixedInjective(bases[i], bases[j], Count(bases[..i], bases[i]) + 1, Count(bases[..j], bases[j]) + 1);
    CountGrows(bases, i, j);
  }

  lemma {:induction false} ClashRepeats(bases: seq<string>, i: nat, j: nat)
    requires i < j < |bases| && Clash(bases, i, j)
    ensures !Distinct(Names(bases))
  {
    hide Names, Taken, SuffixedBase;
    NameIs(bases, i);
    NameIs(bases, j);
    NameAt(bases, i);
    TakenExactly(bases, i, bases[i]);
    if Taken(bases, i, bases[i]) {
      var k :| 0 <= k < i && Names(bases[..i])[k] == bases[i];
      assert Names(bases)[k] == Names(bases)[..i][k] == Names(bases)[j];
    } else {
      assert Names(bases)[i] == Names(bases)[j];
    }
  }

  /** All names are distinct exactly when no device whose base name is taken gets a suffixed name that is the
      base name of an earlier device. */
  lemma {:induction false} DistinctExactly(bases: seq<string>)
    ensures Distinct(Names(bases)) <==> forall i, j | 0 <= i < j < |bases| :: !Clash(bases, i, j)
  {
    if forall i, j | 0 <= i < j < |bases| :: !Clash(bases, i, j) {
      forall i, j | 0 <= i < j < |bases| ensures Names(bases)[i] != Names(bases)[j] {
        EarlierDiffers(bases, i, j);
      }
    } else {
      var i, j :| 0 <= i < j < |bases| && Clash(bases, i, j);
      ClashRepeats(bases, i, j);
    }
  }

  /** No base name is another one followed by a dash and a number. */
  ghost predicate NoSuffixes(bases: seq<string>) {
    forall i, j, k: nat | 0 <= i < |bases| && 0 <= j < |bases| :: bases[i] != Suffixed(bases[j], k)
  }

  /** Then the k-th device with base b is called b for k = 1 and b-k afterwards, and all names differ. */
  lemma {:induction false} UniqueNames(bases: seq<string>, j: nat)
    requires NoSuffixes(bases) && j < |bases|
    ensures var k := Count(bases[..j], bases[j]) + 1;
            Names(bases)[j] == if k == 1 then bases[j] else bases[j] + "-" + Itoa(k)
    ensures Distinct(Names(bases))
    decreases j
  {
    NameAt(bases, j);
    if Count(bases[..j], bases[j]) > 0 {
      var i := CountFinds(bases[..j], bases[j]);
      assert bases[..j][..i] == bases[..i];
      UniqueNames(bases, i);
      assert Names(bases)[i] == Names(bases)[..j][i] == bases[j];
    } else if bases[j] in Names(bases[..j]) {
      NameFromOwnBase(bases, j);
    }
    DistinctExactly(bases);
    forall i, l | 0 <= i < l < |bases| ensures !Clash(bases, i, l) {
      assert bases[i] != Suffixed(bases[l], Count(bases[..l], bases[l]) + 1);
    }
  }

  /** Base names that differ are kept. */
  lemma {:induction false} DistinctKept(bases: seq<string>)
    requires Distinct(bases)
    ensures Names(bases) == bases
  {
    if bases != [] {
      var n := |bases| - 1;
      DistinctKept(bases[..n]);
      assert bases[n] !in bases[..n];
      assert bases == bases[..n] + [bases[n]];
    }
  }

  lemma NameFromOwnBase(bases: seq<string>, j: nat)
    requires NoSuffixes(bases) && j < |bases| && bases[j] in Names(bases[..j])
    ensures Count(bases[..j], bases[j]) > 0
  {
    var i :| 0 <= i < j && Names(bases[..j])[i] == bases[j];
    NameAt(bases[..j], i);
    assert bases[..j][..i] == bases[..i];
    assert bases[j] != Suffixed(bases[i], Count(bases[..i], bases[i]) + 1);
    CountGrows(bases, i, j);
  }

  lemma NamesAppend(bases: seq<string>, base: string)
    ensures Names(bases + [base]) == Names(bases) + [NextName(bases, Names(bases), base)]
    ensures forall b :: Count(bases + [base], b) == Count(bases, b) + if b == base then 1 else 0
  {
    assert (bases + [base])[..|bases|] == bases;
  }

  /** Two disks whose images have the same name beside one that is called like the second of them. */
  lemma NamesCanRepeat(base: string)
    ensures !Distinct(Names([Suffixed(base, 2), base, base]))
  {
    hide Itoa, Names, Count;
    var a, ab := [Suffixed(base, 2)], [Suffixed(base, 2), base];
    NamesAppend([], Suffixed(base, 2));
    NamesAppend(a, base);
    NamesAppend(ab, base);
    NoNames();
    assert [] + [Suffixed(base, 2)] == a && a + [base] == ab && ab + [base] == [Suffixed(base, 2), base, base];
    assert |Suffixed(base, 2)| > |base|;
    assert Names(ab) == [Suffixed(base, 2), base];
    assert Names(ab + [base])[0] == Names(ab + [base])[2];
  }

  lemma NoNames()
    ensures Names([]) == [] && forall b :: Count([], b) == 0
  {}
}
