/** How `parseVMwareHardware` (agent/vmware_hardware.go) puts disks and network interfaces together from the
    devices of a virtual machine. Text fields are as `vmwareStr` gives them: trimmed, and empty where absent. */
module Hardware {
  import opened Text
  import opened DeviceNames
  import opened DeviceSizes
  import opened Inventory

  datatype Device = Device(title: string, summary: string, kb: Option<real>, bytes: Option<real>,
                           fileName: string, diskPath: string,
                           key: string, mac: string, connected: Option<bool>, network: string)

  /** What the guest reports of an interface. */
  datatype Guest = Guest(key: string, mac: string, networkPath: string, deviceName: string, name: string,
                         entries: seq<Address>, plain: seq<string>)

  datatype Disk = Disk(id: Named, title: string, sizeMB: int, file: string, datastore: string, image: string)

  datatype Nic = Nic(id: Named, title: string, mac: string, connected: bool, network: string, guestName: string,
                     addresses: seq<Address>)

  function FirstNonEmpty(a: string, b: string): string { if a != "" then a else b }

  /** strings.Contains */
  predicate Contains(s: string, words: string) { words <= s || (s != "" && Contains(s[1..], words)) }

  predicate IsDisk(d: Device) { d.kb.Some? || d.bytes.Some? || Contains(ToLower(d.title), "hard disk") }

  predicate IsNic(d: Device) {
    d.mac != "" || Contains(ToLower(d.title), "network adapter") || Contains(ToLower(d.title), "ethernet")
  }

  /** The devices that satisfy p, in order. */
  function Only(devices: seq<Device>, p: Device -> bool): seq<Device> {
    if devices == [] then []
    else
      var n := |devices| - 1;
      Only(devices[..n], p) + if p(devices[n]) then [devices[n]] else []
  }

  // ---- disks -----------------------------------------------------------------------------------

  function FileOf(d: Device): string { FirstNonEmpty(d.fileName, d.diskPath) }

  /** The title of the disk with n disks before it. */
  function DiskLabel(d: Device, n: nat): string { FirstNonEmpty(d.title, "Hard disk " + Itoa(n + 1)) }

  function DiskBases(ds: seq<Device>): (bases: seq<string>)
    ensures |bases| == |ds|
  {
    seq(|ds|, i requires 0 <= i < |ds| => FirstNonEmpty(ImageName(FileOf(ds[i])), DiskLabel(ds[i], i)))
  }

  function DiskIds(disks: seq<Disk>): seq<Named> {
    seq(|disks|, i requires 0 <= i < |disks| => disks[i].id)
  }

  ghost predicate DiskFrom(disk: Disk, d: Device, n: nat) {
    && disk.title == DiskLabel(d, n)
    && disk.sizeMB == SizeMB(d.kb, d.bytes, d.summary)
    && disk.file == FileOf(d) && disk.datastore == Datastore(FileOf(d)) && disk.image == ImageName(FileOf(d))
  }

  /** One disk for each disk device, in order, called after all devices before it. */
  ghost predicate DisksFrom(disks: seq<Disk>, ds: seq<Device>) {
    && |disks| == |ds| && BasesOf(DiskIds(disks)) == DiskBases(ds) && NamesOf(DiskIds(disks)) == Names(DiskBases(ds))
    && (forall i | 0 <= i < |ds| :: DiskFrom(disks[i], ds[i], i))
  }

  method AddDisk(disks: seq<Disk>, d: Device, ghost ds: seq<Device>) returns (more: seq<Disk>)
    requires DisksFrom(disks, ds)
    ensures DisksFrom(more, ds + [d])
  {
    hide Names, NextName, SizeMB, Datastore, ImageName, DiskLabel, FileOf, FirstNonEmpty;
    var file, title := FileOf(d), DiskLabel(d, |disks|);
    var image := ImageName(file);
    var base := FirstNonEmpty(image, title);
    var name := UniqueName(DiskIds(disks), base);
    var disk := Disk(Named(name, base), title, SizeMB(d.kb, d.bytes, d.summary), file, Datastore(file), image);
    more := disks + [disk];
    NamesAppend(DiskBases(ds), base);
    assert DiskBases(ds + [d]) == DiskBases(ds) + [base];
    assert DiskIds(more) == DiskIds(disks) + [disk.id];
    assert BasesOf(DiskIds(more)) == BasesOf(DiskIds(disks)) + [base];
    assert NamesOf(DiskIds(more)) == NamesOf(DiskIds(disks)) + [name];
  }

  // ---- network interfaces ----------------------------------------------------------------------

  /** By the device key, or by the MAC address without regard to case. */
  predicate Matches(d: Device, g: Guest, same: (string, string) -> bool) {
    (d.key != "" && g.key != "" && g.key == d.key) || (d.mac != "" && g.mac != "" && same(g.mac, d.mac))
  }

  /** The first match. */
  function GuestOf(d: Device, guests: seq<Guest>, same: (string, string) -> bool): (r: Option<Guest>)
    ensures r.None? ==> forall g | g in guests :: !Matches(d, g, same)
    ensures r.Some? ==> exists i | 0 <= i < |guests| ::
              guests[i] == r.value && Matches(d, guests[i], same) &&
              forall j | 0 <= j < i :: !Matches(d, guests[j], same)
  {
    if guests == [] then None
    else if Matches(d, guests[0], same) then Some(guests[0])
    else
      var r := GuestOf(d, guests[1..], same);
      assert forall j | 1 <= j < |guests| :: guests[j] == guests[1..][j - 1];
      r
  }

  method FindGuest(d: Device, guests: seq<Guest>, same: (string, string) -> bool) returns (r: Option<Guest>)
    ensures r == GuestOf(d, guests, same)
  {
    assert guests[0..] == guests;
    for i := 0 to |guests|
      invariant GuestOf(d, guests[i..], same) == GuestOf(d, guests, same)
    {
      assert guests[i..][0] == guests[i] && guests[i..][1..] == guests[i + 1..];
      if Matches(d, guests[i], same) {
        return Some(guests[i]);
      }
    }
    return None;
  }

  function GuestName(g: Option<Guest>): string {
    match g
    case None => ""
    case Some(g) => FirstNonEmpty(g.networkPath, FirstNonEmpty(g.deviceName, g.name))
  }

  function NetworkOf(d: Device): string { FirstNonEmpty(d.network, d.summary) }

  function NicLabel(d: Device, n: nat): string { FirstNonEmpty(d.title, "Network adapter " + Itoa(n + 1)) }

  function NicBase(d: Device, n: nat, g: Option<Guest>): string {
    FirstNonEmpty(GuestName(g), FirstNonEmpty(NetworkOf(d), NicLabel(d, n)))
  }

  function NicBases(ds: seq<Device>, guests: seq<Guest>, same: (string, string) -> bool): (bases: seq<string>)
    ensures |bases| == |ds|
  {
    seq(|ds|, i requires 0 <= i < |ds| => NicBase(ds[i], i, GuestOf(ds[i], guests, same)))
  }

  function NicIds(nics: seq<Nic>): seq<Named> {
    seq(|nics|, i requires 0 <= i < |nics| => nics[i].id)
  }

  ghost predicate NicFrom(nic: Nic, d: Device, n: nat, g: Option<Guest>) {
    && nic.title == NicLabel(d, n) && nic.network == NetworkOf(d) && nic.guestName == GuestName(g)
    && nic.mac == (if d.mac == "" && g.Some? then g.value.mac else d.mac)
    && nic.connected == (d.connected != Some(false))
    && nic.addresses == (if g.Some? then Merged(g.value.entries, g.value.plain) else [])
  }

  ghost predicate NicsFrom(nics: seq<Nic>, ds: seq<Device>, guests: seq<Guest>, same: (string, string) -> bool) {
    var bases := NicBases(ds, guests, same);
    && |nics| == |ds| && BasesOf(NicIds(nics)) == bases && NamesOf(NicIds(nics)) == Names(bases)
    && (forall i | 0 <= i < |ds| :: NicFrom(nics[i], ds[i], i, GuestOf(ds[i], guests, same)))
  }

  method AddNic(nics: seq<Nic>, d: Device, guests: seq<Guest>, same: (string, string) -> bool, ghost ds: seq<Device>)
    returns (more: seq<Nic>)
    requires NicsFrom(nics, ds, guests, same)
    ensures NicsFrom(more, ds + [d], guests, same)
  {
    hide Names, NextName, NicLabel, NetworkOf, GuestName, GuestOf, FirstNonEmpty, Merged;
    var connected := true;
    if d.connected.Some? {
      connected := d.connected.value;
    }
    var g := FindGuest(d, guests, same);
    var mac, addresses := d.mac, [];
    if g.Some? {
      if mac == "" {
        mac := g.value.mac;
      }
      addresses := MergeIPs(g.value.entries, g.value.plain);
    }
    var base := NicBase(d, |nics|, g);
    var name := UniqueName(NicIds(nics), base);
    var nic := Nic(Named(name, base), NicLabel(d, |nics|), mac, connected, NetworkOf(d), GuestName(g), addresses);
    more := nics + [nic];
    NamesAppend(NicBases(ds, guests, same), base);
    assert NicBases(ds + [d], guests, same) == NicBases(ds, guests, same) + [base];
    assert NicIds(more) == NicIds(nics) + [nic.id];
    assert BasesOf(NicIds(more)) == BasesOf(NicIds(nics)) + [base];
    assert NamesOf(NicIds(more)) == NamesOf(NicIds(nics)) + [name];
  }

  // ---- the loop over the devices ---------------------------------------------------------------

  function Addresses(nics: seq<Nic>): seq<seq<Address>> {
    seq(|nics|, i requires 0 <= i < |nics| => nics[i].addresses)
  }

  /** A device can be a disk, an interface, both or neither. At the end the primary address of the guest, if no
      interface has it, goes to the first one; nothing else changes. */
  method ParseDevices(devices: seq<Device>, guests: seq<Guest>, same: (string, string) -> bool, primary: string)
    returns (disks: seq<Disk>, nics: seq<Nic>, ghost found: seq<Nic>)
    ensures DisksFrom(disks, Only(devices, IsDisk))
    ensures NicsFrom(found, Only(devices, IsNic), guests, same)
    ensures if primary != "" && found != [] && (forall nic | nic in found :: !HasIP(nic.addresses, primary))
            then nics == found[0 := found[0].(addresses := found[0].addresses + [Address(primary, None)])]
            else nics == found
    ensures primary != "" && nics != [] ==> exists nic | nic in nics :: HasIP(nic.addresses, primary)
  {
    hide DisksFrom, NicsFrom, IsDisk, IsNic;
    disks, nics := [], [];
    assert DisksFrom([], []) && NicsFrom([], [], guests, same) by { NoDevices(guests, same); }
    for i := 0 to |devices|
      invariant DisksFrom(disks, Only(devices[..i], IsDisk))
      invariant NicsFrom(nics, Only(devices[..i], IsNic), guests, same)
    {
      assert devices[..i + 1][..i] == devices[..i];
      OnlyNext(devices[..i], devices[i], IsDisk);
      OnlyNext(devices[..i], devices[i], IsNic);
      assert devices[..i + 1] == devices[..i] + [devices[i]];
      if IsDisk(devices[i]) {
        disks := AddDisk(disks, devices[i], Only(devices[..i], IsDisk));
      }
      if IsNic(devices[i]) {
        nics := AddNic(nics, devices[i], guests, same, Only(devices[..i], IsNic));
      }
    }
    assert devices[..|devices|] == devices;
    found := nics;
    nics := ShowPrimary(nics, primary);
  }

  method ShowPrimary(found: seq<Nic>, primary: string) returns (nics: seq<Nic>)
    ensures if primary != "" && found != [] && (forall nic | nic in found :: !HasIP(nic.addresses, primary))
            then nics == found[0 := found[0].(addresses := found[0].addresses + [Address(primary, None)])]
            else nics == found
    ensures primary != "" && nics != [] ==> exists nic | nic in nics :: HasIP(nic.addresses, primary)
  {
    hide HasIP;
    nics := found;
    var placed := PlacePrimary(Addresses(nics), primary);
    if |nics| > 0 {
      assert forall i | 0 <= i < |nics| :: Addresses(nics)[i] == nics[i].addresses;
      assert (forall nic | nic in found :: !HasIP(nic.addresses, primary)) <==>
             (forall list | list in Addresses(nics) :: !HasIP(list, primary));
      nics := nics[0 := nics[0].(addresses := placed[0])];
      assert placed[0] == found[0].addresses ==> nics == found;
      if primary != "" {
        PrimaryShown(found, nics, primary);
      }
    }
  }

  lemma NoDevices(guests: seq<Guest>, same: (string, string) -> bool)
    ensures DisksFrom([], []) && NicsFrom([], [], guests, same)
  {
    NoNames();
    assert DiskBases([]) == [] && NicBases([], guests, same) == [];
    assert BasesOf(DiskIds([])) == [] && NamesOf(DiskIds([])) == [];
    assert BasesOf(NicIds([])) == [] && NamesOf(NicIds([])) == [];
  }

  // ---- what the inventory shows ----------------------------------------------------------------

  lemma OnlyNext(devices: seq<Device>, d: Device, p: Device -> bool)
    ensures Only(devices + [d], p) == if p(d) then Only(devices, p) + [d] else Only(devices, p)
  {
    assert (devices + [d])[..|devices|] == devices;
  }

  /** The other devices of the machine do not matter: they can stand anywhere between the disks or interfaces. */
  lemma {:induction false} OnlyInOrder(a: seq<Device>, others: seq<Device>, b: seq<Device>, p: Device -> bool)
    requires forall d | d in others :: !p(d)
    ensures Only(a + others + b, p) == Only(a, p) + Only(b, p)
    ensures (forall d | d in b :: p(d)) ==> Only(b, p) == b
    decreases |others| + |b|
  {
    hide Only;
    if b != [] {
      var front, d := b[..|b| - 1], b[|b| - 1];
      OnlyInOrder(a, others, front, p);
      OnlyNext(a + others + front, d, p);
      OnlyNext(front, d, p);
      assert a + others + b == (a + others + front) + [d] && b == front + [d];
    } else {
      OnlyNone(p);
      assert a + others + b == a + others;
      if others == [] {
        assert a + others == a;
      } else {
        var front, d := others[..|others| - 1], others[|others| - 1];
        OnlyInOrder(a, front, [], p);
        OnlyNext(a + front, d, p);
        assert a + others == (a + front) + [d] && a + front + [] == a + front;
      }
    }
  }

  lemma OnlyNone(p: Device -> bool)
    ensures Only([], p) == []
  {}

  lemma {:induction false} ContainsAt(pre: string, words: string, post: string)
    ensures Contains(pre + words + post, words)
  {
    if pre == "" {
      assert pre + words + post == words + post;
    } else {
      ContainsAt(pre[1..], words, post);
      assert (pre + words + post)[1..] == pre[1..] + words + post;
    }
  }

  /** A label that speaks of a hard disk, in any case, makes a disk; so does a capacity, whatever the label. */
  lemma DiskByLabel(d: Device, pre: string, words: string, post: string)
    requires d.title == pre + words + post
    ensures ToLower(words) == "hard disk" ==> IsDisk(d)
    ensures ToLower(words) == "network adapter" || ToLower(words) == "ethernet" ==> IsNic(d)
  {
    hide Contains;
    var low := ToLower(words);
    ContainsAt(ToLower(pre), low, ToLower(post));
    assert ToLower(d.title) == ToLower(pre) + low + ToLower(post);
  }

  /** The names of the disks are distinct exactly when no base names clash. */
  lemma DiskNamesDistinct(disks: seq<Disk>, ds: seq<Device>)
    requires DisksFrom(disks, ds)
    ensures (forall i, j | 0 <= i < j < |disks| :: disks[i].id.name != disks[j].id.name) <==>
            (forall i, j | 0 <= i < j < |ds| :: !Clash(DiskBases(ds), i, j))
  {
    hide DisksFrom, Names, Clash, DiskBases;
    NamesAre(disks, ds);
    DistinctExactly(DiskBases(ds));
    assert Distinct(Names(DiskBases(ds))) <==>
           forall i, j | 0 <= i < j < |disks| :: disks[i].id.name != disks[j].id.name;
  }

  lemma NamesAre(disks: seq<Disk>, ds: seq<Device>)
    requires DisksFrom(disks, ds)
    ensures |disks| == |ds| && forall i | 0 <= i < |disks| :: disks[i].id.name == Names(DiskBases(ds))[i]
  {
    hide Names, DiskBases, DiskFrom;
    forall i | 0 <= i < |disks| ensures disks[i].id.name == Names(DiskBases(ds))[i] {
      assert NamesOf(DiskIds(disks))[i] == disks[i].id.name;
    }
  }

  /** A disk on "[datastore] directory/image" shows its datastore and its image, its size is within half a megabyte
      of its capacity, and it is called after the image as long as no disk before it has that name. */
  lemma DiskShown(disks: seq<Disk>, ds: seq<Device>, i: nat, datastore: string, dir: string, image: string, n: nat)
    requires DisksFrom(disks, ds) && i < |ds| && image != "" && n > 0
    requires ']' !in datastore && '\n' !in datastore && '/' !in image
    requires (dir == "" || dir[|dir| - 1] == '/') && Trimmed(dir + image)
    requires ds[i].fileName == "[" + datastore + "] " + dir + image && ds[i].kb == Some(n as real)
    ensures disks[i].datastore == datastore && disks[i].image == image && disks[i].file == ds[i].fileName
    ensures disks[i].id.rawName == image && -512 <= 1024 * disks[i].sizeMB - n <= 512
    ensures (forall j | 0 <= j < i :: disks[j].id.name != image) <==> disks[i].id.name == image
  {
    hide Datastore, ImageName, Names, NextName, SizeMB;
    BackingFileRoundTrip(datastore, dir, image);
    SizesAgree(n, ds[i].bytes, ds[i].summary);
    assert DiskBases(ds)[i] == image;
    assert BasesOf(DiskIds(disks))[i] == disks[i].id.rawName;
    KeptIfFree(DiskIds(disks), DiskBases(ds), i);
    assert forall j | 0 <= j <= i :: DiskIds(disks)[j].name == disks[j].id.name;
  }

  /** A device is called by its base name exactly when no device before it is. */
  lemma KeptIfFree(ids: seq<Named>, bases: seq<string>, i: nat)
    requires NamesOf(ids) == Names(bases) && |ids| == |bases| && i < |ids|
    ensures (forall j | 0 <= j < i :: ids[j].name != bases[i]) <==> ids[i].name == bases[i]
  {
    hide Names;
    NameAt(bases, i);
    assert NamesOf(ids)[i] == ids[i].name;
    assert forall j | 0 <= j < i :: Names(bases)[..i][j] == NamesOf(ids)[j] == ids[j].name;
    assert |Suffixed(bases[i], Count(bases[..i], bases[i]) + 1)| > |bases[i]|;
  }

  ghost predicate Numbered(disks: seq<Disk>) {
    forall i | 0 <= i < |disks| :: disks[i].id.name == "Hard disk " + Itoa(i + 1)
  }

  /** Disks without file and label are numbered from 1 on, so their names differ. */
  lemma {:induction false} NumberedDisks(disks: seq<Disk>, ds: seq<Device>)
    requires DisksFrom(disks, ds)
    requires forall d | d in ds :: d.fileName == "" && d.diskPath == "" && d.title == ""
    ensures Numbered(disks) && Distinct(NamesOf(DiskIds(disks)))
  {
    hide Itoa, Names, DisksFrom, DiskBases;
    var bases := DiskBases(ds);
    NumberedBases(ds);
    forall i, j | 0 <= i < j < |bases| ensures bases[i] != bases[j] { NumbersDiffer(bases, i, j); }
    DistinctKept(bases);
    NamesAre(disks, ds);
  }

  lemma NumberedBases(ds: seq<Device>)
    requires forall d | d in ds :: d.fileName == "" && d.diskPath == "" && d.title == ""
    ensures forall i | 0 <= i < |ds| :: DiskBases(ds)[i] == "Hard disk " + Itoa(i + 1)
  {
    hide Itoa;
    forall i | 0 <= i < |ds| ensures DiskBases(ds)[i] == "Hard disk " + Itoa(i + 1) {
      assert ds[i] in ds && ImageName("") == "";
    }
  }

  lemma NumbersDiffer(bases: seq<string>, i: nat, j: nat)
    requires i < j < |bases| && forall i | 0 <= i < |bases| :: bases[i] == "Hard disk " + Itoa(i + 1)
    ensures bases[i] != bases[j]
  {
    hide Itoa;
    ItoaInjective(i + 1, j + 1);
    assert Itoa(i + 1) == bases[i][10..] && Itoa(j + 1) == bases[j][10..];
  }

  /** An interface that the guest reports, by key or by address, has exactly the addresses that the guest gives for
      it, and its name in the guest; without a report it has no address and is called after its network. */
  lemma NicShown(
      nics: seq<Nic>, ds: seq<Device>, guests: seq<Guest>, same: (string, string) -> bool, i: nat, ip: string)
    requires NicsFrom(nics, ds, guests, same) && i < |ds|
    ensures (forall g | g in guests :: !Matches(ds[i], g, same)) ==>
              && nics[i].addresses == [] && nics[i].mac == ds[i].mac && nics[i].guestName == ""
              && (ds[i].network != "" ==> nics[i].id.rawName == nics[i].network == ds[i].network)
              && (ds[i].network == ds[i].summary == ds[i].title == "" ==>
                    nics[i].id.rawName == "Network adapter " + Itoa(i + 1))
    ensures forall k | 0 <= k < |guests| && Matches(ds[i], guests[k], same) &&
                       (forall j | 0 <= j < k :: !Matches(ds[i], guests[j], same)) ::
              && (HasIP(nics[i].addresses, ip) <==>
                    ip != "" && (InEntries(guests[k].entries, ip) || InRaw(guests[k].plain, ip)))
              && (ds[i].mac == "" ==> nics[i].mac == guests[k].mac)
              && (guests[k].networkPath != "" ==>
                    nics[i].id.rawName == nics[i].guestName == guests[k].networkPath)
  {
    hide Merged, Names, HasIP, InEntries, InRaw, Matches;
    var r := GuestOf(ds[i], guests, same);
    assert BasesOf(NicIds(nics))[i] == nics[i].id.rawName == NicBases(ds, guests, same)[i];
    if r.Some? {
      MergedHas(r.value.entries, r.value.plain, ip);
    }
  }

  lemma PrimaryShown(found: seq<Nic>, nics: seq<Nic>, primary: string)
    requires found != [] && primary != ""
    requires nics == if forall nic | nic in found :: !HasIP(nic.addresses, primary)
                     then found[0 := found[0].(addresses := found[0].addresses + [Address(primary, None)])]
                     else found
    ensures exists nic | nic in nics :: HasIP(nic.addresses, primary)
  {
    if forall nic | nic in found :: !HasIP(nic.addresses, primary) {
      assert nics[0].addresses[|found[0].addresses|] == Address(primary, None);
      assert nics[0] in nics;
    }
  }
}
