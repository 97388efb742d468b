/** What `parseVMwareHardware` (agent/vmware_hardware.go) reads from a disk's backing file, and how it merges
    the addresses of a network interface. */
module Inventory {
  import opened Text

  // ---- backing files: "[datastore] directory/image.vmdk" ---------------------------------------

  /** The text in the brackets at the front; the regular expression's dot stops at a newline. */
  function Datastore(file: string): string {
    if file == "" || file[0] != '[' then ""
    else match Cut(file[1..], ']')
      case Some((name, _)) => if '\n' in name then "" else name
      case None => ""
  }

  /** The part of s after its last sep. */
  function AfterLast(s: string, sep: char): (t: string)
    ensures |t| <= |s| && t == s[|s| - |t|..] && sep !in t
    ensures |t| < |s| ==> s[|s| - |t| - 1] == sep
  {
    if s == "" || s[|s| - 1] == sep then ""
    else AfterLast(s[..|s| - 1], sep) + [s[|s| - 1]]
  }

  /** The name of the image file. */
  function ImageName(file: string): string {
    var path := if file != "" && file[0] == '[' then
                  match Cut(file[1..], ']') case Some((_, rest)) => Trim(rest) case None => file
                else file;
    AfterLast(path, '/')
  }

  lemma AfterLastPush(s: string, c: char, sep: char)
    requires c != sep
    ensures AfterLast(s + [c], sep) == AfterLast(s, sep) + [c]
  {
    assert (s + [c])[..|s|] == s;
  }

  lemma {:induction false} AfterLastIs(dir: string, name: string, sep: char)
    requires sep !in name && (dir == "" || dir[|dir| - 1] == sep)
    ensures AfterLast(dir + name, sep) == name
  {
    if name == "" {
      assert dir + name == dir;
    } else {
      hide AfterLast;
      var front, last := name[..|name| - 1], name[|name| - 1];
      AfterLastIs(dir, front, sep);
      assert dir + name == (dir + front) + [last];
      AfterLastPush(dir + front, last, sep);
    }
  }

  /** The datastore and the image name come back from the file name that was put together from them. */
  lemma {:induction false} BackingFileRoundTrip(datastore: string, dir: string, image: string)
    requires ']' !in datastore && '\n' !in datastore
    requires '/' !in image && (dir == "" || dir[|dir| - 1] == '/')
    requires Trimmed(dir + image)
    ensures var file := "[" + datastore + "] " + dir + image;
            Datastore(file) == datastore && ImageName(file) == image
  {
    var file := "[" + datastore + "] " + dir + image;
    var rest := " " + (dir + image);
    assert file[1..] == datastore + [']'] + rest;
    CutAtFirst(datastore, ']', rest);
    assert rest == " " + (dir + image) + "";
    TrimAround(" ", dir + image, "");
    AfterLastIs(dir, image, '/');
  }

  /** A file name without brackets has no datastore; its image is what follows the last slash. */
  lemma PlainFile(dir: string, image: string)
    requires (dir + image == "" || (dir + image)[0] != '[') && '/' !in image
    requires dir == "" || dir[|dir| - 1] == '/'
    ensures Datastore(dir + image) == "" && ImageName(dir + image) == image
  {
    AfterLastIs(dir, image, '/');
  }

  /** Nor has one whose bracket is not closed; and a line break in the brackets is not part of a name. */
  lemma OddBrackets(file: string)
    requires file != "" && file[0] == '['
    ensures ']' !in file ==> Datastore(file) == "" && ImageName(file) == AfterLast(file, '/')
    ensures Cut(file[1..], ']').Some? && '\n' in Cut(file[1..], ']').value.0 ==> Datastore(file) == ""
  {
    assert ']' in file[1..] ==> ']' in file;
  }

  // ---- the addresses of one interface ----------------------------------------------------------

  datatype Address = Address(ip: string, prefix: Option<int>)

  predicate HasIP(list: seq<Address>, ip: string) { exists a | a in list :: a.ip == ip }

  /** hasVMwareIP */
  method FindIP(list: seq<Address>, ip: string) returns (found: bool)
    ensures found <==> HasIP(list, ip)
  {
    for i := 0 to |list|
      invariant !HasIP(list[..i], ip)
    {
      if list[i].ip == ip {
        return true;
      }
    }
    assert list[..|list|] == list;
    return false;
  }

  /** The usable entries of the guest's ipConfig, all of them, in order. */
  function Configured(entries: seq<Address>): seq<Address> {
    if entries == [] then []
    else
      var n, last := |entries| - 1, entries[|entries| - 1];
      Configured(entries[..n]) + if Trim(last.ip) != "" then [last.(ip := Trim(last.ip))] else []
  }

  /** Then the plain addresses that are new. */
  function Merged(entries: seq<Address>, raw: seq<string>): seq<Address> {
    if raw == [] then Configured(entries)
    else
      var list, ip := Merged(entries, raw[..|raw| - 1]), Trim(raw[|raw| - 1]);
      if ip != "" && !HasIP(list, ip) then list + [Address(ip, None)] else list
  }

  method MergeIPs(entries: seq<Address>, raw: seq<string>) returns (list: seq<Address>)
    ensures list == Merged(entries, raw)
  {
    hide Trim;
    list := [];
    for i := 0 to |entries|
      invariant list == Configured(entries[..i])
    {
      assert entries[..i + 1][..i] == entries[..i];
      var ip := Trim(entries[i].ip);
      if ip != "" {
        list := list + [entries[i].(ip := ip)];
      }
    }
    assert entries[..|entries|] == entries;
    for i := 0 to |raw|
      invariant list == Merged(entries, raw[..i])
    {
      assert raw[..i + 1][..i] == raw[..i];
      var ip := Trim(raw[i]);
      var known := FindIP(list, ip);
      if ip != "" && !known {
        list := list + [Address(ip, None)];
      }
    }
    assert raw[..|raw|] == raw;
  }

  /** Each usable entry is kept, with its own prefix and its trimmed address, in order. */
  lemma {:induction false} ConfiguredInOrder(a: seq<Address>, b: seq<Address>)
    ensures Configured(a + b) == Configured(a) + Configured(b)
  {
    hide Configured, Trim;
    if b == [] {
      assert a + b == a;
      ConfiguredNone();
    } else {
      var front, e := b[..|b| - 1], b[|b| - 1];
      ConfiguredInOrder(a, front);
      assert a + b == (a + front) + [e] && b == front + [e];
      ConfiguredLast(a + front, e);
      ConfiguredLast(front, e);
    }
  }

  lemma ConfiguredNone()
    ensures Configured([]) == []
  {}

  lemma ConfiguredLast(list: seq<Address>, e: Address)
    ensures Configured(list + [e]) ==
            Configured(list) + if Trim(e.ip) == "" then [] else [Address(Trim(e.ip), e.prefix)]
  {
    hide Trim;
    assert (list + [e])[..|list|] == list;
  }

  lemma ConfiguredOne(e: Address)
    ensures Configured([e]) == if Trim(e.ip) == "" then [] else [Address(Trim(e.ip), e.prefix)]
  {
    assert [e][..0] == [];
  }

  /** The plain addresses follow in the order in which they come first, without prefixes. */
  lemma MergedNext(entries: seq<Address>, raw: seq<string>, r: string)
    ensures Merged(entries, []) == Configured(entries)
    ensures var list := Merged(entries, raw);
            Merged(entries, raw + [r]) ==
            if Trim(r) == "" || (exists a | a in list :: a.ip == Trim(r)) then list else list + [Address(Trim(r), None)]
  {
    assert (raw + [r])[..|raw|] == raw;
  }

  lemma HasIPAppend(list: seq<Address>, more: seq<Address>, ip: string)
    ensures HasIP(list + more, ip) <==> HasIP(list, ip) || HasIP(more, ip)
  {
    assert forall a | a in list + more :: a in list || a in more;
    assert forall a | a in list || a in more :: a in list + more;
  }

  predicate InEntries(entries: seq<Address>, ip: string) { exists e | e in entries :: Trim(e.ip) == ip }

  predicate InRaw(raw: seq<string>, ip: string) { exists r | r in raw :: Trim(r) == ip }

  lemma {:induction false} ConfiguredHas(entries: seq<Address>, ip: string)
    ensures HasIP(Configured(entries), ip) <==> ip != "" && InEntries(entries, ip)
  {
    hide Trim;
    if entries != [] {
      var n := |entries| - 1;
      var last := entries[n];
      var more := if Trim(last.ip) != "" then [last.(ip := Trim(last.ip))] else [];
      ConfiguredHas(entries[..n], ip);
      HasIPAppend(Configured(entries[..n]), more, ip);
      assert InEntries(entries, ip) <==> InEntries(entries[..n], ip) || Trim(last.ip) == ip by {
        assert entries == entries[..n] + [last];
      }
      assert HasIP(more, ip) <==> ip != "" && Trim(last.ip) == ip;
    }
  }

  /** The merged list holds exactly the non-empty addresses of both sources. */
  lemma {:induction false} MergedHas(entries: seq<Address>, raw: seq<string>, ip: string)
    ensures HasIP(Merged(entries, raw), ip) <==> ip != "" && (InEntries(entries, ip) || InRaw(raw, ip))
  {
    hide Trim, Configured;
    if raw == [] {
      ConfiguredHas(entries, ip);
    } else {
      var n := |raw| - 1;
      MergedHas(entries, raw[..n], ip);
      HasIPAppend(Merged(entries, raw[..n]), [Address(Trim(raw[n]), None)], ip);
      assert InRaw(raw, ip) <==> InRaw(raw[..n], ip) || Trim(raw[n]) == ip by {
        assert raw == raw[..n] + [raw[n]];
      }
      assert HasIP([Address(Trim(raw[n]), None)], ip) <==> Trim(raw[n]) == ip by {
        assert Address(Trim(raw[n]), None) in [Address(Trim(raw[n]), None)];
      }
    }
  }

  /** It keeps the ipConfig entries with their prefixes in front and adds no address that is there already. */
  lemma {:induction false} MergedAddsOnce(entries: seq<Address>, raw: seq<string>)
    ensures Configured(entries) <= Merged(entries, raw)
    ensures var list := Merged(entries, raw);
            forall i, j | 0 <= i < j < |list| && |Configured(entries)| <= j :: list[i].ip != list[j].ip
  {
    hide Configured, Trim;
    if raw != [] {
      MergedAddsOnce(entries, raw[..|raw| - 1]);
    }
  }

  // ---- the primary address ---------------------------------------------------------------------

  /** A primary guest address that matches no interface goes to the first one. */
  method PlacePrimary(interfaces: seq<seq<Address>>, primary: string) returns (placed: seq<seq<Address>>)
    ensures |placed| == |interfaces|
    ensures primary != "" && interfaces != [] ==> exists list | list in placed :: HasIP(list, primary)
    ensures forall i | 0 < i < |interfaces| :: placed[i] == interfaces[i]
    ensures interfaces != [] ==>
      var missing := primary != "" && forall list | list in interfaces :: !HasIP(list, primary);
      placed[0] == interfaces[0] + if missing then [Address(primary, None)] else []
  {
    placed := interfaces;
    if primary != "" && |interfaces| > 0 {
      var matched := false;
      for i := 0 to |interfaces|
        invariant !matched && forall k | 0 <= k < i :: !HasIP(interfaces[k], primary)
      {
        var found := FindIP(interfaces[i], primary);
        if found {
          matched := true;
          break;
        }
      }
      if !matched {
        placed := interfaces[0 := interfaces[0] + [Address(primary, None)]];
        assert placed[0][|interfaces[0]|] == Address(primary, None);
        assert placed[0] in placed;
      }
    }
  }
}
