/** Names, commands and what tells groups apart, spelled out as text. */
module Spelled {
  import opened Wrappers
  import opened Slots
  import opened Uki
  import opened Groups
  import opened Runtime
  import opened Plan
  import opened Disk
  import opened Inventory
  import opened Install
  import opened Commit
  import opened Remove

  // ---------------------------------------------------------------- volumes

  /** The start of the names of a kind. */
  function Prefix(k: Kind): string {
    match k case Root => "root_" case Verity => "verity_"
  }

  /** The part of a name that follows its kind. */
  function Tail(st: Status): string {
    match st
    case Used(v) => v.revision + (match v.hash case Some(h) => "_" + h case None => "")
    case Empty(Known(id)) => "empty_" + id
    case Empty(Legacy) => "empty"
  }

  lemma NameSpelled(k: Kind, st: Status)
    ensures SlotName(k, st) == Prefix(k) + Tail(st)
  {
    match st
    case Used(Version(r, None)) => assert KindName(k) + "_" + r == Prefix(k) + Tail(st);
    case Used(Version(r, Some(h))) => assert KindName(k) + "_" + r + "_" + h == Prefix(k) + Tail(st);
    case Empty(Known(id)) => assert KindName(k) + "_empty_" + id == Prefix(k) + Tail(st);
    case Empty(Legacy) => assert KindName(k) + "_empty" == Prefix(k) + Tail(st);
  }

  lemma NoDivider(r: string)
    requires '_' !in r
    ensures !("empty_" <= r)
  {
    assert |r| > 5 ==> r[5] in r;
  }

  lemma Divided(r: string, h: string)
    requires '_' !in r && "empty_" <= r + ("_" + h)
    ensures r == "empty"
  {
    var tail := r + ("_" + h);
    assert tail[|r|] == '_' && tail[5] == '_' && tail[..5] == "empty";
    assert forall i | 0 <= i < 5 :: "empty"[i] == tail[i] != '_';
  }

  /** Of the tails of statuses that can be told from their names, those of empty slots begin with `empty`. */
  lemma TailEmpty(st: Status)
    requires Printable(st)
    ensures st.Empty? <==> Tail(st) == "empty" || "empty_" <= Tail(st)
    ensures '_' in Tail(st) <==> (st.Used? && st.version.hash.Some?) || (st.Empty? && st.emptyId.Known?)
  {
    match st
    case Used(Version(r, h)) =>
      var tail := Tail(st);
      if h.None? {
        assert tail == r;
        NoDivider(r);
      } else {
        assert tail[|r|] == '_' && tail[|r|] in tail;
        if "empty_" <= tail {
          Divided(r, h.value);
        }
      }
    case Empty(Known(id)) => assert Tail(st)[5] == '_';
    case Empty(Legacy) =>
  }

  /** What a volume name says of its slot: exactly which kind, which version or identifier, and whether it is legacy. */
  lemma SlotByName(s: Slot, st: Status)
    requires DecodeStatus(s.volume.lvName) == Ok((s.kind, s.status))
    ensures var n, p := s.volume.lvName, Prefix(s.kind);
            && p <= n && (s.status == st <==> Printable(st) && n == p + Tail(st))
            && (s.status.Empty? <==> n[|p|..] == "empty" || "empty_" <= n[|p|..])
            && (s.IsLegacy() <==> '_' !in n[|p|..])
  {
    hide DecodeStatus;
    var n, p := s.volume.lvName, Prefix(s.kind);
    DecodeThenPrint(n);
    NameSpelled(s.kind, s.status);
    NameSpelled(s.kind, st);
    PrintThenDecode(s.kind, st);
    TailEmpty(s.status);
    assert n[|p|..] == Tail(s.status);
  }

  // ---------------------------------------------------------------- groups

  /** The slot a group is known by: its root volume, or else its verity volume. */
  function Lead(g: SlotGroup): Slot
    requires HasVolume(g)
  {
    if g.root.Some? then g.root.value else g.verity.value
  }

  /** What the names of its volumes say of a group. */
  lemma GroupByName(d: Disk, g: SlotGroup, id: string, v: Version)
    requires Fits(d, g) && HasVolume(g)
    ensures var n, p := Lead(g).volume.lvName, if g.root.Some? then "root_" else "verity_";
            && p <= n
            && (g.EmptyIdText() == Some(id) <==> '_' !in id && n == p + ("empty_" + id))
            && (g.GroupVersion() == Some(v) <==> Printable(Used(v)) && n == p + Tail(Used(v)))
            && (g.IsEmpty() <==> n[|p|..] == "empty" || "empty_" <= n[|p|..])
            && (g.IsUsed() <==> !g.IsEmpty()) && (g.IsLegacy() <==> '_' !in n[|p|..])
  {
    hide DecodeStatus, Tail, SlotName, ParseUki;
    SlotByName(Lead(g), Empty(Known(id)));
    SlotByName(Lead(g), Used(v));
    EmptyTail(id);
  }

  /** A group of an image alone is in use, and nothing that could be installed to. */
  lemma ImageGroup(d: Disk, g: SlotGroup)
    requires Fits(d, g) && !HasVolume(g)
    ensures g.IsUsed() && !g.IsEmpty() && !g.IsComplete() && !g.IsLegacy() && g.EmptyIdText().None?
    ensures g.boot.Some? && g.GroupVersion().Some? && IsUki(g.boot.value.id, g.GroupVersion().value)
  {
    hide ParseUki, SlotName;
  }

  lemma EmptyTail(id: string)
    ensures Tail(Empty(Known(id))) == "empty_" + id
  {
  }

  /** A root volume that a kernel has booted from, by its name. */
  predicate BootedFrom(kernel: Kernel, n: string) {
    match kernel.revision
    case None => "root_" <= n && '_' !in n[5..] && n != "root_empty"
    case Some(r) =>
      && '_' !in r && r != "empty"
      && match kernel.storeHash
         case Some(h) => '_' !in h[..16] && n == "root_" + r + "_" + h[..16]
         case None => n == "root_" + r
  }

  lemma BootedVersion(kernel: Kernel, n: string)
    requires KernelVersion(kernel).Some?
    ensures BootedFrom(kernel, n) <==>
            Printable(Used(KernelVersion(kernel).value)) && n == "root_" + Tail(Used(KernelVersion(kernel).value))
  {
    if kernel.storeHash.Some? {
      var r, h := kernel.revision.value, kernel.storeHash.value[..16];
      assert "root_" + r + "_" + h == "root_" + (r + ("_" + h));
    } else {
      assert Tail(Used(KernelVersion(kernel).value)) == kernel.revision.value + "";
    }
  }

  /** The active group, by the name of its root volume and the parameters of the kernel. */
  lemma ActiveByName(d: Disk, g: SlotGroup, kernel: Kernel)
    requires Fits(d, g) && g.root.Some?
    ensures g.IsActive(kernel) <==> BootedFrom(kernel, g.root.value.volume.lvName)
  {
    hide DecodeStatus, Tail, SlotName, ParseUki;
    var n := g.root.value.volume.lvName;
    if KernelVersion(kernel).Some? {
      var v := KernelVersion(kernel).value;
      GroupByName(d, g, "", v);
      BootedVersion(kernel, n);
    } else {
      SlotByName(g.root.value, g.root.value.status);
      assert n[5..] == "empty" <==> n == "root_" + "empty";
      assert "empty_" <= n[5..] ==> n[5..][5] == '_';
    }
  }

  /** A kernel with the hash and version of a manifest boots from the volume that an install of it names. */
  lemma BootsWhatIsInstalled(kernel: Kernel, m: Manifest)
    requires WellFormed(m) && kernel.storeHash == Some(m.rootVerityHash) && kernel.revision == Some(m.version)
    ensures BootedFrom(kernel, SlotName(Root, Used(m.ToVersion())))
  {
    hide SlotName, Tail;
    KernelOfManifest(kernel, m);
    NameSpelled(Root, Used(m.ToVersion()));
    BootedVersion(kernel, SlotName(Root, Used(m.ToVersion())));
  }

  // ---------------------------------------------------------------- plans

  /** The seven steps of an install as they are typed. */
  lemma CoreSpelled(j: Job)
    requires j.Valid()
    ensures var version, hash, source, m := j.m.version, j.m.rootVerityHash[..16], j.source, j.m;
            var empty := match j.st.emptyId case Known(id) => "empty_" + id case Legacy => "empty";
            var root, verity := "root_" + empty, "verity_" + empty;
            var device := "/dev/mapper/" + j.vg + "-";
            j.Core() == [
              WriteImage(FullName(source, m.store.name), IsCompressed(m.store.name), device + root),
              WriteImage(FullName(source, m.verity.name), IsCompressed(m.verity.name), device + verity),
              FlushBufs(device + root),
              FlushBufs(device + verity),
              Lvrename(j.vg, root, "root_" + version + "_" + hash),
              Lvrename(j.vg, verity, "verity_" + version + "_" + hash),
              InstallFile(FullName(source, m.kernel.name),
                          "/boot/EFI/Linux/ghaf-" + version + "-" + hash + ".efi")]
  {
    hide SlotName, UkiName, FullName, IsCompressed;
    var version, hash := j.m.version, j.m.rootVerityHash[..16];
    NameSpelled(Root, j.st);
    NameSpelled(Verity, j.st);
    NameSpelled(Root, Used(j.m.ToVersion()));
    NameSpelled(Verity, Used(j.m.ToVersion()));
    PlainUkiName(j.m.ToVersion());
    assert "root_" + version + "_" + hash == "root_" + (version + ("_" + hash));
    assert "verity_" + version + "_" + hash == "verity_" + (version + ("_" + hash));
    UkiSpelled(version, hash);
  }

  lemma UkiSpelled(version: string, hash: string)
    ensures UkiPath("/boot", "ghaf-" + version + "-" + hash + ".efi") ==
            "/boot/EFI/Linux/ghaf-" + version + "-" + hash + ".efi"
  {
    assert "/boot" + "/EFI/Linux/" + "ghaf-" == "/boot/EFI/Linux/ghaf-";
  }

  /** The new names of a removed group. */
  lemma RemovalSpelled(r: Removal)
    ensures r.New(Root) == "root_empty_" + r.id && r.New(Verity) == "verity_empty_" + r.id
    ensures r.Old(Root) == "root_" + Tail(Used(r.v)) && r.Old(Verity) == "verity_" + Tail(Used(r.v))
  {
    hide SlotName;
    NameSpelled(Root, Empty(Known(r.id)));
    NameSpelled(Verity, Empty(Known(r.id)));
    NameSpelled(Root, Used(r.v));
    NameSpelled(Verity, Used(r.v));
    assert "root_" + ("empty_" + r.id) == "root_empty_" + r.id;
    assert "verity_" + ("empty_" + r.id) == "verity_empty_" + r.id;
  }
}
