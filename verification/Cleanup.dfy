/** The orphan cleanup pass: VMs and volumes on the host that no machine request backs any more are deleted
    one by one. */
module Cleanup {
  import opened Text
  import opened VmNames

  datatype VM = VM(id: int, name: string, description: string)

  /** A volume with its two ownership properties, "" when a property is missing. */
  datatype Volume = Volume(path: string, managed: string, requestID: string)

  datatype ManagedZvol = ManagedZvol(path: string, requestID: string)

  /** What asking Omni for the live requests gave. */
  datatype LiveRead = Unconfigured | Failed | Live(ids: set<string>)

  /** Which listings fail, and which deletions do. */
  datatype Faults = Faults(zvolList: bool, vmList: bool, vmListForZvols: bool, stuckVMs: set<int>,
      stuckVolumes: set<string>)

  const NO_FAULTS := Faults(false, false, false, {}, {})

  datatype Snapshot = Snapshot(vms: seq<VM>, volumes: seq<Volume>)

  // ----- Filtering

  function Filter<T>(s: seq<T>, keep: T -> bool): (r: seq<T>)
    ensures |r| <= |s|
  {
    if s == [] then []
    else
      var last := s[|s| - 1];
      Filter(s[..|s| - 1], keep) + (if keep(last) then [last] else [])
  }

  lemma {:induction false} FilterMembers<T>(s: seq<T>, keep: T -> bool, x: T)
    ensures x in Filter(s, keep) <==> x in s && keep(x)
  {
    if s == [] {
    } else {
      FilterMembers(s[..|s| - 1], keep, x);
      assert s == s[..|s| - 1] + [s[|s| - 1]];
    }
  }

  /** Filtering what is left of an earlier filter. */
  lemma {:induction false} FilterTwice<T>(s: seq<T>, first: T -> bool, second: T -> bool, both: T -> bool)
    requires forall x :: x in s ==> (both(x) <==> first(x) && second(x))
    ensures Filter(Filter(s, first), second) == Filter(s, both)
  {
    if s == [] {
    } else {
      var front, last := s[..|s| - 1], s[|s| - 1];
      assert s == front + [last];
      FilterTwice(front, first, second, both);
      var kept := Filter(front, first);
      assert Filter(s, first) == if first(last) then kept + [last] else kept;
      assert (kept + [last])[..|kept|] == kept;
      assert Filter(kept + [last], second) == Filter(kept, second) + (if second(last) then [last] else []);
    }
  }

  lemma {:induction false} FilterSame<T>(s: seq<T>, p: T -> bool, q: T -> bool)
    requires forall x :: x in s ==> (p(x) <==> q(x))
    ensures Filter(s, p) == Filter(s, q)
  {
    if s == [] {
    } else {
      var front, last := s[..|s| - 1], s[|s| - 1];
      assert s == front + [last];
      FilterSame(front, p, q);
    }
  }

  /** Filtering changes nothing exactly when everything passes. */
  lemma {:induction false} FilterIdentityIff<T>(s: seq<T>, keep: T -> bool)
    ensures Filter(s, keep) == s <==> forall x :: x in s ==> keep(x)
    ensures |Filter(s, keep)| == |s| ==> Filter(s, keep) == s
  {
    if s == [] {
    } else {
      var front, last := s[..|s| - 1], s[|s| - 1];
      assert s == front + [last];
      FilterIdentityIff(front, keep);
    }
  }

  lemma FilterSnoc<T>(s: seq<T>, i: nat, keep: T -> bool)
    requires i < |s|
    ensures Filter(s[..i + 1], keep) == Filter(s[..i], keep) + (if keep(s[i]) then [s[i]] else [])
  {
    assert s[..i + 1][..i] == s[..i];
  }

  // ----- The decisions

  predicate Known(live: Option<set<string>>, requestID: string) {
    live.None? || requestID in live.value
  }

  /** A failed read never counts as an empty live set. */
  function Usable(read: LiveRead): Option<set<string>> {
    match read
    case Live(ids) => Some(ids)
    case _ => None
  }

  function RequestOf(vm: VM): string {
    ParseRequestIDFromDescription(vm.description)
  }

  predicate Recognised(vm: VM) {
    IsOmniVMName(vm.name) && RequestOf(vm) != ""
  }

  predicate IsManaged(v: Volume) {
    v.managed == "true" && v.requestID != ""
  }

  function ManagedIDs(volumes: seq<Volume>): set<string> {
    set v | v in volumes && IsManaged(v) :: v.requestID
  }

  function Names(vms: seq<VM>): set<string> {
    set vm | vm in vms :: vm.name
  }

  /** The name VMs had before the provider id was added to it. */
  function LegacyName(requestID: string): string {
    "omni_" + Underscored(requestID)
  }

  predicate NameFits(name: string, providerID: string, requestID: string) {
    name == VmName(providerID, requestID) || name == LegacyName(requestID)
  }

  /** Some VM carries one of the names of the request. */
  predicate Standing(names: set<string>, providerID: string, requestID: string) {
    VmName(providerID, requestID) in names || LegacyName(requestID) in names
  }

  predicate VMOrphan(vm: VM, managed: set<string>, live: Option<set<string>>) {
    Recognised(vm) && (!Known(live, RequestOf(vm)) || RequestOf(vm) !in managed)
  }

  predicate VolumeOrphan(v: Volume, names: set<string>, providerID: string, live: Option<set<string>>) {
    IsManaged(v) && (!Known(live, v.requestID) || !Standing(names, providerID, v.requestID))
  }

  function KeepsVM(managed: set<string>, live: Option<set<string>>, stuck: set<int>): VM -> bool {
    (vm: VM) => !VMOrphan(vm, managed, live) || vm.id in stuck
  }

  function KeepsVolume(names: set<string>, providerID: string, live: Option<set<string>>,
      stuck: set<string>): Volume -> bool {
    (v: Volume) => !VolumeOrphan(v, names, providerID, live) || v.path in stuck
  }

  /** The filter of a loop that has decided about the keys in `done` only. */
  function VMsSoFar(done: set<int>, keep: VM -> bool): VM -> bool {
    (vm: VM) => vm.id !in done || keep(vm)
  }

  function VolumesSoFar(done: set<string>, keep: Volume -> bool): Volume -> bool {
    (v: Volume) => v.path !in done || keep(v)
  }

  function OtherVM(id: int): VM -> bool {
    (vm: VM) => vm.id != id
  }

  function OtherVolume(path: string): Volume -> bool {
    (v: Volume) => v.path != path
  }

  /** One pass over a host: orphan VMs go first, and the volumes are judged by the VMs that are left. */
  function Pass(h: Snapshot, providerID: string, read: LiveRead, f: Faults): Snapshot {
    if f.zvolList then h
    else
      var live := Usable(read);
      var vms := if f.vmList then h.vms else Filter(h.vms, KeepsVM(ManagedIDs(h.volumes), live, f.stuckVMs));
      Snapshot(vms,
               if f.vmListForZvols then h.volumes
               else Filter(h.volumes, KeepsVolume(Names(vms), providerID, live, f.stuckVolumes)))
  }

  // ----- The host, as the client sees it

  predicate DistinctIDs(vms: seq<VM>) {
    forall i, j :: 0 <= i < j < |vms| ==> vms[i].id != vms[j].id
  }

  predicate DistinctPaths(volumes: seq<Volume>) {
    forall i, j :: 0 <= i < j < |volumes| ==> volumes[i].path != volumes[j].path
  }

  /** The next VM of the listing is decided: deleted by its id, or kept. */
  lemma VMDecided(listing: seq<VM>, i: nat, done: set<int>, keep: VM -> bool)
    requires i < |listing| && DistinctIDs(listing)
    ensures var id := listing[i].id;
            Filter(listing, VMsSoFar(done + {id}, keep))
            == if keep(listing[i]) then Filter(listing, VMsSoFar(done, keep))
               else Filter(Filter(listing, VMsSoFar(done, keep)), OtherVM(id))
  {
    var id := listing[i].id;
    if keep(listing[i]) {
      FilterSame(listing, VMsSoFar(done + {id}, keep), VMsSoFar(done, keep));
    } else {
      FilterTwice(listing, VMsSoFar(done, keep), OtherVM(id), VMsSoFar(done + {id}, keep));
    }
  }

  lemma NoVMDecided(listing: seq<VM>, keep: VM -> bool)
    ensures Filter(listing, VMsSoFar({}, keep)) == listing
  {
    FilterIdentityIff(listing, VMsSoFar({}, keep));
  }

  lemma AllVMsDecided(listing: seq<VM>, done: set<int>, keep: VM -> bool)
    requires forall j :: 0 <= j < |listing| ==> listing[j].id in done
    ensures Filter(listing, VMsSoFar(done, keep)) == Filter(listing, keep)
  {
    FilterSame(listing, VMsSoFar(done, keep), keep);
  }

  lemma VolumeDecided(volumes: seq<Volume>, v: Volume, done: set<string>, keep: Volume -> bool)
    requires v in volumes && DistinctPaths(volumes)
    ensures Filter(volumes, VolumesSoFar(done + {v.path}, keep))
            == if keep(v) then Filter(volumes, VolumesSoFar(done, keep))
               else Filter(Filter(volumes, VolumesSoFar(done, keep)), OtherVolume(v.path))
  {
    if keep(v) {
      FilterSame(volumes, VolumesSoFar(done + {v.path}, keep), VolumesSoFar(done, keep));
    } else {
      FilterTwice(volumes, VolumesSoFar(done, keep), OtherVolume(v.path), VolumesSoFar(done + {v.path}, keep));
    }
  }

  predicate IsListing(zs: seq<ManagedZvol>, volumes: seq<Volume>) {
    && |zs| == |volumes|
    && forall i :: 0 <= i < |zs| ==> zs[i] == ManagedZvol(volumes[i].path, volumes[i].requestID)
  }

  function AsVolume(z: ManagedZvol): Volume {
    Volume(z.path, "true", z.requestID)
  }

  function ManagedVolume(): Volume -> bool {
    (v: Volume) => IsManaged(v)
  }

  /** A listed zvol is a managed volume, and each managed volume is listed. */
  lemma ListedIff(zs: seq<ManagedZvol>, volumes: seq<Volume>)
    requires IsListing(zs, Filter(volumes, ManagedVolume()))
    ensures forall z :: z in zs ==> AsVolume(z) in volumes && z.requestID != ""
    ensures forall v :: v in volumes && IsManaged(v) ==> ManagedZvol(v.path, v.requestID) in zs
  {
    var listed := Filter(volumes, ManagedVolume());
    forall z | z in zs ensures AsVolume(z) in volumes && z.requestID != "" {
      var i :| 0 <= i < |zs| && zs[i] == z;
      FilterMembers(volumes, ManagedVolume(), listed[i]);
      assert listed[i] == AsVolume(z);
    }
    forall v | v in volumes && IsManaged(v) ensures ManagedZvol(v.path, v.requestID) in zs {
      FilterMembers(volumes, ManagedVolume(), v);
      var i :| 0 <= i < |listed| && listed[i] == v;
      assert zs[i] == ManagedZvol(v.path, v.requestID);
    }
  }

  lemma ListedIDs(zs: seq<ManagedZvol>, volumes: seq<Volume>)
    requires IsListing(zs, Filter(volumes, ManagedVolume()))
    ensures (set z | z in zs :: z.requestID) == ManagedIDs(volumes)
  {
    ListedIff(zs, volumes);
    forall r | r in (set z | z in zs :: z.requestID) ensures r in ManagedIDs(volumes) {
      var z :| z in zs && z.requestID == r;
      assert IsManaged(AsVolume(z));
    }
    forall r | r in ManagedIDs(volumes) ensures r in (set z | z in zs :: z.requestID) {
      var v :| v in volumes && IsManaged(v) && v.requestID == r;
      assert ManagedZvol(v.path, v.requestID) in zs;
    }
  }

  /** Once every listed zvol is decided, so is every volume: the others are kept anyway. */
  lemma AllDecided(zs: seq<ManagedZvol>, volumes: seq<Volume>, done: set<string>,
                   names: set<string>, providerID: string, live: Option<set<string>>, stuck: set<string>)
    requires IsListing(zs, Filter(volumes, ManagedVolume()))
    requires forall j :: 0 <= j < |zs| ==> zs[j].path in done
    ensures var keep := KeepsVolume(names, providerID, live, stuck);
            Filter(volumes, VolumesSoFar(done, keep)) == Filter(volumes, keep)
  {
    var keep := KeepsVolume(names, providerID, live, stuck);
    ListedIff(zs, volumes);
    forall v | v in volumes ensures VolumesSoFar(done, keep)(v) <==> keep(v) {
      if IsManaged(v) {
        assert ManagedZvol(v.path, v.requestID) in zs;
      }
    }
    FilterSame(volumes, VolumesSoFar(done, keep), keep);
  }

  lemma NoneDecided(volumes: seq<Volume>, keep: Volume -> bool)
    ensures Filter(volumes, VolumesSoFar({}, keep)) == volumes
  {
    FilterIdentityIff(volumes, VolumesSoFar({}, keep));
  }

  class Host {
    var vms: seq<VM>
    var volumes: seq<Volume>

    function View(): Snapshot
      reads this
    {
      Snapshot(vms, volumes)
    }

    /** The volumes with both ownership properties set. */
    method ListManagedZvols() returns (zs: seq<ManagedZvol>)
      ensures IsListing(zs, Filter(volumes, ManagedVolume()))
    {
      zs := [];
      for i := 0 to |volumes|
        invariant IsListing(zs, Filter(volumes[..i], ManagedVolume()))
      {
        FilterSnoc(volumes, i, ManagedVolume());
        if volumes[i].managed == "true" && volumes[i].requestID != "" {
          zs := zs + [ManagedZvol(volumes[i].path, volumes[i].requestID)];
        }
      }
      assert volumes[..|volumes|] == volumes;
    }

    method DeleteVM(id: int)
      modifies this`vms
      ensures vms == Filter(old(vms), OtherVM(id))
    {
      vms := Filter(vms, OtherVM(id));
    }

    method DeleteDataset(path: string)
      modifies this`volumes
      ensures volumes == Filter(old(volumes), OtherVolume(path))
    {
      volumes := Filter(volumes, OtherVolume(path));
    }
  }

  // ----- The cleaner

  method RequestIDs(zvols: seq<ManagedZvol>) returns (ids: set<string>)
    ensures ids == set z | z in zvols :: z.requestID
  {
    ids := {};
    for i := 0 to |zvols|
      invariant ids == set z | z in zvols[..i] :: z.requestID
    {
      assert zvols[..i + 1] == zvols[..i] + [zvols[i]];
      ids := ids + {zvols[i].requestID};
    }
    assert zvols[..|zvols|] == zvols;
  }

  method VMNames(vms: seq<VM>) returns (names: set<string>)
    ensures names == Names(vms)
  {
    names := {};
    for i := 0 to |vms|
      invariant names == Names(vms[..i])
    {
      assert vms[..i + 1] == vms[..i] + [vms[i]];
      names := names + {vms[i].name};
    }
    assert vms[..|vms|] == vms;
  }

  class Cleaner {
    const host: Host
    const providerID: string

    constructor (host: Host, providerID: string)
      ensures this.host == host && this.providerID == providerID
    {
      this.host, this.providerID := host, providerID;
    }

    /** Whether the VM was running, and whether stopping it worked, does not matter. */
    method MaybeDeleteOrphanVM(vm: VM, managed: set<string>, live: Option<set<string>>, stuck: set<int>)
      modifies host`vms
      ensures host.vms == if KeepsVM(managed, live, stuck)(vm) then old(host.vms)
          else Filter(old(host.vms), OtherVM(vm.id))
    {
      if !IsOmniVMName(vm.name) {
        return;
      }
      var requestID := ParseRequestIDFromDescription(vm.description);
      if requestID == "" {
        return;
      }
      var unknown := live.Some? && requestID !in live.value;
      if unknown || requestID !in managed {
        if vm.id !in stuck {
          host.DeleteVM(vm.id);
        }
      }
    }

    /** The loop over the listed VMs. */
    method SweepVMs(listing: seq<VM>, managed: set<string>, live: Option<set<string>>, stuck: set<int>)
      requires DistinctIDs(listing) && host.vms == listing
      modifies host`vms
      ensures host.vms == Filter(listing, KeepsVM(managed, live, stuck))
    {
      hide Filter, KeepsVM, VMsSoFar, OtherVM, DistinctIDs;
      ghost var keep, done := KeepsVM(managed, live, stuck), {};
      NoVMDecided(listing, keep);
      for i := 0 to |listing|
        invariant forall j :: 0 <= j < i ==> listing[j].id in done
        invariant host.vms == Filter(listing, VMsSoFar(done, keep))
      {
        VMDecided(listing, i, done, keep);
        MaybeDeleteOrphanVM(listing[i], managed, live, stuck);
        done := done + {listing[i].id};
      }
      AllVMsDecided(listing, done, keep);
    }

    method CleanupOrphanVMs(zvols: seq<ManagedZvol>, live: Option<set<string>>, f: Faults)
      requires DistinctIDs(host.vms)
      modifies host`vms
      ensures host.vms == if f.vmList then old(host.vms)
                          else Filter(old(host.vms), KeepsVM(set z | z in zvols :: z.requestID, live, f.stuckVMs))
    {
      if f.vmList {
        return;
      }
      var listing := host.vms;
      var managed := RequestIDs(zvols);
      SweepVMs(listing, managed, live, f.stuckVMs);
    }

    /** The body of the loop below. */
    method MaybeDeleteOrphanZvol(zvol: ManagedZvol, names: set<string>, live: Option<set<string>>, stuck: set<string>)
      requires zvol.requestID != ""
      modifies host`volumes
      ensures host.volumes == if KeepsVolume(names, providerID, live, stuck)(AsVolume(zvol))
                              then old(host.volumes) else Filter(old(host.volumes), OtherVolume(zvol.path))
    {
      var newVMName := BuildVMName(providerID, zvol.requestID);
      var legacyVMName := "omni_" + Underscored(zvol.requestID);
      var vmExists := newVMName in names || legacyVMName in names;
      var unknown := live.Some? && zvol.requestID !in live.value;
      if unknown || !vmExists {
        if zvol.path !in stuck {
          host.DeleteDataset(zvol.path);
        }
      }
    }

    /** The loop over the managed zvols. */
    method SweepZvols(zvols: seq<ManagedZvol>, names: set<string>, live: Option<set<string>>, stuck: set<string>)
        returns (ghost done: set<string>)
      requires DistinctPaths(host.volumes)
      requires forall j :: 0 <= j < |zvols| ==> AsVolume(zvols[j]) in host.volumes && zvols[j].requestID != ""
      modifies host`volumes
      ensures forall j :: 0 <= j < |zvols| ==> zvols[j].path in done
      ensures host.volumes == Filter(old(host.volumes), VolumesSoFar(done, KeepsVolume(names, providerID, live, stuck)))
    {
      hide Filter, KeepsVolume, VolumesSoFar, OtherVolume, DistinctPaths;
      ghost var before, keep := host.volumes, KeepsVolume(names, providerID, live, stuck);
      done := {};
      NoneDecided(before, keep);
      for i := 0 to |zvols|
        invariant forall j :: 0 <= j < i ==> zvols[j].path in done
        invariant host.volumes == Filter(before, VolumesSoFar(done, keep))
      {
        VolumeDecided(before, AsVolume(zvols[i]), done, keep);
        done := done + {zvols[i].path};
        MaybeDeleteOrphanZvol(zvols[i], names, live, stuck);
      }
    }

    method CleanupOrphanZvols(zvols: seq<ManagedZvol>, live: Option<set<string>>, f: Faults)
      requires DistinctPaths(host.volumes) && IsListing(zvols, Filter(host.volumes, ManagedVolume()))
      modifies host`volumes
      ensures host.volumes == if f.vmListForZvols then old(host.volumes)
                              else Filter(old(host.volumes),
                                          KeepsVolume(Names(host.vms), providerID, live, f.stuckVolumes))
    {
      ghost var before, done := host.volumes, {};
      if zvols == [] {
        AllDecided(zvols, before, done, Names(host.vms), providerID, live, f.stuckVolumes);
        NoneDecided(before, KeepsVolume(Names(host.vms), providerID, live, f.stuckVolumes));
        return;
      }
      if f.vmListForZvols {
        return;
      }
      ListedIff(zvols, before);
      var names := VMNames(host.vms);
      done := SweepZvols(zvols, names, live, f.stuckVolumes);
      AllDecided(zvols, before, done, names, providerID, live, f.stuckVolumes);
    }

    /** One cycle; a failed read of the live requests leaves only the comparison of VMs with volumes. */
    method RunOnce(read: LiveRead, f: Faults)
      requires DistinctIDs(host.vms) && DistinctPaths(host.volumes)
      modifies host
      ensures host.View() == Pass(old(host.View()), providerID, read, f)
    {
      if f.zvolList {
        return;
      }
      var managedZvols := host.ListManagedZvols();
      ListedIDs(managedZvols, host.volumes);
      var live: Option<set<string>> := None;
      if read.Live? {
        live := Some(read.ids);
      }
      CleanupOrphanVMs(managedZvols, live, f);
      CleanupOrphanZvols(managedZvols, live, f);
    }
  }
}
