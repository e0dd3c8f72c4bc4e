/** What the orphan cleanup guarantees over one pass, and over several. */
module CleanupPasses {
  import opened Text
  import opened VmNames
  import opened Cleanup

  /** The pass on a host where nothing fails. */
  function CleanPass(h: Snapshot, providerID: string, read: LiveRead): Snapshot {
    Pass(h, providerID, read, NO_FAULTS)
  }

  /** Which VMs survive a pass. */
  lemma VMSurvivesIff(h: Snapshot, providerID: string, read: LiveRead, f: Faults, vm: VM)
    ensures vm in Pass(h, providerID, read, f).vms
            <==> vm in h.vms && (f.zvolList || f.vmList || KeepsVM(ManagedIDs(h.volumes), Usable(read), f.stuckVMs)(vm))
  {
    FilterMembers(h.vms, KeepsVM(ManagedIDs(h.volumes), Usable(read), f.stuckVMs), vm);
  }

  lemma VolumeSurvivesIff(h: Snapshot, providerID: string, read: LiveRead, f: Faults, v: Volume)
    ensures var after := Pass(h, providerID, read, f);
            v in after.volumes
            <==> v in h.volumes
                 && (f.zvolList || f.vmListForZvols
                     || KeepsVolume(Names(after.vms), providerID, Usable(read), f.stuckVolumes)(v))
  {
    var after := Pass(h, providerID, read, f);
    FilterMembers(h.volumes, KeepsVolume(Names(after.vms), providerID, Usable(read), f.stuckVolumes), v);
  }

  /** Nothing that Omni answered speaks against the request: without an answer nothing does. */
  predicate NotDenied(read: LiveRead, requestID: string) {
    read.Live? ==> requestID in read.ids
  }

  /** Exactly when a pass deletes a VM: the listings came, its deletion works, it has the provider's prefix and a
      readable request id, and Omni's answer does not have that request or no volume tagged as managed is of it.
      A read that failed is no answer. */
  lemma VMDeletedIff(h: Snapshot, providerID: string, read: LiveRead, f: Faults, vm: VM)
    requires vm in h.vms
    ensures var requestID := ParseRequestIDFromDescription(vm.description);
            vm !in Pass(h, providerID, read, f).vms <==>
            && !f.zvolList && !f.vmList && vm.id !in f.stuckVMs
            && IsOmniVMName(vm.name) && requestID != ""
            && ((read.Live? && requestID !in read.ids)
                || forall v :: v in h.volumes && v.managed == "true" ==> v.requestID != requestID)
  {
    VMSurvivesIff(h, providerID, read, f, vm);
    if RequestOf(vm) in ManagedIDs(h.volumes) {
      var v :| v in h.volumes && IsManaged(v) && v.requestID == RequestOf(vm);
    } else {
      assert forall v :: v in h.volumes && IsManaged(v) ==> v.requestID in ManagedIDs(h.volumes);
    }
  }

  /** Exactly when a pass deletes a volume: the listings came, its deletion works, it is tagged as managed with a
      request id, and Omni's answer does not have that request or no VM that is left carries one of its names. */
  lemma VolumeDeletedIff(h: Snapshot, providerID: string, read: LiveRead, f: Faults, v: Volume)
    requires v in h.volumes
    ensures var after := Pass(h, providerID, read, f);
            v !in after.volumes <==>
            && !f.zvolList && !f.vmListForZvols && v.path !in f.stuckVolumes
            && v.managed == "true" && v.requestID != ""
            && ((read.Live? && v.requestID !in read.ids)
                || forall vm :: vm in after.vms ==>
                     vm.name != VmName(providerID, v.requestID) && vm.name != "omni_" + Underscored(v.requestID))
  {
    VolumeSurvivesIff(h, providerID, read, f, v);
  }

  /** A pass adds nothing. */
  lemma NothingAppears(h: Snapshot, providerID: string, read: LiveRead, f: Faults)
    ensures var after := Pass(h, providerID, read, f);
            (forall vm :: vm in after.vms ==> vm in h.vms) && (forall v :: v in after.volumes ==> v in h.volumes)
  {
    var after := Pass(h, providerID, read, f);
    forall vm | vm in after.vms ensures vm in h.vms {
      VMSurvivesIff(h, providerID, read, f, vm);
    }
    forall v | v in after.volumes ensures v in h.volumes {
      VolumeSurvivesIff(h, providerID, read, f, v);
    }
  }

  // ----- What a pass never deletes

  /** A VM and a managed volume of one request that Omni knows, or that no live set speaks of, both survive any
      pass, whatever fails and whatever else is on the host. */
  lemma PairIsSafe(h: Snapshot, providerID: string, read: LiveRead, f: Faults, vm: VM, v: Volume)
    requires vm in h.vms && v in h.volumes && IsManaged(v)
    requires RequestOf(vm) == v.requestID && NameFits(vm.name, providerID, v.requestID)
    requires NotDenied(read, v.requestID)
    ensures var after := Pass(h, providerID, read, f); vm in after.vms && v in after.volumes
  {
    assert v.requestID in ManagedIDs(h.volumes);
    VMSurvivesIff(h, providerID, read, f, vm);
    assert vm.name in Names(Pass(h, providerID, read, f).vms);
    VolumeSurvivesIff(h, providerID, read, f, v);
  }

  /** A VM or volume without the provider's marks is never deleted. */
  lemma ForeignIsSafe(h: Snapshot, providerID: string, read: LiveRead, f: Faults)
    ensures var after := Pass(h, providerID, read, f);
            && (forall vm :: vm in h.vms && !Recognised(vm) ==> vm in after.vms)
            && (forall v :: v in h.volumes && !IsManaged(v) ==> v in after.volumes)
  {
    forall vm | vm in h.vms && !Recognised(vm) ensures vm in Pass(h, providerID, read, f).vms {
      VMSurvivesIff(h, providerID, read, f, vm);
    }
    forall v | v in h.volumes && !IsManaged(v) ensures v in Pass(h, providerID, read, f).volumes {
      VolumeSurvivesIff(h, providerID, read, f, v);
    }
  }

  /** What provisioning creates for a request. */
  predicate Provisioned(vm: VM, v: Volume, providerID: string, requestID: string) {
    && vm.name == VmName(providerID, requestID) && vm.description == OmniVMDescription(requestID)
    && v.managed == "true" && v.requestID == requestID && requestID != ""
  }

  /** The id that cleanup reads back is the request's own or none at all, or cleanup does not take the VM for one
      of the provider's. */
  predicate ReadsBackSafely(providerID: string, requestID: string)
    requires requestID != ""
  {
    ')' !in requestID || requestID[0] == ')' || !(HasAlphanumeric(providerID) || HasAlphanumeric(requestID))
  }

  lemma ReadBack(providerID: string, requestID: string, vm: VM, v: Volume)
    requires Provisioned(vm, v, providerID, requestID)
    ensures ReadsBackSafely(providerID, requestID) <==> RequestOf(vm) == requestID || !Recognised(vm)
  {
    DescriptionReadsBack(requestID);
    IndexOfIsFirst(requestID, ')');
    assert UntilClosing(requestID) == "" <==> requestID[0] == ')';
    BuiltNameRecognisedIff(providerID, requestID);
  }

  /** A provisioned pair of a live request is safe when its id reads back safely. */
  lemma ProvisionedIsSafe(h: Snapshot, providerID: string, read: LiveRead, f: Faults, vm: VM, v: Volume,
      requestID: string)
    requires vm in h.vms && v in h.volumes && Provisioned(vm, v, providerID, requestID)
    requires NotDenied(read, requestID) && ReadsBackSafely(providerID, requestID)
    ensures var after := Pass(h, providerID, read, f); vm in after.vms && v in after.volumes
  {
    ReadBack(providerID, requestID, vm, v);
    assert requestID in ManagedIDs(h.volumes);
    VMSurvivesIff(h, providerID, read, f, vm);
    assert vm.name in Names(Pass(h, providerID, read, f).vms);
    VolumeSurvivesIff(h, providerID, read, f, v);
  }

  /** A pass deletes one of a provisioned pair although Omni knows its request, or nobody asked Omni. */
  predicate CostsPair(h: Snapshot, providerID: string, read: LiveRead, f: Faults, vm: VM, v: Volume,
      requestID: string) {
    && vm in h.vms && v in h.volumes && Provisioned(vm, v, providerID, requestID) && NotDenied(read, requestID)
    && var after := Pass(h, providerID, read, f);
    (vm !in after.vms || v !in after.volumes)
  }

  /** On a host with only this pair and only this live request, an id that does not read back safely is cut short
      and costs the VM. */
  lemma CutIDCostsTheVM(providerID: string, requestID: string, vm: VM, v: Volume)
    requires Provisioned(vm, v, providerID, requestID) && !ReadsBackSafely(providerID, requestID)
    ensures CostsPair(Snapshot([vm], [v]), providerID, Live({requestID}), NO_FAULTS, vm, v, requestID)
  {
    ReadBack(providerID, requestID, vm, v);
    VMSurvivesIff(Snapshot([vm], [v]), providerID, Live({requestID}), NO_FAULTS, vm);
  }

  /** What provisioning created for a live request survives every pass, on every host, with every read of the live
      requests and every fault, exactly when the request id has no closing parenthesis, or starts with one,
      or neither identifier has an alphanumeric character. */
  lemma ProvisionedSurvivesIff(providerID: string, requestID: string)
    requires requestID != ""
    ensures (forall h, read, f, vm, v :: !CostsPair(h, providerID, read, f, vm, v, requestID))
            <==> ')' !in requestID || requestID[0] == ')'
                 || !(HasAlphanumeric(providerID) || HasAlphanumeric(requestID))
  {
    if ReadsBackSafely(providerID, requestID) {
      forall h, read, f, vm, v ensures !CostsPair(h, providerID, read, f, vm, v, requestID) {
        if vm in h.vms && v in h.volumes && Provisioned(vm, v, providerID, requestID)
            && NotDenied(read, requestID) {
          ProvisionedIsSafe(h, providerID, read, f, vm, v, requestID);
        }
      }
    } else {
      var vm, v := VM(1, VmName(providerID, requestID), OmniVMDescription(requestID)), Volume("v", "true", requestID);
      CutIDCostsTheVM(providerID, requestID, vm, v);
    }
  }

  // ----- What a pass leaves

  /** Every recognised VM and managed volume that is left belongs to a known request; every such volume that is
      left has a VM standing. */
  ghost predicate Settled(h: Snapshot, providerID: string, read: LiveRead) {
    && (forall vm :: vm in h.vms && Recognised(vm) ==> NotDenied(read, RequestOf(vm)))
    && (forall v :: v in h.volumes && IsManaged(v) ==>
          NotDenied(read, v.requestID) && Standing(Names(h.vms), providerID, v.requestID))
  }

  /** Nothing without a live request outlives a pass, not even a VM and a volume that back each other. */
  lemma PassSettles(h: Snapshot, providerID: string, read: LiveRead)
    ensures Settled(CleanPass(h, providerID, read), providerID, read)
  {
    var after := CleanPass(h, providerID, read);
    forall vm | vm in after.vms && Recognised(vm) ensures NotDenied(read, RequestOf(vm)) {
      VMSurvivesIff(h, providerID, read, NO_FAULTS, vm);
    }
    forall v | v in after.volumes && IsManaged(v)
      ensures NotDenied(read, v.requestID) && Standing(Names(after.vms), providerID, v.requestID)
    {
      VolumeSurvivesIff(h, providerID, read, NO_FAULTS, v);
    }
  }

  /** Every recognised VM is backed by a managed volume. */
  ghost predicate Backed(h: Snapshot) {
    forall vm :: vm in h.vms && Recognised(vm) ==> RequestOf(vm) in ManagedIDs(h.volumes)
  }

  /** On a settled host a pass changes nothing exactly when every recognised VM is backed; otherwise it deletes
      at least one VM. */
  lemma SettledPass(h: Snapshot, providerID: string, read: LiveRead, earlier: LiveRead)
    requires Settled(h, providerID, earlier) && (read == earlier || !read.Live?)
    ensures var after := CleanPass(h, providerID, read);
            && (after == h <==> Backed(h))
            && (after != h ==> |after.vms| < |h.vms|)
  {
    var after := CleanPass(h, providerID, read);
    var keepVM := KeepsVM(ManagedIDs(h.volumes), Usable(read), {});
    FilterIdentityIff(h.vms, keepVM);
    assert after.vms == Filter(h.vms, keepVM);
    if Backed(h) {
      assert forall vm :: vm in h.vms ==> keepVM(vm);
    } else {
      var vm :| vm in h.vms && Recognised(vm) && RequestOf(vm) !in ManagedIDs(h.volumes);
      assert !keepVM(vm);
    }
    if after.vms == h.vms {
      FilterIdentityIff(h.volumes, KeepsVolume(Names(h.vms), providerID, Usable(read), {}));
    }
  }

  // ----- Second passes

  /** Every recognised VM's request has a VM with one of its names. */
  ghost predicate WellNamed(h: Snapshot, providerID: string) {
    forall vm :: vm in h.vms && Recognised(vm) ==> Standing(Names(h.vms), providerID, RequestOf(vm))
  }

  /** After a pass, backed and well named are the same thing. */
  lemma BackedIffWellNamed(h: Snapshot, providerID: string, read: LiveRead)
    ensures var after := CleanPass(h, providerID, read); Backed(after) <==> WellNamed(after, providerID)
  {
    var after := CleanPass(h, providerID, read);
    PassSettles(h, providerID, read);
    forall vm | vm in after.vms && Recognised(vm)
      ensures RequestOf(vm) in ManagedIDs(after.volumes) <==> Standing(Names(after.vms), providerID, RequestOf(vm))
    {
      var r := RequestOf(vm);
      if r in ManagedIDs(after.volumes) {
        var v :| v in after.volumes && IsManaged(v) && v.requestID == r;
      }
      VMSurvivesIff(h, providerID, read, NO_FAULTS, vm);
      var v :| v in h.volumes && IsManaged(v) && v.requestID == r;
      VolumeSurvivesIff(h, providerID, read, NO_FAULTS, v);
    }
  }

  lemma SecondPassIdleIff(h: Snapshot, providerID: string, first: LiveRead, second: LiveRead)
    requires second == first || !second.Live?
    ensures var after := CleanPass(h, providerID, first);
            CleanPass(after, providerID, second) == after <==> WellNamed(after, providerID)
  {
    PassSettles(h, providerID, first);
    BackedIffWellNamed(h, providerID, first);
    SettledPass(CleanPass(h, providerID, first), providerID, second, first);
  }

  /** A VM of the provider whose request Omni denies, or that no managed volume backs. */
  predicate Orphaned(h: Snapshot, read: LiveRead, vm: VM) {
    Recognised(vm) && (!NotDenied(read, RequestOf(vm)) || RequestOf(vm) !in ManagedIDs(h.volumes))
  }

  /** Some VM that is not an orphan carries a name of the request. */
  ghost predicate NamedByKept(h: Snapshot, providerID: string, read: LiveRead, requestID: string) {
    exists w :: w in h.vms && !Orphaned(h, read, w) && NameFits(w.name, providerID, requestID)
  }

  /** Every VM of the provider that has a managed volume, and a live request as far as is known, is named by one. */
  ghost predicate KeptAreNamed(h: Snapshot, providerID: string, read: LiveRead) {
    forall vm :: vm in h.vms && Recognised(vm) && !Orphaned(h, read, vm)
      ==> NamedByKept(h, providerID, read, RequestOf(vm))
  }

  lemma StandingAfterIff(h: Snapshot, providerID: string, read: LiveRead, requestID: string)
    ensures Standing(Names(CleanPass(h, providerID, read).vms), providerID, requestID)
            <==> NamedByKept(h, providerID, read, requestID)
  {
    var after := CleanPass(h, providerID, read);
    if Standing(Names(after.vms), providerID, requestID) {
      var w :| w in after.vms && NameFits(w.name, providerID, requestID);
      VMSurvivesIff(h, providerID, read, NO_FAULTS, w);
    }
    if w :| w in h.vms && !Orphaned(h, read, w) && NameFits(w.name, providerID, requestID) {
      VMSurvivesIff(h, providerID, read, NO_FAULTS, w);
      assert w.name in Names(after.vms);
    }
  }

  /** A second pass, with the same live set or none, deletes nothing exactly when, on the host before the first, for
      every VM of the provider that is not an orphan some VM that is not an orphan carries a name of its
      request. */
  lemma SecondPassIff(h: Snapshot, providerID: string, first: LiveRead, second: LiveRead)
    requires second == first || !second.Live?
    ensures var after := CleanPass(h, providerID, first);
            CleanPass(after, providerID, second) == after <==> KeptAreNamed(h, providerID, first)
  {
    SecondPassIdleIff(h, providerID, first, second);
    WellNamedAfterIff(h, providerID, first);
  }

  lemma WellNamedAfterIff(h: Snapshot, providerID: string, read: LiveRead)
    ensures WellNamed(CleanPass(h, providerID, read), providerID) <==> KeptAreNamed(h, providerID, read)
  {
    var after := CleanPass(h, providerID, read);
    forall vm ensures vm in after.vms <==> vm in h.vms && !Orphaned(h, read, vm) {
      VMSurvivesIff(h, providerID, read, NO_FAULTS, vm);
    }
    forall vm | vm in h.vms
      ensures Standing(Names(after.vms), providerID, RequestOf(vm))
          <==> NamedByKept(h, providerID, read, RequestOf(vm))
    {
      StandingAfterIff(h, providerID, read, RequestOf(vm));
    }
  }

  /** One pass is enough when every recognised VM carries a name of its own request. */
  lemma OnePassIsEnough(h: Snapshot, providerID: string, first: LiveRead, second: LiveRead)
    requires forall vm :: vm in h.vms && Recognised(vm) ==> NameFits(vm.name, providerID, RequestOf(vm))
    requires second == first || !second.Live?
    ensures var after := CleanPass(h, providerID, first); CleanPass(after, providerID, second) == after
  {
    var after := CleanPass(h, providerID, first);
    forall vm | vm in after.vms && Recognised(vm) ensures Standing(Names(after.vms), providerID, RequestOf(vm)) {
      VMSurvivesIff(h, providerID, first, NO_FAULTS, vm);
      assert vm.name in Names(after.vms);
    }
    SecondPassIdleIff(h, providerID, first, second);
  }

  lemma FilterOne<T>(x: T, keep: T -> bool)
    ensures Filter([x], keep) == if keep(x) then [x] else []
  {
    assert [x][..0] == [];
  }

  /** A pass over one recognised VM deletes it exactly when nothing backs it. */
  lemma PassOverOneVM(providerID: string, vm: VM, volumes: seq<Volume>, read: LiveRead)
    requires Recognised(vm) && NotDenied(read, RequestOf(vm))
    ensures CleanPass(Snapshot([vm], volumes), providerID, read).vms
            == if RequestOf(vm) in ManagedIDs(volumes) then [vm] else []
  {
    FilterOne(vm, KeepsVM(ManagedIDs(volumes), Usable(read), {}));
  }

  lemma PassOverOneVolume(providerID: string, vm: VM, v: Volume, read: LiveRead)
    requires IsManaged(v) && !NameFits(vm.name, providerID, v.requestID)
    requires CleanPass(Snapshot([vm], [v]), providerID, read).vms == [vm]
    ensures CleanPass(Snapshot([vm], [v]), providerID, read).volumes == []
  {
    hide VmName, LegacyName;
    assert Names([vm]) == {vm.name};
    FilterOne(v, KeepsVolume(Names([vm]), providerID, Usable(read), {}));
  }

  /** A renamed VM of a live request loses its volume in the first pass and is deleted by the second. */
  lemma RenamedVMTakesTwoPasses(providerID: string, vm: VM, v: Volume)
    requires Recognised(vm) && IsManaged(v) && RequestOf(vm) == v.requestID
        && !NameFits(vm.name, providerID, v.requestID)
    ensures var read := Live({v.requestID});
            var after := CleanPass(Snapshot([vm], [v]), providerID, read);
            after == Snapshot([vm], []) && CleanPass(after, providerID, read).vms == []
  {
    var read := Live({v.requestID});
    assert v.requestID in ManagedIDs([v]) && ManagedIDs([]) == {};
    PassOverOneVM(providerID, vm, [v], read);
    PassOverOneVolume(providerID, vm, v, read);
    PassOverOneVM(providerID, vm, [], read);
  }

  // ----- Any number of passes

  function Passes(h: Snapshot, providerID: string, read: LiveRead, n: nat): Snapshot
    decreases n
  {
    if n == 0 then h else Passes(CleanPass(h, providerID, read), providerID, read, n - 1)
  }

  lemma {:induction false} FixedStaysFixed(h: Snapshot, providerID: string, read: LiveRead, n: nat)
    requires CleanPass(h, providerID, read) == h
    ensures Passes(h, providerID, read, n) == h
  {
    if n == 0 {
    } else {
      FixedStaysFixed(h, providerID, read, n - 1);
    }
  }

  lemma {:induction false} SettledStops(h: Snapshot, providerID: string, read: LiveRead, n: nat)
    requires Settled(h, providerID, read) && n >= |h.vms|
    ensures CleanPass(Passes(h, providerID, read, n), providerID, read) == Passes(h, providerID, read, n)
    decreases n
  {
    hide CleanPass, Settled;
    SettledPass(h, providerID, read, read);
    var after := CleanPass(h, providerID, read);
    if after == h {
      FixedStaysFixed(h, providerID, read, n);
    } else {
      PassSettles(h, providerID, read);
      SettledStops(after, providerID, read, n - 1);
    }
  }

  lemma CleanPassShrinks(h: Snapshot, providerID: string, read: LiveRead)
    ensures |CleanPass(h, providerID, read).vms| <= |h.vms|
  {
  }

  /** However the VMs are named, one pass more than there are VMs reaches a host that no pass changes. */
  lemma PassesStop(h: Snapshot, providerID: string, read: LiveRead, n: nat)
    requires n > |h.vms|
    ensures CleanPass(Passes(h, providerID, read, n), providerID, read) == Passes(h, providerID, read, n)
  {
    CleanPassShrinks(h, providerID, read);
    hide CleanPass, Settled;
    PassSettles(h, providerID, read);
    SettledStops(CleanPass(h, providerID, read), providerID, read, n - 1);
  }
}
