/** The singleton lease: the update callbacks as functions of the stored ProviderStatus, and the Lease
    object whose fields they mutate. Times are in nanoseconds. */
module Lease {
  import opened Text

  const DEFAULT_REFRESH: int := 15_000_000_000
  const DEFAULT_STALE_AFTER: int := 45_000_000_000
  const MAX_CONSECUTIVE_ERRORS: nat := 3
  const UINT64_LIMIT: int := 0x1_0000_0000_0000_0000

  function Uint64(n: int): (r: nat)
    ensures r < UINT64_LIMIT
    ensures 0 <= n < UINT64_LIMIT ==> r == n
  {
    n % 0x1_0000_0000_0000_0000
  }

  lemma Uint64Add(n: int, d: int)
    ensures Uint64(Uint64(n) + d) == Uint64(n + d)
  {
  }

  datatype Config = Config(refresh: int, staleAfter: int)

  /** `New`: zero or negative durations take their defaults; a stale age under two refreshes is rejected. */
  function NewConfig(refresh: int, staleAfter: int): (c: Option<Config>)
    ensures c.Some? ==> c.value.refresh > 0 && c.value.staleAfter >= 2 * c.value.refresh
  {
    var r := if refresh <= 0 then DEFAULT_REFRESH else refresh;
    var s := if staleAfter <= 0 then DEFAULT_STALE_AFTER else staleAfter;
    if s < 2 * r then None else Some(Config(r, s))
  }

  /** What `New` accepts: positive durations as they are, others as the defaults, and of those exactly the
      pairs whose stale age is at least two refreshes. An accepted configuration is accepted again unchanged. */
  lemma NewConfigIff(refresh: int, staleAfter: int)
    ensures refresh > 0 && staleAfter > 0 ==>
              NewConfig(refresh, staleAfter)
              == if 2 * refresh <= staleAfter then Some(Config(refresh, staleAfter)) else None
    ensures refresh <= 0 ==> NewConfig(refresh, staleAfter) == NewConfig(15_000_000_000, staleAfter)
    ensures staleAfter <= 0 ==> NewConfig(refresh, staleAfter) == NewConfig(refresh, 45_000_000_000)
    ensures NewConfig(refresh, staleAfter).Some? ==>
              var c := NewConfig(refresh, staleAfter).value; NewConfig(c.refresh, c.staleAfter) == Some(c)
  {
  }

  datatype Heartbeat = NoHeartbeat | Malformed | At(time: int)

  /** The lease's annotations on a ProviderStatus. `updated` is the server's own timestamp; a missing or
      malformed epoch annotation is None. */
  datatype Resource = Resource(owner: Option<string>, heartbeat: Heartbeat, epoch: Option<nat>, updated: Option<int>)

  /** `readEpochAnnotation`. */
  function ReadEpoch(r: Resource): nat {
    if r.epoch.Some? then r.epoch.value else 0
  }

  /** `leaseAge`. */
  function LeaseAge(r: Resource, now: int): Option<int> {
    match r.heartbeat
    case At(t) => Some(now - t)
    case Malformed => None
    case NoHeartbeat => if r.updated.Some? then Some(now - r.updated.value) else None
  }

  /** Another instance's lease that may not be taken. */
  predicate HeldByOther(r: Resource, id: string, staleAfter: int, now: int) {
    r.owner.Some? && r.owner.value != id && LeaseAge(r, now).Some? && LeaseAge(r, now).value < staleAfter
  }

  /** When another's lease is respected: its heartbeat is younger than the stale age, or there is no heartbeat and the
      server's timestamp is. A heartbeat that is there but cannot be read protects nobody. */
  lemma HeldByOtherIff(r: Resource, id: string, staleAfter: int, now: int)
    ensures HeldByOther(r, id, staleAfter, now) <==>
            && r.owner.Some? && r.owner != Some(id)
            && ((r.heartbeat.At? && now < r.heartbeat.time + staleAfter)
                || (r.heartbeat.NoHeartbeat? && r.updated.Some? && now < r.updated.value + staleAfter))
  {
  }

  /** The fields of a Lease that callbacks mutate. */
  datatype Memory = Memory(epoch: nat, wasTakeover: bool)

  function Stamped(r: Resource, id: string, epoch: nat, now: int): Resource {
    r.(owner := Some(id), heartbeat := At(now), epoch := Some(epoch))
  }

  datatype Attempt = Held | Write(res: Resource)

  /** The callback of `casAcquire`: what it leaves in memory even if its write never lands, and the write. */
  function AcquireCallback(m: Memory, r: Resource, id: string, staleAfter: int, now: int): (Memory, Attempt) {
    if HeldByOther(r, id, staleAfter, now) then (m, Held)
    else
      var m' := if r.owner == Some(id) then m.(epoch := if m.epoch == 0 then ReadEpoch(r) else m.epoch)
                else Memory(Uint64(ReadEpoch(r) + 1), true);
      (m', Write(Stamped(r, id, m'.epoch, now)))
  }

  datatype Refresh = Stolen | Refreshed(res: Resource)

  /** The callback of `refresh`. */
  function RefreshCallback(m: Memory, r: Resource, id: string, now: int): Refresh {
    if r.owner.Some? && r.owner.value != id then Stolen
    else if m.epoch != 0 && ReadEpoch(r) > m.epoch then Stolen
    else Refreshed(Stamped(r, id, m.epoch, now))
  }

  /** The callback of `Release`. */
  function ReleaseCallback(r: Resource, id: string): Resource {
    if r.owner == Some(id) then r.(owner := None, heartbeat := NoHeartbeat, epoch := None) else r
  }

  // ----- The Lease object

  /** The stored ProviderStatus, if it exists. */
  class ProviderStatus {
    var stored: Option<Resource>
  }

  datatype AcquireResult = Acquired | HeldElsewhere | AcquireFailed | GaveUp

  datatype CasResult = CasDone | CasHeld | CasNotFound | CasFailed

  /** What one attempt of `Acquire` finds in the store at its Get, at its Create and at each pass of its update
      (whose last pass is the one that is not overtaken), and which of these requests fail. */
  datatype Encounter = Encounter(
    now: int, atGet: Option<Resource>, getFails: bool, atCreate: Option<Resource>, createFails: bool,
    versions: seq<Option<Resource>>, updateFails: bool)

  /** The update of one attempt from its k-th pass on: memory, result and store. */
  function CasOutcome(m: Memory, id: string, staleAfter: int, e: Encounter, k: nat)
    : (Memory, CasResult, Option<Resource>)
    requires k < |e.versions|
    decreases |e.versions| - k
  {
    if e.versions[k].None? then (m, CasNotFound, None)
    else
      var (m', a) := AcquireCallback(m, e.versions[k].value, id, staleAfter, e.now);
      if a.Held? then (m', CasHeld, e.versions[k])
      else if k + 1 < |e.versions| then CasOutcome(m', id, staleAfter, e, k + 1)
      else if e.updateFails then (m', CasFailed, e.versions[k])
      else (m', CasDone, Some(a.res))
  }

  function AcquireOutcome(m: Memory, id: string, staleAfter: int, encounters: seq<Encounter>)
    : (Memory, AcquireResult, Option<Resource>)
    requires forall k :: 0 <= k < |encounters| ==> encounters[k].versions != []
    decreases |encounters|
  {
    if encounters == [] then (m, GaveUp, None)
    else
      var e := encounters[0];
      if e.getFails then (m, AcquireFailed, e.atGet)
      else if e.atGet.None? && e.createFails then (m.(epoch := 1), AcquireFailed, e.atCreate)
      else if e.atGet.None? && e.atCreate.None? then
        (m.(epoch := 1), Acquired, Some(Resource(Some(id), At(e.now), Some(1), Some(e.now))))
      else
        var (m', c, stored) := CasOutcome(if e.atGet.None? then m.(epoch := 1) else m, id, staleAfter, e, 0);
        match c
        case CasDone => (m', Acquired, stored)
        case CasHeld => (m', HeldElsewhere, stored)
        case CasFailed => (m', AcquireFailed, stored)
        case CasNotFound => AcquireOutcome(m', id, staleAfter, encounters[1..])
  }

  /** The update writes over the version of its last pass and only if nobody else holds that one, whatever the
      overtaken passes saw; it reports the lease held exactly on seeing it held. */
  lemma {:induction false} CasWritesOverLastVersion(m: Memory, id: string, staleAfter: int, e: Encounter, k: nat)
    requires k < |e.versions|
    ensures var (m', r, stored) := CasOutcome(m, id, staleAfter, e, k);
            && (r.CasDone? ==>
                  var last := e.versions[|e.versions| - 1];
                  && last.Some? && !HeldByOther(last.value, id, staleAfter, e.now)
                  && stored == Some(Stamped(last.value, id, m'.epoch, e.now))
                  && (last.value.owner != Some(id) ==> m'.wasTakeover && m'.epoch == Uint64(ReadEpoch(last.value) + 1)))
            && (r.CasHeld? ==> stored in e.versions && stored.Some? && HeldByOther(stored.value, id, staleAfter, e.now))
            && (r.CasNotFound? ==> stored == None && None in e.versions)
    decreases |e.versions| - k
  {
    if e.versions[k].Some? && k + 1 < |e.versions| {
      var (m', a) := AcquireCallback(m, e.versions[k].value, id, staleAfter, e.now);
      if !a.Held? {
        CasWritesOverLastVersion(m', id, staleAfter, e, k + 1);
      }
    }
  }

  /** A failed update keeps in memory what it would have written over the last version. */
  lemma {:induction false} FailedCasKeepsClaim(m: Memory, id: string, staleAfter: int, e: Encounter, k: nat)
    requires k < |e.versions|
    ensures var (m', r, stored) := CasOutcome(m, id, staleAfter, e, k);
            r.CasFailed? ==>
              var last := e.versions[|e.versions| - 1];
              && e.updateFails && stored == last && last.Some?
              && (last.value.owner != Some(id) ==> m'.wasTakeover && m'.epoch == Uint64(ReadEpoch(last.value) + 1))
              && (last.value.owner == Some(id) && m'.epoch == 0 ==> ReadEpoch(last.value) == 0)
    decreases |e.versions| - k
  {
    if e.versions[k].Some? && k + 1 < |e.versions| {
      var (m', a) := AcquireCallback(m, e.versions[k].value, id, staleAfter, e.now);
      if !a.Held? {
        FailedCasKeepsClaim(m', id, staleAfter, e, k + 1);
      }
    }
  }

  /** The claim that attempt `e` could not write is in memory all the same. */
  predicate ClaimLeftIn(e: Encounter, id: string, m: Memory) {
    || e.getFails
    || (e.atGet.None? && e.createFails && m.epoch == 1)
    || (&& Updates(e) && e.updateFails && e.versions != []
        && var last := e.versions[|e.versions| - 1];
        && last.Some?
        && (last.value.owner != Some(id) ==> m.wasTakeover && m.epoch == Uint64(ReadEpoch(last.value) + 1)))
  }

  /** An Acquire that fails at a creation leaves epoch 1 in memory, and one that fails at its update over a lease that
      was not ours leaves that lease's next epoch and the takeover mark: a later refresh would write that epoch. */
  lemma {:induction false} FailedAcquireKeepsClaim(m: Memory, id: string, staleAfter: int, encounters: seq<Encounter>)
    requires forall k :: 0 <= k < |encounters| ==> encounters[k].versions != []
    ensures var (m', r, stored) := AcquireOutcome(m, id, staleAfter, encounters);
            r.AcquireFailed? ==> exists k :: 0 <= k < |encounters| && ClaimLeftIn(encounters[k], id, m')
    decreases |encounters|
  {
    if encounters == [] {
    } else {
      var e := encounters[0];
      var m0 := if e.atGet.None? then m.(epoch := 1) else m;
      FailedCasKeepsClaim(m0, id, staleAfter, e, 0);
      FailedAcquireKeepsClaim(CasOutcome(m0, id, staleAfter, e, 0).0, id, staleAfter, encounters[1..]);
      assert forall k :: 0 <= k < |encounters[1..]| ==> encounters[1..][k] == encounters[k + 1];
    }
  }

  // ----- What Acquire answers

  /** The attempt gets to its update: the resource was there, or a creation found that it was. */
  predicate Updates(e: Encounter) {
    !e.getFails && (e.atGet.Some? || (!e.createFails && e.atCreate.Some?))
  }

  /** The first `n` versions were there, and nobody else's. */
  predicate FreeUpTo(e: Encounter, id: string, staleAfter: int, n: nat)
    requires n <= |e.versions|
  {
    forall i :: 0 <= i < n ==> e.versions[i].Some? && !HeldByOther(e.versions[i].value, id, staleAfter, e.now)
  }

  predicate Faulted(e: Encounter, id: string, staleAfter: int) {
    || e.getFails
    || (e.atGet.None? && e.createFails)
    || (Updates(e) && FreeUpTo(e, id, staleAfter, |e.versions|) && e.updateFails)
  }

  predicate Claims(e: Encounter, id: string, staleAfter: int) {
    && !e.getFails
    && ((e.atGet.None? && !e.createFails && e.atCreate.None?)
        || (Updates(e) && FreeUpTo(e, id, staleAfter, |e.versions|) && !e.updateFails))
  }

  predicate Refused(e: Encounter, id: string, staleAfter: int) {
    Updates(e) && exists j :: 0 <= j < |e.versions| && FreeUpTo(e, id, staleAfter, j)
                              && e.versions[j].Some? && HeldByOther(e.versions[j].value, id, staleAfter, e.now)
  }

  predicate Vanished(e: Encounter, id: string, staleAfter: int) {
    Updates(e) && exists j :: 0 <= j < |e.versions| && FreeUpTo(e, id, staleAfter, j) && e.versions[j].None?
  }

  /** All attempts before number k found the resource gone in mid-update. */
  predicate VanishedBefore(encounters: seq<Encounter>, id: string, staleAfter: int, k: nat)
    requires k <= |encounters|
  {
    forall i :: 0 <= i < k ==> Vanished(encounters[i], id, staleAfter)
  }

  lemma {:induction false} CasAnswers(m: Memory, id: string, staleAfter: int, e: Encounter, k: nat)
    requires k < |e.versions| && FreeUpTo(e, id, staleAfter, k)
    ensures var r := CasOutcome(m, id, staleAfter, e, k).1;
            && (r.CasDone? <==> FreeUpTo(e, id, staleAfter, |e.versions|) && !e.updateFails)
            && (r.CasFailed? <==> FreeUpTo(e, id, staleAfter, |e.versions|) && e.updateFails)
            && (r.CasHeld? <==> exists j :: 0 <= j < |e.versions| && FreeUpTo(e, id, staleAfter, j)
                                  && e.versions[j].Some? && HeldByOther(e.versions[j].value, id, staleAfter, e.now))
            && (r.CasNotFound? <==> exists j :: 0 <= j < |e.versions| && FreeUpTo(e, id, staleAfter, j)
                                      && e.versions[j].None?)
    decreases |e.versions| - k
  {
    if e.versions[k].Some? && k + 1 < |e.versions| {
      var (m', a) := AcquireCallback(m, e.versions[k].value, id, staleAfter, e.now);
      if !a.Held? {
        CasAnswers(m', id, staleAfter, e, k + 1);
      }
    }
  }

  /** The first attempt in which the resource did not vanish ends like this. */
  ghost predicate DecidedAs(encounters: seq<Encounter>, id: string, staleAfter: int, ends: Encounter -> bool) {
    exists k :: 0 <= k < |encounters| && VanishedBefore(encounters, id, staleAfter, k) && ends(encounters[k])
  }

  lemma VanishedCons(encounters: seq<Encounter>, id: string, staleAfter: int, k: nat)
    requires 0 < k <= |encounters|
    ensures VanishedBefore(encounters, id, staleAfter, k)
            <==> Vanished(encounters[0], id, staleAfter) && VanishedBefore(encounters[1..], id, staleAfter, k - 1)
  {
    var rest := encounters[1..];
    assert forall i :: 0 <= i < k - 1 ==> rest[i] == encounters[i + 1];
    assert forall i :: 0 < i < k ==> encounters[i] == rest[i - 1];
  }

  /** The first encounter decides, or vanishes and leaves it to the rest. */
  lemma FirstDecides(encounters: seq<Encounter>, id: string, staleAfter: int, ends: Encounter -> bool)
    requires encounters != []
    ensures DecidedAs(encounters, id, staleAfter, ends)
            <==> ends(encounters[0])
                 || (Vanished(encounters[0], id, staleAfter) && DecidedAs(encounters[1..], id, staleAfter, ends))
  {
    var rest := encounters[1..];
    if k :| 0 <= k < |encounters| && VanishedBefore(encounters, id, staleAfter, k) && ends(encounters[k]) {
      if k > 0 {
        VanishedCons(encounters, id, staleAfter, k);
        assert rest[k - 1] == encounters[k];
      }
    }
    if ends(encounters[0]) {
      assert VanishedBefore(encounters, id, staleAfter, 0);
    }
    if k :| Vanished(encounters[0], id, staleAfter)
            && 0 <= k < |rest| && VanishedBefore(rest, id, staleAfter, k) && ends(rest[k]) {
      VanishedCons(encounters, id, staleAfter, k + 1);
      assert encounters[k + 1] == rest[k];
    }
  }

  /** An attempt ends in exactly one way, and only if the resource vanished does the next one matter. */
  lemma HeadAnswers(m: Memory, id: string, staleAfter: int, encounters: seq<Encounter>) returns (m': Memory)
    requires encounters != [] && forall k :: 0 <= k < |encounters| ==> encounters[k].versions != []
    ensures var e := encounters[0]; var r := AcquireOutcome(m, id, staleAfter, encounters).1;
            && (Claims(e, id, staleAfter) ==> r.Acquired?)
            && (Refused(e, id, staleAfter) ==> r.HeldElsewhere?)
            && (Faulted(e, id, staleAfter) ==> r.AcquireFailed?)
            && (Vanished(e, id, staleAfter) ==>
                  && r == AcquireOutcome(m', id, staleAfter, encounters[1..]).1
                  && !Claims(e, id, staleAfter) && !Refused(e, id, staleAfter) && !Faulted(e, id, staleAfter))
            && (Claims(e, id, staleAfter) || Refused(e, id, staleAfter) || Faulted(e, id, staleAfter)
                || Vanished(e, id, staleAfter))
  {
    var e := encounters[0];
    var m0 := if e.atGet.None? then m.(epoch := 1) else m;
    CasAnswers(m0, id, staleAfter, e, 0);
    m' := CasOutcome(m0, id, staleAfter, e, 0).0;
  }

  /** What Acquire answers, exactly: the first attempt in which the resource did not vanish decides. It succeeds when
      that attempt creates the resource or lands its update, is refused when another's fresh lease was seen, and
      fails when a request failed; it gives up when the resource vanished in every attempt. What its memory held
      makes no difference. */
  lemma {:induction false} AcquireAnswersIff(m: Memory, id: string, staleAfter: int, encounters: seq<Encounter>)
    requires forall k :: 0 <= k < |encounters| ==> encounters[k].versions != []
    ensures var r := AcquireOutcome(m, id, staleAfter, encounters).1;
            && (r.Acquired? <==> DecidedAs(encounters, id, staleAfter, e => Claims(e, id, staleAfter)))
            && (r.HeldElsewhere? <==> DecidedAs(encounters, id, staleAfter, e => Refused(e, id, staleAfter)))
            && (r.AcquireFailed? <==> DecidedAs(encounters, id, staleAfter, e => Faulted(e, id, staleAfter)))
            && (r.GaveUp? <==> VanishedBefore(encounters, id, staleAfter, |encounters|))
    decreases |encounters|
  {
    if encounters == [] {
    } else {
      var m' := HeadAnswers(m, id, staleAfter, encounters);
      AcquireAnswersIff(m', id, staleAfter, encounters[1..]);
      FirstDecides(encounters, id, staleAfter, e => Claims(e, id, staleAfter));
      FirstDecides(encounters, id, staleAfter, e => Refused(e, id, staleAfter));
      FirstDecides(encounters, id, staleAfter, e => Faulted(e, id, staleAfter));
      VanishedCons(encounters, id, staleAfter, |encounters|);
      hide Claims, Refused, Faulted, Vanished, DecidedAs, VanishedBefore, AcquireOutcome;
    }
  }

  /** A successful Acquire ends in an attempt that created the resource at epoch 1, or that wrote over a version
      nobody else held and, unless that version was our own, took the next epoch. It is refused only on
      seeing a fresh lease of another, and gives up only after the resource was gone in every attempt. */
  lemma {:induction false} AcquireMeans(m: Memory, id: string, staleAfter: int, encounters: seq<Encounter>)
    requires forall k :: 0 <= k < |encounters| ==> encounters[k].versions != []
    ensures var (m', r, stored) := AcquireOutcome(m, id, staleAfter, encounters);
            && (r.Acquired? ==>
                  exists k :: 0 <= k < |encounters| && ClaimedIn(encounters[k], id, staleAfter, m', stored))
            && (r.HeldElsewhere? ==>
                  exists k :: 0 <= k < |encounters| && stored in encounters[k].versions && stored.Some?
                                && HeldByOther(stored.value, id, staleAfter, encounters[k].now))
            && (r.GaveUp? ==> stored == None && forall k :: 0 <= k < |encounters| ==> None in encounters[k].versions)
    decreases |encounters|
  {
    if encounters == [] {
    } else {
      var e := encounters[0];
      var m0 := if e.atGet.None? then m.(epoch := 1) else m;
      CasWritesOverLastVersion(m0, id, staleAfter, e, 0);
      var (m1, c, stored) := CasOutcome(m0, id, staleAfter, e, 0);
      AcquireMeans(m1, id, staleAfter, encounters[1..]);
      assert forall k :: 0 < k < |encounters| ==> encounters[k] == encounters[1..][k - 1];
      assert forall k :: 0 <= k < |encounters[1..]| ==> encounters[1..][k] == encounters[k + 1];
    }
  }

  /** Attempt `e` ended with the lease written. */
  predicate ClaimedIn(e: Encounter, id: string, staleAfter: int, m: Memory, stored: Option<Resource>) {
    if e.atGet.None? && e.atCreate.None? then
      stored == Some(Resource(Some(id), At(e.now), Some(1), Some(e.now))) && m.epoch == 1
    else
      && e.versions != []
      && var last := e.versions[|e.versions| - 1];
      && last.Some? && !HeldByOther(last.value, id, staleAfter, e.now)
      && stored == Some(Stamped(last.value, id, m.epoch, e.now))
      && (last.value.owner != Some(id) ==> m.wasTakeover && m.epoch == Uint64(ReadEpoch(last.value) + 1))
  }

  lemma AcquiredIsOurs(m: Memory, id: string, staleAfter: int, encounters: seq<Encounter>)
    requires forall k :: 0 <= k < |encounters| ==> encounters[k].versions != []
    ensures var (m', r, stored) := AcquireOutcome(m, id, staleAfter, encounters);
            r.Acquired? ==> stored.Some? && stored.value.owner == Some(id) && stored.value.epoch == Some(m'.epoch)
  {
    AcquireMeans(m, id, staleAfter, encounters);
  }

  datatype RefreshResult = RefreshOk | RefreshStolen | RefreshError

  datatype RunResult = Cancelled | LostLease

  /** The first k at which the refresh loop ends: a theft, or the third error in a row. */
  ghost predicate LossAt(outcomes: seq<RefreshResult>, k: nat)
    requires k < |outcomes|
  {
    outcomes[k].RefreshStolen?
    || (k >= 2 && outcomes[k].RefreshError? && outcomes[k - 1].RefreshError? && outcomes[k - 2].RefreshError?)
  }

  /** Errors in a row just before tick k. */
  function Streak(outcomes: seq<RefreshResult>, k: nat): nat
    requires k <= |outcomes|
  {
    if k == 0 || !outcomes[k - 1].RefreshError? then 0 else Streak(outcomes, k - 1) + 1
  }

  /** Losing the lease is a matter of the error counter that the loop keeps and resets on every success. */
  lemma LossAtIff(outcomes: seq<RefreshResult>, k: nat)
    requires k < |outcomes|
    ensures LossAt(outcomes, k) <==>
            || outcomes[k].RefreshStolen?
            || (outcomes[k].RefreshError? && Streak(outcomes, k) + 1 >= MAX_CONSECUTIVE_ERRORS)
  {
    if k >= 2 {
      assert Streak(outcomes, k - 1) == if outcomes[k - 2].RefreshError? then Streak(outcomes, k - 2) + 1 else 0;
    }
  }

  class Lease {
    const id: string
    const staleAfter: int
    var epoch: nat
    var wasTakeover: bool
    var lost: bool

    constructor (id: string, staleAfter: int)
      ensures this.id == id && this.staleAfter == staleAfter
      ensures epoch == 0 && !wasTakeover && !lost
    {
      this.id := id;
      this.staleAfter := staleAfter;
      epoch, wasTakeover, lost := 0, false, false;
    }

    function Mem(): Memory
      reads this
    {
      Memory(epoch, wasTakeover)
    }

    /** The body of the `casAcquire` callback, run on one snapshot. */
    method RunAcquireCallback(r: Resource, now: int) returns (a: Attempt)
      modifies this`epoch, this`wasTakeover
      ensures (Mem(), a) == AcquireCallback(old(Mem()), r, id, staleAfter, now)
      ensures a.Held? <==> HeldByOther(r, id, staleAfter, now)
      ensures a.Held? ==> Mem() == old(Mem())
      ensures a.Write? ==> a.res == Resource(Some(id), At(now), Some(epoch), r.updated)
      ensures r.owner == Some(id) ==>
                && wasTakeover == old(wasTakeover)
                && epoch == if old(epoch) != 0 then old(epoch) else if r.epoch.Some? then r.epoch.value else 0
      ensures a.Write? && r.owner != Some(id) ==>
                wasTakeover && epoch == Uint64((if r.epoch.Some? then r.epoch.value else 0) + 1)
    {
      var prior := ReadEpoch(r);
      if r.owner.None? {
        wasTakeover := true;
        epoch := Uint64(prior + 1);
      } else if r.owner.value == id {
        if epoch == 0 {
          epoch := prior;
        }
      } else {
        var age := LeaseAge(r, now);
        if age.Some? && age.value < staleAfter {
          return Held;
        }
        wasTakeover := true;
        epoch := Uint64(prior + 1);
      }
      return Write(Stamped(r, id, epoch, now));
    }

    /** `casAcquire`: the callback runs on each version the update finds, until the compare-and-swap is not
        overtaken. What overtaken callbacks put in memory stays there. */
    method CasAcquire(ps: ProviderStatus, e: Encounter) returns (r: CasResult)
      requires e.versions != []
      modifies this`epoch, this`wasTakeover, ps
      ensures (Mem(), r, ps.stored) == CasOutcome(old(Mem()), id, staleAfter, e, 0)
      ensures r.CasNotFound? ==> ps.stored == None
    {
      var k := 0;
      while true
        invariant 0 <= k < |e.versions|
        invariant CasOutcome(old(Mem()), id, staleAfter, e, 0) == CasOutcome(Mem(), id, staleAfter, e, k)
        decreases |e.versions| - k
      {
        ps.stored := e.versions[k];
        if ps.stored.None? {
          return CasNotFound;
        }
        var a := RunAcquireCallback(ps.stored.value, e.now);
        if a.Held? {
          return CasHeld;
        }
        if k + 1 == |e.versions| {
          if e.updateFails {
            return CasFailed;
          }
          ps.stored := Some(a.res);
          return CasDone;
        }
        k := k + 1;
      }
    }

    /** `Acquire`, over at most three encounters with the store; in each, anyone may have written before every
        one of our reads and writes, and each of them may fail. */
    method Acquire(ps: ProviderStatus, encounters: seq<Encounter>) returns (r: AcquireResult)
      requires |encounters| == 3 && forall k :: 0 <= k < 3 ==> encounters[k].versions != []
      modifies this`epoch, this`wasTakeover, ps
      ensures (Mem(), r, ps.stored) == AcquireOutcome(old(Mem()), id, staleAfter, encounters)
      ensures r.Acquired? ==>
                ps.stored.Some? && ps.stored.value.owner == Some(id) && ps.stored.value.epoch == Some(epoch)
    {
      ghost var start := Mem();
      for k := 0 to 3
        invariant k > 0 ==> ps.stored == None
        invariant AcquireOutcome(start, id, staleAfter, encounters)
                  == AcquireOutcome(Mem(), id, staleAfter, encounters[k..])
      {
        var e := encounters[k];
        assert encounters[k..][0] == e && encounters[k..][1..] == encounters[k + 1..];
        AcquiredIsOurs(Mem(), id, staleAfter, encounters[k..]);
        ps.stored := e.atGet;
        if e.getFails {
          return AcquireFailed;
        }
        if ps.stored.None? {
          epoch := 1;
          ps.stored := e.atCreate;
          if e.createFails {
            return AcquireFailed;
          }
          if ps.stored.None? {
            ps.stored := Some(Resource(Some(id), At(e.now), Some(epoch), Some(e.now)));
            return Acquired;
          }
        }
        var c := CasAcquire(ps, e);
        match c
        case CasHeld => return HeldElsewhere;
        case CasDone => return Acquired;
        case CasFailed => return AcquireFailed;
        case CasNotFound =>
      }
      return GaveUp;
    }

    /** `refresh`: a lease that is still ours, or nobody's, gets a new heartbeat under our epoch; one that is
        another's, or whose epoch has gone past ours, is reported stolen; only a success writes. */
    method DoRefresh(ps: ProviderStatus, now: int, reachable: bool) returns (r: RefreshResult)
      modifies ps
      ensures r.RefreshError? <==> !reachable || old(ps.stored).None?
      ensures r.RefreshStolen? <==>
                && reachable && old(ps.stored).Some?
                && var before := old(ps.stored).value;
                   || (before.owner.Some? && before.owner != Some(id))
                   || (epoch != 0 && ReadEpoch(before) > epoch)
      ensures !r.RefreshOk? ==> ps.stored == old(ps.stored)
      ensures r.RefreshOk? ==>
                && ps.stored == Some(Resource(Some(id), At(now), Some(epoch), old(ps.stored).value.updated))
                && RefreshCallback(Mem(), old(ps.stored).value, id, now) == Refreshed(ps.stored.value)
      ensures r.RefreshStolen? ==> RefreshCallback(Mem(), old(ps.stored).value, id, now).Stolen?
    {
      if !reachable || ps.stored.None? {
        return RefreshError;
      }
      var res := ps.stored.value;
      if res.owner.Some? && res.owner.value != id {
        return RefreshStolen;
      }
      var onDisk := ReadEpoch(res);
      if epoch != 0 && onDisk > epoch {
        return RefreshStolen;
      }
      res := res.(owner := Some(id));
      res := res.(heartbeat := At(now));
      res := res.(epoch := Some(epoch));
      ps.stored := Some(res);
      return RefreshOk;
    }

    /** `Run` over the outcomes of successive ticks, until the caller cancels. Lost is closed exactly when some
        tick finds the lease stolen or is the third failure in a row, and the loop ends at the first such tick. */
    method Run(outcomes: seq<RefreshResult>) returns (r: RunResult, ticks: nat)
      modifies this`lost
      ensures ticks <= |outcomes|
      ensures r.LostLease? ==> ticks > 0 && LossAt(outcomes, ticks - 1)
      ensures forall k :: 0 <= k < ticks - 1 ==> !LossAt(outcomes, k)
      ensures r.Cancelled? ==> ticks == |outcomes| && forall k :: 0 <= k < |outcomes| ==> !LossAt(outcomes, k)
      ensures lost == (old(lost) || r.LostLease?)
    {
      var consecutiveErrors := 0;
      ticks := 0;
      while ticks < |outcomes|
        invariant ticks <= |outcomes|
        invariant forall k :: 0 <= k < ticks ==> !LossAt(outcomes, k)
        invariant consecutiveErrors < 3 && consecutiveErrors <= ticks
        invariant forall k :: ticks - consecutiveErrors <= k < ticks ==> outcomes[k].RefreshError?
        invariant consecutiveErrors < ticks ==> !outcomes[ticks - consecutiveErrors - 1].RefreshError?
        invariant lost == old(lost)
      {
        var outcome := outcomes[ticks];
        ticks := ticks + 1;
        if outcome.RefreshStolen? {
          lost := true;
          return LostLease, ticks;
        }
        if outcome.RefreshError? {
          consecutiveErrors := consecutiveErrors + 1;
          if consecutiveErrors >= MAX_CONSECUTIVE_ERRORS {
            lost := true;
            return LostLease, ticks;
          }
        } else {
          consecutiveErrors := 0;
        }
      }
      return Cancelled, ticks;
    }

    /** `Release`: best effort, and only for a lease that is still ours. */
    method Release(ps: ProviderStatus, reachable: bool)
      modifies ps
      ensures ps.stored == if reachable && old(ps.stored).Some? then Some(ReleaseCallback(old(ps.stored).value, id))
                           else old(ps.stored)
      ensures ps.stored == if reachable && old(ps.stored).Some? && old(ps.stored).value.owner == Some(id)
                           then Some(Resource(None, NoHeartbeat, None, old(ps.stored).value.updated))
                           else old(ps.stored)
    {
      if reachable && ps.stored.Some? && ps.stored.value.owner == Some(id) {
        ps.stored := Some(ps.stored.value.(owner := None, heartbeat := NoHeartbeat, epoch := None));
      }
    }
  }
}
