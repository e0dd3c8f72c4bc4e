/** The two annotations the node-rotation engine keeps on a MachineSet, as strings
    and as values, and the two independent readers of the lock annotation. */
module RotationAnnotations {
  import opened Text

  const SECOND: int := 1_000_000_000

  function Nanos(secs: int): int {
    secs * 1_000_000_000
  }

  /** Both `noderotation.DefaultLockTTL` and `autoscaler.rotationLockTTL`. */
  const LOCK_TTL: int := 300_000_000_000

  /** Seconds between year 1, where Go's `time.Time` counts from, and the Unix epoch. */
  const UNIX_TO_INTERNAL: int := 62_135_596_800

  /** `t.Unix()` for a time given in nanoseconds since the epoch: rounds towards the past. */
  function Unix(t: int): (secs: int)
    ensures Nanos(secs) <= t < Nanos(secs) + SECOND
  {
    t / 1_000_000_000
  }

  /** The seconds since the epoch that a `time.Time` can hold without wrapping. */
  predicate RepresentableSeconds(secs: int) {
    IsInt64(secs) && IsInt64(secs + UNIX_TO_INTERNAL)
  }

  /** `time.Unix(secs, 0)` in nanoseconds since the epoch; the internal counter wraps at 64 bits. */
  function FromUnix(secs: int): (t: int)
    ensures RepresentableSeconds(secs) ==> t == Nanos(secs)
  {
    var shifted := secs + UNIX_TO_INTERNAL;
    Nanos((if shifted >= INT64_LIMIT then shifted - 2 * INT64_LIMIT else shifted) - UNIX_TO_INTERNAL)
  }

  /** The lock's value: the class generation and the second it was written. */
  datatype Lock = Lock(generation: string, secs: int)

  datatype Phase = WaitUp | WaitDown

  /** `SurgePhaseState`; the start time is kept to the second, as the annotation does. */
  datatype SurgePhase = SurgePhase(phase: Phase, originalCount: int, startedSecs: int)

  function FormatLock(l: Lock): (raw: string) {
    l.generation + ":" + FormatInt(l.secs)
  }

  function ParseLock(raw: string): (r: Option<Lock>)
  {
    var parts := SplitN(raw, ':', 2);
    if |parts| != 2 then None
    else
      var secs := ParseInt(parts[1]);
      if secs.None? then None else Some(Lock(parts[0], secs.value))
  }

  function PhaseName(p: Phase): (s: string)
    ensures ':' !in s
  {
    match p
    case WaitUp => "wait-up"
    case WaitDown => "wait-down"
  }

  function FormatSurgePhase(s: SurgePhase): (raw: string) {
    PhaseName(s.phase) + ":" + FormatInt(s.originalCount) + ":" + FormatInt(s.startedSecs)
  }

  function ParsePhaseName(name: string): (r: Option<Phase>) {
    if name == PhaseName(WaitUp) then Some(WaitUp)
    else if name == PhaseName(WaitDown) then Some(WaitDown)
    else None
  }

  /** The checks of `parseSurgePhaseAnnotation` once the three fields are parsed. */
  function AssembleSurgePhase(phase: Option<Phase>, count: Option<int>, secs: Option<int>): (r: Option<SurgePhase>)
    ensures r.Some? ==> r.value.originalCount >= 0
  {
    if phase.None? || count.None? || count.value < 0 || secs.None? then None
    else Some(SurgePhase(phase.value, count.value, secs.value))
  }

  function ParseSurgePhase(raw: string): (r: Option<SurgePhase>)
    ensures r.Some? ==> r.value.originalCount >= 0
  {
    var parts := SplitN(raw, ':', 3);
    if |parts| != 3 then None
    else AssembleSurgePhase(ParsePhaseName(parts[0]), ParseInt(parts[1]), ParseInt(parts[2]))
  }

  lemma ColonFreeLockRoundTrip(l: Lock)
    requires IsInt64(l.secs) && ':' !in l.generation
    ensures ParseLock(FormatLock(l)) == Some(l)
  {
    var secs := FormatInt(l.secs);
    ParseFormatInt(l.secs);
    SplitNStep(l.generation, ':', secs, 2);
    assert FormatLock(l) == l.generation + [':'] + secs;
  }

  lemma ColonLockIsRejected(l: Lock)
    requires ':' in l.generation
    ensures ParseLock(FormatLock(l)) == None
  {
    var i := IndexOf(l.generation, ':');
    IndexOfIsFirst(l.generation, ':');
    var head, tail := l.generation[..i], l.generation[i + 1..] + ":" + FormatInt(l.secs);
    assert FormatLock(l) == head + [':'] + tail;
    SplitNStep(head, ':', tail, 2);
    assert tail[|l.generation| - i - 1] == ':';
    ParseIntRejects(tail, ':');
  }

  /** The lock reads back what was written exactly when the generation has no colon;
      otherwise the whole annotation is rejected. */
  lemma LockRoundTrip(l: Lock)
    requires IsInt64(l.secs)
    ensures ParseLock(FormatLock(l)) == if ':' in l.generation then None else Some(l)
  {
    if ':' in l.generation {
      ColonLockIsRejected(l);
    } else {
      ColonFreeLockRoundTrip(l);
    }
  }

  lemma PhaseNameRoundTrip(p: Phase)
    ensures ParsePhaseName(PhaseName(p)) == Some(p)
  {
    assert |PhaseName(WaitUp)| != |PhaseName(WaitDown)|;
  }

  lemma SplitSurgePhase(name: string, count: string, secs: string)
    requires ':' !in name && ':' !in count
    ensures SplitN(name + ":" + count + ":" + secs, ':', 3) == [name, count, secs]
  {
    assert name + ":" + count + ":" + secs == name + [':'] + (count + [':'] + secs);
    SplitNStep(name, ':', count + [':'] + secs, 3);
    SplitNStep(count, ':', secs, 2);
  }

  /** Every surge phase the engine writes reads back unchanged; a negative count never reads back. */
  lemma SurgePhaseRoundTrip(s: SurgePhase)
    requires IsInt64(s.originalCount) && IsInt64(s.startedSecs)
    ensures ParseSurgePhase(FormatSurgePhase(s)) == if s.originalCount >= 0 then Some(s) else None
  {
    ParseFormatInt(s.originalCount);
    ParseFormatInt(s.startedSecs);
    FormatIntAvoids(s.originalCount, ':');
    PhaseNameRoundTrip(s.phase);
    SplitSurgePhase(PhaseName(s.phase), FormatInt(s.originalCount), FormatInt(s.startedSecs));
  }

  /** `HasActiveLock` once the annotation is parsed. */
  predicate HasActiveLock(lock: Option<Lock>, now: int, ttl: int) {
    lock.Some? && now - FromUnix(lock.value.secs) < ttl
  }

  /** `HasActiveLock`, the engine's reader. */
  predicate EngineSeesLock(raw: string, now: int, ttl: int) {
    HasActiveLock(ParseLock(raw), now, ttl)
  }

  /** For every second an annotation can hold, and every clock past the epoch: a lock holds for one TTL from its second,
      and one whose second is too far ahead for `time.Time` does not hold at all. */
  lemma LockHoldsIff(l: Lock, now: int, ttl: int)
    requires IsInt64(l.secs) && now >= 0 && ttl <= Nanos(INT64_LIMIT)
    ensures HasActiveLock(Some(l), now, ttl) <==>
              now < Nanos(l.secs) + ttl && l.secs < INT64_LIMIT - UNIX_TO_INTERNAL
  {
    assert Nanos(l.secs + UNIX_TO_INTERNAL - 2 * INT64_LIMIT - UNIX_TO_INTERNAL)
           == Nanos(l.secs) - Nanos(2 * INT64_LIMIT);
  }

  /** `isRotationLockActive`, the autoscaler's reader, which also rejects negative timestamps. */
  predicate AutoscalerSeesLock(raw: string, now: int, ttl: int) {
    var parts := SplitN(raw, ':', 2);
    |parts| == 2 &&
    var secs := ParseInt(parts[1]);
    secs.Some? && secs.value >= 0 && now - FromUnix(secs.value) < ttl
  }

  /** The two readers agree on every string once the clock is at least one TTL past the epoch,
      and disagree on some string before that. */
  lemma LockReadersAgree(now: int, ttl: int)
    ensures now >= ttl - SECOND <==> forall raw :: EngineSeesLock(raw, now, ttl) == AutoscalerSeesLock(raw, now, ttl)
  {
    if now >= ttl - SECOND {
      forall raw ensures EngineSeesLock(raw, now, ttl) == AutoscalerSeesLock(raw, now, ttl) {
        var parts := SplitN(raw, ':', 2);
        if |parts| == 2 && ParseInt(parts[1]).Some? && ParseInt(parts[1]).value < 0 {
          var secs := ParseInt(parts[1]).value;
          assert FromUnix(secs) == Nanos(secs) <= -SECOND;
        }
      }
    } else {
      var early := Lock("", -1);
      LockRoundTrip(early);
      var raw := FormatLock(early);
      ParseFormatInt(-1);
      SplitNStep("", ':', FormatInt(-1), 2);
      assert raw == "" + [':'] + FormatInt(-1);
      assert EngineSeesLock(raw, now, ttl) && !AutoscalerSeesLock(raw, now, ttl);
    }
  }

  /** A lock the engine writes at time `written` is seen by the autoscaler at `now` exactly while
      `now` is less than one TTL after the start of the second it was written in. */
  lemma WrittenLockVisibility(generation: string, written: int, now: int, ttl: int)
    requires ':' !in generation && written >= 0 && RepresentableSeconds(Unix(written))
    ensures AutoscalerSeesLock(FormatLock(Lock(generation, Unix(written))), now, ttl)
            <==> now - Nanos(Unix(written)) < ttl
  {
    var l := Lock(generation, Unix(written));
    ParseFormatInt(l.secs);
    SplitNStep(generation, ':', FormatInt(l.secs), 2);
    assert FormatLock(l) == generation + [':'] + FormatInt(l.secs);
  }

  /** The texts as they are stored. */
  lemma AnnotationTexts()
    ensures FormatLock(Lock("gen", 17)) == "gen:17"
    ensures FormatSurgePhase(SurgePhase(WaitUp, 3, 20)) == "wait-up:3:20"
    ensures FormatSurgePhase(SurgePhase(WaitDown, 0, -5)) == "wait-down:0:-5"
  {
    assert FormatInt(17) == "17" && FormatInt(20) == "20" && FormatInt(3) == "3" && FormatInt(0) == "0";
    assert FormatInt(-5) == "-5";
  }
}
