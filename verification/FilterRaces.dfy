/**
A filter cache of PyDB while settings change in another thread: a lookup decides and stores later, and a setter changes
the settings, clears the caches, and only then recomputes the flags that say which filters are on. No lock is held.
A decision is taken to read the settings at one moment, and an entry is kept for each lookup; which lookups share an
entry is the subject of FilterCaches.
*/
module FilterRaces {
  import opened Basics
  import opened FilterCaches

  /** What apply_files_filter reads: the settings, and the two flags that _clear_caches recomputes last. */
  datatype Effective = Effective(settings: Settings, excludeEnabled: bool, librariesEnabled: bool)

  datatype Lookup = Lookup(frame: Frame, original: string, force: bool)

  /** The decision of apply_files_filter after a miss, by the flags. */
  function DecideNow(f: Facts, e: Effective, l: Lookup): bool {
    var verdict := if e.excludeEnabled then ExcludeByFilter(f, e.settings, l.frame, f.absolute(l.original)) else None;
    if f.pluginNeeds(l.frame.code) then false
    else if verdict.Some? then verdict.value
    else (e.librariesEnabled || l.force) && !InProjectScope(f, e.settings, l.frame)
  }

  predicate FlagsMatch(e: Effective) {
    e.excludeEnabled == (|e.settings.filters| > 0) && e.librariesEnabled == e.settings.useLibraries
  }

  /** While no setter is under way it is the decision under the settings. */
  lemma {:induction false} FlagsMatter(f: Facts, e: Effective, l: Lookup)
    requires FlagsMatch(e)
    ensures DecideNow(f, e, l) == ApplyFilesFilter(f, e.settings, l.frame, l.original, l.force)
  {
  }

  // ---- Runs of one cache ----

  /** A decision: for which lookup, under what, when it was made and what it is. */
  datatype Decision = Decision(lookup: Lookup, under: Effective, madeAt: nat, skip: bool)

  /** An entry, with the time at which it was stored. */
  datatype Entry = Entry(decision: Decision, storedAt: nat)

  /** The cache by lookup, and the decisions that threads have made and not stored. History: the number of steps, and
      the numbers of the last change and of the last clearing. */
  datatype System = System(
    now: Effective,
    cache: map<Lookup, Entry>,
    pending: map<nat, Decision>,
    clock: nat,
    changedAt: nat,
    clearedAt: nat)

  datatype Step =
    | LookUp(thread: nat, lookup: Lookup)
    | Store(thread: nat)
    | Change(to: Effective)
    | Clear

  function Init(now: Effective): System {
    System(now, map[], map[], 1, 0, 0)
  }

  predicate Enabled(s: System, step: Step) {
    match step
    case LookUp(t, _) => t !in s.pending
    case Store(t) => t in s.pending
    case _ => true
  }

  function Apply(f: Facts, s: System, step: Step): System
    requires Enabled(s, step)
  {
    var after := s.(clock := s.clock + 1);
    match step
    case LookUp(t, l) =>
      if l in s.cache then after
      else after.(pending := s.pending[t := Decision(l, s.now, s.clock, DecideNow(f, s.now, l))])
    case Store(t) =>
      after.(cache := s.cache[s.pending[t].lookup := Entry(s.pending[t], s.clock)], pending := s.pending - {t})
    case Change(e) => after.(now := e, changedAt := s.clock)
    case Clear => after.(cache := map[], clearedAt := s.clock)
  }

  ghost predicate Behavior(f: Facts, states: seq<System>, steps: seq<Step>) {
    && |states| == |steps| + 1
    && states[0] == Init(states[0].now)
    && forall i {:trigger steps[i]} :: 0 <= i < |steps| ==>
         Enabled(states[i], steps[i]) && states[i + 1] == Apply(f, states[i], steps[i])
  }

  ghost predicate Sound(f: Facts, s: System, d: Decision) {
    && d.skip == DecideNow(f, d.under, d.lookup)
    && d.madeAt < s.clock && d.madeAt != s.changedAt
    && (d.madeAt > s.changedAt ==> d.under == s.now)
  }

  ghost predicate Inv(f: Facts, s: System) {
    && s.changedAt < s.clock && s.clearedAt < s.clock
    && (s.changedAt == s.clearedAt ==> s.changedAt == 0)
    && (forall t :: t in s.pending ==> Sound(f, s, s.pending[t]) && s.pending[t].madeAt > 0)
    && (forall l :: l in s.cache ==>
          && Sound(f, s, s.cache[l].decision) && s.cache[l].decision.lookup == l && s.cache[l].decision.madeAt > 0
          && s.cache[l].decision.madeAt < s.cache[l].storedAt < s.clock && s.cache[l].storedAt > s.clearedAt
          && s.cache[l].storedAt != s.changedAt)
  }

  lemma {:induction false} StoreKeeps(f: Facts, s: System, t: nat)
    requires Inv(f, s) && t in s.pending
    ensures Inv(f, Apply(f, s, Store(t)))
  {
    var e, d := Apply(f, s, Store(t)), s.pending[t];
    assert Sound(f, e, d);
    forall l | l in e.cache && l != d.lookup ensures e.cache[l] == s.cache[l] && Sound(f, e, s.cache[l].decision) {
      assert l in s.cache;
    }
  }

  lemma {:induction false} StepKeeps(f: Facts, s: System, step: Step)
    requires Inv(f, s) && Enabled(s, step)
    ensures Inv(f, Apply(f, s, step))
  {
    if step.Store? {
      StoreKeeps(f, s, step.thread);
    }
  }

  lemma {:induction false} InvHolds(f: Facts, states: seq<System>, steps: seq<Step>, i: nat)
    requires Behavior(f, states, steps) && i < |states|
    ensures Inv(f, states[i])
  {
    if i > 0 {
      InvHolds(f, states, steps, i - 1);
      StepKeeps(f, states[i - 1], steps[i - 1]);
    }
  }

  /** A lookup that finds no entry decides at once, under what it reads then; a store keeps that decision, whatever
      happened in between, and is the only way to a new entry. */
  lemma {:induction false} StoresWhatWasDecided(f: Facts, states: seq<System>, steps: seq<Step>, i: nat)
    requires Behavior(f, states, steps) && i < |steps|
    ensures var s, e := states[i], states[i + 1];
            match steps[i]
            case LookUp(t, l) =>
              && e.cache == s.cache
              && (l in s.cache ==> e.pending == s.pending)
              && (l !in s.cache ==>
                    t in e.pending && e.pending[t].lookup == l && e.pending[t].skip == DecideNow(f, s.now, l))
            case Store(t) =>
              && t in s.pending && t !in e.pending
              && s.pending[t].lookup in e.cache && e.cache[s.pending[t].lookup].decision == s.pending[t]
              && (forall l :: l in s.cache && l != s.pending[t].lookup ==> l in e.cache && e.cache[l] == s.cache[l])
              && (forall l :: l in e.cache ==> l in s.cache || l == s.pending[t].lookup)
            case Change(to) => e.now == to && e.cache == s.cache && e.pending == s.pending
            case Clear => e.cache == map[] && e.pending == s.pending
    ensures !steps[i].Change? ==> states[i + 1].now == states[i].now
  {
    assert Enabled(states[i], steps[i]) && states[i + 1] == Apply(f, states[i], steps[i]);
  }

  /** The entry is what would be decided now. */
  ghost predicate Right(f: Facts, s: System, l: Lookup)
    requires l in s.cache
  {
    s.cache[l].decision.skip == DecideNow(f, s.now, l)
  }

  /** The lookup spanned the last change and the last clearing, in this order: it was too early to see the one, and too
      late to be removed by the other. */
  predicate Spanned(s: System, e: Entry) {
    e.decision.madeAt < s.changedAt < s.clearedAt < e.storedAt
  }

  /** The last change came after the last clearing, and the decision before the change. */
  predicate ChangedUncleared(s: System, e: Entry) {
    s.clearedAt < s.changedAt && e.decision.madeAt < s.changedAt
  }

  /** Which entries are wrong, in every interleaving: exactly those that were decided differently under the settings of
      the time, and whose lookup spanned the change and the clearing, or which precede a change that no clearing has
      followed. */
  lemma {:induction false} WrongExactlyWhen(f: Facts, states: seq<System>, steps: seq<Step>, i: nat, l: Lookup)
    requires Behavior(f, states, steps) && i < |states| && l in states[i].cache
    ensures var s, e := states[i], states[i].cache[l];
            && (!Right(f, s, l) <==>
                  && (Spanned(s, e) || ChangedUncleared(s, e))
                  && DecideNow(f, e.decision.under, l) != DecideNow(f, s.now, l))
            && (Spanned(s, e) || ChangedUncleared(s, e) <==> e.decision.madeAt < s.changedAt)
  {
    InvHolds(f, states, steps, i);
  }

  predicate PendingFor(s: System, l: Lookup) {
    exists t :: t in s.pending && s.pending[t].lookup == l
  }

  /** An entry stays, right or wrong, until the next clearing, unless some lookup for it is still under way. */
  lemma {:induction false} EntryStays(f: Facts, states: seq<System>, steps: seq<Step>, i: nat, j: nat, l: Lookup)
    requires Behavior(f, states, steps) && i <= j < |states| && l in states[i].cache && !PendingFor(states[i], l)
    requires forall k :: i <= k < j ==> !steps[k].Clear?
    ensures l in states[j].cache && states[j].cache[l] == states[i].cache[l] && !PendingFor(states[j], l)
    decreases j
  {
    if i < j {
      EntryStays(f, states, steps, i, j - 1, l);
      assert Enabled(states[j - 1], steps[j - 1]);
      StayStep(f, states[j - 1], steps[j - 1], l);
    }
  }

  lemma {:induction false} StayStep(f: Facts, s: System, step: Step, l: Lookup)
    requires Enabled(s, step) && !step.Clear? && l in s.cache && !PendingFor(s, l)
    ensures var e := Apply(f, s, step); l in e.cache && e.cache[l] == s.cache[l] && !PendingFor(e, l)
  {
  }

  // ---- A lookup inside a setter ----

  lemma {:induction false} Extend(f: Facts, states: seq<System>, steps: seq<Step>, step: Step)
    requires Behavior(f, states, steps) && Enabled(states[|steps|], step)
    ensures Behavior(f, states + [Apply(f, states[|steps|], step)], steps + [step])
  {
    var states', steps' := states + [Apply(f, states[|steps|], step)], steps + [step];
    assert states'[0] == states[0];
    forall i | 0 <= i < |steps'|
      ensures Enabled(states'[i], steps'[i]) && states'[i + 1] == Apply(f, states'[i], steps'[i])
    {
      assert i < |steps| ==> steps'[i] == steps[i];
    }
  }

  /** The steps of set_exclude_filters, with a whole lookup between the clearing and the flags. */
  function SetterSteps(before: Effective, filters: seq<ExcludeFilter>, l: Lookup): seq<Step> {
    var changed := before.(settings := before.settings.(filters := filters));
    [Change(changed), Clear, LookUp(0, l), Store(0), Change(changed.(excludeEnabled := |filters| > 0))]
  }

  const UNFILTERED := Settings([], [], true, map[], 0)

  function PathFilter(name: string): seq<ExcludeFilter> {
    [ExcludeFilter(name, true, true)]
  }

  function Filtered(name: string): Settings {
    UNFILTERED.(filters := PathFilter(name))
  }

  /** A project file that the filter `name` excludes. */
  predicate ExcludedBy(f: Facts, l: Lookup, name: string) {
    var file := FileOf(f, l.frame);
    && !f.pluginNeeds(l.frame.code) && f.absolute(l.original) == file && !l.force
    && f.fileType(0, file) == UserFile && file != "<string>" && !f.isPy314
    && f.inRoots([], file) && f.globMatches(file, name)
  }

  /** Everything depends on the flag. */
  lemma {:induction false} FlagDecides(f: Facts, l: Lookup, name: string)
    requires ExcludedBy(f, l, name)
    ensures !DecideNow(f, Effective(Filtered(name), false, true), l)
    ensures DecideNow(f, Effective(Filtered(name), true, true), l)
  {
    var filters := PathFilter(name);
    assert !RequiresModule(filters);
    assert Matches(f, filters[0], FileOf(f, l.frame), None);
    assert FirstVerdict(f, filters, FileOf(f, l.frame), None) == Some(true);
  }

  /** The first four steps. */
  lemma {:induction false} StoredEarly(f: Facts, l: Lookup, changed: Effective, before: Effective)
    returns (states: seq<System>, steps: seq<Step>)
    ensures Behavior(f, states, steps) && states[0] == Init(before)
    ensures steps == [Change(changed), Clear, LookUp(0, l), Store(0)]
    ensures states[4] == System(changed, map[l := Entry(Decision(l, changed, 3, DecideNow(f, changed, l)), 4)], map[],
                                5, 1, 2)
  {
    states, steps := [Init(before)], [];
    Extend(f, states, steps, Change(changed));
    states, steps := states + [Apply(f, states[0], Change(changed))], steps + [Change(changed)];
    Extend(f, states, steps, Clear);
    states, steps := states + [Apply(f, states[1], Clear)], steps + [Clear];
    Extend(f, states, steps, LookUp(0, l));
    states, steps := states + [Apply(f, states[2], LookUp(0, l))], steps + [LookUp(0, l)];
    Extend(f, states, steps, Store(0));
    states, steps := states + [Apply(f, states[3], Store(0))], steps + [Store(0)];
  }

  /** A project file for which an exclude filter is set, while libraries are filtered. The lookup overlaps neither the
      change of the filters nor the clearing; the flags are right in the end, no lookup is under way, and the file is
      kept as one not to skip. */
  lemma {:induction false} WrongWithoutSpanning(f: Facts, l: Lookup, name: string)
    returns (states: seq<System>, steps: seq<Step>)
    requires ExcludedBy(f, l, name)
    ensures Behavior(f, states, steps) && steps == SetterSteps(states[0].now, PathFilter(name), l)
    ensures var s := states[5];
            && FlagsMatch(states[0].now) && FlagsMatch(s.now) && s.pending == map[]
            && l in s.cache && !Right(f, s, l) && !Spanned(s, s.cache[l])
            && ApplyFilesFilter(f, s.now.settings, l.frame, l.original, l.force) && !s.cache[l].decision.skip
  {
    var changed, flagged := Effective(Filtered(name), false, true), Effective(Filtered(name), true, true);
    FlagDecides(f, l, name);
    FlagsMatter(f, flagged, l);
    states, steps := StoredEarly(f, l, changed, Effective(UNFILTERED, false, true));
    Extend(f, states, steps, Change(flagged));
    states, steps := states + [Apply(f, states[4], Change(flagged))], steps + [Change(flagged)];
  }
}
