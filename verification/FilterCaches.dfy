/**
The "just my code" decisions of PyDB in pydevd.py, with the three caches that in_project_scope, _exclude_by_filter and
apply_files_filter fill and that the configuration setters clear, over the filters of pydevd_filtering.py.
*/
module FilterCaches {
  import opened Basics

  datatype Code = Code(id: int, firstLine: int, name: string, filename: string)

  /** A frame: its code object, and the "__name__" of its globals. */
  datatype Frame = Frame(code: Code, moduleName: string)

  datatype ExcludeFilter = ExcludeFilter(name: string, exclude: bool, isPath: bool)

  datatype FileType = PydevFile | LibFile | UserFile

  /** What the decisions take from elsewhere: absolute paths, glob matching, project and library roots, file types
      under a choice of patterns, the plugins' say, and the Python version. */
  datatype Facts = Facts(
    absolute: string -> string,
    globMatches: (string, string) -> bool,
    inRoots: (seq<string>, string) -> bool,
    fileType: (int, string) -> FileType,
    pluginNeeds: Code -> bool,
    isPy314: bool)

  /** The configuration: project roots, exclude filters, the libraries filter, the runtime sources that are
      mapped and the file of each, and the patterns
      that file types depend on. */
  datatype Settings = Settings(
    roots: seq<string>,
    filters: seq<ExcludeFilter>,
    useLibraries: bool,
    mapped: map<string, string>,
    patterns: int)

  // ---- The decisions without caches ----

  function FileOf(f: Facts, frame: Frame): string {
    f.absolute(frame.code.filename)
  }

  predicate RequiresModule(filters: seq<ExcludeFilter>) {
    exists i :: 0 <= i < |filters| && !filters[i].isPath
  }

  predicate Matches(f: Facts, filter: ExcludeFilter, file: string, moduleName: Option<string>) {
    if filter.isPath then f.globMatches(file, filter.name)
    else moduleName.Some? && (filter.name == moduleName.value || filter.name + "." <= moduleName.value)
  }

  /** FilesFiltering.exclude_by_filter: the verdict of the first filter that matches. */
  function FirstVerdict(f: Facts, filters: seq<ExcludeFilter>, file: string, moduleName: Option<string>): Option<bool> {
    if filters == [] then None
    else if Matches(f, filters[0], file, moduleName) then Some(filters[0].exclude)
    else FirstVerdict(f, filters[1..], file, moduleName)
  }

  function InProjectScope(f: Facts, s: Settings, frame: Frame): bool {
    var file := FileOf(f, frame);
    var fileType := f.fileType(s.patterns, file);
    if fileType.PydevFile? then false
    else if f.isPy314 && frame.code.name == "__annotate__" then false
    else if file == "<string>" then !fileType.LibFile?
    else if file in s.mapped then true
    else f.inRoots(s.roots, file)
  }

  function ExcludeByFilter(f: Facts, s: Settings, frame: Frame, file: string): Option<bool> {
    if f.fileType(s.patterns, FileOf(f, frame)).PydevFile? then Some(true)
    else FirstVerdict(f, s.filters, file, if RequiresModule(s.filters) then Some(frame.moduleName) else None)
  }

  /** Whether the frame is skipped, given what the exclude filters say. */
  function Decide(f: Facts, s: Settings, frame: Frame, verdict: Option<bool>, force: bool): bool {
    if f.pluginNeeds(frame.code) then false
    else if |s.filters| > 0 && verdict.Some? then verdict.value
    else (s.useLibraries || force) && !InProjectScope(f, s, frame)
  }

  function ApplyFilesFilter(f: Facts, s: Settings, frame: Frame, original: string, force: bool): bool {
    Decide(f, s, frame, ExcludeByFilter(f, s, frame, f.absolute(original)), force)
  }

  // ---- What the decisions mean ----

  /** In the project: never the debugger's own files, nor the annotation functions that Python 3.14 makes; code without
      a file unless its type is that of a library; otherwise mapped sources, and files under the project roots. */
  ghost predicate ScopeMeans(f: Facts, s: Settings, frame: Frame, inScope: bool) {
    var file := f.absolute(frame.code.filename);
    var fileType := f.fileType(s.patterns, file);
    && (fileType == PydevFile ==> !inScope)
    && (f.isPy314 && frame.code.name == "__annotate__" ==> !inScope)
    && (fileType != PydevFile && !(f.isPy314 && frame.code.name == "__annotate__") ==>
          && (file == "<string>" ==> (inScope <==> fileType != LibFile))
          && (file != "<string>" ==> (inScope <==> file in s.mapped || f.inRoots(s.roots, file))))
  }

  lemma {:induction false} ScopeIs(f: Facts, s: Settings, frame: Frame)
    ensures ScopeMeans(f, s, frame, InProjectScope(f, s, frame))
  {
  }

  /** A path filter matches by its pattern; a module filter matches the module, and the modules in it. */
  ghost predicate FilterApplies(f: Facts, filter: ExcludeFilter, file: string, moduleName: Option<string>) {
    if filter.isPath then f.globMatches(file, filter.name)
    else
      moduleName.Some?
      && (moduleName.value == filter.name || exists inner :: moduleName.value == filter.name + "." + inner)
  }

  lemma {:induction false} MatchesIs(f: Facts, filter: ExcludeFilter, file: string, moduleName: Option<string>)
    ensures Matches(f, filter, file, moduleName) <==> FilterApplies(f, filter, file, moduleName)
  {
    if !filter.isPath && moduleName.Some? && filter.name + "." <= moduleName.value {
      var inner := moduleName.value[|filter.name| + 1..];
      assert moduleName.value == filter.name + "." + inner;
    }
  }

  /** The first filter that applies says whether to exclude or include; without one there is no verdict. */
  ghost predicate VerdictMeans(
    f: Facts, filters: seq<ExcludeFilter>, file: string, moduleName: Option<string>, verdict: Option<bool>)
  {
    && (verdict.None? <==> forall i :: 0 <= i < |filters| ==> !FilterApplies(f, filters[i], file, moduleName))
    && forall i :: 0 <= i < |filters| && FilterApplies(f, filters[i], file, moduleName)
                   && (forall j :: 0 <= j < i ==> !FilterApplies(f, filters[j], file, moduleName)) ==>
         verdict == Some(filters[i].exclude)
  }

  lemma {:induction false} VerdictIs(f: Facts, filters: seq<ExcludeFilter>, file: string, moduleName: Option<string>)
    ensures VerdictMeans(f, filters, file, moduleName, FirstVerdict(f, filters, file, moduleName))
  {
    if filters != [] {
      var rest := filters[1..];
      MatchesIs(f, filters[0], file, moduleName);
      VerdictIs(f, rest, file, moduleName);
      assert forall i :: 0 <= i < |rest| ==> rest[i] == filters[i + 1];
      forall i | 0 <= i < |filters| && FilterApplies(f, filters[i], file, moduleName)
                 && (forall j :: 0 <= j < i ==> !FilterApplies(f, filters[j], file, moduleName))
        ensures FirstVerdict(f, filters, file, moduleName) == Some(filters[i].exclude)
      {
        if i > 0 {
          assert !FilterApplies(f, filters[0], file, moduleName);
          forall j | 0 <= j < i - 1 ensures !FilterApplies(f, rest[j], file, moduleName) {
            assert rest[j] == filters[j + 1];
          }
          assert rest[i - 1] == filters[i];
        }
      }
      if FirstVerdict(f, filters, file, moduleName).None? {
        forall i | 0 <= i < |filters| ensures !FilterApplies(f, filters[i], file, moduleName) {
          assert i > 0 ==> filters[i] == rest[i - 1];
        }
      }
    }
  }

  /** Whether a frame is skipped: a plugin's frames never; else a filter decides if one applies; else everything outside
      the project, if libraries are filtered or the check is forced. The debugger's own files count as excluded as soon
      as there is any filter. */
  lemma {:induction false} SkippedExactlyWhen(f: Facts, s: Settings, frame: Frame, original: string, force: bool)
    requires f.absolute(original) == FileOf(f, frame)
    ensures var file := FileOf(f, frame);
            var own := f.fileType(s.patterns, file) == PydevFile;
            var m := if exists i :: 0 <= i < |s.filters| && !s.filters[i].isPath then Some(frame.moduleName) else None;
            var v := FirstVerdict(f, s.filters, file, m);
            ApplyFilesFilter(f, s, frame, original, force) <==>
              && !f.pluginNeeds(frame.code)
              && (if s.filters != [] && (own || v.Some?) then own || v.value
                  else (s.useLibraries || force) && !InProjectScope(f, s, frame))
  {
  }

  // ---- The keys ----

  function ScopeKey(f: Facts, frame: Frame): (int, string, Code) {
    (frame.code.firstLine, FileOf(f, frame), frame.code)
  }

  function ExcludeKey(frame: Frame, file: string): (string, string, int) {
    (file, frame.code.name, frame.code.firstLine)
  }

  function ApplyKey(frame: Frame, original: string, force: bool): (int, string, bool, Code) {
    (frame.code.firstLine, original, force, frame.code)
  }

  /** Two frames that share an entry of the exclude cache. */
  predicate SameExcludeKey(f: Facts, a: Frame, b: Frame) {
    ExcludeKey(a, FileOf(f, a)) == ExcludeKey(b, FileOf(f, b))
  }

  /** The entry is right for both, whatever the filters are; see KeyIsEnoughExactly. */
  predicate MayShare(f: Facts, a: Frame, b: Frame, patterns: int) {
    a.moduleName == b.moduleName || f.fileType(patterns, FileOf(f, a)).PydevFile?
  }

  /** The exclude key is enough for these frames, although it does not hold their module. */
  ghost predicate KeysSuffice(f: Facts, frames: set<Frame>, patterns: int) {
    forall a, b :: a in frames && b in frames && SameExcludeKey(f, a, b) ==> MayShare(f, a, b, patterns)
  }

  lemma {:induction false} SameKeySameVerdict(f: Facts, s: Settings, a: Frame, b: Frame)
    requires SameExcludeKey(f, a, b) && MayShare(f, a, b, s.patterns)
    ensures ExcludeByFilter(f, s, a, FileOf(f, a)) == ExcludeByFilter(f, s, b, FileOf(f, b))
  {
  }

  /** A single module filter, named after the module. */
  function ModuleFilter(name: string, patterns: int): Settings {
    Settings([], [ExcludeFilter(name, true, false)], false, map[], patterns)
  }

  /** It excludes the frames of that module and of no shorter name. */
  lemma {:induction false} ModuleFilterVerdict(f: Facts, frame: Frame, name: string, patterns: int)
    requires |frame.moduleName| <= |name| && !f.fileType(patterns, FileOf(f, frame)).PydevFile?
    ensures ExcludeByFilter(f, ModuleFilter(name, patterns), frame, FileOf(f, frame))
            == if frame.moduleName == name then Some(true) else None
  {
    var filters := ModuleFilter(name, patterns).filters;
    assert !filters[0].isPath;
    assert RequiresModule(filters);
    assert |name + "."| > |frame.moduleName|;
    assert FirstVerdict(f, filters[1..], FileOf(f, frame), Some(frame.moduleName)) == None;
  }

  /** Whether one cached verdict is right for two frames with the same exclude key, whatever the filters are: exactly
      when they are of the same module, or of the debugger itself. */
  lemma {:induction false} KeyIsEnoughExactly(f: Facts, a: Frame, b: Frame, patterns: int)
    requires SameExcludeKey(f, a, b)
    ensures (forall s: Settings :: s.patterns == patterns ==>
               ExcludeByFilter(f, s, a, FileOf(f, a)) == ExcludeByFilter(f, s, b, FileOf(f, b)))
            <==> MayShare(f, a, b, patterns)
  {
    if !MayShare(f, a, b, patterns) {
      var name := if |a.moduleName| < |b.moduleName| then b.moduleName else a.moduleName;
      var s := ModuleFilter(name, patterns);
      ModuleFilterVerdict(f, a, name, patterns);
      ModuleFilterVerdict(f, b, name, patterns);
      assert ExcludeByFilter(f, s, a, FileOf(f, a)) != ExcludeByFilter(f, s, b, FileOf(f, b));
    } else {
      forall s: Settings | s.patterns == patterns
        ensures ExcludeByFilter(f, s, a, FileOf(f, a)) == ExcludeByFilter(f, s, b, FileOf(f, b))
      {
        SameKeySameVerdict(f, s, a, b);
      }
    }
  }

  // ---- The caches ----

  /** set_source_mapping: the sources of `file` are replaced. */
  function Remapped(mapped: map<string, string>, file: string, sources: seq<string>): map<string, string> {
    (map source | source in mapped && mapped[source] != file :: mapped[source])
    + (map source | source in sources :: file)
  }

  predicate MappedElsewhere(mapped: map<string, string>, file: string, source: string) {
    source in mapped && mapped[source] != file
  }

  /** After a change of mappings a source is mapped exactly if it is one of the file's new ones, or another file's. */
  lemma {:induction false} RemappedExactly(
    mapped: map<string, string>, file: string, sources: seq<string>, source: string)
    ensures source in Remapped(mapped, file, sources) <==>
            source in sources || (source in mapped && mapped[source] != file)
    ensures source in Remapped(mapped, file, sources) ==>
              Remapped(mapped, file, sources)[source] == if source in sources then file else mapped[source]
  {
  }

  type ScopeCache = map<(int, string, Code), bool>
  type ExcludeCache = map<(string, string, int), Option<bool>>
  type ApplyCache = map<(int, string, bool, Code), bool>

  /** `verdict` is what the settings give for some frame with this exclude key. */
  ghost predicate VerdictOfSome(
    f: Facts, frames: set<Frame>, s: Settings, key: (string, string, int), verdict: Option<bool>)
  {
    exists x :: x in frames && ExcludeKey(x, FileOf(f, x)) == key && verdict == ExcludeByFilter(f, s, x, FileOf(f, x))
  }

  /** `skip` is the decision for `frame` with such a verdict. */
  ghost predicate DecisionWithSome(f: Facts, frames: set<Frame>, s: Settings, frame: Frame, force: bool, skip: bool) {
    exists v :: VerdictOfSome(f, frames, s, ExcludeKey(frame, FileOf(f, frame)), v) &&
        skip == Decide(f, s, frame, v, force)
  }

  /** Every entry of the first cache is the decision for all frames with that key; the entries of the others are right
      for the frame they were made for. */
  ghost predicate ScopeCurrent(f: Facts, frames: set<Frame>, s: Settings, cache: ScopeCache) {
    forall x :: x in frames && ScopeKey(f, x) in cache ==> cache[ScopeKey(f, x)] == InProjectScope(f, s, x)
  }

  ghost predicate ExcludeCurrent(f: Facts, frames: set<Frame>, s: Settings, cache: ExcludeCache) {
    forall key :: key in cache ==> VerdictOfSome(f, frames, s, key, cache[key])
  }

  ghost predicate ApplyCurrent(f: Facts, frames: set<Frame>, s: Settings, cache: ApplyCache) {
    forall key :: key in cache ==> DecisionKept(f, frames, s, key, cache[key])
  }

  /** The entry was made for some frame with this key. */
  ghost predicate DecisionKept(f: Facts, frames: set<Frame>, s: Settings, key: (int, string, bool, Code), skip: bool) {
    exists x :: ApplyKey(x, key.1, key.2) == key && DecisionWithSome(f, frames, s, x, key.2, skip)
  }

  lemma {:induction false} ExcludeInsert(
    f: Facts, frames: set<Frame>, s: Settings, cache: ExcludeCache, frame: Frame, verdict: Option<bool>)
    requires ExcludeCurrent(f, frames, s, cache) && frame in frames
    requires verdict == ExcludeByFilter(f, s, frame, FileOf(f, frame))
    ensures ExcludeCurrent(f, frames, s, cache[ExcludeKey(frame, FileOf(f, frame)) := verdict])
    ensures VerdictOfSome(f, frames, s, ExcludeKey(frame, FileOf(f, frame)), verdict)
  {
  }

  /** Which code a frame runs is in the key, and the decision depends on the frame by nothing else: so the entry serves
      every frame with that key. */
  lemma {:induction false} KeptForAll(
    f: Facts, frames: set<Frame>, s: Settings, frame: Frame, original: string, force: bool, skip: bool)
    requires DecisionKept(f, frames, s, ApplyKey(frame, original, force), skip)
    ensures DecisionWithSome(f, frames, s, frame, force, skip)
  {
    var key := ApplyKey(frame, original, force);
    var x :| ApplyKey(x, key.1, key.2) == key && DecisionWithSome(f, frames, s, x, key.2, skip);
    var v :| VerdictOfSome(f, frames, s, ExcludeKey(x, FileOf(f, x)), v) && skip == Decide(f, s, x, v, force);
    assert Decide(f, s, frame, v, force) == Decide(f, s, x, v, force);
  }

  lemma {:induction false} ApplyInsert(
    f: Facts, frames: set<Frame>, s: Settings, cache: ApplyCache, frame: Frame, original: string, force: bool,
        skip: bool)
    requires ApplyCurrent(f, frames, s, cache) && DecisionWithSome(f, frames, s, frame, force, skip)
    ensures ApplyCurrent(f, frames, s, cache[ApplyKey(frame, original, force) := skip])
  {
    assert DecisionKept(f, frames, s, ApplyKey(frame, original, force), skip);
  }

  /** If the keys suffice, a kept verdict or decision is the frame's own. */
  lemma {:induction false} SharedVerdict(f: Facts, frames: set<Frame>, s: Settings, frame: Frame, verdict: Option<bool>)
    requires frame in frames && VerdictOfSome(f, frames, s, ExcludeKey(frame, FileOf(f, frame)), verdict)
    ensures KeysSuffice(f, frames, s.patterns) ==> verdict == ExcludeByFilter(f, s, frame, FileOf(f, frame))
  {
    var x :| x in frames && ExcludeKey(x, FileOf(f, x)) == ExcludeKey(frame, FileOf(f, frame))
             && verdict == ExcludeByFilter(f, s, x, FileOf(f, x));
    assert SameExcludeKey(f, x, frame);
    if KeysSuffice(f, frames, s.patterns) {
      SameKeySameVerdict(f, s, x, frame);
    }
  }

  lemma {:induction false} SharedDecision(
    f: Facts, frames: set<Frame>, s: Settings, frame: Frame, original: string, force: bool, skip: bool)
    requires frame in frames && f.absolute(original) == FileOf(f, frame)
    requires DecisionWithSome(f, frames, s, frame, force, skip)
    ensures KeysSuffice(f, frames, s.patterns) ==> skip == ApplyFilesFilter(f, s, frame, original, force)
  {
    var v :| VerdictOfSome(f, frames, s, ExcludeKey(frame, FileOf(f, frame)), v) &&
        skip == Decide(f, s, frame, v, force);
    SharedVerdict(f, frames, s, frame, v);
  }

  class PyDb {
    const facts: Facts
    /** The frames that lookups are made for. */
    ghost const frames: set<Frame>
    var settings: Settings
    var requireModule: bool
    var excludeFiltersEnabled: bool
    var librariesFilterEnabled: bool
    var filesFilterEnabled: bool
    var scopeCache: ScopeCache
    var excludeCache: ExcludeCache
    var applyCache: ApplyCache

    ghost predicate FlagsCurrent()
      reads this
    {
      && requireModule == RequiresModule(settings.filters)
      && excludeFiltersEnabled == (|settings.filters| > 0)
      && librariesFilterEnabled == settings.useLibraries
      && filesFilterEnabled == (excludeFiltersEnabled || librariesFilterEnabled)
    }

    /** Every entry of every cache is a decision under the current settings. */
    ghost predicate CachesCurrent()
      reads this
    {
      && ScopeCurrent(facts, frames, settings, scopeCache)
      && ExcludeCurrent(facts, frames, settings, excludeCache)
      && ApplyCurrent(facts, frames, settings, applyCache)
    }

    ghost predicate Valid()
      reads this
    {
      FlagsCurrent() && CachesCurrent()
    }

    constructor (facts: Facts, ghost frames: set<Frame>, settings: Settings)
      ensures Valid() && this.facts == facts && this.frames == frames && this.settings == settings
      ensures scopeCache == map[] && excludeCache == map[] && applyCache == map[]
    {
      this.facts, this.frames, this.settings := facts, frames, settings;
      requireModule := RequiresModule(settings.filters);
      excludeFiltersEnabled, librariesFilterEnabled := |settings.filters| > 0, settings.useLibraries;
      filesFilterEnabled := |settings.filters| > 0 || settings.useLibraries;
      scopeCache, excludeCache, applyCache := map[], map[], map[];
    }

    method ClearCaches()
      requires requireModule == RequiresModule(settings.filters)
      modifies this
      ensures Valid() && settings == old(settings)
    {
      scopeCache, excludeCache, applyCache := map[], map[], map[];
      excludeFiltersEnabled := |settings.filters| > 0;
      librariesFilterEnabled := settings.useLibraries;
      filesFilterEnabled := excludeFiltersEnabled || librariesFilterEnabled;
    }

    method SetProjectRoots(roots: seq<string>)
      requires Valid()
      modifies this
      ensures Valid() && settings == old(settings).(roots := roots)
    {
      settings := settings.(roots := roots);
      ClearCaches();
    }

    method SetExcludeFilters(filters: seq<ExcludeFilter>)
      requires Valid()
      modifies this
      ensures Valid() && settings == old(settings).(filters := filters)
    {
      settings := settings.(filters := filters);
      requireModule := false;
      var i := 0;
      while i < |filters|
        invariant 0 <= i <= |filters| && settings == old(settings).(filters := filters) && !requireModule
        invariant forall j :: 0 <= j < i ==> filters[j].isPath
      {
        if !filters[i].isPath {
          requireModule := true;
          break;
        }
        i := i + 1;
      }
      ClearCaches();
    }

    method SetUseLibrariesFilter(use: bool)
      requires Valid()
      modifies this
      ensures Valid() && settings == old(settings).(useLibraries := use)
    {
      settings := settings.(useLibraries := use);
      ClearCaches();
    }

    /** SourceMapping.set_source_mapping, whose change callback is _clear_caches. A source that another file maps is
        refused: then nothing changes, and the caches are kept. */
    method SetSourceMapping(file: string, sources: seq<string>) returns (refused: bool)
      requires Valid()
      modifies this
      ensures Valid()
      ensures refused <==> exists i :: 0 <= i < |sources| && MappedElsewhere(old(settings).mapped, file, sources[i])
      ensures refused ==> settings == old(settings) && applyCache == old(applyCache)
      ensures !refused ==> settings == old(settings).(mapped := Remapped(old(settings).mapped, file, sources))
    {
      for i := 0 to |sources|
        invariant Valid() && settings == old(settings) && applyCache == old(applyCache)
        invariant forall j :: 0 <= j < i ==> !MappedElsewhere(settings.mapped, file, sources[j])
      {
        if MappedElsewhere(settings.mapped, file, sources[i]) {
          return true;
        }
      }
      settings := settings.(mapped := Remapped(settings.mapped, file, sources));
      ClearCaches();
      return false;
    }

    /** A change of the patterns behind get_file_type, followed by clear_dont_trace_start_end_patterns_caches. */
    method SetPatterns(patterns: int)
      requires Valid()
      modifies this
      ensures Valid() && settings == old(settings).(patterns := patterns)
    {
      settings := settings.(patterns := patterns);
      ClearCaches();
    }

    method LookUpScope(frame: Frame) returns (inScope: bool)
      requires Valid() && frame in frames
      modifies this`scopeCache
      ensures Valid() && inScope == InProjectScope(facts, settings, frame)
      ensures ScopeMeans(facts, settings, frame, inScope)
    {
      ScopeIs(facts, settings, frame);
      var key := ScopeKey(facts, frame);
      if key in scopeCache {
        return scopeCache[key];
      }
      var file := FileOf(facts, frame);
      var fileType := facts.fileType(settings.patterns, file);
      if fileType.PydevFile? {
        inScope := false;
      } else if facts.isPy314 && frame.code.name == "__annotate__" {
        inScope := false;
      } else if file == "<string>" {
        inScope := !fileType.LibFile?;
      } else if file in settings.mapped {
        inScope := true;
      } else {
        inScope := facts.inRoots(settings.roots, file);
      }
      scopeCache := scopeCache[key := inScope];
    }

    /** FilesFiltering.exclude_by_filter */
    method FindVerdict(file: string, moduleName: Option<string>) returns (verdict: Option<bool>)
      ensures verdict == FirstVerdict(facts, settings.filters, file, moduleName)
      ensures VerdictMeans(facts, settings.filters, file, moduleName, verdict)
    {
      VerdictIs(facts, settings.filters, file, moduleName);
      var filters, i := settings.filters, 0;
      while i < |filters|
        invariant 0 <= i <= |filters|
        invariant FirstVerdict(facts, filters, file, moduleName) == FirstVerdict(facts, filters[i..], file, moduleName)
      {
        if Matches(facts, filters[i], file, moduleName) {
          return Some(filters[i].exclude);
        }
        i := i + 1;
      }
      return None;
    }

    /** _exclude_by_filter: the verdict for this frame, or the one kept from a frame with the same key. It is this
        frame's if the keys suffice. */
    method LookUpExclude(frame: Frame, file: string) returns (verdict: Option<bool>)
      requires Valid() && frame in frames && file == FileOf(facts, frame)
      modifies this`excludeCache
      ensures Valid() && VerdictOfSome(facts, frames, settings, ExcludeKey(frame, file), verdict)
      ensures var key, own := ExcludeKey(frame, file), ExcludeByFilter(facts, settings, frame, file);
              && verdict == (if key in old(excludeCache) then old(excludeCache)[key] else own)
              && key in excludeCache && excludeCache[key] == verdict
              && (KeysSuffice(facts, frames, settings.patterns) ==> verdict == own)
    {
      var key := ExcludeKey(frame, file);
      if key in excludeCache {
        verdict := excludeCache[key];
        SharedVerdict(facts, frames, settings, frame, verdict);
      } else {
        verdict := ExcludeAnew(frame, file);
        ExcludeInsert(facts, frames, settings, excludeCache, frame, verdict);
        excludeCache := excludeCache[key := verdict];
      }
    }

    /** Its body after a miss. */
    method ExcludeAnew(frame: Frame, file: string) returns (verdict: Option<bool>)
      requires requireModule == RequiresModule(settings.filters) && file == FileOf(facts, frame)
      ensures verdict == ExcludeByFilter(facts, settings, frame, file)
    {
      if facts.fileType(settings.patterns, file).PydevFile? {
        return Some(true);
      }
      verdict := FindVerdict(file, if requireModule then Some(frame.moduleName) else None);
    }

    /** The body of apply_files_filter after a miss; `original` is the frame's file name, absolute or not. */
    method DecideAnew(frame: Frame, original: string, force: bool) returns (skip: bool)
      requires Valid() && frame in frames && facts.absolute(original) == FileOf(facts, frame)
      modifies this`scopeCache, this`excludeCache
      ensures Valid() && DecisionWithSome(facts, frames, settings, frame, force, skip)
    {
      ghost var own := ExcludeByFilter(facts, settings, frame, FileOf(facts, frame));
      assert VerdictOfSome(facts, frames, settings, ExcludeKey(frame, FileOf(facts, frame)), own);
      if facts.pluginNeeds(frame.code) {
        assert Decide(facts, settings, frame, own, force) == false;
        return false;
      }
      if excludeFiltersEnabled {
        var verdict := LookUpExclude(frame, facts.absolute(original));
        if verdict.Some? {
          assert Decide(facts, settings, frame, verdict, force) == verdict.value;
          return verdict.value;
        }
        skip := OutOfScope(frame, force);
        assert Decide(facts, settings, frame, verdict, force) == skip;
        return;
      }
      skip := OutOfScope(frame, force);
      assert Decide(facts, settings, frame, own, force) == skip;
    }

    method OutOfScope(frame: Frame, force: bool) returns (skip: bool)
      requires Valid() && frame in frames
      modifies this`scopeCache
      ensures Valid() && skip == ((settings.useLibraries || force) && !InProjectScope(facts, settings, frame))
    {
      if librariesFilterEnabled || force {
        var inScope := LookUpScope(frame);
        return !inScope;
      }
      return false;
    }

    /** apply_files_filter */
    method LookUpFilter(frame: Frame, original: string, force: bool) returns (skip: bool)
      requires Valid() && frame in frames && facts.absolute(original) == FileOf(facts, frame)
      modifies this`scopeCache, this`excludeCache, this`applyCache
      ensures Valid() && DecisionWithSome(facts, frames, settings, frame, force, skip)
      ensures KeysSuffice(facts, frames, settings.patterns) ==>
                skip == ApplyFilesFilter(facts, settings, frame, original, force)
    {
      var key := ApplyKey(frame, original, force);
      if key in applyCache {
        skip := applyCache[key];
        KeptForAll(facts, frames, settings, frame, original, force, skip);
      } else {
        skip := DecideAnew(frame, original, force);
        ApplyInsert(facts, frames, settings, applyCache, frame, original, force, skip);
        applyCache := applyCache[key := skip];
      }
      SharedDecision(facts, frames, settings, frame, original, force, skip);
    }
  }

  /** Without that condition the cache gives a frame the verdict of another: one function, seen from modules "a" and
      "b", while module "a" is excluded. */
  method WrongVerdict(facts: Facts, code: Code) returns (first: Option<bool>, second: Option<bool>)
    requires facts.fileType(0, facts.absolute(code.filename)) == UserFile
    ensures first == second == Some(true)
    ensures ExcludeByFilter(facts, ModuleFilter("a", 0), Frame(code, "b"), facts.absolute(code.filename)) == None
  {
    var x, y := Frame(code, "a"), Frame(code, "b");
    var db := new PyDb(facts, {x, y}, ModuleFilter("a", 0));
    ModuleFilterVerdict(facts, x, "a", 0);
    ModuleFilterVerdict(facts, y, "a", 0);
    first := db.LookUpExclude(x, facts.absolute(code.filename));
    assert ExcludeKey(x, facts.absolute(code.filename)) == ExcludeKey(y, facts.absolute(code.filename));
    second := db.LookUpExclude(y, facts.absolute(code.filename));
  }
}
