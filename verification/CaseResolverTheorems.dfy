/** On a file system that only grows, the cached resolver answers as a resolver without a cache would, whatever calls
    came before; with one exception, which is characterized exactly. */
module CaseResolverTheorems {
  import opened Basics
  import opened CaseResolver

  /** No two names of a directory differ only in case. */
  ghost predicate UniqueNames(lower: string -> string, names: seq<string>) {
    forall i, j :: 0 <= i < j < |names| ==> lower(names[i]) != lower(names[j])
  }

  ghost predicate ProperFs(lower: string -> string, fs: FileSystem) {
    forall d :: d in fs && fs[d].Names? ==> UniqueNames(lower, fs[d].names)
  }

  /** Names are added and directories appear; nothing is renamed, removed, or has its permission changed. */
  ghost predicate Grows(fs: FileSystem, fs': FileSystem) {
    forall d ::
      && (List(fs, d).Names? ==> List(fs', d).Names? && forall n :: n in List(fs, d).names ==> n in List(fs', d).names)
      && (List(fs, d).Forbidden? ==> List(fs', d).Forbidden?)
  }

  /** The roots that callers pass (upper-cased drives) are told apart by their lower-case form. */
  ghost predicate ProperRoots(lower: string -> string, roots: set<string>) {
    forall a, b :: a in roots && b in roots && lower(a) == lower(b) ==> a == b
  }

  /** A root, followed by names in the case in which their directories list them. */
  ghost predicate RealCase(lower: string -> string, roots: set<string>, fs: FileSystem, p: Path)
    decreases |p.names|
  {
    if p.names == [] then p.root in roots
    else
      var parent := Path(p.root, p.names[..|p.names| - 1]);
      var listing := List(fs, LowerPath(lower, parent));
      RealCase(lower, roots, fs, parent) && listing.Names? && p.names[|p.names| - 1] in listing.names
  }

  /** Cached listings hold names that are still listed; cached joins are real-case paths of the name they are keyed
      by. */
  ghost predicate CacheOk(lower: string -> string, roots: set<string>, fs: FileSystem, cache: Cache) {
    && (forall d :: d in cache.dirs ==>
          List(fs, d).Names? && forall n :: n in cache.dirs[d] ==> n in List(fs, d).names)
    && (forall k :: k in cache.joined ==> JoinOk(lower, roots, fs, k.0, k.1, cache.joined[k]))
  }

  ghost predicate JoinOk(
    lower: string -> string, roots: set<string>, fs: FileSystem, dir: Path, part: string, p: Path) {
    && p.names != []
    && RealCase(lower, roots, fs, p)
    && LowerPath(lower, Path(p.root, p.names[..|p.names| - 1])) == dir
    && lower(p.names[|p.names| - 1]) == part
  }

  /** Every cached listing is the current one. */
  ghost predicate Exact(fs: FileSystem, cache: Cache) {
    forall d :: d in cache.dirs ==> List(fs, d) == Names(cache.dirs[d])
  }

  lemma {:induction false} FindUnique(lower: string -> string, names: seq<string>, name: string)
    requires UniqueNames(lower, names) && name in names
    ensures Find(lower, names, lower(name)) == Some(name)
  {
    var r := Find(lower, names, lower(name));
    var i :| 0 <= i < |names| && names[i] == name;
    assert r.Some?;
    var j :| 0 <= j < |names| && names[j] == r.value;
    if i < j {
      assert lower(names[i]) != lower(names[j]);
    } else if j < i {
      assert lower(names[j]) != lower(names[i]);
    }
  }

  lemma {:induction false} LowerPathParent(lower: string -> string, p: Path, q: Path)
    requires LowerPath(lower, p) == LowerPath(lower, q) && p.names != []
    ensures |q.names| == |p.names| && lower(p.root) == lower(q.root)
    ensures lower(p.names[|p.names| - 1]) == lower(q.names[|p.names| - 1])
    ensures LowerPath(lower, Path(p.root, p.names[..|p.names| - 1])) ==
        LowerPath(lower, Path(q.root, q.names[..|p.names| - 1]))
  {
    var a, b := LowerPath(lower, p), LowerPath(lower, q);
    forall i | 0 <= i < |p.names| ensures lower(p.names[i]) == lower(q.names[i]) {
      assert a.names[i] == b.names[i];
    }
  }

  /** Two real-case paths that differ only in case are the same path. */
  lemma {:induction false} RealCaseUnique(lower: string -> string, roots: set<string>, fs: FileSystem, p: Path, q: Path)
    requires ProperFs(lower, fs) && ProperRoots(lower, roots)
    requires RealCase(lower, roots, fs, p) && RealCase(lower, roots, fs, q)
    requires LowerPath(lower, p) == LowerPath(lower, q)
    ensures p == q
    decreases |p.names|
  {
    assert |p.names| == |q.names|;
    if p.names != [] {
      var k := |p.names| - 1;
      var a, b := Path(p.root, p.names[..k]), Path(q.root, q.names[..k]);
      LowerPathParent(lower, p, q);
      RealCaseUnique(lower, roots, fs, a, b);
      var listing := List(fs, LowerPath(lower, a));
      FindUnique(lower, listing.names, p.names[k]);
      FindUnique(lower, listing.names, q.names[k]);
      assert p.names == p.names[..k] + [p.names[k]] && q.names == q.names[..k] + [q.names[k]];
    }
  }

  lemma {:induction false} RealCaseJoin(
    lower: string -> string, roots: set<string>, fs: FileSystem, dir: Path, name: string)
    requires RealCase(lower, roots, fs, dir) && List(fs, LowerPath(lower, dir)).Names?
    requires name in List(fs, LowerPath(lower, dir)).names
    ensures JoinOk(lower, roots, fs, LowerPath(lower, dir), lower(name), Join(dir, name))
  {
    var p := Join(dir, name);
    assert Path(p.root, p.names[..|p.names| - 1]) == dir;
  }

  /** A cached join is what the directory's current listing leads to. */
  lemma {:induction false} CachedJoinIsCurrent(
    lower: string -> string, roots: set<string>, fs: FileSystem, dir: Path, part: string, p: Path)
    requires ProperFs(lower, fs) && ProperRoots(lower, roots)
    requires RealCase(lower, roots, fs, dir) && JoinOk(lower, roots, fs, LowerPath(lower, dir), part, p)
    ensures List(fs, LowerPath(lower, dir)).Names?
    ensures exists name ::
              Find(lower, List(fs, LowerPath(lower, dir)).names, part) == Some(name) && p == Join(dir, name)
  {
    var k := |p.names| - 1;
    var parent := Path(p.root, p.names[..k]);
    RealCaseUnique(lower, roots, fs, parent, dir);
    FindUnique(lower, List(fs, LowerPath(lower, dir)).names, p.names[k]);
    assert p == Join(dir, p.names[k]) by {
      assert p.names == p.names[..k] + [p.names[k]];
    }
  }

  /** The answer of one cache-free round. */
  function NextUncached(lower: string -> string, fs: FileSystem, dir: Path, part: string): Outcome {
    match List(fs, LowerPath(lower, dir))
    case Absent => Missing
    case Forbidden => Denied
    case Names(names) =>
      match Find(lower, names, part)
      case None => Missing
      case Some(name) => Found(Join(dir, name))
  }

  /** What one round with the cache does: the cache stays sound; a hit is right; an error other than a miss is right;
      and with an exact cache so is a miss. */
  ghost predicate RoundOk(
    lower: string -> string, roots: set<string>, fs: FileSystem, cache: Cache, dir: Path, part: string,
                          next: Outcome, cache': Cache) {
    && CacheOk(lower, roots, fs, cache')
    && (!next.Missing? || Exact(fs, cache) ==> next == NextUncached(lower, fs, dir, part))
    && (next.Found? ==> RealCase(lower, roots, fs, next.path))
    && (Exact(fs, cache) ==> Exact(fs, cache'))
  }

  lemma {:induction false} HitSound(
    lower: string -> string, roots: set<string>, fs: FileSystem, cache: Cache, dir: Path, part: string)
    requires ProperFs(lower, fs) && ProperRoots(lower, roots)
    requires CacheOk(lower, roots, fs, cache) && RealCase(lower, roots, fs, dir)
    requires (LowerPath(lower, dir), part) in cache.joined
    ensures RoundOk(lower, roots, fs, cache, dir, part, Found(cache.joined[(LowerPath(lower, dir), part)]), cache)
  {
    var k := (LowerPath(lower, dir), part);
    assert JoinOk(lower, roots, fs, k.0, k.1, cache.joined[k]);
    CachedJoinIsCurrent(lower, roots, fs, dir, part, cache.joined[k]);
  }

  lemma {:induction false} ListedSound(
    lower: string -> string, roots: set<string>, fs: FileSystem, cache: Cache, key: Path, names: seq<string>)
    requires CacheOk(lower, roots, fs, cache)
    requires if key in cache.dirs then names == cache.dirs[key] else List(fs, key) == Names(names)
    ensures List(fs, key).Names? && forall n :: n in names ==> n in List(fs, key).names
    ensures var listed := cache.(dirs := cache.dirs[key := names]);
      CacheOk(lower, roots, fs, listed) && (Exact(fs, cache) ==> Exact(fs, listed) && List(fs, key) == Names(names))
  {
  }

  lemma {:induction false} JoinedSound(
    lower: string -> string, roots: set<string>, fs: FileSystem, cache: Cache, dir: Path, part: string, name: string)
    requires CacheOk(lower, roots, fs, cache) && RealCase(lower, roots, fs, dir)
    requires List(fs, LowerPath(lower, dir)).Names? && name in List(fs, LowerPath(lower, dir)).names &&
        lower(name) == part
    ensures CacheOk(lower, roots, fs, cache.(joined := cache.joined[(LowerPath(lower, dir), part) := Join(dir, name)]))
    ensures RealCase(lower, roots, fs, Join(dir, name))
  {
    RealCaseJoin(lower, roots, fs, dir, name);
  }

  lemma {:induction false} NextPartSound(
    lower: string -> string, roots: set<string>, fs: FileSystem, cache: Cache, dir: Path, part: string)
    requires ProperFs(lower, fs) && ProperRoots(lower, roots)
    requires CacheOk(lower, roots, fs, cache) && RealCase(lower, roots, fs, dir)
    ensures var (next, cache') := NextPart(lower, fs, cache, dir, part);
      RoundOk(lower, roots, fs, cache, dir, part, next, cache')
  {
    var key := LowerPath(lower, dir);
    if (key, part) in cache.joined {
      HitSound(lower, roots, fs, cache, dir, part);
    } else if key in cache.dirs || List(fs, key).Names? {
      var names := if key in cache.dirs then cache.dirs[key] else List(fs, key).names;
      ListedSound(lower, roots, fs, cache, key, names);
      var found := Find(lower, names, part);
      if found.Some? {
        FindUnique(lower, List(fs, key).names, found.value);
        JoinedSound(lower, roots, fs, cache.(dirs := cache.dirs[key := names]), dir, part, found.value);
      }
    }
  }

  lemma {:induction false} ResolveCachedSound(
    lower: string -> string, roots: set<string>, fs: FileSystem, cache: Cache, dir: Path, parts: seq<string>)
    requires ProperFs(lower, fs) && ProperRoots(lower, roots)
    requires CacheOk(lower, roots, fs, cache) && RealCase(lower, roots, fs, dir)
    ensures var (outcome, cache') := ResolveCached(lower, fs, cache, dir, parts);
      && CacheOk(lower, roots, fs, cache')
      && (!outcome.Missing? || Exact(fs, cache) ==> outcome == Resolve(lower, fs, dir, parts))
    decreases |parts|
  {
    if parts != [] {
      NextPartSound(lower, roots, fs, cache, dir, parts[0]);
      var (next, cache') := NextPart(lower, fs, cache, dir, parts[0]);
      if next.Found? {
        ResolveCachedSound(lower, roots, fs, cache', next.path, parts[1..]);
      }
    }
  }

  /** What _resolve_listing_parts returns when it does not go through a cache. */
  function UncachedResult(lower: string -> string, fs: FileSystem, dir: Path, parts: seq<string>): Result {
    if parts == [""] then Resolved(dir) else ResultOf(Resolve(lower, fs, dir, parts))
  }

  /** `p` leads on from `dir` by names that are `parts` in lower case. */
  ghost predicate LeadsTo(lower: string -> string, dir: Path, parts: seq<string>, p: Path) {
    && p.root == dir.root && dir.names <= p.names && |p.names| == |dir.names| + |parts|
    && forall i :: 0 <= i < |parts| ==> lower(p.names[|dir.names| + i]) == parts[i]
  }

  /** The names on the way from `dir` to `p` are listed in their directories, in that case. */
  ghost predicate Listed(lower: string -> string, fs: FileSystem, dir: Path, p: Path) {
    && dir.names <= p.names
    && forall k :: |dir.names| <= k < |p.names| ==> ListedAt(lower, fs, p, k)
  }

  ghost predicate ListedAt(lower: string -> string, fs: FileSystem, p: Path, k: nat)
    requires k < |p.names|
  {
    var listing := List(fs, LowerPath(lower, Path(p.root, p.names[..k])));
    listing.Names? && p.names[k] in listing.names
  }

  lemma {:induction false} FirstStep(
    lower: string -> string, fs: FileSystem, dir: Path, parts: seq<string>, p: Path)
    requires ProperFs(lower, fs) && parts != [] && LeadsTo(lower, dir, parts, p) && Listed(lower, fs, dir, p)
    ensures var next := Join(dir, p.names[|dir.names|]);
            && NextUncached(lower, fs, dir, parts[0]) == Found(next)
            && LeadsTo(lower, next, parts[1..], p) && Listed(lower, fs, next, p)
  {
    var d := |dir.names|;
    var next := Join(dir, p.names[d]);
    assert p.names[..d] == dir.names && p.names[..d + 1] == next.names;
    assert ListedAt(lower, fs, p, d);
    assert lower(p.names[d + 0]) == parts[0];
    FindUnique(lower, List(fs, LowerPath(lower, dir)).names, p.names[d]);
    forall i | 0 <= i < |parts[1..]| ensures lower(p.names[|next.names| + i]) == parts[1..][i] {
      assert lower(p.names[d + (i + 1)]) == parts[i + 1];
    }
  }

  /** The cache-free resolver finds a path exactly if it leads on by listed names that are the parts in lower case. */
  lemma {:induction false} FoundExactlyWhen(
    lower: string -> string, fs: FileSystem, dir: Path, parts: seq<string>, p: Path)
    requires ProperFs(lower, fs)
    ensures Resolve(lower, fs, dir, parts) == Found(p) <==> LeadsTo(lower, dir, parts, p) && Listed(lower, fs, dir, p)
    decreases |parts|
  {
    if parts == [] {
      if LeadsTo(lower, dir, parts, p) {
        assert p.names == dir.names;
      }
    } else if LeadsTo(lower, dir, parts, p) && Listed(lower, fs, dir, p) {
      FirstStep(lower, fs, dir, parts, p);
      FoundExactlyWhen(lower, fs, Join(dir, p.names[|dir.names|]), parts[1..], p);
    } else if Resolve(lower, fs, dir, parts) == Found(p) {
      FoundIsListed(lower, fs, dir, parts, p);
    }
  }

  /** One name more on the way. */
  lemma {:induction false} OneStepMore(
    lower: string -> string, fs: FileSystem, dir: Path, name: string, parts: seq<string>, p: Path)
    requires parts != [] && lower(name) == parts[0]
    requires List(fs, LowerPath(lower, dir)).Names? && name in List(fs, LowerPath(lower, dir)).names
    requires LeadsTo(lower, Join(dir, name), parts[1..], p) && Listed(lower, fs, Join(dir, name), p)
    ensures LeadsTo(lower, dir, parts, p) && Listed(lower, fs, dir, p)
  {
    var d, next := |dir.names|, Join(dir, name);
    assert p.names[..d + 1] == next.names;
    assert dir.names == next.names[..d] == p.names[..d] && p.names[d] == name;
    assert ListedAt(lower, fs, p, d);
    forall i | 0 <= i < |parts| ensures lower(p.names[d + i]) == parts[i] {
      if i > 0 {
        assert lower(p.names[|next.names| + (i - 1)]) == parts[1..][i - 1];
      }
    }
  }

  lemma {:induction false} FoundIsListed(
    lower: string -> string, fs: FileSystem, dir: Path, parts: seq<string>, p: Path)
    requires Resolve(lower, fs, dir, parts) == Found(p)
    ensures LeadsTo(lower, dir, parts, p) && Listed(lower, fs, dir, p)
    decreases |parts|
  {
    if parts != [] {
      var names := List(fs, LowerPath(lower, dir)).names;
      var name := Find(lower, names, parts[0]).value;
      FoundIsListed(lower, fs, Join(dir, name), parts[1..], p);
      OneStepMore(lower, fs, dir, name, parts, p);
    }
  }

  /** It is denied exactly if some of the parts lead to a directory that may not be listed, and parts remain. */
  lemma {:induction false} DeniedExactlyWhen(lower: string -> string, fs: FileSystem, dir: Path, parts: seq<string>)
    requires ProperFs(lower, fs)
    ensures Resolve(lower, fs, dir, parts) == Denied <==>
            exists k, p :: 0 <= k < |parts| && DeniedAt(lower, fs, dir, parts, k, p)
    decreases |parts|
  {
    if parts != [] {
      var next := NextUncached(lower, fs, dir, parts[0]);
      if next.Found? {
        DeniedExactlyWhen(lower, fs, next.path, parts[1..]);
      }
      if Resolve(lower, fs, dir, parts) == Denied {
        if next.Found? {
          var k, p :| 0 <= k < |parts[1..]| && DeniedAt(lower, fs, next.path, parts[1..], k, p);
          FoundExactlyWhen(lower, fs, next.path, parts[1..][..k], p);
          assert parts[..k + 1][0] == parts[0] && parts[..k + 1][1..] == parts[1..][..k];
          FoundExactlyWhen(lower, fs, dir, parts[..k + 1], p);
          assert DeniedAt(lower, fs, dir, parts, k + 1, p);
        } else {
          FoundExactlyWhen(lower, fs, dir, [], dir);
          assert parts[..0] == [];
          assert DeniedAt(lower, fs, dir, parts, 0, dir);
        }
      }
      forall k, p | 0 <= k < |parts| && DeniedAt(lower, fs, dir, parts, k, p)
        ensures Resolve(lower, fs, dir, parts) == Denied
      {
        FoundExactlyWhen(lower, fs, dir, parts[..k], p);
        if k > 0 {
          assert parts[..k][0] == parts[0] && parts[..k][1..] == parts[1..][..k - 1];
          FoundExactlyWhen(lower, fs, next.path, parts[1..][..k - 1], p);
          assert DeniedAt(lower, fs, next.path, parts[1..], k - 1, p);
        }
      }
    }
  }

  /** The first `k` parts lead to `p`, which may not be listed. */
  ghost predicate DeniedAt(
    lower: string -> string, fs: FileSystem, dir: Path, parts: seq<string>, k: nat, p: Path)
    requires k < |parts|
  {
    LeadsTo(lower, dir, parts[..k], p) && Listed(lower, fs, dir, p) && List(fs, LowerPath(lower, p)).Forbidden?
  }

  // ---- Stale listings ----

  /** The cached listing of `dir` lacks `part`, and no join is cached for it. */
  predicate StaleAt(lower: string -> string, cache: Cache, dir: Path, part: string) {
    var key := LowerPath(lower, dir);
    (key, part) !in cache.joined && key in cache.dirs && Find(lower, cache.dirs[key], part).None?
  }

  /** So it is for some directory on the way that the current file system leads. */
  predicate Stale(lower: string -> string, fs: FileSystem, cache: Cache, dir: Path, parts: seq<string>)
    decreases |parts|
  {
    && parts != []
    && (|| StaleAt(lower, cache, dir, parts[0])
        || var next := NextUncached(lower, fs, dir, parts[0]);
           next.Found? && Stale(lower, fs, cache, next.path, parts[1..]))
  }

  /** The caches agree on all directories at least as deep as `depth`. */
  ghost predicate SameBelow(a: Cache, b: Cache, depth: nat) {
    && (forall k: Path :: |k.names| >= depth ==>
          (k in a.dirs <==> k in b.dirs) && (k in a.dirs ==> a.dirs[k] == b.dirs[k]))
    && (forall k: (Path, string) :: |k.0.names| >= depth ==> (k in a.joined <==> k in b.joined))
  }

  lemma {:induction false} StaleFrame(
    lower: string -> string, fs: FileSystem, a: Cache, b: Cache, dir: Path, parts: seq<string>)
    requires SameBelow(a, b, |dir.names|)
    ensures Stale(lower, fs, a, dir, parts) <==> Stale(lower, fs, b, dir, parts)
    decreases |parts|
  {
    if parts != [] {
      var key := LowerPath(lower, dir);
      assert |key.names| == |dir.names| && |(key, parts[0]).0.names| >= |dir.names|;
      assert StaleAt(lower, a, dir, parts[0]) <==> StaleAt(lower, b, dir, parts[0]);
      var next := NextUncached(lower, fs, dir, parts[0]);
      if next.Found? {
        StaleFrame(lower, fs, a, b, next.path, parts[1..]);
      }
    }
  }

  /** A round changes what is cached of its own directory only. */
  lemma {:induction false} NextPartFrame(
    lower: string -> string, fs: FileSystem, cache: Cache, dir: Path, part: string)
    ensures SameBelow(cache, NextPart(lower, fs, cache, dir, part).1, |dir.names| + 1)
  {
  }

  /** A round misses exactly on a stale listing, unless the file system itself has no such name. */
  lemma {:induction false} NextPartMisses(
    lower: string -> string, fs: FileSystem, cache: Cache, dir: Path, part: string)
    requires !NextUncached(lower, fs, dir, part).Missing?
    ensures NextPart(lower, fs, cache, dir, part).0.Missing? <==> StaleAt(lower, cache, dir, part)
  {
  }

  /** If the cache-free resolver is denied a listing, the cached one misses first exactly if the cache is stale on the
      way there. */
  lemma {:induction false} MissesExactlyWhenStale(
    lower: string -> string, roots: set<string>, fs: FileSystem, cache: Cache, dir: Path, parts: seq<string>)
    requires ProperFs(lower, fs) && ProperRoots(lower, roots)
    requires CacheOk(lower, roots, fs, cache) && RealCase(lower, roots, fs, dir)
    requires Resolve(lower, fs, dir, parts).Denied?
    ensures ResolveCached(lower, fs, cache, dir, parts).0.Missing? <==> Stale(lower, fs, cache, dir, parts)
    decreases |parts|
  {
    var part := parts[0];
    var (next, cache') := NextPart(lower, fs, cache, dir, part);
    NextPartSound(lower, roots, fs, cache, dir, part);
    NextPartMisses(lower, fs, cache, dir, part);
    if next.Found? {
      NextPartFrame(lower, fs, cache, dir, part);
      assert |next.path.names| == |dir.names| + 1;
      MissesExactlyWhenStale(lower, roots, fs, cache', next.path, parts[1..]);
      StaleFrame(lower, fs, cache, cache', next.path, parts[1..]);
    }
  }

  /** The cached resolver returns exactly what the cache-free one returns, and keeps its cache sound; the one
      exception is a cached listing that is stale on the way to a directory that cannot be listed: then the retry's
      OSError escapes. */
  lemma {:induction false} ResolvePartsSound(
    lower: string -> string, roots: set<string>, fs: FileSystem, cache: Cache, root: string, parts: seq<string>)
    requires ProperFs(lower, fs) && ProperRoots(lower, roots) && CacheOk(lower, roots, fs, cache) && root in roots
    ensures var dir := Path(root, []);
      var (result, cache') := ResolveParts(lower, fs, cache, dir, parts);
      && CacheOk(lower, roots, fs, cache')
      && result == (if Escapes(lower, fs, cache, dir, parts) then RaisedOSError
                    else UncachedResult(lower, fs, dir, parts))
  {
    var dir := Path(root, []);
    assert RealCase(lower, roots, fs, dir);
    ResolveCachedSound(lower, roots, fs, cache, dir, parts);
    ResolveCachedSound(lower, roots, fs, EMPTY_CACHE, dir, parts);
    if Resolve(lower, fs, dir, parts).Denied? {
      MissesExactlyWhenStale(lower, roots, fs, cache, dir, parts);
    }
  }

  /** When an OSError escapes: the way leads to a directory that may not be listed, and the cache is stale on it. */
  predicate Escapes(lower: string -> string, fs: FileSystem, cache: Cache, dir: Path, parts: seq<string>) {
    parts != [""] && Resolve(lower, fs, dir, parts).Denied? && Stale(lower, fs, cache, dir, parts)
  }

  lemma {:induction false} RealCaseGrows(
    lower: string -> string, roots: set<string>, fs: FileSystem, fs': FileSystem, p: Path)
    requires Grows(fs, fs') && RealCase(lower, roots, fs, p)
    ensures RealCase(lower, roots, fs', p)
    decreases |p.names|
  {
    if p.names != [] {
      RealCaseGrows(lower, roots, fs, fs', Path(p.root, p.names[..|p.names| - 1]));
    }
  }

  lemma {:induction false} CacheOkGrows(
    lower: string -> string, roots: set<string>, fs: FileSystem, fs': FileSystem, cache: Cache)
    requires Grows(fs, fs') && CacheOk(lower, roots, fs, cache)
    ensures CacheOk(lower, roots, fs', cache)
  {
    forall k | k in cache.joined ensures JoinOk(lower, roots, fs', k.0, k.1, cache.joined[k]) {
      assert JoinOk(lower, roots, fs, k.0, k.1, cache.joined[k]);
      RealCaseGrows(lower, roots, fs, fs', cache.joined[k]);
    }
  }

  // ---- Histories ----

  /** A call with the file system as it is at that time. */
  datatype Call = Call(fs: FileSystem, root: string, parts: seq<string>)

  /** The cache after a history of calls. */
  function CacheAfter(lower: string -> string, calls: seq<Call>): Cache {
    if calls == [] then EMPTY_CACHE
    else
      var last := calls[|calls| - 1];
      ResolveParts(lower, last.fs, CacheAfter(lower, calls[..|calls| - 1]), Path(last.root, []), last.parts).1
  }

  ghost predicate ProperHistory(lower: string -> string, roots: set<string>, calls: seq<Call>) {
    && ProperRoots(lower, roots)
    && (forall i :: 0 <= i < |calls| ==> calls[i].root in roots && ProperFs(lower, calls[i].fs))
    && (forall i, j :: 0 <= i < j < |calls| ==> Grows(calls[i].fs, calls[j].fs))
  }

  lemma {:induction false} CacheOkAfter(lower: string -> string, roots: set<string>, calls: seq<Call>, fs: FileSystem)
    requires ProperHistory(lower, roots, calls)
    requires forall i :: 0 <= i < |calls| ==> Grows(calls[i].fs, fs)
    ensures CacheOk(lower, roots, fs, CacheAfter(lower, calls))
    decreases |calls|
  {
    if calls != [] {
      var k := |calls| - 1;
      var last, before := calls[k], calls[..k];
      CacheOkAfter(lower, roots, before, last.fs);
      ResolvePartsSound(lower, roots, last.fs, CacheAfter(lower, before), last.root, last.parts);
      assert Grows(last.fs, fs);
      CacheOkGrows(lower, roots, last.fs, fs, CacheAfter(lower, calls));
    }
  }

  /** For every history of earlier calls on a growing file system, a call returns what it would return without a cache,
      except that it raises an OSError exactly when the way leads to a directory that may not be listed and the cache
      holds a listing of a directory on that way which lacks the next name. */
  lemma {:induction false} CachedEqualsUncached(
    lower: string -> string, roots: set<string>, calls: seq<Call>, call: Call)
    requires ProperHistory(lower, roots, calls + [call])
    ensures var dir := Path(call.root, []);
      var cache := CacheAfter(lower, calls);
      ResolveParts(lower, call.fs, cache, dir, call.parts).0 ==
        if Escapes(lower, call.fs, cache, dir, call.parts) then RaisedOSError
        else UncachedResult(lower, call.fs, dir, call.parts)
  {
    var all := calls + [call];
    assert all[|calls|] == call;
    assert forall i :: 0 <= i < |calls| ==> all[i] == calls[i];
    forall i | 0 <= i < |calls| ensures Grows(calls[i].fs, call.fs) {
      assert Grows(all[i].fs, all[|calls|].fs);
    }
    CacheOkAfter(lower, roots, calls, call.fs);
    ResolvePartsSound(lower, roots, call.fs, CacheAfter(lower, calls), call.root, call.parts);
  }

  /** So the answer, whatever calls came before, is a path exactly if that path leads on from the root by listed names
      that are the parts in lower case; for the root alone it is the root. */
  lemma {:induction false} ResolvedExactlyWhen(
    lower: string -> string, roots: set<string>, calls: seq<Call>, call: Call, p: Path)
    requires ProperHistory(lower, roots, calls + [call])
    ensures var dir := Path(call.root, []);
            var parts := if call.parts == [""] then [] else call.parts;
            ResolveParts(lower, call.fs, CacheAfter(lower, calls), dir, call.parts).0 == Resolved(p) <==>
            LeadsTo(lower, dir, parts, p) && Listed(lower, call.fs, dir, p)
  {
    var dir := Path(call.root, []);
    assert (calls + [call])[|calls|] == call;
    CachedEqualsUncached(lower, roots, calls, call);
    if call.parts == [""] {
      FoundExactlyWhen(lower, call.fs, dir, [], p);
    } else {
      FoundExactlyWhen(lower, call.fs, dir, call.parts, p);
    }
  }

  const ROOT := Path("/", [])
  const BEFORE: FileSystem := map[ROOT := Names([])]
  const AFTER: FileSystem := map[ROOT := Names(["a"]), Path("/", ["a"]) := Forbidden]

  lemma {:induction false} EarlyCall(lower: string -> string)
    requires forall s :: lower(s) == s
    ensures CacheAfter(lower, [Call(BEFORE, "/", ["a", "b"])]) == Cache(map[ROOT := []], map[])
  {
    var early := Call(BEFORE, "/", ["a", "b"]);
    assert LowerPath(lower, ROOT) == ROOT;
    assert [early][..0] == [];
    assert NextPart(lower, BEFORE, EMPTY_CACHE, ROOT, "a") == (Missing, Cache(map[ROOT := []], map[]));
    assert ResolveCached(lower, BEFORE, EMPTY_CACHE, ROOT, early.parts).0 == Missing;
  }

  lemma {:induction false} LateCallDenied(lower: string -> string)
    requires forall s :: lower(s) == s
    ensures Resolve(lower, AFTER, ROOT, ["a", "b"]) == Denied
  {
    assert LowerPath(lower, ROOT) == ROOT;
    assert LowerPath(lower, Join(ROOT, "a")) == Path("/", ["a"]);
    assert ["a", "b"][1..] == ["b"];
    assert Find(lower, ["a"], "a") == Some("a");
  }

  /** A history where that happens, with names that have only one case: "a" appears under the root after the root was
      cached, and "a" may not be listed. */
  lemma {:induction false} StaleMissRaises()
    ensures var lower := (s: string) => s;
      var early, late := Call(BEFORE, "/", ["a", "b"]), Call(AFTER, "/", ["a", "b"]);
      && ProperHistory(lower, {"/"}, [early, late])
      && ResolveParts(lower, late.fs, CacheAfter(lower, [early]), ROOT, late.parts).0 == RaisedOSError
      && UncachedResult(lower, late.fs, ROOT, late.parts) == Unresolved
  {
    var lower := (s: string) => s;
    var early, late := Call(BEFORE, "/", ["a", "b"]), Call(AFTER, "/", ["a", "b"]);
    EarlyCall(lower);
    LateCallDenied(lower);
    assert LowerPath(lower, ROOT) == ROOT;
    assert StaleAt(lower, CacheAfter(lower, [early]), ROOT, "a");
    CachedEqualsUncached(lower, {"/"}, [early], late);
  }
}
