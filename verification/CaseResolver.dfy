/**
The cached lookup of a path's real case in pydevd_file_utils.py (_resolve_listing, _resolve_listing_parts) on a
case-insensitive file system. A path is a root and the names below it; os.path.join appends one name, and the lower-case
strings that key the cache are the paths with every part in lower case.
*/
module CaseResolver {
  import opened Basics

  datatype Path = Path(root: string, names: seq<string>)

  /** What os_listdir does with a directory: list it, raise FileNotFoundError, or raise another OSError. */
  datatype Listing = Names(names: seq<string>) | Absent | Forbidden

  /** Directories by lower-case path; which case the caller used does not matter to the system. */
  type FileSystem = map<Path, Listing>

  datatype Outcome = Found(path: Path) | Missing | Denied

  function List(fs: FileSystem, dir: Path): Listing {
    if dir in fs then fs[dir] else Absent
  }

  function Join(p: Path, name: string): Path {
    Path(p.root, p.names + [name])
  }

  function LowerPath(lower: string -> string, p: Path): (r: Path)
    ensures |r.names| == |p.names|
  {
    Path(lower(p.root), seq(|p.names|, i requires 0 <= i < |p.names| => lower(p.names[i])))
  }

  /** The first name of the listing that is `part` in lower case. */
  function Find(lower: string -> string, names: seq<string>, part: string): (r: Option<string>)
    ensures r.Some? ==> r.value in names && lower(r.value) == part
    ensures r.None? ==> forall n :: n in names ==> lower(n) != part
  {
    if names == [] then None
    else if lower(names[0]) == part then Some(names[0])
    else
      assert names == [names[0]] + names[1..];
      Find(lower, names[1..], part)
  }

  /** Resolution without a cache: what the answer should be. */
  function Resolve(lower: string -> string, fs: FileSystem, dir: Path, parts: seq<string>): Outcome
    decreases |parts|
  {
    if parts == [] then Found(dir)
    else
      match List(fs, LowerPath(lower, dir))
      case Absent => Missing
      case Forbidden => Denied
      case Names(names) =>
        match Find(lower, names, parts[0])
        case None => Missing
        case Some(name) => Resolve(lower, fs, Join(dir, name), parts[1..])
  }

  /** _listdir_cache: listings by directory, and joined paths by directory and lower-case name. */
  datatype Cache = Cache(dirs: map<Path, seq<string>>, joined: map<(Path, string), Path>)

  const EMPTY_CACHE := Cache(map[], map[])

  /** One round of _resolve_listing: the path for the next part, and the cache after it. */
  function NextPart(lower: string -> string, fs: FileSystem, cache: Cache, dir: Path, part: string): (Outcome, Cache) {
    var key := LowerPath(lower, dir);
    if (key, part) in cache.joined then (Found(cache.joined[(key, part)]), cache)
    else
      var listing := if key in cache.dirs then Names(cache.dirs[key]) else List(fs, key);
      match listing
      case Absent => (Missing, cache)
      case Forbidden => (Denied, cache)
      case Names(names) =>
        var listed := cache.(dirs := cache.dirs[key := names]);
        match Find(lower, names, part)
        case None => (Missing, listed)
        case Some(name) => (Found(Join(dir, name)), listed.(joined := cache.joined[(key, part) := Join(dir, name)]))
  }

  function ResolveCached(
    lower: string -> string, fs: FileSystem, cache: Cache, dir: Path, parts: seq<string>): (Outcome, Cache)
    decreases |parts|
  {
    if parts == [] then (Found(dir), cache)
    else
      var (next, cache') := NextPart(lower, fs, cache, dir, parts[0]);
      if next.Found? then ResolveCached(lower, fs, cache', next.path, parts[1..]) else (next, cache')
  }

  /** The result of _resolve_listing_parts: a path, the file name it was given, or an OSError that escapes. */
  datatype Result = Resolved(path: Path) | Unresolved | RaisedOSError

  function ResultOf(o: Outcome): Result {
    if o.Found? then Resolved(o.path) else Unresolved
  }

  /** _resolve_listing_parts: on FileNotFoundError, clear the cache and retry once; on another OSError, give up. The
      retry runs inside the handler of the first, where only FileNotFoundError is caught. */
  function ResolveParts(
    lower: string -> string, fs: FileSystem, cache: Cache, dir: Path, parts: seq<string>): (Result, Cache) {
    if parts == [""] then (Resolved(dir), cache)
    else
      var (first, cache1) := ResolveCached(lower, fs, cache, dir, parts);
      if first.Missing? then
        var (second, cache2) := ResolveCached(lower, fs, EMPTY_CACHE, dir, parts);
        (if second.Denied? then RaisedOSError else ResultOf(second), cache2)
      else (ResultOf(first), cache1)
  }

  // ---- The cache object ----

  class ListdirCache {
    var dirs: map<Path, seq<string>>
    var joined: map<(Path, string), Path>

    ghost function View(): Cache
      reads this
    {
      Cache(dirs, joined)
    }

    constructor ()
      ensures View() == EMPTY_CACHE
    {
      dirs, joined := map[], map[];
    }

    method Clear()
      modifies this
      ensures View() == EMPTY_CACHE
    {
      dirs, joined := map[], map[];
    }

    method LookUp(lower: string -> string, fs: FileSystem, dir: Path, part: string) returns (next: Outcome)
      modifies this
      ensures (next, View()) == NextPart(lower, fs, old(View()), dir, part)
    {
      var key := LowerPath(lower, dir);
      if (key, part) in joined {
        return Found(joined[(key, part)]);
      }
      if key !in dirs {
        match List(fs, key)
        case Absent => return Missing;
        case Forbidden => return Denied;
        case Names(names) => dirs := dirs[key := names];
      }
      ghost var view := View();
      var names, i := dirs[key], 0;
      assert dirs == dirs[key := names];
      while i < |names|
        invariant 0 <= i <= |names| && View() == view
        invariant Find(lower, names, part) == Find(lower, names[i..], part)
      {
        if lower(names[i]) == part {
          joined := joined[(key, part) := Join(dir, names[i])];
          return Found(Join(dir, names[i]));
        }
        i := i + 1;
      }
      return Missing;
    }

    /** _resolve_listing. */
    method ResolveListing(
      lower: string -> string, fs: FileSystem, start: Path, parts: seq<string>) returns (outcome: Outcome)
      modifies this
      ensures (outcome, View()) == ResolveCached(lower, fs, old(View()), start, parts)
    {
      var dir, i := start, 0;
      while i < |parts|
        invariant 0 <= i <= |parts|
        invariant ResolveCached(lower, fs, View(), dir, parts[i..]) ==
            ResolveCached(lower, fs, old(View()), start, parts)
      {
        assert parts[i..][1..] == parts[i + 1..];
        var next := LookUp(lower, fs, dir, parts[i]);
        if !next.Found? {
          return next;
        }
        dir, i := next.path, i + 1;
      }
      return Found(dir);
    }

    method ResolveListingParts(
      lower: string -> string, fs: FileSystem, start: Path, parts: seq<string>) returns (result: Result)
      modifies this
      ensures (result, View()) == ResolveParts(lower, fs, old(View()), start, parts)
    {
      if parts == [""] {
        return Resolved(start);
      }
      var outcome := ResolveListing(lower, fs, start, parts);
      if outcome.Missing? {
        Clear();
        outcome := ResolveListing(lower, fs, start, parts);
        if outcome.Denied? {
          return RaisedOSError;
        }
      }
      return ResultOf(outcome);
    }
  }
}
