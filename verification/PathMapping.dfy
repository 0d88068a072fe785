/**
The translation of file names between client and server in pydevd_file_utils.py: setup_client_server_paths and the two
mapping functions it defines.
*/
module PathMapping {
  import opened Basics

  /** The settings and the platform: path separators, the client's normcase (character by character), the server's
      normcase, absolute_path, get_path_with_real_case, os.path.realpath and os.path.exists. */
  datatype Config = Config(
    clientSep: char,
    serverSep: char,
    clientNorm: char -> char,
    serverNorm: string -> string,
    absolute: string -> string,
    realCase: string -> string,
    realPath: string -> string,
    onDisk: string -> bool)

  /** One prefix translation: client prefix as configured, client prefix normalized, server prefix normalized. */
  datatype Entry = Entry(client: string, clientNormed: string, server: string)

  function Replace(s: string, a: char, b: char): (r: string)
    ensures |r| == |s| && forall i :: 0 <= i < |s| ==> r[i] == if s[i] == a then b else s[i]
  {
    seq(|s|, i requires 0 <= i < |s| => if s[i] == a then b else s[i])
  }

  function NormClient(cfg: Config, s: string): (r: string)
    ensures |r| == |s| && forall i :: 0 <= i < |s| ==> r[i] == cfg.clientNorm(s[i])
  {
    seq(|s|, i requires 0 <= i < |s| => cfg.clientNorm(s[i]))
  }

  predicate EndsInSlash(path: string) {
    path != "" && (path[|path| - 1] == '/' || path[|path| - 1] == '\\')
  }

  /** _fix_path */
  function FixPath(cfg: Config, path: string, sep: char, addEndSep: bool): string {
    var ended :=
      if addEndSep then if EndsInSlash(path) then path else path + "/"
      else if EndsInSlash(path) then path[..|path| - 1] else path;
    var separated := if sep != '/' then Replace(ended, '/', sep) else ended;
    if separated != "" && separated[0] == '.' then cfg.realPath(separated) else separated
  }

  function MakeEntry(cfg: Config, client: string, server: string): Entry {
    Entry(client, NormClient(cfg, client), cfg.serverNorm(server))
  }

  /** Both sides of the mapping end in a slash, so that only the version with the slash is used. */
  predicate ForceSlash(path: (string, string)) {
    EndsInSlash(path.0) && EndsInSlash(path.1)
  }

  /** The sides of a mapping without their end separators, unless ForceSlash. */
  function Trimmed(cfg: Config, path: (string, string)): (string, string) {
    if ForceSlash(path) then path
    else (FixPath(cfg, path.0, cfg.clientSep, false), FixPath(cfg, path.1, cfg.serverSep, false))
  }

  function ShortEntry(cfg: Config, path: (string, string)): Entry {
    var t := Trimmed(cfg, path);
    MakeEntry(cfg, t.0, t.1)
  }

  function SlashEntry(cfg: Config, path: (string, string)): Entry {
    var t := Trimmed(cfg, path);
    MakeEntry(cfg, FixPath(cfg, t.0, cfg.clientSep, true), FixPath(cfg, t.1, cfg.serverSep, true))
  }

  function SlashEntries(cfg: Config, paths: seq<(string, string)>): (r: seq<Entry>)
    ensures |r| == |paths| && forall i :: 0 <= i < |paths| ==> r[i] == SlashEntry(cfg, paths[i])
  {
    seq(|paths|, i requires 0 <= i < |paths| => SlashEntry(cfg, paths[i]))
  }

  function ShortEntries(cfg: Config, paths: seq<(string, string)>): seq<Entry> {
    if paths == [] then []
    else
      var last := paths[|paths| - 1];
      ShortEntries(cfg, paths[..|paths| - 1]) + (if ForceSlash(last) then [] else [ShortEntry(cfg, last)])
  }

  /** The order in which prefixes are tried: all versions with a slash in the end first. */
  function Entries(cfg: Config, paths: seq<(string, string)>): seq<Entry> {
    SlashEntries(cfg, paths) + ShortEntries(cfg, paths)
  }

  /** s[n:] */
  function Drop(s: string, n: nat): string {
    if n <= |s| then s[n..] else ""
  }

  /** The first entry whose server prefix starts `name`. */
  function FindServer(entries: seq<Entry>, name: string): (r: Option<nat>)
    ensures r.Some? ==> r.value < |entries| && entries[r.value].server <= name
    ensures forall i :: 0 <= i < (if r.Some? then r.value else |entries|) ==> !(entries[i].server <= name)
  {
    if entries == [] then None
    else if entries[0].server <= name then Some(0)
    else
      match FindServer(entries[1..], name)
      case None =>
        assert forall i :: 0 < i < |entries| ==> entries[i] == entries[1..][i - 1];
        None
      case Some(k) =>
        assert forall i :: 0 < i < |entries| ==> entries[i] == entries[1..][i - 1];
        Some(k + 1)
  }

  /** The first entry whose normalized client prefix starts `name`. */
  function FindClient(entries: seq<Entry>, name: string): (r: Option<nat>)
    ensures r.Some? ==> r.value < |entries| && entries[r.value].clientNormed <= name
    ensures forall i :: 0 <= i < (if r.Some? then r.value else |entries|) ==> !(entries[i].clientNormed <= name)
  {
    if entries == [] then None
    else if entries[0].clientNormed <= name then Some(0)
    else
      match FindClient(entries[1..], name)
      case None =>
        assert forall i :: 0 < i < |entries| ==> entries[i] == entries[1..][i - 1];
        None
      case Some(k) =>
        assert forall i :: 0 < i < |entries| ==> entries[i] == entries[1..][i - 1];
        Some(k + 1)
  }

  /** _map_file_to_client without its cache: the client's name, and whether a mapping was applied. */
  function ToClient(cfg: Config, entries: seq<Entry>, filename: string): (string, bool) {
    var path := cfg.absolute(filename);
    var proper := cfg.realCase(path);
    var found := FindServer(entries, cfg.serverNorm(path));
    var translated :=
      if found.Some? then entries[found.value].client + Drop(proper, |entries[found.value].server|) else proper;
    (ServerKey(cfg, translated), found.Some?)
  }

  /** The name under which _map_file_to_server looks prefixes up, and stores its answer. */
  function ServerKey(cfg: Config, filename: string): string {
    if cfg.clientSep != cfg.serverSep then Replace(filename, cfg.serverSep, cfg.clientSep) else filename
  }

  /** _map_file_to_server without its cache. */
  function ToServer(cfg: Config, entries: seq<Entry>, filename: string): string {
    var name := ServerKey(cfg, filename);
    var found := FindClient(entries, NormClient(cfg, name));
    var prefixed :=
      if found.Some? then entries[found.value].server + Drop(name, |entries[found.value].clientNormed|) else name;
    var translated := if cfg.clientSep != cfg.serverSep then Replace(prefixed, cfg.clientSep, cfg.serverSep)
        else prefixed;
    if found.Some? || cfg.onDisk(translated) then cfg.absolute(translated) else translated
  }

  // ---- The mapper with its caches ----

  lemma {:induction false} EntriesSnoc(cfg: Config, paths: seq<(string, string)>, path: (string, string))
    ensures SlashEntries(cfg, paths + [path]) == SlashEntries(cfg, paths) + [SlashEntry(cfg, path)]
    ensures ShortEntries(cfg, paths + [path]) ==
      ShortEntries(cfg, paths) + (if ForceSlash(path) then [] else [ShortEntry(cfg, path)])
  {
    assert (paths + [path])[..|paths|] == paths;
  }

  /** The loop of setup_client_server_paths. */
  method BuildEntries(cfg: Config, paths: seq<(string, string)>) returns (entries: seq<Entry>)
    ensures entries == Entries(cfg, paths)
  {
    var withEndSep, without := [], [];
    for i := 0 to |paths|
      invariant withEndSep == SlashEntries(cfg, paths[..i]) && without == ShortEntries(cfg, paths[..i])
    {
      var (path0, path1) := paths[i];
      assert paths[..i + 1] == paths[..i] + [paths[i]];
      EntriesSnoc(cfg, paths[..i], paths[i]);
      if !ForceSlash((path0, path1)) {
        path0 := FixPath(cfg, path0, cfg.clientSep, false);
        path1 := FixPath(cfg, path1, cfg.serverSep, false);
        without := without + [MakeEntry(cfg, path0, path1)];
      }
      path0 := FixPath(cfg, path0, cfg.clientSep, true);
      path1 := FixPath(cfg, path1, cfg.serverSep, true);
      withEndSep := withEndSep + [MakeEntry(cfg, path0, path1)];
    }
    assert paths[..|paths|] == paths;
    return withEndSep + without;
  }

  /** The prefix loop of _map_file_to_client. */
  method SearchServer(entries: seq<Entry>, name: string) returns (found: Option<nat>)
    ensures found == FindServer(entries, name)
  {
    var i := 0;
    while i < |entries|
      invariant 0 <= i <= |entries| && forall j :: 0 <= j < i ==> !(entries[j].server <= name)
    {
      if entries[i].server <= name {
        return Some(i);
      }
      i := i + 1;
    }
    return None;
  }

  /** The prefix loop of _map_file_to_server. */
  method SearchClient(entries: seq<Entry>, name: string) returns (found: Option<nat>)
    ensures found == FindClient(entries, name)
  {
    var i := 0;
    while i < |entries|
      invariant 0 <= i <= |entries| && forall j :: 0 <= j < i ==> !(entries[j].clientNormed <= name)
    {
      if entries[i].clientNormed <= name {
        return Some(i);
      }
      i := i + 1;
    }
    return None;
  }

  lemma {:induction false} ServerKeyIdempotent(cfg: Config, filename: string)
    ensures ServerKey(cfg, ServerKey(cfg, filename)) == ServerKey(cfg, filename)
  {
  }

  class PathMapper {
    const cfg: Config
    const paths: seq<(string, string)>
    var entries: seq<Entry>
    var toServer: map<string, string>
    var toClient: map<string, (string, bool)>

    /** Every cached answer is the uncached one. */
    ghost predicate Valid()
      reads this
    {
      && entries == Entries(cfg, paths)
      && (forall f :: f in toServer ==> toServer[f] == ToServer(cfg, entries, f))
      && (forall f :: f in toClient ==> toClient[f] == ToClient(cfg, entries, f))
    }

    /** setup_client_server_paths */
    constructor (cfg: Config, paths: seq<(string, string)>)
      ensures Valid() && this.cfg == cfg && this.paths == paths
    {
      var built := BuildEntries(cfg, paths);
      this.cfg, this.paths, entries, toServer, toClient := cfg, paths, built, map[], map[];
    }

    /** _map_file_to_client: the answer is the uncached one, whatever was asked before. */
    method MapToClient(filename: string) returns (answer: (string, bool))
      requires Valid()
      modifies this`toClient
      ensures Valid() && answer == ToClient(cfg, entries, filename)
    {
      if filename in toClient {
        return toClient[filename];
      }
      var path := cfg.absolute(filename);
      var translated := cfg.realCase(path);
      var found := SearchServer(entries, cfg.serverNorm(path));
      if found.Some? {
        translated := entries[found.value].client + Drop(translated, |entries[found.value].server|);
      }
      if cfg.clientSep != cfg.serverSep {
        translated := Replace(translated, cfg.serverSep, cfg.clientSep);
      }
      answer := (translated, found.Some?);
      toClient := toClient[filename := answer];
    }

    /** _map_file_to_server: likewise, although it stores the answer under the name with rewritten separators. */
    method MapToServer(filename: string) returns (answer: string)
      requires Valid()
      modifies this`toServer
      ensures Valid() && answer == ToServer(cfg, entries, filename)
    {
      if filename in toServer {
        return toServer[filename];
      }
      var name := filename;
      if cfg.clientSep != cfg.serverSep {
        name := Replace(name, cfg.serverSep, cfg.clientSep);
      }
      var translated := name;
      var found := SearchClient(entries, NormClient(cfg, name));
      if found.Some? {
        translated := entries[found.value].server + Drop(name, |entries[found.value].clientNormed|);
      }
      if cfg.clientSep != cfg.serverSep {
        translated := Replace(translated, cfg.clientSep, cfg.serverSep);
      }
      if found.Some? || cfg.onDisk(translated) {
        translated := cfg.absolute(translated);
      }
      ServerKeyIdempotent(cfg, filename);
      toServer := toServer[name := translated];
      answer := translated;
    }
  }

  // ---- Server to client to server ----

  /** A server that keeps the case of names, and names that are absolute already. */
  ghost predicate PlainServer(cfg: Config) {
    forall s :: cfg.serverNorm(s) == s && cfg.absolute(s) == s && cfg.realCase(s) == s
  }

  /** `s` is absolute already, keeps its length when it is normalized, and its real case differs from it in case. */
  ghost predicate Folds(cfg: Config, s: string) {
    && cfg.absolute(s) == s
    && |cfg.serverNorm(s)| == |s|
    && cfg.serverNorm(cfg.serverNorm(s)) == cfg.serverNorm(s)
    && cfg.serverNorm(cfg.realCase(s)) == cfg.serverNorm(s)
  }

  ghost predicate FoldsApart(cfg: Config, s: string, t: string) {
    cfg.serverNorm(s + t) == cfg.serverNorm(s) + cfg.serverNorm(t)
  }

  /** A server that normalizes names character by character, and may ignore their case; PlainServer is one that does
      not. */
  ghost predicate FoldingServer(cfg: Config) {
    && (forall s :: Folds(cfg, s))
    && (forall s, t :: FoldsApart(cfg, s, t))
    && cfg.serverNorm([cfg.serverSep]) == [cfg.serverSep]
  }

  lemma {:induction false} PlainFolds(cfg: Config)
    requires PlainServer(cfg)
    ensures FoldingServer(cfg)
  {
    forall s ensures Folds(cfg, s) {
      assert cfg.serverNorm(s) == s && cfg.absolute(s) == s && cfg.realCase(s) == s;
    }
    forall s, t ensures FoldsApart(cfg, s, t) {
      assert cfg.serverNorm(s) == s && cfg.serverNorm(t) == t && cfg.serverNorm(s + t) == s + t;
    }
    assert cfg.serverNorm([cfg.serverSep]) == [cfg.serverSep];
  }

  lemma {:induction false} NormSplit(cfg: Config, s: string, k: nat)
    requires FoldingServer(cfg) && k <= |s|
    ensures |cfg.serverNorm(s)| == |s|
    ensures cfg.serverNorm(s)[..k] == cfg.serverNorm(s[..k]) && cfg.serverNorm(s)[k..] == cfg.serverNorm(s[k..])
  {
    assert s == s[..k] + s[k..];
    assert Folds(cfg, s) && Folds(cfg, s[..k]) && FoldsApart(cfg, s[..k], s[k..]);
  }

  /** The name uses no character, other than the server's separator, that the client would take for its separator. */
  predicate NoForeignSep(cfg: Config, s: string) {
    forall i :: 0 <= i < |s| && cfg.clientNorm(s[i]) == cfg.clientNorm(cfg.clientSep) ==> s[i] == cfg.serverSep
  }

  /** Neither does its normalized form. */
  predicate CleanName(cfg: Config, s: string) {
    NoForeignSep(cfg, s) && NoForeignSep(cfg, cfg.serverNorm(s))
  }

  predicate Comparable(a: string, b: string) {
    a <= b || b <= a
  }

  /** Entry `b` is entry `a` with a separator at the end of both prefixes. */
  predicate Slashed(cfg: Config, a: Entry, b: Entry) {
    b.server == a.server + [cfg.serverSep] && b.clientNormed == a.clientNormed + [cfg.clientNorm(cfg.clientSep)]
  }

  /** What the round trip needs of the entries: two prefixes of different mappings are comparable on neither side; the
      version with the slash comes first; client prefixes hold no server separators. */
  ghost predicate GoodEntries(cfg: Config, entries: seq<Entry>) {
    && (forall i, j :: 0 <= i < j < |entries| && Comparable(entries[i].clientNormed, entries[j].clientNormed) ==>
          Slashed(cfg, entries[j], entries[i]))
    && (forall i :: 0 <= i < |entries| ==>
          && entries[i].clientNormed == NormClient(cfg, entries[i].client)
          && (cfg.clientSep != cfg.serverSep ==> cfg.serverSep !in entries[i].client))
  }

  /** The client's name of a file whose real-case name is `actual`, under entry `e`. */
  function ClientName(cfg: Config, e: Entry, actual: string): string
    requires |e.server| <= |actual|
  {
    e.client + ServerKey(cfg, actual[|e.server|..])
  }

  lemma {:induction false} ToClientShape(cfg: Config, entries: seq<Entry>, f: string, i: nat)
    requires FoldingServer(cfg) && GoodEntries(cfg, entries) && FindServer(entries, cfg.serverNorm(f)) == Some(i)
    ensures |cfg.realCase(f)| == |f| >= |entries[i].server|
    ensures ToClient(cfg, entries, f) == (ClientName(cfg, entries[i], cfg.realCase(f)), true)
  {
    assert Folds(cfg, f) && Folds(cfg, cfg.realCase(f));
    var client, rest := entries[i].client, cfg.realCase(f)[|entries[i].server|..];
    if cfg.clientSep != cfg.serverSep {
      assert Replace(client + rest, cfg.serverSep, cfg.clientSep) ==
          client + Replace(rest, cfg.serverSep, cfg.clientSep);
    }
  }

  lemma {:induction false} PrefixesComparable(a: string, b: string, s: string)
    requires a <= s && b <= s
    ensures Comparable(a, b)
  {
    assert a == s[..|a|] && b == s[..|b|];
  }

  /** If the client's name of `actual` matches the version of its prefix with the slash, so does `actual`. */
  lemma {:induction false} SlashMatches(cfg: Config, e: Entry, slashed: Entry, actual: string)
    requires FoldingServer(cfg) && e.server <= cfg.serverNorm(actual) && |e.server| <= |actual|
    requires NoForeignSep(cfg, actual) && Slashed(cfg, e, slashed) && |e.client| == |e.clientNormed|
    requires slashed.clientNormed <= NormClient(cfg, ClientName(cfg, e, actual))
    ensures slashed.server <= cfg.serverNorm(actual)
  {
    var rest := actual[|e.server|..];
    var g := ClientName(cfg, e, actual);
    var k, m := |e.client|, |e.server|;
    assert |rest| > 0 && g[k] == ServerKey(cfg, rest)[0];
    assert cfg.clientNorm(g[k]) == slashed.clientNormed[k];
    assert rest[0] == actual[m];
    assert actual[m] == cfg.serverSep;
    SeparatorStays(cfg, actual, m);
    assert slashed.server == cfg.serverNorm(actual)[..m + 1];
  }

  lemma {:induction false} SeparatorStays(cfg: Config, s: string, k: nat)
    requires FoldingServer(cfg) && k < |s| && s[k] == cfg.serverSep
    ensures |cfg.serverNorm(s)| == |s| && cfg.serverNorm(s)[k] == cfg.serverSep
  {
    NormSplit(cfg, s, k);
    NormSplit(cfg, s[k..], 1);
    assert s[k..][..1] == [cfg.serverSep];
    assert cfg.serverNorm(s)[k] == cfg.serverNorm(s)[k..][0] == cfg.serverNorm(s[k..])[..1][0];
  }

  lemma {:induction false} NormPrefix(cfg: Config, a: string, b: string)
    ensures NormClient(cfg, a) <= NormClient(cfg, a + b)
  {
    assert NormClient(cfg, a + b)[..|a|] == NormClient(cfg, a);
  }

  lemma {:induction false} FindsFirst(entries: seq<Entry>, name: string, i: nat)
    requires i < |entries| && entries[i].clientNormed <= name
    requires forall j :: 0 <= j < i ==> !(entries[j].clientNormed <= name)
    ensures FindClient(entries, name) == Some(i)
  {
  }

  lemma {:induction false} NotEarlier(cfg: Config, entries: seq<Entry>, actual: string, i: nat, j: nat)
    requires FoldingServer(cfg) && GoodEntries(cfg, entries) && NoForeignSep(cfg, actual)
    requires FindServer(entries, cfg.serverNorm(actual)) == Some(i) && j < i && |entries[i].server| <= |actual|
    requires entries[i].clientNormed <= NormClient(cfg, ClientName(cfg, entries[i], actual))
    ensures !(entries[j].clientNormed <= NormClient(cfg, ClientName(cfg, entries[i], actual)))
  {
    var e, earlier := entries[i], entries[j];
    var n := NormClient(cfg, ClientName(cfg, e, actual));
    assert !(earlier.server <= cfg.serverNorm(actual));
    if earlier.clientNormed <= n {
      PrefixesComparable(earlier.clientNormed, e.clientNormed, n);
      assert Slashed(cfg, e, earlier);
      SlashMatches(cfg, e, earlier, actual);
    }
  }

  /** The client's name is found back under the same entry. */
  lemma {:induction false} SameEntry(cfg: Config, entries: seq<Entry>, actual: string, i: nat)
    requires FoldingServer(cfg) && GoodEntries(cfg, entries) && NoForeignSep(cfg, actual)
    requires FindServer(entries, cfg.serverNorm(actual)) == Some(i) && |entries[i].server| <= |actual|
    ensures FindClient(entries, NormClient(cfg, ClientName(cfg, entries[i], actual))) == Some(i)
  {
    var e := entries[i];
    var n := NormClient(cfg, ClientName(cfg, e, actual));
    assert e.clientNormed == NormClient(cfg, e.client);
    NormPrefix(cfg, e.client, ServerKey(cfg, actual[|e.server|..]));
    forall j | 0 <= j < i ensures !(entries[j].clientNormed <= n) {
      NotEarlier(cfg, entries, actual, i, j);
    }
    FindsFirst(entries, n, i);
  }

  /** Rewriting separators to the client's and back restores what held none of the client's. */
  lemma {:induction false} SeparatorsBack(cfg: Config, head: string, rest: string)
    requires NoForeignSep(cfg, head) && NoForeignSep(cfg, rest) && cfg.clientSep != cfg.serverSep
    ensures Replace(head + ServerKey(cfg, rest), cfg.clientSep, cfg.serverSep) == head + rest
  {
    var all := head + ServerKey(cfg, rest);
    forall k | 0 <= k < |all|
      ensures Replace(all, cfg.clientSep, cfg.serverSep)[k] == (head + rest)[k]
    {
      if k < |head| {
        assert all[k] == head[k];
      } else {
        assert all[k] == ServerKey(cfg, rest)[k - |head|] && (head + rest)[k] == rest[k - |head|];
      }
    }
  }

  /** What comes back for a file is the matched server prefix as configured, normalized, and the rest of the real-case
      name. */
  lemma {:induction false} EntriesRoundTrip(cfg: Config, entries: seq<Entry>, f: string, i: nat)
    requires FoldingServer(cfg) && GoodEntries(cfg, entries) && FindServer(entries, cfg.serverNorm(f)) == Some(i)
    requires CleanName(cfg, cfg.realCase(f))
    ensures |cfg.realCase(f)| == |f| >= |entries[i].server|
    ensures ToServer(cfg, entries, ToClient(cfg, entries, f).0) ==
        entries[i].server + cfg.realCase(f)[|entries[i].server|..]
  {
    var actual, e := cfg.realCase(f), entries[i];
    ToClientShape(cfg, entries, f, i);
    var rest, g := actual[|e.server|..], ClientName(cfg, e, actual);
    assert Folds(cfg, f);
    SameEntry(cfg, entries, actual, i);
    assert ServerKey(cfg, g) == g;
    assert Drop(g, |e.clientNormed|) == ServerKey(cfg, rest);
    assert forall k :: 0 <= k < |e.server| ==> e.server[k] == cfg.serverNorm(actual)[k];
    if cfg.clientSep != cfg.serverSep {
      SeparatorsBack(cfg, e.server, rest);
    }
    assert Folds(cfg, e.server + rest);
  }

  /** Which the server takes for the same file. */
  lemma {:induction false} SameFile(cfg: Config, actual: string, prefix: string)
    requires FoldingServer(cfg) && |prefix| <= |actual| && prefix <= cfg.serverNorm(actual)
    ensures cfg.serverNorm(prefix + actual[|prefix|..]) == cfg.serverNorm(actual)
  {
    var k := |prefix|;
    NormSplit(cfg, actual, k);
    assert prefix == cfg.serverNorm(actual[..k]);
    assert Folds(cfg, actual[..k]) && FoldsApart(cfg, prefix, actual[k..]);
    assert cfg.serverNorm(actual) == cfg.serverNorm(actual)[..k] + cfg.serverNorm(actual)[k..];
  }

  // ---- What the mappings must satisfy ----

  /** The shortest prefix that a mapping matches on the client. */
  function ClientRoot(cfg: Config, path: (string, string)): string {
    if ForceSlash(path) then SlashEntry(cfg, path).clientNormed else ShortEntry(cfg, path).clientNormed
  }

  predicate Relative(path: string) {
    path != "" && path[0] == '.'
  }

  /** A mapping of absolute paths that end in at most one slash, with no server separators on the client side. */
  predicate ProperPath(cfg: Config, path: (string, string)) {
    var t := Trimmed(cfg, path);
    && !Relative(t.0) && !Relative(t.1) && !Relative(path.0) && !Relative(path.1)
    && (!ForceSlash(path) ==> !EndsInSlash(t.0) && !EndsInSlash(t.1))
    && (cfg.clientSep != cfg.serverSep ==> cfg.serverSep !in SlashEntry(cfg, path).client)
  }

  ghost predicate ProperPaths(cfg: Config, paths: seq<(string, string)>) {
    && (cfg.clientSep == '/' || cfg.clientSep == '\\') && (cfg.serverSep == '/' || cfg.serverSep == '\\')
    && (forall i :: 0 <= i < |paths| ==> ProperPath(cfg, paths[i]))
    && (forall i, j :: 0 <= i < j < |paths| ==> !Comparable(ClientRoot(cfg, paths[i]), ClientRoot(cfg, paths[j])))
  }

  lemma {:induction false} AddSlash(cfg: Config, t: string, sep: char)
    requires (sep == '/' || sep == '\\') && !EndsInSlash(t) && !Relative(t)
    requires sep != '/' ==> '/' !in t
    ensures FixPath(cfg, t, sep, true) == t + [sep]
  {
    if sep != '/' {
      assert Replace(t + "/", '/', sep) == t + [sep];
    }
  }

  lemma {:induction false} TrimmedHasOwnSep(cfg: Config, path: string, sep: char)
    requires (sep == '/' || sep == '\\') && !Relative(FixPath(cfg, path, sep, false)) && !Relative(path)
    ensures sep != '/' ==> '/' !in FixPath(cfg, path, sep, false)
  {
  }

  /** The two entries of a mapping differ by the separators at their ends. */
  lemma {:induction false} ShortAndSlash(cfg: Config, path: (string, string))
    requires FoldingServer(cfg) && ProperPath(cfg, path) && !ForceSlash(path)
    requires (cfg.clientSep == '/' || cfg.clientSep == '\\') && (cfg.serverSep == '/' || cfg.serverSep == '\\')
    ensures Slashed(cfg, ShortEntry(cfg, path), SlashEntry(cfg, path))
    ensures SlashEntry(cfg, path).client == ShortEntry(cfg, path).client + [cfg.clientSep]
  {
    var t := Trimmed(cfg, path);
    TrimmedHasOwnSep(cfg, path.0, cfg.clientSep);
    TrimmedHasOwnSep(cfg, path.1, cfg.serverSep);
    AddSlash(cfg, t.0, cfg.clientSep);
    AddSlash(cfg, t.1, cfg.serverSep);
    assert NormClient(cfg, t.0 + [cfg.clientSep]) == NormClient(cfg, t.0) + [cfg.clientNorm(cfg.clientSep)];
    assert FoldsApart(cfg, t.1, [cfg.serverSep]);
  }

  /** The mapping that each of ShortEntries comes from, in increasing order. */
  function ShortOwners(cfg: Config, paths: seq<(string, string)>): (r: seq<nat>)
    ensures |r| == |ShortEntries(cfg, paths)|
    ensures forall j :: 0 <= j < |r| ==>
      r[j] < |paths| && !ForceSlash(paths[r[j]]) && ShortEntries(cfg, paths)[j] == ShortEntry(cfg, paths[r[j]])
    ensures forall j, k :: 0 <= j < k < |r| ==> r[j] < r[k]
  {
    if paths == [] then []
    else
      var n := |paths| - 1;
      ShortOwners(cfg, paths[..n]) + (if ForceSlash(paths[n]) then [] else [n])
  }

  /** The mapping that an entry comes from. */
  function Owner(cfg: Config, paths: seq<(string, string)>, i: nat): (p: nat)
    requires i < |Entries(cfg, paths)|
    ensures p < |paths|
  {
    if i < |paths| then i else ShortOwners(cfg, paths)[i - |paths|]
  }

  /** Every entry extends its mapping's root. */
  lemma {:induction false} EntryExtendsRoot(cfg: Config, paths: seq<(string, string)>, i: nat)
    requires FoldingServer(cfg) && ProperPaths(cfg, paths) && i < |Entries(cfg, paths)|
    ensures ClientRoot(cfg, paths[Owner(cfg, paths, i)]) <= Entries(cfg, paths)[i].clientNormed
    ensures Entries(cfg, paths)[i].clientNormed == NormClient(cfg, Entries(cfg, paths)[i].client)
    ensures cfg.clientSep != cfg.serverSep ==> cfg.serverSep !in Entries(cfg, paths)[i].client
  {
    var path := paths[Owner(cfg, paths, i)];
    assert ProperPath(cfg, path);
    if !ForceSlash(path) {
      ShortAndSlash(cfg, path);
    }
    assert Entries(cfg, paths)[i] == if i < |paths| then SlashEntry(cfg, path) else ShortEntry(cfg, path);
  }

  /** Two entries of one mapping are its two versions, slash first. */
  lemma {:induction false} SameOwner(cfg: Config, paths: seq<(string, string)>, i: nat, j: nat)
    requires i < j < |Entries(cfg, paths)| && Owner(cfg, paths, i) == Owner(cfg, paths, j)
    ensures var path := paths[Owner(cfg, paths, i)];
      !ForceSlash(path) && Entries(cfg, paths)[i] == SlashEntry(cfg, path) &&
          Entries(cfg, paths)[j] == ShortEntry(cfg, path)
  {
  }

  lemma {:induction false} RootsComparable(a: string, b: string, rootA: string, rootB: string)
    requires rootA <= a && rootB <= b && Comparable(a, b)
    ensures Comparable(rootA, rootB)
  {
    PrefixesComparable(rootA, rootB, if a <= b then b else a);
  }

  /** Different mappings have incomparable entries. */
  lemma {:induction false} EntriesApart(cfg: Config, paths: seq<(string, string)>, i: nat, j: nat)
    requires FoldingServer(cfg) && ProperPaths(cfg, paths) && i < j < |Entries(cfg, paths)|
    requires Comparable(Entries(cfg, paths)[i].clientNormed, Entries(cfg, paths)[j].clientNormed)
    ensures Slashed(cfg, Entries(cfg, paths)[j], Entries(cfg, paths)[i])
  {
    var p, q := Owner(cfg, paths, i), Owner(cfg, paths, j);
    assert Comparable(ClientRoot(cfg, paths[p]), ClientRoot(cfg, paths[q])) by {
      EntryExtendsRoot(cfg, paths, i);
      EntryExtendsRoot(cfg, paths, j);
      RootsComparable(Entries(cfg, paths)[i].clientNormed, Entries(cfg, paths)[j].clientNormed,
                      ClientRoot(cfg, paths[p]), ClientRoot(cfg, paths[q]));
    }
    assert p == q;
    SameOwner(cfg, paths, i, j);
    ShortAndSlash(cfg, paths[p]);
  }

  lemma {:induction false} ProperGivesGood(cfg: Config, paths: seq<(string, string)>)
    requires FoldingServer(cfg) && ProperPaths(cfg, paths)
    ensures GoodEntries(cfg, Entries(cfg, paths))
  {
    var entries := Entries(cfg, paths);
    forall i, j | 0 <= i < j < |entries| && Comparable(entries[i].clientNormed, entries[j].clientNormed)
      ensures Slashed(cfg, entries[j], entries[i])
    {
      EntriesApart(cfg, paths, i, j);
    }
    forall i | 0 <= i < |entries|
      ensures entries[i].clientNormed == NormClient(cfg, entries[i].client)
        && (cfg.clientSep != cfg.serverSep ==> cfg.serverSep !in entries[i].client)
    {
      EntryExtendsRoot(cfg, paths, i);
    }
  }

  /** For every list of mappings with pairwise incomparable client roots: a file that a mapping applies to comes back
      from the client as a name that the server takes for the same file, whether or not the server ignores case. */
  lemma {:induction false} RoundTripSameFile(cfg: Config, paths: seq<(string, string)>, f: string)
    requires FoldingServer(cfg) && ProperPaths(cfg, paths) && CleanName(cfg, cfg.realCase(f))
    requires FindServer(Entries(cfg, paths), cfg.serverNorm(f)).Some?
    ensures cfg.serverNorm(ToServer(cfg, Entries(cfg, paths), ToClient(cfg, Entries(cfg, paths), f).0)) ==
        cfg.serverNorm(f)
  {
    var entries := Entries(cfg, paths);
    var i := FindServer(entries, cfg.serverNorm(f)).value;
    ProperGivesGood(cfg, paths);
    EntriesRoundTrip(cfg, entries, f, i);
    assert Folds(cfg, f);
    SameFile(cfg, cfg.realCase(f), entries[i].server);
  }

  /** On a server that keeps case: server to client to server is the identity on every name that a mapping applies to
      and that holds no foreign separator. */
  lemma {:induction false} RoundTrip(cfg: Config, paths: seq<(string, string)>, f: string)
    requires PlainServer(cfg) && ProperPaths(cfg, paths) && NoForeignSep(cfg, f)
    requires FindServer(Entries(cfg, paths), f).Some?
    ensures ToServer(cfg, Entries(cfg, paths), ToClient(cfg, Entries(cfg, paths), f).0) == f
  {
    PlainFolds(cfg);
    assert cfg.realCase(f) == f && cfg.serverNorm(f) == f;
    RoundTripSameFile(cfg, paths, f);
    var back := ToServer(cfg, Entries(cfg, paths), ToClient(cfg, Entries(cfg, paths), f).0);
    assert cfg.serverNorm(back) == back;
  }

  // ---- What the client gets ----

  /** `sent` is `name` with the client's separators. */
  ghost predicate Separated(cfg: Config, name: string, sent: string) {
    && |sent| == |name|
    && forall k :: 0 <= k < |name| ==> sent[k] == if name[k] == cfg.serverSep then cfg.clientSep else name[k]
  }

  /** A file whose normalized name starts with a server prefix, and with none that is tried earlier, is sent under the
      client prefix of that mapping followed by the rest of its real-case name. */
  lemma {:induction false} MappedName(cfg: Config, entries: seq<Entry>, f: string, i: nat)
    requires i < |entries| && entries[i].server <= cfg.serverNorm(cfg.absolute(f))
    requires forall j :: 0 <= j < i ==> !(entries[j].server <= cfg.serverNorm(cfg.absolute(f)))
    requires |entries[i].server| <= |cfg.realCase(cfg.absolute(f))|
    ensures Separated(cfg, entries[i].client + cfg.realCase(cfg.absolute(f))[|entries[i].server|..],
                      ToClient(cfg, entries, f).0)
    ensures ToClient(cfg, entries, f).1
  {
  }

  /** A file with no prefix in the list is sent under its real-case name, and marked as not mapped. */
  lemma {:induction false} UnmappedName(cfg: Config, entries: seq<Entry>, f: string)
    requires forall j :: 0 <= j < |entries| ==> !(entries[j].server <= cfg.serverNorm(cfg.absolute(f)))
    ensures Separated(cfg, cfg.realCase(cfg.absolute(f)), ToClient(cfg, entries, f).0)
    ensures !ToClient(cfg, entries, f).1
  {
  }

  /** On a server that ignores case the client gets one name for a file, its real-case name, however the file is spelt
      when it is asked for. */
  lemma {:induction false} OneNamePerFile(cfg: Config, entries: seq<Entry>, f: string, g: string)
    requires cfg.serverNorm(cfg.absolute(f)) == cfg.serverNorm(cfg.absolute(g))
    requires cfg.realCase(cfg.absolute(f)) == cfg.realCase(cfg.absolute(g))
    ensures ToClient(cfg, entries, f) == ToClient(cfg, entries, g)
  {
  }

  /** Of several mappings that apply with their slash, the first of the list is used. */
  lemma {:induction false} FirstMappingWins(cfg: Config, paths: seq<(string, string)>, f: string, p: nat)
    requires p < |paths| && SlashEntry(cfg, paths[p]).server <= cfg.serverNorm(cfg.absolute(f))
    requires forall q :: 0 <= q < p ==> !(SlashEntry(cfg, paths[q]).server <= cfg.serverNorm(cfg.absolute(f)))
    requires |SlashEntry(cfg, paths[p]).server| <= |cfg.realCase(cfg.absolute(f))|
    ensures Separated(cfg,
                      SlashEntry(cfg, paths[p]).client
                      + cfg.realCase(cfg.absolute(f))[|SlashEntry(cfg, paths[p]).server|..],
                      ToClient(cfg, Entries(cfg, paths), f).0)
    ensures ToClient(cfg, Entries(cfg, paths), f).1
  {
    var entries := Entries(cfg, paths);
    assert forall q :: 0 <= q <= p ==> entries[q] == SlashEntry(cfg, paths[q]);
    MappedName(cfg, entries, f, p);
  }

  /** `name` as the server gets it. */
  ghost predicate ServerSeparated(cfg: Config, name: string, sent: string) {
    && |sent| == |name|
    && forall k :: 0 <= k < |name| ==> sent[k] == if name[k] == cfg.clientSep then cfg.serverSep else name[k]
  }

  lemma {:induction false} SeparatedIs(cfg: Config, name: string, sent: string)
    requires Separated(cfg, name, sent)
    ensures sent == ServerKey(cfg, name)
  {
    assert cfg.clientSep == cfg.serverSep ==> sent == name;
  }

  /** A name from the client that, with the client's separators, starts with the client prefix of a mapping, case
      permitting, and with none that is tried earlier: the server's prefix replaces it, separators are the server's, and
      the result is made absolute. */
  lemma {:induction false} MappedToServer(cfg: Config, entries: seq<Entry>, f: string, name: string, g: string, i: nat)
    requires Separated(cfg, f, name)
    requires i < |entries| && entries[i].clientNormed <= NormClient(cfg, name)
    requires forall j :: 0 <= j < i ==> !(entries[j].clientNormed <= NormClient(cfg, name))
    requires ServerSeparated(cfg, entries[i].server + name[|entries[i].clientNormed|..], g)
    ensures ToServer(cfg, entries, f) == cfg.absolute(g)
  {
    SeparatedIs(cfg, f, name);
    FindsFirst(entries, NormClient(cfg, name), i);
    var prefixed := entries[i].server + name[|entries[i].clientNormed|..];
    if cfg.clientSep != cfg.serverSep {
      assert Replace(prefixed, cfg.clientSep, cfg.serverSep) == g;
    } else {
      assert prefixed == g;
    }
  }

  /** One that matches no prefix goes to the server with the server's separators, made absolute if there is such a
      file. */
  lemma {:induction false} UnmappedToServer(cfg: Config, entries: seq<Entry>, f: string, name: string, g: string)
    requires Separated(cfg, f, name) && ServerSeparated(cfg, f, g)
    requires forall j :: 0 <= j < |entries| ==> !(entries[j].clientNormed <= NormClient(cfg, name))
    ensures ToServer(cfg, entries, f) == if cfg.onDisk(g) then cfg.absolute(g) else g
  {
    SeparatedIs(cfg, f, name);
    if cfg.clientSep != cfg.serverSep {
      assert Replace(name, cfg.clientSep, cfg.serverSep) == g;
    } else {
      assert name == g;
    }
  }

  /** What _fix_path makes of an absolute path `stem` and of `stem` with a slash at its end. */
  lemma {:induction false} FixedExactly(cfg: Config, stem: string, fixed: string, sep: char)
    requires stem != "" && |fixed| == |stem| && stem[0] != '.' && fixed[0] != '.' && !EndsInSlash(stem)
    requires forall k :: 0 <= k < |stem| ==> fixed[k] == if stem[k] == '/' then sep else stem[k]
    ensures FixPath(cfg, stem, sep, false) == FixPath(cfg, stem + "/", sep, false) == fixed
    ensures FixPath(cfg, stem + "\\", sep, false) == fixed
    ensures FixPath(cfg, stem, sep, true) == FixPath(cfg, stem + "/", sep, true) == fixed + [sep]
    ensures FixPath(cfg, stem + "\\", sep, true) == fixed + "\\"
  {
    assert (stem + "/")[..|stem|] == stem && (stem + "\\")[..|stem|] == stem;
    if sep != '/' {
      assert Replace(stem, '/', sep) == fixed;
      assert Replace(stem + "/", '/', sep) == fixed + [sep];
      assert Replace(stem + "\\", '/', sep) == fixed + "\\";
    } else {
      assert stem == fixed;
    }
  }

  /** `fixed` is `stem`, an absolute path with no slash at its end, with the separator `sep`. */
  ghost predicate Fixed(stem: string, fixed: string, sep: char) {
    && stem != "" && |fixed| == |stem| && stem[0] != '.' && fixed[0] != '.' && !EndsInSlash(stem) && !EndsInSlash(fixed)
    && forall k :: 0 <= k < |stem| ==> fixed[k] == if stem[k] == '/' then sep else stem[k]
  }

  /** The prefixes of a mapping: as configured on the client, and in the normal case of either side for comparison. With
      a slash at both ends only the version with the slash is used; otherwise both are. */
  lemma {:induction false} PrefixesOf(cfg: Config, client: string, server: string, c: string, s: string)
    requires Fixed(client, c, cfg.clientSep) && Fixed(server, s, cfg.serverSep)
    ensures SlashEntries(cfg, [(client, server)]) == SlashEntries(cfg, [(client + "/", server + "/")])
            == [Entry(c + [cfg.clientSep], NormClient(cfg, c + [cfg.clientSep]), cfg.serverNorm(s + [cfg.serverSep]))]
    ensures ShortEntries(cfg, [(client, server)]) == [Entry(c, NormClient(cfg, c), cfg.serverNorm(s))]
    ensures ShortEntries(cfg, [(client + "/", server + "/")]) == []
  {
    FixedExactly(cfg, client, c, cfg.clientSep);
    FixedExactly(cfg, server, s, cfg.serverSep);
    FixedExactly(cfg, c, c, cfg.clientSep);
    FixedExactly(cfg, s, s, cfg.serverSep);
    var slashed := (client + "/", server + "/");
    assert ForceSlash(slashed) && !ForceSlash((client, server));
    EntriesSnoc(cfg, [], (client, server));
    EntriesSnoc(cfg, [], slashed);
    assert [] + [(client, server)] == [(client, server)] && [] + [slashed] == [slashed];
  }

  /** A relative side is replaced by its real path; sides that start with a dot are relative. */
  lemma {:induction false} RelativeFixed(cfg: Config, rest: string, fixed: string, sep: char)
    requires |fixed| == |"." + rest| && !EndsInSlash("." + rest)
    requires forall k :: 0 <= k < |fixed| ==> fixed[k] == if ("." + rest)[k] == '/' then sep else ("." + rest)[k]
    ensures FixPath(cfg, "." + rest, sep, false) == cfg.realPath(fixed)
    ensures FixPath(cfg, "." + rest, sep, true) == cfg.realPath(fixed + [sep])
  {
    var path := "." + rest;
    if sep != '/' {
      assert Replace(path, '/', sep) == fixed;
      assert Replace(path + "/", '/', sep) == fixed + [sep];
    } else {
      assert path == fixed;
    }
  }
}
