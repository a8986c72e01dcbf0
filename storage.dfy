/** The filesystem as the scripts see it: a map from path to file content, where a
    file either holds parseable JSON or does not. `atomic_write` replaces one entry;
    `glob` followed by `sorted` lists the matching paths in code-point order. */
module Storage {
  import opened Json
  import opened Strings

  datatype Content = Text(value: Json) | Corrupt

  /** `Path(dir) / name` for a relative name. */
  function Join(dir: string, name: string): string {
    dir + "/" + name
  }

  lemma JoinInjective(dir: string, a: string, b: string)
    requires Join(dir, a) == Join(dir, b)
    ensures a == b
  {
    assert a == Join(dir, a)[|dir| + 1..];
    assert b == Join(dir, b)[|dir| + 1..];
  }

  /** `p.name`: the part of a path after its last "/". */
  function BaseName(path: string): string {
    if path == [] || path[|path| - 1] == '/' then []
    else BaseName(path[..|path| - 1]) + [path[|path| - 1]]
  }

  lemma {:induction false} BaseNameJoin(dir: string, name: string)
    requires '/' !in name
    ensures BaseName(Join(dir, name)) == name
    decreases |name|
  {
    var p := Join(dir, name);
    if name != [] {
      assert p[..|p| - 1] == Join(dir, name[..|name| - 1]);
      BaseNameJoin(dir, name[..|name| - 1]);
    } else {
      assert p[|p| - 1] == '/';
    }
  }

  /** `json.loads(Path(path).read_text())`; None when the file is missing or does not parse. */
  function ReadJson(files: map<string, Content>, path: string): (r: Option<Json>)
    ensures r.Some? <==> path in files && files[path].Text?
  {
    if path in files && files[path].Text? then Some(files[path].value) else None
  }

  /** Whether `path` is a file directly inside `dir` whose name matches `prefix*suffix`. */
  predicate GlobMatch(dir: string, prefix: string, suffix: string, path: string) {
    && StartsWith(path, dir + "/")
    && var name := path[|dir| + 1..];
    && '/' !in name
    && |name| >= |prefix| + |suffix|
    && StartsWith(name, prefix)
    && EndsWith(name, suffix)
  }

  function GlobSet(files: map<string, Content>, dir: string, prefix: string, suffix: string): set<string> {
    set p | p in files && GlobMatch(dir, prefix, suffix, p)
  }

  /** `sorted(Path(dir).glob(prefix + "*" + suffix))`. */
  method SortedGlob(files: map<string, Content>, dir: string, prefix: string, suffix: string)
    returns (r: seq<string>)
    ensures StrictlyAscending(r)
    ensures forall p :: p in r <==> p in files && GlobMatch(dir, prefix, suffix, p)
  {
    r := SortStrings(GlobSet(files, dir, prefix, suffix));
  }

  class FileSystem {
    var files: map<string, Content>

    constructor (initial: map<string, Content>)
      ensures files == initial
    {
      files := initial;
    }

    /** `atomic_write(path, data)`: the temporary file is renamed over `path`, so the only
        visible effect is that `path` now holds `data`. */
    method AtomicWrite(path: string, data: Json)
      modifies this
      ensures files == old(files)[path := Text(data)]
    {
      files := files[path := Text(data)];
    }
  }
}
