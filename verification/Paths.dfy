/** How an id becomes a path: it is joined, with a suffix, to a directory, and the
    file system reads the outcome.  A path is its components from the root of the
    file system, which are taken to exist and to be no links. */
module Paths {
  type Dir = seq<string>

  /** An id that is a single component of a path. */
  predicate Plain(id: string) { '/' !in id }

  // ---------------------------------------------------------------- joining

  /** The text cut at its slashes. */
  function Cut(text: string): (parts: seq<string>)
    ensures parts != [] && forall i :: 0 <= i < |parts| ==> Plain(parts[i])
  {
    if text == "" then [""]
    else
      var parts, last := Cut(text[..|text| - 1]), text[|text| - 1];
      if last == '/' then parts + [""] else parts[|parts| - 1 := parts[|parts| - 1] + [last]]
  }

  /** One component: an empty one and "." name nothing, ".." leads up. */
  function Follow(dir: Dir, part: string): Dir {
    if part == "" || part == "." then dir
    else if part == ".." then if dir == [] then [] else dir[..|dir| - 1]
    else dir + [part]
  }

  function Walk(dir: Dir, parts: seq<string>): Dir {
    if parts == [] then dir else Follow(Walk(dir, parts[..|parts| - 1]), parts[|parts| - 1])
  }

  predicate Absolute(text: string) { text != "" && text[0] == '/' }

  /** `dir.join(text)`, as the file system resolves it: an absolute text replaces
      the directory. */
  function Join(dir: Dir, text: string): Dir {
    Walk(if Absolute(text) then [] else dir, Cut(text))
  }

  // ---------------------------------------------------------------- places

  /** The entry of `dir` whose name is `stem` and a suffix. */
  datatype Place = Place(dir: Dir, stem: string)

  /** Where `id` with a suffix ends up when it is joined to `dir`. */
  function Resolve(dir: Dir, id: string): Place {
    var parts := Cut(id);
    Place(Walk(if Absolute(id) then [] else dir, parts[..|parts| - 1]), parts[|parts| - 1])
  }

  lemma {:induction false} CutExtends(a: string, b: string)
    requires Plain(b)
    ensures Cut(a + b) == Cut(a)[|Cut(a)| - 1 := Cut(a)[|Cut(a)| - 1] + b]
  {
    if b == "" {
      assert a + b == a && Cut(a)[|Cut(a)| - 1] + b == Cut(a)[|Cut(a)| - 1];
    } else {
      var n := |b| - 1;
      CutExtends(a, b[..n]);
      assert (a + b)[..|a| + n] == a + b[..n];
      assert (Cut(a)[|Cut(a)| - 1] + b[..n]) + [b[n]] == Cut(a)[|Cut(a)| - 1] + b;
    }
  }

  lemma {:induction false} CutJoins(a: string, b: string)
    ensures Cut(a + "/" + b) == Cut(a) + Cut(b)
  {
    if b == "" {
      assert (a + "/" + b)[..|a|] == a;
    } else {
      var n := |b| - 1;
      CutJoins(a, b[..n]);
      assert (a + "/" + b)[..|a| + 1 + n] == a + "/" + b[..n];
    }
  }

  lemma CutPlain(a: string)
    requires Plain(a)
    ensures Cut(a) == [a]
  {
    CutExtends("", a);
    assert "" + a == a;
  }

  /** A place is what joining the id with its suffix comes to, whatever the suffix. */
  lemma ResolveIsJoin(dir: Dir, id: string, suffix: string)
    requires suffix == ".candidate" || suffix == ".json"
    ensures Join(dir, id + suffix) == Resolve(dir, id).dir + [Resolve(dir, id).stem + suffix]
  {
    assert Plain(suffix);
    CutExtends(id, suffix);
    var parts, n := Cut(id), |Cut(id)| - 1;
    assert parts[n := parts[n] + suffix][..n] == parts[..n];
  }

  /** An id stays in its directory under its own name exactly when it holds no
      slash. */
  lemma ResolvesToItselfIff(dir: Dir, id: string)
    ensures Resolve(dir, id) == Place(dir, id) <==> Plain(id)
  {
    if Plain(id) {
      CutPlain(id);
    }
  }

  /** What stands before a slash is followed first: nothing at all leads to the root
      of the file system, "." nowhere, ".." up, and a name down. */
  lemma ResolvesThrough(dir: Dir, part: string, id: string)
    requires Plain(part) && Plain(id)
    ensures Resolve(dir, part + "/" + id)
         == Place(if part == "" then [] else if part == "." then dir
                  else if part != ".." then dir + [part] else if dir == [] then [] else dir[..|dir| - 1], id)
  {
    CutPlain(part);
    CutPlain(id);
    CutJoins(part, id);
    assert Cut(part + "/" + id) == [part, id] && [part, id][..1] == [part];
    var base := if Absolute(part + "/" + id) then [] else dir;
    assert Walk(base, [part]) == Follow(Walk(base, [part][..0]), part);
    if part == "" {
      assert (part + "/" + id)[0] == '/';
    } else {
      assert (part + "/" + id)[0] == part[0] && part[0] in part;
    }
  }

  /** "../there/id" leaves its directory for the one beside it. */
  lemma ResolvesBeside(root: Dir, here: string, there: string, id: string)
    requires Plain(there) && there !in {"", ".", ".."} && Plain(id)
    ensures Resolve(root + [here], "../" + there + "/" + id) == Place(root + [there], id)
  {
    CutPlain("..");
    CutPlain(there);
    CutPlain(id);
    CutJoins("..", there);
    CutJoins(".." + "/" + there, id);
    assert "../" + there + "/" + id == ".." + "/" + there + "/" + id;
    assert ("../" + there + "/" + id)[0] == '.';
    assert Cut("../" + there + "/" + id)[..2] == ["..", there];
    UpAndDown(root, here, there);
  }

  lemma UpAndDown(root: Dir, here: string, there: string)
    requires there !in {"", ".", ".."}
    ensures Walk(root + [here], ["..", there]) == root + [there]
  {
    var parts := ["..", there];
    assert parts[..1] == [".."] && parts[..1][..0] == [];
    assert Walk(root + [here], parts[..1]) == Follow(root + [here], "..");
    assert (root + [here])[..|root|] == root;
  }
}
