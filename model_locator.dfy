/**
 * The model locator of core/utils.py: `glob.glob(os.path.join(models_dir, "*.gguf"))`
 * followed by `sort()`. A directory is given by its listing of entry names;
 * a missing or unreadable directory, for which glob reports nothing, is `None`.
 */
module ModelLocator {
  import opened Wrappers
  import opened Strings
  import opened Paths
  import opened Ordering

  /**
   * A name the pattern `*.gguf` matches: glob's `*` matches any characters
   * but never a leading dot, and matching is case-sensitive.
   */
  predicate IsModelFile(name: string)
  {
    EndsWith(name, ".gguf") && name[0] != '.'
  }

  /** The path glob reports for a matching entry of `dir`. */
  function ModelPath(dir: string, name: string): string
  {
    PathJoin(GlobDir(dir), name)
  }

  /** The matching entries, as paths, in listing order. */
  function MatchingPaths(dir: string, names: seq<string>): (r: seq<string>)
    ensures forall p :: p in r <==> exists n :: n in names && IsModelFile(n) && p == ModelPath(dir, n)
    ensures |r| <= |names|
  {
    if |names| == 0 then []
    else
      var rest := MatchingPaths(dir, names[1..]);
      assert forall n :: n in names <==> n == names[0] || n in names[1..];
      if IsModelFile(names[0]) then [ModelPath(dir, names[0])] + rest else rest
  }

  /** `find_models(models_dir)`. */
  function FindModels(dir: string, listing: Option<seq<string>>): (models: seq<string>)
    ensures Sorted(models)
    ensures multiset(models) == multiset(MatchingPaths(dir, listing.GetOr([])))
    ensures |models| == |MatchingPaths(dir, listing.GetOr([]))|
    ensures listing.None? ==> models == []
  {
    SortStrings(MatchingPaths(dir, listing.GetOr([])))
  }

  /**
   * Exactly the matching entries come back: a path is returned if and only if
   * it is the directory joined with a listed name that ends in `.gguf`.
   */
  lemma FindModelsMembers(dir: string, names: seq<string>, p: string)
    ensures p in FindModels(dir, Some(names)) <==>
            exists n :: n in names && IsModelFile(n) && p == ModelPath(dir, n)
  {
    var m := MatchingPaths(dir, names);
    var r := FindModels(dir, Some(names));
    assert p in r <==> p in multiset(r);
    assert p in m <==> p in multiset(m);
  }

  /** For a directory written without a trailing slash the path is `dir + "/" + name`. */
  lemma ModelPathIsJoin(dir: string, name: string)
    requires dir != "" && !EndsWith(dir, "/")
    requires IsModelFile(name) && name[0] != '/'
    ensures ModelPath(dir, name) == dir + "/" + name
  {
    JoinRelative(dir, name);
  }

  lemma ExamplePaths()
    ensures ModelPath("dir", "b.gguf") == "dir/b.gguf"
    ensures ModelPath("dir", "a.gguf") == "dir/a.gguf"
  {
    ModelPathIsJoin("dir", "b.gguf");
    ModelPathIsJoin("dir", "a.gguf");
  }

  lemma ExampleNames()
    ensures IsModelFile("b.gguf") && IsModelFile("a.gguf") && !IsModelFile("c.txt")
  {
    assert "c.txt"[|"c.txt"| - 5..] == "c.txt";
  }

  lemma ExampleMatches()
    ensures MatchingPaths("dir", ["b.gguf", "a.gguf", "c.txt"]) == ["dir/b.gguf", "dir/a.gguf"]
  {
    var names := ["b.gguf", "a.gguf", "c.txt"];
    ExampleNames();
    assert names[1..] == ["a.gguf", "c.txt"] && names[1..][1..] == ["c.txt"];
    ExamplePaths();
    assert MatchingPaths("dir", ["c.txt"]) == [];
    assert MatchingPaths("dir", names[1..]) == ["dir/a.gguf"];
  }

  /** The two example paths first differ at `a` and `b`. */
  lemma ExampleOrder()
    ensures Sorted(["dir/a.gguf", "dir/b.gguf"])
  {
    var a, b := "dir/a.gguf", "dir/b.gguf";
    assert a[1..][1..][1..][1..] == "a.gguf" && b[1..][1..][1..][1..] == "b.gguf";
    assert LexLe("a.gguf", "b.gguf");
    assert LexLe(a, b);
  }

  /** `b.gguf`, `a.gguf`, `c.txt` yield exactly `dir/a.gguf`, `dir/b.gguf`, in that order. */
  lemma FindModelsExample()
    ensures FindModels("dir", Some(["b.gguf", "a.gguf", "c.txt"])) == ["dir/a.gguf", "dir/b.gguf"]
  {
    ExampleMatches();
    ExampleOrder();
    var expected := ["dir/a.gguf", "dir/b.gguf"];
    assert multiset(expected) == multiset(["dir/b.gguf", "dir/a.gguf"]);
    SortedPermutationUnique(FindModels("dir", Some(["b.gguf", "a.gguf", "c.txt"])), expected);
  }

  /** Hidden files are not matched, even with the right extension. */
  lemma HiddenModelSkipped()
    ensures FindModels("dir", Some([".draft.gguf"])) == []
  {
    assert !IsModelFile(".draft.gguf");
  }

  /** An empty or missing directory gives an empty list, not an error. */
  lemma NoModels(dir: string)
    ensures FindModels(dir, Some([])) == []
    ensures FindModels(dir, None) == []
  {
  }
}
