/** The recursive directory listing of lua/test_lfs/test_lfs.lua over a finite tree. */
module TreeLister {

  /** What `lfs.attributes` and `lfs.dir` report: for a directory all its entries, "." and ".." among
      them; for anything else its mode. */
  datatype Tree = Directory(name: string, entries: seq<Tree>) | Other(name: string, mode: string)

  const DIRECTORY := "directory"
  const ONE_SPACE := "  "

  /** What all of lfs's mode names have in common: not empty, no space in front, no colon. */
  predicate IsMode(mode: string) {
    mode != "" && mode[0] != ' ' && ':' !in mode
  }

  predicate IsDot(name: string) {
    name == "." || name == ".."
  }

  /** Names that a directory can hold. */
  predicate IsName(name: string) {
    name != "" && '/' !in name
  }

  predicate Proper(t: Tree) {
    match t
    case Directory(_, entries) => forall i :: 0 <= i < |entries| ==> IsName(entries[i].name) && Proper(entries[i])
    case Other(_, mode) => IsMode(mode) && mode != DIRECTORY
  }

  function ModeOf(t: Tree): string {
    if t.Directory? then DIRECTORY else t.mode
  }

  // ---------- path_base ----------

  function Reverse(s: string): (r: string)
    ensures |r| == |s|
  {
    if s == "" then "" else Reverse(s[1..]) + [s[0]]
  }

  /** The position of the first slash, or the length. */
  function FindSlash(s: string): (e: nat)
    ensures e <= |s|
  {
    if s == "" || s[0] == '/' then 0 else 1 + FindSlash(s[1..])
  }

  function PathBase(path: string): string {
    var p := if path != "" && path[|path| - 1] == '/' then path[..|path| - 1] else path;
    var rpath := Reverse(p);
    Reverse(rpath[..FindSlash(rpath)])
  }

  lemma {:induction false} ReverseConcat(s: string, t: string)
    ensures Reverse(s + t) == Reverse(t) + Reverse(s)
  {
    if s == "" {
      assert s + t == t;
    } else {
      assert (s + t)[1..] == s[1..] + t;
      ReverseConcat(s[1..], t);
    }
  }

  lemma {:induction false} ReverseTwice(s: string)
    ensures Reverse(Reverse(s)) == s
  {
    if s != "" {
      ReverseConcat(Reverse(s[1..]), [s[0]]);
      ReverseTwice(s[1..]);
      assert Reverse([s[0]]) == [s[0]];
    }
  }

  lemma {:induction false} ReverseKeepsSlashes(s: string)
    ensures '/' in Reverse(s) <==> '/' in s
  {
    if s != "" { ReverseKeepsSlashes(s[1..]); }
  }

  lemma {:induction false} FindsFirst(s: string, t: string)
    requires '/' !in s && (t == "" || t[0] == '/')
    ensures FindSlash(s + t) == |s|
  {
    if s == "" {
      assert s + t == t;
    } else {
      assert (s + t)[1..] == s[1..] + t;
      FindsFirst(s[1..], t);
    }
  }

  /** The base of a path built by the traversal is the entry's name, whatever the path before it. */
  lemma BaseOfChild(path: string, name: string)
    requires IsName(name)
    ensures PathBase(path + "/" + name) == name
  {
    var full := path + "/" + name;
    assert full[|full| - 1] == name[|name| - 1];
    ReverseConcat(path + "/", name);
    ReverseConcat(path, "/");
    assert Reverse("/") == "/";
    ReverseKeepsSlashes(name);
    var back := "/" + Reverse(path);
    assert Reverse(full) == Reverse(name) + back;
    FindsFirst(Reverse(name), back);
    assert Reverse(full)[..|name|] == Reverse(name);
    ReverseTwice(name);
  }

  /** The base of the path the traversal starts from: the last component, with or without a slash behind it. */
  lemma BaseOfRoot(path: string, name: string)
    requires IsName(name)
    ensures PathBase(name) == name && PathBase(name + "/") == name
    ensures PathBase(path + "/" + name + "/") == name
    ensures PathBase("/") == "" && PathBase("") == ""
  {
    BaseOfChild(path, name);
    BaseOfChild("", name);
    var full := path + "/" + name;
    assert (full + "/")[..|full|] == full && (name + "/")[..|name|] == name;
    ReverseKeepsSlashes(name);
    FindsFirst(Reverse(name), "");
    assert Reverse(name) + "" == Reverse(name) && Reverse(name)[..|name|] == Reverse(name);
    ReverseTwice(name);
  }

  // ---------- the listing ----------

  function Spaces(level: nat): (s: string)
    ensures |s| == 2 * level && forall i :: 0 <= i < |s| ==> s[i] == ' '
  {
    if level == 0 then "" else Spaces(level - 1) + ONE_SPACE
  }

  method GenLevelSpace(level: nat) returns (spaces: string)
    ensures spaces == Spaces(level)
  {
    spaces := "";
    for i := 0 to level
      invariant spaces == Spaces(i)
    {
      spaces := spaces + ONE_SPACE;
    }
  }

  function Line(level: nat, mode: string, name: string): string {
    Spaces(level) + (mode + (": " + name))
  }

  /** What is printed for a tree reached by `path`. */
  function Listing(t: Tree, path: string, level: nat): seq<string>
    decreases t, 1
  {
    [Line(level, ModeOf(t), PathBase(path))] + if t.Directory? then ListingAll(t, |t.entries|, path, level + 1) else []
  }

  /** What is printed for the first `n` entries of a directory reached by `path`. */
  function ListingAll(t: Tree, n: nat, path: string, level: nat): seq<string>
    requires t.Directory? && n <= |t.entries|
    decreases t, 0, n
  {
    if n == 0 then [] else ListingAll(t, n - 1, path, level) + ListingOf(t, n - 1, path, level)
  }

  /** What is printed for one entry: nothing for the dots. */
  function ListingOf(t: Tree, i: nat, path: string, level: nat): seq<string>
    requires t.Directory? && i < |t.entries|
    decreases t, 0, i
  {
    var e := t.entries[i];
    if IsDot(e.name) then [] else Listing(e, path + "/" + e.name, level)
  }

  lemma Regroup<T>(a: seq<T>, b: seq<T>, c: seq<T>)
    ensures a + b + c == a + (b + c)
  {
  }

  class Printer {
    var lines: seq<string>

    method Print(line: string)
      modifies this
      ensures lines == old(lines) + [line]
    {
      lines := lines + [line];
    }
  }

  method Travelfs(t: Tree, path: string, level: nat, out: Printer)
    modifies out
    ensures out.lines == old(out.lines) + Listing(t, path, level)
    decreases t
  {
    var spaces := GenLevelSpace(level);
    if t.Directory? {
      out.Print(spaces + (DIRECTORY + (": " + PathBase(path))));
      ghost var start := out.lines;
      for i := 0 to |t.entries|
        invariant out.lines == start + ListingAll(t, i, path, level + 1)
      {
        var f := t.entries[i].name;
        Regroup(start, ListingAll(t, i, path, level + 1), ListingOf(t, i, path, level + 1));
        if !IsDot(f) {
          var newPath := path + "/" + f;
          Travelfs(t.entries[i], newPath, level + 1, out);
        }
      }
      Regroup(old(out.lines), [Line(level, DIRECTORY, PathBase(path))], ListingAll(t, |t.entries|, path, level + 1));
    } else {
      out.Print(spaces + (t.mode + (": " + PathBase(path))));
    }
  }

  // ---------- reading a line back ----------

  datatype Entry = Entry(level: nat, mode: string, name: string)

  function LeadingSpaces(s: string): (n: nat)
    ensures n <= |s|
  {
    if s == "" || s[0] != ' ' then 0 else 1 + LeadingSpaces(s[1..])
  }

  function FindColon(s: string): (e: nat)
    ensures e <= |s|
  {
    if s == "" || s[0] == ':' then 0 else 1 + FindColon(s[1..])
  }

  function ReadLine(s: string): Entry {
    var n := LeadingSpaces(s);
    var rest := s[n..];
    var e := FindColon(rest);
    Entry(n / 2, rest[..e], if e + 2 <= |rest| then rest[e + 2..] else "")
  }

  lemma {:induction false} SkipsSpaces(s: string, t: string)
    requires (forall i :: 0 <= i < |s| ==> s[i] == ' ') && t != "" && t[0] != ' '
    ensures LeadingSpaces(s + t) == |s|
  {
    if s == "" {
      assert s + t == t;
    } else {
      assert (s + t)[1..] == s[1..] + t;
      SkipsSpaces(s[1..], t);
    }
  }

  lemma {:induction false} StopsAtColon(s: string, t: string)
    requires ':' !in s && t != "" && t[0] == ':'
    ensures FindColon(s + t) == |s|
  {
    if s == "" {
      assert s + t == t;
    } else {
      assert (s + t)[1..] == s[1..] + t;
      StopsAtColon(s[1..], t);
    }
  }

  lemma ReadsBack(level: nat, mode: string, name: string)
    requires IsMode(mode)
    ensures ReadLine(Line(level, mode, name)) == Entry(level, mode, name)
  {
    var body := mode + (": " + name);
    SkipsSpaces(Spaces(level), body);
    StopsAtColon(mode, ": " + name);
    assert Line(level, mode, name)[2 * level..] == body;
    assert body[..|mode|] == mode && body[|mode| + 2..] == name;
  }

  function Map<A, B>(f: A -> B, s: seq<A>): seq<B> {
    if s == [] then [] else [f(s[0])] + Map(f, s[1..])
  }

  lemma {:induction false} MapConcat<A, B>(f: A -> B, a: seq<A>, b: seq<A>)
    ensures Map(f, a + b) == Map(f, a) + Map(f, b)
  {
    if a == [] {
      assert a + b == b;
    } else {
      assert (a + b)[1..] == a[1..] + b;
      MapConcat(f, a[1..], b);
    }
  }

  function ReadAll(lines: seq<string>): seq<Entry> {
    Map(ReadLine, lines)
  }

  /** The listing as records: each node at its depth, before its children. */
  function Entries(t: Tree, name: string, level: nat): seq<Entry>
    decreases t, 1
  {
    [Entry(level, ModeOf(t), name)] + if t.Directory? then EntriesAll(t, |t.entries|, level + 1) else []
  }

  function EntriesAll(t: Tree, n: nat, level: nat): seq<Entry>
    requires t.Directory? && n <= |t.entries|
    decreases t, 0, n
  {
    if n == 0 then [] else EntriesAll(t, n - 1, level) + EntriesOf(t, n - 1, level)
  }

  function EntriesOf(t: Tree, i: nat, level: nat): seq<Entry>
    requires t.Directory? && i < |t.entries|
    decreases t, 0, i
  {
    var e := t.entries[i];
    if IsDot(e.name) then [] else Entries(e, e.name, level)
  }

  lemma ReadsHead(head: string, tail: seq<string>)
    ensures ReadAll([head] + tail) == [ReadLine(head)] + ReadAll(tail)
  {
    assert ([head] + tail)[1..] == tail;
  }

  /** Reading the printed lines back gives the records. */
  lemma {:induction false} ReadsListing(t: Tree, path: string, level: nat)
    requires Proper(t)
    ensures ReadAll(Listing(t, path, level)) == Entries(t, PathBase(path), level)
    decreases t, 1
  {
    var tail := if t.Directory? then ListingAll(t, |t.entries|, path, level + 1) else [];
    ReadsBack(level, ModeOf(t), PathBase(path));
    ReadsHead(Line(level, ModeOf(t), PathBase(path)), tail);
    if t.Directory? {
      ReadsAll(t, |t.entries|, path, level + 1);
    }
  }

  lemma {:induction false} ReadsAll(t: Tree, n: nat, path: string, level: nat)
    requires Proper(t) && t.Directory? && n <= |t.entries|
    ensures ReadAll(ListingAll(t, n, path, level)) == EntriesAll(t, n, level)
    decreases t, 0, n
  {
    if n > 0 {
      var e := t.entries[n - 1];
      ReadsAll(t, n - 1, path, level);
      MapConcat(ReadLine, ListingAll(t, n - 1, path, level), ListingOf(t, n - 1, path, level));
      if !IsDot(e.name) {
        BaseOfChild(path, e.name);
        ReadsListing(e, path + "/" + e.name, level);
      }
    }
  }

  // ---------- reading the tree back ----------

  /** What the listing shows of a tree: no dot entries. */
  function Visible(t: Tree, name: string): Tree
    decreases t, 1
  {
    if t.Directory? then Directory(name, VisibleAll(t, |t.entries|)) else Other(name, t.mode)
  }

  function VisibleAll(t: Tree, n: nat): seq<Tree>
    requires t.Directory? && n <= |t.entries|
    decreases t, 0, n
  {
    if n == 0 then [] else VisibleAll(t, n - 1) + VisibleOf(t, n - 1)
  }

  function VisibleOf(t: Tree, i: nat): seq<Tree>
    requires t.Directory? && i < |t.entries|
    decreases t, 0, i
  {
    var e := t.entries[i];
    if IsDot(e.name) then [] else [Visible(e, e.name)]
  }

  function Rebuild(e: Entry, kids: seq<Tree>): Tree {
    if e.mode == DIRECTORY then Directory(e.name, kids) else Other(e.name, e.mode)
  }

  datatype Forest = Forest(trees: seq<Tree>, rest: seq<Entry>)

  /** The trees at the front of a preorder listing whose roots are at `level`, and what follows them. */
  function ParseForest(es: seq<Entry>, level: nat): (f: Forest)
    ensures |f.rest| <= |es|
    decreases |es|
  {
    if es == [] || es[0].level != level then Forest([], es)
    else
      var kids := ParseForest(es[1..], level + 1);
      Before([Rebuild(es[0], kids.trees)], ParseForest(kids.rest, level))
  }

  /** A parse with more trees in front. */
  function Before(ts: seq<Tree>, f: Forest): Forest {
    f.(trees := ts + f.trees)
  }

  function Parse(lines: seq<string>): seq<Tree> {
    ParseForest(ReadAll(lines), 0).trees
  }

  /** Records that do not belong to a forest at `level` or deeper. */
  predicate Above(rest: seq<Entry>, level: nat) {
    rest == [] || rest[0].level < level
  }

  lemma ParsesNode(es: seq<Entry>, kids: seq<Entry>, kidTrees: seq<Tree>, level: nat, rest: seq<Entry>)
    requires es != [] && es[0].level == level && es[1..] == kids + rest && Above(rest, level + 1)
    requires ParseForest(kids + rest, level + 1) == Before(kidTrees, ParseForest(rest, level + 1))
    ensures ParseForest(es, level) == Before([Rebuild(es[0], kidTrees)], ParseForest(rest, level))
  {
    assert ParseForest(rest, level + 1) == Forest([], rest);
    assert kidTrees + [] == kidTrees;
  }

  lemma ParsesNothing(rest: seq<Entry>, level: nat)
    ensures [] + rest == rest && Before([], ParseForest(rest, level)) == ParseForest(rest, level)
  {
    assert [] + ParseForest(rest, level).trees == ParseForest(rest, level).trees;
  }

  /** Parsing a tree's records, then whatever follows, gives the tree and the parse of what follows. */
  lemma {:induction false} ParsesTree(t: Tree, name: string, level: nat, rest: seq<Entry>)
    requires Proper(t) && Above(rest, level + 1)
    ensures ParseForest(Entries(t, name, level) + rest, level) == Before([Visible(t, name)], ParseForest(rest, level))
    decreases t, 1
  {
    var es := Entries(t, name, level) + rest;
    if t.Directory? {
      var kids := EntriesAll(t, |t.entries|, level + 1);
      ParsesAll(t, |t.entries|, level + 1, rest);
      assert es[1..] == kids + rest;
      ParsesNode(es, kids, VisibleAll(t, |t.entries|), level, rest);
    } else {
      ParsesNothing(rest, level + 1);
      assert es[1..] == rest;
      ParsesNode(es, [], [], level, rest);
    }
  }

  /** The same for the first `n` entries of a directory; further entries may be what follows. */
  lemma {:induction false} ParsesAll(t: Tree, n: nat, level: nat, rest: seq<Entry>)
    requires Proper(t) && t.Directory? && n <= |t.entries| && Above(rest, level + 1)
    ensures ParseForest(EntriesAll(t, n, level) + rest, level) == Before(VisibleAll(t, n), ParseForest(rest, level))
    decreases t, 0, n
  {
    if n == 0 {
      ParsesNothing(rest, level);
    } else {
      var own, e := EntriesOf(t, n - 1, level), t.entries[n - 1];
      if IsDot(e.name) {
        ParsesNothing(rest, level);
      } else {
        ParsesTree(e, e.name, level, rest);
      }
      ParsesAll(t, n - 1, level, own + rest);
      Regroup(EntriesAll(t, n - 1, level), own, rest);
      Regroup(VisibleAll(t, n - 1), VisibleOf(t, n - 1), ParseForest(rest, level).trees);
    }
  }

  /** The listing determines the tree: every node comes back once, under its own parent, in order. */
  lemma ListingDeterminesTree(t: Tree, path: string)
    requires Proper(t)
    ensures Parse(Listing(t, path, 0)) == [Visible(t, PathBase(path))]
  {
    ReadsListing(t, path, 0);
    ParsesTree(t, PathBase(path), 0, []);
    assert Entries(t, PathBase(path), 0) + [] == Entries(t, PathBase(path), 0);
    assert [Visible(t, PathBase(path))] + [] == [Visible(t, PathBase(path))];
  }

  /** No entry at any depth is one of the two dot entries. */
  predicate NoDots(t: Tree) {
    t.Directory? ==>
      forall i :: 0 <= i < |t.entries| ==> t.entries[i].name != "." && t.entries[i].name != ".." && NoDots(t.entries[i])
  }

  lemma {:induction false} VisibleIsTree(t: Tree, name: string)
    requires NoDots(t)
    ensures Visible(t, name) == t.(name := name)
    decreases t, 1
  {
    if t.Directory? {
      VisibleIsAll(t, |t.entries|);
      assert t.entries[..|t.entries|] == t.entries;
    }
  }

  lemma {:induction false} VisibleIsAll(t: Tree, n: nat)
    requires t.Directory? && NoDots(t) && n <= |t.entries|
    ensures VisibleAll(t, n) == t.entries[..n]
    decreases t, 0, n
  {
    if n > 0 {
      VisibleIsAll(t, n - 1);
      VisibleIsTree(t.entries[n - 1], t.entries[n - 1].name);
      assert t.entries[..n] == t.entries[..n - 1] + [t.entries[n - 1]];
    }
  }

  /** So a tree given without its dot entries comes back as it is, hidden files and all. */
  lemma ListingReturnsTree(t: Tree, path: string)
    requires Proper(t) && NoDots(t)
    ensures Parse(Listing(t, path, 0)) == [t.(name := PathBase(path))]
  {
    ListingDeterminesTree(t, path);
    VisibleIsTree(t, PathBase(path));
  }

  /** The entries with other names than the two dots. */
  function Without(entries: seq<Tree>): seq<Tree> {
    if entries == [] then []
    else
      var e := entries[|entries| - 1];
      Without(entries[..|entries| - 1]) + if e.name == "." || e.name == ".." then [] else [e]
  }

  /** In any tree exactly those entries show, in order, each under its own name. */
  lemma {:induction false} VisibleEntries(t: Tree, n: nat)
    requires t.Directory? && n <= |t.entries|
    ensures |VisibleAll(t, n)| == |Without(t.entries[..n])|
    ensures forall i :: 0 <= i < |VisibleAll(t, n)| ==>
      var e := Without(t.entries[..n])[i]; VisibleAll(t, n)[i] == Visible(e, e.name)
  {
    if n > 0 {
      VisibleEntries(t, n - 1);
      assert t.entries[..n][..n - 1] == t.entries[..n - 1];
    }
  }

  lemma FileLine(path: string, name: string, mode: string)
    requires IsName(name)
    ensures Listing(Other(name, mode), path + "/" + name, 1) == ["  " + mode + ": " + name]
  {
    BaseOfChild(path, name);
    assert Spaces(0) == "" && Spaces(1) == "  ";
    assert "  " + (mode + (": " + name)) == "  " + mode + ": " + name;
  }

  lemma TwoEntries(t: Tree, path: string, level: nat)
    requires t.Directory? && |t.entries| == 2 && NoDots(t)
    ensures ListingAll(t, 2, path, level) ==
      Listing(t.entries[0], path + "/" + t.entries[0].name, level) + Listing(t.entries[1], path + "/" + t.entries[1].name, level)
  {
    assert ListingAll(t, 0, path, level) == [];
    assert ListingAll(t, 1, path, level) == ListingOf(t, 0, path, level);
  }

  /** What is printed for a directory of two files, in the characters themselves. */
  lemma ListingExample(path: string, d: string, x: Tree, y: Tree)
    requires IsName(d) && IsName(x.name) && IsName(y.name) && x.Other? && y.Other?
    requires x.name != "." && x.name != ".." && y.name != "." && y.name != ".."
    ensures Listing(Directory(d, [x, y]), path + "/" + d, 0) ==
      ["directory: " + d] + ["  " + x.mode + ": " + x.name] + ["  " + y.mode + ": " + y.name]
  {
    var t, top := Directory(d, [x, y]), path + "/" + d;
    BaseOfChild(path, d);
    FileLine(top, x.name, x.mode);
    FileLine(top, y.name, y.mode);
    TwoEntries(t, top, 1);
    assert Line(0, DIRECTORY, d) == "directory: " + d;
  }
}
