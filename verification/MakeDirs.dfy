/** The recursive mkdir of c/test_make_multiple_dir.c over an abstract file system. */
module MakeDirs {
  import opened CString

  datatype Kind = Directory | NonDirectory

  /** What there is, by name: a name has single slashes between its components and none at the end. */
  type Nodes = map<string, Kind>

  // ---------- paths ----------

  /** The name that the first `k` characters of a path stand for: runs of slashes count as one, slashes at
      the end do not count. */
  function NameAt(p: string, k: nat): (q: string)
    requires k <= |p|
    ensures |q| <= k
    ensures k > 0 && p[k - 1] != '/' ==> q != ""
  {
    if k == 0 then ""
    else if p[k - 1] == '/' then NameAt(p, k - 1)
    else NameAt(p, k - 1) + (if k > 1 && p[k - 2] == '/' then "/" else "") + [p[k - 1]]
  }

  function Name(path: string): string {
    NameAt(path, |path|)
  }

  /** The name without its last component; "" stands for the root or the working directory. */
  function Parent(p: string): (q: string)
    ensures |q| <= |p| && q == p[..|q|] && (p != "" ==> |q| < |p|)
  {
    if p == "" then "" else if p[|p| - 1] == '/' then p[..|p| - 1] else Parent(p[..|p| - 1])
  }

  predicate IsDir(nodes: Nodes, q: string) {
    q == "" || (q in nodes && nodes[q] == Directory)
  }

  /** Everything that exists lies in a directory that exists. */
  predicate Closed(nodes: Nodes) {
    "" !in nodes && forall q {:trigger Parent(q)} :: q in nodes ==> IsDir(nodes, Parent(q))
  }

  /** A path with a slash at its end can only stand for a directory. */
  predicate ExistsAt(nodes: Nodes, p: string, k: nat)
    requires k <= |p|
  {
    k > 0 && if p[k - 1] == '/' then IsDir(nodes, NameAt(p, k)) else NameAt(p, k) in nodes
  }

  predicate Exists(nodes: Nodes, path: string) {
    ExistsAt(nodes, path, |path|)
  }

  /** When mkdir() succeeds: the target must be absent and its parent an existing directory. */
  predicate CanMkdir(nodes: Nodes, q: string) {
    q != "" && q !in nodes && IsDir(nodes, Parent(q))
  }

  class FileSystem {
    var nodes: Nodes
    ghost var made: seq<string>   // the successful mkdir calls, in order

    method Access(path: string) returns (ret: int)
      ensures ret == if Exists(nodes, path) then 0 else -1
    {
      ret := if Exists(nodes, path) then 0 else -1;
    }

    method Mkdir(path: string) returns (ret: int)
      modifies this
      ensures var q := Name(path);
        && ret == (if CanMkdir(old(nodes), q) then 0 else -1)
        && (ret == 0 ==> nodes == old(nodes)[q := Directory] && made == old(made) + [q])
        && (ret != 0 ==> nodes == old(nodes) && made == old(made))
    {
      var q := Name(path);
      if !CanMkdir(nodes, q) {
        return -1;
      }
      nodes := nodes[q := Directory];
      made := made + [q];
      ret := 0;
    }
  }

  /** The program drops one trailing slash. */
  function Trim(arg: string): string
    requires arg != ""
  {
    if arg[|arg| - 1] == '/' then arg[..|arg| - 1] else arg
  }

  /** The lengths of the non-empty prefixes that end with a component. */
  predicate Cut(p: string, k: int) {
    0 < k <= |p| && (k == |p| || p[k] == '/')
  }

  /** That component is not empty. */
  predicate Named(p: string, k: int) {
    Cut(p, k) && p[k - 1] != '/'
  }

  /** The names of the prefixes of length at most `k` that do not exist, shortest first. */
  function Missing(nodes: Nodes, p: string, k: nat): seq<string>
    requires k <= |p|
  {
    if k == 0 then []
    else Missing(nodes, p, k - 1) + if Named(p, k) && NameAt(p, k) !in nodes then [NameAt(p, k)] else []
  }

  function AddDirs(nodes: Nodes, qs: seq<string>): Nodes {
    if qs == [] then nodes else AddDirs(nodes, qs[..|qs| - 1])[qs[|qs| - 1] := Directory]
  }

  /** What there is when the program has come to position `k`. */
  function MadeTo(nodes: Nodes, p: string, k: nat): Nodes
    requires k <= |p|
  {
    AddDirs(nodes, Missing(nodes, p, k))
  }

  /** Where the program cannot pass: a proper prefix that is something other than a directory, or an
      empty component behind anything that is not an existing directory. */
  predicate Blocked(nodes: Nodes, p: string, k: int) {
    Cut(p, k) &&
    if p[k - 1] == '/' then !IsDir(nodes, NameAt(p, k))
    else k < |p| && NameAt(p, k) in nodes && nodes[NameAt(p, k)] != Directory
  }

  ghost predicate CanMake(nodes: Nodes, p: string) {
    forall k :: Cut(p, k) ==> !Blocked(nodes, p, k)
  }

  /** How far the program gets: to its first obstacle behind position `k`, or to the end. */
  function Stop(nodes: Nodes, p: string, k: nat): (stop: nat)
    requires k <= |p|
    ensures k <= stop <= |p|
    ensures forall i :: k < i < stop ==> !Blocked(nodes, p, i)
    ensures (k < stop && Blocked(nodes, p, stop)) || (stop == |p| && forall i :: k < i ==> !Blocked(nodes, p, i))
    decreases |p| - k
  {
    if k == |p| then k else if Blocked(nodes, p, k + 1) then k + 1 else Stop(nodes, p, k + 1)
  }

  lemma StopIs(nodes: Nodes, p: string, k: nat)
    requires k <= |p| && forall i :: 0 < i < k ==> !Blocked(nodes, p, i)
    requires (k > 0 && Blocked(nodes, p, k)) || (k == |p| && !Blocked(nodes, p, k))
    ensures Stop(nodes, p, 0) == k
    ensures CanMake(nodes, p) <==> !Blocked(nodes, p, k)
  {
    var stop := Stop(nodes, p, 0);
    if k > 0 && Blocked(nodes, p, k) { assert Cut(p, k); }
  }

  // ---------- names of prefixes ----------

  lemma {:induction false} NameOfPrefix(p: string, i: nat, k: nat)
    requires i <= k <= |p|
    ensures NameAt(p[..k], i) == NameAt(p, i)
  {
    if i > 0 { NameOfPrefix(p, i - 1, k); }
  }

  lemma {:induction false} NameGrows(p: string, i: nat, k: nat)
    requires i < k <= |p|
    ensures |NameAt(p, i)| <= |NameAt(p, k)| && (p[k - 1] != '/' ==> |NameAt(p, i)| < |NameAt(p, k)|)
  {
    if i < k - 1 { NameGrows(p, i, k - 1); }
  }

  lemma ParentOfNext(q: string, c: char)
    requires c != '/'
    ensures Parent(q + [c]) == Parent(q) && Parent(q + "/" + [c]) == q
  {
    assert (q + [c])[..|q|] == q && (q + "/" + [c])[..|q| + 1] == q + "/" && (q + "/")[..|q|] == q;
  }

  lemma ParentStep(p: string, k: nat)
    requires 0 < k <= |p| && p[k - 1] != '/'
    ensures Parent(NameAt(p, k)) ==
      if k > 1 && p[k - 2] == '/' then NameAt(p, k - 1) else Parent(NameAt(p, k - 1))
  {
    var q := NameAt(p, k - 1);
    assert q + "" == q;
    ParentOfNext(q, p[k - 1]);
  }

  // ---------- what names are ----------

  /** No doubled slash and none at the end. */
  predicate Plain(p: string) {
    p != "" && p[|p| - 1] != '/' && forall i :: 0 < i < |p| ==> p[i] != '/' || p[i - 1] != '/'
  }

  lemma {:induction false} PlainPrefix(p: string, k: nat)
    requires k <= |p| && forall i :: 0 < i < |p| ==> p[i] != '/' || p[i - 1] != '/'
    ensures NameAt(p, k) == if k > 0 && p[k - 1] == '/' then p[..k - 1] else p[..k]
  {
    if k > 0 {
      PlainPrefix(p, k - 1);
      if p[k - 1] != '/' {
        assert p[..k] == p[..k - 1] + [p[k - 1]];
        if k > 1 && p[k - 2] == '/' { assert p[..k - 1] == p[..k - 2] + "/"; }
      }
    }
  }

  /** A plain path is its own name. */
  lemma PlainName(p: string)
    requires Plain(p)
    ensures Name(p) == p
  {
    PlainPrefix(p, |p|);
    assert p[..|p|] == p;
  }

  lemma {:induction false} SameTail(x: string, y: string, i: nat)
    requires i <= |y|
    ensures NameAt(x + "//" + y, |x| + 2 + i) == NameAt(x + "/" + y, |x| + 1 + i)
  {
    var p, q := x + "//" + y, x + "/" + y;
    if i == 0 {
      SamePrefix(p, q, |x|);
      assert p[|x|] == p[|x| + 1] == q[|x|] == '/';
    } else {
      SameTail(x, y, i - 1);
      assert p[|x| + 1 + i] == q[|x| + i] == y[i - 1];
      assert p[|x| + i] == q[|x| + i - 1];
    }
  }

  lemma SamePrefix(p: string, q: string, k: nat)
    requires k <= |p| && k <= |q| && p[..k] == q[..k]
    ensures NameAt(p, k) == NameAt(q, k)
  {
    NameOfPrefix(p, k, k);
    NameOfPrefix(q, k, k);
  }

  /** The other paths: a doubled slash counts as one, a slash at the end does not count. */
  lemma SlashesInNames(x: string, y: string)
    ensures Name(x + "//" + y) == Name(x + "/" + y)
    ensures Name(x + "/") == Name(x)
  {
    SameTail(x, y, |y|);
    SamePrefix(x + "/", x, |x|);
  }

  lemma {:induction false} ParentIs(q: string, c: string)
    requires c != "" && '/' !in c
    ensures Parent(q + "/" + c) == q && Parent(c) == ""
  {
    var n := |c| - 1;
    if n == 0 {
      ParentOfNext(q, c[0]);
      assert c[..0] == "" && [c[0]] == c;
    } else {
      ParentIs(q, c[..n]);
      assert q + "/" + c == q + "/" + c[..n] + [c[n]];
      ParentOfNext(q + "/" + c[..n], c[n]);
    }
  }

  /** A component's name lies in the directory named by what stands before it. */
  lemma {:induction false} ParentIsCut(p: string, j: nat, k: nat)
    requires j < k <= |p| && (j == 0 || p[j] == '/') && (forall i :: j < i < k ==> p[i] != '/') && p[k - 1] != '/'
    ensures Parent(NameAt(p, k)) == NameAt(p, j)
  {
    ParentStep(p, k);
    if k > 1 && p[k - 2] == '/' {
      assert j == k - 2;
    } else if k - 1 > j {
      ParentIsCut(p, j, k - 1);
    }
  }

  lemma PreviousCut(p: string, k: nat) returns (j: nat)
    requires 0 < k <= |p|
    ensures j < k && (j == 0 || Cut(p, j)) && (j > 0 ==> p[j] == '/') && forall i :: j < i < k ==> p[i] != '/'
    ensures p[k - 1] == '/' ==> j == k - 1
  {
    j := k - 1;
    while j > 0 && p[j] != '/'
      invariant j < k && (forall i :: j < i < k ==> p[i] != '/') && (p[k - 1] == '/' ==> j == k - 1)
    {
      j := j - 1;
    }
  }

  // ---------- what exists along the path, and what is made ----------

  /** In a closed file system, what lies above an existing prefix is a directory. */
  lemma {:induction false} AboveIsDir(nodes: Nodes, p: string, j: nat, k: nat)
    requires Closed(nodes) && Cut(p, k) && ExistsAt(nodes, p, k) && j < k && (j == 0 || Cut(p, j))
    ensures IsDir(nodes, NameAt(p, j))
    decreases k
  {
    var i := PreviousCut(p, k);
    if p[k - 1] != '/' { ParentIsCut(p, i, k); }
    if j < i {
      AboveIsDir(nodes, p, j, i);
    }
  }

  lemma {:induction false} NothingMissing(nodes: Nodes, p: string, j: nat, k: nat)
    requires j <= k <= |p| && forall i :: j < i <= k && Named(p, i) ==> NameAt(p, i) in nodes
    ensures Missing(nodes, p, k) == Missing(nodes, p, j)
  {
    if j < k { NothingMissing(nodes, p, j, k - 1); }
  }

  lemma {:induction false} NoCuts(nodes: Nodes, p: string, j: nat, k: nat)
    requires j <= k <= |p| && forall i :: j < i <= k ==> !Named(p, i)
    ensures Missing(nodes, p, k) == Missing(nodes, p, j)
  {
    if j < k { NoCuts(nodes, p, j, k - 1); }
  }

  lemma {:induction false} AddedNodes(nodes: Nodes, qs: seq<string>, q: string)
    ensures q in AddDirs(nodes, qs) <==> q in nodes || q in qs
    ensures q in qs ==> AddDirs(nodes, qs)[q] == Directory
    ensures q in nodes && q !in qs ==> AddDirs(nodes, qs)[q] == nodes[q]
  {
    if qs != [] {
      AddedNodes(nodes, qs[..|qs| - 1], q);
      assert qs == qs[..|qs| - 1] + [qs[|qs| - 1]];
    }
  }

  /** `q` names a prefix of length at most `k`. */
  ghost predicate Prefix(p: string, k: nat, q: string) {
    exists i {:trigger Named(p, i)} :: 0 < i <= k && Named(p, i) && NameAt(p, i) == q
  }

  lemma {:induction false} MissingIsPrefix(nodes: Nodes, p: string, k: nat, q: string)
    requires k <= |p|
    ensures q in Missing(nodes, p, k) <==> Prefix(p, k, q) && q !in nodes
  {
    if k > 0 {
      MissingIsPrefix(nodes, p, k - 1, q);
      assert Prefix(p, k, q) <==> Prefix(p, k - 1, q) || (Named(p, k) && NameAt(p, k) == q);
    }
  }

  /** What the program leaves, for any name: it exists exactly if it did before or names one of the
      prefixes passed; what was there keeps its kind, what is new is a directory. */
  lemma MadeNodes(nodes: Nodes, p: string, k: nat, q: string)
    requires k <= |p|
    ensures var after := MadeTo(nodes, p, k);
      && (q in after <==> q in nodes || Prefix(p, k, q))
      && (q in nodes ==> after[q] == nodes[q])
      && (q in after && q !in nodes ==> after[q] == Directory)
  {
    AddedNodes(nodes, Missing(nodes, p, k), q);
    MissingIsPrefix(nodes, p, k, q);
  }

  /** A prefix that is passed is a directory afterwards. */
  lemma PassedIsDir(nodes: Nodes, p: string, j: nat, k: nat)
    requires j < k <= |p| && (j == 0 || Cut(p, j)) && !Blocked(nodes, p, j)
    ensures IsDir(MadeTo(nodes, p, k), NameAt(p, j))
    ensures IsDir(MadeTo(nodes, p, j), NameAt(p, j))
  {
    MadeNodes(nodes, p, k, NameAt(p, j));
    MadeNodes(nodes, p, j, NameAt(p, j));
    if j > 0 && p[j - 1] != '/' { assert Named(p, j); }
  }

  /** The file system stays closed: every directory was made inside one that was there. */
  lemma MadeIsClosed(nodes: Nodes, p: string, k: nat)
    requires Closed(nodes) && k <= |p| && forall i :: 0 < i < k ==> !Blocked(nodes, p, i)
    ensures Closed(MadeTo(nodes, p, k))
  {
    var after := MadeTo(nodes, p, k);
    MadeNodes(nodes, p, k, "");
    forall q | q in after ensures IsDir(after, Parent(q)) {
      MadeNodes(nodes, p, k, q);
      MadeNodes(nodes, p, k, Parent(q));
      if q !in nodes {
        var i :| 0 < i <= k && Named(p, i) && NameAt(p, i) == q;
        var j := PreviousCut(p, i);
        ParentIsCut(p, j, i);
        PassedIsDir(nodes, p, j, k);
      }
    }
  }

  lemma NamesDiffer(nodes: Nodes, p: string, i: nat)
    requires Named(p, i)
    ensures NameAt(p, i) !in Missing(nodes, p, i - 1)
  {
    var q := NameAt(p, i);
    MissingIsPrefix(nodes, p, i - 1, q);
    forall j | 0 < j <= i - 1 ensures NameAt(p, j) != q { NameGrows(p, j, i); }
  }

  lemma AddOne(nodes: Nodes, qs: seq<string>, q: string)
    ensures AddDirs(nodes, qs + [q]) == AddDirs(nodes, qs)[q := Directory]
  {
    assert (qs + [q])[..|qs|] == qs;
  }

  lemma NextMissing(nodes: Nodes, p: string, from: nat, pos: nat)
    requires from < pos && Named(p, pos) && (forall k :: from < k < pos ==> p[k] != '/') && NameAt(p, pos) !in nodes
    ensures Missing(nodes, p, pos) == Missing(nodes, p, from) + [NameAt(p, pos)]
    ensures NameAt(p, pos) !in Missing(nodes, p, from)
  {
    NoCuts(nodes, p, from, pos - 1);
    NamesDiffer(nodes, p, pos);
  }

  lemma NamedNext(nodes: Nodes, p: string, from: nat, pos: nat)
    requires from < pos && Named(p, pos) && (from == 0 || Cut(p, from)) && !Blocked(nodes, p, from)
    requires (forall k :: from < k < pos ==> p[k] != '/') && NameAt(p, pos) !in nodes
    ensures var made, q := Missing(nodes, p, from), NameAt(p, pos);
      && q !in AddDirs(nodes, made) && IsDir(AddDirs(nodes, made), Parent(q))
      && Missing(nodes, p, pos) == made + [q] && AddDirs(nodes, made + [q]) == AddDirs(nodes, made)[q := Directory]
  {
    var made, q := Missing(nodes, p, from), NameAt(p, pos);
    NextMissing(nodes, p, from, pos);
    ParentIsCut(p, from, pos);
    AddedNodes(nodes, made, q);
    PassedIsDir(nodes, p, from, pos);
    AddOne(nodes, made, q);
  }

  /** When the turn of `qs[i]` comes it is absent and its parent is there. */
  predicate AtTurn(nodes: Nodes, qs: seq<string>, i: nat) {
    i < |qs| && CanMkdir(AddDirs(nodes, qs[..i]), qs[i])
  }

  lemma TurnStays(nodes: Nodes, qs: seq<string>, more: seq<string>, i: nat)
    requires AtTurn(nodes, qs, i)
    ensures AtTurn(nodes, qs + more, i)
  {
    assert (qs + more)[..i] == qs[..i];
  }

  lemma LastTurn(nodes: Nodes, p: string, k: nat)
    requires Named(p, k) && NameAt(p, k) !in nodes && forall j :: 0 < j < k ==> !Blocked(nodes, p, j)
    ensures AtTurn(nodes, Missing(nodes, p, k), |Missing(nodes, p, k - 1)|)
  {
    var j := PreviousCut(p, k);
    NamedNext(nodes, p, j, k);
    NoCuts(nodes, p, j, k - 1);
    var made, q := Missing(nodes, p, j), NameAt(p, k);
    assert (made + [q])[..|made|] == made;
  }

  /** Every directory is made when its parent is there. */
  lemma {:induction false} ParentsFirst(nodes: Nodes, p: string, k: nat, i: nat)
    requires k <= |p| && (forall j :: 0 < j < k ==> !Blocked(nodes, p, j)) && i < |Missing(nodes, p, k)|
    ensures AtTurn(nodes, Missing(nodes, p, k), i)
  {
    var earlier := Missing(nodes, p, k - 1);
    if i < |earlier| {
      ParentsFirst(nodes, p, k - 1, i);
      TurnStays(nodes, earlier, if Named(p, k) && NameAt(p, k) !in nodes then [NameAt(p, k)] else [], i);
    } else {
      LastTurn(nodes, p, k);
    }
  }

  /** The result for a plain path, in terms of its prefixes. */
  lemma PlainPaths(nodes: Nodes, p: string)
    requires Plain(p)
    ensures CanMake(nodes, p) <==>
      forall k {:trigger p[..k]} :: 0 < k < |p| && p[k] == '/' && p[..k] in nodes ==> nodes[p[..k]] == Directory
    ensures forall q :: q in MadeTo(nodes, p, |p|) <==>
      q in nodes || (q != "" && |q| <= |p| && q == p[..|q|] && (|q| == |p| || p[|q|] == '/'))
  {
    forall k | 0 < k <= |p| && Cut(p, k) ensures Named(p, k) && NameAt(p, k) == p[..k] { PlainPrefix(p, k); }
    forall k | 0 < k < |p| && p[k] == '/'
      ensures Blocked(nodes, p, k) <==> p[..k] in nodes && nodes[p[..k]] != Directory
    {
      assert Cut(p, k);
    }
    forall q ensures q in MadeTo(nodes, p, |p|) <==>
      q in nodes || (q != "" && |q| <= |p| && q == p[..|q|] && (|q| == |p| || p[|q|] == '/'))
    {
      MadeNodes(nodes, p, |p|, q);
      if q != "" && |q| <= |p| && q == p[..|q|] && (|q| == |p| || p[|q|] == '/') { assert Named(p, |q|); }
    }
  }

  /** After a success the path is a directory if and only if it was not something else before: the program
      returns 0 for a path that exists as a non-directory, too. */
  lemma DirectoryIff(nodes: Nodes, p: string)
    requires p != "" && Closed(nodes) && CanMake(nodes, p)
    ensures IsDir(MadeTo(nodes, p, |p|), Name(p)) <==> Name(p) !in nodes || nodes[Name(p)] == Directory
  {
    var n := |p|;
    assert Cut(p, n);
    MadeNodes(nodes, p, n, Name(p));
    assert p[n - 1] == '/' || Prefix(p, n, Name(p)) by { if p[n - 1] != '/' { assert Named(p, n); } }
    assert p[n - 1] == '/' ==> IsDir(nodes, Name(p)) by { assert !Blocked(nodes, p, n); }
  }

  lemma NotADirectory()
    ensures var nodes: Nodes := map["f" := NonDirectory];
      Closed(nodes) && CanMake(nodes, "f") && !IsDir(MadeTo(nodes, "f", 1), "f")
  {
  }

  /** A doubled slash behind a missing directory: "a" is made, then the program fails. */
  lemma DoubledSlash()
    ensures !CanMake(map[], "a//b") && Stop(map[], "a//b", 0) == 2 && Missing(map[], "a//b", 2) == ["a"]
    ensures CanMake(map["a" := Directory], "a//b")
  {
    var p := "a//b";
    assert NameAt(p, 1) == "a" && NameAt(p, 2) == "a";
    assert Missing(map[], p, 1) == Missing(map[], p, 0) + ["a"];
    assert Cut(p, 2) && Blocked(map[], p, 2);
    StopIs(map[], p, 2);
  }

  // ---------- the program ----------

  /** strncpy(dst, src, n) for a source that holds no '\0' before cell `n`. */
  method Strncpy(dst: array<char>, src: array<char>, n: nat)
    requires dst != src && n <= dst.Length && n <= src.Length && '\0' !in src[..n]
    modifies dst
    ensures dst[..n] == src[..n] && dst[n..] == old(dst[n..])
  {
    for i := 0 to n
      invariant dst[..i] == src[..i] && dst[n..] == old(dst[n..])
    {
      dst[i] := src[i];
    }
  }

  /** A buffer that holds a prefix of the path as a C string. */
  ghost predicate Holds(temp: array<char>, p: string, pos: nat)
    reads temp
  {
    pos <= |p| < temp.Length && temp[..pos] == p[..pos] && temp[pos] == '\0'
  }

  lemma HoldsCStr(temp: array<char>, p: string, pos: nat)
    requires Holds(temp, p, pos) && '\0' !in p
    ensures CStr(temp[..]) == p[..pos] && Name(p[..pos]) == NameAt(p, pos)
  {
    assert temp[..][..pos] == p[..pos];
    CStrIs(temp[..], pos);
    NameOfPrefix(p, pos, pos);
  }

  /** No prefix longer than `pos` exists. */
  ghost predicate NoneBeyond(nodes: Nodes, p: string, pos: nat) {
    forall k :: pos < k && Cut(p, k) ==> !ExistsAt(nodes, p, k)
  }

  lemma NoneBetween(nodes: Nodes, p: string, pos: nat, from: nat)
    requires pos < from <= |p| && NoneBeyond(nodes, p, from) && !ExistsAt(nodes, p, from)
    requires forall k :: pos < k < from ==> p[k] != '/'
    ensures NoneBeyond(nodes, p, pos)
  {
  }

  /** The longest existing prefix has length `start`. */
  ghost predicate StartsAt(nodes: Nodes, p: string, start: nat) {
    start <= |p| && (start == 0 || (Cut(p, start) && ExistsAt(nodes, p, start))) && NoneBeyond(nodes, p, start)
  }

  /** The backward scan: cuts the path until something exists or nothing is left. */
  method LongestExisting(fs: FileSystem, temp: array<char>, p: string) returns (pos: nat)
    requires '\0' !in p && Holds(temp, p, |p|)
    modifies temp
    ensures StartsAt(fs.nodes, p, pos)
  {
    pos := |p|;
    while pos > 0
      invariant Holds(temp, p, pos) && (pos == 0 || Cut(p, pos))
      invariant NoneBeyond(fs.nodes, p, pos)
    {
      HoldsCStr(temp, p, pos);
      var ret := fs.Access(CStr(temp[..]));
      if ret == 0 {
        break;
      }
      ghost var from := pos;
      while pos > 0
        invariant 0 <= pos <= from && temp[..from] == p[..from]
        invariant forall k :: pos <= k < from && 0 < k ==> p[k] != '/'
      {
        pos := pos - 1;
        assert temp[pos] == temp[..from][pos] == p[pos];
        if temp[pos] == '/' {
          break;
        }
      }
      NoneBetween(fs.nodes, p, pos, from);
      assert temp[..pos] == temp[..from][..pos];
      temp[pos] := '\0';
    }
  }

  /** The forward scan to the next slash behind `from`, or to the end. */
  method NextCut(mdirs: array<char>, p: string, from: nat) returns (pos: nat)
    requires from < |p| < mdirs.Length && mdirs[..|p|] == p
    ensures from < pos && Cut(p, pos) && forall k :: from < k < pos ==> p[k] != '/'
  {
    pos := from;
    while pos < |p|
      invariant from <= pos <= |p| && forall k :: from < k <= pos && k < |p| ==> p[k] != '/'
    {
      pos := pos + 1;
      assert pos < |p| ==> mdirs[pos] == mdirs[..|p|][pos];
      if pos < |p| && mdirs[pos] == '/' {
        break;
      }
    }
  }

  /** Copies the prefix into `temp` and makes it. */
  method MakePrefix(fs: FileSystem, mdirs: array<char>, temp: array<char>, p: string, pos: nat) returns (ret: int)
    requires mdirs != temp && '\0' !in p && 0 < pos <= |p| < mdirs.Length == temp.Length && mdirs[..|p|] == p
    modifies fs, temp
    ensures var q := NameAt(p, pos);
      && ret == (if CanMkdir(old(fs.nodes), q) then 0 else -1)
      && (ret == 0 ==> fs.nodes == old(fs.nodes)[q := Directory] && fs.made == old(fs.made) + [q])
      && (ret != 0 ==> fs.nodes == old(fs.nodes) && fs.made == old(fs.made))
  {
    assert mdirs[..pos] == p[..pos];
    Strncpy(temp, mdirs, pos);
    temp[pos] := '\0';
    HoldsCStr(temp, p, pos);
    ret := fs.Mkdir(CStr(temp[..]));
  }

  /** The longest existing prefix can only be in the way as a non-directory with something behind it. */
  lemma AtStart(nodes: Nodes, p: string, start: nat)
    requires Cut(p, start) && ExistsAt(nodes, p, start)
    ensures Named(p, start) ==> NameAt(p, start) in nodes
    ensures Blocked(nodes, p, start) ==>
      start < |p| && Named(p, start) && NameAt(p, start) in nodes && !IsDir(nodes, NameAt(p, start))
  {
  }

  /** Nothing before it is in the way or missing. */
  lemma BelowStart(nodes: Nodes, p: string, start: nat)
    requires Closed(nodes) && StartsAt(nodes, p, start)
    ensures Missing(nodes, p, start) == []
    ensures forall k :: 0 < k < start ==> !Blocked(nodes, p, k)
  {
    if start > 0 {
      AtStart(nodes, p, start);
      forall j | 0 < j < start && Cut(p, j) ensures IsDir(nodes, NameAt(p, j)) && (Named(p, j) ==> NameAt(p, j) != "") {
        AboveIsDir(nodes, p, j, start);
      }
      NothingMissing(nodes, p, 0, start);
    }
  }

  /** Nothing up to position `k` was in the way. */
  ghost predicate Passed(nodes: Nodes, p: string, start: nat, k: nat) {
    && (k == 0 || Cut(p, k)) && (forall i :: 0 < i < k ==> !Blocked(nodes, p, i))
    && (k > start ==> !Blocked(nodes, p, k))
  }

  lemma PassedAll(nodes: Nodes, p: string, start: nat)
    requires StartsAt(nodes, p, start) && Passed(nodes, p, start, |p|)
    ensures CanMake(nodes, p) && Stop(nodes, p, 0) == |p|
  {
    if start == |p| > 0 { AtStart(nodes, p, start); }
    StopIs(nodes, p, |p|);
  }

  /** Behind a non-directory mkdir fails, whether the next component is empty or not. */
  lemma BlockedStart(nodes: Nodes, p: string, from: nat, pos: nat)
    requires 0 < from < pos && Named(p, from) && Cut(p, pos) && forall k :: from < k < pos ==> p[k] != '/'
    requires var q := NameAt(p, from); q in nodes && !IsDir(nodes, q)
    ensures var q := NameAt(p, pos); q in nodes || !IsDir(nodes, Parent(q))
  {
    if p[pos - 1] != '/' { ParentIsCut(p, from, pos); }
  }

  /** An empty component behind what was just made, or just passed: mkdir fails on the same name. */
  lemma EmptyNext(nodes: Nodes, p: string, from: nat, pos: nat)
    requires from < pos && Cut(p, pos) && p[pos - 1] == '/' && (from == 0 || Cut(p, from)) && !Blocked(nodes, p, from)
    requires (forall k :: from < k < pos ==> p[k] != '/') && !IsDir(nodes, NameAt(p, pos))
    ensures Blocked(nodes, p, pos) && Missing(nodes, p, pos) == Missing(nodes, p, from)
    ensures NameAt(p, pos) in MadeTo(nodes, p, from)
  {
    assert pos == from + 1;
    MadeNodes(nodes, p, from, NameAt(p, from));
    if from > 0 { assert Named(p, from); }
  }

  /** The program ends in failure with what it has made at position `k`. */
  ghost predicate Halts(nodes: Nodes, p: string, k: nat)
    requires k <= |p|
  {
    !CanMake(nodes, p) && Missing(nodes, p, k) == Missing(nodes, p, Stop(nodes, p, 0))
  }

  lemma HaltAtStart(nodes: Nodes, p: string, start: nat, pos: nat)
    requires Closed(nodes) && StartsAt(nodes, p, start) && 0 < start < pos && Blocked(nodes, p, start)
    requires Cut(p, pos) && forall k :: start < k < pos ==> p[k] != '/'
    ensures !CanMkdir(MadeTo(nodes, p, start), NameAt(p, pos)) && Halts(nodes, p, start)
  {
    BelowStart(nodes, p, start);
    AtStart(nodes, p, start);
    BlockedStart(nodes, p, start, pos);
    StopIs(nodes, p, start);
  }

  lemma HaltAtSlash(nodes: Nodes, p: string, from: nat, pos: nat)
    requires from < pos && Cut(p, pos) && p[pos - 1] == '/' && (from == 0 || Cut(p, from)) && !Blocked(nodes, p, from)
    requires (forall k :: from < k < pos ==> p[k] != '/') && !ExistsAt(nodes, p, pos)
    requires forall i :: 0 < i < from ==> !Blocked(nodes, p, i)
    ensures !CanMkdir(MadeTo(nodes, p, from), NameAt(p, pos)) && Halts(nodes, p, from)
  {
    EmptyNext(nodes, p, from, pos);
    StopIs(nodes, p, pos);
  }

  lemma PassedNext(nodes: Nodes, p: string, start: nat, from: nat, pos: nat)
    requires Passed(nodes, p, start, from) && (from > 0 ==> !Blocked(nodes, p, from)) && start <= from < pos && Cut(p, pos)
    requires (forall k :: from < k < pos ==> p[k] != '/') && !Blocked(nodes, p, pos)
    ensures Passed(nodes, p, start, pos)
  {
  }

  /** One round of creation, from the prefix of length `from` to the next one: what mkdir will say. */
  lemma CreateNext(nodes: Nodes, p: string, start: nat, from: nat, pos: nat)
    requires Closed(nodes) && StartsAt(nodes, p, start) && start <= from < pos && Passed(nodes, p, start, from)
    requires Cut(p, pos) && forall k :: from < k < pos ==> p[k] != '/'
    ensures var q := NameAt(p, pos);
      if CanMkdir(MadeTo(nodes, p, from), q) then
        && Passed(nodes, p, start, pos)
        && Missing(nodes, p, pos) == Missing(nodes, p, from) + [q]
        && MadeTo(nodes, p, pos) == MadeTo(nodes, p, from)[q := Directory]
      else Halts(nodes, p, from)
  {
    assert !ExistsAt(nodes, p, pos);
    if from > 0 && Blocked(nodes, p, from) {
      HaltAtStart(nodes, p, from, pos);
    } else if p[pos - 1] == '/' {
      HaltAtSlash(nodes, p, from, pos);
    } else {
      NamedNext(nodes, p, from, pos);
      PassedNext(nodes, p, start, from, pos);
    }
  }

  /** One round of the forward scan: the next prefix is made, or the program halts with what it has. */
  method CreateOne(fs: FileSystem, mdirs: array<char>, temp: array<char>, p: string, from: nat,
                   ghost before: Nodes, ghost start: nat) returns (ret: int, pos: nat)
    requires mdirs != temp && Closed(before) && '\0' !in p
    requires |p| < mdirs.Length == temp.Length && mdirs[..|p|] == p
    requires StartsAt(before, p, start) && start <= from < |p| && Passed(before, p, start, from)
    requires fs.nodes == MadeTo(before, p, from)
    modifies fs, temp
    ensures from < pos <= |p|
    ensures ret == 0 ==>
      && Passed(before, p, start, pos) && fs.nodes == MadeTo(before, p, pos)
      && fs.made == old(fs.made) + [NameAt(p, pos)] && Missing(before, p, pos) == Missing(before, p, from) + [NameAt(p, pos)]
    ensures ret != 0 ==> Halts(before, p, from) && fs.nodes == old(fs.nodes) && fs.made == old(fs.made)
  {
    pos := NextCut(mdirs, p, from);
    CreateNext(before, p, start, from, pos);
    ret := MakePrefix(fs, mdirs, temp, p, pos);
  }

  /** The forward part: it makes every missing directory up to the first obstacle, parents first. */
  method CreateFrom(fs: FileSystem, mdirs: array<char>, temp: array<char>, p: string, start: nat) returns (ret: int)
    requires mdirs != temp && Closed(fs.nodes) && '\0' !in p
    requires |p| < mdirs.Length == temp.Length && mdirs[..|p|] == p
    requires StartsAt(fs.nodes, p, start)
    modifies fs, temp
    ensures ret == if CanMake(old(fs.nodes), p) then 0 else -1
    ensures var stop := Stop(old(fs.nodes), p, 0);
      fs.nodes == MadeTo(old(fs.nodes), p, stop) && fs.made == old(fs.made) + Missing(old(fs.nodes), p, stop)
  {
    ghost var before, base := fs.nodes, fs.made;
    BelowStart(before, p, start);
    var pos := start;
    while pos < |p|
      invariant start <= pos <= |p| && Passed(before, p, start, pos)
      invariant fs.nodes == MadeTo(before, p, pos) && fs.made == base + Missing(before, p, pos)
    {
      ghost var from := pos;
      var r;
      r, pos := CreateOne(fs, mdirs, temp, p, pos, before, start);
      if r != 0 {
        return -1;
      }
      assert fs.made == base + (Missing(before, p, from) + [NameAt(p, pos)]);
    }
    PassedAll(before, p, start);
    ret := 0;
  }

  /** The two buffers, without the trailing slash. */
  method CopyArgument(arg: string) returns (mdirs: array<char>, temp: array<char>, len: nat)
    requires arg != "" && '\0' !in arg
    ensures fresh(mdirs) && fresh(temp) && mdirs != temp && mdirs.Length == temp.Length == |arg| + 1
    ensures len == |Trim(arg)| <= |arg| && arg[..len] == Trim(arg)
    ensures mdirs[..len] == Trim(arg) && Holds(temp, Trim(arg), len)
  {
    len := |arg|;
    mdirs := new char[len + 1](i requires 0 <= i => if i < |arg| then arg[i] else '\0');
    temp := new char[len + 1](_ => '\0');
    assert mdirs[..len] == arg;
    if mdirs[len - 1] == '/' {
      mdirs[len - 1] := '\0';
      len := len - 1;
    }
    assert mdirs[..len] == Trim(arg);
    Strncpy(temp, mdirs, len);
    assert temp[len..][0] == '\0';
  }

  /** The program after its argument check. It returns 0 exactly if nothing stands in its way; up to the
      first obstacle everything missing is made, and nothing else changes. */
  method MakeDirs(fs: FileSystem, arg: string) returns (ret: int)
    requires arg != "" && '\0' !in arg && Closed(fs.nodes)
    modifies fs
    ensures ret == if CanMake(old(fs.nodes), Trim(arg)) then 0 else -1
    ensures var stop := Stop(old(fs.nodes), Trim(arg), 0);
      fs.nodes == MadeTo(old(fs.nodes), Trim(arg), stop) && fs.made == old(fs.made) + Missing(old(fs.nodes), Trim(arg), stop)
    ensures ret == 0 ==>
      (IsDir(fs.nodes, Name(arg)) <==> Name(arg) !in old(fs.nodes) || old(fs.nodes)[Name(arg)] == Directory)
    ensures Closed(fs.nodes)
  {
    ghost var p, before := Trim(arg), fs.nodes;
    var mdirs, temp, len := CopyArgument(arg);
    var pos := LongestExisting(fs, temp, arg[..len]);
    ret := CreateFrom(fs, mdirs, temp, arg[..len], pos);
    MadeIsClosed(before, p, Stop(before, p, 0));
    TrimKeepsName(arg);
    if ret == 0 { SuccessIff(before, p); }
  }

  /** One slash at the end makes no difference. */
  lemma TrailingSlash(p: string)
    requires p != "" && p[|p| - 1] != '/'
    ensures Trim(p) == p && Trim(p + "/") == p && Trim(p + "//") == p + "/"
  {
  }

  lemma TrimKeepsName(arg: string)
    requires arg != ""
    ensures Name(Trim(arg)) == Name(arg)
  {
    if arg[|arg| - 1] == '/' { NameOfPrefix(arg, |arg| - 1, |arg| - 1); }
  }

  lemma SuccessIff(nodes: Nodes, p: string)
    requires Closed(nodes) && CanMake(nodes, p)
    ensures IsDir(MadeTo(nodes, p, Stop(nodes, p, 0)), Name(p)) <==> Name(p) !in nodes || nodes[Name(p)] == Directory
  {
    StopIs(nodes, p, |p|);
    if p != "" { DirectoryIff(nodes, p); }
  }
}
