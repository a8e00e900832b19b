/** The recursive scanner `fileByType` of Gruntfile.js. The file system is
    input data: a tree of entries as `lstat` classifies them, each directory
    holding its entries in `readdir` order. The start path itself is
    checked with `existsSync` and listed with `readdirSync`, which both
    follow links: a root that is a link to a directory is given as that
    directory (`Dir`), and a root `NonDir(_, Symlink)` stands for a link to
    something that is not a directory. */
module Scanner {
  import opened Text

  /** What `lstat` reports for an entry that is not a directory. A symbolic
      link is reported as itself, whatever it points to. */
  datatype Kind = Regular | Symlink | Other

  /** One directory entry. `Locked` is a directory whose listing fails
      (readdir throws, for instance for lack of permission). */
  datatype Node =
    | Dir(name: string, children: seq<Node>)
    | Locked(name: string)
    | NonDir(name: string, kind: Kind)

  /** The paths handed to the callback, in call order, and whether the scan
      stopped on an exception. */
  datatype ScanResult = ScanResult(found: seq<string>, failed: bool)

  /** `path.join(dir, name)` with the platform separator `sep`. */
  function JoinPath(dir: string, name: string, sep: char): string
  {
    dir + [sep] + name
  }

  /** What a call `fileByType(path, filter, cb)` does once `path` exists and
      denotes the entry `n`: list it, then handle its entries in order. */
  function ListDir(path: string, n: Node, sep: char, filter: string -> bool): ScanResult
    decreases n, 1, 0
  {
    match n
    case Dir(_, kids) => ListPrefix(path, n, |kids|, sep, filter)
    case _ => ScanResult([], true)  // readdir of a file or of a locked directory throws
  }

  /** The loop of `fileByType` after its first `i` iterations. */
  function ListPrefix(path: string, n: Node, i: nat, sep: char, filter: string -> bool): ScanResult
    requires n.Dir? && i <= |n.children|
    decreases n, 0, i
  {
    if i == 0 then ScanResult([], false)
    else
      var before := ListPrefix(path, n, i - 1, sep, filter);
      if before.failed then before
      else
        var child := n.children[i - 1];
        var here := Visit(JoinPath(path, child.name, sep), child, sep, filter);
        ScanResult(before.found + here.found, here.failed)
  }

  /** One iteration of the loop: `lstat` the entry at `p`, recurse into a
      directory, test anything else against the filter. */
  function Visit(p: string, child: Node, sep: char, filter: string -> bool): ScanResult
    decreases child, 2, 0
  {
    if child.NonDir? then ScanResult(if filter(p) then [p] else [], false)
    else ListDir(p, child, sep, filter)
  }

  /** The whole of `fileByType(startPath, filter, cb)`; `root` is None when
      nothing exists at `startPath`, and is otherwise what `startPath`
      resolves to through links. */
  function Scan(startPath: string, root: Option<Node>, sep: char, filter: string -> bool): ScanResult
  {
    match root
    case None => ScanResult([], false)
    case Some(n) => ListDir(startPath, n, sep, filter)
  }

  // ---------------------------------------------------------------------
  // Reference definitions: the non-directory entries beneath a tree.

  function Flatten(ss: seq<seq<string>>): seq<string>
  {
    if ss == [] then [] else ss[0] + Flatten(ss[1..])
  }

  function Filter(s: seq<string>, f: string -> bool): seq<string>
  {
    if s == [] then [] else (if f(s[0]) then [s[0]] else []) + Filter(s[1..], f)
  }

  /** Every non-directory path at or beneath the entry `n` at `path`, each
      directory's entries taken in listing order. */
  function Under(path: string, n: Node, sep: char): seq<string>
    decreases n, 1
  {
    match n
    case NonDir(_, _) => [path]
    case Locked(_) => []
    case Dir(_, _) => Flatten(Subtrees(path, n, sep))
  }

  /** For each entry of the directory `n`, the paths beneath it. */
  function Subtrees(path: string, n: Node, sep: char): seq<seq<string>>
    requires n.Dir?
    decreases n, 0
  {
    seq(|n.children|, i requires 0 <= i < |n.children| =>
      Under(JoinPath(path, n.children[i].name, sep), n.children[i], sep))
  }

  /** No directory at or beneath `n` has a listing that fails. */
  predicate Readable(n: Node)
  {
    match n
    case NonDir(_, _) => true
    case Locked(_) => false
    case Dir(_, kids) => forall j :: 0 <= j < |kids| ==> Readable(kids[j])
  }

  // ---------------------------------------------------------------------
  // Lemmas on the reference definitions.

  lemma {:induction false} FlattenAppend(a: seq<seq<string>>, b: seq<seq<string>>)
    ensures Flatten(a + b) == Flatten(a) + Flatten(b)
  {
    if a == [] {
      assert a + b == b;
    } else {
      assert (a + b)[1..] == a[1..] + b;
      FlattenAppend(a[1..], b);
    }
  }

  lemma {:induction false} FilterAppend(a: seq<string>, b: seq<string>, f: string -> bool)
    ensures Filter(a + b, f) == Filter(a, f) + Filter(b, f)
  {
    if a == [] {
      assert a + b == b;
    } else {
      assert (a + b)[1..] == a[1..] + b;
      FilterAppend(a[1..], b, f);
    }
  }

  /** Filter keeps exactly the elements that pass, and nothing else. */
  lemma {:induction false} FilterMembers(s: seq<string>, f: string -> bool)
    ensures forall x :: x in Filter(s, f) <==> x in s && f(x)
  {
    if s != [] {
      FilterMembers(s[1..], f);
      assert s == [s[0]] + s[1..];
    }
  }

  lemma FlattenSnoc(ss: seq<seq<string>>, i: nat)
    requires i < |ss|
    ensures Flatten(ss[..i + 1]) == Flatten(ss[..i]) + ss[i]
  {
    assert ss[..i + 1] == ss[..i] + [ss[i]];
    FlattenAppend(ss[..i], [ss[i]]);
  }

  // ---------------------------------------------------------------------
  // The scanner against the reference.

  lemma PrefixGrow(a: seq<string>, b: seq<string>, c: seq<string>)
    requires b <= c
    ensures a + b <= a + c && a <= a + c
  {
    assert (a + c)[..|a| + |b|] == a + b;
  }

  /** After `i` iterations the callback has received the matching
      non-directory paths beneath the first `i` entries, in order, or a
      prefix of them if a listing failed; it fails exactly when one of
      those entries holds a directory it cannot list. */
  lemma {:induction false} ListPrefixAgrees(path: string, n: Node, i: nat, sep: char, f: string -> bool)
    requires n.Dir? && i <= |n.children|
    ensures var r := ListPrefix(path, n, i, sep, f);
            var all := Filter(Flatten(Subtrees(path, n, sep)[..i]), f);
            r.found <= all &&
            (!r.failed <==> forall j :: 0 <= j < i ==> Readable(n.children[j])) &&
            (!r.failed ==> r.found == all)
    decreases n, 0, i
  {
    var subs := Subtrees(path, n, sep);
    if i == 0 {
      assert subs[..0] == [];
    } else {
      ListPrefixAgrees(path, n, i - 1, sep, f);
      var before := ListPrefix(path, n, i - 1, sep, f);
      var child := n.children[i - 1];
      var p := JoinPath(path, child.name, sep);
      FlattenSnoc(subs, i - 1);
      FilterAppend(Flatten(subs[..i - 1]), subs[i - 1], f);
      var prev := Filter(Flatten(subs[..i - 1]), f);
      var mine := Filter(subs[i - 1], f);
      assert Filter(Flatten(subs[..i]), f) == prev + mine;
      if before.failed {
        PrefixGrow(prev, [], mine);
      } else {
        var here := Visit(p, child, sep, f);
        VisitAgrees(p, child, sep, f);
        assert subs[i - 1] == Under(p, child, sep);
        PrefixGrow(prev, here.found, mine);
      }
    }
  }

  lemma {:induction false} VisitAgrees(p: string, child: Node, sep: char, f: string -> bool)
    ensures var r := Visit(p, child, sep, f);
            r.found <= Filter(Under(p, child, sep), f) &&
            (!r.failed <==> Readable(child)) &&
            (!r.failed ==> r.found == Filter(Under(p, child, sep), f))
    decreases child, 2, 0
  {
    if child.NonDir? {
      assert Filter([p], f) == (if f(p) then [p] else []) + Filter([], f);
    } else {
      ListDirAgrees(p, child, sep, f);
    }
  }

  /** Listing the entry at `path` hands the callback the matching
      non-directory paths beneath it (or a prefix of them), and fails exactly
      when the entry is not a directory or holds one it cannot list. */
  lemma {:induction false} ListDirAgrees(path: string, n: Node, sep: char, f: string -> bool)
    ensures var r := ListDir(path, n, sep, f);
            r.found <= Filter(Under(path, n, sep), f) &&
            (r.failed <==> !(n.Dir? && Readable(n))) &&
            (!r.failed ==> r.found == Filter(Under(path, n, sep), f))
    decreases n, 1, 0
  {
    match n
    case Dir(_, kids) =>
      ListPrefixAgrees(path, n, |kids|, sep, f);
      assert Subtrees(path, n, sep)[..|kids|] == Subtrees(path, n, sep);
    case Locked(_) =>
    case NonDir(_, _) =>
  }

  /** A missing root makes no callback calls and does not fail; an existing
      readable root directory hands the callback each matching non-directory
      path beneath it exactly once, in depth-first listing order. */
  lemma ScanExact(startPath: string, root: Option<Node>, sep: char, f: string -> bool)
    ensures root.None? ==> Scan(startPath, root, sep, f) == ScanResult([], false)
    ensures root.Some? && root.value.Dir? && Readable(root.value) ==>
              Scan(startPath, root, sep, f) == ScanResult(Filter(Under(startPath, root.value, sep), f), false)
    ensures root.Some? && !(root.value.Dir? && Readable(root.value)) ==> Scan(startPath, root, sep, f).failed
  {
    if root.Some? {
      ListDirAgrees(startPath, root.value, sep, f);
    }
  }

  /** The callback receives a path exactly when it is a non-directory path
      beneath the root and passes the filter. */
  lemma ScanMembers(startPath: string, root: Node, sep: char, f: string -> bool)
    requires root.Dir? && Readable(root)
    ensures forall x :: x in Scan(startPath, Some(root), sep, f).found <==> x in Under(startPath, root, sep) && f(x)
  {
    ListDirAgrees(startPath, root, sep, f);
    FilterMembers(Under(startPath, root, sep), f);
  }

  /** Depth first: the matches beneath the `j`-th entry of a directory form
      one block, after every match of the earlier entries and before every
      match of the later ones. */
  lemma DepthFirst(startPath: string, name: string, kids: seq<Node>, j: nat, sep: char, f: string -> bool)
    requires j < |kids| && Readable(Dir(name, kids))
    ensures Scan(startPath, Some(Dir(name, kids)), sep, f).found ==
              Scan(startPath, Some(Dir(name, kids[..j])), sep, f).found +
              Filter(Under(JoinPath(startPath, kids[j].name, sep), kids[j], sep), f) +
              Scan(startPath, Some(Dir(name, kids[j + 1..])), sep, f).found
  {
    var lk, rk := kids[..j], kids[j + 1..];
    var whole, left, right := Dir(name, kids), Dir(name, lk), Dir(name, rk);
    assert Readable(left) && Readable(right) by {
      forall m | 0 <= m < |lk| ensures Readable(lk[m]) {
        assert lk[m] == kids[m];
      }
      forall m | 0 <= m < |rk| ensures Readable(rk[m]) {
        assert rk[m] == kids[j + 1 + m];
      }
    }
    ListDirAgrees(startPath, whole, sep, f);
    ListDirAgrees(startPath, left, sep, f);
    ListDirAgrees(startPath, right, sep, f);
    var subs := Subtrees(startPath, whole, sep);
    var mid := Under(JoinPath(startPath, kids[j].name, sep), kids[j], sep);
    assert Subtrees(startPath, left, sep) == subs[..j];
    assert Subtrees(startPath, right, sep) == subs[j + 1..];
    assert subs[j] == mid;
    assert subs == subs[..j] + [mid] + subs[j + 1..];
    FlattenAppend(subs[..j] + [mid], subs[j + 1..]);
    FlattenAppend(subs[..j], [mid]);
    assert Flatten([mid]) == mid by {
      assert Flatten([mid]) == mid + Flatten([]);
      assert mid + [] == mid;
    }
    assert Flatten(subs) == Flatten(subs[..j]) + mid + Flatten(subs[j + 1..]);
    FilterAppend(Flatten(subs[..j]) + mid, Flatten(subs[j + 1..]), f);
    FilterAppend(Flatten(subs[..j]), mid, f);
    assert Under(startPath, whole, sep) == Flatten(subs);
    assert Under(startPath, left, sep) == Flatten(subs[..j]);
    assert Under(startPath, right, sep) == Flatten(subs[j + 1..]);
    assert Scan(startPath, Some(whole), sep, f).found == Filter(Flatten(subs), f);
    assert Scan(startPath, Some(left), sep, f).found == Filter(Flatten(subs[..j]), f);
    assert Scan(startPath, Some(right), sep, f).found == Filter(Flatten(subs[j + 1..]), f);
  }

  lemma {:induction false} FlattenMember(ss: seq<seq<string>>, x: string)
    requires x in Flatten(ss)
    ensures exists i :: 0 <= i < |ss| && x in ss[i]
  {
    if x !in ss[0] {
      FlattenMember(ss[1..], x);
      var i :| 0 <= i < |ss[1..]| && x in ss[1..][i];
      assert x in ss[i + 1];
    }
  }

  lemma PrefixTrans(a: seq<char>, b: seq<char>, c: seq<char>)
    requires a <= b && b <= c
    ensures a <= c
  {
    assert c[..|a|] == c[..|b|][..|a|];
  }

  lemma PrefixMembers(a: seq<string>, b: seq<string>)
    requires a <= b
    ensures forall x :: x in a ==> x in b
  {
    forall x | x in a ensures x in b {
      var k :| 0 <= k < |a| && a[k] == x;
      assert b[k] == x;
    }
  }

  /** Every path beneath a directory starts with the directory's path and a
      separator. */
  lemma {:induction false} UnderBeneath(path: string, n: Node, sep: char)
    requires n.Dir?
    ensures forall x :: x in Under(path, n, sep) ==> path + [sep] <= x
    decreases n
  {
    var subs := Subtrees(path, n, sep);
    assert Under(path, n, sep) == Flatten(subs);
    forall x | x in Under(path, n, sep) ensures path + [sep] <= x {
      FlattenMember(subs, x);
      var i :| 0 <= i < |subs| && x in subs[i];
      var child := n.children[i];
      var q := JoinPath(path, child.name, sep);
      assert subs[i] == Under(q, child, sep);
      assert path + [sep] <= q by {
        assert q == (path + [sep]) + child.name;
      }
      if child.Dir? {
        UnderBeneath(q, child, sep);
        PrefixTrans(q, q + [sep], x);
        PrefixTrans(path + [sep], q, x);
      }
    }
  }

  /** The callback only ever receives paths beneath the start path. */
  lemma ScanBeneath(startPath: string, root: Option<Node>, sep: char, f: string -> bool)
    ensures forall x :: x in Scan(startPath, root, sep, f).found ==> startPath + [sep] <= x
  {
    if root.Some? {
      var n := root.value;
      ListDirAgrees(startPath, n, sep, f);
      if n.Dir? {
        var r := ListDir(startPath, n, sep, f);
        FilterMembers(Under(startPath, n, sep), f);
        UnderBeneath(startPath, n, sep);
        PrefixMembers(r.found, Filter(Under(startPath, n, sep), f));
      }
    }
  }

  // ---------------------------------------------------------------------
  // The scanner itself: a loop over the listing, recursing into directories.

  /** `fileByType(startPath, filter, callback)`: the callback's arguments are
      returned in call order; `failed` stands for the exception that a
      failing listing throws out of the scan. */
  method FileByType(startPath: string, root: Option<Node>, sep: char, filter: string -> bool)
    returns (found: seq<string>, failed: bool)
    ensures ScanResult(found, failed) == Scan(startPath, root, sep, filter)
  {
    if root.None? {
      return [], false;
    }
    found, failed := ListDirectory(startPath, root.value, sep, filter);
  }

  /** The body of `fileByType` once the path is known to exist. */
  method ListDirectory(path: string, n: Node, sep: char, filter: string -> bool)
    returns (found: seq<string>, failed: bool)
    ensures ScanResult(found, failed) == ListDir(path, n, sep, filter)
    decreases n
  {
    if !n.Dir? {
      return [], true;
    }
    found, failed := [], false;
    var i := 0;
    while i < |n.children|
      invariant i <= |n.children|
      invariant ListPrefix(path, n, i, sep, filter) == ScanResult(found, false)
    {
      var child := n.children[i];
      var p := JoinPath(path, child.name, sep);
      assert ListPrefix(path, n, i + 1, sep, filter).found == found + Visit(p, child, sep, filter).found;
      if child.NonDir? {
        if filter(p) {
          found := found + [p];
        }
      } else {
        var sub, subFailed := ListDirectory(p, child, sep, filter);
        found := found + sub;
        if subFailed {
          FailureStops(path, n, i + 1, |n.children|, sep, filter);
          return found, true;
        }
      }
      i := i + 1;
    }
  }

  /** Once the loop has failed, the remaining entries are not visited. */
  lemma {:induction false} FailureStops(path: string, n: Node, i: nat, k: nat, sep: char, f: string -> bool)
    requires n.Dir? && i <= k <= |n.children|
    requires ListPrefix(path, n, i, sep, f).failed
    ensures ListPrefix(path, n, k, sep, f) == ListPrefix(path, n, i, sep, f)
    decreases k - i
  {
    if i < k {
      FailureStops(path, n, i, k - 1, sep, f);
    }
  }
}
