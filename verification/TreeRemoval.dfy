/** Recursive removal of a directory, and the clearing of a directory's sub-directories. */
module TreeRemoval {

  type Path = seq<string>

  datatype Kind = Regular | Symlink(target: Path) | Directory

  type Tree = map<Path, Kind>

  /** Where the system calls fail: entries that cannot be unlinked, directories that cannot be opened,
      entries that fstatat cannot look at. */
  datatype Faults = Faults(stuck: set<Path>, sealed: set<Path>, unseen: set<Path>)

  /** Every entry but the root lies in a directory. */
  ghost predicate WellFormed(t: Tree)
  {
    forall q :: q in t && q != [] ==> q[..|q| - 1] in t && t[q[..|q| - 1]].Directory?
  }

  ghost predicate IsSealed(t: Tree, f: Faults, q: Path) { q in t && t[q].Directory? && q in f.sealed }

  /** The entry itself resists: it cannot be unlinked, or it lies in a directory at or below `top`
      that cannot be opened. */
  ghost predicate Resists(t: Tree, f: Faults, top: Path, q: Path)
  {
    q in f.stuck || exists k :: |top| <= k <= |q| && IsSealed(t, f, q[..k])
  }

  /** Something at or below the entry resists. */
  ghost predicate Survives(t: Tree, f: Faults, top: Path, q: Path)
  {
    exists r :: r in t && q <= r && Resists(t, f, top, r)
  }

  /** The tree that is left when `top` has been removed as far as possible. */
  ghost function Removed(t: Tree, f: Faults, top: Path): Tree
  {
    map q | q in t && (top <= q ==> Survives(t, f, top, q)) :: t[q]
  }

  ghost function Subtree(t: Tree, p: Path): set<Path> { set q | q in t && p <= q }

  function Children(t: Tree, p: Path): set<string>
  {
    set q | q in t && |q| == |p| + 1 && p <= q :: q[|p|]
  }

  // ----- facts about trees

  lemma {:induction false} PrefixPresent(t: Tree, q: Path, k: nat)
    requires WellFormed(t) && q in t && k <= |q|
    ensures q[..k] in t && (k < |q| ==> t[q[..k]].Directory?)
    decreases |q|
  {
    if k < |q| {
      var parent := q[..|q| - 1];
      assert parent in t;
      PrefixPresent(t, parent, k);
      assert parent[..k] == q[..k];
    } else {
      assert q[..k] == q;
    }
  }

  /** Below something that is missing or not a directory there is nothing else. */
  lemma NothingBelow(t: Tree, p: Path, q: Path)
    requires WellFormed(t) && q in t && p <= q && p != q
    ensures p in t && t[p].Directory?
  {
    PrefixPresent(t, q, |p|);
    assert q[..|p|] == p;
  }

  /** A survivor keeps its ancestors. */
  lemma SurvivorKeepsParent(t: Tree, f: Faults, top: Path, p: Path, q: Path)
    requires p <= q && Survives(t, f, top, q)
    ensures Survives(t, f, top, p)
  {
    var r :| r in t && q <= r && Resists(t, f, top, r);
    assert p <= r;
  }

  lemma RemovedWellFormed(t: Tree, f: Faults, top: Path)
    requires WellFormed(t) && top != []
    ensures WellFormed(Removed(t, f, top))
  {
    var t' := Removed(t, f, top);
    forall q | q in t' && q != [] ensures q[..|q| - 1] in t' && t'[q[..|q| - 1]].Directory? {
      var parent := q[..|q| - 1];
      if top <= parent { SurvivorKeepsParent(t, f, top, parent, q); }
    }
  }

  /** What resists below a child resists alike seen from the opened parent and in any tree that
      agrees below the child. */
  lemma ResistsAlike(t: Tree, cur: Tree, f: Faults, p: Path, c: Path, q: Path)
    requires p <= c <= q && |c| == |p| + 1 && !IsSealed(t, f, p)
    requires forall r :: c <= r ==> (r in cur <==> r in t) && (r in t ==> cur[r] == t[r])
    ensures Resists(cur, f, c, q) <==> Resists(t, f, p, q)
  {
    if q !in f.stuck {
      if Resists(cur, f, c, q) {
        var k :| |c| <= k <= |q| && IsSealed(cur, f, q[..k]);
        assert c <= q[..k];
        assert IsSealed(t, f, q[..k]);
      }
      if Resists(t, f, p, q) {
        assert q[..|p|] == p;
        var k :| |p| <= k <= |q| && IsSealed(t, f, q[..k]);
        assert c <= q[..k];
        assert IsSealed(cur, f, q[..k]);
      }
    }
  }

  lemma SurvivesAlike(t: Tree, cur: Tree, f: Faults, p: Path, c: Path, q: Path)
    requires p <= c <= q && |c| == |p| + 1 && !IsSealed(t, f, p)
    requires forall r :: c <= r ==> (r in cur <==> r in t) && (r in t ==> cur[r] == t[r])
    ensures Survives(cur, f, c, q) <==> Survives(t, f, p, q)
  {
    hide Resists;
    forall r | q <= r ensures Resists(cur, f, c, r) <==> Resists(t, f, p, r) { ResistsAlike(t, cur, f, p, c, r); }
  }

  // ----- the file system and its methods

  /** The state half-way through the listing of `p`: the subtrees of the names done are removed. */
  ghost predicate PartlyRemoved(t: Tree, cur: Tree, f: Faults, p: Path, done: set<string>)
  {
    forall q :: (q in cur <==> q in t && (p < q && q[|p|] in done ==> Survives(t, f, p, q))) && (q in cur ==> cur[q] == t[q])
  }

  lemma OneMoreRemoved(t: Tree, cur: Tree, f: Faults, p: Path, done: set<string>, n: string)
    requires PartlyRemoved(t, cur, f, p, done) && n !in done && !IsSealed(t, f, p)
    ensures PartlyRemoved(t, Removed(cur, f, p + [n]), f, p, done + {n})
    ensures forall m :: m != n ==> (p + [m] in Removed(cur, f, p + [n]) <==> p + [m] in cur)
  {
    var c := p + [n];
    var next := Removed(cur, f, c);
    forall r | c <= r ensures (r in cur <==> r in t) && (r in t ==> cur[r] == t[r]) { assert r[|p|] == n; }
    forall q ensures (q in next <==> q in t && (p < q && q[|p|] in done + {n} ==> Survives(t, f, p, q))) && (q in next ==> next[q] == t[q]) {
      assert p < q && q[|p|] == n ==> q[..|p| + 1] == c;
      if c <= q {
        assert q[|p|] == n;
        SurvivesAlike(t, cur, f, p, c, q);
      }
    }
    forall m | m != n ensures p + [m] in next <==> p + [m] in cur { assert (p + [m])[|p|] == m && c[|p|] == n; }
  }

  lemma ChildPresent(t: Tree, cur: Tree, f: Faults, p: Path, done: set<string>, n: string)
    requires PartlyRemoved(t, cur, f, p, done) && n in Children(t, p) && n !in done && p in t
    ensures p + [n] in cur && Subtree(cur, p + [n]) < Subtree(t, p)
  {
    var q :| q in t && |q| == |p| + 1 && p <= q && q[|p|] == n;
    assert q == p + [n];
    assert p in Subtree(t, p) && p !in Subtree(cur, p + [n]);
  }

  lemma ChildOnTheWay(t: Tree, p: Path, q: Path)
    requires WellFormed(t) && q in t && p < q
    ensures q[..|p| + 1] in t && q[|p|] in Children(t, p) && p < q[..|p| + 1] <= q
  {
    PrefixPresent(t, q, |p| + 1);
    assert q[..|p| + 1][|p|] == q[|p|];
  }

  /** With every child done, exactly the survivors below `p` are left. */
  lemma AllChildrenDone(t: Tree, cur: Tree, f: Faults, p: Path)
    requires WellFormed(t) && PartlyRemoved(t, cur, f, p, Children(t, p))
    ensures forall q :: (q in cur <==> q in t && (p < q ==> Survives(t, f, p, q))) && (q in cur ==> cur[q] == t[q])
  {
    hide Survives, WellFormed, Children;
    forall q | q in t && p < q ensures q[|p|] in Children(t, p) { ChildOnTheWay(t, p, q); }
  }

  lemma ChildIff(t: Tree, p: Path, n: string)
    ensures n in Children(t, p) <==> p + [n] in t
  {
    if n in Children(t, p) {
      var q :| q in t && |q| == |p| + 1 && p <= q && q[|p|] == n;
      assert q == p + [n];
    }
    if p + [n] in t { assert (p + [n])[|p|] == n; }
  }

  lemma ProperPrefix(p: Path, q: Path)
    requires p <= q && p != q
    ensures p < q
  {
    assert q[..|p|] == p && q[..|q|] == q;
  }

  lemma OpenedDoesNotResist(t: Tree, f: Faults, p: Path)
    requires !IsSealed(t, f, p) && p !in f.stuck
    ensures !Resists(t, f, p, p)
  {
    assert p[..|p|] == p;
  }

  /** A resisting entry below an opened directory leaves a child in it. */
  lemma ResisterLeavesChild(t: Tree, f: Faults, p: Path, r: Path)
    requires WellFormed(t) && !IsSealed(t, f, p) && p !in f.stuck
    requires r in t && p <= r && Resists(t, f, p, r)
    ensures p < r && p + [r[|p|]] in t && Survives(t, f, p, p + [r[|p|]])
  {
    OpenedDoesNotResist(t, f, p);
    ProperPrefix(p, r);
    var c := r[..|p| + 1];
    ChildOnTheWay(t, p, r);
    assert c == p + [r[|p|]];
    assert Survives(t, f, p, r);
    SurvivorKeepsParent(t, f, p, c, r);
  }

  /** The directory itself survives when it cannot be unlinked or a child is left. */
  lemma DirectorySurvives(t: Tree, cur: Tree, f: Faults, p: Path)
    requires WellFormed(t) && p in t && !IsSealed(t, f, p)
    requires forall q :: q in cur <==> q in t && (p < q ==> Survives(t, f, p, q))
    ensures Survives(t, f, p, p) <==> p in f.stuck || Children(cur, p) != {}
  {
    hide WellFormed, Resists, Children, IsSealed;
    if p in f.stuck { StuckResists(t, f, p); }
    if Children(cur, p) != {} {
      var n :| n in Children(cur, p);
      ChildIff(cur, p, n);
      SurvivorKeepsParent(t, f, p, p, p + [n]);
    }
    if Survives(t, f, p, p) && p !in f.stuck {
      var r :| r in t && p <= r && Resists(t, f, p, r);
      ResisterLeavesChild(t, f, p, r);
      ChildIff(cur, p, r[|p|]);
    }
  }

  lemma StuckResists(t: Tree, f: Faults, p: Path)
    requires p in t && p in f.stuck
    ensures Survives(t, f, p, p)
  {
    assert Resists(t, f, p, p);
  }

  lemma DirectoryRemoved(t: Tree, cur: Tree, f: Faults, p: Path)
    requires WellFormed(t) && p in t && !IsSealed(t, f, p)
    requires PartlyRemoved(t, cur, f, p, Children(t, p))
    ensures p in cur && cur[p] == t[p]
    ensures Removed(t, f, p) == if p in f.stuck || Children(cur, p) != {} then cur else cur - {p}
  {
    hide Survives, WellFormed, Children;
    AllChildrenDone(t, cur, f, p);
    DirectorySurvives(t, cur, f, p);
    hide PartlyRemoved;
    var left := Removed(t, f, p);
    forall q | q != p ensures (q in left <==> q in cur) && (q in left ==> left[q] == cur[q]) {
      assert p <= q <==> p < q;
    }
  }

  lemma NoChildLeft(t: Tree, cur: Tree, f: Faults, p: Path)
    requires PartlyRemoved(t, cur, f, p, Children(t, p))
    ensures Children(cur, p) == {} <==> forall n :: n in Children(t, p) ==> p + [n] !in cur
  {
    hide Children, Survives;
    if Children(cur, p) != {} {
      var n :| n in Children(cur, p);
      ChildIff(cur, p, n);
      ChildIff(t, p, n);
    }
    forall n | n in Children(t, p) ensures p + [n] in cur <==> n in Children(cur, p) { ChildIff(cur, p, n); }
  }

  /** Below an entry that is missing or no directory there is at most itself. */
  lemma OnlyItself(t: Tree, p: Path, q: Path)
    requires WellFormed(t) && q in t && p <= q && (p in t ==> !t[p].Directory?)
    ensures q == p
  {
    if p != q { NothingBelow(t, p, q); }
  }

  lemma MissingRemoved(t: Tree, f: Faults, p: Path)
    requires WellFormed(t) && p !in t
    ensures Removed(t, f, p) == t
  {
    hide Survives, WellFormed;
    forall q | q in t ensures !(p <= q) {
      if p <= q { OnlyItself(t, p, q); }
    }
  }

  lemma LeafRemoved(t: Tree, f: Faults, p: Path)
    requires WellFormed(t) && p in t && !t[p].Directory?
    ensures Children(t, p) == {}
    ensures Removed(t, f, p) == if p in f.stuck then t else t - {p}
  {
    hide WellFormed;
    forall q | q in t && p <= q ensures q == p { OnlyItself(t, p, q); }
    assert p[..|p|] == p;
    assert Resists(t, f, p, p) <==> p in f.stuck;
    assert Survives(t, f, p, p) <==> p in f.stuck;
  }

  lemma SealedRemoved(t: Tree, f: Faults, p: Path)
    requires IsSealed(t, f, p)
    ensures Removed(t, f, p) == t
  {
    forall q | q in t && p <= q ensures Survives(t, f, p, q) {
      assert q[..|p|] == p;
      assert Resists(t, f, p, q);
    }
  }

  class FileSystem {
    var entries: Tree
    const faults: Faults

    constructor (t: Tree, f: Faults)
      requires WellFormed(t)
      ensures entries == t && faults == f
    {
      entries, faults := t, f;
    }

    /** unlinkat: 0 and the entry is gone, or -1 and nothing has changed. */
    method UnlinkAt(p: Path, directory: bool) returns (rc: int)
      requires p in entries && p != [] && (directory <==> entries[p].Directory?)
      modifies `entries
      ensures rc == (if p in faults.stuck || Children(old(entries), p) != {} then -1 else 0)
      ensures entries == if rc == 0 then old(entries) - {p} else old(entries)
    {
      if p in faults.stuck || Children(entries, p) != {} { return -1; }
      entries := entries - {p};
      return 0;
    }

    /** remove_dir_at. */
    method RemoveDirAt(p: Path) returns (rc: int)
      requires WellFormed(entries) && p != []
      modifies `entries
      ensures entries == Removed(old(entries), faults, p) && WellFormed(entries)
      ensures forall q :: q in old(entries) && !(p <= q) ==> q in entries && entries[q] == old(entries)[q]
      ensures rc == 0 || rc == -1
      ensures rc == 0 <==> p in old(entries) && p !in entries
      decreases Subtree(entries, p)
    {
      hide WellFormed, PartlyRemoved, Removed, Survives, Subtree, Children;
      ghost var t := entries;
      RemovedWellFormed(t, faults, p);
      OutsideStays(t, faults, p);
      if p !in entries {
        MissingRemoved(t, faults, p);
        return -1;
      }
      if !entries[p].Directory? {
        LeafRemoved(t, faults, p);
        rc := UnlinkAt(p, false);
        return;
      }
      if p in faults.sealed {
        SealedRemoved(t, faults, p);
        return -1;
      }
      rc := 0;
      var todo := Children(entries, p);
      ghost var done: set<string> := {};
      NothingDone(t, faults, p);
      while todo != {}
        invariant WellFormed(entries) && todo !! done && todo + done == Children(t, p)
        invariant PartlyRemoved(t, entries, faults, p, done)
        invariant rc == 0 || rc == -1
        invariant rc == 0 <==> forall n :: n in done ==> p + [n] !in entries
        decreases todo
      {
        var n :| n in todo;
        ChildPresent(t, entries, faults, p, done, n);
        OneMoreRemoved(t, entries, faults, p, done, n);
        var r := RemoveDirAt(p + [n]);
        if r != 0 { rc := -1; }
        todo, done := todo - {n}, done + {n};
      }
      assert done == Children(t, p);
      DirectoryRemoved(t, entries, faults, p);
      NoChildLeft(t, entries, faults, p);
      var u := UnlinkAt(p, true);
      if u != 0 { rc := -1; }
    }

    /** clear_subdirectory. */
    method ClearSubdirectory(root: Path) returns (rc: int)
      requires WellFormed(entries)
      modifies `entries
      ensures WellFormed(entries)
      ensures entries == if Opens(old(entries), faults, root) then Cleared(old(entries), faults, root) else old(entries)
      ensures rc == 0 <==> Opens(old(entries), faults, root)
                           && forall n :: n in SeenDirectories(old(entries), faults, root) ==> root + [n] !in entries
      ensures forall n :: root + [n] in old(entries) && n !in SeenDirectories(old(entries), faults, root) ==> root + [n] in entries
    {
      hide WellFormed, PartlyRemoved, Removed, Survives, Subtree, Children, Cleared;
      ghost var t := entries;
      if root !in entries || !entries[root].Directory? || root in faults.sealed { return -1; }
      rc := 0;
      var todo := Children(entries, root);
      ghost var done: set<string> := {};
      NothingDone(t, faults, root);
      while todo != {}
        invariant WellFormed(entries) && todo !! done && todo <= Children(t, root)
        invariant SeenDirectories(t, faults, root) <= todo + done && done <= SeenDirectories(t, faults, root)
        invariant PartlyRemoved(t, entries, faults, root, done)
        invariant rc == 0 || rc == -1
        invariant rc == 0 <==> forall n :: n in done ==> root + [n] !in entries
        decreases todo
      {
        var n :| n in todo;
        ChildPresent(t, entries, faults, root, done, n);
        ChildUnchanged(t, entries, faults, root, done, n);
        if root + [n] !in faults.unseen && entries[root + [n]].Directory? {
          OneMoreRemoved(t, entries, faults, root, done, n);
          var r := RemoveDirAt(root + [n]);
          if r != 0 { rc := -1; }
          done := done + {n};
        }
        todo := todo - {n};
      }
      assert done == SeenDirectories(t, faults, root);
      ClearedIsPartlyRemoved(t, entries, faults, root);
      ClearedKeepsRest(t, faults, root);
    }
  }

  /** open with O_DIRECTORY and O_NOFOLLOW succeeds. */
  ghost predicate Opens(t: Tree, f: Faults, p: Path) { p in t && t[p].Directory? && p !in f.sealed }

  /** The sub-directories that clear_subdirectory recognises as such. */
  ghost function SeenDirectories(t: Tree, f: Faults, p: Path): set<string>
  {
    set n | n in Children(t, p) && p + [n] in t && t[p + [n]].Directory? && p + [n] !in f.unseen
  }

  /** The tree with only the recognised sub-directories of `root` removed, as far as possible. */
  ghost function Cleared(t: Tree, f: Faults, root: Path): Tree
  {
    map q | q in t && (root < q && q[|root|] in SeenDirectories(t, f, root) ==> Survives(t, f, root, q)) :: t[q]
  }

  lemma ChildUnchanged(t: Tree, cur: Tree, f: Faults, p: Path, done: set<string>, n: string)
    requires PartlyRemoved(t, cur, f, p, done) && n in Children(t, p) && n !in done && p + [n] in cur
    ensures n in SeenDirectories(t, f, p) <==> p + [n] !in f.unseen && cur[p + [n]].Directory?
  {
    hide Survives;
  }

  lemma ClearedIsPartlyRemoved(t: Tree, cur: Tree, f: Faults, p: Path)
    requires PartlyRemoved(t, cur, f, p, SeenDirectories(t, f, p))
    ensures cur == Cleared(t, f, p)
  {
    hide Survives, Children;
  }

  /** A child that is no directory, or cannot be looked at, stays. */
  lemma ClearedKeepsRest(t: Tree, f: Faults, p: Path)
    ensures forall n :: p + [n] in t && n !in SeenDirectories(t, f, p) ==> p + [n] in Cleared(t, f, p)
  {
    hide Survives, Children;
    forall n | p + [n] in t && n !in SeenDirectories(t, f, p) ensures p + [n] in Cleared(t, f, p) {
      assert (p + [n])[|p|] == n;
    }
  }

  // ----- what is kept and what is gone

  /** A node survives exactly when it resists or one of its children does, level by level. */
  lemma SurvivalIsLocal(t: Tree, f: Faults, top: Path, q: Path)
    requires WellFormed(t) && q in t && top <= q
    ensures Survives(t, f, top, q) <==>
              Resists(t, f, top, q) || exists n :: n in Children(t, q) && Survives(t, f, top, q + [n])
  {
    hide Resists, WellFormed, Children;
    if Survives(t, f, top, q) && !Resists(t, f, top, q) {
      var r :| r in t && q <= r && Resists(t, f, top, r);
      ProperPrefix(q, r);
      ChildOnTheWay(t, q, r);
      var n := r[|q|];
      assert q + [n] == r[..|q| + 1];
      assert Survives(t, f, top, r);
      SurvivorKeepsParent(t, f, top, q + [n], r);
    }
    if n :| n in Children(t, q) && Survives(t, f, top, q + [n]) {
      SurvivorKeepsParent(t, f, top, q, q + [n]);
    }
  }

  /** Removal stays inside: everything outside `top` is untouched, the targets of symbolic links included. */
  lemma OutsideStays(t: Tree, f: Faults, top: Path)
    ensures forall q :: q in t && !(top <= q) ==> q in Removed(t, f, top) && Removed(t, f, top)[q] == t[q]
  {
    hide Survives;
  }

  lemma NothingDone(t: Tree, f: Faults, p: Path)
    ensures PartlyRemoved(t, t, f, p, {})
  {
  }
}
