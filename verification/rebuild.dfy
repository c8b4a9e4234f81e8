/** Writing a restore list into the temporary tree. Names are as directory iterators produce them:
    each component follows a single slash. */
module Rebuild {
  import opened Text
  import opened Wire
  import opened Store

  /** What stands below the temporary directory, which itself is "". */
  type Built = map<string, File>

  /** The path of the folder that holds p. */
  function Parent(p: string): (q: string)
    ensures q <= p && (p != "" ==> q != p)
    decreases p
  {
    if p == "" then ""
    else if p[|p| - 1] == '/' then p[..|p| - 1]
    else Parent(p[..|p| - 1])
  }

  /** The owner's write and search bits: without them an ordinary user creates nothing in a folder. */
  predicate Opens(perms: int) { perms / 64 % 4 == 3 }

  /** A folder stands at p, and its own permissions, set when it was created, let entries be created in it. */
  predicate HasFolder(b: Built, p: string) { p == "" || (p in b && b[p].isDir && Opens(b[p].perms)) }

  /** create_directory or the output file stream, then the entry's metadata; None stands for the exception that ends the restore. */
  function Create(b: Built, f: File): Option<Built>
  {
    if HasFolder(b, Parent(f.name)) && (f.name in b ==> b[f.name].isDir == f.isDir) then Some(b[f.name := f]) else None
  }

  function Build(fs: seq<File>): Option<Built>
    decreases fs
  {
    if fs == [] then Some(map[]) else
      match Build(fs[..|fs| - 1])
      case Some(b) => Create(b, fs[|fs| - 1])
      case None => None
  }

  function MapOf(fs: seq<File>): Built
    decreases fs
  {
    if fs == [] then map[] else MapOf(fs[..|fs| - 1])[fs[|fs| - 1].name := fs[|fs| - 1]]
  }

  /** Every entry's folder is an entry, a folder, and open to its owner. */
  ghost predicate ParentClosed(b: Built) { forall p :: p in b ==> HasFolder(b, Parent(p)) }

  lemma {:induction false} MapOfKeys(fs: seq<File>)
    ensures forall p :: p in MapOf(fs) <==> p in Names(fs)
    ensures forall p :: p in MapOf(fs) ==> MapOf(fs)[p].name == p && MapOf(fs)[p] in fs
    decreases fs
  {
    if fs != [] {
      var n := |fs| - 1;
      MapOfKeys(fs[..n]);
      assert Names(fs) == Names(fs[..n]) + [fs[n].name];
      assert fs == fs[..n] + [fs[n]];
    }
  }

  lemma {:induction false} MapOfAt(fs: seq<File>, i: nat)
    requires i < |fs| && Sorted(Names(fs))
    ensures fs[i].name in MapOf(fs) && MapOf(fs)[fs[i].name] == fs[i]
    decreases fs
  {
    var n := |fs| - 1;
    if i < n {
      assert Names(fs[..n]) == Names(fs)[..n];
      MapOfAt(fs[..n], i);
      assert Names(fs)[i] != Names(fs)[n];
    }
  }

  /** Restore rebuild: processing the entries in name order builds exactly the listed tree if every entry's
      folder is listed too and is open to its owner, and fails otherwise. */
  lemma {:induction false} BuildExact(fs: seq<File>)
    requires Sorted(Names(fs)) && "" !in Names(fs)
    ensures Build(fs).Some? <==> ParentClosed(MapOf(fs))
    ensures Build(fs).Some? ==> Build(fs).value == MapOf(fs)
    decreases fs
  {
    if fs != [] {
      var n := |fs| - 1;
      var f, before := fs[n], MapOf(fs[..n]);
      assert Names(fs[..n]) == Names(fs)[..n];
      assert Names(fs)[n] == f.name;
      assert "" !in Names(fs[..n]) by { assert forall i :: 0 <= i < n ==> Names(fs[..n])[i] == Names(fs)[i]; }
      hide Build, MapOf, Le, Names, Parent;
      BuildExact(fs[..n]);
      BuildStep(fs);
      MapOfKeys(fs[..n]);
      forall p | p in before ensures Le(p, f.name) && p != f.name && p != "" {
        var i :| 0 <= i < n && Names(fs[..n])[i] == p;
        assert Names(fs)[i] == p;
      }
      ClosedStep(before, f);
    }
  }

  /** p stands directly in q. */
  ghost predicate Child(p: string, q: string) { exists c :: c != "" && '/' !in c && p == q + "/" + c }

  lemma {:induction false} ParentOf(q: string, c: string)
    requires c != "" && '/' !in c
    ensures Parent(q + "/" + c) == q
    decreases c
  {
    var n := |c| - 1;
    var p := q + "/" + c;
    assert p[|p| - 1] == c[n] && p[..|p| - 1] == q + "/" + c[..n];
    if n > 0 {
      ParentOf(q, c[..n]);
    } else {
      assert p[..|p| - 1] == q + "/" && (q + "/")[..|q|] == q;
    }
  }

  /** q is the temporary directory itself, or listed as a folder its owner may write to and search. */
  ghost predicate Listed(fs: seq<File>, q: string)
  {
    q == "" || exists f :: f in fs && f.name == q && f.isDir && f.perms / 0x80 % 2 == 1 && f.perms / 0x40 % 2 == 1
  }

  /** Which lists can be rebuilt: those in which every entry stands directly in the temporary directory or in a
      listed folder with the bits 0200 and 0100. What is built has exactly the listed entries. */
  lemma BuildSucceeds(fs: seq<File>)
    requires Sorted(Names(fs)) && forall f :: f in fs ==> exists q :: Child(f.name, q)
    ensures Build(fs).Some? <==> forall f, q :: f in fs && Child(f.name, q) ==> Listed(fs, q)
    ensures Build(fs).Some? ==>
              && (forall f :: f in fs ==> f.name in Build(fs).value && Build(fs).value[f.name] == f)
              && (forall p :: p in Build(fs).value ==> Build(fs).value[p] in fs && Build(fs).value[p].name == p)
  {
    hide Build, MapOf, Names, Parent, Le, Child, Listed, HasFolder, Sorted;
    NamesHere(fs);
    assert "" !in Names(fs) by {
      forall f | f in fs ensures f.name != "" { var q :| Child(f.name, q); ChildParent(f.name, q); }
    }
    BuildExact(fs);
    MapOfKeys(fs);
    var b := MapOf(fs);
    forall f | f in fs ensures f.name in b && b[f.name] == f {
      var i :| 0 <= i < |fs| && fs[i] == f;
      MapOfAt(fs, i);
    }
    ClosedIsListed(fs, b);
  }

  lemma ClosedIsListed(fs: seq<File>, b: Built)
    requires forall f :: f in fs ==> (f.name in b && b[f.name] == f) && exists q :: Child(f.name, q)
    requires forall p :: p in b ==> b[p] in fs && b[p].name == p
    ensures ParentClosed(b) <==> forall f, q :: f in fs && Child(f.name, q) ==> Listed(fs, q)
  {
    hide Child, Listed, HasFolder, Parent;
    forall f, q | f in fs && Child(f.name, q) ensures Parent(f.name) == q && (Listed(fs, q) <==> HasFolder(b, q)) {
      ChildParent(f.name, q);
      ListedIsFolder(fs, b, q);
    }
    if forall f, q :: f in fs && Child(f.name, q) ==> Listed(fs, q) {
      forall p | p in b ensures HasFolder(b, Parent(p)) {
        var f := b[p];
        assert f in fs && f.name == p;
        var q :| Child(f.name, q);
        assert Listed(fs, q) && Parent(f.name) == q;
      }
    }
  }

  lemma NamesHere(fs: seq<File>)
    ensures forall p :: p in Names(fs) <==> exists f :: f in fs && f.name == p
  {
    forall f | f in fs ensures f.name in Names(fs) {
      var i :| 0 <= i < |fs| && fs[i] == f;
      assert Names(fs)[i] == f.name;
    }
    forall p | p in Names(fs) ensures exists f :: f in fs && f.name == p {
      var i :| 0 <= i < |fs| && Names(fs)[i] == p;
      assert fs[i] in fs && fs[i].name == p;
    }
  }

  lemma ChildParent(p: string, q: string)
    requires Child(p, q)
    ensures p != "" && Parent(p) == q
  {
    hide Parent;
    var c :| c != "" && '/' !in c && p == q + "/" + c;
    ParentOf(q, c);
  }

  lemma ListedIsFolder(fs: seq<File>, b: Built, q: string)
    requires forall f :: f in fs ==> f.name in b && b[f.name] == f
    requires forall p :: p in b ==> b[p] in fs && b[p].name == p
    ensures Listed(fs, q) <==> HasFolder(b, q)
  {
    forall f | f in fs ensures Opens(f.perms) <==> f.perms / 0x80 % 2 == 1 && f.perms / 0x40 % 2 == 1 { OwnerBits(f.perms); }
  }

  lemma OwnerBits(perms: int)
    ensures Opens(perms) <==> perms / 0x80 % 2 == 1 && perms / 0x40 % 2 == 1
  {
    assert perms / 0x80 == perms / 0x40 / 2;
  }

  /** Entry j finds its folder, as the entries before it have left it, and is of the kind of every earlier entry
      of its name. */
  ghost predicate FitsAt(fs: seq<File>, j: nat)
    requires j < |fs|
  {
    HasFolder(MapOf(fs[..j]), Parent(fs[j].name)) && SameKind(fs, j)
  }

  /** Any list at all, in any order and with names twice, can be rebuilt exactly if every entry fits; then the last
      entry of each name stands. */
  lemma {:induction false} BuildAny(fs: seq<File>)
    ensures Build(fs).Some? <==> forall j :: 0 <= j < |fs| ==> FitsAt(fs, j)
    ensures Build(fs).Some? ==> Build(fs).value == MapOf(fs) && KindsKept(fs)
    decreases fs
  {
    if fs != [] {
      var n := |fs| - 1;
      var front := fs[..n];
      BuildAny(front);
      assert forall j :: 0 <= j < n ==> (FitsAt(front, j) <==> FitsAt(fs, j)) by {
        forall j | 0 <= j < n ensures FitsAt(front, j) <==> FitsAt(fs, j) { SameFit(fs, n, j); }
      }
      hide *;
      BuildStep(fs);
      assert fs == front + [fs[n]];
      if Build(front).Some? { LastFits(front, fs[n]); }
    } else {
      BuildsNothing();
    }
  }

  lemma BuildsNothing()
    ensures Build([]) == Some(MapOf([])) && KindsKept([])
  {
  }

  /** Each listed name stands, of the kind of all its entries. */
  ghost predicate KindsKept(fs: seq<File>)
  {
    forall j :: 0 <= j < |fs| ==> fs[j].name in MapOf(fs) && MapOf(fs)[fs[j].name].isDir == fs[j].isDir
  }

  lemma SameFit(fs: seq<File>, n: nat, j: nat)
    requires j < n <= |fs|
    ensures FitsAt(fs[..n], j) <==> FitsAt(fs, j)
  {
    hide MapOf, HasFolder, Parent;
    assert fs[..n][..j] == fs[..j];
  }

  lemma LastFits(front: seq<File>, f: File)
    requires Build(front) == Some(MapOf(front)) && KindsKept(front)
    ensures Create(MapOf(front), f).Some? <==> FitsAt(front + [f], |front|)
    ensures Create(MapOf(front), f).Some? ==> Create(MapOf(front), f).value == MapOf(front + [f]) && KindsKept(front + [f])
  {
    NameBefore(front, f);
    var all := front + [f];
    assert all[..|front|] == front;
    BuildStep(all);
    hide MapOf, HasFolder, Parent, Build, SameKind;
    assert Create(MapOf(front), f).Some? <==> FitsAt(all, |front|);
    hide FitsAt;
    if Create(MapOf(front), f).Some? { KindsGoOn(front, f); }
  }

  lemma KindsGoOn(front: seq<File>, f: File)
    requires KindsKept(front) && Create(MapOf(front), f).Some? && MapOf(front + [f]) == MapOf(front)[f.name := f]
    ensures KindsKept(front + [f])
  {
    hide MapOf, HasFolder, Parent;
    assert forall i :: 0 <= i < |front| ==> (front + [f])[i] == front[i];
  }

  /** Earlier entries of the same name are of the same kind. */
  ghost predicate SameKind(fs: seq<File>, j: nat)
    requires j < |fs|
  {
    forall i :: 0 <= i < j && fs[i].name == fs[j].name ==> fs[i].isDir == fs[j].isDir
  }

  lemma NameBefore(front: seq<File>, f: File)
    requires KindsKept(front)
    ensures (f.name in MapOf(front) ==> MapOf(front)[f.name].isDir == f.isDir) <==> SameKind(front + [f], |front|)
  {
    MapOfKeys(front);
    hide MapOf;
    if f.name in MapOf(front) {
      var i :| 0 <= i < |front| && Names(front)[i] == f.name;
      assert (front + [f])[i] == front[i];
    }
    assert forall i :: 0 <= i < |front| ==> (front + [f])[i] == front[i];
  }

  lemma BuildStep(fs: seq<File>)
    requires fs != []
    ensures MapOf(fs) == MapOf(fs[..|fs| - 1])[fs[|fs| - 1].name := fs[|fs| - 1]]
    ensures Build(fs) == match Build(fs[..|fs| - 1]) case Some(b) => Create(b, fs[|fs| - 1]) case None => None
  {
  }

  /** An entry that sorts last can be the folder of no other, so closure is decided entry by entry. */
  lemma ClosedStep(b: Built, f: File)
    requires f.name != "" && f.name !in b && forall p :: p in b ==> Le(p, f.name) && p != f.name && p != ""
    ensures ParentClosed(b[f.name := f]) <==> ParentClosed(b) && HasFolder(b, Parent(f.name))
  {
    var c := b[f.name := f];
    forall p | p in b ensures Parent(p) != f.name {
      PrefixLe(Parent(p), p);
      if Parent(p) == f.name { LeAntisym(p, f.name); }
    }
    if ParentClosed(c) {
      forall p | p in b ensures HasFolder(b, Parent(p)) { assert HasFolder(c, Parent(p)); }
      assert HasFolder(c, Parent(f.name));
    }
  }
}
