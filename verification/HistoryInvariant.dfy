/** The invariant of the history directory, and that each file operation keeps it. */
module HistoryInvariant {
  import opened HistoryFiles

  function Entries(dir: Directory): (entries: seq<Entry>)
  {
    if Manifest in dir && dir[Manifest].content.Index? then dir[Manifest].content.entries else []
  }

  function Referenced(dir: Directory): (names: set<Name>)
  {
    EntryNames(Entries(dir))
  }

  ghost predicate GoodFile(n: Name, c: Content)
  {
    match n
    case Manifest => c.Index? && ValidIndex(c.entries)
    case Attempts => c.Journal? && 0 <= Size(c) <= MAX_ATTEMPT_BYTES
    case SampleName(stamp) => c.Data? && c.sample.stamp == stamp && ValidSample(c.sample)
    case Temporary(_) => 0 <= Size(c) <= MAX_SAMPLE_BYTES
  }

  /** Every entry names an existing sample with the recorded content. */
  predicate Backed(dir: Directory, entries: seq<Entry>)
  {
    forall i :: 0 <= i < |entries| ==>
      SampleName(entries[i].id) in dir && dir[SampleName(entries[i].id)].content == Data(entries[i].digest)
  }

  predicate Staged(dir: Directory, n: Name)
  {
    n.SampleName? && n !in Referenced(dir)
  }

  /** Two names of one file: the temporary and the sample it has just been published as. */
  predicate Linked(dir: Directory)
  {
    forall a, b :: a in dir && b in dir && a != b && dir[a].inode == dir[b].inode ==>
      (a.Temporary? && Staged(dir, b)) || (b.Temporary? && Staged(dir, a))
  }

  predicate OneTemporary(dir: Directory)
  {
    forall a, b :: a in dir && b in dir && a.Temporary? && b.Temporary? ==> a == b
  }

  predicate NoTemporary(dir: Directory)
  {
    forall a :: a in dir ==> !a.Temporary?
  }

  /** Temporaries that hold bytes of their own. */
  function OwnTemporaries(dir: Directory): (names: set<Name>)
  {
    set n | n in dir && n.Temporary? && forall m :: m in dir && m != n ==> dir[m].inode != dir[n].inode
  }

  ghost predicate Bounded(dir: Directory)
  {
    && |SampleNames(dir)| <= MAX_PHYSICAL_SAMPLE_FILES
    && Sum(dir, SampleNames(dir)) <= MAX_HISTORY_BYTES + MAX_SAMPLE_BYTES
    && Sum(dir, SampleNames(dir)) + Sum(dir, OwnTemporaries(dir)) <=
       MAX_HISTORY_BYTES + MAX_SAMPLE_BYTES + MAX_MANIFEST_BYTES
  }

  ghost predicate GoodFiles(dir: Directory)
  {
    forall n :: n in dir ==> GoodFile(n, dir[n].content)
  }

  /** The part of the invariant about contents and sizes. */
  ghost predicate Sound(dir: Directory)
  {
    && GoodFiles(dir) && Bounded(dir)
    && Backed(dir, Entries(dir))
    && (Manifest !in dir ==> SampleNames(dir) == {})
  }

  ghost predicate Inv(dir: Directory)
  {
    Sound(dir) && Linked(dir) && OneTemporary(dir)
  }

  // ---- Bytes on disk ----

  function ManagedNames(dir: Directory): (names: set<Name>)
  {
    set n | n in dir && !n.Temporary?
  }

  /** Bytes of the managed files and of the temporary, each file counted once. */
  ghost function Physical(dir: Directory): (n: int)
  {
    Sum(dir, ManagedNames(dir)) + Sum(dir, OwnTemporaries(dir))
  }

  ghost function SizeAt(dir: Directory, n: Name): (size: int)
  {
    if n in dir then Size(dir[n].content) else 0
  }

  lemma SumWithout(dir: Directory, names: set<Name>, n: Name)
    requires names <= dir.Keys && (n in dir <==> n in names)
    ensures Sum(dir, names) == SizeAt(dir, n) + Sum(dir, names - {n})
  {
    if n in names {
      SumSplit(dir, names, n);
    } else {
      assert names - {n} == names;
    }
  }

  lemma ManagedSum(dir: Directory)
    ensures Sum(dir, ManagedNames(dir)) ==
            Sum(dir, SampleNames(dir)) + SizeAt(dir, Manifest) + SizeAt(dir, Attempts)
  {
    var names := ManagedNames(dir);
    SumWithout(dir, names, Manifest);
    SumWithout(dir, names - {Manifest}, Attempts);
    assert names - {Manifest} - {Attempts} == SampleNames(dir);
  }

  lemma ManifestSize(dir: Directory)
    requires GoodFiles(dir) && Manifest in dir
    ensures 0 <= Size(dir[Manifest].content) <= MAX_MANIFEST_BYTES
  {
    assert GoodFile(Manifest, dir[Manifest].content);
    IndexFits(dir[Manifest].content.entries);
  }

  /** The store never holds more than MAX_PHYSICAL_HISTORY_BYTES. */
  lemma PhysicalBound(dir: Directory)
    requires Inv(dir)
    ensures Physical(dir) <= MAX_PHYSICAL_HISTORY_BYTES
  {
    ManagedSum(dir);
    if Manifest in dir {
      ManifestSize(dir);
    }
    if Attempts in dir {
      assert GoodFile(Attempts, dir[Attempts].content);
    }
  }

  // ---- Operations ----

  lemma SameSamples(dir: Directory, d: Directory)
    requires Bounded(dir) && SampleNames(d) == SampleNames(dir) && OwnTemporaries(d) == {}
    requires forall n :: n in SampleNames(dir) ==> d[n].content == dir[n].content
    ensures Bounded(d)
  {
    SumFrame(dir, d, SampleNames(dir));
    assert Sum(d, {}) == 0;
  }

  // Deleting the temporary.

  lemma DropTemporary(dir: Directory, t: Name)
    requires Inv(dir) && t in dir && t.Temporary?
    ensures Inv(dir - {t}) && NoTemporary(dir - {t}) && Entries(dir - {t}) == Entries(dir)
    ensures SampleNames(dir - {t}) == SampleNames(dir)
  {
    DropTemporarySound(dir, t);
    DropLinked(dir, t);
  }

  lemma DropTemporarySound(dir: Directory, t: Name)
    requires Sound(dir) && OneTemporary(dir) && t in dir && t.Temporary?
    ensures Sound(dir - {t}) && Entries(dir - {t}) == Entries(dir)
    ensures SampleNames(dir - {t}) == SampleNames(dir)
  {
    var d := dir - {t};
    assert SampleNames(d) == SampleNames(dir);
    assert OwnTemporaries(d) == {};
    SameSamples(dir, d);
  }

  lemma DropLinked(dir: Directory, n: Name)
    requires Linked(dir) && OneTemporary(dir) && n in dir && !n.Manifest?
    ensures Linked(dir - {n}) && OneTemporary(dir - {n})
  {
    assert Entries(dir - {n}) == Entries(dir);
  }

  // Deleting a sample that the manifest does not name.

  lemma DropOrphan(dir: Directory, n: Name)
    requires Inv(dir) && NoTemporary(dir) && n in dir && Staged(dir, n)
    ensures Inv(dir - {n}) && NoTemporary(dir - {n}) && Entries(dir - {n}) == Entries(dir)
    ensures SampleNames(dir - {n}) == SampleNames(dir) - {n}
  {
    DropOrphanSound(dir, n);
    DropLinked(dir, n);
  }

  lemma DropOrphanBounded(dir: Directory, n: Name)
    requires GoodFiles(dir) && Bounded(dir) && NoTemporary(dir) && n in SampleNames(dir)
    ensures Bounded(dir - {n}) && SampleNames(dir - {n}) == SampleNames(dir) - {n}
  {
    var d := dir - {n};
    assert SampleNames(d) == SampleNames(dir) - {n};
    assert OwnTemporaries(d) == {} && OwnTemporaries(dir) == {};
    assert Sum(d, {}) == 0;
    SumFrame(dir, d, SampleNames(d));
    SumSplit(dir, SampleNames(dir), n);
  }

  lemma DropOrphanSound(dir: Directory, n: Name)
    requires Sound(dir) && NoTemporary(dir) && n in dir && Staged(dir, n)
    ensures Sound(dir - {n}) && Entries(dir - {n}) == Entries(dir)
    ensures SampleNames(dir - {n}) == SampleNames(dir) - {n}
  {
    DropOrphanBounded(dir, n);
  }

  // Creating and rewriting a temporary.

  /** `t` is the only temporary and shares its file with no other name. */
  predicate OnlyTemporary(dir: Directory, t: Name)
  {
    && t in dir && t.Temporary?
    && (forall n :: n in dir && n != t ==> !n.Temporary? && dir[n].inode != dir[t].inode)
    && (forall a, b :: a in dir && b in dir && a != b ==> dir[a].inode != dir[b].inode)
  }

  /** A temporary with a fresh file; it must fit beside the samples. */
  lemma AddTemporary(dir: Directory, t: Name, f: File)
    requires Inv(dir) && t.Temporary? && (NoTemporary(dir) || OnlyTemporary(dir, t))
    requires forall n :: n in dir && n != t ==> dir[n].inode != f.inode
    requires 0 <= Size(f.content) <= MAX_SAMPLE_BYTES
    requires Sum(dir, SampleNames(dir)) + Size(f.content) <= MAX_HISTORY_BYTES + MAX_SAMPLE_BYTES + MAX_MANIFEST_BYTES
    ensures Inv(dir[t := f]) && Entries(dir[t := f]) == Entries(dir) && OnlyTemporary(dir[t := f], t)
    ensures SampleNames(dir[t := f]) == SampleNames(dir)
    ensures Sum(dir[t := f], SampleNames(dir)) == Sum(dir, SampleNames(dir))
  {
    var d := dir[t := f];
    assert OnlyTemporary(d, t);
    AddTemporarySound(dir, t, f);
  }

  lemma AddTemporarySound(dir: Directory, t: Name, f: File)
    requires Sound(dir) && t.Temporary? && OwnTemporaries(dir[t := f]) == {t}
    requires 0 <= Size(f.content) <= MAX_SAMPLE_BYTES
    requires Sum(dir, SampleNames(dir)) + Size(f.content) <= MAX_HISTORY_BYTES + MAX_SAMPLE_BYTES + MAX_MANIFEST_BYTES
    ensures Sound(dir[t := f]) && Entries(dir[t := f]) == Entries(dir)
    ensures SampleNames(dir[t := f]) == SampleNames(dir)
    ensures Sum(dir[t := f], SampleNames(dir)) == Sum(dir, SampleNames(dir))
  {
    var d := dir[t := f];
    assert SampleNames(d) == SampleNames(dir);
    SumFrame(dir, d, SampleNames(dir));
    SumSplit(d, {t}, t);
    assert {t} - {t} == {};
  }

  // Publishing a sample that is not there yet under its immutable name.

  lemma LinkSample(dir: Directory, t: Name, s: Sample)
    requires Inv(dir) && OnlyTemporary(dir, t) && dir[t].content == Data(s) && ValidSample(s)
    requires SampleName(s.stamp) !in dir && SampleNames(dir) == Referenced(dir) && Manifest in dir
    ensures Inv(dir[SampleName(s.stamp) := dir[t]])
    ensures Entries(dir[SampleName(s.stamp) := dir[t]]) == Entries(dir)
    ensures SampleNames(dir[SampleName(s.stamp) := dir[t]]) == SampleNames(dir) + {SampleName(s.stamp)}
  {
    hide Bounded, Linked, Sum, EntryNames;
    var n := SampleName(s.stamp);
    assert Entries(dir[n := dir[t]]) == Entries(dir);
    LinkBounded(dir, t, n, s);
    LinkedAfterLink(dir, t, n);
  }

  lemma LinkBounded(dir: Directory, t: Name, n: Name, s: Sample)
    requires Sound(dir) && t in dir && t.Temporary? && dir[t].content == Data(s) && ValidSample(s)
    requires forall m :: m in dir && m.Temporary? ==> m == t
    requires n.SampleName? && n !in dir && SampleNames(dir) == Referenced(dir)
    ensures Bounded(dir[n := dir[t]]) && SampleNames(dir[n := dir[t]]) == SampleNames(dir) + {n}
  {
    var d := dir[n := dir[t]];
    assert SampleNames(d) == SampleNames(dir) + {n};
    assert Sum(d, SampleNames(d)) <= MAX_HISTORY_BYTES + MAX_SAMPLE_BYTES by {
      ReferencedSum(dir);
      SumFrame(dir, d, SampleNames(dir));
      SumSplit(d, SampleNames(d), n);
      assert SampleNames(d) - {n} == SampleNames(dir);
    }
    assert |SampleNames(d)| <= MAX_PHYSICAL_SAMPLE_FILES by {
      ReferencedSum(dir);
    }
    assert OwnTemporaries(d) == {};
    assert Sum(d, {}) == 0;
  }

  lemma LinkedAfterLink(dir: Directory, t: Name, n: Name)
    requires OnlyTemporary(dir, t) && n.SampleName? && n !in dir && n !in Referenced(dir)
    ensures Linked(dir[n := dir[t]]) && OneTemporary(dir[n := dir[t]])
  {
    assert Entries(dir[n := dir[t]]) == Entries(dir);
  }

  lemma ReferencedSum(dir: Directory)
    requires Sound(dir)
    ensures Referenced(dir) <= SampleNames(dir)
    ensures Sum(dir, Referenced(dir)) == TotalBytes(Entries(dir))
    ensures |Referenced(dir)| == |Entries(dir)|
    ensures Sum(dir, Referenced(dir)) <= MAX_HISTORY_BYTES && |Referenced(dir)| <= MAX_SAMPLES
  {
    var entries := Entries(dir);
    EntryNamesSum(dir, entries);
  }

  // Replacing a metadata file by the temporary that was written for it.

  function Replaced(dir: Directory, t: Name, target: Name): (d: Directory)
    requires t in dir
  {
    (dir - {t})[target := dir[t]]
  }

  lemma ReplaceJournal(dir: Directory, t: Name)
    requires Inv(dir) && OnlyTemporary(dir, t) && dir[t].content.Journal?
    requires Size(dir[t].content) <= MAX_ATTEMPT_BYTES
    ensures var d := Replaced(dir, t, Attempts);
      Inv(d) && NoTemporary(d) && Entries(d) == Entries(dir) && SampleNames(d) == SampleNames(dir)
  {
    ReplaceJournalSound(dir, t);
  }

  lemma ReplaceJournalSound(dir: Directory, t: Name)
    requires Sound(dir) && t in dir && t.Temporary? && dir[t].content.Journal?
    requires Size(dir[t].content) <= MAX_ATTEMPT_BYTES && OwnTemporaries(Replaced(dir, t, Attempts)) == {}
    ensures var d := Replaced(dir, t, Attempts);
      Sound(d) && Entries(d) == Entries(dir) && SampleNames(d) == SampleNames(dir)
  {
    var d := Replaced(dir, t, Attempts);
    assert SampleNames(d) == SampleNames(dir);
    assert GoodFile(t, dir[t].content);
    SameSamples(dir, d);
  }

  lemma ReplaceManifest(dir: Directory, t: Name, entries: seq<Entry>)
    requires Inv(dir) && OnlyTemporary(dir, t) && dir[t].content == Index(entries)
    requires ValidIndex(entries) && Backed(dir, entries)
    ensures var d := Replaced(dir, t, Manifest);
      Inv(d) && NoTemporary(d) && Entries(d) == entries && SampleNames(d) == SampleNames(dir)
  {
    ReplaceManifestSound(dir, t, entries);
  }

  lemma ReplaceManifestSound(dir: Directory, t: Name, entries: seq<Entry>)
    requires Sound(dir) && t in dir && t.Temporary? && dir[t].content == Index(entries)
    requires ValidIndex(entries) && Backed(dir, entries) && OwnTemporaries(Replaced(dir, t, Manifest)) == {}
    ensures var d := Replaced(dir, t, Manifest);
      Sound(d) && Entries(d) == entries && SampleNames(d) == SampleNames(dir)
  {
    var d := Replaced(dir, t, Manifest);
    assert SampleNames(d) == SampleNames(dir);
    SameSamples(dir, d);
  }
}
