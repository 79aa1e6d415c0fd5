/** The single writer of the anomaly history. */
module HistoryStore {
  import opened HistoryFiles
  import opened HistoryRetention
  import opened HistoryInvariant

  // The writer may die between any two changes of the directory. `fuel` is the number of changes
  // the process still makes before it dies, so a postcondition that holds for every fuel holds
  // after a crash between any two of them.

  datatype Outcome = Done | Rejected | Crashed

  /** Link count one, as `_file_info` demands. */
  predicate SoleLink(dir: Directory, n: Name)
    requires n in dir
  {
    forall m :: m in dir && m != n ==> dir[m].inode != dir[n].inode
  }

  /** Link count at most two. */
  predicate FewLinks(dir: Directory, n: Name)
    requires n in dir
  {
    forall a, b ::
      (a in dir && b in dir && a != n && b != n && dir[a].inode == dir[n].inode && dir[b].inode == dir[n].inode)
      ==> a == b
  }

  /** A reader of the stored state can use every entry of the manifest, whatever a
      crash has left beside it. */
  lemma ReadersSucceed(dir: Directory, i: nat)
    requires Inv(dir) && i < |Entries(dir)|
    ensures var n := SampleName(Entries(dir)[i].id);
      && n in dir && SoleLink(dir, n)
      && dir[n].content == Data(Entries(dir)[i].digest) && Entries(dir)[i] == EntryOf(Entries(dir)[i].digest)
  {
    assert SampleName(Entries(dir)[i].id) in Referenced(dir);
  }

  /** From the first to the second, deletions of names and `others` further changes, at most. */
  predicate Spends(fuel: nat, dir: Directory, fuel': nat, dir': Directory, others: nat)
  {
    fuel - |dir| <= fuel' - |dir'| + others
  }

  /** Nothing a crash leaves fails the checks of the cleanup. */
  lemma TemporaryPasses(dir: Directory, n: Name)
    requires Inv(dir) && n in dir && n.Temporary?
    ensures FewLinks(dir, n) && Size(dir[n].content) <= MAX_SAMPLE_BYTES
  {
    assert GoodFile(n, dir[n].content);
  }

  lemma OrphanPasses(dir: Directory, n: Name)
    requires Inv(dir) && NoTemporary(dir) && n in dir && n.SampleName?
    ensures SoleLink(dir, n) && dir[n].content.Data? && dir[n].content.sample.stamp == n.stamp
  {
    assert GoodFile(n, dir[n].content);
  }

  lemma ReplacedInodes(dir: Directory, t: Name, target: Name, bound: nat)
    requires t in dir && forall n :: n in dir ==> dir[n].inode < bound
    ensures forall n :: n in Replaced(dir, t, target) ==> Replaced(dir, t, target)[n].inode < bound
  {
  }

  lemma DropSize(dir: Directory, n: Name)
    requires n in dir
    ensures |dir - {n}| == |dir| - 1
  {
    assert (dir - {n}).Keys == dir.Keys - {n};
  }

  lemma ReplacedSize(dir: Directory, t: Name, target: Name)
    requires t in dir && t != target
    ensures |Replaced(dir, t, target)| <= |dir|
  {
    assert Replaced(dir, t, target).Keys <= dir.Keys - {t} + {target};
    SizeBound(Replaced(dir, t, target).Keys, dir.Keys - {t} + {target});
  }

  lemma SizeBound(some: set<Name>, all: set<Name>)
    requires some <= all
    ensures |some| <= |all|
  {
    assert all == some + (all - some);
  }

  /** The names that a directory can hold at once: samples, manifest, attempts and one temporary. */
  lemma DirectorySize(dir: Directory)
    requires Inv(dir)
    ensures |dir| <= MAX_PHYSICAL_SAMPLE_FILES + 3
  {
    var temporaries := set n | n in dir && n.Temporary?;
    if t :| t in temporaries {
      assert temporaries <= {t};
      SizeBound(temporaries, {t});
    } else {
      assert temporaries == {};
    }
    assert dir.Keys <= SampleNames(dir) + {Manifest, Attempts} + temporaries;
    SizeBound(dir.Keys, SampleNames(dir) + {Manifest, Attempts} + temporaries);
  }

  /** When a publication is refused for what is already stored. */
  predicate Conflicts(dir: Directory, s: Sample)
  {
    var entries := Entries(dir);
    var n := SampleName(s.stamp);
    if entries != [] && s.stamp <= entries[|entries| - 1].id
    then s != entries[|entries| - 1].digest
    else n in dir && dir[n].content != Data(s)
  }

  /** Manifest and samples are as they were. */
  ghost predicate SameStore(before: Directory, dir: Directory)
  {
    forall n: Name :: n.SampleName? || n.Manifest? ==> SameFile(before, dir, n)
  }

  lemma SameStill(before: Directory, mid: Directory, dir: Directory)
    requires SameStore(before, mid) && SameStore(mid, dir)
    ensures SameStore(before, dir)
  {
    forall n: Name | n.SampleName? || n.Manifest?
      ensures SameFile(before, dir, n)
    {
      assert SameFile(before, mid, n) && SameFile(mid, dir, n);
    }
  }

  lemma IsJournal(items: seq<string>)
    ensures Size(Journal(items)) == JournalBytes(items) >= 26
  {
  }

  lemma PreparedJournal(before: Directory, dir: Directory)
    requires forall n: Name :: !n.Temporary? ==> SameFile(before, dir, n)
    ensures SameStore(before, dir) && Items(dir) == Items(before)
  {
    assert SameFile(before, dir, Attempts);
  }

  lemma ManifestReplaced(before: Directory, dir: Directory, t: Name)
    requires t in dir && t.Temporary? && forall n: Name :: !n.Temporary? ==> SameFile(before, dir, n)
    ensures Manifest in Replaced(dir, t, Manifest)
    ensures forall n: Name :: !n.Temporary? && !n.Manifest? ==> SameFile(before, Replaced(dir, t, Manifest), n)
  {
    forall n: Name | !n.Temporary? && !n.Manifest?
      ensures SameFile(before, Replaced(dir, t, Manifest), n)
    {
      assert SameFile(before, dir, n);
    }
  }

  lemma JournalReplaced(before: Directory, dir: Directory, t: Name, items: seq<string>)
    requires SameStore(before, dir) && t in dir && t.Temporary? && dir[t].content == Journal(items)
    ensures SameStore(before, Replaced(dir, t, Attempts)) && Items(Replaced(dir, t, Attempts)) == items
  {
    forall n: Name | n.SampleName? || n.Manifest?
      ensures SameFile(before, Replaced(dir, t, Attempts), n)
    {
      assert SameFile(before, dir, n);
    }
  }

  lemma SameConflicts(before: Directory, dir: Directory, s: Sample)
    requires SameFile(before, dir, Manifest) && SameFile(before, dir, SampleName(s.stamp))
    ensures Conflicts(before, s) <==> Conflicts(dir, s)
  {
  }

  /** A sample conflicts exactly if another one is listed for its stamp or a later one, or has been
      staged for its stamp. */
  lemma ConflictsExactly(dir: Directory, s: Sample)
    requires Inv(dir)
    ensures Conflicts(dir, s) <==>
      || (exists i :: 0 <= i < |Entries(dir)| && Entries(dir)[i].id >= s.stamp && Entries(dir)[i].digest != s)
      || (SampleName(s.stamp) in dir && dir[SampleName(s.stamp)].content != Data(s))
  {
    ValidEntries(dir);
    var entries := Entries(dir);
    if entries != [] && s.stamp <= entries[|entries| - 1].id {
      var last := |entries| - 1;
      assert entries[last] == EntryOf(entries[last].digest);
      assert forall i :: 0 <= i < last ==> entries[i].id < entries[last].id;
    }
  }

  lemma OldConflicts(dir: Directory, s: Sample)
    requires Entries(dir) != [] && s.stamp <= Entries(dir)[|Entries(dir)| - 1].id
    ensures Conflicts(dir, s) <==> s != Entries(dir)[|Entries(dir)| - 1].digest
  {
  }

  predicate SameFile(before: Directory, dir: Directory, n: Name)
  {
    (n in before <==> n in dir) && (n in dir ==> before[n] == dir[n])
  }

  /** Publishing a sample touches neither the attempts nor, but for deletions, any other sample. */
  ghost predicate KeepsOthers(before: Directory, dir: Directory, s: Sample)
  {
    && SameFile(before, dir, Attempts)
    && forall n :: n in dir && n.SampleName? && n != SampleName(s.stamp) ==> n in before && before[n] == dir[n]
  }

  lemma SameKeeps(before: Directory, dir: Directory, s: Sample)
    requires forall n: Name :: n.Attempts? || (n.SampleName? && n != SampleName(s.stamp)) ==> SameFile(before, dir, n)
    ensures KeepsOthers(before, dir, s)
  {
    forall n | n in dir && n.SampleName? && n != SampleName(s.stamp)
      ensures n in before && before[n] == dir[n]
    {
      assert SameFile(before, dir, n);
    }
  }

  lemma DeletesKeep(before: Directory, dir: Directory, s: Sample)
    requires OnlyDeletes(before, dir) && SameFile(before, dir, Attempts)
    ensures KeepsOthers(before, dir, s)
  {
  }

  lemma KeptBy(before: Directory, mid: Directory, dir: Directory, s: Sample)
    requires KeepsOthers(before, mid, s) && KeepsOthers(mid, dir, s)
    ensures KeepsOthers(before, dir, s)
  {
  }

  predicate OnlyDeletes(before: Directory, dir: Directory)
  {
    forall n :: n in dir ==> n in before && before[n] == dir[n]
  }

  predicate DistinctFiles(dir: Directory)
  {
    forall a, b :: a in dir && b in dir && a != b ==> dir[a].inode != dir[b].inode
  }

  /** The directory scan of `_physical_budget`, which counts each file once. */
  method Measure(dir: Directory) returns (count: nat, total: int)
    requires DistinctFiles(dir)
    ensures count == |SampleNames(dir)| && total == Sum(dir, ManagedNames(dir))
  {
    hide DistinctFiles;
    var todo := ManagedNames(dir);
    ghost var done: set<Name> := {};
    var inodes: set<nat> := {};
    count, total := 0, 0;
    while todo != {}
      invariant done == ManagedNames(dir) - todo && todo <= ManagedNames(dir)
      invariant total == Sum(dir, done) && count == |SamplesIn(done)|
      invariant inodes == Inodes(dir, done)
      decreases todo
    {
      var n :| n in todo;
      FreshInode(dir, done, n);
      AddInode(dir, done, n);
      AddToSum(dir, done, n);
      AddToCount(done, n);
      if dir[n].inode !in inodes {
        total := total + Size(dir[n].content);
        inodes := inodes + {dir[n].inode};
      }
      if n.SampleName? {
        count := count + 1;
      }
      todo, done := todo - {n}, done + {n};
    }
    assert done == ManagedNames(dir);
    assert SamplesIn(done) == SampleNames(dir);
  }

  function SamplesIn(names: set<Name>): (r: set<Name>)
  {
    set n | n in names && n.SampleName?
  }

  function Inodes(dir: Directory, names: set<Name>): (inodes: set<nat>)
    requires names <= dir.Keys
  {
    set n | n in names :: dir[n].inode
  }

  lemma FreshInode(dir: Directory, done: set<Name>, n: Name)
    requires DistinctFiles(dir) && done <= dir.Keys && n in dir && n !in done
    ensures dir[n].inode !in Inodes(dir, done)
  {
  }

  lemma AddInode(dir: Directory, done: set<Name>, n: Name)
    requires done <= dir.Keys && n in dir
    ensures Inodes(dir, done + {n}) == Inodes(dir, done) + {dir[n].inode}
  {
  }

  lemma AddToSum(dir: Directory, done: set<Name>, n: Name)
    requires done <= dir.Keys && n in dir && n !in done
    ensures Sum(dir, done + {n}) == Sum(dir, done) + Size(dir[n].content)
  {
    SumSplit(dir, done + {n}, n);
    assert done + {n} - {n} == done;
  }

  lemma AddToCount(done: set<Name>, n: Name)
    requires n !in done
    ensures |SamplesIn(done + {n})| == |SamplesIn(done)| + if n.SampleName? then 1 else 0
  {
    if n.SampleName? {
      assert SamplesIn(done + {n}) == SamplesIn(done) + {n};
    } else {
      assert SamplesIn(done + {n}) == SamplesIn(done);
    }
  }

  class Store {
    var dir: Directory
    var fuel: nat
    var nextInode: nat

    ghost predicate Valid()
      reads this
    {
      Inv(dir) && forall n :: n in dir ==> dir[n].inode < nextInode
    }

    /** A new, empty directory. */
    constructor (fuel: nat)
      ensures Valid() && dir == map[] && this.fuel == fuel
    {
      dir, this.fuel, nextInode := map[], fuel, 0;
      assert SampleNames(map[]) == {} && OwnTemporaries(map[]) == {};
      assert Sum(map[], {}) == 0;
    }

    method Unlink(n: Name) returns (alive: bool)
      requires n in dir
      modifies this`dir, this`fuel
      ensures alive == (old(fuel) > 0) && fuel == if alive then old(fuel) - 1 else 0
      ensures dir == (if alive then old(dir) - {n} else old(dir)) && Spends(old(fuel), old(dir), fuel, dir, 0)
    {
      DropSize(dir, n);
      alive := fuel > 0;
      if alive {
        fuel := fuel - 1;
        dir := dir - {n};
      }
    }

    /** Checks of one temporary name, then its deletion. */
    method RemoveTemporary(n: Name) returns (o: Outcome)
      requires Valid() && n in dir && n.Temporary?
      modifies this`dir, this`fuel
      ensures (o.Crashed? ==> fuel == 0) && Spends(old(fuel), old(dir), fuel, dir, 0)
      ensures Valid() && !o.Rejected?
      ensures dir == if o.Done? then old(dir) - {n} else old(dir)
    {
      hide Inv, FewLinks, Spends;
      TemporaryPasses(dir, n);
      if !FewLinks(dir, n) || Size(dir[n].content) > MAX_SAMPLE_BYTES {
        return Rejected;
      }
      DropTemporary(dir, n);
      var alive := Unlink(n);
      o := if alive then Done else Crashed;
    }

    /** Checks of one unreferenced sample, then its deletion. */
    method RemoveOrphan(n: Name) returns (o: Outcome)
      requires Valid() && NoTemporary(dir) && n in dir && Staged(dir, n)
      modifies this`dir, this`fuel
      ensures (o.Crashed? ==> fuel == 0) && Spends(old(fuel), old(dir), fuel, dir, 0)
      ensures Valid() && NoTemporary(dir) && !o.Rejected? && Entries(dir) == Entries(old(dir))
      ensures dir == if o.Done? then old(dir) - {n} else old(dir)
    {
      hide Inv, SoleLink, Spends;
      OrphanPasses(dir, n);
      if !(SoleLink(dir, n) && dir[n].content.Data? && dir[n].content.sample.stamp == n.stamp) {
        return Rejected;
      }
      DropOrphan(dir, n);
      var alive := Unlink(n);
      o := if alive then Done else Crashed;
    }

    /** `_cleanup_temporaries`. */
    method CleanupTemporaries() returns (o: Outcome)
      requires Valid()
      modifies this`dir, this`fuel
      ensures (o.Crashed? ==> fuel == 0) && Spends(old(fuel), old(dir), fuel, dir, 0)
      ensures Valid() && !o.Rejected?
      ensures forall n: Name :: !n.Temporary? ==> SameFile(old(dir), dir, n)
      ensures o.Done? ==> NoTemporary(dir)
    {
      var todo := set n | n in dir && n.Temporary?;
      while todo != {}
        invariant Valid() && Spends(old(fuel), old(dir), fuel, dir, 0)
        invariant forall n :: n in todo ==> n in dir && n.Temporary?
        invariant forall n :: n in dir && n.Temporary? ==> n in todo
        invariant forall n: Name :: !n.Temporary? ==> SameFile(old(dir), dir, n)
        decreases todo
      {
        var n :| n in todo;
        o := RemoveTemporary(n);
        if !o.Done? {
          return;
        }
        todo := todo - {n};
      }
      o := Done;
    }

    /** `_remove_orphans`: every sample that is not to be kept. */
    method RemoveOrphans(keep: set<Name>) returns (o: Outcome)
      requires Valid() && NoTemporary(dir) && Referenced(dir) <= keep
      modifies this`dir, this`fuel
      ensures (o.Crashed? ==> fuel == 0) && Spends(old(fuel), old(dir), fuel, dir, 0)
      ensures Valid() && NoTemporary(dir) && !o.Rejected?
      ensures forall n: Name :: n in keep || !n.SampleName? ==> SameFile(old(dir), dir, n)
      ensures Entries(dir) == Entries(old(dir))
      ensures OnlyDeletes(old(dir), dir)
      ensures o.Done? ==> SampleNames(dir) <= keep
    {
      hide Inv, EntryNames;
      var todo := set n | n in dir && n.SampleName? && n !in keep;
      while todo != {}
        invariant Valid() && NoTemporary(dir) && Entries(dir) == Entries(old(dir))
        invariant OnlyDeletes(old(dir), dir) && Spends(old(fuel), old(dir), fuel, dir, 0)
        invariant forall n :: n in todo ==> n in dir && n.SampleName? && n !in keep
        invariant forall n :: n in dir && n.SampleName? && n !in keep ==> n in todo
        invariant forall n: Name :: n in keep || !n.SampleName? ==> SameFile(old(dir), dir, n)
        decreases todo
      {
        var n :| n in todo;
        o := RemoveOrphan(n);
        if !o.Done? {
          return;
        }
        todo := todo - {n};
      }
      o := Done;
    }

    /** `_physical_budget`. */
    method PhysicalBudget(additional: nat, sample: bool) returns (ok: bool)
      requires Valid() && NoTemporary(dir)
      ensures ok <==>
              && |SampleNames(dir)| + (if sample then 1 else 0) <= MAX_PHYSICAL_SAMPLE_FILES
              && Sum(dir, ManagedNames(dir)) + additional <= MAX_PHYSICAL_HISTORY_BYTES
    {
      assert DistinctFiles(dir);
      var count, total := Measure(dir);
      ok := count + (if sample then 1 else 0) <= MAX_PHYSICAL_SAMPLE_FILES
            && total + additional <= MAX_PHYSICAL_HISTORY_BYTES;
    }

    /** `mkstemp` and the write; a crash during the write leaves the first `torn` bytes. */
    method CreateTemporary(content: Content, torn: nat) returns (t: Name, o: Outcome)
      requires Valid() && NoTemporary(dir)
      requires 0 <= Size(content) <= MAX_SAMPLE_BYTES
      requires Sum(dir, SampleNames(dir)) + Size(content) <= MAX_HISTORY_BYTES + MAX_SAMPLE_BYTES + MAX_MANIFEST_BYTES
      modifies this`dir, this`fuel, this`nextInode
      ensures (o.Crashed? ==> fuel == 0) && Spends(old(fuel), old(dir), fuel, dir, 3)
      ensures Valid() && !o.Rejected? && Entries(dir) == Entries(old(dir)) && SampleNames(dir) == SampleNames(old(dir))
      ensures forall n: Name :: !n.Temporary? ==> SameFile(old(dir), dir, n)
      ensures o.Done? ==> OnlyTemporary(dir, t) && dir[t].content == content
    {
      hide Inv, Sum, SampleNames, OwnTemporaries, NoTemporary, Entries;
      t := Temporary(nextInode);
      if fuel == 0 {
        return t, Crashed;
      }
      var written := if torn < Size(content) then torn else Size(content);
      var empty, full := File(nextInode, Torn(written)), File(nextInode, content);
      AddTemporary(dir, t, empty);
      fuel, nextInode, dir := fuel - 1, nextInode + 1, dir[t := empty];
      if fuel == 0 {
        return t, Crashed;
      }
      AddTemporary(dir, t, full);
      fuel, dir := fuel - 1, dir[t := full];
      o := Done;
    }

    /** Room for one more sample or one more generation of a metadata file. */
    lemma BudgetHolds(additional: nat)
      requires Valid()
      requires additional <= MAX_MANIFEST_BYTES
               || (additional <= MAX_SAMPLE_BYTES && SampleNames(dir) == Referenced(dir))
      ensures Sum(dir, ManagedNames(dir)) + additional <= MAX_PHYSICAL_HISTORY_BYTES
      ensures Sum(dir, SampleNames(dir)) + additional <=
              MAX_HISTORY_BYTES + MAX_SAMPLE_BYTES + MAX_MANIFEST_BYTES
      ensures |SampleNames(dir)| <= MAX_PHYSICAL_SAMPLE_FILES
      ensures SampleNames(dir) == Referenced(dir) ==> |SampleNames(dir)| < MAX_PHYSICAL_SAMPLE_FILES
    {
      ManagedSum(dir);
      if Manifest in dir {
        ManifestSize(dir);
      }
      if Attempts in dir {
        assert GoodFile(Attempts, dir[Attempts].content);
      }
      ReferencedSum(dir);
    }

    /** The first half of `_atomic`: the budget, then the temporary. */
    method Prepare(content: Content, sample: bool, torn: nat) returns (t: Name, o: Outcome)
      requires Valid() && NoTemporary(dir) && 0 <= Size(content)
      requires if sample then Size(content) <= MAX_SAMPLE_BYTES && SampleNames(dir) == Referenced(dir)
               else Size(content) <= MAX_MANIFEST_BYTES
      modifies this`dir, this`fuel, this`nextInode
      ensures (o.Crashed? ==> fuel == 0) && Spends(old(fuel), old(dir), fuel, dir, 3)
      ensures Valid() && !o.Rejected? && Entries(dir) == Entries(old(dir)) && SampleNames(dir) == SampleNames(old(dir))
      ensures forall n: Name :: !n.Temporary? ==> SameFile(old(dir), dir, n)
      ensures o.Done? ==> OnlyTemporary(dir, t) && dir[t].content == content
    {
      hide Inv;
      BudgetHolds(Size(content));
      t := Temporary(nextInode);
      var room := PhysicalBudget(Size(content), sample);
      if !room {
        return t, Rejected;
      }
      t, o := CreateTemporary(content, torn);
    }

    /** `_write_manifest`. */
    method WriteManifest(entries: seq<Entry>, torn: nat) returns (o: Outcome)
      requires Valid() && NoTemporary(dir) && ValidIndex(entries) && Backed(dir, entries)
      modifies this`dir, this`fuel, this`nextInode
      ensures (o.Crashed? ==> fuel == 0) && Spends(old(fuel), old(dir), fuel, dir, 4)
      ensures Valid() && !o.Rejected? && SampleNames(dir) == SampleNames(old(dir))
      ensures forall n: Name :: !n.Temporary? && !n.Manifest? ==> SameFile(old(dir), dir, n)
      ensures !o.Done? ==> Entries(dir) == Entries(old(dir))
      ensures o.Done? ==> NoTemporary(dir) && Manifest in dir && Entries(dir) == entries
    {
      hide Inv, Replaced, ValidIndex;
      IndexFits(entries);
      if IndexBytes(entries) > MAX_MANIFEST_BYTES {
        return Rejected;
      }
      var t;
      t, o := Prepare(Index(entries), false, torn);
      if !o.Done? {
        return;
      }
      if fuel == 0 {
        return Crashed;
      }
      ReplaceManifest(dir, t, entries);
      ReplacedSize(dir, t, Manifest);
      ReplacedInodes(dir, t, Manifest, nextInode);
      ManifestReplaced(old(dir), dir, t);
      fuel, dir := fuel - 1, Replaced(dir, t, Manifest);
      o := Done;
    }

    /** The immutable publication of `_atomic`: link, then unlink the temporary. */
    method PublishSample(s: Sample, torn: nat) returns (o: Outcome)
      requires Valid() && NoTemporary(dir) && ValidSample(s)
      requires SampleName(s.stamp) !in dir && SampleNames(dir) == Referenced(dir) && Manifest in dir
      modifies this`dir, this`fuel, this`nextInode
      ensures (o.Crashed? ==> fuel == 0) && Spends(old(fuel), old(dir), fuel, dir, 5)
      ensures Valid() && !o.Rejected? && Entries(dir) == Entries(old(dir))
      ensures forall n: Name :: !n.Temporary? && n != SampleName(s.stamp) ==> SameFile(old(dir), dir, n)
      ensures SampleName(s.stamp) in dir ==> dir[SampleName(s.stamp)].content == Data(s)
      ensures o.Done? ==> NoTemporary(dir) && SampleName(s.stamp) in dir
    {
      var t;
      t, o := Prepare(Data(s), true, torn);
      if !o.Done? {
        return;
      }
      o := LinkTemporary(t, s);
    }

    method LinkTemporary(t: Name, s: Sample) returns (o: Outcome)
      requires Valid() && OnlyTemporary(dir, t) && dir[t].content == Data(s) && ValidSample(s)
      requires SampleName(s.stamp) !in dir && SampleNames(dir) == Referenced(dir) && Manifest in dir
      modifies this`dir, this`fuel
      ensures (o.Crashed? ==> fuel == 0) && Spends(old(fuel), old(dir), fuel, dir, 2)
      ensures Valid() && !o.Rejected? && Entries(dir) == Entries(old(dir))
      ensures forall n: Name :: !n.Temporary? && n != SampleName(s.stamp) ==> SameFile(old(dir), dir, n)
      ensures SampleName(s.stamp) in dir ==> dir[SampleName(s.stamp)].content == Data(s)
      ensures o.Done? ==> NoTemporary(dir) && SampleName(s.stamp) in dir
    {
      hide Inv;
      if fuel == 0 {
        return Crashed;
      }
      LinkSample(dir, t, s);
      fuel, dir := fuel - 1, dir[SampleName(s.stamp) := dir[t]];
      DropTemporary(dir, t);
      var alive := Unlink(t);
      o := if alive then Done else Crashed;
    }

    /** `record_success`, from the encoded sample on. Deleting what is no longer wanted and 13 other
        changes of names are enough. */
    method RecordSuccess(s: Sample, torn: nat) returns (o: Outcome)
      requires Valid()
      modifies this`dir, this`fuel, this`nextInode
      ensures (o.Crashed? ==> fuel == 0) && Spends(old(fuel), old(dir), fuel, dir, 13)
      ensures KeepsOthers(old(dir), dir, s)
      ensures Valid()
      ensures Entries(dir) == Entries(old(dir)) || Entries(dir) == Retained(Entries(old(dir)), s)
      ensures old(fuel) > |old(dir)| + 13 ==> !o.Crashed?
      ensures o.Rejected? ==> !ValidSample(s) || Conflicts(old(dir), s)
      ensures o.Done? ==> ValidSample(s) && !Conflicts(old(dir), s)
      ensures o.Done? ==> NoTemporary(dir) && SampleNames(dir) == Referenced(dir)
      ensures o.Done? ==> Entries(dir) == NewEntries(Entries(old(dir)), s)
      ensures o.Done? ==> Listed(Entries(dir), s)
    {
      hide Inv, KeepsOthers, OnlyDeletes, Conflicts, Retained, EntryNames, ValidIndex;
      if ValidSample(s) && !Conflicts(dir, s) {
        AcceptedIsListed(dir, s);
      }
      SameKeeps(dir, dir, s);
      if !ValidSample(s) {
        return Rejected;
      }
      o := CleanupTemporaries();
      SameKeeps(old(dir), dir, s);
      EntriesSurvive(old(dir), dir);
      if !o.Done? {
        return;
      }
      assert SameFile(old(dir), dir, SampleName(s.stamp));
      SameConflicts(old(dir), dir, s);
      ghost var clean := dir;
      var entries := Entries(dir);
      ValidEntries(dir);
      if entries != [] && s.stamp <= entries[|entries| - 1].id {
        OldConflicts(dir, s);
        if s != entries[|entries| - 1].digest {
          return Rejected;
        }
        o := RemoveOrphans(EntryNames(entries));
        DeletesKeep(clean, dir, s);
        KeptBy(old(dir), clean, dir, s);
        PrunedNames(dir);
        return;
      }
      o := Publish(s, torn);
      KeptBy(old(dir), clean, dir, s);
    }

    /** A sample that is newer than every entry. */
    method Publish(s: Sample, torn: nat) returns (o: Outcome)
      requires Valid() && NoTemporary(dir) && ValidSample(s)
      requires Entries(dir) != [] ==> Entries(dir)[|Entries(dir)| - 1].id < s.stamp
      modifies this`dir, this`fuel, this`nextInode
      ensures (o.Crashed? ==> fuel == 0) && Spends(old(fuel), old(dir), fuel, dir, 13)
      ensures Valid() && KeepsOthers(old(dir), dir, s)
      ensures Entries(dir) == Entries(old(dir)) || Entries(dir) == Retained(Entries(old(dir)), s)
      ensures o.Rejected? ==> Conflicts(old(dir), s)
      ensures o.Done? ==> !Conflicts(old(dir), s) && NoTemporary(dir) && SampleNames(dir) == Referenced(dir)
                          && Entries(dir) == Retained(Entries(old(dir)), s)
    {
      hide Inv, KeepsOthers;
      o := EnsureManifest(torn);
      SameKeeps(old(dir), dir, s);
      if !o.Done? {
        return;
      }
      assert SameFile(old(dir), dir, SampleName(s.stamp));
      ghost var ready := dir;
      o := Stage(s, torn);
      KeptBy(old(dir), ready, dir, s);
      if !o.Done? {
        return;
      }
      ghost var staged := dir;
      o := Commit(s, torn);
      KeptBy(old(dir), staged, dir, s);
    }

    /** An empty index comes first, so that a crash in the first sample is recoverable. */
    method EnsureManifest(torn: nat) returns (o: Outcome)
      requires Valid() && NoTemporary(dir)
      modifies this`dir, this`fuel, this`nextInode
      ensures (o.Crashed? ==> fuel == 0) && Spends(old(fuel), old(dir), fuel, dir, 4)
      ensures Valid() && !o.Rejected? && Entries(dir) == Entries(old(dir))
      ensures forall n: Name :: n.SampleName? || n.Attempts? ==> SameFile(old(dir), dir, n)
      ensures o.Done? ==> NoTemporary(dir) && Manifest in dir
    {
      o := Done;
      if Manifest !in dir {
        o := WriteManifest([], torn);
      }
    }

    /** Everything up to the new sample being in place. */
    method Stage(s: Sample, torn: nat) returns (o: Outcome)
      requires Valid() && NoTemporary(dir) && ValidSample(s) && Manifest in dir
      requires Entries(dir) != [] ==> Entries(dir)[|Entries(dir)| - 1].id < s.stamp
      modifies this`dir, this`fuel, this`nextInode
      ensures (o.Crashed? ==> fuel == 0) && Spends(old(fuel), old(dir), fuel, dir, 5)
      ensures Valid() && KeepsOthers(old(dir), dir, s) && Entries(dir) == Entries(old(dir))
      ensures o.Rejected? ==> Conflicts(old(dir), s)
      ensures o.Done? ==> !Conflicts(old(dir), s) && NoTemporary(dir)
                          && SampleName(s.stamp) in dir && dir[SampleName(s.stamp)].content == Data(s)
    {
      hide Inv, KeepsOthers, OnlyDeletes;
      var target := SampleName(s.stamp);
      o := RemoveOrphans(EntryNames(Entries(dir)) + {target});
      DeletesKeep(old(dir), dir, s);
      if !o.Done? {
        return;
      }
      assert SameFile(old(dir), dir, target) && SameFile(old(dir), dir, Manifest);
      if target in dir {
        return if dir[target].content == Data(s) then Done else Rejected;
      }
      PrunedNames(dir);
      assert SampleNames(dir) == Referenced(dir);
      ghost var pruned := dir;
      o := PublishSample(s, torn);
      SameKeeps(pruned, dir, s);
      KeptBy(old(dir), pruned, dir, s);
      assert SameFile(pruned, dir, Manifest);
    }

    /** The manifest, then the pruning. */
    method Commit(s: Sample, torn: nat) returns (o: Outcome)
      requires Valid() && NoTemporary(dir) && ValidSample(s)
      requires Entries(dir) != [] ==> Entries(dir)[|Entries(dir)| - 1].id < s.stamp
      requires SampleName(s.stamp) in dir && dir[SampleName(s.stamp)].content == Data(s)
      modifies this`dir, this`fuel, this`nextInode
      ensures (o.Crashed? ==> fuel == 0) && Spends(old(fuel), old(dir), fuel, dir, 4)
      ensures Valid() && KeepsOthers(old(dir), dir, s) && !o.Rejected?
      ensures Entries(dir) == Entries(old(dir)) || Entries(dir) == Retained(Entries(old(dir)), s)
      ensures o.Done? ==> NoTemporary(dir) && SampleNames(dir) == Referenced(dir)
                          && Entries(dir) == Retained(Entries(old(dir)), s)
    {
      hide Inv, KeepsOthers, OnlyDeletes, Retained;
      var retained := Retain(Entries(dir), s);
      ValidEntries(dir);
      RetainedIsValid(Entries(dir), s);
      RetainedBacked(dir, s);
      o := WriteManifest(retained, torn);
      SameKeeps(old(dir), dir, s);
      if !o.Done? {
        return;
      }
      ghost var written := dir;
      o := RemoveOrphans(EntryNames(retained));
      DeletesKeep(written, dir, s);
      KeptBy(old(dir), written, dir, s);
      PrunedNames(dir);
    }

    /** `record_attempt`, from the checked item on. */
    method RecordAttempt(item: string, torn: nat) returns (o: Outcome)
      requires Valid()
      modifies this`dir, this`fuel, this`nextInode
      ensures (o.Crashed? ==> fuel == 0) && Spends(old(fuel), old(dir), fuel, dir, 4)
      ensures Valid() && SameStore(old(dir), dir)
      ensures o.Rejected? ==> JournalBytes(NewItems(Items(old(dir)), item)) > MAX_ATTEMPT_BYTES
      ensures o.Done? ==> Items(dir) == NewItems(Items(old(dir)), item) && NoTemporary(dir)
      ensures !o.Done? ==> Items(dir) == Items(old(dir))
    {
      hide Inv;
      o := CleanupTemporaries();
      assert SameFile(old(dir), dir, Attempts);
      if !o.Done? {
        return;
      }
      var items := [item] + Items(dir);
      items := if |items| > MAX_ATTEMPTS then items[..MAX_ATTEMPTS] else items;
      if JournalBytes(items) > MAX_ATTEMPT_BYTES {
        return Rejected;
      }
      ghost var clean := dir;
      o := WriteJournal(items, torn);
      SameStill(old(dir), clean, dir);
    }

    method WriteJournal(items: seq<string>, torn: nat) returns (o: Outcome)
      requires Valid() && NoTemporary(dir) && items != [] && JournalBytes(items) <= MAX_ATTEMPT_BYTES
      modifies this`dir, this`fuel, this`nextInode
      ensures (o.Crashed? ==> fuel == 0) && Spends(old(fuel), old(dir), fuel, dir, 4)
      ensures Valid() && !o.Rejected?
      ensures SameStore(old(dir), dir)
      ensures o.Done? ==> Items(dir) == items && NoTemporary(dir)
      ensures !o.Done? ==> Items(dir) == Items(old(dir))
    {
      hide Inv, Replaced, SameStore, Items, Size;
      IsJournal(items);
      var t;
      t, o := Prepare(Journal(items), false, torn);
      PreparedJournal(old(dir), dir);
      if !o.Done? {
        return;
      }
      if fuel == 0 {
        return Crashed;
      }
      ReplaceJournal(dir, t);
      ReplacedSize(dir, t, Attempts);
      ReplacedInodes(dir, t, Attempts, nextInode);
      JournalReplaced(old(dir), dir, t, items);
      fuel, dir := fuel - 1, Replaced(dir, t, Attempts);
      o := Done;
    }

    /** The next process finds the directory as the last one left it. */
    method Restart(changes: nat)
      requires Valid()
      modifies this`fuel
      ensures Valid() && dir == old(dir) && fuel == changes
    {
      fuel := changes;
    }

    /** One process publishes a sample and may die at any point; the next one publishes a later
        sample. It succeeds, and keeps everything that was in the manifest and is not too old. */
    method PublishTwice(s: Sample, torn: nat, next: Sample, changes: nat) returns (first: Outcome, second: Outcome)
      requires Valid() && ValidSample(next) && s.stamp < next.stamp
      requires forall n :: n in SampleNames(dir) ==> n.stamp < next.stamp
      requires changes > MAX_PHYSICAL_SAMPLE_FILES + 16
      modifies this
      ensures Valid() && second.Done? && NoTemporary(dir) && SampleNames(dir) == Referenced(dir)
      ensures || Entries(dir) == Retained(Entries(old(dir)), next)
              || Entries(dir) == Retained(Retained(Entries(old(dir)), s), next)
      ensures first.Done? ==> Entries(dir) == Retained(NewEntries(Entries(old(dir)), s), next)
    {
      hide Inv, Conflicts, Retained;
      first := RecordSuccess(s, torn);
      Restart(changes);
      assert forall n :: n in SampleNames(dir) && n != SampleName(s.stamp) ==> n in SampleNames(old(dir));
      DirectorySize(dir);
      LargerStampsAreAccepted(dir, next);
      LargerStampsAreNew(dir, next);
      LargerStampsAreNew(old(dir), next);
      second := RecordSuccess(next, torn);
    }
  }

  /** Recorded attempts, newest first. */
  function Items(dir: Directory): (items: seq<string>)
  {
    if Attempts in dir && dir[Attempts].content.Journal? then dir[Attempts].content.items else []
  }

  function NewItems(items: seq<string>, item: string): (r: seq<string>)
    ensures r != []
  {
    var all := [item] + items;
    if |all| > MAX_ATTEMPTS then all[..MAX_ATTEMPTS] else all
  }

  /** The newest sample of the manifest. */
  predicate Listed(entries: seq<Entry>, s: Sample)
  {
    entries != [] && entries[|entries| - 1] == EntryOf(s)
  }

  lemma AcceptedIsListed(dir: Directory, s: Sample)
    requires Inv(dir) && ValidSample(s) && !Conflicts(dir, s)
    ensures Listed(NewEntries(Entries(dir), s), s)
  {
    hide Retained;
    ValidEntries(dir);
    var entries := Entries(dir);
    if entries != [] && s.stamp <= entries[|entries| - 1].id {
      var last := |entries| - 1;
      assert entries[last] == EntryOf(entries[last].digest);
    } else {
      RetainedIsValid(entries, s);
    }
  }

  /** The journal after these attempts, the oldest first. */
  function Journaled(history: seq<string>): (items: seq<string>)
  {
    if history == [] then [] else NewItems(Journaled(history[..|history| - 1]), history[|history| - 1])
  }

  /** It holds the last 200 of them, the newest first. */
  lemma {:induction false} NewestFirst(history: seq<string>)
    ensures |Journaled(history)| == if |history| < 200 then |history| else 200
    ensures forall i :: 0 <= i < |Journaled(history)| ==> Journaled(history)[i] == history[|history| - 1 - i]
    decreases |history|
  {
    if history != [] {
      var before := history[..|history| - 1];
      NewestFirst(before);
      assert forall i :: 0 < i < |Journaled(history)| ==> Journaled(history)[i] == Journaled(before)[i - 1];
    }
  }

  /** The manifest after an accepted sample: nothing changes for a repeated one. */
  function NewEntries(entries: seq<Entry>, s: Sample): (r: seq<Entry>)
  {
    if entries != [] && s.stamp <= entries[|entries| - 1].id then entries else Retained(entries, s)
  }

  lemma ValidEntries(dir: Directory)
    requires Inv(dir)
    ensures ValidIndex(Entries(dir))
  {
  }

  lemma PrunedNames(dir: Directory)
    requires Inv(dir)
    ensures Referenced(dir) <= SampleNames(dir)
    ensures |Referenced(dir)| <= MAX_SAMPLES
  {
    ReferencedSum(dir);
  }

  /** A stamp beyond everything that was ever staged meets no conflict, so the next
      publication recovers from whatever a crash left. */
  lemma LargerStampsAreAccepted(dir: Directory, s: Sample)
    requires Inv(dir)
    requires forall n :: n in SampleNames(dir) ==> n.stamp < s.stamp
    ensures !Conflicts(dir, s)
  {
    var entries := Entries(dir);
    if entries != [] {
      var n := SampleName(entries[|entries| - 1].id);
      assert n in dir;
    }
  }

  lemma LargerStampsAreNew(dir: Directory, s: Sample)
    requires Inv(dir)
    requires forall n :: n in SampleNames(dir) ==> n.stamp < s.stamp
    ensures NewEntries(Entries(dir), s) == Retained(Entries(dir), s)
  {
    var entries := Entries(dir);
    if entries != [] {
      assert SampleName(entries[|entries| - 1].id) in dir;
    }
  }

  lemma EntriesSurvive(before: Directory, dir: Directory)
    requires SameFile(before, dir, Manifest)
    ensures Entries(before) == Entries(dir) && (Manifest in before <==> Manifest in dir)
  {
  }

  lemma RetainedBacked(dir: Directory, s: Sample)
    requires Inv(dir) && ValidSample(s)
    requires Entries(dir) != [] ==> Entries(dir)[|Entries(dir)| - 1].id < s.stamp
    requires SampleName(s.stamp) in dir && dir[SampleName(s.stamp)].content == Data(s)
    ensures Backed(dir, Retained(Entries(dir), s))
  {
    RetainedIsValid(Entries(dir), s);
    var r := Retained(Entries(dir), s);
    forall i | 0 <= i < |r|
      ensures SampleName(r[i].id) in dir && dir[SampleName(r[i].id)].content == Data(r[i].digest)
    {
      assert r[i] in r;
      if r[i] != EntryOf(s) {
        var j :| 0 <= j < |Entries(dir)| && Entries(dir)[j] == r[i];
      }
    }
  }
}
