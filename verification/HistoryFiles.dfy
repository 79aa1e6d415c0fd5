/** The anomaly history directory as a map from names to files, and what every
    state of it satisfies, crash-left ones included.

    A hash stands for the bytes it was taken from, so an index entry carries the
    sample it was made for. JSON is ASCII here, so a text has as many bytes as
    characters.
  */
module HistoryFiles {

  const RETENTION_MS: int := 30 * 24 * 60 * 60 * 1000
  const MAX_SAMPLES: nat := 4321
  const MAX_HISTORY_BYTES: nat := 512 * 1024 * 1024
  const MAX_SAMPLE_BYTES: nat := 2 * 1024 * 1024
  const MAX_MANIFEST_BYTES: nat := 1024 * 1024
  const MAX_ATTEMPTS: nat := 200
  const MAX_ATTEMPT_BYTES: nat := 128 * 1024
  const MAX_PHYSICAL_SAMPLE_FILES: nat := MAX_SAMPLES + 1
  const MAX_PHYSICAL_HISTORY_BYTES: nat :=
    MAX_HISTORY_BYTES + MAX_SAMPLE_BYTES + 2 * MAX_MANIFEST_BYTES + MAX_ATTEMPT_BYTES
  const MAX_SAFE_INTEGER: nat := 9_007_199_254_740_991

  /** An encoded sample. */
  datatype Sample = Sample(stamp: nat, text: string)

  /** A manifest entry: id, size and hash. */
  datatype Entry = Entry(id: nat, bytes: nat, digest: Sample)

  function EntryOf(s: Sample): (e: Entry)
  {
    Entry(s.stamp, |s.text|, s)
  }

  datatype Name = Manifest | Attempts | SampleName(stamp: nat) | Temporary(tag: nat)

  datatype Content =
    | Index(entries: seq<Entry>)
    | Journal(items: seq<string>)
    | Data(sample: Sample)
    | Torn(bytes: nat)

  datatype File = File(inode: nat, content: Content)

  type Directory = map<Name, File>

  // ---- Encoded sizes ----

  function Digits(n: nat): (d: nat)
  {
    if n < 10 then 1 else 1 + Digits(n / 10)
  }

  /** {"id":…,"bytes":…,"sha256":"…"} with 64 hexadecimal digits. */
  function EntryBytes(e: Entry): (n: nat)
  {
    92 + Digits(e.id) + Digits(e.bytes)
  }

  function ListBytes(entries: seq<Entry>): (n: nat)
  {
    if entries == [] then 0 else EntryBytes(entries[0]) + 1 + ListBytes(entries[1..])
  }

  /** {"version":1,"samples":[…]} with commas between the entries. */
  function IndexBytes(entries: seq<Entry>): (n: int)
  {
    26 + if entries == [] then 0 else ListBytes(entries) - 1
  }

  function TextBytes(items: seq<string>): (n: nat)
  {
    if items == [] then 0 else |items[0]| + 1 + TextBytes(items[1..])
  }

  /** {"version":1,"attempts":[…]}. */
  function JournalBytes(items: seq<string>): (n: int)
  {
    27 + if items == [] then 0 else TextBytes(items) - 1
  }

  function Size(c: Content): (n: int)
  {
    match c
    case Index(entries) => IndexBytes(entries)
    case Journal(items) => JournalBytes(items)
    case Data(s) => |s.text|
    case Torn(bytes) => bytes
  }

  // ---- The manifest ----

  function TotalBytes(entries: seq<Entry>): (n: nat)
  {
    if entries == [] then 0 else entries[0].bytes + TotalBytes(entries[1..])
  }

  predicate ValidSample(s: Sample)
  {
    s.stamp <= MAX_SAFE_INTEGER && 1 <= |s.text| <= MAX_SAMPLE_BYTES
  }

  ghost predicate Ordered(entries: seq<Entry>)
  {
    forall i, j :: 0 <= i < j < |entries| ==> entries[i].id < entries[j].id
  }

  /** What `_manifest` accepts. */
  ghost predicate ValidIndex(entries: seq<Entry>)
  {
    && |entries| <= MAX_SAMPLES && TotalBytes(entries) <= MAX_HISTORY_BYTES && Ordered(entries)
    && forall i :: 0 <= i < |entries| ==> entries[i] == EntryOf(entries[i].digest) && ValidSample(entries[i].digest)
  }

  lemma {:induction false} DigitsBound(n: nat, d: nat, p: nat)
    requires d >= 1 && n < p && p == Power10(d)
    ensures Digits(n) <= d
    decreases d
  {
    if n >= 10 {
      assert d > 1;
      DigitsBound(n / 10, d - 1, Power10(d - 1));
    }
  }

  function Power10(d: nat): (p: nat)
  {
    if d == 0 then 1 else 10 * Power10(d - 1)
  }

  lemma {:induction false} ListBytesBound(entries: seq<Entry>)
    requires forall i :: 0 <= i < |entries| ==>
             entries[i] == EntryOf(entries[i].digest) && ValidSample(entries[i].digest)
    ensures ListBytes(entries) <= 116 * |entries|
  {
    if entries != [] {
      var e := entries[0];
      assert Power10(7) == 10_000_000 && Power10(16) == 10_000_000_000_000_000 by {
        assert Power10(4) == 10_000;
        assert Power10(7) == 10_000_000;
        assert Power10(10) == 10_000_000_000;
        assert Power10(13) == 10_000_000_000_000;
      }
      DigitsBound(e.id, 16, Power10(16));
      DigitsBound(e.bytes, 7, Power10(7));
      ListBytesBound(entries[1..]);
    }
  }

  /** A valid index always fits the byte limit it is encoded under. */
  lemma IndexFits(entries: seq<Entry>)
    requires ValidIndex(entries)
    ensures 26 <= IndexBytes(entries) <= MAX_MANIFEST_BYTES
  {
    ListBytesBound(entries);
  }

  // ---- Sums over sets of names ----

  ghost function Sum(dir: Directory, names: set<Name>): (n: int)
    requires names <= dir.Keys
  {
    if names == {} then 0
    else
      var n :| n in names;
      Size(dir[n].content) + Sum(dir, names - {n})
  }

  lemma {:induction false} SumSplit(dir: Directory, names: set<Name>, n: Name)
    requires names <= dir.Keys && n in names
    ensures Sum(dir, names) == Size(dir[n].content) + Sum(dir, names - {n})
    decreases |names|
  {
    var m :| m in names && Sum(dir, names) == Size(dir[m].content) + Sum(dir, names - {m});
    if m != n {
      SumSplit(dir, names - {m}, n);
      SumSplit(dir, names - {n}, m);
      assert names - {m} - {n} == names - {n} - {m};
    }
  }

  lemma {:induction false} SumFrame(d: Directory, d': Directory, names: set<Name>)
    requires names <= d.Keys && names <= d'.Keys
    requires forall n :: n in names ==> d[n].content == d'[n].content
    ensures Sum(d, names) == Sum(d', names)
    decreases |names|
  {
    if n :| n in names {
      SumSplit(d, names, n);
      SumSplit(d', names, n);
      SumFrame(d, d', names - {n});
    } else {
      assert names == {};
    }
  }

  lemma {:induction false} SumSubset(dir: Directory, some: set<Name>, all: set<Name>)
    requires some <= all <= dir.Keys
    requires forall n :: n in all ==> Size(dir[n].content) >= 0
    ensures Sum(dir, some) <= Sum(dir, all)
    decreases |all - some|
  {
    if !(all <= some) {
      var n :| n in all && n !in some;
      SumSplit(dir, all, n);
      assert (all - {n}) - some == (all - some) - {n};
      SumSubset(dir, some, all - {n});
    } else {
      assert all == some;
    }
  }

  function SampleNames(dir: Directory): (names: set<Name>)
  {
    set n | n in dir && n.SampleName?
  }

  function EntryNames(entries: seq<Entry>): (names: set<Name>)
    ensures forall i :: 0 <= i < |entries| ==> SampleName(entries[i].id) in names
  {
    set i | 0 <= i < |entries| :: SampleName(entries[i].id)
  }

  lemma EntryNamesTail(entries: seq<Entry>)
    requires Ordered(entries) && entries != []
    ensures EntryNames(entries[1..]) == EntryNames(entries) - {SampleName(entries[0].id)}
  {
    var first, rest := SampleName(entries[0].id), entries[1..];
    forall n | n in EntryNames(entries) - {first} ensures n in EntryNames(rest) {
      var i :| 0 <= i < |entries| && n == SampleName(entries[i].id);
      assert rest[i - 1] == entries[i];
    }
    forall n | n in EntryNames(rest) ensures n in EntryNames(entries) - {first} {
      var i :| 0 <= i < |rest| && n == SampleName(rest[i].id);
      assert entries[0].id < entries[i + 1].id;
    }
  }

  lemma {:induction false} EntryNamesSum(dir: Directory, entries: seq<Entry>)
    requires Ordered(entries) && EntryNames(entries) <= dir.Keys
    requires forall i :: 0 <= i < |entries| ==> Size(dir[SampleName(entries[i].id)].content) == entries[i].bytes
    ensures Sum(dir, EntryNames(entries)) == TotalBytes(entries)
    ensures |EntryNames(entries)| == |entries|
    decreases |entries|
  {
    if entries != [] {
      var first, rest := SampleName(entries[0].id), entries[1..];
      assert forall i :: 0 <= i < |rest| ==> rest[i] == entries[i + 1];
      EntryNamesTail(entries);
      EntryNamesSum(dir, rest);
      assert first in EntryNames(entries);
      SumSplit(dir, EntryNames(entries), first);
    }
  }
}
