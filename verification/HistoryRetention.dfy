/** Which samples a manifest retains: the longest suffix of what has been recorded that meets
    the limits on age, number and bytes, and that therefore always ends with the new sample.
  */
module HistoryRetention {
  import opened HistoryFiles

  /** `[entry for entry in entries if entry['id'] >= stamp - RETENTION_MS]`. */
  function Young(entries: seq<Entry>, stamp: nat): (r: seq<Entry>)
  {
    if entries == [] then []
    else (if entries[0].id >= stamp - RETENTION_MS then [entries[0]] else []) + Young(entries[1..], stamp)
  }

  predicate TooMuch(entries: seq<Entry>)
  {
    |entries| > MAX_SAMPLES || TotalBytes(entries) > MAX_HISTORY_BYTES
  }

  function Trimmed(entries: seq<Entry>): (r: seq<Entry>)
  {
    if TooMuch(entries) then (if entries == [] then [] else Trimmed(entries[1..])) else entries
  }

  function Retained(entries: seq<Entry>, s: Sample): (r: seq<Entry>)
  {
    Trimmed(Young(entries, s.stamp) + [EntryOf(s)])
  }

  lemma {:induction false} TotalConcat(a: seq<Entry>, b: seq<Entry>)
    ensures TotalBytes(a + b) == TotalBytes(a) + TotalBytes(b)
  {
    if a == [] {
      assert a + b == b;
    } else {
      TotalConcat(a[1..], b);
      assert (a + b)[1..] == a[1..] + b;
    }
  }

  /** The list edits of `record_success`. */
  method Retain(entries: seq<Entry>, s: Sample) returns (retained: seq<Entry>)
    ensures retained == Retained(entries, s)
  {
    retained := [];
    for k := 0 to |entries|
      invariant retained + Young(entries[k..], s.stamp) == Young(entries, s.stamp)
    {
      if entries[k].id >= s.stamp - RETENTION_MS {
        retained := retained + [entries[k]];
      }
    }
    assert retained == Young(entries, s.stamp);
    retained := Trim(retained + [EntryOf(s)]);
  }

  method Trim(entries: seq<Entry>) returns (retained: seq<Entry>)
    ensures retained == Trimmed(entries)
  {
    retained := entries;
    var total := 0;
    for k := 0 to |retained|
      invariant total + TotalBytes(retained[k..]) == TotalBytes(retained)
    {
      assert retained[k..][1..] == retained[k + 1..];
      total := total + retained[k].bytes;
    }
    while |retained| > MAX_SAMPLES || total > MAX_HISTORY_BYTES
      invariant total == TotalBytes(retained)
      invariant Trimmed(retained) == Trimmed(entries)
      decreases |retained|
    {
      total := total - retained[0].bytes;
      retained := retained[1..];
    }
  }

  /** The three limits of a manifest written at `stamp`. */
  ghost predicate Fits(entries: seq<Entry>, stamp: nat)
  {
    !TooMuch(entries) && forall i :: 0 <= i < |entries| ==> entries[i].id >= stamp - RETENTION_MS
  }

  lemma {:induction false} YoungIsSuffix(entries: seq<Entry>, stamp: nat) returns (k: nat)
    requires Ordered(entries)
    ensures k <= |entries| && Young(entries, stamp) == entries[k..]
    ensures forall i :: 0 <= i < k ==> entries[i].id < stamp - RETENTION_MS
    ensures forall i :: k <= i < |entries| ==> entries[i].id >= stamp - RETENTION_MS
  {
    if entries == [] {
      k := 0;
    } else {
      assert forall i :: 0 <= i < |entries| - 1 ==> entries[1..][i] == entries[i + 1];
      k := YoungIsSuffix(entries[1..], stamp);
      if entries[0].id >= stamp - RETENTION_MS {
        assert entries[0..] == [entries[0]] + entries[1..];
      } else {
        k := k + 1;
      }
    }
  }

  lemma {:induction false} TrimmedIsSuffix(entries: seq<Entry>) returns (k: nat)
    requires entries != [] && !TooMuch([entries[|entries| - 1]])
    ensures k < |entries| && Trimmed(entries) == entries[k..] && !TooMuch(entries[k..])
    ensures forall j :: 0 <= j < k ==> TooMuch(entries[j..])
  {
    if |entries| == 1 {
      assert entries == [entries[|entries| - 1]];
    }
    if !TooMuch(entries) {
      k := 0;
    } else {
      k := TrimmedIsSuffix(entries[1..]);
      forall j | 0 <= j < k + 1 ensures TooMuch(entries[j..]) {
        if j > 0 {
          assert entries[1..][j - 1..] == entries[j..];
        } else {
          assert entries[0..] == entries;
        }
      }
      assert entries[1..][k..] == entries[k + 1..];
      k := k + 1;
    }
  }

  lemma ShorterCut(all: seq<Entry>, aged: nat, cut: nat, stamp: nat)
    requires aged + cut <= |all|
    requires forall i :: 0 <= i < aged ==> all[i].id < stamp - RETENTION_MS
    requires forall j :: 0 <= j < cut ==> TooMuch(all[aged..][j..])
    ensures forall j :: 0 <= j < aged + cut ==> !Fits(all[j..], stamp)
  {
    hide TooMuch;
    forall j | 0 <= j < aged + cut ensures !Fits(all[j..], stamp) {
      if j < aged {
        assert all[j..][0] == all[j];
      } else {
        assert all[j..] == all[aged..][j - aged..];
      }
    }
  }

  lemma CutIsYoung(all: seq<Entry>, k: nat, stamp: nat)
    requires k <= |all| && !TooMuch(all[k..])
    requires forall i :: k <= i < |all| ==> all[i].id >= stamp - RETENTION_MS
    ensures Fits(all[k..], stamp)
  {
    hide TooMuch;
    forall i | 0 <= i < |all[k..]| ensures all[k..][i].id >= stamp - RETENTION_MS {
      assert all[k..][i] == all[k + i];
    }
  }

  /** The new manifest is the longest suffix of the old entries and the new one that
      meets the age, count and byte limits, and it ends with the new sample. */
  lemma RetainedIsLongest(entries: seq<Entry>, s: Sample) returns (k: nat)
    requires Ordered(entries) && (entries != [] ==> entries[|entries| - 1].id < s.stamp)
    requires ValidSample(s)
    ensures k <= |entries| && Retained(entries, s) == (entries + [EntryOf(s)])[k..]
    ensures Fits(Retained(entries, s), s.stamp)
    ensures forall j :: 0 <= j < k ==> !Fits((entries + [EntryOf(s)])[j..], s.stamp)
  {
    hide Trimmed, Young, TotalBytes, TooMuch, Fits, Ordered;
    var all := entries + [EntryOf(s)];
    var aged := YoungIsSuffix(entries, s.stamp);
    var young := entries[aged..] + [EntryOf(s)];
    assert young == all[aged..];
    assert young[|young| - 1] == EntryOf(s);
    AloneFits(s);
    var cut := TrimmedIsSuffix(young);
    k := aged + cut;
    assert young[cut..] == all[k..];
    ShorterCut(all, aged, cut, s.stamp);
    CutIsYoung(all, k, s.stamp);
  }

  lemma AloneFits(s: Sample)
    requires ValidSample(s)
    ensures !TooMuch([EntryOf(s)])
  {
    assert TotalBytes([EntryOf(s)]) == |s.text|;
  }

  lemma RetainedIsValid(entries: seq<Entry>, s: Sample)
    requires ValidIndex(entries) && ValidSample(s)
    requires entries != [] ==> entries[|entries| - 1].id < s.stamp
    ensures ValidIndex(Retained(entries, s)) && Retained(entries, s) != []
    ensures Retained(entries, s)[|Retained(entries, s)| - 1] == EntryOf(s)
    ensures forall e :: e in Retained(entries, s) ==> e in entries || e == EntryOf(s)
  {
    var k := RetainedIsLongest(entries, s);
    var all, r := entries + [EntryOf(s)], Retained(entries, s);
    forall i, j | 0 <= i < j < |r| ensures r[i].id < r[j].id {
      assert r[i] == all[k + i] && r[j] == all[k + j];
      if k + j == |entries| {
        assert k + i < |entries| - 1 ==> entries[k + i].id < entries[|entries| - 1].id;
      }
    }
    forall i | 0 <= i < |r| ensures r[i] == EntryOf(r[i].digest) && ValidSample(r[i].digest) {
      assert r[i] == all[k + i];
    }
  }
}
