/** The per-repo snapshot of indexed files: "path|nanoseconds" strings, sorted. */
module Snapshots {
  import opened Text
  import opened Sorting

  type Path = string

  /** A source file found by a scan; modTime counts nanoseconds from the Unix epoch. */
  datatype FileSnapshot = FileSnapshot(path: Path, modTime: int)

  /** time.Time{}, the first instant of year 1. */
  const ZERO_TIME := -62_135_596_800_000_000_000

  ghost predicate DistinctPaths(files: seq<FileSnapshot>) {
    forall i, j | 0 <= i < j < |files| :: files[i].path != files[j].path
  }

  /** The path-to-mtime map of a scan. */
  function ModTimes(files: seq<FileSnapshot>): map<Path, int> {
    if files == [] then map[]
    else
      var f := files[|files| - 1];
      ModTimes(files[..|files| - 1])[f.path := f.modTime]
  }

  lemma {:induction false} ModTimesOfScan(files: seq<FileSnapshot>)
    ensures forall p :: p in ModTimes(files) <==> exists i :: 0 <= i < |files| && files[i].path == p
    ensures DistinctPaths(files) ==> forall f <- files ::
            f.path in ModTimes(files) && ModTimes(files)[f.path] == f.modTime
  {
    if files != [] {
      var front, last := files[..|files| - 1], files[|files| - 1];
      ModTimesOfScan(front);
      assert files == front + [last];
      forall p ensures p in ModTimes(files) <==> exists i :: 0 <= i < |files| && files[i].path == p {
        if p == last.path {
          assert files[|files| - 1].path == p;
        } else if p in ModTimes(front) {
          var i :| 0 <= i < |front| && front[i].path == p;
          assert files[i].path == p;
        }
      }
      if DistinctPaths(files) {
        forall f | f in files ensures f.path in ModTimes(files) && ModTimes(files)[f.path] == f.modTime {
          var i :| 0 <= i < |files| && files[i] == f;
          if i < |front| {
            assert front[i] == f;
            assert f.path != last.path;
          }
        }
      }
    }
  }

  /** One encoded entry; UnixNano truncates a time outside the 64-bit range. */
  function Entry(f: FileSnapshot): string {
    f.path + "|" + PrintInt(WrapInt64(f.modTime))
  }

  function Entries(files: seq<FileSnapshot>): seq<string> {
    seq(|files|, i requires 0 <= i < |files| => Entry(files[i]))
  }

  function Encode(files: seq<FileSnapshot>): seq<string> {
    Sort(Entries(files), StringLeq)
  }

  method EncodeFileSnapshots(files: seq<FileSnapshot>) returns (encoded: seq<string>)
    ensures encoded == Encode(files)
  {
    encoded := [];
    for i := 0 to |files|
      invariant encoded == Entries(files)[..i]
    {
      encoded := encoded + [Entry(files[i])];
    }
    assert encoded == Entries(files);
    encoded := Sort(encoded, StringLeq);
  }

  /** Path and time read from one entry; an entry without a readable time keeps
      the whole text as its path and the zero time. */
  function DecodeEntry(entry: string): (Path, int) {
    var parts := Split(entry, '|');
    if |parts| < 2 then (entry, ZERO_TIME)
    else
      match ParseInt64(parts[|parts| - 1])
      case None => (entry, ZERO_TIME)
      case Some(ts) => (Join(parts[..|parts| - 1], '|'), ts)
  }

  function Decode(entries: seq<string>): map<Path, int> {
    if entries == [] then map[]
    else
      var (path, time) := DecodeEntry(entries[|entries| - 1]);
      Decode(entries[..|entries| - 1])[path := time]
  }

  method DecodeSnapshotEntries(entries: seq<string>) returns (result: map<Path, int>)
    ensures result == Decode(entries)
  {
    result := map[];
    for i := 0 to |entries|
      invariant result == Decode(entries[..i])
    {
      assert entries[..i + 1][..i] == entries[..i];
      var parts := Split(entries[i], '|');
      if |parts| < 2 {
        result := result[entries[i] := ZERO_TIME];
        continue;
      }
      var ts := ParseInt64(parts[|parts| - 1]);
      if ts.None? {
        result := result[entries[i] := ZERO_TIME];
        continue;
      }
      var path := Join(parts[..|parts| - 1], '|');
      result := result[path := ts.value];
    }
    assert entries[..|entries|] == entries;
  }

  /** An encoded entry decodes to its path, "|" in the path or not. */
  lemma EntryRoundTrip(f: FileSnapshot)
    ensures DecodeEntry(Entry(f)) == (f.path, WrapInt64(f.modTime))
  {
    var n := WrapInt64(f.modTime);
    var stamp := PrintInt(n);
    PrintIntRoundTrip(n);
    assert Entry(f) == f.path + ['|'] + stamp;
    SplitAtSeparator(f.path, stamp, '|');
    SplitWithoutSeparator(stamp, '|');
    var parts := Split(Entry(f), '|');
    assert parts[..|parts| - 1] == Split(f.path, '|');
    JoinSplit(f.path, '|');
  }

  /** Decoding looks only at which entries are present when no two disagree on a path. */
  lemma {:induction false} DecodeByMembership(entries: seq<string>)
    requires forall e <- entries, e' <- entries | DecodeEntry(e).0 == DecodeEntry(e').0 ::
             DecodeEntry(e) == DecodeEntry(e')
    ensures forall e <- entries ::
            DecodeEntry(e).0 in Decode(entries) && Decode(entries)[DecodeEntry(e).0] == DecodeEntry(e).1
    ensures forall p <- Decode(entries) :: exists e :: e in entries && DecodeEntry(e).0 == p
  {
    if entries != [] {
      var front, last := entries[..|entries| - 1], entries[|entries| - 1];
      assert entries == front + [last];
      DecodeByMembership(front);
    }
  }

  lemma EncodedEntries(files: seq<FileSnapshot>)
    ensures forall f <- files :: Entry(f) in Encode(files)
    ensures forall e <- Encode(files) :: exists f :: f in files && e == Entry(f)
  {
    StringOrder();
    SortSorts(Entries(files), StringLeq);
    forall f | f in files ensures Entry(f) in Encode(files) {
      var i :| 0 <= i < |files| && files[i] == f;
      assert Entries(files)[i] == Entry(f);
    }
    forall e | e in Encode(files) ensures exists f :: f in files && e == Entry(f) {
      var i :| 0 <= i < |files| && Entries(files)[i] == e;
      assert files[i] in files;
    }
  }

  lemma EncodedEntriesAgree(files: seq<FileSnapshot>, e: string, e': string)
    requires DistinctPaths(files)
    requires e in Encode(files) && e' in Encode(files) && DecodeEntry(e).0 == DecodeEntry(e').0
    ensures e == e'
  {
    EncodedEntries(files);
    var f :| f in files && e == Entry(f);
    var f' :| f' in files && e' == Entry(f');
    EntryRoundTrip(f);
    EntryRoundTrip(f');
  }

  lemma EncodedConsistently(files: seq<FileSnapshot>)
    requires DistinctPaths(files)
    ensures forall e <- Encode(files), e' <- Encode(files) | DecodeEntry(e).0 == DecodeEntry(e').0 ::
            DecodeEntry(e) == DecodeEntry(e')
  {
    forall e, e' | e in Encode(files) && e' in Encode(files) && DecodeEntry(e).0 == DecodeEntry(e').0
      ensures DecodeEntry(e) == DecodeEntry(e')
    {
      EncodedEntriesAgree(files, e, e');
    }
  }

  /** Decoding the encoded snapshot gives every path its truncated time, whatever
      order the sort produced. */
  lemma DecodedFile(files: seq<FileSnapshot>, f: FileSnapshot)
    requires DistinctPaths(files) && f in files
    ensures f.path in Decode(Encode(files)) && Decode(Encode(files))[f.path] == WrapInt64(f.modTime)
  {
    EncodedConsistently(files);
    DecodeByMembership(Encode(files));
    assert Entry(f) in Encode(files) by { EncodedEntries(files); }
    EntryRoundTrip(f);
  }

  /** The decoded snapshot names no path that was not scanned. */
  lemma DecodedPath(files: seq<FileSnapshot>, p: Path)
    requires DistinctPaths(files) && p in Decode(Encode(files))
    ensures exists f :: f in files && f.path == p
  {
    EncodedConsistently(files);
    DecodeByMembership(Encode(files));
    var e :| e in Encode(files) && DecodeEntry(e).0 == p;
    EncodedEntries(files);
    var f :| f in files && e == Entry(f);
    EntryRoundTrip(f);
  }

  /** The snapshot gives back exactly the scanned map if and only if every stamp
      fits a signed 64-bit nanosecond count. */
  lemma SnapshotRoundTrip(files: seq<FileSnapshot>)
    requires DistinctPaths(files)
    ensures Decode(Encode(files)) == ModTimes(files) <==> forall f <- files :: IsInt64(f.modTime)
  {
    var decoded := Decode(Encode(files));
    ModTimesOfScan(files);
    forall f | f in files ensures f.path in decoded && decoded[f.path] == WrapInt64(f.modTime) {
      DecodedFile(files, f);
    }
    forall p | p in decoded ensures p in ModTimes(files) {
      DecodedPath(files, p);
    }
    if forall f <- files :: IsInt64(f.modTime) {
      forall p | p in ModTimes(files) ensures p in decoded && decoded[p] == ModTimes(files)[p] {
        var i :| 0 <= i < |files| && files[i].path == p;
        assert files[i] in files;
      }
      assert decoded == ModTimes(files);
    }
  }

  /** The entry has no readable time: no separator, or no number after the last one. */
  ghost predicate Unreadable(entry: string) {
    '|' !in entry || exists head, tail :: entry == head + "|" + tail && '|' !in tail && ParseInt64(tail).None?
  }

  /** Such an entry stands for its whole text, with a time that no readable entry has, so
      that no file of a representable time looks unchanged by it. */
  lemma UnreadableEntry(entry: string, f: FileSnapshot)
    requires Unreadable(entry) && IsInt64(f.modTime)
    ensures DecodeEntry(entry).0 == entry
    ensures DecodeEntry(entry) != (f.path, f.modTime)
  {
    if '|' !in entry {
      SplitWithoutSeparator(entry, '|');
    } else {
      var head, tail :| entry == head + "|" + tail && '|' !in tail && ParseInt64(tail).None?;
      assert entry == head + ['|'] + tail;
      SplitAtSeparator(head, tail, '|');
      SplitWithoutSeparator(tail, '|');
    }
  }
}
