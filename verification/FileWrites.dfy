/** Writing the candidate's files one by one, and rolling back when one fails. */
module FileWrites {
  import opened Common
  import opened Texts

  /** File contents as bytes, and absolute locations. */
  type Bytes = seq<nat>
  type Place = Text

  /** The two directions of UTF-8. Decoding replaces what is not valid, so
      encoding a decoded file need not give the file back. */
  datatype Codec = Codec(encode: Text -> Bytes, decode: Bytes -> Text)

  /** Where a relative path leads; `None` when the path is refused. Different
      paths such as "a" and "./a" may lead to one place. */
  type Resolver = Text -> Option<Place>

  datatype Entry = Entry(path: Text, content: Text)

  type Disk = map<Place, Bytes>

  /** What goes wrong while one file is written. */
  datatype Fault = NoFault | DirectoryFails | TempFails(leavesTemp: bool) | RenameFails

  /** A file that failed once its temporary file had been begun. */
  predicate LeavesTemp(fault: Fault) {
    fault.RenameFails? || (fault.TempFails? && fault.leavesTemp)
  }

  type Originals = map<Text, Option<Text>>

  function At(disk: Disk, p: Place): Option<Bytes> {
    if p in disk then Some(disk[p]) else None
  }

  function Recode(codec: Codec, bytes: Bytes): Bytes {
    codec.encode(codec.decode(bytes))
  }

  /** The content a place had, as it can be put back. */
  function Remembered(codec: Codec, disk: Disk, p: Place): Option<Text> {
    if p in disk then Some(codec.decode(disk[p])) else None
  }

  predicate Resolvable(resolve: Resolver, paths: seq<Text>) {
    forall p | p in paths :: resolve(p).Some?
  }

  /** The originals are those of `disk` for the given paths. */
  ghost predicate OriginalsOf(codec: Codec, resolve: Resolver, disk: Disk, paths: seq<Text>, originals: Originals) {
    && originals.Keys == Elements(paths) && Resolvable(resolve, paths)
    && forall p | p in paths :: originals[p] == Remembered(codec, disk, resolve(p).value)
  }

  function PathsOf(entries: seq<Entry>): seq<Text> {
    seq(|entries|, i requires 0 <= i < |entries| => entries[i].path)
  }

  // ---------------------------------------------------------------------
  // What writing and rolling back do to the disk

  function AfterWrites(codec: Codec, resolve: Resolver, disk: Disk, entries: seq<Entry>): Disk
    requires forall e | e in entries :: resolve(e.path).Some?
  {
    if entries == [] then disk
    else
      var last := entries[|entries| - 1];
      AfterWrites(codec, resolve, disk, entries[..|entries| - 1])[resolve(last.path).value := codec.encode(last.content)]
  }

  function Restore(codec: Codec, resolve: Resolver, disk: Disk, path: Text, originals: Originals): Disk
    requires resolve(path).Some?
  {
    var place := resolve(path).value;
    if path in originals && originals[path].Some? then disk[place := codec.encode(originals[path].value)] else disk - {place}
  }

  /** Rolling back the written paths, last one first. */
  function AfterRollback(codec: Codec, resolve: Resolver, disk: Disk, written: seq<Text>, originals: Originals): Disk
    requires Resolvable(resolve, written)
    decreases |written|
  {
    if written == [] then disk
    else
      var last := written[|written| - 1];
      AfterRollback(codec, resolve, Restore(codec, resolve, disk, last, originals), written[..|written| - 1], originals)
  }

  lemma {:induction false} RollbackReachesFirst(codec: Codec, resolve: Resolver, disk: Disk, first: Text, rest: seq<Text>, originals: Originals)
    requires Resolvable(resolve, [first] + rest) && Resolvable(resolve, rest) && resolve(first).Some?
    ensures AfterRollback(codec, resolve, disk, [first] + rest, originals)
            == Restore(codec, resolve, AfterRollback(codec, resolve, disk, rest, originals), first, originals)
    decreases |rest|
  {
    if rest == [] {
      assert [first] + rest == [first] && [first][..0] == [];
    } else {
      var init, last := rest[..|rest| - 1], rest[|rest| - 1];
      assert ([first] + rest)[..|rest|] == [first] + init;
      assert forall p | p in [first] + init :: p in [first] + rest;
      RollbackReachesFirst(codec, resolve, Restore(codec, resolve, disk, last, originals), first, init, originals);
    }
  }

  lemma RollbackReachesOneMore(codec: Codec, resolve: Resolver, before: Disk, now: Disk, written: seq<Text>, k: nat, originals: Originals)
    requires 0 < k <= |written| && Resolvable(resolve, written)
    requires now == AfterRollback(codec, resolve, before, written[k..], originals)
    ensures Restore(codec, resolve, now, written[k - 1], originals) == AfterRollback(codec, resolve, before, written[k - 1..], originals)
  {
    assert written[k - 1..] == [written[k - 1]] + written[k..];
    RollbackReachesFirst(codec, resolve, before, written[k - 1], written[k..], originals);
  }

  /** The path numbered `k` could not be put back, and all that come after it were. */
  ghost predicate PutBackFrom(codec: Codec, resolve: Resolver, before: Disk, after: Disk, written: seq<Text>, originals: Originals,
                              works: nat -> bool, k: nat)
    requires Resolvable(resolve, written)
  {
    && k < |written| && !works(k) && (forall i | k < i < |written| :: works(i))
    && after == AfterRollback(codec, resolve, before, written[k + 1..], originals)
  }

  /** The last entry that leads to a place, if any. */
  function LastFor(resolve: Resolver, entries: seq<Entry>, p: Place): Option<Entry> {
    if entries == [] then None
    else if resolve(entries[|entries| - 1].path) == Some(p) then Some(entries[|entries| - 1])
    else LastFor(resolve, entries[..|entries| - 1], p)
  }

  /** Each place holds the content of its last entry, every other place what it
      held before. */
  ghost predicate AllWritten(codec: Codec, resolve: Resolver, before: Disk, after: Disk, entries: seq<Entry>) {
    forall p :: At(after, p) ==
      match LastFor(resolve, entries, p)
      case Some(e) => Some(codec.encode(e.content))
      case None => At(before, p)
  }

  /** Each place holds what it held before, recoded if it had been written. */
  ghost predicate PutBackAll(codec: Codec, resolve: Resolver, before: Disk, after: Disk, written: seq<Text>) {
    forall p :: At(after, p) == PutBack(codec, before, before, Touched(resolve, written, p), p)
  }

  /** Once all is written, each place holds the content of its last entry, and
      every other place is as before. */
  lemma {:induction false} LastEntryWins(codec: Codec, resolve: Resolver, disk: Disk, entries: seq<Entry>, p: Place)
    requires forall e | e in entries :: resolve(e.path).Some?
    ensures At(AfterWrites(codec, resolve, disk, entries), p) ==
              match LastFor(resolve, entries, p)
              case Some(e) => Some(codec.encode(e.content))
              case None => At(disk, p)
  {
    if entries != [] {
      LastEntryWins(codec, resolve, disk, entries[..|entries| - 1], p);
    }
  }

  predicate Touched(resolve: Resolver, written: seq<Text>, p: Place) {
    exists q :: q in written && resolve(q) == Some(p)
  }

  /** A place after rollback: put back if it was written, else untouched. */
  function PutBack(codec: Codec, before: Disk, now: Disk, touched: bool, p: Place): Option<Bytes> {
    if !touched then At(now, p)
    else if p in before then Some(Recode(codec, before[p]))
    else None
  }

  lemma {:induction false} RollbackPutsBack(codec: Codec, resolve: Resolver, before: Disk, now: Disk, written: seq<Text>,
                                            paths: seq<Text>, originals: Originals, p: Place)
    requires OriginalsOf(codec, resolve, before, paths, originals) && Resolvable(resolve, written)
    requires forall q | q in written :: q in paths
    ensures At(AfterRollback(codec, resolve, now, written, originals), p) ==
              PutBack(codec, before, now, Touched(resolve, written, p), p)
    decreases |written|
  {
    if written != [] {
      var init, last := written[..|written| - 1], written[|written| - 1];
      assert last in written && forall q :: q in written <==> q in init || q == last;
      var next := Restore(codec, resolve, now, last, originals);
      RollbackPutsBack(codec, resolve, before, next, init, paths, originals, p);
      assert originals[last] == Remembered(codec, before, resolve(last).value);
      assert Touched(resolve, written, p) <==> Touched(resolve, init, p) || resolve(last) == Some(p);
    }
  }

  lemma {:induction false} WritesTouch(codec: Codec, resolve: Resolver, disk: Disk, entries: seq<Entry>, p: Place)
    requires forall e | e in entries :: resolve(e.path).Some?
    requires !Touched(resolve, PathsOf(entries), p)
    ensures At(AfterWrites(codec, resolve, disk, entries), p) == At(disk, p)
  {
    if entries != [] {
      var init, last := entries[..|entries| - 1], entries[|entries| - 1];
      assert PathsOf(entries)[|init|] == last.path && PathsOf(entries)[..|init|] == PathsOf(init);
      assert last.path in PathsOf(entries);
      assert forall q | q in PathsOf(init) :: q in PathsOf(entries);
      WritesTouch(codec, resolve, disk, init, p);
    }
  }

  /** Writing some entries and rolling all of them back leaves every place as it
      was, up to recoding the files that were written: also when paths repeat or
      several lead to one place. */
  lemma RollbackRestores(codec: Codec, resolve: Resolver, disk: Disk, entries: seq<Entry>, paths: seq<Text>, originals: Originals)
    requires OriginalsOf(codec, resolve, disk, paths, originals)
    requires forall e | e in entries :: e.path in paths
    requires Resolvable(resolve, PathsOf(entries)) && forall e | e in entries :: resolve(e.path).Some?
    ensures PutBackAll(codec, resolve, disk,
                       AfterRollback(codec, resolve, AfterWrites(codec, resolve, disk, entries), PathsOf(entries), originals), PathsOf(entries))
  {
    var now := AfterWrites(codec, resolve, disk, entries);
    forall q | q in PathsOf(entries) ensures q in paths {
      var i :| 0 <= i < |PathsOf(entries)| && PathsOf(entries)[i] == q;
      assert entries[i] in entries;
    }
    forall p
      ensures At(AfterRollback(codec, resolve, now, PathsOf(entries), originals), p) ==
              PutBack(codec, disk, disk, Touched(resolve, PathsOf(entries), p), p)
    {
      RollbackPutsBack(codec, resolve, disk, now, PathsOf(entries), paths, originals, p);
      if !Touched(resolve, PathsOf(entries), p) { WritesTouch(codec, resolve, disk, entries, p); }
    }
  }

  /** The rollback is exact if and only if every file that was written over is
      one that UTF-8 decoding and encoding preserves. */
  lemma RollbackIsExactIffTextPreserved(codec: Codec, resolve: Resolver, disk: Disk, entries: seq<Entry>, paths: seq<Text>, originals: Originals)
    requires OriginalsOf(codec, resolve, disk, paths, originals)
    requires forall e | e in entries :: e.path in paths
    requires Resolvable(resolve, PathsOf(entries)) && forall e | e in entries :: resolve(e.path).Some?
    ensures AfterRollback(codec, resolve, AfterWrites(codec, resolve, disk, entries), PathsOf(entries), originals) == disk <==>
            forall p | p in disk && Touched(resolve, PathsOf(entries), p) :: Recode(codec, disk[p]) == disk[p]
  {
    RollbackRestores(codec, resolve, disk, entries, paths, originals);
    var after := AfterRollback(codec, resolve, AfterWrites(codec, resolve, disk, entries), PathsOf(entries), originals);
    if forall p | p in disk && Touched(resolve, PathsOf(entries), p) :: Recode(codec, disk[p]) == disk[p] {
      forall p ensures At(after, p) == At(disk, p) {}
      SameEverywhere(after, disk);
    }
    if after == disk {
      forall p | p in disk && Touched(resolve, PathsOf(entries), p)
        ensures Recode(codec, disk[p]) == disk[p]
      {
        assert At(after, p) == Some(Recode(codec, disk[p]));
      }
    }
  }

  /** The one byte FF is not UTF-8: it is read as the replacement character, which
      is written as three bytes. */
  predicate ReplacesInvalid(codec: Codec) {
    codec.decode([0xFF]) == [0xFFFD] && codec.encode([0xFFFD]) == [0xEF, 0xBF, 0xBD]
  }

  /** So with every such codec, writing over a file of that one byte and rolling
      back leaves it as three other bytes, and all else as it was. */
  lemma RollbackCanChangeBytes(codec: Codec, resolve: Resolver, disk: Disk, path: Text, place: Place, content: Text)
    requires ReplacesInvalid(codec) && resolve(path) == Some(place) && At(disk, place) == Some([0xFF])
    ensures var entries, originals := [Entry(path, content)], map[path := Some([0xFFFD])];
            && OriginalsOf(codec, resolve, disk, [path], originals) && Resolvable(resolve, PathsOf(entries))
            && AfterRollback(codec, resolve, AfterWrites(codec, resolve, disk, entries), PathsOf(entries), originals)
               == disk[place := [0xEF, 0xBF, 0xBD]] != disk
  {
    var entries := [Entry(path, content)];
    var originals: Originals := map[path := Some([0xFFFD])];
    var now := AfterWrites(codec, resolve, disk, entries);
    assert entries[0] == Entry(path, content) && PathsOf(entries) == [path];
    assert entries[..0] == [] && PathsOf(entries)[..0] == [];
    assert AfterRollback(codec, resolve, now, [path], originals) == Restore(codec, resolve, now, path, originals);
    assert AfterWrites(codec, resolve, disk, []) == disk && now == disk[place := codec.encode(content)];
    assert now[place := [0xEF, 0xBF, 0xBD]] == disk[place := [0xEF, 0xBF, 0xBD]];
    assert disk[place] == [0xFF] != [0xEF, 0xBF, 0xBD] by { assert |[0xEF, 0xBF, 0xBD]| == 3; }
  }

  lemma SameEverywhere(a: Disk, b: Disk)
    requires forall p :: At(a, p) == At(b, p)
    ensures a == b
  {
    assert forall p :: p in a <==> At(a, p).Some?;
    assert forall p :: p in b <==> At(b, p).Some?;
    assert forall p | p in a :: a[p] == At(a, p).value;
    assert forall p | p in b :: b[p] == At(b, p).value;
  }

  /** How many entries are written before the first that fails. */
  function Written(resolve: Resolver, entries: seq<Entry>, faults: nat -> Fault): (w: nat)
    ensures w <= |entries|
  {
    if entries == [] then 0
    else
      var n := |entries| - 1;
      var before := Written(resolve, entries[..n], faults);
      if before == n && resolve(entries[n].path).Some? && faults(n).NoFault? then n + 1 else before
  }

  lemma {:induction false} WrittenIsFirstFault(resolve: Resolver, entries: seq<Entry>, faults: nat -> Fault)
    ensures var w := Written(resolve, entries, faults);
            && (forall i | 0 <= i < w :: resolve(entries[i].path).Some? && faults(i).NoFault?)
            && (w < |entries| ==> resolve(entries[w].path).None? || !faults(w).NoFault?)
  {
    if entries != [] { WrittenIsFirstFault(resolve, entries[..|entries| - 1], faults); }
  }

  // ---------------------------------------------------------------------

  class Repository {
    const codec: Codec
    const resolve: Resolver
    var disk: Disk
    var strayTemps: nat

    constructor (codec: Codec, resolve: Resolver, disk: Disk)
      ensures this.codec == codec && this.resolve == resolve && this.disk == disk && strayTemps == 0
    {
      this.codec, this.resolve, this.disk, strayTemps := codec, resolve, disk, 0;
    }

    /** Reads what the paths hold now; `None` when a path is refused or a read
        fails otherwise than by the file not existing. */
    method ReadOriginalFiles(paths: seq<Text>, readable: nat -> bool) returns (r: Option<Originals>)
      ensures r.Some? <==> Resolvable(resolve, paths) && forall i | 0 <= i < |paths| :: readable(i)
      ensures r.Some? ==> OriginalsOf(codec, resolve, disk, paths, r.value)
    {
      var originals: Originals := map[];
      for k := 0 to |paths|
        invariant OriginalsOf(codec, resolve, disk, paths[..k], originals)
        invariant forall i | 0 <= i < k :: readable(i)
      {
        assert paths[..k + 1] == paths[..k] + [paths[k]];
        var place := resolve(paths[k]);
        if place.None? || !readable(k) {
          assert paths[k] in paths;
          return None;
        }
        originals := originals[paths[k] := Remembered(codec, disk, place.value)];
      }
      assert paths[..|paths|] == paths;
      r := Some(originals);
    }

    /** Puts the written paths back, last first, up to one that cannot be. */
    method RollbackWrittenFiles(written: seq<Text>, originals: Originals, works: nat -> bool) returns (ok: bool)
      requires Resolvable(resolve, written)
      modifies this`disk
      ensures ok <==> forall i | 0 <= i < |written| :: works(i)
      ensures ok ==> disk == AfterRollback(codec, resolve, old(disk), written, originals)
      ensures !ok ==> exists k: nat :: PutBackFrom(codec, resolve, old(disk), disk, written, originals, works, k)
    {
      var k := |written|;
      assert written[k..] == [];
      while k > 0
        invariant 0 <= k <= |written|
        invariant forall i | k <= i < |written| :: works(i)
        invariant disk == AfterRollback(codec, resolve, old(disk), written[k..], originals)
      {
        RollbackReachesOneMore(codec, resolve, old(disk), disk, written, k, originals);
        k := k - 1;
        if !works(k) {
          assert PutBackFrom(codec, resolve, old(disk), disk, written, originals, works, k);
          return false;
        }
        disk := Restore(codec, resolve, disk, written[k], originals);
      }
      assert written[0..] == written;
      ok := true;
    }

    /** One file: a temporary file beside the target, renamed over it. It stays
        behind only when the write fails after it was begun. */
    method WriteFile(e: Entry, fault: Fault) returns (ok: bool)
      modifies this
      ensures ok <==> resolve(e.path).Some? && fault.NoFault?
      ensures ok ==> disk == old(disk)[resolve(e.path).value := codec.encode(e.content)] && strayTemps == old(strayTemps)
      ensures !ok ==> disk == old(disk)
      ensures strayTemps == old(strayTemps) + if resolve(e.path).Some? && LeavesTemp(fault) then 1 else 0
    {
      var place := resolve(e.path);
      if place.None? || fault.DirectoryFails? { return false; }
      if fault.TempFails? {
        if fault.leavesTemp { strayTemps := strayTemps + 1; }
        return false;
      }
      if fault.RenameFails? {
        strayTemps := strayTemps + 1;
        return false;
      }
      disk := disk[place.value := codec.encode(e.content)];
      ok := true;
    }

    /** All files or none: on success each place holds its last entry; when a file
        fails and the rollback steps work, every place holds what it held before,
        recoded if it had been written. At most one temporary file is left. */
    method WriteFilesAtomically(entries: seq<Entry>, originals: Originals, faults: nat -> Fault, works: nat -> bool)
      returns (ok: bool, rolledBack: bool)
      requires OriginalsOf(codec, resolve, disk, PathsOf(entries), originals)
      modifies this
      ensures ok <==> Written(resolve, entries, faults) == |entries|
      ensures ok ==> strayTemps == old(strayTemps) && AllWritten(codec, resolve, old(disk), disk, entries)
      ensures !ok ==> var w := Written(resolve, entries, faults);
                      w < |entries| && strayTemps == old(strayTemps) + if LeavesTemp(faults(w)) then 1 else 0
      ensures rolledBack <==> !ok && forall i | 0 <= i < Written(resolve, entries, faults) :: works(i)
      ensures rolledBack ==> PutBackAll(codec, resolve, old(disk), disk, PathsOf(entries[..Written(resolve, entries, faults)]))
    {
      var written: seq<Text> := [];
      rolledBack := false;
      ghost var before := disk;
      AllResolvable(resolve, entries);
      assert PathsOf(entries[..0]) == [];
      for k := 0 to |entries|
        invariant Written(resolve, entries[..k], faults) == k
        invariant written == PathsOf(entries[..k]) && strayTemps == old(strayTemps)
        invariant disk == AfterWrites(codec, resolve, before, entries[..k])
      {
        WrittenSoFar(resolve, entries, faults, k);
        ok := WriteFile(entries[k], faults(k));
        if !ok {
          rolledBack := RollbackWrittenFiles(written, originals, works);
          if rolledBack { RollbackRestores(codec, resolve, before, entries[..k], PathsOf(entries), originals); }
          return;
        }
        OneMoreWritten(codec, resolve, before, entries, k);
        written := written + [entries[k].path];
      }
      assert entries[..|entries|] == entries;
      EveryPlaceWritten(codec, resolve, before, entries);
      ok := true;
    }
  }

  lemma OneMoreWritten(codec: Codec, resolve: Resolver, disk: Disk, entries: seq<Entry>, k: nat)
    requires k < |entries| && forall e | e in entries :: resolve(e.path).Some?
    ensures PathsOf(entries[..k + 1]) == PathsOf(entries[..k]) + [entries[k].path]
    ensures AfterWrites(codec, resolve, disk, entries[..k + 1])
            == AfterWrites(codec, resolve, disk, entries[..k])[resolve(entries[k].path).value := codec.encode(entries[k].content)]
  {
    assert entries[..k + 1][..k] == entries[..k];
  }

  lemma {:induction false} WrittenSoFar(resolve: Resolver, entries: seq<Entry>, faults: nat -> Fault, k: nat)
    requires k < |entries| && Written(resolve, entries[..k], faults) == k
    ensures Written(resolve, entries[..k + 1], faults) == if resolve(entries[k].path).Some? && faults(k).NoFault? then k + 1 else k
    ensures resolve(entries[k].path).None? || !faults(k).NoFault? ==> Written(resolve, entries, faults) == k
  {
    assert entries[..k + 1][..k] == entries[..k];
    if resolve(entries[k].path).None? || !faults(k).NoFault? {
      StuckAt(resolve, entries, faults, k, |entries|);
      assert entries[..|entries|] == entries;
    }
  }

  lemma {:induction false} StuckAt(resolve: Resolver, entries: seq<Entry>, faults: nat -> Fault, k: nat, n: nat)
    requires k < n <= |entries| && Written(resolve, entries[..k + 1], faults) == k
    ensures Written(resolve, entries[..n], faults) == k
  {
    if n > k + 1 {
      StuckAt(resolve, entries, faults, k, n - 1);
      assert entries[..n][..n - 1] == entries[..n - 1];
    }
  }

  lemma EveryPlaceWritten(codec: Codec, resolve: Resolver, disk: Disk, entries: seq<Entry>)
    requires forall e | e in entries :: resolve(e.path).Some?
    ensures AllWritten(codec, resolve, disk, AfterWrites(codec, resolve, disk, entries), entries)
  {
    forall p { LastEntryWins(codec, resolve, disk, entries, p); }
  }

  lemma AllResolvable(resolve: Resolver, entries: seq<Entry>)
    requires Resolvable(resolve, PathsOf(entries))
    ensures forall e | e in entries :: resolve(e.path).Some? && e.path in PathsOf(entries)
    ensures forall k | 0 <= k <= |entries| :: Resolvable(resolve, PathsOf(entries[..k]))
  {
    forall e | e in entries ensures resolve(e.path).Some? && e.path in PathsOf(entries) {
      var i :| 0 <= i < |entries| && entries[i] == e;
      assert PathsOf(entries)[i] == e.path;
    }
    forall k | 0 <= k <= |entries| ensures Resolvable(resolve, PathsOf(entries[..k])) {
      assert PathsOf(entries[..k]) == PathsOf(entries)[..k];
    }
  }
}
