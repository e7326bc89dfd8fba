/**
 Installing an archive whose members may share cache paths, read off one path at a time. Every member
 is judged against the manifest from before the sync, so a second member on a path may find the first
 one "modified".
 */
module BundleMembers {
  import opened Prelude
  import opened BundleSync

  /** What one path holds: the file, the checksum recorded so far, and what the cache last wrote there. */
  datatype Spot = Spot(file: Option<Content>, sum: Option<string>, last: Option<Content>)

  predicate MayWrite(hash: Hash, prev: Option<string>, file: Option<Content>) {
    file.None? || prev == Some(hash(file.value))
  }

  function Put(hash: Hash, prev: Option<string>, s: Spot, c: Content): Spot {
    if MayWrite(hash, prev, s.file) then Spot(Some(c), Some(hash(c)), Some(c))
    else if prev.Some? then s.(sum := prev)
    else s
  }

  function PutAll(hash: Hash, prev: Option<string>, s: Spot, cs: seq<Content>): Spot
    decreases cs
  {
    if cs == [] then s else PutAll(hash, prev, Put(hash, prev, s, cs[0]), cs[1..])
  }

  /** The contents of the members on one path, in archive order. */
  function Members(files: seq<File>, p: string): seq<Content> {
    if files == [] then [] else (if files[0].path == p then [files[0].content] else []) + Members(files[1..], p)
  }

  /** What the cache has last written at each path, the installation loop included. */
  function LastWritten(hash: Hash, prev: Sums, s: Progress, last: Disk, files: seq<File>): Disk
    decreases files
  {
    if files == [] then last
    else
      var f := files[0];
      LastWritten(hash, prev, InstallOne(hash, prev, s, f),
                  if Writable(hash, s.disk, prev, f.path) then last[f.path := f.content] else last, files[1..])
  }

  function SpotAt(s: Progress, last: Disk, p: string): Spot {
    Spot(Recorded(s.disk, p), Recorded(s.sums, p), Recorded(last, p))
  }

  /** The loop over all members is, at each path, the loop over the members on that path. */
  lemma {:induction false} InstallAllAt(hash: Hash, prev: Sums, s: Progress, last: Disk, files: seq<File>, p: string)
    ensures SpotAt(InstallAll(hash, prev, s, files), LastWritten(hash, prev, s, last, files), p)
         == PutAll(hash, Recorded(prev, p), SpotAt(s, last, p), Members(files, p))
    decreases files
  {
    if files != [] {
      var f := files[0];
      var next := InstallOne(hash, prev, s, f);
      var last' := if Writable(hash, s.disk, prev, f.path) then last[f.path := f.content] else last;
      InstallAllAt(hash, prev, next, last', files[1..], p);
      if f.path == p {
        assert SpotAt(next, last', p) == Put(hash, Recorded(prev, p), SpotAt(s, last, p), f.content);
        assert Members(files, p)[0] == f.content && Members(files, p)[1..] == Members(files[1..], p);
      } else {
        assert SpotAt(next, last', p) == SpotAt(s, last, p);
        assert Members(files, p) == Members(files[1..], p);
      }
    }
  }

  // ---------------------------------------------------------------- one path

  /** A file that may not be written keeps its content; a managed one keeps its old checksum. */
  lemma {:induction false} PutAllRefused(hash: Hash, prev: Option<string>, s: Spot, cs: seq<Content>)
    requires !MayWrite(hash, prev, s.file) && cs != []
    ensures PutAll(hash, prev, s, cs) == if prev.Some? then s.(sum := prev) else s
    decreases cs
  {
    if |cs| > 1 {
      PutAllRefused(hash, prev, Put(hash, prev, s, cs[0]), cs[1..]);
    }
  }

  /** The first member whose checksum is not `sum`, or the last one. */
  function StopsAt(hash: Hash, sum: string, cs: seq<Content>): (i: nat)
    requires cs != []
    ensures i < |cs| && (i < |cs| - 1 ==> hash(cs[i]) != sum) && forall j | 0 <= j < i :: hash(cs[j]) == sum
  {
    if |cs| == 1 || hash(cs[0]) != sum then 0 else 1 + StopsAt(hash, sum, cs[1..])
  }

  /** A managed path is rewritten up to and including the first member with another checksum. */
  lemma {:induction false} PutAllManaged(hash: Hash, sum: string, s: Spot, cs: seq<Content>)
    requires MayWrite(hash, Some(sum), s.file) && cs != []
    ensures var i := StopsAt(hash, sum, cs);
            PutAll(hash, Some(sum), s, cs)
            == Spot(Some(cs[i]), Some(if i == |cs| - 1 then hash(cs[i]) else sum), Some(cs[i]))
    decreases cs
  {
    var next := Put(hash, Some(sum), s, cs[0]);
    if |cs| == 1 {
      assert PutAll(hash, Some(sum), next, cs[1..]) == next;
    } else if hash(cs[0]) != sum {
      PutAllRefused(hash, Some(sum), next, cs[1..]);
    } else {
      PutAllManaged(hash, sum, next, cs[1..]);
    }
  }

  /** A path without a manifest entry takes its first member, if there was no file. */
  lemma PutAllUnmanaged(hash: Hash, s: Spot, cs: seq<Content>)
    requires cs != []
    ensures PutAll(hash, None, s, cs) == if s.file.None? then Spot(Some(cs[0]), Some(hash(cs[0])), Some(cs[0])) else s
  {
    if s.file.Some? {
      PutAllRefused(hash, None, s, cs);
    } else if |cs| > 1 {
      PutAllRefused(hash, None, Put(hash, None, s, cs[0]), cs[1..]);
    } else {
      assert cs[1..] == [];
    }
  }

  // ---------------------------------------------------------------- the checksum recorded, and pruning

  /** Every member but the last has checksum `sum`. */
  predicate AllButLastMatch(hash: Hash, sum: string, cs: seq<Content>) {
    forall i | 0 <= i < |cs| - 1 :: hash(cs[i]) == sum
  }

  /**
   What a caller can check before the sync: the path has no manifest entry, or the user owns the file
   there, or every member on it but the last has the checksum the manifest records already.
   */
  predicate Truthful(hash: Hash, prev: Option<string>, file: Option<Content>, cs: seq<Content>) {
    prev.None? || !MayWrite(hash, prev, file) || AllButLastMatch(hash, prev.value, cs)
  }

  /** The recorded checksum is that of what was last written. */
  predicate TellsTruth(hash: Hash, s: Spot) {
    s.sum.Some? ==> s.last.Some? && s.sum == Some(hash(s.last.value))
  }

  function PruneSpot(hash: Hash, prev: Option<string>, s: Spot): Spot {
    if prev.None? || s.sum.Some? || s.file.None? then s
    else if prev == Some(hash(s.file.value)) then s.(file := None)
    else s.(sum := prev)
  }

  lemma PruneAt(hash: Hash, prev: Sums, s: Progress, last: Disk, p: string)
    ensures SpotAt(Prune(hash, prev, s), last, p) == PruneSpot(hash, Recorded(prev, p), SpotAt(s, last, p))
  {}

  /** A whole archive sync at one path. */
  function Extracted(hash: Hash, prev: Option<string>, file: Option<Content>, last: Option<Content>, cs: seq<Content>): Spot {
    PruneSpot(hash, prev, PutAll(hash, prev, Spot(file, None, last), cs))
  }

  /** If the old manifest told the truth, the new one does exactly under the condition above. */
  lemma ExtractedTellsTruth(hash: Hash, prev: Option<string>, file: Option<Content>, last: Option<Content>, cs: seq<Content>)
    requires TellsTruth(hash, Spot(file, prev, last))
    ensures TellsTruth(hash, Extracted(hash, prev, file, last, cs)) <==> Truthful(hash, prev, file, cs)
  {
    var s := Spot(file, None, last);
    if cs != [] {
      if prev.None? {
        PutAllUnmanaged(hash, s, cs);
      } else if MayWrite(hash, prev, file) {
        PutAllManaged(hash, prev.value, s, cs);
      } else {
        PutAllRefused(hash, prev, s, cs);
      }
    }
  }

  /** A second sync of the same archive changes nothing at the path. */
  predicate Settled(hash: Hash, s: Spot, cs: seq<Content>) {
    var again := Extracted(hash, s.sum, s.file, s.last, cs);
    again.file == s.file && again.sum == s.sum
  }

  /** All members have one checksum, and the last one is the first one again. */
  predicate Uniform(hash: Hash, cs: seq<Content>) {
    cs != [] && cs[|cs| - 1] == cs[0] && forall i | 0 <= i < |cs| :: hash(cs[i]) == hash(cs[0])
  }

  /** When repeating an archive sync at one path is the identity, in terms of the state before the first. */
  predicate Repeatable(hash: Hash, prev: Option<string>, file: Option<Content>, cs: seq<Content>) {
    || |cs| <= 1
    || (if prev.None? then file.Some? || Uniform(hash, cs)
        else !MayWrite(hash, prev, file) || !AllButLastMatch(hash, prev.value, cs)
             || hash(cs[|cs| - 1]) == prev.value)
  }

  lemma ExtractedIsRepeatable(hash: Hash, prev: Option<string>, file: Option<Content>, last: Option<Content>, cs: seq<Content>)
    ensures Settled(hash, Extracted(hash, prev, file, last, cs), cs) <==> Repeatable(hash, prev, file, cs)
  {
    var s, once := Spot(file, None, last), Extracted(hash, prev, file, last, cs);
    if cs != [] {
      var again := Spot(once.file, None, once.last);
      if prev.None? {
        PutAllUnmanaged(hash, s, cs);
        if file.None? {
          PutAllManaged(hash, hash(cs[0]), again, cs);
        } else {
          PutAllUnmanaged(hash, again, cs);
        }
      } else if MayWrite(hash, prev, file) {
        PutAllManaged(hash, prev.value, s, cs);
        if MayWrite(hash, once.sum, once.file) {
          PutAllManaged(hash, once.sum.value, again, cs);
        } else {
          PutAllRefused(hash, once.sum, again, cs);
        }
      } else {
        PutAllRefused(hash, prev, s, cs);
        PutAllRefused(hash, once.sum, again, cs);
      }
    }
  }
}
