/** Matching files against the hash table. The digest is any function from contents to bytes. */
module Scanner {
  import opened Options
  import opened Files
  import opened Hex
  import opened HashDb

  const MAX_SCAN_SIZE := 500 * 1024 * 1024

  type Digest = Content -> seq<Byte>

  function HashOf(digest: Digest, c: Content): string { Encode(digest(c)) }

  datatype Match = Match(path: Path, hash: string, entry: Entry)

  datatype ScanResult = Matched(m: Match) | NoMatch | ScanFailed

  /** opens: the file can be opened and read. */
  function ScanFile(digest: Digest, fs: Fs, t: Table, p: Path, opens: bool): ScanResult {
    if p !in fs then ScanFailed
    else if !fs[p].Regular? || |fs[p].data| > MAX_SCAN_SIZE then NoMatch
    else if !opens then ScanFailed
    else
      var hash := HashOf(digest, fs[p].data);
      var found := Lookup(t, hash);
      if found.None? then NoMatch else Matched(Match(p, hash, found.value))
  }

  lemma SmallIsNormal(c: char)
    requires IsSmall(c)
    ensures c !in UPPER && c !in SPACES
  {
    hide UPPER, SPACES;
    CapitalListed(c);
    SpaceListed(c);
  }

  /** A printed digest is already in normal form. */
  lemma HashIsNormal(bs: seq<Byte>)
    ensures IsKey(Encode(bs)) && Normalize(Encode(bs)) == Encode(bs)
  {
    hide Encode, EncodeUpper, Normalize, IsSmall, UPPER, SPACES;
    EncodeReadsBack(bs);
    forall i | 0 <= i < |Encode(bs)| ensures Encode(bs)[i] !in UPPER && Encode(bs)[i] !in SPACES {
      SmallIsNormal(Encode(bs)[i]);
    }
    KeyIsNormal(Encode(bs));
  }

  ghost predicate AddsVariant(op: Op, key: string) {
    op.Batch? && exists i :: 0 <= i < |Written(op)| && VariantOf(Written(op)[i].hash, key)
  }

  ghost predicate DropsVariant(op: Op, key: string) {
    op.Removal? && VariantOf(op.hash, key)
  }

  ghost predicate LiveVariant(ops: seq<Op>, key: string) {
    exists i :: 0 <= i < |ops| && AddsVariant(ops[i], key) && forall j :: i < j < |ops| ==> !DropsVariant(ops[j], key)
  }

  lemma VariantOps(op: Op, key: string)
    requires IsKey(key)
    ensures Adds(op, key) <==> AddsVariant(op, key)
    ensures Drops(op, key) <==> DropsVariant(op, key)
  {
    hide Normalize, VariantOf, IsKey;
    match op
    case Batch(_, _) =>
      forall i | 0 <= i < |Written(op)|
        ensures Normalize(Written(op)[i].hash) == key <==> VariantOf(Written(op)[i].hash, key)
      {
        NormalizeFindsVariants(Written(op)[i].hash, key);
      }
    case Removal(h) => NormalizeFindsVariants(h, key);
  }

  lemma LiveVariants(ops: seq<Op>, key: string)
    requires IsKey(key)
    ensures LiveKey(ops, key) <==> LiveVariant(ops, key)
  {
    hide Adds, Drops, AddsVariant, DropsVariant;
    forall i | 0 <= i < |ops|
      ensures Adds(ops[i], key) <==> AddsVariant(ops[i], key)
      ensures Drops(ops[i], key) <==> DropsVariant(ops[i], key)
    {
      VariantOps(ops[i], key);
    }
    if LiveKey(ops, key) {
      var i :| 0 <= i < |ops| && Adds(ops[i], key) && forall j :: i < j < |ops| ==> !Drops(ops[j], key);
      assert AddsVariant(ops[i], key);
    }
    if LiveVariant(ops, key) {
      var i :| 0 <= i < |ops| && AddsVariant(ops[i], key) && forall j :: i < j < |ops| ==> !DropsVariant(ops[j], key);
      assert Adds(ops[i], key);
    }
  }

  /** A regular file of at most 500 MiB; others are skipped. */
  predicate Scannable(fs: Fs, p: Path) { p in fs && fs[p].Regular? && |fs[p].data| <= 524288000 }

  /** After any run of batches and removals, a file matches exactly when it is scannable and
      readable, and some spelling of its hash was added and none removed since. Scanning it
      fails exactly when it is not there or is scannable but not readable. */
  lemma ScanMatchesExactly(digest: Digest, fs: Fs, ops: seq<Op>, p: Path, opens: bool)
    ensures var r := ScanFile(digest, fs, HashDb.Run(map[], ops), p, opens);
            && (r.Matched? <==> Scannable(fs, p) && opens && LiveVariant(ops, HashOf(digest, fs[p].data)))
            && (r.ScanFailed? <==> p !in fs || (Scannable(fs, p) && !opens))
            && (r.Matched? ==>
                  && r.m.path == p && r.m.hash == r.m.entry.hash == HashOf(digest, fs[p].data)
                  && Get(HashDb.Run(map[], ops), r.m.hash) == Some(r.m.entry.row))
  {
    hide HashDb.Run, LiveVariant, Normalize, Encode;
    if p in fs && fs[p].Regular? {
      var hash := HashOf(digest, fs[p].data);
      HashIsNormal(digest(fs[p].data));
      TableHoldsLiveKeys(ops, hash);
      LiveVariants(ops, hash);
    }
  }

  /** The matches below a root, over the paths in the order in which they are walked. */
  function MatchesOf(digest: Digest, fs: Fs, t: Table, paths: seq<Path>, opens: Path -> bool): seq<Match> {
    if paths == [] then []
    else
      var p := paths[|paths| - 1];
      var rest, r := MatchesOf(digest, fs, t, paths[..|paths| - 1], opens), ScanFile(digest, fs, t, p, opens(p));
      if r.Matched? then rest + [r.m] else rest
  }

  /** A file that cannot be scanned does not stop the walk. */
  method Scan(digest: Digest, fs: Fs, t: Table, paths: seq<Path>, opens: Path -> bool) returns (matches: seq<Match>)
    ensures matches == MatchesOf(digest, fs, t, paths, opens)
  {
    matches := [];
    for i := 0 to |paths|
      invariant matches == MatchesOf(digest, fs, t, paths[..i], opens)
    {
      assert paths[..i + 1][..i] == paths[..i];
      var r := ScanFile(digest, fs, t, paths[i], opens(paths[i]));
      if r.Matched? { matches := matches + [r.m]; }
    }
    assert paths[..|paths|] == paths;
  }

  /** A walk reports its files one after the other. */
  lemma {:induction false} MatchesInOrder(digest: Digest, fs: Fs, t: Table, a: seq<Path>, b: seq<Path>,
                                              opens: Path -> bool)
    ensures MatchesOf(digest, fs, t, a + b, opens)
         == MatchesOf(digest, fs, t, a, opens) + MatchesOf(digest, fs, t, b, opens)
  {
    hide ScanFile;
    if b == [] {
      assert a + b == a;
    } else {
      var front, p := b[..|b| - 1], b[|b| - 1];
      MatchesInOrder(digest, fs, t, a, front, opens);
      assert (a + b)[..|a + b| - 1] == a + front && (a + b)[|a + b| - 1] == p;
      MatchesSnoc(digest, fs, t, a + b, opens);
      MatchesSnoc(digest, fs, t, b, opens);
    }
  }

  lemma MatchesSnoc(digest: Digest, fs: Fs, t: Table, paths: seq<Path>, opens: Path -> bool)
    requires paths != []
    ensures MatchesOf(digest, fs, t, paths, opens)
         == MatchesOf(digest, fs, t, paths[..|paths| - 1], opens)
            + OneMatch(digest, fs, t, paths[|paths| - 1], opens)
  {}

  /** The match of one file, if it has one. */
  function OneMatch(digest: Digest, fs: Fs, t: Table, p: Path, opens: Path -> bool): seq<Match> {
    var r := ScanFile(digest, fs, t, p, opens(p));
    if r.Matched? then [r.m] else []
  }

  /** And each match once. */
  lemma MatchesOnce(digest: Digest, fs: Fs, t: Table, p: Path, opens: Path -> bool)
    ensures MatchesOf(digest, fs, t, [p], opens) == OneMatch(digest, fs, t, p, opens)
  {
    assert [p][..0] == [];
  }

  /** A walk reports exactly the files that match. */
  lemma {:induction false} MatchesAreExact(digest: Digest, fs: Fs, t: Table, paths: seq<Path>, opens: Path -> bool,
                                               m: Match)
    ensures m in MatchesOf(digest, fs, t, paths, opens)
       <==> m.path in paths && ScanFile(digest, fs, t, m.path, opens(m.path)) == Matched(m)
  {
    hide Lookup, HashOf;
    if paths != [] {
      MatchesAreExact(digest, fs, t, paths[..|paths| - 1], opens, m);
      assert paths == paths[..|paths| - 1] + [paths[|paths| - 1]];
    }
  }
}
