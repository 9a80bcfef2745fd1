/** The table of known-bad hashes: a source priority and a normalised key. */
module HashDb {
  import opened Options

  /** A row; the table is keyed by its hash column. */
  datatype Row = Row(name: string, source: string, addedAt: int)

  /** An entry as a caller supplies it. */
  datatype Entry = Entry(hash: string, row: Row)

  type Table = map<string, Row>

  const MANUAL := "manual"
  const FEED := "feed"

  // ----- normalisation ---------------------------------------------------------------------

  /** The characters strings.TrimSpace removes. */
  predicate IsSpace(c: char) {
    || '\t' <= c <= '\r' || c == ' ' || c == '\U{0085}' || c == '\U{00A0}' || c == '\U{1680}'
    || '\U{2000}' <= c <= '\U{200A}' || c == '\U{2028}' || c == '\U{2029}' || c == '\U{202F}'
    || c == '\U{205F}' || c == '\U{3000}'
  }

  function LowerChar(c: char): char {
    if 'A' <= c <= 'Z' then (c as int - 'A' as int + 'a' as int) as char else c
  }

  function Lower(s: string): string { seq(|s|, i requires 0 <= i < |s| => LowerChar(s[i])) }

  function TrimLeft(s: string): string {
    if s != [] && IsSpace(s[0]) then TrimLeft(s[1..]) else s
  }

  function TrimRight(s: string): string {
    if s != [] && IsSpace(s[|s| - 1]) then TrimRight(s[..|s| - 1]) else s
  }

  function Normalize(s: string): string { Lower(TrimRight(TrimLeft(s))) }

  // ----- spellings -------------------------------------------------------------------------

  const UPPER := "ABCDEFGHIJKLMNOPQRSTUVWXYZ"
  const LOWER := "abcdefghijklmnopqrstuvwxyz"

  /** Unicode's white space. */
  const SPACES := "\t\n\U{000B}\U{000C}\r \U{0085}\U{00A0}\U{1680}"
    + "\U{2000}\U{2001}\U{2002}\U{2003}\U{2004}\U{2005}\U{2006}\U{2007}\U{2008}\U{2009}\U{200A}"
    + "\U{2028}\U{2029}\U{202F}\U{205F}\U{3000}"

  ghost predicate AllSpace(s: string) { forall i :: 0 <= i < |s| ==> s[i] in SPACES }

  ghost predicate Trimmed(s: string) { s != [] ==> s[0] !in SPACES && s[|s| - 1] !in SPACES }

  /** The same character, or the two cases of a letter. */
  ghost predicate SameLetter(c: char, d: char) {
    c == d || exists i :: 0 <= i < 26 && ((c == UPPER[i] && d == LOWER[i]) || (c == LOWER[i] && d == UPPER[i]))
  }

  /** The same text up to letter case. */
  ghost predicate SameLetters(s: string, t: string) {
    |s| == |t| && forall i :: 0 <= i < |s| ==> SameLetter(s[i], t[i])
  }

  /** No capitals, and no space around it. */
  ghost predicate IsKey(s: string) {
    Trimmed(s) && forall i :: 0 <= i < |s| ==> s[i] !in UPPER
  }

  /** The string is the key in some letter case with some space around it. */
  ghost predicate VariantOf(s: string, key: string) {
    exists pre, mid, post :: s == pre + mid + post && AllSpace(pre) && AllSpace(post) && SameLetters(mid, key)
  }

  /** Two strings are the same text up to letter case and the space around them. */
  ghost predicate SameSpelling(s: string, t: string) {
    exists core :: IsKey(core) && VariantOf(s, core) && VariantOf(t, core)
  }

  lemma SpaceListed(c: char)
    ensures IsSpace(c) <==> c in SPACES
  {
    if IsSpace(c) {
      SpaceIndex(c);
    }
  }

  lemma SpaceIndex(c: char)
    requires IsSpace(c)
    ensures exists i :: 0 <= i < |SPACES| && SPACES[i] == c
  {
    if c <= '\r' {
      assert SPACES[c as int - '\t' as int] == c;
    } else if '\U{2000}' <= c <= '\U{200A}' {
      assert SPACES[9 + c as int - '\U{2000}' as int] == c;
    } else {
      assert SPACES[5] == ' ' && SPACES[6] == '\U{0085}' && SPACES[7] == '\U{00A0}' && SPACES[8] == '\U{1680}';
      assert SPACES[20] == '\U{2028}' && SPACES[21] == '\U{2029}' && SPACES[22] == '\U{202F}';
      assert SPACES[23] == '\U{205F}' && SPACES[24] == '\U{3000}';
    }
  }

  lemma Letters()
    ensures |UPPER| == |LOWER| == 26
  {}

  lemma LetterIndex(i: nat)
    requires i < 26
    ensures UPPER[i] as int == 'A' as int + i && LOWER[i] as int == 'a' as int + i
  {}

  lemma CapitalListed(c: char)
    ensures c in UPPER <==> 'A' <= c <= 'Z'
  {
    if 'A' <= c <= 'Z' { LetterIndex(c as int - 'A' as int); }
  }

  lemma LowerKeepsSpace(c: char)
    ensures IsSpace(LowerChar(c)) <==> IsSpace(c)
  {}

  /** Lowercasing takes a capital to its small letter and leaves every other character. */
  lemma LowerCharIs(c: char)
    ensures SameLetter(c, LowerChar(c)) && LowerChar(c) !in UPPER
    ensures c !in UPPER ==> LowerChar(c) == c
    ensures c in SPACES <==> LowerChar(c) in SPACES
  {
    hide SPACES, IsSpace, UPPER, LOWER;
    CapitalListed(c);
    CapitalListed(LowerChar(c));
    if 'A' <= c <= 'Z' { LetterIndex(c as int - 'A' as int); }
    LowerKeepsSpace(c);
    SpaceListed(c);
    SpaceListed(LowerChar(c));
  }

  lemma LowerCharJoins(c: char, d: char)
    requires SameLetter(c, d)
    ensures LowerChar(c) == LowerChar(d)
  {
    if c != d {
      hide UPPER, LOWER;
      assert |UPPER| == |LOWER| == 26 by { Letters(); }
      var i :| 0 <= i < 26 && ((c == UPPER[i] && d == LOWER[i]) || (c == LOWER[i] && d == UPPER[i]));
      LetterIndex(i);
    }
  }

  /** Of all texts that are the same up to letter case, Lower finds the one without capitals. */
  lemma LowerFinds(s: string, key: string)
    requires forall i :: 0 <= i < |key| ==> key[i] !in UPPER
    ensures Lower(s) == key <==> SameLetters(s, key)
  {
    hide SameLetter, LowerChar;
    forall i | 0 <= i < |s| ensures SameLetter(s[i], LowerChar(s[i])) { LowerCharIs(s[i]); }
    if SameLetters(s, key) {
      forall i | 0 <= i < |s| ensures Lower(s)[i] == key[i] {
        LowerCharJoins(s[i], key[i]);
        LowerCharIs(key[i]);
      }
    }
  }

  // ----- trimming --------------------------------------------------------------------------

  lemma {:induction false} TrimLeftSplits(s: string) returns (pre: string)
    ensures s == pre + TrimLeft(s) && AllSpace(pre)
    ensures TrimLeft(s) != [] ==> TrimLeft(s)[0] !in SPACES
  {
    hide IsSpace, SPACES;
    pre := [];
    if s != [] {
      SpaceListed(s[0]);
      if IsSpace(s[0]) {
        var p := TrimLeftSplits(s[1..]);
        pre := [s[0]] + p;
        assert s == [s[0]] + s[1..];
      }
    }
  }

  lemma {:induction false} TrimRightSplits(s: string) returns (post: string)
    ensures s == TrimRight(s) + post && AllSpace(post)
    ensures TrimRight(s) != [] ==> TrimRight(s)[|TrimRight(s)| - 1] !in SPACES
    ensures TrimRight(s) != [] ==> TrimRight(s)[0] == s[0]
  {
    hide IsSpace, SPACES;
    post := [];
    if s != [] {
      SpaceListed(s[|s| - 1]);
      if IsSpace(s[|s| - 1]) {
        var p := TrimRightSplits(s[..|s| - 1]);
        post := p + [s[|s| - 1]];
        assert s == s[..|s| - 1] + [s[|s| - 1]];
      }
    }
  }

  lemma {:induction false} TrimLeftDrops(pre: string, s: string)
    requires AllSpace(pre) && (s != [] ==> s[0] !in SPACES)
    ensures TrimLeft(pre + s) == s
  {
    hide IsSpace, SPACES;
    if pre == [] {
      assert pre + s == s;
      if s != [] { SpaceListed(s[0]); }
    } else {
      SpaceListed(pre[0]);
      assert (pre + s)[1..] == pre[1..] + s;
      TrimLeftDrops(pre[1..], s);
    }
  }

  lemma {:induction false} TrimRightDrops(s: string, post: string)
    requires AllSpace(post) && (s != [] ==> s[|s| - 1] !in SPACES)
    ensures TrimRight(s + post) == s
  {
    hide IsSpace, SPACES;
    if post == [] {
      assert s + post == s;
      if s != [] { SpaceListed(s[|s| - 1]); }
    } else {
      SpaceListed(post[|post| - 1]);
      assert (s + post)[..|s + post| - 1] == s + post[..|post| - 1];
      TrimRightDrops(s, post[..|post| - 1]);
    }
  }

  lemma LowerTrimmed(s: string)
    ensures Trimmed(Lower(s)) <==> Trimmed(s)
    ensures forall i :: 0 <= i < |s| ==> Lower(s)[i] !in UPPER
  {
    hide LowerChar, SPACES;
    forall i | 0 <= i < |s| ensures LowerChar(s[i]) !in UPPER && (s[i] in SPACES <==> LowerChar(s[i]) in SPACES) {
      LowerCharIs(s[i]);
    }
  }

  /** Space around a string that carries none is dropped; what is left is lowercased. */
  lemma NormalizePadded(pre: string, mid: string, post: string)
    requires AllSpace(pre) && AllSpace(post) && Trimmed(mid)
    ensures Normalize(pre + mid + post) == Lower(mid)
  {
    hide SPACES, TrimLeft, TrimRight;
    if mid == [] {
      assert pre + mid + post == (pre + post) + [];
      TrimLeftDrops(pre + post, []);
      assert mid + mid == mid;
      TrimRightDrops(mid, mid);
    } else {
      assert pre + mid + post == pre + (mid + post);
      TrimLeftDrops(pre, mid + post);
      TrimRightDrops(mid, post);
    }
  }

  lemma NormalizeSplits(s: string) returns (pre: string, mid: string, post: string)
    ensures s == pre + mid + post && AllSpace(pre) && AllSpace(post) && Trimmed(mid) && Normalize(s) == Lower(mid)
  {
    hide SPACES, TrimLeft, TrimRight;
    pre := TrimLeftSplits(s);
    post := TrimRightSplits(TrimLeft(s));
    mid := TrimRight(TrimLeft(s));
  }

  /** The normal form is the one key a string is a variant of: no capitals, no space around it,
      and otherwise the letters of the string. */
  lemma NormalizeFindsVariants(s: string, key: string)
    ensures IsKey(Normalize(s)) && VariantOf(s, Normalize(s))
    ensures IsKey(key) ==> (Normalize(s) == key <==> VariantOf(s, key))
  {
    hide SPACES, UPPER, SameLetter, LowerChar;
    var pre, mid, post := NormalizeSplits(s);
    LowerTrimmed(mid);
    LowerFinds(mid, Lower(mid));
    assert s == pre + mid + post && SameLetters(mid, Normalize(s));
    if IsKey(key) && VariantOf(s, key) {
      VariantHasForm(s, key);
    }
  }

  lemma VariantHasForm(s: string, key: string)
    requires IsKey(key) && VariantOf(s, key)
    ensures Normalize(s) == key
  {
    hide SPACES, UPPER, SameLetter, LowerChar, Normalize;
    var pre, mid, post :| s == pre + mid + post && AllSpace(pre) && AllSpace(post) && SameLetters(mid, key);
    LowerFinds(mid, key);
    LowerTrimmed(mid);
    NormalizePadded(pre, mid, post);
  }

  /** Two strings meet in the table exactly when they are the same text up to letter case and
      the space around them. */
  lemma SameKeyIffSameSpelling(s: string, t: string)
    ensures Normalize(s) == Normalize(t) <==> SameSpelling(s, t)
  {
    hide Normalize, VariantOf, IsKey;
    NormalizeFindsVariants(s, Normalize(s));
    NormalizeFindsVariants(t, Normalize(t));
    if SameSpelling(s, t) {
      var core :| IsKey(core) && VariantOf(s, core) && VariantOf(t, core);
      NormalizeFindsVariants(s, core);
      NormalizeFindsVariants(t, core);
    }
  }

  /** Space put around a string does not matter. */
  lemma SpaceDoesNotMatter(pre: string, s: string, post: string)
    requires AllSpace(pre) && AllSpace(post)
    ensures Normalize(pre + s + post) == Normalize(s)
  {
    hide SPACES, UPPER, SameLetters, Normalize;
    var key := Normalize(s);
    NormalizeFindsVariants(s, key);
    var p, m, q :| s == p + m + q && AllSpace(p) && AllSpace(q) && SameLetters(m, key);
    assert pre + s + post == (pre + p) + m + (q + post);
    NormalizeFindsVariants(pre + s + post, key);
  }

  lemma {:induction false} TrimLeftLower(s: string)
    ensures TrimLeft(Lower(s)) == Lower(TrimLeft(s))
  {
    hide IsSpace, LowerChar;
    if s != [] {
      LowerKeepsSpace(s[0]);
      if IsSpace(s[0]) {
        TrimLeftLower(s[1..]);
        assert Lower(s)[1..] == Lower(s[1..]);
      }
    }
  }

  lemma {:induction false} TrimRightLower(s: string)
    ensures TrimRight(Lower(s)) == Lower(TrimRight(s))
  {
    hide IsSpace, LowerChar;
    if s != [] {
      LowerKeepsSpace(s[|s| - 1]);
      if IsSpace(s[|s| - 1]) {
        TrimRightLower(s[..|s| - 1]);
        assert Lower(s)[..|s| - 1] == Lower(s[..|s| - 1]);
      }
    }
  }

  /** Letter case does not matter, wherever in the string it differs. */
  lemma CaseDoesNotMatter(s: string, t: string)
    requires SameLetters(s, t)
    ensures Normalize(s) == Normalize(t)
  {
    hide LowerChar, SameLetter, TrimLeft, TrimRight;
    forall i | 0 <= i < |s| ensures LowerChar(s[i]) == LowerChar(t[i]) { LowerCharJoins(s[i], t[i]); }
    assert Lower(s) == Lower(t);
    TrimLeftLower(s);
    TrimLeftLower(t);
    TrimRightLower(TrimLeft(s));
    TrimRightLower(TrimLeft(t));
  }

  /** A key is its own normal form. */
  lemma KeyIsNormal(key: string)
    requires IsKey(key)
    ensures Normalize(key) == key
  {
    hide SPACES, UPPER, LowerChar;
    assert [] + key + [] == key;
    NormalizePadded([], key, []);
    LowerFinds(key, key);
  }

  lemma NormalizeIdempotent(s: string)
    ensures Normalize(Normalize(s)) == Normalize(s) && Trimmed(Normalize(s))
  {
    hide Normalize;
    NormalizeFindsVariants(s, Normalize(s));
    KeyIsNormal(Normalize(s));
  }

  // ----- operations ------------------------------------------------------------------------

  /** The CHECK constraint on the source column. */
  predicate ValidSource(source: string) { source == MANUAL || source == FEED }

  /** One turn of the Upsert loop; None when the insert is refused. */
  function UpsertOne(t: Table, e: Entry): Option<Table> {
    var key := Normalize(e.hash);
    if e.row.source == FEED && key in t && t[key].source == MANUAL then Some(t)
    else if !ValidSource(e.row.source) then None
    else Some(t[key := e.row])
  }

  datatype Outcome = Outcome(table: Table, ok: bool)

  /** The whole loop: it stops at the first entry that is refused, and what it has written by
      then stays. */
  function Upsert(t: Table, es: seq<Entry>): Outcome {
    if es == [] then Outcome(t, true)
    else
      var before := Upsert(t, es[..|es| - 1]);
      if !before.ok then before
      else
        var r := UpsertOne(before.table, es[|es| - 1]);
        if r.Some? then Outcome(r.value, true) else Outcome(before.table, false)
  }

  function Remove(t: Table, hash: string): Table { t - {Normalize(hash)} }

  function Lookup(t: Table, hash: string): Option<Entry> {
    var key := Normalize(hash);
    if key in t then Some(Entry(key, t[key])) else None
  }

  ghost predicate Normalized(t: Table) {
    forall k :: k in t ==> Normalize(k) == k
  }

  // ----- the closed form -------------------------------------------------------------------

  ghost predicate AllValid(es: seq<Entry>) {
    forall i :: 0 <= i < |es| ==> es[i].row.source == "manual" || es[i].row.source == "feed"
  }

  /** The entries before the first refused one. */
  function Accepted(es: seq<Entry>): (r: seq<Entry>)
    ensures r <= es && AllValid(r) && (|r| < |es| ==> !ValidSource(es[|r|].row.source))
  {
    if es == [] then []
    else
      var before := Accepted(es[..|es| - 1]);
      if |before| == |es| - 1 && ValidSource(es[|es| - 1].row.source) then es else before
  }

  /** The last entry of a batch with this key and source. */
  function Last(es: seq<Entry>, key: string, source: string): Option<Row> {
    if es == [] then None
    else
      var e := es[|es| - 1];
      if Normalize(e.hash) == key && e.row.source == source then Some(e.row)
      else Last(es[..|es| - 1], key, source)
  }

  function Get(t: Table, key: string): Option<Row> { if key in t then Some(t[key]) else None }

  /** The last manual entry of the batch, else a manual entry already there, else the last feed
      entry of the batch, else what is there. */
  function Final(t: Table, es: seq<Entry>, key: string): Option<Row> {
    var manual, feed, kept := Last(es, key, MANUAL), Last(es, key, FEED), Get(t, key);
    if manual.Some? then manual
    else if kept.Some? && kept.value.source == MANUAL then kept
    else if feed.Some? then feed
    else kept
  }

  lemma {:induction false} LastSource(es: seq<Entry>, key: string, source: string)
    ensures Last(es, key, source).Some? ==> Last(es, key, source).value.source == source
  {
    if es != [] { LastSource(es[..|es| - 1], key, source); }
  }

  /** What a batch leaves under a key depends only on the entries before the first refused one,
      and it succeeds exactly when there is no refused one. */
  lemma {:induction false} UpsertIsFinal(t: Table, es: seq<Entry>, key: string)
    ensures Upsert(t, es).ok <==> AllValid(es)
    ensures Get(Upsert(t, es).table, key) == Final(t, Accepted(es), key)
  {
    hide Normalize, Final, UpsertOne;
    if es != [] {
      var front, e := es[..|es| - 1], es[|es| - 1];
      UpsertIsFinal(t, front, key);
      UpsertIsFinal(t, front, Normalize(e.hash));
      if Upsert(t, front).ok { OneMoreEntry(t, front, e, Upsert(t, front).table, key); }
      assert front + [e] == es;
    } else {
      NoEntries(t, key);
    }
  }

  lemma NoEntries(t: Table, key: string)
    ensures Final(t, [], key) == Get(t, key)
  {}

  lemma OneMoreEntry(t: Table, es: seq<Entry>, e: Entry, u: Table, key: string)
    requires Get(u, key) == Final(t, es, key) && Get(u, Normalize(e.hash)) == Final(t, es, Normalize(e.hash))
    ensures UpsertOne(u, e).Some? <==> ValidSource(e.row.source)
    ensures UpsertOne(u, e).Some? ==> Get(UpsertOne(u, e).value, key) == Final(t, es + [e], key)
  {
    hide Normalize;
    LastSource(es, key, MANUAL);
    LastSource(es, key, FEED);
    assert (es + [e])[..|es|] == es;
  }

  lemma SameTables(a: Table, b: Table)
    requires forall k :: Get(a, k) == Get(b, k)
    ensures a == b
  {
    forall k
      ensures k in a <==> k in b
      ensures k in a && k in b ==> a[k] == b[k]
    {
      assert Get(a, k) == Get(b, k);
    }
  }

  /** Applying a batch again changes nothing, whether or not it is refused on the way. */
  lemma UpsertIdempotent(t: Table, es: seq<Entry>)
    ensures Upsert(Upsert(t, es).table, es) == Upsert(t, es)
  {
    hide Upsert, Normalize, Last, Accepted;
    var u := Upsert(t, es).table;
    forall k ensures Get(Upsert(u, es).table, k) == Get(u, k) {
      UpsertIsFinal(t, es, k);
      UpsertIsFinal(u, es, k);
      LastSource(Accepted(es), k, MANUAL);
      LastSource(Accepted(es), k, FEED);
    }
    SameTables(Upsert(u, es).table, u);
    UpsertIsFinal(t, es, "");
    UpsertIsFinal(u, es, "");
  }

  function OfSource(es: seq<Entry>, source: string): seq<Entry> {
    if es == [] then []
    else
      var rest, e := OfSource(es[..|es| - 1], source), es[|es| - 1];
      if e.row.source == source then rest + [e] else rest
  }

  lemma {:induction false} LastOfSource(es: seq<Entry>, key: string, source: string)
    ensures Last(es, key, source) == Last(OfSource(es, source), key, source)
  {
    hide Normalize;
    if es != [] {
      LastOfSource(es[..|es| - 1], key, source);
      var rest, e := OfSource(es[..|es| - 1], source), es[|es| - 1];
      assert (rest + [e])[..|rest|] == rest;
    }
  }

  /** How manual and feed entries are interleaved in a batch that is not refused makes no
      difference. */
  lemma InterleavingIrrelevant(t: Table, a: seq<Entry>, b: seq<Entry>)
    requires AllValid(a) && AllValid(b)
    requires OfSource(a, MANUAL) == OfSource(b, MANUAL) && OfSource(a, FEED) == OfSource(b, FEED)
    ensures Upsert(t, a) == Upsert(t, b)
  {
    hide Upsert, Normalize, Last, OfSource;
    forall k ensures Get(Upsert(t, a).table, k) == Get(Upsert(t, b).table, k) {
      UpsertIsFinal(t, a, k);
      UpsertIsFinal(t, b, k);
      LastOfSource(a, k, MANUAL);
      LastOfSource(b, k, MANUAL);
      LastOfSource(a, k, FEED);
      LastOfSource(b, k, FEED);
    }
    SameTables(Upsert(t, a).table, Upsert(t, b).table);
    UpsertIsFinal(t, a, "");
    UpsertIsFinal(t, b, "");
  }

  /** A refused entry leaves exactly the entries before it applied. */
  lemma {:induction false} FailedUpsertAppliesPrefix(t: Table, es: seq<Entry>)
    ensures Upsert(t, es).ok || exists n :: 0 <= n < |es| && Upsert(t, es[..n]) == Outcome(Upsert(t, es).table, true)
                                          && !ValidSource(es[n].row.source)
  {
    hide Normalize;
    if es != [] {
      var front := es[..|es| - 1];
      FailedUpsertAppliesPrefix(t, front);
      if !Upsert(t, front).ok {
        var n :| 0 <= n < |front| && Upsert(t, front[..n]) == Outcome(Upsert(t, front).table, true)
                 && !ValidSource(front[n].row.source);
        assert es[..n] == front[..n] && es[n] == front[n];
      } else if !Upsert(t, es).ok {
        assert es[..|es| - 1] == front;
      }
    }
  }

  // ----- runs ------------------------------------------------------------------------------

  /** done: how many entries a batch got through before the database failed. */
  datatype Op = Batch(entries: seq<Entry>, done: nat) | Removal(hash: string)

  function Taken(op: Op): seq<Entry>
    requires op.Batch?
  {
    if op.done < |op.entries| then op.entries[..op.done] else op.entries
  }

  /** The entries of a batch that were carried out. */
  function Written(op: Op): seq<Entry>
    requires op.Batch?
  {
    Accepted(Taken(op))
  }

  function Apply(t: Table, op: Op): Table {
    match op
    case Batch(_, _) => Upsert(t, Taken(op)).table
    case Removal(h) => Remove(t, h)
  }

  function Run(t: Table, ops: seq<Op>): Table {
    if ops == [] then t else Apply(Run(t, ops[..|ops| - 1]), ops[|ops| - 1])
  }

  ghost predicate IsSync(op: Op) {
    op.Batch? && forall i :: 0 <= i < |op.entries| ==> op.entries[i].row.source == FEED
  }

  lemma {:induction false} NoManual(es: seq<Entry>, key: string)
    requires forall i :: 0 <= i < |es| ==> es[i].row.source == FEED
    ensures Last(es, key, MANUAL).None?
  {
    if es != [] { NoManual(es[..|es| - 1], key); }
  }

  /** No number of feed syncs, complete or cut short, changes a manual entry. */
  lemma {:induction false} SyncsKeepManual(t: Table, ops: seq<Op>, key: string)
    requires forall i :: 0 <= i < |ops| ==> IsSync(ops[i])
    requires key in t && t[key].source == MANUAL
    ensures key in Run(t, ops) && Run(t, ops)[key] == t[key]
  {
    hide Upsert, Normalize, Last;
    if ops != [] {
      var front, op := ops[..|ops| - 1], ops[|ops| - 1];
      SyncsKeepManual(t, front, key);
      assert IsSync(op);
      NoManual(Written(op), key);
      UpsertIsFinal(Run(t, front), Taken(op), key);
    }
  }

  /** An entry of the batch, as far as it was carried out, has this key. */
  ghost predicate Adds(op: Op, key: string) {
    op.Batch? && exists i :: 0 <= i < |Written(op)| && Normalize(Written(op)[i].hash) == key
  }

  ghost predicate Drops(op: Op, key: string) {
    op.Removal? && Normalize(op.hash) == key
  }

  /** A variant of the key was added and no variant of it was removed since. */
  ghost predicate LiveKey(ops: seq<Op>, key: string) {
    exists i :: 0 <= i < |ops| && Adds(ops[i], key) && forall j :: i < j < |ops| ==> !Drops(ops[j], key)
  }

  lemma {:induction false} UpsertKeys(t: Table, es: seq<Entry>, key: string)
    ensures key in Upsert(t, es).table
       <==> key in t || exists i :: 0 <= i < |Accepted(es)| && Normalize(es[i].hash) == key
    ensures Normalized(t) ==> Normalized(Upsert(t, es).table)
  {
    hide Normalize;
    if es != [] {
      UpsertIsFinal(t, es[..|es| - 1], key);
      UpsertKeys(t, es[..|es| - 1], key);
      NormalizeIdempotent(es[|es| - 1].hash);
    }
  }

  /** A removed key comes back exactly when the next batch, up to a refused entry, holds some
      spelling of it, a feed sync included. */
  lemma RemovalLastsUntilNextBatch(t: Table, hash: string, es: seq<Entry>)
    ensures Normalize(hash) in Upsert(Remove(t, hash), es).table
       <==> exists i :: 0 <= i < |Accepted(es)| && Normalize(es[i].hash) == Normalize(hash)
  {
    hide Upsert, Normalize;
    UpsertKeys(Remove(t, hash), es, Normalize(hash));
  }

  /** So a sync can bring back what was removed by hand. */
  lemma RemovalUndoneBySync()
    ensures var t := map["ab" := Row("bad", "manual", 0)];
            var sync := [Entry("ab", Row("bad", "feed", 1))];
            "ab" !in Remove(t, "ab") && "ab" in Upsert(Remove(t, "ab"), sync).table
  {
    var t := map["ab" := Row("bad", "manual", 0)];
    var sync := [Entry("ab", Row("bad", "feed", 1))];
    assert [] + "ab" + [] == "ab" && Lower("ab") == "ab";
    NormalizePadded([], "ab", []);
    assert Normalize(sync[0].hash) == "ab";
    RemovalLastsUntilNextBatch(t, "ab", sync);
  }

  lemma LiveStep(ops: seq<Op>, key: string)
    requires ops != []
    ensures LiveKey(ops, key)
       <==> Adds(ops[|ops| - 1], key) || (LiveKey(ops[..|ops| - 1], key) && !Drops(ops[|ops| - 1], key))
  {
    hide Adds, Drops;
    var front := ops[..|ops| - 1];
    if LiveKey(front, key) && !Drops(ops[|ops| - 1], key) {
      var i :| 0 <= i < |front| && Adds(front[i], key) && forall j :: i < j < |front| ==> !Drops(front[j], key);
      assert Adds(ops[i], key);
    }
    if LiveKey(ops, key) && !Adds(ops[|ops| - 1], key) {
      var i :| 0 <= i < |ops| && Adds(ops[i], key) && forall j :: i < j < |ops| ==> !Drops(ops[j], key);
      assert Adds(front[i], key);
    }
  }

  /** Over any run of batches and removals, the table holds exactly the live keys, and all its
      keys are normalised. */
  lemma {:induction false} TableHoldsLiveKeys(ops: seq<Op>, key: string)
    ensures key in Run(map[], ops) <==> LiveKey(ops, key)
    ensures Normalized(Run(map[], ops))
  {
    hide Upsert, Normalize;
    if ops != [] {
      var front, op := ops[..|ops| - 1], ops[|ops| - 1];
      TableHoldsLiveKeys(front, key);
      LiveStep(ops, key);
      if op.Batch? {
        UpsertKeys(Run(map[], front), Taken(op), key);
        assert forall i :: 0 <= i < |Written(op)| ==> Written(op)[i] == Taken(op)[i];
      }
    }
  }

  /** A lookup finds the row whose key the hash is a spelling of, and reports it under that key. */
  lemma LookupFinds(t: Table, hash: string, found: Entry)
    requires Normalized(t)
    ensures Lookup(t, hash) == Some(found)
       <==> IsKey(found.hash) && VariantOf(hash, found.hash) && found.hash in t && t[found.hash] == found.row
  {
    hide Normalize, IsKey, VariantOf;
    NormalizeFindsVariants(hash, Normalize(hash));
    NormalizeFindsVariants(hash, found.hash);
  }

  // ----- the table in use ------------------------------------------------------------------

  class HashTable {
    var rows: Table

    method UpsertEntry(e: Entry) returns (ok: bool)
      modifies this
      ensures UpsertOne(old(rows), e) == if ok then Some(rows) else None
      ensures !ok ==> rows == old(rows)
    {
      var key := Normalize(e.hash);
      if e.row.source == FEED && key in rows && rows[key].source == MANUAL { return true; }
      if !ValidSource(e.row.source) { return false; }
      rows := rows[key := e.row];
      ok := true;
    }

    /** budget: how many entries are handled before the database fails. */
    method UpsertEntries(es: seq<Entry>, budget: nat) returns (ok: bool)
      modifies this
      ensures var r := Upsert(old(rows), Taken(Batch(es, budget)));
              rows == r.table && (ok <==> budget >= |es| && r.ok)
    {
      hide UpsertOne;
      var taken := Taken(Batch(es, budget));
      for i := 0 to |taken|
        invariant Outcome(rows, true) == Upsert(old(rows), taken[..i])
      {
        assert taken[..i + 1][..i] == taken[..i];
        var done := UpsertEntry(taken[i]);
        if !done {
          StopsThere(old(rows), taken, i + 1);
          return false;
        }
      }
      assert taken[..|taken|] == taken;
      ok := budget >= |es|;
    }

    method RemoveHash(hash: string)
      modifies this
      ensures rows == Remove(old(rows), hash)
    {
      rows := rows - {Normalize(hash)};
    }
  }

  /** Nothing happens after the first refused entry. */
  lemma {:induction false} StopsThere(t: Table, es: seq<Entry>, n: nat)
    requires n <= |es| && !Upsert(t, es[..n]).ok
    ensures Upsert(t, es) == Upsert(t, es[..n])
  {
    hide UpsertOne;
    if n == |es| {
      assert es[..n] == es;
    } else {
      assert es[..|es| - 1][..n] == es[..n];
      StopsThere(t, es[..|es| - 1], n);
    }
  }
}
