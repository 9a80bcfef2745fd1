/** The review command: every queued detection is checked against the file as it is now, then
    put to the user. The loop threads the files, the quarantine store, the detection queue, the
    report log and the input through all of them. */
module Review {
  import opened Options
  import opened Files
  import opened Scanner
  import H = HashDb
  import Q = Quarantine

  // ----- input -----------------------------------------------------------------------------

  /** What is left to read, and whether reading past it fails with something other than EOF. */
  datatype Reader = Reader(data: string, broken: bool)

  datatype Stop = Newline | Eof | Broken

  datatype Line = Line(text: string, rest: Reader, stop: Stop)

  /** The index of the first newline, or the length. */
  function NewlineAt(s: string): (i: nat)
    ensures i <= |s| && (i < |s| ==> s[i] == '\n') && forall k :: 0 <= k < i ==> s[k] != '\n'
  {
    if s == [] || s[0] == '\n' then 0 else 1 + NewlineAt(s[1..])
  }

  /** bufio's ReadString('\n'). */
  function ReadLine(r: Reader): Line {
    var i := NewlineAt(r.data);
    if i < |r.data| then Line(r.data[..i + 1], Reader(r.data[i + 1..], r.broken), Newline)
    else Line(r.data, Reader([], r.broken), if r.broken then Broken else Eof)
  }

  /** Reading takes from the front of the input: up to the first newline, or all of it. */
  lemma ReadLineSplits(r: Reader)
    ensures var line := ReadLine(r);
            && line.text + line.rest.data == r.data && line.rest.broken == r.broken
            && (forall k :: 0 <= k < |line.text| - 1 ==> line.text[k] != '\n')
            && (line.stop.Newline? <==> line.text != [] && line.text[|line.text| - 1] == '\n')
            && (!line.stop.Newline? ==> line.rest.data == [] && (line.stop.Broken? <==> r.broken))
            && (r.data != [] ==> line.text != [])
  {}

  function LinesOf(data: string): seq<string>
    decreases |data|
  {
    if data == [] then []
    else
      var line := ReadLine(Reader(data, false));
      [line.text] + LinesOf(line.rest.data)
  }

  function Concat(lines: seq<string>): string {
    if lines == [] then [] else lines[0] + Concat(lines[1..])
  }

  /** Line by line the whole input is read, in order and nothing twice; only the last line can
      lack its newline. */
  lemma {:induction false} LinesMakeUpInput(data: string)
    ensures Concat(LinesOf(data)) == data
    ensures forall i :: 0 <= i < |LinesOf(data)| - 1 ==> NewlineAt(LinesOf(data)[i]) == |LinesOf(data)[i]| - 1
    decreases |data|
  {
    if data != [] {
      var line := ReadLine(Reader(data, false));
      ReadLineSplits(Reader(data, false));
      LinesMakeUpInput(line.rest.data);
      assert LinesOf(data)[1..] == LinesOf(line.rest.data);
    }
  }

  /** Lowercase and trimmed, as every answer is compared. */
  function Answer(text: string): string { H.Normalize(text) }

  predicate Confirmed(text: string) { Answer(text) in {"y", "yes"} }

  // ----- what a line says ------------------------------------------------------------------

  ghost predicate SaysYes(text: string) { H.VariantOf(text, "y") || H.VariantOf(text, "yes") }

  ghost predicate SaysQuarantine(text: string) { H.VariantOf(text, "q") || H.VariantOf(text, "quarantine") }

  ghost predicate SaysDelete(text: string) { H.VariantOf(text, "d") || H.VariantOf(text, "delete") }

  ghost predicate SaysIgnore(text: string) { H.VariantOf(text, "i") || H.VariantOf(text, "ignore") }

  lemma SmallWordIsKey(word: string)
    requires forall i :: 0 <= i < |word| ==> 'a' <= word[i] <= 'z'
    ensures H.IsKey(word)
  {
    hide H.UPPER, H.SPACES;
    forall i | 0 <= i < |word| ensures word[i] !in H.UPPER && word[i] !in H.SPACES {
      H.CapitalListed(word[i]);
      H.SpaceListed(word[i]);
    }
  }

  lemma AnswerIs(text: string, word: string)
    requires forall i :: 0 <= i < |word| ==> 'a' <= word[i] <= 'z'
    ensures Answer(text) == word <==> H.VariantOf(text, word)
  {
    hide H.VariantOf, H.IsKey;
    SmallWordIsKey(word);
    H.NormalizeFindsVariants(text, word);
  }

  /** Answers are compared up to letter case and the space around them, the newline included. */
  lemma AnswersAreWords(text: string)
    ensures Confirmed(text) <==> SaysYes(text)
    ensures Answer(text) == "q" || Answer(text) == "quarantine" <==> SaysQuarantine(text)
    ensures Answer(text) == "d" || Answer(text) == "delete" <==> SaysDelete(text)
    ensures Answer(text) == "i" || Answer(text) == "ignore" <==> SaysIgnore(text)
    ensures Answer(text) == [] <==> H.AllSpace(text)
  {
    hide Answer, H.VariantOf, H.AllSpace;
    AnswerIs(text, "y");
    AnswerIs(text, "yes");
    AnswerIs(text, "q");
    AnswerIs(text, "quarantine");
    AnswerIs(text, "d");
    AnswerIs(text, "delete");
    AnswerIs(text, "i");
    AnswerIs(text, "ignore");
    AnswerIs(text, []);
    OnlySpaceIsBlank(text);
  }

  lemma OnlySpaceIsBlank(text: string)
    ensures H.VariantOf(text, []) <==> H.AllSpace(text)
  {
    hide H.SPACES;
    if H.AllSpace(text) { assert text == text + [] + [] && H.SameLetters([], []); }
    if H.VariantOf(text, []) {
      var pre, mid, post :| text == pre + mid + post && H.AllSpace(pre) && H.AllSpace(post) && H.SameLetters(mid, []);
      assert text == pre + post;
    }
  }

  /** A text says at most one of the words. */
  lemma OneWordAtMost(text: string)
    ensures !(SaysQuarantine(text) && SaysDelete(text)) && !(SaysQuarantine(text) && SaysIgnore(text))
    ensures !(SaysDelete(text) && SaysIgnore(text))
    ensures text == [] ==> !SaysQuarantine(text) && !SaysDelete(text) && !SaysIgnore(text) && !SaysYes(text)
  {
    hide Answer, SaysQuarantine, SaysDelete, SaysIgnore, SaysYes;
    AnswersAreWords(text);
  }

  // ----- state -----------------------------------------------------------------------------

  datatype Detection = Detection(path: Path, hash: string, resolution: Option<string>)

  datatype Report = Report(path: Path, hash: string, name: string)

  datatype World = World(
    store: Q.Store,                 // with all the files
    hashes: H.Table,
    queue: map<nat, Detection>,
    input: Reader,
    reports: seq<Report>)

  /** A detection as ListPending read it. */
  datatype Item = Item(id: nat, path: Path, hash: string)

  /** How the system calls made for one detection go. */
  datatype Env = Env(opens: bool, quarantine: Q.Ending, removes: bool, logs: bool, updates: bool)

  const QUARANTINE := "quarantine"
  const DELETE := "delete"
  const IGNORE := "ignore"
  const REPORT := "report"
  const STALE := "skipped-stale"

  // ----- one prompt ------------------------------------------------------------------------

  /** The action, or None for an error. */
  datatype Prompted = Prompted(world: World, action: Option<string>)

  function DoQuarantine(w: World, m: Match, e: Env): Prompted {
    var r := Q.QuarantineFile(w.store, m.path, m.hash, e.quarantine);
    Prompted(w.(store := r.store), if r.id.Some? then Some(QUARANTINE) else None)
  }

  function DoDelete(w: World, m: Match, e: Env): Prompted {
    var confirm := ReadLine(w.input);
    var w1 := w.(input := confirm.rest);
    if !Confirmed(confirm.text) then Prompted(w1, Some(IGNORE))
    else if m.path !in w.store.fs || !e.removes then Prompted(w1, None)
    else Prompted(w1.(store := w.store.(fs := w.store.fs - {m.path})), Some(DELETE))
  }

  function DoReport(w: World, m: Match, e: Env): Prompted {
    if e.logs then Prompted(w.(reports := w.reports + [Report(m.path, m.hash, m.entry.row.name)]), Some(REPORT))
    else Prompted(w, None)
  }

  function Prompt(w: World, m: Match, e: Env): Prompted {
    var line := ReadLine(w.input);
    var w1 := w.(input := line.rest);
    var choice := Answer(line.text);
    if line.stop.Broken? || (line.stop.Eof? && choice == []) then Prompted(w1, None)
    else if choice == "q" || choice == "quarantine" then DoQuarantine(w1, m, e)
    else if choice == "d" || choice == "delete" then DoDelete(w1, m, e)
    else if choice == "i" || choice == "ignore" then Prompted(w1, Some(IGNORE))
    else DoReport(w1, m, e)
  }

  // ----- the loop --------------------------------------------------------------------------

  datatype Reviewed = Reviewed(world: World, halted: bool)

  /** Marks one row resolved; a row that does not exist stays absent. */
  function ResolveRow(queue: map<nat, Detection>, id: nat, resolution: string): map<nat, Detection> {
    if id in queue then queue[id := queue[id].(resolution := Some(resolution))] else queue
  }

  function Record(w: World, id: nat, resolution: string, e: Env): Reviewed {
    if e.updates then Reviewed(w.(queue := ResolveRow(w.queue, id, resolution)), false) else Reviewed(w, true)
  }

  /** The file is there, its content has the queued hash, and the hash is still known. */
  predicate Vouched(digest: Digest, fs: Fs, hashes: H.Table, it: Item) {
    && it.path in fs && fs[it.path].Regular? && HashOf(digest, fs[it.path].data) == it.hash
    && it.hash in hashes
  }

  /** The fresh scan, when it agrees with the queued hash. */
  function Recheck(digest: Digest, w: World, it: Item, e: Env): Option<Match> {
    var r := ScanFile(digest, w.store.fs, w.hashes, it.path, e.opens);
    if r.Matched? && r.m.hash == it.hash then Some(r.m) else None
  }

  function ReviewOne(digest: Digest, w: World, it: Item, e: Env): Reviewed {
    var rechecked := Recheck(digest, w, it, e);
    if rechecked.None? then Record(w, it.id, STALE, e)
    else
      var p := Prompt(w, rechecked.value, e);
      if p.action.None? then Reviewed(p.world, false) else Record(p.world, it.id, p.action.value, e)
  }

  function ReviewAll(digest: Digest, w: World, items: seq<Item>, env: nat -> Env): Reviewed {
    if items == [] then Reviewed(w, false)
    else
      var before, it := ReviewAll(digest, w, items[..|items| - 1], env), items[|items| - 1];
      if before.halted then before else ReviewOne(digest, before.world, it, env(it.id))
  }

  // ----- one step --------------------------------------------------------------------------

  /** The file that was at p is the body of a record for p, not older than since, that is not
      restored. */
  ghost predicate Saved(s: Q.Store, since: nat, p: Path, node: Node) {
    exists id :: id in s.records && since <= id && s.records[id].path == p
                 && Q.Keeps(s, id, p, s.records[id].hash, node)
  }

  /** A name that the body of a later record can get. */
  ghost predicate FutureBody(s: Q.Store, p: Path) {
    exists id: nat, h :: s.nextId <= id && p == Q.Body(s.dir, id, h)
  }

  lemma FutureBodyIsFree(s: Q.Store, p: Path)
    requires Q.Tidy(s) && FutureBody(s, p)
    ensures p !in s.fs && InDir(s.dir, p)
  {
    var id: nat, h :| s.nextId <= id && p == Q.Body(s.dir, id, h);
    Q.BodyInDir(s.dir, id, h);
    if p in s.fs {
      var k :| k in s.records && !s.records[k].restored && p == Q.Body(s.dir, k, s.records[k].hash);
      Q.BodyInjective(s.dir, id, h, k, s.records[k].hash);
    }
  }

  /** What one review of a detection may do to the files and records: no file changes, at most
      its own, vouched, file goes away, and all that is new is its own body and record. */
  ghost predicate Gentle(digest: Digest, w: World, w': World, it: Item) {
    var s, s' := w.store, w'.store;
    && s'.dir == s.dir && w'.hashes == w.hashes && s.nextId <= s'.nextId
    && (forall p :: p in s.fs && p in s'.fs ==> s'.fs[p] == s.fs[p])
    && (forall p :: p in s'.fs && p !in s.fs ==> p == Q.Body(s.dir, s.nextId, it.hash))
    && (forall p :: p in s.fs && p !in s'.fs ==> p == it.path && Vouched(digest, s.fs, w.hashes, it))
    && (forall id :: id in s.records ==> id in s'.records && s'.records[id] == s.records[id])
    && (forall id :: id in s'.records && id !in s.records ==>
          id == s.nextId && s'.records[id] == Q.Record(it.path, it.hash, false))
  }

  lemma NothingIsGentle(digest: Digest, w: World, w': World, it: Item)
    requires w'.store == w.store && w'.hashes == w.hashes
    ensures Gentle(digest, w, w', it)
  {}

  /** What a prompt leaves, by its action. A failed quarantine may have moved the file. */
  ghost predicate PromptKept(digest: Digest, w: World, p: Prompted, it: Item)
    requires it.path in w.store.fs
  {
    var s, s' := w.store, p.world.store;
    && Q.Tidy(s') && Gentle(digest, w, p.world, it)
    && (p.action == Some(DELETE) ==> s' == s.(fs := s.fs - {it.path}))
    && (p.action == Some(IGNORE) || p.action == Some(REPORT) ==> s' == s)
    && (p.action == Some(QUARANTINE) ==> it.path !in s'.fs)
    && (it.path !in s'.fs && p.action != Some(DELETE) ==> Saved(s', s.nextId, it.path, s.fs[it.path]))
  }

  lemma QuarantineGentle(s: Q.Store, path: Path, hash: string, e: Q.Ending)
    requires Q.Tidy(s)
    ensures var r := Q.QuarantineFile(s, path, hash, e);
            var t := r.store;
            && t.dir == s.dir && s.nextId <= t.nextId
            && (forall p :: p in s.fs && p in t.fs ==> t.fs[p] == s.fs[p])
            && (forall p :: p in t.fs && p !in s.fs ==> p == Q.Body(s.dir, s.nextId, hash))
            && (forall p :: p in s.fs && p !in t.fs ==> p == path && Saved(t, s.nextId, p, s.fs[p]))
            && (forall id :: id in s.records ==> id in t.records && t.records[id] == s.records[id])
            && (forall id :: id in t.records && id !in s.records ==>
                  id == s.nextId && t.records[id] == Q.Record(path, hash, false))
            && (r.id.Some? ==> path !in t.fs)
  {
    hide Q.Body, InDir;
    Q.NextHasNoBody(s);
    var t := Q.QuarantineFile(s, path, hash, e).store;
    if path in s.fs && path !in t.fs {
      assert Q.Keeps(t, s.nextId, path, hash, s.fs[path]);
    }
  }

  lemma RemovalIsTidy(s: Q.Store, p: Path)
    requires Q.Tidy(s)
    ensures Q.Tidy(s.(fs := s.fs - {p}))
  {
    var t := s.(fs := s.fs - {p});
    forall b | b in t.fs && InDir(t.dir, b) ensures Q.Claimed(t, b) {
      assert Q.Claimed(s, b);
    }
  }

  lemma DeleteGentle(digest: Digest, w: World, input: Reader, it: Item, m: Match, e: Env)
    requires Q.Tidy(w.store) && m.path == it.path && it.path in w.store.fs
    requires Vouched(digest, w.store.fs, w.hashes, it)
    ensures PromptKept(digest, w, DoDelete(w.(input := input), m, e), it)
  {
    hide Vouched, ReadLine, Q.Tidy, Saved, Confirmed;
    RemovalIsTidy(w.store, m.path);
  }

  lemma DoQuarantineGentle(digest: Digest, w: World, input: Reader, it: Item, m: Match, e: Env)
    requires Q.Tidy(w.store) && m.path == it.path && m.hash == it.hash && it.path in w.store.fs
    requires Vouched(digest, w.store.fs, w.hashes, it)
    ensures PromptKept(digest, w, DoQuarantine(w.(input := input), m, e), it)
  {
    hide Vouched, Q.Tidy, Q.QuarantineFile, Q.Body, Saved;
    QuarantineGentle(w.store, m.path, m.hash, e.quarantine);
    Q.TidyQuarantine(w.store, m.path, m.hash, e.quarantine);
  }

  /** The file of the detection goes away only into the store or by a confirmed deletion. */
  lemma PromptGentle(digest: Digest, w: World, it: Item, m: Match, e: Env)
    requires Q.Tidy(w.store) && m.path == it.path && m.hash == it.hash && it.path in w.store.fs
    requires Vouched(digest, w.store.fs, w.hashes, it)
    ensures PromptKept(digest, w, Prompt(w, m, e), it)
  {
    hide Vouched, Answer, ReadLine, Q.Tidy, Q.Body, Saved, DoDelete, DoQuarantine;
    DeleteGentle(digest, w, ReadLine(w.input).rest, it, m, e);
    DoQuarantineGentle(digest, w, ReadLine(w.input).rest, it, m, e);
  }

  /** A detection is put to the user. */
  ghost predicate Asked(digest: Digest, w: World, it: Item, e: Env) {
    e.opens && Vouched(digest, w.store.fs, w.hashes, it) && Scannable(w.store.fs, it.path)
  }

  /** The match that the user is shown: the file, its hash and the row it has in the table. */
  ghost function MatchOf(digest: Digest, w: World, it: Item, e: Env): (m: Match)
    requires Asked(digest, w, it, e)
    ensures m.path == it.path && m.hash == it.hash
    ensures it.path in w.store.fs && it.hash in w.hashes && m.entry == H.Entry(it.hash, w.hashes[it.hash])
  {
    Match(it.path, it.hash, H.Entry(it.hash, w.hashes[it.hash]))
  }

  /** The recheck passes exactly the files that can be read, are small enough, still have the
      queued hash and are still known to be bad, whoever added the hash. */
  lemma RecheckExactly(digest: Digest, w: World, it: Item, e: Env)
    ensures Recheck(digest, w, it, e)
         == if Asked(digest, w, it, e) then Some(MatchOf(digest, w, it, e)) else None
    ensures Asked(digest, w, it, e) ==> Vouched(digest, w.store.fs, w.hashes, it) && it.path in w.store.fs
  {
    hide H.Normalize;
    if it.path in w.store.fs && w.store.fs[it.path].Regular? {
      HashIsNormal(digest(w.store.fs[it.path].data));
    }
  }

  /** How a detection ends: stale, or as its prompt answers; None when the prompt fails. */
  ghost function Outcome(digest: Digest, w: World, it: Item, e: Env): Option<string> {
    if !Asked(digest, w, it, e) then Some("skipped-stale")
    else Prompt(w, MatchOf(digest, w, it, e), e).action
  }

  lemma ReviewOneStep(digest: Digest, w: World, it: Item, e: Env)
    requires Q.Tidy(w.store)
    ensures var s, s' := w.store, ReviewOne(digest, w, it, e).world.store;
            && Q.Tidy(s') && Gentle(digest, w, ReviewOne(digest, w, it, e).world, it)
            && (it.path in s.fs && it.path !in s'.fs && Outcome(digest, w, it, e) != Some(DELETE) ==>
                  Saved(s', s.nextId, it.path, s.fs[it.path]))
  {
    hide Q.Tidy, Q.Body, Prompt, Saved, Vouched, Recheck, Gentle, Asked;
    var rechecked := Recheck(digest, w, it, e);
    RecheckExactly(digest, w, it, e);
    if rechecked.Some? {
      PromptGentle(digest, w, it, rechecked.value, e);
      SameFiles(digest, w, Prompt(w, rechecked.value, e).world, ReviewOne(digest, w, it, e).world, it);
    } else {
      NothingIsGentle(digest, w, ReviewOne(digest, w, it, e).world, it);
    }
  }

  lemma SameFiles(digest: Digest, w: World, x: World, y: World, it: Item)
    requires Gentle(digest, w, x, it) && y.store == x.store && y.hashes == x.hashes
    ensures Gentle(digest, w, y, it)
  {}

  lemma PromptKeepsQueue(w: World, m: Match, e: Env)
    ensures Prompt(w, m, e).world.queue == w.queue
  {
    hide Answer, ReadLine;
  }

  /** The row of a detection gets the outcome of its turn, if there is one and the update works. */
  lemma QueueStep(digest: Digest, w: World, it: Item, e: Env)
    ensures var r, outcome := ReviewOne(digest, w, it, e), Outcome(digest, w, it, e);
            r.world.queue == if r.halted || outcome.None? then w.queue
                             else ResolveRow(w.queue, it.id, outcome.value)
  {
    hide Recheck, Prompt, Asked;
    RecheckExactly(digest, w, it, e);
    if Asked(digest, w, it, e) { PromptKeepsQueue(w, MatchOf(digest, w, it, e), e); }
  }

  // ----- the whole run: files --------------------------------------------------------------

  /** The world in which the i-th detection gets its turn. */
  ghost function Turn(digest: Digest, w: World, items: seq<Item>, env: nat -> Env, i: nat): World
    requires i <= |items|
  {
    ReviewAll(digest, w, items[..i], env).world
  }

  ghost function OutcomeAt(digest: Digest, w: World, items: seq<Item>, env: nat -> Env, i: nat): Option<string>
    requires i < |items|
  {
    Outcome(digest, Turn(digest, w, items, env, i), items[i], env(items[i].id))
  }

  /** The i-th detection gets its turn, and the file is deleted in it. */
  ghost predicate DeletedAt(digest: Digest, w: World, items: seq<Item>, env: nat -> Env, i: nat)
    requires i < |items|
  {
    !ReviewAll(digest, w, items[..i], env).halted && OutcomeAt(digest, w, items, env, i) == Some(DELETE)
  }

  /** The loop goes on after the turn of the i-th detection. */
  ghost predicate Completed(digest: Digest, w: World, items: seq<Item>, env: nat -> Env, i: nat)
    requires i < |items|
  {
    !ReviewAll(digest, w, items[..i + 1], env).halted
  }

  lemma TurnsOfFront(digest: Digest, w: World, items: seq<Item>, env: nat -> Env, i: nat)
    requires i < |items| - 1
    ensures var front := items[..|items| - 1];
            && Turn(digest, w, items, env, i) == Turn(digest, w, front, env, i)
            && OutcomeAt(digest, w, items, env, i) == OutcomeAt(digest, w, front, env, i)
            && DeletedAt(digest, w, items, env, i) == DeletedAt(digest, w, front, env, i)
            && Completed(digest, w, items, env, i) == Completed(digest, w, front, env, i)
  {
    var front := items[..|items| - 1];
    assert front[..i] == items[..i] && front[..i + 1] == items[..i + 1] && front[i] == items[i];
  }

  lemma {:induction false} HaltedStays(digest: Digest, w: World, items: seq<Item>, env: nat -> Env, n: nat)
    requires n <= |items| && ReviewAll(digest, w, items[..n], env).halted
    ensures ReviewAll(digest, w, items, env) == ReviewAll(digest, w, items[..n], env)
  {
    hide ReviewOne;
    if n == |items| {
      assert items[..n] == items;
    } else {
      assert items[..|items| - 1][..n] == items[..n];
      HaltedStays(digest, w, items[..|items| - 1], env, n);
    }
  }

  /** No file changes; one that is gone was at the path of a detection that vouched for it; what
      is new are bodies and records of detections. */
  ghost predicate FilesAccounted(digest: Digest, w: World, w': World, items: seq<Item>) {
    var s, s' := w.store, w'.store;
    && s'.dir == s.dir && w'.hashes == w.hashes && s.nextId <= s'.nextId
    && (forall p :: p in s.fs && p in s'.fs ==> s'.fs[p] == s.fs[p])
    && (forall p :: p in s'.fs && p !in s.fs ==> FutureBody(s, p))
    && (forall p :: p in s.fs && p !in s'.fs ==>
          exists i :: 0 <= i < |items| && items[i].path == p && Vouched(digest, s.fs, w.hashes, items[i]))
    && (forall id :: id in s.records ==> id in s'.records && s'.records[id] == s.records[id])
    && (forall id :: id in s'.records && id !in s.records ==>
          s.nextId <= id
          && exists i :: 0 <= i < |items| && s'.records[id] == Q.Record(items[i].path, items[i].hash, false))
  }

  lemma NothingHappened(digest: Digest, w: World)
    ensures FilesAccounted(digest, w, w, [])
  {}

  lemma AccountedStep(digest: Digest, w: World, x: World, y: World, items: seq<Item>)
    requires Q.Tidy(w.store) && items != [] && FilesAccounted(digest, w, x, items[..|items| - 1])
    requires Gentle(digest, x, y, items[|items| - 1])
    ensures FilesAccounted(digest, w, y, items)
  {
    hide Q.Tidy, Q.Body, InDir;
    var s, t, u, front, last := w.store, x.store, y.store, items[..|items| - 1], items[|items| - 1];
    forall p | p in u.fs && p !in t.fs ensures FutureBody(s, p) && p !in s.fs {
      assert p == Q.Body(s.dir, t.nextId, last.hash);
      FutureBodyIsFree(s, p);
    }
    forall p | p in s.fs && p !in u.fs
      ensures exists i :: 0 <= i < |items| && items[i].path == p && Vouched(digest, s.fs, w.hashes, items[i])
    {
      if p in t.fs {
        assert items[|items| - 1].path == p && Vouched(digest, s.fs, w.hashes, items[|items| - 1]);
      } else {
        var i :| 0 <= i < |front| && front[i].path == p && Vouched(digest, s.fs, w.hashes, front[i]);
        assert items[i] == front[i];
      }
    }
    forall id | id in u.records && id !in s.records
      ensures s.nextId <= id
      ensures exists i :: 0 <= i < |items| && u.records[id] == Q.Record(items[i].path, items[i].hash, false)
    {
      if id in t.records {
        var i :| 0 <= i < |front| && t.records[id] == Q.Record(front[i].path, front[i].hash, false);
        assert items[i] == front[i];
      } else {
        assert u.records[id] == Q.Record(items[|items| - 1].path, items[|items| - 1].hash, false);
      }
    }
  }

  /** Whatever fails on the way, a review quarantines or deletes only files whose current
      content has the queued hash and is known to be bad, and changes no other file. */
  lemma {:induction false} ReviewTouchesOnlyMatches(digest: Digest, w: World, items: seq<Item>, env: nat -> Env)
    requires Q.Tidy(w.store)
    ensures var r := ReviewAll(digest, w, items, env).world;
            Q.Tidy(r.store) && FilesAccounted(digest, w, r, items)
  {
    hide ReviewOne, FilesAccounted, Gentle, Q.Tidy;
    if items == [] {
      NothingHappened(digest, w);
    } else {
      var front, it := items[..|items| - 1], items[|items| - 1];
      ReviewTouchesOnlyMatches(digest, w, front, env);
      var x := ReviewAll(digest, w, front, env);
      if x.halted {
        NothingIsGentle(digest, x.world, x.world, it);
      } else {
        ReviewOneStep(digest, x.world, it, env(it.id));
      }
      AccountedStep(digest, w, x.world, ReviewAll(digest, w, items, env).world, items);
    }
  }

  /** When no detection lies in the quarantine directory, neither does the path of any record. */
  lemma ReviewKeepsInv(digest: Digest, w: World, items: seq<Item>, env: nat -> Env)
    requires Q.Inv(w.store) && forall i :: 0 <= i < |items| ==> !InDir(w.store.dir, items[i].path)
    ensures Q.Inv(ReviewAll(digest, w, items, env).world.store)
  {
    hide ReviewAll, InDir, Q.Tidy;
    ReviewTouchesOnlyMatches(digest, w, items, env);
  }

  /** One turn of the loop, in terms of the worlds before and after it. */
  lemma TurnStep(digest: Digest, w: World, items: seq<Item>, env: nat -> Env, i: nat)
    requires Q.Tidy(w.store) && i < |items|
    ensures var x, y := Turn(digest, w, items, env, i), Turn(digest, w, items, env, i + 1);
            && Q.Tidy(x.store) && Gentle(digest, x, y, items[i])
            && (items[i].path in x.store.fs && items[i].path !in y.store.fs ==>
                  || DeletedAt(digest, w, items, env, i)
                  || Saved(y.store, x.store.nextId, items[i].path, x.store.fs[items[i].path]))
  {
    hide ReviewOne, FilesAccounted, Gentle, Q.Tidy, Outcome, Saved;
    ReviewTouchesOnlyMatches(digest, w, items[..i], env);
    assert items[..i + 1][..i] == items[..i];
    var x := ReviewAll(digest, w, items[..i], env);
    if x.halted {
      NothingIsGentle(digest, x.world, x.world, items[i]);
    } else {
      ReviewOneStep(digest, x.world, items[i], env(items[i].id));
    }
  }

  /** Turns up to the last of them, seen from the front of the list. */
  lemma LastTurn(digest: Digest, w: World, items: seq<Item>, env: nat -> Env)
    requires items != []
    ensures Turn(digest, w, items, env, |items|) == ReviewAll(digest, w, items, env).world
    ensures Turn(digest, w, items, env, |items| - 1) == ReviewAll(digest, w, items[..|items| - 1], env).world
  {
    assert items[..|items|] == items;
  }

  ghost predicate Held(fs: Fs, node: Node) { exists p :: p in fs && fs[p] == node }

  /** No content is lost: it is in some file after the review, or in one that was deleted on a
      confirmed turn. */
  lemma {:induction false} ContentIsHeldOrDeleted(digest: Digest, w: World, items: seq<Item>, env: nat -> Env,
                                                      node: Node)
    requires Q.Tidy(w.store) && Held(w.store.fs, node)
    ensures || Held(ReviewAll(digest, w, items, env).world.store.fs, node)
            || exists i :: 0 <= i < |items| && DeletedAt(digest, w, items, env, i)
                 && var fs := Turn(digest, w, items, env, i).store.fs;
                    items[i].path in fs && fs[items[i].path] == node
  {
    hide ReviewAll, DeletedAt, Turn, Q.Tidy, Vouched, Q.Body;
    if items == [] {
      NothingReviewed(digest, w, env);
    } else {
      var n, front := |items| - 1, items[..|items| - 1];
      ContentIsHeldOrDeleted(digest, w, front, env, node);
      TurnStep(digest, w, items, env, n);
      LastTurn(digest, w, items, env);
      var x, y := Turn(digest, w, items, env, n).store, Turn(digest, w, items, env, n + 1).store;
      if Held(x.fs, node) {
        var p :| p in x.fs && x.fs[p] == node;
        if p !in y.fs && !DeletedAt(digest, w, items, env, n) {
          assert Saved(y, x.nextId, p, node);
          assert Held(y.fs, node);
        }
      } else {
        var i :| 0 <= i < n && DeletedAt(digest, w, front, env, i)
                 && var fs := Turn(digest, w, front, env, i).store.fs;
                    front[i].path in fs && fs[front[i].path] == node;
        TurnsOfFront(digest, w, items, env, i);
        assert DeletedAt(digest, w, items, env, i);
      }
    }
  }

  /** No detection's path is a name that one of the new bodies can get. */
  ghost predicate NoneIsFuture(s: Q.Store, items: seq<Item>) {
    forall i :: 0 <= i < |items| ==> !FutureBody(s, items[i].path)
  }

  /** A file that went away was deleted in the turn of a detection of it, or is whole in the
      quarantine store under a new record of its path. */
  lemma {:induction false} RemovedIsDeletedOrSaved(digest: Digest, w: World, items: seq<Item>, env: nat -> Env, p: Path)
    requires Q.Tidy(w.store) && NoneIsFuture(w.store, items)
    requires p in w.store.fs && p !in ReviewAll(digest, w, items, env).world.store.fs
    ensures || Saved(ReviewAll(digest, w, items, env).world.store, w.store.nextId, p, w.store.fs[p])
            || exists i :: 0 <= i < |items| && items[i].path == p && DeletedAt(digest, w, items, env, i)
  {
    hide ReviewAll, DeletedAt, Turn, Q.Tidy, Vouched, Q.Body, Saved, FutureBody;
    if items == [] {
      NothingReviewed(digest, w, env);
    } else {
      var n, front := |items| - 1, items[..|items| - 1];
      TurnStep(digest, w, items, env, n);
      LastTurn(digest, w, items, env);
      ReviewTouchesOnlyMatches(digest, w, front, env);
      var x, y := Turn(digest, w, items, env, n), Turn(digest, w, items, env, n + 1);
      if p in x.store.fs {
        assert items[n].path == p;
        if !DeletedAt(digest, w, items, env, n) {
          SavedSince(y.store, x.store.nextId, w.store.nextId, p, w.store.fs[p]);
        }
      } else {
        RemovedIsDeletedOrSaved(digest, w, front, env, p);
        if Saved(x.store, w.store.nextId, p, w.store.fs[p]) {
          SavedStays(digest, w, x, y, items[n], p, w.store.fs[p]);
        } else {
          var i :| 0 <= i < n && front[i].path == p && DeletedAt(digest, w, front, env, i);
          TurnsOfFront(digest, w, items, env, i);
          assert items[i].path == p && DeletedAt(digest, w, items, env, i);
        }
      }
    }
  }

  lemma NothingReviewed(digest: Digest, w: World, env: nat -> Env)
    ensures ReviewAll(digest, w, [], env) == Reviewed(w, false)
  {}

  lemma SavedSince(s: Q.Store, since: nat, before: nat, p: Path, node: Node)
    requires Saved(s, since, p, node) && before <= since
    ensures Saved(s, before, p, node)
  {}

  lemma SavedStays(digest: Digest, w: World, x: World, y: World, it: Item, p: Path, node: Node)
    requires Gentle(digest, x, y, it) && Saved(x.store, w.store.nextId, p, node)
    requires x.store.dir == w.store.dir && !FutureBody(w.store, it.path)
    ensures Saved(y.store, w.store.nextId, p, node)
  {
    hide Q.Body, Vouched;
    var id :| id in x.store.records && w.store.nextId <= id && x.store.records[id].path == p
              && Q.Keeps(x.store, id, p, x.store.records[id].hash, node);
    assert Q.Keeps(y.store, id, p, y.store.records[id].hash, node);
  }

  /** A path that is absent when some detection gets its turn, and is no name for a new body, is
      absent at every later turn. */
  lemma {:induction false} StaysAbsent(digest: Digest, w: World, items: seq<Item>, env: nat -> Env, i: nat, j: nat,
                                           p: Path)
    requires Q.Tidy(w.store) && i <= j <= |items|
    requires var s := Turn(digest, w, items, env, i).store; p !in s.fs && !FutureBody(s, p)
    ensures var s := Turn(digest, w, items, env, j).store; p !in s.fs && !FutureBody(s, p)
  {
    hide Turn, DeletedAt, Saved, Q.Tidy, Q.Body, Vouched;
    if i < j {
      StaysAbsent(digest, w, items, env, i, j - 1, p);
      TurnStep(digest, w, items, env, j - 1);
    }
  }

  /** Once a path is removed, every later detection of it is resolved as skipped-stale, and no
      input is read for it. */
  lemma RemovedPathIsSkipped(digest: Digest, w: World, items: seq<Item>, env: nat -> Env, i: nat, j: nat)
    requires Q.Tidy(w.store) && i < j < |items| && items[j].path == items[i].path
    requires items[i].path !in Turn(digest, w, items, env, i + 1).store.fs
    requires FutureBody(w.store, items[i].path) ==> items[i].path in Turn(digest, w, items, env, i).store.fs
    ensures var x := Turn(digest, w, items, env, j);
            var r := ReviewOne(digest, x, items[j], env(items[j].id));
            && r.world.input == x.input && r.world.store == x.store && r.world.reports == x.reports
            && (!r.halted ==> r.world.queue == ResolveRow(x.queue, items[j].id, STALE))
  {
    RemovedIsNotFuture(digest, w, items, env, i);
    StaysAbsent(digest, w, items, env, i + 1, j, items[i].path);
  }

  lemma RemovedIsNotFuture(digest: Digest, w: World, items: seq<Item>, env: nat -> Env, i: nat)
    requires Q.Tidy(w.store) && i < |items|
    requires FutureBody(w.store, items[i].path) ==> items[i].path in Turn(digest, w, items, env, i).store.fs
    ensures !FutureBody(Turn(digest, w, items, env, i + 1).store, items[i].path)
  {
    hide ReviewAll, DeletedAt, Saved, Q.Tidy, Q.Body, Vouched;
    ReviewTouchesOnlyMatches(digest, w, items[..i], env);
    TurnStep(digest, w, items, env, i);
    var s, p := Turn(digest, w, items, env, i).store, items[i].path;
    if FutureBody(s, p) { FutureBodyIsFree(s, p); }
  }

  // ----- the whole run: the queue ----------------------------------------------------------

  ghost predicate Distinct(items: seq<Item>) {
    forall i, j :: 0 <= i < j < |items| ==> items[i].id != items[j].id
  }

  ghost predicate Unresolved(queue: map<nat, Detection>, items: seq<Item>) {
    forall i :: 0 <= i < |items| ==> items[i].id in queue && queue[items[i].id].resolution.None?
  }

  /** The items are the unresolved rows, each once. */
  ghost predicate Pending(queue: map<nat, Detection>, items: seq<Item>) {
    && Unresolved(queue, items) && Distinct(items)
    && (forall id :: id in queue && queue[id].resolution.None? ==> exists i :: 0 <= i < |items| && items[i].id == id)
  }

  lemma {:induction false} QueueKeys(digest: Digest, w: World, items: seq<Item>, env: nat -> Env)
    ensures ReviewAll(digest, w, items, env).world.queue.Keys == w.queue.Keys
  {
    hide ReviewOne, Outcome;
    if items != [] {
      var front, last := items[..|items| - 1], items[|items| - 1];
      QueueKeys(digest, w, front, env);
      QueueStep(digest, ReviewAll(digest, w, front, env).world, last, env(last.id));
    }
  }

  /** The row of a detection ends with the outcome of its turn, if the loop went on after it; no
      other row changes. */
  lemma {:induction false} QueueAfter(digest: Digest, w: World, items: seq<Item>, env: nat -> Env, id: nat)
    requires Distinct(items) && id in w.queue
    ensures id in ReviewAll(digest, w, items, env).world.queue
    ensures (forall i :: 0 <= i < |items| ==> items[i].id != id) ==>
              ReviewAll(digest, w, items, env).world.queue[id] == w.queue[id]
    ensures forall i :: 0 <= i < |items| && items[i].id == id ==>
              ReviewAll(digest, w, items, env).world.queue[id]
              == if Completed(digest, w, items, env, i) && OutcomeAt(digest, w, items, env, i).Some?
                 then w.queue[id].(resolution := OutcomeAt(digest, w, items, env, i)) else w.queue[id]
  {
    hide ReviewOne, Outcome, Completed, OutcomeAt;
    if items != [] {
      var n, front, last := |items| - 1, items[..|items| - 1], items[|items| - 1];
      QueueAfter(digest, w, front, env, id);
      QueueStep(digest, ReviewAll(digest, w, front, env).world, last, env(last.id));
      LastRow(digest, w, items, env);
      forall i | 0 <= i < |items| && items[i].id == id
        ensures ReviewAll(digest, w, items, env).world.queue[id]
             == if Completed(digest, w, items, env, i) && OutcomeAt(digest, w, items, env, i).Some?
                then w.queue[id].(resolution := OutcomeAt(digest, w, items, env, i)) else w.queue[id]
      {
        if i < n {
          TurnsOfFront(digest, w, items, env, i);
          assert front[i].id == id;
        }
      }
    }
  }

  lemma LastRow(digest: Digest, w: World, items: seq<Item>, env: nat -> Env)
    requires items != []
    ensures var n, x := |items| - 1, ReviewAll(digest, w, items[..|items| - 1], env);
            && Completed(digest, w, items, env, n) == !ReviewAll(digest, w, items, env).halted
            && OutcomeAt(digest, w, items, env, n) == Outcome(digest, x.world, items[n], env(items[n].id))
  {
    hide ReviewOne, Outcome;
    assert items[..|items|] == items;
  }

  /** The detections left pending are exactly those whose prompt returned an error and those that
      the loop did not get past, because their queue update or an earlier one failed. */
  lemma PendingAreFailures(digest: Digest, w: World, items: seq<Item>, env: nat -> Env, id: nat)
    requires Pending(w.queue, items)
    ensures var q := ReviewAll(digest, w, items, env).world.queue;
            id in q && q[id].resolution.None?
            <==> exists i :: 0 <= i < |items| && items[i].id == id
                   && (OutcomeAt(digest, w, items, env, i).None? || !Completed(digest, w, items, env, i))
  {
    hide ReviewAll, OutcomeAt, Completed;
    QueueKeys(digest, w, items, env);
    if id in w.queue {
      QueueAfter(digest, w, items, env, id);
    }
  }

  /** A run that is not halted completes every turn. */
  lemma AllCompleted(digest: Digest, w: World, items: seq<Item>, env: nat -> Env, i: nat)
    requires i < |items| && !ReviewAll(digest, w, items, env).halted
    ensures Completed(digest, w, items, env, i)
  {
    if ReviewAll(digest, w, items[..i + 1], env).halted { HaltedStays(digest, w, items, env, i + 1); }
  }

  /** In a run that is not halted, the row of a file that was deleted says so. */
  lemma RemovedIsRecorded(digest: Digest, w: World, items: seq<Item>, env: nat -> Env, p: Path)
    requires Q.Tidy(w.store) && NoneIsFuture(w.store, items)
    requires Distinct(items) && forall i :: 0 <= i < |items| ==> items[i].id in w.queue
    requires !ReviewAll(digest, w, items, env).halted
    requires p in w.store.fs && p !in ReviewAll(digest, w, items, env).world.store.fs
    ensures var r := ReviewAll(digest, w, items, env).world;
            || Saved(r.store, w.store.nextId, p, w.store.fs[p])
            || exists i :: 0 <= i < |items| && items[i].path == p && items[i].id in r.queue
                 && r.queue[items[i].id].resolution == Some(DELETE)
  {
    hide ReviewAll, Saved, Q.Tidy, NoneIsFuture, OutcomeAt, Completed;
    RemovedIsDeletedOrSaved(digest, w, items, env, p);
    if !Saved(ReviewAll(digest, w, items, env).world.store, w.store.nextId, p, w.store.fs[p]) {
      var i :| 0 <= i < |items| && items[i].path == p && DeletedAt(digest, w, items, env, i);
      AllCompleted(digest, w, items, env, i);
      QueueAfter(digest, w, items, env, items[i].id);
      assert items[i].id in ReviewAll(digest, w, items, env).world.queue;
    }
  }

  // ----- answers ---------------------------------------------------------------------------

  /** What the prompt reads as its choice is a line that says d. */
  ghost predicate AsksToDelete(input: Reader) {
    var line := ReadLine(input);
    !line.stop.Broken? && SaysDelete(line.text)
  }

  /** And the line it then reads as the confirmation says y. */
  ghost predicate Confirms(input: Reader) {
    AsksToDelete(input) && SaysYes(ReadLine(ReadLine(input).rest).text)
  }

  ghost predicate AsksToQuarantine(input: Reader) {
    var line := ReadLine(input);
    !line.stop.Broken? && SaysQuarantine(line.text)
  }

  /** How many of the lines left satisfy p. */
  ghost function CountLines(data: string, p: string -> bool): nat
    decreases |data|
  {
    if data == [] then 0
    else
      var line := ReadLine(Reader(data, false));
      (if p(line.text) then 1 else 0) + CountLines(line.rest.data, p)
  }

  /** How many of the lines left say y right after one that says d. */
  ghost function CountConfirmed(data: string): nat
    decreases |data|
  {
    if data == [] then 0
    else
      var line := ReadLine(Reader(data, false));
      (if SaysDelete(line.text) && SaysYes(ReadLine(line.rest).text) then 1 else 0) + CountConfirmed(line.rest.data)
  }

  /** Reading a line takes it, and nothing else, from the counts. */
  lemma ReadCounts(r: Reader, p: string -> bool)
    requires !p([])
    ensures CountLines(r.data, p) == (if p(ReadLine(r).text) then 1 else 0) + CountLines(ReadLine(r).rest.data, p)
  {
    hide ReadLine;
    SameText(r);
    if r.data == [] { NothingToRead(r); }
  }

  lemma NothingToRead(r: Reader)
    requires r.data == []
    ensures ReadLine(r).text == [] && ReadLine(r).rest == r
  {}

  lemma ReadConfirmed(r: Reader)
    ensures CountConfirmed(r.data)
         == (if SaysDelete(ReadLine(r).text) && SaysYes(ReadLine(ReadLine(r).rest).text) then 1 else 0)
            + CountConfirmed(ReadLine(r).rest.data)
  {
    hide SaysDelete, SaysYes, ReadLine;
    OneWordAtMost([]);
    SameText(r);
    SameText(ReadLine(r).rest);
    if r.data == [] { NothingToRead(r); }
  }

  /** The text of a line does not depend on how the input ends. */
  lemma SameText(r: Reader)
    ensures ReadLine(r).text == ReadLine(Reader(r.data, false)).text
    ensures Reader(ReadLine(r).rest.data, false) == ReadLine(Reader(r.data, false)).rest
  {}

  /** What becomes of a prompt, by what its lines say. */
  lemma PromptReplies(w: World, m: Match, e: Env)
    requires m.path in w.store.fs
    ensures var line := ReadLine(w.input);
            var failed := line.stop.Broken? || (line.stop.Eof? && H.AllSpace(line.text));
            Prompt(w, m, e).action
            == if failed then None
               else if SaysQuarantine(line.text) then
                 (if e.quarantine.Finished? && Q.Moves(w.store.fs, m.path, e.quarantine.m) then Some("quarantine")
                  else None)
               else if SaysDelete(line.text) then
                 (if !SaysYes(ReadLine(line.rest).text) then Some("ignore")
                  else if e.removes then Some("delete") else None)
               else if SaysIgnore(line.text) then Some("ignore")
               else if e.logs then Some("report") else None
    ensures var p := Prompt(w, m, e);
            p.world.reports
            == w.reports + if p.action == Some("report") then [Report(m.path, m.hash, m.entry.row.name)] else []
    ensures var line := ReadLine(w.input);
            Prompt(w, m, e).world.input == if AsksToDelete(w.input) then ReadLine(line.rest).rest else line.rest
    ensures Prompt(w, m, e).world.store
         == if AsksToQuarantine(w.input) then Q.QuarantineFile(w.store, m.path, m.hash, e.quarantine).store
            else if Confirms(w.input) && e.removes then w.store.(fs := w.store.fs - {m.path})
            else w.store
  {
    hide Answer, ReadLine, Confirmed, SaysQuarantine, SaysDelete, SaysIgnore, SaysYes, H.AllSpace;
    var line := ReadLine(w.input);
    AnswersAreWords(line.text);
    AnswersAreWords(ReadLine(line.rest).text);
    Q.QuarantineReports(w.store, m.path, m.hash, e.quarantine);
  }

  /** A detection is deleted exactly when it passed the recheck, its choice line says d, the next
      line confirms, and the removal works; it gets a record exactly when it passed, its choice
      line says q and the record is inserted. */
  lemma ActsAsAnswered(digest: Digest, w: World, it: Item, e: Env)
    ensures Outcome(digest, w, it, e) == Some("delete")
       <==> Asked(digest, w, it, e) && Confirms(w.input) && e.removes
    ensures ReviewOne(digest, w, it, e).world.store.nextId
         == w.store.nextId + if Asked(digest, w, it, e) && AsksToQuarantine(w.input) && !e.quarantine.Early?
                             then 1 else 0
  {
    hide Prompt, ReadLine, Recheck, Asked, SaysQuarantine, SaysDelete, SaysIgnore, SaysYes, H.AllSpace;
    RecheckExactly(digest, w, it, e);
    if Asked(digest, w, it, e) {
      var m := MatchOf(digest, w, it, e);
      PromptReplies(w, m, e);
      OneWordAtMost(ReadLine(w.input).text);
      NothingOnBlank(ReadLine(w.input).text);
      Q.QuarantineReports(w.store, m.path, m.hash, e.quarantine);
    }
  }

  lemma NothingOnBlank(text: string)
    ensures H.AllSpace(text) ==> !SaysQuarantine(text) && !SaysDelete(text) && !SaysIgnore(text)
  {
    hide Answer, SaysQuarantine, SaysDelete, SaysIgnore;
    AnswersAreWords(text);
  }

  /** What one prompt takes from the counts. */
  lemma PromptReads(w: World, m: Match, e: Env)
    ensures var before, after := w.input.data, Prompt(w, m, e).world.input.data;
            var yes, quarantine := if Confirms(w.input) then 1 else 0, if AsksToQuarantine(w.input) then 1 else 0;
            && yes + CountConfirmed(after) <= CountConfirmed(before)
            && yes + CountLines(after, SaysYes) <= CountLines(before, SaysYes)
            && quarantine + CountLines(after, SaysQuarantine) <= CountLines(before, SaysQuarantine)
  {
    hide Answer, ReadLine, CountLines, CountConfirmed, Confirmed, SaysQuarantine, SaysDelete, SaysIgnore, SaysYes;
    OneWordAtMost([]);
    AnswersAreWords(ReadLine(w.input).text);
    OneWordAtMost(ReadLine(w.input).text);
    var next := ReadLine(w.input).rest;
    ReadCounts(w.input, SaysYes);
    ReadCounts(w.input, SaysQuarantine);
    ReadCounts(next, SaysYes);
    ReadCounts(next, SaysQuarantine);
    ReadConfirmed(w.input);
    ReadConfirmed(next);
  }

  /** How many detections ended in a deletion. */
  ghost function Deletions(digest: Digest, w: World, items: seq<Item>, env: nat -> Env): nat {
    if items == [] then 0
    else
      var front, it := items[..|items| - 1], items[|items| - 1];
      var x := ReviewAll(digest, w, front, env);
      Deletions(digest, w, front, env)
      + if !x.halted && Outcome(digest, x.world, it, env(it.id)) == Some("delete") then 1 else 0
  }

  /** How many detections were put to the user with an input ahead that satisfies f. */
  ghost function Prompts(digest: Digest, w: World, items: seq<Item>, env: nat -> Env, f: Reader -> bool): nat {
    if items == [] then 0
    else
      var front, it := items[..|items| - 1], items[|items| - 1];
      var x := ReviewAll(digest, w, front, env);
      Prompts(digest, w, front, env, f)
      + if !x.halted && Asked(digest, x.world, it, env(it.id)) && f(x.world.input) then 1 else 0
  }

  lemma ReviewOneReads(digest: Digest, w: World, it: Item, e: Env)
    ensures var before, after := w.input.data, ReviewOne(digest, w, it, e).world.input.data;
            var asked := Asked(digest, w, it, e);
            var yes, quarantine := if asked && Confirms(w.input) then 1 else 0,
                                   if asked && AsksToQuarantine(w.input) then 1 else 0;
            && yes + CountConfirmed(after) <= CountConfirmed(before)
            && yes + CountLines(after, SaysYes) <= CountLines(before, SaysYes)
            && quarantine + CountLines(after, SaysQuarantine) <= CountLines(before, SaysQuarantine)
  {
    hide Prompt, CountLines, CountConfirmed, Confirms, AsksToQuarantine, Recheck, Asked, SaysYes, SaysQuarantine;
    RecheckExactly(digest, w, it, e);
    if Asked(digest, w, it, e) { PromptReads(w, MatchOf(digest, w, it, e), e); }
  }

  /** Every deletion needs a line that was read as its confirmation and says y, and such lines
      directly follow one that says d; every record needs a line that was read as a choice and
      says q. Neither exceeds what the input holds of them and the review has read. */
  lemma {:induction false} ActionsWithinAnswers(digest: Digest, w: World, items: seq<Item>, env: nat -> Env)
    ensures var before, after := w.input.data, ReviewAll(digest, w, items, env).world.input.data;
            var confirmed := Prompts(digest, w, items, env, Confirms);
            && Deletions(digest, w, items, env) <= confirmed
            && confirmed + CountConfirmed(after) <= CountConfirmed(before)
            && confirmed + CountLines(after, SaysYes) <= CountLines(before, SaysYes)
    ensures var before, after := w.input.data, ReviewAll(digest, w, items, env).world.input.data;
            var chosen := Prompts(digest, w, items, env, AsksToQuarantine);
            && ReviewAll(digest, w, items, env).world.store.nextId - w.store.nextId <= chosen
            && chosen + CountLines(after, SaysQuarantine) <= CountLines(before, SaysQuarantine)
  {
    hide ReviewOne, CountLines, CountConfirmed, Confirms, AsksToQuarantine, Outcome, Asked;
    hide SaysYes, SaysQuarantine;
    if items != [] {
      var front, it := items[..|items| - 1], items[|items| - 1];
      ActionsWithinAnswers(digest, w, front, env);
      ReviewOneReads(digest, ReviewAll(digest, w, front, env).world, it, env(it.id));
      ActsAsAnswered(digest, ReviewAll(digest, w, front, env).world, it, env(it.id));
    }
  }

  /** Once the input is used up no file, record or report changes any more. */
  lemma {:induction false} ExhaustedInputTouchesNothing(digest: Digest, w: World, items: seq<Item>, env: nat -> Env)
    requires w.input.data == []
    ensures var r := ReviewAll(digest, w, items, env).world;
            r.store == w.store && r.reports == w.reports && r.input == w.input
  {
    hide Recheck, Answer, Confirmed;
    AnswersAreWords([]);
    if items != [] {
      ExhaustedInputTouchesNothing(digest, w, items[..|items| - 1], env);
    }
  }

  // ----- one turn of the loop --------------------------------------------------------------

  /** What the turn of a detection does to the input, the reports and the queue. One that is not
      asked is skipped as stale and reads nothing; one that is asked reads its choice line, and a
      second line if the first says d, and is not skipped. */
  lemma TurnLaw(digest: Digest, w: World, it: Item, e: Env)
    ensures Outcome(digest, w, it, e) == Some("skipped-stale") <==> !Asked(digest, w, it, e)
    ensures var first := ReadLine(w.input);
            ReviewOne(digest, w, it, e).world.input
            == if !Asked(digest, w, it, e) then w.input
               else if AsksToDelete(w.input) then ReadLine(first.rest).rest
               else first.rest
    ensures ReviewOne(digest, w, it, e).world.reports
         == w.reports + if Outcome(digest, w, it, e) == Some("report")
                        then [Report(it.path, it.hash, w.hashes[it.hash].name)] else []
    ensures ReviewOne(digest, w, it, e).halted <==> Outcome(digest, w, it, e).Some? && !e.updates
    ensures ReviewOne(digest, w, it, e).world.hashes == w.hashes
  {
    hide Prompt, ReadLine, Recheck, Asked, AsksToDelete, AsksToQuarantine, Confirms;
    hide SaysQuarantine, SaysDelete, SaysIgnore, SaysYes, H.AllSpace;
    RecheckExactly(digest, w, it, e);
    if Asked(digest, w, it, e) {
      PromptReplies(w, MatchOf(digest, w, it, e), e);
      PromptKeepsHashes(w, MatchOf(digest, w, it, e), e);
    }
  }

  lemma PromptKeepsHashes(w: World, m: Match, e: Env)
    ensures Prompt(w, m, e).world.hashes == w.hashes
  {
    hide Answer, ReadLine;
  }

  /** The loop goes on after a turn exactly when no queue update failed up to then; a prompt that
      returns an error does not stop it. */
  lemma {:induction false} CompletedExactly(digest: Digest, w: World, items: seq<Item>, env: nat -> Env, i: nat)
    requires i < |items|
    ensures Completed(digest, w, items, env, i)
       <==> forall k :: 0 <= k <= i && OutcomeAt(digest, w, items, env, k).Some? ==> env(items[k].id).updates
  {
    hide ReviewOne, Outcome;
    assert items[..i + 1][..i] == items[..i];
    TurnLaw(digest, Turn(digest, w, items, env, i), items[i], env(items[i].id));
    if i == 0 {
      NothingReviewed(digest, w, env);
      assert items[..0] == [];
    } else {
      CompletedExactly(digest, w, items, env, i - 1);
    }
  }

  /** A detection that got its turn is recorded as skipped-stale exactly when its file was not
      there, could not be read, was not scannable, had another hash, or its hash was not known. */
  lemma SkippedExactly(digest: Digest, w: World, items: seq<Item>, env: nat -> Env, i: nat)
    requires Distinct(items) && i < |items| && items[i].id in w.queue && Completed(digest, w, items, env, i)
    requires w.queue[items[i].id].resolution.None?
    ensures var row := ReviewAll(digest, w, items, env).world.queue;
            items[i].id in row
            && (row[items[i].id].resolution == Some("skipped-stale")
                <==> !Asked(digest, Turn(digest, w, items, env, i), items[i], env(items[i].id)))
  {
    hide ReviewAll, Completed, Asked;
    QueueAfter(digest, w, items, env, items[i].id);
    TurnLaw(digest, Turn(digest, w, items, env, i), items[i], env(items[i].id));
  }

  // ----- the queue -------------------------------------------------------------------------

  /** The unresolved rows, in the given order of ids. */
  function Listed(queue: map<nat, Detection>, order: seq<nat>): seq<Item> {
    if order == [] then []
    else
      var rest, id := Listed(queue, order[..|order| - 1]), order[|order| - 1];
      if id in queue && queue[id].resolution.None? then rest + [Item(id, queue[id].path, queue[id].hash)] else rest
  }

  lemma {:induction false} ListedHolds(queue: map<nat, Detection>, order: seq<nat>, id: nat)
    requires forall i, j :: 0 <= i < j < |order| ==> order[i] != order[j]
    ensures var items := Listed(queue, order);
            && Distinct(items)
            && (forall i :: 0 <= i < |items| ==>
                  (items[i].id in queue && items[i].id in order
                   && queue[items[i].id] == Detection(items[i].path, items[i].hash, None)))
            && (id in order && id in queue && queue[id].resolution.None? ==>
                  exists i :: 0 <= i < |items| && items[i].id == id)
  {
    if order != [] {
      var front, last := order[..|order| - 1], order[|order| - 1];
      ListedHolds(queue, front, id);
      var rest, items := Listed(queue, front), Listed(queue, order);
      assert order == front + [last];
      assert forall i :: 0 <= i < |rest| ==> items[i] == rest[i];
      assert last !in front;
      if last in queue && queue[last].resolution.None? {
        assert items[|rest|].id == last;
      }
    }
  }

  /** Rows are listed in the given order. */
  lemma {:induction false} ListedInOrder(queue: map<nat, Detection>, a: seq<nat>, b: seq<nat>)
    ensures Listed(queue, a + b) == Listed(queue, a) + Listed(queue, b)
  {
    if b == [] {
      assert a + b == a;
    } else {
      var front, last := b[..|b| - 1], b[|b| - 1];
      ListedInOrder(queue, a, front);
      assert (a + b)[..|a + b| - 1] == a + front && (a + b)[|a + b| - 1] == last;
      ListedSnoc(queue, a + b);
      ListedSnoc(queue, b);
    }
  }

  lemma ListedSnoc(queue: map<nat, Detection>, order: seq<nat>)
    requires order != []
    ensures Listed(queue, order) == Listed(queue, order[..|order| - 1]) + Listed(queue, [order[|order| - 1]])
  {
    assert [order[|order| - 1]][..0] == [];
  }

  /** The list given to the review is the set of unresolved rows, each once. */
  lemma ListedIsPending(queue: map<nat, Detection>, order: seq<nat>)
    requires forall i, j :: 0 <= i < j < |order| ==> order[i] != order[j]
    requires forall id :: id in queue <==> id in order
    ensures Pending(queue, Listed(queue, order))
  {
    var items := Listed(queue, order);
    ListedHolds(queue, order, 0);
    forall id | id in queue && queue[id].resolution.None?
      ensures exists i :: 0 <= i < |items| && items[i].id == id
    {
      ListedHolds(queue, order, id);
    }
  }

  // ----- the command -----------------------------------------------------------------------

  class Session {
    const digest: Digest
    const hashes: H.Table
    var store: Q.Store
    var queue: map<nat, Detection>
    var nextId: nat
    var input: Reader
    var reports: seq<Report>

    function View(): World
      reads this
    {
      World(store, hashes, queue, input, reports)
    }

    /** The row a new detection gets. */
    method Enqueue(m: Match) returns (id: nat)
      requires forall k :: k in queue ==> k < nextId
      modifies this`queue, this`nextId
      ensures id == old(nextId) && id !in old(queue) && nextId == id + 1
      ensures queue == old(queue)[id := Detection(m.path, m.hash, None)]
      ensures forall k :: k in queue ==> k < nextId
    {
      id := nextId;
      queue := queue[id := Detection(m.path, m.hash, None)];
      nextId := nextId + 1;
    }

    /** order: the ids of all rows, by time of detection. */
    method ListPending(order: seq<nat>) returns (items: seq<Item>)
      requires forall i, j :: 0 <= i < j < |order| ==> order[i] != order[j]
      requires forall id :: id in queue <==> id in order
      ensures items == Listed(queue, order) && Pending(queue, items)
    {
      items := [];
      for n := 0 to |order|
        invariant items == Listed(queue, order[..n])
      {
        assert order[..n + 1][..n] == order[..n];
        var id := order[n];
        if queue[id].resolution.None? {
          items := items + [Item(id, queue[id].path, queue[id].hash)];
        }
      }
      assert order[..|order|] == order;
      ListedIsPending(queue, order);
    }

    /** Takes the input up to the first newline, or all of it, and says how the reading ended. */
    method NextLine() returns (line: Line)
      modifies this`input
      ensures line == ReadLine(old(input)) && input == line.rest
      ensures line.text + input.data == old(input.data) && input.broken == old(input.broken)
      ensures forall k :: 0 <= k < |line.text| - 1 ==> line.text[k] != '\n'
      ensures line.stop.Newline? <==> line.text != [] && line.text[|line.text| - 1] == '\n'
      ensures !line.stop.Newline? ==> input.data == [] && (line.stop.Broken? <==> old(input.broken))
    {
      ReadLineSplits(input);
      line := ReadLine(input);
      input := line.rest;
    }

    method ResolvePrompt(m: Match, e: Env) returns (action: Option<string>)
      modifies this
      ensures Prompt(old(View()), m, e) == Prompted(View(), action)
      ensures nextId == old(nextId)
    {
      hide Answer;
      var line := NextLine();
      if line.stop.Broken? { return None; }
      var choice := Answer(line.text);
      if line.stop.Eof? && choice == [] { return None; }
      if choice == "q" || choice == "quarantine" {
        var r := Q.QuarantineFile(store, m.path, m.hash, e.quarantine);
        store := r.store;
        if r.id.None? { return None; }
        return Some(QUARANTINE);
      }
      if choice == "d" || choice == "delete" {
        var confirm := NextLine();
        if !Confirmed(confirm.text) { return Some(IGNORE); }
        if m.path !in store.fs || !e.removes { return None; }
        store := store.(fs := store.fs - {m.path});
        return Some(DELETE);
      }
      if choice == "i" || choice == "ignore" { return Some(IGNORE); }
      if !e.logs { return None; }
      reports := reports + [Report(m.path, m.hash, m.entry.row.name)];
      action := Some(REPORT);
    }

    method Resolve(id: nat, resolution: string, e: Env) returns (ok: bool)
      modifies this`queue
      ensures Record(old(View()), id, resolution, e) == Reviewed(View(), !ok)
    {
      if !e.updates { return false; }
      queue := ResolveRow(queue, id, resolution);
      ok := true;
    }

    method RunReview(items: seq<Item>, env: nat -> Env) returns (ok: bool)
      modifies this
      ensures ReviewAll(digest, old(View()), items, env) == Reviewed(View(), !ok)
    {
      hide Prompt, Record;
      for n := 0 to |items|
        invariant ReviewAll(digest, old(View()), items[..n], env) == Reviewed(View(), false)
      {
        var it := items[n];
        assert items[..n + 1][..n] == items[..n];
        var e := env(it.id);
        ghost var before := View();
        var rechecked := Recheck(digest, View(), it, e);
        var done := true;
        if rechecked.None? {
          done := Resolve(it.id, STALE, e);
        } else {
          var action := ResolvePrompt(rechecked.value, e);
          if action.Some? { done := Resolve(it.id, action.value, e); }
        }
        assert ReviewOne(digest, before, it, e) == Reviewed(View(), !done);
        if !done {
          HaltedStays(digest, old(View()), items, env, n + 1);
          return false;
        }
      }
      assert items[..|items|] == items;
      ok := true;
    }
  }
}
