/**
 * The data-loss recovery walk: a recursive, paginated walk that renames entries of the directory it
 * is still paging through.
 */
module Recovery {
  import opened Names
  import opened FilerUrls
  import opened RecoverySpec

  // ---------------------------------------------------------------------------------------------
  // The filer, and the requests it gets: an answer is about the file or directory the URL reaches
  // ---------------------------------------------------------------------------------------------

  method GetListing(env: Env, url: string, dir: Path, entries: map<Name, Node>, cursor: string) returns (page: Option<Page>)
    requires ReachesDirectory(url, Render(dir), cursor)
    ensures page == if env.listed(Render(dir), cursor) then Some(env.page(Render(dir), cursor, entries.Keys)) else None
  {
    var r := Address(url).value;
    var path, last := r.path[..|r.path| - 1], Parameter(r.query, LAST);
    page := if env.listed(path, last) then Some(env.page(path, last, entries.Keys)) else None;
  }

  method GetFile(env: Env, url: string, p: Path, data: Data) returns (reply: Reply)
    requires ReachesFile(url, Render(p))
    ensures reply == env.check(Render(p), data)
  {
    reply := env.check(Address(url).value.path, data);
  }

  method PutFile(env: Env, url: string, p: Path, key: string) returns (ok: bool)
    requires ReachesFile(url, Render(p))
    ensures ok == env.upload(Render(p), key)
  {
    ok := env.upload(Address(url).value.path, key);
  }

  method PostRename(env: Env, url: string, dir: Path, entries: map<Name, Node>, n: Name) returns (ok: bool)
    requires ReachesRename(url, Render(dir + [n]))
    ensures ok == Moves(env, dir, entries, n)
  {
    var from := Parameter(Address(url).value.query, FROM);
    ok := env.rename(from) && !(MarkedName(n) in entries && entries[MarkedName(n)].Dir?);
  }

  /** Every name a run puts into a URL has no character with a meaning there. */
  predicate PlainTree(m: map<Name, Node>)
    decreases Dir(m)
  {
    forall n :: n in m && Relevant(m, n) ==> Plain(n) && (m[n].Dir? ==> PlainTree(m[n].entries))
  }

  lemma RenderPlain(dir: Path, n: Name)
    ensures Plain(Render(dir + [n])) <==> Plain(Render(dir)) && Plain(n)
  {
    RenderAppend(dir, n);
    PlainConcat(Render(dir) + "/", n);
    PlainConcat(Render(dir), "/");
  }

  lemma {:induction false} RenderBytes(p: Path)
    ensures IsBytes(Render(p))
  {
    if p != [] { RenderBytes(p[..|p| - 1]); }
  }

  // ---------------------------------------------------------------------------------------------
  // One file
  // ---------------------------------------------------------------------------------------------

  method ListDirectory(env: Env, dir: Path, entries: map<Name, Node>, cursor: string) returns (page: Option<Page>)
    requires Honest(env) && Plain(Render(dir)) && IsBytes(cursor)
    ensures page == if env.listed(Render(dir), cursor) then Some(env.page(Render(dir), cursor, entries.Keys)) else None
    ensures page.Some? ==> IsPage(entries.Keys, cursor, page.value)
  {
    var url := ListUrl(Render(dir), cursor);
    ListRequest(Render(dir), cursor);
    page := GetListing(env, url, dir, entries, cursor);
  }

  /** Tries the snapshots in order; the caller gets what was restored and every path written to. */
  method TryRestore(env: Env, dry: bool, p: Path) returns (restored: Option<Data>, ghost writes: seq<Path>)
    requires Plain(Render(p))
    ensures restored == Source(env, dry, p)
    ensures dry ==> writes == []
    ensures forall w :: w in writes ==> w == p
  {
    var prefixes := [NEWER, OLDER];
    writes := [];
    var i := 0;
    while i < |prefixes|
      invariant i <= |prefixes|
      invariant i >= 1 ==> !Usable(env, dry, NEWER, p)
      invariant i >= 2 ==> !Usable(env, dry, OLDER, p)
      invariant dry ==> writes == []
      invariant forall w :: w in writes ==> w == p
    {
      var key := prefixes[i] + TrimSlash(Render(p));
      var found := env.backup(key);
      if found.Some? {
        if dry { return found, writes; }
        FileRequest(Render(p));
        var ok := PutFile(env, FileUrl(Render(p)), p, key);
        writes := writes + [p];
        if ok { return found, writes; }
      }
      i := i + 1;
    }
    return None, writes;
  }

  /** after is before with the file called n dealt with, and nothing else changed. */
  ghost predicate Dealt(env: Env, dry: bool, dir: Path, before: map<Name, Node>, n: Name, after: map<Name, Node>)
    requires n in before && before[n].File? && !Marked(n)
  {
    && Lookup(after, n) == FileAfter(env, dry, dir, before, n)
    && Lookup(after, MarkedName(n)) == (if Moved(env, dry, dir, before, n) then Some(before[n]) else Lookup(before, MarkedName(n)))
    && forall k :: k != n && k != MarkedName(n) ==> Lookup(after, k) == Lookup(before, k)
  }

  method MarkMissing(env: Env, dry: bool, dir: Path, entries: map<Name, Node>, n: Name)
    returns (entries': map<Name, Node>, ghost writes: seq<Path>)
    requires n in entries && Plain(Render(dir + [n]))
    ensures entries' == if !dry && Moves(env, dir, entries, n) then (entries - {n})[MarkedName(n) := entries[n]] else entries
    ensures writes == if dry then [] else [dir + [n]]
  {
    if dry { return entries, []; }
    var from := Render(dir + [n]);
    RenderBytes(dir + [n]);
    RenameRequest(from);
    var ok := PostRename(env, RenameUrl(from), dir, entries, n);
    entries', writes := if ok then (entries - {n})[MarkedName(n) := entries[n]] else entries, [dir + [n]];
  }

  method CheckAndRecover(env: Env, dry: bool, dir: Path, entries: map<Name, Node>, n: Name, s: Stats)
    returns (entries': map<Name, Node>, s': Stats, ghost checks: multiset<Path>, ghost writes: seq<Path>)
    requires n in entries && entries[n].File? && !Marked(n) && Plain(Render(dir + [n]))
    ensures checks == multiset{dir + [n]}
    ensures s' == Bump(s, Classify(env, dry, dir + [n], entries[n].data))
    ensures Dealt(env, dry, dir, entries, n, entries')
    ensures dry ==> writes == []
    ensures forall w :: w in writes ==> w == dir + [n]
    ensures writes != [] ==> Classify(env, dry, dir + [n], entries[n].data) in {Restored, Missing}
    ensures writes != [] ==> env.check(Render(dir + [n]), entries[n].data) == Status(500)
  {
    var p := dir + [n];
    entries', writes := entries, [];
    s' := s.(scanned := s.scanned + 1);
    FileRequest(Render(p));
    var reply := GetFile(env, FileUrl(Render(p)), p, entries[n].data);
    checks := multiset{p};
    if reply.Unreachable? {
      s' := s'.(errors := s'.errors + 1);
      return;
    }
    if reply.code == 200 {
      s' := s'.(healthy := s'.healthy + 1);
      return;
    }
    if reply.code != 500 {
      s' := s'.(errors := s'.errors + 1);
      return;
    }
    var restored;
    restored, writes := TryRestore(env, dry, p);
    if restored.Some? {
      if !dry { entries' := entries[n := File(restored.value)]; }
      s' := s'.(restored := s'.restored + 1);
    } else {
      ghost var renamed;
      entries', renamed := MarkMissing(env, dry, dir, entries, n);
      writes := writes + renamed;
      s' := s'.(missing := s'.missing + 1);
    }
  }

  // ---------------------------------------------------------------------------------------------
  // What has happened so far in one directory
  // ---------------------------------------------------------------------------------------------

  /** Outcomes, checks made, paths written to, directories with a failed listing, and names dealt with. */
  datatype History = History(ledger: Ledger, checks: multiset<Path>, writes: seq<Path>, failed: set<Path>, done: set<Name>)

  ghost predicate EntriesAfter(env: Env, dry: bool, dir: Path, m: map<Name, Node>, cur: map<Name, Node>, done: set<Name>)
    requires Honest(env)
  {
    forall n :: Lookup(cur, n) == EntryAfter(env, dry, dir, m, done, RunDirs(env, dry, dir, m, done), n)
  }

  /** What has become of the entries of the directory. */
  ghost predicate TreeAfter(env: Env, dry: bool, dir: Path, m: map<Name, Node>, cur: map<Name, Node>, done: set<Name>)
    requires Honest(env)
  {
    done <= AllNames(m) && EntriesAfter(env, dry, dir, m, cur, done)
  }

  /** The counters are the ledger's, and every file in it was checked exactly once. */
  ghost predicate Counted(s: Stats, h: History) {
    s == Tally(h.ledger, h.failed) && h.checks == multiset(h.ledger.Keys)
  }

  /** Only a real run writes, and only to lost files. */
  ghost predicate Written(dry: bool, h: History) {
    && (dry ==> h.writes == [])
    && (forall w :: w in h.writes ==> w in h.ledger && h.ledger[w] in {Restored, Missing})
  }

  ghost predicate Booked(dry: bool, s: Stats, h: History) {
    Counted(s, h) && Written(dry, h)
  }

  /** p is a file checked below one of the entries in done. */
  ghost predicate ReachedIn(env: Env, dry: bool, dir: Path, m: map<Name, Node>, done: set<Name>, p: Path)
    requires Honest(env)
  {
    |p| > |dir| && p[..|dir|] == dir && p[|dir|] in done && ReachedBelow(env, dry, dir, m, p[|dir|..])
  }

  ghost predicate FailsIn(env: Env, dry: bool, dir: Path, m: map<Name, Node>, done: set<Name>, p: Path)
    requires Honest(env)
  {
    |p| > |dir| && p[..|dir|] == dir && p[|dir|] in done && FailsBelow(env, dry, dir, m, p[|dir|..])
  }

  ghost predicate Outcomes(env: Env, dry: bool, dir: Path, m: map<Name, Node>, ledger: Ledger) {
    forall p :: p in ledger ==> |p| > |dir| && ledger[p] == Classify(env, dry, p, DataAt(m, p[|dir|..]))
  }

  ghost predicate LedgerAfter(env: Env, dry: bool, dir: Path, m: map<Name, Node>, h: History)
    requires Honest(env)
  {
    && (forall p :: p in h.ledger <==> ReachedIn(env, dry, dir, m, h.done, p))
    && (forall p :: p in h.failed <==> FailsIn(env, dry, dir, m, h.done, p))
    && Outcomes(env, dry, dir, m, h.ledger)
  }

  ghost predicate Inv(env: Env, dry: bool, dir: Path, m: map<Name, Node>, cur: map<Name, Node>, s: Stats, h: History)
    requires Honest(env)
  {
    TreeAfter(env, dry, dir, m, cur, h.done) && LedgerAfter(env, dry, dir, m, h) && Booked(dry, s, h)
  }

  ghost predicate ReachedAt(env: Env, dry: bool, dir: Path, m: map<Name, Node>, p: Path)
    requires Honest(env)
  {
    |p| > |dir| && p[..|dir|] == dir && Reached(env, dry, dir, m, p[|dir|..])
  }

  ghost predicate FailsAt(env: Env, dry: bool, dir: Path, m: map<Name, Node>, p: Path)
    requires Honest(env)
  {
    |p| >= |dir| && p[..|dir|] == dir && Fails(env, dry, dir, m, p[|dir|..])
  }

  /**
   * What a walk of a directory promises, whichever requests fail: the files checked with their
   * outcomes, the failed listings, the tree and the counters.
   */
  ghost predicate Walked(env: Env, dry: bool, dir: Path, m: map<Name, Node>, after: map<Name, Node>, s: Stats, h: History)
    requires Honest(env)
  {
    && (forall p :: p in h.ledger <==> ReachedAt(env, dry, dir, m, p))
    && (forall p :: p in h.failed <==> FailsAt(env, dry, dir, m, p))
    && Outcomes(env, dry, dir, m, h.ledger)
    && Booked(dry, s, h)
    && after == RunTree(env, dry, dir, m)
  }

  // ---------------------------------------------------------------------------------------------
  // One more entry
  // ---------------------------------------------------------------------------------------------

  /** A file not yet dealt with is still there, and its rename would be accepted as at the start. */
  lemma StillThere(env: Env, dry: bool, dir: Path, m: map<Name, Node>, cur: map<Name, Node>, done: set<Name>, n: Name)
    requires Honest(env) && TreeAfter(env, dry, dir, m, cur, done)
    requires n in m && m[n].File? && !Marked(n) && n !in done
    ensures n in cur && cur[n] == m[n]
    ensures Moved(env, dry, dir, cur, n) == Moved(env, dry, dir, m, n)
    ensures FileAfter(env, dry, dir, cur, n) == FileAfter(env, dry, dir, m, n)
  {
    var to, subs := MarkedName(n), RunDirs(env, dry, dir, m, done);
    assert Lookup(cur, n) == EntryAfter(env, dry, dir, m, done, subs, n);
    MarkedNames(n);
    assert Lookup(cur, to) == EntryAfter(env, dry, dir, m, done, subs, to);
  }

  lemma EntryStep(env: Env, dry: bool, dir: Path, m: map<Name, Node>, done: set<Name>, subs: map<Name, Node>, n: Name, k: Name)
    requires n in m && m[n].File? && !Marked(n) && n !in done
    ensures EntryAfter(env, dry, dir, m, done + {n}, subs, k) ==
            if k == n then FileAfter(env, dry, dir, m, n)
            else if k == MarkedName(n) && Moved(env, dry, dir, m, n) then Some(m[n])
            else EntryAfter(env, dry, dir, m, done, subs, k)
  {
    MarkedNames(n);
    if Marked(k) && !(k in m && m[k].Dir?) { MarkedStep(env, dry, dir, m, done, subs, n, k); }
  }

  lemma MarkedStep(env: Env, dry: bool, dir: Path, m: map<Name, Node>, done: set<Name>, subs: map<Name, Node>, n: Name, k: Name)
    requires n in m && m[n].File? && !Marked(n) && n !in done && Marked(k) && !(k in m && m[k].Dir?)
    ensures EntryAfter(env, dry, dir, m, done + {n}, subs, k) ==
            if k == MarkedName(n) && Moved(env, dry, dir, m, n) then Some(m[n])
            else EntryAfter(env, dry, dir, m, done, subs, k)
  {
    MarkedNames(n);
    var from := k[..|k| - |SUFFIX|];
    assert from == n <==> k == MarkedName(n);
  }

  /** Dealing with one more file takes the directory from one set of done names to the next. */
  lemma FileStep(env: Env, dry: bool, dir: Path, m: map<Name, Node>, cur: map<Name, Node>, done: set<Name>, n: Name,
                 cur': map<Name, Node>)
    requires Honest(env) && TreeAfter(env, dry, dir, m, cur, done)
    requires n in m && m[n].File? && !Marked(n) && n !in done
    requires n in cur && cur[n] == m[n] && Dealt(env, dry, dir, cur, n, cur')
    ensures TreeAfter(env, dry, dir, m, cur', done + {n})
  {
    StillThere(env, dry, dir, m, cur, done, n);
    MarkedNames(n);
    RunDirsStep(env, dry, dir, m, done, n);
    var subs := RunDirs(env, dry, dir, m, done);
    forall k ensures Lookup(cur', k) == EntryAfter(env, dry, dir, m, done + {n}, subs, k) {
      EntryStep(env, dry, dir, m, done, subs, n, k);
      assert Lookup(cur, k) == EntryAfter(env, dry, dir, m, done, subs, k);
    }
  }

  lemma RunDirsStep(env: Env, dry: bool, dir: Path, m: map<Name, Node>, done: set<Name>, n: Name)
    requires Honest(env) && n in m
    ensures RunDirs(env, dry, dir, m, done + {n}) ==
            if m[n].File? then RunDirs(env, dry, dir, m, done)
            else RunDirs(env, dry, dir, m, done)[n := Dir(RunTree(env, dry, dir + [n], m[n].entries))]
  {
  }

  lemma DirStep(env: Env, dry: bool, dir: Path, m: map<Name, Node>, cur: map<Name, Node>, done: set<Name>, n: Name)
    requires Honest(env) && TreeAfter(env, dry, dir, m, cur, done)
    requires n in m && m[n].Dir? && n !in done
    ensures TreeAfter(env, dry, dir, m, cur[n := Dir(RunTree(env, dry, dir + [n], m[n].entries))], done + {n})
  {
    var sub := Dir(RunTree(env, dry, dir + [n], m[n].entries));
    var subs := RunDirs(env, dry, dir, m, done);
    RunDirsStep(env, dry, dir, m, done, n);
    DirEntries(env, dry, dir, m, cur, done, subs, n, sub);
  }

  lemma DirEntries(env: Env, dry: bool, dir: Path, m: map<Name, Node>, cur: map<Name, Node>, done: set<Name>,
                   subs: map<Name, Node>, n: Name, sub: Node)
    requires n in m && m[n].Dir?
    requires forall k :: Lookup(cur, k) == EntryAfter(env, dry, dir, m, done, subs, k)
    ensures var cur', subs', done' := cur[n := sub], subs[n := sub], done + {n};
            forall k :: Lookup(cur', k) == EntryAfter(env, dry, dir, m, done', subs', k)
  {
    var cur', subs', done' := cur[n := sub], subs[n := sub], done + {n};
    forall k ensures Lookup(cur', k) == EntryAfter(env, dry, dir, m, done', subs', k) {
      assert Lookup(cur, k) == EntryAfter(env, dry, dir, m, done, subs, k);
    }
  }

  function Join(a: History, b: History): History {
    History(a.ledger + b.ledger, a.checks + b.checks, a.writes + b.writes, a.failed + b.failed, a.done + b.done)
  }

  /** The files below two different entries are different files. */
  lemma JoinLedgers(env: Env, dry: bool, dir: Path, m: map<Name, Node>, a: History, b: History)
    requires Honest(env) && LedgerAfter(env, dry, dir, m, a) && LedgerAfter(env, dry, dir, m, b) && a.done !! b.done
    ensures a.ledger.Keys !! b.ledger.Keys && a.failed !! b.failed
    ensures LedgerAfter(env, dry, dir, m, Join(a, b))
  {
    forall p
      ensures ReachedIn(env, dry, dir, m, a.done + b.done, p) <==>
              ReachedIn(env, dry, dir, m, a.done, p) || ReachedIn(env, dry, dir, m, b.done, p)
      ensures FailsIn(env, dry, dir, m, a.done + b.done, p) <==>
              FailsIn(env, dry, dir, m, a.done, p) || FailsIn(env, dry, dir, m, b.done, p)
    {}
  }

  lemma MultisetOfUnion(a: set<Path>, b: set<Path>)
    requires a !! b
    ensures multiset(a + b) == multiset(a) + multiset(b)
  {
  }

  lemma JoinCounts(s: Stats, a: History, t: Stats, b: History)
    requires Counted(s, a) && Counted(t, b) && a.ledger.Keys !! b.ledger.Keys && a.failed !! b.failed
    ensures Counted(Add(s, t), Join(a, b))
  {
    TallyAdd(a.ledger, b.ledger, a.failed, b.failed);
    assert (a.ledger + b.ledger).Keys == a.ledger.Keys + b.ledger.Keys;
    MultisetOfUnion(a.ledger.Keys, b.ledger.Keys);
  }

  lemma JoinWrites(dry: bool, a: History, b: History)
    requires Written(dry, a) && Written(dry, b) && a.ledger.Keys !! b.ledger.Keys
    ensures Written(dry, Join(a, b))
  {
    forall w | w in a.writes + b.writes ensures w in a.ledger + b.ledger && (a.ledger + b.ledger)[w] in {Restored, Missing} {
      if w in a.writes { assert w in a.ledger.Keys; } else { assert w in b.writes; }
    }
  }

  lemma Joined(env: Env, dry: bool, dir: Path, m: map<Name, Node>, s: Stats, a: History, t: Stats, b: History)
    requires Honest(env) && LedgerAfter(env, dry, dir, m, a) && LedgerAfter(env, dry, dir, m, b) && a.done !! b.done
    requires Booked(dry, s, a) && Booked(dry, t, b)
    ensures LedgerAfter(env, dry, dir, m, Join(a, b)) && Booked(dry, Add(s, t), Join(a, b))
  {
    JoinLedgers(env, dry, dir, m, a, b);
    JoinCounts(s, a, t, b);
    JoinWrites(dry, a, b);
  }

  function FilePart(p: Path, o: Outcome, n: Name, writes: seq<Path>): History {
    History(map[p := o], multiset{p}, writes, {}, {n})
  }

  lemma FileBooks(dry: bool, p: Path, o: Outcome, n: Name, writes: seq<Path>, s: Stats)
    requires dry ==> writes == []
    requires forall w :: w in writes ==> w == p
    requires writes != [] ==> o in {Restored, Missing}
    ensures Booked(dry, Bump(Stats(0, 0, 0, 0, 0), o), FilePart(p, o, n, writes))
    ensures Add(s, Bump(Stats(0, 0, 0, 0, 0), o)) == Bump(s, o)
  {
    TallyBump(map[], {}, p, o);
  }

  lemma FileLedger(env: Env, dry: bool, dir: Path, m: map<Name, Node>, n: Name, writes: seq<Path>)
    requires Honest(env) && n in m && m[n].File? && !Marked(n)
    ensures LedgerAfter(env, dry, dir, m, FilePart(dir + [n], Classify(env, dry, dir + [n], m[n].data), n, writes))
  {
    var p := dir + [n];
    assert p[|dir|..] == [n] && p[..|dir|] == dir;
    assert ReachedBelow(env, dry, dir, m, [n]);
    forall p' | ReachedIn(env, dry, dir, m, {n}, p') ensures p' == p {
      assert p' == p'[..|dir|] + p'[|dir|..];
    }
  }

  lemma SplitPath(dir: Path, n: Name, p: Path)
    requires |p| > |dir|
    ensures p[..|dir| + 1] == dir + [n] <==> p[..|dir|] == dir && p[|dir|] == n
    ensures p[|dir|..][1..] == p[|dir| + 1..]
  {
    assert p[..|dir| + 1] == p[..|dir|] + [p[|dir|]];
    if p[..|dir| + 1] == dir + [n] {
      assert p[..|dir|] == p[..|dir| + 1][..|dir|] == dir;
      assert p[|dir|] == p[..|dir| + 1][|dir|] == n;
    }
  }

  /** What happens below an entry that is a directory is what happens in that directory. */
  lemma BelowDir(env: Env, dry: bool, dir: Path, m: map<Name, Node>, n: Name, p: Path)
    requires Honest(env) && n in m && m[n].Dir?
    ensures ReachedIn(env, dry, dir, m, {n}, p) <==> ReachedAt(env, dry, dir + [n], m[n].entries, p)
    ensures FailsIn(env, dry, dir, m, {n}, p) <==> FailsAt(env, dry, dir + [n], m[n].entries, p)
    ensures |p| > |dir| && p[|dir|] == n ==> DataAt(m, p[|dir|..]) == DataAt(m[n].entries, p[|dir| + 1..])
  {
    if |p| > |dir| {
      SplitPath(dir, n, p);
      var q, r, sub := p[|dir|..], p[|dir| + 1..], m[n].entries;
      assert q[0] == p[|dir|] && q[1..] == r && |dir + [n]| == |dir| + 1;
      assert q[0] == n ==> (ReachedBelow(env, dry, dir, m, q) <==> r != [] && Reached(env, dry, dir + [n], sub, r));
      assert q[0] == n ==> (FailsBelow(env, dry, dir, m, q) <==> Fails(env, dry, dir + [n], sub, r));
    }
  }

  lemma DirLedger(env: Env, dry: bool, dir: Path, m: map<Name, Node>, n: Name, sub: History)
    requires Honest(env) && n in m && m[n].Dir?
    requires forall p :: p in sub.ledger <==> ReachedAt(env, dry, dir + [n], m[n].entries, p)
    requires forall p :: p in sub.failed <==> FailsAt(env, dry, dir + [n], m[n].entries, p)
    requires Outcomes(env, dry, dir + [n], m[n].entries, sub.ledger)
    ensures LedgerAfter(env, dry, dir, m, sub.(done := {n}))
  {
    forall p ensures p in sub.ledger <==> ReachedIn(env, dry, dir, m, {n}, p) { BelowDir(env, dry, dir, m, n, p); }
    forall p ensures p in sub.failed <==> FailsIn(env, dry, dir, m, {n}, p) { BelowDir(env, dry, dir, m, n, p); }
    forall p | p in sub.ledger ensures |p| > |dir| && sub.ledger[p] == Classify(env, dry, p, DataAt(m, p[|dir|..])) {
      BelowDir(env, dry, dir, m, n, p);
    }
  }

  lemma DirDone(env: Env, dry: bool, dir: Path, m: map<Name, Node>, cur: map<Name, Node>, s: Stats, h: History, n: Name,
                entries: map<Name, Node>, subStats: Stats, sub: History)
    requires Honest(env) && Inv(env, dry, dir, m, cur, s, h)
    requires n in m && m[n].Dir? && n !in h.done
    requires Walked(env, dry, dir + [n], m[n].entries, entries, subStats, sub)
    ensures Inv(env, dry, dir, m, cur[n := Dir(entries)], Add(s, subStats), Join(h, sub.(done := {n})))
  {
    DirStep(env, dry, dir, m, cur, h.done, n);
    DirLedger(env, dry, dir, m, n, sub);
    Joined(env, dry, dir, m, s, h, subStats, sub.(done := {n}));
  }

  lemma FileAlone(env: Env, dry: bool, dir: Path, m: map<Name, Node>, n: Name, writes: seq<Path>, s: Stats)
    returns (t: Stats, part: History)
    requires Honest(env) && n in m && m[n].File? && !Marked(n)
    requires dry ==> writes == []
    requires forall w :: w in writes ==> w == dir + [n]
    requires writes != [] ==> Classify(env, dry, dir + [n], m[n].data) in {Restored, Missing}
    ensures part.done == {n} && part.checks == multiset{dir + [n]}
    ensures LedgerAfter(env, dry, dir, m, part) && Booked(dry, t, part)
    ensures Add(s, t) == Bump(s, Classify(env, dry, dir + [n], m[n].data))
  {
    var o := Classify(env, dry, dir + [n], m[n].data);
    t, part := Bump(Stats(0, 0, 0, 0, 0), o), FilePart(dir + [n], o, n, writes);
    FileLedger(env, dry, dir, m, n, writes);
    FileBooks(dry, dir + [n], o, n, writes, s);
  }

  lemma FileBooked(env: Env, dry: bool, dir: Path, m: map<Name, Node>, s: Stats, h: History, n: Name,
                   checks: multiset<Path>, writes: seq<Path>)
    returns (h': History)
    requires Honest(env) && LedgerAfter(env, dry, dir, m, h) && Booked(dry, s, h)
    requires n in m && m[n].File? && !Marked(n) && n !in h.done
    requires checks == multiset{dir + [n]} && (dry ==> writes == [])
    requires forall w :: w in writes ==> w == dir + [n]
    requires writes != [] ==> Classify(env, dry, dir + [n], m[n].data) in {Restored, Missing}
    ensures h'.done == h.done + {n} && h'.checks == h.checks + checks
    ensures LedgerAfter(env, dry, dir, m, h') && Booked(dry, Bump(s, Classify(env, dry, dir + [n], m[n].data)), h')
  {
    var t, part := FileAlone(env, dry, dir, m, n, writes, s);
    Joined(env, dry, dir, m, s, h, t, part);
    h' := Join(h, part);
  }

  // ---------------------------------------------------------------------------------------------
  // Entries, pages, directories
  // ---------------------------------------------------------------------------------------------

  /** A file of a page that is not marked. */
  method ProcessFile(env: Env, dry: bool, dir: Path, ghost m: map<Name, Node>, n: Name,
                     cur: map<Name, Node>, s: Stats, ghost h: History)
    returns (cur': map<Name, Node>, s': Stats, ghost h': History)
    requires Honest(env) && Plain(Render(dir)) && PlainTree(m) && Inv(env, dry, dir, m, cur, s, h)
    requires n in m && m[n].File? && !Marked(n) && n !in h.done
    ensures Inv(env, dry, dir, m, cur', s', h') && h'.done == h.done + {n}
  {
    ghost var checks, writes;
    RenderPlain(dir, n);
    StillThere(env, dry, dir, m, cur, h.done, n);
    cur', s', checks, writes := CheckAndRecover(env, dry, dir, cur, n, s);
    FileStep(env, dry, dir, m, cur, h.done, n, cur');
    h' := FileBooked(env, dry, dir, m, s, h, n, checks, writes);
  }

  /** One entry of a page, run to its end. */
  method ProcessEntry(env: Env, dry: bool, dir: Path, ghost m: map<Name, Node>, n: Name, listed: Node,
                      cur: map<Name, Node>, s: Stats, ghost h: History)
    returns (cur': map<Name, Node>, s': Stats, ghost h': History)
    requires Honest(env) && Plain(Render(dir)) && PlainTree(m) && Inv(env, dry, dir, m, cur, s, h)
    requires Relevant(m, n) ==> n !in h.done && listed == m[n]
    requires !Relevant(m, n) ==> listed.File? && Marked(n)
    ensures Inv(env, dry, dir, m, cur', s', h')
    ensures h'.done == if Relevant(m, n) then h.done + {n} else h.done
    decreases Dir(m), 0
  {
    cur', s', h' := cur, s, h;
    if listed.Dir? {
      ghost var sub;
      var entries, subStats;
      RenderPlain(dir, n);
      entries, subStats, sub := WalkAndRecover(env, dry, dir + [n], listed.entries);
      cur', s', h' := cur[n := Dir(entries)], Add(s, subStats), Join(h, sub.(done := {n}));
      DirDone(env, dry, dir, m, cur, s, h, n, entries, subStats, sub);
    } else if !Marked(n) {
      cur', s', h' := ProcessFile(env, dry, dir, m, n, cur, s, h);
    }
  }

  ghost function RelevantIn(m: map<Name, Node>, names: set<Name>): set<Name> {
    set n | n in names && Relevant(m, n)
  }

  /** The listing shows each entry still to be dealt with as it was at the start, and marked files. */
  ghost predicate Fresh(m: map<Name, Node>, done: set<Name>, listing: map<Name, Node>, n: Name) {
    && n in listing
    && (Relevant(m, n) ==> n !in done && listing[n] == m[n])
    && (!Relevant(m, n) ==> listing[n].File? && Marked(n))
  }

  /** The entries of a page finish in any order. */
  method ProcessPage(env: Env, dry: bool, dir: Path, ghost m: map<Name, Node>, page: set<Name>, listing: map<Name, Node>,
                     s: Stats, ghost h: History)
    returns (cur: map<Name, Node>, s': Stats, ghost h': History)
    requires Honest(env) && Plain(Render(dir)) && PlainTree(m) && Inv(env, dry, dir, m, listing, s, h)
    requires forall n :: n in page ==> Fresh(m, h.done, listing, n)
    ensures Inv(env, dry, dir, m, cur, s', h')
    ensures h'.done == h.done + RelevantIn(m, page)
    decreases Dir(m), 1
  {
    cur, s', h' := listing, s, h;
    var todo := page;
    while todo != {}
      invariant todo <= page
      invariant Inv(env, dry, dir, m, cur, s', h')
      invariant forall n :: n in h'.done <==> n in h.done || (n in page && n !in todo && Relevant(m, n))
    {
      var n :| n in todo;
      assert Fresh(m, h.done, listing, n);
      cur, s', h' := ProcessEntry(env, dry, dir, m, n, listing[n], cur, s', h');
      todo := todo - {n};
    }
  }

  lemma PageFresh(env: Env, dry: bool, dir: Path, m: map<Name, Node>, cur: map<Name, Node>, cursor: string, page: Page)
    requires Honest(env) && TreeAfter(env, dry, dir, m, cur, UpTo(m, cursor)) && IsPage(cur.Keys, cursor, page)
    ensures forall n :: n in page.names ==> Fresh(m, UpTo(m, cursor), cur, n) && n in Places(m)
  {
    forall n | n in page.names ensures Fresh(m, UpTo(m, cursor), cur, n) && n in Places(m) {
      CurEntry(env, dry, dir, m, cur, UpTo(m, cursor), n);
    }
  }

  lemma CurEntry(env: Env, dry: bool, dir: Path, m: map<Name, Node>, cur: map<Name, Node>, done: set<Name>, n: Name)
    requires Honest(env) && TreeAfter(env, dry, dir, m, cur, done)
    ensures n in cur ==> n in Places(m)
    ensures n in cur && !Relevant(m, n) ==> cur[n].File? && Marked(n)
    ensures Relevant(m, n) && n !in done ==> n in cur && cur[n] == m[n]
    ensures n in cur <==> EntryAfter(env, dry, dir, m, done, map[], n).Some?
  {
    var subs := RunDirs(env, dry, dir, m, done);
    assert Lookup(cur, n) == EntryAfter(env, dry, dir, m, done, subs, n);
    EntryFacts(env, dry, dir, m, done, subs, n);
    EntryKept(env, dry, dir, m, done, subs, map[], n);
  }

  /** The names a page is taken from depend on nothing but the cursor. */
  lemma NamesPresent(env: Env, dry: bool, dir: Path, m: map<Name, Node>, cur: map<Name, Node>, cursor: string)
    requires Honest(env) && TreeAfter(env, dry, dir, m, cur, UpTo(m, cursor))
    ensures cur.Keys == Present(env, dry, dir, m, cursor)
  {
    forall n: Name ensures n in cur <==> n in Present(env, dry, dir, m, cursor) {
      CurEntry(env, dry, dir, m, cur, UpTo(m, cursor), n);
    }
  }

  /** A page takes the cursor forward over exactly the relevant names it holds. */
  lemma PageCovers(env: Env, dry: bool, dir: Path, m: map<Name, Node>, cur: map<Name, Node>, cursor: string, page: Page, n: Name)
    requires Honest(env) && TreeAfter(env, dry, dir, m, cur, UpTo(m, cursor)) && IsPage(cur.Keys, cursor, page)
    ensures n in UpTo(m, cursor) + RelevantIn(m, page.names) <==> Relevant(m, n) && (page.more ==> !Less(page.last, n))
  {
    CurEntry(env, dry, dir, m, cur, UpTo(m, cursor), n);
    if page.more {
      var last := page.last;
      LessTotal(n, last);
      if n == last { LessIrreflexive(n); }
      if Less(n, last) && Less(last, n) { LessTransitive(n, last, n); LessIrreflexive(n); }
      if !Less(cursor, n) && Less(last, n) { LessTransitive(cursor, last, n); }
    }
  }

  lemma PageDone(env: Env, dry: bool, dir: Path, m: map<Name, Node>, cur: map<Name, Node>, cursor: string, page: Page)
    requires Honest(env) && TreeAfter(env, dry, dir, m, cur, UpTo(m, cursor)) && IsPage(cur.Keys, cursor, page)
    ensures UpTo(m, cursor) + RelevantIn(m, page.names) == if page.more then UpTo(m, page.last) else AllNames(m)
  {
    forall n: Name
      ensures n in UpTo(m, cursor) + RelevantIn(m, page.names) <==> Relevant(m, n) && (page.more ==> !Less(page.last, n))
    {
      PageCovers(env, dry, dir, m, cur, cursor, page, n);
    }
  }

  lemma StopStep(env: Env, dry: bool, dir: Path, m: map<Name, Node>, cursor: string)
    requires Honest(env) && env.listed(Render(dir), cursor)
    ensures var page := PageAt(env, dry, dir, m, cursor);
            && (!page.more ==> Stop(env, dry, dir, m, cursor) == None)
            && (page.more ==> Stop(env, dry, dir, m, cursor) == Stop(env, dry, dir, m, page.last))
  {
  }

  /** Once the names dealt with are those the specification names, the walk has done what it promises. */
  lemma WalkEnds(env: Env, dry: bool, dir: Path, m: map<Name, Node>, cur: map<Name, Node>, s: Stats, h: History)
    requires Honest(env) && Inv(env, dry, dir, m, cur, s, h) && h.done == DoneNames(env, dry, dir, m)
    requires Stop(env, dry, dir, m, "").None?
    ensures Walked(env, dry, dir, m, cur, s, h)
  {
    WalkReached(env, dry, dir, m, h);
    forall p ensures p in h.failed <==> FailsAt(env, dry, dir, m, p) { FailsHere(env, dry, dir, m, p); }
    TreeIs(env, dry, dir, m, cur);
  }

  lemma WalkFails(env: Env, dry: bool, dir: Path, m: map<Name, Node>, cur: map<Name, Node>, s: Stats, h: History)
    requires Honest(env) && Inv(env, dry, dir, m, cur, s, h) && h.done == DoneNames(env, dry, dir, m)
    requires Stop(env, dry, dir, m, "").Some?
    ensures Walked(env, dry, dir, m, cur, s.(errors := s.errors + 1), h.(failed := h.failed + {dir}))
  {
    WalkReached(env, dry, dir, m, h);
    var failed := h.failed + {dir};
    assert |failed| == |h.failed| + 1;
    forall p ensures p in failed <==> FailsAt(env, dry, dir, m, p) { FailsHere(env, dry, dir, m, p); }
    TreeIs(env, dry, dir, m, cur);
  }

  lemma WalkReached(env: Env, dry: bool, dir: Path, m: map<Name, Node>, h: History)
    requires Honest(env) && LedgerAfter(env, dry, dir, m, h) && h.done == DoneNames(env, dry, dir, m)
    ensures forall p :: p in h.ledger <==> ReachedAt(env, dry, dir, m, p)
  {
    forall p ensures p in h.ledger <==> ReachedAt(env, dry, dir, m, p) {
      assert p in h.ledger <==> ReachedIn(env, dry, dir, m, h.done, p);
    }
  }

  lemma FailsHere(env: Env, dry: bool, dir: Path, m: map<Name, Node>, p: Path)
    requires Honest(env)
    ensures FailsAt(env, dry, dir, m, p) <==>
            FailsIn(env, dry, dir, m, DoneNames(env, dry, dir, m), p) || (p == dir && Stop(env, dry, dir, m, "").Some?)
  {
    if |p| == |dir| {
      assert p[..|dir|] == p && p[|dir|..] == [];
    }
  }

  lemma TreeIs(env: Env, dry: bool, dir: Path, m: map<Name, Node>, cur: map<Name, Node>)
    requires Honest(env) && TreeAfter(env, dry, dir, m, cur, DoneNames(env, dry, dir, m))
    ensures cur == RunTree(env, dry, dir, m)
  {
    var after := RunTree(env, dry, dir, m);
    forall n: Name ensures Lookup(cur, n) == Lookup(after, n) {
      RunEntry(env, dry, dir, m, n);
    }
    SameMap(cur, after);
  }

  lemma NothingDone(env: Env, dry: bool, dir: Path, m: map<Name, Node>)
    requires Honest(env)
    ensures Inv(env, dry, dir, m, m, Stats(0, 0, 0, 0, 0), History(map[], multiset{}, [], {}, {}))
    ensures UpTo(m, "") == {}
  {
  }

  /** The walk of one directory, with the walks of its subdirectories inside it. */
  method WalkAndRecover(env: Env, dry: bool, dir: Path, m: map<Name, Node>)
    returns (cur: map<Name, Node>, s: Stats, ghost h: History)
    requires Honest(env) && Plain(Render(dir)) && PlainTree(m)
    ensures cur == RunTree(env, dry, dir, m)
    ensures Walked(env, dry, dir, m, cur, s, h)
    decreases Dir(m), 2
  {
    cur, s, h := m, Stats(0, 0, 0, 0, 0), History(map[], multiset{}, [], {}, {});
    var cursor := "";
    NothingDone(env, dry, dir, m);
    while true
      invariant IsBytes(cursor) && Inv(env, dry, dir, m, cur, s, h) && h.done == UpTo(m, cursor)
      invariant Stop(env, dry, dir, m, cursor) == Stop(env, dry, dir, m, "")
      decreases |Ahead(m, cursor)|
    {
      NamesPresent(env, dry, dir, m, cur, cursor);
      var listing := ListDirectory(env, dir, cur, cursor);
      if listing.None? {
        WalkFails(env, dry, dir, m, cur, s, h);
        s, h := s.(errors := s.errors + 1), h.(failed := h.failed + {dir});
        return;
      }
      var page := listing.value;
      PageFresh(env, dry, dir, m, cur, cursor, page);
      PageDone(env, dry, dir, m, cur, cursor, page);
      StopStep(env, dry, dir, m, cursor);
      cur, s, h := ProcessPage(env, dry, dir, m, page.names, cur, s, h);
      if !page.more {
        WalkEnds(env, dry, dir, m, cur, s, h);
        return;
      }
      CursorAdvances(m, cursor, page.last);
      cursor := page.last;
    }
  }
}
