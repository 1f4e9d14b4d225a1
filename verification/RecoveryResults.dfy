/** What the recovery walk guarantees over whole runs. */
module RecoveryResults {
  import opened Names
  import opened FilerUrls
  import opened RecoverySpec
  import opened Recovery

  /** The marker test is made on the full path; it is the one on the name, whatever directories are above. */
  lemma MarkedFullPath(above: string, n: Name)
    ensures Marked(above + "/" + n) <==> Marked(n)
    ensures Marked(n) <==> exists stem :: n == stem + ".missing_7jun26"
  {
    var full := above + "/" + n;
    if |n| >= |SUFFIX| {
      assert full[|full| - |SUFFIX|..] == n[|n| - |SUFFIX|..];
    } else if |full| >= |SUFFIX| {
      var i := |SUFFIX| - |n| - 1;
      assert full[|full| - |SUFFIX|..][i] == full[|above|] == '/';
      assert '/' !in SUFFIX && SUFFIX[i] in SUFFIX;
    }
    if Marked(n) { assert n == n[..|n| - |SUFFIX|] + ".missing_7jun26"; }
  }

  // ---------------------------------------------------------------------------------------------
  // On which trees every request reaches what it is meant for
  // ---------------------------------------------------------------------------------------------

  predicate IsDir(m: map<Name, Node>, q: Path)
    decreases |q|
  {
    q == [] || (q[0] in m && m[q[0]].Dir? && IsDir(m[q[0]].entries, q[1..]))
  }

  ghost predicate FileReached(p: Path) {
    ReachesFile(FileUrl(Render(p)), Render(p)) && ReachesRename(RenameUrl(Render(p)), Render(p))
  }

  ghost predicate DirectoryReached(p: Path) {
    forall cursor :: IsBytes(cursor) ==> ReachesDirectory(ListUrl(Render(p), cursor), Render(p), cursor)
  }

  lemma PathRequests(p: Path)
    ensures FileReached(p) <==> Plain(Render(p))
    ensures DirectoryReached(p) <==> Plain(Render(p))
  {
    RenderBytes(p);
    FileRequest(Render(p));
    RenameRequest(Render(p));
    forall cursor | IsBytes(cursor)
      ensures ReachesDirectory(ListUrl(Render(p), cursor), Render(p), cursor) <==> Plain(Render(p))
    {
      ListRequest(Render(p), cursor);
    }
    assert IsBytes("");
  }

  ghost predicate AllReached(dir: Path, m: map<Name, Node>) {
    && (forall q :: Target(m, q) ==> FileReached(dir + q))
    && (forall q :: IsDir(m, q) ==> DirectoryReached(dir + q))
  }

  lemma {:induction false} PlainBelow(dir: Path, m: map<Name, Node>, q: Path)
    requires Plain(Render(dir)) && PlainTree(m) && (Target(m, q) || IsDir(m, q))
    ensures Plain(Render(dir + q))
    decreases |q|
  {
    if q == [] {
      assert dir + q == dir;
    } else {
      RenderPlain(dir, q[0]);
      assert dir + [q[0]] + q[1..] == dir + q;
      if |q| > 1 || m[q[0]].Dir? { PlainBelow(dir + [q[0]], m[q[0]].entries, q[1..]); }
    }
  }

  lemma AllReachedBelow(dir: Path, m: map<Name, Node>, n: Name)
    requires AllReached(dir, m) && n in m && m[n].Dir?
    ensures AllReached(dir + [n], m[n].entries)
  {
    var sub, entries := dir + [n], m[n].entries;
    forall q | Target(entries, q) ensures FileReached(sub + q) { BelowEntry(dir, m, n, q); }
    forall q | IsDir(entries, q) ensures DirectoryReached(sub + q) { BelowEntry(dir, m, n, q); }
  }

  lemma BelowEntry(dir: Path, m: map<Name, Node>, n: Name, q: Path)
    requires n in m && m[n].Dir?
    ensures dir + [n] + q == dir + ([n] + q)
    ensures Target(m[n].entries, q) ==> Target(m, [n] + q)
    ensures IsDir(m[n].entries, q) ==> IsDir(m, [n] + q)
  {
    var r := [n] + q;
    assert r[0] == n && r[1..] == q;
  }

  lemma {:induction false} ReachedIsPlain(dir: Path, m: map<Name, Node>)
    requires AllReached(dir, m)
    ensures Plain(Render(dir)) && PlainTree(m)
    decreases Dir(m)
  {
    assert IsDir(m, []) && dir + [] == dir;
    PathRequests(dir);
    forall n | n in m && Relevant(m, n) ensures Plain(n) && (m[n].Dir? ==> PlainTree(m[n].entries)) {
      RenderPlain(dir, n);
      if m[n].Dir? {
        AllReachedBelow(dir, m, n);
        ReachedIsPlain(dir + [n], m[n].entries);
      } else {
        assert Target(m, [n]);
        PathRequests(dir + [n]);
      }
    }
  }

  /**
   * Every listing, check, upload and rename below dir reaches its own path and cursor if and only
   * if no name on the way to a directory or to an unmarked file holds '#', '?', '%' or a control
   * character.
   */
  lemma RequestsReachExactlyWhenPlain(dir: Path, m: map<Name, Node>)
    ensures AllReached(dir, m) <==> Plain(Render(dir)) && PlainTree(m)
  {
    if AllReached(dir, m) { ReachedIsPlain(dir, m); }
    if Plain(Render(dir)) && PlainTree(m) {
      forall q ensures Target(m, q) ==> FileReached(dir + q) ensures IsDir(m, q) ==> DirectoryReached(dir + q) {
        PathRequests(dir + q);
        if Target(m, q) || IsDir(m, q) { PlainBelow(dir, m, q); }
      }
    }
  }

  /**
   * A hash in a name sends the checks, uploads and listings of one entry to another one, unless a
   * bad escape behind it keeps them from being sent at all.
   */
  lemma HashReachesAnother(dir: Path, n: Name, x: string, cursor: string)
    requires Plain(Render(dir + [n])) && '/' !in x && IsBytes(x) && IsBytes(cursor)
    ensures var wrong: Name, sent := n + "#" + x, Unescape(x, false).Some?;
            && Address(FileUrl(Render(dir + [wrong]))) == (if sent then Some(Request(Render(dir + [n]), "")) else None)
            && Effective(ListUrl(Render(dir + [wrong]), cursor)) == (if sent then Some((Render(dir + [n]), "")) else None)
  {
    var wrong: Name, path := n + "#" + x, Render(dir + [n]);
    RenderAppend(dir, n);
    RenderAppend(dir, wrong);
    assert Render(dir + [wrong]) == path + "#" + x;
    HashCuts(path, x);
    HashedListing(path, x, cursor);
  }

  /** A question mark does the same, and the cursor becomes a part of the query that it starts. */
  lemma QuestionMarkReachesAnother(dir: Path, n: Name, x: string, cursor: string)
    requires Plain(Render(dir + [n])) && '/' !in x && '#' !in x && IsBytes(x) && IsBytes(cursor)
    requires forall i :: 0 <= i < |x| ==> !Control(x[i])
    ensures var wrong: Name := n + "?" + x;
            && Address(FileUrl(Render(dir + [wrong]))) == Some(Request(Render(dir + [n]), x))
            && Address(ListUrl(Render(dir + [wrong]), cursor)) == Some(Request(Render(dir + [n]), x + ListTail(cursor)))
  {
    var wrong: Name, path := n + "?" + x, Render(dir + [n]);
    RenderAppend(dir, n);
    RenderAppend(dir, wrong);
    assert Render(dir + [wrong]) == path + "?" + x;
    QuestionMarkCuts(path, x);
    QuestionMarkListing(path, x, cursor);
  }

  /** Two directories, d and d#1. */
  function HashedTree(data: Data): map<Name, Node> {
    map["d" := Dir(map["a" := File(data)]), "d#1" := Dir(map["c" := File(data)])]
  }

  lemma HashedTargets(data: Data)
    ensures var m := HashedTree(data); Target(m, ["d#1", "c"]) && !Target(m, ["d", "c"]) && !PlainTree(m)
  {
    var m := HashedTree(data);
    assert ["d#1", "c"][1..] == ["c"] && ["d", "c"][1..] == ["c"] && |"c"| < |SUFFIX|;
    assert "d#1"[1] == '#' && Relevant(m, "d#1");
  }

  lemma RenderOne(n: Name)
    ensures Render([n]) == "/" + n
  {
    assert [n][..0] == [];
  }

  /** There c in d#1 has to be scanned, but every listing request of d#1 is one of d, which does not have c. */
  lemma HashedDirectoryIsNeverListed(data: Data, cursor: string)
    requires IsBytes(cursor)
    ensures var m := HashedTree(data); Target(m, ["d#1", "c"]) && !Target(m, ["d", "c"]) && !PlainTree(m)
    ensures Effective(ListUrl(Render(["d#1"]), cursor)) == Some((Render(["d"]), ""))
  {
    HashedTargets(data);
    RenderOne("d");
    RenderOne("d#1");
    assert "/" + "d#1" == "/" + "d" + "#" + "1";
    UnescapePlain("1");
    HashedListing("/" + "d", "1", cursor);
  }

  // ---------------------------------------------------------------------------------------------
  // Files checked
  // ---------------------------------------------------------------------------------------------

  function EntriesAt(m: map<Name, Node>, q: Path): map<Name, Node>
    requires IsDir(m, q)
    decreases |q|
  {
    if q == [] then m else EntriesAt(m[q[0]].entries, q[1..])
  }

  /** The listings of the directory at q get past n. */
  ghost predicate Passes(env: Env, dry: bool, dir: Path, m: map<Name, Node>, q: Path, n: Name)
    requires Honest(env)
  {
    IsDir(m, q) && (var stop := Stop(env, dry, dir + q, EntriesAt(m, q), ""); stop.None? || !Less(stop.value, n))
  }

  lemma PassesBelow(env: Env, dry: bool, dir: Path, m: map<Name, Node>, q: Path, i: nat)
    requires Honest(env) && 0 < i < |q| && q[0] in m && m[q[0]].Dir?
    ensures Passes(env, dry, dir, m, q[..i], q[i]) <==>
            Passes(env, dry, dir + [q[0]], m[q[0]].entries, q[1..][..i - 1], q[1..][i - 1])
  {
    assert q[..i][1..] == q[1..][..i - 1] && q[..i][0] == q[0];
    assert dir + [q[0]] + q[1..][..i - 1] == dir + q[..i];
  }

  /** A file to be scanned is left out exactly when a listing of a directory above it fails before it. */
  lemma {:induction false} ReachedExactlyWhenPassed(env: Env, dry: bool, dir: Path, m: map<Name, Node>, q: Path)
    requires Honest(env) && Target(m, q)
    ensures Reached(env, dry, dir, m, q) <==> forall i :: 0 <= i < |q| ==> Passes(env, dry, dir, m, q[..i], q[i])
    decreases |q|
  {
    assert q[..0] == [] && dir + [] == dir;
    assert q[0] in DoneNames(env, dry, dir, m) <==> Passes(env, dry, dir, m, q[..0], q[0]);
    if |q| > 1 {
      var sub, r := dir + [q[0]], q[1..];
      ReachedExactlyWhenPassed(env, dry, sub, m[q[0]].entries, r);
      forall i | 0 < i < |q|
        ensures Passes(env, dry, dir, m, q[..i], q[i]) <==> Passes(env, dry, sub, m[q[0]].entries, r[..i - 1], r[i - 1])
      {
        PassesBelow(env, dry, dir, m, q, i);
      }
      PassedShift(env, dry, dir, m, q);
    }
  }

  lemma PassedShift(env: Env, dry: bool, dir: Path, m: map<Name, Node>, q: Path)
    requires Honest(env) && |q| > 1 && q[0] in m && m[q[0]].Dir?
    requires forall i :: 0 < i < |q| ==>
               (Passes(env, dry, dir, m, q[..i], q[i]) <==>
                Passes(env, dry, dir + [q[0]], m[q[0]].entries, q[1..][..i - 1], q[1..][i - 1]))
    ensures (forall i :: 0 < i < |q| ==> Passes(env, dry, dir, m, q[..i], q[i])) <==>
            (forall j :: 0 <= j < |q[1..]| ==> Passes(env, dry, dir + [q[0]], m[q[0]].entries, q[1..][..j], q[1..][j]))
  {
    forall j | 0 <= j < |q[1..]|
      ensures Passes(env, dry, dir + [q[0]], m[q[0]].entries, q[1..][..j], q[1..][j]) <==>
              Passes(env, dry, dir, m, q[..j + 1], q[j + 1])
    {
      PassesBelow(env, dry, dir, m, q, j + 1);
    }
  }

  /**
   * Exactly the files that the listings reach are checked, each once, whichever listings fail; all
   * of them were unmarked files at the start, and without a failed listing they are all of those.
   */
  lemma ScannedExactlyOnce(env: Env, dry: bool, dir: Path, m: map<Name, Node>, after: map<Name, Node>, s: Stats,
                           h: History, q: Path)
    requires Honest(env) && Walked(env, dry, dir, m, after, s, h)
    ensures h.checks[dir + q] == if Reached(env, dry, dir, m, q) then 1 else 0
    ensures Reached(env, dry, dir, m, q) ==> Target(m, q)
    ensures h.failed == {} ==> h.checks[dir + q] == if Target(m, q) then 1 else 0
  {
    assert (dir + q)[|dir|..] == q && (dir + q)[..|dir|] == dir;
    assert ReachedAt(env, dry, dir, m, dir + q) <==> Reached(env, dry, dir, m, q);
    ReachedIsTarget(env, dry, dir, m, q);
    if h.failed == {} {
      Unfailed(env, dry, dir, m, after, s, h);
      TargetIsReached(env, dry, dir, m, q);
    }
  }

  lemma Unfailed(env: Env, dry: bool, dir: Path, m: map<Name, Node>, after: map<Name, Node>, s: Stats, h: History)
    requires Honest(env) && Walked(env, dry, dir, m, after, s, h) && h.failed == {}
    ensures forall f :: !Fails(env, dry, dir, m, f)
  {
    forall f ensures !Fails(env, dry, dir, m, f) {
      assert (dir + f)[|dir|..] == f && (dir + f)[..|dir|] == dir;
      assert !FailsAt(env, dry, dir, m, dir + f);
    }
  }

  /** A run without a failed listing does what the specification without pages says. */
  lemma UnfailedRun(env: Env, dry: bool, dir: Path, m: map<Name, Node>, after: map<Name, Node>, s: Stats, h: History)
    requires Honest(env) && Walked(env, dry, dir, m, after, s, h) && h.failed == {}
    ensures IsLedger(env, dry, dir, m, h.ledger) && after == Recovered(env, dry, dir, m)
  {
    Unfailed(env, dry, dir, m, after, s, h);
    UnfailedTree(env, dry, dir, m);
    forall p ensures p in h.ledger <==> Due(dir, m, p) {
      if |p| > |dir| {
        ReachedIsTarget(env, dry, dir, m, p[|dir|..]);
        TargetIsReached(env, dry, dir, m, p[|dir|..]);
      }
    }
  }

  /** The order in which the entries of a page finish changes nothing, whichever requests fail. */
  lemma RunsAgree(env: Env, dry: bool, dir: Path, m: map<Name, Node>,
                  after: map<Name, Node>, s: Stats, h: History, after': map<Name, Node>, s': Stats, h': History)
    requires Honest(env) && Walked(env, dry, dir, m, after, s, h) && Walked(env, dry, dir, m, after', s', h')
    ensures after == after' && s == s' && h.checks == h'.checks && h.ledger == h'.ledger && h.failed == h'.failed
  {
    assert forall p :: p in h.failed <==> p in h'.failed;
    assert h.failed == h'.failed;
    SameOutcomes(env, dry, dir, m, h.ledger, h'.ledger);
  }

  lemma SameOutcomes(env: Env, dry: bool, dir: Path, m: map<Name, Node>, a: Ledger, b: Ledger)
    requires Outcomes(env, dry, dir, m, a) && Outcomes(env, dry, dir, m, b) && forall p :: p in a <==> p in b
    ensures a == b
  {
  }

  /** When no listing fails, neither does the size of the pages. */
  lemma PagingDoesNotMatter(env: Env, env2: Env, dry: bool, dir: Path, m: map<Name, Node>,
                            after: map<Name, Node>, s: Stats, h: History, after': map<Name, Node>, s': Stats, h': History)
    requires Honest(env) && Walked(env, dry, dir, m, after, s, h) && h.failed == {}
    requires Honest(env2) && Walked(env2, dry, dir, m, after', s', h') && h'.failed == {}
    requires env2 == env.(listed := env2.listed, page := env2.page)
    ensures after == after' && s == s' && h.checks == h'.checks && h.ledger == h'.ledger
  {
    UnfailedRun(env, dry, dir, m, after, s, h);
    UnfailedRun(env2, dry, dir, m, after', s', h');
    SameRecovered(env, env2, dry, dir, m);
    SameLedgers(env, env2, dry, dir, m, h.ledger, h'.ledger);
  }

  lemma SameLedgers(env: Env, env2: Env, dry: bool, dir: Path, m: map<Name, Node>, a: Ledger, b: Ledger)
    requires env2 == env.(listed := env2.listed, page := env2.page)
    requires IsLedger(env, dry, dir, m, a) && IsLedger(env2, dry, dir, m, b)
    ensures a == b
  {
    assert forall p :: p in a <==> p in b;
    forall p | p in a ensures a[p] == b[p] {
      assert Classify(env, dry, p, DataAt(m, p[|dir|..])) == Classify(env2, dry, p, DataAt(m, p[|dir|..]));
    }
  }

  lemma {:induction false} SameRecovered(env: Env, env2: Env, dry: bool, dir: Path, m: map<Name, Node>)
    requires env2 == env.(listed := env2.listed, page := env2.page)
    ensures Recovered(env, dry, dir, m) == Recovered(env2, dry, dir, m)
    decreases Dir(m)
  {
    forall n | n in m && m[n].Dir?
      ensures Recovered(env, dry, dir + [n], m[n].entries) == Recovered(env2, dry, dir + [n], m[n].entries)
    {
      SameRecovered(env, env2, dry, dir + [n], m[n].entries);
    }
    var subs := RecoveredDirs(env, dry, dir, m);
    assert subs == RecoveredDirs(env2, dry, dir, m);
    assert forall n :: EntryAfter(env, dry, dir, m, m.Keys, subs, n) == EntryAfter(env2, dry, dir, m, m.Keys, subs, n);
  }

  /** Every file scanned is accounted for, and every failed listing, whatever fails. */
  lemma RunBalances(env: Env, dry: bool, dir: Path, m: map<Name, Node>, after: map<Name, Node>, s: Stats, h: History)
    requires Honest(env) && Walked(env, dry, dir, m, after, s, h)
    ensures s.healthy + s.restored + s.missing + s.errors == s.scanned + |h.failed|
  {
    CountersBalance(h.ledger, h.failed);
  }

  // ---------------------------------------------------------------------------------------------
  // Dry runs
  // ---------------------------------------------------------------------------------------------

  /** Some snapshot of the file exists and its upload is accepted. */
  predicate Uploads(env: Env, p: Path) {
    Usable(env, false, NEWER, p) || Usable(env, false, OLDER, p)
  }

  /** A dry run leaves the tree alone, whatever fails. */
  lemma {:induction false} DryRunChangesNothing(env: Env, dir: Path, m: map<Name, Node>)
    requires Honest(env)
    ensures RunTree(env, true, dir, m) == m
    decreases Dir(m)
  {
    var done := DoneNames(env, true, dir, m);
    var subs := RunDirs(env, true, dir, m, done);
    forall n | n in m && n in done && m[n].Dir? ensures subs[n] == m[n] {
      DryRunChangesNothing(env, dir + [n], m[n].entries);
    }
    assert forall n: Name :: EntryAfter(env, true, dir, m, done, subs, n) == Lookup(m, n);
  }

  lemma DryOutcome(env: Env, p: Path, data: Data)
    ensures var d, r := Classify(env, true, p, data), Classify(env, false, p, data);
            && (d == Healthy <==> r == Healthy) && (d == Errored <==> r == Errored)
            && (r == Restored <==> d == Restored && Uploads(env, p))
  {
  }

  /** The two ledgers list the same files and differ only in backups that cannot be uploaded. */
  lemma DryLedger(env: Env, dir: Path, m: map<Name, Node>, dry: Ledger, live: Ledger)
    requires IsLedger(env, true, dir, m, dry) && IsLedger(env, false, dir, m, live)
    ensures dry.Keys == live.Keys
    ensures Those(dry, Healthy) == Those(live, Healthy) && Those(dry, Errored) == Those(live, Errored)
    ensures forall p :: p in Those(live, Restored) <==> p in Those(dry, Restored) && Uploads(env, p)
  {
    assert forall p :: p in dry <==> p in live;
    forall p | p in dry
      ensures (dry[p] == Healthy <==> live[p] == Healthy) && (dry[p] == Errored <==> live[p] == Errored)
      ensures live[p] == Restored <==> dry[p] == Restored && Uploads(env, p)
    {
      DryOutcome(env, p, DataAt(m, p[|dir|..]));
    }
  }

  /**
   * A dry run agrees with the real run on everything but restored against missing, never promises
   * fewer restored files, and promises exactly as many as get restored if and only if every lost
   * file it would restore has a snapshot that uploads.
   */
  lemma DryRunPredictsRealRun(env: Env, dir: Path, m: map<Name, Node>,
                              untouched: map<Name, Node>, d: Stats, dry: History,
                              after: map<Name, Node>, r: Stats, live: History)
    requires Honest(env)
    requires Walked(env, true, dir, m, untouched, d, dry) && dry.failed == {}
    requires Walked(env, false, dir, m, after, r, live) && live.failed == {}
    ensures untouched == m && dry.writes == []
    ensures d.scanned == r.scanned && d.healthy == r.healthy && d.errors == r.errors
    ensures d.restored + d.missing == r.restored + r.missing
    ensures r.restored <= d.restored
    ensures r.restored == d.restored <==>
            forall p :: p in dry.ledger && dry.ledger[p] == Restored ==> Uploads(env, p)
  {
    DryRunChangesNothing(env, dir, m);
    UnfailedRun(env, true, dir, m, untouched, d, dry);
    UnfailedRun(env, false, dir, m, after, r, live);
    DryLedger(env, dir, m, dry.ledger, live.ledger);
    CountersBalance(dry.ledger, {});
    CountersBalance(live.ledger, {});
    var promised, kept := Those(dry.ledger, Restored), Those(live.ledger, Restored);
    SubsetCards(kept, promised);
    assert promised == kept <==> forall p :: p in promised ==> Uploads(env, p);
    assert forall p :: p in promised <==> p in dry.ledger && dry.ledger[p] == Restored;
  }

  /** A filer whose files cannot be read and which refuses uploads; every snapshot exists. */
  function Refusing(): Env {
    Env((path, data) => Status(500), key => Some([]), (path, key) => false, path => true, (path, cursor) => true,
        (path, cursor, names: set<Name>) => Page(set n | n in names && Less(cursor, n), "", false))
  }

  /** It lists everything at once. */
  ghost predicate ListsAll(env: Env) {
    && (forall dir, cursor :: env.listed(dir, cursor))
    && (forall dir, cursor, names :: !env.page(dir, cursor, names).more)
  }

  lemma RefusingIsHonest()
    ensures Honest(Refusing()) && ListsAll(Refusing())
  {
  }

  lemma NeverFails(env: Env, dry: bool, n: Name, data: Data, q: Path)
    requires Honest(env) && ListsAll(env)
    ensures !Fails(env, dry, [], map[n := File(data)], q)
  {
    var m := map[n := File(data)];
    assert env.listed(Render([]), "");
    assert !env.page(Render([]), "", Present(env, dry, [], m, "")).more;
  }

  lemma OneFileUnfailed(env: Env, dry: bool, n: Name, data: Data, after: map<Name, Node>, s: Stats, h: History)
    requires Honest(env) && ListsAll(env) && Walked(env, dry, [], map[n := File(data)], after, s, h)
    ensures h.failed == {}
  {
    forall p ensures p !in h.failed {
      assert p in h.failed <==> FailsAt(env, dry, [], map[n := File(data)], p);
      NeverFails(env, dry, n, data, p[0..]);
    }
  }

  lemma OneFileLedger(env: Env, dry: bool, n: Name, data: Data, ledger: Ledger)
    requires !Marked(n) && IsLedger(env, dry, [], map[n := File(data)], ledger)
    ensures ledger == map[[n] := Classify(env, dry, [n], data)]
  {
    var m := map[n := File(data)];
    forall p: Path ensures p in ledger <==> p == [n] {
      assert p[0..] == p;
      assert p in ledger <==> Due([], m, p);
    }
    assert [n][0..] == [n];
    assert DataAt(m, [n]) == data;
  }

  lemma OneFileTally(p: Path, o: Outcome)
    ensures Tally(map[p := o], {}) == Bump(Stats(0, 0, 0, 0, 0), o)
  {
    TallyBump(map[], {}, p, o);
    assert map[][p := o] == map[p := o];
  }

  lemma OneFileRun(env: Env, dry: bool, n: Name, data: Data, after: map<Name, Node>, s: Stats, h: History)
    requires Honest(env) && ListsAll(env) && !Marked(n)
    requires Walked(env, dry, [], map[n := File(data)], after, s, h)
    ensures s == Bump(Stats(0, 0, 0, 0, 0), Classify(env, dry, [n], data))
  {
    OneFileUnfailed(env, dry, n, data, after, s, h);
    UnfailedRun(env, dry, [], map[n := File(data)], after, s, h);
    OneFileLedger(env, dry, n, data, h.ledger);
    OneFileTally([n], Classify(env, dry, [n], data));
  }

  method RunOnOneFile(dry: bool, n: Name) returns (s: Stats)
    requires Plain(n) && !Marked(n)
    ensures s == Bump(Stats(0, 0, 0, 0, 0), Classify(Refusing(), dry, [n], []))
  {
    var m: map<Name, Node> := map[n := File([])];
    ghost var h;
    var after;
    RefusingIsHonest();
    after, s, h := WalkAndRecover(Refusing(), dry, [], m);
    OneFileRun(Refusing(), dry, n, [], after, s, h);
  }

  /** There a dry run promises a file that the real run does not restore. */
  method DryRunOverpromises() returns (promised: int, restored: int, missing: int)
    ensures promised == 1 && restored == 0 && missing == 1
  {
    assert |"a"| < |SUFFIX|;
    var s := RunOnOneFile(true, "a");
    promised := s.restored;
    s := RunOnOneFile(false, "a");
    restored, missing := s.restored, s.missing;
  }

  lemma SubsetCards(a: set<Path>, b: set<Path>)
    requires a <= b
    ensures |a| <= |b| && (|a| == |b| <==> a == b)
  {
    assert b == a + (b - a);
    assert |b| == |a| + |b - a|;
  }

  // ---------------------------------------------------------------------------------------------
  // A second run
  // ---------------------------------------------------------------------------------------------

  /** The file at q was lost without a usable backup, and its rename was accepted. */
  predicate MovedAt(env: Env, dry: bool, dir: Path, m: map<Name, Node>, q: Path)
    requires Target(m, q)
    decreases |q|
  {
    if |q| == 1 then Moved(env, dry, dir, m, q[0])
    else MovedAt(env, dry, dir + [q[0]], m[q[0]].entries, q[1..])
  }

  function DataAfter(env: Env, p: Path, data: Data): Data {
    if Classify(env, false, p, data) == Restored then Source(env, false, p).value else data
  }

  /** The unmarked files after a real run are those before it that were not renamed, restored where possible. */
  lemma {:induction false} TargetsAfter(env: Env, dir: Path, m: map<Name, Node>, q: Path)
    ensures var after := Recovered(env, false, dir, m);
            && (Target(after, q) <==> Target(m, q) && !MovedAt(env, false, dir, m, q))
            && (Target(after, q) ==> DataAt(after, q) == DataAfter(env, dir + q, DataAt(m, q)))
    decreases |q|
  {
    if q != [] {
      RecoveredEntry(env, false, dir, m, q[0]);
      if |q| == 1 {
        assert q == [q[0]];
      } else if q[0] in m && m[q[0]].Dir? {
        TargetsAfter(env, dir + [q[0]], m[q[0]].entries, q[1..]);
        assert dir + [q[0]] + q[1..] == dir + q;
      }
    }
  }

  /** A file that a second run will find healthy. */
  predicate Settled(env: Env, dir: Path, m: map<Name, Node>, p: Path, o: Outcome) {
    Due(dir, m, p) &&
    match o
    case Healthy => true
    case Restored => Source(env, false, p).Some? && env.check(Render(p), Source(env, false, p).value) == Status(200)
    case Missing => MovedAt(env, false, dir, m, p[|dir|..])
    case Errored => false
  }

  lemma SecondRunIsHealthy(env: Env, env2: Env, dry: bool, dir: Path, m: map<Name, Node>, first: Ledger, second: Ledger)
    requires forall p, data :: env2.check(p, data) == env.check(p, data)
    requires IsLedger(env, false, dir, m, first)
    requires IsLedger(env2, dry, dir, Recovered(env, false, dir, m), second)
    ensures (forall p :: p in second ==> second[p] == Healthy) <==>
            (forall p :: p in first ==> Settled(env, dir, m, p, first[p]))
  {
    forall p ensures p in first ==> (Settled(env, dir, m, p, first[p]) <==> (p in second ==> second[p] == Healthy))
             ensures p in second ==> p in first
    {
      SecondOutcome(env, env2, dry, dir, m, first, second, p);
    }
  }

  /**
   * After a real run, a second run (dry or not) finds every file healthy if and only if the first
   * had no errors, every rename was accepted and every restored file can be read; it then writes
   * nothing and changes nothing.
   */
  lemma SecondRunIsIdle(env: Env, env2: Env, dry: bool, dir: Path, m: map<Name, Node>,
                        after: map<Name, Node>, s: Stats, h: History, after2: map<Name, Node>, s2: Stats, h2: History)
    requires forall p, data :: env2.check(p, data) == env.check(p, data)
    requires Honest(env) && Walked(env, false, dir, m, after, s, h) && h.failed == {}
    requires Honest(env2) && Walked(env2, dry, dir, after, after2, s2, h2) && h2.failed == {}
    ensures s2.healthy == s2.scanned <==> forall p :: p in h.ledger ==> Settled(env, dir, m, p, h.ledger[p])
    ensures s2.healthy == s2.scanned ==>
              h2.writes == [] && after2 == after && s2.restored == s2.missing == s2.errors == 0
  {
    UnfailedRun(env, false, dir, m, after, s, h);
    UnfailedRun(env2, dry, dir, after, after2, s2, h2);
    SecondRunIsHealthy(env, env2, dry, dir, m, h.ledger, h2.ledger);
    AllHealthy(h2.ledger);
    if s2.healthy == s2.scanned { HealthyRunIsIdle(env2, dry, dir, after, after2, s2, h2); }
  }

  lemma AllHealthy(ledger: Ledger)
    ensures |Those(ledger, Healthy)| == |ledger| <==> forall p :: p in ledger ==> ledger[p] == Healthy
  {
    SubsetCards(Those(ledger, Healthy), ledger.Keys);
    assert Those(ledger, Healthy) == ledger.Keys <==> forall p :: p in ledger ==> ledger[p] == Healthy;
  }

  lemma SecondOutcome(env: Env, env2: Env, dry: bool, dir: Path, m: map<Name, Node>, first: Ledger, second: Ledger, p: Path)
    requires forall p, data :: env2.check(p, data) == env.check(p, data)
    requires IsLedger(env, false, dir, m, first)
    requires IsLedger(env2, dry, dir, Recovered(env, false, dir, m), second)
    ensures p in first ==> (Settled(env, dir, m, p, first[p]) <==> (p in second ==> second[p] == Healthy))
    ensures p in second ==> p in first
  {
    var after := Recovered(env, false, dir, m);
    assert p in first <==> Due(dir, m, p);
    assert p in second <==> Due(dir, after, p);
    if |p| > |dir| && p[..|dir|] == dir {
      var q := p[|dir|..];
      assert p == dir + q;
      TargetsAfter(env, dir, m, q);
      if Target(m, q) {
        MovedMeansMissing(env, dir, m, q);
        OutcomeAgain(env, env2, dry, p, DataAt(m, q));
      }
    }
  }

  /** What a second run makes of a file that was not renamed. */
  lemma OutcomeAgain(env: Env, env2: Env, dry: bool, p: Path, data: Data)
    requires forall p, data :: env2.check(p, data) == env.check(p, data)
    ensures var o := Classify(env, false, p, data);
            Classify(env2, dry, p, DataAfter(env, p, data)) == Healthy <==>
            o == Healthy || (o == Restored && env.check(Render(p), Source(env, false, p).value) == Status(200))
  {
  }

  lemma {:induction false} MovedMeansMissing(env: Env, dir: Path, m: map<Name, Node>, q: Path)
    requires Target(m, q)
    ensures MovedAt(env, false, dir, m, q) ==> Classify(env, false, dir + q, DataAt(m, q)) == Missing
    decreases |q|
  {
    if |q| == 1 {
      assert q == [q[0]];
    } else {
      MovedMeansMissing(env, dir + [q[0]], m[q[0]].entries, q[1..]);
      assert dir + [q[0]] + q[1..] == dir + q;
    }
  }

  lemma HealthyTally(ledger: Ledger)
    requires forall p :: p in ledger ==> ledger[p] == Healthy
    ensures Tally(ledger, {}) == Stats(|ledger|, |ledger|, 0, 0, 0)
  {
    assert Those(ledger, Healthy) == ledger.Keys;
    assert Those(ledger, Restored) == Those(ledger, Missing) == Those(ledger, Errored) == {};
  }

  lemma NonEmpty(s: seq<Path>)
    ensures s != [] ==> exists w :: w in s
  {
    if s != [] { assert s[0] in s; }
  }

  /** A run that finds every file healthy reports so, writes nothing and changes nothing. */
  lemma HealthyRunIsIdle(env: Env, dry: bool, dir: Path, m: map<Name, Node>, after: map<Name, Node>, s: Stats, h: History)
    requires Honest(env) && Walked(env, dry, dir, m, after, s, h) && h.failed == {}
    requires forall p :: p in h.ledger ==> h.ledger[p] == Healthy
    ensures h.writes == [] && s == Stats(s.scanned, s.scanned, 0, 0, 0) && after == m
  {
    UnfailedRun(env, dry, dir, m, after, s, h);
    HealthyTally(h.ledger);
    NonEmpty(h.writes);
    forall q | Target(m, q) ensures Classify(env, dry, dir + q, DataAt(m, q)) == Healthy {
      HealthyTarget(env, dry, dir, m, h.ledger, q);
    }
    HealthyTreeUnchanged(env, dry, dir, m);
  }

  lemma HealthyTarget(env: Env, dry: bool, dir: Path, m: map<Name, Node>, ledger: Ledger, q: Path)
    requires IsLedger(env, dry, dir, m, ledger) && Target(m, q)
    requires forall p :: p in ledger ==> ledger[p] == Healthy
    ensures Classify(env, dry, dir + q, DataAt(m, q)) == Healthy
  {
    assert (dir + q)[|dir|..] == q && (dir + q)[..|dir|] == dir;
    assert Due(dir, m, dir + q);
  }

  lemma {:induction false} HealthyTreeUnchanged(env: Env, dry: bool, dir: Path, m: map<Name, Node>)
    requires forall q :: Target(m, q) ==> Classify(env, dry, dir + q, DataAt(m, q)) == Healthy
    ensures Recovered(env, dry, dir, m) == m
    decreases Dir(m)
  {
    forall n: Name | n in m && m[n].Dir? ensures Recovered(env, dry, dir + [n], m[n].entries) == m[n].entries {
      forall q | Target(m[n].entries, q) ensures Classify(env, dry, dir + [n] + q, DataAt(m[n].entries, q)) == Healthy {
        assert ([n] + q)[1..] == q;
        assert Target(m, [n] + q) && dir + ([n] + q) == dir + [n] + q;
      }
      HealthyTreeUnchanged(env, dry, dir + [n], m[n].entries);
    }
    forall n: Name ensures EntryAfter(env, dry, dir, m, m.Keys, RecoveredDirs(env, dry, dir, m), n) == Lookup(m, n) {
      HealthyEntryUnchanged(env, dry, dir, m, n);
    }
  }

  lemma HealthyEntryUnchanged(env: Env, dry: bool, dir: Path, m: map<Name, Node>, n: Name)
    requires forall q :: Target(m, q) ==> Classify(env, dry, dir + q, DataAt(m, q)) == Healthy
    requires forall n :: n in m && m[n].Dir? ==> Recovered(env, dry, dir + [n], m[n].entries) == m[n].entries
    ensures EntryAfter(env, dry, dir, m, m.Keys, RecoveredDirs(env, dry, dir, m), n) == Lookup(m, n)
  {
    forall k: Name | k in m && m[k].File? && !Marked(k) ensures Classify(env, dry, dir + [k], m[k].data) == Healthy {
      assert Target(m, [k]) && DataAt(m, [k]) == m[k].data;
    }
  }
}
