/**
 * What a recovery run does to a tree of files: the answers it gets from outside, and the outcome of
 * every file, with and without pages.
 */
module RecoverySpec {
  import opened Names
  import opened FilerUrls

  type Data = seq<bv8>

  const NEWER := "snapshot2/"
  const OLDER := "snapshot/"

  datatype Node = File(data: Data) | Dir(entries: map<Name, Node>)

  /** What the file check gets back: no reply at all, or an HTTP status. */
  datatype Reply = Unreachable | Status(code: int)

  datatype Page = Page(names: set<Name>, last: string, more: bool)

  /**
   * Everything outside the program: the filer's replies, by the path a request addresses, and the
   * snapshots, by key. In one run each file is checked at most once (proved below) and the cursor in
   * a directory only moves forward, so these are arbitrary answers. A page depends on the
   * directory, the cursor and the names there are.
   */
  datatype Env = Env(
    check: (string, Data) -> Reply,
    backup: string -> Option<Data>,
    upload: (string, string) -> bool,
    rename: string -> bool,
    listed: (string, string) -> bool,
    page: (string, string, set<Name>) -> Page)

  /** A page holds the names right after the cursor; load-more is set exactly when names remain. */
  predicate IsPage(names: set<Name>, cursor: string, page: Page) {
    && (forall n :: n in page.names ==> n in names && Less(cursor, n))
    && (page.more ==> page.last in page.names && forall n :: n in page.names ==> n == page.last || Less(n, page.last))
    && (forall n :: n in names && Less(cursor, n) && n !in page.names ==> page.more && Less(page.last, n))
    && (page.more ==> exists n :: n in names && Less(page.last, n))
  }

  ghost predicate Honest(env: Env) {
    forall dir, cursor, names :: IsPage(names, cursor, env.page(dir, cursor, names))
  }

  datatype Outcome = Healthy | Restored | Missing | Errored

  datatype Stats = Stats(scanned: int, healthy: int, restored: int, missing: int, errors: int)

  // ---------------------------------------------------------------------------------------------
  // What one file is worth
  // ---------------------------------------------------------------------------------------------

  predicate Marked(n: string) {
    |n| >= |SUFFIX| && n[|n| - |SUFFIX|..] == SUFFIX
  }

  function TrimSlash(path: string): string {
    if path != "" && path[0] == '/' then path[1..] else path
  }

  function Key(prefix: string, p: Path): string {
    prefix + TrimSlash(Render(p))
  }

  /** The snapshot of p under the prefix exists, and a real run gets it uploaded. */
  predicate Usable(env: Env, dry: bool, prefix: string, p: Path) {
    env.backup(Key(prefix, p)).Some? && (dry || env.upload(Render(p), Key(prefix, p)))
  }

  /** What a run restores the file from, if anything. */
  function Source(env: Env, dry: bool, p: Path): Option<Data> {
    if Usable(env, dry, NEWER, p) then env.backup(Key(NEWER, p))
    else if Usable(env, dry, OLDER, p) then env.backup(Key(OLDER, p))
    else None
  }

  function Classify(env: Env, dry: bool, p: Path, data: Data): Outcome {
    match env.check(Render(p), data)
    case Unreachable => Errored
    case Status(code) =>
      if code == 200 then Healthy
      else if code != 500 then Errored
      else if Source(env, dry, p).Some? then Restored
      else Missing
  }

  // ---------------------------------------------------------------------------------------------
  // What becomes of the entries of one directory
  // ---------------------------------------------------------------------------------------------

  function MarkedName(n: Name): Name {
    n + SUFFIX
  }

  /** The rename of n is accepted; it never replaces a directory. */
  predicate Moves(env: Env, dir: Path, m: map<Name, Node>, n: Name) {
    env.rename(Render(dir + [n])) && !(MarkedName(n) in m && m[MarkedName(n)].Dir?)
  }

  predicate Moved(env: Env, dry: bool, dir: Path, m: map<Name, Node>, n: Name) {
    && !dry && n in m && m[n].File? && !Marked(n)
    && Classify(env, dry, dir + [n], m[n].data) == Missing
    && Moves(env, dir, m, n)
  }

  /** The file called n after it has been dealt with, if it is still called n. */
  function FileAfter(env: Env, dry: bool, dir: Path, m: map<Name, Node>, n: Name): Option<Node>
    requires n in m && m[n].File? && !Marked(n)
  {
    if Moved(env, dry, dir, m, n) then None
    else if !dry && Classify(env, dry, dir + [n], m[n].data) == Restored then
      Some(File(Source(env, dry, dir + [n]).value))
    else Some(m[n])
  }

  /**
   * The entry called n once the names in done have been dealt with, subs holding what became of
   * the directories among them.
   */
  function EntryAfter(env: Env, dry: bool, dir: Path, m: map<Name, Node>, done: set<Name>,
                      subs: map<Name, Node>, n: Name): Option<Node>
  {
    if n in m && m[n].Dir? then Some(if n in subs then subs[n] else m[n])
    else if Marked(n) then
      var from := n[..|n| - |SUFFIX|];
      if from != "" && from in done && Moved(env, dry, dir, m, from) then Some(m[from])
      else Lookup(m, n)
    else if n in m && n in done then FileAfter(env, dry, dir, m, n)
    else Lookup(m, n)
  }

  function Places(m: map<Name, Node>): set<Name> {
    m.Keys + set n | n in m :: MarkedName(n)
  }

  /** An entry a run deals with: a directory, or a file without the marker. */
  predicate Relevant(m: map<Name, Node>, n: Name) {
    n in m && (m[n].Dir? || !Marked(n))
  }

  // ---------------------------------------------------------------------------------------------
  // The whole walk, without pages, order or cursor, when no listing fails
  // ---------------------------------------------------------------------------------------------

  /** q leads from a directory to a file that a run has to scan. */
  predicate Target(m: map<Name, Node>, q: Path)
    decreases |q|
  {
    && q != []
    && q[0] in m
    && if |q| == 1 then m[q[0]].File? && !Marked(q[0])
       else m[q[0]].Dir? && Target(m[q[0]].entries, q[1..])
  }

  /** The bytes of the file at q, if there is one. */
  function DataAt(m: map<Name, Node>, q: Path): Data
    decreases |q|
  {
    if q == [] || q[0] !in m then []
    else match m[q[0]]
      case File(data) => data
      case Dir(entries) => DataAt(entries, q[1..])
  }

  /** The directory a run without a failed listing leaves behind. */
  function Recovered(env: Env, dry: bool, dir: Path, m: map<Name, Node>): map<Name, Node>
    decreases Dir(m)
  {
    var subs := RecoveredDirs(env, dry, dir, m);
    map n | n in Places(m) && EntryAfter(env, dry, dir, m, m.Keys, subs, n).Some?
      :: EntryAfter(env, dry, dir, m, m.Keys, subs, n).value
  }

  function RecoveredDirs(env: Env, dry: bool, dir: Path, m: map<Name, Node>): map<Name, Node>
    decreases Dir(m), 0
  {
    map n | n in m && m[n].Dir? :: Dir(Recovered(env, dry, dir + [n], m[n].entries))
  }

  // ---------------------------------------------------------------------------------------------
  // The walk as the pages make it, whichever listings fail
  // ---------------------------------------------------------------------------------------------

  ghost function AllNames(m: map<Name, Node>): set<Name> {
    set n | n in m && Relevant(m, n)
  }

  ghost function UpTo(m: map<Name, Node>, cursor: string): set<Name> {
    set n | n in m && Relevant(m, n) && !Less(cursor, n)
  }

  /** The names in the directory when everything up to the cursor has been dealt with. */
  ghost function Present(env: Env, dry: bool, dir: Path, m: map<Name, Node>, cursor: string): set<Name> {
    set n | n in Places(m) && EntryAfter(env, dry, dir, m, UpTo(m, cursor), map[], n).Some?
  }

  ghost function Ahead(m: map<Name, Node>, cursor: string): set<Name> {
    set n | n in Places(m) && Less(cursor, n)
  }

  ghost function PageAt(env: Env, dry: bool, dir: Path, m: map<Name, Node>, cursor: string): Page {
    env.page(Render(dir), cursor, Present(env, dry, dir, m, cursor))
  }

  /** The cursor at which a listing of the directory fails, from the given one on. */
  ghost function Stop(env: Env, dry: bool, dir: Path, m: map<Name, Node>, cursor: string): Option<string>
    requires Honest(env)
    decreases |Ahead(m, cursor)|
  {
    if !env.listed(Render(dir), cursor) then Some(cursor)
    else
      var page := PageAt(env, dry, dir, m, cursor);
      assert IsPage(Present(env, dry, dir, m, cursor), cursor, page);
      if !page.more then None
      else
        CursorAdvances(m, cursor, page.last);
        Stop(env, dry, dir, m, page.last)
  }

  /** The names that a run deals with before a listing of the directory fails. */
  ghost function DoneNames(env: Env, dry: bool, dir: Path, m: map<Name, Node>): set<Name>
    requires Honest(env)
  {
    match Stop(env, dry, dir, m, "")
    case None => AllNames(m)
    case Some(cursor) => UpTo(m, cursor)
  }

  /** The directory a run leaves behind. */
  ghost function RunTree(env: Env, dry: bool, dir: Path, m: map<Name, Node>): map<Name, Node>
    requires Honest(env)
    decreases Dir(m), 1
  {
    var done := DoneNames(env, dry, dir, m);
    map n | n in Places(m) && EntryAfter(env, dry, dir, m, done, RunDirs(env, dry, dir, m, done), n).Some?
      :: EntryAfter(env, dry, dir, m, done, RunDirs(env, dry, dir, m, done), n).value
  }

  ghost function RunDirs(env: Env, dry: bool, dir: Path, m: map<Name, Node>, done: set<Name>): map<Name, Node>
    requires Honest(env)
    decreases Dir(m), 0
  {
    map n | n in m && n in done && m[n].Dir? :: Dir(RunTree(env, dry, dir + [n], m[n].entries))
  }

  /** The run checks the file at q: no listing on the way to it failed too early. */
  ghost predicate Reached(env: Env, dry: bool, dir: Path, m: map<Name, Node>, q: Path)
    requires Honest(env)
    decreases |q|
  {
    q != [] && q[0] in DoneNames(env, dry, dir, m) && ReachedBelow(env, dry, dir, m, q)
  }

  ghost predicate ReachedBelow(env: Env, dry: bool, dir: Path, m: map<Name, Node>, q: Path)
    requires Honest(env) && q != []
    decreases |q|, 0
  {
    Relevant(m, q[0]) &&
    if |q| == 1 then m[q[0]].File? else m[q[0]].Dir? && Reached(env, dry, dir + [q[0]], m[q[0]].entries, q[1..])
  }

  /** A listing of the directory at q fails. */
  ghost predicate Fails(env: Env, dry: bool, dir: Path, m: map<Name, Node>, q: Path)
    requires Honest(env)
    decreases |q|
  {
    if q == [] then Stop(env, dry, dir, m, "").Some?
    else q[0] in DoneNames(env, dry, dir, m) && FailsBelow(env, dry, dir, m, q)
  }

  ghost predicate FailsBelow(env: Env, dry: bool, dir: Path, m: map<Name, Node>, q: Path)
    requires Honest(env) && q != []
    decreases |q|, 0
  {
    q[0] in m && m[q[0]].Dir? && Fails(env, dry, dir + [q[0]], m[q[0]].entries, q[1..])
  }

  // ---------------------------------------------------------------------------------------------
  // Facts about the specification
  // ---------------------------------------------------------------------------------------------

  lemma CursorAdvances(m: map<Name, Node>, cursor: string, last: Name)
    requires last in Places(m) && Less(cursor, last)
    ensures |Ahead(m, last)| < |Ahead(m, cursor)|
  {
    LessIrreflexive(last);
    forall n: Name | Less(last, n) ensures Less(cursor, n) { LessTransitive(cursor, last, n); }
    Subset(Ahead(m, last), Ahead(m, cursor) - {last});
  }

  lemma Subset<T>(a: set<T>, b: set<T>)
    requires a <= b
    ensures |a| <= |b|
  {
    assert b == a + (b - a);
  }

  lemma MarkedNames(n: Name)
    ensures Marked(MarkedName(n)) && MarkedName(n)[..|MarkedName(n)| - |SUFFIX|] == n
    ensures forall k: Name :: Marked(k) && k[..|k| - |SUFFIX|] == n ==> k == MarkedName(n)
  {
    forall k: Name | Marked(k) && k[..|k| - |SUFFIX|] == n ensures k == MarkedName(n) {
      assert k == k[..|k| - |SUFFIX|] + k[|k| - |SUFFIX|..];
    }
  }

  /** Names that were not there at the start are marked files, and those not yet done are unchanged. */
  lemma EntryFacts(env: Env, dry: bool, dir: Path, m: map<Name, Node>, done: set<Name>, subs: map<Name, Node>, n: Name)
    ensures var e := EntryAfter(env, dry, dir, m, done, subs, n);
            && (e.Some? ==> n in Places(m))
            && (e.Some? && !Relevant(m, n) ==> e.value.File? && Marked(n))
            && (Relevant(m, n) && n !in done && n !in subs ==> e == Some(m[n]))
  {
    if n !in m && Marked(n) && n[..|n| - |SUFFIX|] != "" {
      var from: Name := n[..|n| - |SUFFIX|];
      MarkedNames(from);
    }
  }

  /** Which names there are does not depend on what became of the directories. */
  lemma EntryKept(env: Env, dry: bool, dir: Path, m: map<Name, Node>, done: set<Name>, a: map<Name, Node>, b: map<Name, Node>, n: Name)
    ensures EntryAfter(env, dry, dir, m, done, a, n).Some? <==> EntryAfter(env, dry, dir, m, done, b, n).Some?
  {
  }

  lemma RunEntry(env: Env, dry: bool, dir: Path, m: map<Name, Node>, n: Name)
    requires Honest(env)
    ensures var done := DoneNames(env, dry, dir, m);
            Lookup(RunTree(env, dry, dir, m), n) == EntryAfter(env, dry, dir, m, done, RunDirs(env, dry, dir, m, done), n)
  {
    var done := DoneNames(env, dry, dir, m);
    EntryFacts(env, dry, dir, m, done, RunDirs(env, dry, dir, m, done), n);
  }

  lemma RecoveredEntry(env: Env, dry: bool, dir: Path, m: map<Name, Node>, n: Name)
    ensures Lookup(Recovered(env, dry, dir, m), n) == EntryAfter(env, dry, dir, m, m.Keys, RecoveredDirs(env, dry, dir, m), n)
  {
    EntryFacts(env, dry, dir, m, m.Keys, RecoveredDirs(env, dry, dir, m), n);
  }

  /** Only files that have to be scanned are reached. */
  lemma {:induction false} ReachedIsTarget(env: Env, dry: bool, dir: Path, m: map<Name, Node>, q: Path)
    requires Honest(env)
    ensures Reached(env, dry, dir, m, q) ==> Target(m, q)
    decreases |q|, 1
  {
    if q != [] { BelowIsTarget(env, dry, dir, m, q); }
  }

  lemma {:induction false} BelowIsTarget(env: Env, dry: bool, dir: Path, m: map<Name, Node>, q: Path)
    requires Honest(env) && q != []
    ensures ReachedBelow(env, dry, dir, m, q) ==> Target(m, q)
    decreases |q|, 0
  {
    if |q| > 1 && q[0] in m && m[q[0]].Dir? {
      var sub, entries, rest := dir + [q[0]], m[q[0]].entries, q[1..];
      ReachedIsTarget(env, dry, sub, entries, rest);
      assert ReachedBelow(env, dry, dir, m, q) ==> Reached(env, dry, sub, entries, rest);
      assert Target(m, q) <==> Target(entries, rest);
    }
  }

  /** When no listing fails, every file that has to be scanned is reached. */
  lemma {:induction false} TargetIsReached(env: Env, dry: bool, dir: Path, m: map<Name, Node>, q: Path)
    requires Honest(env) && forall f :: !Fails(env, dry, dir, m, f)
    ensures Target(m, q) ==> Reached(env, dry, dir, m, q)
    decreases |q|
  {
    assert !Fails(env, dry, dir, m, []);
    if |q| > 1 && q[0] in m && m[q[0]].Dir? {
      UnfailedBelow(env, dry, dir, m, q[0]);
      TargetIsReached(env, dry, dir + [q[0]], m[q[0]].entries, q[1..]);
    }
  }

  lemma UnfailedBelow(env: Env, dry: bool, dir: Path, m: map<Name, Node>, n: Name)
    requires Honest(env) && forall f :: !Fails(env, dry, dir, m, f)
    requires n in m && m[n].Dir?
    ensures forall f :: !Fails(env, dry, dir + [n], m[n].entries, f)
  {
    assert !Fails(env, dry, dir, m, []);
    forall f ensures !Fails(env, dry, dir + [n], m[n].entries, f) {
      var g := [n] + f;
      assert g[1..] == f && g[0] == n && n in DoneNames(env, dry, dir, m);
      assert !Fails(env, dry, dir, m, g) && !FailsBelow(env, dry, dir, m, g);
    }
  }

  /** Then the tree is the one of the specification without pages. */
  lemma {:induction false} UnfailedTree(env: Env, dry: bool, dir: Path, m: map<Name, Node>)
    requires Honest(env) && forall f :: !Fails(env, dry, dir, m, f)
    ensures RunTree(env, dry, dir, m) == Recovered(env, dry, dir, m)
    decreases Dir(m)
  {
    assert !Fails(env, dry, dir, m, []);
    forall n | n in m && m[n].Dir?
      ensures RunTree(env, dry, dir + [n], m[n].entries) == Recovered(env, dry, dir + [n], m[n].entries)
    {
      UnfailedBelow(env, dry, dir, m, n);
      UnfailedTree(env, dry, dir + [n], m[n].entries);
    }
    UnfailedEntries(env, dry, dir, m);
  }

  lemma UnfailedEntries(env: Env, dry: bool, dir: Path, m: map<Name, Node>)
    requires Honest(env) && DoneNames(env, dry, dir, m) == AllNames(m)
    requires forall n :: n in m && m[n].Dir? ==>
               RunTree(env, dry, dir + [n], m[n].entries) == Recovered(env, dry, dir + [n], m[n].entries)
    ensures RunTree(env, dry, dir, m) == Recovered(env, dry, dir, m)
  {
    var subs := RecoveredDirs(env, dry, dir, m);
    UnfailedDirs(env, dry, dir, m);
    AllNamesSuffice(env, dry, dir, m, subs);
    forall n: Name ensures Lookup(RunTree(env, dry, dir, m), n) == Lookup(Recovered(env, dry, dir, m), n) {
      RunEntry(env, dry, dir, m, n);
      RecoveredEntry(env, dry, dir, m, n);
    }
    SameMap(RunTree(env, dry, dir, m), Recovered(env, dry, dir, m));
  }

  lemma UnfailedDirs(env: Env, dry: bool, dir: Path, m: map<Name, Node>)
    requires Honest(env)
    requires forall n :: n in m && m[n].Dir? ==>
               RunTree(env, dry, dir + [n], m[n].entries) == Recovered(env, dry, dir + [n], m[n].entries)
    ensures RunDirs(env, dry, dir, m, AllNames(m)) == RecoveredDirs(env, dry, dir, m)
  {
  }

  lemma SameMap(a: map<Name, Node>, b: map<Name, Node>)
    requires forall n: Name :: Lookup(a, n) == Lookup(b, n)
    ensures a == b
  {
    forall n: Name ensures (n in a <==> n in b) && (n in a ==> a[n] == b[n]) {
      assert Lookup(a, n) == Lookup(b, n);
    }
  }

  lemma AllNamesSuffice(env: Env, dry: bool, dir: Path, m: map<Name, Node>, subs: map<Name, Node>)
    ensures forall n :: EntryAfter(env, dry, dir, m, AllNames(m), subs, n) == EntryAfter(env, dry, dir, m, m.Keys, subs, n)
  {
  }

  // ---------------------------------------------------------------------------------------------
  // Counters
  // ---------------------------------------------------------------------------------------------

  type Ledger = map<Path, Outcome>

  /** p is a file below dir that a run has to scan. */
  predicate Due(dir: Path, m: map<Name, Node>, p: Path) {
    |p| > |dir| && p[..|dir|] == dir && Target(m, p[|dir|..])
  }

  /** ledger has exactly the files below dir that a run has to scan, each with its outcome. */
  ghost predicate IsLedger(env: Env, dry: bool, dir: Path, m: map<Name, Node>, ledger: Ledger) {
    && (forall p :: p in ledger <==> Due(dir, m, p))
    && (forall p :: p in ledger ==> ledger[p] == Classify(env, dry, p, DataAt(m, p[|dir|..])))
  }

  ghost function Those(ledger: Ledger, o: Outcome): set<Path> {
    set p | p in ledger && ledger[p] == o
  }

  ghost function Tally(ledger: Ledger, failed: set<Path>): Stats {
    Stats(|ledger|, |Those(ledger, Healthy)|, |Those(ledger, Restored)|, |Those(ledger, Missing)|,
          |Those(ledger, Errored)| + |failed|)
  }

  function Bump(s: Stats, o: Outcome): Stats {
    var t := s.(scanned := s.scanned + 1);
    match o
    case Healthy => t.(healthy := t.healthy + 1)
    case Restored => t.(restored := t.restored + 1)
    case Missing => t.(missing := t.missing + 1)
    case Errored => t.(errors := t.errors + 1)
  }

  function Add(a: Stats, b: Stats): Stats {
    Stats(a.scanned + b.scanned, a.healthy + b.healthy, a.restored + b.restored,
          a.missing + b.missing, a.errors + b.errors)
  }

  lemma ThoseBump(ledger: Ledger, p: Path, o: Outcome, x: Outcome)
    requires p !in ledger
    ensures |Those(ledger[p := o], x)| == |Those(ledger, x)| + if x == o then 1 else 0
  {
    assert Those(ledger[p := o], x) == if x == o then Those(ledger, x) + {p} else Those(ledger, x);
  }

  lemma TallyBump(ledger: Ledger, failed: set<Path>, p: Path, o: Outcome)
    requires p !in ledger
    ensures Tally(ledger[p := o], failed) == Bump(Tally(ledger, failed), o)
  {
    assert ledger[p := o].Keys == ledger.Keys + {p};
    ThoseBump(ledger, p, o, Healthy);
    ThoseBump(ledger, p, o, Restored);
    ThoseBump(ledger, p, o, Missing);
    ThoseBump(ledger, p, o, Errored);
  }

  lemma ThoseAdd(a: Ledger, b: Ledger, x: Outcome)
    requires a.Keys !! b.Keys
    ensures |Those(a + b, x)| == |Those(a, x)| + |Those(b, x)|
  {
    assert Those(a + b, x) == Those(a, x) + Those(b, x);
    assert Those(a, x) !! Those(b, x);
  }

  lemma TallyAdd(a: Ledger, b: Ledger, f: set<Path>, g: set<Path>)
    requires a.Keys !! b.Keys && f !! g
    ensures Tally(a + b, f + g) == Add(Tally(a, f), Tally(b, g))
  {
    assert (a + b).Keys == a.Keys + b.Keys;
    ThoseAdd(a, b, Healthy);
    ThoseAdd(a, b, Restored);
    ThoseAdd(a, b, Missing);
    ThoseAdd(a, b, Errored);
  }

  /** healthy + restored + missing + errors = scanned + failed listings. */
  lemma CountersBalance(ledger: Ledger, failed: set<Path>)
    ensures var s := Tally(ledger, failed);
            s.healthy + s.restored + s.missing + s.errors == s.scanned + |failed|
  {
    var h, r, m, e := Those(ledger, Healthy), Those(ledger, Restored), Those(ledger, Missing), Those(ledger, Errored);
    assert ledger.Keys == h + r + m + e;
    assert |h + r| == |h| + |r| && |h + r + m| == |h + r| + |m| && |h + r + m + e| == |h + r + m| + |e|;
  }
}
