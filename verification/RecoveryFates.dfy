/** What a recovery run does to each file, in terms of the replies it got and nothing else. */
module RecoveryFates {
  import opened Names
  import opened FilerUrls
  import opened RecoverySpec
  import opened Recovery

  // ---------------------------------------------------------------------------------------------
  // Outcomes
  // ---------------------------------------------------------------------------------------------

  /** The keys of the two snapshots of a file. */
  function Newer(p: Path): string {
    "snapshot2" + Render(p)
  }

  function Older(p: Path): string {
    "snapshot" + Render(p)
  }

  lemma {:induction false} RenderStarts(p: Path)
    requires p != []
    ensures Render(p) != "" && Render(p)[0] == '/'
  {
    var n := |p| - 1;
    if n > 0 { RenderStarts(p[..n]); }
  }

  lemma KeysAre(p: Path)
    requires p != []
    ensures Key(NEWER, p) == Newer(p) && Key(OLDER, p) == Older(p)
  {
    RenderStarts(p);
    var path := Render(p);
    assert path == "/" + path[1..];
    assert "snapshot2/" + path[1..] == "snapshot2" + ("/" + path[1..]);
    assert "snapshot/" + path[1..] == "snapshot" + ("/" + path[1..]);
  }

  /** The snapshot is there and, in a real run, the filer takes it. */
  predicate Obtained(env: Env, dry: bool, p: Path, key: string) {
    env.backup(key).Some? && (dry || env.upload(Render(p), key))
  }

  /** The outcome of a file by the reply to its check: 200 is healthy, 500 is lost, all else is an error. */
  ghost predicate ByReply(env: Env, dry: bool, p: Path, data: Data, o: Outcome) {
    var reply := env.check(Render(p), data);
    var saved := Obtained(env, dry, p, Newer(p)) || Obtained(env, dry, p, Older(p));
    && (o == Healthy <==> reply == Status(200))
    && (o == Restored <==> reply == Status(500) && saved)
    && (o == Missing <==> reply == Status(500) && !saved)
    && (o == Errored <==> reply != Status(200) && reply != Status(500))
  }

  lemma ClassifiedByReply(env: Env, dry: bool, p: Path, data: Data)
    requires p != []
    ensures ByReply(env, dry, p, data, Classify(env, dry, p, data))
  {
    KeysAre(p);
    var reply := env.check(Render(p), data);
    assert reply.Status? ==> reply == Status(reply.code);
  }

  function ReplyTo(env: Env, dir: Path, m: map<Name, Node>, p: Path): Reply
    requires |p| > |dir|
  {
    env.check(Render(p), DataAt(m, p[|dir|..]))
  }

  lemma LedgerByReply(env: Env, dry: bool, dir: Path, m: map<Name, Node>, ledger: Ledger)
    requires Outcomes(env, dry, dir, m, ledger)
    ensures forall p :: p in ledger ==> |p| > |dir| && ByReply(env, dry, p, DataAt(m, p[|dir|..]), ledger[p])
  {
    forall p | p in ledger ensures |p| > |dir| && ByReply(env, dry, p, DataAt(m, p[|dir|..]), ledger[p]) {
      ClassifiedByReply(env, dry, p, DataAt(m, p[|dir|..]));
    }
  }

  ghost function Replied(env: Env, dir: Path, m: map<Name, Node>, ledger: Ledger, code: int): set<Path> {
    set p | p in ledger && |p| > |dir| && ReplyTo(env, dir, m, p) == Status(code)
  }

  /**
   * Over whole runs, whichever requests fail: every file checked has the outcome that the reply to
   * its check says, only files answered with 500 are written to, and only in a real run; healthy
   * counts the files answered with 200, and restored and missing together those answered with 500.
   */
  lemma OutcomesFollowReplies(env: Env, dry: bool, dir: Path, m: map<Name, Node>, after: map<Name, Node>, s: Stats, h: History)
    requires Honest(env) && Walked(env, dry, dir, m, after, s, h)
    ensures forall p :: p in h.ledger ==> |p| > |dir| && ByReply(env, dry, p, DataAt(m, p[|dir|..]), h.ledger[p])
    ensures forall w :: w in h.writes ==> !dry && w in h.ledger && |w| > |dir| && ReplyTo(env, dir, m, w) == Status(500)
    ensures s.scanned == |h.ledger| && s.healthy == |Replied(env, dir, m, h.ledger, 200)|
    ensures s.restored + s.missing == |Replied(env, dir, m, h.ledger, 500)|
  {
    LedgerByReply(env, dry, dir, m, h.ledger);
    assert Replied(env, dir, m, h.ledger, 200) == Those(h.ledger, Healthy);
    LostFiles(env, dry, dir, m, h.ledger);
    forall w | w in h.writes ensures !dry && w in h.ledger && |w| > |dir| && ReplyTo(env, dir, m, w) == Status(500) {
      assert h.ledger[w] in {Restored, Missing};
    }
  }

  lemma LostFiles(env: Env, dry: bool, dir: Path, m: map<Name, Node>, ledger: Ledger)
    requires forall p :: p in ledger ==> |p| > |dir| && ByReply(env, dry, p, DataAt(m, p[|dir|..]), ledger[p])
    ensures |Replied(env, dir, m, ledger, 500)| == |Those(ledger, Restored)| + |Those(ledger, Missing)|
  {
    assert Replied(env, dir, m, ledger, 500) == Those(ledger, Restored) + Those(ledger, Missing);
    assert Those(ledger, Restored) !! Those(ledger, Missing);
  }

  // ---------------------------------------------------------------------------------------------
  // Fates
  // ---------------------------------------------------------------------------------------------

  function NodeAt(m: map<Name, Node>, q: Path): Option<Node>
    decreases |q|
  {
    if q == [] then Some(Dir(m))
    else if q[0] !in m then None
    else if |q| == 1 then Some(m[q[0]])
    else if m[q[0]].Dir? then NodeAt(m[q[0]].entries, q[1..])
    else None
  }

  function Twin(q: Path): Path
    requires q != []
  {
    q[..|q| - 1] + [q[|q| - 1] + ".missing_7jun26"]
  }

  /**
   * What became of the file p that held data: left alone unless its check was answered with 500,
   * else replaced by the newer snapshot, else by the older one, else renamed with its bytes, unless
   * the filer refuses the rename or there is a directory of that name.
   */
  predicate Fate(env: Env, p: Path, data: Data, twin: Option<Node>, after: Option<Node>, twinAfter: Option<Node>) {
    var kept := (twin.Some? && twin.value.Dir?) || twinAfter == twin;
    if env.check(Render(p), data) != Status(500) then after == Some(File(data)) && kept
    else if Obtained(env, false, p, Newer(p)) then after == Some(File(env.backup(Newer(p)).value)) && kept
    else if Obtained(env, false, p, Older(p)) then after == Some(File(env.backup(Older(p)).value)) && kept
    else if env.rename(Render(p)) && !(twin.Some? && twin.value.Dir?) then after == None && twinAfter == Some(File(data))
    else after == Some(File(data)) && kept
  }

  lemma TwinEntry(env: Env, dir: Path, m: map<Name, Node>, done: set<Name>, subs: map<Name, Node>, n: Name)
    requires n in m && m[n].File? && !Marked(n)
    ensures var to: Name := n + ".missing_7jun26";
            !(to in m && m[to].Dir?) ==>
              EntryAfter(env, false, dir, m, done, subs, to) ==
              if n in done && Moved(env, false, dir, m, n) then Some(m[n]) else Lookup(m, to)
  {
    MarkedNames(n);
  }

  lemma FateHere(env: Env, dir: Path, m: map<Name, Node>, done: set<Name>, subs: map<Name, Node>, n: Name)
    requires n in m && m[n].File? && !Marked(n) && n in done
    ensures var to: Name := n + ".missing_7jun26";
            Fate(env, dir + [n], m[n].data, Lookup(m, to), EntryAfter(env, false, dir, m, done, subs, n),
                 EntryAfter(env, false, dir, m, done, subs, to))
  {
    TwinEntry(env, dir, m, done, subs, n);
    KeysAre(dir + [n]);
    ClassifiedByReply(env, false, dir + [n], m[n].data);
  }

  lemma RunNode(env: Env, dry: bool, dir: Path, m: map<Name, Node>, n: Name)
    requires Honest(env)
    ensures var done := DoneNames(env, dry, dir, m);
            NodeAt(RunTree(env, dry, dir, m), [n]) == EntryAfter(env, dry, dir, m, done, RunDirs(env, dry, dir, m, done), n)
    ensures NodeAt(m, [n]) == Lookup(m, n)
  {
    RunEntry(env, dry, dir, m, n);
  }

  lemma RunNodeBelow(env: Env, dry: bool, dir: Path, m: map<Name, Node>, n: Name, q: Path)
    requires Honest(env) && q != [] && n in m && m[n].Dir?
    ensures NodeAt(m, [n] + q) == NodeAt(m[n].entries, q)
    ensures NodeAt(RunTree(env, dry, dir, m), [n] + q) ==
            if n in DoneNames(env, dry, dir, m) then NodeAt(RunTree(env, dry, dir + [n], m[n].entries), q)
            else NodeAt(m[n].entries, q)
  {
    RunEntry(env, dry, dir, m, n);
    assert ([n] + q)[1..] == q;
  }

  lemma SplitTwin(q: Path)
    requires |q| > 1
    ensures q == [q[0]] + q[1..] && Twin(q) == [q[0]] + Twin(q[1..])
  {
    assert q[1..][..|q| - 2] == q[..|q| - 1][1..];
    assert q[..|q| - 1] == [q[0]] + q[1..][..|q| - 2];
  }

  lemma FateInDirectory(env: Env, dir: Path, m: map<Name, Node>, n: Name)
    requires Honest(env) && Reached(env, false, dir, m, [n])
    ensures HasFate(env, dir, m, [n])
  {
    var to: Name, done := n + ".missing_7jun26", DoneNames(env, false, dir, m);
    assert Twin([n]) == [to];
    FateHere(env, dir, m, done, RunDirs(env, false, dir, m, done), n);
    RunNode(env, false, dir, m, n);
    RunNode(env, false, dir, m, to);
  }

  ghost predicate HasFate(env: Env, dir: Path, m: map<Name, Node>, q: Path)
    requires Honest(env) && q != []
  {
    var after := RunTree(env, false, dir, m);
    Fate(env, dir + q, DataAt(m, q), NodeAt(m, Twin(q)), NodeAt(after, q), NodeAt(after, Twin(q)))
  }

  lemma PathsBelow(dir: Path, m: map<Name, Node>, n: Name, q: Path)
    requires q != [] && n in m && m[n].Dir?
    ensures dir + [n] + q == dir + ([n] + q) && Twin([n] + q) == [n] + Twin(q)
    ensures DataAt(m, [n] + q) == DataAt(m[n].entries, q)
  {
    var r := [n] + q;
    assert r[1..] == q;
    SplitTwin(r);
  }

  lemma FateBelow(env: Env, dir: Path, m: map<Name, Node>, n: Name, q: Path)
    requires Honest(env) && q != [] && n in m && m[n].Dir? && n in DoneNames(env, false, dir, m)
    requires HasFate(env, dir + [n], m[n].entries, q)
    ensures HasFate(env, dir, m, [n] + q)
  {
    PathsBelow(dir, m, n, q);
    RunNodeBelow(env, false, dir, m, n, q);
    RunNodeBelow(env, false, dir, m, n, Twin(q));
  }

  /** In a real run, whichever listings fail, every file that is reached has this fate. */
  lemma {:induction false} FateOfAFile(env: Env, dir: Path, m: map<Name, Node>, q: Path)
    requires Honest(env) && Reached(env, false, dir, m, q)
    ensures var after := RunTree(env, false, dir, m);
            Fate(env, dir + q, DataAt(m, q), NodeAt(m, Twin(q)), NodeAt(after, q), NodeAt(after, Twin(q)))
    decreases |q|
  {
    var n := q[0];
    if |q| == 1 {
      assert q == [n];
      FateInDirectory(env, dir, m, n);
    } else {
      FateOfAFile(env, dir + [n], m[n].entries, q[1..]);
      FateBelow(env, dir, m, n, q[1..]);
      assert q == [n] + q[1..];
    }
    assert HasFate(env, dir, m, q);
  }

  /** q is not the marked name of another entry. */
  ghost predicate NoTwin(m: map<Name, Node>, q: Path)
    requires q != []
  {
    forall stem: Name :: q[|q| - 1] == stem + ".missing_7jun26" ==> NodeAt(m, q[..|q| - 1] + [stem]).None?
  }

  lemma NodeBelow(m: map<Name, Node>, n: Name, q: Path)
    requires q != [] && n in m && m[n].Dir?
    ensures NodeAt(m, [n] + q) == NodeAt(m[n].entries, q)
  {
    assert ([n] + q)[1..] == q;
  }

  lemma NoTwinBelow(m: map<Name, Node>, n: Name, q: Path)
    requires q != [] && n in m && m[n].Dir? && NoTwin(m, [n] + q)
    ensures NoTwin(m[n].entries, q)
  {
    var r := [n] + q;
    assert r[|r| - 1] == q[|q| - 1];
    forall stem: Name | q[|q| - 1] == stem + ".missing_7jun26" ensures NodeAt(m[n].entries, q[..|q| - 1] + [stem]).None? {
      assert r[..|r| - 1] + [stem] == [n] + (q[..|q| - 1] + [stem]);
      NodeBelow(m, n, q[..|q| - 1] + [stem]);
    }
  }

  lemma NotReachedBelow(env: Env, dry: bool, dir: Path, m: map<Name, Node>, n: Name, q: Path)
    requires Honest(env) && q != [] && n in m && m[n].Dir? && n in DoneNames(env, dry, dir, m)
    requires !Reached(env, dry, dir, m, [n] + q)
    ensures !Reached(env, dry, dir + [n], m[n].entries, q)
  {
    var r := [n] + q;
    assert r[0] == n && r[1..] == q;
    assert ReachedBelow(env, dry, dir, m, r) <==> Reached(env, dry, dir + [n], m[n].entries, q);
  }

  /** A file that is not reached is left alone, and so is a marked file whose own unmarked twin was not there. */
  lemma {:induction false} OthersAreLeftAlone(env: Env, dry: bool, dir: Path, m: map<Name, Node>, q: Path)
    requires Honest(env) && q != [] && NodeAt(m, q).Some? && NodeAt(m, q).value.File?
    requires !Reached(env, dry, dir, m, q) && NoTwin(m, q)
    ensures NodeAt(RunTree(env, dry, dir, m), q) == NodeAt(m, q)
    decreases |q|
  {
    var n, rest := q[0], q[1..];
    if |q| == 1 {
      assert q == [n];
      RunNode(env, dry, dir, m, n);
      UnmarkedTwin(m, n);
    } else {
      assert q == [n] + rest;
      RunNodeBelow(env, dry, dir, m, n, rest);
      if n in DoneNames(env, dry, dir, m) {
        NotReachedBelow(env, dry, dir, m, n, rest);
        NoTwinBelow(m, n, rest);
        OthersAreLeftAlone(env, dry, dir + [n], m[n].entries, rest);
      }
    }
  }

  lemma NewEntry(env: Env, dry: bool, dir: Path, m: map<Name, Node>, n: Name) returns (from: Name)
    requires Honest(env) && n !in m && n in RunTree(env, dry, dir, m)
    ensures !dry && Reached(env, dry, dir, m, [from]) && n == from + ".missing_7jun26"
  {
    RunEntry(env, dry, dir, m, n);
    from := n[..|n| - |SUFFIX|];
    assert n == from + n[|n| - |SUFFIX|..];
  }

  lemma StillADirectory(env: Env, dry: bool, dir: Path, m: map<Name, Node>, n: Name)
    requires Honest(env) && n in RunTree(env, dry, dir, m) && RunTree(env, dry, dir, m)[n].Dir?
    ensures n in m && m[n].Dir?
  {
    RunEntry(env, dry, dir, m, n);
  }

  /** The only names that a run adds are those of reached files with the marker, and a dry run adds none. */
  lemma {:induction false} NothingElseIsNew(env: Env, dry: bool, dir: Path, m: map<Name, Node>, q: Path) returns (from: Path)
    requires Honest(env) && q != [] && NodeAt(m, q).None? && NodeAt(RunTree(env, dry, dir, m), q).Some?
    ensures !dry && Reached(env, dry, dir, m, from) && q == Twin(from)
    decreases |q|
  {
    var n := q[0];
    if |q| == 1 {
      var name := NewEntry(env, dry, dir, m, n);
      from := [name];
      assert q == Twin(from);
    } else {
      StillADirectory(env, dry, dir, m, n);
      assert q == [n] + q[1..];
      RunNodeBelow(env, dry, dir, m, n, q[1..]);
      var below := NothingElseIsNew(env, dry, dir + [n], m[n].entries, q[1..]);
      from := [n] + below;
      SplitTwin(from);
      assert from[1..] == below;
      assert ReachedBelow(env, dry, dir, m, from);
    }
  }

  /** In one directory: the unmarked twin of a marked name, if it has one, was not there. */
  lemma UnmarkedTwin(m: map<Name, Node>, n: Name)
    requires NoTwin(m, [n])
    ensures Marked(n) && n[..|n| - |SUFFIX|] != "" ==> n[..|n| - |SUFFIX|] !in m
  {
    if Marked(n) && n[..|n| - |SUFFIX|] != "" {
      var stem: Name := n[..|n| - |SUFFIX|];
      assert n == stem + ".missing_7jun26";
      assert [n][..0] + [stem] == [stem];
    }
  }
}
