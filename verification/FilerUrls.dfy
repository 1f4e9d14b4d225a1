/**
 * The request URLs of the recovery walk. They are put together without escaping the path, so what a
 * request addresses depends on the characters of the names.
 */
module FilerUrls {
  import opened Names

  type Path = seq<Name>

  const SUFFIX: string := ".missing_7jun26"

  /** The full path of an entry: a slash before every name. */
  function Render(p: Path): string {
    if p == [] then "" else Render(p[..|p| - 1]) + "/" + p[|p| - 1]
  }

  lemma RenderAppend(dir: Path, n: Name)
    ensures Render(dir + [n]) == Render(dir) + "/" + n
  {
    assert (dir + [n])[..|dir|] == dir;
  }

  lemma {:induction false} RenderInjective(p: Path, q: Path)
    requires Render(p) == Render(q)
    ensures p == q
  {
    if p != [] && q != [] {
      var i, j := |p| - 1, |q| - 1;
      LastSegment(Render(p[..i]), Render(q[..j]), p[i], q[j]);
      RenderInjective(p[..i], q[..j]);
      assert p == p[..i] + [p[i]] && q == q[..j] + [q[j]];
    }
  }

  // ---------------------------------------------------------------------------------------------
  // The URLs, from the path on; they follow a root URL that is a scheme and a host
  // ---------------------------------------------------------------------------------------------

  const LAST := "lastFileName"
  const FROM := "mv.from"

  function Query(key: string, value: string): string {
    "?" + key + "=" + QueryEscape(value)
  }

  function ListTail(last: string): string {
    "/" + if last == "" then "" else Query(LAST, last)
  }

  function ListUrl(dir: string, last: string): string {
    dir + ListTail(last)
  }

  function FileUrl(path: string): string {
    path
  }

  function RenameUrl(from: string): string {
    from + SUFFIX + Query(FROM, from)
  }

  predicate Unreserved(c: char) {
    'a' <= c <= 'z' || 'A' <= c <= 'Z' || '0' <= c <= '9' || c == '-' || c == '_' || c == '.' || c == '~'
  }

  function HexDigit(h: int): char
    requires 0 <= h < 16
  {
    if h < 10 then ('0' as int + h) as char else ('A' as int + h - 10) as char
  }

  function HexValue(c: char): Option<int> {
    if '0' <= c <= '9' then Some(c as int - '0' as int)
    else if 'A' <= c <= 'F' then Some(c as int - 'A' as int + 10)
    else if 'a' <= c <= 'f' then Some(c as int - 'a' as int + 10)
    else None
  }

  function EscapeChar(c: char): string {
    if Unreserved(c) then [c]
    else if c == ' ' then "+"
    else if c as int < 256 then ['%', HexDigit(c as int / 16), HexDigit(c as int % 16)]
    else [c]
  }

  function QueryEscape(s: string): string {
    if s == "" then "" else EscapeChar(s[0]) + QueryEscape(s[1..])
  }

  // ---------------------------------------------------------------------------------------------
  // What a URL addresses
  // ---------------------------------------------------------------------------------------------

  datatype Request = Request(path: string, query: string)

  function Before(s: string, c: char): string {
    if s == "" || s[0] == c then "" else [s[0]] + Before(s[1..], c)
  }

  function After(s: string, c: char): string {
    if s == "" then "" else if s[0] == c then s[1..] else After(s[1..], c)
  }

  predicate Control(c: char) {
    c as int < 32 || c as int == 127
  }

  function Prefixed(c: char, s: Option<string>): Option<string> {
    if s.Some? then Some([c] + s.value) else None
  }

  /** Percent-decoding; in a query a plus is a space. */
  function Unescape(s: string, query: bool): Option<string> {
    if s == "" then Some("")
    else if s[0] == '%' then
      if |s| >= 3 && HexValue(s[1]).Some? && HexValue(s[2]).Some? then
        Prefixed((HexValue(s[1]).value * 16 + HexValue(s[2]).value) as char, Unescape(s[3..], query))
      else None
    else Prefixed(if query && s[0] == '+' then ' ' else s[0], Unescape(s[1..], query))
  }

  /** The fragment is cut off first, then the query; bad escapes and control characters are refused. */
  function Address(url: string): Option<Request> {
    var rest := Before(url, '#');
    if (exists c :: c in rest && Control(c)) || Unescape(After(url, '#'), false).None? then None
    else
      var path := Unescape(Before(rest, '?'), false);
      if path.None? then None else Some(Request(path.value, After(rest, '?')))
  }

  /** The value of the first parameter called key, or "". */
  function Parameter(query: string, key: string): string
    decreases |query|
  {
    if query == "" then ""
    else
      var pair := Before(query, '&');
      if Before(pair, '=') == key then
        (var v := Unescape(After(pair, '='), true); if v.Some? then v.value else "")
      else
        AfterShorter(query, '&');
        Parameter(After(query, '&'), key)
  }

  lemma AfterShorter(s: string, c: char)
    requires s != ""
    ensures |After(s, c)| < |s|
  {
  }

  /** The request lists directory dir from the cursor on. */
  predicate ReachesDirectory(url: string, dir: string, last: string) {
    var r := Address(url);
    r.Some? && r.value.path == dir + "/" && Parameter(r.value.query, LAST) == last
  }

  predicate ReachesFile(url: string, path: string) {
    Address(url) == Some(Request(path, ""))
  }

  /** The request renames from to its marked name. */
  predicate ReachesRename(url: string, from: string) {
    var r := Address(url);
    r.Some? && r.value.path == from + SUFFIX && Parameter(r.value.query, FROM) == from
  }

  predicate PlainChar(c: char) {
    c != '#' && c != '?' && c != '%' && !Control(c)
  }

  predicate Plain(s: string) {
    forall i :: 0 <= i < |s| ==> PlainChar(s[i])
  }

  // ---------------------------------------------------------------------------------------------
  // Cutting and decoding
  // ---------------------------------------------------------------------------------------------

  lemma {:induction false} CutAbsent(s: string, c: char)
    requires c !in s
    ensures Before(s, c) == s && After(s, c) == ""
  {
    if s != "" { CutAbsent(s[1..], c); }
  }

  lemma {:induction false} CutAt(a: string, c: char, b: string)
    requires c !in a
    ensures Before(a + [c] + b, c) == a && After(a + [c] + b, c) == b
  {
    var s := a + [c] + b;
    if a == "" {
      assert s[1..] == b;
    } else {
      assert s[1..] == a[1..] + [c] + b && s[0] == a[0];
      CutAt(a[1..], c, b);
    }
  }

  lemma {:induction false} CutFirst(a: string, b: string, c: char)
    requires c in a
    ensures Before(a + b, c) == Before(a, c) && |Before(a, c)| < |a|
  {
    if a[0] != c {
      assert (a + b)[1..] == a[1..] + b;
      CutFirst(a[1..], b, c);
    }
  }

  lemma {:induction false} CutSecond(a: string, b: string, c: char)
    requires c !in a
    ensures Before(a + b, c) == a + Before(b, c)
  {
    if a == "" {
      assert a + b == b && a + Before(b, c) == Before(b, c);
    } else {
      assert (a + b)[1..] == a[1..] + b;
      CutSecond(a[1..], b, c);
      ConsAppend(a, Before(b, c));
    }
  }

  lemma ConsAppend(a: string, b: string)
    requires a != ""
    ensures [a[0]] + (a[1..] + b) == a + b
  {
  }

  /** Cutting at a character that occurs in the first part gives less than the first part. */
  lemma CutInside(a: string, b: string, c: char)
    ensures Before(a + b, c) == if c in a then Before(a, c) else a + Before(b, c)
    ensures c in a ==> |Before(a, c)| < |a|
  {
    if c in a { CutFirst(a, b, c); } else { CutSecond(a, b, c); }
  }

  lemma {:induction false} UnescapePlain(s: string)
    requires '%' !in s
    ensures Unescape(s, false) == Some(s)
  {
    if s != "" {
      UnescapePlain(s[1..]);
      assert s == [s[0]] + s[1..];
    }
  }

  /** Decoding never lengthens, and any escape shortens. */
  lemma {:induction false} UnescapeShortens(s: string, query: bool)
    ensures Unescape(s, query).Some? ==> |Unescape(s, query).value| <= |s|
    ensures Unescape(s, query).Some? && '%' in s ==> |Unescape(s, query).value| < |s|
  {
    if s != "" {
      if s[0] == '%' {
        if |s| >= 3 { UnescapeShortens(s[3..], query); }
      } else {
        UnescapeShortens(s[1..], query);
      }
    }
  }

  // ---------------------------------------------------------------------------------------------
  // Query escaping
  // ---------------------------------------------------------------------------------------------

  lemma HexRoundTrip(h: int)
    requires 0 <= h < 16
    ensures HexValue(HexDigit(h)) == Some(h)
  {
  }

  lemma EscapedCharDecodes(c: char, rest: string)
    requires c as int < 256
    ensures Unescape(EscapeChar(c) + rest, true) == Prefixed(c, Unescape(rest, true))
  {
    var s := EscapeChar(c) + rest;
    if Unreserved(c) || c == ' ' {
      assert s[1..] == rest;
    } else {
      HexRoundTrip(c as int / 16);
      HexRoundTrip(c as int % 16);
      assert s[3..] == rest;
    }
  }

  lemma {:induction false} QueryRoundTrip(s: string)
    requires IsBytes(s)
    ensures Unescape(QueryEscape(s), true) == Some(s)
  {
    if s != "" {
      EscapedCharDecodes(s[0], QueryEscape(s[1..]));
      QueryRoundTrip(s[1..]);
      assert s == [s[0]] + s[1..];
    }
  }

  predicate EscapedChar(c: char) {
    Unreserved(c) || c == '+' || c == '%'
  }

  lemma {:induction false} EscapedIsClean(s: string)
    requires IsBytes(s)
    ensures forall c :: c in QueryEscape(s) ==> EscapedChar(c)
  {
    if s != "" {
      EscapedIsClean(s[1..]);
      assert forall c :: c in EscapeChar(s[0]) ==> EscapedChar(c);
    }
  }

  lemma ParameterOfOne(key: string, value: string)
    requires IsBytes(value) && '&' !in key && '=' !in key
    ensures Parameter(key + "=" + QueryEscape(value), key) == value
  {
    var v := QueryEscape(value);
    EscapedIsClean(value);
    CutAbsent(key + "=" + v, '&');
    CutAt(key, '=', v);
    QueryRoundTrip(value);
  }

  // ---------------------------------------------------------------------------------------------
  // Which requests reach what they were meant for
  // ---------------------------------------------------------------------------------------------

  /** Nothing, or a question mark and a query that holds no character with a meaning in a URL. */
  predicate IsQuery(q: string) {
    q == "" || (q[0] == '?' && '#' !in q && forall i :: 0 <= i < |q| ==> !Control(q[i]))
  }

  lemma PlainReaches(s: string, q: string)
    requires Plain(s) && IsQuery(q)
    ensures Address(s + q) == Some(Request(s, if q == "" then "" else q[1..]))
  {
    CutAbsent(s + q, '#');
    UnescapePlain(s);
    if q == "" {
      assert s + q == s;
      CutAbsent(s, '?');
    } else {
      assert s + q == s + ['?'] + q[1..];
      CutAt(s, '?', q[1..]);
    }
  }

  lemma UnplainMisses(s: string, q: string)
    requires !Plain(s) && IsQuery(q)
    ensures Address(s + q).None? || |Address(s + q).value.path| < |s|
  {
    var rest := Before(s + q, '#');
    CutInside(s, q, '#');
    CutShortens(rest, '?');
    UnescapeShortens(Before(rest, '?'), false);
    if '#' !in s {
      CutAbsent(q, '#');
      assert rest == s + q;
      CutInside(s, q, '?');
      if '?' !in s {
        assert Before(q, '?') == "";
        assert Before(rest, '?') == s;
        if '%' !in s { UnplainControl(s); }
      }
    }
  }

  lemma {:induction false} CutShortens(s: string, c: char)
    ensures |Before(s, c)| <= |s|
  {
    if s != "" { CutShortens(s[1..], c); }
  }

  lemma UnplainControl(s: string)
    requires !Plain(s) && '#' !in s && '?' !in s && '%' !in s
    ensures exists c :: c in s && Control(c)
  {
    var i :| 0 <= i < |s| && !PlainChar(s[i]);
    assert s[i] in s;
  }

  lemma EscapedQuery(key: string, value: string)
    requires IsBytes(value) && Plain(key)
    ensures IsQuery(Query(key, value))
  {
    EscapedIsClean(value);
    var v, q := QueryEscape(value), Query(key, value);
    forall i | 0 <= i < |q| ensures q[i] != '#' && !Control(q[i]) {
      if i > |key| + 1 { assert q[i] == v[i - |key| - 2] && q[i] in v; }
      else if 1 <= i <= |key| { assert q[i] == key[i - 1]; }
    }
  }

  lemma QueryParameter(key: string, value: string)
    requires IsBytes(value) && '&' !in key && '=' !in key
    ensures Parameter(Query(key, value)[1..], key) == value
  {
    assert Query(key, value)[1..] == key + "=" + QueryEscape(value);
    ParameterOfOne(key, value);
  }

  lemma Keys()
    ensures Plain(LAST) && '&' !in LAST && '=' !in LAST && Plain(FROM) && '&' !in FROM && '=' !in FROM
  {
  }

  lemma PlainConcat(a: string, b: string)
    ensures Plain(a + b) <==> Plain(a) && Plain(b)
  {
    var s := a + b;
    assert forall i :: 0 <= i < |a| ==> a[i] == s[i];
    assert forall i :: 0 <= i < |b| ==> b[i] == s[|a| + i];
  }

  /** A check or an upload reaches its file exactly when nothing in the path has a meaning in a URL. */
  lemma FileRequest(path: string)
    ensures ReachesFile(FileUrl(path), path) <==> Plain(path)
  {
    assert path + "" == path;
    if Plain(path) { PlainReaches(path, ""); } else { UnplainMisses(path, ""); }
  }

  lemma ListTailQuery(last: string) returns (q: string)
    requires IsBytes(last)
    ensures ListTail(last) == "/" + q && IsQuery(q)
    ensures Parameter(if q == "" then "" else q[1..], LAST) == last
  {
    if last == "" {
      q := "";
    } else {
      q := Query(LAST, last);
      Keys();
      EscapedQuery(LAST, last);
      QueryParameter(LAST, last);
    }
  }

  lemma ListReaches(dir: string, q: string, last: string)
    requires Plain(dir + "/") && IsQuery(q) && Parameter(if q == "" then "" else q[1..], LAST) == last
    ensures ReachesDirectory(dir + "/" + q, dir, last)
  {
    PlainReaches(dir + "/", q);
  }

  lemma ListMisses(dir: string, q: string, last: string)
    requires !Plain(dir + "/") && IsQuery(q)
    ensures !ReachesDirectory(dir + "/" + q, dir, last)
  {
    UnplainMisses(dir + "/", q);
  }

  lemma ListUrlParts(dir: string, last: string, q: string)
    requires ListTail(last) == "/" + q
    ensures ListUrl(dir, last) == dir + "/" + q
  {
  }

  lemma PlainDirectory(dir: string)
    ensures Plain(dir + "/") <==> Plain(dir)
  {
    PlainConcat(dir, "/");
  }

  /** The same for the listing of a directory, at every cursor. */
  lemma ListRequest(dir: string, last: string)
    requires IsBytes(last)
    ensures ReachesDirectory(ListUrl(dir, last), dir, last) <==> Plain(dir)
  {
    var q := ListTailQuery(last);
    ListUrlParts(dir, last, q);
    PlainDirectory(dir);
    if Plain(dir) { ListReaches(dir, q, last); } else { ListMisses(dir, q, last); }
  }

  /** The same for a rename. */
  lemma RenameRequest(from: string)
    requires IsBytes(from)
    ensures ReachesRename(RenameUrl(from), from) <==> Plain(from)
  {
    var q := Query(FROM, from);
    Keys();
    EscapedQuery(FROM, from);
    PlainConcat(from, SUFFIX);
    if Plain(from) {
      PlainReaches(from + SUFFIX, q);
      QueryParameter(FROM, from);
    } else {
      UnplainMisses(from + SUFFIX, q);
    }
  }

  // ---------------------------------------------------------------------------------------------
  // What the others reach
  // ---------------------------------------------------------------------------------------------

  /** Everything from a hash on is lost; a bad escape there makes no request. */
  lemma HashCuts(a: string, tail: string)
    requires Plain(a)
    ensures Address(a + "#" + tail) == if Unescape(tail, false).Some? then Some(Request(a, "")) else None
  {
    CutAt(a, '#', tail);
    CutAbsent(a, '?');
    UnescapePlain(a);
  }

  /** Everything from a question mark on is taken for a query. */
  lemma QuestionMarkCuts(a: string, tail: string)
    requires Plain(a) && '#' !in tail && forall i :: 0 <= i < |tail| ==> !Control(tail[i])
    ensures Address(a + "?" + tail) == Some(Request(a, tail))
  {
    var q := "?" + tail;
    PlainReaches(a, q);
    assert a + q == a + "?" + tail && q[1..] == tail;
  }

  /** A fragment decodes or not, whatever well-formed escapes follow it. */
  lemma {:induction false} UnescapeAppend(s: string, t: string)
    requires Unescape(t, false).Some? && t != "" && HexValue(t[0]).None?
    ensures Unescape(s + t, false).Some? <==> Unescape(s, false).Some?
  {
    if s == "" {
      assert s + t == t;
    } else if s[0] == '%' {
      if |s| >= 3 {
        assert (s + t)[3..] == s[3..] + t;
        UnescapeAppend(s[3..], t);
      } else if |s| == 2 {
        assert (s + t)[2] == t[0];
      } else {
        assert (s + t)[1] == t[0];
      }
    } else {
      assert (s + t)[1..] == s[1..] + t;
      UnescapeAppend(s[1..], t);
    }
  }

  lemma {:induction false} UnescapeJoin(s: string, t: string)
    requires '%' !in s && Unescape(t, false).Some?
    ensures Unescape(s + t, false).Some?
  {
    if s == "" {
      assert s + t == t;
    } else {
      assert (s + t)[1..] == s[1..] + t;
      UnescapeJoin(s[1..], t);
    }
  }

  lemma {:induction false} EscapedDecodes(s: string)
    requires IsBytes(s)
    ensures Unescape(QueryEscape(s), false).Some?
  {
    if s != "" {
      var c, rest := s[0], QueryEscape(s[1..]);
      EscapedDecodes(s[1..]);
      if Unreserved(c) || c == ' ' {
        UnescapeJoin(EscapeChar(c), rest);
      } else {
        HexRoundTrip(c as int / 16);
        HexRoundTrip(c as int % 16);
        assert (EscapeChar(c) + rest)[3..] == rest;
      }
    }
  }

  lemma HashUrl(a: string, b: string, t: string)
    requires '#' !in a && Unescape(t, false).Some? && t != "" && HexValue(t[0]).None?
    ensures Before(a + "#" + b + t, '#') == a
    ensures Unescape(After(a + "#" + b + t, '#'), false).Some? <==> Unescape(b, false).Some?
  {
    assert a + "#" + b + t == a + ['#'] + (b + t);
    CutAt(a, '#', b + t);
    UnescapeAppend(b, t);
  }

  lemma QueryDecodes(key: string, value: string)
    requires IsBytes(value) && '%' !in key
    ensures Unescape(Query(key, value), false).Some?
  {
    EscapedDecodes(value);
    UnescapeJoin("?" + key + "=", QueryEscape(value));
  }

  lemma ListTailDecodes(last: string)
    requires IsBytes(last)
    ensures Unescape(ListTail(last), false).Some?
  {
    if last == "" {
      UnescapePlain("/");
      assert ListTail(last) == "/";
    } else {
      Keys();
      assert forall i :: 0 <= i < |LAST| ==> PlainChar(LAST[i]);
      QueryDecodes(LAST, last);
      UnescapeJoin("/", Query(LAST, last));
    }
  }

  /** With a hash in the directory's path every listing request is the first one again. */
  lemma HashLosesCursor(dir: string, last: string)
    requires '#' in dir && IsBytes(last)
    ensures Address(ListUrl(dir, last)) == Address(ListUrl(dir, ""))
  {
    CutSplits(dir, '#');
    ListTailDecodes(last);
    ListTailDecodes("");
    HashUrl(Before(dir, '#'), After(dir, '#'), ListTail(last));
    HashUrl(Before(dir, '#'), After(dir, '#'), ListTail(""));
  }

  lemma {:induction false} CutSplits(s: string, c: char)
    requires c in s
    ensures s == Before(s, c) + [c] + After(s, c) && c !in Before(s, c)
  {
    if s[0] != c {
      assert c in s[1..];
      CutSplits(s[1..], c);
      assert s == [s[0]] + s[1..];
    }
  }

  lemma {:induction false} CutAfter(a: string, b: string, c: char)
    ensures After(a + b, c) == if c in a then After(a, c) + b else After(b, c)
  {
    if a == "" {
      assert a + b == b;
    } else {
      assert (a + b)[1..] == a[1..] + b;
      if a[0] != c {
        CutAfter(a[1..], b, c);
        assert c in a <==> c in a[1..];
      }
    }
  }

  lemma {:induction false} CutParts(s: string, c: char, x: char)
    ensures x in Before(s, c) || x in After(s, c) ==> x in s
    ensures c in s ==> |After(s, c)| < |s|
  {
    if s != "" { CutParts(s[1..], c, x); }
  }

  /** What is put behind a path is never a parameter of its own when something is already taken for a query. */
  lemma {:induction false} ParameterLost(x: string, t: string)
    requires '=' !in x && t != "" && t[0] == '/' && '&' !in t
    ensures Parameter(x + t, LAST) == ""
    decreases |x|
  {
    var query := x + t;
    CutInside(x, t, '&');
    CutAfter(x, t, '&');
    if '&' in x {
      CutParts(x, '&', '=');
      CutAbsent(Before(x, '&'), '=');
      ParameterLost(After(x, '&'), t);
    } else {
      CutAbsent(t, '&');
      assert Before(query, '&') == query && After(query, '&') == "";
      KeyHasSlash(x, t);
    }
  }

  lemma KeyHasSlash(x: string, t: string)
    requires '=' !in x && t != "" && t[0] == '/'
    ensures Before(x + t, '=') != LAST
  {
    CutInside(x, t, '=');
    assert Before(x + t, '=')[|x|] == '/';
    assert '/' !in LAST;
  }

  lemma ListTailClean(last: string)
    requires IsBytes(last)
    ensures var t := ListTail(last);
            t[0] == '/' && '&' !in t && '#' !in t && forall c :: c in t ==> !Control(c)
  {
    if last != "" {
      Keys();
      EscapedIsClean(last);
      var v, t := QueryEscape(last), ListTail(last);
      forall c | c in t ensures c != '&' && c != '#' && !Control(c) {
        assert c in LAST || c in v || c in "/?=";
      }
    }
  }

  /** Directory and cursor as the filer understands a listing request. */
  function Effective(url: string): Option<(string, string)> {
    var r := Address(url);
    if r.Some? then Some((r.value.path, Parameter(r.value.query, LAST))) else None
  }

  function EffectiveFirst(dir: string): Option<(string, string)> {
    if exists c :: c in dir && Control(c) then None
    else
      var path := Unescape(Before(dir, '?'), false);
      if path.Some? then Some((path.value, "")) else None
  }

  /** The same when a question mark comes first and nothing after it can name the parameter. */
  lemma QuestionMarkLosesCursor(dir: string, last: string)
    requires '?' in dir && '#' !in dir && '=' !in dir && IsBytes(last)
    ensures Effective(ListUrl(dir, last)) == EffectiveFirst(dir)
  {
    var t, url := ListTail(last), ListUrl(dir, last);
    ListTailClean(last);
    CutAbsent(url, '#');
    CutInside(dir, t, '?');
    CutAfter(dir, t, '?');
    CutParts(dir, '?', '=');
    ParameterLost(After(dir, '?'), t);
    assert (exists c :: c in url && Control(c)) <==> (exists c :: c in dir && Control(c));
  }

  lemma HashedListing(path: string, x: string, cursor: string)
    requires Plain(path) && IsBytes(cursor)
    ensures Effective(ListUrl(path + "#" + x, cursor)) == if Unescape(x, false).Some? then Some((path, "")) else None
  {
    var url := path + "#" + x;
    assert url[|path|] == '#';
    HashLosesCursor(url, cursor);
    assert ListUrl(url, "") == path + "#" + (x + "/");
    HashCuts(path, x + "/");
    UnescapePlain("/");
    UnescapeAppend(x, "/");
    assert Parameter("", LAST) == "";
  }

  lemma Reassociate(a: string, b: string, c: string)
    ensures a + "?" + b + c == a + "?" + (b + c)
  {
  }

  /** A question mark in the path makes the rest of it a query, whatever the cursor. */
  lemma QuestionMarkListing(path: string, x: string, cursor: string)
    requires Plain(path) && '#' !in x && IsBytes(cursor) && forall i :: 0 <= i < |x| ==> !Control(x[i])
    ensures var r := Address(ListUrl(path + "?" + x, cursor));
            r.Some? && r.value.path == path && r.value.query == x + ListTail(cursor)
  {
    var t := ListTail(cursor);
    ListTailClean(cursor);
    var rest := x + t;
    forall i | 0 <= i < |rest| ensures rest[i] != '#' && !Control(rest[i]) {
      if i >= |x| { assert rest[i] == t[i - |x|] && rest[i] in t; } else { assert rest[i] == x[i]; }
    }
    Reassociate(path, x, t);
    QuestionMarkCuts(path, rest);
  }

  predicate LosesCursor(dir: string) {
    '#' in dir || ('?' in dir && '=' !in dir)
  }

  lemma CursorLost(dir: string, last: string)
    requires LosesCursor(dir) && IsBytes(last)
    ensures Effective(ListUrl(dir, last)) == Effective(ListUrl(dir, ""))
  {
    if '#' in dir {
      HashLosesCursor(dir, last);
    } else {
      QuestionMarkLosesCursor(dir, last);
      QuestionMarkLosesCursor(dir, "");
    }
  }

  /** What a listing answers: the last name of the page and whether there are more. */
  datatype Listing = Listing(last: Name, more: bool)

  /** The loop over the pages of dir is still running k pages after round i; answers may differ from round to round. */
  predicate Running(filer: (nat, (string, string)) -> Listing, dir: string, cursor: string, i: nat, k: nat)
    decreases k
  {
    k == 0 ||
    var request := Effective(ListUrl(dir, cursor));
    request.Some? &&
    var page := filer(i, request.value);
    page.more && Running(filer, dir, page.last, i + 1, k - 1)
  }

  /** The first listing request of dir is made, and the answers to it from round i on go on saying there is more. */
  ghost predicate SaysMore(filer: (nat, (string, string)) -> Listing, dir: string, i: nat, k: nat) {
    var first := Effective(ListUrl(dir, ""));
    first.Some? && forall j :: i <= j < i + k ==> filer(j, first.value).more
  }

  /** On such a directory the loop goes on exactly as long as its first page, asked for again and again, says there is more. */
  lemma {:induction false} RunsExactlyWhileMore(filer: (nat, (string, string)) -> Listing, dir: string, cursor: string,
                                                i: nat, k: nat)
    requires LosesCursor(dir) && IsBytes(cursor) && k > 0
    ensures Running(filer, dir, cursor, i, k) <==> SaysMore(filer, dir, i, k)
    decreases k
  {
    CursorLost(dir, cursor);
    var first := Effective(ListUrl(dir, ""));
    if k > 1 && first.Some? { RunsExactlyWhileMore(filer, dir, filer(i, first.value).last, i + 1, k - 1); }
  }

  /** So it never ends when nothing changes in between, as in a dry run, and the first page says there is more. */
  lemma NeverEnds(filer: (nat, (string, string)) -> Listing, dir: string, k: nat)
    requires LosesCursor(dir) && SaysMore(filer, dir, 0, 1)
    requires forall i, request :: filer(i, request) == filer(0, request)
    ensures Running(filer, dir, "", 0, k)
  {
    if k > 0 { RunsExactlyWhileMore(filer, dir, "", 0, k); }
  }
}
