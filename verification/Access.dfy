/** internal/access/access.go: conservative paths, method lists, rules, overlap and first-match authorization. */
module Access {
  import opened Prelude
  import opened Strings

  // ---------- byte classes ----------

  predicate Alnum(c: char) {
    'a' <= c <= 'z' || 'A' <= c <= 'Z' || '0' <= c <= '9'
  }

  predicate PathByte(c: char) {
    Alnum(c) || c in "/-._~!$&'()*+,;=:@"
  }

  /** A token byte of section 5.6.2 of RFC 9110. */
  predicate TokenByte(c: char) {
    Alnum(c) || c in "!#$%&'*+-.^_`|~"
  }

  /** The visible ASCII bytes without the delimiters that section lists. */
  lemma TokenExact(c: char)
    ensures TokenByte(c) <==> 33 <= c as int <= 126 && c !in "\"(),/:;<=>?@[\\]{}"
  {
  }

  function LowerByte(c: char): char {
    if 'A' <= c <= 'Z' then c + 32 as char else c
  }

  function Lower(s: string): string {
    seq(|s|, i requires 0 <= i < |s| => LowerByte(s[i]))
  }

  /** strings.EqualFold on ASCII strings. */
  predicate EqualFold(a: string, b: string) {
    Lower(a) == Lower(b)
  }

  // ---------- paths ----------

  predicate NoEmptySegment(p: string) {
    forall i | 0 <= i < |p| - 1 :: p[i] == '/' ==> p[i + 1] != '/'
  }

  predicate NoDotSegment(p: string) {
    forall s | s in Split(p, '/') :: s != "." && s != ".."
  }

  predicate Path(p: string) {
    p != "" && p[0] == '/' && NoEmptySegment(p)
    && (forall c | c in p :: c !in "%\\?#" && PathByte(c))
    && NoDotSegment(p)
  }

  /** access.Slug: a lower-case letter, then at most 47 letters, digits or hyphens. */
  predicate Slug(s: string) {
    1 <= |s| <= 48 && 'a' <= s[0] <= 'z'
    && forall c | c in s :: 'a' <= c <= 'z' || '0' <= c <= '9' || c == '-'
  }

  /** No part but the first and the last is empty. */
  predicate Inner(parts: seq<string>) {
    forall i | 0 < i < |parts| - 1 :: parts[i] != ""
  }

  lemma InnerGrow(c: char, parts: seq<string>)
    requires |parts| >= 1
    ensures Inner(Grow(c, '/', parts)) <==> Inner(parts) && (c == '/' && |parts| >= 2 ==> parts[0] != "")
  {
    var grown := Grow(c, '/', parts);
    if c == '/' {
      assert forall i | 0 <= i < |parts| :: grown[i + 1] == parts[i];
      if Inner(grown) {
        forall i | 0 < i < |parts| - 1 ensures parts[i] != "" { assert grown[i + 1] != ""; }
      }
    } else {
      assert forall i | 0 < i < |parts| :: grown[i] == parts[i];
    }
  }

  lemma {:induction false} InteriorParts(p: string)
    requires p != ""
    ensures NoEmptySegment(p) <==> Inner(Split(p, '/'))
  {
    hide NoEmptySegment, Inner;
    InnerGrow(p[0], Split(p[1..], '/'));
    if p[1..] == "" {
      OneSegment(p);
    } else {
      InteriorParts(p[1..]);
      FirstPart(p[1..]);
      SegmentStep(p);
      assert p[1] == '/' ==> |Split(p[1..], '/')| >= 2;
    }
  }

  lemma OneSegment(p: string)
    requires |p| == 1
    ensures NoEmptySegment(p) && Inner(Split(p[1..], '/'))
  {
  }

  lemma FirstPart(p: string)
    requires p != ""
    ensures Split(p, '/')[0] == "" <==> p[0] == '/'
  {
  }

  lemma SegmentStep(p: string)
    requires |p| >= 2
    ensures NoEmptySegment(p) <==> NoEmptySegment(p[1..]) && !(p[0] == '/' && p[1] == '/')
  {
    if NoEmptySegment(p[1..]) && !(p[0] == '/' && p[1] == '/') {
      forall i | 0 <= i < |p| - 1 ensures p[i] == '/' ==> p[i + 1] != '/' {
        if i > 0 { assert p[1..][i - 1] == p[i] && p[1..][i] == p[i + 1]; }
      }
    }
  }

  /** A path is conservative exactly when it is a slash followed by segments between slashes, none empty but maybe the
      last, none "." or "..", over the bytes RFC 3986 allows in a segment without percent signs. */
  lemma PathExact(p: string)
    ensures Path(p) <==>
              var parts := Split(p, '/');
              |parts| >= 2 && parts[0] == ""
              && (forall i | 0 < i < |parts| - 1 :: parts[i] != "")
              && (forall i | 0 < i < |parts| :: parts[i] != "." && parts[i] != "..")
              && forall c | c in p :: Alnum(c) || c in "/-._~!$&'()*+,;=:@"
  {
    hide NoEmptySegment, Alnum;
    var parts := Split(p, '/');
    if p != "" {
      InteriorParts(p);
      FirstPart(p);
      assert p[0] == '/' ==> |parts| >= 2;
      NoDotParts(p, parts);
      SegmentBytes(p);
    }
  }

  predicate Dots(s: string) {
    s == "." || s == ".."
  }

  lemma NoDotParts(p: string, parts: seq<string>)
    requires parts == Split(p, '/')
    ensures NoDotSegment(p) <==> forall i | 0 <= i < |parts| :: !Dots(parts[i])
  {
    assert NoDotSegment(p) <==> forall s | s in parts :: !Dots(s);
    hide Dots, NoDotSegment, Split;
    if NoDotSegment(p) {
      assert forall i | 0 <= i < |parts| :: parts[i] in parts;
    } else {
      var s :| s in parts && Dots(s);
      var i :| 0 <= i < |parts| && parts[i] == s;
    }
  }

  lemma SegmentBytes(p: string)
    ensures (forall c | c in p :: c !in "%\\?#" && PathByte(c))
            <==> forall c | c in p :: Alnum(c) || c in "/-._~!$&'()*+,;=:@"
  {
    forall c | PathByte(c) ensures c !in "%\\?#" {}
  }

  // ---------- targets ----------

  /** A parsed base URL: access.Base accepts only https://host followed by an optional conservative path, here as
      url.Parse decodes it. */
  datatype Base = Base(host: string, path: string)

  predicate BaseOk(b: Base) {
    b.host != "" && (forall c | c in b.host :: c !in "/?#@") && (b.path == "" || Path(b.path))
  }

  predicate HostByte(c: char) {
    'a' <= c <= 'z' || c == '.'
  }

  lemma PlainHostIsOk(host: string)
    requires host != "" && forall i | 0 <= i < |host| :: HostByte(host[i])
    ensures BaseOk(Base(host, ""))
  {
    hide Path, EscapeByte;
    forall c | c in host ensures c !in "/?#@" {
      assert HostByte(c);
    }
  }

  predicate QueryByte(c: char) {
    33 as char <= c <= 126 as char && c != '#'
  }

  /** Go's URL printer escapes, of the bytes a conservative path may hold, exactly ! ' ( ) and *. */
  function EscapeByte(c: char): string {
    match c
    case '!' => "%21"
    case '\'' => "%27"
    case '(' => "%28"
    case ')' => "%29"
    case '*' => "%2A"
    case _ => [c]
  }

  function EscapePath(p: string): string {
    if p == "" then "" else EscapeByte(p[0]) + EscapePath(p[1..])
  }

  function JoinPath(base: string, path: string): string {
    TrimSlash(base) + path
  }

  /** The printed URL up to its query. */
  function PrintedPath(base: Base, path: string): string {
    "https://" + base.host + EscapePath(JoinPath(base.path, path))
  }

  function Target(base: Base, path: string, query: string): Option<string> {
    if !BaseOk(base) || !Path(path) then None
    else if exists c | c in query :: !QueryByte(c) then None
    else Some(PrintedPath(base, path) + if query == "" then "" else "?" + query)
  }

  /** url.Parse(u).RawQuery: what follows the first question mark. */
  function RawQuery(u: string): string {
    if u == "" then "" else if u[0] == '?' then u[1..] else RawQuery(u[1..])
  }

  lemma {:induction false} RawQueryAfter(front: string, query: string)
    requires '?' !in front
    ensures RawQuery(front + "?" + query) == query
    ensures RawQuery(front) == ""
  {
    var u := front + "?" + query;
    if front == "" {
      assert u[1..] == query;
    } else {
      assert front == [front[0]] + front[1..];
      RawQueryAfter(front[1..], query);
      assert u[1..] == front[1..] + "?" + query;
    }
  }

  lemma {:induction false} EscapeConcat(a: string, b: string)
    ensures EscapePath(a + b) == EscapePath(a) + EscapePath(b)
  {
    hide EscapeByte;
    if a == "" {
      assert a + b == b;
    } else {
      var first, rest, after := EscapeByte(a[0]), EscapePath(a[1..]), EscapePath(b);
      EscapeConcat(a[1..], b);
      assert (a + b)[0] == a[0] && (a + b)[1..] == a[1..] + b;
      Associative(first, rest, after);
    }
  }

  lemma {:induction false} EscapeHasNoQuestion(p: string)
    requires '?' !in p
    ensures '?' !in EscapePath(p)
  {
    if p != "" {
      assert p == [p[0]] + p[1..];
      EscapeHasNoQuestion(p[1..]);
    }
  }

  /** No escaped byte is a prefix of another. */
  lemma EscapeByteInjective(c: char, x: string, d: char, y: string)
    requires c != '%' && d != '%'
    requires EscapeByte(c) + x == EscapeByte(d) + y
    ensures c == d && x == y
  {
    var u := EscapeByte(c) + x;
    assert u[0] == EscapeByte(c)[0] == EscapeByte(d)[0];
    if u[0] == '%' {
      assert u[2] == EscapeByte(c)[2] == EscapeByte(d)[2];
      assert u[3..] == x && u[3..] == y;
    } else {
      assert u[1..] == x && u[1..] == y;
    }
  }

  /** A path without '%' can be read back from its printed form. */
  lemma {:induction false} EscapeInjective(a: string, b: string)
    requires '%' !in a && '%' !in b
    requires EscapePath(a) == EscapePath(b)
    ensures a == b
  {
    hide EscapeByte;
    if a != "" && b != "" {
      assert a == [a[0]] + a[1..] && b == [b[0]] + b[1..];
      EscapeByteInjective(a[0], EscapePath(a[1..]), b[0], EscapePath(b[1..]));
      EscapeInjective(a[1..], b[1..]);
    } else {
      EscapeNonEmpty(a);
      EscapeNonEmpty(b);
    }
  }

  /** Percent-decoding, section 2.1 of RFC 3986. */
  function Unescape(u: string): string {
    if u == "" then ""
    else if u[0] == '%' && |u| >= 3 && HexValue(u[1]).Some? && HexValue(u[2]).Some? then
      [(HexValue(u[1]).value * 16 + HexValue(u[2]).value) as char] + Unescape(u[3..])
    else [u[0]] + Unescape(u[1..])
  }

  lemma UnescapeByte(c: char, rest: string)
    requires c != '%'
    ensures Unescape(EscapeByte(c) + rest) == [c] + Unescape(rest)
  {
    var u := EscapeByte(c) + rest;
    if |EscapeByte(c)| == 3 {
      assert u[0] == '%' && u[1] == '2' && u[3..] == rest;
    } else {
      assert u[1..] == rest;
    }
  }

  /** The printed form stands for the path and writes none of the bytes Go escapes. */
  lemma {:induction false} UnescapeEscape(p: string)
    requires '%' !in p
    ensures Unescape(EscapePath(p)) == p
    ensures forall c | c in EscapePath(p) :: c !in "!'()*"
  {
    hide Unescape;
    if p == "" {
      UnescapeEmpty();
    } else {
      assert p == [p[0]] + p[1..];
      UnescapeEscape(p[1..]);
      UnescapeByte(p[0], EscapePath(p[1..]));
      EscapedBytes(p[0]);
    }
  }

  lemma UnescapeEmpty()
    ensures Unescape("") == ""
  {
  }

  lemma EscapedBytes(c: char)
    ensures forall d | d in EscapeByte(c) :: d !in "!'()*"
  {
  }

  lemma EscapeNonEmpty(p: string)
    ensures EscapePath(p) == "" <==> p == ""
  {
  }

  lemma JoinedBytes(base: Base, path: string)
    requires BaseOk(base) && Path(path)
    ensures forall c | c in JoinPath(base.path, path) :: c !in "%?#"
  {
    var t := TrimSlash(base.path);
    forall c | c in t + path ensures c !in "%?#" {
      if c !in path {
        assert c in t && c in base.path;
      }
    }
  }

  lemma PrintedPathHasNoQuestion(base: Base, path: string)
    requires BaseOk(base) && Path(path)
    ensures '?' !in PrintedPath(base, path)
  {
    JoinedBytes(base, path);
    EscapeHasNoQuestion(JoinPath(base.path, path));
  }

  /** The query read back from a printed target rebuilds the same target. */
  lemma TargetRoundTrip(base: Base, path: string, query: string)
    requires Target(base, path, query).Some?
    ensures RawQuery(Target(base, path, query).value) == query
  {
    PrintedPathHasNoQuestion(base, path);
    RawQueryAfter(PrintedPath(base, path), query);
    assert PrintedPath(base, path) + "" == PrintedPath(base, path);
    assert PrintedPath(base, path) + ("?" + query) == PrintedPath(base, path) + "?" + query;
  }

  /** When there is a target, and which: the origin, a printed form of the joined path, and the query. */
  lemma TargetExact(base: Base, path: string, query: string)
    ensures Target(base, path, query).Some? <==>
              BaseOk(base) && Path(path) && forall c | c in query :: 33 <= c as int <= 126 && c != '#'
    ensures Target(base, path, query).Some? ==>
              var printed := EscapePath(TrimSlash(base.path) + path);
              Target(base, path, query).value
              == "https://" + base.host + printed + (if query == "" then "" else "?" + query)
              && Unescape(printed) == TrimSlash(base.path) + path
              && forall c | c in printed :: c !in "!'()*"
  {
    hide Path, EscapePath, TrimSlash, Unescape;
    if Target(base, path, query).Some? {
      assert '%' !in TrimSlash(base.path) + path by { JoinedPlain(base, path); }
      UnescapeEscape(TrimSlash(base.path) + path);
    }
  }

  lemma JoinedPlain(base: Base, path: string)
    requires BaseOk(base) && Path(path)
    ensures '%' !in TrimSlash(base.path) + path
  {
    hide Path, TrimSlash;
    JoinedBytes(base, path);
    assert forall c | c in JoinPath(base.path, path) :: c != '%';
  }

  /** For a fixed base, different (path, query) pairs give different targets. */
  lemma TargetInjective(base: Base, path: string, query: string, path': string, query': string)
    requires Target(base, path, query).Some?
    requires Target(base, path, query) == Target(base, path', query')
    ensures path == path' && query == query'
  {
    TargetRoundTrip(base, path, query);
    TargetRoundTrip(base, path', query');
    var tail := if query == "" then "" else "?" + query;
    var u := Target(base, path, query).value;
    var origin := "https://" + base.host;
    var a, b := JoinPath(base.path, path), JoinPath(base.path, path');
    assert u[..|u| - |tail|] == origin + EscapePath(a);
    assert u[..|u| - |tail|] == origin + EscapePath(b);
    assert (origin + EscapePath(a))[|origin|..] == EscapePath(a);
    assert (origin + EscapePath(b))[|origin|..] == EscapePath(b);
    JoinedBytes(base, path);
    JoinedBytes(base, path');
    EscapeInjective(a, b);
    assert a[|TrimSlash(base.path)|..] == path;
    assert b[|TrimSlash(base.path)|..] == path';
  }

  /** A URL strictly under a base: the base as it is printed, a slash, and maybe more. */
  predicate Under(base: Base, u: string) {
    "https://" + base.host + EscapePath(TrimSlash(base.path)) + "/" <= u
  }

  /** Joining keeps the path grammar and stays under the base path. */
  lemma JoinConfined(base: Base, path: string)
    requires BaseOk(base) && Path(path)
    ensures Path(JoinPath(base.path, path))
    ensures TrimSlash(base.path) + "/" <= JoinPath(base.path, path)
  {
    hide EscapePath;
    assert JoinPath(base.path, path) == TrimSlash(base.path) + "/" + path[1..];
    JoinNoDots(base.path, path);
    hide NoDotSegment;
    assert Path(JoinPath(base.path, path));
  }

  lemma EscapeSlash(path: string)
    requires path != "" && path[0] == '/'
    ensures EscapePath(path) == "/" + EscapePath(path[1..])
  {
  }

  /** So does the printed URL. */
  lemma PrintConfined(base: Base, path: string)
    requires path != "" && path[0] == '/'
    ensures Under(base, PrintedPath(base, path))
  {
    hide EscapePath, EscapeByte, TrimSlash;
    var origin, above, below := "https://" + base.host, EscapePath(TrimSlash(base.path)), EscapePath(path[1..]);
    EscapeConcat(TrimSlash(base.path), path);
    EscapeSlash(path);
    Associative(origin, above, "/" + below);
    Associative(origin + above, "/", below);
  }

  /** Every target is strictly under the base it was built on. */
  lemma TargetUnderBase(base: Base, path: string, query: string)
    requires Target(base, path, query).Some?
    ensures BaseOk(base) && Path(path) && Under(base, Target(base, path, query).value)
  {
    hide BaseOk, PrintedPath, NoEmptySegment, NoDotSegment;
    PrintConfined(base, path);
  }

  lemma JoinNoDots(base: string, path: string)
    requires (base == "" || Path(base)) && Path(path)
    ensures NoDotSegment(JoinPath(base, path))
  {
    var t := TrimSlash(base);
    var joined := JoinPath(base, path);
    assert joined == t + "/" + path[1..];
    SplitConcat(t, path[1..], '/');
    assert path == "" + "/" + path[1..];
    SplitConcat("", path[1..], '/');
    if base != "" && t != base {
      assert base == t + "/" + "";
      SplitConcat(t, "", '/');
    }
    hide PathByte, NoEmptySegment;
    forall s | s in Split(joined, '/') ensures s != "." && s != ".." {
      if s in Split(t, '/') {
        assert t == "" ==> Split(t, '/') == [""];
        assert t != "" ==> s in Split(base, '/');
      } else {
        assert s in Split(path, '/');
      }
    }
  }

  // ---------- method names and method lists ----------

  predicate Method(m: string) {
    m != "" && m != "*" && |m| <= 64 && !EqualFold(m, "CONNECT") && !EqualFold(m, "TRACE")
    && forall c | c in m :: TokenByte(c)
  }

  /** A method is a token of at most 64 bytes, but not "*", CONNECT or TRACE in any spelling. */
  lemma MethodExact(m: string)
    ensures Method(m) <==>
              1 <= |m| <= 64 && m != "*" && Lower(m) != "connect" && Lower(m) != "trace"
              && forall c | c in m :: 33 <= c as int <= 126 && c !in "\"(),/:;<=>?@[\\]{}"
  {
    hide TokenByte;
    forall c ensures TokenByte(c) <==> 33 <= c as int <= 126 && c !in "\"(),/:;<=>?@[\\]{}" {
      TokenExact(c);
    }
    assert Lower("CONNECT") == "connect";
    assert Lower("TRACE") == "trace";
  }

  predicate HasMethod(methods: string, verb: string) {
    verb in Split(methods, ',')
  }

  function Commas(raw: string): string {
    seq(|raw|, i requires 0 <= i < |raw| => if raw[i] == ' ' then ',' else raw[i])
  }

  function NonEmpty(parts: seq<string>): seq<string> {
    if parts == [] then []
    else (if parts[0] == "" then [] else [parts[0]]) + NonEmpty(parts[1..])
  }

  /** strings.FieldsFunc on commas and spaces. */
  function Fields(raw: string): seq<string> {
    NonEmpty(Split(Commas(raw), ','))
  }

  /** The stored form of a method list, or None where access.Methods reports an error. */
  function Methods(raw: string): Option<string> {
    var tokens := Fields(raw);
    if tokens == [] || !Distinct(tokens) || exists t | t in tokens :: !Method(t) then None
    else Some(Join(Sort(tokens), ','))
  }

  /** access.Methods as written: one pass with a `seen` set, then sort and join. */
  method ParseMethods(raw: string) returns (r: Option<string>)
    ensures r == Methods(raw)
  {
    var tokens := Fields(raw);
    var seen: set<string> := {};
    var out: seq<string> := [];
    for i := 0 to |tokens|
      invariant out == tokens[..i] && Distinct(out)
      invariant forall t :: t in seen <==> t in out
      invariant forall t | t in out :: Method(t)
    {
      var m := tokens[i];
      if !Method(m) || m in seen {
        if m in seen {
          var j :| 0 <= j < i && tokens[j] == m;
        }
        return None;
      }
      seen := seen + {m};
      out := out + [m];
    }
    assert out == tokens;
    if |out| == 0 {
      return None;
    }
    return Some(Join(Sort(out), ','));
  }

  lemma {:induction false} NonEmptyAll(parts: seq<string>)
    requires "" !in parts
    ensures NonEmpty(parts) == parts
  {
    if parts != [] {
      NonEmptyAll(parts[1..]);
      assert parts == [parts[0]] + parts[1..];
    }
  }

  lemma MethodIsPlain(m: string)
    requires Method(m)
    ensures m != "" && ',' !in m && ' ' !in m
  {
  }

  lemma {:induction false} JoinHasNoSpace(parts: seq<string>)
    requires forall k | 0 <= k < |parts| :: ' ' !in parts[k]
    ensures ' ' !in Join(parts, ',')
  {
    if |parts| > 1 {
      JoinHasNoSpace(parts[1..]);
    }
  }

  /** A stored method list is sorted, has no duplicates, and splits into exactly the tokens given. */
  lemma MethodsCanonical(raw: string)
    requires Methods(raw).Some?
    ensures var list := Split(Methods(raw).value, ',');
            Sorted(list) && Distinct(list)
            && (forall m :: m in list <==> m in Fields(raw))
            && (forall m | m in list :: Method(m))
  {
    var sorted := Sort(Fields(raw));
    SortSorts(Fields(raw));
    assert Fields(raw)[0] in sorted;
    forall k | 0 <= k < |sorted| ensures ',' !in sorted[k] {
      assert sorted[k] in sorted;
      MethodIsPlain(sorted[k]);
    }
    SplitJoin(sorted, ',');
    forall i, j | 0 <= i < j < |sorted| ensures sorted[i] != sorted[j] {
      LessIrreflexive(sorted[i]);
    }
  }

  /** A list is accepted exactly when it has tokens, all valid methods and all different. */
  lemma MethodsAccepted(raw: string)
    ensures Methods(raw).Some? <==>
              Fields(raw) != [] && (forall i, j | 0 <= i < j < |Fields(raw)| :: Fields(raw)[i] != Fields(raw)[j])
              && forall i | 0 <= i < |Fields(raw)| :: Method(Fields(raw)[i])
  {
    hide Method, Fields;
    var tokens := Fields(raw);
    if forall i | 0 <= i < |tokens| :: Method(tokens[i]) {
      forall t | t in tokens ensures Method(t) {
        var i :| 0 <= i < |tokens| && tokens[i] == t;
      }
    } else {
      var i :| 0 <= i < |tokens| && !Method(tokens[i]);
      assert tokens[i] in tokens;
    }
  }

  predicate Separator(c: char) {
    c == ',' || c == ' '
  }

  lemma PlainToken(token: string)
    requires forall d | d in token :: !Separator(d)
    ensures Commas(token) == token && Split(token, ',') == [token]
  {
    forall k | 0 <= k < |token| ensures Commas(token)[k] == token[k] {
      assert token[k] in token;
    }
    assert ',' !in token by { assert Separator(','); }
    SplitNoSeparator(token, ',');
  }

  lemma NonEmptyCons(token: string, after: seq<string>)
    ensures NonEmpty([token] + after) == (if token == "" then [] else [token]) + NonEmpty(after)
  {
    assert ([token] + after)[0] == token && ([token] + after)[1..] == after;
  }

  /** The tokens are cut at commas and spaces: a token is read whole, and a separator is skipped. */
  lemma FieldsExact(token: string, c: char, rest: string)
    requires Separator(c) && forall d | d in token :: !Separator(d)
    ensures Fields(token + [c] + rest) == (if token == "" then [] else [token]) + Fields(rest)
    ensures Fields(token) == if token == "" then [] else [token]
  {
    hide NonEmpty, Split;
    PlainToken(token);
    assert Commas(token + [c] + rest) == token + [','] + Commas(rest);
    SplitConcat(token, Commas(rest), ',');
    NonEmptyCons(token, Split(Commas(rest), ','));
    NonEmptyCons(token, []);
    assert [token] + [] == [token];
    NonEmptyNone();
  }

  lemma NonEmptyNone()
    ensures NonEmpty([]) == []
  {
  }

  /** Normalising a stored list again changes nothing. */
  lemma MethodsIdempotent(raw: string)
    requires Methods(raw).Some?
    ensures Methods(Methods(raw).value) == Methods(raw)
  {
    var text := Methods(raw).value;
    MethodsCanonical(raw);
    var list := Split(text, ',');
    JoinSplit(text, ',');
    forall k | 0 <= k < |list| ensures ' ' !in list[k] && list[k] != "" {
      MethodIsPlain(list[k]);
    }
    JoinHasNoSpace(list);
    assert Commas(text) == text;
    NonEmptyAll(list);
    SortSorts(list);
    SortedUnique(Sort(list), list);
  }

  /** The order and separators of the input do not matter. */
  lemma MethodsOrderFree(raw: string, raw': string)
    requires multiset(Fields(raw)) == multiset(Fields(raw'))
    ensures Methods(raw) == Methods(raw')
  {
    var a, b := Fields(raw), Fields(raw');
    SameElements(a, b);
    assert |a| == |multiset(a)| && |b| == |multiset(b)|;
    DistinctCounts(a);
    DistinctCounts(b);
    if Methods(raw).Some? || Methods(raw').Some? {
      SortSorts(a);
      SortSorts(b);
      SortedUnique(Sort(a), Sort(b));
    }
  }

  lemma SameElements(a: seq<string>, b: seq<string>)
    requires multiset(a) == multiset(b)
    ensures forall x :: x in a <==> x in b
  {
    forall x ensures x in a <==> x in b {
      assert x in a <==> x in multiset(a);
      assert x in b <==> x in multiset(b);
    }
  }

  lemma {:induction false} DistinctCounts(s: seq<string>)
    ensures Distinct(s) <==> forall x :: multiset(s)[x] <= 1
  {
    if s != [] {
      var rest := s[1..];
      assert s == [s[0]] + rest;
      DistinctCounts(rest);
      assert multiset(s) == multiset{s[0]} + multiset(rest);
      assert s[0] in rest <==> multiset(rest)[s[0]] >= 1;
      if Distinct(s) {
        assert s[0] !in rest;
        assert Distinct(rest);
      } else if Distinct(rest) {
        assert s[0] in rest;
        assert multiset(s)[s[0]] >= 2;
      } else {
        var x :| multiset(rest)[x] > 1;
        assert multiset(s)[x] > 1;
      }
    }
  }

  // ---------- rules ----------

  datatype PathKind = Exact | Subtree
  datatype Mode = Standing | ApprovalRequired

  /** The part of a permission that says which requests it covers. */
  datatype Rule = Rule(methods: string, path: string, kind: PathKind)

  predicate CoversPath(p: Rule, path: string) {
    path == p.path || (p.kind == Subtree && TrimSlash(p.path) + "/" <= path)
  }

  predicate Match(p: Rule, verb: string, path: string) {
    HasMethod(p.methods, verb) && CoversPath(p, path)
  }

  /** What a rule matches, without reference to prefixes of strings: one of its methods, and its own path; a subtree
      rule also every path that continues the segments of its path. */
  lemma MatchExact(p: Rule, verb: string, path: string)
    ensures Match(p, verb, path) <==>
              verb in Split(p.methods, ',')
              && (path == p.path
                  || (p.kind == Subtree && Split(TrimSlash(p.path), '/') < Split(path, '/')))
  {
    PrefixIsPartPrefix(TrimSlash(p.path), path, '/');
  }

  predicate Overlap(a: Rule, b: Rule) {
    exists m | m in Split(a.methods, ',') ::
      HasMethod(b.methods, m) && (Match(a, m, b.path) || Match(b, m, a.path))
  }

  lemma TrimValid(p: string)
    requires Path(p)
    ensures TrimSlash(p) == p || TrimSlash(p) + "/" == p
    ensures TrimSlash(TrimSlash(p)) == TrimSlash(p)
  {
    if |p| >= 2 {
      assert p[|p| - 2] == '/' ==> p[|p| - 2 + 1] != '/';
    }
    assert TrimSlash(p) != p ==> TrimSlash(p) + "/" == p;
  }

  /** If two rules cover one path, one of them covers the path the other is written with. */
  lemma CommonPath(a: Rule, b: Rule, x: string)
    requires Path(a.path) && Path(b.path)
    requires CoversPath(a, x) && CoversPath(b, x)
    ensures CoversPath(a, b.path) || CoversPath(b, a.path)
  {
    if x != a.path && x != b.path {
      var ta, tb := TrimSlash(a.path), TrimSlash(b.path);
      TrimValid(a.path);
      TrimValid(b.path);
      if |ta| <= |tb| {
        NestedPrefix(ta, tb, x);
      } else {
        NestedPrefix(tb, ta, x);
      }
    }
  }

  lemma NestedPrefix(s: string, t: string, x: string)
    requires |s| <= |t| && s + "/" <= x && t + "/" <= x
    ensures s == t || s + "/" <= t
    ensures s + "/" <= t + "/"
  {
    assert s + "/" == x[..|s| + 1] && t + "/" == x[..|t| + 1];
    assert s == x[..|s|] && t == x[..|t|];
  }

  lemma BothMatch(a: Rule, b: Rule, verb: string, path: string)
    requires Path(a.path) && Path(b.path) && Match(a, verb, path) && Match(b, verb, path)
    ensures Overlap(a, b)
  {
    CommonPath(a, b, path);
    assert verb in Split(a.methods, ',');
  }

  /** Overlap is exact: it holds if and only if some request is matched by both rules. */
  lemma OverlapExact(a: Rule, b: Rule)
    requires Path(a.path) && Path(b.path)
    ensures Overlap(a, b) <==> exists m, x :: Path(x) && Match(a, m, x) && Match(b, m, x)
  {
    if Overlap(a, b) {
      var m :| m in Split(a.methods, ',') && HasMethod(b.methods, m)
               && (Match(a, m, b.path) || Match(b, m, a.path));
      if Match(a, m, b.path) {
        assert Path(b.path) && Match(a, m, b.path) && Match(b, m, b.path);
      } else {
        assert Path(a.path) && Match(a, m, a.path) && Match(b, m, a.path);
      }
    }
    if m, x :| Path(x) && Match(a, m, x) && Match(b, m, x) {
      BothMatch(a, b, m, x);
    }
  }

  lemma OverlapSymmetric(a: Rule, b: Rule)
    ensures Overlap(a, b) == Overlap(b, a)
  {
  }

  /** Subtree matching by string prefix is matching by segments: the rule itself, or a path with more segments
      that begins with the segments of the rule without its trailing slash. */
  lemma SubtreeIsSegmentPrefix(p: Rule, path: string)
    requires p.kind == Subtree
    ensures CoversPath(p, path) <==> path == p.path || Split(TrimSlash(p.path), '/') < Split(path, '/')
    ensures TrimSlash(p.path) == p.path ==> (CoversPath(p, path) <==> Split(p.path, '/') <= Split(path, '/'))
  {
    PrefixIsPartPrefix(TrimSlash(p.path), path, '/');
    JoinSplit(p.path, '/');
    JoinSplit(path, '/');
    var rule, given := Split(p.path, '/'), Split(path, '/');
    assert rule <= given && |rule| == |given| ==> rule == given;
  }
}
