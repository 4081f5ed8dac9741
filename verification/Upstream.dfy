/** internal/upstream/http.go: header names and values, and what a failed send is reported as. */
module Upstream {
  import opened Prelude
  import opened Strings
  import opened Access

  const RESERVED_NAMES: set<string> := {
    "authorization", "proxy-authorization", "cookie", "set-cookie", "www-authenticate", "proxy-authenticate",
    "host", "connection", "keep-alive", "proxy-connection", "te", "trailer", "transfer-encoding", "upgrade",
    "content-length", "forwarded", "via", "x-real-ip", "x-http-method-override", "x-http-method",
    "x-method-override"
  }

  const RESERVED_PREFIXES: set<string> := {
    "x-forwarded-", "x-budge-", "budge-", "sec-", "x-auth-", "x-remote-", "x-ssl-", "x-client-cert"
  }

  predicate Reserved(name: string) {
    var n := Lower(name);
    n in RESERVED_NAMES || exists p | p in RESERVED_PREFIXES :: p <= n
  }

  /** The names no device and no allow-list may use, by what they are for, and the prefixes. */
  lemma ReservedExact(name: string)
    ensures Reserved(name) <==>
              var n := Lower(name);
              n in ["authorization", "cookie", "proxy-authenticate", "proxy-authorization", "set-cookie",
                    "www-authenticate"]
              || n in ["connection", "content-length", "host", "keep-alive", "proxy-connection", "te", "trailer",
                       "transfer-encoding", "upgrade"]
              || n in ["forwarded", "via", "x-http-method", "x-http-method-override", "x-method-override", "x-real-ip"]
              || "budge-" <= n || "sec-" <= n || "x-auth-" <= n || "x-budge-" <= n || "x-client-cert" <= n
              || "x-forwarded-" <= n || "x-remote-" <= n || "x-ssl-" <= n
  {
    hide Lower;
    var n := Lower(name);
    assert (exists p | p in RESERVED_PREFIXES :: p <= n) <==>
        "budge-" <= n || "sec-" <= n || "x-auth-" <= n || "x-budge-" <= n || "x-client-cert" <= n
        || "x-forwarded-" <= n || "x-remote-" <= n || "x-ssl-" <= n;
  }

  predicate HeaderName(n: string) {
    n != "" && forall c | c in n :: TokenByte(c)
  }

  predicate HeaderValue(s: string) {
    forall c | c in s :: c != 127 as char && (c >= 32 as char || c == '\t')
  }

  /** A header name is a token of section 5.6.2 of RFC 9110; a value has no control byte but the tab. */
  lemma HeaderExact(n: string, v: string)
    ensures HeaderName(n) <==>
              |n| >= 1 && forall c | c in n :: 33 <= c as int <= 126 && c !in "\"(),/:;<=>?@[\\]{}"
    ensures HeaderValue(v) <==> forall c | c in v :: c as int == 9 || (32 <= c as int && c as int != 127)
  {
    hide TokenByte;
    forall c ensures TokenByte(c) <==> 33 <= c as int <= 126 && c !in "\"(),/:;<=>?@[\\]{}" {
      TokenExact(c);
    }
  }

  function UpperByte(c: char): char {
    if 'a' <= c <= 'z' then c - 32 as char else c
  }

  /** The canonicalising loop of net/http: upper case at the start and after each hyphen, lower case elsewhere. */
  function Recase(n: string, upper: bool): string {
    if n == "" then ""
    else [if upper then UpperByte(n[0]) else LowerByte(n[0])] + Recase(n[1..], n[0] == '-')
  }

  /** http.CanonicalHeaderKey: names with a byte outside the token alphabet are returned unchanged. */
  function Canonical(n: string): string {
    if HeaderName(n) then Recase(n, true) else n
  }

  lemma LowerCons(c: char, s: string)
    ensures Lower([c] + s) == [LowerByte(c)] + Lower(s)
  {
  }

  lemma {:induction false} RecaseFold(n: string, upper: bool)
    ensures Lower(Recase(n, upper)) == Lower(n)
  {
    if n != "" {
      assert n == [n[0]] + n[1..];
      RecaseFold(n[1..], n[0] == '-');
      LowerCons(n[0], n[1..]);
      LowerCons(if upper then UpperByte(n[0]) else LowerByte(n[0]), Recase(n[1..], n[0] == '-'));
    }
  }

  lemma {:induction false} RecaseTokens(n: string, upper: bool)
    requires forall c | c in n :: TokenByte(c)
    ensures forall c | c in Recase(n, upper) :: TokenByte(c)
  {
    if n != "" {
      assert n == [n[0]] + n[1..];
      RecaseTokens(n[1..], n[0] == '-');
    }
  }

  lemma {:induction false} RecaseTwice(n: string, upper: bool)
    ensures Recase(Recase(n, upper), upper) == Recase(n, upper)
  {
    if n != "" {
      RecaseTwice(n[1..], n[0] == '-');
      assert Recase(n, upper)[1..] == Recase(n[1..], n[0] == '-');
    }
  }

  lemma {:induction false} FoldRecase(a: string, b: string, upper: bool)
    requires Lower(a) == Lower(b)
    ensures Recase(a, upper) == Recase(b, upper)
  {
    assert |a| == |Lower(a)| && |b| == |Lower(b)|;
    if a != "" {
      assert Lower(a)[0] == LowerByte(a[0]) && Lower(b)[0] == LowerByte(b[0]);
      assert Lower(a)[1..] == Lower(a[1..]) && Lower(b)[1..] == Lower(b[1..]);
      FoldRecase(a[1..], b[1..], a[0] == '-');
    }
  }

  lemma {:induction false} RecaseAt(n: string, upper: bool, i: nat)
    requires i < |n|
    ensures |Recase(n, upper)| == |n|
    ensures Recase(n, upper)[i]
            == if (if i == 0 then upper else n[i - 1] == '-') then UpperByte(n[i]) else LowerByte(n[i])
  {
    if n[1..] == "" {
      assert i == 0;
    } else if i > 0 {
      RecaseAt(n[1..], n[0] == '-', i - 1);
    } else {
      RecaseAt(n[1..], n[0] == '-', 0);
    }
  }

  /** The canonical form of a valid name, byte by byte: upper case at the start and after a hyphen, lower case
      elsewhere. */
  lemma CanonicalAt(n: string, i: nat)
    requires HeaderName(n) && i < |n|
    ensures |Canonical(n)| == |n|
    ensures var c, c' := n[i], Canonical(n)[i];
            if i == 0 || n[i - 1] == '-' then c' == if 'a' <= c <= 'z' then c - 32 as char else c
            else c' == if 'A' <= c <= 'Z' then c + 32 as char else c
  {
    hide Recase;
    RecaseAt(n, true, i);
  }

  /** Canonicalising is idempotent, keeps the length, and keeps every verdict about the name. */
  lemma CanonicalKeeps(n: string)
    requires HeaderName(n)
    ensures HeaderName(Canonical(n)) && Canonical(Canonical(n)) == Canonical(n)
    ensures Reserved(Canonical(n)) == Reserved(n)
    ensures |Canonical(n)| == |n|
  {
    RecaseFold(n, true);
    RecaseTokens(n, true);
    RecaseTwice(n, true);
    assert |Lower(n)| == |n| && |Lower(Recase(n, true))| == |Recase(n, true)|;
  }

  /** Two valid names have one canonical form exactly when they differ at most in letter case. */
  lemma CanonicalIsFold(a: string, b: string)
    requires HeaderName(a) && HeaderName(b)
    ensures Canonical(a) == Canonical(b) <==> EqualFold(a, b)
  {
    RecaseFold(a, true);
    RecaseFold(b, true);
    if EqualFold(a, b) {
      FoldRecase(a, b, true);
    }
  }

  // ---------- headerList of internal/server/owner.go ----------

  predicate ByteIn(c: char, lo: int, hi: int) {
    lo <= c as int <= hi
  }

  /** The length of the white space a byte string begins with, 0 if there is none: the ASCII spaces, U+0085 and U+00A0,
      and U+1680, U+2000 to U+200A, U+2028, U+2029, U+202F, U+205F and U+3000 in UTF-8. */
  function LeadingSpace(s: string): (n: nat)
    ensures n <= |s|
  {
    if s == "" then 0
    else if s[0] == ' ' || '\t' <= s[0] <= '\r' then 1
    else if |s| >= 2 && ByteIn(s[0], 0xC2, 0xC2) && (ByteIn(s[1], 0x85, 0x85) || ByteIn(s[1], 0xA0, 0xA0)) then 2
    else if |s| >= 3 && WideSpace(s[0], s[1], s[2]) then 3
    else 0
  }

  predicate WideSpace(a: char, b: char, c: char) {
    (ByteIn(a, 0xE1, 0xE1) && ByteIn(b, 0x9A, 0x9A) && ByteIn(c, 0x80, 0x80))
    || (ByteIn(a, 0xE2, 0xE2) && ByteIn(b, 0x80, 0x80)
        && (ByteIn(c, 0x80, 0x8A) || ByteIn(c, 0xA8, 0xA9) || ByteIn(c, 0xAF, 0xAF)))
    || (ByteIn(a, 0xE2, 0xE2) && ByteIn(b, 0x81, 0x81) && ByteIn(c, 0x9F, 0x9F))
    || (ByteIn(a, 0xE3, 0xE3) && ByteIn(b, 0x80, 0x80) && ByteIn(c, 0x80, 0x80))
  }

  /** The length of the white space a byte string ends with, 0 if there is none. */
  function TrailingSpace(s: string): (n: nat)
    ensures n <= |s|
  {
    if |s| >= 1 && LeadingSpace(s[|s| - 1..]) == 1 then 1
    else if |s| >= 2 && LeadingSpace(s[|s| - 2..]) == 2 then 2
    else if |s| >= 3 && LeadingSpace(s[|s| - 3..]) == 3 then 3
    else 0
  }

  /** strings.TrimSpace. */
  function TrimSpace(s: string): string
    decreases |s|
  {
    if LeadingSpace(s) > 0 then TrimSpace(s[LeadingSpace(s)..])
    else if TrailingSpace(s) > 0 then TrimSpace(s[..|s| - TrailingSpace(s)])
    else s
  }

  /** A string of white space. */
  predicate AllSpace(s: string)
    decreases |s|
  {
    s == "" || (LeadingSpace(s) > 0 && AllSpace(s[LeadingSpace(s)..]))
  }

  lemma {:induction false} SpaceConcat(a: string, b: string)
    requires AllSpace(a) && AllSpace(b)
    ensures AllSpace(a + b)
    decreases |a|
  {
    if a == "" {
      assert a + b == b;
    } else {
      var n := LeadingSpace(a);
      assert LeadingSpace(a + b) == n;
      assert (a + b)[n..] == a[n..] + b;
      SpaceConcat(a[n..], b);
    }
  }

  lemma TrailingIsSpace(s: string)
    requires TrailingSpace(s) > 0
    ensures AllSpace(s[|s| - TrailingSpace(s)..])
  {
    var tail := s[|s| - TrailingSpace(s)..];
    assert LeadingSpace(tail) == |tail| && tail[|tail|..] == "";
  }

  /** Trimming removes white space at the two ends and nothing else, and all of it. */
  lemma {:induction false} TrimExact(s: string) returns (before: string, after: string)
    ensures s == before + TrimSpace(s) + after && AllSpace(before) && AllSpace(after)
    ensures LeadingSpace(TrimSpace(s)) == 0 && TrailingSpace(TrimSpace(s)) == 0
    decreases |s|
  {
    hide LeadingSpace, TrailingSpace, AllSpace;
    if LeadingSpace(s) > 0 {
      var head, rest := s[..LeadingSpace(s)], s[LeadingSpace(s)..];
      before, after := TrimExact(rest);
      HeadIsSpace(s);
      SpaceConcat(head, before);
      before := head + before;
      assert s == head + rest;
    } else if TrailingSpace(s) > 0 {
      var cut := |s| - TrailingSpace(s);
      before, after := TrimExact(s[..cut]);
      TrailingIsSpace(s);
      SpaceConcat(after, s[cut..]);
      after := after + s[cut..];
      assert s == s[..cut] + s[cut..];
    } else {
      before, after := "", "";
      NoSpace();
    }
  }

  lemma HeadIsSpace(s: string)
    requires LeadingSpace(s) > 0
    ensures AllSpace(s[..LeadingSpace(s)])
  {
    var head := s[..LeadingSpace(s)];
    assert LeadingSpace(head) == |head| && head[|head|..] == "";
  }

  lemma NoSpace()
    ensures AllSpace("")
  {
  }

  /** A header allow-list as the owner may save it: every name valid, canonical, unreserved, not the credential. */
  predicate AllowList(names: seq<string>, credential: string) {
    Distinct(names)
    && forall n | n in names :: HeaderName(n) && Canonical(n) == n && !Reserved(n) && !EqualFold(n, credential)
  }

  function Names(raw: string, defaults: seq<string>): seq<string> {
    if raw == "" then defaults else Split(raw, ',')
  }

  /** The form in which a name of the list is saved. */
  function Cleaned(name: string): string {
    Canonical(TrimSpace(name))
  }

  predicate Savable(name: string, credential: string) {
    var n := Cleaned(name);
    HeaderName(n) && !Reserved(n) && !EqualFold(n, credential)
  }

  /** The names in the order of their first mention, added to those already in `out`; None if one is not allowed. */
  function Listing(names: seq<string>, credential: string, out: seq<string>): Option<seq<string>> {
    if names == [] then Some(out)
    else if !Savable(names[0], credential) then None
    else
      var n := Cleaned(names[0]);
      Listing(names[1..], credential, if n in out then out else out + [n])
  }

  /** server.headerList: the saved list, or None where it reports an error. */
  function HeaderNames(raw: string, defaults: seq<string>, credential: string): Option<seq<string>> {
    Listing(Names(raw, defaults), credential, [])
  }

  lemma CleanedIsCanonical(name: string)
    requires HeaderName(Cleaned(name))
    ensures Canonical(Cleaned(name)) == Cleaned(name)
  {
    if HeaderName(TrimSpace(name)) { CanonicalKeeps(TrimSpace(name)); }
  }

  /** Whatever is saved is an allow-list. */
  lemma {:induction false} ListingAllowed(names: seq<string>, credential: string, out: seq<string>)
    requires AllowList(out, credential) && Listing(names, credential, out).Some?
    ensures AllowList(Listing(names, credential, out).value, credential)
    decreases |names|
  {
    hide Cleaned, Reserved, HeaderName, EqualFold;
    if names != [] {
      var n := Cleaned(names[0]);
      CleanedIsCanonical(names[0]);
      ListingAllowed(names[1..], credential, if n in out then out else out + [n]);
    }
  }

  /** headerList as written. It refuses exactly when some name is not allowed, and otherwise saves an allow-list
      of exactly the names given. */
  method HeaderList(raw: string, defaults: seq<string>, credential: string) returns (r: Option<seq<string>>)
    ensures r == HeaderNames(raw, defaults, credential)
    ensures r.Some? <==> forall n | n in Names(raw, defaults) :: Savable(n, credential)
    ensures r.Some? ==> AllowList(r.value, credential)
    ensures r.Some? ==> forall n | n in Names(raw, defaults) :: Cleaned(n) in r.value
    ensures r.Some? ==> forall m | m in r.value :: exists n :: n in Names(raw, defaults) && m == Cleaned(n)
  {
    hide Cleaned, Reserved, HeaderName, EqualFold, Names;
    var names := Names(raw, defaults);
    var out: seq<string> := [];
    var seen: set<string> := {};
    for i := 0 to |names|
      invariant Listing(names, credential, []) == Listing(names[i..], credential, out)
      invariant AllowList(out, credential)
      invariant forall n :: n in seen <==> n in out
      invariant forall k | 0 <= k < i :: Savable(names[k], credential) && Cleaned(names[k]) in out
      invariant forall m | m in out :: exists n :: n in names && m == Cleaned(n)
    {
      var n := Cleaned(names[i]);
      if !HeaderName(n) || Reserved(n) || EqualFold(n, credential) {
        assert !Savable(names[i], credential);
        return None;
      }
      if n !in seen {
        CleanedIsCanonical(names[i]);
        out := out + [n];
        seen := seen + {n};
      }
    }
    return Some(out);
  }

  // ---------- Headers, through which Send passes what it was given ----------

  type HeaderMap = map<string, seq<string>>

  /** http.Header.Values. */
  function Values(h: HeaderMap, name: string): seq<string> {
    if Canonical(name) in h then h[Canonical(name)] else []
  }

  /** The names a Connection header declares to be for one hop only. */
  function HopNames(lines: seq<string>): set<string> {
    if lines == [] then {}
    else HopNames(lines[..|lines| - 1]) + set part | part in Split(lines[|lines| - 1], ',') :: Cleaned(part)
  }

  function Passing(values: seq<string>): seq<string> {
    if values == [] then []
    else Passing(values[..|values| - 1])
         + if HeaderValue(values[|values| - 1]) then [values[|values| - 1]] else []
  }

  function Added(out: HeaderMap, n: string, values: seq<string>): HeaderMap {
    if values == [] then out else out[n := (if n in out then out[n] else []) + values]
  }

  /** The values that pass for a name of the list. */
  function Passed(h: HeaderMap, name: string, credential: string): seq<string> {
    var n := Canonical(name);
    if !HeaderName(n) || Reserved(n) || EqualFold(n, credential) || n in HopNames(Values(h, "Connection")) then []
    else Passing(Values(h, n))
  }

  /** upstream.Headers for the names still to come, added to what has passed. */
  function Filtered(h: HeaderMap, allowed: seq<string>, credential: string, out: HeaderMap): HeaderMap {
    if allowed == [] then out
    else
      var passed := Added(out, Canonical(allowed[0]), Passed(h, allowed[0], credential));
      Filtered(h, allowed[1..], credential, passed)
  }

  lemma AddedTwice(out: HeaderMap, n: string, values: seq<string>, v: string)
    ensures Added(Added(out, n, values), n, [v]) == Added(out, n, values + [v])
  {
    if values == [] {
      assert values + [v] == [v];
    } else {
      Associative(if n in out then out[n] else [], values, [v]);
    }
  }

  lemma PassingOne(values: seq<string>, v: string)
    ensures Passing(values + [v]) == if HeaderValue(v) then Passing(values) + [v] else Passing(values)
  {
    assert (values + [v])[..|values|] == values;
  }

  /** The names of the Connection lines, part by part. */
  method CollectHopNames(lines: seq<string>) returns (names: set<string>)
    ensures names == HopNames(lines)
  {
    hide Cleaned;
    names := {};
    for i := 0 to |lines|
      invariant names == HopNames(lines[..i])
    {
      var parts := Split(lines[i], ',');
      ghost var before := names;
      for j := 0 to |parts|
        invariant names == before + set part | part in parts[..j] :: Cleaned(part)
      {
        assert parts[..j + 1] == parts[..j] + [parts[j]];
        names := names + {Cleaned(parts[j])};
      }
      assert parts[..|parts|] == parts;
      assert lines[..i + 1][..i] == lines[..i];
    }
    assert lines[..|lines|] == lines;
  }

  /** The inner loop of upstream.Headers: the valid values are added under their name. */
  method AddValues(before: HeaderMap, n: string, values: seq<string>) returns (out: HeaderMap)
    ensures out == Added(before, n, Passing(values))
  {
    hide HeaderValue;
    out := before;
    for j := 0 to |values|
      invariant out == Added(before, n, Passing(values[..j]))
    {
      PassingOne(values[..j], values[j]);
      assert values[..j + 1] == values[..j] + [values[j]];
      if HeaderValue(values[j]) {
        AddedTwice(before, n, Passing(values[..j]), values[j]);
        out := Added(out, n, [values[j]]);
      }
    }
    assert values[..|values|] == values;
  }

  /** upstream.Headers as written. */
  method FilterHeaders(h: HeaderMap, allowed: seq<string>, credential: string) returns (out: HeaderMap)
    ensures out == Filtered(h, allowed, credential, map[])
  {
    hide Canonical, Reserved, HeaderName, EqualFold, HeaderValue, HopNames, Values, Passing;
    out := map[];
    var connection := CollectHopNames(Values(h, "Connection"));
    for i := 0 to |allowed|
      invariant Filtered(h, allowed, credential, map[]) == Filtered(h, allowed[i..], credential, out)
    {
      var n := Canonical(allowed[i]);
      if HeaderName(n) && !Reserved(n) && !EqualFold(n, credential) && n !in connection {
        out := AddValues(out, n, Values(h, n));
      }
    }
  }

  lemma HopNamesStep(init: seq<string>, last: string, n: string)
    ensures n in HopNames(init + [last]) <==>
              n in HopNames(init) || exists part :: part in Split(last, ',') && Cleaned(part) == n
  {
    hide Cleaned, Split;
    assert (init + [last])[..|init|] == init;
  }

  predicate NamedIn(line: string, n: string) {
    exists part :: part in Split(line, ',') && Canonical(TrimSpace(part)) == n
  }

  /** A header is for one hop if some Connection line names it. */
  predicate OneHop(h: HeaderMap, n: string) {
    exists i :: 0 <= i < |Values(h, "Connection")| && NamedIn(Values(h, "Connection")[i], n)
  }

  lemma {:induction false} HopNamesExact(lines: seq<string>, n: string)
    ensures n in HopNames(lines) <==> exists i :: 0 <= i < |lines| && NamedIn(lines[i], n)
    decreases |lines|
  {
    hide Split, Canonical, TrimSpace, HopNames;
    if lines == [] {
      assert HopNames([]) == {} by { NoHopNames(); }
    } else {
      var k := |lines| - 1;
      HopNamesExact(lines[..k], n);
      HopNamesStep(lines[..k], lines[k], n);
      assert lines == lines[..k] + [lines[k]];
      assert (exists part :: part in Split(lines[k], ',') && Cleaned(part) == n) <==> NamedIn(lines[k], n);
    }
  }

  lemma NoHopNames()
    ensures HopNames([]) == {}
  {
  }

  /** The valid values of a header pass, as often as they occur. */
  lemma {:induction false} PassingExact(values: seq<string>, v: string)
    ensures multiset(Passing(values))[v] == if HeaderValue(v) then multiset(values)[v] else 0
    decreases |values|
  {
    hide HeaderValue;
    if values != [] {
      var init, last := values[..|values| - 1], values[|values| - 1];
      PassingExact(init, v);
      assert values == init + [last];
    }
  }

  lemma {:induction false} FilteredAt(h: HeaderMap, allowed: seq<string>, credential: string, out: HeaderMap, n: string)
    requires forall i, j | 0 <= i < j < |allowed| :: Canonical(allowed[i]) != Canonical(allowed[j])
    requires n in out ==> forall i | 0 <= i < |allowed| :: Canonical(allowed[i]) != n
    ensures var r := Filtered(h, allowed, credential, out);
            n in r <==> n in out || exists i :: 0 <= i < |allowed| && Canonical(allowed[i]) == n
                                                && Passed(h, allowed[i], credential) != []
    ensures n in out ==>
              n in Filtered(h, allowed, credential, out) && Filtered(h, allowed, credential, out)[n] == out[n]
    ensures forall i | 0 <= i < |allowed| && Canonical(allowed[i]) == n && Passed(h, allowed[i], credential) != [] ::
              n in Filtered(h, allowed, credential, out)
              && Filtered(h, allowed, credential, out)[n] == Passed(h, allowed[i], credential)
    decreases |allowed|
  {
    hide Canonical, Passed;
    if allowed != [] {
      var rest := allowed[1..];
      var first := Passed(h, allowed[0], credential);
      var more := Added(out, Canonical(allowed[0]), first);
      assert forall i | 0 <= i < |rest| :: rest[i] == allowed[i + 1];
      if Canonical(allowed[0]) == n && first != [] { assert [] + first == first; }
      FilteredAt(h, rest, credential, more, n);
    }
  }

  /** What passes: of each listed name that is valid, not reserved, not the credential header and not for one hop, the
      valid values, if there are any. */
  lemma FilteredExact(h: HeaderMap, allowed: seq<string>, credential: string, n: string)
    requires forall i, j | 0 <= i < j < |allowed| :: Canonical(allowed[i]) != Canonical(allowed[j])
    ensures var r := Filtered(h, allowed, credential, map[]);
            n in r <==>
              (exists i :: 0 <= i < |allowed| && Canonical(allowed[i]) == n)
              && HeaderName(n) && !Reserved(n) && !EqualFold(n, credential) && !OneHop(h, n)
              && Passing(Values(h, n)) != []
    ensures n in Filtered(h, allowed, credential, map[]) ==>
              Filtered(h, allowed, credential, map[])[n] == Passing(Values(h, n))
  {
    hide Canonical, HeaderName, Reserved, EqualFold, HopNames, Passing, Values, Filtered, TrimSpace, Split;
    FilteredAt(h, allowed, credential, map[], n);
    forall i | 0 <= i < |allowed| && Canonical(allowed[i]) == n
      ensures Passed(h, allowed[i], credential)
              == if HeaderName(n) && !Reserved(n) && !EqualFold(n, credential) && !OneHop(h, n)
                 then Passing(Values(h, n)) else []
    {
      PassedIs(h, allowed[i], credential);
    }
    hide Passed, OneHop;
  }

  lemma PassedIs(h: HeaderMap, name: string, credential: string)
    ensures var n := Canonical(name);
            Passed(h, name, credential)
            == if HeaderName(n) && !Reserved(n) && !EqualFold(n, credential) && !OneHop(h, n)
               then Passing(Values(h, n)) else []
  {
    hide Canonical, HeaderName, Reserved, EqualFold, HopNames, Passing, Values, NamedIn;
    HopNamesExact(Values(h, "Connection"), Canonical(name));
  }

  /** Headers that a service with this list and credential header admits: one valid value for each of some names of
      the list. */
  predicate HeadersFit(h: HeaderMap, allowed: seq<string>, credential: string) {
    AllowList(allowed, credential)
    && forall n | n in h :: n in allowed && |h[n]| == 1 && HeaderValue(h[n][0])
  }

  lemma ConnectionIsReserved()
    ensures HeaderName("Connection") && Reserved("Connection")
  {
    assert Lower("Connection") == "connection";
  }

  lemma NoHops(h: HeaderMap, allowed: seq<string>, credential: string)
    requires HeadersFit(h, allowed, credential)
    ensures Values(h, "Connection") == []
  {
    hide Reserved, HeaderName, Canonical, HeaderValue;
    ConnectionIsReserved();
    CanonicalKeeps("Connection");
  }

  lemma OnePasses(h: HeaderMap, allowed: seq<string>, credential: string, n: string)
    requires HeadersFit(h, allowed, credential) && n in allowed
    ensures Canonical(n) == n && Passed(h, n, credential) == if n in h then h[n] else []
  {
    hide Reserved, HeaderName, EqualFold, HeaderValue, Canonical;
    NoHops(h, allowed, credential);
    if n in h {
      PassingOne([], h[n][0]);
      assert h[n] == [] + [h[n][0]];
    }
  }

  function Restricted(h: HeaderMap, names: seq<string>): HeaderMap {
    map n | n in h && n in names :: h[n]
  }

  lemma {:induction false} FilterKeepsRest(h: HeaderMap, allowed: seq<string>, credential: string, i: nat)
    requires HeadersFit(h, allowed, credential) && i <= |allowed|
    ensures Filtered(h, allowed[i..], credential, Restricted(h, allowed[..i])) == h
    decreases |allowed| - i
  {
    hide Passed, Canonical, AllowList;
    if i == |allowed| {
      assert Restricted(h, allowed[..i]) == h by { assert allowed[..i] == allowed; }
    } else {
      var n := allowed[i];
      OnePasses(h, allowed, credential, n);
      FilterKeepsRest(h, allowed, credential, i + 1);
      NewName(allowed, credential, i);
      assert allowed[..i + 1] == allowed[..i] + [n];
      RestrictedOne(h, allowed[..i], n);
      assert allowed[i..][1..] == allowed[i + 1..];
    }
  }

  lemma RestrictedOne(h: HeaderMap, names: seq<string>, n: string)
    requires n !in names && (n in h ==> h[n] != [])
    ensures Restricted(h, names + [n]) == Added(Restricted(h, names), n, if n in h then h[n] else [])
  {
    if n in h {
      assert [] + h[n] == h[n];
      assert Restricted(h, names + [n]) == Restricted(h, names)[n := h[n]];
    } else {
      assert Restricted(h, names + [n]) == Restricted(h, names);
    }
  }

  lemma NewName(allowed: seq<string>, credential: string, i: nat)
    requires AllowList(allowed, credential) && i < |allowed|
    ensures allowed[i] !in allowed[..i]
  {
  }

  /** Headers that fit pass the filter of Send unchanged, and none is reserved or the credential header. */
  lemma FilterKeeps(h: HeaderMap, allowed: seq<string>, credential: string)
    requires HeadersFit(h, allowed, credential)
    ensures Filtered(h, allowed, credential, map[]) == h
    ensures forall n | n in h :: HeaderName(n) && !Reserved(n) && !EqualFold(n, credential)
  {
    hide Reserved, HeaderName, EqualFold, Canonical, Filtered;
    FilterKeepsRest(h, allowed, credential, 0);
    assert allowed[0..] == allowed && Restricted(h, allowed[..0]) == map[];
  }

  // ---------- Send ----------

  /** What upstream.Send reports: a complete exchange, an error, or an error marked as "not sent". */
  datatype SendResult = Answered | Lost | NotSent

  /** The deferred classification of Send: an error counts as not sent only if no connection was ever obtained. */
  function Classify(failed: bool, gotConn: bool): SendResult {
    if !failed then Answered else if gotConn then Lost else NotSent
  }
}
