/** internal/requests/types.go: submissions, snapshots and their normalization. */
module Requests {
  import opened Prelude
  import opened Access
  import opened Headers
  import opened Upstream
  import opened Store

  datatype Submission = Submission(
    service: string, verb: string, path: string, query: string,
    headers: map<string, string>, body: string, key: string)

  datatype Snapshot = Snapshot(
    version: int, device: string, service: string, serviceLabel: string, revision: int, permission: string,
    credentialRef: Purpose, url: string, verb: string, path: string,
    headers: map<string, seq<string>>, body: string, expires: int, privateCidr: string)

  // ---------- utf8.ValidString ----------

  predicate Within(c: char, lo: int, hi: int) {
    lo <= c as int <= hi
  }

  /** The length of the well-formed UTF-8 sequence a string begins with, 0 if there is none. */
  function RuneLength(s: string): (n: nat)
    ensures n <= |s|
  {
    if s == "" then 0
    else if Within(s[0], 0, 0x7F) then 1
    else if |s| >= 2 && Within(s[0], 0xC2, 0xDF) && Within(s[1], 0x80, 0xBF) then 2
    else if |s| >= 3 && Within(s[0], 0xE0, 0xEF)
            && Within(s[1], if s[0] as int == 0xE0 then 0xA0 else 0x80, if s[0] as int == 0xED then 0x9F else 0xBF)
            && Within(s[2], 0x80, 0xBF) then 3
    else if |s| >= 4 && Within(s[0], 0xF0, 0xF4)
            && Within(s[1], if s[0] as int == 0xF0 then 0x90 else 0x80, if s[0] as int == 0xF4 then 0x8F else 0xBF)
            && Within(s[2], 0x80, 0xBF) && Within(s[3], 0x80, 0xBF) then 4
    else 0
  }

  predicate ValidUtf8(s: string)
    decreases |s|
  {
    s == "" || (RuneLength(s) > 0 && ValidUtf8(s[RuneLength(s)..]))
  }

  predicate Scalar(c: int) {
    0 <= c < 0xD800 || 0xE000 <= c < 0x110000
  }

  /** The UTF-8 form of a Unicode scalar value, section 3 of RFC 3629. */
  function EncodeRune(c: int): string
    requires Scalar(c)
  {
    if c < 0x80 then [c as char]
    else if c < 0x800 then [(0xC0 + c / 64) as char, (0x80 + c % 64) as char]
    else if c < 0x10000 then
      [(0xE0 + c / 4096) as char, (0x80 + c / 64 % 64) as char, (0x80 + c % 64) as char]
    else
      [(0xF0 + c / 262144) as char, (0x80 + c / 4096 % 64) as char, (0x80 + c / 64 % 64) as char,
       (0x80 + c % 64) as char]
  }

  function EncodeRunes(runes: seq<int>): string
    requires forall c | c in runes :: Scalar(c)
  {
    if runes == [] then "" else EncodeRune(runes[0]) + EncodeRunes(runes[1..])
  }

  lemma ThreeRange(c: int)
    requires 0x800 <= c < 0x10000 && Scalar(c)
    ensures 0 <= c / 4096 <= 15 && (c / 4096 == 0 ==> c / 64 % 64 >= 0x20) && (c / 4096 == 13 ==> c / 64 % 64 < 0x20)
  {
  }

  lemma FourRange(c: int)
    requires 0x10000 <= c < 0x110000
    ensures 0 <= c / 262144 <= 4
    ensures (c / 262144 == 0 ==> c / 4096 % 64 >= 0x10) && (c / 262144 == 4 ==> c / 4096 % 64 < 0x10)
  {
  }

  lemma RuneEncodes(c: int, rest: string)
    requires Scalar(c)
    ensures RuneLength(EncodeRune(c) + rest) == |EncodeRune(c)|
  {
    var e := EncodeRune(c);
    var s := e + rest;
    assert forall k | 0 <= k < |e| :: s[k] == e[k];
    if c < 0x80 {
    } else if c < 0x800 {
      assert 2 <= c / 64 <= 31;
    } else if c < 0x10000 {
      ThreeRange(c);
    } else {
      FourRange(c);
    }
    hide EncodeRune, Scalar;
  }

  lemma TwoBytes(a: int, b: int)
    requires 0xC2 <= a <= 0xDF && 0x80 <= b <= 0xBF
    ensures var c := (a - 0xC0) * 64 + (b - 0x80); 0x80 <= c < 0x800 && 0xC0 + c / 64 == a && 0x80 + c % 64 == b
  {
  }

  lemma ThreeBytes(a: int, b: int, d: int)
    requires 0xE0 <= a <= 0xEF && 0x80 <= b <= 0xBF && 0x80 <= d <= 0xBF
    ensures var c := (a - 0xE0) * 4096 + (b - 0x80) * 64 + (d - 0x80);
            0xE0 + c / 4096 == a && 0x80 + c / 64 % 64 == b && 0x80 + c % 64 == d
  {
    var c := (a - 0xE0) * 4096 + (b - 0x80) * 64 + (d - 0x80);
    assert c / 64 == (a - 0xE0) * 64 + (b - 0x80);
  }

  lemma FourBytes(a: int, b: int, d: int, e: int)
    requires 0xF0 <= a <= 0xF4 && 0x80 <= b <= 0xBF && 0x80 <= d <= 0xBF && 0x80 <= e <= 0xBF
    ensures var c := (a - 0xF0) * 262144 + (b - 0x80) * 4096 + (d - 0x80) * 64 + (e - 0x80);
            0xF0 + c / 262144 == a && 0x80 + c / 4096 % 64 == b && 0x80 + c / 64 % 64 == d && 0x80 + c % 64 == e
  {
    var c := (a - 0xF0) * 262144 + (b - 0x80) * 4096 + (d - 0x80) * 64 + (e - 0x80);
    assert c / 64 == (a - 0xF0) * 4096 + (b - 0x80) * 64 + (d - 0x80);
    assert c / 4096 == (a - 0xF0) * 64 + (b - 0x80);
  }

  /** The scalar value of the first rune. */
  lemma RuneDecodes(s: string) returns (c: int)
    requires RuneLength(s) > 0
    ensures Scalar(c) && EncodeRune(c) == s[..RuneLength(s)]
  {
    var n, a := RuneLength(s), s[0] as int;
    if n == 1 {
      c := a;
      assert s[..1] == [s[0]];
    } else if n == 2 {
      c := (a - 0xC0) * 64 + (s[1] as int - 0x80);
      TwoBytes(a, s[1] as int);
      assert s[..2] == [s[0], s[1]];
    } else if n == 3 {
      c := (a - 0xE0) * 4096 + (s[1] as int - 0x80) * 64 + (s[2] as int - 0x80);
      ThreeBytes(a, s[1] as int, s[2] as int);
      assert s[..3] == [s[0], s[1], s[2]];
    } else {
      c := (a - 0xF0) * 262144 + (s[1] as int - 0x80) * 4096 + (s[2] as int - 0x80) * 64 + (s[3] as int - 0x80);
      FourBytes(a, s[1] as int, s[2] as int, s[3] as int);
      assert s[..4] == [s[0], s[1], s[2], s[3]];
    }
  }

  lemma {:induction false} RunesAreValid(runes: seq<int>)
    requires forall c | c in runes :: Scalar(c)
    ensures ValidUtf8(EncodeRunes(runes))
  {
    hide RuneLength, EncodeRune;
    if runes != [] {
      var head, tail := EncodeRune(runes[0]), EncodeRunes(runes[1..]);
      RunesAreValid(runes[1..]);
      RuneEncodes(runes[0], tail);
      assert (head + tail)[|head|..] == tail;
      RuneSome(runes[0]);
    }
  }

  lemma RuneSome(c: int)
    requires Scalar(c)
    ensures |EncodeRune(c)| > 0
  {
  }

  lemma {:induction false} ValidHasRunes(s: string) returns (runes: seq<int>)
    requires ValidUtf8(s)
    ensures (forall c | c in runes :: Scalar(c)) && EncodeRunes(runes) == s
    decreases |s|
  {
    hide RuneLength, EncodeRune;
    if s == "" {
      runes := [];
    } else {
      var c := RuneDecodes(s);
      var rest := ValidHasRunes(s[RuneLength(s)..]);
      runes := [c] + rest;
      assert runes[1..] == rest && s[..RuneLength(s)] + s[RuneLength(s)..] == s;
    }
  }

  /** A byte string is valid exactly when it is the UTF-8 form of a sequence of Unicode scalar values. */
  lemma ValidUtf8Exact(s: string)
    ensures ValidUtf8(s) <==> exists runes :: (forall c | c in runes :: Scalar(c)) && EncodeRunes(runes) == s
  {
    if ValidUtf8(s) {
      var runes := ValidHasRunes(s);
    }
    if runes :| (forall c | c in runes :: Scalar(c)) && EncodeRunes(runes) == s {
      RunesAreValid(runes);
    }
  }

  // ---------- Normalize ----------

  datatype NormalizeError = InvalidSubmission | InvalidIdempotencyKey | InvalidQuery | HeaderFault(why: HeaderError)

  const MAX_BODY := 64 * 1024
  const MAX_KEY := 128

  /** The checks Normalize makes before it looks at headers. */
  function Precheck(input: Submission): Option<NormalizeError> {
    if !Slug(input.service) || !Method(input.verb) || !Path(input.path) || !ValidUtf8(input.body)
       || |input.body| > MAX_BODY || |input.key| < 1 || |input.key| > MAX_KEY then Some(InvalidSubmission)
    else if exists c | c in input.key :: !(33 as char <= c <= 126 as char) then Some(InvalidIdempotencyKey)
    else if Target(Base("example.invalid", ""), input.path, input.query).None? then Some(InvalidQuery)
    else None
  }

  predicate BadHeader(n: string, v: string) {
    !HeaderName(n) || !HeaderValue(v) || Reserved(n)
  }

  /** requests.Normalize, for one iteration order of the header map. */
  ghost function NormalizeInOrder(input: Submission, order: seq<string>): Result<Submission, NormalizeError>
    requires Enumerates(order, input.headers.Keys)
  {
    match Precheck(input)
    case Some(e) => Failure(e)
    case None =>
      match InOrder(input.headers, BadHeader, Canonical, order, map[])
      case Failure(e) => Failure(HeaderFault(e))
      case Success(out) => Success(input.(headers := out))
  }

  /** requests.Normalize as written; `order` is the iteration order this run of the loop happened to take. */
  method RunNormalize(input: Submission) returns (r: Result<Submission, NormalizeError>, ghost order: seq<string>)
    ensures Enumerates(order, input.headers.Keys)
    ensures r == NormalizeInOrder(input, order)
    ensures r.Success? <==> Normalize(input).Some?
    ensures r.Success? ==> r.value == Normalize(input).value
  {
    hide Normalize, Precheck, Canonical, Reserved, HeaderName, HeaderValue;
    var names := Enumerate(input.headers.Keys);
    order := names;
    NormalizeOutcome(input, names);
    match Precheck(input) {
      case Some(e) => return Failure(e), names;
      case None =>
    }
    var out: map<string, string> := map[];
    var size := 0;
    for i := 0 to |names|
      invariant size == Size(out)
      invariant InOrder(input.headers, BadHeader, Canonical, names, map[])
                == InOrder(input.headers, BadHeader, Canonical, names[i..], out)
    {
      var n := names[i];
      if BadHeader(n, input.headers[n]) {
        return Failure(HeaderFault(InvalidHeader)), names;
      }
      var c := Canonical(n);
      if c in out {
        return Failure(HeaderFault(DuplicateHeader)), names;
      }
      ghost var before := out;
      out := out[c := input.headers[n]];
      SizeWithout(out, c);
      assert out - {c} == before;
      size := size + |c| + |input.headers[n]|;
    }
    if size > MAX_HEADERS {
      return Failure(HeaderFault(HeadersTooLarge)), names;
    }
    return Success(input.(headers := out)), names;
  }

  /** What Normalize accepts, stated without an iteration order, and what it returns. */
  ghost function Normalize(input: Submission): Option<Submission> {
    var out := Renamed(input.headers, BadHeader, Canonical);
    if Precheck(input).None? && Acceptable(input.headers, BadHeader, Canonical) && Size(out) <= MAX_HEADERS
    then Some(input.(headers := out))
    else None
  }

  lemma NormalizeOutcome(input: Submission, order: seq<string>)
    requires Enumerates(order, input.headers.Keys)
    ensures Normalize(input).Some? <==> NormalizeInOrder(input, order).Success?
    ensures Normalize(input).Some? ==> NormalizeInOrder(input, order) == Success(Normalize(input).value)
  {
    hide Precheck, Acceptable, Enumerates, InOrder, Renamed;
    AcceptedExactly(input.headers, BadHeader, Canonical, order);
  }

  /** What Normalize accepts, written out, and what it changes: only the spelling of header names. */
  lemma NormalizeExact(input: Submission)
    ensures Normalize(input).Some? <==>
              1 <= |input.service| <= 48 && 'a' <= input.service[0] <= 'z'
              && (forall c | c in input.service :: 'a' <= c <= 'z' || '0' <= c <= '9' || c == '-')
              && Method(input.verb) && Path(input.path)
              && (forall c | c in input.query :: 33 <= c as int <= 126 && c != '#')
              && ValidUtf8(input.body) && |input.body| <= 65536
              && 1 <= |input.key| <= 128 && (forall c | c in input.key :: 33 <= c as int <= 126)
              && (forall n | n in input.headers ::
                    HeaderName(n) && HeaderValue(input.headers[n]) && !Reserved(n))
              && (forall n, m | n in input.headers && m in input.headers && n != m :: Canonical(n) != Canonical(m))
              && Size(Renamed(input.headers, BadHeader, Canonical)) <= 16384
    ensures Normalize(input).Some? ==>
              var out := Normalize(input).value;
              out.(headers := input.headers) == input
              && (forall n | n in input.headers ::
                    Canonical(n) in out.headers && out.headers[Canonical(n)] == input.headers[n])
              && forall c | c in out.headers :: exists n :: n in input.headers && Canonical(n) == c
  {
    hide Path, Method, ValidUtf8, Canonical, Reserved, HeaderName, HeaderValue, Target;
    TargetExact(Base("example.invalid", ""), input.path, input.query);
    ExampleHost();
    AcceptableExact(input.headers);
  }

  lemma ExampleHost()
    ensures BaseOk(Base("example.invalid", ""))
  {
    hide BaseOk;
    PlainHostIsOk("example.invalid");
  }

  lemma AcceptableExact(h: map<string, string>)
    ensures Acceptable(h, BadHeader, Canonical) <==>
              (forall n | n in h :: HeaderName(n) && HeaderValue(h[n]) && !Reserved(n))
              && forall n, m | n in h && m in h && n != m :: Canonical(n) != Canonical(m)
  {
    hide Canonical, Reserved, HeaderName, HeaderValue;
    if !HasBad(h, BadHeader) && !HasClash(h, BadHeader, Canonical) {
      forall n, m | n in h && m in h && n != m ensures Canonical(n) != Canonical(m) {
        assert !Clash(h, BadHeader, Canonical, n, m);
      }
    }
  }

  /** Acceptance and result do not depend on the iteration order of the header map. */
  lemma NormalizeOrderFree(input: Submission, order: seq<string>, order': seq<string>)
    requires Enumerates(order, input.headers.Keys) && Enumerates(order', input.headers.Keys)
    ensures NormalizeInOrder(input, order).Success? <==> NormalizeInOrder(input, order').Success?
    ensures NormalizeInOrder(input, order).Success? ==>
              NormalizeInOrder(input, order) == NormalizeInOrder(input, order')
  {
    hide Normalize, NormalizeInOrder;
    NormalizeOutcome(input, order);
    NormalizeOutcome(input, order');
  }

  /** The error code does depend on it, exactly when a bad header and a clash occur together. */
  lemma NormalizeErrorOrder(input: Submission)
    requires Precheck(input).None?
    ensures (forall o, o' | Enumerates(o, input.headers.Keys) && Enumerates(o', input.headers.Keys) ::
               NormalizeInOrder(input, o) == NormalizeInOrder(input, o'))
            <==> !(HasBad(input.headers, BadHeader) && HasClash(input.headers, BadHeader, Canonical))
  {
    hide HasBad, HasClash;
    var h := input.headers;
    if HasBad(h, BadHeader) && HasClash(h, BadHeader, Canonical) {
      var o, o' := BothErrors(h, BadHeader, Canonical);
      assert NormalizeInOrder(input, o) != NormalizeInOrder(input, o');
    } else {
      forall o, o' | Enumerates(o, h.Keys) && Enumerates(o', h.Keys)
        ensures NormalizeInOrder(input, o) == NormalizeInOrder(input, o')
      {
        AnyOrder(h, BadHeader, Canonical, o);
        AnyOrder(h, BadHeader, Canonical, o');
      }
    }
  }

  lemma BadHeaderCanonical(n: string, v: string)
    requires !BadHeader(n, v)
    ensures !BadHeader(Canonical(n), v) && Canonical(Canonical(n)) == Canonical(n)
  {
    hide Reserved, HeaderName, HeaderValue, Canonical;
    CanonicalKeeps(n);
  }

  /** Normalizing twice, as the device adapter, the handler and Submit do, is normalizing once,
      and the result has canonical header names. */
  lemma NormalizeIdempotent(input: Submission)
    requires Normalize(input).Some?
    ensures Normalize(Normalize(input).value) == Normalize(input)
    ensures forall n | n in Normalize(input).value.headers ::
              Canonical(n) == n && !BadHeader(n, Normalize(input).value.headers[n])
  {
    hide Precheck, BadHeader, Canonical;
    var h := input.headers;
    forall n | n in h && !BadHeader(n, h[n])
      ensures !BadHeader(Canonical(n), h[n]) && Canonical(Canonical(n)) == Canonical(n)
    {
      BadHeaderCanonical(n, h[n]);
    }
    RenamedAgain(h, BadHeader, Canonical);
    PrecheckIgnoresHeaders(input, Renamed(h, BadHeader, Canonical));
  }

  lemma PrecheckIgnoresHeaders(input: Submission, headers: map<string, string>)
    ensures Precheck(input.(headers := headers)) == Precheck(input)
  {
  }

  // ---------- digests and forwarded headers ----------

  function SubmissionDigest(input: Submission): Digest<Submission> {
    Sha256(input.(key := ""))
  }

  /** The same headers up to the letter case of their names. */
  predicate SameUpToCase(h: map<string, string>, g: map<string, string>) {
    Pairs(h, Lower) == Pairs(g, Lower)
  }

  lemma FoldIsCanonical(h: map<string, string>, g: map<string, string>)
    requires forall n | n in h.Keys + g.Keys :: HeaderName(n)
    ensures SameUpToCase(h, g) <==> Pairs(h, Canonical) == Pairs(g, Canonical)
  {
    hide HeaderName, Canonical, Lower, Pairs;
    forall n, m | n in h.Keys + g.Keys && m in h.Keys + g.Keys
      ensures Canonical(n) == Canonical(m) <==> Lower(n) == Lower(m)
    {
      CanonicalIsFold(n, m);
    }
    if SameUpToCase(h, g) {
      PairsAgree(h, g, Canonical, Lower);
    }
    if Pairs(h, Canonical) == Pairs(g, Canonical) {
      PairsAgree(h, g, Lower, Canonical);
    }
  }

  /** Two accepted submissions have one comparison digest exactly when they differ at most in the key
      and in the letter case of header names. */
  lemma DigestIgnoresCase(a: Submission, b: Submission)
    requires Normalize(a).Some? && Normalize(b).Some?
    ensures SubmissionDigest(Normalize(a).value) == SubmissionDigest(Normalize(b).value)
            <==> a.(key := "", headers := map[]) == b.(key := "", headers := map[])
                 && SameUpToCase(a.headers, b.headers)
  {
    hide Precheck, SameUpToCase, Pairs, Renamed, HeaderName, HeaderValue, Reserved, Canonical, HasClash;
    AcceptedNames(a.headers);
    AcceptedNames(b.headers);
    FoldIsCanonical(a.headers, b.headers);
    SamePairs(a.headers, b.headers, BadHeader, Canonical);
  }

  lemma AcceptedNames(h: map<string, string>)
    requires !HasBad(h, BadHeader)
    ensures forall n | n in h :: HeaderName(n)
  {
    hide HeaderName, HeaderValue, Reserved;
    forall n | n in h ensures HeaderName(n) { assert !BadHeader(n, h[n]); }
  }

  predicate Listed(n: string, allowed: seq<string>) {
    exists a | a in allowed :: EqualFold(n, a)
  }

  predicate Forwardable(n: string, allowed: seq<string>, authHeader: string) {
    Listed(n, allowed) && !EqualFold(n, authHeader)
  }

  /** requests.ApplicationHeaders: every header must be on the service's list and not carry its credential. */
  function ApplicationHeaders(h: map<string, string>, allowed: seq<string>, authHeader: string)
    : Option<map<string, seq<string>>>
  {
    if forall n | n in h :: Forwardable(n, allowed, authHeader) then Some(map n | n in h :: [h[n]]) else None
  }

  /** What ApplicationHeaders lets through of normalized headers fits the service. */
  lemma ApplicationFits(h: map<string, string>, allowed: seq<string>, authHeader: string)
    requires forall n | n in h :: Canonical(n) == n && !BadHeader(n, h[n])
    requires AllowList(allowed, authHeader) && ApplicationHeaders(h, allowed, authHeader).Some?
    ensures HeadersFit(ApplicationHeaders(h, allowed, authHeader).value, allowed, authHeader)
  {
    hide Canonical, Reserved, HeaderName, HeaderValue, EqualFold;
    forall n | n in h ensures n in allowed {
      assert Forwardable(n, allowed, authHeader);
      var a :| a in allowed && EqualFold(n, a);
      CanonicalIsFold(n, a);
    }
  }

  method IsListed(n: string, allowed: seq<string>) returns (ok: bool)
    ensures ok == Listed(n, allowed)
  {
    hide EqualFold;
    ok := false;
    for i := 0 to |allowed|
      invariant ok <==> exists k :: 0 <= k < i && EqualFold(n, allowed[k])
    {
      if EqualFold(n, allowed[i]) {
        ok := true;
      }
    }
  }

  /** requests.ApplicationHeaders as written. Of names that share a canonical form one is kept, whichever comes last;
      names that are canonical already, as after Normalize, are all kept. */
  method RunApplicationHeaders(h: map<string, string>, allowed: seq<string>, authHeader: string)
    returns (r: Option<map<string, seq<string>>>)
    ensures r.Some? <==> forall n | n in h :: Forwardable(n, allowed, authHeader)
    ensures r.Some? ==> forall n | n in h :: Canonical(n) in r.value
    ensures r.Some? ==> forall c | c in r.value :: exists n :: n in h && Canonical(n) == c && r.value[c] == [h[n]]
    ensures (forall n | n in h :: Canonical(n) == n) ==> r == ApplicationHeaders(h, allowed, authHeader)
  {
    hide Canonical, Listed, EqualFold;
    var out: map<string, seq<string>> := map[];
    var rest := h.Keys;
    while rest != {}
      invariant rest <= h.Keys
      invariant forall n | n in h && n !in rest :: Forwardable(n, allowed, authHeader) && Canonical(n) in out
      invariant forall c | c in out :: exists n :: n in h && n !in rest && Canonical(n) == c && out[c] == [h[n]]
      decreases rest
    {
      var n :| n in rest;
      var ok := IsListed(n, allowed);
      if !ok || EqualFold(n, authHeader) {
        assert !Forwardable(n, allowed, authHeader);
        return None;
      }
      out := out[Canonical(n) := [h[n]]];
      rest := rest - {n};
    }
    if forall n | n in h :: Canonical(n) == n {
      assert out == map n | n in h :: [h[n]];
    }
    return Some(out);
  }
}
