/** The header loop of requests.Normalize, for any acceptance test and any canonical form of names.
    Go iterates a map in an unspecified order, so the loop is described for every order. */
module Headers {
  import opened Prelude

  type Header = map<string, string>
  type Test = (string, string) -> bool
  type Naming = string -> string

  datatype HeaderError = InvalidHeader | DuplicateHeader | HeadersTooLarge

  const MAX_HEADERS := 16 * 1024

  predicate HasBad(h: Header, bad: Test) {
    exists n | n in h :: bad(n, h[n])
  }

  /** Two acceptable headers whose names have one canonical form. */
  predicate Clash(h: Header, bad: Test, name: Naming, n: string, m: string) {
    n in h && m in h && n != m && !bad(n, h[n]) && !bad(m, h[m]) && name(n) == name(m)
  }

  predicate HasClash(h: Header, bad: Test, name: Naming) {
    exists n, m | n in h && m in h :: Clash(h, bad, name, n, m)
  }

  predicate Acceptable(h: Header, bad: Test, name: Naming) {
    !HasBad(h, bad) && !HasClash(h, bad, name)
  }

  /** The headers under their canonical names. */
  function Renamed(h: Header, bad: Test, name: Naming): Header {
    if Acceptable(h, bad, name) then
      assert forall n, m | n in h && m in h && name(n) == name(m) :: n == m || Clash(h, bad, name, n, m);
      map n | n in h :: name(n) := h[n]
    else map[]
  }

  /** The combined length of names and values. */
  ghost function Size(h: Header): nat {
    if h == map[] then 0
    else
      var n :| n in h;
      |n| + |h[n]| + Size(h - {n})
  }

  lemma {:induction false} SizeWithout(h: Header, n: string)
    requires n in h
    ensures Size(h) == |n| + |h[n]| + Size(h - {n})
    decreases |h|
  {
    var m :| m in h && Size(h) == |m| + |h[m]| + Size(h - {m});
    if m != n {
      SizeWithout(h - {m}, n);
      SizeWithout(h - {n}, m);
      assert h - {m} - {n} == h - {n} - {m};
    }
  }

  ghost function Limited(out: Header): Result<Header, HeaderError> {
    if Size(out) > MAX_HEADERS then Failure(HeadersTooLarge) else Success(out)
  }

  /** The loop, for the headers still to come in `order`. */
  ghost function InOrder(h: Header, bad: Test, name: Naming, order: seq<string>, out: Header)
    : Result<Header, HeaderError>
    requires forall n | n in order :: n in h
  {
    if order == [] then Limited(out)
    else if bad(order[0], h[order[0]]) then Failure(InvalidHeader)
    else if name(order[0]) in out then Failure(DuplicateHeader)
    else InOrder(h, bad, name, order[1..], out[name(order[0]) := h[order[0]]])
  }

  /** What the loop has established about the headers it has already visited. */
  ghost predicate Visited(h: Header, bad: Test, name: Naming, done: seq<string>, out: Header) {
    && (forall n | n in done :: n in h && !bad(n, h[n]) && name(n) in out && out[name(n)] == h[n])
    && (forall c | c in out :: exists n :: n in done && name(n) == c)
    && (forall n, m | n in done && m in done :: !Clash(h, bad, name, n, m))
  }

  lemma AllVisited(h: Header, bad: Test, name: Naming, done: seq<string>, out: Header)
    requires Enumerates(done, h.Keys) && Visited(h, bad, name, done, out)
    ensures Acceptable(h, bad, name) && Renamed(h, bad, name) == out
  {
    assert forall n | n in h :: n in (set x | x in done);
  }

  lemma VisitOne(h: Header, bad: Test, name: Naming, done: seq<string>, n: string, out: Header)
    requires Visited(h, bad, name, done, out)
    requires n in h && !bad(n, h[n]) && name(n) !in out
    ensures Visited(h, bad, name, done + [n], out[name(n) := h[n]])
  {
    assert forall x :: x in done + [n] <==> x in done || x == n;
  }

  lemma VisitClash(h: Header, bad: Test, name: Naming, done: seq<string>, n: string, out: Header)
    requires Visited(h, bad, name, done, out)
    requires n in h && n !in done && !bad(n, h[n]) && name(n) in out
    ensures HasClash(h, bad, name)
  {
    var m :| m in done && name(m) == name(n);
    assert Clash(h, bad, name, n, m);
  }

  /** What a result of the loop says about the headers. */
  ghost predicate Explains(h: Header, bad: Test, name: Naming, r: Result<Header, HeaderError>) {
    match r
    case Failure(InvalidHeader) => HasBad(h, bad)
    case Failure(DuplicateHeader) => HasClash(h, bad, name)
    case _ => Acceptable(h, bad, name) && r == Limited(Renamed(h, bad, name))
  }

  lemma {:induction false} Outcome(h: Header, bad: Test, name: Naming, done: seq<string>, rest: seq<string>,
                                   out: Header)
    requires Enumerates(done + rest, h.Keys)
    requires Visited(h, bad, name, done, out)
    requires forall n | n in rest :: n in h
    ensures Explains(h, bad, name, InOrder(h, bad, name, rest, out))
    decreases |rest|
  {
    hide Visited, Acceptable, HasClash, Renamed, Limited;
    if rest == [] {
      assert done + rest == done;
      AllVisited(h, bad, name, done, out);
      LimitedCases(out);
    } else {
      var n := rest[0];
      assert (done + rest)[|done|] == n;
      assert forall k | 0 <= k < |done| :: (done + rest)[k] == done[k];
      if !bad(n, h[n]) {
        if name(n) in out {
          VisitClash(h, bad, name, done, n, out);
        } else {
          VisitOne(h, bad, name, done, n, out);
          assert (done + [n]) + rest[1..] == done + rest;
          Outcome(h, bad, name, done + [n], rest[1..], out[name(n) := h[n]]);
        }
      }
    }
  }

  lemma LimitedCases(out: Header)
    ensures Limited(out) == Success(out) || Limited(out) == Failure(HeadersTooLarge)
  {
  }

  /** The result of a whole loop, whatever the order. */
  lemma AnyOrder(h: Header, bad: Test, name: Naming, order: seq<string>)
    requires Enumerates(order, h.Keys)
    ensures Explains(h, bad, name, InOrder(h, bad, name, order, map[]))
  {
    assert [] + order == order;
    Outcome(h, bad, name, [], order, map[]);
  }

  /** The loop succeeds exactly on acceptable headers of bounded size. */
  lemma AcceptedExactly(h: Header, bad: Test, name: Naming, order: seq<string>)
    requires Enumerates(order, h.Keys)
    ensures var r := InOrder(h, bad, name, order, map[]);
            (r.Success? <==> Acceptable(h, bad, name) && Size(Renamed(h, bad, name)) <= MAX_HEADERS)
            && (r.Success? ==> r.value == Renamed(h, bad, name))
  {
    hide Enumerates, InOrder, Renamed, HasBad, HasClash;
    AnyOrder(h, bad, name, order);
  }

  /** With a bad header and a clash both present, some order reports the one and some order the other. */
  lemma BothErrors(h: Header, bad: Test, name: Naming) returns (o: seq<string>, o': seq<string>)
    requires HasBad(h, bad) && HasClash(h, bad, name)
    ensures Enumerates(o, h.Keys) && Enumerates(o', h.Keys)
    ensures InOrder(h, bad, name, o, map[]) == Failure(InvalidHeader)
    ensures InOrder(h, bad, name, o', map[]) == Failure(DuplicateHeader)
  {
    var x :| x in h && bad(x, h[x]);
    var n, m :| n in h && m in h && Clash(h, bad, name, n, m);
    o := SomeOrder([x], h.Keys);
    o' := SomeOrder([n, m], h.Keys);
    assert o[0] == [x][0];
    assert o'[0] == [n, m][0] && o'[1..][0] == [n, m][1];
  }

  lemma NoHeaders(bad: Test, name: Naming)
    ensures Acceptable(map[], bad, name) && Renamed(map[], bad, name) == map[] && Size(map[]) == 0
  {
  }

  /** Renaming already canonical headers changes nothing. */
  lemma RenamedAgain(h: Header, bad: Test, name: Naming)
    requires Acceptable(h, bad, name)
    requires forall n | n in h :: !bad(n, h[n]) ==> !bad(name(n), h[n]) && name(name(n)) == name(n)
    ensures var r := Renamed(h, bad, name); Acceptable(r, bad, name) && Renamed(r, bad, name) == r
    ensures forall n | n in Renamed(h, bad, name) :: !bad(n, Renamed(h, bad, name)[n]) && name(n) == n
  {
    var r := Renamed(h, bad, name);
    forall c | c in r ensures !bad(c, r[c]) && name(c) == c {
      var n :| n in h && name(n) == c && r[c] == h[n];
      assert !bad(n, h[n]);
    }
  }

  /** The headers as pairs of a name, seen through `name`, and a value. */
  function Pairs(h: Header, name: Naming): set<(string, string)> {
    set n | n in h :: (name(n), h[n])
  }

  lemma RenamedPairs(h: Header, bad: Test, name: Naming)
    requires Acceptable(h, bad, name)
    ensures forall c, v :: (c, v) in Pairs(h, name) <==> c in Renamed(h, bad, name) && Renamed(h, bad, name)[c] == v
  {
  }

  /** Two acceptable header maps are renamed to the same map exactly when they hold the same pairs. */
  lemma SamePairs(h: Header, g: Header, bad: Test, name: Naming)
    requires Acceptable(h, bad, name) && Acceptable(g, bad, name)
    ensures Pairs(h, name) == Pairs(g, name) <==> Renamed(h, bad, name) == Renamed(g, bad, name)
  {
    hide Acceptable, Renamed, Pairs;
    RenamedPairs(h, bad, name);
    RenamedPairs(g, bad, name);
    var rh, rg := Renamed(h, bad, name), Renamed(g, bad, name);
    if Pairs(h, name) == Pairs(g, name) {
      forall c ensures c in rh <==> c in rg {
        if c in rh { assert (c, rh[c]) in Pairs(h, name); }
        if c in rg { assert (c, rg[c]) in Pairs(g, name); }
      }
      forall c | c in rh ensures rh[c] == rg[c] {
        assert (c, rh[c]) in Pairs(h, name);
      }
    }
    if rh == rg {
      forall p ensures p in Pairs(h, name) <==> p in Pairs(g, name) {
        assert p == (p.0, p.1);
      }
    }
  }

  /** Two ways of seeing names that agree about which names are the same agree about which headers are. */
  lemma PairsAgree(h: Header, g: Header, name: Naming, fold: Naming)
    requires forall n, m | n in h.Keys + g.Keys && m in h.Keys + g.Keys :: name(n) == name(m) <==> fold(n) == fold(m)
    requires Pairs(h, fold) == Pairs(g, fold)
    ensures Pairs(h, name) == Pairs(g, name)
  {
    HalfAgree(h, g, name, fold);
    HalfAgree(g, h, name, fold);
  }

  lemma HalfAgree(h: Header, g: Header, name: Naming, fold: Naming)
    requires forall n, m | n in h.Keys + g.Keys && m in h.Keys + g.Keys :: name(n) == name(m) <==> fold(n) == fold(m)
    requires Pairs(h, fold) <= Pairs(g, fold)
    ensures Pairs(h, name) <= Pairs(g, name)
  {
    forall p | p in Pairs(h, name) ensures p in Pairs(g, name) {
      var n :| n in h && p == (name(n), h[n]);
      assert (fold(n), h[n]) in Pairs(h, fold);
      var m :| m in g && (fold(m), g[m]) == (fold(n), h[n]);
    }
  }
}
