/**
 * Market identifiers and the symbol lookup of `MarketId::lookup`.
 *
 * The market registries (`spot_markets(context)` / `perp_markets(context)`)
 * are not part of this model: the lookup takes the registry of the chosen
 * context as two sequences of configuration records.
 */
module Markets {
  import opened Ints
  import opened Wrappers

  datatype MarketType = Spot | Perp

  /** Id of a market: its index in the registry of its kind. */
  datatype MarketId = MarketId(index: U16, kind: MarketType)

  /** The registry entries the lookup reads. */
  datatype SpotMarketConfig = SpotMarketConfig(symbol: string, market_index: U16)
  datatype PerpMarketConfig = PerpMarketConfig(base_asset_symbol: string, market_index: U16)

  /** `MarketId::perp` */
  function PerpId(index: U16): MarketId {
    MarketId(index, Perp)
  }

  /** `MarketId::spot` */
  function SpotId(index: U16): MarketId {
    MarketId(index, Spot)
  }

  /** `From<(u16, MarketType)> for MarketId` */
  function FromPair(value: (U16, MarketType)): MarketId {
    MarketId(value.0, value.1)
  }

  /** The two named constructors are the pair conversion at a fixed kind, and ids are determined by their parts. */
  lemma MarketIdConstructors(index: U16, kind: MarketType)
    ensures FromPair((index, kind)) == if kind == Perp then PerpId(index) else SpotId(index)
    ensures FromPair((index, kind)).index == index && FromPair((index, kind)).kind == kind
    ensures PerpId(index) != SpotId(index)
  {
  }

  // ---------------------------------------------------------------------------
  // ASCII case folding (`eq_ignore_ascii_case`)
  // ---------------------------------------------------------------------------

  /** `char::to_ascii_lowercase`: only 'A'..'Z' change. */
  function AsciiLower(c: char): char {
    if 'A' <= c <= 'Z' then (c as int + 32) as char else c
  }

  /**
   * `str::eq_ignore_ascii_case`. The source compares UTF-8 bytes; since ASCII
   * folding never touches a byte of 0x80 or above, comparing the characters
   * after folding each is the same relation.
   */
  predicate EqIgnoreAsciiCase(a: string, b: string) {
    |a| == |b| && forall i :: 0 <= i < |a| ==> AsciiLower(a[i]) == AsciiLower(b[i])
  }

  lemma {:induction false} EqIgnoreAsciiCaseIsEquivalence(a: string, b: string, c: string)
    ensures EqIgnoreAsciiCase(a, a)
    ensures EqIgnoreAsciiCase(a, b) ==> EqIgnoreAsciiCase(b, a)
    ensures EqIgnoreAsciiCase(a, b) && EqIgnoreAsciiCase(b, c) ==> EqIgnoreAsciiCase(a, c)
  {
  }

  /** Folding is only about ASCII letters: a string matches itself in any mix of cases. */
  lemma AsciiLowerExamples()
    ensures EqIgnoreAsciiCase("sol", "SOL") && EqIgnoreAsciiCase("PeRp", "perp")
    ensures !EqIgnoreAsciiCase("perps", "perp") && !EqIgnoreAsciiCase("something", "perp")
  {
    assert AsciiLower("something"[0]) != AsciiLower("perp"[0]) || |"something"| != |"perp"|;
  }

  // ---------------------------------------------------------------------------
  // `symbol.split('-')`, first two parts
  // ---------------------------------------------------------------------------

  /** Index of the first occurrence of `c` in `s`. */
  function IndexOf(s: string, c: char): (r: Option<nat>)
    ensures r.None? <==> c !in s
    ensures r.Some? ==> r.value < |s| && s[r.value] == c && c !in s[..r.value]
  {
    if |s| == 0 then None
    else if s[0] == c then Some(0)
    else match IndexOf(s[1..], c)
      case None => None
      case Some(i) =>
        assert s[..i + 1] == [s[0]] + s[1..][..i];
        Some(i + 1)
  }

  /** The first part of `split('-')`: everything before the first dash (the whole symbol if there is none). */
  function FirstPart(s: string): (r: string)
    ensures r <= s && '-' !in r
    ensures |r| == |s| || s[|r|] == '-'
  {
    match IndexOf(s, '-')
    case None => s
    case Some(i) => s[..i]
  }

  /** The second part of `split('-')`, present exactly when the symbol contains a dash. */
  function SecondPart(s: string): Option<string> {
    match IndexOf(s, '-')
    case None => None
    case Some(i) => Some(FirstPart(s[i + 1..]))
  }

  /**
   * The two parts are what `split('-')` yields first: the symbol starts with
   * the first part, then (if there is a dash) a dash and the second part,
   * and the second part ends at the end of the symbol or at the next dash.
   */
  lemma SplitParts(s: string)
    ensures '-' !in FirstPart(s)
    ensures SecondPart(s).None? <==> '-' !in s
    ensures SecondPart(s).None? ==> FirstPart(s) == s
    ensures SecondPart(s).Some? ==>
      var head := FirstPart(s) + ['-'] + SecondPart(s).value;
      && '-' !in SecondPart(s).value
      && head <= s
      && (|head| == |s| || s[|head|] == '-')
  {
    match IndexOf(s, '-')
    case None =>
      assert FirstPart(s) == s && SecondPart(s) == None;
    case Some(i) =>
      var rest := s[i + 1..];
      var second := FirstPart(rest);
      assert FirstPart(s) == s[..i] && SecondPart(s) == Some(second);
      var head := s[..i] + ['-'] + second;
      assert |head| == i + 1 + |second| <= |s|;
      forall k | 0 <= k < |head| ensures head[k] == s[k] {
        if k > i {
          assert head[k] == second[k - i - 1] == rest[k - i - 1];
        }
      }
      if |head| < |s| {
        assert s[|head|] == rest[|second|];
      }
  }

  /** Splitting a dash-joined symbol with a dash-free base and suffix gives back the two halves. */
  lemma SplitJoined(base: string, suffix: string)
    requires '-' !in base && '-' !in suffix
    ensures FirstPart(base + "-" + suffix) == base
    ensures SecondPart(base + "-" + suffix) == Some(suffix)
  {
    var s := base + "-" + suffix;
    IndexOfSkipsPrefix(base, "-" + suffix, '-');
    assert s[|base|..] == "-" + suffix;
    assert IndexOf(s, '-') == Some(|base|);
    assert s[|base| + 1..] == suffix;
  }

  /** Whatever follows a second dash is not part of the first two parts. */
  lemma SplitIgnoresRest(base: string, suffix: string, rest: string)
    requires '-' !in base && '-' !in suffix
    ensures FirstPart(base + "-" + suffix + "-" + rest) == base
    ensures SecondPart(base + "-" + suffix + "-" + rest) == Some(suffix)
  {
    var tail := suffix + "-" + rest;
    assert base + "-" + suffix + "-" + rest == base + "-" + tail;
    DashAfter(base, tail);
    DashAfter(suffix, rest);
  }

  lemma DashAfter(base: string, tail: string)
    requires '-' !in base
    ensures IndexOf(base + "-" + tail, '-') == Some(|base|)
    ensures FirstPart(base + "-" + tail) == base
    ensures (base + "-" + tail)[|base| + 1..] == tail
  {
    assert base + "-" + tail == base + ("-" + tail);
    IndexOfSkipsPrefix(base, "-" + tail, '-');
  }

  lemma {:induction false} IndexOfSkipsPrefix(prefix: string, s: string, c: char)
    requires c !in prefix
    ensures IndexOf(prefix + s, c) == match IndexOf(s, c) case None => None case Some(i) => Some(|prefix| + i)
  {
    if |prefix| > 0 {
      assert (prefix + s)[1..] == prefix[1..] + s;
      IndexOfSkipsPrefix(prefix[1..], s, c);
    } else {
      assert prefix + s == s;
    }
  }

  // ---------------------------------------------------------------------------
  // First match (`iter().find`)
  // ---------------------------------------------------------------------------

  /** `i` is the position of the first element of `xs` satisfying `p`. */
  ghost predicate IsFirstMatch<T>(xs: seq<T>, p: T -> bool, i: nat) {
    i < |xs| && p(xs[i]) && forall j :: 0 <= j < i ==> !p(xs[j])
  }

  lemma FirstMatchUnique<T>(xs: seq<T>, p: T -> bool, i: nat, k: nat)
    requires IsFirstMatch(xs, p, i) && IsFirstMatch(xs, p, k)
    ensures i == k
  {
  }

  /** Position of the first element satisfying `p`, or None if no element does. */
  function FindIndex<T>(xs: seq<T>, p: T -> bool): (r: Option<nat>)
    ensures r.None? <==> forall j :: 0 <= j < |xs| ==> !p(xs[j])
    ensures r.Some? ==> IsFirstMatch(xs, p, r.value)
  {
    if |xs| == 0 then None
    else if p(xs[0]) then Some(0)
    else match FindIndex(xs[1..], p)
      case None => None
      case Some(i) => Some(i + 1)
  }

  // ---------------------------------------------------------------------------
  // `MarketId::lookup`
  // ---------------------------------------------------------------------------

  function SpotMatches(base: string): SpotMarketConfig -> bool {
    (m: SpotMarketConfig) => EqIgnoreAsciiCase(m.symbol, base)
  }

  function PerpMatches(base: string): PerpMarketConfig -> bool {
    (m: PerpMarketConfig) => EqIgnoreAsciiCase(m.base_asset_symbol, base)
  }

  /**
   * Lookup a market id by symbol in the registries of one context. A symbol
   * without a dash names a spot market; one whose second dash-separated part
   * is "perp" (any case) names the perp market of its first part; anything
   * else, and any name not in the registry, is an error.
   */
  function Lookup(spots: seq<SpotMarketConfig>, perps: seq<PerpMarketConfig>, symbol: string): (r: Result<MarketId>)
    ensures r.Ok? && r.value.kind == Spot <==>
      '-' !in symbol && exists i :: 0 <= i < |spots| && EqIgnoreAsciiCase(spots[i].symbol, symbol)
    ensures r.Ok? && r.value.kind == Perp <==>
      && SecondPart(symbol).Some?
      && EqIgnoreAsciiCase(SecondPart(symbol).value, "perp")
      && exists i :: 0 <= i < |perps| && EqIgnoreAsciiCase(perps[i].base_asset_symbol, FirstPart(symbol))
  {
    var base := FirstPart(symbol);
    match SecondPart(symbol)
    case None =>
      (match FindIndex(spots, SpotMatches(base))
       case Some(i) => Ok(SpotId(spots[i].market_index))
       case None => Err)
    case Some(perp) =>
      if EqIgnoreAsciiCase(perp, "perp") then
        (match FindIndex(perps, PerpMatches(base))
         case Some(i) => Ok(PerpId(perps[i].market_index))
         case None => Err)
      else Err
  }

  /** A dash-free symbol resolves to the FIRST spot market whose symbol matches it ignoring ASCII case. */
  lemma LookupSpotHit(spots: seq<SpotMarketConfig>, perps: seq<PerpMarketConfig>, symbol: string, i: nat)
    requires '-' !in symbol
    requires i < |spots| && EqIgnoreAsciiCase(spots[i].symbol, symbol)
    requires forall j :: 0 <= j < i ==> !EqIgnoreAsciiCase(spots[j].symbol, symbol)
    ensures Lookup(spots, perps, symbol) == Ok(SpotId(spots[i].market_index))
  {
    SplitParts(symbol);
    var f := FindIndex(spots, SpotMatches(symbol));
    assert IsFirstMatch(spots, SpotMatches(symbol), i);
    FirstMatchUnique(spots, SpotMatches(symbol), f.value, i);
  }

  /**
   * "<base>-<suffix>", with a suffix equal to "perp" ignoring case, resolves
   * to the FIRST perp market whose base symbol matches `base` ignoring case.
   */
  lemma LookupPerpHit(spots: seq<SpotMarketConfig>, perps: seq<PerpMarketConfig>, symbol: string, i: nat)
    requires SecondPart(symbol).Some? && EqIgnoreAsciiCase(SecondPart(symbol).value, "perp")
    requires i < |perps| && EqIgnoreAsciiCase(perps[i].base_asset_symbol, FirstPart(symbol))
    requires forall j :: 0 <= j < i ==> !EqIgnoreAsciiCase(perps[j].base_asset_symbol, FirstPart(symbol))
    ensures Lookup(spots, perps, symbol) == Ok(PerpId(perps[i].market_index))
  {
    var base := FirstPart(symbol);
    var f := FindIndex(perps, PerpMatches(base));
    assert IsFirstMatch(perps, PerpMatches(base), i);
    FirstMatchUnique(perps, PerpMatches(base), f.value, i);
  }

  /** A second part other than "perp" is an error whatever the registries hold ("market404-something"). */
  lemma LookupOtherSuffixFails(spots: seq<SpotMarketConfig>, perps: seq<PerpMarketConfig>, base: string, suffix: string)
    requires '-' !in base && '-' !in suffix && !EqIgnoreAsciiCase(suffix, "perp")
    ensures Lookup(spots, perps, base + "-" + suffix) == Err
  {
    SplitJoined(base, suffix);
  }

  function TestSpots(spotIndex: U16): seq<SpotMarketConfig> {
    [SpotMarketConfig("USDC", 0), SpotMarketConfig("SOL", spotIndex)]
  }

  function TestPerps(perpIndex: U16): seq<PerpMarketConfig> {
    [PerpMarketConfig("SOL", perpIndex)]
  }

  /** The unit test's hits, against a registry holding SOL as a spot and as a perp market, whatever their indices. */
  lemma LookupTestHits(spotIndex: U16, perpIndex: U16)
    ensures Lookup(TestSpots(spotIndex), TestPerps(perpIndex), "SOL") == Ok(SpotId(spotIndex))
    ensures Lookup(TestSpots(spotIndex), TestPerps(perpIndex), "sol-perp") == Ok(PerpId(perpIndex))
  {
    var spots, perps := TestSpots(spotIndex), TestPerps(perpIndex);
    assert AsciiLower(spots[0].symbol[0]) != AsciiLower("SOL"[0]);
    LookupSpotHit(spots, perps, "SOL", 1);
    assert "sol-perp" == "sol" + "-" + "perp";
    SplitJoined("sol", "perp");
    AsciiLowerExamples();
    LookupPerpHit(spots, perps, "sol-perp", 0);
  }

  /** Parts after the second are never read: "sol-perp-x" resolves like "sol-perp". */
  lemma LookupTestExtraPart(spotIndex: U16, perpIndex: U16)
    ensures Lookup(TestSpots(spotIndex), TestPerps(perpIndex), "sol-perp-x") == Ok(PerpId(perpIndex))
  {
    var symbol := "sol-perp-x";
    assert symbol == "sol" + "-" + "perp" + "-" + "x";
    SplitIgnoresRest("sol", "perp", "x");
    AsciiLowerExamples();
    LookupPerpHit(TestSpots(spotIndex), TestPerps(perpIndex), symbol, 0);
  }

  /** A dash-free symbol that no spot market matches is an error. */
  lemma LookupUnknownSpot(spots: seq<SpotMarketConfig>, perps: seq<PerpMarketConfig>, symbol: string)
    requires '-' !in symbol
    requires forall k :: 0 <= k < |spots| ==> !EqIgnoreAsciiCase(spots[k].symbol, symbol)
    ensures Lookup(spots, perps, symbol) == Err
  {
    SplitParts(symbol);
  }

  /** The unit test's misses: an unknown base with no suffix ... */
  lemma LookupTestMissSpot(spotIndex: U16, perpIndex: U16)
    ensures Lookup(TestSpots(spotIndex), TestPerps(perpIndex), "market404") == Err
  {
    var spots := TestSpots(spotIndex);
    var base := "market404";
    assert '-' !in base by {
      forall k | 0 <= k < |base| ensures base[k] != '-' { }
    }
    assert |spots| == 2 && |spots[0].symbol| == 4 && |spots[1].symbol| == 3 && |base| == 9;
    LookupUnknownSpot(spots, TestPerps(perpIndex), base);
  }

  /** ... and with a "-perp" suffix ... */
  lemma LookupTestMissPerp(spotIndex: U16, perpIndex: U16)
    ensures Lookup(TestSpots(spotIndex), TestPerps(perpIndex), "market404-perp") == Err
  {
    var perps := TestPerps(perpIndex);
    var base := "market404";
    assert '-' !in base by {
      forall k | 0 <= k < |base| ensures base[k] != '-' { }
    }
    assert '-' !in "perp";
    assert "market404-perp" == base + "-" + "perp";
    SplitJoined(base, "perp");
    assert forall k :: 0 <= k < |perps| ==> |perps[k].base_asset_symbol| != |base|;
  }

  /** ... and with a suffix other than "perp". */
  lemma LookupTestMissSuffix(spotIndex: U16, perpIndex: U16)
    ensures Lookup(TestSpots(spotIndex), TestPerps(perpIndex), "market404-something") == Err
  {
    var base := "market404";
    assert '-' !in base by {
      forall k | 0 <= k < |base| ensures base[k] != '-' { }
    }
    assert '-' !in "something" by {
      forall k | 0 <= k < |"something"| ensures "something"[k] != '-' { }
    }
    AsciiLowerExamples();
    assert "market404-something" == base + "-" + "something";
    LookupOtherSuffixFails(TestSpots(spotIndex), TestPerps(perpIndex), base, "something");
  }
}
