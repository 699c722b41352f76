/** Who may connect: lists of IPv4 addresses and blocks, matched by masks on 32-bit words. */
module NetworkAccess {
  import opened Text

  const WORD: int := 0x1_0000_0000

  type Word = x: int | 0 <= x < WORD

  // ---------- words ----------

  function Pow2(n: nat): (r: int)
    ensures r >= 1
  {
    if n == 0 then 1 else 2 * Pow2(n - 1)
  }

  /** The conjunction of the low `n` bits. */
  function And(x: nat, y: nat, n: nat): nat
    decreases n
  {
    if n == 0 then 0 else (x % 2) * (y % 2) + 2 * And(x / 2, y / 2, n - 1)
  }

  /** A 32-bit word shifted left loses what passes its top. */
  function ShiftLeft(x: Word, n: nat): Word {
    (x * Pow2(n)) % WORD
  }

  function Mask(prefix: nat): Word
    requires 0 < prefix <= 32
  {
    if prefix == 32 then 0xFFFFFFFF else ShiftLeft(0xFFFFFFFF, 32 - prefix)
  }

  predicate InCidr(ip: Word, network: Word, prefix: nat)
    requires prefix <= 32
  {
    prefix == 0 || And(ip, Mask(prefix), 32) == And(network, Mask(prefix), 32)
  }

  // ---------- masks are divisions ----------

  /** A word without its low `k` bits. */
  function High(x: nat, k: nat): nat
    decreases k
  {
    if k == 0 then x else High(x / 2, k - 1)
  }

  lemma {:induction false} HighIs(x: nat, k: nat)
    ensures High(x, k) * Pow2(k) <= x < (High(x, k) + 1) * Pow2(k)
    decreases k
  {
    if k > 0 {
      HighIs(x / 2, k - 1);
      Doubling(x, High(x, k), Pow2(k - 1));
    }
  }

  lemma Doubling(x: nat, h: nat, p: nat)
    requires h * p <= x / 2 < (h + 1) * p
    ensures h * (2 * p) <= x < (h + 1) * (2 * p)
  {
    assert h * (2 * p) == 2 * (h * p);
    assert (h + 1) * (2 * p) == 2 * ((h + 1) * p);
  }

  lemma QuotientIs(x: nat, d: nat, q: nat)
    requires d > 0 && q * d <= x < (q + 1) * d
    ensures x / d == q
  {
    var r := x / d;
    assert r * d <= x < (r + 1) * d by {
      assert x == r * d + x % d;
    }
    if r < q {
      Times(r + 1, q, d);
    } else if q < r {
      Times(q + 1, r, d);
    }
  }

  lemma Times(a: nat, b: nat, d: nat)
    requires a <= b
    ensures a * d <= b * d
  {
    assert b * d == a * d + (b - a) * d;
  }

  lemma HighDivides(x: nat, k: nat)
    ensures High(x, k) == x / Pow2(k)
  {
    HighIs(x, k);
    QuotientIs(x, Pow2(k), High(x, k));
  }

  lemma {:induction false} HighZero(x: nat, n: nat)
    requires x < Pow2(n)
    ensures High(x, n) == 0
    decreases n
  {
    if n > 0 {
      HighZero(x / 2, n - 1);
    }
  }

  lemma {:induction false} HighMore(x: nat, a: nat, b: nat)
    ensures High(x, a + b) == High(High(x, a), b)
    decreases a
  {
    if a > 0 {
      HighMore(x / 2, a - 1, b);
    }
  }

  lemma AndStep(x: nat, y: nat, n: nat)
    requires n > 0
    ensures y % 2 == 0 ==> And(x, y, n) == 2 * And(x / 2, y / 2, n - 1)
    ensures y % 2 == 1 ==> And(x, y, n) == x % 2 + 2 * And(x / 2, y / 2, n - 1)
  {
    if y % 2 == 0 {
      assert (x % 2) * 0 == 0;
    } else {
      assert (x % 2) * 1 == x % 2;
    }
  }

  lemma {:induction false} Pow2Grows(k: nat, n: nat)
    requires k <= n
    ensures Pow2(k) <= Pow2(n)
  {
    if k < n {
      Pow2Grows(k, n - 1);
    }
  }

  /** A mask of ones above `k` zeros keeps the word down to its bit `k`. */
  lemma {:induction false} AndMask(x: nat, n: nat, k: nat)
    requires k <= n && x < Pow2(n)
    ensures Pow2(n) >= Pow2(k)
    ensures And(x, Pow2(n) - Pow2(k), n) == High(x, k) * Pow2(k)
    decreases n
  {
    Pow2Grows(k, n);
    if n > 0 {
      assert Pow2(n) == 2 * Pow2(n - 1);
      AndStep(x, Pow2(n) - Pow2(k), n);
      if k == 0 {
        AndMask(x / 2, n - 1, 0);
        hide And, Pow2;
        assert (2 * Pow2(n - 1) - 1) / 2 == Pow2(n - 1) - 1;
      } else {
        assert Pow2(k) == 2 * Pow2(k - 1);
        AndMask(x / 2, n - 1, k - 1);
        hide And, Pow2;
        Twice(High(x, k), Pow2(k - 1));
      }
    }
  }

  lemma Twice(h: nat, p: nat)
    ensures 2 * (h * p) == h * (2 * p)
  {
  }

  lemma Pow2Word()
    ensures Pow2(32) == WORD
  {
    assert Pow2(8) == 0x100;
    assert Pow2(16) == 0x1_0000;
    assert Pow2(24) == 0x100_0000;
  }

  lemma {:induction false} Pow2Splits(a: nat, b: nat)
    ensures Pow2(a + b) == Pow2(a) * Pow2(b)
    decreases a
  {
    if a > 0 {
      Pow2Splits(a - 1, b);
      assert Pow2(a) == 2 * Pow2(a - 1) && Pow2(a + b) == 2 * Pow2(a - 1 + b);
      hide Pow2;
      Twice(Pow2(b), Pow2(a - 1));
    }
  }

  lemma MaskIs(prefix: nat)
    requires 0 < prefix <= 32
    ensures Mask(prefix) == WORD - Pow2(32 - prefix)
  {
    if prefix < 32 {
      Pow2Word();
      Pow2Splits(prefix, 32 - prefix);
      hide Pow2, Mask;
      MaskShifts(prefix, Pow2(32 - prefix), Pow2(prefix));
    }
  }

  lemma MaskShifts(prefix: nat, d: nat, p: nat)
    requires 0 < prefix < 32 && d == Pow2(32 - prefix) && p * d == WORD && p >= 1
    ensures Mask(prefix) == WORD - d
  {
    hide Pow2;
    Wraps(d, p);
  }

  lemma Wraps(k: nat, p: nat)
    requires k >= 1 && p >= 1 && k * p == WORD
    ensures (0xFFFFFFFF * k) % WORD == WORD - k
  {
    assert 0xFFFFFFFF * k == (k - 1) * WORD + (WORD - k);
    assert k <= WORD by { Times(1, p, k); }
    ModWord(k - 1, WORD - k);
  }

  lemma ModWord(q: nat, r: nat)
    requires r < WORD
    ensures (q * WORD + r) % WORD == r
  {
  }

  /** Matching by mask is having the same quotient: a block is an interval of addresses. */
  lemma InCidrIsInterval(ip: Word, network: Word, prefix: nat)
    requires prefix <= 32
    ensures InCidr(ip, network, prefix) <==> ip / Pow2(32 - prefix) == network / Pow2(32 - prefix)
  {
    hide And, High, Pow2, Mask;
    var k := 32 - prefix;
    Pow2Word();
    HighDivides(ip, k);
    HighDivides(network, k);
    if prefix == 0 {
      HighZero(ip, 32);
      HighZero(network, 32);
    } else {
      MaskIs(prefix);
      AndMask(ip, 32, k);
      AndMask(network, 32, k);
      SameProduct(High(ip, k), High(network, k), Pow2(k));
    }
  }

  lemma SameProduct(a: nat, b: nat, d: nat)
    requires d > 0
    ensures a * d == b * d <==> a == b
  {
    if a < b {
      Times(a + 1, b, d);
    } else if b < a {
      Times(b + 1, a, d);
    }
  }

  // ---------- blocks ----------

  lemma InCidrIsHigh(ip: Word, network: Word, prefix: nat)
    requires prefix <= 32
    ensures InCidr(ip, network, prefix) <==> High(ip, 32 - prefix) == High(network, 32 - prefix)
  {
    InCidrIsInterval(ip, network, prefix);
    HighDivides(ip, 32 - prefix);
    HighDivides(network, 32 - prefix);
  }

  /** Two blocks are nested or disjoint: with one address in common, the smaller lies in the larger. */
  lemma NestedOrDisjoint(n: Word, p: nat, m: Word, q: nat, common: Word, ip: Word)
    requires p <= q <= 32
    ensures InCidr(common, n, p) && InCidr(common, m, q) && InCidr(ip, m, q) ==> InCidr(ip, n, p)
  {
    hide InCidr, High;
    InCidrIsHigh(common, n, p);
    InCidrIsHigh(common, m, q);
    InCidrIsHigh(ip, m, q);
    InCidrIsHigh(ip, n, p);
    HighMore(common, 32 - q, q - p);
    HighMore(ip, 32 - q, q - p);
  }

  /** The two halves of a block. */
  function LowerHalf(n: Word, p: nat): int
    requires p < 32
  {
    High(n, 32 - p) * Pow2(32 - p)
  }

  function UpperHalf(n: Word, p: nat): int
    requires p < 32
  {
    LowerHalf(n, p) + Pow2(31 - p)
  }

  /** The halves are words, and they make up the block. */
  lemma HalvesMakeBlock(ip: Word, n: Word, p: nat)
    requires p < 32
    ensures 0 <= LowerHalf(n, p) < UpperHalf(n, p) < WORD
    ensures InCidr(ip, n, p) <==> InCidr(ip, LowerHalf(n, p), p + 1) || InCidr(ip, UpperHalf(n, p), p + 1)
  {
    hide InCidr, Pow2, LowerHalf, UpperHalf, High;
    var k := 31 - p;
    HalvesInWord(n, p);
    HalvesHigh(n, p);
    InCidrIsHigh(ip, n, p);
    InCidrIsHigh(ip, LowerHalf(n, p), p + 1);
    InCidrIsHigh(ip, UpperHalf(n, p), p + 1);
    HighMore(ip, k, 1);
    HighOne(High(ip, k));
    HalfOf(High(ip, k), High(n, k + 1));
  }

  lemma HighOne(x: nat)
    ensures High(x, 1) == x / 2
  {
    assert High(x, 1) == High(x / 2, 0);
  }

  lemma HalfOf(a: nat, h: nat)
    ensures a / 2 == h <==> a == 2 * h || a == 2 * h + 1
  {
  }

  lemma HalvesHigh(n: Word, p: nat)
    requires p < 32 && 0 <= LowerHalf(n, p) < UpperHalf(n, p)
    ensures High(LowerHalf(n, p), 31 - p) == 2 * High(n, 32 - p)
    ensures High(UpperHalf(n, p), 31 - p) == 2 * High(n, 32 - p) + 1
  {
    var k := 31 - p;
    var h := High(n, k + 1);
    assert Pow2(k + 1) == 2 * Pow2(k);
    Whole(LowerHalf(n, p), UpperHalf(n, p), h, Pow2(k));
    hide High, Pow2, LowerHalf, UpperHalf;
    HighDivides(LowerHalf(n, p), k);
    HighDivides(UpperHalf(n, p), k);
  }

  lemma Whole(lower: nat, upper: nat, h: nat, d: nat)
    requires d > 0 && lower == h * (2 * d) && upper == lower + d
    ensures lower / d == 2 * h && upper / d == 2 * h + 1
  {
    assert lower == (2 * h) * d;
    assert upper == (2 * h + 1) * d;
    QuotientIs(lower, d, 2 * h);
    QuotientIs(upper, d, 2 * h + 1);
  }

  lemma HalvesInWord(n: Word, p: nat)
    requires p < 32
    ensures 0 <= LowerHalf(n, p) < UpperHalf(n, p) < WORD
  {
    var k := 32 - p;
    assert Pow2(k) == 2 * Pow2(31 - p);
    hide High, Pow2;
    HighIs(n, k);
    Pow2Word();
    Pow2Splits(p, k);
    InWord(High(n, k), Pow2(p), Pow2(31 - p), n);
  }

  lemma InWord(h: nat, p: nat, half: nat, n: nat)
    requires half >= 1 && p * (2 * half) == WORD && h * (2 * half) <= n < WORD
    ensures 0 <= h * (2 * half) < h * (2 * half) + half < WORD
  {
    var d := 2 * half;
    if p <= h {
      Times(p, h, d);
    } else {
      Times(h + 1, p, d);
      assert (h + 1) * d == h * d + d;
    }
  }

  // ---------- rules ----------

  /** The library's address and number parsers. */
  datatype Parsers = Parsers(address: string -> Option<Word>, number: string -> Option<int>)

  datatype Block = Block(network: Word, prefix: nat)

  /** An address alone is a block of one; a prefix outside 0..32 makes the rule void. */
  function BlockOf(parsers: Parsers, rule: string): (b: Option<Block>)
    ensures b.Some? ==> b.value.prefix <= 32
  {
    var slash := IndexOf(rule, '/', 0);
    var network := parsers.address(if slash == -1 then rule else rule[..slash]);
    if network.None? then None
    else if slash == -1 then Some(Block(network.value, 32))
    else
      var prefix := parsers.number(rule[slash + 1..]);
      if prefix.None? || prefix.value < 0 || prefix.value > 32 then None
      else Some(Block(network.value, prefix.value))
  }

  method ParseCidr(parsers: Parsers, rule: string) returns (ok: bool, network: Word, prefix: nat)
    ensures BlockOf(parsers, rule) == if ok then Some(Block(network, prefix)) else None
  {
    network, prefix := 0, 0;
    var slash := FindChar(rule, '/', 0);
    if slash == -1 {
      var address := parsers.address(rule);
      if address.None? {
        return false, network, prefix;
      }
      return true, address.value, 32;
    }
    var address := parsers.address(rule[..slash]);
    if address.None? {
      return false, network, prefix;
    }
    network := address.value;
    var number := parsers.number(rule[slash + 1..]);
    if number.None? || number.value < 0 || number.value > 32 {
      return false, network, prefix;
    }
    ok, prefix := true, number.value;
  }

  predicate Matches(parsers: Parsers, client: string, rule: string) {
    var ip := parsers.address(client);
    var block := BlockOf(parsers, rule);
    ip.Some? && block.Some? && InCidr(ip.value, block.value.network, block.value.prefix)
  }

  /** Empty rules match nothing. */
  ghost predicate MatchesAny(parsers: Parsers, client: string, rules: seq<string>) {
    exists r :: r in rules && r != "" && Matches(parsers, client, r)
  }

  method AnyRuleMatches(parsers: Parsers, client: string, rules: seq<string>) returns (found: bool)
    ensures found == MatchesAny(parsers, client, rules)
  {
    var i := 0;
    while i < |rules|
      invariant 0 <= i <= |rules|
      invariant forall k :: 0 <= k < i ==> rules[k] == "" || !Matches(parsers, client, rules[k])
    {
      if rules[i] != "" {
        var matches := RuleMatches(parsers, client, rules[i]);
        if matches {
          return true;
        }
      }
      i := i + 1;
    }
    found := false;
  }

  method RuleMatches(parsers: Parsers, client: string, rule: string) returns (found: bool)
    ensures found == Matches(parsers, client, rule)
  {
    var ip := parsers.address(client);
    if ip.None? {
      return false;
    }
    var ok, network, prefix := ParseCidr(parsers, rule);
    if !ok {
      return false;
    }
    found := InCidr(ip.value, network, prefix);
  }

  datatype Lists = Lists(deniedHosts: seq<string>, deniedNetworks: seq<string>, allowedHosts: seq<string>,
    allowedNetworks: seq<string>)

  ghost predicate Denied(parsers: Parsers, client: string, l: Lists) {
    MatchesAny(parsers, client, l.deniedHosts) || MatchesAny(parsers, client, l.deniedNetworks)
  }

  /** A client is let in if no deny rule matches and, when there is an allow list, even one of empty
      rules, some rule on it does. */
  ghost predicate Allowed(parsers: Parsers, client: string, l: Lists) {
    && !Denied(parsers, client, l)
    && (l.allowedHosts != [] || l.allowedNetworks != [] ==>
        MatchesAny(parsers, client, l.allowedHosts) || MatchesAny(parsers, client, l.allowedNetworks))
  }

  method IsAllowed(parsers: Parsers, client: string, l: Lists) returns (ok: bool)
    ensures ok == Allowed(parsers, client, l)
  {
    var denied := AnyRuleMatches(parsers, client, l.deniedHosts);
    if !denied {
      denied := AnyRuleMatches(parsers, client, l.deniedNetworks);
    }
    if denied {
      return false;
    }
    if l.allowedHosts == [] && l.allowedNetworks == [] {
      return true;
    }
    ok := AnyRuleMatches(parsers, client, l.allowedHosts);
    if !ok {
      ok := AnyRuleMatches(parsers, client, l.allowedNetworks);
    }
  }

  /** The decision on the four lists: a client is let in exactly when no rule of either deny list that is not
      empty matches, and there is no allow rule at all or one of either list that is not empty matches. */
  lemma AllowedIff(parsers: Parsers, client: string, l: Lists)
    ensures Allowed(parsers, client, l) <==>
            && (forall r :: (r in l.deniedHosts || r in l.deniedNetworks) && r != "" ==> !Matches(parsers, client, r))
            && ((|l.allowedHosts| == 0 && |l.allowedNetworks| == 0)
                || exists r ::
                     (r in l.allowedHosts || r in l.allowedNetworks) && r != "" && Matches(parsers, client, r))
  {
    hide Matches;
  }

  /** So one rule that matches is enough to refuse. */
  lemma DenyRuleRefuses(parsers: Parsers, client: string, l: Lists, rule: string)
    requires rule in l.deniedHosts || rule in l.deniedNetworks
    requires rule != "" && Matches(parsers, client, rule)
    ensures !Allowed(parsers, client, l)
  {
    hide Matches, Allowed;
    AllowedIff(parsers, client, l);
  }

  lemma RuleParts(parsers: Parsers, address: string, prefix: string)
    requires '/' !in address
    ensures IndexOf(address, '/', 0) == -1
    ensures var rule := address + "/" + prefix;
            IndexOf(rule, '/', 0) == |address| && rule[..|address|] == address && rule[|address| + 1..] == prefix
  {
    hide IndexOf;
    NoIndex(address, '/', 0);
    var rule := address + "/" + prefix;
    assert forall k :: 0 <= k < |address| ==> rule[k] == address[k] && address[k] in address;
    FirstIndex(rule, '/', 0, |address|);
  }

  /** A bare address matches exactly itself. */
  lemma BareRule(parsers: Parsers, client: string, address: string)
    requires '/' !in address
    ensures Matches(parsers, client, address)
            <==> parsers.address(client).Some? && parsers.address(client) == parsers.address(address)
  {
    hide IndexOf, InCidr;
    RuleParts(parsers, address, "");
    var ip, n := parsers.address(client), parsers.address(address);
    if ip.Some? && n.Some? {
      InCidrIsInterval(ip.value, n.value, 32);
      WholeWord(ip.value, n.value);
    }
  }

  lemma WholeWord(a: nat, b: nat)
    ensures a / Pow2(32 - 32) == b / Pow2(32 - 32) <==> a == b
  {
    assert Pow2(0) == 1;
  }

  /** An address and a prefix from 0 to 32 match exactly the addresses that agree with it but for the last
      `32 - prefix` bits; with any other prefix, or none, the rule matches nothing. */
  lemma PrefixRule(parsers: Parsers, client: string, address: string, prefix: string)
    requires '/' !in address
    ensures var ip, n, p := parsers.address(client), parsers.address(address), parsers.number(prefix);
            Matches(parsers, client, address + "/" + prefix)
            <==> ip.Some? && n.Some? && p.Some? && 0 <= p.value <= 32
                 && ip.value / Pow2(32 - p.value) == n.value / Pow2(32 - p.value)
  {
    hide IndexOf, InCidr, Pow2;
    RuleParts(parsers, address, prefix);
    var ip, n, p := parsers.address(client), parsers.address(address), parsers.number(prefix);
    if ip.Some? && n.Some? && p.Some? && 0 <= p.value <= 32 {
      InCidrIsInterval(ip.value, n.value, p.value);
    }
  }

  // ---------- decisions ----------

  lemma MatchesAnyAppend(parsers: Parsers, client: string, a: seq<string>, b: seq<string>)
    ensures MatchesAny(parsers, client, a + b) <==> MatchesAny(parsers, client, a) || MatchesAny(parsers, client, b)
  {
    hide Matches;
    if MatchesAny(parsers, client, a) {
      var r :| r in a && r != "" && Matches(parsers, client, r);
      assert r in a + b;
    }
    if MatchesAny(parsers, client, b) {
      var r :| r in b && r != "" && Matches(parsers, client, r);
      assert r in a + b;
    }
  }

  /** Two rules that name the halves of what one rule names. */
  ghost predicate Halves(parsers: Parsers, rule: string, lower: string, upper: string) {
    && lower != "" && upper != "" && rule != ""
    && var b := BlockOf(parsers, rule);
       && b.Some? && b.value.prefix < 32
       && BlockOf(parsers, lower).Some? && BlockOf(parsers, upper).Some?
       && BlockOf(parsers, lower).value.prefix == b.value.prefix + 1
         && BlockOf(parsers, upper).value.prefix == b.value.prefix + 1
       && BlockOf(parsers, lower).value.network == LowerHalf(b.value.network, b.value.prefix)
       && BlockOf(parsers, upper).value.network == UpperHalf(b.value.network, b.value.prefix)
  }

  lemma HalvesMatch(parsers: Parsers, client: string, rule: string, lower: string, upper: string)
    requires Halves(parsers, rule, lower, upper)
    ensures Matches(parsers, client, rule) <==> Matches(parsers, client, lower) || Matches(parsers, client, upper)
  {
    var b := BlockOf(parsers, rule).value;
    var ip := parsers.address(client);
    if ip.Some? {
      HalvesMakeBlock(ip.value, b.network, b.prefix);
    }
  }

  lemma SplitList(parsers: Parsers, client: string, a: seq<string>, b: seq<string>, rule: string, lower: string,
                  upper: string)
    requires Halves(parsers, rule, lower, upper)
    ensures MatchesAny(parsers, client, a + [rule] + b) <==> MatchesAny(parsers, client, a + [lower, upper] + b)
  {
    hide Matches;
    MatchesAnyAppend(parsers, client, a + [rule], b);
    MatchesAnyAppend(parsers, client, a, [rule]);
    MatchesAnyAppend(parsers, client, a + [lower, upper], b);
    MatchesAnyAppend(parsers, client, a, [lower, upper]);
    HalvesMatch(parsers, client, rule, lower, upper);
    assert rule in [rule] && lower in [lower, upper] && upper in [lower, upper];
  }

  /** Writing a block as its two halves, in whichever list, changes no decision. */
  lemma SplittingChangesNothing(parsers: Parsers, client: string, l: Lists, a: seq<string>, b: seq<string>,
                                rule: string, lower: string, upper: string)
    requires Halves(parsers, rule, lower, upper)
    ensures Allowed(parsers, client, l.(deniedHosts := a + [rule] + b)) <==>
            Allowed(parsers, client, l.(deniedHosts := a + [lower, upper] + b))
    ensures Allowed(parsers, client, l.(deniedNetworks := a + [rule] + b)) <==>
            Allowed(parsers, client, l.(deniedNetworks := a + [lower, upper] + b))
    ensures Allowed(parsers, client, l.(allowedHosts := a + [rule] + b)) <==>
            Allowed(parsers, client, l.(allowedHosts := a + [lower, upper] + b))
    ensures Allowed(parsers, client, l.(allowedNetworks := a + [rule] + b)) <==>
            Allowed(parsers, client, l.(allowedNetworks := a + [lower, upper] + b))
  {
    SplitList(parsers, client, a, b, rule, lower, upper);
    hide MatchesAny, Halves;
    assert a + [rule] + b != [] && a + [lower, upper] + b != [] by {
      assert |a + [rule] + b| > 0 && |a + [lower, upper] + b| > 0;
    }
  }

  /** More deny rules never let more clients in; more allow rules never keep more out, once there is
      an allow list. */
  lemma MoreRules(parsers: Parsers, client: string, l: Lists, more: seq<string>)
    ensures Allowed(parsers, client, l.(deniedNetworks := l.deniedNetworks + more)) ==> Allowed(parsers, client, l)
    ensures Allowed(parsers, client, l.(deniedHosts := l.deniedHosts + more)) ==> Allowed(parsers, client, l)
    ensures l.allowedHosts != [] || l.allowedNetworks != [] ==>
              Allowed(parsers, client, l) ==>
                && Allowed(parsers, client, l.(allowedNetworks := l.allowedNetworks + more))
                && Allowed(parsers, client, l.(allowedHosts := l.allowedHosts + more))
  {
    hide MatchesAny;
    MatchesAnyAppend(parsers, client, l.allowedHosts, more);
    MatchesAnyAppend(parsers, client, l.deniedNetworks, more);
    MatchesAnyAppend(parsers, client, l.deniedHosts, more);
    MatchesAnyAppend(parsers, client, l.allowedNetworks, more);
  }

  /** Without an allow list the first allow rule shuts others out: the exact effect of adding one. */
  lemma FirstAllowRule(parsers: Parsers, client: string, l: Lists, rule: string)
    requires l.allowedHosts == [] && l.allowedNetworks == []
    ensures Allowed(parsers, client, l.(allowedNetworks := [rule])) <==>
              Allowed(parsers, client, l) && rule != "" && Matches(parsers, client, rule)
  {
    hide Matches;
    assert rule in [rule];
  }
}
