/**
 * Names the gateway makes up (packages/federation/src/naming.ts) and hands out
 * (packages/federation/src/connection-service.ts): tool names, connection aliases,
 * prompt names and resource URIs. The hash of a text is a parameter: any function
 * into hexadecimal digits of the length the code cuts it to.
 */
module Naming {
  import opened Wrappers
  import opened Text

  const MAX_TOOL_NAME := 128
  const MAX_ALIAS := 40

  // ----- characters ------------------------------------------------------------------

  predicate IsHex(c: char) {
    IsDigit(c) || 'a' <= c <= 'f'
  }

  /** `[a-z0-9]`. */
  predicate IsAlnum(c: char) {
    IsDigit(c) || 'a' <= c <= 'z'
  }

  /** `[a-z0-9_-]`. */
  predicate AliasCharacter(c: char) {
    IsAlnum(c) || c == '_' || c == '-'
  }

  /** `[a-zA-Z0-9_.-]`. */
  predicate ToolCharacter(c: char) {
    AliasCharacter(c) || 'A' <= c <= 'Z' || c == '.'
  }

  predicate Hex(s: string, length: nat) {
    |s| == length && forall i :: 0 <= i < |s| ==> IsHex(s[i])
  }

  /** ALIAS_PATTERN. */
  predicate ValidAlias(s: string) {
    && 1 <= |s| <= MAX_ALIAS
    && IsAlnum(s[0]) && IsAlnum(s[|s| - 1])
    && forall i :: 0 <= i < |s| ==> AliasCharacter(s[i])
  }

  /** `slice(0, n)`. */
  function Take(s: string, n: nat): (r: string)
    ensures r <= s && |r| <= n && (|s| <= n ==> r == s) && (|s| > n ==> |r| == n)
  {
    if |s| <= n then s else s[..n]
  }

  function SkipToAlnum(s: string): (r: string)
    ensures r != "" ==> IsAlnum(r[0])
    ensures forall i :: 0 <= i < |r| ==> r[i] in s
  {
    if s == "" || IsAlnum(s[0]) then s else SkipToAlnum(s[1..])
  }

  function CutToAlnum(s: string): (r: string)
    ensures r <= s && (r != "" ==> IsAlnum(r[|r| - 1]))
    ensures s != "" && IsAlnum(s[0]) ==> r != ""
  {
    if s == "" || IsAlnum(s[|s| - 1]) then s else CutToAlnum(s[..|s| - 1])
  }

  /** Replaces every longest run of characters outside `keep` by one `filler`. */
  function Collapse(s: string, keep: char -> bool, filler: char): (r: string)
    ensures forall i :: 0 <= i < |r| ==> keep(r[i]) || r[i] == filler
    ensures r == "" <==> s == ""
  {
    if s == "" then ""
    else if keep(s[0]) then [s[0]] + Collapse(s[1..], keep, filler)
    else if |s| > 1 && !keep(s[1]) then Collapse(s[1..], keep, filler)
    else [filler] + Collapse(s[1..], keep, filler)
  }

  // ----- aliases ---------------------------------------------------------------------

  /** `lower` is the runtime's own lower-casing. */
  function SanitizeAlias(value: string, lower: string -> string): (alias: string)
    ensures ValidAlias(alias)
  {
    var collapsed := Collapse(lower(value), AliasCharacter, '-');
    var cleaned := CutToAlnum(Take(SkipToAlnum(collapsed), MAX_ALIAS));
    if cleaned != "" then cleaned else "server"
  }

  /** ALIAS_PATTERN, character by character. */
  lemma AliasPattern(s: string)
    ensures ValidAlias(s) <==>
      && 1 <= |s| <= 40
      && ('a' <= s[0] <= 'z' || '0' <= s[0] <= '9') && ('a' <= s[|s| - 1] <= 'z' || '0' <= s[|s| - 1] <= '9')
      && forall i :: 0 <= i < |s| ==> 'a' <= s[i] <= 'z' || '0' <= s[i] <= '9' || s[i] == '_' || s[i] == '-'
  {
  }

  /** The characters of a text that satisfy `keep`, in order. */
  function Only(s: string, keep: char -> bool): string {
    if s == "" then "" else Only(s[..|s| - 1], keep) + if keep(s[|s| - 1]) then [s[|s| - 1]] else ""
  }

  lemma {:induction false} OnlyAppends(a: string, b: string, keep: char -> bool)
    ensures Only(a + b, keep) == Only(a, keep) + Only(b, keep)
    decreases |b|
  {
    if b == "" {
      assert a + b == a;
    } else {
      OnlyAppends(a, b[..|b| - 1], keep);
      assert (a + b)[..|a + b| - 1] == a + b[..|b| - 1];
    }
  }

  lemma OnlyFirst(s: string, keep: char -> bool)
    requires s != ""
    ensures Only(s, keep) == (if keep(s[0]) then [s[0]] else "") + Only(s[1..], keep)
  {
    OnlyAppends([s[0]], s[1..], keep);
    assert [s[0]] + s[1..] == s && [s[0]][..0] == "";
    assert Only([s[0]], keep) == "" + if keep(s[0]) then [s[0]] else "";
  }

  lemma {:induction false} OnlyNone(s: string, keep: char -> bool)
    ensures Only(s, keep) == "" <==> forall i :: 0 <= i < |s| ==> !keep(s[i])
  {
    if s != "" { OnlyNone(s[..|s| - 1], keep); }
  }

  /** Collapsing drops no character it keeps, puts none in their place and changes no order. */
  lemma {:induction false} CollapseKeeps(s: string, keep: char -> bool, filler: char, inner: char -> bool)
    requires !inner(filler) && forall c :: inner(c) ==> keep(c)
    ensures Only(Collapse(s, keep, filler), inner) == Only(s, inner)
    ensures |Collapse(s, keep, filler)| <= |s|
    ensures (forall i :: 0 <= i < |s| ==> keep(s[i])) ==> Collapse(s, keep, filler) == s
  {
    if s != "" {
      CollapseKeeps(s[1..], keep, filler, inner);
      OnlyFirst(s, inner);
      var rest := Collapse(s[1..], keep, filler);
      if keep(s[0]) {
        OnlyFirst([s[0]] + rest, inner);
        assert ([s[0]] + rest)[1..] == rest && s == [s[0]] + s[1..];
      } else if !(|s| > 1 && !keep(s[1])) {
        OnlyFirst([filler] + rest, inner);
        assert ([filler] + rest)[1..] == rest;
      }
    }
  }

  lemma {:induction false} SkipKeeps(s: string)
    ensures Only(SkipToAlnum(s), IsAlnum) == Only(s, IsAlnum)
    ensures s != "" && IsAlnum(s[0]) ==> SkipToAlnum(s) == s
    ensures |SkipToAlnum(s)| <= |s|
  {
    if s != "" && !IsAlnum(s[0]) {
      SkipKeeps(s[1..]);
      OnlyFirst(s, IsAlnum);
    }
  }

  lemma {:induction false} CutKeeps(s: string)
    ensures Only(CutToAlnum(s), IsAlnum) == Only(s, IsAlnum)
  {
    if s != "" && !IsAlnum(s[|s| - 1]) { CutKeeps(s[..|s| - 1]); }
  }

  lemma ValidAliasIsKept(value: string, lower: string -> string)
    requires ValidAlias(lower(value))
    ensures SanitizeAlias(value, lower) == lower(value)
  {
    CollapseKeeps(lower(value), AliasCharacter, '-', IsAlnum);
    SkipKeeps(lower(value));
    hide Collapse, SkipToAlnum;
  }

  lemma LettersOfPrefix(a: string, b: string)
    requires a <= b
    ensures Only(a, IsAlnum) <= Only(b, IsAlnum)
  {
    hide Only;
    OnlyAppends(a, b[|a|..], IsAlnum);
    assert a + b[|a|..] == b;
  }

  lemma NoLetters(s: string)
    requires s == "" || IsAlnum(s[0])
    ensures Only(s, IsAlnum) == "" <==> s == ""
  {
    hide Only;
    OnlyNone(s, IsAlnum);
  }

  /**
   * What an alias keeps of a text: a valid alias is kept as it is; of any other text the
   * letters and digits, in order and all of them if the text has at most 40 characters;
   * one without any gives `server`.
   */
  lemma SanitizedAliasKeeps(value: string, lower: string -> string)
    ensures var text, alias := lower(value), SanitizeAlias(value, lower);
      && (ValidAlias(text) ==> alias == text)
      && (Only(text, IsAlnum) == "" ==> alias == "server")
      && (Only(text, IsAlnum) != "" ==> Only(alias, IsAlnum) != "" && Only(alias, IsAlnum) <= Only(text, IsAlnum))
      && (Only(text, IsAlnum) != "" && |text| <= 40 ==> Only(alias, IsAlnum) == Only(text, IsAlnum))
  {
    var text := lower(value);
    var collapsed := Collapse(text, AliasCharacter, '-');
    var skipped := SkipToAlnum(collapsed);
    var taken := Take(skipped, MAX_ALIAS);
    var cleaned := CutToAlnum(taken);
    hide Collapse, SkipToAlnum, CutToAlnum, Only, IsAlnum, ValidAlias, AliasCharacter, Take;
    if ValidAlias(text) { ValidAliasIsKept(value, lower); }
    FillerIsNoLetter();
    CollapseKeeps(text, AliasCharacter, '-', IsAlnum);
    SkipKeeps(collapsed);
    CutKeeps(taken);
    LettersOfPrefix(taken, skipped);
    NoLetters(skipped);
    NoLetters(taken);
    assert cleaned == "" ==> taken == "";
  }

  lemma FillerIsNoLetter()
    ensures !IsAlnum('-') && forall c :: IsAlnum(c) ==> AliasCharacter(c)
  {
  }

  function RoomFor(base: string, suffix: string): string
    requires |suffix| <= MAX_ALIAS
  {
    var kept := CutToAlnum(Take(base, MAX_ALIAS - |suffix|));
    if kept != "" then kept else "server"
  }

  lemma DecimalLength(n: nat)
    ensures n < 1000 ==> |Decimal(n)| <= 3
    ensures n < 10_000_000_000_000_000 ==> |Decimal(n)| <= 16
  {
    ShortDecimal(n, 3);
    ShortDecimal(n, 16);
    assert Power10(3) == 1000;
    assert Power10(16) == 10_000_000_000_000_000 by {
      assert Power10(4) == 10_000 && Power10(8) == 100_000_000 && Power10(12) == 1_000_000_000_000;
    }
  }

  function Power10(d: nat): nat {
    if d == 0 then 1 else 10 * Power10(d - 1)
  }

  lemma {:induction false} ShortDecimal(n: nat, d: nat)
    requires d > 0
    ensures n < Power10(d) ==> |Decimal(n)| <= d
    decreases d
  {
    if d > 1 && n >= 10 { ShortDecimal(n / 10, d - 1); }
  }

  function NumberedSuffix(n: nat): (s: string)
    ensures n < 1000 ==> |s| <= 4
  {
    DecimalLength(n);
    "_" + Decimal(n)
  }

  function AliasCandidate(base: string, n: nat): string
    requires n < 1000
  {
    RoomFor(base, NumberedSuffix(n)) + NumberedSuffix(n)
  }

  function AliasFallback(base: string, digest: string): string
    requires Hex(digest, 6)
  {
    RoomFor(base, "_" + digest) + ("_" + digest)
  }

  lemma RoomyAlias(base: string, suffix: string)
    requires ValidAlias(base) && 2 <= |suffix| <= 20 && IsAlnum(suffix[|suffix| - 1])
    requires forall i :: 0 <= i < |suffix| ==> AliasCharacter(suffix[i])
    ensures ValidAlias(RoomFor(base, suffix) + suffix)
  {
  }

  lemma CandidatesAreValid(base: string, n: nat, digest: string)
    requires ValidAlias(base) && n < 1000 && Hex(digest, 6)
    ensures ValidAlias(AliasCandidate(base, n)) && ValidAlias(AliasFallback(base, digest))
  {
    RoomyAlias(base, NumberedSuffix(n));
    RoomyAlias(base, "_" + digest);
  }

  /** Behind the last underscore stands the whole tail, so different tails make different names. */
  lemma TailsDiffer(a: string, s: string, b: string, t: string)
    requires a + ("_" + s) == b + ("_" + t)
    requires (forall i :: 0 <= i < |s| ==> s[i] != '_') && forall i :: 0 <= i < |t| ==> t[i] != '_'
    ensures s == t
  {
    var x, y := a + ("_" + s), b + ("_" + t);
    assert x[|a|] == '_' && y[|b|] == '_';
    assert forall i :: |a| < i < |x| ==> x[i] == s[i - |a| - 1];
    assert forall i :: |b| < i < |y| ==> y[i] == t[i - |b| - 1];
    assert |a| == |b|;
    assert s == x[|a| + 1..] && t == y[|b| + 1..];
  }

  lemma CandidatesDiffer(base: string, m: nat, n: nat)
    requires m < 1000 && n < 1000 && AliasCandidate(base, m) == AliasCandidate(base, n)
    ensures m == n
  {
    TailsDiffer(RoomFor(base, NumberedSuffix(m)), Decimal(m), RoomFor(base, NumberedSuffix(n)), Decimal(n));
    DecimalInjective(m, n);
  }

  lemma FallbackDiffers(base: string, n: nat, digest: string)
    requires n < 1000 && Hex(digest, 6)
    ensures AliasCandidate(base, n) != AliasFallback(base, digest)
  {
    DecimalLength(n);
    if AliasCandidate(base, n) == AliasFallback(base, digest) {
      TailsDiffer(RoomFor(base, NumberedSuffix(n)), Decimal(n), RoomFor(base, "_" + digest), digest);
    }
  }

  /** The first numbered candidates, from `_2` on. */
  function Candidates(base: string, n: nat): (r: set<string>)
    requires 2 <= n <= 1000
  {
    if n == 2 then {} else Candidates(base, n - 1) + {AliasCandidate(base, n - 1)}
  }

  lemma {:induction false} CandidatesAre(base: string, n: nat)
    requires 2 <= n <= 1000
    ensures |Candidates(base, n)| == n - 2
    ensures forall c :: c in Candidates(base, n) ==> exists k: nat :: 2 <= k < n && c == AliasCandidate(base, k)
  {
    if n > 2 {
      CandidatesAre(base, n - 1);
      if AliasCandidate(base, n - 1) in Candidates(base, n - 1) {
        var k: nat :| 2 <= k < n - 1 && AliasCandidate(base, n - 1) == AliasCandidate(base, k);
        CandidatesDiffer(base, n - 1, k);
      }
    }
  }

  predicate AllTaken(base: string, digest: string, taken: seq<string>)
    requires Hex(digest, 6)
  {
    && base in taken && AliasFallback(base, digest) in taken
    && forall k: nat :: 2 <= k < 1000 ==> AliasCandidate(base, k) in taken
  }

  /** Every way out is taken only when at least 999 different aliases are. */
  lemma AllTakenMeansCrowded(base: string, digest: string, taken: seq<string>)
    requires Hex(digest, 6) && AllTaken(base, digest, taken)
    ensures |set a | a in taken| >= 999
  {
    hide AliasCandidate, AliasFallback, Candidates;
    var candidates, fallback := Candidates(base, 1000), AliasFallback(base, digest);
    CandidatesAre(base, 1000);
    forall c | c in candidates ensures c != fallback {
      var k: nat :| 2 <= k < 1000 && c == AliasCandidate(base, k);
      FallbackDiffers(base, k, digest);
    }
    var all := set a | a in taken;
    assert candidates + {fallback} <= all;
    SubsetSize(candidates + {fallback}, all);
  }

  lemma {:induction false} SubsetSize<T>(a: set<T>, b: set<T>)
    requires a <= b
    ensures |a| <= |b|
  {
    if a != {} {
      var x :| x in a;
      SubsetSize(a - {x}, b - {x});
    }
  }

  /** dedupeAlias: the base, a numbered variant, or as a last resort one with a digest. */
  method DedupeAlias(base: string, taken: seq<string>, digest: string) returns (alias: string)
    requires Hex(digest, 6)
    ensures ValidAlias(base) ==> ValidAlias(alias)
    ensures base !in taken ==> alias == base
    ensures alias in taken <==> AllTaken(base, digest, taken)
    ensures base in taken ==>
      || alias == AliasFallback(base, digest)
      || exists n: nat :: 2 <= n < 1000 && alias == AliasCandidate(base, n) && forall k: nat :: 2 <= k < n ==> AliasCandidate(base, k) in taken
    ensures base in taken && (exists n: nat :: 2 <= n < 1000 && AliasCandidate(base, n) !in taken) ==> alias !in taken
    ensures |set a | a in taken| <= 998 ==> alias !in taken
  {
    hide AliasCandidate, AliasFallback, ValidAlias, Hex;
    if base !in taken {
      return base;
    }
    CandidatesAreValidWhen(base, digest);
    if AllTaken(base, digest, taken) { AllTakenMeansCrowded(base, digest, taken); }
    for suffix := 2 to 1000
      invariant forall k: nat :: 2 <= k < suffix ==> AliasCandidate(base, k) in taken
    {
      var candidate := AliasCandidate(base, suffix);
      if candidate !in taken {
        return candidate;
      }
    }
    alias := AliasFallback(base, digest);
  }

  /** The names tried, where there is room for them: `base_2`, `base_3` and so on, and last `base_digest`. */
  lemma CandidatesSpelledOut(base: string, n: nat, digest: string)
    requires ValidAlias(base) && n < 1000 && Hex(digest, 6)
    ensures |base| + 1 + |Decimal(n)| <= 40 ==> AliasCandidate(base, n) == base + ("_" + Decimal(n))
    ensures |base| + 7 <= 40 ==> AliasFallback(base, digest) == base + ("_" + digest)
  {
    assert CutToAlnum(base) == base;
    hide CutToAlnum;
  }

  lemma CandidatesAreValidWhen(base: string, digest: string)
    requires Hex(digest, 6)
    ensures ValidAlias(base) ==> ValidAlias(AliasFallback(base, digest))
    ensures ValidAlias(base) ==> forall k: nat :: k < 1000 ==> ValidAlias(AliasCandidate(base, k))
  {
    if ValidAlias(base) {
      forall k: nat | k < 1000 ensures ValidAlias(AliasCandidate(base, k)) { CandidatesAreValid(base, k, digest); }
      CandidatesAreValid(base, 0, digest);
    }
  }

  /**
   * The alias of a new connection: the requested one when it is free, else one derived
   * from the host label. The validity check that follows in the code never fails.
   */
  method ChooseAlias(requested: Option<string>, hostLabel: string, taken: seq<string>,
      lower: string -> string, digest: string -> string) returns (alias: string)
    requires forall s :: Hex(digest(s), 6)
    ensures ValidAlias(alias)
    ensures |set a | a in taken| <= 998 ==> alias !in taken
    ensures requested.Some? && requested.value != "" && SanitizeAlias(requested.value, lower) !in taken ==>
      alias == SanitizeAlias(requested.value, lower)
    ensures (requested.None? || requested.value == "" || SanitizeAlias(requested.value, lower) in taken) ==>
      SanitizeAlias(hostLabel, lower) !in taken ==> alias == SanitizeAlias(hostLabel, lower)
  {
    if requested.Some? && requested.value != "" {
      var wanted := SanitizeAlias(requested.value, lower);
      if wanted !in taken {
        return wanted;
      }
    }
    var base := SanitizeAlias(hostLabel, lower);
    alias := DedupeAlias(base, taken, digest(base));
  }

  // ----- tool names ------------------------------------------------------------------

  function NormalizeToolSegment(name: string): (segment: string)
    ensures segment != "" && forall i :: 0 <= i < |segment| ==> ToolCharacter(segment[i])
  {
    var cleaned := Collapse(name, ToolCharacter, '_');
    if cleaned != "" then cleaned else "tool"
  }

  function ToolBase(alias: string, upstreamName: string): string {
    Take(alias + "." + NormalizeToolSegment(upstreamName), MAX_TOOL_NAME)
  }

  function ToolSuffix(digest: string, attempt: nat): (s: string) {
    if attempt == 0 then "_" + digest else "_" + digest + ("_" + Decimal(attempt))
  }

  /** Attempts a runtime can count exactly. */
  const MAX_ATTEMPT := 0x20_0000_0000_0000

  function ToolCandidate(base: string, digest: string, attempt: nat): string
    requires Hex(digest, 8) && attempt <= MAX_ATTEMPT
  {
    SuffixFits(digest, attempt);
    Take(base, MAX_TOOL_NAME - |ToolSuffix(digest, attempt)|) + ToolSuffix(digest, attempt)
  }

  lemma SuffixFits(digest: string, attempt: nat)
    requires Hex(digest, 8) && attempt <= MAX_ATTEMPT
    ensures |ToolSuffix(digest, attempt)| <= 26
  {
    DecimalLength(attempt);
  }

  lemma ToolCandidatesDiffer(base: string, digest: string, m: nat, n: nat)
    requires Hex(digest, 8) && 0 < m <= MAX_ATTEMPT && 0 < n <= MAX_ATTEMPT
    requires ToolCandidate(base, digest, m) == ToolCandidate(base, digest, n)
    ensures m == n
  {
    var a := Take(base, MAX_TOOL_NAME - |ToolSuffix(digest, m)|);
    var b := Take(base, MAX_TOOL_NAME - |ToolSuffix(digest, n)|);
    Regroup(a, "_" + digest, "_" + Decimal(m));
    Regroup(b, "_" + digest, "_" + Decimal(n));
    TailsDiffer(a + ("_" + digest), Decimal(m), b + ("_" + digest), Decimal(n));
    DecimalInjective(m, n);
  }

  /** The candidates of attempts 1 up to, and without, `n`. */
  function ToolCandidates(base: string, digest: string, n: nat): set<string>
    requires Hex(digest, 8) && 1 <= n <= MAX_ATTEMPT
  {
    if n == 1 then {} else ToolCandidates(base, digest, n - 1) + {ToolCandidate(base, digest, n - 1)}
  }

  lemma {:induction false} ToolCandidatesAre(base: string, digest: string, n: nat)
    requires Hex(digest, 8) && 1 <= n <= MAX_ATTEMPT
    ensures |ToolCandidates(base, digest, n)| == n - 1
    ensures forall c :: c in ToolCandidates(base, digest, n) ==>
      exists k: nat :: 1 <= k < n && c == ToolCandidate(base, digest, k)
  {
    hide ToolCandidate;
    if n > 1 {
      ToolCandidatesAre(base, digest, n - 1);
      if ToolCandidate(base, digest, n - 1) in ToolCandidates(base, digest, n - 1) {
        var k: nat :| 1 <= k < n - 1 && ToolCandidate(base, digest, n - 1) == ToolCandidate(base, digest, k);
        ToolCandidatesDiffer(base, digest, n - 1, k);
      }
    }
  }

  /** What a tool is called where there is room: its own name behind the alias, with a suffix only if that is taken. */
  lemma ToolNamesSpelledOut(alias: string, name: string, digest: string, attempt: nat)
    requires Hex(digest, 8) && 1 <= attempt <= MAX_ATTEMPT
    ensures name != "" && (forall i :: 0 <= i < |name| ==> ToolCharacter(name[i])) && |alias| + 1 + |name| <= 128 ==>
      ToolBase(alias, name) == alias + "." + name
    ensures |alias| <= 100 ==> ToolBase(alias, "") == alias + ".tool"
    ensures |name| + 9 <= 128 ==> ToolCandidate(name, digest, 0) == name + ("_" + digest)
    ensures |name| + 10 + |Decimal(attempt)| <= 128 ==>
      ToolCandidate(name, digest, attempt) == name + ("_" + digest + ("_" + Decimal(attempt)))
  {
    CollapseKeeps(name, ToolCharacter, '_', c => ToolCharacter(c) && c != '_');
    hide Collapse;
    assert alias + "." + "tool" == alias + ".tool";
  }

  /** Of a tool's own name the gateway's keeps the accepted characters, in order, as far as there is room. */
  lemma ToolNameKeeps(alias: string, name: string)
    requires name != "" && |alias| + 1 + |name| <= 128
    ensures var accepted := c => ToolCharacter(c) && c != '_';
      var base := ToolBase(alias, name);
      alias + "." <= base && Only(base[|alias| + 1..], accepted) == Only(name, accepted)
  {
    var accepted := c => ToolCharacter(c) && c != '_';
    CollapseKeeps(name, ToolCharacter, '_', accepted);
    var cleaned := Collapse(name, ToolCharacter, '_');
    hide Collapse, Only;
    assert ToolBase(alias, name) == alias + "." + cleaned;
  }

  /** Pigeonhole: fewer than `n` names cannot take the candidates of all attempts from 1 to `n`. */
  lemma AttemptsRunOut(base: string, digest: string, taken: set<string>, n: nat)
    requires Hex(digest, 8) && 1 <= n <= MAX_ATTEMPT
    requires forall k: nat :: 1 <= k < n ==> ToolCandidate(base, digest, k) in taken
    ensures n - 1 <= |taken|
  {
    hide ToolCandidate;
    ToolCandidatesAre(base, digest, n);
    assert ToolCandidates(base, digest, n) <= taken;
    SubsetSize(ToolCandidates(base, digest, n), taken);
  }

  /** `name` carries the alias in front of its first dot. */
  predicate Under(alias: string, name: string) {
    alias + "." <= name
  }

  lemma NamesAreUnderAlias(alias: string, upstreamName: string, digest: string, attempt: nat)
    requires ValidAlias(alias) && Hex(digest, 8) && attempt <= MAX_ATTEMPT
    ensures var base := ToolBase(alias, upstreamName);
            && Under(alias, base) && Under(alias, ToolCandidate(base, digest, attempt))
            && |base| <= MAX_TOOL_NAME && |ToolCandidate(base, digest, attempt)| <= MAX_TOOL_NAME
  {
    SuffixFits(digest, attempt);
    hide NormalizeToolSegment, ToolSuffix, ValidAlias;
    var prefix, base := alias + ".", ToolBase(alias, upstreamName);
    assert |prefix| <= 41 by { AliasLength(alias); }
    assert prefix <= base;
    var kept := Take(base, MAX_TOOL_NAME - |ToolSuffix(digest, attempt)|);
    assert prefix <= kept;
  }

  lemma AliasLength(alias: string)
    requires ValidAlias(alias)
    ensures |alias| <= MAX_ALIAS
  {
  }

  /**
   * gatewayToolName: the search for a free suffix ends, at the first attempt whose
   * candidate is free, with a name that fits and still begins with the alias.
   */
  method GatewayToolName(alias: string, upstreamName: string, digest: string, taken: set<string>) returns (name: string)
    requires ValidAlias(alias) && Hex(digest, 8) && |taken| < MAX_ATTEMPT - 1
    ensures name !in taken && |name| <= 128 && alias + "." <= name
    ensures ToolBase(alias, upstreamName) !in taken ==> name == ToolBase(alias, upstreamName)
    ensures ToolBase(alias, upstreamName) in taken ==>
      var base := ToolBase(alias, upstreamName);
      exists n: nat :: n <= |taken| + 1
        && name == ToolCandidate(base, digest, n) && forall k: nat :: k < n ==> ToolCandidate(base, digest, k) in taken
  {
    hide ToolCandidate, ToolBase;
    var base := ToolBase(alias, upstreamName);
    NamesAreUnderAlias(alias, upstreamName, digest, 0);
    if base !in taken {
      return base;
    }
    var attempt := 0;
    while true
      invariant 0 <= attempt <= |taken| + 1
      invariant forall k: nat :: k < attempt ==> ToolCandidate(base, digest, k) in taken
      decreases |taken| + 2 - attempt
    {
      var candidate := ToolCandidate(base, digest, attempt);
      if candidate !in taken {
        NamesAreUnderAlias(alias, upstreamName, digest, attempt);
        return candidate;
      }
      attempt := attempt + 1;
      AttemptsRunOut(base, digest, taken, attempt);
    }
  }

  /** What naming one connection's tools promises. */
  predicate NamedUnder(alias: string, names: seq<string>) {
    && (forall i :: 0 <= i < |names| ==> Under(alias, names[i]) && |names[i]| <= MAX_TOOL_NAME)
    && forall i, j :: 0 <= i < j < |names| ==> names[i] != names[j]
  }

  /** The naming loop of syncCatalogue. */
  method AssignToolNames(alias: string, upstreamNames: seq<string>, digest: string -> string) returns (names: seq<string>)
    requires ValidAlias(alias) && (forall s :: Hex(digest(s), 8)) && |upstreamNames| < MAX_ATTEMPT - 1
    ensures |names| == |upstreamNames| && NamedUnder(alias, names)
    ensures forall n :: 0 <= n < |names| && ToolBase(alias, upstreamNames[n]) !in names[..n] ==>
      names[n] == ToolBase(alias, upstreamNames[n])
  {
    hide Hex, ValidAlias, ToolBase, ToolCandidate;
    var takenNames: set<string> := {};
    names := [];
    for n := 0 to |upstreamNames|
      invariant |names| == n && |takenNames| <= n && NamedUnder(alias, names)
      invariant forall name :: name in takenNames <==> name in names
      invariant forall i :: 0 <= i < n && ToolBase(alias, upstreamNames[i]) !in names[..i] ==>
        names[i] == ToolBase(alias, upstreamNames[i])
    {
      var name := GatewayToolName(alias, upstreamNames[n], digest(upstreamNames[n]), takenNames);
      ghost var before := names;
      names := names + [name];
      assert forall i :: 0 <= i <= n ==> names[..i] == before[..i];
      assert before[..n] == before;
      takenNames := takenNames + {name};
    }
  }

  lemma PrefixTellsAlias(a: string, b: string, name: string)
    requires ValidAlias(a) && ValidAlias(b) && Under(a, name) && Under(b, name)
    ensures a == b
  {
    assert name[|a|] == (a + ".")[|a|] == '.' && name[|b|] == (b + ".")[|b|] == '.';
    assert forall i :: 0 <= i < |a| ==> name[i] == (a + ".")[i] == a[i];
    assert forall i :: 0 <= i < |b| ==> name[i] == (b + ".")[i] == b[i];
  }

  /**
   * Tool names are distinct across all connections of a tenant: two equal names
   * belong to one tool of one connection.
   */
  lemma ToolNamesAreDistinct(aliases: seq<string>, names: seq<seq<string>>, c: nat, i: nat, d: nat, j: nat)
    requires |aliases| == |names|
    requires forall n :: 0 <= n < |aliases| ==> ValidAlias(aliases[n]) && NamedUnder(aliases[n], names[n])
    requires forall m, n :: 0 <= m < n < |aliases| ==> aliases[m] != aliases[n]
    requires c < |names| && i < |names[c]| && d < |names| && j < |names[d]| && names[c][i] == names[d][j]
    ensures c == d && i == j
  {
    PrefixTellsAlias(aliases[c], aliases[d], names[c][i]);
  }

  // ----- prompts and resources -------------------------------------------------------

  datatype Upstream = Upstream(alias: string, name: string)

  function GatewayPromptName(alias: string, upstreamName: string): string {
    alias + ("/" + upstreamName)
  }

  function SplitPromptName(gatewayName: string): Option<Upstream> {
    var index := IndexOf(gatewayName, '/');
    if index == 0 || index == |gatewayName| then None
    else Some(Upstream(gatewayName[..index], gatewayName[index + 1..]))
  }

  lemma SplitAtFirst(a: string, c: char, b: string)
    requires forall i :: 0 <= i < |a| ==> a[i] != c
    ensures var all := a + ([c] + b); IndexOf(all, c) == |a| && all[..|a|] == a && all[|a| + 1..] == b
  {
    var all := a + ([c] + b);
    assert all[|a|] == c && forall i :: 0 <= i < |a| ==> all[i] == a[i];
  }

  /** Splitting a prompt name undoes joining it exactly for aliases that are not empty and hold no slash. */
  lemma PromptNameReadsBack(alias: string, upstreamName: string)
    ensures GatewayPromptName(alias, upstreamName) == alias + "/" + upstreamName
    ensures SplitPromptName(GatewayPromptName(alias, upstreamName)) == Some(Upstream(alias, upstreamName))
      <==> alias != "" && '/' !in alias
  {
    var all := GatewayPromptName(alias, upstreamName);
    if '/' !in alias {
      SplitAtFirst(alias, '/', upstreamName);
    } else {
      var k :| 0 <= k < |alias| && alias[k] == '/';
      assert all[k] == '/';
      assert IndexOf(all, '/') < |alias|;
    }
  }

  const OPAQUE := "opaque:"

  function GatewayResourceUri(alias: string, upstreamUri: string): string {
    var schemeEnd := IndexOf(upstreamUri, ':');
    if schemeEnd == 0 || schemeEnd == |upstreamUri| then alias + ("+" + (OPAQUE + upstreamUri))
    else alias + ("+" + upstreamUri)
  }

  function SplitResourceUri(gatewayUri: string): Option<Upstream> {
    var plus := IndexOf(gatewayUri, '+');
    if plus == 0 || plus == |gatewayUri| then None
    else
      var remainder := gatewayUri[plus + 1..];
      Some(Upstream(gatewayUri[..plus], if StartsWith(remainder, OPAQUE) then remainder[|OPAQUE|..] else remainder))
  }

  /**
   * A resource URI comes back exactly unless the upstream itself uses the scheme the
   * gateway marks scheme-less URIs with.
   */
  lemma ResourceUriReadsBack(alias: string, upstreamUri: string)
    requires ValidAlias(alias)
    ensures GatewayResourceUri(alias, upstreamUri) ==
      alias + "+" + (if exists i :: 0 < i < |upstreamUri| && upstreamUri[i] == ':' && ':' !in upstreamUri[..i]
                     then upstreamUri else "opaque:" + upstreamUri)
    ensures SplitResourceUri(GatewayResourceUri(alias, upstreamUri)) == Some(Upstream(alias, upstreamUri))
      <==> !StartsWith(upstreamUri, OPAQUE)
  {
    assert alias != "" && forall i :: 0 <= i < |alias| ==> alias[i] != '+';
    var schemeEnd := IndexOf(upstreamUri, ':');
    if StartsWith(upstreamUri, OPAQUE) { OpaqueHasScheme(upstreamUri); }
    SchemeEnds(upstreamUri);
    hide ValidAlias, SplitResourceUri, IndexOf;
    if schemeEnd == 0 || schemeEnd == |upstreamUri| {
      SplitsInto(alias, OPAQUE + upstreamUri);
      assert (OPAQUE + upstreamUri)[|OPAQUE|..] == upstreamUri;
    } else {
      SplitsInto(alias, upstreamUri);
    }
  }

  /** A scheme is what stands before the first colon, if that is neither missing nor in front. */
  lemma SchemeEnds(uri: string)
    ensures 0 < IndexOf(uri, ':') < |uri| <==> exists i :: 0 < i < |uri| && uri[i] == ':' && ':' !in uri[..i]
  {
    var end := IndexOf(uri, ':');
    if 0 < end < |uri| { assert uri[end] == ':' && ':' !in uri[..end]; }
    forall i | 0 < i < |uri| && uri[i] == ':' && ':' !in uri[..i] ensures end == i {
      assert forall j :: 0 <= j < i ==> uri[..i][j] in uri[..i] && uri[..i][j] == uri[j];
    }
  }

  lemma OpaqueHasScheme(uri: string)
    requires StartsWith(uri, OPAQUE)
    ensures 0 < IndexOf(uri, ':') < |uri|
  {
    assert uri[0] == OPAQUE[0] && uri[6] == OPAQUE[6];
  }

  lemma SplitsInto(alias: string, remainder: string)
    requires alias != "" && forall i :: 0 <= i < |alias| ==> alias[i] != '+'
    ensures SplitResourceUri(alias + ("+" + remainder))
         == Some(Upstream(alias, if StartsWith(remainder, OPAQUE) then remainder[|OPAQUE|..] else remainder))
  {
    SplitAtFirst(alias, '+', remainder);
  }
}
