/**
  Recovering an observation index from a dimension name: the pattern
  `<prefix>(\d+)$` searched anywhere in the name (not anchored at the
  start), its digit group read as a decimal integer.
 */
module ObsNames {
  import opened Options

  predicate IsDigit(c: char)
  {
    '0' <= c <= '9'
  }

  predicate AllDigits(s: string)
  {
    forall i :: 0 <= i < |s| ==> IsDigit(s[i])
  }

  /** The decimal value of a digit string, leading zeros allowed. */
  function DigitsValue(ds: string): nat
    requires AllDigits(ds)
  {
    if |ds| == 0 then 0
    else DigitsValue(ds[..|ds| - 1]) * 10 + (ds[|ds| - 1] as int - '0' as int)
  }

  /** The decimal notation of `k`, without leading zeros. */
  function Decimal(k: nat): (s: string)
    ensures |s| > 0 && AllDigits(s)
  {
    var last := ['0' + (k % 10) as char];
    if k < 10 then last else Decimal(k / 10) + last
  }

  /** Reading back the decimal notation of `k` gives `k`. */
  lemma {:induction false} DecimalRoundTrip(k: nat)
    ensures DigitsValue(Decimal(k)) == k
  {
    var s := Decimal(k);
    assert s[..|s| - 1] == if k < 10 then "" else Decimal(k / 10);
    if k >= 10 {
      DecimalRoundTrip(k / 10);
    }
  }

  /** Length of the longest run of digits that ends `s`. */
  function TrailingDigits(s: string): (n: nat)
    ensures n <= |s|
    ensures AllDigits(s[|s| - n..])
    ensures n < |s| ==> !IsDigit(s[|s| - n - 1])
  {
    if |s| == 0 || !IsDigit(s[|s| - 1]) then 0
    else
      var init := s[..|s| - 1];
      var m := TrailingDigits(init);
      var n := 1 + m;
      assert s[|s| - n..] == init[|init| - m..] + [s[|s| - 1]];
      var run := s[|s| - n..];
      assert AllDigits(run) by {
        forall i | 0 <= i < |run| ensures IsDigit(run[i]) {
          if i < m {
            assert run[i] == init[|init| - m..][i];
          }
        }
      }
      assert n < |s| ==> s[|s| - n - 1] == init[|init| - m - 1];
      n
  }

  /** The search semantics of the pattern: some occurrence of `prefix` is
      followed by a non-empty run of digits reaching the end of `name`, and
      that run reads as `k`. */
  ghost predicate PatternMatches(prefix: string, name: string, k: nat)
  {
    exists j :: MatchesAt(prefix, name, j) && DigitsValue(name[j + |prefix|..]) == k
  }

  /** `prefix` occurs at position `j` of `name`, followed by digits only,
      at least one. */
  predicate MatchesAt(prefix: string, name: string, j: int)
  {
    && 0 <= j && j + |prefix| < |name|
    && name[j..j + |prefix|] == prefix
    && AllDigits(name[j + |prefix|..])
  }

  /** A prefix ending in a non-digit, as both name patterns do. */
  predicate EndsInNonDigit(prefix: string)
  {
    |prefix| > 0 && !IsDigit(prefix[|prefix| - 1])
  }

  /** The index carried by `name` under `prefix`: the trailing digit run,
      provided it is non-empty and directly preceded by `prefix`. */
  function MatchIndex(prefix: string, name: string): Option<nat>
  {
    var j := |name| - TrailingDigits(name) - |prefix|;
    if MatchesAt(prefix, name, j) then Some(DigitsValue(name[j + |prefix|..])) else None
  }

  /** For a prefix ending in a non-digit, reading the trailing digit run is
      exactly the pattern's search. */
  lemma MatchIndexIsPattern(prefix: string, name: string)
    requires EndsInNonDigit(prefix)
    ensures forall k: nat :: MatchIndex(prefix, name) == Some(k) <==> PatternMatches(prefix, name, k)
  {
    forall k: nat ensures MatchIndex(prefix, name) == Some(k) <==> PatternMatches(prefix, name, k) {
      if PatternMatches(prefix, name, k) {
        var i :| MatchesAt(prefix, name, i) && DigitsValue(name[i + |prefix|..]) == k;
        OccurrenceEndsAtTrailingRun(prefix, name, i);
      }
    }
  }

  /** An occurrence of a prefix ending in a non-digit, followed only by
      digits, starts right before the trailing digit run. */
  lemma OccurrenceEndsAtTrailingRun(prefix: string, name: string, j: int)
    requires EndsInNonDigit(prefix) && MatchesAt(prefix, name, j)
    ensures TrailingDigits(name) == |name| - j - |prefix|
  {
    var m := |name| - j - |prefix|;
    // The run of `m` digits is preceded by the last character of `prefix`,
    // a non-digit, so it is exactly the trailing run.
    assert !IsDigit(name[|name| - m - 1]) by {
      assert name[j..j + |prefix|][|prefix| - 1] == name[|name| - m - 1];
    }
  }

  /** A configured name `<anything><prefix><k>` carries index `k`. */
  lemma ConfiguredNameCarriesIndex(prefix: string, stem: string, k: nat)
    requires EndsInNonDigit(prefix)
    ensures MatchIndex(prefix, stem + prefix + Decimal(k)) == Some(k)
  {
    var name := stem + prefix + Decimal(k);
    var j := |stem|;
    assert name[j..j + |prefix|] == prefix;
    assert name[j + |prefix|..] == Decimal(k);
    assert MatchesAt(prefix, name, j);
    DecimalRoundTrip(k);
    assert PatternMatches(prefix, name, k);
    MatchIndexIsPattern(prefix, name);
  }
}
