/** The entropy heuristic: the candidate-token shape, the character-frequency
    table, the Shannon entropy sum over it and the length gate in front of
    the threshold. `math.log2` is a parameter of the model; sums are exact
    reals rather than floats. */
module Entropy {
  import opened Strings
  import opened Seqs

  /** `TOKEN_RE` asks for at least this many token characters. */
  const MinTokenLength: nat := 20
  /** Shorter strings are never reported as high-entropy tokens. */
  const MinHighEntropyLength: nat := 28
  /** Bits per character at or above which a long token is reported. */
  const EntropyThreshold: real := 4.0

  // ---------------------------------------------------------------------
  // TOKEN_RE

  /** One `TOKEN_RE` match: where it starts and its text. */
  datatype Token = Token(start: nat, text: string)

  /** `t` is a maximal run of at least 20 token characters of `s`. */
  predicate IsMaximalToken(s: string, t: Token) {
    t.start + |t.text| <= |s|
    && s[t.start..t.start + |t.text|] == t.text
    && |t.text| >= MinTokenLength
    && (forall j :: 0 <= j < |t.text| ==> InClass(t.text[j], TokenChar))
    && (t.start == 0 || !InClass(s[t.start - 1], TokenChar))
    && (t.start + |t.text| == |s| || !InClass(s[t.start + |t.text|], TokenChar))
  }

  /** The scan may resume at `i`: `i` is not inside a run of token
      characters long enough to match. */
  predicate Resumable(s: string, i: nat)
    requires i <= |s|
  {
    i > 0 && InClass(s[i - 1], TokenChar) ==> Run(s, i, TokenChar) + 1 < MinTokenLength
  }

  /** A run too short to match is skipped one character at a time, and the
      scan may resume at the next character. */
  lemma SkipShortRun(s: string, i: nat)
    requires i < |s| && Resumable(s, i) && Run(s, i, TokenChar) < MinTokenLength
    ensures Resumable(s, i + 1) && TokensFrom(s, i) == TokensFrom(s, i + 1)
  {
    assert InClass(s[i], TokenChar) ==> Run(s, i, TokenChar) == 1 + Run(s, i + 1, TokenChar);
  }

  /** A run long enough to match is one token, and the scan resumes where
      it ends. */
  lemma TakeLongRun(s: string, i: nat)
    requires i < |s| && Resumable(s, i) && Run(s, i, TokenChar) >= MinTokenLength
    ensures Resumable(s, i + Run(s, i, TokenChar))
    ensures TokensFrom(s, i) == [Token(i, s[i..i + Run(s, i, TokenChar)])] + TokensFrom(s, i + Run(s, i, TokenChar))
  {
    RunIsMaximal(s, i, TokenChar);
  }

  /** The matches `finditer` yields from position `i` on. A greedy run shorter
      than the minimum fails and the scan moves one character on; a match
      resumes the scan where it ended. The precondition records that a scan
      never resumes inside a run long enough to match. */
  function TokensFrom(s: string, i: nat): seq<Token>
    requires i <= |s| && Resumable(s, i)
    decreases |s| - i
  {
    if i == |s| then []
    else
      var n := Run(s, i, TokenChar);
      if n >= MinTokenLength then
        RunIsMaximal(s, i, TokenChar);
        [Token(i, s[i..i + n])] + TokensFrom(s, i + n)
      else
        assert InClass(s[i], TokenChar) ==> Run(s, i, TokenChar) == 1 + Run(s, i + 1, TokenChar);
        TokensFrom(s, i + 1)
  }

  /** A run of at least 20 token characters at a place where the scan may
      resume is a maximal token. */
  lemma LongRunIsToken(s: string, i: nat)
    requires i < |s| && Resumable(s, i) && Run(s, i, TokenChar) >= MinTokenLength
    ensures IsMaximalToken(s, Token(i, s[i..i + Run(s, i, TokenChar)]))
  {
    var n := Run(s, i, TokenChar);
    var t := s[i..i + n];
    RunIsMaximal(s, i, TokenChar);
    forall j | 0 <= j < |t| ensures InClass(t[j], TokenChar) {
      assert t[j] == s[i + j];
    }
  }

  /** Every token found from `i` on starts at or after `i` and is a maximal
      run of at least 20 token characters. */
  lemma {:induction false} TokensMaximal(s: string, i: nat)
    requires i <= |s| && Resumable(s, i)
    ensures forall t :: t in TokensFrom(s, i) ==> i <= t.start && IsMaximalToken(s, t)
    decreases |s| - i
  {
    if i < |s| {
      var n := Run(s, i, TokenChar);
      if n >= MinTokenLength {
        TakeLongRun(s, i);
        TokensMaximal(s, i + n);
        LongRunIsToken(s, i);
      } else {
        SkipShortRun(s, i);
        TokensMaximal(s, i + 1);
      }
    }
  }

  /** Each token ends strictly before any later one starts. */
  predicate InOrder(r: seq<Token>) {
    forall a, b :: 0 <= a < b < |r| ==> r[a].start + |r[a].text| < r[b].start
  }

  lemma ConsInOrder(t: Token, rest: seq<Token>)
    requires InOrder(rest)
    requires rest != [] ==> t.start + |t.text| < rest[0].start
    ensures InOrder([t] + rest)
  {
    var r := [t] + rest;
    forall a, b | 0 <= a < b < |r| ensures r[a].start + |r[a].text| < r[b].start {
      if a == 0 {
        assert r[b] == rest[b - 1];
        if b > 1 {
          assert rest[0].start + |rest[0].text| < rest[b - 1].start;
        }
      } else {
        assert r[a] == rest[a - 1] && r[b] == rest[b - 1];
      }
    }
  }

  /** A maximal token cannot start right where a run of token characters
      stops. */
  lemma NoTokenAtRunEnd(s: string, i: nat, u: Token)
    requires i <= |s| && i + Run(s, i, TokenChar) <= u.start && IsMaximalToken(s, u)
    ensures i + Run(s, i, TokenChar) < u.start
  {
    RunIsMaximal(s, i, TokenChar);
    assert s[u.start] == u.text[0];
  }

  /** After a long run, the next token starts beyond the character that
      ended the run. */
  lemma GapAfterLongRun(s: string, i: nat)
    requires i < |s| && Resumable(s, i) && Run(s, i, TokenChar) >= MinTokenLength
    ensures Resumable(s, i + Run(s, i, TokenChar))
    ensures TokensFrom(s, i + Run(s, i, TokenChar)) != [] ==>
      i + Run(s, i, TokenChar) < TokensFrom(s, i + Run(s, i, TokenChar))[0].start
  {
    var n := Run(s, i, TokenChar);
    TakeLongRun(s, i);
    var rest := TokensFrom(s, i + n);
    if rest != [] {
      TokensMaximal(s, i + n);
      assert rest[0] in rest;
      NoTokenAtRunEnd(s, i, rest[0]);
    }
  }

  /** The token of a long run comes before every token found after it. */
  lemma OrderedAfterLongRun(s: string, i: nat)
    requires i < |s| && Resumable(s, i) && Run(s, i, TokenChar) >= MinTokenLength
    requires Resumable(s, i + Run(s, i, TokenChar)) && InOrder(TokensFrom(s, i + Run(s, i, TokenChar)))
    ensures InOrder(TokensFrom(s, i))
  {
    var n := Run(s, i, TokenChar);
    TakeLongRun(s, i);
    var rest := TokensFrom(s, i + n);
    GapAfterLongRun(s, i);
    ConsInOrder(Token(i, s[i..i + n]), rest);
  }

  /** Successive matches are disjoint and in left-to-right order, with at
      least one non-token character between them. */
  lemma {:induction false} TokensOrdered(s: string, i: nat)
    requires i <= |s| && Resumable(s, i)
    ensures InOrder(TokensFrom(s, i))
    decreases |s| - i
  {
    if i < |s| {
      var n := Run(s, i, TokenChar);
      if n >= MinTokenLength {
        TakeLongRun(s, i);
        TokensOrdered(s, i + n);
        OrderedAfterLongRun(s, i);
      } else {
        SkipShortRun(s, i);
        TokensOrdered(s, i + 1);
      }
    }
  }

  /** A maximal token is exactly the run of token characters at its start. */
  lemma TokenRun(s: string, t: Token)
    requires IsMaximalToken(s, t)
    ensures Run(s, t.start, TokenChar) == |t.text|
  {
    forall j | t.start <= j < t.start + |t.text| ensures InClass(s[j], TokenChar) {
      assert s[j] == t.text[j - t.start];
    }
    RunExact(s, t.start, TokenChar, |t.text|);
  }

  /** Every maximal token at or after `i` is found from `i` on. */
  lemma {:induction false} TokensComplete(s: string, i: nat, t: Token)
    requires i <= |s| && Resumable(s, i) && IsMaximalToken(s, t) && i <= t.start
    ensures t in TokensFrom(s, i)
    decreases |s| - i
  {
    TokenRun(s, t);
    var n := Run(s, i, TokenChar);
    if n >= MinTokenLength {
      TakeLongRun(s, i);
      RunIsMaximal(s, i, TokenChar);
      if t.start == i {
        assert Token(i, s[i..i + n]) == t;
      } else {
        TokensComplete(s, i + n, t);
      }
    } else {
      SkipShortRun(s, i);
      TokensComplete(s, i + 1, t);
    }
  }

  /** `TOKEN_RE.finditer(line)`: the maximal runs of at least 20 characters
      of `[A-Za-z0-9_\-\/\+=]`, left to right and disjoint. */
  function FindTokens(s: string): (r: seq<Token>)
    ensures forall k :: 0 <= k < |r| ==> IsMaximalToken(s, r[k])
    ensures InOrder(r)
    ensures forall t :: IsMaximalToken(s, t) ==> t in r
  {
    TokensMaximal(s, 0);
    forall t | IsMaximalToken(s, t) ensures t in TokensFrom(s, 0) {
      TokensComplete(s, 0, t);
    }
    TokensOrdered(s, 0);
    TokensFrom(s, 0)
  }

  // ---------------------------------------------------------------------
  // The frequency table

  /** The distinct characters of `s` in order of first occurrence: the key
      order of the `freq` dict, which Python keeps in insertion order. */
  function Distinct(s: string): (r: seq<char>)
    ensures forall c :: c in r <==> c in s
    ensures forall a, b :: 0 <= a < b < |r| ==> r[a] != r[b]
    decreases |s|
  {
    if s == [] then []
    else
      var init := Distinct(s[..|s| - 1]);
      assert forall c :: c in s <==> c in s[..|s| - 1] || c == s[|s| - 1] by {
        assert s == s[..|s| - 1] + [s[|s| - 1]];
      }
      if s[|s| - 1] in init then init else init + [s[|s| - 1]]
  }

  /** The sum of the occurrence counts of the characters `ks` in `s`. */
  function SumCounts(s: string, ks: seq<char>): nat
    decreases |ks|
  {
    if ks == [] then 0
    else SumCounts(s, ks[..|ks| - 1]) + Occurrences(s, ks[|ks| - 1])
  }

  /** The sum of the table's values over the keys `ks`. */
  function SumValues(freq: map<char, nat>, ks: seq<char>): nat
    requires forall c :: c in ks ==> c in freq
    decreases |ks|
  {
    if ks == [] then 0
    else SumValues(freq, ks[..|ks| - 1]) + freq[ks[|ks| - 1]]
  }

  /** The loop that fills `freq`: one key per distinct character, in order of
      first occurrence, each with its number of occurrences; every count is
      at least 1 and the counts add up to `len(s)`. */
  method FrequencyTable(s: string) returns (keys: seq<char>, freq: map<char, nat>)
    ensures keys == Distinct(s)
    ensures forall c :: c in freq <==> c in s
    ensures forall c :: c in freq ==> freq[c] == Occurrences(s, c) && freq[c] >= 1
    ensures SumValues(freq, keys) == |s|
  {
    keys, freq := [], map[];
    for i := 0 to |s|
      invariant Tallies(s[..i], keys, freq)
    {
      var ch := s[i];
      var seen := if ch in freq then freq[ch] else 0;
      ghost var keys0, freq0 := keys, freq;
      if ch !in freq {
        keys := keys + [ch];
      }
      freq := freq[ch := seen + 1];
      assert s[..i + 1] == s[..i] + [ch];
      TallyStep(s[..i], ch, keys0, freq0, keys, freq);
    }
    assert s[..|s|] == s;
    TalliesSum(s, keys, freq);
  }

  /** `keys` and `freq` are the key order and the counts of `t`. */
  predicate Tallies(t: string, keys: seq<char>, freq: map<char, nat>) {
    && keys == Distinct(t)
    && (forall c :: c in freq <==> c in t)
    && (forall c :: c in freq ==> freq[c] == Occurrences(t, c))
  }

  /** A finished table: every count is at least 1 and the counts add up to
      the length. */
  lemma TalliesSum(t: string, keys: seq<char>, freq: map<char, nat>)
    requires Tallies(t, keys, freq)
    ensures forall c :: c in freq ==> freq[c] >= 1
    ensures SumValues(freq, keys) == |t|
  {
    CountsSumToLength(t);
    SumValuesIsSumCounts(t, freq, keys);
  }

  /** One turn of the loop in `FrequencyTable`: counting one more character
      `ch` keeps the table equal to the counts of the longer prefix. */
  lemma TallyStep(t: string, ch: char, keys: seq<char>, freq: map<char, nat>,
                  keys': seq<char>, freq': map<char, nat>)
    requires Tallies(t, keys, freq)
    requires keys' == if ch in freq then keys else keys + [ch]
    requires freq' == freq[ch := (if ch in freq then freq[ch] else 0) + 1]
    ensures Tallies(t + [ch], keys', freq')
  {
    assert (t + [ch])[..|t|] == t;
    forall c | c in freq' ensures freq'[c] == Occurrences(t + [ch], c) {
      OccurrencesSnoc(t, ch, c);
    }
  }

  lemma {:induction false} SumValuesIsSumCounts(s: string, freq: map<char, nat>, ks: seq<char>)
    requires forall c :: c in ks ==> c in freq && freq[c] == Occurrences(s, c)
    ensures SumValues(freq, ks) == SumCounts(s, ks)
    decreases |ks|
  {
    if ks != [] {
      SumValuesIsSumCounts(s, freq, ks[..|ks| - 1]);
    }
  }

  /** Over distinct keys, appending `c` to `s` raises the sum of counts by one
      exactly when `c` is among the keys. */
  lemma {:induction false} SumCountsSnoc(s: string, c: char, ks: seq<char>)
    requires forall a, b :: 0 <= a < b < |ks| ==> ks[a] != ks[b]
    ensures SumCounts(s + [c], ks) == SumCounts(s, ks) + (if c in ks then 1 else 0)
    decreases |ks|
  {
    if ks != [] {
      var init, last := ks[..|ks| - 1], ks[|ks| - 1];
      SumCountsSnoc(s, c, init);
      OccurrencesSnoc(s, c, last);
      assert ks == init + [last];
      assert c == last ==> c !in init;
    }
  }

  /** The counts of the distinct characters of `s` add up to `len(s)`. */
  lemma {:induction false} CountsSumToLength(s: string)
    ensures SumCounts(s, Distinct(s)) == |s|
    decreases |s|
  {
    if s != [] {
      var init, c := s[..|s| - 1], s[|s| - 1];
      assert s == init + [c];
      CountsSumToLength(init);
      var d := Distinct(init);
      SumCountsSnoc(init, c, d);
      if c !in d {
        assert Distinct(s) == d + [c];
        assert (d + [c])[..|d|] == d;
        OccurrencesSnoc(init, c, c);
      }
    }
  }

  // ---------------------------------------------------------------------
  // Shannon entropy

  /** One term `p * log2(p)` of the sum, for `p = count / n`. */
  function Term(count: nat, n: nat, log2: real -> real): real
    requires n > 0
  {
    var p := count as real / n as real;
    p * log2(p)
  }

  /** `-Σ p log2 p` over the keys `ks`, accumulated in key order. */
  function EntropySum(s: string, ks: seq<char>, log2: real -> real): real
    requires s != []
    decreases |ks|
  {
    if ks == [] then 0.0
    else EntropySum(s, ks[..|ks| - 1], log2) - Term(Occurrences(s, ks[|ks| - 1]), |s|, log2)
  }

  lemma EntropySumStep(s: string, ks: seq<char>, i: nat, log2: real -> real)
    requires s != [] && i < |ks|
    ensures EntropySum(s, ks[..i + 1], log2)
      == EntropySum(s, ks[..i], log2) - Term(Occurrences(s, ks[i]), |s|, log2)
  {
    assert ks[..i + 1][..i] == ks[..i];
  }

  /** `shannon_entropy(s)`: 0 for the empty string, otherwise the sum over the
      distinct characters. */
  function ShannonEntropyOf(s: string, log2: real -> real): real {
    if s == [] then 0.0 else EntropySum(s, Distinct(s), log2)
  }

  /** The second loop of `shannon_entropy`: subtract `p * log2(p)` for each
      table value, in insertion order. */
  method SubtractTerms(s: string, keys: seq<char>, freq: map<char, nat>, log2: real -> real)
    returns (ent: real)
    requires s != []
    requires forall k :: 0 <= k < |keys| ==> keys[k] in freq && freq[keys[k]] == Occurrences(s, keys[k])
    ensures ent == EntropySum(s, keys, log2)
  {
    ent := 0.0;
    var length := |s|;
    for i := 0 to |keys|
      invariant ent == EntropySum(s, keys[..i], log2)
    {
      var c := freq[keys[i]];
      var p := c as real / length as real;
      EntropySumStep(s, keys, i, log2);
      ent := ent - p * log2(p);
    }
    assert keys[..|keys|] == keys;
  }

  /** `shannon_entropy`: 0.0 for the empty string; otherwise fill the table,
      then sum the terms over it. */
  method ShannonEntropy(s: string, log2: real -> real) returns (ent: real)
    ensures ent == ShannonEntropyOf(s, log2)
    ensures s == [] ==> ent == 0.0
  {
    if s == [] {
      return 0.0;
    }
    var keys, freq := FrequencyTable(s);
    ent := SubtractTerms(s, keys, freq, log2);
  }

  /** A string of one repeated character has a single table entry whose count
      is its length, so `p = 1` and the only term is `log2(1)`. */
  lemma {:induction false} UniformEntropy(s: string, log2: real -> real)
    requires s != [] && forall i :: 0 <= i < |s| ==> s[i] == s[0]
    ensures Distinct(s) == [s[0]]
    ensures Occurrences(s, s[0]) == |s|
    ensures ShannonEntropyOf(s, log2) == -log2(1.0)
    ensures log2(1.0) == 0.0 ==> ShannonEntropyOf(s, log2) == 0.0
    decreases |s|
  {
    UniformCounts(s);
    DivSelf(|s|);
    assert Term(|s|, |s|, log2) == log2(1.0);
    assert [s[0]][..0] == [];
    assert EntropySum(s, [s[0]], log2) == EntropySum(s, [], log2) - Term(|s|, |s|, log2);
  }

  lemma DivSelf(n: nat)
    requires n > 0
    ensures n as real / n as real == 1.0
  {
  }

  lemma {:induction false} UniformCounts(s: string)
    requires s != [] && forall i :: 0 <= i < |s| ==> s[i] == s[0]
    ensures Distinct(s) == [s[0]]
    ensures Occurrences(s, s[0]) == |s|
    decreases |s|
  {
    if |s| > 1 {
      var init := s[..|s| - 1];
      assert init[0] == s[0];
      UniformCounts(init);
    }
  }

  /** `looks_like_high_entropy_token`: false below 28 characters whatever the
      entropy; from 28 on, exactly `shannon_entropy(s) >= 4.0`. */
  function LooksLikeHighEntropyToken(s: string, log2: real -> real): (r: bool)
    ensures |s| < MinHighEntropyLength ==> !r
    ensures |s| >= MinHighEntropyLength ==> (r <==> ShannonEntropyOf(s, log2) >= EntropyThreshold)
  {
    if |s| < MinHighEntropyLength then false
    else ShannonEntropyOf(s, log2) >= EntropyThreshold
  }
}
