/** What cleaning keeps of a reading, said of its tokens (backend/app/ai/normalise_au.py:270-305). */
module PlateCleanLaws {
  import opened Text
  import opened PlateAlphabet
  import opened PlateClean

  // ----- The tokens are the maximal runs ------------------------------------------------

  predicate StartsRun(s: string, i: nat)
    requires i < |s|
  {
    IsPlateChar(s[i]) && (i == 0 || !IsPlateChar(s[i - 1]))
  }

  /** How many runs start before position `n`. */
  function RunsBefore(s: string, n: nat): nat
    requires n <= |s|
  {
    if n == 0 then 0 else RunsBefore(s, n - 1) + if StartsRun(s, n - 1) then 1 else 0
  }

  ghost predicate MaximalRun(s: string, i: nat, j: nat) {
    && i < j <= |s| && (forall k :: i <= k < j ==> IsPlateChar(s[k]))
    && (i == 0 || !IsPlateChar(s[i - 1])) && (j == |s| || !IsPlateChar(s[j]))
  }

  /** Behind a separator, or behind the whole first run, the runs are those of the rest. */
  lemma {:induction false} RunsOfRest(s: string, m: nat, n: nat)
    requires m <= n <= |s| && (m == 0 || !IsPlateChar(s[m - 1]) || m == |s| || !IsPlateChar(s[m]))
    ensures RunsBefore(s, n) == RunsBefore(s, m) + RunsBefore(s[m..], n - m)
  {
    if m < n {
      RunsOfRest(s, m, n - 1);
      assert StartsRun(s, n - 1) <==> StartsRun(s[m..], n - 1 - m);
    }
  }

  lemma {:induction false} OneRunBefore(s: string, m: nat)
    requires 0 < m <= |s| && forall k :: 0 <= k < m ==> IsPlateChar(s[k])
    ensures RunsBefore(s, m) == 1
  {
    if m > 1 {
      OneRunBefore(s, m - 1);
    }
  }

  lemma {:induction false} TokensCountRuns(s: string)
    ensures |Tokens(s)| == RunsBefore(s, |s|)
    decreases |s|
  {
    if s != "" {
      if IsPlateChar(s[0]) {
        var n := LeadingRun(s);
        TokensCountRuns(s[n..]);
        OneRunBefore(s, n);
        RunsOfRest(s, n, |s|);
      } else {
        TokensCountRuns(s[1..]);
        RunsOfRest(s, 1, |s|);
      }
    }
  }

  lemma RunOfRest(s: string, m: nat, i: nat, j: nat)
    requires MaximalRun(s, i, j) && m <= i
    ensures MaximalRun(s[m..], i - m, j - m) && s[m..][i - m..j - m] == s[i..j]
  {
    var rest := s[m..];
    assert forall k :: 0 <= k < |rest| ==> rest[k] == s[m + k];
    assert forall k :: 0 <= k < j - i ==> rest[i - m..j - m][k] == s[i..j][k];
  }

  lemma FirstRunIsToken(s: string, j: nat)
    requires MaximalRun(s, 0, j)
    ensures |Tokens(s)| > 0 && Tokens(s)[0] == s[0..j] && RunsBefore(s, 0) == 0
  {
    assert LeadingRun(s) == j;
  }

  /** Behind the separator or the run that the text begins with, the tokens are those of the rest. */
  lemma TokensOfRest(s: string, m: nat)
    requires s != "" && m == if IsPlateChar(s[0]) then LeadingRun(s) else 1
    ensures 0 < m <= |s| && (m == |s| || !IsPlateChar(s[m]) || !IsPlateChar(s[m - 1]))
    ensures Tokens(s) == (if IsPlateChar(s[0]) then [s[..m]] else []) + Tokens(s[m..])
    ensures RunsBefore(s, m) == if IsPlateChar(s[0]) then 1 else 0
    ensures forall k :: 0 <= k < m - 1 ==> IsPlateChar(s[k])
  {
    if IsPlateChar(s[0]) {
      OneRunBefore(s, m);
    }
  }

  /** The tokens are exactly the maximal runs of letters and digits, each in its place. */
  lemma {:induction false} RunIsToken(s: string, i: nat, j: nat)
    requires MaximalRun(s, i, j)
    ensures RunsBefore(s, i) < |Tokens(s)| == RunsBefore(s, |s|) && Tokens(s)[RunsBefore(s, i)] == s[i..j]
    decreases |s|
  {
    hide Tokens, LeadingRun, RunsBefore;
    TokensCountRuns(s);
    if i == 0 {
      FirstRunIsToken(s, j);
    } else {
      var m := if IsPlateChar(s[0]) then LeadingRun(s) else 1;
      TokensOfRest(s, m);
      RunsOfRest(s, m, i);
      RunOfRest(s, m, i, j);
      RunIsToken(s[m..], i - m, j - m);
    }
  }

  // ----- Which tokens are kept ----------------------------------------------------------

  /** The tokens that are wanted, one behind the other, in the reading's order. */
  function Concat(tokens: seq<string>, wanted: string -> bool): string {
    if tokens == [] then ""
    else (if wanted(tokens[0]) then tokens[0] else "") + Concat(tokens[1..], wanted)
  }

  predicate IsSlogan(token: string) {
    token in SLOGAN_WORDS
  }

  predicate IsState(token: string) {
    token in STATE_ABBREVIATIONS
  }

  predicate IsPlain(token: string) {
    !IsSlogan(token) && !IsState(token)
  }

  lemma {:induction false} WithoutIsConcat(tokens: seq<string>, words: set<string>)
    ensures Join(Without(tokens, words)) == Concat(tokens, t => t !in words)
    ensures Without(tokens, words) == [] <==> forall t :: t in tokens ==> t in words
    ensures (forall t :: t in tokens ==> t !in words) ==> Without(tokens, words) == tokens
  {
    if tokens != [] {
      assert tokens == [tokens[0]] + tokens[1..];
      WithoutIsConcat(tokens[1..], words);
    }
  }

  lemma {:induction false} WithoutTwice(tokens: seq<string>, words: set<string>, others: set<string>)
    ensures Without(Without(tokens, words), others) == Without(tokens, words + others)
  {
    if tokens != [] {
      WithoutTwice(tokens[1..], words, others);
    }
  }

  lemma {:induction false} SameWantedSameText(tokens: seq<string>, a: string -> bool, b: string -> bool)
    requires forall t :: t in tokens ==> a(t) == b(t)
    ensures Concat(tokens, a) == Concat(tokens, b)
  {
    if tokens != [] {
      assert tokens[0] in tokens && forall t :: t in tokens[1..] ==> t in tokens;
      SameWantedSameText(tokens[1..], a, b);
    }
  }

  lemma SlogansAreNoStates()
    ensures forall t :: IsState(t) ==> !IsSlogan(t)
  {
    assert forall t :: t in STATE_ABBREVIATIONS ==> t !in SLOGAN_WORDS;
  }

  lemma {:induction false} WithoutKeepsOthers(tokens: seq<string>, words: set<string>)
    ensures forall t :: t in Without(tokens, words) <==> t in tokens && t !in words
  {
    if tokens != [] {
      assert tokens == [tokens[0]] + tokens[1..];
      WithoutKeepsOthers(tokens[1..], words);
    }
  }

  lemma {:induction false} AllAreJoined(tokens: seq<string>)
    ensures Join(tokens) == Concat(tokens, t => true)
  {
    if tokens != [] {
      AllAreJoined(tokens[1..]);
    }
  }

  /** If some token is neither a slogan word nor a state, the cleaned text is exactly those. */
  lemma PlainTokensAreKept(raw: string)
    requires exists t :: t in Tokens(UpperText(raw)) && IsPlain(t)
    ensures Clean(raw) == Concat(Tokens(UpperText(raw)), IsPlain)
  {
    hide Tokens, UpperText;
    var tokens := Tokens(UpperText(raw));
    WithoutIsConcat(tokens, SLOGAN_WORDS);
    var kept := Without(tokens, SLOGAN_WORDS);
    WithoutKeepsOthers(tokens, SLOGAN_WORDS);
    WithoutIsConcat(kept, STATE_ABBREVIATIONS);
    WithoutTwice(tokens, SLOGAN_WORDS, STATE_ABBREVIATIONS);
    WithoutIsConcat(tokens, SLOGAN_WORDS + STATE_ABBREVIATIONS);
    SameWantedSameText(tokens, t => t !in SLOGAN_WORDS + STATE_ABBREVIATIONS, IsPlain);
  }

  /** Otherwise, if some token is no slogan word, it is exactly the tokens that are none, states all. */
  lemma StatesAreKept(raw: string)
    requires !exists t :: t in Tokens(UpperText(raw)) && IsPlain(t)
    requires exists t :: t in Tokens(UpperText(raw)) && !IsSlogan(t)
    ensures Clean(raw) == Concat(Tokens(UpperText(raw)), t => !IsSlogan(t))
    ensures forall t :: t in Tokens(UpperText(raw)) && !IsSlogan(t) ==> IsState(t)
  {
    hide Tokens, UpperText;
    var tokens := Tokens(UpperText(raw));
    WithoutIsConcat(tokens, SLOGAN_WORDS);
    var kept := Without(tokens, SLOGAN_WORDS);
    WithoutKeepsOthers(tokens, SLOGAN_WORDS);
    WithoutIsConcat(kept, STATE_ABBREVIATIONS);
    SameWantedSameText(tokens, t => t !in SLOGAN_WORDS, t => !IsSlogan(t));
  }

  /** Otherwise it is all of the tokens: a reading that is nothing but slogan words loses none. */
  lemma SlogansAreKept(raw: string)
    requires forall t :: t in Tokens(UpperText(raw)) ==> IsSlogan(t)
    ensures Clean(raw) == Concat(Tokens(UpperText(raw)), t => true)
  {
    hide Tokens, UpperText;
    var tokens := Tokens(UpperText(raw));
    WithoutIsConcat(tokens, SLOGAN_WORDS);
    SlogansAreNoStates();
    assert forall t :: t in tokens ==> IsSlogan(t) && !IsState(t);
    WithoutIsConcat(tokens, STATE_ABBREVIATIONS);
    AllAreJoined(tokens);
  }

  // ----- The size of a letter ---------------------------------------------------------------

  /** The same text but for letters written small or large. */
  ghost predicate SameLetters(s: string, t: string) {
    && |s| == |t|
    && forall k :: 0 <= k < |s| ==>
         || s[k] == t[k]
         || ('a' <= s[k] <= 'z' && t[k] == s[k] - 'a' + 'A') || ('a' <= t[k] <= 'z' && s[k] == t[k] - 'a' + 'A')
  }

  /** It does not matter how large the letters of a reading are. */
  lemma SizeDoesNotMatter(s: string, t: string)
    requires SameLetters(s, t)
    ensures Clean(s) == Clean(t)
  {
    hide Tokens, Join, DropUnlessAll;
    assert UpperText(s) == UpperText(t);
  }
}
