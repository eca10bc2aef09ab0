/** Reducing an OCR string to its letters and digits (backend/app/ai/normalise_au.py:217-305). */
module PlateClean {
  import opened Text
  import opened PlateAlphabet

  const SLOGAN_WORDS: set<string> := {
    "AUSTRALIA", "AUSTRALIAN", "AUS", "NEW", "SOUTH", "WALES", "WESTERN", "NORTHERN",
    "TERRITORY", "CAPITAL", "VICTORIA", "QUEENSLAND", "TASMANIA", "CANBERRA", "THE", "STATE",
    "FESTIVAL", "PLACE", "TO", "BE", "SUNSHINE", "SMART", "EXPLORE", "POSSIBILITIES", "OUTBACK",
    "NATURALLY", "GARDEN", "HOLIDAY", "ISLE", "INSPIRATION", "DISCOVER", "SPIRIT", "HEART",
    "NATION", "GOVERNMENT", "GOV"
  }

  const STATE_ABBREVIATIONS: set<string> := {"NSW", "VIC", "QLD", "SA", "WA", "TAS", "NT", "ACT"}

  /** The length of the run of letters and digits `s` starts with. */
  function LeadingRun(s: string): (n: nat)
    ensures n <= |s| && (n < |s| ==> !IsPlateChar(s[n]))
    ensures forall i :: 0 <= i < n ==> IsPlateChar(s[i])
  {
    if s == "" || !IsPlateChar(s[0]) then 0 else 1 + LeadingRun(s[1..])
  }

  /** The maximal runs of letters and digits, in order. */
  function Tokens(s: string): seq<string>
    decreases |s|
  {
    if s == "" then []
    else if !IsPlateChar(s[0]) then Tokens(s[1..])
    else
      var n := LeadingRun(s);
      [s[..n]] + Tokens(s[n..])
  }

  lemma {:induction false} RunThenSeparator(run: string, s: string)
    requires IsPlateText(run) && (s == "" || !IsPlateChar(s[0]))
    ensures LeadingRun(run + s) == |run|
    ensures run != "" ==> Tokens(run + s) == [run] + Tokens(s)
  {
    assert forall i :: 0 <= i < |run| ==> (run + s)[i] == run[i];
    assert s != "" ==> (run + s)[|run|] == s[0];
    assert LeadingRun(run + s) == |run|;
    assert (run + s)[..|run|] == run;
    assert (run + s)[|run|..] == s;
  }

  function Closed(current: string): seq<string> {
    if current == "" then [] else [current]
  }

  lemma RunThenRest(run: string, s: string)
    requires IsPlateText(run)
    ensures s == "" ==> Tokens(run + s) == Closed(run)
    ensures s != "" && !IsPlateChar(s[0]) ==> Tokens(run + s) == Closed(run) + Tokens(s[1..])
  {
    if s == "" || !IsPlateChar(s[0]) {
      RunThenSeparator(run, s);
      assert run == "" ==> run + s == s;
    }
  }

  /** The tokens still to come when `current` is being collected and `text[i..]` is unread. */
  ghost function Pending(current: string, text: string, i: nat): seq<string>
    requires i <= |text|
  {
    Tokens(current + text[i..])
  }

  lemma PendingStep(current: string, text: string, i: nat)
    requires IsPlateText(current) && i < |text|
    ensures IsPlateChar(text[i]) ==> Pending(current + [text[i]], text, i + 1) == Pending(current, text, i)
    ensures !IsPlateChar(text[i]) ==>
              Pending(current, text, i) == Closed(current) + Pending("", text, i + 1)
  {
    assert current + [text[i]] + text[i + 1..] == current + text[i..];
    assert "" + text[i + 1..] == text[i..][1..];
    RunThenRest(current, text[i..]);
  }

  /** Closing the current token at a separator. */
  lemma CloseToken(tokens: seq<string>, current: string, text: string, i: nat)
    requires IsPlateText(current) && i < |text| && !IsPlateChar(text[i])
    ensures tokens + Pending(current, text, i) == (tokens + Closed(current)) + Pending("", text, i + 1)
  {
    PendingStep(current, text, i);
  }

  lemma CloseLastToken(tokens: seq<string>, current: string, text: string)
    requires IsPlateText(current)
    ensures tokens + Pending(current, text, |text|) == tokens + Closed(current)
  {
    RunThenRest(current, text[|text|..]);
  }

  lemma NothingRead(text: string)
    ensures [] + Pending("", text, 0) == Tokens(text)
  {
    assert "" + text[0..] == text;
  }

  /** One pass collecting characters, closing a token at each separator. */
  method Tokenise(raw: string) returns (tokens: seq<string>)
    ensures tokens == Tokens(UpperText(raw))
  {
    var text := UpperText(raw);
    var current := "";
    tokens := [];
    NothingRead(text);
    for i := 0 to |text|
      invariant IsPlateText(current)
      invariant tokens + Pending(current, text, i) == Tokens(text)
    {
      if IsPlateChar(text[i]) {
        PendingStep(current, text, i);
        current := current + [text[i]];
      } else {
        CloseToken(tokens, current, text, i);
        if current != "" {
          tokens := tokens + [current];
          current := "";
        }
      }
    }
    CloseLastToken(tokens, current, text);
    if current != "" {
      tokens := tokens + [current];
    }
  }

  function Without(tokens: seq<string>, words: set<string>): seq<string> {
    if tokens == [] then []
    else if tokens[0] in words then Without(tokens[1..], words)
    else [tokens[0]] + Without(tokens[1..], words)
  }

  function Join(tokens: seq<string>): string {
    if tokens == [] then "" else tokens[0] + Join(tokens[1..])
  }

  /** Drop the tokens in `words`, unless that would drop them all. */
  function DropUnlessAll(tokens: seq<string>, words: set<string>): seq<string> {
    var kept := Without(tokens, words);
    if kept == [] then tokens else kept
  }

  function Clean(raw: string): string {
    Join(DropUnlessAll(DropUnlessAll(Tokens(UpperText(raw)), SLOGAN_WORDS), STATE_ABBREVIATIONS))
  }

  // ----- What cleaning guarantees -------------------------------------------------------

  ghost predicate AreTokens(tokens: seq<string>) {
    forall k :: 0 <= k < |tokens| ==> tokens[k] != "" && IsPlateText(tokens[k])
  }

  lemma {:induction false} TokensAreTokens(s: string)
    ensures AreTokens(Tokens(s))
    ensures Tokens(s) == [] <==> forall i :: 0 <= i < |s| ==> !IsPlateChar(s[i])
    decreases |s|
  {
    if s != "" {
      if IsPlateChar(s[0]) {
        TokensAreTokens(s[LeadingRun(s)..]);
      } else {
        TokensAreTokens(s[1..]);
        assert forall i :: 0 <= i < |s| - 1 ==> s[1..][i] == s[i + 1];
        assert forall i :: 1 <= i < |s| ==> s[i] == s[1..][i - 1];
      }
    }
  }

  lemma {:induction false} WithoutKeepsTokens(tokens: seq<string>, words: set<string>)
    requires AreTokens(tokens)
    ensures AreTokens(Without(tokens, words))
  {
    if tokens != [] {
      assert AreTokens(tokens[1..]);
      WithoutKeepsTokens(tokens[1..], words);
    }
  }

  lemma {:induction false} JoinTokens(tokens: seq<string>)
    requires AreTokens(tokens)
    ensures IsPlateText(Join(tokens))
    ensures Join(tokens) == "" <==> tokens == []
  {
    if tokens != [] {
      assert AreTokens(tokens[1..]);
      JoinTokens(tokens[1..]);
    }
  }

  /** Cleaned text is all capitals and digits, and empty only when the input held neither. */
  lemma CleanIsPlateText(raw: string)
    ensures IsPlateText(Clean(raw))
    ensures Clean(raw) == "" <==> forall i :: 0 <= i < |raw| ==> !IsPlateChar(Upper(raw[i]))
  {
    var text := UpperText(raw);
    TokensAreTokens(text);
    WithoutKeepsTokens(Tokens(text), SLOGAN_WORDS);
    var kept := DropUnlessAll(Tokens(text), SLOGAN_WORDS);
    WithoutKeepsTokens(kept, STATE_ABBREVIATIONS);
    JoinTokens(DropUnlessAll(kept, STATE_ABBREVIATIONS));
  }

  /** A text that is already one token comes back unchanged, even a slogan word or a state. */
  lemma CleanKeepsPlateText(s: string)
    requires IsPlateText(s)
    ensures Clean(s) == s
  {
    assert UpperText(s) == s;
    if s != "" {
      RunThenSeparator(s, "");
      assert s + "" == s;
      assert Tokens(s) == [s];
      OneToken(s, SLOGAN_WORDS);
      OneToken(s, STATE_ABBREVIATIONS);
      assert Join([s]) == s + Join([]) == s;
    }
  }

  lemma OneToken(s: string, words: set<string>)
    ensures DropUnlessAll([s], words) == [s]
  {
    assert [s][1..] == [] && [s] + Without([], words) == [s];
  }

  lemma CleanIsIdempotent(raw: string)
    ensures Clean(Clean(raw)) == Clean(raw)
  {
    CleanIsPlateText(raw);
    CleanKeepsPlateText(Clean(raw));
  }
}
