/** What a setting may be, and which inputs give it (backend/app/core/settings_service.py:133-370). */
module SettingFits {
  import opened Options
  import opened Sequences
  import opened Text
  import opened SettingCoercion

  // ----- White space ----------------------------------------------------------------------

  ghost predicate Blank(s: string) {
    forall k :: 0 <= k < |s| ==> IsSpace(s[k])
  }

  lemma {:induction false} BeginsAt(s: string, i: nat, n: nat)
    requires i <= n <= |s| && (n < |s| ==> !IsSpace(s[n])) && forall k :: i <= k < n ==> IsSpace(s[k])
    ensures Begins(s, i) == n
    decreases n - i
  {
    if i < n {
      BeginsAt(s, i + 1, n);
    }
  }

  lemma {:induction false} EndsAt(s: string, a: nat, b: nat, n: nat)
    requires a <= b <= n <= |s| && (a < b ==> !IsSpace(s[b - 1])) && forall k :: b <= k < n ==> IsSpace(s[k])
    ensures Ends(s, a, n) == b
  {
    if b < n {
      EndsAt(s, a, b, n - 1);
    }
  }

  /** Stripping takes the white space off both ends, and nothing else. */
  lemma StripIs(before: string, middle: string, after: string)
    requires Blank(before) && Trim(middle) && Blank(after)
    ensures Strip(before + middle + after) == middle
  {
    var s := before + middle + after;
    var begins := if middle == "" then |s| else |before|;
    assert forall k :: 0 <= k < |before| ==> s[k] == before[k];
    assert forall k :: 0 <= k < |middle| ==> s[|before| + k] == middle[k];
    assert forall k :: |before| + |middle| <= k < |s| ==> s[k] == after[k - (|before| + |middle|)];
    BeginsAt(s, 0, begins);
    EndsAt(s, begins, if middle == "" then |s| else |before| + |middle|, |s|);
  }

  /** Every text is a trim one between white space. */
  lemma {:induction false} Splits(s: string) returns (before: string, middle: string, after: string)
    ensures Blank(before) && Trim(middle) && Blank(after) && s == before + middle + after
  {
    if s != "" && IsSpace(s[0]) {
      var rest;
      rest, middle, after := Splits(s[1..]);
      before := [s[0]] + rest;
      MoreBefore(s[0], rest, middle, after);
      assert s == [s[0]] + s[1..];
    } else if s != "" && IsSpace(s[|s| - 1]) {
      var rest;
      before, middle, rest := Splits(s[..|s| - 1]);
      after := rest + [s[|s| - 1]];
      Associates(before + middle, rest, [s[|s| - 1]]);
      assert s == s[..|s| - 1] + [s[|s| - 1]];
    } else {
      before, middle, after := "", s, "";
    }
  }

  lemma MoreBefore(c: char, before: string, middle: string, after: string)
    ensures [c] + (before + middle + after) == ([c] + before) + middle + after
  {
  }

  // ----- Truth values ---------------------------------------------------------------------

  ghost function Words(flag: bool): set<string> {
    if flag then {"1", "true", "yes", "on", "y", "t"} else {"0", "false", "no", "off", "n", "f"}
  }

  /** The word is the same letter by letter, some of them perhaps written large. */
  ghost predicate Writes(written: string, word: string) {
    && |written| == |word|
    && forall k :: 0 <= k < |word| ==>
         written[k] == word[k] || ('A' <= written[k] <= 'Z' && word[k] == written[k] - 'A' + 'a')
  }

  ghost predicate SpellsOut(s: string, flag: bool) {
    exists before, written, after, word ::
      Blank(before) && Blank(after) && Writes(written, word) && word in Words(flag) && s == before + written + after
  }

  lemma WordIsTrim(written: string, word: string, flag: bool)
    requires Writes(written, word) && word in Words(flag)
    ensures Trim(written) && Lower(written) == word
  {
  }

  lemma WordsDiffer(word: string)
    ensures word in Words(true) ==> word !in Words(false)
  {
  }

  /** The middle of the text decides. */
  lemma MiddleDecides(before: string, middle: string, after: string, flag: bool)
    requires Blank(before) && Trim(middle) && Blank(after)
    ensures CoerceBool(Text(before + middle + after)) == Some(Flag(flag)) <==> Lower(middle) in Words(flag)
  {
    hide Strip, Lower;
    StripIs(before, middle, after);
    WordsDiffer(Lower(middle));
  }

  lemma LowerWrites(written: string)
    ensures Writes(written, Lower(written))
  {
  }

  lemma TextSpellsOut(s: string, flag: bool)
    ensures CoerceBool(Text(s)) == Some(Flag(flag)) <==> SpellsOut(s, flag)
  {
    hide CoerceBool, Words, Writes, Blank, Trim, Lower;
    var before, middle, after := Splits(s);
    MiddleDecides(before, middle, after, flag);
    LowerWrites(middle);
    if SpellsOut(s, flag) {
      var b, written, a, word :|
        Blank(b) && Blank(a) && Writes(written, word) && word in Words(flag) && s == b + written + a;
      WordIsTrim(written, word, flag);
      MiddleDecides(b, written, a, flag);
    }
  }

  /** A truth value is taken from itself, from the numbers 0 and 1, and from twelve words in letters of
      either size with white space around them; from nothing else. */
  lemma FlagIff(raw: Value, flag: bool)
    ensures CoerceBool(raw) == Some(Flag(flag))
       <==> || raw == Flag(flag) || raw == Whole(if flag then 1 else 0) || raw == Number(if flag then 1.0 else 0.0)
            || (raw.Text? && SpellsOut(raw.text, flag))
  {
    if raw.Text? {
      TextSpellsOut(raw.text, flag);
    }
  }

  // ----- Numbers --------------------------------------------------------------------------

  /** The number is within the bounds there are. */
  predicate InRange(d: Def, x: real) {
    && (d.minimum.Some? ==> d.minimum.value <= x)
    && (d.maximum.Some? ==> x <= d.maximum.value)
  }

  function Gap(a: real, b: real): real {
    if a >= b then a - b else b - a
  }

  /** `near` is in range, and no number in range is closer to `x`. */
  ghost predicate IsNearest(d: Def, x: real, near: real) {
    InRange(d, near) && forall y: real :: InRange(d, y) ==> Gap(x, near) <= Gap(x, y)
  }

  /** The number a value stands for, in a setting of that kind: a setting of whole numbers refuses others
      unless they were read as a number of bytes. */
  function NumberIn(kind: Kind, r: Readers, raw: Value): Option<real> {
    match raw
    case Whole(i) => Some(i as real)
    case Number(x) => if kind.FloatKind? || x.Floor as real == x then Some(x) else None
    case Text(s) =>
      if kind.FloatKind? then r.asReal(s)
      else if kind.BytesKind? then r.asBytes(s)
      else if r.asInt(s).Some? then Some(r.asInt(s).value as real) else None
    case _ => None
  }

  predicate IsNumeric(kind: Kind) {
    kind.IntKind? || kind.FloatKind? || kind.BytesKind?
  }

  /** `whole` is `x` without what it has behind the point. */
  predicate IsWholePart(whole: int, x: real) {
    if x >= 0.0 then whole as real <= x < whole as real + 1.0 else whole as real - 1.0 < x <= whole as real
  }

  lemma ClampIsNearest(d: Def, x: real)
    requires Ordered(d)
    ensures IsNearest(d, x, Clamp(d, x))
  {
  }

  lemma TruncateIsWholePart(x: real)
    ensures IsWholePart(Truncate(x), x)
  {
  }

  /** A numeric setting is given the number in range nearest to the one the value stands for, or its whole
      part; a value that stands for none is refused. */
  lemma NumberIsNearest(d: Def, r: Readers, raw: Value)
    requires IsNumeric(d.kind) && Ordered(d)
    ensures var (said, given) := (NumberIn(d.kind, r, raw), CoerceKind(d, r, raw));
            if said.None? then given == None
            else exists near :: IsNearest(d, said.value, near) && given.Some?
                                && if d.kind.FloatKind? then given.value == Number(near)
                                   else given.value.Whole? && IsWholePart(given.value.whole, near)
  {
    hide Clamp, Truncate, IsNearest, IsWholePart;
    var said := NumberIn(d.kind, r, raw);
    if said.Some? {
      ClampIsNearest(d, said.value);
      TruncateIsWholePart(Clamp(d, said.value));
    }
  }

  // ----- What a setting may be --------------------------------------------------------------

  /** The value is one the setting could hold. */
  ghost predicate Fits(d: Def, r: Readers, v: Value) {
    match d.kind
    case BoolKind => v.Flag?
    case IntKind => v.Whole? && IsWholeInRange(d, v.whole)
    case BytesKind => v.Whole? && IsWholeInRange(d, v.whole)
    case FloatKind => v.Number? && InRange(d, v.number)
    case StringKind => v.Text? && Trim(v.text) && '\0' !in v.text
    case SelectKind(choices) =>
      v.Text? && Trim(v.text) && '\0' !in v.text && (choices == [] || v.text in choices)
    case PathKind =>
      && v.Text? && Trim(v.text) && '\0' !in v.text
      && IsAbsolute(v.text) && Canonical(v.text) == v.text && r.contained(v.text)
  }

  /** The whole part of some number in range. */
  ghost predicate IsWholeInRange(d: Def, i: int) {
    exists x: real :: InRange(d, x) && IsWholePart(i, x)
  }

  lemma WholeIsStableIff(d: Def, i: int)
    requires Ordered(d)
    ensures Truncate(Clamp(d, i as real)) == i <==> IsWholeInRange(d, i)
  {
    if Truncate(Clamp(d, i as real)) == i {
      TruncateIsWholePart(Clamp(d, i as real));
    }
    if IsWholeInRange(d, i) {
      var x: real :| InRange(d, x) && IsWholePart(i, x);
      ClampedWholeIsStable(d, x);
    }
  }

  lemma PathIsStableIff(r: Readers, v: Value)
    requires Faithful(r) && v.Text?
    ensures CoercePath(r, v) == Some(v)
       <==> && Trim(v.text) && '\0' !in v.text
            && IsAbsolute(v.text) && Canonical(v.text) == v.text && r.contained(v.text)
  {
    hide IsAbsolute, Canonical, Strip;
    var stripped := Strip(v.text);
    StripTrims(v.text);
    assert ExpandsHome(r, stripped);
    AbsoluteIsNotHome(v.text);
    if CoercePath(r, v) == Some(v) {
      CanonicalIsCanonical(r.expand(stripped));
      CanonicalIsStripped(r, v.text);
    }
  }

  lemma AbsoluteIsNotHome(path: string)
    ensures IsAbsolute(path) ==> path != "" && path[0] != '~'
  {
  }

  /** The values a setting keeps are exactly those that fit it: coercion changes no other value into itself,
      and no fitting value at all. */
  lemma StableIffFits(d: Def, r: Readers, v: Value)
    requires Ordered(d) && Faithful(r) && d.fixed.None?
    ensures IsStable(d, r, v) <==> Fits(d, r, v)
  {
    hide IsAbsolute, Canonical, Strip, Lower, Clamp, Truncate, IsWholeInRange;
    match v
    case Whole(i) => WholeIsStableIff(d, i);
    case Number(x) => NumberIsStableIff(d, x);
    case Text(s) =>
      StripTrims(s);
      PathIsStableIff(r, v);
    case _ =>
  }

  lemma NumberIsStableIff(d: Def, x: real)
    requires Ordered(d)
    ensures Clamp(d, x) == x <==> InRange(d, x)
  {
  }

  // ----- Texts and paths --------------------------------------------------------------------

  /** A text is given without the white space around it, unless it has a null byte in it. */
  lemma TextIsStripped(r: Readers, before: string, middle: string, after: string)
    requires Blank(before) && Trim(middle) && Blank(after)
    ensures CoerceString(r, Text(before + middle + after)) == if '\0' in middle then None else Some(middle)
  {
    StripIs(before, middle, after);
  }

  predicate AllSeparators(s: string) {
    forall k :: 0 <= k < |s| ==> IsSeparator(s[k])
  }

  lemma {:induction false} TrimmedIs(stem: string, tail: string)
    requires AllSeparators(tail) && (stem == "" || !IsSeparator(stem[|stem| - 1]))
    ensures TrimSeparators(stem + tail) == stem
  {
    if tail == "" {
      assert stem + tail == stem;
    } else {
      assert (stem + tail)[..|stem + tail| - 1] == stem + tail[..|tail| - 1];
      TrimmedIs(stem, tail[..|tail| - 1]);
    }
  }

  /** A path loses its trailing separators, unless nothing or a drive would be left of it. */
  lemma CanonicalIs(stem: string, tail: string)
    requires AllSeparators(tail) && (stem == "" || !IsSeparator(stem[|stem| - 1]))
    ensures Canonical(stem + tail) == if stem == "" || stem[|stem| - 1] == ':' then stem + tail else stem
  {
    TrimmedIs(stem, tail);
  }

  /** A setting with a fixed value is given that one, whatever acceptable value was put in. */
  lemma FixedIsGiven(d: Def, r: Readers, raw: Value)
    requires d.fixed.Some?
    ensures var free := d.(fixed := None);
            Coerce(d, r, raw) == if Coerce(free, r, raw).None? then None else d.fixed
  {
    KindIgnoresFixed(d, r, raw);
  }

  lemma KindIgnoresFixed(d: Def, r: Readers, raw: Value)
    ensures CoerceKind(d.(fixed := None), r, raw) == CoerceKind(d, r, raw)
  {
    hide CoerceBool, CoerceString, CoercePath, Truncate;
  }

  /** A number in a text setting is given as it is shown. */
  lemma NumberIsShown(r: Readers, raw: Value)
    requires (raw.Whole? || raw.Number?) && '\0' !in r.shown(raw)
    ensures CoerceString(r, raw) == Some(r.shown(raw))
  {
  }

  predicate IsRoot(root: string) {
    || root == "/"
    || (|root| == 3 && (root[1..] == ":/" || root[1..] == ":\\")
        && ('a' <= root[0] <= 'z' || 'A' <= root[0] <= 'Z'))
  }

  /** A path is absolute when it begins with a root: a slash, or a drive's letter, a colon and a separator. */
  lemma AbsoluteIff(path: string)
    ensures IsAbsolute(path) <==> exists root :: root <= path && IsRoot(root)
  {
    if IsAbsolute(path) {
      assert path[0] == '/' ==> path[..1] == "/" && IsRoot(path[..1]);
      assert path[0] != '/' ==> path[..3] == [path[0]] + path[1..3] && IsRoot(path[..3]);
    }
  }

  /** What a path setting is given: the text without the white space around it, its home expanded, less its
      trailing separators; refused unless that is absolute and lies where it may. */
  lemma PathIsGiven(r: Readers, before: string, middle: string, after: string, stem: string, tail: string)
    requires Blank(before) && Trim(middle) && Blank(after) && '\0' !in middle && r.expand(middle) == stem + tail
    requires AllSeparators(tail) && (stem == "" || !IsSeparator(stem[|stem| - 1]))
    ensures var given := if stem == "" || stem[|stem| - 1] == ':' then stem + tail else stem;
            CoercePath(r, Text(before + middle + after))
            == if IsAbsolute(stem + tail) && r.contained(given) then Some(Text(given)) else None
  {
    hide IsAbsolute, Strip, Canonical;
    TextIsStripped(r, before, middle, after);
    CanonicalIs(stem, tail);
  }
}
