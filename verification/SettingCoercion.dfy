/** Validating and normalising one setting (backend/app/core/settings_service.py:133-370).

    Reading numbers out of text, showing numbers as text, expanding "~" and testing containment are
    parameters. Numbers are reals; UNC paths are not part of this model. */
module SettingCoercion {
  import opened Options
  import opened Text

  datatype Value = Null | Flag(flag: bool) | Whole(whole: int) | Number(number: real) | Text(text: string)

  datatype Kind = BoolKind | IntKind | FloatKind | StringKind | SelectKind(choices: seq<string>) | PathKind | BytesKind

  datatype Def = Def(kind: Kind, minimum: Option<real>, maximum: Option<real>, fixed: Option<Value>,
                     readOnly: bool, default: Value)

  datatype Readers = Readers(
    asInt: string -> Option<int>,
    asReal: string -> Option<real>,
    asBytes: string -> Option<real>,
    shown: Value -> string,
    expand: string -> string,
    contained: string -> bool)

  const TRUTHY: set<string> := {"1", "true", "yes", "on", "y", "t"}
  const FALSEY: set<string> := {"0", "false", "no", "off", "n", "f"}

  // ----- Text ---------------------------------------------------------------------------

  predicate IsSeparator(c: char) {
    c == '/' || c == '\\'
  }

  // ----- Numbers ------------------------------------------------------------------------

  function Clamp(d: Def, v: real): real {
    if d.minimum.Some? && v < d.minimum.value then d.minimum.value
    else if d.maximum.Some? && v > d.maximum.value then d.maximum.value
    else v
  }

  /** Python's `int`: toward zero. */
  function Truncate(r: real): int {
    if r >= 0.0 then r.Floor else -((-r).Floor)
  }

  predicate Ordered(d: Def) {
    d.minimum.Some? && d.maximum.Some? ==> d.minimum.value <= d.maximum.value
  }

  // ----- The coercers -------------------------------------------------------------------

  function CoerceBool(raw: Value): Option<Value> {
    match raw
    case Flag(_) => Some(raw)
    case Whole(i) => if i == 0 || i == 1 then Some(Flag(i == 1)) else None
    case Number(r) => if r == 0.0 || r == 1.0 then Some(Flag(r == 1.0)) else None
    case Text(s) =>
      var token := Lower(Strip(s));
      if token in TRUTHY then Some(Flag(true)) else if token in FALSEY then Some(Flag(false)) else None
    case Null => None
  }

  function CoerceInt(d: Def, r: Readers, raw: Value): Option<Value> {
    match raw
    case Whole(i) => Some(Whole(Truncate(Clamp(d, i as real))))
    case Number(x) => if x == x.Floor as real then Some(Whole(Truncate(Clamp(d, x)))) else None
    case Text(s) =>
      var read := r.asInt(s);
      if read.Some? then Some(Whole(Truncate(Clamp(d, read.value as real)))) else None
    case _ => None
  }

  function CoerceFloat(d: Def, r: Readers, raw: Value): Option<Value> {
    match raw
    case Whole(i) => Some(Number(Clamp(d, i as real)))
    case Number(x) => Some(Number(Clamp(d, x)))
    case Text(s) => var read := r.asReal(s); if read.Some? then Some(Number(Clamp(d, read.value))) else None
    case _ => None
  }

  function CoerceString(r: Readers, raw: Value): Option<string> {
    match raw
    case Text(s) => NoNull(Strip(s))
    case Whole(_) => NoNull(r.shown(raw))
    case Number(_) => NoNull(r.shown(raw))
    case _ => None
  }

  function NoNull(s: string): Option<string> {
    if '\0' in s then None else Some(s)
  }

  predicate IsDriveLetter(c: char) {
    'a' <= LowerChar(c) <= 'z'
  }

  /** A POSIX path from the root, or a Windows path from a drive's root. */
  predicate IsAbsolute(s: string) {
    || (|s| > 0 && s[0] == '/')
    || (|s| > 2 && IsDriveLetter(s[0]) && s[1] == ':' && IsSeparator(s[2]))
  }

  function TrimSeparators(s: string): (t: string)
    ensures t <= s && (t == "" || !IsSeparator(t[|t| - 1]))
    ensures forall k :: |t| <= k < |s| ==> IsSeparator(s[k])
  {
    if s != "" && IsSeparator(s[|s| - 1]) then TrimSeparators(s[..|s| - 1]) else s
  }

  /** Trailing separators go, unless only a root or a drive is left. */
  function Canonical(path: string): string {
    var trimmed := TrimSeparators(path);
    if trimmed == "" || trimmed[|trimmed| - 1] == ':' then path else trimmed
  }

  function CoercePath(r: Readers, raw: Value): Option<Value> {
    var text := CoerceString(r, raw);
    if text.None? then None
    else
      var path := r.expand(text.value);
      if IsAbsolute(path) && r.contained(Canonical(path)) then Some(Text(Canonical(path))) else None
  }

  function CoerceBytes(d: Def, r: Readers, raw: Value): Option<Value> {
    if raw.Text? then
      var read := r.asBytes(raw.text);
      if read.Some? then Some(Whole(Truncate(Clamp(d, read.value)))) else None
    else CoerceInt(d, r, raw)
  }

  function CoerceKind(d: Def, r: Readers, raw: Value): Option<Value> {
    match d.kind
    case BoolKind => CoerceBool(raw)
    case IntKind => CoerceInt(d, r, raw)
    case FloatKind => CoerceFloat(d, r, raw)
    case StringKind => var text := CoerceString(r, raw); if text.Some? then Some(Text(text.value)) else None
    case SelectKind(choices) =>
      var text := CoerceString(r, raw);
      if text.Some? && (choices == [] || text.value in choices) then Some(Text(text.value)) else None
    case PathKind => CoercePath(r, raw)
    case BytesKind => CoerceBytes(d, r, raw)
  }

  /** `coerce_setting`: None when the value is refused. */
  function Coerce(d: Def, r: Readers, raw: Value): Option<Value> {
    if raw.Null? || CoerceKind(d, r, raw).None? then None
    else if d.fixed.Some? then d.fixed
    else CoerceKind(d, r, raw)
  }

  // ----- Coercing what was coerced ------------------------------------------------------

  /** Coercing the value again gives it back. */
  predicate IsStable(d: Def, r: Readers, v: Value) {
    Coerce(d, r, v) == Some(v)
  }

  /** Clamping twice is clamping once exactly when the bounds are in order. */
  lemma ClampIsIdempotent(d: Def)
    ensures Ordered(d) <==> forall v: real :: Clamp(d, Clamp(d, v)) == Clamp(d, v)
  {
    if !Ordered(d) {
      var v := d.maximum.value - 1.0;
      assert Clamp(d, Clamp(d, v)) != Clamp(d, v);
    }
  }

  lemma ClampedWholeIsStable(d: Def, v: real)
    requires Ordered(d)
    ensures var whole := Truncate(Clamp(d, v)); Truncate(Clamp(d, whole as real)) == whole
  {
    var c := Clamp(d, v);
    var whole := Truncate(c);
    assert (c >= 0.0 ==> whole as real <= c < whole as real + 1.0)
        && (c < 0.0 ==> whole as real - 1.0 < c <= whole as real);
    TruncateStays(whole, Clamp(d, whole as real), c);
  }

  lemma TruncateStays(whole: int, x: real, c: real)
    requires whole == Truncate(c)
    requires x == whole as real || x == c || (whole as real <= x <= c) || (c <= x <= whole as real)
    ensures Truncate(x) == whole
  {
  }

  /** A definition the catalogue may hold: its bounds are in order and its own fixed value is
      accepted. */
  predicate WellFormed(d: Def, r: Readers) {
    Ordered(d) && (d.fixed.Some? ==> !d.fixed.value.Null? && CoerceKind(d, r, d.fixed.value).Some?)
  }

  /** Python shows numbers without white space. */
  predicate ShowsTrim(r: Readers, v: Value) {
    Trim(r.shown(v))
  }

  /** Only a leading "~" is expanded, and no home directory has a null byte in its name. */
  predicate ExpandsHome(r: Readers, s: string) {
    && (s == "" || s[0] != '~' ==> r.expand(s) == s)
    && ('\0' !in s ==> '\0' !in r.expand(s))
  }

  ghost predicate Faithful(r: Readers) {
    && (forall v: Value :: ShowsTrim(r, v))
    && (forall s: string :: ExpandsHome(r, s))
  }

  lemma CoercedTextIsTrim(r: Readers, raw: Value)
    requires Faithful(r) && CoerceString(r, raw).Some?
    ensures var text := CoerceString(r, raw).value; Trim(text) && CoerceString(r, Text(text)) == Some(text)
  {
    var text := CoerceString(r, raw).value;
    if raw.Text? {
      StripTrims(raw.text);
    } else {
      assert ShowsTrim(r, raw);
    }
    StripTrims(text);
  }

  /** Every kind but a path is stable once coerced. */
  lemma CoercedIsStable(d: Def, r: Readers, raw: Value)
    requires WellFormed(d, r) && Faithful(r) && Coerce(d, r, raw).Some? && (d.fixed.Some? || !d.kind.PathKind?)
    ensures IsStable(d, r, Coerce(d, r, raw).value)
  {
    if d.fixed.None? {
      match d.kind
      case StringKind => CoercedTextIsTrim(r, raw);
      case SelectKind(_) => CoercedTextIsTrim(r, raw);
      case IntKind => IntIsStable(d, r, raw);
      case BytesKind => IntIsStable(d, r, raw);
      case _ =>
    }
  }

  lemma IntIsStable(d: Def, r: Readers, raw: Value)
    requires Ordered(d) && (d.kind.IntKind? || d.kind.BytesKind?) && CoerceKind(d, r, raw).Some?
    ensures CoerceKind(d, r, CoerceKind(d, r, raw).value) == CoerceKind(d, r, raw)
  {
    var v: real :| CoerceKind(d, r, raw) == Some(Whole(Truncate(Clamp(d, v))));
    ClampedWholeIsStable(d, v);
  }

  /** The path as it stands before its trailing separators are cut. */
  function Spelled(r: Readers, raw: Value): string
    requires CoerceString(r, raw).Some?
  {
    r.expand(CoerceString(r, raw).value)
  }

  predicate SpaceBeforeSeparators(path: string) {
    var trimmed := TrimSeparators(path);
    trimmed != "" && IsSpace(trimmed[|trimmed| - 1])
  }

  lemma CanonicalIsCanonical(path: string)
    requires IsAbsolute(path)
    ensures var out := Canonical(path);
            && out <= path && out != "" && out[0] != '~' && !IsSpace(out[0])
            && IsAbsolute(out) && Canonical(out) == out
            && (IsSpace(out[|out| - 1]) <==> SpaceBeforeSeparators(path))
  {
    var trimmed := TrimSeparators(path);
    assert TrimSeparators(trimmed) == trimmed;
    assert |path| > 2 && path[0] != '/' ==> !IsSeparator(path[1]);
  }

  /** Coercing a canonical path only strips it. */
  lemma CanonicalIsStripped(r: Readers, out: string)
    requires Faithful(r) && '\0' !in out && out != "" && out[0] != '~'
    requires IsAbsolute(out) && Canonical(out) == out && r.contained(out)
    ensures CoercePath(r, Text(out)) == Some(Text(out)) <==> Trim(out)
  {
    StripTrims(out);
    if Trim(out) {
      assert ExpandsHome(r, out);
    } else {
      StrippedIsShorter(r, out);
    }
  }

  /** A canonical path with white space at its end is not given back. */
  lemma StrippedIsShorter(r: Readers, out: string)
    requires Faithful(r) && out != "" && IsAbsolute(out) && !Trim(out)
    ensures r.expand(Strip(out)) != out && Canonical(r.expand(Strip(out))) != out
  {
    StripTrims(out);
    assert !IsSpace(out[0]);
    var stripped := Strip(out);
    assert stripped != "" && stripped[0] != '~' && ExpandsHome(r, stripped);
  }

  /** A path is stable once coerced exactly when no white space stood just before its trailing
      separators. */
  lemma PathIsStable(d: Def, r: Readers, raw: Value)
    requires d.kind.PathKind? && d.fixed.None? && Faithful(r) && Coerce(d, r, raw).Some?
    ensures IsStable(d, r, Coerce(d, r, raw).value) <==> !SpaceBeforeSeparators(Spelled(r, raw))
  {
    var path := Spelled(r, raw);
    assert ExpandsHome(r, CoerceString(r, raw).value);
    CanonicalIsCanonical(path);
    CanonicalIsStripped(r, Canonical(path));
  }

  lemma SpacedPathTexts()
    ensures Strip("/a /") == "/a /" && Canonical("/a /") == "/a " && Strip("/a ") == "/a" && Canonical("/a") == "/a"
  {
    assert "/a /"[..3] == "/a " && "/a "[..2] == "/a";
  }

  /** "/a /" is stored as "/a ", and read back as "/a". */
  lemma SpacedPathIsUnstable(d: Def, r: Readers)
    requires d.kind.PathKind? && d.fixed.None? && Faithful(r) && r.contained("/a ") && r.contained("/a")
    ensures Coerce(d, r, Text("/a /")) == Some(Text("/a ")) && Coerce(d, r, Text("/a ")) == Some(Text("/a"))
  {
    SpacedPathTexts();
    assert ExpandsHome(r, "/a /") && ExpandsHome(r, "/a");
  }
}
