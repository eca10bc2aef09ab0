/** Character classes and look-alike groups of Australian plates
    (backend/app/ai/normalise_au.py). Classes are the ASCII ones. */
module PlateAlphabet {

  predicate IsLetter(c: char) {
    'A' <= c <= 'Z'
  }

  predicate IsDigit(c: char) {
    '0' <= c <= '9'
  }

  /** A character of a cleaned reading. */
  predicate IsPlateChar(c: char) {
    IsLetter(c) || IsDigit(c)
  }

  lemma PlateCharIff(c: char)
    ensures IsPlateChar(c) <==> 'A' <= c <= 'Z' || '0' <= c <= '9'
  {
  }

  predicate IsPlateText(s: string) {
    forall i :: 0 <= i < |s| ==> IsPlateChar(s[i])
  }

  /** The index of the look-alike group of `c`, or -1 when it collides with nothing. */
  function ShapeGroup(c: char): int {
    match c
    case '0' => 0 case 'O' => 0 case 'D' => 0 case 'Q' => 0
    case '1' => 1 case 'I' => 1
    case '2' => 2 case 'Z' => 2
    case '5' => 3 case 'S' => 3
    case '6' => 4 case 'G' => 4
    case '8' => 5 case 'B' => 5
    case _ => -1
  }

  predicate Confusable(a: char, b: char) {
    ShapeGroup(a) >= 0 && ShapeGroup(a) == ShapeGroup(b)
  }

  /** Two characters a recogniser may take for one another, or the same character. */
  predicate LookAlike(a: char, b: char) {
    a == b || Confusable(a, b)
  }
}
