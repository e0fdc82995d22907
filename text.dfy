/** String helpers used by the loadout editor. */
module Text {

  /** `String.prototype.toLowerCase` restricted to ASCII letters. */
  function LowerChar(c: char): char {
    if 'A' <= c <= 'Z' then (c as int + 32) as char else c
  }

  function Lower(s: string): string {
    seq(|s|, i requires 0 <= i < |s| => LowerChar(s[i]))
  }

  /** The category key of an item of type `Class` is the literal key `class`. */
  lemma LowerOfClass()
    ensures Lower("Class") == "class"
  {
    assert Lower("Class")[0] == 'c';
  }
}
