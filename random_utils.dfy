/**
 * Random alphanumeric strings: a 62-character alphabet filled once by
 * stepping through the ASCII codes, and strings drawn from it. The random
 * index is a nondeterministic choice.
 */
module RandomUtils {
  const NumberPossibleChars := 62

  /** The code of the alphabet's `i`-th character: `0`-`9`, then `A`-`Z`, then `a`-`z`. */
  function AlphabetCode(i: nat): (code: nat)
    requires i < NumberPossibleChars
    ensures 48 <= code <= 122
  {
    if i < 10 then 48 + i else if i < 36 then 65 + (i - 10) else 97 + (i - 36)
  }

  predicate IsAsciiAlphanumeric(c: char) {
    '0' <= c <= '9' || 'A' <= c <= 'Z' || 'a' <= c <= 'z'
  }

  class RandomAlphabet {
    const alphanumericAlphabet: array<char>

    ghost predicate Valid()
      reads this, alphanumericAlphabet
    {
      alphanumericAlphabet.Length == NumberPossibleChars
      && forall i :: 0 <= i < NumberPossibleChars ==> alphanumericAlphabet[i] == AlphabetCode(i) as char
    }

    /** The constructor loop: store the code, step it, and jump over the gaps after `9` and `Z`. */
    constructor ()
      ensures Valid() && fresh(alphanumericAlphabet)
    {
      var alphabet := new char[NumberPossibleChars];
      var asciiValue := 48;
      for i := 0 to NumberPossibleChars
        invariant asciiValue == if i < NumberPossibleChars then AlphabetCode(i) else 123
        invariant forall j :: 0 <= j < i ==> alphabet[j] == AlphabetCode(j) as char
      {
        alphabet[i] := asciiValue as char;
        asciiValue := asciiValue + 1;
        if asciiValue == 58 {
          asciiValue := 65;
        } else if asciiValue == 91 {
          asciiValue := 97;
        }
      }
      alphanumericAlphabet := alphabet;
    }

    /**
     * `getRandomAlphanumeric`: `length` characters of the alphabet, none for
     * a non-positive length; `csprng.nextInt(62)` is any index below 62.
     */
    method GetRandomAlphanumeric(length: int) returns (r: string)
      requires Valid()
      ensures |r| == if length <= 0 then 0 else length
      ensures forall i :: 0 <= i < |r| ==> r[i] in alphanumericAlphabet[..]
      ensures forall i :: 0 <= i < |r| ==> IsAsciiAlphanumeric(r[i])
    {
      r := "";
      var i := 0;
      while i < length
        invariant 0 <= i && |r| == i
        invariant i <= if length <= 0 then 0 else length
        invariant forall j :: 0 <= j < |r| ==> r[j] in alphanumericAlphabet[..] && IsAsciiAlphanumeric(r[j])
      {
        var index :| 0 <= index < NumberPossibleChars;
        AlphabetCharacter(index);
        r := r + [alphanumericAlphabet[index]];
        i := i + 1;
      }
    }
  }

  lemma {:induction false} AlphabetCharacter(i: nat)
    requires i < NumberPossibleChars
    ensures IsAsciiAlphanumeric(AlphabetCode(i) as char)
  {
  }

  /** The alphabet is strictly increasing, so no character occurs twice. */
  lemma {:induction false} AlphabetIncreasing(i: nat, j: nat)
    requires i < j < NumberPossibleChars
    ensures AlphabetCode(i) < AlphabetCode(j)
  {
  }

  /** The alphabet holds exactly the ASCII letters and digits. */
  lemma {:induction false} AlphabetIsAlphanumerics(c: char)
    ensures IsAsciiAlphanumeric(c) <==> exists i :: 0 <= i < NumberPossibleChars && AlphabetCode(i) as char == c
  {
    if IsAsciiAlphanumeric(c) {
      var code := c as int;
      var i := if code <= 57 then code - 48 else if code <= 90 then code - 65 + 10 else code - 97 + 36;
      assert AlphabetCode(i) as char == c;
    }
  }
}
