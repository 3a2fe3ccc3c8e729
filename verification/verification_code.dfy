/** The e-mail verification code generator of
    server/src/utils/generateVerificationCode.ts. `Math.random` is replaced by
    the sequence of indices it would pick: each draw is
    `Math.floor(Math.random() * 62)`, an integer in [0, 62). */
module VerificationCode {
  import opened Text

  /** The 62 candidate characters, upper case, lower case, then digits. */
  const Alphabet: string := "ABCDEFGHIJKLMNOPQRSTUVWXYZabcdefghijklmnopqrstuvwxyz0123456789"

  /** Length used when the caller passes none. */
  const DefaultLength: int := 6

  /** One random pick: an index into `Alphabet`. */
  type Draw = i: int | 0 <= i < 62

  /** The character at index `i`, computed from the ranges the alphabet spans. */
  function TableChar(i: Draw): char
  {
    if i < 26 then ('A' as int + i) as char
    else if i < 52 then ('a' as int + i - 26) as char
    else ('0' as int + i - 52) as char
  }

  const Upper: string := "ABCDEFGHIJKLMNOPQRSTUVWXYZ"
  const Lower: string := "abcdefghijklmnopqrstuvwxyz"
  const Numerals: string := "0123456789"

  lemma AlphabetPieces()
    ensures Alphabet == Upper + Lower + Numerals
  {
  }

  lemma UpperTable()
    ensures forall i :: 0 <= i < 26 ==> Upper[i] == ('A' as int + i) as char
  {
  }

  lemma LowerTable()
    ensures forall i :: 0 <= i < 26 ==> Lower[i] == ('a' as int + i) as char
  {
  }

  lemma NumeralTable()
    ensures forall i :: 0 <= i < 10 ==> Numerals[i] == ('0' as int + i) as char
  {
  }

  lemma AlphabetIsTable()
    ensures |Alphabet| == 62
    ensures forall i: Draw :: Alphabet[i] == TableChar(i)
  {
    AlphabetPieces();
    UpperTable();
    LowerTable();
    NumeralTable();
    forall i: Draw ensures Alphabet[i] == TableChar(i) {
      if i < 26 {
        assert Alphabet[i] == Upper[i];
      } else if i < 52 {
        assert Alphabet[i] == Lower[i - 26];
      } else {
        assert Alphabet[i] == Numerals[i - 52];
      }
    }
  }

  /** No character appears twice in the alphabet. */
  lemma AlphabetDistinct()
    ensures forall i: Draw, j: Draw :: i != j ==> Alphabet[i] != Alphabet[j]
  {
    AlphabetIsTable();
  }

  /** Every alphabet character is an ASCII letter or digit, and every ASCII
      letter or digit is in the alphabet. */
  lemma AlphabetIsAlphanumeric()
    ensures forall i: Draw :: IsAsciiLetter(Alphabet[i]) || IsDigit(Alphabet[i])
    ensures forall c: char :: IsAsciiLetter(c) || IsDigit(c) ==> c in Alphabet
  {
    AlphabetIsTable();
    forall c: char | IsAsciiLetter(c) || IsDigit(c) ensures c in Alphabet {
      var i: Draw :=
        if 'A' <= c <= 'Z' then c as int - 'A' as int
        else if 'a' <= c <= 'z' then c as int - 'a' as int + 26
        else c as int - '0' as int + 52;
      assert Alphabet[i] == c;
    }
  }

  /** Reference definition: the code spelled by a sequence of draws. */
  function Spell(draws: seq<Draw>): (code: string)
    ensures |code| == |draws|
    ensures forall i :: 0 <= i < |draws| ==> code[i] == Alphabet[draws[i]]
  {
    seq(|draws|, i requires 0 <= i < |draws| => Alphabet[draws[i]])
  }

  /** `generateVerificationCode(length)`: one draw per position; a zero or
      negative length yields the empty code. */
  method Generate(length: int, draws: seq<Draw>) returns (code: string)
    requires |draws| == if length < 0 then 0 else length
    ensures |code| == |draws|
    ensures code == Spell(draws)
  {
    code := "";
    var i := 0;
    while i < length
      invariant 0 <= i <= |draws|
      invariant code == Spell(draws[..i])
    {
      assert draws[..i + 1] == draws[..i] + [draws[i]];
      code := code + [Alphabet[draws[i]]];
      i := i + 1;
    }
    assert draws[..i] == draws;
  }

  /** Every generated character is an ASCII letter or digit. */
  lemma SpellAlphanumeric(draws: seq<Draw>)
    ensures forall i :: 0 <= i < |Spell(draws)| ==>
      IsAsciiLetter(Spell(draws)[i]) || IsDigit(Spell(draws)[i])
  {
    AlphabetIsAlphanumeric();
  }

  /** Different draws spell different codes, so the generator can produce each
      of the 62^n codes of length n. */
  lemma SpellInjective(a: seq<Draw>, b: seq<Draw>)
    requires Spell(a) == Spell(b)
    ensures a == b
  {
    AlphabetDistinct();
    assert |a| == |b|;
    forall i | 0 <= i < |a| ensures a[i] == b[i] {
      assert Spell(a)[i] == Spell(b)[i];
    }
  }

  /** A draw below 52 picks a letter, never a digit. */
  lemma LetterDraw(i: Draw)
    requires i < 52
    ensures !IsDigit(Alphabet[i]) && IsAsciiLetter(Alphabet[i])
  {
    AlphabetIsTable();
  }
}
