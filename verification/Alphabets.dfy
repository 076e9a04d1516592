// The character classes of Chars as the characters they hold, written out, and what letters and digits
// stand for by their places in an alphabet.
module Alphabets {
  import opened Chars

  const UPPER := "ABCDEFGHIJKLMNOPQRSTUVWXYZ"
  const LOWER := "abcdefghijklmnopqrstuvwxyz"
  const DIGITS := "0123456789"
  const LOWER_HEX := "0123456789abcdef"
  const UPPER_HEX := "0123456789ABCDEF"

  // Marks, by their names in section 2.2 of RFC 2616 and in section 2.3 of RFC 2396.
  const TOKEN_MARKS := "!#$%&'*+-.^_`|~"
  const URL_MARKS := "-_.!~*'()"

  predicate IsLetter(c: char) { c in UPPER || c in LOWER }

  // The same character, or the two cases of a letter.
  predicate SameLetter(a: char, b: char) {
    a == b || exists i :: 0 <= i < 26 && ((a == UPPER[i] && b == LOWER[i]) || (a == LOWER[i] && b == UPPER[i]))
  }

  // Equal up to the case of letters.
  predicate SameWord(a: string, b: string) {
    |a| == |b| && forall k :: 0 <= k < |a| ==> SameLetter(a[k], b[k])
  }

  lemma LettersAt(i: nat)
    requires i < 26
    ensures UPPER[i] as int == 'A' as int + i && LOWER[i] as int == 'a' as int + i
  {
  }

  lemma AlphaExact(c: char)
    ensures IsAlpha(c) <==> IsLetter(c)
  {
    if 'A' <= c <= 'Z' {
      LettersAt(c as int - 'A' as int);
      assert UPPER[c as int - 'A' as int] == c;
    }
    if 'a' <= c <= 'z' {
      LettersAt(c as int - 'a' as int);
      assert LOWER[c as int - 'a' as int] == c;
    }
  }

  lemma DigitAt(k: nat)
    requires k < 10
    ensures DIGITS[k] as int == '0' as int + k
  {
  }

  // A digit is worth its place.
  lemma DigitExact(c: char)
    ensures IsNum(c) <==> c in DIGITS
    ensures IsNum(c) ==> DIGITS[Digit(c)] == c
    ensures forall k: nat :: k < 10 && c == DIGITS[k] ==> Digit(c) == k
  {
    if IsNum(c) {
      DigitAt(c as int - '0' as int);
    }
  }

  lemma HexAt(k: nat)
    requires k < 16
    ensures LOWER_HEX[k] as int == if k < 10 then '0' as int + k else 'a' as int + k - 10
    ensures UPPER_HEX[k] as int == if k < 10 then '0' as int + k else 'A' as int + k - 10
  {
  }

  // So is a hexadecimal digit, in either case; the other bytes below 128 are no digits, and those from 128
  // on count as zero.
  lemma UnhexExact(c: char)
    ensures forall k: nat :: k < 16 && (c == LOWER_HEX[k] || c == UPPER_HEX[k]) ==> Unhex(c) == k
    ensures c !in LOWER_HEX && c !in UPPER_HEX ==> Unhex(c) == if c as int < 128 then -1 else 0
    ensures 0 <= Unhex(c) && c as int < 128 ==> c == LOWER_HEX[Unhex(c)] || c == UPPER_HEX[Unhex(c)]
  {
    if 0 <= Unhex(c) && c as int < 128 {
      HexAt(Unhex(c));
    }
  }

  lemma HexDigitExact(c: char, k: nat)
    requires k < 16
    ensures c == LOWER_HEX[k] || c == UPPER_HEX[k] <==> c as int < 128 && Unhex(c) == k
  {
    HexAt(k);
  }

  // Setting bit 5 changes nothing else.
  lemma LowerExact(c: char)
    requires c as int < 256
    ensures var n, m := c as int, Lower(c) as int; m / 32 % 2 == 1 && m / 64 == n / 64 && m % 32 == n % 32
  {
  }

  // The tokens table folds letters and holds the characters of a token.
  lemma TokenExact(c: char)
    ensures IsToken(c) <==> IsLetter(c) || c in DIGITS || c in TOKEN_MARKS
    ensures IsToken(c) ==> SameLetter(c, Token(c)) && Token(c) !in UPPER
  {
    AlphaExact(c);
    DigitExact(c);
    if 'A' <= c <= 'Z' {
      LettersAt(c as int - 'A' as int);
    }
  }

  lemma SameLetterExact(a: char, b: char)
    ensures SameLetter(a, b) <==>
            || a == b
            || ('A' <= a <= 'Z' && b as int == a as int + 32)
            || ('A' <= b <= 'Z' && a as int == b as int + 32)
  {
    if 'A' <= a <= 'Z' {
      LettersAt(a as int - 'A' as int);
    }
    if 'A' <= b <= 'Z' {
      LettersAt(b as int - 'A' as int);
    }
    if SameLetter(a, b) && a != b {
      var i :| 0 <= i < 26 && ((a == UPPER[i] && b == LOWER[i]) || (a == LOWER[i] && b == UPPER[i]));
      LettersAt(i);
    }
  }

  lemma NoCapital(c: char)
    ensures c !in UPPER <==> !('A' <= c <= 'Z')
  {
    if 'A' <= c <= 'Z' {
      LettersAt(c as int - 'A' as int);
      assert UPPER[c as int - 'A' as int] == c;
    }
  }

  // A token character is folded to w, which is no capital, exactly if it is the same letter.
  lemma FoldExact(c: char, w: char)
    requires IsToken(c) && w !in UPPER
    ensures Token(c) == w <==> SameLetter(c, w)
  {
    hide SameLetter;
    SameLetterExact(c, w);
    NoCapital(w);
  }

  // So is a value byte, for a letter or a hyphen, but that a carriage return passes for a hyphen.
  lemma LowerSame(c: char, w: char)
    requires (w in LOWER || w == '-') && !IsEol(c)
    ensures Lower(c) == w <==> SameLetter(c, w)
  {
    if w in LOWER {
      var k :| 0 <= k < 26 && LOWER[k] == w;
      LettersAt(k);
    }
    hide SameLetter;
    SameLetterExact(c, w);
  }

  // The characters of the parts of a URL
  lemma UserInfoExact(c: char)
    ensures IsUserInfoChar(c) <==> IsLetter(c) || c in DIGITS || c in URL_MARKS || c in "%;:&=+$,"
    ensures IsHostChar(c) <==> IsLetter(c) || c in DIGITS || c in ".-"
  {
    hide IsLetter;
    AlphaExact(c);
    DigitExact(c);
  }

  // are all the visible ones, but for # and ?, in a path.
  lemma UrlCharExact(c: char)
    ensures IsUrlChar(c) <==> IsLetter(c) || c in DIGITS || c in "!\"$%&'()*+,-./:;<=>@[\\]^_`{|}~"
  {
    AlphaExact(c);
    DigitExact(c);
    hide IsLetter;
  }
}
