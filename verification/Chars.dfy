// Character classes of the HTTP/1.x parser (strict mode). A byte of the input
// buffer is a Dafny char; the tables are total, and only codes 0..255 occur.
module Chars {

  const CR: char := '\r'
  const LF: char := '\n'
  const NUL: char := '\0'
  const CRLF: string := [CR, LF]

  // c | 0x20 on one byte: sets bit 5.
  function Lower(c: char): char {
    var n := c as int;
    if n < 32 || 64 <= n < 96 || 128 <= n < 160 || 192 <= n < 224 then (n + 32) as char else c
  }

  predicate IsNum(c: char) { '0' <= c <= '9' }

  predicate IsAlpha(c: char) { 'a' <= c <= 'z' || 'A' <= c <= 'Z' }

  predicate IsAlphaNum(c: char) { IsAlpha(c) || IsNum(c) }

  predicate IsHex(c: char) { IsNum(c) || 'a' <= c <= 'f' || 'A' <= c <= 'F' }

  predicate IsMark(c: char) {
    c == '-' || c == '_' || c == '.' || c == '!' || c == '~' || c == '*' || c == '\'' || c == '(' || c == ')'
  }

  predicate IsUserInfoChar(c: char) {
    IsAlphaNum(c) || IsMark(c) || c == '%' || c == ';' || c == ':' || c == '&' || c == '=' || c == '+' ||
    c == '$' || c == ','
  }

  predicate IsHostChar(c: char) { IsAlphaNum(c) || c == '.' || c == '-' }

  predicate IsUrlChar(c: char) { '!' <= c <= '~' && c != '#' && c != '?' }

  predicate IsTokenMark(c: char) {
    c == '!' || c == '#' || c == '$' || c == '%' || c == '&' || c == '\'' || c == '*' || c == '+' ||
    c == '-' || c == '.' || c == '^' || c == '_' || c == '`' || c == '|' || c == '~'
  }

  // The tokens table: the lowercased token character, or NUL for a byte that is no token character.
  function Token(c: char): char {
    if 'A' <= c <= 'Z' then (c as int + 32) as char
    else if 'a' <= c <= 'z' || IsNum(c) || IsTokenMark(c) then c
    else NUL
  }

  predicate IsToken(c: char) { Token(c) != NUL }

  function Digit(c: char): nat
    requires IsNum(c)
  {
    c as int - '0' as int
  }

  // The unhex table. Its initialiser lists 128 entries, so the bytes 128..255 read as 0.
  function Unhex(c: char): (r: int)
    ensures -1 <= r <= 15
  {
    if IsNum(c) then c as int - '0' as int
    else if 'a' <= c <= 'f' then c as int - 'a' as int + 10
    else if 'A' <= c <= 'F' then c as int - 'A' as int + 10
    else if c as int < 128 then -1
    else 0
  }

  const TWO_64: int := 0x1_0000_0000_0000_0000
  const ULLONG_MAX: int := TWO_64 - 1

  // Truncation of an unsigned 64-bit computation.
  function Wrap64(n: nat): nat { if n < TWO_64 then n else n % TWO_64 }

  // The overflow guards.
  const LENGTH_GUARD: int := (ULLONG_MAX - 10) / 10
  const CHUNK_GUARD: int := (ULLONG_MAX - 16) / 16

  predicate IsBlank(c: char) { c == ' ' || c == '\t' }

  predicate IsEol(c: char) { c == CR || c == LF }
}
