/** Characters and numbers in text, as the C library reads them. */
module Text {
  predicate IsSpace(c: char) { c == ' ' || '\t' <= c <= '\r' }

  predicate IsDigit(c: char) { '0' <= c <= '9' }

  function DigitsValue(s: string, acc: int): int {
    if s == [] || !IsDigit(s[0]) then acc else DigitsValue(s[1..], 10 * acc + (s[0] - '0') as int)
  }

  /** atoi, without the width of an int. */
  function Atoi(s: string): int {
    if s != [] && IsSpace(s[0]) then Atoi(s[1..])
    else if s != [] && s[0] == '-' then -DigitsValue(s[1..], 0)
    else if s != [] && s[0] == '+' then DigitsValue(s[1..], 0)
    else DigitsValue(s, 0)
  }

  /** A sign in front of digits is heeded. */
  lemma AtoiHeedsSigns(s: string)
    requires s != [] && IsDigit(s[0])
    ensures Atoi(['-'] + s) == -Atoi(s) && Atoi(['+'] + s) == Atoi(s)
  {
    assert (['-'] + s)[1..] == s && (['+'] + s)[1..] == s;
  }

  /** The six blanks of the C locale are skipped, and nothing else but a sign or a digit begins a
      number. */
  lemma AtoiSkipsBlanks(s: string, c: char)
    ensures c as int == 32 || 9 <= c as int <= 13 ==> Atoi([c] + s) == Atoi(s)
    ensures !(c as int == 32 || 9 <= c as int <= 13 || c == '+' || c == '-' || IsDigit(c)) ==> Atoi([c] + s) == 0
  {
    assert ([c] + s)[1..] == s;
  }
}
