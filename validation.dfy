/** The two input checks of the contact form, written as character-class
    predicates. Both regular expressions are anchored at both ends and carry
    no flags, so a string matches only as a whole. */
module Validation {

  /** `[a-zA-Z]` */
  predicate IsAsciiLetter(c: char) {
    'a' <= c <= 'z' || 'A' <= c <= 'Z'
  }

  /** `\d` without the `u` flag: the ASCII digits only. */
  predicate IsDigit(c: char) {
    '0' <= c <= '9'
  }

  /** `\s` in ECMAScript: the WhiteSpace and LineTerminator code points
      (tab, line feed, vertical tab, form feed, carriage return, the
      Unicode space separators, U+2028, U+2029 and the byte-order mark). */
  predicate IsJsWhitespace(c: char) {
    c == '\t' || c == '\n' || c == '\U{000B}' || c == '\U{000C}' || c == '\r'
    || c == ' ' || c == '\U{00A0}' || c == '\U{1680}'
    || ('\U{2000}' <= c <= '\U{200A}')
    || c == '\U{2028}' || c == '\U{2029}' || c == '\U{202F}' || c == '\U{205F}'
    || c == '\U{3000}' || c == '\U{FEFF}'
  }

  /** The class holds more than the space: tab, line breaks, the no-break
      space and the byte-order mark all belong to it; the Mongolian vowel
      separator (no longer a space separator) and the zero-width space do
      not, and no whitespace character is a letter or a digit. */
  lemma JsWhitespaceCases(c: char)
    ensures IsJsWhitespace('\t') && IsJsWhitespace('\n') && IsJsWhitespace('\r')
    ensures IsJsWhitespace('\U{00A0}') && IsJsWhitespace('\U{2028}') && IsJsWhitespace('\U{FEFF}')
    ensures !IsJsWhitespace('\U{180E}') && !IsJsWhitespace('\U{200B}')
    ensures IsJsWhitespace(c) ==> !IsAsciiLetter(c) && !IsDigit(c) && !IsListedDiacritic(c)
  {
  }

  /** The five lower-case letters the name pattern lists: š đ ž ć č. */
  predicate IsListedDiacritic(c: char) {
    c == '\U{0161}' || c == '\U{0111}' || c == '\U{017E}' || c == '\U{0107}' || c == '\U{010D}'
  }

  /** The character class `[a-zA-Zšđžćč\s]`. */
  predicate IsNameChar(c: char) {
    IsAsciiLetter(c) || IsJsWhitespace(c) || IsListedDiacritic(c)
  }

  /** An anchored `[cls]+`: one character of the class, then either the end
      of the input or another match of the same pattern. */
  predicate OneOrMore(cls: char -> bool, s: string)
    decreases |s|
  {
    |s| > 0 && cls(s[0]) && (|s| == 1 || OneOrMore(cls, s[1..]))
  }

  /** The name pattern `^[a-zA-Zšđžćč\s]+$`: the whole input is one or
      more characters of the name class. */
  predicate ValidName(s: string) {
    OneOrMore(IsNameChar, s)
  }

  /** The phone pattern `^\+?\d+$`: the optional `+` is either absent or
      consumed first, and the rest must be one or more digits. */
  predicate ValidPhone(s: string) {
    OneOrMore(IsDigit, s) || (|s| > 0 && s[0] == '+' && OneOrMore(IsDigit, s[1..]))
  }

  /** `[cls]+` matches exactly the non-empty strings whose every character
      is in the class. */
  lemma {:induction false} OneOrMoreIff(cls: char -> bool, s: string)
    ensures OneOrMore(cls, s) <==> |s| > 0 && forall i :: 0 <= i < |s| ==> cls(s[i])
    decreases |s|
  {
    if |s| > 1 {
      OneOrMoreIff(cls, s[1..]);
      assert forall i :: 1 <= i < |s| ==> s[i] == s[1..][i - 1];
    }
  }

  /** A name is accepted exactly when it is non-empty and made only of ASCII
      letters, JavaScript whitespace and the five listed diacritics. */
  lemma ValidNameIff(s: string)
    ensures ValidName(s) <==> |s| > 0 && forall i :: 0 <= i < |s| ==> IsNameChar(s[i])
  {
    OneOrMoreIff(IsNameChar, s);
  }

  /** A name holding a digit, an ASCII punctuation mark or symbol other than
      the space, or one of the upper-case forms Š Đ Ž Ć Č is rejected,
      wherever that character stands. */
  lemma ValidNameRejects(s: string, i: int)
    requires 0 <= i < |s|
    requires IsDigit(s[i])
             || ('!' <= s[i] <= '/') || (':' <= s[i] <= '@') || ('[' <= s[i] <= '`') || ('{' <= s[i] <= '~')
             || s[i] == '\U{0160}' || s[i] == '\U{0110}' || s[i] == '\U{017D}' || s[i] == '\U{0106}' || s[i] == '\U{010C}'
    ensures !ValidName(s)
  {
    ValidNameIff(s);
  }

  /** A phone number is accepted exactly when, after dropping one leading
      `+` if there is one, what remains is one or more ASCII digits. */
  lemma ValidPhoneIff(s: string)
    ensures ValidPhone(s) <==>
              var digits := if |s| > 0 && s[0] == '+' then s[1..] else s;
              |digits| > 0 && forall i :: 0 <= i < |digits| ==> IsDigit(digits[i])
  {
    OneOrMoreIff(IsDigit, s);
    if |s| > 0 {
      OneOrMoreIff(IsDigit, s[1..]);
    }
  }

  /** In an accepted phone number every character is a digit, except a `+`
      in the first position and nowhere else, and the last character is
      a digit, so a `+` is never the whole number. */
  lemma ValidPhoneShape(s: string, i: int)
    requires ValidPhone(s)
    requires 0 <= i < |s|
    ensures IsDigit(s[i]) || (i == 0 && s[i] == '+')
    ensures IsDigit(s[|s| - 1])
  {
    ValidPhoneIff(s);
    if s[0] == '+' {
      assert s[1..][|s| - 2] == s[|s| - 1];
      if i > 0 {
        assert s[1..][i - 1] == s[i];
      }
    }
  }

  /** A worked case with a space and a listed diacritic. */
  lemma NameAcceptedWithDiacritic()
    ensures ValidName("Ana Mari\U{0107}")
  {
  }

  /** A worked case of plain ASCII letters. */
  lemma NameAcceptedAscii()
    ensures ValidName("Ivo")
  {
  }

  /** A worked case where a tab separates the parts: `\s` is not only the
      space. */
  lemma NameAcceptedWithTab()
    ensures ValidName("\U{0111}uro\t\U{017E}ivi\U{010D}")
  {
  }

  /** Worked cases the name pattern rejects: empty, digits, an upper-case
      diacritic and an apostrophe. */
  lemma NameRejected()
    ensures !ValidName("")
    ensures !ValidName("John123")
    ensures !ValidName("\U{0160}ime")
    ensures !ValidName("O'Brien")
  {
    ValidNameRejects("John123", 4);
    ValidNameRejects("\U{0160}ime", 0);
    ValidNameRejects("O'Brien", 1);
  }

  /** Prefixing a run of digits with `+` gives an accepted number. */
  lemma PlusThenDigits(digits: string)
    requires OneOrMore(IsDigit, digits)
    ensures ValidPhone(['+'] + digits)
  {
    assert (['+'] + digits)[1..] == digits;
  }

  /** A worked case with the international prefix. */
  lemma PhoneAcceptedWithPlus()
    ensures ValidPhone("+38512345678")
  {
    PlusThenDigits("38512345678");
    assert ['+'] + "38512345678" == "+38512345678";
  }

  /** A worked case without the prefix. */
  lemma PhoneAcceptedPlain()
    ensures ValidPhone("0911234567")
  {
  }

  /** Worked cases the phone pattern rejects: empty, a bare `+`, a doubled
      `+`, a `+` after a digit, and a separator. */
  lemma PhoneRejected()
    ensures !ValidPhone("")
    ensures !ValidPhone("+")
    ensures !ValidPhone("++1")
    ensures !ValidPhone("1+2")
    ensures !ValidPhone("123-456")
  {
  }
}
