/**
 * The two regular expressions of the add-payment form, as predicates on
 * strings, with lemmas that characterise what each accepts.
 */
module Validators {

  /** `\d` of a JavaScript regular expression without the `u` flag. */
  predicate IsDigit(c: char)
  {
    '0' <= c <= '9'
  }

  /** `\s` of a JavaScript regular expression: the white-space and line-terminator characters. */
  predicate IsWhitespace(c: char)
  {
    || '\t' <= c <= '\r'   // tab, line feed, vertical tab, form feed, carriage return
    || c == ' '
    || c == '\U{A0}' || c == '\U{1680}'
    || '\U{2000}' <= c <= '\U{200A}'
    || c == '\U{2028}' || c == '\U{2029}' || c == '\U{202F}' || c == '\U{205F}'
    || c == '\U{3000}' || c == '\U{FEFF}'
  }

  /** `\d+`: one or more digits. */
  predicate Digits(s: string)
  {
    |s| > 0 && forall i :: 0 <= i < |s| ==> IsDigit(s[i])
  }

  /** No character of `s` is white space. */
  predicate NoWhitespace(s: string)
  {
    forall i :: 0 <= i < |s| ==> !IsWhitespace(s[i])
  }

  /** `\S+`: one or more characters that are not white space. */
  predicate NonSpaces(s: string)
  {
    |s| > 0 && NoWhitespace(s)
  }

  /**
   * The amount pattern `^\d+(\.\d+)?$`: the whole string is digits, or is
   * digits, a '.', and digits.
   */
  predicate AmountPattern(s: string): (ok: bool)
    ensures ok ==> |s| > 0 && IsDigit(s[0]) && IsDigit(s[|s| - 1])
  {
    || Digits(s)
    || exists i | 0 <= i < |s| :: s[i] == '.' && Digits(s[..i]) && Digits(s[i+1..])
  }

  /**
   * The email pattern `^\S+@\S+$` (its `i` flag changes nothing here): the
   * string splits at some '@' into two non-empty runs of non-space characters.
   */
  predicate EmailPattern(s: string): (ok: bool)
    ensures ok ==> |s| >= 3 && !IsWhitespace(s[0]) && !IsWhitespace(s[|s| - 1])
  {
    exists i | 0 <= i < |s| :: s[i] == '@' && NonSpaces(s[..i]) && NonSpaces(s[i+1..])
  }

  /** Every character is a digit or '.', at most one is '.', and it is neither first nor last. */
  predicate IsDecimalText(s: string)
  {
    && |s| > 0
    && IsDigit(s[0])
    && IsDigit(s[|s| - 1])
    && (forall i :: 0 <= i < |s| ==> IsDigit(s[i]) || s[i] == '.')
    && (forall i, j :: 0 <= i < j < |s| && s[i] == '.' ==> s[j] != '.')
  }

  /** The amount pattern accepts exactly the decimal texts. */
  lemma {:induction false} AmountPatternIsDecimalText(s: string)
    ensures AmountPattern(s) <==> IsDecimalText(s)
  {
    if AmountPattern(s) {
      if !Digits(s) {
        var i :| 0 <= i < |s| && s[i] == '.' && Digits(s[..i]) && Digits(s[i+1..]);
        assert s[0] == s[..i][0];
        assert s[|s| - 1] == s[i+1..][|s| - i - 2];
        forall k | 0 <= k < |s| && k != i ensures IsDigit(s[k]) {
          if k < i { assert s[k] == s[..i][k]; }
          else { assert s[k] == s[i+1..][k - i - 1]; }
        }
      }
    }
    if IsDecimalText(s) && !Digits(s) {
      var i :| 0 <= i < |s| && s[i] == '.';
      assert 0 < i < |s| - 1;
      var left, right := s[..i], s[i+1..];
      forall k | 0 <= k < |left| ensures IsDigit(left[k]) {
        assert left[k] == s[k];
      }
      forall k | 0 <= k < |right| ensures IsDigit(right[k]) {
        assert right[k] == s[i + 1 + k];
      }
      assert Digits(left) && Digits(right);
    }
  }

  /**
   * The email pattern accepts exactly the strings without white space that
   * hold an '@' with at least one character before it and one after it;
   * further '@' characters are allowed.
   */
  lemma {:induction false} EmailPatternCharacterised(s: string)
    ensures EmailPattern(s) <==> NoWhitespace(s) && exists i :: 0 < i < |s| - 1 && s[i] == '@'
  {
    if EmailPattern(s) {
      var i :| 0 <= i < |s| && s[i] == '@' && NonSpaces(s[..i]) && NonSpaces(s[i+1..]);
      forall k | 0 <= k < |s| ensures !IsWhitespace(s[k]) {
        if k < i { assert s[k] == s[..i][k]; }
        else if k > i { assert s[k] == s[i+1..][k - i - 1]; }
      }
    }
    if NoWhitespace(s) && exists i :: 0 < i < |s| - 1 && s[i] == '@' {
      var i :| 0 < i < |s| - 1 && s[i] == '@';
      var left, right := s[..i], s[i+1..];
      forall k | 0 <= k < |left| ensures !IsWhitespace(left[k]) {
        assert left[k] == s[k];
      }
      forall k | 0 <= k < |right| ensures !IsWhitespace(right[k]) {
        assert right[k] == s[i + 1 + k];
      }
      assert s[i] == '@' && NonSpaces(left) && NonSpaces(right);
    }
  }

  /** Inputs the amount pattern rejects and accepts. */
  lemma AmountExamples()
    ensures !AmountPattern("") && !AmountPattern(".5") && !AmountPattern("5.")
    ensures !AmountPattern("-1") && !AmountPattern("1e3") && !AmountPattern("1.2.3")
    ensures AmountPattern("12.5") && AmountPattern("007") && AmountPattern("100")
  {
    AmountPatternIsDecimalText("");
    AmountPatternIsDecimalText(".5");
    AmountPatternIsDecimalText("5.");
    AmountPatternIsDecimalText("-1");
    AmountPatternIsDecimalText("1e3");
    AmountPatternIsDecimalText("1.2.3");
    assert "1.2.3"[1] == '.' && "1.2.3"[3] == '.';
    assert "1e3"[1] == 'e' && "-1"[0] == '-';
    assert "12.5"[2] == '.' && Digits("12.5"[..2]) && Digits("12.5"[3..]);
    assert Digits("007");
    assert Digits("100");
  }

  /** Inputs the email pattern accepts, one of them with several '@'. */
  lemma EmailAccepted()
    ensures EmailPattern("a@b.com") && EmailPattern("a@b@c") && EmailPattern("@@@")
  {
    EmailPatternCharacterised("a@b.com");
    EmailPatternCharacterised("a@b@c");
    EmailPatternCharacterised("@@@");
    assert "a@b.com"[1] == '@';
    assert "a@b@c"[1] == '@';
    assert "@@@"[1] == '@';
  }

  /** Inputs the email pattern rejects: empty, nothing before or after the '@', a space, no '@'. */
  lemma EmailRejected()
    ensures !EmailPattern("") && !EmailPattern("@b") && !EmailPattern("a@")
    ensures !EmailPattern("a b@c") && !EmailPattern("ab.com")
  {
    EmailPatternCharacterised("");
    EmailPatternCharacterised("@b");
    EmailPatternCharacterised("a@");
    EmailPatternCharacterised("a b@c");
    EmailPatternCharacterised("ab.com");
    assert !NoWhitespace("a b@c") by { assert IsWhitespace("a b@c"[1]); }
  }
}
