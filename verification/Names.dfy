/** Container and destination names, and the nonce a run is known by. */
module Names {
  import opened Text

  predicate IsNameChar(c: char) {
    IsAlnumAscii(c) || c == '_' || c == '.' || c == '-'
  }

  /** `validate_name`: a letter or digit, then letters, digits, `_`, `.` and `-`. */
  predicate ValidName(s: string) {
    && 0 < |s| <= 128
    && IsAlnumAscii(s[0])
    && forall i | 0 <= i < |s| :: IsNameChar(s[i])
  }

  predicate IsLowerHex(c: char) {
    IsDigitAscii(c) || 'a' <= c <= 'f'
  }

  /** `validate_nonce`. */
  predicate ValidNonce(s: string) {
    |s| == 16 && forall i | 0 <= i < |s| :: IsLowerHex(s[i])
  }

  lemma NameCharSpelled(c: char)
    ensures IsNameChar(c) <==> c in LETTERS_AND_DIGITS || c in "_.-"
  {
    AlnumSpelled(c);
    assert "_.-"[0] == '_' && "_.-"[1] == '.' && "_.-"[2] == '-';
    hide IsAlnumAscii;
  }

  /** At most 128 letters, digits, `_`, `.` and `-`, a letter or digit first. */
  lemma ValidNameSpelled(s: string)
    ensures ValidName(s) <==>
              && 1 <= |s| <= 128 && s[0] in LETTERS_AND_DIGITS
              && forall i | 0 <= i < |s| :: s[i] in LETTERS_AND_DIGITS || s[i] in "_.-"
  {
    if s != "" { AlnumSpelled(s[0]); }
    forall i | 0 <= i < |s| ensures IsNameChar(s[i]) <==> s[i] in LETTERS_AND_DIGITS || s[i] in "_.-" {
      NameCharSpelled(s[i]);
    }
    hide IsAlnumAscii, IsNameChar;
  }

  /** Sixteen small hexadecimal digits. */
  lemma ValidNonceSpelled(s: string)
    ensures ValidNonce(s) <==> |s| == 16 && forall i | 0 <= i < |s| :: s[i] in "0123456789abcdef"
  {
    forall c: char ensures IsLowerHex(c) <==> c in "0123456789abcdef" { HexSpelled(c); }
    hide IsLowerHex;
  }

  lemma HexSpelled(c: char)
    ensures IsLowerHex(c) <==> c in "0123456789abcdef"
  {
    var digits := "0123456789abcdef";
    assert forall i | 0 <= i < 16 :: IsLowerHex(digits[i]);
    if IsDigitAscii(c) {
      assert digits[c as int - 48] == c;
    } else if 'a' <= c <= 'f' {
      assert digits[c as int - 87] == c;
    }
  }

  lemma ValidNameIsWord(s: string)
    requires ValidName(s)
    ensures IsWord(s)
  {
    assert forall c | IsNameChar(c) :: !IsSpace(c);
  }
}
