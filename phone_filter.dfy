/** The live filter the phone field applies to every keystroke
    (`handlePhoneChange`): two global regular-expression replacements. */
module PhoneFilter {
  import opened Text

  /** The characters the filter lets through: a decimal digit or `+`. */
  predicate IsPhoneChar(c: char) {
    IsDigit(c) || c == '+'
  }

  /** First pass, `replace(/[^0-9+]/g, "")`: keeps the digits and the `+`
      signs, in their order. */
  function KeepPhoneChars(s: string): (r: string)
    ensures |r| <= |s|
    ensures forall i :: 0 <= i < |r| ==> IsPhoneChar(r[i])
  {
    if s == [] then []
    else (if IsPhoneChar(s[0]) then [s[0]] else []) + KeepPhoneChars(s[1..])
  }

  /** Removes every `+`, keeping everything else in order. */
  function DropPlus(s: string): (r: string)
    ensures |r| <= |s|
    ensures forall i :: 0 <= i < |r| ==> r[i] != '+' && r[i] in s
  {
    if s == [] then []
    else (if s[0] == '+' then [] else [s[0]]) + DropPlus(s[1..])
  }

  /** Second pass, `replace(/(?!^)\+/g, "")`: without the multiline flag `^`
      holds only at position 0, so every `+` except one at position 0 goes. */
  function DropNonLeadingPlus(s: string): (r: string)
  {
    if s == [] then [] else [s[0]] + DropPlus(s[1..])
  }

  /** The whole live filter: the result holds only digits and `+`, a `+` only
      at position 0, and is never longer than what was typed. */
  function FilterPhone(s: string): (r: string)
    ensures |r| <= |s|
    ensures forall i :: 0 <= i < |r| ==> IsPhoneChar(r[i])
    ensures forall i :: 0 < i < |r| ==> IsDigit(r[i])
  {
    var t := KeepPhoneChars(s);
    var r := DropNonLeadingPlus(t);
    assert forall i :: 0 < i < |r| ==> r[i] in t && r[i] != '+';
    r
  }

  /** The digits of `s`, in order. */
  function Digits(s: string): (r: string)
    ensures |r| <= |s|
    ensures AllDigits(r)
  {
    if s == [] then []
    else (if IsDigit(s[0]) then [s[0]] else []) + Digits(s[1..])
  }

  /** Reference for the leading `+`: the first digit-or-`+` character typed is a `+`. */
  ghost predicate LeadsWithPlus(s: string) {
    exists i :: 0 <= i < |s| && s[i] == '+' && forall j :: 0 <= j < i ==> !IsPhoneChar(s[j])
  }

  lemma {:induction false} DigitsConcat(a: string, b: string)
    ensures Digits(a + b) == Digits(a) + Digits(b)
  {
    if a == [] {
      assert a + b == b;
    } else {
      var t := a + b;
      assert t[0] == a[0] && t[1..] == a[1..] + b;
      DigitsConcat(a[1..], b);
      var head: string := if IsDigit(a[0]) then [a[0]] else [];
      assert Digits(t) == head + (Digits(a[1..]) + Digits(b));
      assert Digits(a) == head + Digits(a[1..]);
      assert head + (Digits(a[1..]) + Digits(b)) == (head + Digits(a[1..])) + Digits(b);
    }
  }

  lemma {:induction false} DigitsOfDigits(s: string)
    requires AllDigits(s)
    ensures Digits(s) == s
  {
    if s != [] {
      DigitsOfDigits(s[1..]);
    }
  }

  /** Both passes together, after position 0: exactly the digits. */
  lemma {:induction false} DropPlusKeepsDigitsOnly(s: string)
    ensures DropPlus(KeepPhoneChars(s)) == Digits(s)
  {
    if s != [] {
      DropPlusKeepsDigitsOnly(s[1..]);
      var rest := KeepPhoneChars(s[1..]);
      if IsPhoneChar(s[0]) {
        assert KeepPhoneChars(s) == [s[0]] + rest;
        assert ([s[0]] + rest)[0] == s[0] && ([s[0]] + rest)[1..] == rest;
      } else {
        assert KeepPhoneChars(s) == rest;
      }
    }
  }

  lemma LeadsWithPlusTail(s: string)
    requires s != [] && !IsPhoneChar(s[0])
    ensures LeadsWithPlus(s) <==> LeadsWithPlus(s[1..])
  {
    if LeadsWithPlus(s) {
      var i :| 0 <= i < |s| && s[i] == '+' && forall j :: 0 <= j < i ==> !IsPhoneChar(s[j]);
      assert s[1..][i - 1] == '+';
    }
    if LeadsWithPlus(s[1..]) {
      var i :| 0 <= i < |s[1..]| && s[1..][i] == '+' && forall j :: 0 <= j < i ==> !IsPhoneChar(s[1..][j]);
      assert s[i + 1] == '+';
      assert forall j :: 0 <= j < i + 1 ==> !IsPhoneChar(s[j]) by {
        forall j | 0 < j < i + 1 ensures !IsPhoneChar(s[j]) { assert s[j] == s[1..][j - 1]; }
      }
    }
  }

  /** The filter's result, stated without the two regular expressions: a `+`
      if the first digit-or-`+` character typed was a `+`, then every digit
      typed, in order. */
  lemma {:induction false} FilterPhoneShape(s: string)
    ensures FilterPhone(s) == (if LeadsWithPlus(s) then "+" else "") + Digits(s)
  {
    if s == [] {
    } else if !IsPhoneChar(s[0]) {
      FilterPhoneShape(s[1..]);
      SkipNonPhoneChar(s);
    } else {
      FirstPhoneChar(s);
      if s[0] == '+' {
        assert LeadsWithPlus(s);
      } else {
        assert !LeadsWithPlus(s);
      }
    }
  }

  /** A leading character that is neither a digit nor `+` changes nothing. */
  lemma SkipNonPhoneChar(s: string)
    requires s != [] && !IsPhoneChar(s[0])
    ensures FilterPhone(s) == FilterPhone(s[1..])
    ensures Digits(s) == Digits(s[1..])
    ensures LeadsWithPlus(s) <==> LeadsWithPlus(s[1..])
  {
    LeadsWithPlusTail(s);
    assert KeepPhoneChars(s) == KeepPhoneChars(s[1..]);
  }

  /** A leading digit or `+` is kept, followed by the digits of the rest. */
  lemma FirstPhoneChar(s: string)
    requires s != [] && IsPhoneChar(s[0])
    ensures FilterPhone(s) == [s[0]] + Digits(s[1..])
  {
    DropPlusKeepsDigitsOnly(s[1..]);
    var t := KeepPhoneChars(s);
    assert t == [s[0]] + KeepPhoneChars(s[1..]);
    assert t[1..] == KeepPhoneChars(s[1..]);
  }

  /** The filter keeps every digit typed, in the original order. */
  lemma FilterPhoneKeepsDigits(s: string)
    ensures Digits(FilterPhone(s)) == Digits(s)
  {
    FilterPhoneShape(s);
    var p: string := if LeadsWithPlus(s) then "+" else "";
    DigitsConcat(p, Digits(s));
    DigitsOfDigits(Digits(s));
    assert Digits(p) == [];
  }

  /** Filtering an already filtered value changes nothing. */
  lemma FilterPhoneIdempotent(s: string)
    ensures FilterPhone(FilterPhone(s)) == FilterPhone(s)
  {
    var r := FilterPhone(s);
    FilterPhoneShape(s);
    FilterPhoneShape(r);
    FilterPhoneKeepsDigits(s);
    if LeadsWithPlus(s) {
      assert r[0] == '+';
      assert LeadsWithPlus(r);
    } else {
      assert AllDigits(r);
      assert !LeadsWithPlus(r);
    }
  }
}
