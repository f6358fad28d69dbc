/** UUID columns: which texts they accept, and the one text in which a stored value is read back. A text is
    32 hexadecimal digits of either case, with an optional hyphen after any group of four but the last, and
    optionally in braces; it is read back in lower case, in groups of 8-4-4-4-12. */
module UUIDs {
  import opened Sequences

  predicate IsHex(c: char) {
    '0' <= c <= '9' || 'a' <= c <= 'f' || 'A' <= c <= 'F'
  }

  predicate AllHex(s: string) {
    forall i :: 0 <= i < |s| ==> IsHex(s[i])
  }

  function Lower(s: string): string {
    seq(|s|, i requires 0 <= i < |s| => if 'A' <= s[i] <= 'F' then s[i] - 'A' + 'a' else s[i])
  }

  function Unbraced(text: string): string {
    if |text| >= 2 && text[0] == '{' && text[|text| - 1] == '}' then text[1..|text| - 1] else text
  }

  const GROUPS := 8

  function Separator(n: nat): string {
    if 4 <= n <= 7 then "-" else ""
  }

  /** Reads the last n groups of four digits, as they are read back: with hyphens after the second to the fifth of
      the eight. One more than eight is the whole text, braces included. */
  function ReadBack(text: string, n: nat): Option<string> {
    if n > GROUPS then ReadBack(Unbraced(text), n - 1)
    else if n == 0 then if text == "" then Some("") else None
    else if |text| < 4 || !AllHex(text[..4]) then None
    else
      var hyphen := n > 1 && |text| > 4 && text[4] == '-';
      match ReadBack(if hyphen then text[5..] else text[4..], n - 1)
      case None => None
      case Some(rest) => Some(Lower(text[..4]) + Separator(n) + rest)
  }

  predicate IsUUID(text: string) {
    ReadBack(text, GROUPS + 1).Some?
  }

  /** The text that a column holding this value is read back as. */
  function Canon(text: string): string {
    match ReadBack(text, GROUPS + 1)
    case None => text
    case Some(canonical) => canonical
  }

  /** In the form in which values are read back. */
  predicate Canonical(text: string) {
    IsUUID(text) && Canon(text) == text
  }

  /** Two texts for one value. */
  predicate SameID(a: string, b: string) {
    IsUUID(a) && IsUUID(b) && Canon(a) == Canon(b)
  }

  /** One more group before a rest that is read back as it is. */
  lemma GroupReadBack(group: string, rest: string, n: nat)
    requires 0 < n <= GROUPS && |group| == 4 && AllHex(group) && Lower(group) == group
    requires ReadBack(rest, n - 1) == Some(rest) && (rest != "" ==> IsHex(rest[0]))
    ensures ReadBack(group + Separator(n) + rest, n) == Some(group + Separator(n) + rest)
  {
    var v := group + Separator(n) + rest;
    assert v[..4] == group;
    if 4 <= n <= 7 {
      assert v[4] == '-' && v[5..] == rest;
    } else {
      assert v[4..] == rest;
    }
  }

  lemma {:induction false} ReadBackTwice(text: string, n: nat)
    requires n <= GROUPS && ReadBack(text, n).Some?
    ensures ReadBack(ReadBack(text, n).value, n) == ReadBack(text, n)
    ensures n > 0 ==> ReadBack(text, n).value != "" && IsHex(ReadBack(text, n).value[0])
    ensures n == 0 ==> ReadBack(text, n).value == ""
  {
    if n > 0 {
      var rest := if n > 1 && |text| > 4 && text[4] == '-' then text[5..] else text[4..];
      ReadBackTwice(rest, n - 1);
      var group := Lower(text[..4]);
      assert AllHex(group) && Lower(group) == group;
      GroupReadBack(group, ReadBack(rest, n - 1).value, n);
    }
  }

  /** What is read back spells the same value, and is read back as it is. */
  lemma CanonIsCanonical(text: string)
    requires IsUUID(text)
    ensures Canonical(Canon(text)) && SameID(text, Canon(text))
  {
    var v := Canon(text);
    ReadBackTwice(Unbraced(text), GROUPS);
    assert Unbraced(v) == v;
  }

  lemma ReadBackStep(text: string, n: nat) returns (group: string, rest: string)
    requires 0 < n <= GROUPS && ReadBack(text, n).Some?
    ensures |group| == 4 && AllHex(group) && Lower(group) == group && ReadBack(rest, n - 1).Some?
    ensures ReadBack(text, n).value == group + (if 4 <= n <= 7 then "-" else "") + ReadBack(rest, n - 1).value
    ensures ReadBack(text, n).value[..4] == group
  {
    group, rest := Lower(text[..4]), if n > 1 && |text| > 4 && text[4] == '-' then text[5..] else text[4..];
  }

  lemma {:induction false} ReadBackLength(text: string, n: nat)
    requires n <= GROUPS && ReadBack(text, n).Some?
    ensures |ReadBack(text, n).value| == 4 * n + (if n < 4 then 0 else if n == 8 then 4 else n - 3)
    decreases n
  {
    if n > 0 {
      var group, rest := ReadBackStep(text, n);
      ReadBackLength(rest, n - 1);
    }
  }

  /** Where the hyphen before the last n - 1 groups stands. */
  lemma HyphenAt(text: string, n: nat)
    requires 4 <= n <= 7 && ReadBack(text, n).Some?
    ensures ReadBack(text, n).value[4] == '-'
  {
    var group, rest := ReadBackStep(text, n);
  }

  /** 36 characters, with hyphens after the 8th, 12th, 16th and 20th digit. */
  lemma CanonShape(text: string)
    requires IsUUID(text)
    ensures var v := Canon(text); |v| == 36 && v[8] == '-' && v[13] == '-' && v[18] == '-' && v[23] == '-'
  {
    ReadBackLength(Unbraced(text), 8);
    var g8, r7 := ReadBackStep(Unbraced(text), 8);
    var g7, r6 := ReadBackStep(r7, 7);
    var g6, r5 := ReadBackStep(r6, 6);
    var g5, r4 := ReadBackStep(r5, 5);
    HyphenAt(r7, 7);
    HyphenAt(r6, 6);
    HyphenAt(r5, 5);
    HyphenAt(r4, 4);
    ReadBackLength(r7, 7);
    ReadBackLength(r6, 6);
    ReadBackLength(r5, 5);
    ReadBackLength(r4, 4);
    var v7, v6, v5, v4 := ReadBack(r7, 7).value, ReadBack(r6, 6).value, ReadBack(r5, 5).value, ReadBack(r4, 4).value;
    assert Canon(text) == g8 + v7;
    assert v7 == g7 + "-" + v6 && v6 == g6 + "-" + v5 && v5 == g5 + "-" + v4;
  }

  /** The digits of a text: what is neither hyphen nor brace. */
  function DigitsOf(text: string): string {
    Filter(IsHex, text)
  }

  lemma HexOfGroup(group: string)
    requires AllHex(group)
    ensures Filter(IsHex, group) == group
  {
    FilterAll(IsHex, group);
  }

  lemma LowerAppend(a: string, b: string)
    ensures Lower(a + b) == Lower(a) + Lower(b)
  {}

  lemma DigitsAround(group: string, hyphen: string, rest: string)
    requires AllHex(group) && (hyphen == "" || hyphen == "-")
    ensures DigitsOf(group + hyphen + rest) == group + DigitsOf(rest)
  {
    FilterAppend(IsHex, group + hyphen, rest);
    FilterAppend(IsHex, group, hyphen);
    HexOfGroup(group);
    FilterNone(IsHex, hyphen);
    assert group + [] == group;
  }

  lemma {:induction false} ReadBackDigits(text: string, n: nat)
    requires n <= GROUPS && ReadBack(text, n).Some?
    ensures DigitsOf(ReadBack(text, n).value) == Lower(DigitsOf(text))
  {
    if n > 0 {
      var hyphen := n > 1 && |text| > 4 && text[4] == '-';
      var rest := if hyphen then text[5..] else text[4..];
      var skipped := if hyphen then "-" else "";
      var v := ReadBack(rest, n - 1).value;
      ReadBackDigits(rest, n - 1);
      assert text == text[..4] + skipped + rest;
      DigitsAround(text[..4], skipped, rest);
      DigitsAround(Lower(text[..4]), Separator(n), v);
      LowerAppend(text[..4], DigitsOf(rest));
    }
  }

  lemma CanonDigits(text: string)
    requires IsUUID(text)
    ensures DigitsOf(Canon(text)) == Lower(DigitsOf(text))
  {
    var inner := Unbraced(text);
    ReadBackDigits(inner, GROUPS);
    if inner != text {
      assert text == "{" + inner + "}";
      FilterAppend(IsHex, "{" + inner, "}");
      FilterAppend(IsHex, "{", inner);
      FilterNone(IsHex, "{");
      FilterNone(IsHex, "}");
      assert [] + DigitsOf(inner) + [] == DigitsOf(inner);
    }
  }

  lemma {:induction false} DigitsDetermine(a: string, b: string, n: nat)
    requires n <= GROUPS && ReadBack(a, n).Some? && ReadBack(b, n).Some?
    requires DigitsOf(ReadBack(a, n).value) == DigitsOf(ReadBack(b, n).value)
    ensures ReadBack(a, n) == ReadBack(b, n)
    decreases n
  {
    if n > 0 {
      var group1, rest1 := ReadBackStep(a, n);
      var group2, rest2 := ReadBackStep(b, n);
      DigitsAround(group1, Separator(n), ReadBack(rest1, n - 1).value);
      DigitsAround(group2, Separator(n), ReadBack(rest2, n - 1).value);
      assert (group1 + DigitsOf(ReadBack(rest1, n - 1).value))[..4] == group1;
      assert (group2 + DigitsOf(ReadBack(rest2, n - 1).value))[..4] == group2;
      assert (group1 + DigitsOf(ReadBack(rest1, n - 1).value))[4..] == DigitsOf(ReadBack(rest1, n - 1).value);
      assert (group2 + DigitsOf(ReadBack(rest2, n - 1).value))[4..] == DigitsOf(ReadBack(rest2, n - 1).value);
      DigitsDetermine(rest1, rest2, n - 1);
    }
  }

  /** Two texts spell one value exactly when they have the same digits, in whatever case. */
  lemma SameIDIff(a: string, b: string)
    requires IsUUID(a) && IsUUID(b)
    ensures SameID(a, b) <==> Lower(DigitsOf(a)) == Lower(DigitsOf(b))
  {
    CanonDigits(a);
    CanonDigits(b);
    if Lower(DigitsOf(a)) == Lower(DigitsOf(b)) {
      DigitsDetermine(Unbraced(a), Unbraced(b), GROUPS);
    }
  }

  lemma {:induction false} UpperCase(n: nat) returns (text: string)
    requires n <= GROUPS
    ensures ReadBack(text, n).Some? && (n > 0 ==> text != "" && text[0] == 'A' && ReadBack(text, n).value != "")
    ensures n > 0 ==> ReadBack(text, n).value[0] == 'a'
  {
    text := "";
    if n > 0 {
      var rest := UpperCase(n - 1);
      var hyphen := if 4 <= n <= 7 then "-" else "";
      text := "AAAA" + hyphen + rest;
      assert text[..4] == "AAAA" && AllHex("AAAA") && Lower("AAAA")[0] == 'a';
      if 4 <= n <= 7 {
        assert text[4] == '-' && text[5..] == rest;
      } else {
        assert text[4..] == rest;
      }
    }
  }

  /** Upper case spells a value, but is not what is read back. */
  lemma UpperCaseIsAlias() returns (text: string)
    ensures IsUUID(text) && Canon(text) != text
  {
    text := UpperCase(GROUPS);
    assert Unbraced(text) == text;
  }
}
