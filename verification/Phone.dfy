/** Rwandan phone numbers: normalisation, validation and formatting. */
module Phone {
  import opened Text

  const COUNTRY := "250"

  /** `raw.replace(/\D/g, '')` */
  function OnlyDigits(raw: string): (r: string)
    ensures AllDigits(r)
  {
    if raw == "" then "" else (if IsDigit(raw[0]) then [raw[0]] else "") + OnlyDigits(raw[1..])
  }

  function Normalize(raw: string): string {
    var digits := OnlyDigits(raw);
    if "250" <= digits then "+" + digits
    else if "0" <= digits && |digits| == 10 then "+250" + digits[1..]
    else if |digits| == 9 then "+250" + digits
    else if "+" <= raw then raw
    else "+" + digits
  }

  /** `normalized.replace(/^\+250/, '')` */
  function National(normalized: string): string {
    if "+250" <= normalized then normalized[4..] else normalized
  }

  /** `/^[78]\d{8}$/` */
  predicate IsSubscriber(s: string) {
    |s| == 9 && (s[0] == '7' || s[0] == '8') && AllDigits(s)
  }

  predicate IsValid(phone: string) {
    IsSubscriber(National(Normalize(phone)))
  }

  datatype Style = E164 | INTERNATIONAL | NATIONAL

  /** The formatted number; invalid input comes back as it is. */
  function Format(phone: string, style: Style): string {
    if !IsValid(phone) then phone else
    var normalized := Normalize(phone);
    var national := National(normalized);
    match style
    case E164 => normalized
    case INTERNATIONAL => "+" + COUNTRY + " " + national[..2] + " " + national[2..5] + " " + national[5..]
    case NATIONAL => "0" + national
  }

  lemma {:induction false} OnlyDigitsAppend(a: string, b: string)
    ensures OnlyDigits(a + b) == OnlyDigits(a) + OnlyDigits(b)
  {
    if a == "" {
      assert a + b == b;
    } else {
      assert (a + b)[1..] == a[1..] + b;
      OnlyDigitsAppend(a[1..], b);
    }
  }

  lemma {:induction false} DigitsStay(s: string)
    requires AllDigits(s)
    ensures OnlyDigits(s) == s
  {
    if s != "" {
      DigitsStay(s[1..]);
    }
  }

  /** A number is valid exactly when its normal form is +250 followed by 7 or 8 and eight more digits. */
  lemma ValidIffNormalForm(phone: string)
    ensures IsValid(phone) <==> exists n :: IsSubscriber(n) && Normalize(phone) == "+250" + n
  {
    var normalized := Normalize(phone);
    if IsValid(phone) {
      assert normalized[0] == '+';
      assert "+250" <= normalized;
      assert normalized == "+250" + normalized[4..];
    }
    if n :| IsSubscriber(n) && normalized == "+250" + n {
      assert normalized[4..] == n;
    }
  }

  /**
   * In terms of what was typed: once everything but digits is dropped, a valid number is the nine-digit
   * subscriber number alone, behind a trunk zero, or behind the country code; nothing else is valid.
   */
  lemma ValidIffDigits(phone: string)
    ensures IsValid(phone) <==> exists n :: IsSubscriber(n) && Typed(OnlyDigits(phone), n)
  {
    if IsValid(phone) {
      ValidIsTyped(phone);
    }
    if n :| IsSubscriber(n) && Typed(OnlyDigits(phone), n) {
      TypedNormalizes(phone, n);
      ValidIffNormalForm(phone);
    }
  }

  /** The three ways to type a subscriber number, digits only. */
  predicate Typed(digits: string, n: string) {
    digits == n || digits == "0" + n || digits == "250" + n
  }

  lemma ValidIsTyped(phone: string)
    requires IsValid(phone)
    ensures IsSubscriber(National(Normalize(phone))) && Typed(OnlyDigits(phone), National(Normalize(phone)))
  {
    ValidIffNormalForm(phone);
    hide OnlyDigits, IsSubscriber;
    var n :| IsSubscriber(n) && Normalize(phone) == "+250" + n;
    assert ("+250" + n)[4..] == n;
    NormalFormIsTyped(phone, n);
  }

  lemma NormalFormIsTyped(phone: string, n: string)
    requires Normalize(phone) == "+250" + n
    ensures Typed(OnlyDigits(phone), n)
  {
    hide OnlyDigits;
    var digits := OnlyDigits(phone);
    assert "+250" + n == "+" + ("250" + n);
    if "250" <= digits {
      SameTail("+", digits, "250" + n);
    } else if "0" <= digits && |digits| == 10 {
      SameTail("+250", digits[1..], n);
      assert digits == "0" + digits[1..];
    } else if |digits| == 9 {
      SameTail("+250", digits, n);
    } else if "+" <= phone {
      RawPlus(phone);
      assert false;
    } else {
      SameTail("+", digits, "250" + n);
      assert false;
    }
  }

  lemma SameTail(a: string, b: string, c: string)
    requires a + b == a + c
    ensures b == c
  {
    assert b == (a + b)[|a|..] && c == (a + c)[|a|..];
  }

  /** Raw input that starts with +250 is caught by the first rule already. */
  lemma RawPlus(phone: string)
    requires "+250" <= phone
    ensures "250" <= OnlyDigits(phone)
  {
    assert phone == "+250" + phone[4..];
    OnlyDigitsAppend("+250", phone[4..]);
    PlusDropped("250");
  }

  lemma TypedNormalizes(phone: string, n: string)
    requires IsSubscriber(n) && Typed(OnlyDigits(phone), n)
    ensures Normalize(phone) == "+250" + n
  {
    var digits := OnlyDigits(phone);
    hide OnlyDigits;
    if digits == "250" + n {
      assert "+" + digits == "+250" + n;
    } else if digits == "0" + n {
      assert digits[0] == '0' && digits[1..] == n;
    } else {
      assert digits[0] == '7' || digits[0] == '8';
    }
  }

  /** What each style looks like, from the nine digits of the subscriber however they were typed. */
  lemma FormatShows(phone: string, n: string)
    requires IsSubscriber(n) && Typed(OnlyDigits(phone), n)
    ensures Format(phone, E164) == "+250" + n
    ensures Format(phone, NATIONAL) == "0" + n
    ensures |n| == 9 && Format(phone, INTERNATIONAL) == "+250 " + n[..2] + " " + n[2..5] + " " + n[5..]
  {
    TypedNormalizes(phone, n);
    ValidIffDigits(phone);
    FormatOfNormal(phone, n);
    hide Format, Normalize, OnlyDigits, IsValid, Typed;
  }

  lemma FormatOfNormal(phone: string, n: string)
    requires IsSubscriber(n) && Normalize(phone) == "+250" + n && IsValid(phone)
    ensures Format(phone, E164) == "+250" + n && Format(phone, NATIONAL) == "0" + n
    ensures Format(phone, INTERNATIONAL) == "+250 " + n[..2] + " " + n[2..5] + " " + n[5..]
  {
    hide Normalize, IsValid;
    assert ("+250" + n)[4..] == n;
    assert National("+250" + n) == n;
    hide National;
    assert "+" + COUNTRY + " " == "+250 ";
  }

  /** Anything else comes back as it was given. */
  lemma FormatOtherwise(phone: string, style: Style)
    requires forall n :: IsSubscriber(n) ==> !Typed(OnlyDigits(phone), n)
    ensures Format(phone, style) == phone
  {
    ValidIffDigits(phone);
    hide OnlyDigits, IsSubscriber, Typed;
  }

  /** Every format of a valid number normalises back to the same number. */
  lemma FormatRoundTrip(phone: string, style: Style)
    requires IsValid(phone)
    ensures Normalize(Format(phone, style)) == Normalize(phone) && IsValid(Format(phone, style))
  {
    ValidIsTyped(phone);
    var n := National(Normalize(phone));
    TypedNormalizes(phone, n);
    hide OnlyDigits, IsSubscriber;
    var formatted := Format(phone, style);
    assert Typed(OnlyDigits(formatted), n) by {
      match style
      case E164 =>
        assert formatted == "+" + ("250" + n);
        PlusDropped("250" + n);
      case NATIONAL =>
        TrunkDigits(n);
      case INTERNATIONAL =>
        SpacedDigits(n);
    }
    TypedNormalizes(formatted, n);
    ValidIffNormalForm(formatted);
  }

  lemma TrunkDigits(n: string)
    requires IsSubscriber(n)
    ensures OnlyDigits("0" + n) == "0" + n
  {
    DigitsStay("0" + n);
  }

  lemma PlusDropped(s: string)
    requires AllDigits(s)
    ensures OnlyDigits("+" + s) == s
  {
    assert ("+" + s)[1..] == s;
    DigitsStay(s);
  }

  lemma SpacedDigits(n: string)
    requires IsSubscriber(n)
    ensures OnlyDigits("+" + COUNTRY + " " + n[..2] + " " + n[2..5] + " " + n[5..]) == "250" + n
  {
    hide OnlyDigits;
    var a, b, c := n[..2], n[2..5], n[5..];
    DigitsStay(a);
    DigitsStay(b);
    DigitsStay(c);
    PlusDropped(COUNTRY);
    OneSpace();
    OnlyDigitsAppend("+" + COUNTRY, " ");
    OnlyDigitsAppend("+" + COUNTRY + " ", a);
    OnlyDigitsAppend("+" + COUNTRY + " " + a, " ");
    OnlyDigitsAppend("+" + COUNTRY + " " + a + " ", b);
    OnlyDigitsAppend("+" + COUNTRY + " " + a + " " + b, " ");
    OnlyDigitsAppend("+" + COUNTRY + " " + a + " " + b + " ", c);
    assert n == a + b + c;
  }

  lemma OneSpace()
    ensures OnlyDigits(" ") == ""
  {
    assert " "[1..] == "";
  }
}
