/** The validators of the data-driven tutorial: the Luhn check on card numbers, the phone
    number pattern, schema checks on dictionaries, and the `User` and `Product` records. */
module DataValidator {
  import opened Chars
  import opened PyValues
  import opened Sequences

  /* ---------- validate_card_number ---------- */

  /** `[int(d) for d in s]`. */
  function Digits(s: string): (ds: seq<int>)
    requires AllDigits(s)
    ensures |ds| == |s|
    ensures forall k :: 0 <= k < |s| ==> 0 <= ds[k] <= 9 && ds[k] == DigitValue(s[k])
  {
    seq(|s|, k requires 0 <= k < |s| => DigitValue(s[k]))
  }

  /** A digit doubled, with 9 taken off when the double has two digits. */
  function Doubled(d: int): int
  {
    if d * 2 > 9 then d * 2 - 9 else d * 2
  }

  /** The Luhn weighting read from the right: the last digit of `ds` is doubled when
      `double` holds, the one before it is not, and so on alternately. */
  function RightSum(ds: seq<int>, double: bool): int
    decreases |ds|
  {
    if ds == [] then 0
    else (if double then Doubled(ds[|ds| - 1]) else ds[|ds| - 1]) + RightSum(ds[..|ds| - 1], !double)
  }

  /** The Luhn rule: a non-empty digit string whose check digit (the last) plus the rest,
      weighted from the right starting with a doubled digit, is a multiple of 10. */
  predicate LuhnValid(s: string)
  {
    |s| > 0 && AllDigits(s) &&
    var ds := Digits(s);
    (ds[|ds| - 1] + RightSum(ds[..|ds| - 1], true)) % 10 == 0
  }

  /** One more digit on the left is weighted by the parity of the digits to its right. */
  lemma {:induction false} RightSumCons(x: int, s: seq<int>)
    ensures RightSum([x] + s, true) == RightSum(s, true) + if |s| % 2 == 0 then Doubled(x) else x
    decreases |s|
  {
    RightSumConsAny(x, s, true);
  }

  lemma {:induction false} RightSumConsAny(x: int, s: seq<int>, double: bool)
    ensures RightSum([x] + s, double) ==
      RightSum(s, double) + if (|s| % 2 == 0) == double then Doubled(x) else x
    decreases |s|
  {
    if s == [] {
      assert RightSum([x], double) == (if double then Doubled(x) else x) + RightSum([], !double);
    } else {
      var t := [x] + s;
      assert t[..|t| - 1] == [x] + s[..|s| - 1];
      RightSumConsAny(x, s[..|s| - 1], !double);
    }
  }

  /** `validate_card_number`: false unless the string is all digits (and not empty); then the
      last digit is popped as the check digit, the rest reversed, and every digit at an even
      position of the reversed list doubled (less 9 above 9) before summing. */
  method ValidateCardNumber(card: string) returns (valid: bool)
    ensures valid == LuhnValid(card)
  {
    if |card| == 0 || !AllDigits(card) {
      return false;
    }
    var digits := Digits(card);
    var checksum := digits[|digits| - 1];
    var rest := digits[..|digits| - 1];
    var reversed := Reversed(rest);
    var total := 0;
    for i := 0 to |reversed|
      invariant total == RightSum(rest[|rest| - i..], true)
    {
      ReversedAt(rest, i);
      var digit := reversed[i];
      var processed := if i % 2 == 0 then Doubled(digit) else digit;
      RightSumSuffix(rest, i);
      total := total + processed;
    }
    assert rest[|rest| - |reversed|..] == rest;
    valid := (total + checksum) % 10 == 0;
  }

  /** The suffix of `ds` one digit longer adds the new digit, doubled when an even number of
      digits lie to its right. */
  lemma RightSumSuffix(ds: seq<int>, i: nat)
    requires i < |ds|
    ensures RightSum(ds[|ds| - (i + 1)..], true) ==
      RightSum(ds[|ds| - i..], true) + if i % 2 == 0 then Doubled(ds[|ds| - 1 - i]) else ds[|ds| - 1 - i]
  {
    assert ds[|ds| - (i + 1)..] == [ds[|ds| - 1 - i]] + ds[|ds| - i..];
    RightSumCons(ds[|ds| - 1 - i], ds[|ds| - i..]);
  }

  /** One more digit on the right of a prefix. */
  lemma RightSumStep(ds: seq<int>, k: nat, double: bool)
    requires k < |ds|
    ensures RightSum(ds[..k + 1], double) == (if double then Doubled(ds[k]) else ds[k]) + RightSum(ds[..k], !double)
  {
    assert ds[..k + 1][..k] == ds[..k];
  }

  /** The weighted sum of the digits of 453201511283036 (the Visa number without its check
      digit), worked out one digit at a time from the left; the running sums are noted. */
  lemma VisaWeightedSum(rest: seq<int>)
    requires rest == [4, 5, 3, 2, 0, 1, 5, 1, 1, 2, 8, 3, 0, 3, 6]
    ensures RightSum(rest, true) == 44
  {
    assert rest[..0] == [];
    RightSumStep(rest, 0, true);  // 8
    RightSumStep(rest, 1, false);  // 13
    RightSumStep(rest, 2, true);  // 19
    RightSumStep(rest, 3, false);  // 21
    RightSumStep(rest, 4, true);  // 21
    RightSumStep(rest, 5, false);  // 22
    RightSumStep(rest, 6, true);  // 23
    RightSumStep(rest, 7, false);  // 24
    RightSumStep(rest, 8, true);  // 26
    RightSumStep(rest, 9, false);  // 28
    RightSumStep(rest, 10, true);  // 35
    RightSumStep(rest, 11, false);  // 38
    RightSumStep(rest, 12, true);  // 38
    RightSumStep(rest, 13, false);  // 41
    RightSumStep(rest, 14, true);  // 44
    assert rest[..15] == rest;
  }

  /** A valid Visa number, and the same number with its check digit changed. */
  lemma VisaExamples()
    ensures LuhnValid("4532015112830366")
    ensures !LuhnValid("4532015112830367")
  {
    var rest := [4, 5, 3, 2, 0, 1, 5, 1, 1, 2, 8, 3, 0, 3, 6];
    VisaWeightedSum(rest);
    assert Digits("4532015112830366") == rest + [6];
    assert Digits("4532015112830367") == rest + [7];
    assert (rest + [6])[..15] == rest && (rest + [7])[..15] == rest;
  }

  /** A short number whose digits fail the rule, and a string of letters. */
  lemma ShortCardExamples()
    ensures !LuhnValid("12345")
    ensures !LuhnValid("invalid")
  {
    var short := [1, 2, 3, 4, 5];
    assert Digits("12345") == short;
    assert short[..0] == [];
    RightSumStep(short, 0, false);
    RightSumStep(short, 1, true);
    RightSumStep(short, 2, false);
    RightSumStep(short, 3, true);
    assert !IsDigit("invalid"[0]);
  }

  /* ---------- validate_phone ---------- */

  /** `\+?1?\d{9,15}` matching all of `t`: the optional '+' ends at `i`, the optional '1' at `j`,
      and nine to fifteen digits follow. */
  predicate PhoneSplit(t: string, i: int, j: int)
  {
    0 <= i <= 1 && i <= j <= i + 1 && j <= |t| &&
    (i == 0 || t[0] == '+') && (j == i || t[i] == '1') &&
    AllDigits(t[j..]) && 9 <= |t| - j <= 15
  }

  /** Some way of matching `\+?1?\d{9,15}` against the whole of `t`. */
  predicate PhonePattern(t: string)
  {
    exists i, j | 0 <= i <= 1 && i <= j <= i + 1 :: PhoneSplit(t, i, j)
  }

  /** The same set of strings without backtracking: after an optional '+', nine to fifteen
      digits, or sixteen digits starting with '1'. */
  predicate PhoneShape(t: string)
  {
    var u := if |t| > 0 && t[0] == '+' then t[1..] else t;
    AllDigits(u) && (9 <= |u| <= 15 || (|u| == 16 && u[0] == '1'))
  }

  lemma PhonePatternShape(t: string)
    ensures PhonePattern(t) <==> PhoneShape(t)
  {
    var i := if |t| > 0 && t[0] == '+' then 1 else 0;
    var u := t[i..];
    if PhoneShape(t) {
      if 9 <= |u| <= 15 {
        assert PhoneSplit(t, i, i);
      } else {
        assert t[i + 1..] == u[1..];
        assert PhoneSplit(t, i, i + 1);
      }
    }
    if PhonePattern(t) {
      var i', j :| 0 <= i' <= 1 && i' <= j <= i' + 1 && PhoneSplit(t, i', j);
      if j == i + 1 {
        assert u == [t[i]] + t[j..];
      } else {
        assert u == t[j..];
      }
    }
  }

  /** `validate_phone`: `re.match` of `^\+?1?\d{9,15}$`; `$` also matches before one final
      line feed. */
  function ValidatePhone(phone: string): (r: bool)
    ensures r <==> PhoneShape(phone) || (|phone| > 0 && phone[|phone| - 1] == '\n' && PhoneShape(phone[..|phone| - 1]))
  {
    PhonePatternShape(phone);
    if |phone| > 0 && phone[|phone| - 1] == '\n' then
      PhonePatternShape(phone[..|phone| - 1]);
      PhonePattern(phone) || PhonePattern(phone[..|phone| - 1])
    else
      PhonePattern(phone)
  }

  lemma PhoneExamples()
    ensures ValidatePhone("+1234567890")
    ensures !ValidatePhone("12345")
    ensures ValidatePhone("+441234567890")
    ensures !ValidatePhone("invalid")
  {
    PlusDigits("+1234567890");
    PlusDigits("+441234567890");
    assert !IsDigit("invalid"[0]);
    assert !IsDigit("invali"[0]);
  }

  /** A '+' followed by nine to fifteen digits is a phone number. */
  lemma PlusDigits(t: string)
    requires |t| > 0 && t[0] == '+' && 10 <= |t| <= 16
    requires forall k :: 1 <= k < |t| ==> IsDigit(t[k])
    ensures PhoneShape(t)
  {
    assert forall k :: 0 <= k < |t[1..]| ==> t[1..][k] == t[k + 1];
  }

  /* ---------- validate_dict ---------- */

  /** Every required field is present with a value of the required class. */
  predicate Conforms(data: Dict, required: seq<(string, PyType)>)
  {
    forall k :: 0 <= k < |required| ==> required[k].0 in data && IsInstance(data[required[k].0], required[k].1)
  }

  /** `validate_dict`: walks the schema's fields in order and returns false at the first
      field that is missing or of the wrong class. */
  method ValidateDict(data: Dict, required: seq<(string, PyType)>) returns (ok: bool)
    ensures ok == Conforms(data, required)
    ensures !ok ==> exists k :: 0 <= k < |required| && Conforms(data, required[..k]) &&
                             (required[k].0 !in data || !IsInstance(data[required[k].0], required[k].1))
  {
    for n := 0 to |required|
      invariant Conforms(data, required[..n])
    {
      var (field, fieldType) := required[n];
      if field !in data {
        return false;
      }
      if !IsInstance(data[field], fieldType) {
        return false;
      }
      assert required[..n + 1] == required[..n] + [required[n]];
    }
    assert required[..|required|] == required;
    ok := true;
  }

  lemma DictExamples()
    ensures var schema := [("name", StrType), ("age", IntType), ("active", BoolType)];
      Conforms(map["name" := Str("John"), "age" := Int(30), "active" := Bool(true)], schema) &&
      !Conforms(map["name" := Str("John"), "age" := Str("30"), "active" := Bool(true)], schema) &&
      !Conforms(map["name" := Str("John"), "active" := Bool(true)], schema)
  {
    var schema := [("name", StrType), ("age", IntType), ("active", BoolType)];
    assert schema[1] == ("age", IntType);
  }

  /* ---------- User and Product ---------- */

  predicate LocalChar(c: char)
  {
    IsLetter(c) || IsDigit(c) || c in "._%+-"
  }

  predicate DomainChar(c: char)
  {
    IsLetter(c) || IsDigit(c) || c in ".-"
  }

  /** `[a-zA-Z0-9._%+-]+@[a-zA-Z0-9.-]+\.[a-zA-Z]{2,}` matching all of `s`, with the '@' at
      `at` and the last dot at `dot`. */
  predicate EmailSplit(s: string, at: int, dot: int)
  {
    0 < at && at + 1 < dot && dot + 2 < |s| &&
    s[at] == '@' && s[dot] == '.' &&
    (forall k :: 0 <= k < at ==> LocalChar(s[k])) &&
    (forall k :: at < k < dot ==> DomainChar(s[k])) &&
    (forall k :: dot < k < |s| ==> IsLetter(s[k]))
  }

  predicate EmailPattern(s: string)
  {
    exists at, dot | 0 < at < dot < |s| :: EmailSplit(s, at, dot)
  }

  /** `str.find`: the first position of `c` in `s`, or -1. */
  function FirstIndex(s: string, c: char): (i: int)
    ensures -1 <= i < |s|
    ensures 0 <= i ==> s[i] == c && forall k :: 0 <= k < i ==> s[k] != c
    ensures i < 0 ==> forall k :: 0 <= k < |s| ==> s[k] != c
  {
    if s == [] then -1
    else if s[0] == c then 0
    else
      var i := FirstIndex(s[1..], c);
      if i < 0 then -1 else i + 1
  }

  /** `str.rfind`: the last position of `c` in `s`, or -1. */
  function LastIndex(s: string, c: char): (i: int)
    ensures -1 <= i < |s|
    ensures 0 <= i ==> s[i] == c && forall k :: i < k < |s| ==> s[k] != c
    ensures i < 0 ==> forall k :: 0 <= k < |s| ==> s[k] != c
  {
    if s == [] then -1
    else if s[|s| - 1] == c then |s| - 1
    else LastIndex(s[..|s| - 1], c)
  }

  /** The email rule without backtracking: the first '@' ends a non-empty local part, the
      last '.' ends a non-empty domain after it, and two or more letters follow that dot. */
  predicate EmailShape(s: string)
  {
    var at := FirstIndex(s, '@');
    var dot := LastIndex(s, '.');
    0 < at && at + 1 < dot && |s| - (dot + 1) >= 2 &&
    (forall k :: 0 <= k < at ==> LocalChar(s[k])) &&
    (forall k :: at < k < dot ==> DomainChar(s[k])) &&
    (forall k :: dot < k < |s| ==> IsLetter(s[k]))
  }

  /** The pattern can only split an address at its first '@' and its last '.'. */
  lemma EmailPatternShape(s: string)
    ensures EmailPattern(s) <==> EmailShape(s)
  {
    var at := FirstIndex(s, '@');
    var dot := LastIndex(s, '.');
    if EmailShape(s) {
      assert EmailSplit(s, at, dot);
    }
    if EmailPattern(s) {
      var a, d :| 0 < a < d < |s| && EmailSplit(s, a, d);
      assert !LocalChar('@') && !IsLetter('.');
      assert at == a;
      assert dot == d;
    }
  }

  /** `re.match` of the email pattern; `$` also matches before one final line feed. */
  function MatchEmail(email: string): (r: bool)
    ensures r <==> EmailShape(email) || (|email| > 0 && email[|email| - 1] == '\n' && EmailShape(email[..|email| - 1]))
  {
    EmailPatternShape(email);
    if |email| > 0 && email[|email| - 1] == '\n' then
      EmailPatternShape(email[..|email| - 1]);
      EmailPattern(email) || EmailPattern(email[..|email| - 1])
    else
      EmailPattern(email)
  }

  datatype User = User(name: string, age: int, email: string)
  {
    /** `User.is_valid`: the name, age and email checks in the source's order, each returning
        false on failure. */
    predicate IsValid(): (r: bool)
      ensures r <==>
        |name| > 0 && 18 < age < 100 &&
        (EmailShape(email) || (|email| > 0 && email[|email| - 1] == '\n' && EmailShape(email[..|email| - 1])))
    {
      if |name| == 0 then false
      else if age <= 18 || age >= 100 then false
      else if !MatchEmail(email) then false
      else true
    }
  }

  lemma UserExamples()
    ensures User("John Doe", 30, "john@example.com").IsValid()
    ensures !User("", 30, "john@example.com").IsValid()
    ensures !User("John Doe", 18, "john@example.com").IsValid()
    ensures !User("John Doe", 100, "john@example.com").IsValid()
    ensures !User("John Doe", 30, "a@b.c").IsValid()
  {
    EmailExample();
    assert !EmailPattern("a@b.c");
  }

  lemma EmailExample()
    ensures EmailPattern("john@example.com")
  {
    assert EmailSplit("john@example.com", 4, 12);
  }

  /** A product whose price is kept in cents. */
  datatype Product = Product(id: string, name: string, price: int, stock: int)
  {
    /** `Product.is_valid`: the id, name, price and stock checks in the source's order, each
        returning false on failure. */
    predicate IsValid(): (r: bool)
      ensures r <==> |id| > 0 && |name| > 0 && price > 0 && stock >= 0
    {
      if |id| == 0 then false
      else if |name| == 0 then false
      else if price <= 0 then false
      else if stock < 0 then false
      else true
    }
  }

  /** One product of each kind the rule tells apart: valid, and failing on the id, the name,
      the price and the stock in turn. */
  lemma ProductExamples()
    ensures Product("P1", "Widget", 999, 0).IsValid()
    ensures !Product("", "Widget", 999, 5).IsValid()
    ensures !Product("P1", "", 999, 5).IsValid()
    ensures !Product("P1", "Widget", 0, 5).IsValid()
    ensures !Product("P1", "Widget", 999, -1).IsValid()
  {
  }
}
