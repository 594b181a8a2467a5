/** `get_item_count`: the count shown in the page's first `h1` heading.
    The HTTP request and the HTML parse are outside the model; the input is
    the heading, absent when the page has no `h1`. */
module Scraper {
  import opened Wrappers
  import opened Decimal

  /** The exceptions `get_item_count` lets escape. */
  datatype ScrapeError =
    | NoHeading  // `soup.find('h1')` gave None, so `.text` raises AttributeError
    | NoDigits       // the heading has no digit, so `int('')` raises ValueError
    | TooManyDigits  // more digits than `int` converts, so it raises ValueError

  /** Python's default limit on the digits `int` converts from a string
      (`sys.get_int_max_str_digits()`). */
  const MaxStrDigits: nat := 4300

  /** `int(''.join(filter(str.isdigit, text)))`. A count read this way
      always fits `str`'s digit limit too, so the handler can write it out. */
  function ExtractCount(text: string): (r: Result<nat, ScrapeError>)
    ensures r.Success? <==> 0 < |DigitsOf(text)| <= MaxStrDigits
    ensures r == Failure(NoDigits) <==> forall i :: 0 <= i < |text| ==> !IsDigit(text[i])
    ensures r == Failure(TooManyDigits) <==> |DigitsOf(text)| > MaxStrDigits
    ensures r.Success? ==> r.value == Value(DigitsOf(text))
    ensures r.Success? ==> |NatToString(r.value)| <= MaxStrDigits
  {
    var ds := DigitsOf(text);
    if ds == [] then Failure(NoDigits)
    else if |ds| > MaxStrDigits then Failure(TooManyDigits)
    else
      NatToStringLength(Value(ds), |ds|);
      Success(Value(ds))
  }

  /** `get_item_count` as written: it returns an integer or raises; its
      `return None` branch can never be taken. */
  function GetItemCount(h1: Option<string>): (r: Result<nat, ScrapeError>)
    ensures h1.None? ==> r == Failure(NoHeading)
    ensures h1.Some? ==> r == ExtractCount(h1.value)
  {
    match h1
    case None => Failure(NoHeading)
    case Some(text) => ExtractCount(text)
  }

  /** `get_item_count` as its `return None` branch and the handler's
      failure response evidently intend: no heading or no digit gives None. */
  function GetItemCountIntended(h1: Option<string>): (r: Option<nat>)
    ensures r.Some? <==> GetItemCount(h1).Success?
    ensures r.Some? ==> r.value == GetItemCount(h1).value
  {
    match GetItemCount(h1)
    case Success(n) => Some(n)
    case Failure(_) => None
  }

  /** A number written with digit-free text around it is read back exactly,
      unless it has more digits than `int` converts. */
  lemma {:induction false} ExtractCountEmbedded(before: string, n: nat, after: string)
    requires forall i :: 0 <= i < |before| ==> !IsDigit(before[i])
    requires forall i :: 0 <= i < |after| ==> !IsDigit(after[i])
    ensures ExtractCount(before + NatToString(n) + after) ==
      if |NatToString(n)| <= MaxStrDigits then Success(n) else Failure(TooManyDigits)
  {
    var s := NatToString(n);
    DigitsOfAppend(before + s, after);
    DigitsOfAppend(before, s);
    DigitsOfDigits(s);
    assert DigitsOf(before + s + after) == s;
    ValueOfNatToString(n);
  }

  /** The digits of two pieces of heading combine as decimal places: the
      count of `a + b` is the count of `a` shifted by the number of digits
      in `b`, plus the count of `b`, while the digits together stay within
      the limit. */
  lemma {:induction false} ExtractCountSplit(a: string, b: string)
    requires ExtractCount(a).Success? && ExtractCount(b).Success?
    ensures ExtractCount(a + b) ==
      if |DigitsOf(a)| + |DigitsOf(b)| <= MaxStrDigits
      then Success(ExtractCount(a).value * Pow10(|DigitsOf(b)|) + ExtractCount(b).value)
      else Failure(TooManyDigits)
  {
    var da, db := DigitsOf(a), DigitsOf(b);
    DigitsOfAppend(a, b);
    assert DigitsOf(a + b) == da + db && da != [] && db != [];
    ValueAppend(da, db);
  }

  /** A count written with a thousands separator and followed by words, as
      in "1,234 results", reads as the number without the separator, within
      the digit limit. */
  lemma {:induction false} ThousandsSeparator(n: nat, sep: char, group: string, words: string)
    requires !IsDigit(sep)
    requires |group| == 3 && AllDigits(group)
    requires forall i :: 0 <= i < |words| ==> !IsDigit(words[i])
    ensures ExtractCount(NatToString(n) + [sep] + group + words) ==
      if |NatToString(n)| + 3 <= MaxStrDigits then Success(1000 * n + Value(group))
      else Failure(TooManyDigits)
  {
    var digits := NatToString(n);
    var lead, tail := digits + [sep], group + words;
    assert DigitsOf(lead) == digits by {
      DigitsOfAppend(digits, [sep]);
      DigitsOfDigits(digits);
    }
    assert DigitsOf(tail) == group by {
      DigitsOfAppend(group, words);
      DigitsOfDigits(group);
    }
    var whole := digits + [sep] + group + words;
    assert lead + tail == whole;
    DigitsOfAppend(lead, tail);
    var ds := DigitsOf(whole);
    assert ds == digits + group && |ds| == |digits| + 3;
    if |ds| <= MaxStrDigits {
      ValueAppend(digits, group);
      ValueOfNatToString(n);
      assert Pow10(3) == 1000;
      assert Value(ds) == 1000 * n + Value(group);
      assert ExtractCount(whole) == Success(Value(ds));
    } else {
      assert ExtractCount(whole) == Failure(TooManyDigits);
    }
  }
}
