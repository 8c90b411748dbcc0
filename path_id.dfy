/** The `:id` path segment of routes/transactions.js is text, bound as-is to
    `WHERE id = ?`.  SQLite compares it with the INTEGER PRIMARY KEY by first
    converting text that reads as an integer literal (an optional sign and
    decimal digits); any other text equals no integer id.  `ParseId` gives the
    integer the segment compares equal to, or `None`. */
module PathId {
  import opened Table

  predicate IsDigit(c: char) {
    '0' <= c <= '9'
  }

  predicate AllDigits(s: string) {
    forall i :: 0 <= i < |s| ==> IsDigit(s[i])
  }

  /** The value of a run of decimal digits, most significant first. */
  function DigitsValue(s: string): nat
    requires AllDigits(s)
  {
    if |s| == 0 then 0 else DigitsValue(s[..|s| - 1]) * 10 + (s[|s| - 1] as int - '0' as int)
  }

  /** Text SQLite reads as an integer literal: an optional sign followed by
      at least one decimal digit, and nothing else. */
  predicate IntLiteral(text: string) {
    || (|text| > 0 && AllDigits(text))
    || (|text| > 1 && (text[0] == '+' || text[0] == '-') && AllDigits(text[1..]))
  }

  /** The integer id a path segment selects, if any. */
  function ParseId(text: string): (r: Option<int>)
    ensures r.Some? <==> IntLiteral(text)
    ensures |text| > 0 && AllDigits(text) ==> r == Some(DigitsValue(text))
    ensures |text| > 1 && text[0] == '+' && AllDigits(text[1..]) ==> r == Some(DigitsValue(text[1..]))
    ensures |text| > 1 && text[0] == '-' && AllDigits(text[1..]) ==> r == Some(-(DigitsValue(text[1..]) as int))
  {
    if |text| > 1 && (text[0] == '+' || text[0] == '-') && AllDigits(text[1..]) then
      var n: int := DigitsValue(text[1..]);
      Some(if text[0] == '-' then -n else n)
    else if |text| > 0 && AllDigits(text) then
      Some(DigitsValue(text))
    else
      None
  }

  /** A segment holding any character that is neither a digit nor a leading
      sign selects no id: `12abc` matches no row. */
  lemma StrayCharacterSelectsNothing(text: string, i: int)
    requires 0 <= i < |text| && !IsDigit(text[i])
    requires i == 0 ==> text[0] != '+' && text[0] != '-'
    ensures ParseId(text) == None
  {
    if i > 0 && |text| > 1 {
      assert text[1..][i - 1] == text[i];
    }
  }

  /** A leading zero does not change the value of a digit run. */
  lemma {:induction false} LeadingZero(s: string)
    requires AllDigits(s)
    ensures AllDigits("0" + s) && DigitsValue("0" + s) == DigitsValue(s)
  {
    var z := "0" + s;
    assert forall i :: 0 < i < |z| ==> z[i] == s[i - 1];
    if |s| > 0 {
      var init := s[..|s| - 1];
      assert z[..|z| - 1] == "0" + init;
      LeadingZero(init);
    }
  }

  /** `007` selects the same row as `7`. */
  lemma LeadingZerosSelectSameId(s: string)
    requires |s| > 0 && AllDigits(s)
    ensures ParseId("0" + s) == ParseId(s) == Some(DigitsValue(s))
  {
    LeadingZero(s);
  }

  /** The decimal digits of a natural number, without leading zeros. */
  function Decimal(n: nat): (s: string)
    ensures |s| > 0 && AllDigits(s)
  {
    if n < 10 then [('0' as int + n) as char]
    else Decimal(n / 10) + [('0' as int + n % 10) as char]
  }

  /** How a client writes an id into the URL. */
  function IdText(id: int): string {
    if id < 0 then "-" + Decimal(-id) else Decimal(id)
  }

  lemma {:induction false} DecimalRoundTrip(n: nat)
    ensures DigitsValue(Decimal(n)) == n
  {
    var s := Decimal(n);
    if n >= 10 {
      DecimalRoundTrip(n / 10);
      assert s[..|s| - 1] == Decimal(n / 10);
    }
  }

  /** Writing an id into the URL and reading it back gives the same id: an id
      returned by an insert, sent back in a path, selects that row. */
  lemma IdTextRoundTrip(id: int)
    ensures ParseId(IdText(id)) == Some(id)
  {
    var text := IdText(id);
    if id < 0 {
      var digits := Decimal(-id);
      DecimalRoundTrip(-id);
      assert text == "-" + digits;
      assert text[0] == '-' && text[1..] == digits;
    } else {
      DecimalRoundTrip(id);
      assert IsDigit(text[0]);
    }
  }

  /** The segment `summary` selects no id. */
  lemma SummaryIsNoId()
    ensures ParseId("summary") == None
  {
    assert forall i :: 0 <= i < |"summary"| ==> !IsDigit("summary"[i]);
  }
}
