/** The text form of a document id, as it appears in redirect URLs, request
    parameters and the items' `orderId` field, and the cast from request text
    back to an id. The database's ids are 24-digit hexadecimal object ids whose
    cast accepts upper- and lower-case spellings of the same id; this model
    writes ids in decimal, where an id is printed without leading zeros but the
    cast also accepts the spellings with leading zeros. So every id has one
    printed text and several texts that cast to it, and text that is not a run
    of digits fails the cast. */
module Ids {
  import opened Basics

  function DigitChar(d: nat): (c: char)
    requires d < 10
    ensures '0' <= c <= '9'
    ensures (c - '0') as int == d
  {
    ('0' as int + d) as char
  }

  predicate IsDigit(c: char)
  {
    '0' <= c <= '9'
  }

  function DigitValue(c: char): (d: nat)
    requires IsDigit(c)
    ensures d < 10
    ensures DigitChar(d) == c
  {
    (c - '0') as nat
  }

  /** Decimal digits of `n`, most significant first, without leading zeros. */
  function IdText(n: Id): (s: string)
    ensures IsCanonical(s)
  {
    if n < 10 then [DigitChar(n)] else IdText(n / 10) + [DigitChar(n % 10)]
  }

  /** A non-empty run of digits that does not start with `0` unless it is `0`. */
  predicate IsCanonical(s: string)
  {
    && |s| > 0
    && (forall i :: 0 <= i < |s| ==> IsDigit(s[i]))
    && (|s| == 1 || s[0] != '0')
  }

  /** Value of a run of decimal digits. */
  function DigitsValue(s: string): nat
    requires forall i :: 0 <= i < |s| ==> IsDigit(s[i])
  {
    if |s| == 0 then 0 else DigitsValue(s[..|s| - 1]) * 10 + DigitValue(s[|s| - 1])
  }

  /** A non-empty run of digits: the texts the cast accepts. */
  predicate IsIdText(s: string)
  {
    |s| > 0 && forall i :: 0 <= i < |s| ==> IsDigit(s[i])
  }

  /** Casts request text to an id; text that is not a run of digits fails
      the cast. */
  function ParseId(s: string): (r: Option<Id>)
    ensures r.Some? <==> IsIdText(s)
    ensures r.Some? ==> IdText(r.value) == s || (|s| > 1 && s[0] == '0')
  {
    if IsIdText(s) then
      if IsCanonical(s) then
        ParseIdCanonical(s);
        Some(DigitsValue(s))
      else Some(DigitsValue(s))
    else None
  }

  /** Printing an id and casting the text back gives the id. */
  lemma {:induction false} ParseIdText(n: Id)
    ensures ParseId(IdText(n)) == Some(n)
  {
    var s := IdText(n);
    if n < 10 {
      assert s[..|s| - 1] == [];
      assert DigitsValue(s) == DigitValue(s[0]);
    } else {
      ParseIdText(n / 10);
      assert s[..|s| - 1] == IdText(n / 10);
      assert DigitValue(s[|s| - 1]) == n % 10;
      assert DigitsValue(s) == (n / 10) * 10 + n % 10;
    }
  }

  /** A run of digits without leading zeros is the printed text of its value. */
  lemma {:induction false} ParseIdCanonical(s: string)
    requires IsCanonical(s)
    ensures IdText(DigitsValue(s)) == s
  {
    var n := DigitsValue(s);
    if |s| > 1 {
      var p := s[..|s| - 1];
      assert IsCanonical(p) by {
        assert p[0] == s[0];
      }
      ParseIdCanonical(p);
      var pv := DigitsValue(p);
      assert pv > 0;
      assert n / 10 == pv && n % 10 == DigitValue(s[|s| - 1]);
      assert s == p + [s[|s| - 1]];
    }
  }

  /** Among the texts that cast to `n`, the printed one is the only one
      without leading zeros. */
  lemma ParseIdExact(s: string, n: Id)
    ensures ParseId(s) == Some(n) && IsCanonical(s) <==> s == IdText(n)
  {
    ParseIdText(n);
    if ParseId(s) == Some(n) && IsCanonical(s) {
      ParseIdCanonical(s);
    }
  }

  /** A leading zero does not change the value of a run of digits. */
  lemma {:induction false} LeadingZero(s: string)
    requires forall i :: 0 <= i < |s| ==> IsDigit(s[i])
    ensures DigitsValue(['0'] + s) == DigitsValue(s)
  {
    var t := ['0'] + s;
    if |s| == 0 {
      assert t[..|t| - 1] == [];
    } else {
      LeadingZero(s[..|s| - 1]);
      assert t[..|t| - 1] == ['0'] + s[..|s| - 1];
    }
  }

  /** Every id has a second spelling that casts to it: its text with a leading
      zero. */
  lemma ZeroPadded(n: Id)
    ensures ParseId(['0'] + IdText(n)) == Some(n)
    ensures ['0'] + IdText(n) != IdText(n)
  {
    ParseIdText(n);
    LeadingZero(IdText(n));
    assert |['0'] + IdText(n)| == |IdText(n)| + 1;
  }
}
