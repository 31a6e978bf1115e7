/**
 * Text helpers behind the exchange endpoints: the decimal rendering of an integer
 * that C# string interpolation produces, and the `key=value&key=value` layout of a
 * URL query string, each with the parser that undoes it.
 */
module QueryText {
  import opened Wrappers

  predicate IsDigit(c: char) { '0' <= c <= '9' }

  predicate AllDigits(s: string) { forall i :: 0 <= i < |s| ==> IsDigit(s[i]) }

  function DigitChar(d: nat): (c: char)
    requires d < 10
    ensures IsDigit(c) && (c as int) - ('0' as int) == d
  {
    (('0' as int) + d) as char
  }

  /** Decimal digits of `n`, most significant first, without leading zeros. */
  function NatToString(n: nat): (s: string)
    ensures 1 <= |s| && AllDigits(s)
    ensures (s[0] == '0') <==> (n == 0)
    decreases n
  {
    if n < 10 then [DigitChar(n)] else NatToString(n / 10) + [DigitChar(n % 10)]
  }

  /** What `{n}` renders to inside an interpolated string (invariant culture). */
  function IntToString(n: int): (s: string)
    ensures 1 <= |s|
    ensures '&' !in s && '=' !in s
  {
    var digits := if n < 0 then "-" + NatToString(-n) else NatToString(n);
    assert forall i :: 0 <= i < |digits| ==> digits[i] == '-' || IsDigit(digits[i]);
    digits
  }

  function ParseNat(s: string): nat
    requires AllDigits(s)
  {
    if s == [] then 0
    else ParseNat(s[..|s| - 1]) * 10 + ((s[|s| - 1] as int) - ('0' as int))
  }

  /** Reads back a decimal integer: an optional `-` and at least one digit. */
  function ParseInt(s: string): (r: Option<int>)
    ensures r.Some? ==> 1 <= |s|
  {
    if |s| >= 2 && s[0] == '-' && AllDigits(s[1..]) then Some(0 - ParseNat(s[1..]) as int)
    else if |s| >= 1 && AllDigits(s) then Some(ParseNat(s))
    else None
  }

  lemma {:induction false} ParseNatToString(n: nat)
    ensures ParseNat(NatToString(n)) == n
    decreases n
  {
    var s := NatToString(n);
    if n >= 10 {
      ParseNatToString(n / 10);
      assert s[..|s| - 1] == NatToString(n / 10);
    }
  }

  /** Rendering an integer and parsing it back gives the integer again. */
  lemma IntToStringRoundTrip(n: int)
    ensures ParseInt(IntToString(n)) == Some(n)
  {
    if n < 0 {
      var s := IntToString(n);
      assert s[1..] == NatToString(-n);
      ParseNatToString(-n);
    } else {
      ParseNatToString(n);
      assert IntToString(n)[0] != '-';
    }
  }

  /** Distinct integers render to distinct text. */
  lemma IntToStringInjective(a: int, b: int)
    ensures IntToString(a) == IntToString(b) ==> a == b
  {
    IntToStringRoundTrip(a);
    IntToStringRoundTrip(b);
  }

  /** Pieces of `s` between occurrences of `sep`; always at least one piece. */
  function Split(s: string, sep: char): (r: seq<string>)
    ensures 1 <= |r|
  {
    if |s| == 0 then [""]
    else
      var rest := Split(s[1..], sep);
      if s[0] == sep then [""] + rest else [[s[0]] + rest[0]] + rest[1..]
  }

  lemma {:induction false} SplitNoSep(a: string, sep: char)
    requires sep !in a
    ensures Split(a, sep) == [a]
  {
    if |a| > 0 {
      SplitNoSep(a[1..], sep);
      assert [a[0]] + a[1..] == a;
    }
  }

  lemma {:induction false} SplitLast(a: string, sep: char, b: string)
    requires sep !in b
    ensures Split(a + [sep] + b, sep) == Split(a, sep) + [b]
  {
    var s := a + [sep] + b;
    if |a| == 0 {
      assert s == [sep] + b;
      assert s[1..] == b;
      SplitNoSep(b, sep);
    } else {
      assert s[1..] == a[1..] + [sep] + b;
      SplitLast(a[1..], sep, b);
    }
  }

  /** The text before the first `sep` and the text after it (all of `s` and "" if none). */
  function SplitFirst(s: string, sep: char): (string, string)
  {
    if |s| == 0 then ("", "")
    else if s[0] == sep then ("", s[1..])
    else
      var (k, v) := SplitFirst(s[1..], sep);
      ([s[0]] + k, v)
  }

  lemma {:induction false} SplitFirstAfter(a: string, sep: char, b: string)
    requires sep !in a
    ensures SplitFirst(a + [sep] + b, sep) == (a, b)
  {
    if |a| == 0 {
      assert a + [sep] + b == [sep] + b;
      assert ([sep] + b)[1..] == b;
    } else {
      var s := a + [sep] + b;
      assert s[1..] == a[1..] + [sep] + b;
      SplitFirstAfter(a[1..], sep, b);
      assert [a[0]] + a[1..] == a;
    }
  }

  function Field(key: string, value: string): string { key + "=" + value }

  /** `k1=v1&k2=v2&...` in the given order. */
  function FormatQuery(ps: seq<(string, string)>): string
  {
    if |ps| == 0 then ""
    else if |ps| == 1 then Field(ps[0].0, ps[0].1)
    else FormatQuery(ps[..|ps| - 1]) + "&" + Field(ps[|ps| - 1].0, ps[|ps| - 1].1)
  }

  function ParseFields(pieces: seq<string>): (ps: seq<(string, string)>)
    ensures |ps| == |pieces|
  {
    if |pieces| == 0 then [] else [SplitFirst(pieces[0], '=')] + ParseFields(pieces[1..])
  }

  /** The parameters of a query string, in order. */
  function ParseQuery(q: string): seq<(string, string)>
  {
    ParseFields(Split(q, '&'))
  }

  /** A key can be written unescaped: no separator of either kind in it. */
  predicate PlainParams(ps: seq<(string, string)>)
  {
    forall i :: 0 <= i < |ps| ==> '&' !in ps[i].0 && '=' !in ps[i].0 && '&' !in ps[i].1
  }

  lemma FieldHasNoAmpersand(k: string, v: string)
    requires '&' !in k && '&' !in v
    ensures '&' !in Field(k, v)
  {
    var field := Field(k, v);
    forall i | 0 <= i < |field| ensures field[i] != '&' {
      if i < |k| {
        assert field[i] == k[i];
      } else if i > |k| {
        assert field[i] == v[i - |k| - 1];
      }
    }
  }

  lemma {:induction false} ParseFieldsAppend(pieces: seq<string>, last: string)
    ensures ParseFields(pieces + [last]) == ParseFields(pieces) + [SplitFirst(last, '=')]
  {
    if |pieces| > 0 {
      assert (pieces + [last])[1..] == pieces[1..] + [last];
      ParseFieldsAppend(pieces[1..], last);
    }
  }

  /** Parsing a formatted query string gives back its parameters, in order. */
  lemma {:induction false} QueryRoundTrip(ps: seq<(string, string)>)
    requires 1 <= |ps| && PlainParams(ps)
    ensures ParseQuery(FormatQuery(ps)) == ps
  {
    var n := |ps| - 1;
    var field := Field(ps[n].0, ps[n].1);
    assert field == ps[n].0 + ['='] + ps[n].1;
    SplitFirstAfter(ps[n].0, '=', ps[n].1);
    FieldHasNoAmpersand(ps[n].0, ps[n].1);
    if |ps| == 1 {
      SplitNoSep(field, '&');
    } else {
      var init := ps[..n];
      QueryRoundTrip(init);
      SplitLast(FormatQuery(init), '&', field);
      assert FormatQuery(init) + "&" + field == FormatQuery(init) + ['&'] + field;
      ParseFieldsAppend(Split(FormatQuery(init), '&'), field);
      assert init + [ps[n]] == ps;
    }
  }
}
