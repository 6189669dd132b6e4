/**
 * Error values of the tool and the text they are reported with.
 *
 * Go's `fmt.Errorf("<context>: %v", err)` is modelled structurally as
 * `Wrapped(context, err)`; `Message` renders the text that `%v` would print.
 */
module Errors {

  datatype Option<+T> = None | Some(value: T)

  datatype Error =
      /** An error returned by a library or by the filesystem; only its text is modelled. */
    | LibraryError(msg: string)
      /** `fmt.Errorf("too many files (%d), limit is %d", count, limit)`. */
    | TooManyFiles(count: int, limit: int)
      /** `fmt.Errorf("<context>: %v", inner)`. */
    | Wrapped(context: string, inner: Error)

  /** The text an error prints as. */
  function Message(e: Error): string
  {
    match e
    case LibraryError(m) => m
    case TooManyFiles(c, l) => "too many files (" + IntToString(c) + "), limit is " + IntToString(l)
    case Wrapped(ctx, inner) => ctx + ": " + Message(inner)
  }

  predicate IsDigit(c: char)
  {
    '0' <= c <= '9'
  }

  predicate AllDigits(s: string)
  {
    forall i :: 0 <= i < |s| ==> IsDigit(s[i])
  }

  function DigitChar(d: nat): (c: char)
    requires d < 10
    ensures IsDigit(c)
  {
    ('0' as int + d) as char
  }

  function DigitValue(c: char): nat
    requires IsDigit(c)
  {
    c as int - '0' as int
  }

  /** Decimal digits of `n`, most significant first, without leading zeros. */
  function NatToString(n: nat): (s: string)
    ensures |s| > 0 && AllDigits(s)
    ensures |s| == 1 || s[0] != '0'
    decreases n
  {
    if n < 10 then [DigitChar(n)] else NatToString(n / 10) + [DigitChar(n % 10)]
  }

  /** Go's `%d` verb on an `int`: a leading '-' for negative values. */
  function IntToString(i: int): string
  {
    if i < 0 then "-" + NatToString(-i) else NatToString(i)
  }

  /** Reads a non-empty run of decimal digits back as a number. */
  function ParseNat(s: string): (r: Option<nat>)
    ensures r.Some? <==> |s| > 0 && AllDigits(s)
    decreases |s|
  {
    if |s| == 0 || !IsDigit(s[|s| - 1]) then None
    else if |s| == 1 then Some(DigitValue(s[0]))
    else match ParseNat(s[..|s| - 1])
      case None => None
      case Some(p) => Some(p * 10 + DigitValue(s[|s| - 1]))
  }

  /** Reads the output of `%d` back as an integer. */
  function ParseInt(s: string): Option<int>
  {
    if |s| > 0 && s[0] == '-' then
      match ParseNat(s[1..])
      case None => None
      case Some(n) => Some(0 - n as int)
    else
      match ParseNat(s)
      case None => None
      case Some(n) => Some(n as int)
  }

  lemma {:induction false} NatToStringRoundTrip(n: nat)
    ensures ParseNat(NatToString(n)) == Some(n)
    decreases n
  {
    if n >= 10 {
      var s := NatToString(n);
      var p := NatToString(n / 10);
      assert s == p + [DigitChar(n % 10)];
      assert s[..|s| - 1] == p;
      NatToStringRoundTrip(n / 10);
    }
  }

  /** The `%d` rendering loses nothing: the number can be read back from it. */
  lemma IntToStringRoundTrip(i: int)
    ensures ParseInt(IntToString(i)) == Some(i)
  {
    var s := IntToString(i);
    if i < 0 {
      assert s[0] == '-' && s[1..] == NatToString(-i);
      NatToStringRoundTrip(-i);
    } else {
      assert IsDigit(s[0]);
      NatToStringRoundTrip(i);
    }
  }

  /**
   * The too-many-files message states the count and the limit exactly:
   * each number sits between the fixed words and can be read back.
   */
  lemma TooManyFilesMessageReportsCountAndLimit(count: int, limit: int)
    ensures var m := Message(TooManyFiles(count, limit));
            var c := IntToString(count);
            var l := IntToString(limit);
            m == "too many files (" + c + "), limit is " + l
            && ParseInt(c) == Some(count) && ParseInt(l) == Some(limit)
  {
    IntToStringRoundTrip(count);
    IntToStringRoundTrip(limit);
  }
}
