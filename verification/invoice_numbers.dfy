/** Sequential invoice numbers: the next number is one more than the
    largest existing number that parses as a decimal integer. */
module InvoiceNumbers {
  import opened Basics

  predicate IsDigit(c: char) {
    '0' <= c <= '9'
  }

  function DigitValue(c: char): (d: nat)
    requires IsDigit(c)
    ensures d < 10
  {
    (c as int) - ('0' as int)
  }

  function DigitChar(d: nat): (c: char)
    requires d < 10
    ensures IsDigit(c) && DigitValue(c) == d
  {
    (('0' as int) + d) as char
  }

  /** The characters the integer parser skips before the number: the
      white-space and line-terminator characters of ECMAScript. */
  predicate IsJsSpace(c: char) {
    var n := c as int;
    || n == 0x09 || n == 0x0A || n == 0x0B || n == 0x0C || n == 0x0D || n == 0x20
    || n == 0xA0 || n == 0x1680 || (0x2000 <= n <= 0x200A) || n == 0x2028 || n == 0x2029
    || n == 0x202F || n == 0x205F || n == 0x3000 || n == 0xFEFF
  }

  /** `s` without its leading white space. */
  function TrimStart(s: string): (t: string)
    ensures |t| <= |s| && t == s[|s| - |t|..]
    ensures |t| > 0 ==> !IsJsSpace(t[0])
  {
    if |s| > 0 && IsJsSpace(s[0]) then TrimStart(s[1..]) else s
  }

  /** Length of the longest prefix of `s` made of decimal digits. */
  function DigitRun(s: string): (n: nat)
    ensures n <= |s|
    ensures n < |s| ==> !IsDigit(s[n])
  {
    if |s| > 0 && IsDigit(s[0]) then 1 + DigitRun(s[1..]) else 0
  }

  /** The run is made of digits. */
  lemma {:induction false} DigitRunDigits(s: string)
    ensures AllDigits(s[..DigitRun(s)])
  {
    if |s| > 0 && IsDigit(s[0]) {
      DigitRunDigits(s[1..]);
      assert s[..DigitRun(s)] == [s[0]] + s[1..][..DigitRun(s[1..])];
    }
  }

  predicate AllDigits(s: string) {
    forall i :: 0 <= i < |s| ==> IsDigit(s[i])
  }

  /** The value of a string of decimal digits, most significant first. */
  function DigitsValue(s: string): nat
    requires AllDigits(s)
  {
    if |s| == 0 then 0 else 10 * DigitsValue(s[..|s| - 1]) + DigitValue(s[|s| - 1])
  }

  /** `s` without one leading sign character, and whether that sign was a
      minus. */
  function StripSign(s: string): (string, bool) {
    if |s| > 0 && (s[0] == '-' || s[0] == '+') then (s[1..], s[0] == '-') else (s, false)
  }

  /** The value of the longest run of digits at the start of `u`; `None`
      when `u` does not start with a digit. */
  function ParseDigits(u: string): (r: Option<int>)
    ensures r.None? <==> DigitRun(u) == 0
    ensures r.Some? ==> r.value >= 0
  {
    var n := DigitRun(u);
    DigitRunDigits(u);
    if n == 0 then None else Some(DigitsValue(u[..n]))
  }

  /** An optional sign, then digits. */
  function ParseSigned(t: string): (r: Option<int>)
    ensures r.None? <==> DigitRun(StripSign(t).0) == 0
  {
    var (u, negative) := StripSign(t);
    match ParseDigits(u)
    case None => None
    case Some(v) => Some(if negative then -v else v)
  }

  /** Decimal `parseInt`: skip leading white space, take an optional sign and
      then the longest run of digits; `None` (NaN) when the run is empty.
      Whatever follows the digits is ignored. */
  function ParseInt(s: string): (r: Option<int>)
    ensures r.None? <==> DigitRun(StripSign(TrimStart(s)).0) == 0
  {
    ParseSigned(TrimStart(s))
  }

  /** The shortest decimal digit string of `n`. */
  function NatToString(n: nat): (s: string)
    ensures |s| > 0 && AllDigits(s)
    ensures DigitsValue(s) == n
    ensures |s| == 1 || s[0] != '0'
  {
    if n < 10 then [DigitChar(n)]
    else
      var prefix := NatToString(n / 10);
      var s := prefix + [DigitChar(n % 10)];
      assert s[..|s| - 1] == prefix;
      s
  }

  /** `String(n)` for an integer: a minus sign for negatives, then the
      digits with no leading zero. */
  function IntToString(n: int): (s: string)
    ensures |s| > 0 && !IsJsSpace(s[0])
    ensures n >= 0 ==> AllDigits(s)
    ensures n < 0 ==> s[0] == '-' && AllDigits(s[1..])
    ensures n >= 0 ==> |s| == 1 || s[0] != '0'
    ensures n < 0 ==> |s| >= 2 && s[1] != '0'
  {
    if n < 0 then "-" + NatToString(-n) else NatToString(n)
  }

  /** Parsing the decimal string of a number gives that number back. */
  lemma ParseIntToString(n: int)
    ensures ParseInt(IntToString(n)) == Some(n)
  {
    var s := IntToString(n);
    assert TrimStart(s) == s;
    var digits := if n < 0 then NatToString(-n) else NatToString(n);
    assert StripSign(s).0 == digits;
    AllDigitsRun(digits);
    assert digits[..|digits|] == digits;
  }

  /** Nothing, or one sign character. */
  predicate IsSignText(sign: string) {
    |sign| == 0 || (|sign| == 1 && (sign[0] == '+' || sign[0] == '-'))
  }

  predicate IsMinus(sign: string) {
    |sign| == 1 && sign[0] == '-'
  }

  /** White space, an optional sign, a run of digits and anything not
      starting with a digit parse as the signed value of the digits. */
  lemma ParseIntOfParts(space: string, sign: string, digits: string, rest: string)
    requires forall i :: 0 <= i < |space| ==> IsJsSpace(space[i])
    requires IsSignText(sign)
    requires |digits| > 0 && AllDigits(digits)
    requires |rest| == 0 || !IsDigit(rest[0])
    ensures ParseInt(space + (sign + (digits + rest)))
      == Some(if IsMinus(sign) then -(DigitsValue(digits) as int) else DigitsValue(digits))
  {
    SignedDigits(sign, digits, rest);
    ParseIntSkipsSpace(space, sign + (digits + rest));
  }

  /** A sign, a run of digits and anything not starting with a digit. */
  lemma SignedDigits(sign: string, digits: string, rest: string)
    requires IsSignText(sign)
    requires |digits| > 0 && AllDigits(digits)
    requires |rest| == 0 || !IsDigit(rest[0])
    ensures |sign + (digits + rest)| > 0 && !IsJsSpace((sign + (digits + rest))[0])
    ensures ParseInt(sign + (digits + rest))
      == Some(if IsMinus(sign) then -(DigitsValue(digits) as int) else DigitsValue(digits))
  {
    ParseDigitsOfParts(digits, rest);
    ParseIntSigned(sign, digits + rest, DigitsValue(digits));
  }

  /** Leading white space does not change what parses. */
  lemma ParseIntSkipsSpace(space: string, body: string)
    requires forall i :: 0 <= i < |space| ==> IsJsSpace(space[i])
    requires |body| > 0 && !IsJsSpace(body[0])
    ensures ParseInt(space + body) == ParseInt(body)
  {
    TrimSpace(space, body);
    assert TrimStart(body) == body;
  }

  /** A sign followed by text that starts with the digits of `v` parses as
      `v` with that sign. */
  lemma ParseIntSigned(sign: string, unsigned: string, v: int)
    requires IsSignText(sign)
    requires |unsigned| > 0 && IsDigit(unsigned[0])
    requires ParseDigits(unsigned) == Some(v)
    ensures |sign + unsigned| > 0 && !IsJsSpace((sign + unsigned)[0])
    ensures ParseInt(sign + unsigned) == Some(if IsMinus(sign) then -v else v)
  {
    StripSignOfParts(sign, unsigned);
    ParseIntOfStripped(sign + unsigned, unsigned, IsMinus(sign), v);
  }

  /** An unpadded text whose sign-stripped remainder starts with the digits
      of `v` parses as `v` with that sign. */
  lemma ParseIntOfStripped(x: string, unsigned: string, negative: bool, v: int)
    requires |x| > 0 && !IsJsSpace(x[0])
    requires StripSign(x) == (unsigned, negative)
    requires ParseDigits(unsigned) == Some(v)
    ensures ParseInt(x) == Some(if negative then -v else v)
  {
    assert TrimStart(x) == x;
  }

  /** A digit run followed by a non-digit has the run's value. */
  lemma ParseDigitsOfParts(digits: string, rest: string)
    requires |digits| > 0 && AllDigits(digits)
    requires |rest| == 0 || !IsDigit(rest[0])
    ensures |digits + rest| > 0 && IsDigit((digits + rest)[0])
    ensures ParseDigits(digits + rest) == Some(DigitsValue(digits) as int)
  {
    DigitRunOfParts(digits, rest);
    assert (digits + rest)[..|digits|] == digits;
  }

  /** A sign in front of a digit is stripped and remembered. */
  lemma StripSignOfParts(sign: string, unsigned: string)
    requires IsSignText(sign)
    requires |unsigned| > 0 && IsDigit(unsigned[0])
    ensures |sign + unsigned| > 0 && !IsJsSpace((sign + unsigned)[0])
    ensures StripSign(sign + unsigned) == (unsigned, IsMinus(sign))
  {
    if |sign| == 0 {
      assert sign + unsigned == unsigned;
    } else {
      assert (sign + unsigned)[1..] == unsigned;
    }
  }

  /** Leading white space is dropped up to the first other character. */
  lemma {:induction false} TrimSpace(space: string, body: string)
    requires forall i :: 0 <= i < |space| ==> IsJsSpace(space[i])
    requires |body| > 0 && !IsJsSpace(body[0])
    ensures TrimStart(space + body) == body
    decreases |space|
  {
    if |space| == 0 {
      assert space + body == body;
    } else {
      assert (space + body)[1..] == space[1..] + body;
      TrimSpace(space[1..], body);
    }
  }

  /** The digit run of digits followed by a non-digit stops at the digits. */
  lemma {:induction false} DigitRunOfParts(digits: string, rest: string)
    requires AllDigits(digits)
    requires |rest| == 0 || !IsDigit(rest[0])
    ensures DigitRun(digits + rest) == |digits|
    decreases |digits|
  {
    if |digits| == 0 {
      assert digits + rest == rest;
    } else {
      assert (digits + rest)[1..] == digits[1..] + rest;
      DigitRunOfParts(digits[1..], rest);
    }
  }

  /** A string made only of digits is one whole run. */
  lemma {:induction false} AllDigitsRun(s: string)
    requires AllDigits(s)
    ensures DigitRun(s) == |s|
  {
    if |s| > 0 {
      AllDigitsRun(s[1..]);
    }
  }

  /** An invoice number; the year and month of the source's record come
      from the clock and are not modelled. */
  datatype InvoiceNumber = InvoiceNumber(sequence: int, formatted: string)

  /** `parseInt` of every entry, NaN written as `None`. */
  function ParseAll(xs: seq<string>): (ps: seq<Option<int>>)
    ensures |ps| == |xs|
  {
    if |xs| == 0 then [] else [ParseInt(xs[0])] + ParseAll(xs[1..])
  }

  /** Entry `i` of `ParseAll(xs)` is `parseInt` of `xs[i]`. */
  lemma {:induction false} ParseAllAt(xs: seq<string>, i: int)
    requires 0 <= i < |xs|
    ensures ParseAll(xs)[i] == ParseInt(xs[i])
  {
    var rest := ParseAll(xs[1..]);
    assert ParseAll(xs) == [ParseInt(xs[0])] + rest;
    if i > 0 {
      ParseAllAt(xs[1..], i - 1);
      assert ParseAll(xs)[i] == rest[i - 1];
    }
  }

  /** The numbers among `ps`, in order; the NaNs are dropped. */
  function Numbers(ps: seq<Option<int>>): (ns: seq<int>)
    ensures |ns| == 0 <==> forall i :: 0 <= i < |ps| ==> ps[i].None?
    ensures forall n :: n in ns <==> Some(n) in ps
  {
    if |ps| == 0 then []
    else
      var prefix := ps[..|ps| - 1];
      var last := ps[|ps| - 1];
      assert ps == prefix + [last];
      Numbers(prefix) + (if last.Some? then [last.value] else [])
  }

  /** The largest member of a non-empty list. */
  function Max(ns: seq<int>): (m: int)
    requires |ns| > 0
    ensures m in ns
    ensures forall n :: n in ns ==> n <= m
  {
    if |ns| == 1 then ns[0]
    else
      var rest := Max(ns[1..]);
      assert forall n :: n in ns[1..] ==> n in ns;
      assert forall n :: n in ns ==> n == ns[0] || n in ns[1..];
      if ns[0] > rest then ns[0] else rest
  }

  /** The number after the parsed entries `ps`: one more than the largest
      number among them, or 1 when all are NaN. The largest may be negative,
      and then so may the result. */
  function NextNumber(ps: seq<Option<int>>): (r: InvoiceNumber)
    ensures (forall i :: 0 <= i < |ps| ==> ps[i].None?) ==> r.sequence == 1
    ensures forall i :: 0 <= i < |ps| && ps[i].Some? ==> ps[i].value < r.sequence
    ensures (exists i :: 0 <= i < |ps| && ps[i].Some?) ==> Some(r.sequence - 1) in ps
    ensures r.formatted == IntToString(r.sequence)
  {
    var numbers := Numbers(ps);
    var maxNumber := if |numbers| > 0 then Max(numbers) else 0;
    assert forall i :: 0 <= i < |ps| && ps[i].Some? ==> ps[i].value in numbers;
    var next := maxNumber + 1;
    InvoiceNumber(next, IntToString(next))
  }

  /** The next invoice number after the existing ones. */
  function GenerateInvoiceNumber(existing: seq<string>): (r: InvoiceNumber)
    ensures r.formatted == IntToString(r.sequence)
  {
    NextNumber(ParseAll(existing))
  }

  /** With no existing entry that parses, numbering starts at 1. */
  lemma FirstNumberIsOne(existing: seq<string>)
    requires forall i :: 0 <= i < |existing| ==> ParseInt(existing[i]).None?
    ensures GenerateInvoiceNumber(existing).sequence == 1
  {
    var ps := ParseAll(existing);
    forall i | 0 <= i < |ps|
      ensures ps[i].None?
    {
      ParseAllAt(existing, i);
    }
  }

  /** The next number is above every existing number that parses. */
  lemma NextAboveExisting(existing: seq<string>, i: int)
    requires 0 <= i < |existing| && ParseInt(existing[i]).Some?
    ensures ParseInt(existing[i]).value < GenerateInvoiceNumber(existing).sequence
  {
    ParseAllAt(existing, i);
  }

  /** When some entry parses, the next number is one more than an existing
      number: the largest, by `NextAboveExisting`. */
  lemma NextFollowsExisting(existing: seq<string>)
    requires exists i :: 0 <= i < |existing| && ParseInt(existing[i]).Some?
    ensures exists i :: 0 <= i < |existing| && ParseInt(existing[i]) == Some(GenerateInvoiceNumber(existing).sequence - 1)
  {
    var ps := ParseAll(existing);
    var j :| 0 <= j < |existing| && ParseInt(existing[j]).Some?;
    ParseAllAt(existing, j);
    var i := PredecessorIndex(ps, j);
    ParseAllAt(existing, i);
  }

  /** Where some entry parsed, the position of the entry one below the next
      number. */
  lemma PredecessorIndex(ps: seq<Option<int>>, j: int) returns (i: int)
    requires 0 <= j < |ps| && ps[j].Some?
    ensures 0 <= i < |ps| && ps[i] == Some(NextNumber(ps).sequence - 1)
  {
    assert Some(NextNumber(ps).sequence - 1) in ps;
    i :| 0 <= i < |ps| && ps[i] == Some(NextNumber(ps).sequence - 1);
  }

  /** The largest parsed number may be negative: after the single entry
      "-5" the next number is -4, not 1. */
  lemma NegativeLargest()
    ensures GenerateInvoiceNumber(["-5"]).sequence == -4
  {
    var ps := ParseAll(["-5"]);
    assert ps == [Some(-5)] by {
      ParseAllAt(["-5"], 0);
      MinusFive();
    }
    var r := NextNumber(ps);
    assert Some(r.sequence - 1) in ps by {
      assert ps[0].Some?;
    }
  }

  /** `parseInt` reads "-5" as -5. */
  lemma MinusFive()
    ensures ParseInt("-5") == Some(-5)
  {
    ParseIntToString(-5);
    assert IntToString(-5) == "-5" by {
      assert NatToString(5) == [DigitChar(5)];
      assert DigitChar(5) == '5';
    }
  }

  /** Read back an invoice number: `None` when it does not parse; otherwise
      its parsed value, and the text exactly as given. */
  function ParseInvoiceNumber(s: string): (r: Option<InvoiceNumber>)
    ensures r.None? <==> DigitRun(StripSign(TrimStart(s)).0) == 0
    ensures r.Some? ==> r.value.formatted == s && Some(r.value.sequence) == ParseInt(s)
  {
    match ParseInt(s)
    case None => None
    case Some(n) => Some(InvoiceNumber(n, s))
  }

  /** A freshly generated invoice number reads back as itself. */
  lemma GeneratedParses(existing: seq<string>)
    ensures ParseInvoiceNumber(GenerateInvoiceNumber(existing).formatted) == Some(GenerateInvoiceNumber(existing))
  {
    ParseIntToString(GenerateInvoiceNumber(existing).sequence);
  }

  /** Entries that do not parse are ignored: dropping them does not change
      the next number. */
  lemma UnparseableIgnored(existing: seq<string>, junk: string)
    requires ParseInt(junk).None?
    ensures GenerateInvoiceNumber(existing + [junk]) == GenerateInvoiceNumber(existing)
  {
    var ps := ParseAll(existing);
    assert ParseAll(existing + [junk]) == ps + [None] by {
      ParseAllAppend(existing, junk);
    }
    assert Numbers(ps + [None]) == Numbers(ps) by {
      assert (ps + [None])[..|ps|] == ps;
    }
  }

  lemma ParseAllAppend(xs: seq<string>, x: string)
    ensures ParseAll(xs + [x]) == ParseAll(xs) + [ParseInt(x)]
  {
    var ys := xs + [x];
    var a, b := ParseAll(ys), ParseAll(xs) + [ParseInt(x)];
    forall i | 0 <= i < |a|
      ensures a[i] == b[i]
    {
      ParseAllAt(ys, i);
      if i < |xs| {
        ParseAllAt(xs, i);
        assert ys[i] == xs[i];
      }
    }
  }
}
