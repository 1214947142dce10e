/** Integer formatting (irono/base/LogStream.cc) into a fixed buffer (irono/base/LogStream.h).

    Digits are produced least significant first, straight into the buffer, with C's truncating
    division; the text is then reversed in place. Truncation is what makes the most negative value
    work: it is never negated, its remainders are negative and index the digit table backwards. */

/** What the text of a number means, and which text is the right one. */
module Numerals {
  /** '0'..'9', then 'A'..'F' */
  function DigitChar(d: nat): (c: char)
    requires d < 16
    ensures DigitValue(c) == d
  {
    if d < 10 then '0' + d as char else 'A' + (d - 10) as char
  }

  function DigitValue(c: char): int {
    if '0' <= c <= '9' then c as int - '0' as int
    else if 'A' <= c <= 'F' then c as int - 'A' as int + 10
    else -1
  }

  lemma UsualDigits(d: nat)
    requires d < 16
    ensures DigitChar(d) == "0123456789ABCDEF"[d]
  {
  }

  predicate AllDigits(s: string, base: nat) {
    forall k :: 0 <= k < |s| ==> 0 <= DigitValue(s[k]) < base
  }

  /** one more digit at the end */
  function Shifted(v: nat, base: nat, d: nat): nat { v * base + d }

  /** reads a digit string the usual way, left to right */
  function Value(s: string, base: nat): (v: nat)
    requires AllDigits(s, base)
  {
    if s == "" then 0 else Shifted(Value(s[..|s| - 1], base), base, DigitValue(s[|s| - 1]))
  }

  /** what a reader of the log makes of the text, if it is a number at all */
  datatype Reading = Number(value: int) | NotANumber

  function Parse(s: string, base: nat): Reading {
    var unsigned := if s != "" && s[0] == '-' then s[1..] else s;
    if unsigned == "" || !AllDigits(unsigned, base) then NotANumber
    else if unsigned == s then Number(Value(s, base))
    else Number(0 - Value(unsigned, base))
  }

  /** no leading zero, and a minus sign only before a number other than zero */
  predicate Canonical(s: string) {
    s != "" && (s[0] == '-' ==> |s| > 1 && s[1] != '0') && (s[0] == '0' ==> |s| == 1)
  }

  function Digits(n: nat, base: nat): (s: string)
    requires 2 <= base <= 16
    ensures |s| > 0 && AllDigits(s, base)
    decreases n
  {
    if n < base then [DigitChar(n)]
    else
      Shrinks(n, base);
      Digits(n / base, base) + [DigitChar(n % base)]
  }

  function Decimal(value: int): (s: string) {
    if value < 0 then "-" + Digits(-value, 10) else Digits(value, 10)
  }

  lemma Shrinks(n: nat, base: nat)
    requires 2 <= base <= n
    ensures 0 < n / base < n
  {
  }

  lemma QuotientShifted(n: nat, base: nat)
    requires base > 0
    ensures Shifted(n / base, base, n % base) == n
  {
  }

  lemma ShiftedIsPositive(v: nat, base: nat, d: nat)
    requires base > 0
    ensures Shifted(0, base, d) == d
    ensures v > 0 ==> Shifted(v, base, d) > 0
  {
    if v > 0 { assert (v - 1) * base >= 0; }
  }

  /** The digits of a number read back as that number, without a superfluous zero. */
  lemma {:induction false} DigitsReadBack(n: nat, base: nat)
    requires 2 <= base <= 16
    ensures Value(Digits(n, base), base) == n
    ensures Digits(n, base)[0] == '0' <==> n == 0
    ensures n == 0 ==> |Digits(n, base)| == 1
    decreases n
  {
    hide Shifted, DigitValue;
    var s := Digits(n, base);
    if n < base {
      assert s[..|s| - 1] == "";
      ShiftedIsPositive(0, base, n);
      assert (DigitChar(n) == '0') == (n == 0);
    } else {
      Shrinks(n, base);
      DigitsReadBack(n / base, base);
      assert s[..|s| - 1] == Digits(n / base, base);
      assert s[0] == Digits(n / base, base)[0];
      QuotientShifted(n, base);
    }
  }

  lemma QuotientAndDigit(x: nat, d: nat, y: nat, e: nat, base: nat)
    requires d < base && e < base
    requires Shifted(x, base, d) == Shifted(y, base, e)
    ensures x == y && d == e
  {
    var k := x - y;
    assert k * base == e - d by { assert k * base == x * base - y * base; }
    if k != 0 {
      NonZeroMultiple(k, base);
      assert false;
    }
  }

  lemma NonZeroMultiple(k: int, base: nat)
    requires k != 0
    ensures k * base >= base || k * base <= 0 - base
  {
    if k > 0 { assert (k - 1) * base >= 0; } else { assert (-k - 1) * base >= 0; }
  }

  lemma SameDigit(c: char, d: char)
    requires 0 <= DigitValue(c) == DigitValue(d)
    ensures c == d
  {
  }

  /** Digit strings without a leading zero are determined by their value. */
  lemma {:induction false} ValueDetermines(s: string, t: string, base: nat)
    requires 2 <= base <= 16 && AllDigits(s, base) && AllDigits(t, base)
    requires s != "" ==> s[0] != '0'
    requires t != "" ==> t[0] != '0'
    requires Value(s, base) == Value(t, base)
    ensures s == t
    decreases |s| + |t|
  {
    hide Shifted, DigitValue;
    if s == "" && t == "" {
    } else if s == "" || t == "" {
      PositiveValue(if s == "" then t else s, base);
      assert false;
    } else {
      var s', t' := s[..|s| - 1], t[..|t| - 1];
      QuotientAndDigit(Value(s', base), DigitValue(s[|s| - 1]), Value(t', base), DigitValue(t[|t| - 1]), base);
      ValueDetermines(s', t', base);
      SameDigit(s[|s| - 1], t[|t| - 1]);
      assert s == s' + [s[|s| - 1]] && t == t' + [t[|t| - 1]];
    }
  }

  lemma {:induction false} PositiveValue(s: string, base: nat)
    requires 2 <= base && AllDigits(s, base) && s != "" && s[0] != '0'
    ensures Value(s, base) > 0
    decreases |s|
  {
    hide Shifted;
    var s' := s[..|s| - 1];
    ShiftedIsPositive(Value(s', base), base, DigitValue(s[|s| - 1]));
    if s' != "" {
      PositiveValue(s', base);
    }
  }

  lemma ZeroIsNothing(base: nat)
    requires base >= 1
    ensures AllDigits("0", base) && Value("0", base) == 0
  {
    assert "0"[..0] == "";
  }

  /** Two canonical texts of the same number are the same text. */
  lemma CanonicalIsUnique(s: string, t: string, base: nat)
    requires 2 <= base <= 16
    requires Canonical(s) && Canonical(t)
    requires Parse(s, base).Number? && Parse(s, base) == Parse(t, base)
    ensures s == t
  {
    hide Value;
    var u := if s[0] == '-' then s[1..] else s;
    var v := if t[0] == '-' then t[1..] else t;
    assert AllDigits(u, base) && AllDigits(v, base);
    assert DigitValue('-') == -1;
    if s[0] == '-' { PositiveValue(u, base); }
    if t[0] == '-' { PositiveValue(v, base); }
    assert s[0] == '-' <==> t[0] == '-';
    if s[0] == '-' {
      ValueDetermines(u, v, base);
      assert s == "-" + u && t == "-" + v;
    } else {
      ZeroIsNothing(base);
      if s[0] != '0' { PositiveValue(s, base); }
      if t[0] != '0' { PositiveValue(t, base); }
      if s[0] != '0' && t[0] != '0' {
        ValueDetermines(s, t, base);
      } else {
        assert s == "0" || t == "0";
      }
    }
  }

  /** The decimal text of every integer is canonical and reads back as that integer. */
  lemma DecimalRoundTrip(value: int)
    ensures Canonical(Decimal(value))
    ensures Parse(Decimal(value), 10) == Number(value)
  {
    var n := if value < 0 then -value else value;
    var s := Digits(n, 10);
    DigitsReadBack(n, 10);
    assert DigitValue('-') == -1;
    assert s[0] != '-';
    if value < 0 {
      assert ("-" + s)[1..] == s;
    } else if s[0] == '0' {
      assert n == 0;
    }
  }

  function Pow(base: nat, k: nat): nat {
    if k == 0 then 1 else base * Pow(base, k - 1)
  }

  /** n < base^k takes at most k digits. */
  lemma {:induction false} DigitsFit(n: nat, base: nat, k: nat)
    requires 2 <= base <= 16 && 1 <= k && n < Pow(base, k)
    ensures |Digits(n, base)| <= k
    decreases n
  {
    if n < base {
    } else {
      Shrinks(n, base);
      QuotientBelow(n, base, Pow(base, k - 1));
      DigitsFit(n / base, base, k - 1);
    }
  }

  lemma QuotientBelow(n: nat, base: nat, bound: nat)
    requires 2 <= base && n < base * bound
    ensures n / base < bound
  {
  }
}

module LogStreams {
  import opened Numerals

  const DIGITS := "9876543210123456789"
  const DIGITS_HEX := "0123456789ABCDEF"
  /** the digit table is entered in its middle, so that negative remainders index it too */
  const ZERO := 9
  const MAX_NUMERIC_SIZE := 32
  const SMALL_BUFFER := 4000

  const INT64_MIN := -0x8000_0000_0000_0000
  const UINT64_LIMIT := 0x1_0000_0000_0000_0000

  /** C's division and remainder, which truncate towards zero */
  function Quot(i: int, b: nat): int
    requires b > 0
  {
    if i >= 0 then i / b else -(-i / b)
  }

  function Rem(i: int, b: nat): int
    requires b > 0
  {
    if i >= 0 then i % b else -(-i % b)
  }

  function Abs(i: int): nat { if i < 0 then -i else i }

  lemma TruncatedStep(i: int)
    ensures Abs(Quot(i, 10)) == Abs(i) / 10
    ensures Abs(Rem(i, 10)) == Abs(i) % 10
    ensures 0 <= ZERO + Rem(i, 10) < |DIGITS|
    ensures DIGITS[ZERO + Rem(i, 10)] == DigitChar(Abs(i) % 10)
  {
    TableIsRight(Rem(i, 10));
  }

  lemma TableIsRight(d: int)
    requires -10 < d < 10
    ensures DIGITS[ZERO + d] == DigitChar(Abs(d))
  {
  }

  lemma HexTableIsRight(d: nat)
    requires d < 16
    ensures DIGITS_HEX[d] == DigitChar(d)
  {
  }

  function Reversed(s: string): (r: string)
    ensures |r| == |s|
    ensures forall k :: 0 <= k < |s| ==> r[k] == s[|s| - 1 - k]
  {
    if s == "" then "" else Reversed(s[1..]) + [s[0]]
  }

  lemma ReversedSnoc(s: string, c: char)
    ensures Reversed(s + [c]) == [c] + Reversed(s)
  {
  }

  /** std::reverse on buf[first..last) */
  method ReverseInPlace(buf: array<char>, first: nat, last: nat)
    requires first <= last <= buf.Length
    modifies buf
    ensures buf[..] == old(buf[..first] + Reversed(buf[first..last]) + buf[last..])
  {
    ghost var was := buf[..];
    var i, j := first, last;
    while i + 1 < j
      invariant first <= i <= j <= last && i - first == last - j
      invariant forall k :: i <= k < j || last <= k < buf.Length || 0 <= k < first ==> buf[k] == was[k]
      invariant forall k :: first <= k < i || j <= k < last ==> buf[k] == was[first + last - 1 - k]
    {
      j := j - 1;
      buf[i], buf[j] := buf[j], buf[i];
      i := i + 1;
    }
    MirroredIsReversed(was, buf[..], first, last);
  }

  lemma MirroredIsReversed(was: string, now: string, first: nat, last: nat)
    requires first <= last <= |was| == |now|
    requires forall k :: last <= k < |was| || 0 <= k < first ==> now[k] == was[k]
    requires forall k :: first <= k < last ==> now[k] == was[first + last - 1 - k]
    ensures now == was[..first] + Reversed(was[first..last]) + was[last..]
  {
  }

  /** The longest text of a 64-bit value, signed or unsigned, has 20 characters. */
  lemma DecimalLength(value: int)
    requires INT64_MIN <= value < UINT64_LIMIT
    ensures |Decimal(value)| <= 20
  {
    PowersOfTen();
    if value < 0 {
      DigitsFit(-value, 10, 19);
    } else {
      DigitsFit(value, 10, 20);
    }
  }

  lemma PowersOfTen()
    ensures Pow(10, 19) == 10_000_000_000_000_000_000
    ensures Pow(10, 20) == 100_000_000_000_000_000_000
  {
    assert Pow(10, 5) == 100_000;
    assert Pow(10, 10) == 10_000_000_000;
    assert Pow(10, 15) == 1_000_000_000_000_000;
  }

  lemma HexLength(value: nat)
    requires value < UINT64_LIMIT
    ensures |Digits(value, 16)| <= 16
  {
    assert Pow(16, 4) == 0x1_0000;
    assert Pow(16, 8) == 0x1_0000_0000;
    assert Pow(16, 12) == 0x1_0000_0000_0000;
    DigitsFit(value, 16, 16);
  }

  /** `w` has been written over the start of `rest` */
  predicate Written(a: string, prefix: string, w: string, rest: string) {
    |w| <= |rest| && a == prefix + w + rest[|w|..]
  }

  lemma PutNext(a: string, prefix: string, w: string, rest: string, c: char)
    requires Written(a, prefix, w, rest) && |w| < |rest|
    ensures |a| == |prefix| + |rest|
    ensures Written(a[|prefix| + |w| := c], prefix, w + [c], rest)
  {
  }

  lemma NextDigit(i: int, w: string)
    ensures Digits(Abs(i), 10) + Reversed(w) ==
      (if Quot(i, 10) != 0 then Digits(Abs(Quot(i, 10)), 10) else "")
        + Reversed(w + [DigitChar(Abs(i) % 10)])
  {
    TruncatedStep(i);
    ReversedSnoc(w, DigitChar(Abs(i) % 10));
  }

  /** The do/while: the digits of `value`, last one first, from buf[start] on */
  method PutDigits(buf: array<char>, start: nat, value: int) returns (p: nat)
    requires start + |Digits(Abs(value), 10)| <= buf.Length
    modifies buf
    ensures p == start + |Digits(Abs(value), 10)|
    ensures Written(buf[..], old(buf[..start]), Reversed(Digits(Abs(value), 10)), old(buf[start..]))
  {
    hide Digits, Reversed, Rem, Quot, DigitChar, Written;
    ghost var prefix, rest, w := buf[..start], buf[start..], "";
    NothingWritten(buf[..], start);
    var i := value;
    p := start;
    var more := true;
    while more
      invariant p == start + |w| && |w| <= |Digits(Abs(value), 10)|
      invariant !more ==> i == 0
      invariant Digits(Abs(value), 10) == (if more then Digits(Abs(i), 10) else "") + Reversed(w)
      invariant Written(buf[..], prefix, w, rest)
      decreases Abs(i), more
    {
      TruncatedStep(i);
      NextDigit(i, w);
      PutNext(buf[..], prefix, w, rest, DigitChar(Abs(i) % 10));
      ghost var before := buf[..];
      w := w + [DigitChar(Abs(i) % 10)];
      var lsd := Rem(i, 10);
      i := Quot(i, 10);
      buf[p] := DIGITS[ZERO + lsd];
      assert buf[..] == before[p := DIGITS[ZERO + lsd]];
      p := p + 1;
      more := i != 0;
    }
    assert "" + Reversed(w) == Reversed(w);
    ReversedTwice(w);
  }

  lemma ReversedTwice(s: string)
    ensures Reversed(Reversed(s)) == s
  {
  }

  lemma BackToFront(value: int, w: string)
    requires w == Reversed(Digits(Abs(value), 10)) + if value < 0 then ['-'] else []
    ensures Reversed(w) == Decimal(value)
  {
    hide Digits;
    ReversedTwice(Digits(Abs(value), 10));
    if value < 0 {
      ReversedSnoc(Reversed(Digits(Abs(value), 10)), '-');
    }
  }

  lemma NothingWritten(a: string, start: nat)
    requires start <= |a|
    ensures Written(a, a[..start], "", a[start..])
  {
  }

  lemma Cut(prefix: string, w: string, tail: string)
    ensures (prefix + w + tail)[..|prefix|] == prefix
    ensures (prefix + w + tail)[|prefix|..|prefix| + |w|] == w
    ensures (prefix + w + tail)[|prefix| + |w|..] == tail
  {
  }

  /** The text ends where the NUL begins, and is then replaced by a text of the same length. */
  lemma TurnedAround(a: string, prefix: string, w: string, r: string, rest: string)
    requires |w| == |r| < |rest| && Written(a, prefix, w + ['\0'], rest)
    ensures |prefix| + |w| < |a| && a[|prefix|..|prefix| + |w|] == w
    ensures Written(a[..|prefix|] + r + a[|prefix| + |w|..], prefix, r + ['\0'], rest)
  {
    var rest' := rest[|w| + 1..];
    assert a == prefix + w + (['\0'] + rest') by {
      assert a == prefix + (w + ['\0']) + rest';
    }
    Cut(prefix, w, ['\0'] + rest');
    Regroup(prefix, r, rest');
  }

  lemma Regroup(prefix: string, r: string, rest: string)
    ensures prefix + r + (['\0'] + rest) == prefix + (r + ['\0']) + rest
  {
  }

  /** Ends the text with a NUL and turns it around in place. */
  method EndText(buf: array<char>, start: nat, p: nat, ghost prefix: string, ghost w: string, ghost rest: string)
    requires |prefix| == start && p == start + |w| && |w| < |rest| && Written(buf[..], prefix, w, rest)
    requires p < buf.Length
    modifies buf
    ensures Written(buf[..], prefix, Reversed(w) + ['\0'], rest)
  {
    hide Reversed, Written;
    ghost var a := buf[..];
    PutNext(a, prefix, w, rest, '\0');
    a := a[p := '\0'];
    buf[p] := '\0';
    assert buf[..] == a;
    TurnedAround(a, prefix, w, Reversed(w), rest);
    ReverseInPlace(buf, start, p);
  }

  /** Formats `value` at buf[start..] and ends it with a NUL. */
  method Convert(buf: array<char>, start: nat, value: int) returns (len: nat)
    requires INT64_MIN <= value < UINT64_LIMIT
    requires start + 21 <= buf.Length
    modifies buf
    ensures 0 < len <= 20
    ensures len == |Decimal(value)|
    ensures Written(buf[..], old(buf[..start]), Decimal(value) + ['\0'], old(buf[start..]))
  {
    hide Digits, Reversed, Decimal, Written;
    SignAndDigits(value);
    DecimalLength(value);
    ghost var prefix, rest, w := buf[..start], buf[start..], Reversed(Digits(Abs(value), 10));
    var p := PutDigits(buf, start, value);
    if value < 0 {
      ghost var a := buf[..];
      PutNext(a, prefix, w, rest, '-');
      w := w + ['-'];
      buf[p] := '-';
      assert buf[..] == a[p := '-'];
      p := p + 1;
    }
    BackToFront(value, w);
    EndText(buf, start, p, prefix, w, rest);
    len := p - start;
  }

  lemma SignAndDigits(value: int)
    ensures |Decimal(value)| == |Digits(Abs(value), 10)| + if value < 0 then 1 else 0
  {
  }

  /** Formats an address at buf[start..], most significant digit first, and ends it with a NUL. */
  method ConvertHex(buf: array<char>, start: nat, value: nat) returns (len: nat)
    requires value < UINT64_LIMIT
    requires start + 17 <= buf.Length
    modifies buf
    ensures 0 < len <= 16
    ensures len == |Digits(value, 16)|
    ensures Written(buf[..], old(buf[..start]), Digits(value, 16) + ['\0'], old(buf[start..]))
  {
    hide Digits, Reversed, Written, DigitChar;
    HexLength(value);
    ghost var prefix, rest, w := buf[..start], buf[start..], "";
    NothingWritten(buf[..], start);
    var i := value;
    var p := start;
    var more := true;
    while more
      invariant p == start + |w| && |w| <= |Digits(value, 16)|
      invariant !more ==> i == 0
      invariant Digits(value, 16) == (if more then Digits(i, 16) else "") + Reversed(w)
      invariant Written(buf[..], prefix, w, rest)
      decreases i, more
    {
      NextHexDigit(i, w);
      PutNext(buf[..], prefix, w, rest, DigitChar(i % 16));
      ghost var before := buf[..];
      w := w + [DigitChar(i % 16)];
      var lsd := i % 16;
      i := i / 16;
      HexTableIsRight(lsd);
      buf[p] := DIGITS_HEX[lsd];
      assert buf[..] == before[p := DIGITS_HEX[lsd]];
      p := p + 1;
      more := i != 0;
    }
    assert "" + Reversed(w) == Reversed(w);
    EndText(buf, start, p, prefix, w, rest);
    len := p - start;
  }

  lemma NextHexDigit(i: nat, w: string)
    ensures Digits(i, 16) + Reversed(w) ==
      (if i / 16 != 0 then Digits(i / 16, 16) else "") + Reversed(w + [DigitChar(i % 16)])
  {
    ReversedSnoc(w, DigitChar(i % 16));
  }

  /** One insertion into the stream */
  datatype Item = Text(text: string) | Integer(value: int) | Pointer(address: nat)

  predicate Formattable(item: Item) {
    match item
    case Text(_) => true
    case Integer(v) => INT64_MIN <= v < UINT64_LIMIT
    case Pointer(a) => a < UINT64_LIMIT
  }

  function Shown(item: Item): string {
    match item
    case Text(t) => t
    case Integer(v) => Decimal(v)
    case Pointer(a) => "0x" + Digits(a, 16)
  }

  /** a number is let in when the longest number would fit, a text when it fits with a byte to spare */
  predicate Fits(item: Item, avail: int) {
    match item
    case Text(t) => avail > |t|
    case _ => avail >= MAX_NUMERIC_SIZE
  }

  function Emit(out: string, item: Item, size: nat): string {
    if Fits(item, size - |out|) then out + Shown(item) else out
  }

  function EmitAll(out: string, items: seq<Item>, size: nat): string
    decreases items
  {
    if items == [] then out else EmitAll(Emit(out, items[0], size), items[1..], size)
  }

  function Concat(items: seq<Item>): string {
    if items == [] then "" else Shown(items[0]) + Concat(items[1..])
  }

  lemma ShownLength(item: Item)
    requires Formattable(item) && !item.Text?
    ensures |Shown(item)| <= 20
  {
    match item
    case Integer(v) => DecimalLength(v);
    case Pointer(a) => HexLength(a);
  }

  /** However much is streamed, the buffer never fills up: room for a terminating byte remains. */
  lemma {:induction false} NeverFull(out: string, items: seq<Item>, size: nat)
    requires |out| < size && forall item :: item in items ==> Formattable(item)
    ensures |EmitAll(out, items, size)| < size
    ensures out <= EmitAll(out, items, size)
    decreases items
  {
    if items == [] {
    } else {
      var item := items[0];
      if !item.Text? { ShownLength(item); }
      NeverFull(Emit(out, item, size), items[1..], size);
    }
  }

  /** A line that leaves room for one longest number is kept whole. */
  lemma {:induction false} NothingCut(out: string, items: seq<Item>, size: nat)
    requires |out| + |Concat(items)| + MAX_NUMERIC_SIZE <= size
    ensures EmitAll(out, items, size) == out + Concat(items)
    decreases items
  {
    if items == [] {
      assert out + Concat(items) == out;
    } else {
      var item := items[0];
      assert Fits(item, size - |out|);
      NothingCut(out + Shown(item), items[1..], size);
      assert out + Shown(item) + Concat(items[1..]) == out + (Shown(item) + Concat(items[1..]));
    }
  }

  /** class FixedBuffer, with the insertions of LogStream */
  class FixedBuffer {
    const data: array<char>
    var cur: nat

    ghost predicate Valid() reads this {
      cur <= data.Length
    }

    ghost function Contents(): string
      requires Valid()
      reads this, data
    {
      data[..cur]
    }

    constructor ()
      ensures Valid() && Contents() == "" && data.Length == SMALL_BUFFER && fresh(data)
    {
      data := new char[SMALL_BUFFER];
      cur := 0;
    }

    function Avail(): int reads this { data.Length - cur }

    method Append(text: string)
      requires Valid()
      modifies this, data
      ensures Valid() && Contents() == Emit(old(Contents()), Text(text), data.Length)
      ensures Contents() == old(Contents()) + if |text| < data.Length - old(cur) then text else ""
    {
      if Avail() > |text| {
        ghost var was := data[..];
        forall k | 0 <= k < |text| { data[cur + k] := text[k]; }
        assert data[..cur] == was[..cur];
        assert data[cur..cur + |text|] == text;
        assert data[..cur + |text|] == data[..cur] + data[cur..cur + |text|];
        cur := cur + |text|;
      }
    }

    method FormatInteger(v: int)
      requires Valid() && Formattable(Integer(v))
      modifies this, data
      ensures Valid() && Contents() == Emit(old(Contents()), Integer(v), data.Length)
      ensures Contents() == old(Contents()) + if 32 <= data.Length - old(cur) then Decimal(v) else ""
    {
      hide Decimal;
      if Avail() >= MAX_NUMERIC_SIZE {
        var len := Convert(data, cur, v);
        TextStart(data[..], old(data[..cur]), Decimal(v), old(data[cur..]));
        cur := cur + len;
      }
    }

    method FormatPointer(v: nat)
      requires Valid() && Formattable(Pointer(v))
      modifies this, data
      ensures Valid() && Contents() == Emit(old(Contents()), Pointer(v), data.Length)
      ensures Contents() == old(Contents()) + if 32 <= data.Length - old(cur) then "0x" + Digits(v, 16) else ""
    {
      hide Digits, Written;
      if Avail() >= MAX_NUMERIC_SIZE {
        ghost var out := Contents();
        data[cur], data[cur + 1] := '0', 'x';
        ghost var prefix, rest := data[..cur + 2], data[cur + 2..];
        assert prefix == out + "0x";
        var len := ConvertHex(data, cur + 2, v);
        TextStart(data[..], prefix, Digits(v, 16), rest);
        PointerText(out, v);
        cur := cur + len + 2;
      }
    }
  }

  /** A chain of insertions, as in one logging statement: the buffer never fills up, nothing in it is lost, and a
      line that leaves room for one longest number is kept whole. */
  method Stream(buffer: FixedBuffer, items: seq<Item>)
    requires buffer.Valid() && forall item :: item in items ==> Formattable(item)
    modifies buffer, buffer.data
    ensures buffer.Valid()
    ensures var before, now, size := old(buffer.Contents()), buffer.Contents(), buffer.data.Length;
      && now == EmitAll(before, items, size)
      && (|before| < size ==> before <= now && |now| < size)
      && (|before| + |Concat(items)| + MAX_NUMERIC_SIZE <= size ==> now == before + Concat(items))
  {
    hide Emit, Fits, Shown, Formattable, Concat;
    ghost var before, size := buffer.Contents(), buffer.data.Length;
    assert items[0..] == items;
    for i := 0 to |items|
      invariant buffer.Valid()
      invariant EmitAll(buffer.Contents(), items[i..], size) == EmitAll(before, items, size)
    {
      assert items[i..][0] == items[i] && items[i..][1..] == items[i + 1..] && items[i] in items;
      match items[i]
      case Text(text) => buffer.Append(text);
      case Integer(value) => buffer.FormatInteger(value);
      case Pointer(address) => buffer.FormatPointer(address);
    }
    assert items[|items|..] == [];
    if |before| < size {
      NeverFull(before, items, size);
    }
    if |before| + |Concat(items)| + MAX_NUMERIC_SIZE <= size {
      NothingCut(before, items, size);
    }
  }

  lemma PointerText(out: string, v: nat)
    ensures out + "0x" + Digits(v, 16) == out + Shown(Pointer(v))
  {
  }

  lemma TextStart(a: string, prefix: string, w: string, rest: string)
    requires Written(a, prefix, w + ['\0'], rest)
    ensures |prefix| + |w| < |a| && a[..|prefix| + |w|] == prefix + w
  {
    Cut(prefix + w, ['\0'], rest[|w| + 1..]);
    assert a == prefix + w + ['\0'] + rest[|w| + 1..];
  }
}
