/** Text primitives the response parser relies on: the CRLF search of the
    buffer and the numeral conversions of the C++ library. */
module HttpText {
  import opened Options
  import opened ByteBuffer

  const CRLF := "\r\n"

  predicate IsCRLF(b: string, i: int) {
    0 <= i && i + 1 < |b| && b[i] == '\r' && b[i + 1] == '\n'
  }

  ghost predicate NoCRLF(b: string) {
    forall i :: 0 <= i < |b| ==> !IsCRLF(b, i)
  }

  /** The first line end at or after `start`. */
  function FindCRLF(b: string, start: nat): (r: Option<nat>)
    requires start <= |b|
    ensures r.Some? ==> start <= r.value && r.value + 2 <= |b| && IsCRLF(b, r.value)
    ensures forall j :: start <= j < (if r.Some? then r.value else |b|) ==> !IsCRLF(b, j)
    decreases |b| - start
  {
    if IsCRLF(b, start) then Some(start)
    else if start == |b| then None
    else FindCRLF(b, start + 1)
  }

  /** `findCRLF(start)`, with `start` and the result counted from `peek()`. */
  method FindCRLFInBuffer(buf: BufferEndian<char>, start: nat) returns (r: Option<nat>)
    requires buf.Valid() && start <= |buf.Contents()|
    ensures r == FindCRLF(buf.Contents(), start)
  {
    var n := buf.writerIndex - buf.readerIndex;
    var i := start;
    ghost var b := buf.Contents();
    while i + 1 < n
      invariant start <= i <= n
      invariant forall j :: start <= j < i ==> !IsCRLF(b, j)
    {
      if buf.buffer[buf.readerIndex + i] == '\r' && buf.buffer[buf.readerIndex + i + 1] == '\n' {
        assert IsCRLF(b, i);
        return Some(i);
      }
      i := i + 1;
    }
    r := None;
  }

  /** The search is settled by what lies before the line end. */
  lemma FoundAt(b: string, start: nat, i: nat)
    requires start <= i && IsCRLF(b, i) && forall j :: start <= j < i ==> !IsCRLF(b, j)
    ensures FindCRLF(b, start) == Some(i)
  {
  }

  lemma FindCRLFExtends(b: string, m: string, start: nat)
    requires start <= |b| && FindCRLF(b, start).Some?
    ensures FindCRLF(b + m, start) == FindCRLF(b, start)
  {
    var i := FindCRLF(b, start).value;
    forall j | start <= j < i
      ensures !IsCRLF(b + m, j)
    {
      assert !IsCRLF(b, j);
    }
    FoundAt(b + m, start, i);
  }

  /** A line without CRLF inside, written at `at`, is found as one line. */
  lemma LineFound(pre: string, line: string, rest: string)
    requires NoCRLF(line)
    ensures FindCRLF(pre + line + CRLF + rest, |pre|) == Some(|pre| + |line|)
  {
    var b := pre + line + CRLF + rest;
    forall j | |pre| <= j < |pre| + |line|
      ensures !IsCRLF(b, j)
    {
      assert !IsCRLF(line, j - |pre|);
      assert b[j] == line[j - |pre|];
      if j + 1 < |pre| + |line| {
        assert b[j + 1] == line[j + 1 - |pre|];
      } else {
        assert b[j + 1] == '\r';
      }
    }
    assert IsCRLF(b, |pre| + |line|);
    FoundAt(b, |pre|, |pre| + |line|);
  }

  // ---------- std::string_view ----------

  /** The first position of `c`, or nothing (`npos`). */
  function Find(s: string, c: char): (r: Option<nat>)
    ensures r.Some? ==> r.value < |s| && s[r.value] == c && c !in s[..r.value]
    ensures r.None? ==> c !in s
  {
    if s == [] then None
    else if s[0] == c then Some(0)
    else match Find(s[1..], c)
      case None => None
      case Some(i) => assert s[..i + 1] == [s[0]] + s[1..][..i]; Some(i + 1)
  }

  lemma {:induction false} FindAfter(s: string, c: char, t: string)
    requires c !in s
    ensures Find(s + [c] + t, c) == Some(|s|)
  {
    if s == [] {
      assert (s + [c] + t)[0] == c;
    } else {
      assert (s + [c] + t)[1..] == s[1..] + [c] + t;
      FindAfter(s[1..], c, t);
    }
  }

  // ---------- std::stoul and std::stoi ----------

  const ULONG_LIMIT: nat := 0x1_0000_0000_0000_0000
  const INT_LIMIT: int := 0x8000_0000

  predicate IsBase(base: nat) { base == 10 || base == 16 }

  predicate IsSpace(c: char) { c == ' ' || 9 <= c as int <= 13 }

  function DigitValue(c: char): nat {
    if '0' <= c <= '9' then c as int - '0' as int
    else if 'a' <= c <= 'z' then c as int - 'a' as int + 10
    else if 'A' <= c <= 'Z' then c as int - 'A' as int + 10
    else 36
  }

  function SkipSpaces(s: string): string {
    if s != [] && IsSpace(s[0]) then SkipSpaces(s[1..]) else s
  }

  /** The longest prefix made of digits of the base. */
  function DigitRun(s: string, base: nat): (r: string)
    ensures forall i :: 0 <= i < |r| ==> DigitValue(r[i]) < base
  {
    if s != [] && DigitValue(s[0]) < base then [s[0]] + DigitRun(s[1..], base) else []
  }

  function Value(digits: string, base: nat): nat {
    if digits == [] then 0
    else Value(digits[..|digits| - 1], base) * base + DigitValue(digits[|digits| - 1])
  }

  function SkipHexPrefix(u: string, base: nat): string {
    if base == 16 && |u| > 2 && u[0] == '0' && (u[1] == 'x' || u[1] == 'X') && DigitValue(u[2]) < 16
    then u[2..] else u
  }

  function Digits(u: string, base: nat): string {
    DigitRun(SkipHexPrefix(u, base), base)
  }

  /** Sign and magnitude of the numeral at the start of `s`; nothing when there
      are no digits. Leading spaces, a sign, a hexadecimal prefix and whatever
      follows the digits are accepted. */
  function Magnitude(s: string, base: nat): Option<(bool, nat)> {
    var t := SkipSpaces(s);
    var signed := t != [] && (t[0] == '+' || t[0] == '-');
    var digits := Digits(if signed then t[1..] else t, base);
    if digits == [] then None else Some((signed && t[0] == '-', Value(digits, base)))
  }

  /** `std::stoul`; nothing stands for the exception. A minus sign negates modulo the width. */
  function Stoul(s: string, base: nat): (r: Option<nat>)
    ensures r.Some? ==> r.value < ULONG_LIMIT
  {
    match Magnitude(s, base)
    case None => None
    case Some((neg, v)) =>
      if v >= ULONG_LIMIT then None else if neg && v > 0 then Some(ULONG_LIMIT - v) else Some(v)
  }

  function Signed(neg: bool, v: int): int { if neg then -v else v }

  function Stoi(s: string): Option<int> {
    match Magnitude(s, 10)
    case None => None
    case Some((neg, v)) =>
      var n := Signed(neg, v);
      if -INT_LIMIT <= n < INT_LIMIT then Some(n) else None
  }

  function DigitChar(d: nat): char
    requires d < 16
  {
    if d < 10 then '0' + d as char else 'a' + (d - 10) as char
  }

  function Quotient(n: nat, base: nat): nat
    requires IsBase(base)
  {
    if base == 10 then n / 10 else n / 16
  }

  function Remainder(n: nat, base: nat): nat
    requires IsBase(base)
  {
    if base == 10 then n % 10 else n % 16
  }

  /** The shortest numeral, with lower-case digits. */
  function Numeral(n: nat, base: nat): (s: string)
    requires IsBase(base)
    ensures |s| > 0
    ensures forall i :: 0 <= i < |s| ==> DigitValue(s[i]) < base && s[i] != 'x' && s[i] != 'X' && !IsSpace(s[i])
    ensures forall i :: 0 <= i < |s| ==> s[i] != '+' && s[i] != '-'
  {
    if n < base then [DigitChar(n)]
    else Numeral(Quotient(n, base), base) + [DigitChar(Remainder(n, base))]
  }

  lemma {:induction false} NumeralValue(n: nat, base: nat)
    requires IsBase(base)
    ensures Value(Numeral(n, base), base) == n
  {
    var s := Numeral(n, base);
    if n < base {
      assert s[..|s| - 1] == [];
    } else {
      NumeralValue(Quotient(n, base), base);
      assert s[..|s| - 1] == Numeral(Quotient(n, base), base);
    }
  }

  lemma {:induction false} DigitRunAll(s: string, base: nat, rest: string)
    requires forall i :: 0 <= i < |s| ==> DigitValue(s[i]) < base
    requires rest == [] || DigitValue(rest[0]) >= base
    ensures DigitRun(s + rest, base) == s
  {
    if s == [] {
      assert s + rest == rest;
    } else {
      assert (s + rest)[1..] == s[1..] + rest;
      DigitRunAll(s[1..], base, rest);
    }
  }

  /** Printing a number and reading it back, whatever non-digit follows. */
  lemma NumeralRead(n: nat, base: nat, rest: string)
    requires IsBase(base)
    requires rest == [] || (DigitValue(rest[0]) >= base && rest[0] != 'x' && rest[0] != 'X')
    ensures Magnitude(Numeral(n, base) + rest, base) == Some((false, n))
  {
    var s := Numeral(n, base);
    assert (s + rest)[0] == s[0];
    DigitsRead(s, base, rest);
    NumeralValue(n, base);
    hide Numeral, Digits, Value, DigitValue;
    assert SkipSpaces(s + rest) == s + rest;
  }

  lemma DigitsRead(s: string, base: nat, rest: string)
    requires s != [] && forall i :: 0 <= i < |s| ==> DigitValue(s[i]) < base && s[i] != 'x' && s[i] != 'X'
    requires rest == [] || (DigitValue(rest[0]) >= base && rest[0] != 'x' && rest[0] != 'X')
    ensures Digits(s + rest, base) == s
  {
    hide DigitRun, DigitValue;
    assert |s + rest| > 1 ==> (s + rest)[1] == if |s| > 1 then s[1] else rest[0];
    DigitRunAll(s, base, rest);
  }

  /** What else the conversions accept: leading spaces, a sign, a hexadecimal prefix
      and anything after the digits; and what they refuse. */
  lemma NumeralForms(n: nat, base: nat, rest: string)
    requires IsBase(base) && n < ULONG_LIMIT
    requires rest == [] || (DigitValue(rest[0]) >= base && rest[0] != 'x' && rest[0] != 'X')
    ensures var s := Numeral(n, base) + rest;
      && Stoul(s, base) == Stoul([' '] + s, base) == Stoul(['+'] + s, base) == Some(n)
      && Stoul(['-'] + s, base) == Some(if n == 0 then 0 else ULONG_LIMIT - n)
  {
    var num := Numeral(n, base);
    NumeralRead(n, base, rest);
    assert (num + rest)[0] == num[0] && !IsSpace(num[0]) && num[0] != '+' && num[0] != '-';
    MagnitudeForms(num + rest, base);
    hide *;
    StoulIs(num + rest, base, false, n);
    StoulIs([' '] + (num + rest), base, false, n);
    StoulIs(['+'] + (num + rest), base, false, n);
    StoulIs(['-'] + (num + rest), base, true, n);
  }

  lemma StoulIs(s: string, base: nat, neg: bool, v: nat)
    requires Magnitude(s, base) == Some((neg, v)) && v < ULONG_LIMIT
    ensures Stoul(s, base) == Some(if neg && v > 0 then ULONG_LIMIT - v else v)
  {
    hide Magnitude;
  }

  lemma HexPrefixRead(n: nat, rest: string)
    requires n < ULONG_LIMIT && (rest == [] || DigitValue(rest[0]) >= 16)
    ensures Stoul("0x" + (Numeral(n, 16) + rest), 16) == Some(n)
  {
    HexPrefix(Numeral(n, 16), rest);
    NumeralValue(n, 16);
    hide Numeral, Magnitude;
  }

  lemma MagnitudeForms(s: string, base: nat)
    requires s != [] && !IsSpace(s[0]) && s[0] != '+' && s[0] != '-' && Magnitude(s, base).Some?
    ensures Magnitude([' '] + s, base) == Magnitude(s, base) == Magnitude(['+'] + s, base)
    ensures Magnitude(['-'] + s, base) == Some((true, Magnitude(s, base).value.1))
  {
    hide Digits, Value;
    assert ([' '] + s)[1..] == s && (['+'] + s)[1..] == s && (['-'] + s)[1..] == s;
    assert SkipSpaces(s) == s;
  }

  lemma HexPrefix(digits: string, rest: string)
    requires digits != [] && forall i :: 0 <= i < |digits| ==> DigitValue(digits[i]) < 16
    requires rest == [] || DigitValue(rest[0]) >= 16
    ensures Magnitude("0x" + (digits + rest), 16) == Some((false, Value(digits, 16)))
  {
    var u := "0x" + (digits + rest);
    AfterPrefix(u);
    DigitRunAll(digits, 16, rest);
    MagnitudePlain(u, 16);
    hide DigitRun, Value, DigitValue, Magnitude, SkipHexPrefix;
    assert u[2..] == digits + rest;
  }

  lemma AfterPrefix(u: string)
    requires |u| > 2 && u[0] == '0' && u[1] == 'x' && DigitValue(u[2]) < 16
    ensures SkipHexPrefix(u, 16) == u[2..]
  {
    hide DigitValue;
  }

  lemma MagnitudePlain(u: string, base: nat)
    requires u != [] && !IsSpace(u[0]) && u[0] != '+' && u[0] != '-'
    ensures Magnitude(u, base) ==
      if Digits(u, base) == [] then None else Some((false, Value(Digits(u, base), base)))
  {
    hide Digits, Value;
    assert SkipSpaces(u) == u;
  }

  /** No digits, or a number too large, is an exception. */
  lemma NotANumeral(s: string, n: nat)
    requires s == [] || (DigitValue(s[0]) >= 10 && !IsSpace(s[0]) && s[0] != '+' && s[0] != '-')
    ensures Stoul(s, 10) == None && Stoi(s) == None
    ensures n >= ULONG_LIMIT ==> Stoul(Numeral(n, 10), 10) == None
    ensures n >= INT_LIMIT ==> Stoi(Numeral(n, 10)) == None
  {
    NumeralRead(n, 10, []);
    assert Numeral(n, 10) + [] == Numeral(n, 10);
    hide Numeral;
  }

  lemma StoulReadsNumeral(n: nat, base: nat)
    requires IsBase(base) && n < ULONG_LIMIT
    ensures Stoul(Numeral(n, base), base) == Some(n)
  {
    assert Numeral(n, base) + [] == Numeral(n, base);
    NumeralRead(n, base, []);
  }

  lemma StoiReadsNumeral(n: nat)
    requires n < INT_LIMIT
    ensures Stoi(Numeral(n, 10)) == Some(n)
  {
    assert Numeral(n, 10) + [] == Numeral(n, 10);
    NumeralRead(n, 10, []);
  }
}
