/**
 Strings as the Go standard library treats them: strings.Split, strings.Join and
 strings.Replace(…, 1), and the base-10 conversions of strconv.
 */
module Text {

  datatype Option<+T> = None | Some(value: T)

  // ---------------------------------------------------------------- splitting

  /** The position of the first c in s, or |s| when there is none. */
  function Find(s: string, c: char): (i: nat)
    ensures i <= |s|
    ensures c !in s[..i]
    ensures i < |s| ==> s[i] == c
  {
    if s == [] then 0
    else if s[0] == c then 0
    else
      var i := 1 + Find(s[1..], c);
      assert s[..i] == [s[0]] + s[1..][..i - 1];
      i
  }

  /** strings.Split with a one-character separator: never empty. */
  function Split(s: string, c: char): (parts: seq<string>)
    ensures |parts| >= 1
    decreases |s|
  {
    var i := Find(s, c);
    if i == |s| then [s] else [s[..i]] + Split(s[i + 1..], c)
  }

  /** strings.Join with a one-character separator. */
  function Join(parts: seq<string>, c: char): string
  {
    if |parts| == 0 then ""
    else if |parts| == 1 then parts[0]
    else parts[0] + [c] + Join(parts[1..], c)
  }

  ghost predicate Free(parts: seq<string>, c: char) {
    forall i :: 0 <= i < |parts| ==> c !in parts[i]
  }

  lemma FindHead(a: string, c: char, rest: string)
    requires c !in a
    ensures Find(a + [c] + rest, c) == |a|
  {
    var s := a + [c] + rest;
    var i := Find(s, c);
    assert forall k :: 0 <= k < |a| ==> s[k] == a[k] && s[k] in a;
    assert s[|a|] == c;
    assert forall k :: 0 <= k < i ==> s[k] == s[..i][k] && s[k] != c;
  }

  lemma {:induction false} SplitPieces(s: string, c: char)
    ensures Free(Split(s, c), c)
    decreases |s|
  {
    var i := Find(s, c);
    if i < |s| { SplitPieces(s[i + 1..], c); }
  }

  /** Splitting what was joined gives the pieces back. */
  lemma {:induction false} SplitJoin(parts: seq<string>, c: char)
    requires |parts| >= 1 && Free(parts, c)
    ensures Split(Join(parts, c), c) == parts
  {
    if |parts| == 1 {
      assert Find(parts[0], c) == |parts[0]|;
    } else {
      var rest := Join(parts[1..], c);
      var s := parts[0] + [c] + rest;
      FindHead(parts[0], c, rest);
      SplitJoin(parts[1..], c);
      assert s[..|parts[0]|] == parts[0];
      assert s[|parts[0]| + 1..] == rest;
      assert Join(parts, c) == s;
    }
  }

  lemma JoinCons(first: string, parts: seq<string>, c: char)
    requires |parts| >= 1
    ensures Join([first] + parts, c) == first + [c] + Join(parts, c)
  {
    assert ([first] + parts)[1..] == parts;
  }

  /** Joining what was split gives the text back. */
  lemma {:induction false} JoinSplit(s: string, c: char)
    ensures Join(Split(s, c), c) == s
    decreases |s|
  {
    var i := Find(s, c);
    if i < |s| {
      var rest := s[i + 1..];
      JoinSplit(rest, c);
      JoinCons(s[..i], Split(rest, c), c);
      assert s == s[..i] + [c] + rest;
    }
  }

  lemma {:induction false} JoinSnoc(parts: seq<string>, last: string, c: char)
    requires |parts| >= 1
    ensures Join(parts + [last], c) == Join(parts, c) + [c] + last
  {
    if |parts| == 1 {
      assert (parts + [last])[1..] == [last];
    } else {
      JoinSnoc(parts[1..], last, c);
      assert (parts + [last])[1..] == parts[1..] + [last];
    }
  }

  /** Joining brings no other separator in. */
  lemma {:induction false} JoinFree(parts: seq<string>, c: char, d: char)
    requires Free(parts, d) && c != d
    ensures d !in Join(parts, c)
  {
    if |parts| > 1 { JoinFree(parts[1..], c, d); }
  }

  /** The last separator of a text is determined by the text. */
  lemma {:induction false} CutLast(a: string, b: string, a': string, b': string, c: char)
    requires c !in b && c !in b'
    requires a + [c] + b == a' + [c] + b'
    ensures a == a' && b == b'
  {
    var s := a + [c] + b;
    assert s == a' + [c] + b';
    assert s[|a|] == c && s[|a'|] == c;
    assert forall k :: |a| < k < |s| ==> s[k] == b[k - |a| - 1];
    assert forall k :: |a'| < k < |s| ==> s[k] == b'[k - |a'| - 1];
    assert |a| == |a'|;
    assert a == s[..|a|] && b == s[|a| + 1..];
    assert a' == s[..|a|] && b' == s[|a| + 1..];
  }

  /** The last field of a split text. */
  lemma {:induction false} LastField(a: string, b: string, c: char)
    requires c !in b
    ensures var parts := Split(a + [c] + b, c); |parts| >= 2 && parts[|parts| - 1] == b
    decreases |a|
  {
    var s := a + [c] + b;
    var i := Find(a, c);
    if i == |a| {
      FindHead(a, c, b);
      assert s[..|a|] == a && s[|a| + 1..] == b;
      assert Find(b, c) == |b|;
      assert Split(s, c) == [a] + Split(b, c);
    } else {
      var head, rest := a[..i], a[i + 1..] + [c] + b;
      assert s == head + [c] + rest;
      FindHead(head, c, rest);
      LastField(a[i + 1..], b, c);
      assert s[i + 1..] == rest;
      assert Split(s, c) == [s[..i]] + Split(rest, c);
    }
  }

  // ---------------------------------------------------------------- replacing

  ghost predicate OccursAt(s: string, old_: string, p: nat) {
    p + |old_| <= |s| && s[p..p + |old_|] == old_
  }

  ghost predicate Occurs(s: string, old_: string) {
    exists p: nat :: OccursAt(s, old_, p)
  }

  /** strings.Replace(s, old, new, 1): the first occurrence only. */
  function ReplaceFirst(s: string, old_: string, new_: string): string
  {
    if old_ <= s then new_ + s[|old_|..]
    else if s == [] then []
    else [s[0]] + ReplaceFirst(s[1..], old_, new_)
  }

  lemma NotAtStart(a: string, c: char, rest: string, old_: string)
    requires c !in old_ && !Occurs(a, old_)
    ensures !(old_ <= a + [c] + rest)
  {
    var s := a + [c] + rest;
    assert !OccursAt(a, old_, 0);
    assert |old_| <= |a| ==> s[..|old_|] == a[0..0 + |old_|];
    assert s[|a|] == c;
    assert |a| < |old_| <= |s| ==> s[..|old_|][|a|] == c;
  }

  lemma OccursInTail(a: string, old_: string)
    requires a != [] && !Occurs(a, old_)
    ensures !Occurs(a[1..], old_)
  {
    forall p: nat ensures !OccursAt(a[1..], old_, p) {
      assert OccursAt(a[1..], old_, p) ==> a[1..][p..p + |old_|] == a[p + 1..p + 1 + |old_|];
      assert !OccursAt(a, old_, p + 1);
    }
  }

  /** Without an occurrence inside the first line, the replacement works on the rest. */
  lemma {:induction false} ReplaceSkipsLine(a: string, c: char, rest: string, old_: string, new_: string)
    requires c !in old_ && old_ != []
    requires !Occurs(a, old_)
    ensures ReplaceFirst(a + [c] + rest, old_, new_) == a + [c] + ReplaceFirst(rest, old_, new_)
  {
    hide Occurs;
    var s := a + [c] + rest;
    NotAtStart(a, c, rest, old_);
    assert ReplaceFirst(s, old_, new_) == [s[0]] + ReplaceFirst(s[1..], old_, new_);
    if a == [] {
      assert s[1..] == rest;
      assert a + [c] == [c];
    } else {
      OccursInTail(a, old_);
      ReplaceSkipsLine(a[1..], c, rest, old_, new_);
      assert s[1..] == a[1..] + [c] + rest;
      assert a == [a[0]] + a[1..];
    }
  }

  lemma {:induction false} ReplaceNothing(a: string, old_: string, new_: string)
    requires old_ != [] && !Occurs(a, old_)
    ensures ReplaceFirst(a, old_, new_) == a
  {
    assert !OccursAt(a, old_, 0);
    if a != [] {
      OccursInTail(a, old_);
      ReplaceNothing(a[1..], old_, new_);
      assert |old_| <= |a| ==> a[..|old_|] == a[0..0 + |old_|];
    }
  }

  /** Nothing is replaced when no line contains the text. */
  lemma {:induction false} ReplaceInNoLine(lines: seq<string>, c: char, old_: string, new_: string)
    requires old_ != [] && c !in old_ && forall i :: 0 <= i < |lines| ==> !Occurs(lines[i], old_)
    ensures ReplaceFirst(Join(lines, c), old_, new_) == Join(lines, c)
  {
    if |lines| > 1 {
      ReplaceSkipsLine(lines[0], c, Join(lines[1..], c), old_, new_);
      ReplaceInNoLine(lines[1..], c, old_, new_);
    } else if |lines| == 1 {
      ReplaceNothing(lines[0], old_, new_);
    }
  }

  /** A whole line is replaced in place when it does not occur inside an earlier one. */
  lemma {:induction false} ReplaceLine(lines: seq<string>, k: nat, c: char, new_: string)
    requires k < |lines| && lines[k] != [] && c !in lines[k]
    requires forall i :: 0 <= i < k ==> !Occurs(lines[i], lines[k])
    ensures ReplaceFirst(Join(lines, c), lines[k], new_) == Join(lines[k := new_], c)
  {
    if k == 0 {
      var rest := if |lines| == 1 then "" else [c] + Join(lines[1..], c);
      assert Join(lines, c) == lines[0] + rest;
      assert Join(lines, c)[|lines[0]|..] == rest;
      assert lines[0 := new_][1..] == lines[1..];
      assert |lines| == 1 ==> Join(lines[0 := new_], c) == new_ == new_ + rest;
      assert |lines| > 1 ==> Join(lines[0 := new_], c) == new_ + [c] + Join(lines[1..], c) == new_ + rest;
    } else {
      var tail := lines[1..];
      ReplaceSkipsLine(lines[0], c, Join(tail, c), lines[k], new_);
      ReplaceLine(tail, k - 1, c, new_);
      assert lines[k := new_][1..] == tail[k - 1 := new_];
    }
  }

  // ---------------------------------------------------------------- decimals

  const MIN_INT64: int := -0x8000_0000_0000_0000
  const MAX_INT64: int := 0x7fff_ffff_ffff_ffff

  function DigitChar(d: nat): (c: char)
    requires d < 10
  {
    "0123456789"[d]
  }

  function FormatNat(n: nat): (s: string)
    ensures |s| >= 1
  {
    if n < 10 then [DigitChar(n)] else FormatNat(n / 10) + [DigitChar(n % 10)]
  }

  /** strconv.FormatInt(n, 10) and the %d verb. */
  function FormatInt(n: int): string
  {
    if n < 0 then "-" + FormatNat(-n) else FormatNat(n)
  }

  predicate IsDigit(c: char) { '0' <= c <= '9' }

  predicate AllDigits(s: string) { forall i :: 0 <= i < |s| ==> IsDigit(s[i]) }

  function DigitValue(c: char): (d: nat)
    requires IsDigit(c)
    ensures d < 10
  {
    c as int - '0' as int
  }

  function NatValue(s: string): nat
    requires AllDigits(s)
  {
    if s == [] then 0 else 10 * NatValue(s[..|s| - 1]) + DigitValue(s[|s| - 1])
  }

  /** strconv.ParseInt(s, 10, 64), and strconv.Atoi on a 64-bit platform: an optional sign, at least one digit, in range. */
  function ParseInt(s: string): (n: Option<int>)
    ensures n.Some? ==> MIN_INT64 <= n.value <= MAX_INT64
  {
    var signed := s != [] && (s[0] == '-' || s[0] == '+');
    var digits := if signed then s[1..] else s;
    if digits == [] || !AllDigits(digits) then None
    else
      var v: int := if signed && s[0] == '-' then 0 - NatValue(digits) else NatValue(digits);
      if MIN_INT64 <= v <= MAX_INT64 then Some(v) else None
  }

  lemma {:induction false} FormatNatValue(n: nat)
    ensures AllDigits(FormatNat(n)) && NatValue(FormatNat(n)) == n
  {
    if n >= 10 {
      FormatNatValue(n / 10);
      var s := FormatNat(n);
      assert s[..|s| - 1] == FormatNat(n / 10);
    }
  }

  lemma DecimalChars(n: int, c: char)
    requires !IsDigit(c) && c != '-'
    ensures c !in FormatInt(n)
  {
    FormatNatValue(if n < 0 then -n else n);
  }

  lemma NatChars(n: nat, c: char)
    requires !IsDigit(c)
    ensures c !in FormatNat(n)
  {
    FormatNatValue(n);
  }

  /** Parsing inverts formatting on the whole int64 range. */
  lemma ParseFormat(n: int)
    requires MIN_INT64 <= n <= MAX_INT64
    ensures ParseInt(FormatInt(n)) == Some(n)
  {
    var m: nat := if n < 0 then -n else n;
    FormatNatValue(m);
    var digits := FormatNat(m);
    assert digits != [] && IsDigit(digits[0]);
    assert FormatInt(n) == if n < 0 then "-" + digits else digits;
    hide FormatNat, NatValue, FormatInt, AllDigits;
    if n < 0 {
      assert ("-" + digits)[1..] == digits;
    }
  }

  /** A number beyond the 64 bits does not parse. */
  lemma ParseTooLarge(n: nat)
    requires n > MAX_INT64
    ensures ParseInt(FormatNat(n)) == None
  {
    FormatNatValue(n);
    hide FormatNat, NatValue;
  }

  lemma FormatNatInjective(a: nat, b: nat)
    requires FormatNat(a) == FormatNat(b)
    ensures a == b
  {
    FormatNatValue(a);
    FormatNatValue(b);
  }
}
