/**
 The string operations the program takes from Go's `strings` and `strconv`
 packages, on strings as sequences of characters, and the laws its codecs rest on.
 */
module Text {
  import opened Wrappers

  /** Go's `int` is 64 bits wide; every port the program handles is one. */
  const INT_MAX: int := 0x7FFF_FFFF_FFFF_FFFF

  type GoInt = n: int | -INT_MAX - 1 <= n <= INT_MAX

  // ---------------------------------------------------------------- searching

  function Index(s: string, c: char): (i: int)
    ensures -1 <= i < |s|
    ensures i == -1 ==> forall k :: 0 <= k < |s| ==> s[k] != c
    ensures i >= 0 ==> s[i] == c && forall k :: 0 <= k < i ==> s[k] != c
  {
    if s == "" then -1
    else if s[0] == c then 0
    else
      var i := Index(s[1..], c);
      if i < 0 then -1 else i + 1
  }

  function LastIndex(s: string, c: char): (i: int)
    ensures -1 <= i < |s|
    ensures i == -1 ==> forall k :: 0 <= k < |s| ==> s[k] != c
    ensures i >= 0 ==> s[i] == c && forall k :: i < k < |s| ==> s[k] != c
  {
    if s == "" then -1
    else if s[|s| - 1] == c then |s| - 1
    else LastIndex(s[..|s| - 1], c)
  }

  /** The first occurrence of a character, with the text on both sides of it. */
  lemma {:induction false} FirstAt(a: string, c: char, b: string)
    requires c !in a
    ensures var s := a + [c] + b;
            Index(s, c) == |a| && s[..|a|] == a && s[|a| + 1..] == b
  {
    var s := a + [c] + b;
    assert s[|a|] == c;
    assert forall k :: 0 <= k < |a| ==> s[k] == a[k];
  }

  /** The last occurrence of a character, with the text on both sides of it. */
  lemma {:induction false} LastAt(a: string, c: char, b: string)
    requires c !in b
    ensures var s := a + [c] + b;
            LastIndex(s, c) == |a| && s[..|a|] == a && s[|a| + 1..] == b
  {
    var s := a + [c] + b;
    assert s[|a|] == c;
    assert forall k :: |a| < k < |s| ==> s[k] == b[k - |a| - 1];
  }

  // ---------------------------------------------------------------- sequences

  function Map<A, B>(f: A -> B, s: seq<A>): (r: seq<B>)
    ensures |r| == |s|
    ensures forall i :: 0 <= i < |s| ==> r[i] == f(s[i])
  {
    if s == [] then [] else Map(f, s[..|s| - 1]) + [f(s[|s| - 1])]
  }

  /** One more element of a prefix, as a loop over a slice takes it. */
  lemma PrefixSnoc<T>(s: seq<T>, i: nat)
    requires i < |s|
    ensures s[..i + 1] == s[..i] + [s[i]]
    ensures s[..|s|] == s
  {
  }

  lemma Regroup<T>(a: seq<T>, b: seq<T>, c: seq<T>)
    ensures a + (b + c) == a + b + c
  {
  }

  function Flatten<T>(parts: seq<seq<T>>): seq<T> {
    if parts == [] then [] else Flatten(parts[..|parts| - 1]) + parts[|parts| - 1]
  }

  lemma {:induction false} FlattenAll<T>(parts: seq<seq<T>>, p: T -> bool)
    requires forall i, k :: 0 <= i < |parts| && 0 <= k < |parts[i]| ==> p(parts[i][k])
    ensures forall k :: 0 <= k < |Flatten(parts)| ==> p(Flatten(parts)[k])
  {
    if parts != [] {
      FlattenAll(parts[..|parts| - 1], p);
    }
  }

  lemma MapSnoc<A, B>(f: A -> B, s: seq<A>, x: A)
    ensures Map(f, s + [x]) == Map(f, s) + [f(x)]
  {
    assert (s + [x])[..|s|] == s;
  }

  lemma {:induction false} MapConcat<A, B>(f: A -> B, s: seq<A>, t: seq<A>)
    ensures Map(f, s + t) == Map(f, s) + Map(f, t)
  {
    var r := Map(f, s + t);
    assert forall i :: 0 <= i < |s| ==> r[i] == f((s + t)[i]) == f(s[i]);
  }

  /** Applies a partial function to every element and drops the elements it refuses. */
  function FilterMap<A, B>(f: A -> Option<B>, s: seq<A>): (r: seq<B>)
    ensures |r| <= |s|
  {
    if s == [] then []
    else
      var x := f(s[|s| - 1]);
      FilterMap(f, s[..|s| - 1]) + if x.Some? then [x.value] else []
  }

  lemma FilterMapSnoc<A, B>(f: A -> Option<B>, s: seq<A>, x: A)
    ensures FilterMap(f, s + [x]) == FilterMap(f, s) + if f(x).Some? then [f(x).value] else []
  {
    assert (s + [x])[..|s|] == s;
  }

  lemma {:induction false} FilterMapConcat<A, B>(f: A -> Option<B>, s: seq<A>, t: seq<A>)
    ensures FilterMap(f, s + t) == FilterMap(f, s) + FilterMap(f, t)
  {
    if t == [] {
      assert s + t == s;
    } else {
      var init, x := t[..|t| - 1], t[|t| - 1];
      assert s + t == (s + init) + [x] && t == init + [x];
      FilterMapConcat(f, s, init);
      FilterMapSnoc(f, s + init, x);
      FilterMapSnoc(f, init, x);
    }
  }

  /** Nothing is dropped exactly when the function accepts every element. */
  lemma {:induction false} FilterMapAll<A, B>(f: A -> Option<B>, s: seq<A>, r: seq<B>)
    requires |s| == |r|
    ensures FilterMap(f, s) == r <==> forall i :: 0 <= i < |s| ==> f(s[i]) == Some(r[i])
  {
    if s != [] {
      var n := |s| - 1;
      var s', r' := s[..n], r[..n];
      assert s == s' + [s[n]] && r == r' + [r[n]];
      FilterMapAll(f, s', r');
      FilterMapSnoc(f, s', s[n]);
      var q := FilterMap(f, s');
      if f(s[n]).Some? {
        SnocEqual(q, f(s[n]).value, r', r[n]);
      }
      assert (forall i :: 0 <= i < |s| ==> f(s[i]) == Some(r[i]))
        <==> (forall i :: 0 <= i < n ==> f(s'[i]) == Some(r'[i])) && f(s[n]) == Some(r[n]);
    }
  }

  lemma SnocEqual<T>(a: seq<T>, x: T, b: seq<T>, y: T)
    ensures a + [x] == b + [y] <==> a == b && x == y
  {
    if a + [x] == b + [y] {
      assert |a + [x]| == |b + [y]|;
      assert a == (a + [x])[..|a|];
      assert (a + [x])[|a|] == (b + [y])[|a|];
    }
  }

  lemma {:induction false} FilterMapMembers<A, B>(f: A -> Option<B>, s: seq<A>, y: B)
    ensures y in FilterMap(f, s) <==> exists i :: 0 <= i < |s| && f(s[i]) == Some(y)
  {
    if s != [] {
      var n := |s| - 1;
      var init := s[..n];
      FilterMapMembers(f, init, y);
      if y in FilterMap(f, init) {
        var i :| 0 <= i < n && f(init[i]) == Some(y);
        assert s[i] == init[i];
      }
      if i :| 0 <= i < |s| && f(s[i]) == Some(y) {
        assert i < n ==> init[i] == s[i];
      }
    }
  }

  // ---------------------------------------------------------- splitting, joining

  function Split(s: string, sep: char): (parts: seq<string>)
    ensures |parts| >= 1
    decreases |s|
  {
    var i := Index(s, sep);
    if i < 0 then [s] else [s[..i]] + Split(s[i + 1..], sep)
  }

  function Join(parts: seq<string>, sep: char): string {
    if parts == [] then ""
    else if |parts| == 1 then parts[0]
    else parts[0] + [sep] + Join(parts[1..], sep)
  }

  /** No part holds the separator. */
  lemma {:induction false} SplitParts(s: string, sep: char, k: nat)
    requires k < |Split(s, sep)|
    ensures sep !in Split(s, sep)[k]
    decreases |s|
  {
    var i := Index(s, sep);
    if i >= 0 && k > 0 {
      SplitParts(s[i + 1..], sep, k - 1);
    }
  }

  lemma SplitFirst(a: string, rest: string, sep: char)
    requires sep !in a
    ensures Split(a + [sep] + rest, sep) == [a] + Split(rest, sep)
  {
    FirstAt(a, sep, rest);
  }

  /** Splitting distributes over a separator, whatever stands on either side of it. */
  lemma {:induction false} SplitConcat(a: string, b: string, sep: char)
    ensures Split(a + [sep] + b, sep) == Split(a, sep) + Split(b, sep)
    decreases |a|
  {
    var i := Index(a, sep);
    if i < 0 {
      SplitFirst(a, b, sep);
    } else {
      var a0, a1 := a[..i], a[i + 1..];
      assert a == a0 + [sep] + a1;
      Regroup(a0 + [sep], a1 + [sep], b);
      Regroup(a0 + [sep], a1, [sep]);
      SplitFirst(a0, a1, sep);
      SplitFirst(a0, a1 + [sep] + b, sep);
      SplitConcat(a1, b, sep);
      Regroup([a0], Split(a1, sep), Split(b, sep));
    }
  }

  lemma SplitWhole(s: string, sep: char)
    requires sep !in s
    ensures Split(s, sep) == [s]
  {
  }

  lemma SplitNested(a: string, b: string, c: string, sep: char)
    requires sep !in a && sep !in b && sep !in c
    ensures Split(a + [sep] + (b + [sep] + c), sep) == [a, b, c]
  {
    SplitConcat(a, b + [sep] + c, sep);
    SplitConcat(b, c, sep);
    SplitWhole(a, sep);
    SplitWhole(b, sep);
    SplitWhole(c, sep);
  }

  lemma {:induction false} SplitJoin(parts: seq<string>, sep: char)
    requires parts != []
    requires forall p :: p in parts ==> sep !in p
    ensures Split(Join(parts, sep), sep) == parts
  {
    SplitWhole(parts[0], sep);
    if |parts| > 1 {
      var rest := parts[1..];
      SplitConcat(parts[0], Join(rest, sep), sep);
      SplitJoin(rest, sep);
      assert parts == [parts[0]] + rest;
    }
  }

  lemma {:induction false} JoinOfSplit(s: string, sep: char)
    ensures Join(Split(s, sep), sep) == s
    decreases |s|
  {
    var i := Index(s, sep);
    if i >= 0 {
      var rest := Split(s[i + 1..], sep);
      JoinOfSplit(s[i + 1..], sep);
      assert ([s[..i]] + rest)[1..] == rest;
      assert s == s[..i] + [sep] + s[i + 1..];
    }
  }

  /** Joining a list that grew by one part at its end. */
  lemma {:induction false} JoinSnoc(parts: seq<string>, p: string, sep: char)
    requires parts != []
    ensures Join(parts + [p], sep) == Join(parts, sep) + [sep] + p
  {
    if |parts| > 1 {
      assert (parts + [p])[1..] == parts[1..] + [p];
      JoinSnoc(parts[1..], p, sep);
    } else {
      assert (parts + [p])[1..] == [p];
    }
  }

  // ------------------------------------------------------------------- trimming

  /** The characters `unicode.IsSpace` reports as white space. */
  predicate IsSpace(c: char) {
    || '\t' <= c <= '\r'
    || c == ' '
    || c == '\U{0085}' || c == '\U{00A0}' || c == '\U{1680}'
    || '\U{2000}' <= c <= '\U{200A}'
    || c == '\U{2028}' || c == '\U{2029}' || c == '\U{202F}' || c == '\U{205F}' || c == '\U{3000}'
  }

  function TrimLeft(s: string): string {
    if s != "" && IsSpace(s[0]) then TrimLeft(s[1..]) else s
  }

  function TrimRight(s: string): string {
    if s != "" && IsSpace(s[|s| - 1]) then TrimRight(s[..|s| - 1]) else s
  }

  function TrimSpace(s: string): string {
    TrimRight(TrimLeft(s))
  }

  lemma {:induction false} TrimLeftKeeps(s: string, c: char)
    ensures c in TrimLeft(s) ==> c in s
    ensures c in s && !IsSpace(c) ==> c in TrimLeft(s)
    ensures TrimLeft(s) != "" ==> !IsSpace(TrimLeft(s)[0])
  {
    if s != "" && IsSpace(s[0]) {
      assert s == [s[0]] + s[1..];
      TrimLeftKeeps(s[1..], c);
    }
  }

  lemma {:induction false} TrimRightKeeps(s: string, c: char)
    ensures c in TrimRight(s) ==> c in s
    ensures c in s && !IsSpace(c) ==> c in TrimRight(s)
    ensures TrimRight(s) != "" ==> !IsSpace(TrimRight(s)[|TrimRight(s)| - 1])
    ensures TrimRight(s) != "" ==> TrimRight(s)[0] == s[0]
  {
    if s != "" && IsSpace(s[|s| - 1]) {
      assert s == s[..|s| - 1] + [s[|s| - 1]];
      TrimRightKeeps(s[..|s| - 1], c);
    }
  }

  /** Trimming drops white space only. */
  lemma TrimKeeps(s: string, c: char)
    ensures c in TrimSpace(s) ==> c in s
    ensures c in s && !IsSpace(c) ==> c in TrimSpace(s)
  {
    TrimLeftKeeps(s, c);
    TrimRightKeeps(TrimLeft(s), c);
  }

  lemma TrimFixed(s: string)
    requires s != "" ==> !IsSpace(s[0]) && !IsSpace(s[|s| - 1])
    ensures TrimSpace(s) == s
  {
  }

  lemma TrimTwice(s: string)
    ensures TrimSpace(TrimSpace(s)) == TrimSpace(s)
  {
    TrimLeftKeeps(s, ' ');
    TrimRightKeeps(TrimLeft(s), ' ');
    TrimFixed(TrimSpace(s));
  }

  /** The white-space separated words of a line, as `strings.Fields` returns them. */
  function Fields(s: string): seq<string>
    decreases |s|
  {
    if s == "" then []
    else if IsSpace(s[0]) then Fields(s[1..])
    else
      var n := WordLength(s);
      [s[..n]] + Fields(s[n..])
  }

  function WordLength(s: string): (n: nat)
    ensures n <= |s|
    ensures s != "" && !IsSpace(s[0]) ==> n > 0
    ensures forall k :: 0 <= k < n ==> !IsSpace(s[k])
    ensures n < |s| ==> IsSpace(s[n])
  {
    if s == "" || IsSpace(s[0]) then 0 else 1 + WordLength(s[1..])
  }

  /** A word of printable characters. */
  predicate IsWord(s: string) {
    s != "" && forall k :: 0 <= k < |s| ==> !IsSpace(s[k])
  }

  lemma {:induction false} WordLengthIs(w: string, t: string)
    requires forall k :: 0 <= k < |w| ==> !IsSpace(w[k])
    requires t != "" ==> IsSpace(t[0])
    ensures WordLength(w + t) == |w|
  {
    if w == "" {
      assert w + t == t;
    } else {
      assert (w + t)[1..] == w[1..] + t;
      WordLengthIs(w[1..], t);
    }
  }

  lemma FieldsWord(w: string, t: string)
    requires IsWord(w)
    ensures Fields(w + " " + t) == [w] + Fields(t)
    ensures Fields(w) == [w]
  {
    var s := w + " " + t;
    assert s == w + (" " + t);
    WordLengthIs(w, " " + t);
    assert s[..|w|] == w && s[|w|..] == " " + t;
    assert (" " + t)[1..] == t;
    assert w + "" == w;
    WordLengthIs(w, "");
    assert w[..|w|] == w && w[|w|..] == "";
  }

  /** The words of two texts with a space in between. */
  lemma {:induction false} FieldsConcat(a: string, b: string)
    ensures Fields(a + " " + b) == Fields(a) + Fields(b)
    decreases |a|
  {
    var s := a + " " + b;
    if a == "" {
      assert s[1..] == b;
    } else if IsSpace(a[0]) {
      assert s[1..] == a[1..] + " " + b;
      FieldsConcat(a[1..], b);
    } else {
      var n := WordLength(a);
      var rest := a[n..] + " " + b;
      assert s == a[..n] + rest && a == a[..n] + a[n..];
      WordLengthIs(a[..n], rest);
      assert s[..n] == a[..n] && s[n..] == rest;
      FieldsConcat(a[n..], b);
      Regroup([a[..n]], Fields(a[n..]), Fields(b));
    }
  }

  lemma WordAfter(a: string, w: string)
    requires IsWord(w)
    ensures Fields(a + " " + w) == Fields(a) + [w]
  {
    FieldsConcat(a, w);
    FieldsWord(w, "");
  }

  // --------------------------------------------------------------------- casing

  function LowerChar(c: char): char {
    if 'A' <= c <= 'Z' then c - 'A' + 'a' else c
  }

  /**
   Lower-casing of ASCII letters. The program compares the result with "tcp" and
   "udp" only, and no other letter lower-cases to one of theirs.
   */
  function ToLower(s: string): (r: string)
    ensures |r| == |s|
    ensures forall k :: 0 <= k < |s| ==> r[k] == LowerChar(s[k])
  {
    if s == "" then "" else [LowerChar(s[0])] + ToLower(s[1..])
  }

  lemma LowerKeeps(s: string, c: char)
    requires !('A' <= c <= 'Z') && !('a' <= c <= 'z')
    ensures c in ToLower(s) <==> c in s
  {
    if c in s {
      var k :| 0 <= k < |s| && s[k] == c;
      assert ToLower(s)[k] == c;
    }
    if c in ToLower(s) {
      var k :| 0 <= k < |s| && ToLower(s)[k] == c;
      assert s[k] == c;
    }
  }

  // -------------------------------------------------------------------- numbers

  /** The value of a digit in any base up to 16, or 16 for another character. */
  function DigitValue(c: char): (v: nat)
    ensures v <= 16
  {
    if '0' <= c <= '9' then (c - '0') as nat
    else if 'a' <= c <= 'f' then (c - 'a') as nat + 10
    else if 'A' <= c <= 'F' then (c - 'A') as nat + 10
    else 16
  }

  /** The digit the program's formatting uses; hexadecimal ones are upper case. */
  function Digit(v: nat): (c: char)
    requires v < 16
    ensures DigitValue(c) == v && !IsSpace(c) && c != ':'
  {
    if v < 10 then '0' + v as char else 'A' + (v - 10) as char
  }

  function DigitsValue(s: string, base: nat): (v: Option<nat>) {
    if s == "" then Some(0)
    else
      var d := DigitValue(s[|s| - 1]);
      match DigitsValue(s[..|s| - 1], base)
      case None => None
      case Some(v) => if d < base then Some(v * base + d) else None
  }

  /** `strconv.ParseInt`: an optional sign, at least one digit, and a bounded value. */
  function ParseInt(s: string, base: nat, min: int, max: int): Option<int> {
    var signed := s != "" && (s[0] == '+' || s[0] == '-');
    var digits := if signed then s[1..] else s;
    if digits == "" then None
    else
      match DigitsValue(digits, base)
      case None => None
      case Some(v) =>
        var n: int := if signed && s[0] == '-' then 0 - v else v;
        if min <= n <= max then Some(n) else None
  }

  function Atoi(s: string): Option<GoInt> {
    match ParseInt(s, 10, -INT_MAX - 1, INT_MAX)
    case None => None
    case Some(n) => if -INT_MAX - 1 <= n <= INT_MAX then Some(n) else None
  }

  function NatText(n: nat): (s: string)
    ensures s != "" && forall k :: 0 <= k < |s| ==> '0' <= s[k] <= '9'
  {
    if n < 10 then [Digit(n)] else NatText(n / 10) + [Digit(n % 10)]
  }

  function Itoa(n: int): (s: string)
    ensures s != "" && forall k :: 0 <= k < |s| ==> '0' <= s[k] <= '9' || s[k] == '-'
  {
    if n < 0 then "-" + NatText(-n) else NatText(n)
  }

  lemma {:induction false} NatTextValue(n: nat)
    ensures DigitsValue(NatText(n), 10) == Some(n)
  {
    var s := NatText(n);
    if n < 10 {
      assert s[..0] == "";
    } else {
      NatTextValue(n / 10);
      assert s[..|s| - 1] == NatText(n / 10);
    }
  }

  /** `strconv.Atoi` reads back what `strconv.Itoa` and `%d` write. */
  lemma AtoiItoa(n: GoInt)
    ensures Atoi(Itoa(n)) == Some(n)
  {
    IntIsRead(n, -INT_MAX - 1, INT_MAX);
  }

  lemma IntIsRead(n: int, min: int, max: int)
    requires min <= n <= max
    ensures ParseInt(Itoa(n), 10, min, max) == Some(n)
  {
    if n < 0 {
      NatTextValue(-n);
      assert Itoa(n)[1..] == NatText(-n);
    } else {
      NatTextValue(n);
      assert NatText(n)[0] != '-' && NatText(n)[0] != '+';
    }
  }

  /** Any number of leading zeros. */
  predicate AreZeros(s: string) {
    forall k :: 0 <= k < |s| ==> s[k] == '0'
  }

  function Magnitude(n: int): nat {
    if n < 0 then -n else n
  }

  /** A sign, leading zeros and the digits of the number itself, each of them spelled out. */
  predicate Spells(s: string, sign: string, zeros: string, n: int) {
    && s == sign + (zeros + NatText(Magnitude(n)))
    && AreZeros(zeros)
    && ((n >= 0 && (sign == "" || sign == "+")) || (n <= 0 && sign == "-"))
  }

  /** A decimal numeral of the number, with an optional sign and any leading zeros. */
  ghost predicate Numeral(s: string, n: int) {
    exists sign, zeros :: Spells(s, sign, zeros, n)
  }

  /** `strconv.Atoi` accepts exactly the numerals of 64-bit integers. */
  lemma AtoiForms(s: string, n: GoInt)
    ensures Atoi(s) == Some(n) <==> Numeral(s, n)
  {
    if Atoi(s) == Some(n) {
      ReadIsNumeral(s, n);
    }
    if sign, zeros :| Spells(s, sign, zeros, n) {
      NumeralIsRead(s, sign, zeros, n);
    }
  }

  lemma ReadIsNumeral(s: string, n: GoInt)
    requires Atoi(s) == Some(n)
    ensures Numeral(s, n)
  {
    var signed := s != "" && (s[0] == '+' || s[0] == '-');
    var sign, digits := if signed then s[..1] else "", if signed then s[1..] else s;
    var zeros := DigitsAreNumeral(digits, Magnitude(n));
    assert s == sign + digits;
    assert Spells(s, sign, zeros, n);
  }

  lemma NumeralIsRead(s: string, sign: string, zeros: string, n: GoInt)
    requires Spells(s, sign, zeros, n)
    ensures Atoi(s) == Some(n)
  {
    var digits := zeros + NatText(Magnitude(n));
    assert forall k :: 0 <= k < |digits| ==> '0' <= digits[k] <= '9';
    NumeralParts(s, sign, digits);
    NumeralValue(zeros, Magnitude(n));
    SignIsRead(s, sign, digits, n);
  }

  lemma SignIsRead(s: string, sign: string, digits: string, n: GoInt)
    requires digits != "" && DigitsValue(digits, 10) == Some(Magnitude(n))
    requires (n >= 0 && (sign == "" || sign == "+")) || (n <= 0 && sign == "-")
    requires sign == "" ==> s == digits && s[0] != '+' && s[0] != '-'
    requires sign != "" ==> s != "" && s[0] == sign[0] && s[1..] == digits
    ensures Atoi(s) == Some(n)
  {
  }

  /** The sign is not taken for a digit, nor a digit for a sign. */
  lemma NumeralParts(s: string, sign: string, digits: string)
    requires s == sign + digits && (sign == "" || sign == "+" || sign == "-")
    requires digits != "" && forall k :: 0 <= k < |digits| ==> '0' <= digits[k] <= '9'
    ensures sign == "" ==> s == digits && s[0] != '+' && s[0] != '-'
    ensures sign != "" ==> s != "" && s[0] == sign[0] && s[1..] == digits
  {
    if sign == "" {
      assert s == digits && s[0] == digits[0];
    }
  }

  lemma {:induction false} DigitsAreNumeral(d: string, v: nat) returns (zeros: string)
    requires d != "" && DigitsValue(d, 10) == Some(v)
    ensures AreZeros(zeros) && d == zeros + NatText(v)
  {
    var init, c := d[..|d| - 1], d[|d| - 1];
    assert d == init + [c];
    LastDigit(c);
    if init == "" {
      zeros := "";
      assert d == [c];
    } else {
      var u := DigitsValue(init, 10).value;
      zeros := DigitsAreNumeral(init, u);
      if u == 0 {
        assert NatText(0) == [Digit(0)];
        zeros := zeros + "0";
        assert zeros + NatText(v) == d;
      } else {
        assert v / 10 == u && v % 10 == DigitValue(c);
        assert NatText(v) == NatText(u) + [c];
      }
    }
  }

  lemma LastDigit(c: char)
    ensures DigitValue(c) < 10 ==> Digit(DigitValue(c)) == c
  {
  }

  lemma {:induction false} NumeralValue(zeros: string, v: nat)
    requires AreZeros(zeros)
    ensures DigitsValue(zeros + NatText(v), 10) == Some(v)
  {
    ZerosValue(zeros);
    NatTextValue(v);
    DigitsAfterZeros(zeros, NatText(v));
  }

  lemma {:induction false} ZerosValue(zeros: string)
    requires AreZeros(zeros)
    ensures DigitsValue(zeros, 10) == Some(0)
  {
    if zeros != "" {
      ZerosValue(zeros[..|zeros| - 1]);
    }
  }

  lemma {:induction false} DigitsAfterZeros(zeros: string, t: string)
    requires DigitsValue(zeros, 10) == Some(0)
    ensures DigitsValue(zeros + t, 10) == DigitsValue(t, 10)
  {
    if t == "" {
      assert zeros + t == zeros;
    } else {
      assert (zeros + t)[..|zeros + t| - 1] == zeros + t[..|t| - 1];
      DigitsAfterZeros(zeros, t[..|t| - 1]);
    }
  }

  lemma ItoaPlain(n: int, c: char)
    requires c != '-' && !('0' <= c <= '9')
    ensures c !in Itoa(n)
  {
  }

  /** `strings.TrimPrefix(name, "/")`. */
  function TrimSlash(name: string): string {
    if name != "" && name[0] == '/' then name[1..] else name
  }
}
