/**
 * The parts of Rust's string library that `load` depends on, stated
 * exactly: `char::is_whitespace`, `str::split` with a character pattern,
 * `str::split_whitespace` and `usize::from_str` on a 64-bit target.
 */
module Text {
  import opened Wrappers

  /** `char::is_whitespace`: the characters with the Unicode White_Space property. */
  predicate IsWhitespace(c: char) {
    ('\t' <= c <= '\r') || c == ' ' || c == '\U{85}' || c == '\U{A0}' || c == '\U{1680}'
    || ('\U{2000}' <= c <= '\U{200A}') || c == '\U{2028}' || c == '\U{2029}'
    || c == '\U{202F}' || c == '\U{205F}' || c == '\U{3000}'
  }

  /** The pattern `'/'` used to split a face token into its index fields. */
  predicate IsSlash(c: char) {
    c == '/'
  }

  /** No character of `t` is a separator. */
  predicate NoSep(t: string, isSep: char -> bool) {
    forall c :: c in t ==> !isSep(c)
  }

  /** How many characters of `s` are separators. */
  function SepCount(s: string, isSep: char -> bool): nat {
    if s == [] then 0 else (if isSep(s[0]) then 1 else 0) + SepCount(s[1..], isSep)
  }

  /**
   * `str::split` with a character pattern: the pieces between consecutive
   * separators, empty pieces kept, so there is always one piece more than
   * there are separators and no piece holds a separator.
   */
  function Split(s: string, isSep: char -> bool): (pieces: seq<string>)
    ensures |pieces| >= 1
    ensures forall p :: p in pieces ==> NoSep(p, isSep)
  {
    if s == [] then [[]]
    else
      var rest := Split(s[1..], isSep);
      if isSep(s[0]) then [[]] + rest
      else
        assert rest[0] in rest;
        assert forall c :: c in [s[0]] + rest[0] ==> c == s[0] || c in rest[0];
        [[s[0]] + rest[0]] + rest[1..]
  }

  /** There is one piece more than there are separators. */
  lemma {:induction false} SplitCount(s: string, isSep: char -> bool)
    ensures |Split(s, isSep)| == SepCount(s, isSep) + 1
  {
    if s != [] {
      SplitCount(s[1..], isSep);
    }
  }

  /** Puts the pieces back together with `sep` between consecutive ones. */
  function Join(pieces: seq<string>, sep: char): string
    requires |pieces| >= 1
  {
    if |pieces| == 1 then pieces[0] else pieces[0] + [sep] + Join(pieces[1..], sep)
  }

  /** Splitting on a single character and joining on it again gives back the string. */
  lemma {:induction false} JoinSplit(s: string, isSep: char -> bool, sep: char)
    requires forall c :: isSep(c) <==> c == sep
    ensures Join(Split(s, isSep), sep) == s
  {
    if s != [] {
      JoinSplit(s[1..], isSep, sep);
      var rest := Split(s[1..], isSep);
      if isSep(s[0]) {
        assert Split(s, isSep) == [[]] + rest;
        assert ([[]] + rest)[1..] == rest;
        assert s == [sep] + s[1..];
      } else {
        var pieces := Split(s, isSep);
        assert pieces == [[s[0]] + rest[0]] + rest[1..];
        if |rest| == 1 {
          assert s == [s[0]] + rest[0];
        } else {
          assert pieces[1..] == rest[1..];
          assert Join(rest, sep) == rest[0] + [sep] + Join(rest[1..], sep);
          assert s == [s[0]] + s[1..];
        }
      }
    }
  }

  /** Splitting `a + [sep] + b`, where `a` holds no separator, gives `a` followed by the pieces of `b`. */
  lemma {:induction false} SplitAfterSep(a: string, x: char, b: string, isSep: char -> bool)
    requires NoSep(a, isSep) && isSep(x)
    ensures Split(a + [x] + b, isSep) == [a] + Split(b, isSep)
  {
    var s := a + [x] + b;
    if a == [] {
      assert s[1..] == b;
    } else {
      assert s[1..] == a[1..] + [x] + b;
      SplitAfterSep(a[1..], x, b, isSep);
      assert !isSep(a[0]);
      assert [a[0]] + a[1..] == a;
    }
  }

  /** The position of the first separator in `a`, or `|a|` when there is none. */
  function SepIndex(a: string, isSep: char -> bool): (i: nat)
    ensures i <= |a| && NoSep(a[..i], isSep) && (i < |a| ==> isSep(a[i]))
  {
    if a == [] || isSep(a[0]) then 0
    else
      var i := SepIndex(a[1..], isSep);
      assert a[..i + 1] == [a[0]] + a[1..][..i];
      assert forall c :: c in a[..i + 1] ==> c == a[0] || c in a[1..][..i];
      i + 1
  }

  /** A separator splits the string in two: the pieces of `a`, then the pieces of `b`. */
  lemma {:induction false} SplitAtSep(a: string, x: char, b: string, isSep: char -> bool)
    requires isSep(x)
    ensures Split(a + [x] + b, isSep) == Split(a, isSep) + Split(b, isSep)
    decreases |a|
  {
    var i := SepIndex(a, isSep);
    var front := a[..i];
    if i == |a| {
      assert front == a;
      SplitAfterSep(a, x, b, isSep);
      SplitNoSep(a, isSep);
    } else {
      var y := a[i];
      var back := a[i + 1..];
      assert a == front + [y] + back;
      SplitAtSep(back, x, b, isSep);
      SplitAtFirstSep(front, y, back, x, b, isSep);
    }
  }

  /** The step of `SplitAtSep`: `a` is `front + [y] + back` with `y` its first separator. */
  lemma SplitAtFirstSep(front: string, y: char, back: string, x: char, b: string, isSep: char -> bool)
    requires NoSep(front, isSep) && isSep(y)
    requires Split(back + [x] + b, isSep) == Split(back, isSep) + Split(b, isSep)
    ensures Split(front + [y] + back + [x] + b, isSep) == Split(front + [y] + back, isSep) + Split(b, isSep)
  {
    var pieces := Split(back, isSep);
    var after := Split(b, isSep);
    calc {
      Split(front + [y] + back + [x] + b, isSep);
      { assert front + [y] + back + [x] + b == front + [y] + (back + [x] + b); }
      Split(front + [y] + (back + [x] + b), isSep);
      { SplitAfterSep(front, y, back + [x] + b, isSep); }
      [front] + (pieces + after);
      ([front] + pieces) + after;
      { SplitAfterSep(front, y, back, isSep); }
      Split(front + [y] + back, isSep) + after;
    }
  }

  /** A string without separators is a single piece. */
  lemma {:induction false} SplitNoSep(a: string, isSep: char -> bool)
    requires NoSep(a, isSep)
    ensures Split(a, isSep) == [a]
  {
    if a != [] {
      assert a[0] in a;
      assert forall c :: c in a[1..] ==> c in a;
      SplitNoSep(a[1..], isSep);
      assert [a[0]] + a[1..] == a;
    }
  }

  /** The non-empty pieces, in order. */
  function NonEmpty(pieces: seq<string>): (r: seq<string>)
    ensures forall w :: w in r ==> w in pieces && w != []
  {
    if pieces == [] then []
    else (if pieces[0] == [] then [] else [pieces[0]]) + NonEmpty(pieces[1..])
  }

  /** `str::split_whitespace`: the maximal runs of non-whitespace characters. */
  function Words(s: string): (words: seq<string>)
    ensures forall w :: w in words ==> w != [] && NoSep(w, IsWhitespace)
  {
    NonEmpty(Split(s, IsWhitespace))
  }

  lemma {:induction false} NonEmptyAppend(p: seq<string>, q: seq<string>)
    ensures NonEmpty(p + q) == NonEmpty(p) + NonEmpty(q)
  {
    if p == [] {
      assert p + q == q;
    } else {
      assert (p + q)[0] == p[0];
      assert (p + q)[1..] == p[1..] + q;
      NonEmptyAppend(p[1..], q);
    }
  }

  /** A non-empty run of characters that are not whitespace is one word. */
  lemma OneWord(a: string)
    requires a != [] && NoSep(a, IsWhitespace)
    ensures Words(a) == [a]
  {
    var isSep: char -> bool := IsWhitespace;
    assert NoSep(a, isSep);
    SplitNoSep(a, isSep);
    assert Split(a, IsWhitespace) == [a];
    assert [a][1..] == [] && NonEmpty([]) == [];
    assert NonEmpty([a]) == [a] + NonEmpty([a][1..]);
  }

  /**
   * A whitespace character separates words: the words of `a`, then those of
   * `b`. With `OneWord` and `NoWords` this fixes `Words` on every string.
   */
  lemma WordsAtSpace(a: string, c: char, b: string)
    requires IsWhitespace(c)
    ensures Words(a + [c] + b) == Words(a) + Words(b)
  {
    var isSep: char -> bool := IsWhitespace;
    SplitAtSep(a, c, b, isSep);
    NonEmptyAppend(Split(a, isSep), Split(b, isSep));
  }

  predicate AllEmpty(pieces: seq<string>) {
    forall p :: p in pieces ==> p == []
  }

  lemma {:induction false} NonEmptyNil(pieces: seq<string>)
    ensures NonEmpty(pieces) == [] <==> AllEmpty(pieces)
  {
    if pieces != [] {
      NonEmptyNil(pieces[1..]);
      var head := if pieces[0] == [] then [] else [pieces[0]];
      assert NonEmpty(pieces) == head + NonEmpty(pieces[1..]);
      if pieces[0] != [] {
        assert pieces[0] in pieces;
      } else {
        forall p | p in pieces[1..] ensures p in pieces {
          var k :| 0 <= k < |pieces[1..]| && pieces[1..][k] == p;
          assert pieces[k + 1] == p;
        }
        forall p | p in pieces ensures p == [] || p in pieces[1..] {
          var k :| 0 <= k < |pieces| && pieces[k] == p;
          if k > 0 { assert pieces[1..][k - 1] == p; }
        }
      }
    }
  }

  lemma {:induction false} SplitAllEmpty(s: string, isSep: char -> bool)
    ensures AllEmpty(Split(s, isSep)) <==> (forall c :: c in s ==> isSep(c))
  {
    if s != [] {
      SplitAllEmpty(s[1..], isSep);
      var rest := Split(s[1..], isSep);
      assert s == [s[0]] + s[1..];
      assert forall c :: c in s <==> c == s[0] || c in s[1..];
      if isSep(s[0]) {
        assert Split(s, isSep) == [[]] + rest;
        assert forall p :: p in Split(s, isSep) <==> p == [] || p in rest;
      } else {
        assert Split(s, isSep)[0] == [s[0]] + rest[0];
        assert Split(s, isSep)[0] in Split(s, isSep);
      }
    }
  }

  /** A string has no words exactly when every character of it is whitespace. */
  lemma NoWords(s: string)
    ensures Words(s) == [] <==> forall c :: c in s ==> IsWhitespace(c)
  {
    var isSep: char -> bool := IsWhitespace;
    var pieces := Split(s, isSep);
    NonEmptyNil(pieces);
    SplitAllEmpty(s, isSep);
    assert (forall c :: c in s ==> IsWhitespace(c)) <==> (forall c :: c in s ==> isSep(c));

  }

  /** The largest value of `usize` on a 64-bit target. */
  const UsizeMax: nat := 0xFFFF_FFFF_FFFF_FFFF

  predicate IsDigit(c: char) {
    '0' <= c <= '9'
  }

  predicate AllDigits(s: string) {
    forall c :: c in s ==> IsDigit(c)
  }

  /** The number a string of decimal digits denotes, most significant digit first. */
  function DigitsValue(d: string): nat
    requires AllDigits(d)
  {
    if d == [] then 0
    else
      assert d[|d| - 1] in d;
      DigitsValue(d[..|d| - 1]) * 10 + (d[|d| - 1] as int - '0' as int)
  }

  /**
   * `usize::from_str`: an optional leading `+` followed by one or more
   * decimal digits whose value fits in a `usize`; anything else (the empty
   * string, a lone `+`, a `-`, any other character, an overflow) fails.
   */
  function ParseUsize(s: string): (r: Option<nat>)
    ensures r.Some? ==> r.value <= UsizeMax
    ensures r.Some? ==> s != [] && s != "+"
  {
    var digits := if |s| > 0 && s[0] == '+' then s[1..] else s;
    if digits == [] || !AllDigits(digits) then None
    else
      var n := DigitsValue(digits);
      if n <= UsizeMax then Some(n) else None
  }

  /** The decimal rendering of `n`, without sign or leading zeros. */
  function Show(n: nat): (d: string)
    ensures d != [] && AllDigits(d)
  {
    if n < 10 then [('0' as int + n) as char]
    else Show(n / 10) + [('0' as int + n % 10) as char]
  }

  lemma {:induction false} ShowValue(n: nat)
    ensures DigitsValue(Show(n)) == n
  {
    var d := Show(n);
    if n < 10 {
      assert d[..0] == [];
    } else {
      ShowValue(n / 10);
      assert d[..|d| - 1] == Show(n / 10);
    }
  }

  predicate AllZeros(z: string) {
    forall c :: c in z ==> c == '0'
  }

  lemma {:induction false} ZerosValue(z: string)
    requires AllZeros(z)
    ensures AllDigits(z) && DigitsValue(z) == 0
  {
    if z != [] {
      var front := z[..|z| - 1];
      assert forall c :: c in front ==> c in z;
      ZerosValue(front);
      assert z[|z| - 1] in z;
    }
  }

  /** Leading zeros do not change the value of a decimal. */
  lemma {:induction false} LeadingZeros(z: string, d: string)
    requires AllZeros(z) && AllDigits(d)
    ensures AllDigits(z + d) && DigitsValue(z + d) == DigitsValue(d)
  {
    assert forall c :: c in z + d ==> c in z || c in d;
    if d == [] {
      assert z + d == z;
      ZerosValue(z);
    } else {
      var front := d[..|d| - 1];
      assert forall c :: c in front ==> c in d;
      LeadingZeros(z, front);
      assert (z + d)[..|z + d| - 1] == z + front;
      assert (z + d)[|z + d| - 1] == d[|d| - 1];
    }
  }

  /** The number of leading zeros of a non-empty decimal, keeping its last digit. */
  function LeadingZeroCount(d: string): (k: nat)
    requires d != []
    ensures k < |d| && AllZeros(d[..k]) && (d[k] != '0' || k == |d| - 1)
  {
    if |d| > 1 && d[0] == '0' then
      var k := LeadingZeroCount(d[1..]);
      assert d[..k + 1] == [d[0]] + d[1..][..k];
      assert forall c :: c in d[..k + 1] ==> c == d[0] || c in d[1..][..k];
      k + 1
    else 0
  }

  /** A decimal without leading zeros is the rendering of its value. */
  lemma {:induction false} Canonical(d: string)
    requires d != [] && AllDigits(d) && (d[0] != '0' || |d| == 1)
    ensures Show(DigitsValue(d)) == d
  {
    var last := |d| - 1;
    assert d[last] in d;
    if |d| == 1 {
      assert d[..last] == [];
      assert d == [d[last]];
    } else {
      var front := d[..last];
      assert forall c :: c in front ==> c in d;
      assert front[0] == d[0];
      Canonical(front);
      var v := DigitsValue(front);
      assert Show(0)[0] == '0';
      assert v >= 1;
      var n := DigitsValue(d);
      assert n == v * 10 + (d[last] as int - '0' as int);
      assert n / 10 == v && n % 10 == d[last] as int - '0' as int;
      assert d == front + [d[last]];
    }
  }

  /** An optional `+` before a non-empty run of digits: the value, if it fits. */
  lemma ParseDigits(p: string, d: string)
    requires (p == "" || p == "+") && d != [] && AllDigits(d)
    ensures ParseUsize(p + d) == if DigitsValue(d) <= UsizeMax then Some(DigitsValue(d)) else None
  {
    assert d[0] in d;
    if p == "+" {
      assert (p + d)[0] == '+' && (p + d)[1..] == d;
    } else {
      assert p + d == d;
    }
  }

  /** An optional `+` and leading zeros before the rendering of a `usize` still parse to its value. */
  lemma ParsePadded(p: string, z: string, n: nat)
    requires (p == "" || p == "+") && AllZeros(z) && n <= UsizeMax
    ensures ParseUsize(p + z + Show(n)) == Some(n)
  {
    ShowValue(n);
    LeadingZeros(z, Show(n));
    ParseDigits(p, z + Show(n));
    assert p + z + Show(n) == p + (z + Show(n));
  }

  /** A non-empty decimal is leading zeros followed by the rendering of its value. */
  lemma DigitsForm(d: string) returns (z: string)
    requires d != [] && AllDigits(d)
    ensures AllZeros(z) && d == z + Show(DigitsValue(d))
  {
    var k := LeadingZeroCount(d);
    z := d[..k];
    var rest := d[k..];
    assert d == z + rest;
    assert AllDigits(rest) by {
      forall c | c in rest ensures IsDigit(c) {
        var i :| 0 <= i < |rest| && rest[i] == c;
        assert d[k + i] == c;
      }
    }
    LeadingZeros(z, rest);
    Canonical(rest);
  }

  /** Whatever parses is an optional `+` and then a non-empty run of digits, whose value is the result. */
  lemma SignAndDigits(s: string) returns (p: string, digits: string)
    requires ParseUsize(s).Some?
    ensures (p == "" || p == "+") && s == p + digits
    ensures digits != [] && AllDigits(digits) && ParseUsize(s) == Some(DigitsValue(digits))
  {
    if |s| > 0 && s[0] == '+' {
      p, digits := "+", s[1..];
    } else {
      p, digits := "", s;
    }
    assert s == p + digits;
  }

  /** Whatever parses is an optional `+`, leading zeros and the rendering of the value. */
  lemma ParsedForm(s: string) returns (p: string, z: string)
    requires ParseUsize(s).Some?
    ensures (p == "" || p == "+") && AllZeros(z) && s == p + z + Show(ParseUsize(s).value)
  {
    var digits;
    p, digits := SignAndDigits(s);
    z := DigitsForm(digits);
    assert p + z + Show(DigitsValue(digits)) == p + (z + Show(DigitsValue(digits)));
  }

  /**
   * `usize::from_str` accepts exactly an optional `+`, any number of
   * leading zeros and then the decimal rendering of a value that fits in a
   * `usize`, and returns that value. Every other string is rejected: the
   * empty string, a lone `+`, a `-` or any other character that is not a
   * digit, and every value past 2^64-1.
   */
  lemma ParseUsizeExactly(s: string, n: nat)
    ensures ParseUsize(s) == Some(n) <==>
      n <= UsizeMax && exists p: string, z: string :: (p == "" || p == "+") && AllZeros(z) && s == p + z + Show(n)
  {
    if ParseUsize(s) == Some(n) {
      var p, z := ParsedForm(s);
    }
    if n <= UsizeMax && exists p: string, z: string :: (p == "" || p == "+") && AllZeros(z) && s == p + z + Show(n) {
      var p: string, z: string :| (p == "" || p == "+") && AllZeros(z) && s == p + z + Show(n);
      ParsePadded(p, z, n);
    }
  }

  /** A value past 2^64-1 does not parse. */
  lemma ParseOverflow(n: nat)
    requires n > UsizeMax
    ensures ParseUsize(Show(n)) == None
  {
    ShowValue(n);
    assert Show(n)[0] in Show(n);
  }

  /** Every `usize` printed in decimal reads back as itself. */
  lemma ParseShow(n: nat)
    requires n <= UsizeMax
    ensures ParseUsize(Show(n)) == Some(n)
  {
    ShowValue(n);
    assert Show(n)[0] in Show(n);
  }
}
