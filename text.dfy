/**
 * The string primitives the UI code leans on: the whitespace class shared by
 * `String.prototype.trim` and the regular-expression escape `\s`, trimming,
 * ASCII lower-casing, `split` on one character, `join`, `includes` and the
 * decimal rendering `String(n)` of an integer.
 */
module Text {

  /** ECMAScript WhiteSpace and LineTerminator code points (what `trim` strips and `\s` matches). */
  predicate IsWhitespace(c: char) {
    var n := c as int;
    (9 <= n <= 13) || n == 32 || n == 0xA0 || n == 0x1680 || (0x2000 <= n <= 0x200A)
    || n == 0x2028 || n == 0x2029 || n == 0x202F || n == 0x205F || n == 0x3000 || n == 0xFEFF
  }

  predicate AllWhitespace(s: string) {
    forall i :: 0 <= i < |s| ==> IsWhitespace(s[i])
  }

  function TrimStart(s: string): (r: string)
    ensures r == [] || !IsWhitespace(r[0])
  {
    if s != [] && IsWhitespace(s[0]) then TrimStart(s[1..]) else s
  }

  function TrimEnd(s: string): (r: string)
    ensures r == [] || !IsWhitespace(r[|r| - 1])
  {
    if s != [] && IsWhitespace(s[|s| - 1]) then TrimEnd(s[..|s| - 1]) else s
  }

  /** `s.trim()`: leading and trailing whitespace removed. */
  function Trim(s: string): string {
    TrimEnd(TrimStart(s))
  }

  lemma {:induction false} TrimStartSlice(s: string)
    ensures exists i :: 0 <= i <= |s| && TrimStart(s) == s[i..] && AllWhitespace(s[..i])
  {
    if s != [] && IsWhitespace(s[0]) {
      TrimStartSlice(s[1..]);
      var i :| 0 <= i <= |s[1..]| && TrimStart(s[1..]) == s[1..][i..] && AllWhitespace(s[1..][..i]);
      assert s[1..][i..] == s[i + 1..];
      var head := s[..i + 1];
      assert AllWhitespace(head) by {
        forall k | 0 <= k < i + 1 ensures IsWhitespace(head[k]) {
          if k > 0 { assert head[k] == s[1..][..i][k - 1]; }
        }
      }
    } else {
      assert s[0..] == s;
    }
  }

  lemma {:induction false} TrimEndSlice(s: string)
    ensures exists j :: 0 <= j <= |s| && TrimEnd(s) == s[..j] && AllWhitespace(s[j..])
  {
    if s != [] && IsWhitespace(s[|s| - 1]) {
      var p := s[..|s| - 1];
      TrimEndSlice(p);
      var j :| 0 <= j <= |p| && TrimEnd(p) == p[..j] && AllWhitespace(p[j..]);
      assert p[..j] == s[..j];
      assert AllWhitespace(s[j..]) by {
        forall k | 0 <= k < |s| - j ensures IsWhitespace(s[j..][k]) {
          if k < |p| - j { assert s[j..][k] == p[j..][k]; }
        }
      }
    } else {
      assert s[..|s|] == s;
    }
  }

  /** The trimmed string is a contiguous slice of the original, with only whitespace cut off either end. */
  lemma TrimIsSlice(s: string)
    ensures exists i, j :: 0 <= i <= j <= |s| && Trim(s) == s[i..j]
                           && AllWhitespace(s[..i]) && AllWhitespace(s[j..])
  {
    TrimStartSlice(s);
    var i :| 0 <= i <= |s| && TrimStart(s) == s[i..] && AllWhitespace(s[..i]);
    var tail := s[i..];
    TrimEndSlice(tail);
    var j :| 0 <= j <= |tail| && TrimEnd(tail) == tail[..j] && AllWhitespace(tail[j..]);
    SliceOfSuffix(s, i, j);
    calc {
      Trim(s);
      TrimEnd(TrimStart(s));
      { assert TrimStart(s) == tail; }
      TrimEnd(tail);
      tail[..j];
    }
    assert AllWhitespace(s[(i + j)..]);
  }

  lemma SliceOfSuffix(s: string, i: nat, j: nat)
    requires i <= |s| && j <= |s| - i
    ensures s[i..][..j] == s[i..i + j] && s[i..][j..] == s[i + j..]
  {
  }

  /** Trimming yields the empty string exactly when every character is whitespace. */
  lemma {:induction false} TrimEmptyIffAllWhitespace(s: string)
    ensures Trim(s) == [] <==> AllWhitespace(s)
  {
    TrimIsSlice(s);
    var i, j :| 0 <= i <= j <= |s| && Trim(s) == s[i..j] && AllWhitespace(s[..i]) && AllWhitespace(s[j..]);
    if Trim(s) == [] {
      forall k | 0 <= k < |s| ensures IsWhitespace(s[k]) {
        if k < i { assert s[k] == s[..i][k]; } else { assert s[k] == s[j..][k - j]; }
      }
    } else {
      var t := Trim(s);
      assert !IsWhitespace(t[0]) by { TrimWhitespaceFree(s); }
      assert t[0] == s[i];
    }
  }

  lemma TrimWhitespaceFree(s: string)
    ensures Trim(s) == [] || (!IsWhitespace(Trim(s)[0]) && !IsWhitespace(Trim(s)[|Trim(s)| - 1]))
  {
    var a := TrimStart(s);
    TrimEndSlice(a);
    var j :| 0 <= j <= |a| && TrimEnd(a) == a[..j] && AllWhitespace(a[j..]);
    if j > 0 { assert a[..j][0] == a[0]; }
  }

  function LowerChar(c: char): char {
    if 'A' <= c <= 'Z' then (c as int + 32) as char else c
  }

  /**
   * `s.toLowerCase()` on the ASCII letters; every other character is kept.
   * The lower-case string has the same length and no ASCII capital left.
   */
  function ToLower(s: string): (r: string)
    ensures |r| == |s|
    ensures forall i :: 0 <= i < |r| ==> !('A' <= r[i] <= 'Z')
    ensures forall i :: 0 <= i < |s| && !('A' <= s[i] <= 'Z') ==> r[i] == s[i]
  {
    seq(|s|, i requires 0 <= i < |s| => LowerChar(s[i]))
  }

  /** Lower-casing twice is lower-casing once. */
  lemma ToLowerIdempotent(s: string)
    ensures ToLower(ToLower(s)) == ToLower(s)
  {
  }

  function CountChar(s: string, c: char): nat {
    if s == [] then 0 else (if s[0] == c then 1 else 0) + CountChar(s[1..], c)
  }

  /** `s.split(sep)` for a one-character separator: the pieces between separators, empty ones included. */
  function Split(s: string, sep: char): (parts: seq<string>)
    ensures |parts| >= 1
  {
    if s == [] then [""]
    else
      var rest := Split(s[1..], sep);
      if s[0] == sep then [""] + rest
      else [[s[0]] + rest[0]] + rest[1..]
  }

  /** `parts.join(sep)`. */
  function Join(parts: seq<string>, sep: string): string {
    if parts == [] then ""
    else if |parts| == 1 then parts[0]
    else parts[0] + sep + Join(parts[1..], sep)
  }

  /** Splitting on a character gives one more piece than there are occurrences of it. */
  lemma {:induction false} SplitCount(s: string, sep: char)
    ensures |Split(s, sep)| == CountChar(s, sep) + 1
  {
    if s != [] {
      SplitCount(s[1..], sep);
    }
  }

  /** No piece contains the separator. */
  lemma {:induction false} SplitPiecesFree(s: string, sep: char)
    ensures forall k :: 0 <= k < |Split(s, sep)| ==> sep !in Split(s, sep)[k]
  {
    if s != [] {
      SplitPiecesFree(s[1..], sep);
      var rest := Split(s[1..], sep);
      if s[0] != sep {
        var parts := Split(s, sep);
        forall k | 0 <= k < |parts| ensures sep !in parts[k] {
          if k == 0 {
            assert parts[0] == [s[0]] + rest[0];
          } else {
            assert parts[k] == rest[k];
          }
        }
      }
    }
  }

  /** Joining the pieces with the separator gives back the original string. */
  lemma {:induction false} SplitJoin(s: string, sep: char)
    ensures Join(Split(s, sep), [sep]) == s
  {
    if s != [] {
      SplitJoin(s[1..], sep);
      if s[0] == sep {
        JoinAfterSeparator(s, sep);
      } else {
        JoinAfterOther(s, sep);
      }
    }
  }

  lemma JoinAfterSeparator(s: string, sep: char)
    requires s != [] && s[0] == sep && Join(Split(s[1..], sep), [sep]) == s[1..]
    ensures Join(Split(s, sep), [sep]) == s
  {
    var rest := Split(s[1..], sep);
    assert ([""] + rest)[1..] == rest;
    assert Join([""] + rest, [sep]) == "" + [sep] + Join(rest, [sep]);
    assert s == [sep] + s[1..];
  }

  lemma JoinAfterOther(s: string, sep: char)
    requires s != [] && s[0] != sep && Join(Split(s[1..], sep), [sep]) == s[1..]
    ensures Join(Split(s, sep), [sep]) == s
  {
    var rest := Split(s[1..], sep);
    assert s == [s[0]] + s[1..];
    JoinExtendFirst(rest, s[0], [sep]);
  }

  /** Putting a character in front of the first piece puts it in front of the joined string. */
  lemma JoinExtendFirst(parts: seq<string>, c: char, sep: string)
    requires |parts| >= 1
    ensures Join([[c] + parts[0]] + parts[1..], sep) == [c] + Join(parts, sep)
  {
    var extended := [[c] + parts[0]] + parts[1..];
    assert extended[0] == [c] + parts[0];
    if |parts| > 1 {
      assert extended[1..] == parts[1..];
    }
  }

  predicate OccursAt(s: string, sub: string, i: nat) {
    i + |sub| <= |s| && s[i..i + |sub|] == sub
  }

  /** `s.includes(sub)`. */
  predicate Contains(s: string, sub: string) {
    exists i: nat :: i <= |s| && OccursAt(s, sub, i)
  }

  function DigitChar(d: nat): char
    requires d < 10
  {
    "0123456789"[d]
  }

  function DigitValue(c: char): nat
    requires '0' <= c <= '9'
  {
    c as int - '0' as int
  }

  /** Decimal rendering of a natural number, most significant digit first, without leading zeros. */
  function NatToString(n: nat): (r: string)
    ensures |r| >= 1
    ensures forall i :: 0 <= i < |r| ==> '0' <= r[i] <= '9'
    decreases n
  {
    if n < 10 then [DigitChar(n)] else NatToString(n / 10) + [DigitChar(n % 10)]
  }

  /** `String(n)` for an integer: decimal digits, with a leading '-' when negative. */
  function IntToString(n: int): (r: string)
    ensures |r| >= 1
  {
    if n < 0 then "-" + NatToString(-n) else NatToString(n)
  }

  /** Value of a string of decimal digits. */
  function DecimalValue(s: string): nat
    requires forall i :: 0 <= i < |s| ==> '0' <= s[i] <= '9'
  {
    if s == [] then 0 else 10 * DecimalValue(s[..|s| - 1]) + DigitValue(s[|s| - 1])
  }

  /** Reading the digits back gives the number that was rendered. */
  lemma {:induction false} NatToStringRoundTrip(n: nat)
    ensures DecimalValue(NatToString(n)) == n
    decreases n
  {
    DigitRoundTrip(n % 10);
    if n >= 10 {
      NatToStringRoundTrip(n / 10);
      var init, last := NatToString(n / 10), DigitChar(n % 10);
      SliceOfSnoc(init, last);
      assert DecimalValue(init + [last]) == 10 * DecimalValue(init) + DigitValue(last);
    }
  }

  lemma DigitRoundTrip(d: nat)
    requires d < 10
    ensures '0' <= DigitChar(d) <= '9' && DigitValue(DigitChar(d)) == d
  {
  }

  lemma SliceOfSnoc<T>(init: seq<T>, last: T)
    ensures (init + [last])[..|init|] == init && (init + [last])[|init|] == last
  {
  }

  /** Different integers are rendered differently, so a rendered id identifies its number. */
  lemma IntToStringInjective(m: int, n: int)
    requires IntToString(m) == IntToString(n)
    ensures m == n
  {
    if m < 0 && n < 0 {
      NatToStringInjective(-m, -n);
    } else if m >= 0 && n >= 0 {
      NatToStringInjective(m, n);
    } else if m < 0 {
      NatLeadsWithDigit(n);
    } else {
      NatLeadsWithDigit(m);
    }
  }

  lemma NatToStringInjective(a: nat, b: nat)
    requires NatToString(a) == NatToString(b) || "-" + NatToString(a) == "-" + NatToString(b)
    ensures a == b
  {
    var x, y := NatToString(a), NatToString(b);
    assert ("-" + x)[1..] == x;
    assert ("-" + y)[1..] == y;
    assert x == y;
    NatToStringRoundTrip(a);
    NatToStringRoundTrip(b);
  }

  lemma NatLeadsWithDigit(n: nat)
    ensures IntToString(n)[0] != '-'
  {
    var r := NatToString(n);
    assert '0' <= r[0] <= '9';
  }
}
