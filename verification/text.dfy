/** String operations of the JavaScript runtime that the pages use:
  `trim`, `split` on one character, `join`, `includes`, the first-word
  split of `/\s+/`, `toUpperCase`, `length` and decimal rendering of a
  non-negative integer.
 */
module Text {

  /** The characters `String.prototype.trim` and `\s` treat as white space
      (ECMAScript WhiteSpace and LineTerminator productions). */
  predicate IsSpace(c: char)
  {
    c == ' ' || c == '\t' || c == '\n' || c == '\r' || c == '\U{B}' || c == '\U{C}'
    || c == '\U{A0}' || c == '\U{1680}' || ('\U{2000}' <= c <= '\U{200A}')
    || c == '\U{2028}' || c == '\U{2029}' || c == '\U{202F}' || c == '\U{205F}'
    || c == '\U{3000}' || c == '\U{FEFF}'
  }

  predicate AllSpace(s: string)
  {
    forall i :: 0 <= i < |s| ==> IsSpace(s[i])
  }

  /** Neither end of `t` is white space. */
  predicate Trimmed(t: string)
  {
    t == "" || (!IsSpace(t[0]) && !IsSpace(t[|t| - 1]))
  }

  /** The number of white-space characters `s` starts with. */
  function Leading(s: string): (n: nat)
    ensures n <= |s|
    ensures AllSpace(s[..n])
    ensures n < |s| ==> !IsSpace(s[n])
  {
    if |s| == 0 || !IsSpace(s[0]) then 0
    else
      var n := 1 + Leading(s[1..]);
      assert forall k :: 1 <= k < n ==> s[..n][k] == s[1..][..n - 1][k - 1];
      n
  }

  /** `s.trimEnd()`. */
  function TrimEnd(s: string): (r: string)
    ensures |r| <= |s| && r == s[..|r|]
    ensures AllSpace(s[|r|..])
    ensures r == "" || !IsSpace(r[|r| - 1])
  {
    if |s| == 0 || !IsSpace(s[|s| - 1]) then s
    else
      var r := TrimEnd(s[..|s| - 1]);
      assert s[|r|..] == s[..|s| - 1][|r|..] + [s[|s| - 1]];
      r
  }

  /** `s.trim()`: `s` without its leading and trailing white space. */
  function Trim(s: string): (r: string)
    ensures Trimmed(r)
    ensures Leading(s) + |r| <= |s| && r == s[Leading(s)..Leading(s) + |r|]
    ensures AllSpace(s[Leading(s) + |r|..])
  {
    var n := Leading(s);
    var r := TrimEnd(s[n..]);
    assert s[n + |r|..] == s[n..][|r|..];
    r
  }

  /** A string that is already trimmed is its own trim. */
  lemma TrimOfTrimmed(t: string)
    requires Trimmed(t)
    ensures Trim(t) == t
  {
  }

  /** `Trim(s)` is empty exactly when `s` is all white space. */
  lemma TrimEmptyIff(s: string)
    ensures Trim(s) == "" <==> AllSpace(s)
  {
    var n := Leading(s);
    var r := Trim(s);
    if r == "" {
      assert s[..n] == s;
    } else {
      assert r[0] == s[n];
    }
  }

  /** When `s` is not all white space, trimming keeps its first non-space character in front. */
  lemma TrimFirst(s: string, k: nat)
    requires k < |s| && !IsSpace(s[k]) && AllSpace(s[..k])
    ensures Trim(s) != "" && Trim(s)[0] == s[k]
  {
    var n := Leading(s);
    assert n == k;
    TrimEmptyIff(s);
  }

  /** `s.split(c)`: the pieces between occurrences of `c`, always at least one. */
  function Split(s: string, c: char): (r: seq<string>)
    ensures |r| >= 1
  {
    if |s| == 0 then [""]
    else
      var rest := Split(s[1..], c);
      if s[0] == c then [""] + rest
      else [[s[0]] + rest[0]] + rest[1..]
  }

  /** No piece of a split contains the separator. */
  lemma {:induction false} SplitPiecesFree(s: string, c: char)
    ensures forall k :: 0 <= k < |Split(s, c)| ==> c !in Split(s, c)[k]
  {
    if |s| > 0 {
      SplitPiecesFree(s[1..], c);
      var rest := Split(s[1..], c);
      if s[0] != c {
        forall k | 0 <= k < |rest| - 1 ensures c !in rest[1..][k] {
          assert rest[1..][k] == rest[k + 1];
        }
      }
    }
  }

  /** `ps.join(sep)`. */
  function Join(ps: seq<string>, sep: string): string
  {
    if |ps| == 0 then ""
    else if |ps| == 1 then ps[0]
    else ps[0] + sep + Join(ps[1..], sep)
  }

  /** The pieces of `a + [c] + b` are the pieces of `a` followed by those of `b`. */
  lemma {:induction false} SplitAppend(a: string, b: string, c: char)
    ensures Split(a + [c] + b, c) == Split(a, c) + Split(b, c)
  {
    if |a| == 0 {
      assert a + [c] + b == [c] + b;
      assert ([c] + b)[1..] == b;
    } else {
      assert (a + [c] + b)[1..] == a[1..] + [c] + b;
      SplitAppend(a[1..], b, c);
    }
  }

  /** Splitting at one occurrence of `c` splits the two sides separately. */
  lemma SplitAt(s: string, i: nat, c: char)
    requires i < |s| && s[i] == c
    ensures Split(s, c) == Split(s[..i], c) + Split(s[i + 1..], c)
  {
    assert s == s[..i] + [c] + s[i + 1..];
    SplitAppend(s[..i], s[i + 1..], c);
  }

  /** After an occurrence of `c` with no `c` behind it, the last piece of the
      split is the rest of the string. */
  lemma SplitAfter(s: string, i: nat, c: char)
    requires i < |s| && s[i] == c
    requires forall k :: i < k < |s| ==> s[k] != c
    ensures Split(s, c)[|Split(s, c)| - 1] == s[i + 1..]
  {
    var tail := s[i + 1..];
    assert c !in tail by {
      forall k | 0 <= k < |tail| ensures tail[k] != c {
        assert tail[k] == s[i + 1 + k];
      }
    }
    SplitFree(tail, c);
    SplitAt(s, i, c);
  }

  /** The last piece of a split is the text after the last `c`, or all of
      `s` when it has no `c`. */
  lemma SplitLast(s: string, c: char)
    ensures LastIndex(s, c) < 0 ==> c !in s && Split(s, c) == [s]
    ensures LastIndex(s, c) >= 0 ==> Split(s, c)[|Split(s, c)| - 1] == s[LastIndex(s, c) + 1..]
  {
    var i := LastIndex(s, c);
    if i >= 0 {
      SplitAfter(s, i, c);
    } else {
      assert c !in s by {
        forall k | 0 <= k < |s| ensures s[k] != c {
          assert i < k;
        }
      }
      SplitFree(s, c);
    }
  }

  /** `s.lastIndexOf(c)`: the position of the last `c`, or -1 when there is none. */
  function LastIndex(s: string, c: char): (i: int)
    ensures -1 <= i < |s|
    ensures i >= 0 ==> s[i] == c
    ensures forall k :: i < k < |s| ==> s[k] != c
  {
    if |s| == 0 then -1
    else if s[|s| - 1] == c then |s| - 1
    else LastIndex(s[..|s| - 1], c)
  }

  /** `ps.map((p) => pad + p)`. */
  function Padded(ps: seq<string>, pad: string): (qs: seq<string>)
    ensures |qs| == |ps|
    ensures forall k :: 0 <= k < |ps| ==> qs[k] == pad + ps[k]
  {
    if |ps| == 0 then [] else [pad + ps[0]] + Padded(ps[1..], pad)
  }

  lemma {:induction false} PadJoin(ps: seq<string>, sep: string, pad: string)
    requires |ps| >= 1
    ensures pad + Join(ps, sep + pad) == Join(Padded(ps, pad), sep)
  {
    if |ps| > 1 {
      var rest := ps[1..];
      var j := Join(rest, sep + pad);
      PadJoin(rest, sep, pad);
      var qs := Padded(ps, pad);
      assert qs[1..] == Padded(rest, pad);
      assert Join(qs, sep) == qs[0] + sep + Join(qs[1..], sep);
      assert Join(ps, sep + pad) == ps[0] + (sep + pad) + j;
      assert pad + (ps[0] + (sep + pad) + j) == (pad + ps[0]) + sep + (pad + j);
    }
  }

  /** A separator with a tail `pad` is the plain separator with `pad` moved
      to the front of every piece after the first. */
  lemma JoinPadded(ps: seq<string>, sep: string, pad: string)
    requires |ps| >= 1
    ensures Join(ps, sep + pad) == Join([ps[0]] + Padded(ps[1..], pad), sep)
  {
    var qs := [ps[0]] + Padded(ps[1..], pad);
    if |ps| > 1 {
      PadJoin(ps[1..], sep, pad);
      assert qs[1..] == Padded(ps[1..], pad);
      assert Join(ps, sep + pad) == ps[0] + sep + (pad + Join(ps[1..], sep + pad));
    }
  }

  /** Splitting a string free of the separator gives that one piece. */
  lemma {:induction false} SplitFree(p: string, c: char)
    requires c !in p
    ensures Split(p, c) == [p]
  {
    if |p| > 0 {
      assert c !in p[1..];
      SplitFree(p[1..], c);
      assert [p[0]] + p[1..] == p;
    }
  }

  /** Splitting `p + [c] + t` with `p` free of `c` yields `p` first, then the pieces of `t`. */
  lemma {:induction false} SplitCons(p: string, c: char, t: string)
    requires c !in p
    ensures Split(p + [c] + t, c) == [p] + Split(t, c)
  {
    if |p| == 0 {
      assert p + [c] + t == [c] + t;
      assert ([c] + t)[1..] == t;
    } else {
      var s := p + [c] + t;
      assert s[1..] == p[1..] + [c] + t;
      assert c !in p[1..];
      SplitCons(p[1..], c, t);
      assert [p[0]] + p[1..] == p;
    }
  }

  /** Splitting a join of separator-free pieces gives the pieces back. */
  lemma {:induction false} SplitJoin(ps: seq<string>, c: char)
    requires |ps| >= 1
    requires forall k :: 0 <= k < |ps| ==> c !in ps[k]
    ensures Split(Join(ps, [c]), c) == ps
  {
    if |ps| == 1 {
      SplitFree(ps[0], c);
    } else {
      SplitJoin(ps[1..], c);
      SplitCons(ps[0], c, Join(ps[1..], [c]));
      assert [ps[0]] + ps[1..] == ps;
    }
  }

  /** `s.includes(sub)`. */
  predicate Contains(s: string, sub: string)
  {
    exists i :: 0 <= i <= |s| && OccursAt(s, sub, i)
  }

  predicate OccursAt(s: string, sub: string, i: nat)
  {
    i + |sub| <= |s| && s[i..i + |sub|] == sub
  }

  /** A pattern holding a character that `s` lacks does not occur in `s`. */
  lemma NotContains(s: string, sub: string, c: char)
    requires c in sub && c !in s
    ensures !Contains(s, sub)
  {
    var k :| 0 <= k < |sub| && sub[k] == c;
    forall i | 0 <= i <= |s| ensures !OccursAt(s, sub, i) {
      if i + |sub| <= |s| {
        assert s[i..i + |sub|][k] == s[i + k];
      }
    }
  }

  /** A text built around `sub` contains it. */
  lemma ContainsMiddle(a: string, sub: string, b: string)
    ensures Contains(a + sub + b, sub)
  {
    var s := a + sub + b;
    assert s[|a|..|a| + |sub|] == sub;
    assert OccursAt(s, sub, |a|);
  }

  /** `s.split(/\s+/)[0]`: the text before the first white-space character. */
  function FirstWord(s: string): (w: string)
    ensures |w| <= |s| && w == s[..|w|]
    ensures forall k :: 0 <= k < |w| ==> !IsSpace(w[k])
    ensures |w| < |s| ==> IsSpace(s[|w|])
  {
    if |s| == 0 || IsSpace(s[0]) then "" else [s[0]] + FirstWord(s[1..])
  }

  /** `toUpperCase` on the ASCII letters; other characters are kept. */
  function Upper(c: char): (u: char)
    ensures !('a' <= u <= 'z')
    ensures !('a' <= c <= 'z') ==> u == c
  {
    if 'a' <= c <= 'z' then (c as int - 32) as char else c
  }

  /** `s.length`: JavaScript counts UTF-16 code units, two for a character outside the BMP. */
  function Utf16Length(s: string): (n: nat)
    ensures |s| <= n <= 2 * |s|
  {
    if |s| == 0 then 0 else (if s[0] as int > 0xFFFF then 2 else 1) + Utf16Length(s[1..])
  }

  predicate IsDigit(c: char)
  {
    '0' <= c <= '9'
  }

  /** `String(n)` for a non-negative integer. */
  function Decimal(n: nat): (s: string)
    ensures |s| >= 1
    ensures forall k :: 0 <= k < |s| ==> IsDigit(s[k])
    ensures n > 0 ==> s[0] != '0'
  {
    if n < 10 then [('0' as int + n) as char]
    else Decimal(n / 10) + [('0' as int + n % 10) as char]
  }

  /** The value a string of decimal digits denotes. */
  function DecimalValue(s: string): nat
    requires forall k :: 0 <= k < |s| ==> IsDigit(s[k])
  {
    if |s| == 0 then 0
    else
      assert IsDigit(s[|s| - 1]);
      DecimalValue(s[..|s| - 1]) * 10 + (s[|s| - 1] as int - '0' as int)
  }

  lemma {:induction false} DecimalRoundTrip(n: nat)
    ensures DecimalValue(Decimal(n)) == n
  {
    if n >= 10 {
      var s := Decimal(n);
      assert s[..|s| - 1] == Decimal(n / 10);
      DecimalRoundTrip(n / 10);
    }
  }
}
