/** Text helpers shared by the handlers: optional request fields and JavaScript
    truthiness, ASCII case folding (the model of `toLowerCase` and SQL `LOWER`),
    `Array.prototype.join`, decimal rendering of integers in template strings, and
    the random-code builder behind the order numbers and confirmation codes. */
module Text {

  /** A request field or a nullable column: absent (undefined / NULL) or present. */
  datatype Option<+T> = None | Some(value: T)

  /** JavaScript truthiness of an optional string: present and not empty. */
  predicate Present(o: Option<string>) {
    o.Some? && o.value != ""
  }

  /** JavaScript truthiness of an optional number: present and not zero. */
  predicate PresentNumber(o: Option<int>) {
    o.Some? && o.value != 0
  }

  /** `x || null` on a string field: empty strings and absent values become null. */
  function OrNull(o: Option<string>): (r: Option<string>)
    ensures r.Some? <==> Present(o)
    ensures r.Some? ==> r == o
  {
    if Present(o) then o else None
  }

  /** An optional request field stored as `x || null`: null when absent or empty,
      otherwise the value given. */
  predicate StoredAsGiven(stored: Option<string>, given: Option<string>) {
    (stored.Some? <==> Present(given)) && (stored.Some? ==> stored == given)
  }

  /** `x || fallback` for a string field. */
  function OrElse(o: Option<string>, fallback: string): (r: string)
    ensures Present(o) ==> r == o.value
    ensures !Present(o) ==> r == fallback
  {
    if Present(o) then o.value else fallback
  }

  /** ASCII lower-casing of one character. */
  function LowerChar(c: char): char {
    if 'A' <= c <= 'Z' then (c as int + 32) as char else c
  }

  /** ASCII lower-casing of a string. */
  function Lower(s: string): string {
    seq(|s|, i requires 0 <= i < |s| => LowerChar(s[i]))
  }

  /** `LOWER(a) = LOWER(b)` and `a.toLowerCase() === b.toLowerCase()`. */
  predicate EqualsIgnoreCase(a: string, b: string) {
    Lower(a) == Lower(b)
  }

  predicate StartsWith(s: string, prefix: string) {
    |prefix| <= |s| && s[..|prefix|] == prefix
  }

  /** `s.includes(sub)`. */
  predicate Contains(s: string, sub: string)
    decreases |s|
  {
    StartsWith(s, sub) || (|s| > 0 && Contains(s[1..], sub))
  }

  /** `xs.join(sep)`. */
  function Join(xs: seq<string>, sep: string): string
    decreases |xs|
  {
    if |xs| == 0 then ""
    else if |xs| == 1 then xs[0]
    else xs[0] + sep + Join(xs[1..], sep)
  }

  /** `xs` is `ys` with some elements left out, the rest in their order. */
  predicate IsSubsequence<T(==)>(xs: seq<T>, ys: seq<T>)
    decreases |ys|
  {
    if |xs| == 0 then true
    else if |ys| == 0 then false
    else if xs[0] == ys[0] then IsSubsequence(xs[1..], ys[1..])
    else IsSubsequence(xs, ys[1..])
  }

  lemma {:induction false} SubsequenceSkip<T>(xs: seq<T>, y: T, ys: seq<T>)
    requires IsSubsequence(xs, ys)
    ensures IsSubsequence(xs, [y] + ys)
    decreases |ys|, 1
  {
    var yys := [y] + ys;
    assert yys[1..] == ys;
    if |xs| > 0 && xs[0] == y {
      // Matching `y` greedily still leaves `xs[1..]` inside `ys`.
      SubsequenceTail(xs, ys);
    }
  }

  lemma {:induction false} SubsequenceTail<T>(xs: seq<T>, ys: seq<T>)
    requires |xs| > 0 && IsSubsequence(xs, ys)
    ensures IsSubsequence(xs[1..], ys)
    decreases |ys|, 0
  {
    if xs[0] == ys[0] {
      SubsequenceSkip(xs[1..], ys[0], ys[1..]);
      assert [ys[0]] + ys[1..] == ys;
    } else {
      SubsequenceTail(xs, ys[1..]);
      SubsequenceSkip(xs[1..], ys[0], ys[1..]);
      assert [ys[0]] + ys[1..] == ys;
    }
  }

  /** Appending the same element to both sides keeps the subsequence relation; so does
      appending it to the longer side only. */
  lemma {:induction false} SubsequenceAppend<T>(xs: seq<T>, ys: seq<T>, z: T)
    requires IsSubsequence(xs, ys)
    ensures IsSubsequence(xs + [z], ys + [z])
    decreases |ys|
  {
    if |xs| == 0 {
      assert xs + [z] == [z];
      SubsequenceSingle(z, ys);
    } else {
      var xz, yz := xs + [z], ys + [z];
      assert xz[0] == xs[0] && yz[0] == ys[0];
      assert xz[1..] == xs[1..] + [z];
      assert yz[1..] == ys[1..] + [z];
      if xs[0] == ys[0] {
        SubsequenceAppend(xs[1..], ys[1..], z);
      } else {
        SubsequenceAppend(xs, ys[1..], z);
      }
    }
  }

  lemma {:induction false} SubsequenceSingle<T>(z: T, ys: seq<T>)
    ensures IsSubsequence([z], ys + [z])
    decreases |ys|
  {
    if |ys| > 0 && ys[0] != z {
      assert (ys + [z])[1..] == ys[1..] + [z];
      SubsequenceSingle(z, ys[1..]);
    } else if |ys| > 0 {
      assert [z][1..] == [];
    }
  }

  lemma {:induction false} SubsequenceExtend<T>(xs: seq<T>, ys: seq<T>, z: T)
    requires IsSubsequence(xs, ys)
    ensures IsSubsequence(xs, ys + [z])
    decreases |ys|
  {
    if |xs| > 0 && |ys| > 0 {
      assert (ys + [z])[1..] == ys[1..] + [z];
      if xs[0] == ys[0] {
        SubsequenceExtend(xs[1..], ys[1..], z);
      } else {
        SubsequenceExtend(xs, ys[1..], z);
      }
    }
  }

  predicate IsDigit(c: char) {
    '0' <= c <= '9'
  }

  function DigitChar(d: nat): (c: char)
    requires d < 10
    ensures IsDigit(c)
    ensures c as int - '0' as int == d
  {
    "0123456789"[d]
  }

  /** Decimal rendering of a natural number, as a template string prints it. */
  function NatToString(n: nat): (r: string)
    ensures |r| >= 1
    ensures forall i :: 0 <= i < |r| ==> IsDigit(r[i])
    decreases n
  {
    if n < 10 then [DigitChar(n)] else NatToString(n / 10) + [DigitChar(n % 10)]
  }

  /** Decimal rendering of an integer, with a leading minus sign when negative. */
  function IntToString(n: int): (r: string)
    ensures |r| >= 1
    ensures n >= 0 <==> IsDigit(r[0])
    ensures forall i :: 0 <= i < |r| ==> r[i] != ':'
  {
    if n < 0 then "-" + NatToString(-n) else NatToString(n)
  }

  /** Different numbers print differently. */
  lemma {:induction false} NatToStringInjective(a: nat, b: nat)
    requires NatToString(a) == NatToString(b)
    ensures a == b
    decreases a
  {
    var sa, sb := NatToString(a), NatToString(b);
    if a < 10 && b < 10 {
      assert sa[0] == sb[0];
    } else if a >= 10 && b >= 10 {
      assert sa[..|sa| - 1] == NatToString(a / 10);
      assert sb[..|sb| - 1] == NatToString(b / 10);
      assert sa[|sa| - 1] == sb[|sb| - 1];
      NatToStringInjective(a / 10, b / 10);
    }
  }

  lemma IntToStringInjective(a: int, b: int)
    requires IntToString(a) == IntToString(b)
    ensures a == b
  {
    if a < 0 && b < 0 {
      assert IntToString(a)[1..] == NatToString(-a);
      assert IntToString(b)[1..] == NatToString(-b);
      NatToStringInjective(-a, -b);
    } else if a >= 0 && b >= 0 {
      NatToStringInjective(a, b);
    }
  }

  /** The position of the first ':' (the length when there is none). */
  function FirstColon(s: string): nat
    decreases |s|
  {
    if |s| == 0 || s[0] == ':' then 0 else 1 + FirstColon(s[1..])
  }

  lemma {:induction false} FirstColonAfter(a: string, r: string)
    requires ':' !in a
    ensures FirstColon(a + ":" + r) == |a|
    decreases |a|
  {
    if |a| > 0 {
      assert (a + ":" + r)[1..] == a[1..] + ":" + r;
      FirstColonAfter(a[1..], r);
    }
  }

  /** How many characters follow the last ':' (the length when there is none). */
  function AfterLastColon(s: string): nat
    decreases |s|
  {
    if |s| == 0 || s[|s| - 1] == ':' then 0 else 1 + AfterLastColon(s[..|s| - 1])
  }

  lemma {:induction false} AfterLastColonIs(r: string, b: string)
    requires ':' !in b
    ensures AfterLastColon(r + ":" + b) == |b|
    decreases |b|
  {
    if |b| > 0 {
      var s := r + ":" + b;
      assert s[..|s| - 1] == r + ":" + b[..|b| - 1];
      AfterLastColonIs(r, b[..|b| - 1]);
    }
  }

  /** When neither side contains ':', `a + ":" + r` splits only at the first ':'. */
  lemma SplitAtFirstColon(a1: string, r1: string, a2: string, r2: string)
    requires ':' !in a1 && ':' !in a2
    requires a1 + ":" + r1 == a2 + ":" + r2
    ensures a1 == a2 && r1 == r2
  {
    var s1, s2 := a1 + ":" + r1, a2 + ":" + r2;
    FirstColonAfter(a1, r1);
    FirstColonAfter(a2, r2);
    assert a1 == s1[..|a1|] && a2 == s2[..|a2|];
    assert r1 == s1[|a1| + 1..] && r2 == s2[|a2| + 1..];
  }

  /** When neither right side contains ':', `r + ":" + b` splits only at the last ':'. */
  lemma SplitAtLastColon(r1: string, b1: string, r2: string, b2: string)
    requires ':' !in b1 && ':' !in b2
    requires r1 + ":" + b1 == r2 + ":" + b2
    ensures r1 == r2 && b1 == b2
  {
    var s1, s2 := r1 + ":" + b1, r2 + ":" + b2;
    AfterLastColonIs(r1, b1);
    AfterLastColonIs(r2, b2);
    assert r1 == s1[..|r1|] && r2 == s2[..|r2|];
    assert b1 == s1[|r1| + 1..] && b2 == s2[|r2| + 1..];
  }

  /** The generator loop shared by the order number and the confirmation code:
      start from `prefix` and append `alphabet.charAt(draw)` for each draw, where a
      draw is the value `Math.floor(Math.random() * alphabet.length)` took. */
  method RandomCode(prefix: string, alphabet: string, draws: seq<nat>) returns (code: string)
    requires forall i :: 0 <= i < |draws| ==> draws[i] < |alphabet|
    ensures |code| == |prefix| + |draws|
    ensures code[..|prefix|] == prefix
    ensures forall i :: 0 <= i < |draws| ==> code[|prefix| + i] == alphabet[draws[i]]
  {
    code := prefix;
    var i := 0;
    while i < |draws|
      invariant 0 <= i <= |draws|
      invariant |code| == |prefix| + i
      invariant code[..|prefix|] == prefix
      invariant forall k :: 0 <= k < i ==> code[|prefix| + k] == alphabet[draws[k]]
    {
      code := code + [alphabet[draws[i]]];
      i := i + 1;
    }
  }
}
