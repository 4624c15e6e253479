/** The handful of Python string built-ins both programs lean on, written
    out over `string` (a sequence of Unicode scalar values): `str.isspace`,
    `str.strip`, `str.startswith`, `str.find`, `str.split(sep)[k]`,
    `int(str)` in base 10 and `str(n)` / `f"{n:02d}"` for naturals. */
module Text {
  import opened Common

  /** `c.isspace()`: the characters `str.strip()` removes. */
  predicate IsSpace(c: char) {
    || c == ' '
    || ('\t' <= c <= '\r')
    || ('\U{1c}' <= c <= '\U{1f}')
    || c == '\U{85}' || c == '\U{a0}' || c == '\U{1680}'
    || ('\U{2000}' <= c <= '\U{200a}')
    || c == '\U{2028}' || c == '\U{2029}' || c == '\U{202f}'
    || c == '\U{205f}' || c == '\U{3000}'
  }

  /** `s.lstrip()`: the longest suffix of `s` that does not start with a space. */
  function TrimStart(s: string): (r: string)
    ensures |r| <= |s| && r == s[|s| - |r|..]
    ensures forall k :: 0 <= k < |s| - |r| ==> IsSpace(s[k])
    ensures r == [] || !IsSpace(r[0])
  {
    if |s| > 0 && IsSpace(s[0]) then TrimStart(s[1..]) else s
  }

  /** `s.rstrip()`: the longest prefix of `s` that does not end with a space. */
  function TrimEnd(s: string): (r: string)
    ensures |r| <= |s| && r == s[..|r|]
    ensures forall k :: |r| <= k < |s| ==> IsSpace(s[k])
    ensures r == [] || !IsSpace(r[|r| - 1])
  {
    if |s| > 0 && IsSpace(s[|s| - 1]) then TrimEnd(s[..|s| - 1]) else s
  }

  /** `s.strip()`. */
  function Strip(s: string): (r: string)
    ensures r == [] || (!IsSpace(r[0]) && !IsSpace(r[|r| - 1]))
    ensures forall c :: c in r ==> c in s
  {
    var t := TrimStart(s);
    var r := TrimEnd(t);
    StripHead(t, r);
    SliceMembers(t, 0, |r|);
    SliceMembers(s, |s| - |t|, |s|);
    r
  }

  /** A non-empty prefix of `t` starts as `t` does. */
  lemma StripHead(t: string, r: string)
    requires |r| <= |t| && r == t[..|r|]
    ensures r != [] ==> r[0] == t[0]
  {
  }

  /** A slice of `t` holds only characters of `t`. */
  lemma SliceMembers(t: string, i: nat, j: nat)
    requires i <= j <= |t|
    ensures forall c :: c in t[i..j] ==> c in t
  {
  }

  /** Neither starts nor ends with a space. */
  predicate Unpadded(s: string) {
    s == [] || (!IsSpace(s[0]) && !IsSpace(s[|s| - 1]))
  }

  /** A string that starts and ends with a non-space is its own strip. */
  lemma StripUnpadded(s: string)
    requires Unpadded(s)
    ensures Strip(s) == s
  {
  }

  /** `line.strip()` of a written config line: the trailing newline goes,
      nothing else does. */
  lemma StripNewline(s: string)
    requires |s| > 0 && !IsSpace(s[0]) && !IsSpace(s[|s| - 1])
    ensures Strip(s + "\n") == s
  {
    var t := s + "\n";
    assert TrimStart(t) == t;
    assert t[..|t| - 1] == s;
    assert TrimEnd(t) == TrimEnd(s);
    StripUnpadded(s);
  }

  /** `s.startswith(p)`. */
  predicate StartsWith(s: string, p: string) {
    |p| <= |s| && s[..|p|] == p
  }

  /** Where an `if`/`elif` chain of `line.startswith(p)` tests sends
      `line`: the index of the first of `prefixes` it starts with. */
  function MatchKey(line: string, prefixes: seq<string>): (r: Option<nat>)
    ensures r.Some? ==> r.value < |prefixes| && StartsWith(line, prefixes[r.value])
    ensures r.Some? ==> forall j :: 0 <= j < r.value ==> !StartsWith(line, prefixes[j])
    ensures r.None? ==> forall j :: 0 <= j < |prefixes| ==> !StartsWith(line, prefixes[j])
    decreases |prefixes|
  {
    if prefixes == [] then None
    else if StartsWith(line, prefixes[0]) then Some(0)
    else match MatchKey(line, prefixes[1..])
      case None => None
      case Some(j) => Some(j + 1)
  }

  /** No key is a prefix of another, so a line written for a key is filed
      under that key whatever the order of the `elif` chain. */
  predicate PrefixFree(prefixes: seq<string>) {
    forall q, j :: 0 <= q < |prefixes| && 0 <= j < |prefixes| && q != j ==> !StartsWith(prefixes[q], prefixes[j])
  }

  lemma StartsWithBoth(s: string, p: string, q: string)
    requires StartsWith(s, p) && StartsWith(s, q) && |q| <= |p|
    ensures StartsWith(p, q)
  {
    assert p[..|q|] == s[..|p|][..|q|] == s[..|q|];
  }

  /** With prefix-free prefixes, a line starting with the `k`-th reaches
      branch `k`, whatever comes before it in the chain. */
  lemma PrefixFreeMatch(line: string, prefixes: seq<string>, k: nat)
    requires PrefixFree(prefixes) && k < |prefixes| && StartsWith(line, prefixes[k])
    ensures MatchKey(line, prefixes) == Some(k)
  {
    forall q | 0 <= q < k ensures !StartsWith(line, prefixes[q]) {
      if StartsWith(line, prefixes[q]) {
        if |prefixes[q]| <= |prefixes[k]| {
          StartsWithBoth(line, prefixes[k], prefixes[q]);
        } else {
          StartsWithBoth(line, prefixes[q], prefixes[k]);
        }
      }
    }
    MatchKeyAt(line, prefixes, k);
  }

  /** The chain picks branch `k` when `line` starts with its prefix and
      with none of the prefixes tried before it. */
  lemma MatchKeyAt(line: string, prefixes: seq<string>, k: nat)
    requires k < |prefixes| && StartsWith(line, prefixes[k])
    requires forall q :: 0 <= q < k ==> !StartsWith(line, prefixes[q])
    ensures MatchKey(line, prefixes) == Some(k)
  {
  }

  /** Two strings that differ at a position both have: neither starts
      with the other. */
  lemma Differ(s: string, p: string, i: nat)
    requires i < |s| && i < |p| && s[i] != p[i]
    ensures !StartsWith(s, p) && !StartsWith(p, s)
  {
  }

  /** `s.find(sub)`: the first index at which `sub` occurs, or -1. */
  function Find(s: string, sub: string): (r: int)
    ensures -1 <= r <= |s|
    ensures r >= 0 ==> r + |sub| <= |s| && s[r..r + |sub|] == sub
    ensures r >= 0 ==> forall i :: 0 <= i < r ==> !StartsWith(s[i..], sub)
    ensures r == -1 ==> forall i :: 0 <= i <= |s| ==> !StartsWith(s[i..], sub)
    decreases |s|
  {
    if |s| < |sub| then -1
    else if s[..|sub|] == sub then 0
    else
      var k := Find(s[1..], sub);
      assert forall i :: 1 <= i <= |s| ==> s[i..] == s[1..][i - 1..];
      if k == -1 then -1 else k + 1
  }

  /** `s.split(sep)[0]`: the text before the first `sep`, or all of `s`. */
  function Before(s: string, sep: string): (r: string)
    requires |sep| > 0
    ensures StartsWith(s, r)
  {
    var i := Find(s, sep);
    if i == -1 then s else s[..i]
  }

  /** `s.split(sep)[1]`: the text between the first and the second `sep`
      (or up to the end); `None` where Python raises IndexError because
      `sep` does not occur. */
  function Second(s: string, sep: string): (r: Option<string>)
    requires |sep| > 0
    ensures r.None? <==> Find(s, sep) == -1
    ensures r.Some? ==> |r.value| + |sep| <= |s|
  {
    var i := Find(s, sep);
    if i == -1 then None else Some(Before(s[i + |sep|..], sep))
  }

  /** The first `c` in `a + [c] + b`, when `a` holds none, is at `|a|`. */
  lemma {:induction false} FindAfter(a: string, c: char, b: string)
    requires c !in a
    ensures Find(a + [c] + b, [c]) == |a|
    decreases |a|
  {
    var s := a + [c] + b;
    if a != [] {
      assert s[1..] == a[1..] + [c] + b;
      assert s[..1][0] == a[0] != c;
      FindAfter(a[1..], c, b);
    } else {
      assert s[..1] == [c];
    }
  }

  /** A string without `c` has no `c` to find. */
  lemma {:induction false} FindAbsent(s: string, c: char)
    requires c !in s
    ensures Find(s, [c]) == -1
    decreases |s|
  {
    if s != [] {
      assert s[..1][0] == s[0] != c;
      FindAbsent(s[1..], c);
    }
  }

  /** `(key + "=" + value).split("=")[1]` is `value` when neither holds
      an `=`. */
  lemma SecondOfPair(key: string, c: char, value: string)
    requires c !in key && c !in value
    ensures Second(key + [c] + value, [c]) == Some(value)
  {
    var s := key + [c] + value;
    FindAfter(key, c, value);
    assert s[|key| + 1..] == value;
    FindAbsent(value, c);
  }

  /** `s.split(c)`: the pieces between the occurrences of `c`, in order;
      there is always one more piece than there are separators. */
  function Split(s: string, c: char): (parts: seq<string>)
    ensures |parts| > 0
    ensures forall i :: 0 <= i < |parts| ==> c !in parts[i]
    decreases |s|
  {
    if s == [] then [""]
    else
      var rest := Split(s[1..], c);
      if s[0] == c then [""] + rest
      else [[s[0]] + rest[0]] + rest[1..]
  }

  /** `sep.join(parts)`. */
  function Join(parts: seq<string>, c: char): string
    requires |parts| > 0
    decreases |parts|
  {
    if |parts| == 1 then parts[0] else parts[0] + [c] + Join(parts[1..], c)
  }

  /** Splitting loses nothing: joining the pieces back gives the string. */
  lemma {:induction false} JoinSplit(s: string, c: char)
    ensures Join(Split(s, c), c) == s
    decreases |s|
  {
    if s != [] {
      JoinSplit(s[1..], c);
      var rest := Split(s[1..], c);
      if s[0] == c {
        assert [""] + rest == Split(s, c);
        assert ([""] + rest)[1..] == rest;
      } else {
        var parts := Split(s, c);
        assert parts[1..] == rest[1..];
        if |rest| > 1 {
          assert rest == [rest[0]] + rest[1..];
          assert Join(rest, c) == rest[0] + [c] + Join(rest[1..], c);
        }
      }
    }
  }

  /** A piece followed by the separator splits off first. */
  lemma {:induction false} SplitAfter(a: string, c: char, b: string)
    requires c !in a
    ensures Split(a + [c] + b, c) == [a] + Split(b, c)
    decreases |a|
  {
    if a != [] {
      var s := a + [c] + b;
      assert s[0] == a[0] && s[1..] == a[1..] + [c] + b;
      SplitAfter(a[1..], c, b);
      assert [a[0]] + a[1..] == a;
    } else {
      assert a + [c] + b == [c] + b;
      assert ([c] + b)[1..] == b;
    }
  }

  /** A string without the separator is a single piece. */
  lemma {:induction false} SplitAbsent(s: string, c: char)
    requires c !in s
    ensures Split(s, c) == [s]
    decreases |s|
  {
    if s != [] {
      SplitAbsent(s[1..], c);
      assert [s[0]] + s[1..] == s;
    }
  }

  /** A string holding `c` is what comes before the first `c`, the `c`,
      and what comes after it. */
  lemma CutAtFirst(s: string, c: char)
    requires c in s
    ensures var i := Find(s, [c]);
      && 0 <= i < |s| && c !in s[..i] && s == s[..i] + [c] + s[i + 1..]
  {
    FindChar(s, c);
    var i := Find(s, [c]);
    CutAt(s, i);
  }

  lemma CutAt<T>(s: seq<T>, i: nat)
    requires i < |s|
    ensures s == s[..i] + [s[i]] + s[i + 1..]
  {
    assert s[i..] == [s[i]] + s[i + 1..];
    assert s == s[..i] + s[i..];
  }

  /** Looking for one character: `c in s` exactly when `s.find(c)` finds
      it, and then at its first occurrence. */
  lemma FindChar(s: string, c: char)
    ensures Find(s, [c]) == -1 <==> c !in s
    ensures Find(s, [c]) >= 0 ==> s[Find(s, [c])] == c && c !in s[..Find(s, [c])]
  {
    var r := Find(s, [c]);
    if r == -1 {
      forall i | 0 <= i < |s| ensures s[i] != c {
        assert s[i..][..1] == [s[i]];
      }
    } else {
      assert s[r..r + 1] == [c];
      assert s[r] == c && s[r] in s;
      forall i | 0 <= i < r ensures s[..r][i] != c {
        assert s[i..][..1] == [s[i]];
      }
    }
  }

  /** `s.split(c)[0]` as `Before` reads it is the first piece of `Split`. */
  lemma BeforeIsSplit(s: string, c: char)
    ensures Before(s, [c]) == Split(s, c)[0]
  {
    FindChar(s, c);
    var i := Find(s, [c]);
    if i == -1 {
      SplitAbsent(s, c);
    } else {
      assert s == s[..i] + [c] + s[i + 1..];
      SplitAfter(s[..i], c, s[i + 1..]);
    }
  }

  /** `s.split(c)[1]` as `Second` reads it is the second piece of `Split`,
      and there is none exactly when `c` does not occur. */
  lemma SecondIsSplit(s: string, c: char)
    ensures Second(s, [c]) == if |Split(s, c)| > 1 then Some(Split(s, c)[1]) else None
  {
    FindChar(s, c);
    var i := Find(s, [c]);
    if i == -1 {
      SplitAbsent(s, c);
    } else {
      assert s == s[..i] + [c] + s[i + 1..];
      SplitAfter(s[..i], c, s[i + 1..]);
      BeforeIsSplit(s[i + 1..], c);
    }
  }

  predicate IsDigit(c: char) {
    '0' <= c <= '9'
  }

  /** A digit is not a space, so `strip()` leaves it alone. */
  lemma DigitNotSpace(c: char)
    requires IsDigit(c)
    ensures !IsSpace(c)
  {
  }

  function DigitValue(c: char): nat
    requires IsDigit(c)
  {
    c as int - '0' as int
  }

  function DigitChar(d: nat): (c: char)
    requires d < 10
    ensures IsDigit(c) && DigitValue(c) == d
  {
    ('0' as int + d) as char
  }

  /** The numeral grammar `int()` accepts in base 10 after the sign:
      ASCII digits, with single underscores allowed between two digits. */
  predicate IsNumeral(s: string) {
    && |s| > 0
    && (forall i :: 0 <= i < |s| ==> IsDigit(s[i]) || s[i] == '_')
    && (forall i :: 0 <= i < |s| && s[i] == '_' ==>
          0 < i < |s| - 1 && IsDigit(s[i - 1]) && IsDigit(s[i + 1]))
  }

  /** The value of a run of digits and underscores, underscores ignored. */
  function NumeralValue(s: string): nat
    requires forall i :: 0 <= i < |s| ==> IsDigit(s[i]) || s[i] == '_'
  {
    if s == [] then 0
    else if s[|s| - 1] == '_' then NumeralValue(s[..|s| - 1])
    else 10 * NumeralValue(s[..|s| - 1]) + DigitValue(s[|s| - 1])
  }

  /** Python's `int(s)` in base 10: surrounding whitespace is stripped, an
      optional sign is read, and the rest must be a numeral; `None` where
      Python raises ValueError. */
  function ParseInt(s: string): (r: Option<int>)
  {
    var t := Strip(s);
    if |t| > 0 && (t[0] == '+' || t[0] == '-') then
      if IsNumeral(t[1..]) then
        Some(if t[0] == '-' then -(NumeralValue(t[1..]) as int) else NumeralValue(t[1..]))
      else None
    else if IsNumeral(t) then Some(NumeralValue(t))
    else None
  }

  /** `str(n)` for a natural number. */
  function NatToString(n: nat): (r: string)
    ensures |r| > 0 && forall i :: 0 <= i < |r| ==> IsDigit(r[i])
    ensures NumeralValue(r) == n
  {
    if n < 10 then [DigitChar(n)]
    else
      var p := NatToString(n / 10);
      var r := p + [DigitChar(n % 10)];
      assert r[..|r| - 1] == p;
      r
  }

  /** `f"{n:02d}"`: at least two digits, zero-padded. */
  function Pad2(n: nat): (r: string)
    ensures |r| >= 2 && forall i :: 0 <= i < |r| ==> IsDigit(r[i])
    ensures NumeralValue(r) == n
  {
    if n < 10 then
      var r := ['0', DigitChar(n)];
      assert r[..1] == ['0'];
      assert NumeralValue(['0']) == 0 by { assert ['0'][..0] == []; }
      r
    else NatToString(n)
  }

  /** `int(str(n)) == n`: reading back a formatted natural gives it back. */
  lemma ParseNatToString(n: nat)
    ensures ParseInt(NatToString(n)) == Some(n)
  {
    var r := NatToString(n);
    assert !IsSpace(r[0]) && !IsSpace(r[|r| - 1]);
    StripUnpadded(r);
  }
}
