/**
  String helpers the application relies on from JavaScript: `String.prototype.trim`,
  `replace(/\s/g, '')` and `Array.prototype.join`. Strings are sequences of characters.
 */
module Text {

  /** The characters ECMAScript counts as WhiteSpace or LineTerminator; both `trim` and `\s` use this class. */
  predicate IsWhitespace(c: char) {
    || c == ' ' || c == '\t' || c == '\n' || c == '\r'
    || c == '\U{000B}' || c == '\U{000C}' || c == '\U{00A0}' || c == '\U{FEFF}'
    || c == '\U{1680}' || ('\U{2000}' <= c <= '\U{200A}')
    || c == '\U{2028}' || c == '\U{2029}' || c == '\U{202F}' || c == '\U{205F}' || c == '\U{3000}'
  }

  predicate AllWhitespace(s: string) {
    forall i :: 0 <= i < |s| ==> IsWhitespace(s[i])
  }

  predicate NoWhitespace(s: string) {
    forall i :: 0 <= i < |s| ==> !IsWhitespace(s[i])
  }

  /** `pattern` occurs in `s` starting at index `k`. */
  predicate OccursAt(pattern: string, s: string, k: nat) {
    k + |pattern| <= |s| && s[k..k + |pattern|] == pattern
  }

  lemma OccursAtStart(pattern: string, t: string)
    ensures OccursAt(pattern, pattern + t, 0)
  {
    assert (pattern + t)[..|pattern|] == pattern;
  }

  /** An occurrence stays one, shifted, when text is put in front. */
  lemma OccursAtShift(pattern: string, s: string, k: nat, x: string)
    requires OccursAt(pattern, s, k)
    ensures OccursAt(pattern, x + s, |x| + k)
  {
    assert (x + s)[|x| + k..|x| + k + |pattern|] == s[k..k + |pattern|];
  }

  /** An occurrence stays one when text is appended. */
  lemma OccursAtExtend(pattern: string, s: string, k: nat, t: string)
    requires OccursAt(pattern, s, k)
    ensures OccursAt(pattern, s + t, k)
  {
    assert (s + t)[k..k + |pattern|] == s[k..k + |pattern|];
  }

  lemma NotOccursAtMismatch(pattern: string, s: string, k: nat)
    requires pattern != [] && k < |s| && s[k] != pattern[0]
    ensures !OccursAt(pattern, s, k)
  {
  }

  predicate EndsWith(s: string, suffix: string) {
    |suffix| <= |s| && s[|s| - |suffix|..] == suffix
  }

  lemma EndsWithExtend(x: string, s: string, suffix: string)
    requires EndsWith(s, suffix)
    ensures EndsWith(x + s, suffix)
  {
    assert (x + s)[|x + s| - |suffix|..] == s[|s| - |suffix|..];
  }

  /** Drops leading white space: the result is the suffix of `s` after a white-space-only prefix. */
  function TrimStart(s: string): (r: string)
    ensures |r| <= |s| && r == s[|s| - |r|..]
    ensures r == [] || !IsWhitespace(r[0])
    ensures AllWhitespace(s[..|s| - |r|])
  {
    if s == [] || !IsWhitespace(s[0]) then s
    else
      var r := TrimStart(s[1..]);
      assert s[..|s| - |r|] == [s[0]] + s[1..][..|s| - 1 - |r|];
      r
  }

  /** Drops trailing white space: the result is the prefix of `s` before a white-space-only suffix. */
  function TrimEnd(s: string): (r: string)
    ensures |r| <= |s| && r == s[..|r|]
    ensures r == [] || !IsWhitespace(r[|r| - 1])
    ensures AllWhitespace(s[|r|..])
  {
    if s == [] || !IsWhitespace(s[|s| - 1]) then s else TrimEnd(s[..|s| - 1])
  }

  /** JavaScript's `s.trim()`. It is empty exactly when `s` is blank, so `!s.trim()` tests blankness. */
  function Trim(s: string): (r: string)
    ensures r == [] || (!IsWhitespace(r[0]) && !IsWhitespace(r[|r| - 1]))
    ensures r == [] <==> AllWhitespace(s)
  {
    var t := TrimStart(s);
    var r := TrimEnd(t);
    assert r == [] ==> AllWhitespace(s) by {
      if r == [] {
        assert s == s[..|s| - |t|] + t;
        assert t[|r|..] == t;
      }
    }
    r
  }

  /** `Trim(s)` is the slice `s[lo..hi]` with white space only around it. */
  lemma TrimBounds(s: string) returns (lo: nat, hi: nat)
    ensures lo <= hi <= |s| && Trim(s) == s[lo..hi]
    ensures AllWhitespace(s[..lo]) && AllWhitespace(s[hi..])
  {
    var t := TrimStart(s);
    var r := TrimEnd(t);
    lo, hi := |s| - |t|, |s| - |t| + |r|;
    assert t[|r|..] == s[hi..];
  }

  lemma {:induction false} TrimIdempotent(s: string)
    ensures Trim(Trim(s)) == Trim(s)
  {
    var r := Trim(s);
    if r != [] {
      assert TrimStart(r) == r;
      assert TrimEnd(r) == r;
    }
  }

  /** JavaScript's `s.replace(/\s/g, '')`: every white-space character removed, the rest kept in order. */
  function StripWhitespace(s: string): (r: string)
    ensures NoWhitespace(r)
    ensures |r| <= |s|
    ensures forall c :: c in r <==> c in s && !IsWhitespace(c)
    ensures NoWhitespace(s) ==> r == s
  {
    if s == [] then []
    else if IsWhitespace(s[0]) then StripWhitespace(s[1..])
    else [s[0]] + StripWhitespace(s[1..])
  }

  lemma {:induction false} StripAppend(a: string, b: string)
    ensures StripWhitespace(a + b) == StripWhitespace(a) + StripWhitespace(b)
  {
    if a == [] {
      assert a + b == b;
    } else {
      assert (a + b)[0] == a[0] && (a + b)[1..] == a[1..] + b;
      StripAppend(a[1..], b);
    }
  }

  /** Inserting white space anywhere does not change the stripped string. */
  lemma StripIgnoresInsertedWhitespace(a: string, w: string, b: string)
    requires AllWhitespace(w)
    ensures StripWhitespace(a + w + b) == StripWhitespace(a + b)
  {
    StripAppend(a + w, b);
    StripAppend(a, w);
    StripAppend(a, b);
    AllWhitespaceStripsToEmpty(w);
  }

  lemma {:induction false} AllWhitespaceStripsToEmpty(w: string)
    requires AllWhitespace(w)
    ensures StripWhitespace(w) == []
  {
    if w != [] {
      AllWhitespaceStripsToEmpty(w[1..]);
    }
  }

  /** `Array.prototype.join`: the parts in order, with `sep` between neighbours. */
  function Join(parts: seq<string>, sep: string): (r: string)
    ensures parts == [] ==> r == []
    ensures parts != [] ==> parts[0] <= r
    ensures |parts| == 1 ==> r == parts[0]
  {
    if |parts| == 0 then []
    else if |parts| == 1 then parts[0]
    else Join(parts[..|parts| - 1], sep) + sep + parts[|parts| - 1]
  }

  lemma JoinSnoc(parts: seq<string>, part: string, sep: string)
    requires parts != []
    ensures Join(parts + [part], sep) == Join(parts, sep) + sep + part
  {
    assert (parts + [part])[..|parts|] == parts;
  }
}
