/** The string operations the node applies to keys and operation names:
    strings.TrimSpace and strings.ToUpper. */
module Text {

  /** unicode.IsSpace: the Latin-1 spaces '\t', '\n', '\v', '\f', '\r', ' ',
      U+0085, U+00A0, and the other White_Space code points. */
  predicate IsSpace(c: char)
  {
    var n := c as int;
    || n == 0x20 || 0x09 <= n <= 0x0D || n == 0x85 || n == 0xA0
    || n == 0x1680 || 0x2000 <= n <= 0x200A || n == 0x2028 || n == 0x2029
    || n == 0x202F || n == 0x205F || n == 0x3000
  }

  predicate AllSpace(s: string)
  {
    forall i | 0 <= i < |s| :: IsSpace(s[i])
  }

  /** Neither end of `s` is a space. */
  predicate IsTrimmed(s: string)
  {
    s == [] || (!IsSpace(s[0]) && !IsSpace(s[|s| - 1]))
  }

  /** The first index at or after `i` that does not hold a space. */
  function TrimStart(s: string, i: nat): (n: nat)
    requires i <= |s|
    ensures i <= n <= |s|
    ensures forall k | i <= k < n :: IsSpace(s[k])
    ensures n == |s| || !IsSpace(s[n])
    decreases |s| - i
  {
    if i < |s| && IsSpace(s[i]) then TrimStart(s, i + 1) else i
  }

  /** Scanning down from `j` towards `lo`: the end of the last character
      that is not a space. */
  function TrimStop(s: string, lo: nat, j: nat): (n: nat)
    requires lo <= j <= |s|
    ensures lo <= n <= j
    ensures forall k | n <= k < j :: IsSpace(s[k])
    ensures n == lo || !IsSpace(s[n - 1])
    decreases j - lo
  {
    if lo < j && IsSpace(s[j - 1]) then TrimStop(s, lo, j - 1) else j
  }

  /** strings.TrimSpace: the part of `s` between its leading and its trailing
      spaces. */
  function TrimSpace(s: string): (r: string)
    ensures IsTrimmed(r)
    ensures var i := TrimStart(s, 0);
            i + |r| <= |s| && r == s[i..i + |r|] && AllSpace(s[..i]) && AllSpace(s[i + |r|..])
  {
    var start := TrimStart(s, 0);
    var stop := TrimStop(s, start, |s|);
    s[start..stop]
  }

  /** unicode.ToUpper on the letters whose upper case is an ASCII letter: a-z,
      U+0131 (dotless i) and U+017F (long s). Every other letter is kept; Go
      maps some of them to other non-ASCII letters. */
  function UpperChar(c: char): char
  {
    if 'a' <= c <= 'z' then (c as int - 32) as char
    else if c as int == 0x131 then 'I'
    else if c as int == 0x17F then 'S'
    else c
  }

  /** strings.ToUpper, letter by letter. */
  function ToUpper(s: string): string
  {
    seq(|s|, i requires 0 <= i < |s| => UpperChar(s[i]))
  }

  /** TrimStart stops exactly at the first character that is not a space. */
  lemma TrimStartAt(s: string, i: nat, m: nat)
    requires i <= m <= |s|
    requires forall k | i <= k < m :: IsSpace(s[k])
    requires m == |s| || !IsSpace(s[m])
    ensures TrimStart(s, i) == m
  {
  }

  /** TrimStop stops exactly after the last character that is not a space. */
  lemma TrimStopAt(s: string, lo: nat, j: nat, m: nat)
    requires lo <= m <= j <= |s|
    requires forall k | m <= k < j :: IsSpace(s[k])
    requires m == lo || !IsSpace(s[m - 1])
    ensures TrimStop(s, lo, j) == m
  {
  }

  /** Padding a trimmed word with spaces on either side does not change what
      TrimSpace returns. */
  lemma TrimSpacePadded(pre: string, w: string, post: string)
    requires AllSpace(pre) && AllSpace(post) && IsTrimmed(w)
    ensures TrimSpace(pre + w + post) == w
  {
    var s := pre + w + post;
    // with an empty word every character is a space
    var start := if w == [] then |s| else |pre|;
    var stop := if w == [] then |s| else |pre| + |w|;
    assert forall k | 0 <= k < start :: IsSpace(s[k]) by {
      forall k | 0 <= k < start ensures IsSpace(s[k]) {
        if k < |pre| { assert s[k] == pre[k]; } else { assert s[k] == post[k - |pre|]; }
      }
    }
    if w != [] {
      assert s[start] == w[0];
      assert s[stop - 1] == w[|w| - 1];
    }
    TrimStartAt(s, 0, start);
    assert forall k | stop <= k < |s| :: IsSpace(s[k]) by {
      forall k | stop <= k < |s| ensures IsSpace(s[k]) {
        assert s[k] == post[k - |pre| - |w|];
      }
    }
    TrimStopAt(s, start, |s|, stop);
    assert s[start..stop] == w;
  }

  /** TrimSpace is idempotent. */
  lemma TrimSpaceIdempotent(s: string)
    ensures TrimSpace(TrimSpace(s)) == TrimSpace(s)
  {
    var t := TrimSpace(s);
    TrimSpacePadded([], t, []);
    assert [] + t + [] == t;
  }

  /** A key is empty after trimming exactly when it is made of spaces only. */
  lemma TrimSpaceEmpty(s: string)
    ensures TrimSpace(s) == [] <==> AllSpace(s)
  {
    if AllSpace(s) {
      TrimSpacePadded(s, [], []);
      assert s + [] + [] == s;
    }
  }
}
