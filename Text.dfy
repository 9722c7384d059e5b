/** The Python string operations the tool relies on: str.isspace, strip,
    split() on whitespace, split(sep), join, replace, startswith, endswith
    and substring membership. Strings are sequences of code points. */
module Text {

  /** Python's str.isspace() for one code point. */
  predicate IsSpace(c: char)
  {
    || c == ' '
    || ('\t' <= c <= '\r')
    || ('\U{1c}' <= c <= '\U{1f}')
    || c == '\U{85}' || c == '\U{a0}' || c == '\U{1680}'
    || ('\U{2000}' <= c <= '\U{200a}')
    || c == '\U{2028}' || c == '\U{2029}' || c == '\U{202f}' || c == '\U{205f}' || c == '\U{3000}'
  }

  /** No whitespace anywhere in s. */
  predicate NoSpace(s: string)
  {
    forall i :: 0 <= i < |s| ==> !IsSpace(s[i])
  }

  lemma NoSpaceConcat(a: string, b: string)
    requires NoSpace(a) && NoSpace(b)
    ensures NoSpace(a + b)
  {
    forall i | 0 <= i < |a + b|
      ensures !IsSpace((a + b)[i])
    {
      if i < |a| { assert (a + b)[i] == a[i]; } else { assert (a + b)[i] == b[i - |a|]; }
    }
  }

  /** A token as str.split() produces it: non-empty, no whitespace. */
  predicate IsWord(s: string)
  {
    |s| > 0 && NoSpace(s)
  }

  /** Every character is printable ASCII other than the blank. */
  predicate Graphic(s: string)
  {
    forall i :: 0 <= i < |s| ==> '!' <= s[i] <= '~'
  }

  lemma GraphicWord(s: string)
    requires s != [] && Graphic(s)
    ensures IsWord(s)
  {
  }

  predicate StartsWith(s: string, prefix: string)
  {
    |prefix| <= |s| && s[..|prefix|] == prefix
  }

  predicate EndsWith(s: string, suffix: string)
  {
    |suffix| <= |s| && s[|s| - |suffix|..] == suffix
  }

  /** Python's `needle in s`. */
  predicate Contains(s: string, needle: string)
  {
    exists i: nat :: i <= |s| && OccursAt(s, needle, i)
  }

  /** needle occurs in s at position k. */
  predicate OccursAt(s: string, needle: string, k: nat)
  {
    k + |needle| <= |s| && s[k..k + |needle|] == needle
  }

  /** r is s[lo..lo + |r|] and everything of s around it is whitespace. */
  predicate TrimmedAt(s: string, r: string, lo: nat)
  {
    && lo + |r| <= |s| && r == s[lo..lo + |r|]
    && (forall k :: 0 <= k < lo ==> IsSpace(s[k]))
    && (forall k :: lo + |r| <= k < |s| ==> IsSpace(s[k]))
  }

  /** str.rstrip(): drop trailing whitespace. */
  function TrimEnd(s: string): (r: string)
    ensures |r| <= |s| && r == s[..|r|]
    ensures r == [] || !IsSpace(r[|r| - 1])
    ensures forall k :: |r| <= k < |s| ==> IsSpace(s[k])
  {
    if |s| > 0 && IsSpace(s[|s| - 1]) then TrimEnd(s[..|s| - 1]) else s
  }

  /** str.lstrip(): drop leading whitespace. */
  function TrimStart(s: string): (r: string)
    ensures |r| <= |s| && r == s[|s| - |r|..]
    ensures r == [] || !IsSpace(r[0])
    ensures forall k :: 0 <= k < |s| - |r| ==> IsSpace(s[k])
  {
    if |s| > 0 && IsSpace(s[0]) then TrimStart(s[1..]) else s
  }

  /** str.strip(): the slice of s left after removing whitespace at both ends. */
  function Strip(s: string): (r: string)
    ensures r == [] || (!IsSpace(r[0]) && !IsSpace(r[|r| - 1]))
    ensures exists lo: nat :: TrimmedAt(s, r, lo)
  {
    TrimBothEnds(s);
    TrimStart(TrimEnd(s))
  }

  lemma TrimBothEnds(s: string)
    ensures TrimmedAt(s, TrimStart(TrimEnd(s)), |TrimEnd(s)| - |TrimStart(TrimEnd(s))|)
  {
    var t := TrimEnd(s);
    var r := TrimStart(t);
    var lo := |t| - |r|;
    assert t == s[..|t|];
    assert r == t[lo..];
    var mid := s[lo..lo + |r|];
    forall i | 0 <= i < |r|
      ensures r[i] == mid[i]
    {
      assert r[i] == t[lo + i] == s[lo + i];
    }
    assert r == mid;
    forall k | 0 <= k < lo
      ensures IsSpace(s[k])
    {
      assert s[k] == t[k];
    }
    assert forall k :: lo + |r| <= k < |s| ==> IsSpace(s[k]);
  }

  lemma StripUnchanged(s: string)
    requires s == [] || (!IsSpace(s[0]) && !IsSpace(s[|s| - 1]))
    ensures Strip(s) == s
  {
  }

  /** Trailing whitespace is what strip() removes. */
  lemma StripTrailing(s: string, c: char)
    requires s != [] && !IsSpace(s[0]) && !IsSpace(s[|s| - 1])
    requires IsSpace(c)
    ensures Strip(s + [c]) == s
  {
    assert (s + [c])[..|s|] == s;
    assert TrimEnd(s + [c]) == TrimEnd(s) == s;
  }

  /** strip() only removes characters: one absent from s is absent from it. */
  lemma StripAvoids(s: string, c: char)
    requires c !in s
    ensures c !in Strip(s)
  {
    var r := Strip(s);
    var lo: nat :| TrimmedAt(s, r, lo);
    forall i | 0 <= i < |r|
      ensures r[i] != c
    {
      assert r[i] == s[lo + i];
    }
  }

  /** The maximal run of non-whitespace characters at the end of s. */
  function LastWord(s: string): (w: string)
    ensures |w| <= |s| && w == s[|s| - |w|..]
    ensures NoSpace(w)
    ensures |s| > 0 && !IsSpace(s[|s| - 1]) ==> |w| > 0
  {
    if |s| == 0 || IsSpace(s[|s| - 1]) then [] else LastWord(s[..|s| - 1]) + [s[|s| - 1]]
  }

  /** str.split() with no argument: the whitespace-separated tokens, in order. */
  function Words(s: string): (r: seq<string>)
    ensures forall k :: 0 <= k < |r| ==> IsWord(r[k])
    decreases |s|
  {
    var t := TrimEnd(s);
    if |t| == 0 then []
    else
      var w := LastWord(t);
      Words(t[..|t| - |w|]) + [w]
  }

  /** str.split(c) with a one-character separator: never empty, and no
      piece contains the separator. */
  function SplitOn(s: string, c: char): (r: seq<string>)
    ensures |r| >= 1
    ensures forall k :: 0 <= k < |r| ==> c !in r[k]
  {
    if |s| == 0 then [""]
    else
      var rest := SplitOn(s[1..], c);
      if s[0] == c then [""] + rest else [[s[0]] + rest[0]] + rest[1..]
  }

  /** sep.join(xs). */
  function Join(sep: string, xs: seq<string>): string
  {
    if |xs| == 0 then "" else if |xs| == 1 then xs[0] else xs[0] + sep + Join(sep, xs[1..])
  }

  /** str.replace(a, b) for single characters: the length is kept, every a
      becomes b and every other character stays where it is. */
  function Replace(s: string, a: char, b: char): (r: string)
    ensures |r| == |s|
    ensures forall i :: 0 <= i < |s| ==> r[i] == (if s[i] == a then b else s[i])
  {
    if |s| == 0 then [] else [if s[0] == a then b else s[0]] + Replace(s[1..], a, b)
  }

  /** Index of the first occurrence of needle in s, or |s| when there is none. */
  function IndexOf(s: string, needle: string): (i: nat)
    ensures i <= |s|
    ensures i < |s| ==> OccursAt(s, needle, i)
    ensures forall k: nat :: k < i ==> !OccursAt(s, needle, k)
    decreases |s|
  {
    if |s| < |needle| || |s| == 0 then |s|
    else if s[..|needle|] == needle then 0
    else
      var j := IndexOf(s[1..], needle);
      assert forall k: nat :: 0 < k <= j ==> (OccursAt(s, needle, k) <==> OccursAt(s[1..], needle, k - 1)) by {
        forall k: nat | 0 < k <= j
          ensures OccursAt(s, needle, k) <==> OccursAt(s[1..], needle, k - 1)
        {
          if k + |needle| <= |s| {
            TailSlice(s, k, |needle|);
          }
        }
      }
      1 + j
  }

  /** Slicing the tail of s one place earlier gives the same piece. */
  lemma TailSlice(s: string, k: nat, n: nat)
    requires 0 < k && k + n <= |s|
    ensures s[1..][k - 1..k - 1 + n] == s[k..k + n]
  {
    var a, b := s[1..][k - 1..k - 1 + n], s[k..k + n];
    forall t | 0 <= t < n
      ensures a[t] == b[t]
    {
    }
    assert a == b;
  }

  // ---------------------------------------------------------------------
  // Lemmas about tokenising

  /** The last word of x + w is w when x is empty or ends in whitespace. */
  lemma {:induction false} LastWordAfterSpace(x: string, w: string)
    requires x == [] || IsSpace(x[|x| - 1])
    requires NoSpace(w)
    ensures LastWord(x + w) == w
  {
    if w != [] {
      var w' := w[..|w| - 1];
      assert NoSpace(w');
      assert !IsSpace(w[|w| - 1]);
      assert (x + w)[..|x + w| - 1] == x + w';
      assert (x + w)[|x + w| - 1] == w[|w| - 1];
      LastWordAfterSpace(x, w');
      assert LastWord(x + w) == LastWord(x + w') + [w[|w| - 1]];
      assert w == w' + [w[|w| - 1]];
    } else {
      assert x + w == x;
    }
  }

  /** Trailing whitespace does not change the tokens. */
  lemma WordsTrailingSpace(a: string, c: char)
    requires IsSpace(c)
    ensures Words(a + [c]) == Words(a)
  {
    assert (a + [c])[..|a|] == a;
    assert TrimEnd(a + [c]) == TrimEnd(a);
  }

  /** Appending a whitespace character and a word appends one token. */
  lemma WordsSnoc(a: string, c: char, w: string)
    requires IsSpace(c) && IsWord(w)
    ensures Words(a + [c] + w) == Words(a) + [w]
  {
    var s := a + [c] + w;
    assert s[|s| - 1] == w[|w| - 1];
    assert TrimEnd(s) == s;
    assert (a + [c]) + w == s;
    LastWordAfterSpace(a + [c], w);
    assert s[..|s| - |w|] == a + [c];
    WordsTrailingSpace(a, c);
  }

  /** A single word is its own only token. */
  lemma WordsOfWord(w: string)
    requires IsWord(w)
    ensures Words(w) == [w]
  {
    assert w[|w| - 1] in w;
    assert TrimEnd(w) == w;
    LastWordAfterSpace([], w);
    assert [] + w == w;
    assert w[..|w| - |w|] == [];
  }

  /** A string made only of whitespace has no tokens. */
  lemma WordsOfBlank(s: string)
    requires forall i :: 0 <= i < |s| ==> IsSpace(s[i])
    ensures Words(s) == []
  {
  }

  // ---------------------------------------------------------------------
  // Lemmas about split(c) and join

  lemma {:induction false} JoinConsHead(sep: string, ch: char, x: string, ys: seq<string>)
    ensures Join(sep, [[ch] + x] + ys) == [ch] + Join(sep, [x] + ys)
  {
    if |ys| == 0 {
    } else {
      assert ([[ch] + x] + ys)[1..] == ys;
      assert ([x] + ys)[1..] == ys;
    }
  }

  /** c.join(s.split(c)) == s. */
  lemma {:induction false} JoinSplitOn(s: string, c: char)
    ensures Join([c], SplitOn(s, c)) == s
  {
    if |s| > 0 {
      var rest := SplitOn(s[1..], c);
      JoinSplitOn(s[1..], c);
      if s[0] == c {
        assert ([""] + rest)[1..] == rest;
        assert s == [c] + s[1..];
      } else {
        assert [rest[0]] + rest[1..] == rest;
        JoinConsHead([c], s[0], rest[0], rest[1..]);
        assert s == [s[0]] + s[1..];
      }
    }
  }

  /** A string without the separator is one piece. */
  lemma {:induction false} SplitOnNoSep(a: string, c: char)
    requires c !in a
    ensures SplitOn(a, c) == [a]
  {
    if |a| > 0 {
      assert a[1..] == [] || a[1..][0] in a;
      SplitOnNoSep(a[1..], c);
      assert [a[0]] + a[1..] == a;
    }
  }

  /** Splitting piece by piece: the part before the first separator comes first. */
  lemma {:induction false} SplitOnCons(a: string, c: char, b: string)
    requires c !in a
    ensures SplitOn(a + [c] + b, c) == [a] + SplitOn(b, c)
  {
    var s := a + [c] + b;
    if |a| == 0 {
      assert s[1..] == b;
    } else {
      assert s[1..] == a[1..] + [c] + b;
      assert a[0] in a;
      SplitOnCons(a[1..], c, b);
      assert [a[0]] + a[1..] == a;
    }
  }

  /** s.split(c) undoes c.join(xs) when no piece contains c. */
  lemma {:induction false} SplitOnJoin(xs: seq<string>, c: char)
    requires |xs| >= 1
    requires forall k :: 0 <= k < |xs| ==> c !in xs[k]
    ensures SplitOn(Join([c], xs), c) == xs
  {
    if |xs| == 1 {
      SplitOnNoSep(xs[0], c);
    } else {
      SplitOnCons(xs[0], c, Join([c], xs[1..]));
      SplitOnJoin(xs[1..], c);
      assert [xs[0]] + xs[1..] == xs;
    }
  }

  lemma JoinOfThree(sep: string, a: string, b: string, c: string)
    ensures Join(sep, [a, b, c]) == a + sep + b + sep + c
  {
    assert [a, b, c][1..] == [b, c];
    assert [b, c][1..] == [c];
    assert Join(sep, [b, c]) == b + sep + c;
  }

  /** Three pieces free of c, joined by c, split back into those three. */
  lemma SplitThree(a: string, b: string, d: string, c: char)
    requires c !in a && c !in b && c !in d
    ensures SplitOn(a + [c] + b + [c] + d, c) == [a, b, d]
  {
    var xs := [a, b, d];
    forall k | 0 <= k < |xs|
      ensures c !in xs[k]
    {
    }
    SplitOnJoin(xs, c);
    JoinOfThree([c], a, b, d);
  }

  /** Joining pieces free of a character, with a separator free of it, never
      produces that character. */
  lemma {:induction false} JoinAvoids(sep: string, xs: seq<string>, c: char)
    requires c !in sep
    requires forall k :: 0 <= k < |xs| ==> c !in xs[k]
    ensures c !in Join(sep, xs)
  {
    if |xs| > 1 {
      JoinAvoids(sep, xs[1..], c);
    }
  }

  /** Joining with a one-character separator is the same as replacing that
      separator: c.join(s.split(c)) with c later turned into d. */
  lemma {:induction false} JoinSplitIsReplace(s: string, c: char, d: char)
    ensures Join([d], SplitOn(s, c)) == Replace(s, c, d)
  {
    if |s| > 0 {
      var rest := SplitOn(s[1..], c);
      JoinSplitIsReplace(s[1..], c, d);
      if s[0] == c {
        assert ([""] + rest)[1..] == rest;
      } else {
        assert [rest[0]] + rest[1..] == rest;
        JoinConsHead([d], s[0], rest[0], rest[1..]);
      }
    }
  }

  /** split() only cuts: a character absent from s is absent from every token. */
  lemma PrefixAvoids(s: string, j: nat, c: char)
    requires c !in s && j <= |s|
    ensures c !in s[..j]
  {
    forall k | 0 <= k < j
      ensures s[..j][k] != c
    {
      assert s[..j][k] == s[k] && s[k] in s;
    }
  }

  lemma SuffixAvoids(s: string, i: nat, c: char)
    requires c !in s && i <= |s|
    ensures c !in s[i..]
  {
    forall k | 0 <= k < |s| - i
      ensures s[i..][k] != c
    {
      assert s[i..][k] == s[i + k] && s[i + k] in s;
    }
  }

  lemma {:induction false} WordsAvoid(s: string, c: char)
    requires c !in s
    ensures forall k :: 0 <= k < |Words(s)| ==> c !in Words(s)[k]
    decreases |s|
  {
    var t := TrimEnd(s);
    if |t| > 0 {
      var w := LastWord(t);
      var head := t[..|t| - |w|];
      PrefixAvoids(s, |t|, c);
      SuffixAvoids(t, |t| - |w|, c);
      PrefixAvoids(t, |t| - |w|, c);
      WordsAvoid(head, c);
      var ws := Words(head);
      assert Words(s) == ws + [w];
      forall k | 0 <= k < |ws| + 1
        ensures c !in (ws + [w])[k]
      {
        if k < |ws| {
          assert (ws + [w])[k] == ws[k];
        } else {
          assert (ws + [w])[k] == w;
        }
      }
    }
  }

  /** IndexOf finds the first occurrence. */
  lemma IndexOfFirst(s: string, needle: string, j: nat)
    requires OccursAt(s, needle, j)
    requires forall k: nat :: k < j ==> !OccursAt(s, needle, k)
    ensures IndexOf(s, needle) == j
  {
  }

  /** One differing character rules a prefix out. */
  lemma DiffersAt(s: string, prefix: string, i: nat)
    requires i < |prefix| && i < |s| && s[i] != prefix[i]
    ensures !StartsWith(s, prefix)
  {
    if |prefix| <= |s| {
      assert s[..|prefix|][i] != prefix[i];
    }
  }

  /** A differing last character rules a suffix out. */
  lemma LastDiffers(s: string, suffix: string)
    requires 0 < |suffix| && 0 < |s| && s[|s| - 1] != suffix[|suffix| - 1]
    ensures !EndsWith(s, suffix)
  {
    if |suffix| <= |s| {
      assert s[|s| - |suffix|..][|suffix| - 1] == s[|s| - 1];
    }
  }
}
