/** Python's fnmatch.fnmatch on POSIX: shell-style wildcards matched against
    the whole name, case-sensitively. `*` matches any run of characters
    (including `/` and newlines), `?` any one character, `[...]` one
    character of a class and `[!...]` one character outside it; a `[`
    without a closing `]` stands for itself. */
module Glob {
  import opened Text

  predicate IsMeta(c: char)
  {
    c == '*' || c == '?' || c == '['
  }

  /** A pattern without wildcards: it can only match itself. */
  predicate NoMeta(p: string)
  {
    forall i :: 0 <= i < |p| ==> !IsMeta(p[i])
  }

  /** First index at or after i holding c, or |p|. */
  function FindFrom(p: string, i: nat, c: char): (j: nat)
    requires i <= |p|
    ensures i <= j <= |p|
    ensures j < |p| ==> p[j] == c
    ensures forall k :: i <= k < j ==> p[k] != c
    decreases |p| - i
  {
    if i == |p| || p[i] == c then i else FindFrom(p, i + 1, c)
  }

  /** Where the class opened by p[0] == '[' closes: a `!` right after the
      bracket, and then a `]` right after that, belong to the class; the
      class ends at the next `]`. Returns |p| when there is none. */
  function ClassClose(p: string): (j: nat)
    requires |p| > 0
    ensures 1 <= j <= |p|
    ensures j < |p| ==> p[j] == ']'
  {
    var j1 := if 1 < |p| && p[1] == '!' then 2 else 1;
    var j2 := if j1 < |p| && p[j1] == ']' then j1 + 1 else j1;
    FindFrom(p, j2, ']')
  }

  /** c is one of the class items: single characters and ranges `a-z`. */
  predicate InItems(items: string, c: char)
    decreases |items|
  {
    if |items| == 0 then false
    else if |items| >= 3 && items[1] == '-' then (items[0] <= c <= items[2]) || InItems(items[3..], c)
    else items[0] == c || InItems(items[1..], c)
  }

  /** The body between the brackets; a leading `!` negates it. */
  predicate InClass(body: string, c: char)
  {
    if |body| > 0 && body[0] == '!' then !InItems(body[1..], c) else InItems(body, c)
  }

  /** fnmatch.fnmatch(name, pat). */
  predicate Fnmatch(name: string, pat: string)
    decreases |pat|, |name|
  {
    if |pat| == 0 then |name| == 0
    else if pat[0] == '*' then Fnmatch(name, pat[1..]) || (|name| > 0 && Fnmatch(name[1..], pat))
    else if pat[0] == '?' then |name| > 0 && Fnmatch(name[1..], pat[1..])
    else if pat[0] == '[' && ClassClose(pat) < |pat| then
      var j := ClassClose(pat);
      |name| > 0 && InClass(pat[1..j], name[0]) && Fnmatch(name[1..], pat[j + 1..])
    else |name| > 0 && name[0] == pat[0] && Fnmatch(name[1..], pat[1..])
  }

  /** `*` alone matches every name. */
  lemma {:induction false} StarMatchesAll(name: string)
    ensures Fnmatch(name, "*")
  {
    assert "*"[1..] == "";
    if |name| > 0 {
      StarMatchesAll(name[1..]);
    }
  }

  /** Without wildcards, matching is whole-string equality. */
  lemma {:induction false} LiteralMatch(name: string, pat: string)
    requires NoMeta(pat)
    ensures Fnmatch(name, pat) <==> name == pat
  {
    if |pat| > 0 {
      assert !IsMeta(pat[0]);
      LiteralMatch(if |name| > 0 then name[1..] else name, pat[1..]);
      if |name| > 0 {
        assert name == [name[0]] + name[1..];
        assert pat == [pat[0]] + pat[1..];
      }
    }
  }

  /** A literal prefix followed by `*` matches exactly the names that start
      with that prefix. */
  lemma {:induction false} PrefixStarMatch(name: string, prefix: string)
    requires NoMeta(prefix)
    ensures Fnmatch(name, prefix + "*") <==> StartsWith(name, prefix)
  {
    if |prefix| == 0 {
      assert prefix + "*" == "*";
      StarMatchesAll(name);
    } else {
      var pat := prefix + "*";
      assert pat[0] == prefix[0] && !IsMeta(pat[0]);
      assert pat[1..] == prefix[1..] + "*";
      if |name| > 0 {
        PrefixStarMatch(name[1..], prefix[1..]);
        if StartsWith(name[1..], prefix[1..]) && name[0] == prefix[0] {
          assert name[..|prefix|] == [name[0]] + name[1..][..|prefix| - 1];
          assert prefix == [prefix[0]] + prefix[1..];
        }
        if StartsWith(name, prefix) {
          assert name[1..][..|prefix| - 1] == name[..|prefix|][1..];
        }
      }
    }
  }

  /** A class matches any one of its members and nothing else: "/[aio]"
      as a pattern matches "/a" but not the text "/[aio]" itself. */
  lemma ClassIsOneCharacter()
    ensures Fnmatch("/a", "/[aio]")
    ensures !Fnmatch("/[aio]", "/[aio]")
  {
    var p := "/[aio]";
    var q := p[1..];
    assert q == "[aio]";
    assert q[1] == 'a' && q[4] == ']';
    assert FindFrom(q, 4, ']') == 4;
    assert FindFrom(q, 3, ']') == 4;
    assert FindFrom(q, 2, ']') == 4;
    assert FindFrom(q, 1, ']') == 4;
    assert ClassClose(q) == 4;
    assert p[1..][1..4] == "aio";
    assert p[1..][5..] == "";
    assert "/a"[1..] == "a" && "a"[1..] == "";
    assert InItems("aio", 'a');
    assert "/[aio]"[1..] == "[aio]";
    assert "[aio]"[1..] == "aio]";
  }
}
