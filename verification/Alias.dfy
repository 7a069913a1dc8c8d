/** Model names and their alias keys (sdk/api/control/alias.go). */
module Alias {
  import opened Wrappers
  import opened Text

  /** The white space that a regular expression's class of that name stands for in Go. */
  predicate IsSpace(c: char) {
    c == ' ' || c == '\t' || c == LF || c == '\U{0C}' || c == CR
  }

  predicate HasSpace(s: string) {
    exists i :: 0 <= i < |s| && IsSpace(s[i])
  }

  /** An optional suffix: a dash and at least one more character, none a line feed. */
  predicate IsSuffix(c: string) {
    c != "" ==> |c| > 1 && c[0] == '-' && LF !in c[1..]
  }

  /** id is the family a, a colon, the size b and the optional suffix c. */
  predicate Matches(id: string, a: string, b: string, c: string) {
    && id == a + ":" + b + c
    && a != "" && ':' !in a
    && b != "" && '-' !in b && !HasSpace(b)
    && IsSuffix(c)
  }

  function Find(s: string, c: char): (n: nat)
    ensures n <= |s|
  {
    match IndexOf(s, c)
    case None => |s|
    case Some(i) => i
  }

  /** The groups of the source's one match, or None. */
  function Split(id: string): Option<(string, string, string)> {
    var i := Find(id, ':');
    if i == 0 || i == |id| then None
    else
      var rest := id[i + 1..];
      var j := Find(rest, '-');
      if j == 0 || HasSpace(rest[..j]) || !IsSuffix(rest[j..]) then None
      else Some((id[..i], rest[..j], rest[j..]))
  }

  function AliasKey(id: string): Option<string> {
    match Split(id)
    case None => None
    case Some(m) => Some(m.0 + ":" + m.1)
  }

  lemma {:induction false} FindAfter(a: string, c: char, rest: string)
    requires c !in a && (rest != "" ==> rest[0] == c)
    ensures Find(a + rest, c) == |a|
  {
    if a == "" {
      assert a + rest == rest;
    } else {
      assert (a + rest)[1..] == a[1..] + rest;
      FindAfter(a[1..], c, rest);
    }
  }

  lemma FindIsFirst(s: string, c: char)
    ensures c !in s[..Find(s, c)]
    ensures Find(s, c) < |s| ==> s[Find(s, c)] == c
  {
    if IndexOf(s, c).Some? { IndexOfIsFirst(s, c); }
  }

  lemma SplitFinds(id: string, a: string, b: string, c: string)
    requires Matches(id, a, b, c)
    ensures Split(id) == Some((a, b, c))
  {
    assert id == a + (":" + b + c);
    FindAfter(a, ':', ":" + b + c);
    assert id[|a| + 1..] == b + c;
    FindAfter(b, '-', c);
    assert (b + c)[..|b|] == b && (b + c)[|b|..] == c;
  }

  lemma CutAt(s: string, i: nat)
    requires i < |s|
    ensures s == s[..i] + [s[i]] + s[i + 1..]
  {
  }

  lemma CutIn2(s: string, i: nat)
    requires i <= |s|
    ensures s == s[..i] + s[i..]
  {
  }

  lemma SplitMatches(id: string)
    ensures Split(id).Some? ==> Matches(id, Split(id).value.0, Split(id).value.1, Split(id).value.2)
  {
    if Split(id).Some? {
      var i := Find(id, ':');
      var rest := id[i + 1..];
      var j := Find(rest, '-');
      FindIsFirst(id, ':');
      FindIsFirst(rest, '-');
      CutAt(id, i);
      CutIn2(rest, j);
      assert Split(id).value == (id[..i], rest[..j], rest[j..]);
      assert id == id[..i] + ":" + rest[..j] + rest[j..];
    }
  }

  /** The expression matches in at most one way, and Split finds it. */
  lemma {:induction false} SplitIff(id: string, a: string, b: string, c: string)
    ensures Split(id) == Some((a, b, c)) <==> Matches(id, a, b, c)
  {
    SplitMatches(id);
    if Matches(id, a, b, c) { SplitFinds(id, a, b, c); }
  }

  /** A name without a key matches in no way at all. */
  lemma {:induction false} NoKeyIff(id: string)
    ensures AliasKey(id) == None <==> forall a, b, c :: !Matches(id, a, b, c)
  {
    SplitMatches(id);
    forall a, b, c | Matches(id, a, b, c) ensures AliasKey(id).Some? {
      SplitFinds(id, a, b, c);
    }
  }

  /** A key is its own key, so that each class of aliases has its key as a member. */
  lemma {:induction false} KeyIsItsOwnKey(id: string)
    requires AliasKey(id).Some?
    ensures AliasKey(AliasKey(id).value) == AliasKey(id)
  {
    SplitMatches(id);
    var m := Split(id).value;
    var key := m.0 + ":" + m.1;
    assert key == m.0 + ":" + m.1 + "";
    SplitFinds(key, m.0, m.1, "");
  }

  predicate Aliases(x: string, y: string) {
    AliasKey(x).Some? && AliasKey(x) == AliasKey(y)
  }

  /** Two names are aliases if and only if they differ at most in their suffixes. */
  lemma {:induction false} AliasesIff(x: string, y: string)
    ensures Aliases(x, y) <==> exists a, b, c, d :: Matches(x, a, b, c) && Matches(y, a, b, d)
  {
    if Aliases(x, y) {
      SplitMatches(x);
      SplitMatches(y);
      var m, n := Split(x).value, Split(y).value;
      SameKey(m.0, m.1, n.0, n.1);
      assert Matches(x, m.0, m.1, m.2) && Matches(y, m.0, m.1, n.2);
    }
    forall a, b, c, d | Matches(x, a, b, c) && Matches(y, a, b, d) ensures Aliases(x, y) {
      SplitFinds(x, a, b, c);
      SplitFinds(y, a, b, d);
    }
  }

  lemma SameKey(a: string, b: string, a': string, b': string)
    requires a + ":" + b == a' + ":" + b' && ':' !in a && ':' !in a'
    ensures a == a' && b == b'
  {
    FindAfter(a, ':', ":" + b);
    FindAfter(a', ':', ":" + b');
    var s := a + ":" + b;
    assert s == a + (":" + b) && s == a' + (":" + b');
    assert s[..|a|] == a && s[|a| + 1..] == b && s[..|a'|] == a' && s[|a'| + 1..] == b';
  }
}
