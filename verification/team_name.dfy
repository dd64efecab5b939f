/**
 * Cleaning of team names: every match of the regular expression `\s*\(.*?\)`
 * is deleted, scanning left to right as Python's `re.sub` does. `\s` is any
 * character for which Python's `str.isspace` holds, `.` is any character
 * except a line feed, and `.*?` is lazy, so a match ends at the first `)`.
 */
module TeamName {
  import opened Wrappers

  /** The characters Python's `str.isspace` accepts, which `\s` matches. */
  predicate IsSpace(c: char)
    ensures c == ' ' || c == '\t' || c == '\n' || c == '\r' || c == '\U{B}' || c == '\U{C}' ==> IsSpace(c)
    ensures IsSpace(c) ==> c != '(' && c != ')' && !('0' <= c <= '9') && !('A' <= c <= 'z')
  {
    ('\U{9}' <= c <= '\U{D}') || ('\U{1C}' <= c <= '\U{20}') || c == '\U{85}' ||
    c == '\U{A0}' || c == '\U{1680}' || ('\U{2000}' <= c <= '\U{200A}') ||
    c == '\U{2028}' || c == '\U{2029}' || c == '\U{202F}' || c == '\U{205F}' ||
    c == '\U{3000}'
  }

  /** Length of the whitespace run at the start of `s` (what the greedy `\s*` takes). */
  function SpaceRun(s: string): (n: nat)
    ensures n <= |s|
    ensures forall i :: 0 <= i < n ==> IsSpace(s[i])
    ensures n == |s| || !IsSpace(s[n])
  {
    if s == [] || !IsSpace(s[0]) then 0 else 1 + SpaceRun(s[1..])
  }

  /**
   * Where the lazy `.*?\)` starting at `from` ends: the first `)` at or after
   * `from`, provided no line feed comes before it.
   */
  function CloseParen(s: string, from: nat): (k: Option<nat>)
    requires from <= |s|
    ensures k.Some? ==> from <= k.value < |s| && s[k.value] == ')' &&
                        ')' !in s[from..k.value] && '\n' !in s[from..k.value]
    ensures k.None? ==> forall j :: from <= j < |s| && s[j] == ')' ==> '\n' in s[from..j]
    decreases |s| - from
  {
    if from == |s| || s[from] == '\n' then None
    else if s[from] == ')' then Some(from)
    else
      var k := CloseParen(s, from + 1);
      assert k.Some? ==> s[from..k.value] == [s[from]] + s[from + 1..k.value];
      assert forall j :: from + 1 <= j <= |s| ==> s[from..j] == [s[from]] + s[from + 1..j];
      k
  }

  /** Length of the match of `\s*\(.*?\)` at the start of `s`, if there is one. */
  function MatchLen(s: string): (n: Option<nat>)
    ensures n.Some? ==> var j := SpaceRun(s);
      2 <= n.value <= |s| && j < n.value - 1 && s[j] == '(' && s[n.value - 1] == ')' &&
      ')' !in s[j + 1..n.value - 1] && '\n' !in s[j + 1..n.value - 1]
    ensures n.None? && SpaceRun(s) < |s| && s[SpaceRun(s)] == '(' ==>
      forall j :: SpaceRun(s) < j < |s| && s[j] == ')' ==> '\n' in s[SpaceRun(s) + 1..j]
  {
    var j := SpaceRun(s);
    if j < |s| && s[j] == '(' then
      match CloseParen(s, j + 1)
      case Some(k) => Some(k + 1)
      case None => None
    else None
  }

  /** The team name with every parenthesised annotation and the whitespace before it removed. */
  function CleanName(s: string): (r: string)
    ensures |r| <= |s|
    decreases |s|
  {
    if s == [] then []
    else match MatchLen(s)
      case Some(n) => CleanName(s[n..])
      case None => [s[0]] + CleanName(s[1..])
  }

  /** Cleaning only deletes characters: the result's characters are drawn from the input's. */
  lemma {:induction false} CleanOnlyDeletes(s: string)
    ensures multiset(CleanName(s)) <= multiset(s)
    decreases |s|
  {
    if s != [] {
      match MatchLen(s)
      case Some(n) =>
        assert CleanName(s) == CleanName(s[n..]);
        CleanOnlyDeletes(s[n..]);
        assert s == s[..n] + s[n..];
        assert multiset(s) == multiset(s[..n]) + multiset(s[n..]);
      case None =>
        assert CleanName(s) == [s[0]] + CleanName(s[1..]);
        CleanOnlyDeletes(s[1..]);
        assert s == [s[0]] + s[1..];
        assert multiset(s) == multiset([s[0]]) + multiset(s[1..]);
    }
  }

  /** No `(` in `s` is followed, anywhere later, by a `)`. */
  predicate NoParenPair(s: string)
  {
    forall i, k :: 0 <= i < k < |s| && s[i] == '(' ==> s[k] != ')'
  }

  /** A name without any `(` ... `)` pair is left as it is. */
  lemma {:induction false} CleanKeepsPairFree(s: string)
    requires NoParenPair(s)
    ensures CleanName(s) == s
    decreases |s|
  {
    if s != [] {
      assert MatchLen(s).None?;
      CleanKeepsPairFree(s[1..]);
      assert s == [s[0]] + s[1..];
    }
  }

  /** In particular, a name containing no `(` is unchanged. */
  lemma CleanKeepsNameWithoutParen(s: string)
    requires '(' !in s
    ensures CleanName(s) == s
  {
    CleanKeepsPairFree(s);
  }

  /** A cleaned name without line feeds has no `(` followed later by a `)`. */
  lemma {:induction false} CleanLeavesNoPair(s: string)
    requires '\n' !in s
    ensures NoParenPair(CleanName(s))
    decreases |s|
  {
    if s != [] {
      match MatchLen(s)
      case Some(n) =>
        NoNewlineInSuffix(s, n);
        CleanLeavesNoPair(s[n..]);
      case None =>
        NoNewlineInSuffix(s, 1);
        CleanLeavesNoPair(s[1..]);
        var tail := CleanName(s[1..]);
        if s[0] == '(' {
          UnclosedParen(s);
          CleanOnlyDeletes(s[1..]);
          assert multiset(s[1..])[')'] == 0;
          assert multiset(tail)[')'] == 0;
        }
        ConsNoPair(s[0], tail);
    }
  }

  lemma NoNewlineInSuffix(s: string, n: nat)
    requires '\n' !in s && n <= |s|
    ensures '\n' !in s[n..]
  {
  }

  /** An opening `(` that starts no match has no `)` after it on its line. */
  lemma UnclosedParen(s: string)
    requires '\n' !in s && s != [] && s[0] == '(' && MatchLen(s).None?
    ensures ')' !in s[1..]
  {
    assert SpaceRun(s) == 0;
    forall j | 1 <= j < |s| ensures s[j] != ')' {
    }
  }

  lemma ConsNoPair(c: char, tail: string)
    requires NoParenPair(tail)
    requires c == '(' ==> ')' !in tail
    ensures NoParenPair([c] + tail)
  {
    var r := [c] + tail;
    forall i, k | 0 <= i < k < |r| && r[i] == '(' ensures r[k] != ')' {
      assert r[k] == tail[k - 1];
      if i > 0 {
        assert r[i] == tail[i - 1];
      }
    }
  }

  /** For names without line feeds cleaning is idempotent. */
  lemma CleanIdempotent(s: string)
    requires '\n' !in s
    ensures CleanName(CleanName(s)) == CleanName(s)
  {
    CleanLeavesNoPair(s);
    CleanKeepsPairFree(CleanName(s));
  }

  /**
   * An annotation (whitespace, `(`, text without `)` or line feed, `)`) at
   * the start of a name is removed as a whole.
   */
  lemma {:induction false} CleanDropsLeadingAnnotation(sp: string, note: string, rest: string)
    requires forall i :: 0 <= i < |sp| ==> IsSpace(sp[i])
    requires ')' !in note && '\n' !in note
    ensures CleanName(sp + "(" + note + ")" + rest) == CleanName(rest)
  {
    var t := "(" + note + ")" + rest;
    var s := sp + t;
    var k := |sp| + 1 + |note|;
    AnnotationShape(sp, note, rest);
    SpaceRunOver(sp, t);
    CloseParenAt(s, |sp| + 1, k);
    assert MatchLen(s) == Some(k + 1);
    CleanSkipsMatch(s);
  }

  /**
   * A prefix without `(` that does not end in whitespace is kept whole:
   * no match can start inside it.
   */
  lemma {:induction false} CleanKeepsPrefix(s: string, m: nat)
    requires m <= |s|
    requires forall i :: 0 <= i < m ==> s[i] != '('
    requires m == 0 || !IsSpace(s[m - 1])
    ensures CleanName(s) == s[..m] + CleanName(s[m..])
    decreases m
  {
    if m == 0 {
      assert s[m..] == s;
    } else {
      NoMatchInPlainPrefix(s, m);
      CleanKeepsFirst(s);
      PlainPrefixShift(s, m);
      var tail := s[1..];
      CleanKeepsPrefix(tail, m - 1);
      PrefixRejoin(s, m, CleanName(s[m..]));
      assert tail[m - 1..] == s[m..];
    }
  }

  /** Where the parts of an annotated name sit in the joined string. */
  lemma AnnotationShape(sp: string, note: string, rest: string)
    requires ')' !in note && '\n' !in note
    ensures var s := sp + ("(" + note + ")" + rest); var k := |sp| + 1 + |note|;
      s[|sp|] == '(' && s[k] == ')' && s[k + 1..] == rest &&
      (forall i :: |sp| + 1 <= i < k ==> s[i] != ')' && s[i] != '\n') &&
      sp + "(" + note + ")" + rest == s
  {
    var s := sp + ("(" + note + ")" + rest);
    var k := |sp| + 1 + |note|;
    assert forall i :: |sp| + 1 <= i < k ==> s[i] == note[i - |sp| - 1];
    assert s[k + 1..] == rest;
  }

  /** The lazy `.*?\)` stops at the first `)` when no line feed comes first. */
  lemma {:induction false} CloseParenAt(s: string, from: nat, k: nat)
    requires from <= k < |s| && s[k] == ')'
    requires forall i :: from <= i < k ==> s[i] != ')' && s[i] != '\n'
    ensures CloseParen(s, from) == Some(k)
    decreases k - from
  {
    if from < k {
      CloseParenAt(s, from + 1, k);
    }
  }

  lemma PlainPrefixShift(s: string, m: nat)
    requires 0 < m <= |s|
    requires forall i :: 0 <= i < m ==> s[i] != '('
    requires !IsSpace(s[m - 1])
    ensures forall i :: 0 <= i < m - 1 ==> s[1..][i] != '('
    ensures m - 1 == 0 || !IsSpace(s[1..][m - 2])
  {
  }

  lemma PrefixRejoin(s: string, m: nat, x: string)
    requires 0 < m <= |s|
    ensures [s[0]] + (s[1..][..m - 1] + x) == s[..m] + x
    ensures s[1..][m - 1..] == s[m..]
  {
    assert [s[0]] + s[1..][..m - 1] == s[..m];
  }

  /** Where a match starts, it is dropped whole. */
  lemma CleanSkipsMatch(s: string)
    requires s != [] && MatchLen(s).Some?
    ensures CleanName(s) == CleanName(s[MatchLen(s).value..])
  {
  }

  /** Where no match starts, the first character is kept. */
  lemma CleanKeepsFirst(s: string)
    requires s != [] && MatchLen(s).None?
    ensures CleanName(s) == [s[0]] + CleanName(s[1..])
  {
  }

  /** No match starts at a string that opens with a non-empty prefix of that kind. */
  lemma NoMatchInPlainPrefix(s: string, m: nat)
    requires 0 < m <= |s|
    requires forall i :: 0 <= i < m ==> s[i] != '('
    requires !IsSpace(s[m - 1])
    ensures MatchLen(s).None?
  {
    var j := SpaceRun(s);
    assert j < m;
  }

  /**
   * A name followed by whitespace and one annotation loses exactly the
   * whitespace and the annotation; what follows the `)` is cleaned in turn.
   */
  lemma CleanDropsAnnotation(name: string, sp: string, note: string, rest: string)
    requires '(' !in name
    requires name == [] || !IsSpace(name[|name| - 1])
    requires forall i :: 0 <= i < |sp| ==> IsSpace(sp[i])
    requires ')' !in note && '\n' !in note
    ensures CleanName(name + sp + "(" + note + ")" + rest) == name + CleanName(rest)
  {
    var t := sp + "(" + note + ")" + rest;
    var s := name + t;
    assert name + sp + "(" + note + ")" + rest == s;
    CleanKeepsPrefix(s, |name|);
    assert s[..|name|] == name && s[|name|..] == t;
    CleanDropsLeadingAnnotation(sp, note, rest);
  }

  lemma {:induction false} SpaceRunOver(sp: string, t: string)
    requires forall i :: 0 <= i < |sp| ==> IsSpace(sp[i])
    requires t != [] && !IsSpace(t[0])
    ensures SpaceRun(sp + t) == |sp|
    decreases |sp|
  {
    if sp != [] {
      assert (sp + t)[1..] == sp[1..] + t;
      SpaceRunOver(sp[1..], t);
    }
  }

  /** The case the cleaning was written for. */
  lemma CleanEverton(s: string)
    requires s == "Everton (-8)"
    ensures CleanName(s) == "Everton"
  {
    var name, sp, note := "Everton", " ", "-8";
    assert s == name + sp + "(" + note + ")" + [];
    CleanDropsAnnotation(name, sp, note, []);
  }

  /**
   * Why the pair-freedom results need names without line feeds: `.` does not
   * match a line feed, so the outer `(` below starts no match, while `\s*`
   * does take the line feed in front of the inner group.
   */
  lemma CleanAcrossLineFeed(s: string)
    requires s == "(a\n(b)c)"
    ensures CleanName(s) == "(ac)"
    ensures !NoParenPair(CleanName(s))
  {
    assert CloseParen(s, 1) == None by {
      assert s[2] == '\n';
    }
    assert CleanName(s) == [s[0]] + CleanName(s[1..]);
    CleanAcrossLineFeedTail(s[1..]);
    var r := CleanName(s);
    assert r[0] == '(' && r[3] == ')';
  }

  lemma CleanAcrossLineFeedTail(s: string)
    requires s == "a\n(b)c)"
    ensures CleanName(s) == "ac)"
  {
    var name, sp, note, rest := "a", "\n", "b", "c)";
    assert s == name + sp + "(" + note + ")" + rest;
    CleanDropsAnnotation(name, sp, note, rest);
    CleanKeepsNameWithoutParen(rest);
  }

  /**
   * Cleaning is not idempotent once a line feed is allowed: the result of
   * "(a\n(b)c)" is "(ac)", which a second pass deletes.
   */
  lemma CleanTwiceAcrossLineFeed(s: string)
    requires s == "(a\n(b)c)"
    ensures CleanName(s) == "(ac)"
    ensures CleanName(CleanName(s)) == []
    ensures CleanName(CleanName(s)) != CleanName(s)
  {
    CleanAcrossLineFeed(s);
    var sp, note, rest := [], "ac", [];
    CleanDropsLeadingAnnotation(sp, note, rest);
    assert sp + "(" + note + ")" + rest == CleanName(s);
  }
}
