/**
  Shell-style name matching as `fnmatch.fnmatch` does it on POSIX, where it is
  case-sensitive: `*` matches any run of characters, `?` any one character,
  `[seq]` one character in seq, `[!seq]` one character not in seq, and every
  other character stands for itself. A `[` without a closing `]` is literal.

  A pattern is first split into tokens, the way `fnmatch.translate` turns it
  into a regular expression; the tokens are then matched against the whole name.
*/
module Glob {

  /** One member of a bracket set: a character, or an inclusive range `lo-hi`. */
  datatype ClassItem = Single(c: char) | Span(lo: char, hi: char)

  datatype Token =
    | Literal(c: char)
    | AnyChar                                        // ?
    | AnyRun                                         // *
    | CharSet(negated: bool, items: seq<ClassItem>)  // [seq] and [!seq]

  predicate Covers(item: ClassItem, c: char)
  {
    match item
    case Single(x) => c == x
    case Span(lo, hi) => lo <= c <= hi   // a reversed range covers nothing
  }

  predicate InSet(items: seq<ClassItem>, c: char)
  {
    exists i | 0 <= i < |items| :: Covers(items[i], c)
  }

  /** The index of the first `]` at or after j, or |p| when there is none. */
  function SetEnd(p: string, j: nat): (k: nat)
    requires j <= |p|
    ensures j <= k <= |p|
    ensures k < |p| ==> p[k] == ']'
    ensures forall i | j <= i < k :: p[i] != ']'
    decreases |p| - j
  {
    if j == |p| || p[j] == ']' then j else SetEnd(p, j + 1)
  }

  /**
    The members of a bracket set, read left to right: `x-y` is a range unless
    the `-` is the last character of the set, everything else is literal.
  */
  function Items(body: string): seq<ClassItem>
  {
    if body == [] then []
    else if |body| >= 3 && body[1] == '-' then [Span(body[0], body[2])] + Items(body[3..])
    else [Single(body[0])] + Items(body[1..])
  }

  function Tokens(p: string): seq<Token>
    decreases |p|
  {
    if p == [] then []
    else if p[0] == '*' then [AnyRun] + Tokens(p[1..])
    else if p[0] == '?' then [AnyChar] + Tokens(p[1..])
    else if p[0] == '[' then
      // a `!` and then a `]` right after the opening bracket belong to the set
      var afterBang := if 1 < |p| && p[1] == '!' then 2 else 1;
      var start := if afterBang < |p| && p[afterBang] == ']' then afterBang + 1 else afterBang;
      var close := SetEnd(p, start);
      if close == |p| then [Literal('[')] + Tokens(p[1..])
      else
        var body := p[1..close];
        [if body[0] == '!' then CharSet(true, Items(body[1..])) else CharSet(false, Items(body))]
          + Tokens(p[close + 1..])
    else [Literal(p[0])] + Tokens(p[1..])
  }

  /** Whether a single-character token accepts c. */
  predicate Admits(t: Token, c: char)
  {
    match t
    case AnyRun => true
    case AnyChar => true
    case Literal(x) => c == x
    case CharSet(negated, items) => InSet(items, c) != negated
  }

  /** Whether the tokens match the whole of s. */
  predicate MatchTokens(ts: seq<Token>, s: string)
    decreases |ts| + |s|
  {
    if ts == [] then s == []
    else if ts[0].AnyRun? then MatchTokens(ts[1..], s) || (s != [] && MatchTokens(ts, s[1..]))
    else s != [] && Admits(ts[0], s[0]) && MatchTokens(ts[1..], s[1..])
  }

  lemma OneToken(t: Token, s: string)
    requires !t.AnyRun?
    ensures MatchTokens([t], s) <==> |s| == 1 && Admits(t, s[0])
  {
    assert [t][1..] == [];
    if s != [] {
      assert MatchTokens([], s[1..]) <==> |s| == 1;
    }
  }

  /** `fnmatch.fnmatch(name, pattern)` on POSIX. */
  predicate FnMatch(pattern: string, name: string)
  {
    MatchTokens(Tokens(pattern), name)
  }

  /** A pattern with no wildcard and no bracket. */
  predicate Plain(s: string)
  {
    forall i | 0 <= i < |s| :: s[i] != '*' && s[i] != '?' && s[i] != '['
  }

  function Literals(s: string): seq<Token>
  {
    if s == [] then [] else [Literal(s[0])] + Literals(s[1..])
  }

  lemma {:induction false} PlainTokens(x: string, rest: string)
    requires Plain(x)
    ensures Tokens(x + rest) == Literals(x) + Tokens(rest)
  {
    if x == [] {
      assert x + rest == rest;
    } else {
      assert (x + rest)[0] == x[0];
      assert (x + rest)[1..] == x[1..] + rest;
      PlainTokens(x[1..], rest);
    }
  }

  lemma {:induction false} MatchLiterals(x: string, ts: seq<Token>, s: string)
    ensures MatchTokens(Literals(x) + ts, s) <==> x <= s && MatchTokens(ts, s[|x|..])
  {
    if x == [] {
      assert Literals(x) + ts == ts;
    } else {
      var all := Literals(x) + ts;
      assert all[0] == Literal(x[0]);
      assert all[1..] == Literals(x[1..]) + ts;
      if s != [] {
        MatchLiterals(x[1..], ts, s[1..]);
        if |x| <= |s| {
          assert s[1..][|x| - 1..] == s[|x|..];
        }
        assert x <= s <==> x[0] == s[0] && x[1..] <= s[1..];
      }
    }
  }

  /** A plain pattern matches exactly itself. */
  lemma PlainPattern(p: string, s: string)
    requires Plain(p)
    ensures FnMatch(p, s) <==> s == p
  {
    PlainTokens(p, []);
    assert p + [] == p;
    assert Literals(p) + [] == Literals(p);
    MatchLiterals(p, [], s);
  }

  lemma {:induction false} AnyRunMatchesAll(s: string)
    ensures MatchTokens([AnyRun], s)
  {
    if s != [] {
      AnyRunMatchesAll(s[1..]);
    }
  }

  /** `*` (the default pattern) matches every name. */
  lemma StarMatchesAll(s: string)
    ensures FnMatch("*", s)
  {
    assert Tokens("*") == [AnyRun];
    AnyRunMatchesAll(s);
  }

  /** `?` matches exactly the one-character names. */
  lemma QuestionMarkMatchesOneChar(s: string)
    ensures FnMatch("?", s) <==> |s| == 1
  {
    assert Tokens("?") == [AnyChar];
    OneToken(AnyChar, s);
  }

  predicate EndsWith(s: string, x: string)
  {
    |x| <= |s| && s[|s| - |x|..] == x
  }

  lemma {:induction false} AnyRunThenLiterals(x: string, s: string)
    ensures MatchTokens([AnyRun] + Literals(x), s) <==> EndsWith(s, x)
    decreases |s|
  {
    var ts := [AnyRun] + Literals(x);
    assert ts[1..] == Literals(x);
    MatchLiterals(x, [], s);
    assert Literals(x) + [] == Literals(x);
    if s != [] {
      AnyRunThenLiterals(x, s[1..]);
      if |x| < |s| {
        assert s[1..][|s| - 1 - |x|..] == s[|s| - |x|..];
      }
    }
  }

  /** `*` followed by a plain suffix (such as `*.txt`) matches exactly the names ending in it. */
  lemma StarSuffix(x: string, s: string)
    requires Plain(x)
    ensures FnMatch("*" + x, s) <==> EndsWith(s, x)
  {
    assert ("*" + x)[1..] == x;
    PlainTokens(x, []);
    assert x + [] == x;
    assert Literals(x) + [] == Literals(x);
    assert Tokens("*" + x) == [AnyRun] + Literals(x);
    AnyRunThenLiterals(x, s);
  }

  /** A plain prefix followed by `*` matches exactly the names starting with it. */
  lemma PrefixStar(x: string, s: string)
    requires Plain(x)
    ensures FnMatch(x + "*", s) <==> x <= s
  {
    PlainTokens(x, "*");
    assert Tokens("*") == [AnyRun];
    MatchLiterals(x, [AnyRun], s);
    if x <= s {
      AnyRunMatchesAll(s[|x|..]);
    }
  }

  /** A set of single characters (no `-`, no `]`). */
  predicate SinglesOnly(body: string)
  {
    forall i | 0 <= i < |body| :: body[i] != '-' && body[i] != ']'
  }

  lemma {:induction false} SinglesItems(body: string, c: char)
    requires SinglesOnly(body)
    ensures InSet(Items(body), c) <==> c in body
  {
    if body != [] {
      var rest := Items(body[1..]);
      assert |body| >= 3 ==> body[1] != '-';
      assert Items(body) == [Single(body[0])] + rest;
      SinglesItems(body[1..], c);
      var items := Items(body);
      if InSet(items, c) && c != body[0] {
        var i :| 0 <= i < |items| && Covers(items[i], c);
        assert i > 0 && items[i] == rest[i - 1];
        assert InSet(rest, c);
      }
      if InSet(rest, c) {
        var i :| 0 <= i < |rest| && Covers(rest[i], c);
        assert items[i + 1] == rest[i];
      }
      assert Covers(items[0], body[0]);
      assert body == [body[0]] + body[1..];
      assert c in body <==> c == body[0] || c in body[1..];
    }
  }

  /** `[seq]` matches exactly the one-character names whose character is in seq. */
  lemma SetPattern(body: string, s: string)
    requires body != [] && body[0] != '!' && SinglesOnly(body)
    ensures FnMatch("[" + body + "]", s) <==> |s| == 1 && s[0] in body
  {
    var p := "[" + body + "]";
    assert p[1] == body[0];
    var close := SetEnd(p, 1);
    assert p[|body| + 1] == ']';
    assert forall i | 1 <= i < |body| + 1 :: p[i] == body[i - 1];
    assert close == |body| + 1;
    assert p[1..close] == body;
    assert p[close + 1..] == [];
    assert Tokens(p) == [CharSet(false, Items(body))];
    OneToken(CharSet(false, Items(body)), s);
    if s != [] {
      SinglesItems(body, s[0]);
    }
  }

  /** `[!seq]` matches exactly the one-character names whose character is not in seq. */
  lemma NegatedSetPattern(body: string, s: string)
    requires body != [] && SinglesOnly(body)
    ensures FnMatch("[!" + body + "]", s) <==> |s| == 1 && s[0] !in body
  {
    var p := "[!" + body + "]";
    assert p[1] == '!' && p[2] == body[0];
    var close := SetEnd(p, 2);
    assert p[|body| + 2] == ']';
    assert forall i | 2 <= i < |body| + 2 :: p[i] == body[i - 2];
    assert close == |body| + 2;
    assert p[1..close] == "!" + body;
    assert p[close + 1..] == [];
    assert Tokens(p) == [CharSet(true, Items(body))];
    OneToken(CharSet(true, Items(body)), s);
    if s != [] {
      SinglesItems(body, s[0]);
    }
  }

  /**
    A `[` with no `]` anywhere after it stands for itself, whether or not a
    `!` follows it; the rest of the pattern is read as usual.
  */
  lemma UnclosedBracketIsLiteral(x: string, s: string)
    requires ']' !in x
    ensures Tokens("[" + x) == [Literal('[')] + Tokens(x)
    ensures FnMatch("[" + x, s) <==> s != [] && s[0] == '[' && FnMatch(x, s[1..])
  {
    var p := "[" + x;
    assert p[1..] == x;
    assert forall i | 1 <= i < |p| :: p[i] == x[i - 1];
    var afterBang := if 1 < |p| && p[1] == '!' then 2 else 1;
    assert afterBang < |p| ==> p[afterBang] != ']';
    var close := SetEnd(p, afterBang);
    assert close == |p|;
    var ts := [Literal('[')] + Tokens(x);
    assert ts[1..] == Tokens(x);
  }

  /**
    A token list without `*` matches exactly the names of its own length whose
    every character its token at that position admits.
  */
  lemma {:induction false} FixedLength(ts: seq<Token>, s: string)
    requires forall i | 0 <= i < |ts| :: !ts[i].AnyRun?
    ensures MatchTokens(ts, s) <==> |s| == |ts| && forall i | 0 <= i < |s| :: Admits(ts[i], s[i])
    decreases |ts|
  {
    if ts != [] && s != [] {
      FixedLength(ts[1..], s[1..]);
      assert forall i | 1 <= i < |s| :: s[1..][i - 1] == s[i];
      assert forall i | 1 <= i < |ts| :: ts[1..][i - 1] == ts[i];
    }
  }

  /** `*` in front of a pattern lets it match any suffix of the name. */
  lemma {:induction false} AnyRunSkips(ts: seq<Token>, s: string)
    ensures MatchTokens([AnyRun] + ts, s) <==> exists i | 0 <= i <= |s| :: MatchTokens(ts, s[i..])
    decreases |s|
  {
    var all := [AnyRun] + ts;
    assert all[1..] == ts;
    assert s[0..] == s;
    if s != [] {
      AnyRunSkips(ts, s[1..]);
      assert forall i | 1 <= i <= |s| :: s[1..][i - 1..] == s[i..];
      if exists i | 0 <= i <= |s| :: MatchTokens(ts, s[i..]) {
        var i :| 0 <= i <= |s| && MatchTokens(ts, s[i..]);
        if i > 0 {
          assert MatchTokens(ts, s[1..][i - 1..]);
        }
      }
    }
  }

  /** `*x` matches a name iff x matches some suffix of it. */
  lemma StarPrefix(x: string, s: string)
    ensures FnMatch("*" + x, s) <==> exists i | 0 <= i <= |s| :: FnMatch(x, s[i..])
  {
    assert ("*" + x)[1..] == x;
    assert Tokens("*" + x) == [AnyRun] + Tokens(x);
    AnyRunSkips(Tokens(x), s);
  }
}
