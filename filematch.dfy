/**
  Which remote names take part in reporting (`file_matcher`), how folder
  templates are dated (`prepare_folder`), and which items of a directory
  listing a checker keeps.

  Date handling is outside the model: `DateParser` is what `dateparser.parse`
  answers at the moment it is called (it reads the clock), and `Strftime` is
  `datetime.strftime`. Both are parameters.
*/
module FileMatch {
  import opened Glob

  datatype DateTime = DateTime(year: int, month: int, day: int, hour: int, minute: int, second: int)

  type DateParser = string -> DateTime

  type Strftime = (DateTime, string) -> string

  /** Some pattern of the list matches f verbatim. */
  function AnyMatch(patterns: seq<string>, f: string): (r: bool)
    ensures r <==> exists i | 0 <= i < |patterns| :: FnMatch(patterns[i], f)
  {
    if patterns == [] then false
    else if FnMatch(patterns[0], f) then true
    else
      var rest := AnyMatch(patterns[1..], f);
      assert forall i | 1 <= i < |patterns| :: patterns[i] == patterns[1..][i - 1];
      rest
  }

  /** Every pattern rendered as a date-format template against d. */
  function Rendered(strftime: Strftime, d: DateTime, patterns: seq<string>): (r: seq<string>)
    ensures |r| == |patterns|
    ensures forall i | 0 <= i < |r| :: r[i] == strftime(d, patterns[i])
  {
    seq(|patterns|, i requires 0 <= i < |patterns| => strftime(d, patterns[i]))
  }

  /**
    `file_matcher(smart_date_pattern, base_pattern_date, patterns, f)`.
    `parse` is the date parser as it answers during this very call: with smart
    dating on, the base date is resolved anew on every call.
  */
  function FileMatcher(smartDatePattern: bool, basePatternDate: string, patterns: seq<string>,
                       parse: DateParser, strftime: Strftime, f: string): (r: bool)
    ensures f == "." || f == ".." ==> !r
  {
    if f == "." || f == ".." then false
    else
      var effective := if smartDatePattern then Rendered(strftime, parse(basePatternDate), patterns) else patterns;
      AnyMatch(effective, f)
  }

  /** Without smart dating a name other than `.`/`..` is accepted iff some pattern matches it verbatim. */
  lemma MatcherVerbatim(basePatternDate: string, patterns: seq<string>, parse: DateParser, strftime: Strftime, f: string)
    requires f != "." && f != ".."
    ensures FileMatcher(false, basePatternDate, patterns, parse, strftime, f)
        <==> exists i | 0 <= i < |patterns| :: FnMatch(patterns[i], f)
  {
  }

  /** With smart dating every pattern is first rendered through the date resolved during the call. */
  lemma MatcherSmart(basePatternDate: string, patterns: seq<string>, parse: DateParser, strftime: Strftime, f: string)
    requires f != "." && f != ".."
    ensures FileMatcher(true, basePatternDate, patterns, parse, strftime, f)
        <==> exists i | 0 <= i < |patterns| :: FnMatch(strftime(parse(basePatternDate), patterns[i]), f)
  {
    var rendered := Rendered(strftime, parse(basePatternDate), patterns);
    assert forall i | 0 <= i < |patterns| :: rendered[i] == strftime(parse(basePatternDate), patterns[i]);
  }

  /** The default pattern list `['*']` accepts every name except `.` and `..`. */
  lemma DefaultPatternsAcceptAll(basePatternDate: string, parse: DateParser, strftime: Strftime, f: string)
    ensures FileMatcher(false, basePatternDate, ["*"], parse, strftime, f) <==> f != "." && f != ".."
  {
    StarMatchesAll(f);
  }

  /** An empty pattern list accepts nothing, dated or not. */
  lemma NoPatternsAcceptNothing(smartDatePattern: bool, basePatternDate: string, parse: DateParser, strftime: Strftime, f: string)
    ensures !FileMatcher(smartDatePattern, basePatternDate, [], parse, strftime, f)
  {
  }

  /** `prepare_folder(folder)`: a folder template is rendered through the resolved base date only when smart folder dating is on. */
  function PrepareFolder(smartFolderDate: bool, baseFolderDate: string, parse: DateParser, strftime: Strftime,
                         folder: string): (r: string)
    ensures !smartFolderDate ==> r == folder
    ensures smartFolderDate ==> r == strftime(parse(baseFolderDate), folder)
  {
    if smartFolderDate then strftime(parse(baseFolderDate), folder) else folder
  }

  /** The matcher callback `functools.partial(file_matcher, smart, base, patterns)`. */
  datatype Matcher = Matcher(smart: bool, base: string, patterns: seq<string>)

  /**
    The dates a listing's matcher calls see: `parseAt(i)` is the date parser as
    it answers during the matcher call on the i-th listed item.
  */
  datatype DateEnv = DateEnv(parseAt: nat -> DateParser, strftime: Strftime)

  predicate Accepts(m: Matcher, env: DateEnv, i: nat, f: string)
  {
    FileMatcher(m.smart, m.base, m.patterns, env.parseAt(i), env.strftime, f)
  }

  /** `[x for x in items if matcher(name(x))]`. */
  function Select<T>(m: Matcher, env: DateEnv, items: seq<T>, name: T -> string): seq<T>
    decreases |items|
  {
    if items == [] then []
    else
      var n := |items| - 1;
      Select(m, env, items[..n], name) + (if Accepts(m, env, n, name(items[n])) then [items[n]] else [])
  }

  /** The positions of the listing the matcher accepts, in increasing order. */
  function AcceptedPositions<T>(m: Matcher, env: DateEnv, items: seq<T>, name: T -> string): seq<nat>
    decreases |items|
  {
    if items == [] then []
    else
      var n := |items| - 1;
      AcceptedPositions(m, env, items[..n], name) + (if Accepts(m, env, n, name(items[n])) then [n] else [])
  }

  /**
    The selection is exactly the accepted items of the listing, in listing
    order: it is the listing read at the accepted positions, and those
    positions increase.
  */
  lemma {:induction false} SelectIsAcceptedInOrder<T>(m: Matcher, env: DateEnv, items: seq<T>, name: T -> string)
    ensures var r, pos := Select(m, env, items, name), AcceptedPositions(m, env, items, name);
      && |r| == |pos|
      && (forall j | 0 <= j < |pos| :: pos[j] < |items| && r[j] == items[pos[j]])
      && (forall j, k | 0 <= j < k < |pos| :: pos[j] < pos[k])
      && (forall i | 0 <= i < |items| :: i in pos <==> Accepts(m, env, i, name(items[i])))
    decreases |items|
  {
    if items != [] {
      var n := |items| - 1;
      var front := items[..n];
      SelectIsAcceptedInOrder(m, env, front, name);
      var r0, pos0 := Select(m, env, front, name), AcceptedPositions(m, env, front, name);
      assert forall j | 0 <= j < |pos0| :: pos0[j] < n && front[pos0[j]] == items[pos0[j]];
      assert forall i | 0 <= i < n :: front[i] == items[i];
    }
  }

  /** The selection keeps only accepted items, hence never `.` or `..`. */
  lemma SelectMembers<T>(m: Matcher, env: DateEnv, items: seq<T>, name: T -> string, x: T)
    ensures x in Select(m, env, items, name) <==>
            exists i | 0 <= i < |items| :: items[i] == x && Accepts(m, env, i, name(x))
    ensures x in Select(m, env, items, name) ==> name(x) != "." && name(x) != ".."
  {
    SelectIsAcceptedInOrder(m, env, items, name);
    var r, pos := Select(m, env, items, name), AcceptedPositions(m, env, items, name);
    if x in r {
      var j :| 0 <= j < |r| && r[j] == x;
      assert items[pos[j]] == x && Accepts(m, env, pos[j], name(items[pos[j]]));
    }
    if exists i | 0 <= i < |items| :: items[i] == x && Accepts(m, env, i, name(x)) {
      var i :| 0 <= i < |items| && items[i] == x && Accepts(m, env, i, name(x));
      assert i in pos;
      var j :| 0 <= j < |pos| && pos[j] == i;
      assert r[j] == x;
    }
  }
}
