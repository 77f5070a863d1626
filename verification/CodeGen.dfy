/** The definition parser of the code generator and the client signatures it prints. The two
    regular expressions of the parser are given twice: as the positions at which a match may be
    cut into its pieces, and as scanners. */
module CodeGen {
  import opened Wrappers

  datatype Arg = Arg(typ: string, name: string)

  datatype Definition = Definition(result: Arg, name: string, args: seq<Arg>)

  /** The character classes of the expressions: `\s`, `[a-zA-Z]` and `.`. */
  datatype Class = Space | Letter | Dot

  predicate In(c: char, k: Class) {
    match k
    case Space => c == ' ' || c == '\t' || c == '\n' || c == '\r' || c == '\U{B}' || c == '\U{C}'
    case Letter => 'a' <= c <= 'z' || 'A' <= c <= 'Z'
    case Dot => c != '\n' && c != '\r'
  }

  /** The same by code: the letters of the alphabet, the blanks of the C locale, and everything that
      does not end a line. */
  lemma Classes(c: char)
    ensures In(c, Letter) <==> 65 <= c as int <= 90 || 97 <= c as int <= 122
    ensures In(c, Space) <==> 9 <= c as int <= 13 || c as int == 32
    ensures In(c, Dot) <==> c as int != 10 && c as int != 13
  {
  }

  /** The characters from `i` up to `j` are all of one class. */
  predicate Run(s: string, k: Class, i: nat, j: nat) {
    i <= j <= |s| && forall x | i <= x < j :: In(s[x], k)
  }

  /** Where the longest run of a class that starts at `i` ends. */
  function End(s: string, k: Class, i: nat): (j: nat)
    requires i <= |s|
    ensures i <= j <= |s|
    decreases |s| - i
  {
    if i < |s| && In(s[i], k) then End(s, k, i + 1) else i
  }

  lemma {:induction false} EndRun(s: string, k: Class, i: nat)
    requires i <= |s|
    ensures var j := End(s, k, i); Run(s, k, i, j) && (j < |s| ==> !In(s[j], k))
    decreases |s| - i
  {
    if i < |s| && In(s[i], k) {
      EndRun(s, k, i + 1);
    }
  }

  lemma {:induction false} EndIs(s: string, k: Class, i: nat, j: nat)
    requires Run(s, k, i, j) && (j < |s| ==> !In(s[j], k))
    ensures End(s, k, i) == j
    decreases j - i
  {
    if i < j {
      EndIs(s, k, i + 1, j);
    }
  }

  /** The position of the last `)` in `[from, limit)`, or -1. */
  function LastClose(s: string, from: nat, limit: nat): (p: int)
    requires from <= limit <= |s|
    ensures p == -1 || (from <= p < limit && s[p] == ')')
    decreases limit
  {
    if from == limit then -1
    else if s[limit - 1] == ')' then limit - 1
    else LastClose(s, from, limit - 1)
  }

  // ----- the first expression: type, name and parameter list -----

  /** Where the pieces of a match end: leading blanks, type, blanks, name, blanks; and the
      position of the closing parenthesis. */
  datatype Cuts = Cuts(i0: nat, i1: nat, i2: nat, i3: nat, i4: nat, close: nat)

  /** The first expression can match at position `i` with these cuts. */
  predicate MatchesAt(s: string, i: nat, c: Cuts) {
    && Run(s, Space, i, c.i0)
    && Run(s, Letter, c.i0, c.i1) && c.i0 < c.i1
    && Run(s, Space, c.i1, c.i2) && c.i1 < c.i2
    && Run(s, Letter, c.i2, c.i3) && c.i2 < c.i3
    && Run(s, Space, c.i3, c.i4)
    && c.i4 < |s| && s[c.i4] == '('
    && Run(s, Dot, c.i4 + 1, c.close) && c.close < |s| && s[c.close] == ')'
  }

  function ScanAt(s: string, i: nat): (r: Option<Cuts>)
    requires i <= |s|
    ensures r.Some? ==>
              var c := r.value; i <= c.i0 < c.i1 < c.i2 < c.i3 <= c.i4 < c.close < |s|
  {
    var i0 := End(s, Space, i);
    var i1 := End(s, Letter, i0);
    var i2 := End(s, Space, i1);
    var i3 := End(s, Letter, i2);
    var i4 := End(s, Space, i3);
    if i0 == i1 || i1 == i2 || i2 == i3 || i4 == |s| || s[i4] != '(' then None
    else
      var close := LastClose(s, i4 + 1, End(s, Dot, i4 + 1));
      if close < 0 then None else Some(Cuts(i0, i1, i2, i3, i4, close))
  }

  lemma ScanAtSound(s: string, i: nat)
    requires i <= |s| && ScanAt(s, i).Some?
    ensures MatchesAt(s, i, ScanAt(s, i).value)
  {
    var c := ScanAt(s, i).value;
    EndRun(s, Space, i);
    EndRun(s, Letter, c.i0);
    EndRun(s, Space, c.i1);
    EndRun(s, Letter, c.i2);
    EndRun(s, Space, c.i3);
    EndRun(s, Dot, c.i4 + 1);
  }

  lemma {:induction false} LastCloseIsLast(s: string, from: nat, limit: nat, close: nat)
    requires from <= close < limit <= |s| && s[close] == ')'
    ensures close <= LastClose(s, from, limit)
    decreases limit
  {
    if close < limit - 1 && s[limit - 1] != ')' {
      LastCloseIsLast(s, from, limit - 1, close);
    }
  }

  lemma {:induction false} RunBelowEnd(s: string, k: Class, i: nat, j: nat)
    requires Run(s, k, i, j) && j < |s| && In(s[j], k)
    ensures j < End(s, k, i)
    decreases j - i
  {
    if i < j {
      RunBelowEnd(s, k, i + 1, j);
    }
  }

  lemma ScanAtComplete(s: string, i: nat, c: Cuts)
    requires i <= |s| && MatchesAt(s, i, c)
    ensures ScanAt(s, i).Some? && c == ScanAt(s, i).value.(close := c.close)
    ensures c.close <= ScanAt(s, i).value.close
  {
    EndIs(s, Space, i, c.i0);
    EndIs(s, Letter, c.i0, c.i1);
    EndIs(s, Space, c.i1, c.i2);
    EndIs(s, Letter, c.i2, c.i3);
    EndIs(s, Space, c.i3, c.i4);
    RunBelowEnd(s, Dot, c.i4 + 1, c.close);
    LastCloseIsLast(s, c.i4 + 1, End(s, Dot, c.i4 + 1), c.close);
  }

  /** The first position from `i` on that is a hit, or `n`. */
  function First(hit: nat -> bool, n: nat, i: nat := 0): (r: nat)
    requires i <= n
    ensures i <= r <= n
    decreases n - i
  {
    if i == n || hit(i) then i else First(hit, n, i + 1)
  }

  lemma {:induction false} FirstIsFirst(hit: nat -> bool, n: nat, i: nat, j: nat)
    requires i <= j <= n && hit(j)
    ensures First(hit, n, i) <= j && hit(First(hit, n, i))
    decreases n - i
  {
    if i < j && !hit(i) {
      FirstIsFirst(hit, n, i + 1, j);
    }
  }

  ghost predicate Shifted(f: nat -> bool, g: nat -> bool, d: nat, n: nat) {
    forall k: nat | k <= n :: f(d + k) == g(k)
  }

  lemma {:induction false} FirstShift(f: nat -> bool, g: nat -> bool, d: nat, n: nat, i: nat)
    requires i <= n && Shifted(f, g, d, n)
    ensures First(f, d + n, d + i) == d + First(g, n, i)
    decreases n - i
  {
    assert f(d + i) == g(i);
    if i < n {
      FirstShift(f, g, d, n, i + 1);
    }
  }

  function Hits(s: string): nat -> bool {
    (i: nat) => i <= |s| && ScanAt(s, i).Some?
  }

  /** `regex_search`: the first position at which the scanner succeeds, or the end. */
  function FirstAt(s: string): (r: nat)
    ensures r <= |s|
  {
    First(Hits(s), |s|)
  }

  lemma FirstAtIsFirst(s: string, j: nat)
    requires j <= |s| && ScanAt(s, j).Some?
    ensures FirstAt(s) <= j && ScanAt(s, FirstAt(s)).Some?
  {
    assert Hits(s)(j);
    FirstIsFirst(Hits(s), |s|, 0, j);
    assert Hits(s)(FirstAt(s));
  }

  /** The search succeeds if the expression matches anywhere; then it takes the first position
      at which it does, and the match with the longest parameter list there. */
  lemma SearchIsLeftmost(s: string)
    ensures var r := FirstAt(s);
            && (ScanAt(s, r).Some? ==> MatchesAt(s, r, ScanAt(s, r).value))
            && (forall i: nat, c | i <= |s| && MatchesAt(s, i, c) :: ScanAt(s, r).Some? && r <= i)
            && (forall c | MatchesAt(s, r, c) ::
                  ScanAt(s, r).Some? && c == ScanAt(s, r).value.(close := c.close)
                  && c.close <= ScanAt(s, r).value.close)
  {
    var r := FirstAt(s);
    if ScanAt(s, r).Some? {
      ScanAtSound(s, r);
    }
    forall i: nat, c | i <= |s| && MatchesAt(s, i, c) ensures ScanAt(s, r).Some? && r <= i {
      ScanAtComplete(s, i, c);
      FirstAtIsFirst(s, i);
    }
    forall c | MatchesAt(s, r, c)
      ensures ScanAt(s, r).Some? && c == ScanAt(s, r).value.(close := c.close)
      ensures c.close <= ScanAt(s, r).value.close
    {
      ScanAtComplete(s, r, c);
    }
  }

  // ----- the second expression: one argument -----

  datatype ArgCuts = ArgCuts(j1: nat, j2: nat, end: nat)

  /** The second expression can match greedily at position `i` with these cuts. */
  predicate MatchesArgAt(s: string, i: nat, c: ArgCuts) {
    && Run(s, Letter, i, c.j1) && i < c.j1
    && Run(s, Space, c.j1, c.j2) && c.j1 < c.j2
    && Run(s, Letter, c.j2, c.end) && c.j2 < c.end
    && (c.end < |s| ==> !In(s[c.end], Letter))
  }

  function ScanArgAt(s: string, i: nat): (r: Option<ArgCuts>)
    requires i <= |s|
    ensures r.Some? ==> i < r.value.j1 < r.value.j2 < r.value.end <= |s|
  {
    var j1 := End(s, Letter, i);
    var j2 := End(s, Space, j1);
    var end := End(s, Letter, j2);
    if i == j1 || j1 == j2 || j2 == end then None else Some(ArgCuts(j1, j2, end))
  }

  lemma ScanArgAtIff(s: string, i: nat, c: ArgCuts)
    requires i <= |s|
    ensures ScanArgAt(s, i) == Some(c) <==> MatchesArgAt(s, i, c)
  {
    if MatchesArgAt(s, i, c) {
      EndIs(s, Letter, i, c.j1);
      EndIs(s, Space, c.j1, c.j2);
      EndIs(s, Letter, c.j2, c.end);
    }
    if ScanArgAt(s, i) == Some(c) {
      EndRun(s, Letter, i);
      EndRun(s, Space, c.j1);
      EndRun(s, Letter, c.j2);
    }
  }

  function ArgHits(s: string): nat -> bool {
    (i: nat) => i <= |s| && ScanArgAt(s, i).Some?
  }

  function FirstArgAt(s: string): (r: nat)
    ensures r <= |s|
  {
    First(ArgHits(s), |s|)
  }

  /** What a match at position `i` captures, and the suffix behind it. */
  function Captured(s: string, i: nat, c: ArgCuts): (Arg, string)
    requires i <= c.j1 <= c.j2 <= c.end <= |s|
  {
    (Arg(s[i..c.j1], s[c.j2..c.end]), s[c.end..])
  }

  function ArgFrom(s: string, i: nat): (r: Option<(Arg, string)>)
    requires i <= |s|
    ensures r.Some? ==> |r.value.1| < |s|
  {
    match ScanArgAt(s, i)
    case None => None
    case Some(c) => Some(Captured(s, i, c))
  }

  /** `regex_search` for the next argument. */
  function NextArg(s: string): (r: Option<(Arg, string)>)
    ensures r.Some? ==> |r.value.1| < |s|
  {
    ArgFrom(s, FirstArgAt(s))
  }

  /** The argument search succeeds if the expression matches anywhere; then it captures the match
      at the first position at which there is one. */
  lemma NextArgIsLeftmost(s: string)
    ensures NextArg(s).None? ==> forall i: nat, c | i <= |s| :: !MatchesArgAt(s, i, c)
    ensures NextArg(s).Some? ==>
              exists r: nat, c | r <= |s| && MatchesArgAt(s, r, c) ::
                && NextArg(s).value == (Arg(s[r..c.j1], s[c.j2..c.end]), s[c.end..])
                && forall i: nat, d | i <= |s| && MatchesArgAt(s, i, d) :: r < i || (r == i && c == d)
  {
    var r := FirstArgAt(s);
    forall i: nat, d | i <= |s| && MatchesArgAt(s, i, d) ensures ScanArgAt(s, r).Some? && r <= i {
      ScanArgAtIff(s, i, d);
      assert ArgHits(s)(i);
      FirstIsFirst(ArgHits(s), |s|, 0, i);
      assert ArgHits(s)(r);
    }
    if ScanArgAt(s, r).Some? {
      var c := ScanArgAt(s, r).value;
      ScanArgAtIff(s, r, c);
      forall d | MatchesArgAt(s, r, d) ensures c == d {
        ScanArgAtIff(s, r, d);
      }
    }
  }

  // ----- the parser -----

  /** The argument loop: it ends because every match leaves a shorter suffix. */
  function ParseArgs(params: string): seq<Arg>
    decreases |params|
  {
    var next := NextArg(params);
    if next.None? then [] else [next.value.0] + ParseArgs(next.value.1)
  }

  function FindHeader(line: string): (r: Option<Cuts>)
    ensures r.Some? ==>
              var c := r.value; c.i0 < c.i1 < c.i2 < c.i3 <= c.i4 < c.close < |line|
  {
    ScanAt(line, FirstAt(line))
  }

  /** What a match of the first expression says about the definition. */
  function Defined(line: string, c: Cuts): Definition
    requires c.i0 <= c.i1 <= c.i2 <= c.i3 <= c.i4 < c.close < |line|
  {
    Assembled(line, c, ParseArgs(ParamList(line, c)))
  }

  function ParamList(line: string, c: Cuts): string
    requires c.i4 < c.close < |line|
  {
    line[c.i4 + 1..c.close]
  }

  function Assembled(line: string, c: Cuts, args: seq<Arg>): Definition
    requires c.i0 <= c.i1 <= c.i2 <= c.i3 <= |line|
  {
    Definition(Arg(line[c.i0..c.i1], "result"), line[c.i2..c.i3], args)
  }

  function Parse(line: string): Option<Definition> {
    var found := FindHeader(line);
    if found.None? then None else Some(Defined(line, found.value))
  }

  /** `parse_func_def`, with its loop over the shortening parameter string. */
  method ParseFuncDef(line: string) returns (ok: bool, result: Arg, name: string, args: seq<Arg>)
    ensures ok <==> exists i: nat, c | i <= |line| :: MatchesAt(line, i, c)
    ensures ok ==> Describes(line, Definition(result, name, args))
    ensures Parse(line) == if ok then Some(Definition(result, name, args)) else None
  {
    result, name, args := Arg("", ""), "", [];
    Accepts(line);
    var found := FindHeader(line);
    if found.None? {
      return false, result, name, args;
    }
    var d := Define(line, found.value);
    ParseIff(line, d);
    return true, d.result, d.name, d.args;
  }

  method Define(line: string, c: Cuts) returns (d: Definition)
    requires c.i0 <= c.i1 <= c.i2 <= c.i3 <= c.i4 < c.close < |line|
    ensures d == Defined(line, c)
  {
    var args := ParseParams(ParamList(line, c));
    return Assembled(line, c, args);
  }

  method ParseParams(all: string) returns (args: seq<Arg>)
    ensures ArgumentsOf(all, args)
    ensures args == ParseArgs(all)
  {
    args := [];
    var params := all;
    var next := NextArg(params);
    while next.Some?
      invariant next == NextArg(params)
      invariant args + ParseArgs(params) == ParseArgs(all)
      decreases |params|
    {
      NextCollected(args, params);
      args := args + [next.value.0];
      params := next.value.1;
      next := NextArg(params);
    }
    ParseArgsIff(all, args);
  }

  lemma NextCollected(args: seq<Arg>, params: string)
    requires NextArg(params).Some?
    ensures var next := NextArg(params).value;
            args + ParseArgs(params) == args + [next.0] + ParseArgs(next.1)
  {
  }

  // ----- what the parser collects, without its searches -----

  datatype Match = Match(at: nat, cuts: ArgCuts)

  /** Where the second expression matches in a string, and how. */
  function Matching(s: string): (nat, ArgCuts) -> bool {
    (i: nat, c: ArgCuts) => MatchesArgAt(s, i, c)
  }

  ghost predicate NoneBetween(matches: (nat, ArgCuts) -> bool, i: nat, j: nat) {
    forall x: nat, c | i <= x < j :: !matches(x, c)
  }

  /** The first match from position `from` on. */
  ghost predicate FirstFrom(matches: (nat, ArgCuts) -> bool, from: nat, m: Match) {
    from <= m.at && matches(m.at, m.cuts) && NoneBetween(matches, from, m.at)
  }

  /** Where the search for match `k` begins: where the one before ends. */
  function Start(ms: seq<Match>, from: nat, k: nat): nat
    requires k <= |ms|
  {
    if k == 0 then from else ms[k - 1].cuts.end
  }

  /** These are the successive matches from `from` on, and there is none behind the last up to
      position `n`. */
  ghost predicate AllMatches(matches: (nat, ArgCuts) -> bool, n: nat, from: nat, ms: seq<Match>) {
    && (forall k {:trigger Start(ms, from, k)} | 0 <= k < |ms| :: FirstFrom(matches, Start(ms, from, k), ms[k]))
    && NoneBetween(matches, Start(ms, from, |ms|), n + 1)
  }

  /** A match lies within the string. */
  predicate Inside(s: string, m: Match) {
    m.at < m.cuts.j1 < m.cuts.j2 < m.cuts.end <= |s|
  }

  /** The arguments are the pieces of these matches. */
  ghost predicate PiecesOf(s: string, ms: seq<Match>, args: seq<Arg>) {
    && |args| == |ms|
    && forall k | 0 <= k < |ms| ::
         Inside(s, ms[k])
         && args[k] == Arg(s[ms[k].at..ms[k].cuts.j1], s[ms[k].cuts.j2..ms[k].cuts.end])
  }

  ghost predicate ArgumentsOf(params: string, args: seq<Arg>) {
    exists ms :: AllMatches(Matching(params), |params|, 0, ms) && PiecesOf(params, ms, args)
  }

  /** Position `i` is the leftmost one with a match of the first expression, and `c` the match
      there with the longest parameter list. */
  ghost predicate HeaderAt(line: string, i: nat, c: Cuts) {
    && i <= |line| && MatchesAt(line, i, c)
    && forall j: nat, e | j <= |line| && MatchesAt(line, j, e) :: i < j || (i == j && e.close <= c.close)
  }

  /** The definition is what the line says at such a match. */
  ghost predicate Says(line: string, c: Cuts, d: Definition) {
    && c.i0 <= c.i1 <= c.i2 <= c.i3 <= c.i4 < c.close < |line|
    && d.result == Arg(line[c.i0..c.i1], "result") && d.name == line[c.i2..c.i3]
    && ArgumentsOf(line[c.i4 + 1..c.close], d.args)
  }

  ghost predicate Describes(line: string, d: Definition) {
    exists i, c :: HeaderAt(line, i, c) && Says(line, c, d)
  }

  // Lists of matches in general.

  ghost predicate Single(matches: (nat, ArgCuts) -> bool) {
    forall i, c, d | matches(i, c) && matches(i, d) :: c == d
  }

  lemma MatchesCons(matches: (nat, ArgCuts) -> bool, n: nat, e: nat, m: Match, later: seq<Match>)
    requires FirstFrom(matches, e, m) && AllMatches(matches, n, m.cuts.end, later)
    ensures AllMatches(matches, n, e, [m] + later)
  {
    var ms := [m] + later;
    forall k {:trigger Start(ms, e, k)} | 0 <= k < |ms| ensures FirstFrom(matches, Start(ms, e, k), ms[k]) {
      if k > 0 {
        assert Start(ms, e, k) == Start(later, m.cuts.end, k - 1);
      }
    }
    assert Start(ms, e, |ms|) == Start(later, m.cuts.end, |later|);
  }

  lemma OneFirst(matches: (nat, ArgCuts) -> bool, from: nat, m: Match, n: Match)
    requires Single(matches) && FirstFrom(matches, from, m) && FirstFrom(matches, from, n)
    ensures m == n
  {
    assert m.at == n.at;
  }

  lemma {:induction false} SameMatches(matches: (nat, ArgCuts) -> bool, n: nat, from: nat, ms: seq<Match>, ns: seq<Match>, k: nat)
    requires Single(matches) && AllMatches(matches, n, from, ms) && AllMatches(matches, n, from, ns)
    requires k <= |ms| && k <= |ns|
    ensures Start(ms, from, k) == Start(ns, from, k)
    ensures forall i | 0 <= i < k :: ms[i] == ns[i]
    decreases k
  {
    if k > 0 {
      SameMatches(matches, n, from, ms, ns, k - 1);
      OneFirst(matches, Start(ms, from, k - 1), ms[k - 1], ns[k - 1]);
    }
  }

  lemma OneMore(matches: (nat, ArgCuts) -> bool, n: nat, from: nat, ns: seq<Match>, k: nat)
    requires AllMatches(matches, n, from, ns) && k < |ns| && ns[k].at <= n
    ensures !NoneBetween(matches, Start(ns, from, k), n + 1)
  {
    assert FirstFrom(matches, Start(ns, from, k), ns[k]);
  }

  /** The successive matches are determined. */
  lemma OneList(matches: (nat, ArgCuts) -> bool, n: nat, from: nat, ms: seq<Match>, ns: seq<Match>)
    requires Single(matches) && AllMatches(matches, n, from, ms) && AllMatches(matches, n, from, ns)
    requires |ms| <= |ns| && forall k | 0 <= k < |ns| :: ns[k].at <= n
    ensures ms == ns
  {
    SameMatches(matches, n, from, ms, ns, |ms|);
    if |ms| < |ns| {
      OneMore(matches, n, from, ns, |ms|);
    }
  }

  // Matches in a string and in its suffixes.

  function Moved(c: ArgCuts, d: nat): ArgCuts {
    ArgCuts(d + c.j1, d + c.j2, d + c.end)
  }

  lemma MatchInside(s: string, i: nat, c: ArgCuts)
    requires MatchesArgAt(s, i, c)
    ensures Inside(s, Match(i, c))
  {
  }

  lemma MatchIsOne(s: string)
    ensures Single(Matching(s))
  {
    forall i, c, d | Matching(s)(i, c) && Matching(s)(i, d) ensures c == d {
      MatchInside(s, i, c);
      ScanArgAtIff(s, i, c);
      ScanArgAtIff(s, i, d);
    }
  }

  /** A match in a suffix is a match in the whole. */
  lemma MatchInSuffix(p: string, t: string, i: nat, c: ArgCuts)
    requires i <= |t|
    ensures MatchesArgAt(t, i, c) <==> MatchesArgAt(p + t, |p| + i, Moved(c, |p|))
  {
    ScanArgAtIff(t, i, c);
    ScanArgAtIff(p + t, |p| + i, Moved(c, |p|));
    ScanArgShift(p, t, i);
    SameCuts(ScanArgAt(t, i), ScanArgAt(p + t, |p| + i), |p|, c);
  }

  lemma SameCuts(a: Option<ArgCuts>, b: Option<ArgCuts>, d: nat, c: ArgCuts)
    requires b == match a case None => None case Some(x) => Some(ArgCuts(d + x.j1, d + x.j2, d + x.end))
    ensures a == Some(c) <==> b == Some(Moved(c, d))
  {
  }

  lemma NotInSuffix(p: string, t: string, y: nat, c: ArgCuts)
    requires y <= |t| && forall d :: !MatchesArgAt(t, y, d)
    ensures !MatchesArgAt(p + t, |p| + y, c)
  {
    if |p| + y < c.j1 < c.j2 < c.end {
      var d := ArgCuts(c.j1 - |p|, c.j2 - |p|, c.end - |p|);
      MatchInSuffix(p, t, y, d);
      assert Moved(d, |p|) == c;
    }
  }

  lemma NoneInSuffix(p: string, t: string, j: nat)
    requires j <= |t| + 1 && NoneBetween(Matching(t), 0, j)
    ensures NoneBetween(Matching(p + t), |p|, |p| + j)
  {
    forall x: nat, c | |p| <= x < |p| + j ensures !MatchesArgAt(p + t, x, c) {
      var y := x - |p|;
      forall d ensures !MatchesArgAt(t, y, d) {
        assert !Matching(t)(y, d);
      }
      NotInSuffix(p, t, y, c);
    }
  }

  lemma NextArgMatch(t: string) returns (r: nat, c: ArgCuts)
    requires NextArg(t).Some?
    ensures FirstFrom(Matching(t), 0, Match(r, c)) && Inside(t, Match(r, c))
    ensures NextArg(t).value == (Arg(t[r..c.j1], t[c.j2..c.end]), t[c.end..])
  {
    NextArgIsLeftmost(t);
    r, c :| r <= |t| && MatchesArgAt(t, r, c)
      && NextArg(t).value == (Arg(t[r..c.j1], t[c.j2..c.end]), t[c.end..])
      && forall i: nat, d | i <= |t| && MatchesArgAt(t, i, d) :: r < i || (r == i && c == d);
    MatchInside(t, r, c);
    forall x: nat, d | x < r ensures !MatchesArgAt(t, x, d) {
    }
  }

  /** The next argument of a suffix is the first match in the whole from there on. */
  lemma NextInSuffix(p: string, t: string) returns (m: Match)
    requires NextArg(t).Some?
    ensures FirstFrom(Matching(p + t), |p|, m) && Inside(p + t, m) && |p| < m.cuts.end
    ensures var s := p + t;
            NextArg(t).value == (Arg(s[m.at..m.cuts.j1], s[m.cuts.j2..m.cuts.end]), s[m.cuts.end..])
  {
    var r, c := NextArgMatch(t);
    m := Match(|p| + r, Moved(c, |p|));
    MatchInSuffix(p, t, r, c);
    NoneInSuffix(p, t, r);
    CaptureShift(p, t, r, c);
  }

  lemma NothingNext(t: string)
    requires NextArg(t).None?
    ensures NoneBetween(Matching(t), 0, |t| + 1)
  {
    NextArgIsLeftmost(t);
  }

  lemma {:induction false} ParseArgsMatches(s: string, e: nat) returns (ms: seq<Match>)
    requires e <= |s|
    ensures AllMatches(Matching(s), |s|, e, ms) && PiecesOf(s, ms, ParseArgs(s[e..]))
    decreases |s| - e
  {
    var p, t := s[..e], s[e..];
    assert s == p + t;
    if NextArg(t).None? {
      NothingNext(t);
      NoneInSuffix(p, t, |t| + 1);
      ms := [];
    } else {
      var m := NextInSuffix(p, t);
      var later := ParseArgsMatches(s, m.cuts.end);
      ms := [m] + later;
      MatchesCons(Matching(s), |s|, e, m, later);
      PiecesCons(s, m, later, ParseArgs(s[m.cuts.end..]));
    }
  }

  lemma PiecesCons(s: string, m: Match, later: seq<Match>, args: seq<Arg>)
    requires Inside(s, m) && PiecesOf(s, later, args)
    ensures PiecesOf(s, [m] + later, [Arg(s[m.at..m.cuts.j1], s[m.cuts.j2..m.cuts.end])] + args)
  {
  }

  lemma SamePieces(s: string, ms: seq<Match>, a: seq<Arg>, b: seq<Arg>)
    requires PiecesOf(s, ms, a) && PiecesOf(s, ms, b)
    ensures a == b
  {
  }

  lemma ArgumentsAreParsed(params: string, args: seq<Arg>, ms: seq<Match>, ns: seq<Match>)
    requires AllMatches(Matching(params), |params|, 0, ms) && PiecesOf(params, ms, ParseArgs(params))
    requires AllMatches(Matching(params), |params|, 0, ns) && PiecesOf(params, ns, args)
    ensures args == ParseArgs(params)
  {
    MatchIsOne(params);
    if |ms| <= |ns| {
      OneList(Matching(params), |params|, 0, ms, ns);
    } else {
      OneList(Matching(params), |params|, 0, ns, ms);
    }
    SamePieces(params, ms, args, ParseArgs(params));
  }

  /** The parser collects exactly the successive matches of the second expression. */
  lemma ParseArgsIff(params: string, args: seq<Arg>)
    ensures ParseArgs(params) == args <==> ArgumentsOf(params, args)
  {
    assert params[0..] == params;
    var ms := ParseArgsMatches(params, 0);
    if ArgumentsOf(params, args) {
      var ns :| AllMatches(Matching(params), |params|, 0, ns) && PiecesOf(params, ns, args);
      ArgumentsAreParsed(params, args, ms, ns);
    }
  }

  lemma Accepts(line: string)
    ensures Parse(line).Some? <==> exists i: nat, c | i <= |line| :: MatchesAt(line, i, c)
  {
    SearchIsLeftmost(line);
  }

  lemma HeaderIff(line: string, i: nat, c: Cuts)
    ensures FindHeader(line) == Some(c) && i == FirstAt(line) <==> HeaderAt(line, i, c)
  {
    SearchIsLeftmost(line);
  }

  lemma SaysIff(line: string, c: Cuts, d: Definition)
    requires c.i0 <= c.i1 <= c.i2 <= c.i3 <= c.i4 < c.close < |line|
    ensures Defined(line, c) == d <==> Says(line, c, d)
  {
    ParseArgsIff(ParamList(line, c), d.args);
  }

  /** Parsing a line gives exactly what the line describes. */
  lemma ParseIff(line: string, d: Definition)
    ensures Parse(line) == Some(d) <==> Describes(line, d)
  {
    if FindHeader(line).Some? {
      var c := FindHeader(line).value;
      HeaderIff(line, FirstAt(line), c);
      SaysIff(line, c, d);
    }
    if Describes(line, d) {
      var i, c :| HeaderAt(line, i, c) && Says(line, c, d);
      HeaderIff(line, i, c);
      SaysIff(line, c, d);
    }
  }

  // ----- a line of the example -----

  const LINE := "int add(int a,int b, int c)"
  const PARAMS := "int a,int b, int c"
  const MATCHES := [Match(0, ArgCuts(3, 4, 5)), Match(6, ArgCuts(9, 10, 11)), Match(13, ArgCuts(16, 17, 18))]
  const ADD := Definition(Arg("int", "result"), "add", [Arg("int", "a"), Arg("int", "b"), Arg("int", "c")])

  lemma NoLetterNoMatch(s: string, x: nat, c: ArgCuts)
    requires x < |s| ==> !In(s[x], Letter)
    ensures !MatchesArgAt(s, x, c)
  {
  }

  lemma ExampleGaps()
    ensures NoneBetween(Matching(PARAMS), 0, 0) && NoneBetween(Matching(PARAMS), 5, 6)
    ensures NoneBetween(Matching(PARAMS), 11, 13) && NoneBetween(Matching(PARAMS), 18, 19)
  {
    forall x: nat, c | x in [5, 11, 12, 18] ensures !MatchesArgAt(PARAMS, x, c) {
      NoLetterNoMatch(PARAMS, x, c);
    }
  }

  lemma ExampleMatches()
    ensures AllMatches(Matching(PARAMS), |PARAMS|, 0, MATCHES)
  {
    ExampleGaps();
    assert FirstFrom(Matching(PARAMS), 0, MATCHES[0]);
    assert FirstFrom(Matching(PARAMS), 5, MATCHES[1]);
    assert FirstFrom(Matching(PARAMS), 11, MATCHES[2]);
  }

  lemma ExamplePieces()
    ensures PiecesOf(PARAMS, MATCHES, ADD.args)
  {
    assert PARAMS[0..3] == PARAMS[6..9] == PARAMS[13..16] == "int";
    assert PARAMS[4..5] == "a" && PARAMS[10..11] == "b" && PARAMS[17..18] == "c";
  }

  lemma ExampleSlices()
    ensures LINE[0..3] == "int" && LINE[4..7] == "add" && LINE[8..26] == PARAMS
  {
    SignatureParts("int", "add", PARAMS);
    assert "int" + " " + "add" + "(" + PARAMS + ")" == LINE;
  }

  lemma ExampleHeader()
    ensures HeaderAt(LINE, 0, Cuts(0, 3, 4, 7, 7, 26))
  {
  }

  /** A line of the example has three arguments, however blanks and commas stand between them. */
  lemma ExampleLine()
    ensures Parse(LINE) == Some(ADD)
  {
    ExampleHeader();
    ExampleMatches();
    ExamplePieces();
    ExampleSlices();
    assert Says(LINE, Cuts(0, 3, 4, 7, 7, 26), ADD);
    ParseIff(LINE, ADD);
  }

  // ----- printing -----

  function Join(args: seq<Arg>): string {
    if args == [] then ""
    else args[0].typ + " " + args[0].name + (if |args| == 1 then "" else ", " + Join(args[1..]))
  }

  /** Wherever a list of arguments is cut, a comma and a blank stand between the two parts; a
      single argument is its type, a blank and its name. */
  lemma {:induction false} JoinCut(a: seq<Arg>, b: seq<Arg>)
    requires a != [] && b != []
    ensures Join(a + b) == Join(a) + ", " + Join(b)
    ensures |a| == 1 ==> Join(a) == a[0].typ + " " + a[0].name
    decreases |a|
  {
    assert (a + b)[1..] == a[1..] + b;
    var front := a[0].typ + " " + a[0].name;
    if |a| == 1 {
      assert a[1..] + b == b;
      Regrouped(front, ", ", Join(b), "");
    } else {
      JoinCut(a[1..], b);
      Regrouped(front, ", ", Join(a[1..]), ", " + Join(b));
      Regrouped(Join(a[1..]), ", ", Join(b), "");
    }
  }

  lemma Regrouped(a: string, b: string, c: string, d: string)
    ensures a + (b + (c + d)) == a + (b + c) + d && a + b + c == a + (b + c)
  {
    assert b + (c + d) == b + c + d;
  }

  /** The signature line of the client source for one definition. */
  function Signature(d: Definition): string {
    d.result.typ + " " + d.name + "(" + Join(d.args) + ")"
  }

  /** The loop of `write_client_cc` that prints one signature. */
  method PrintSignature(d: Definition) returns (out: string)
    ensures out == Signature(d)
  {
    out := d.result.typ + " " + d.name + "(";
    ghost var front := out;
    for j := 0 to |d.args|
      invariant out + Join(d.args[j..]) == front + Join(d.args)
    {
      ghost var before := out;
      out := out + d.args[j].typ + " " + d.args[j].name;
      if j < |d.args| - 1 {
        out := out + ", ";
      }
      assert d.args[j..][1..] == d.args[j + 1..];
      assert out + Join(d.args[j + 1..]) == before + Join(d.args[j..]);
    }
    out := out + ")";
  }

  // ----- round trip -----

  predicate IsWord(s: string) {
    s != [] && Run(s, Letter, 0, |s|)
  }

  predicate Words(args: seq<Arg>) {
    forall i | 0 <= i < |args| :: IsWord(args[i].typ) && IsWord(args[i].name)
  }

  predicate WellFormed(d: Definition) {
    IsWord(d.result.typ) && d.result.name == "result" && IsWord(d.name) && Words(d.args)
  }

  lemma {:induction false} EndShift(p: string, s: string, k: Class, i: nat)
    requires i <= |s|
    ensures End(p + s, k, |p| + i) == |p| + End(s, k, i)
    decreases |s| - i
  {
    if i < |s| && In(s[i], k) {
      EndShift(p, s, k, i + 1);
    }
  }

  /** A prefix moves the cuts of a match behind it. */
  lemma ScanArgShift(p: string, s: string, i: nat)
    requires i <= |s|
    ensures ScanArgAt(p + s, |p| + i) ==
            match ScanArgAt(s, i)
            case None => None
            case Some(c) => Some(ArgCuts(|p| + c.j1, |p| + c.j2, |p| + c.end))
  {
    var j1 := End(s, Letter, i);
    var j2 := End(s, Space, j1);
    EndShift(p, s, Letter, i);
    EndShift(p, s, Space, j1);
    EndShift(p, s, Letter, j2);
  }

  lemma ArgHitsShift(p: string, s: string, k: nat)
    requires k <= |s|
    ensures ArgHits(p + s)(|p| + k) == ArgHits(s)(k)
  {
    ScanArgShift(p, s, k);
  }

  lemma ArgHitsShifted(p: string, s: string)
    ensures Shifted(ArgHits(p + s), ArgHits(s), |p|, |s|)
  {
    forall k: nat | k <= |s| ensures ArgHits(p + s)(|p| + k) == ArgHits(s)(k) {
      ArgHitsShift(p, s, k);
    }
  }

  lemma SliceShift(p: string, s: string, i: nat, j: nat)
    requires i <= j <= |s|
    ensures (p + s)[|p| + i..|p| + j] == s[i..j]
    ensures (p + s)[|p| + i..] == s[i..]
  {
  }

  lemma FirstAfterTwo(hit: nat -> bool, n: nat)
    requires n >= 2 && !hit(0) && !hit(1)
    ensures First(hit, n) == First(hit, n, 2)
  {
    assert First(hit, n) == First(hit, n, 1);
  }

  lemma SeparatorFirst(s: string)
    ensures FirstArgAt(", " + s) == 2 + FirstArgAt(s)
  {
    var t := ", " + s;
    EndIs(t, Letter, 0, 0);
    EndIs(t, Letter, 1, 1);
    assert !ArgHits(t)(0) && !ArgHits(t)(1);
    FirstAfterTwo(ArgHits(t), |t|);
    ArgHitsShifted(", ", s);
    FirstShift(ArgHits(t), ArgHits(s), 2, |s|, 0);
  }

  lemma CaptureShift(p: string, s: string, i: nat, c: ArgCuts)
    requires i <= c.j1 <= c.j2 <= c.end <= |s|
    ensures Captured(p + s, |p| + i, ArgCuts(|p| + c.j1, |p| + c.j2, |p| + c.end)) == Captured(s, i, c)
  {
    SliceShift(p, s, i, c.j1);
    SliceShift(p, s, c.j2, c.end);
    SliceShift(p, s, c.end, c.end);
  }

  lemma ArgShift(p: string, s: string, i: nat)
    requires i <= |s|
    ensures ArgFrom(p + s, |p| + i) == ArgFrom(s, i)
  {
    ScanArgShift(p, s, i);
    var r := ScanArgAt(s, i);
    if r.Some? {
      CaptureShift(p, s, i, r.value);
    }
  }

  lemma SkipSeparator(s: string)
    ensures NextArg(", " + s) == NextArg(s)
  {
    SeparatorFirst(s);
    ArgShift(", ", s, FirstArgAt(s));
  }

  lemma FrontCuts(a: Arg, rest: string)
    requires IsWord(a.typ) && IsWord(a.name) && (rest == "" || !In(rest[0], Letter))
    ensures var s := a.typ + " " + a.name + rest;
            var c := ArgCuts(|a.typ|, |a.typ| + 1, |a.typ| + 1 + |a.name|);
            && MatchesArgAt(s, 0, c)
            && s[0..c.j1] == a.typ && s[c.j2..c.end] == a.name && s[c.end..] == rest
  {
    var s := a.typ + " " + a.name + rest;
    var c := ArgCuts(|a.typ|, |a.typ| + 1, |a.typ| + 1 + |a.name|);
    assert s[0..c.j1] == a.typ && s[c.j2..c.end] == a.name && s[c.end..] == rest;
    RunSlice(s, Letter, 0, c.j1, a.typ);
    RunSlice(s, Letter, c.j2, c.end, a.name);
    assert c.end < |s| ==> s[c.end] == rest[0];
  }

  lemma FrontArg(a: Arg, rest: string)
    requires IsWord(a.typ) && IsWord(a.name) && (rest == "" || !In(rest[0], Letter))
    ensures NextArg(a.typ + " " + a.name + rest) == Some((a, rest))
  {
    var s := a.typ + " " + a.name + rest;
    var c := ArgCuts(|a.typ|, |a.typ| + 1, |a.typ| + 1 + |a.name|);
    FrontCuts(a, rest);
    ScanArgAtIff(s, 0, c);
    assert ArgFrom(s, 0) == Some((a, rest));
    assert FirstArgAt(s) == 0;
  }

  lemma {:induction false} ParseJoin(args: seq<Arg>)
    requires Words(args)
    ensures ParseArgs(Join(args)) == args
    decreases |args|
  {
    if args == [] {
      assert ScanArgAt("", 0).None?;
    } else {
      var rest := if |args| == 1 then "" else ", " + Join(args[1..]);
      FrontArg(args[0], rest);
      ParseJoin(args[1..]);
      if |args| == 1 {
        assert args[1..] == [];
      } else {
        SkipSeparator(Join(args[1..]));
        SameArgs(rest, Join(args[1..]));
      }
    }
  }

  lemma SameArgs(s: string, t: string)
    requires NextArg(s) == NextArg(t)
    ensures ParseArgs(s) == ParseArgs(t)
  {
  }

  lemma {:induction false} JoinInLine(args: seq<Arg>)
    requires Words(args)
    ensures Run(Join(args), Dot, 0, |Join(args)|)
    decreases |args|
  {
    if args != [] {
      JoinInLine(args[1..]);
    }
  }

  /** Parsing the printed signature of a definition gives that definition back. */
  lemma ParsePrint(d: Definition)
    requires WellFormed(d)
    ensures Parse(Signature(d)) == Some(d)
  {
    JoinInLine(d.args);
    ScanSignature(Signature(d), d.result.typ, d.name, Join(d.args));
    ParseJoin(d.args);
    ParseAtStart(Signature(d));
    DefinedIs(Signature(d), ScanAt(Signature(d), 0).value, d);
  }

  lemma DefinedIs(line: string, c: Cuts, d: Definition)
    requires c.i0 <= c.i1 <= c.i2 <= c.i3 <= c.i4 < c.close < |line|
    requires line[c.i0..c.i1] == d.result.typ && line[c.i2..c.i3] == d.name && d.result.name == "result"
    requires ParseArgs(line[c.i4 + 1..c.close]) == d.args
    ensures Defined(line, c) == d
  {
  }

  lemma ParseAtStart(line: string)
    requires ScanAt(line, 0).Some?
    ensures Parse(line) == Some(Defined(line, ScanAt(line, 0).value))
  {
    assert Hits(line)(0);
  }

  /** The first expression cuts a signature where it was put together. */
  lemma ScanSignature(s: string, typ: string, name: string, params: string)
    requires s == typ + " " + name + "(" + params + ")"
    requires IsWord(typ) && IsWord(name) && Run(params, Dot, 0, |params|)
    ensures && ScanAt(s, 0).Some?
            && var c := ScanAt(s, 0).value;
               MatchesAt(s, 0, c)
               && s[c.i0..c.i1] == typ && s[c.i2..c.i3] == name && s[c.i4 + 1..c.close] == params
  {
    var i1 := |typ|;
    var i3 := i1 + 1 + |name|;
    var c := Cuts(0, i1, i1 + 1, i3, i3, i3 + 1 + |params|);
    SignatureParts(typ, name, params);
    RunSlice(s, Letter, 0, i1, typ);
    RunSlice(s, Letter, i1 + 1, i3, name);
    RunSlice(s, Dot, i3 + 1, c.close, params);
    assert MatchesAt(s, 0, c);
    ScanAtComplete(s, 0, c);
    ScanAtSound(s, 0);
  }

  lemma SignatureParts(typ: string, name: string, params: string)
    ensures var s, i1, i3 := typ + " " + name + "(" + params + ")", |typ|, |typ| + 1 + |name|;
            && |s| == i3 + |params| + 2
            && s[0..i1] == typ && s[i1] == ' ' && s[i1 + 1..i3] == name && s[i3] == '('
            && s[i3 + 1..|s| - 1] == params && s[|s| - 1] == ')'
  {
  }

  lemma RunSlice(s: string, k: Class, i: nat, j: nat, w: string)
    requires i <= j <= |s| && s[i..j] == w && Run(w, k, 0, |w|)
    ensures Run(s, k, i, j)
  {
    assert forall x | i <= x < j :: s[x] == w[x - i];
  }

  lemma RunIsWord(s: string, i: nat, j: nat)
    requires Run(s, Letter, i, j) && i < j
    ensures IsWord(s[i..j])
  {
  }

  lemma {:induction false} ParseArgsWords(params: string)
    ensures Words(ParseArgs(params))
    decreases |params|
  {
    var i := FirstArgAt(params);
    if ScanArgAt(params, i).Some? {
      var c := ScanArgAt(params, i).value;
      ScanArgAtIff(params, i, c);
      RunIsWord(params, i, c.j1);
      RunIsWord(params, c.j2, c.end);
      ParseArgsWords(params[c.end..]);
    }
  }

  lemma DefinedWellFormed(line: string, i: nat, c: Cuts)
    requires i <= |line| && MatchesAt(line, i, c)
    ensures WellFormed(Defined(line, c))
  {
    RunIsWord(line, c.i0, c.i1);
    RunIsWord(line, c.i2, c.i3);
    ParseArgsWords(line[c.i4 + 1..c.close]);
  }

  lemma AcceptedIsWellFormed(line: string)
    requires Parse(line).Some?
    ensures WellFormed(Parse(line).value)
  {
    ScanAtSound(line, FirstAt(line));
    DefinedWellFormed(line, FirstAt(line), FindHeader(line).value);
  }

  /** A definition survives printing and parsing exactly if its types and names are made of
      letters alone: a digit, an underscore or a two-word type does not come back. */
  lemma RoundTripIff(d: Definition)
    ensures Parse(Signature(d)) == Some(d) <==> WellFormed(d)
  {
    if Parse(Signature(d)) == Some(d) {
      AcceptedIsWellFormed(Signature(d));
    }
    if WellFormed(d) {
      ParsePrint(d);
    }
  }

  /** Hence parse, print, parse is parse on every accepted line. */
  lemma ParsePrintParse(line: string)
    requires Parse(line).Some?
    ensures Parse(Signature(Parse(line).value)) == Parse(line)
  {
    AcceptedIsWellFormed(line);
    ParsePrint(Parse(line).value);
  }
}
