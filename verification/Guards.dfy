/** The preprocessor-balance checker: one pass with a depth counter and a stack of the lines that opened
    a conditional, against the grammar  S ::= empty | if S (mid S)* endif S. */
module Guards {

  /** #if, #ifdef, #ifndef; #elif, #else; #endif; anything else. */
  datatype Line = If | Mid | End | Other

  /** Derivations of S, and of S (mid S)*. */
  datatype Text = Empty | Cond(branches: Branches, rest: Text)
  datatype Branches = First(body: Text) | Then(earlier: Branches, body: Text)

  function Yield(t: Text): seq<Line> {
    match t
    case Empty => []
    case Cond(b, rest) => [If] + YieldBranches(b) + [End] + Yield(rest)
  }

  function YieldBranches(b: Branches): seq<Line> {
    match b
    case First(body) => Yield(body)
    case Then(earlier, body) => YieldBranches(earlier) + [Mid] + Yield(body)
  }

  function Directives(s: seq<Line>): seq<Line> {
    if s == [] then []
    else if s[|s| - 1] == Other then Directives(s[..|s| - 1])
    else Directives(s[..|s| - 1]) + [s[|s| - 1]]
  }

  ghost predicate IsText(s: seq<Line>) {
    exists t :: Yield(t) == Directives(s)
  }

  ghost predicate IsBranches(s: seq<Line>) {
    exists b :: YieldBranches(b) == Directives(s)
  }

  /** Line number i opens a conditional that line number j closes. */
  ghost predicate ClosedBy(lines: seq<Line>, i: nat, j: nat) {
    1 <= i < j <= |lines| && lines[j - 1] == End && IsBranches(lines[i..j - 1])
  }

  ghost predicate Closed(lines: seq<Line>, i: nat) {
    exists j :: ClosedBy(lines, i, j)
  }

  /** Line number i is an #if that nothing closes. */
  ghost predicate Hanging(lines: seq<Line>, i: nat) {
    1 <= i <= |lines| && lines[i - 1] == If && !Closed(lines, i)
  }

  function Ends(n: nat): (s: seq<Line>)
    ensures |s| == n
  {
    if n == 0 then [] else [End] + Ends(n - 1)
  }

  // ---- the verdict ----

  datatype Verdict =
    | Balanced
    | UnmatchedEnd(line: nat)
    | StrayMid(line: nat)
    | Unclosed(line: nat, depth: nat)

  /** Line number n is directive x although everything before it is balanced. */
  ghost predicate BadAt(lines: seq<Line>, n: nat, x: Line) {
    1 <= n <= |lines| && lines[n - 1] == x && IsText(lines[..n - 1])
  }

  /** What each verdict says of the file. An unclosed file lacks exactly `depth` #endif lines, and the
      line reported is the earliest #if without one. */
  ghost predicate Correct(lines: seq<Line>, v: Verdict) {
    match v
    case Balanced => IsText(lines)
    case UnmatchedEnd(n) => BadAt(lines, n, End)
    case StrayMid(n) => BadAt(lines, n, Mid)
    case Unclosed(n, d) =>
      && d > 0 && IsText(lines + Ends(d))
      && Hanging(lines, n) && (forall i: nat :: i < n ==> !Hanging(lines, i))
  }

  // ---- depth ----

  datatype Depth = Bad | Deep(n: nat)

  function Step(d: Depth, x: Line): Depth {
    match d
    case Bad => Bad
    case Deep(n) =>
      match x
      case If => Deep(n + 1)
      case End => if n == 0 then Bad else Deep(n - 1)
      case Mid => if n == 0 then Bad else d
      case Other => d
  }

  /** The nesting depth after the lines, started at d. */
  function Run(s: seq<Line>, d: Depth): Depth {
    if s == [] then d else Step(Run(s[..|s| - 1], d), s[|s| - 1])
  }

  lemma {:induction false} RunAppend(a: seq<Line>, b: seq<Line>, d: Depth)
    ensures Run(a + b, d) == Run(b, Run(a, d))
  {
    if b == [] {
      assert a + b == a;
    } else {
      RunAppend(a, b[..|b| - 1], d);
      assert (a + b)[..|a + b| - 1] == a + b[..|b| - 1];
    }
  }

  lemma {:induction false} RunBad(s: seq<Line>)
    ensures Run(s, Bad) == Bad
  {
    if s != [] {
      RunBad(s[..|s| - 1]);
    }
  }

  lemma {:induction false} RunDirectives(s: seq<Line>, d: Depth)
    ensures Run(Directives(s), d) == Run(s, d)
  {
    if s != [] {
      RunDirectives(s[..|s| - 1], d);
      var init := Directives(s[..|s| - 1]);
      assert (init + [s[|s| - 1]])[..|init|] == init;
    }
  }

  lemma RunOne(x: Line, d: Depth)
    ensures Run([x], d) == Step(d, x)
  {
    assert [x][..0] == [];
  }

  /** What the grammar derives brings the depth back to where it was. */
  lemma {:induction false} RunYield(t: Text, n: nat)
    ensures Run(Yield(t), Deep(n)) == Deep(n)
    decreases t
  {
    hide Run;
    match t
    case Empty => RunEmpty(Deep(n));
    case Cond(b, rest) =>
      RunOne(If, Deep(n));
      RunAppend([If], YieldBranches(b), Deep(n));
      RunYieldBranches(b, n + 1);
      RunOne(End, Deep(n + 1));
      RunAppend([If] + YieldBranches(b), [End], Deep(n));
      RunYield(rest, n);
      RunAppend([If] + YieldBranches(b) + [End], Yield(rest), Deep(n));
  }

  lemma RunEmpty(d: Depth)
    ensures Run([], d) == d
  {
  }

  lemma {:induction false} RunYieldBranches(b: Branches, n: nat)
    requires n > 0
    ensures Run(YieldBranches(b), Deep(n)) == Deep(n)
    decreases b
  {
    hide Run;
    match b
    case First(body) => RunYield(body, n);
    case Then(earlier, body) =>
      RunYieldBranches(earlier, n);
      RunOne(Mid, Deep(n));
      RunAppend(YieldBranches(earlier), [Mid], Deep(n));
      RunYield(body, n);
      RunAppend(YieldBranches(earlier) + [Mid], Yield(body), Deep(n));
  }

  lemma RunText(s: seq<Line>, n: nat)
    requires IsText(s)
    ensures Run(s, Deep(n)) == Deep(n)
  {
    var t :| Yield(t) == Directives(s);
    RunYield(t, n);
    RunDirectives(s, Deep(n));
  }

  lemma RunBranches(s: seq<Line>, n: nat)
    requires IsBranches(s) && n > 0
    ensures Run(s, Deep(n)) == Deep(n)
  {
    var b :| YieldBranches(b) == Directives(s);
    RunYieldBranches(b, n);
    RunDirectives(s, Deep(n));
  }

  // ---- a verdict is the only correct one ----

  lemma BadBreaks(lines: seq<Line>, n: nat, x: Line, k: nat)
    requires BadAt(lines, n, x) && x in {Mid, End} && n <= k <= |lines|
    ensures Run(lines[..k], Deep(0)) == Bad
  {
    RunText(lines[..n - 1], 0);
    assert lines[..n] == lines[..n - 1] + [x];
    RunOne(x, Deep(0));
    RunAppend(lines[..n - 1], [x], Deep(0));
    assert lines[..k] == lines[..n] + lines[n..k];
    RunAppend(lines[..n], lines[n..k], Deep(0));
    RunBad(lines[n..k]);
  }

  lemma BadOnce(lines: seq<Line>, n: nat, x: Line, m: nat, y: Line)
    requires BadAt(lines, n, x) && x in {Mid, End} && BadAt(lines, m, y) && y in {Mid, End}
    ensures n == m
  {
    if n < m {
      BadBreaks(lines, n, x, m - 1);
      RunText(lines[..m - 1], 0);
    } else if m < n {
      BadBreaks(lines, m, y, n - 1);
      RunText(lines[..n - 1], 0);
    }
  }

  lemma {:induction false} RunEnds(n: nat)
    ensures Run(Ends(n), Deep(n)) == Deep(0)
    ensures forall d: nat :: Run(Ends(n), Deep(d)) == Deep(0) ==> d == n
  {
    if n > 0 {
      RunEnds(n - 1);
      forall d: nat ensures Run(Ends(n), Deep(d)) == Run(Ends(n - 1), Step(Deep(d), End)) {
        RunAppend([End], Ends(n - 1), Deep(d));
        RunOne(End, Deep(d));
      }
      RunBad(Ends(n - 1));
    }
  }

  /** The depth a correct verdict implies. */
  lemma FinalDepth(lines: seq<Line>, v: Verdict)
    requires Correct(lines, v)
    ensures Run(lines, Deep(0)) == match v
      case Balanced => Deep(0)
      case UnmatchedEnd(_) => Bad
      case StrayMid(_) => Bad
      case Unclosed(_, d) => Deep(d)
  {
    assert lines[..|lines|] == lines;
    match v
    case Balanced => RunText(lines, 0);
    case UnmatchedEnd(n) => BadBreaks(lines, n, End, |lines|);
    case StrayMid(n) => BadBreaks(lines, n, Mid, |lines|);
    case Unclosed(_, d) =>
      RunText(lines + Ends(d), 0);
      RunAppend(lines, Ends(d), Deep(0));
      RunBad(Ends(d));
      RunEnds(d);
  }

  /** Each file has one correct verdict, so `Check` returns None exactly on what the grammar derives, and
      each complaint exactly where it applies. */
  lemma VerdictUnique(lines: seq<Line>, v: Verdict, w: Verdict)
    requires Correct(lines, v) && Correct(lines, w)
    ensures v == w
  {
    hide IsText, Run, Hanging;
    FinalDepth(lines, v);
    FinalDepth(lines, w);
    if v.UnmatchedEnd? || v.StrayMid? {
      BadOnce(lines, v.line, if v.UnmatchedEnd? then End else Mid, w.line, if w.UnmatchedEnd? then End else Mid);
    }
  }

  // ---- the stack ----

  /** What the stack says of the lines read so far: above the line it names last, the branches of an open
      conditional; below that line, the same for the rest of the stack. */
  ghost predicate Shape(s: seq<Line>, st: seq<nat>) {
    if st == [] then IsText(s)
    else
      var p := st[|st| - 1];
      1 <= p <= |s| && s[p - 1] == If && IsBranches(s[p..]) && Shape(s[..p - 1], st[..|st| - 1])
  }

  lemma {:induction false} DirectivesAppend(a: seq<Line>, b: seq<Line>)
    ensures Directives(a + b) == Directives(a) + Directives(b)
  {
    if b == [] {
      assert a + b == a;
    } else {
      DirectivesAppend(a, b[..|b| - 1]);
      assert (a + b)[..|a + b| - 1] == a + b[..|b| - 1];
    }
  }

  lemma DirectivesOne(x: Line)
    ensures Directives([x]) == if x == Other then [] else [x]
  {
    assert [x][..0] == [];
  }

  function Snoc(t: Text, b: Branches): Text {
    match t
    case Empty => Cond(b, Empty)
    case Cond(c, rest) => Cond(c, Snoc(rest, b))
  }

  lemma {:induction false} YieldSnoc(t: Text, b: Branches)
    ensures Yield(Snoc(t, b)) == Yield(t) + [If] + YieldBranches(b) + [End]
  {
    match t
    case Empty =>
    case Cond(c, rest) => YieldSnoc(rest, b);
  }

  lemma TextPlusOther(s: seq<Line>, x: Line)
    requires x == Other
    ensures IsText(s) ==> IsText(s + [x])
    ensures IsBranches(s) ==> IsBranches(s + [x])
  {
    DirectivesAppend(s, [x]);
    DirectivesOne(x);
  }

  lemma BranchesPlusMid(s: seq<Line>)
    requires IsBranches(s)
    ensures IsBranches(s + [Mid])
  {
    var b :| YieldBranches(b) == Directives(s);
    DirectivesAppend(s, [Mid]);
    DirectivesOne(Mid);
    assert YieldBranches(Then(b, Empty)) == Directives(s + [Mid]);
  }

  /** A closed conditional may follow a text, or the branches of an open one. */
  lemma PlusBlock(a: seq<Line>, c: seq<Line>)
    requires IsBranches(c)
    ensures IsText(a) ==> IsText(a + [If] + c + [End])
    ensures IsBranches(a) ==> IsBranches(a + [If] + c + [End])
  {
    hide Directives;
    var b :| YieldBranches(b) == Directives(c);
    BlockDirectives(a, c);
    if IsText(a) {
      var t :| Yield(t) == Directives(a);
      YieldSnoc(t, b);
      assert Yield(Snoc(t, b)) == Directives(a + [If] + c + [End]);
    }
    if IsBranches(a) {
      var o :| YieldBranches(o) == Directives(a);
      match o
      case First(body) =>
        YieldSnoc(body, b);
        assert YieldBranches(First(Snoc(body, b))) == Directives(a + [If] + c + [End]);
      case Then(earlier, body) =>
        YieldSnoc(body, b);
        assert YieldBranches(Then(earlier, Snoc(body, b))) == Directives(a + [If] + c + [End]);
    }
  }

  lemma BlockDirectives(a: seq<Line>, c: seq<Line>)
    ensures Directives(a + [If] + c + [End]) == Directives(a) + [If] + Directives(c) + [End]
  {
    DirectivesAppend(a, [If]);
    DirectivesAppend(a + [If], c);
    DirectivesAppend(a + [If] + c, [End]);
    DirectivesOne(If);
    DirectivesOne(End);
  }

  /** Reading #if pushes its line. */
  lemma ShapeIf(s: seq<Line>, st: seq<nat>)
    requires Shape(s, st)
    ensures Shape(s + [If], st + [|s| + 1])
  {
    var s', st' := s + [If], st + [|s| + 1];
    assert s'[|s| + 1..] == [] && s'[..|s|] == s && st'[..|st|] == st;
    assert YieldBranches(First(Empty)) == Directives([]);
  }

  /** Reading #endif pops the line it closes. */
  lemma {:induction false} ShapeEnd(s: seq<Line>, st: seq<nat>)
    requires Shape(s, st) && st != []
    ensures Shape(s + [End], st[..|st| - 1])
  {
    hide IsText, IsBranches, Directives;
    var p, below := st[|st| - 1], st[..|st| - 1];
    BelowCloses(s[..p - 1], below, s[p..]);
    assert s + [End] == s[..p - 1] + ([If] + s[p..] + [End]);
  }

  lemma {:induction false} BelowCloses(a: seq<Line>, st: seq<nat>, c: seq<Line>)
    requires Shape(a, st) && IsBranches(c)
    ensures Shape(a + ([If] + c + [End]), st)
  {
    hide IsText, IsBranches, Directives;
    if st == [] {
      PlusBlock(a, c);
      assert a + ([If] + c + [End]) == a + [If] + c + [End];
    } else {
      BelowGrows(a, st, [If] + c + [End], c);
    }
  }

  lemma BelowGrows(a: seq<Line>, st: seq<nat>, block: seq<Line>, c: seq<Line>)
    requires Shape(a, st) && st != [] && IsBranches(c) && block == [If] + c + [End]
    ensures Shape(a + block, st)
  {
    hide IsText, IsBranches, Directives;
    var q := st[|st| - 1];
    PlusBlock(a[q..], c);
    assert (a + block)[q..] == a[q..] + [If] + c + [End];
    assert (a + block)[..q - 1] == a[..q - 1];
  }

  lemma ShapeSame(s: seq<Line>, st: seq<nat>, x: Line)
    requires Shape(s, st) && (x == Other || (x == Mid && st != []))
    ensures Shape(s + [x], st)
  {
    hide IsText, IsBranches;
    if st == [] {
      TextPlusOther(s, x);
    } else {
      var p := st[|st| - 1];
      if x == Mid {
        BranchesPlusMid(s[p..]);
      } else {
        TextPlusOther(s[p..], x);
      }
      assert (s + [x])[p..] == s[p..] + [x] && (s + [x])[..p - 1] == s[..p - 1];
    }
  }

  /** The stack is as high as the nesting is deep. */
  lemma {:induction false} ShapeDepth(s: seq<Line>, st: seq<nat>)
    requires Shape(s, st)
    ensures Run(s, Deep(0)) == Deep(|st|)
  {
    hide IsText, IsBranches, Run;
    if st == [] {
      RunText(s, 0);
    } else {
      var p := st[|st| - 1];
      ShapeDepth(s[..p - 1], st[..|st| - 1]);
      assert s == s[..p - 1] + [If] + s[p..];
      RunAppend(s[..p - 1], [If], Deep(0));
      RunOne(If, Deep(|st| - 1));
      RunAppend(s[..p - 1] + [If], s[p..], Deep(0));
      RunBranches(s[p..], |st|);
    }
  }

  /** As many #endif lines as the stack is high balance the file. */
  lemma {:induction false} ShapeEnds(s: seq<Line>, st: seq<nat>)
    requires Shape(s, st)
    ensures IsText(s + Ends(|st|))
    decreases |st|
  {
    hide IsText, IsBranches;
    if st == [] {
      assert s + Ends(0) == s;
    } else {
      ShapeEnd(s, st);
      ShapeEnds(s + [End], st[..|st| - 1]);
      assert s + [End] + Ends(|st| - 1) == s + Ends(|st|);
    }
  }

  /** Every line on the stack is an #if, and what is below it on the stack describes the lines before. */
  lemma {:induction false} ShapeAt(s: seq<Line>, st: seq<nat>, m: nat)
    requires Shape(s, st) && m < |st|
    ensures 1 <= st[m] <= |s| && s[st[m] - 1] == If && Shape(s[..st[m] - 1], st[..m])
    decreases |st|
  {
    hide IsText, IsBranches;
    if m < |st| - 1 {
      var p, below := st[|st| - 1], st[..|st| - 1];
      ShapeAt(s[..p - 1], below, m);
      assert below[m] == st[m] && s[..p - 1][..st[m] - 1] == s[..st[m] - 1] && below[..m] == st[..m];
    }
  }

  lemma ShapeOrdered(s: seq<Line>, st: seq<nat>, k: nat)
    requires Shape(s, st) && 0 < k < |st|
    ensures st[0] < st[k]
  {
    hide Shape;
    ShapeAt(s, st, k);
    ShapeAt(s[..st[k] - 1], st[..k], 0);
  }

  // ---- which lines hang ----

  /** Of the #if lines among the first k, those not on the stack are closed. */
  ghost predicate OthersClosed(lines: seq<Line>, k: nat, st: seq<nat>) {
    forall i: nat :: 1 <= i <= k <= |lines| && lines[i - 1] == If && i !in st ==> Closed(lines, i)
  }

  /** Since the line st[m] was read, the depth has not come back to m. */
  ghost predicate StaysDeep(lines: seq<Line>, k: nat, st: seq<nat>) {
    forall m: nat, j: nat :: m < |st| && st[m] <= j <= k <= |lines| ==> DeeperThan(lines, j, m)
  }

  ghost predicate DeeperThan(lines: seq<Line>, j: nat, m: nat)
    requires j <= |lines|
  {
    Run(lines[..j], Deep(0)).Deep? && Run(lines[..j], Deep(0)).n > m
  }

  /** Popping the last line closes it, by the #endif just read. */
  lemma {:induction false} PopCloses(lines: seq<Line>, k: nat, st: seq<nat>)
    requires k < |lines| && lines[k] == End && st != [] && Shape(lines[..k], st)
    ensures Closed(lines, st[|st| - 1])
  {
    var p := st[|st| - 1];
    assert lines[..k][p..] == lines[p..k];
    assert ClosedBy(lines, p, k + 1);
  }

  /** What is on the stack at the end hangs. */
  lemma {:induction false} StackHangs(lines: seq<Line>, st: seq<nat>, m: nat)
    requires Shape(lines, st) && StaysDeep(lines, |lines|, st) && m < |st|
    ensures Hanging(lines, st[m])
  {
    hide IsText, IsBranches, Run, Shape;
    ShapeAt(lines, st, m);
    var i := st[m];
    if j: nat :| ClosedBy(lines, i, j) {
      assert DeeperThan(lines, j, m);
      ShapeDepth(lines[..i - 1], st[..m]);
      assert lines[..j] == lines[..i - 1] + [If] + lines[i..j - 1] + [End];
      RunAppend(lines[..i - 1], [If], Deep(0));
      RunOne(If, Deep(m));
      RunAppend(lines[..i - 1] + [If], lines[i..j - 1], Deep(0));
      RunBranches(lines[i..j - 1], m + 1);
      RunAppend(lines[..i - 1] + [If] + lines[i..j - 1], [End], Deep(0));
      RunOne(End, Deep(m + 1));
    }
  }

  // ---- the checker ----

  /** The loop of `check`. */
  method Check(lines: seq<Line>) returns (v: Verdict)
    ensures Correct(lines, v)
  {
    hide IsText, IsBranches, Run, Closed, Shape;
    var depth: int, openedAt: seq<nat> := 0, [];
    EmptyShape();
    for k := 0 to |lines|
      invariant depth == |openedAt|
      invariant Shape(lines[..k], openedAt)
      invariant OthersClosed(lines, k, openedAt) && StaysDeep(lines, k, openedAt)
    {
      var lineno := k + 1;
      assert lines[..k + 1] == lines[..k] + [lines[k]] && |lines[..k]| == k;
      if lines[k] == If {
        ShapeIf(lines[..k], openedAt);
        depth := depth + 1;
        openedAt := openedAt + [lineno];
      } else if lines[k] == End {
        depth := depth - 1;
        if depth < 0 {
          EmptyIsText(lines[..k], openedAt);
          return UnmatchedEnd(lineno);
        }
        ShapeEnd(lines[..k], openedAt);
        PopCloses(lines, k, openedAt);
        openedAt := openedAt[..|openedAt| - 1];
      } else if lines[k] == Mid && depth == 0 {
        EmptyIsText(lines[..k], openedAt);
        return StrayMid(lineno);
      } else {
        ShapeSame(lines[..k], openedAt, lines[k]);
      }
      ShapeDepth(lines[..k + 1], openedAt);
    }
    assert lines[..|lines|] == lines;
    if depth > 0 {
      ShapeEnds(lines, openedAt);
      StackHangs(lines, openedAt, 0);
      FirstOpened(lines, openedAt);
      return Unclosed(openedAt[0], depth);
    }
    EmptyIsText(lines, openedAt);
    return Balanced;
  }

  lemma EmptyShape()
    ensures Shape([], [])
  {
    assert Yield(Empty) == Directives([]);
  }

  lemma EmptyIsText(s: seq<Line>, st: seq<nat>)
    requires Shape(s, st) && st == []
    ensures IsText(s)
  {
  }

  lemma FirstOpened(lines: seq<Line>, st: seq<nat>)
    requires Shape(lines, st) && st != [] && OthersClosed(lines, |lines|, st)
    ensures forall i: nat :: i < st[0] ==> !Hanging(lines, i)
  {
    hide Shape, Closed;
    forall i: nat | i < st[0] ensures !Hanging(lines, i) {
      if i in st {
        var k :| 0 <= k < |st| && st[k] == i;
        if k > 0 {
          ShapeOrdered(lines, st, k);
        }
      }
    }
  }
}
