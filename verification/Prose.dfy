/** Answers without a box: the last number of the text after the thinking, sign and decimals included. */
module Prose {
  import opened Numbers
  import opened Thousands
  import opened Wrappers

  /** No LaTeX and no marker. */
  predicate IsProse(s: string) {
    '\\' !in s && '{' !in s && '}' !in s && '<' !in s
  }

  ghost predicate NoDigits(s: string) {
    forall i :: 0 <= i < |s| ==> !IsDigit(s[i])
  }

  predicate IsGap(c: char) {
    IsSpace(c) || c == '~'
  }

  ghost predicate AllGaps(s: string) {
    forall i :: 0 <= i < |s| ==> IsGap(s[i])
  }

  ghost predicate NoGaps(s: string) {
    forall i :: 0 <= i < |s| ==> !IsGap(s[i])
  }

  // ---- prose is left alone, but for commas and dollar signs ----

  lemma {:induction false} PlainIs(s: string)
    ensures forall c :: c in Plain(s) <==> c in s && c !in {',', '$'}
  {
    if s != "" {
      PlainIs(s[1..]);
      assert s == [s[0]] + s[1..];
    }
  }

  lemma {:induction false} PlainNoDigits(s: string)
    requires NoDigits(s)
    ensures NoDigits(Plain(s))
  {
    PlainIs(s);
    forall i | 0 <= i < |Plain(s)| ensures !IsDigit(Plain(s)[i]) {
      var c := Plain(s)[i];
      assert c in s;
      var k :| 0 <= k < |s| && s[k] == c;
    }
  }

  lemma {:induction false} CommandsKept(s: string)
    requires '\\' !in s
    ensures Commands(s) == s
  {
    if s != "" {
      CommandsKept(s[1..]);
    }
  }

  lemma {:induction false} EmptyGroupsKept(s: string)
    requires '{' !in s
    ensures EmptyGroups(s) == s
  {
    if s != "" {
      EmptyGroupsKept(s[1..]);
    }
  }

  lemma {:induction false} SpacedKept(s: string)
    requires IsProse(s)
    ensures Spaced(s) == s
  {
    if s != "" {
      SpacedKept(s[1..]);
    }
  }

  lemma DelatexProse(frac: string -> string, s: string)
    requires FracLaw(frac) && IsProse(s)
    ensures Delatex(frac, s) == JoinGroups(false, Plain(s))
  {
    hide Plain, Commands, EmptyGroups, Spaced, JoinGroups;
    PlainIs(s);
    CommandsKept(Plain(s));
    EmptyGroupsKept(Plain(s));
    SpacedKept(Plain(s));
  }

  // ---- gaps ----

  lemma {:induction false} GapRunIs(s: string)
    ensures forall i :: 0 <= i < GapRun(s) ==> IsGap(s[i])
  {
    if s != "" && IsGap(s[0]) {
      GapRunIs(s[1..]);
      forall i | 0 <= i < GapRun(s) ensures IsGap(s[i]) {
        assert i > 0 ==> s[i] == s[1..][i - 1];
      }
    }
  }

  /** A gap without a digit behind it stays. */
  lemma {:induction false} JoinKeeps(after: bool, a: string, b: string)
    requires NoGaps(a) && NoDigits(b)
    ensures JoinGroups(after, a + b) == a + b
    decreases |a| + |b|
  {
    var s := a + b;
    if a != "" {
      assert s[1..] == a[1..] + b && GapRun(s) == 0;
      JoinKeeps(IsDigit(s[0]), a[1..], b);
      HeadTail(a, b);
    } else if b != "" {
      assert s == b;
      var n := GapRun(b);
      assert DigitRun(b[n..], false) == 0;
      JoinKeeps(IsDigit(b[0]), "", b[1..]);
      assert "" + b[1..] == b[1..] && "" + b == b;
    } else {
      assert s == "";
    }
  }

  lemma JoinStep(after: bool, s: string)
    requires s != "" && !(after && GapRun(s) > 0 && ThreeDigits(s[GapRun(s)..]))
    ensures JoinGroups(after, s) == [s[0]] + JoinGroups(IsDigit(s[0]), s[1..])
  {
  }

  lemma JoinJump(s: string)
    requires s != "" && GapRun(s) > 0 && ThreeDigits(s[GapRun(s)..])
    ensures JoinGroups(true, s) == JoinGroups(false, s[GapRun(s)..])
  {
  }

  lemma JoinSpaceKept(after: bool, c: char, core: string)
    requires !IsDigit(c) && !IsGap(c)
    ensures JoinGroups(after, [c, ' '] + core) == [c, ' '] + JoinGroups(false, core)
  {
    hide JoinGroups;
    var s := [c, ' '] + core;
    assert GapRun(s) == 0 && s[1..] == [' '] + core && s[1..][1..] == core;
    JoinStep(after, s);
    JoinStep(false, s[1..]);
    assert [c] + ([' '] + JoinGroups(false, core)) == [c, ' '] + JoinGroups(false, core);
  }

  lemma GapBefore(p: string, rest: string)
    requires rest != "" && !IsGap(rest[0])
    ensures GapRun(p + rest) <= |p|
  {
    GapRunIs(p + rest);
    assert (p + rest)[|p|] == rest[0];
  }

  /** What stands behind a space that follows no digit is joined on its own. */
  lemma {:induction false} JoinSplits(after: bool, p: string, c: char, core: string) returns (p': string)
    requires !IsDigit(c) && !IsGap(c)
    ensures JoinGroups(after, p + ([c, ' '] + core)) == p' + " " + JoinGroups(false, core)
    decreases |p|
  {
    hide JoinGroups, GapRun, ThreeDigits;
    var rest := [c, ' '] + core;
    var s := p + rest;
    if p == "" {
      JoinSpaceKept(after, c, core);
      assert s == rest;
      p' := [c];
    } else {
      GapBefore(p, rest);
      var n := GapRun(s);
      if after && n > 0 && ThreeDigits(s[n..]) {
        JoinJump(s);
        assert s[n..] == p[n..] + rest;
        p' := JoinSplits(false, p[n..], c, core);
      } else {
        JoinStep(after, s);
        assert s[1..] == p[1..] + rest;
        var q := JoinSplits(IsDigit(s[0]), p[1..], c, core);
        p' := [s[0]] + q;
      }
    }
  }

  // ---- the white space the patterns admit ----

  ghost predicate AllSpace(g: string) {
    forall i :: 0 <= i < |g| ==> IsSpace(g[i])
  }

  lemma {:induction false} SpaceRunAll(g: string, s: string)
    requires AllSpace(g) && (s == "" || !IsSpace(s[0]))
    ensures SpaceRun(g + s) == |g|
  {
    if g == "" {
      assert g + s == s;
    } else {
      assert (g + s)[1..] == g[1..] + s;
      SpaceRunAll(g[1..], s);
    }
  }

  /** White space may stand between a box's name and its brace, and inside an empty group. */
  lemma {:induction false} SpaceAdmitted(g: string, s: string)
    requires AllSpace(g)
    ensures BoxedLen(BOXED + g + "{" + s) == |g| + 7
    ensures EmptyGroups("{" + g + "}" + s) == EmptyGroups(s)
  {
    hide SpaceRun;
    var box, group := BOXED + g + "{" + s, "{" + g + "}" + s;
    SpaceRunAll(g, "{" + s);
    assert box[..6] == BOXED && box[6..] == g + ("{" + s);
    SpaceRunAll(g, "}" + s);
    assert group[1..] == g + ("}" + s) && group[1 + |g|] == '}' && group[|g| + 2..] == s;
  }

  lemma {:induction false} GapRunAll(g: string, s: string)
    requires AllGaps(g) && (s == "" || !IsGap(s[0]))
    ensures GapRun(g + s) == |g|
  {
    if g == "" {
      assert g + s == s;
    } else {
      assert (g + s)[1..] == g[1..] + s;
      GapRunAll(g[1..], s);
    }
  }

  /** Any gap behind a digit, ties included, goes exactly when three digits follow. */
  lemma {:induction false} GapJoins(g: string, s: string)
    requires AllGaps(g) && g != "" && s != "" && IsDigit(s[0])
    ensures JoinGroups(true, g + s) == (if ThreeDigits(s) then "" else g) + JoinGroups(false, s)
  {
    hide JoinGroups, GapRun, ThreeDigits;
    var t := g + s;
    GapRunAll(g, s);
    assert t[|g|..] == s;
    if ThreeDigits(s) {
      JoinJump(t);
      assert "" + JoinGroups(false, s) == JoinGroups(false, s);
    } else {
      JoinStep(true, t);
      assert t[1..] == g[1..] + s;
      GapKept(g[1..], s);
      assert g == [g[0]] + g[1..];
    }
  }

  lemma {:induction false} GapKept(g: string, s: string)
    requires AllGaps(g)
    ensures JoinGroups(false, g + s) == g + JoinGroups(false, s)
  {
    if g == "" {
      assert g + s == s;
    } else {
      hide JoinGroups;
      JoinStep(false, g + s);
      assert (g + s)[1..] == g[1..] + s;
      GapKept(g[1..], s);
      assert g == [g[0]] + g[1..];
    }
  }

  // ---- the last number ----

  lemma {:induction false} DigitRunIs(s: string, commas: bool)
    ensures forall i :: 0 <= i < DigitRun(s, commas) ==> IsDigit(s[i]) || s[i] == ','
  {
    if s != "" && (IsDigit(s[0]) || (commas && s[0] == ',')) {
      DigitRunIs(s[1..], commas);
      forall i | 0 <= i < DigitRun(s, commas) ensures IsDigit(s[i]) || s[i] == ',' {
        assert i > 0 ==> s[i] == s[1..][i - 1];
      }
    }
  }

  lemma NumberHasNoSpace(s: string)
    ensures forall i :: 0 <= i < NumberLen(s) ==> s[i] != ' '
  {
    var sign := if s != "" && s[0] == '-' then 1 else 0;
    if NumberLen(s) > 0 {
      DigitRunIs(s[sign..], true);
      var a := sign + DigitRun(s[sign..], true);
      var b := if a < |s| && s[a] == '.' then a + 1 else a;
      DigitRunIs(s[b..], false);
      forall i | 0 <= i < NumberLen(s) ensures s[i] != ' ' {
        if sign <= i < a {
          assert s[i] == s[sign..][i - sign];
        } else if b <= i {
          assert s[i] == s[b..][i - b];
        }
      }
    }
  }

  /** Numbers in front of a space have no say in what follows it. */
  lemma {:induction false} LastNumberSkips(p: string, core: string, last: Option<string>) returns (l: Option<string>)
    ensures LastNumber(p + " " + core, last) == LastNumber(core, l)
    decreases |p|
  {
    var s := p + " " + core;
    if p == "" {
      assert s == " " + core;
      SpaceSkipped(core, last);
      l := last;
    } else {
      var n := NumberLen(s);
      NumberHasNoSpace(s);
      assert n <= |p| by {
        assert s[|p|] == ' ';
      }
      if n == 0 {
        assert s[1..] == p[1..] + " " + core;
        l := LastNumberSkips(p[1..], core, last);
      } else {
        assert s[n..] == p[n..] + " " + core;
        l := LastNumberSkips(p[n..], core, Some(s[..n]));
      }
    }
  }

  lemma {:induction false} NoNumberLeft(s: string, last: Option<string>)
    requires NoDigits(s)
    ensures LastNumber(s, last) == last
  {
    if s != "" {
      assert NumberLen(s) == 0;
      NoNumberLeft(s[1..], last);
    }
  }

  /** The decimals of a number, with their point; or none. */
  ghost predicate IsDecimals(d: string) {
    d == "" || (|d| > 1 && d[0] == '.' && AllDigits(d[1..]))
  }

  lemma NumberLenBy(s: string, k: nat, m: nat, point: nat, f: nat)
    requires k < |s| && k == (if s[0] == '-' then 1 else 0) && IsDigit(s[k]) && DigitRun(s[k..], true) == m
    requires k + m <= |s| && point == (if k + m < |s| && s[k + m] == '.' then 1 else 0)
    requires DigitRun(s[k + m + point..], false) == f
    ensures NumberLen(s) == k + m + point + f
  {
  }

  lemma {:induction false} NumberLenIs(sign: string, w: string, d: string, post: string)
    requires sign in {"", "-"} && AllDigits(w) && w != "" && IsDecimals(d) && NoDigits(post) && ',' !in post
    ensures NumberLen(sign + w + d + post)
            == |sign| + |w| + |d| + if d == "" && post != "" && post[0] == '.' then 1 else 0
  {
    hide DigitRun, NumberLen;
    var s, k, m := sign + w + d + post, |sign|, |w|;
    assert s[k..] == w + (d + post) && s[k] == w[0];
    DigitRunAppend(w, d + post, true);
    NoRunHere(d + post, true);
    assert s[k + m..] == d + post;
    if d != "" {
      PointAndDigits(s, k, m, d, post);
    } else {
      assert d + post == post;
      StopOnly(s, k, m, post);
    }
  }

  lemma PointAndDigits(s: string, k: nat, m: nat, d: string, post: string)
    requires k < |s| && k == (if s[0] == '-' then 1 else 0) && IsDigit(s[k]) && DigitRun(s[k..], true) == m
    requires k + m <= |s| && s[k + m..] == d + post && IsDecimals(d) && d != "" && NoDigits(post) && ',' !in post
    ensures NumberLen(s) == k + m + |d|
  {
    hide DigitRun, NumberLen;
    assert s[k + m] == (d + post)[0];
    assert s[k + m + 1..] == d[1..] + post;
    DigitRunAppend(d[1..], post, false);
    NoRunHere(post, false);
    NumberLenBy(s, k, m, 1, |d| - 1);
  }

  lemma StopOnly(s: string, k: nat, m: nat, post: string)
    requires k < |s| && k == (if s[0] == '-' then 1 else 0) && IsDigit(s[k]) && DigitRun(s[k..], true) == m
    requires k + m <= |s| && s[k + m..] == post && NoDigits(post) && ',' !in post
    ensures NumberLen(s) == k + m + if post != "" && post[0] == '.' then 1 else 0
  {
    hide DigitRun, NumberLen;
    assert k + m < |s| ==> s[k + m] == post[0];
    if post != "" && post[0] == '.' {
      assert s[k + m + 1..] == post[1..];
      NoRunHere(post[1..], false);
      NumberLenBy(s, k, m, 1, 0);
    } else {
      NoRunHere(post, false);
      NumberLenBy(s, k, m, 0, 0);
    }
  }

  lemma NoRunHere(s: string, commas: bool)
    requires s == "" || (!IsDigit(s[0]) && s[0] != ',')
    ensures DigitRun(s, commas) == 0
  {
  }

  /** A number with nothing but undigited text behind it, a full stop perhaps, is read as it stands. */
  lemma {:induction false} LastOne(sign: string, w: string, d: string, post: string, last: Option<string>)
    requires sign in {"", "-"} && AllDigits(w) && w != "" && IsDecimals(d) && NoDigits(post) && ',' !in post
    ensures LastNumber(sign + w + d + post, last).Some?
    ensures StripDots(LastNumber(sign + w + d + post, last).value) == sign + w + d
  {
    hide NumberLen;
    var s, token := sign + w + d + post, sign + w + d;
    NumberLenIs(sign, w, d, post);
    var n := NumberLen(s);
    assert s[..|token|] == token;
    NoNumberLeft(s[n..], Some(s[..n]));
    assert IsDigit(token[|token| - 1]);
    if n > |token| {
      assert s[..n] == token + ".";
      assert (token + ".")[..|token|] == token;
    }
  }

  // ---- the answer span ----

  lemma NoMarks(s: string)
    requires '<' !in s
    ensures forall i: nat :: !MarkedAt(s, i)
  {
    forall i: nat ensures !MarkedAt(s, i) {
      if MarkedAt(s, i) {
        MarkChars(s, i);
      }
    }
  }

  lemma NoLaterMark(front: string, ans: string)
    requires '<' !in ans && |front| >= 8 && front[|front| - 8..] == THINK
    ensures forall i: nat :: i > |front| - 8 ==> !MarkedAt(front + ans, i)
  {
    var s, k := front + ans, |front| - 8;
    forall j | k < j < |s| ensures s[j] != '<' {
      if j < |front| {
        assert s[j] == front[k..][j - k];
      } else {
        assert s[j] == ans[j - |front|];
      }
    }
    forall i: nat | i > k ensures !MarkedAt(s, i) {
      if MarkedAt(s, i) {
        MarkChars(s, i);
      }
    }
  }

  /** The span is what follows the last marker. */
  lemma {:induction false} SpanIs(front: string, ans: string)
    requires '<' !in ans && (front == "" || (|front| >= 8 && front[|front| - 8..] == THINK))
    ensures SplitAfterThink(front + ans) == ans
  {
    var s := front + ans;
    AfterThinkExact(s, s);
    if front == "" {
      NoMarks(ans);
      assert s == ans;
    } else {
      var k := |front| - 8;
      NoLaterMark(front, ans);
      assert s[k..k + 8] == front[k..];
      assert MarkedAt(s, k);
      var i: nat :| MarkedAt(s, i) && AfterThink(s, s) == s[i + 8..] && forall k: nat :: k > i ==> !MarkedAt(s, k);
      assert i == k && s[k + 8..] == ans;
    }
  }

  lemma ProseHasNoBox(s: string)
    requires '\\' !in s
    ensures NoBox(s)
  {
    forall i: nat | i <= |s| ensures BoxedLen(s[i..]) == 0 {
      BoxChars(s[i..]);
    }
  }

  lemma UnboxedIs(frac: string -> string, front: string, ans: string)
    requires IsProse(ans) && (front == "" || (|front| >= 8 && front[|front| - 8..] == THINK))
    ensures PredNumber(frac, front + ans) == NumberOf(frac, ans)
  {
    hide NumberOf, Boxed, NoBox, SplitAfterThink;
    SpanIs(front, ans);
    ProseHasNoBox(ans);
    NoBoxKeeps(frac, ans, None);
  }

  /** Whatever was thought and whatever numbers came before: of an answer in prose the last number is read,
      with its sign and decimals and without its commas, if a space that follows no digit is in front of it. */
  lemma {:induction false} LastNumberWins(frac: string -> string, front: string, p: string, c: char, sign: string,
                                          w: string, d: string, post: string)
    requires FracLaw(frac) && (front == "" || (|front| >= 8 && front[|front| - 8..] == THINK))
    requires IsProse(p + [c, ' '] + (sign + w + d + post))
    requires !IsDigit(c) && !IsGap(c) && c !in {',', '$'}
    requires sign in {"", "-"} && AllDigits(Plain(w)) && Plain(w) != "" && IsDecimals(d) && NoDigits(post)
    ensures PredNumber(frac, front + (p + [c, ' '] + (sign + w + d + post))) == Some(sign + Plain(w) + d)
  {
    hide Plain, JoinGroups, LastNumber, StripDots, PredNumber;
    var ans := p + [c, ' '] + (sign + w + d + post);
    UnboxedIs(frac, front, ans);
    DelatexProse(frac, ans);
    PlainParts(p, c, sign, w, d, post);
    var core := sign + Plain(w) + d + Plain(post);
    PlainIs(post);
    PlainNoDigits(post);
    TokenNoGaps(sign, Plain(w), d);
    JoinKeeps(false, sign + Plain(w) + d, Plain(post));
    assert Plain(p) + [c, ' '] + core == Plain(p) + ([c, ' '] + core);
    var p' := JoinSplits(false, Plain(p), c, core);
    var l := LastNumberSkips(p', core, None);
    LastOne(sign, Plain(w), d, Plain(post), l);
  }

  lemma TokenNoGaps(sign: string, w: string, d: string)
    requires sign in {"", "-"} && AllDigits(w) && IsDecimals(d)
    ensures NoGaps(sign + w + d)
  {
    assert forall i :: 1 <= i < |d| ==> d[i] == d[1..][i - 1];
  }

  lemma PlainParts(p: string, c: char, sign: string, w: string, d: string, post: string)
    requires c !in {',', '$'} && sign in {"", "-"} && IsDecimals(d)
    ensures Plain(p + [c, ' '] + (sign + w + d + post))
            == Plain(p) + [c, ' '] + (sign + Plain(w) + d + Plain(post))
  {
    hide Plain;
    PlainAppend(p + [c, ' '], sign + w + d + post);
    PlainAppend(p, [c, ' ']);
    PlainAppend(sign + w + d, post);
    PlainAppend(sign + w, d);
    PlainAppend(sign, w);
    PlainSame([c, ' ']);
    PlainSame(sign);
    PlainSame(d);
  }

  lemma {:induction false} PlainSame(s: string)
    requires ',' !in s && '$' !in s
    ensures Plain(s) == s
  {
    if s != "" {
      PlainSame(s[1..]);
    }
  }

  /** Without a digit there is no number. */
  lemma NothingRead(frac: string -> string, front: string, ans: string)
    requires FracLaw(frac) && (front == "" || (|front| >= 8 && front[|front| - 8..] == THINK))
    requires IsProse(ans) && NoDigits(ans)
    ensures PredNumber(frac, front + ans) == None
  {
    hide Plain, JoinGroups, LastNumber, PredNumber;
    UnboxedIs(frac, front, ans);
    DelatexProse(frac, ans);
    PlainNoDigits(ans);
    JoinKeeps(false, "", Plain(ans));
    assert "" + Plain(ans) == Plain(ans);
    NoNumberLeft(Plain(ans), None);
  }

  // ---- printed naturals ----

  lemma {:induction false} BareIsDigits(tail: seq<Group>)
    requires forall i :: 0 <= i < |tail| ==> tail[i].sep == Comma
    ensures At(Bare, tail) == Digits(tail)
  {
    if tail != [] {
      BareIsDigits(tail[1..]);
      Unroll(Bare, tail);
    }
  }

  /** Every natural, printed with commas between its thousands, with sign and decimals, at the end of a
      sentence. */
  lemma {:induction false} PrintedNatural(frac: string -> string, front: string, p: string, c: char, sign: string,
                                          n: nat, d: string, post: string)
    requires FracLaw(frac) && (front == "" || (|front| >= 8 && front[|front| - 8..] == THINK))
    requires IsProse(p) && IsProse([c]) && IsProse(post) && !IsDigit(c) && !IsGap(c) && c !in {',', '$'}
    requires sign in {"", "-"} && IsDecimals(d) && NoDigits(post)
    ensures var w := HeadOf(n) + Printed(GroupsOf(n, Comma));
      PredNumber(frac, front + (p + [c, ' '] + (sign + w + d + post))) == Some(sign + Decimal(n) + d)
  {
    hide Plain, PredNumber, Printed, At, Decimal, HeadOf, GroupsOf, Digits;
    var head, tail := HeadOf(n), GroupsOf(n, Comma);
    GroupsAreDigits(n, Comma);
    PlainAppend(head, Printed(tail));
    PlainDigits(head);
    PlainPrinted(head, tail);
    BareIsDigits(tail);
    CommasAreProse(head, tail);
    DecimalsAreProse(d);
    LastNumberWins(frac, front, p, c, sign, head + Printed(tail), d, post);
  }

  lemma {:induction false} CommasAreProse(head: string, tail: seq<Group>)
    requires IsGrouped(head, tail) && forall i :: 0 <= i < |tail| ==> tail[i].sep == Comma
    ensures IsProse(head + Printed(tail))
    decreases |tail|
  {
    if tail != [] {
      TailThousands(head, tail);
      CommasAreProse(head, tail[1..]);
    }
  }

  lemma DecimalsAreProse(d: string)
    requires IsDecimals(d)
    ensures IsProse(d)
  {
    assert forall i :: 1 <= i < |d| ==> d[i] == d[1..][i - 1];
  }
}
