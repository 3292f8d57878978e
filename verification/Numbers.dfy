/** Reading a number out of a model's answer: the brace scan of \boxed{...}, LaTeX stripped, the last
    number found. Digits and white space are the ASCII ones. */
module Numbers {
  import opened Wrappers

  predicate IsDigit(c: char) {
    '0' <= c <= '9'
  }

  predicate IsLetter(c: char) {
    'a' <= c <= 'z' || 'A' <= c <= 'Z'
  }

  predicate IsSpace(c: char) {
    c in {' ', '\t', '\n', '\r', 11 as char, 12 as char}
  }

  ghost predicate AllDigits(s: string) {
    forall i :: 0 <= i < |s| ==> IsDigit(s[i])
  }

  // ---- the brace scan ----

  function Change(c: char): int {
    if c == '{' then 1 else if c == '}' then -1 else 0
  }

  /** Opening less closing braces. */
  function Excess(s: string): int {
    if s == "" then 0 else Change(s[0]) + Excess(s[1..])
  }

  ghost predicate Balanced(s: string) {
    Excess(s) == 0 && forall k :: 0 <= k <= |s| ==> Excess(s[..k]) >= 0
  }

  /** How far the scan gets with `depth` braces open. */
  function BodyLen(s: string, depth: nat): (k: nat)
    requires depth > 0
    ensures k <= |s|
  {
    if s == "" then 0
    else if s[0] == '{' then 1 + BodyLen(s[1..], depth + 1)
    else if s[0] != '}' then 1 + BodyLen(s[1..], depth)
    else if depth == 1 then 0
    else 1 + BodyLen(s[1..], depth - 1)
  }

  function Body(s: string): string {
    s[..BodyLen(s, 1)]
  }

  lemma {:induction false} ExcessAppend(a: string, b: string)
    ensures Excess(a + b) == Excess(a) + Excess(b)
  {
    if a == "" {
      assert a + b == b;
    } else {
      ExcessAppend(a[1..], b);
      assert (a + b)[1..] == a[1..] + b;
    }
  }

  lemma {:induction false} ScanDepth(s: string, depth: nat, m: nat)
    requires depth > 0 && m <= BodyLen(s, depth)
    ensures depth + Excess(s[..m]) >= 1
    ensures m == BodyLen(s, depth) < |s| ==> s[m] == '}' && depth + Excess(s[..m]) == 1
  {
    if m > 0 {
      assert s[..m][1..] == s[1..][..m - 1];
      ScanDepth(s[1..], (depth + Change(s[0])) as nat, m - 1);
    }
  }

  lemma ExcessNext(s: string, j: nat)
    requires j < |s|
    ensures Excess(s[..j + 1]) == Excess(s[..j]) + Change(s[j])
  {
    assert s[..j + 1] == s[..j] + [s[j]];
    ExcessAppend(s[..j], [s[j]]);
  }

  lemma {:induction false} BodyBalanced(s: string, k: nat)
    requires k == BodyLen(s, 1) < |s|
    ensures s[k] == '}' && Balanced(s[..k])
  {
    hide BodyLen, Excess;
    ScanDepth(s, 1, k);
    forall m | 0 <= m <= k ensures Excess(s[..k][..m]) >= 0 {
      ScanDepth(s, 1, m);
      assert s[..k][..m] == s[..m];
    }
  }

  lemma BodyBelow(s: string, j: nat)
    requires BodyLen(s, 1) < j <= |s|
    ensures !Balanced(s[..j])
  {
    hide BodyLen, Excess;
    var k := BodyLen(s, 1);
    ScanDepth(s, 1, k);
    ExcessNext(s, k);
    assert s[..j][..k + 1] == s[..k + 1];
  }

  /** The body is what the matching brace closes: text up to a closing brace that is balanced in between.
      There is no other such brace; and when there is none, the body is the rest of the text. */
  lemma BodyExact(s: string, j: nat)
    requires j < |s|
    ensures s[j] == '}' && Balanced(s[..j]) <==> j == BodyLen(s, 1)
  {
    hide BodyLen, Excess;
    if j < BodyLen(s, 1) {
      ScanDepth(s, 1, j + 1);
      ExcessNext(s, j);
    } else if j == BodyLen(s, 1) {
      BodyBalanced(s, j);
    } else {
      BodyBelow(s, j);
    }
  }

  /** The scan of `_boxed_number`, from the character after the opening brace. */
  method ScanBody(text: string, start: nat) returns (buf: string)
    requires start <= |text|
    ensures buf == Body(text[start..])
  {
    var i, depth := start, 1;
    buf := "";
    while i < |text| && depth > 0
      invariant start <= i <= |text| && depth > 0 && buf == text[start..i]
      invariant BodyLen(text[start..], 1) == i - start + BodyLen(text[i..], depth)
    {
      var c := text[i];
      assert text[i..][1..] == text[i + 1..];
      if c == '{' {
        depth := depth + 1;
      } else if c == '}' {
        depth := depth - 1;
        if depth == 0 {
          break;
        }
      }
      buf := buf + [c];
      i := i + 1;
    }
    assert text[start..][..i - start] == text[start..i];
  }

  // ---- numbers in a text ----

  function DigitRun(s: string, commas: bool): (n: nat)
    ensures n <= |s|
  {
    if s != "" && (IsDigit(s[0]) || (commas && s[0] == ',')) then 1 + DigitRun(s[1..], commas) else 0
  }

  /** Length of the number at the front of the text, 0 for none: -?\d[\d,]*\.?\d* */
  function NumberLen(s: string): (n: nat)
    ensures n <= |s|
  {
    var sign := if s != "" && s[0] == '-' then 1 else 0;
    if sign == |s| || !IsDigit(s[sign]) then 0
    else
      var a := sign + DigitRun(s[sign..], true);
      var b := if a < |s| && s[a] == '.' then a + 1 else a;
      b + DigitRun(s[b..], false)
  }

  /** The last number found from left to right without overlap. */
  function LastNumber(s: string, last: Option<string>): Option<string> {
    if s == "" then last
    else
      var n := NumberLen(s);
      if n == 0 then LastNumber(s[1..], last) else LastNumber(s[n..], Some(s[..n]))
  }

  function StripDots(s: string): string {
    if s != "" && s[|s| - 1] == '.' then StripDots(s[..|s| - 1]) else s
  }

  // ---- LaTeX stripped ----

  /** Removes commas and dollar signs. */
  function Plain(s: string): string {
    if s == "" then ""
    else PlainChar(s[0]) + Plain(s[1..])
  }

  function PlainChar(c: char): string {
    if c in {',', '$'} then "" else [c]
  }

  function LetterRun(s: string): (n: nat)
    ensures n <= |s|
  {
    if s != "" && IsLetter(s[0]) then 1 + LetterRun(s[1..]) else 0
  }

  /** A command becomes a space: \\[a-zA-Z]+ */
  function Commands(s: string): string {
    if s == "" then ""
    else
      var n := LetterRun(s[1..]);
      if s[0] == '\\' && n > 0 then " " + Commands(s[1 + n..]) else [s[0]] + Commands(s[1..])
  }

  function SpaceRun(s: string): (n: nat)
    ensures n <= |s|
  {
    if s != "" && IsSpace(s[0]) then 1 + SpaceRun(s[1..]) else 0
  }

  /** An empty group vanishes: \{\s*\} */
  function EmptyGroups(s: string): string {
    if s == "" then ""
    else
      var n := 1 + SpaceRun(s[1..]);
      if s[0] == '{' && n < |s| && s[n] == '}' then EmptyGroups(s[n + 1..]) else [s[0]] + EmptyGroups(s[1..])
  }

  /** Other braces and backslashes become spaces. */
  function Spaced(s: string): string {
    if s == "" then "" else [if s[0] in {'{', '}', '\\'} then ' ' else s[0]] + Spaced(s[1..])
  }

  function GapRun(s: string): (n: nat)
    ensures n <= |s|
  {
    if s != "" && (IsSpace(s[0]) || s[0] == '~') then 1 + GapRun(s[1..]) else 0
  }

  /** Exactly three digits are next. */
  predicate ThreeDigits(s: string) {
    DigitRun(s, false) == 3
  }

  /** A gap between a digit and a group of exactly three digits vanishes. */
  function JoinGroups(afterDigit: bool, s: string): string
    decreases |s|
  {
    if s == "" then ""
    else
      var n := GapRun(s);
      if afterDigit && n > 0 && ThreeDigits(s[n..]) then JoinGroups(false, s[n..])
      else [s[0]] + JoinGroups(IsDigit(s[0]), s[1..])
  }

  /** `_delatex`; `frac` is the substitution of evaluated fractions. */
  function Delatex(frac: string -> string, s: string): string {
    JoinGroups(false, Spaced(EmptyGroups(Commands(frac(Plain(s))))))
  }

  /** All that is asked of the substitution: a text that cannot name a fraction is left alone. */
  ghost predicate FracLaw(frac: string -> string) {
    forall s :: 'f' !in s || '\\' !in s ==> frac(s) == s
  }

  // ---- the prediction ----

  const BOXED := "\\boxed"

  const THINK := "</think>"

  /** Length of \\boxed\s*\{ at the front of the text, 0 for none. */
  function BoxedLen(s: string): (n: nat)
    ensures n <= |s|
  {
    if |s| >= 6 && s[..6] == BOXED then
      var n := 6 + SpaceRun(s[6..]);
      if n < |s| && s[n] == '{' then n + 1 else 0
    else 0
  }

  function NumberOf(frac: string -> string, s: string): Option<string> {
    match LastNumber(Delatex(frac, s), None)
    case None => None
    case Some(n) => Some(StripDots(n))
  }

  /** `_boxed_number`, from left to right. */
  function Boxed(frac: string -> string, s: string, last: Option<string>): Option<string> {
    if s == "" then last
    else
      var n := BoxedLen(s);
      if n == 0 then Boxed(frac, s[1..], last)
      else
        var found := NumberOf(frac, Body(s[n..]));
        Boxed(frac, s[n..], if found.Some? then found else last)
  }

  method BoxedNumber(frac: string -> string, text: string) returns (last: Option<string>)
    ensures last == Boxed(frac, text, None)
    ensures last.None? ==> forall p: nat :: p <= |text| ==> Found(frac, text, p).None?
    ensures last.Some? ==> exists p: nat :: LastFound(frac, text, p) && Found(frac, text, p) == last
  {
    hide BoxedLen, NumberOf, Body;
    last := None;
    var i := 0;
    while i < |text|
      invariant i <= |text| && Boxed(frac, text, None) == Boxed(frac, text[i..], last)
    {
      var n := BoxedLen(text[i..]);
      if n == 0 {
        assert text[i..][1..] == text[i + 1..];
        i := i + 1;
      } else {
        assert text[i..][n..] == text[i + n..];
        i := i + n;
        var body := ScanBody(text, i);
        var found := NumberOf(frac, body);
        if found.Some? {
          last := found;
        }
      }
    }
    BoxedIsLast(frac, text, None);
  }

  /** What the box that starts at position p yields; nothing if none starts there. */
  function Found(frac: string -> string, text: string, p: nat): Option<string>
    requires p <= |text|
  {
    var n := BoxedLen(text[p..]);
    if n == 0 then None else NumberOf(frac, Body(text[p + n..]))
  }

  /** The box at p yields a number and no later one does. */
  ghost predicate LastFound(frac: string -> string, text: string, p: nat) {
    && p <= |text| && Found(frac, text, p).Some?
    && forall q: nat :: p < q <= |text| ==> Found(frac, text, q).None?
  }

  lemma {:induction false} FoundShift(frac: string -> string, s: string, n: nat, p: nat)
    requires n <= |s| && p <= |s| - n
    ensures Found(frac, s[n..], p) == Found(frac, s, n + p)
  {
    assert s[n..][p..] == s[n + p..];
    var m := BoxedLen(s[n + p..]);
    assert s[n..][p + m..] == s[n + p + m..];
  }

  /** No box starts inside the opening of another, so skipping past it misses none. */
  lemma {:induction false} InsideOpening(frac: string -> string, s: string, q: nat)
    requires 0 < q < BoxedLen(s)
    ensures q <= |s| && Found(frac, s, q).None?
  {
    hide BoxedLen, NumberOf, Body;
    BoxChars(s);
    BoxChars(s[q..]);
    assert s[q..][0] == s[q];
  }

  /** The left-to-right search keeps the number of the last box that yields one, and what it was given when
      none does. */
  lemma {:induction false} BoxedIsLast(frac: string -> string, s: string, last: Option<string>)
    ensures (forall p: nat :: p <= |s| ==> Found(frac, s, p).None?) ==> Boxed(frac, s, last) == last
    ensures (exists p: nat :: p <= |s| && Found(frac, s, p).Some?) ==>
      exists p: nat :: LastFound(frac, s, p) && Found(frac, s, p) == Boxed(frac, s, last)
    decreases |s|
  {
    hide NumberOf, Body, BoxedLen, Found;
    if s == "" {
      NoneAtEnd(frac);
    } else {
      var n := BoxedLen(s);
      var step := if n == 0 then 1 else n;
      var here := Found(frac, s, 0);
      FoundHere(frac, s);
      var next := if here.Some? then here else last;
      BoxedStep(frac, s, last);
      BoxedIsLast(frac, s[step..], next);
      forall p: nat | p <= |s| - step ensures Found(frac, s[step..], p) == Found(frac, s, step + p) {
        FoundShift(frac, s, step, p);
      }
      forall q: nat | 0 < q < step ensures Found(frac, s, q).None? {
        InsideOpening(frac, s, q);
      }
      if p: nat :| p <= |s| && p >= step && Found(frac, s, p).Some? {
        assert Found(frac, s[step..], p - step).Some?;
        var l: nat :| LastFound(frac, s[step..], l) && Found(frac, s[step..], l) == Boxed(frac, s[step..], next);
        forall q: nat | step + l < q <= |s| ensures Found(frac, s, q).None? {
          assert Found(frac, s[step..], q - step).None?;
        }
        assert LastFound(frac, s, step + l);
      } else {
        forall p: nat | p <= |s| - step ensures Found(frac, s[step..], p).None? {
          assert Found(frac, s, step + p).None?;
        }
        if here.Some? {
          assert LastFound(frac, s, 0);
        }
      }
    }
  }

  lemma NoneAtEnd(frac: string -> string)
    ensures forall p: nat :: p <= |""| ==> Found(frac, "", p).None?
  {
  }

  lemma FoundHere(frac: string -> string, s: string)
    ensures Found(frac, s, 0) == if BoxedLen(s) == 0 then None else NumberOf(frac, Body(s[BoxedLen(s)..]))
  {
    assert s[0..] == s;
  }

  lemma BoxedStep(frac: string -> string, s: string, last: Option<string>)
    requires s != ""
    ensures var n := BoxedLen(s);
      Boxed(frac, s, last) == Boxed(frac, s[if n == 0 then 1 else n..],
                                    if Found(frac, s, 0).Some? then Found(frac, s, 0) else last)
  {
    assert s[0..] == s;
  }

  predicate MarkedAt(s: string, i: nat)
    ensures MarkedAt(s, i) ==> i + 8 <= |s|
  {
    i + 8 <= |s| && s[i..i + 8] == THINK
  }

  /** What follows the last </think>; `best` if there is none. */
  function AfterThink(s: string, best: string): string {
    if s == "" then best else AfterThink(s[1..], if MarkedAt(s, 0) then s[8..] else best)
  }

  function SplitAfterThink(text: string): string {
    AfterThink(text, text)
  }

  function PredNumber(frac: string -> string, completion: string): Option<string> {
    var ans := SplitAfterThink(completion);
    var boxed := Boxed(frac, ans, None);
    if boxed.Some? then boxed else NumberOf(frac, ans)
  }

  // ---- the answer span ----

  /** The span is the text after the last marker, or the text itself. */
  lemma {:induction false} AfterThinkExact(s: string, best: string)
    ensures (forall i: nat :: !MarkedAt(s, i)) ==> AfterThink(s, best) == best
    ensures (exists i: nat :: MarkedAt(s, i)) ==>
      exists i: nat :: MarkedAt(s, i) && AfterThink(s, best) == s[i + 8..] && forall k: nat :: k > i ==> !MarkedAt(s, k)
  {
    if s != "" {
      var next := if MarkedAt(s, 0) then s[8..] else best;
      AfterThinkExact(s[1..], next);
      MarkShift(s);
      if k: nat :| MarkedAt(s[1..], k) {
        var i: nat :| MarkedAt(s[1..], i) && AfterThink(s[1..], next) == s[1..][i + 8..]
          && forall k: nat :: k > i ==> !MarkedAt(s[1..], k);
        assert MarkedAt(s, i + 1) && s[1..][i + 8..] == s[i + 1 + 8..];
        assert forall k: nat :: k > i + 1 ==> !MarkedAt(s, k);
      } else if MarkedAt(s, 0) {
        assert forall k: nat :: k > 0 ==> !MarkedAt(s, k);
      } else {
        assert forall k: nat :: !MarkedAt(s, k);
      }
    }
  }

  lemma MarkShift(s: string)
    requires s != ""
    ensures forall k: nat {:trigger MarkedAt(s, k)} :: k > 0 ==> (MarkedAt(s, k) <==> MarkedAt(s[1..], k - 1))
    ensures forall k: nat {:trigger MarkedAt(s[1..], k)} :: MarkedAt(s, k + 1) <==> MarkedAt(s[1..], k)
  {
    forall k: nat ensures MarkedAt(s, k + 1) <==> MarkedAt(s[1..], k) {
      if k + 9 <= |s| {
        assert s[1..][k..k + 8] == s[k + 1..k + 9];
      }
    }
    forall k: nat | k > 0 ensures MarkedAt(s, k) <==> MarkedAt(s[1..], k - 1) {
      assert MarkedAt(s, k - 1 + 1) <==> MarkedAt(s[1..], k - 1);
    }
  }

  lemma MarkChars(s: string, i: nat)
    requires MarkedAt(s, i)
    ensures s[i] == '<' && forall k :: i <= k < i + 8 ==> s[k] != '\\'
  {
    forall k | i <= k < i + 8 ensures s[k] != '\\' {
      assert s[k] == s[i..i + 8][k - i];
    }
    assert s[i] == s[i..i + 8][0];
  }

  lemma MarkAppend(a: string, b: string, i: nat)
    requires i >= |a|
    ensures MarkedAt(a + b, i) <==> MarkedAt(b, i - |a|)
  {
    if i + 8 <= |a + b| {
      assert (a + b)[i..i + 8] == b[i - |a|..i - |a| + 8];
    }
  }

  lemma MarkBefore(pre: string, core: string, i: nat)
    requires core != "" && core[0] == '\\' && !MarkedAt(core, 0) && MarkedAt(pre + core, i)
    requires i >= |pre| ==> !MarkedAt(core, i - |pre|)
    ensures i + 8 <= |pre|
  {
    hide MarkedAt;
    MarkChars(pre + core, i);
    assert (pre + core)[|pre|] == '\\';
    if i >= |pre| {
      MarkAppend(pre, core, i);
    }
  }

  /** A text from a backslash on without a marker is kept whole. */
  lemma SpanKeeps(pre: string, core: string)
    requires core != "" && core[0] == '\\' && forall i: nat :: !MarkedAt(core, i)
    ensures exists p :: SplitAfterThink(pre + core) == p + core
  {
    hide MarkedAt, AfterThink;
    var s := pre + core;
    AfterThinkExact(s, s);
    if k: nat :| MarkedAt(s, k) {
      var i: nat :| MarkedAt(s, i) && AfterThink(s, s) == s[i + 8..];
      MarkBefore(pre, core, i);
      assert s[i + 8..] == pre[i + 8..] + core;
    }
  }

  // ---- the last box ----

  ghost predicate NoBox(s: string) {
    forall i: nat :: i <= |s| ==> BoxedLen(s[i..]) == 0
  }

  lemma {:induction false} NoBoxKeeps(frac: string -> string, s: string, last: Option<string>)
    requires NoBox(s)
    ensures Boxed(frac, s, last) == last
  {
    if s != "" {
      assert s[0..] == s;
      forall i: nat | i <= |s[1..]| ensures BoxedLen(s[1..][i..]) == 0 {
        assert s[1..][i..] == s[i + 1..];
      }
      NoBoxKeeps(frac, s[1..], last);
    }
  }

  lemma BoxChars(s: string)
    ensures forall k :: 0 < k < BoxedLen(s) ==> s[k] != '\\'
    ensures BoxedLen(s) > 0 ==> |s| > 6 && s[0] == '\\' && s[1] == 'b'
  {
    if BoxedLen(s) > 0 {
      SpaceRunIs(s[6..]);
      forall k | 0 < k < BoxedLen(s) ensures s[k] != '\\' {
        if k < 6 {
          assert s[k] == s[..6][k];
        } else {
          assert s[k] == s[6..][k - 6];
        }
      }
      assert s[0] == s[..6][0] && s[1] == s[..6][1];
    }
  }

  /** A box that starts in the text before a backslash ends there. */
  lemma BoxInside(p: string, core: string)
    requires core != "" && core[0] == '\\' && p != ""
    ensures BoxedLen(p + core) <= |p|
  {
    hide BoxedLen;
    BoxChars(p + core);
    assert (p + core)[|p|] == '\\';
  }

  lemma {:induction false} SpaceRunIs(s: string)
    ensures forall i :: 0 <= i < SpaceRun(s) ==> IsSpace(s[i])
  {
    if s != "" && IsSpace(s[0]) {
      SpaceRunIs(s[1..]);
      forall i | 0 <= i < SpaceRun(s) ensures IsSpace(s[i]) {
        if i > 0 {
          assert s[i] == s[1..][i - 1];
        }
      }
    }
  }

  /** What comes before the box has no say in what the box yields. */
  lemma {:induction false} BoxedSkips(frac: string -> string, p: string, core: string, last: Option<string>)
    requires core != "" && core[0] == '\\'
    ensures exists l :: Boxed(frac, p + core, last) == Boxed(frac, core, l)
    decreases |p|
  {
    if p == "" {
      assert p + core == core;
      assert Boxed(frac, p + core, last) == Boxed(frac, core, last);
    } else {
      var s := p + core;
      BoxInside(p, core);
      var n := BoxedLen(s);
      if n == 0 {
        assert s[1..] == p[1..] + core;
        BoxedSkips(frac, p[1..], core, last);
      } else {
        assert s[n..] == p[n..] + core;
        var found := NumberOf(frac, Body(s[n..]));
        BoxedSkips(frac, p[n..], core, if found.Some? then found else last);
      }
    }
  }

  /** The last box wins, whatever precedes it. */
  lemma {:induction false} LastBoxWins(frac: string -> string, pre: string, body: string, post: string)
    requires Balanced(body) && NumberOf(frac, body).Some?
    requires NoBox(body + "}" + post)
    requires forall i: nat :: !MarkedAt(BOXED + "{" + body + "}" + post, i)
    ensures PredNumber(frac, pre + (BOXED + "{" + body + "}" + post)) == NumberOf(frac, body)
  {
    hide NumberOf, Body, Balanced;
    var rest := body + "}" + post;
    var core := BOXED + "{" + body + "}" + post;
    assert core == BOXED + "{" + rest;
    SpanKeeps(pre, core);
    var p :| SplitAfterThink(pre + core) == p + core;
    BoxedSkips(frac, p, core, None);
    var l :| Boxed(frac, p + core, None) == Boxed(frac, core, l);
    CoreBox(rest);
    BodyIs(body, post);
    NoBoxKeeps(frac, rest, NumberOf(frac, body));
  }

  lemma CoreBox(rest: string)
    ensures BoxedLen(BOXED + "{" + rest) == 7 && (BOXED + "{" + rest)[7..] == rest
  {
    var s := BOXED + "{" + rest;
    assert s[..6] == BOXED && s[6] == '{' && s[6..][0] == '{';
  }

  lemma BodyIs(body: string, post: string)
    requires Balanced(body)
    ensures Body(body + "}" + post) == body
  {
    var s := body + "}" + post;
    assert s[..|body|] == body;
    BodyExact(s, |body|);
  }
}
