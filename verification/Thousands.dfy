/** Numbers printed in thousands groups inside \boxed{...}, and what comes back of them. */
module Thousands {
  import opened Numbers
  import opened Wrappers

  /** `,`  `{,}`  `\,` */
  datatype Sep = Comma | Braced | Thin

  function SepText(sep: Sep): string {
    match sep
    case Comma => ","
    case Braced => "{,}"
    case Thin => "\\,"
  }

  datatype Group = Group(sep: Sep, digits: string)

  ghost predicate IsGrouped(head: string, tail: seq<Group>) {
    && head != "" && AllDigits(head)
    && forall i :: 0 <= i < |tail| ==> |tail[i].digits| == 3 && AllDigits(tail[i].digits)
  }

  function Digits(tail: seq<Group>): string {
    if tail == [] then "" else tail[0].digits + Digits(tail[1..])
  }

  function Printed(tail: seq<Group>): string {
    if tail == [] then "" else SepText(tail[0].sep) + tail[0].digits + Printed(tail[1..])
  }

  /** A thin space that is followed by a separator of another kind: by the time gaps are joined the groups
      on both sides of that separator are one run of six digits or more. */
  predicate Breaks(tail: seq<Group>) {
    |tail| > 1 && tail[0].sep == Thin && tail[1].sep != Thin
  }

  /** What survives: the digits after the last break. */
  function Survives(head: string, tail: seq<Group>): string
    decreases |tail|
  {
    if tail == [] then head
    else if Breaks(tail) then Survives(tail[0].digits, tail[1..])
    else Survives(head + tail[0].digits, tail[1..])
  }

  ghost predicate ThinLast(tail: seq<Group>) {
    forall i, j :: 0 <= i < j < |tail| && tail[i].sep == Thin ==> tail[j].sep == Thin
  }

  lemma {:induction false} SurvivesLength(head: string, tail: seq<Group>)
    requires IsGrouped(head, tail)
    ensures AllDigits(Survives(head, tail)) && Survives(head, tail) != ""
    ensures |Survives(head, tail)| <= |head| + |Digits(tail)|
    ensures ThinLast(tail) ==> Survives(head, tail) == head + Digits(tail)
    ensures !ThinLast(tail) ==> |Survives(head, tail)| < |head| + |Digits(tail)|
    decreases |tail|
  {
    if tail == [] {
      assert head + "" == head;
    } else {
      TailThousands(head, tail);
      ThinLastTail(tail);
      if Breaks(tail) {
        SurvivesLength(tail[0].digits, tail[1..]);
      } else {
        SurvivesLength(head + tail[0].digits, tail[1..]);
        assert head + tail[0].digits + Digits(tail[1..]) == head + Digits(tail);
      }
    }
  }

  lemma TailThousands(head: string, tail: seq<Group>)
    requires IsGrouped(head, tail) && tail != []
    ensures IsGrouped(tail[0].digits, tail[1..]) && IsGrouped(head + tail[0].digits, tail[1..])
    ensures IsGrouped(head, tail[1..])
  {
  }

  lemma {:induction false} ThinLastTail(tail: seq<Group>)
    requires tail != []
    ensures ThinLast(tail) <==> !Breaks(tail) && ThinLast(tail[1..])
  {
    var rest := tail[1..];
    if ThinLast(tail) {
      forall i, j | 0 <= i < j < |rest| && rest[i].sep == Thin ensures rest[j].sep == Thin {
        assert tail[i + 1].sep == Thin;
      }
    }
    if !Breaks(tail) && ThinLast(rest) {
      forall i, j | 0 <= i < j < |tail| && tail[i].sep == Thin ensures tail[j].sep == Thin {
        if i > 0 {
          assert rest[i - 1].sep == Thin;
        } else if j > 1 {
          assert rest[0].sep == Thin && rest[j - 1] == tail[j];
        }
      }
    }
  }

  // ---- each pass over printed groups ----

  /** Printed groups after commas, after empty groups, after backslashes, and after the gaps are joined. */
  datatype Stage = Bare | Joined | Gapped | Final

  function Between(stage: Stage, tail: seq<Group>): string
    requires tail != []
  {
    match stage
    case Bare => (match tail[0].sep case Comma => "" case Braced => "{}" case Thin => "\\")
    case Joined => if tail[0].sep == Thin then "\\" else ""
    case Gapped => if tail[0].sep == Thin then " " else ""
    case Final => if Breaks(tail) then " " else ""
  }

  function At(stage: Stage, tail: seq<Group>): string {
    if tail == [] then "" else Between(stage, tail) + tail[0].digits + At(stage, tail[1..])
  }

  lemma HeadTail(d: string, s: string)
    requires d != ""
    ensures d + s == [d[0]] + (d[1..] + s)
  {
  }

  lemma Assoc(a: string, b: string, c: string)
    ensures a + (b + c) == a + b + c
  {
  }

  lemma Unroll(stage: Stage, tail: seq<Group>)
    requires tail != []
    ensures At(stage, tail) == Between(stage, tail) + (tail[0].digits + At(stage, tail[1..]))
  {
  }

  lemma PlainFirst(c: char, s: string)
    ensures Plain([c] + s) == PlainChar(c) + Plain(s)
  {
    assert ([c] + s)[1..] == s;
  }

  lemma {:induction false} PlainAppend(a: string, b: string)
    ensures Plain(a + b) == Plain(a) + Plain(b)
  {
    if a == "" {
      assert a + b == b;
    } else {
      hide Plain, PlainChar;
      PlainAppend(a[1..], b);
      PlainFirst(a[0], a[1..] + b);
      PlainFirst(a[0], a[1..]);
      HeadTail(a, b);
      HeadTail(a, "");
      assert a + "" == a && a[1..] + "" == a[1..];
      Assoc(PlainChar(a[0]), Plain(a[1..]), Plain(b));
    }
  }

  lemma {:induction false} PlainDigits(s: string)
    requires AllDigits(s)
    ensures Plain(s) == s
  {
    if s != "" {
      PlainDigits(s[1..]);
    }
  }

  lemma PlainSep(sep: Sep)
    ensures Plain(SepText(sep)) == match sep case Comma => "" case Braced => "{}" case Thin => "\\"
  {
    assert "{,}"[1..] == ",}" && ",}"[1..] == "}" && "}"[1..] == "";
    assert "\\,"[1..] == "," && ","[1..] == "";
  }

  lemma {:induction false} PlainPrinted(head: string, tail: seq<Group>)
    requires IsGrouped(head, tail)
    ensures Plain(Printed(tail)) == At(Bare, tail)
    decreases |tail|
  {
    hide Plain;
    if tail == [] {
      NothingPlain();
    } else {
      TailThousands(head, tail);
      PlainPrinted(head, tail[1..]);
      PlainSep(tail[0].sep);
      PlainDigits(tail[0].digits);
      PlainAppend(SepText(tail[0].sep), tail[0].digits);
      PlainAppend(SepText(tail[0].sep) + tail[0].digits, Printed(tail[1..]));
    }
  }

  lemma NothingPlain()
    ensures Plain("") == ""
  {
  }

  ghost predicate NoLetters(s: string) {
    forall i :: 0 <= i < |s| ==> !IsLetter(s[i])
  }

  lemma {:induction false} CommandsNone(s: string)
    requires NoLetters(s)
    ensures Commands(s) == s
  {
    if s != "" {
      assert |s| > 1 ==> s[1..][0] == s[1];
      CommandsNone(s[1..]);
    }
  }

  lemma {:induction false} BareNoLetters(head: string, tail: seq<Group>)
    requires IsGrouped(head, tail)
    ensures NoLetters(At(Bare, tail)) && NoLetters(head)
    decreases |tail|
  {
    if tail != [] {
      TailThousands(head, tail);
      BareNoLetters(head, tail[1..]);
    }
  }

  lemma {:induction false} EmptyGroupsKeeps(c: char, s: string)
    requires c != '{' || (s != "" && IsDigit(s[0]))
    ensures EmptyGroups([c] + s) == [c] + EmptyGroups(s)
  {
    assert ([c] + s)[1..] == s;
  }

  lemma {:induction false} EmptyGroupsDigits(d: string, s: string)
    requires AllDigits(d)
    ensures EmptyGroups(d + s) == d + EmptyGroups(s)
  {
    if d == "" {
      assert d + s == s;
    } else {
      hide EmptyGroups;
      EmptyGroupsDigits(d[1..], s);
      EmptyGroupsKeeps(d[0], d[1..] + s);
      HeadTail(d, s);
      HeadTail(d, EmptyGroups(s));
    }
  }

  lemma EmptyGroupsPair(s: string)
    ensures EmptyGroups("{}" + s) == EmptyGroups(s)
  {
    var t := "{}" + s;
    assert t[1..][0] == '}' && SpaceRun(t[1..]) == 0 && t[1] == '}' && t[2..] == s;
  }

  lemma EmptyGroupsBackslash(s: string)
    ensures EmptyGroups("\\" + s) == "\\" + EmptyGroups(s)
  {
    assert ("\\" + s)[1..] == s;
  }

  lemma {:induction false} EmptyGroupsAt(head: string, tail: seq<Group>)
    requires IsGrouped(head, tail)
    ensures EmptyGroups(At(Bare, tail)) == At(Joined, tail)
    decreases |tail|
  {
    if tail != [] {
      hide EmptyGroups, At;
      TailThousands(head, tail);
      EmptyGroupsAt(head, tail[1..]);
      Unroll(Bare, tail);
      Unroll(Joined, tail);
      EmptyGroupsDigits(tail[0].digits, At(Bare, tail[1..]));
      EmptyGroupsBetween(tail, tail[0].digits + At(Bare, tail[1..]));
    }
  }

  lemma EmptyGroupsBetween(tail: seq<Group>, s: string)
    requires tail != []
    ensures EmptyGroups(Between(Bare, tail) + s) == Between(Joined, tail) + EmptyGroups(s)
  {
    hide EmptyGroups;
    match tail[0].sep
    case Comma => assert "" + s == s;
    case Braced => EmptyGroupsPair(s);
    case Thin => EmptyGroupsBackslash(s);
  }

  lemma {:induction false} SpacedAppend(a: string, b: string)
    ensures Spaced(a + b) == Spaced(a) + Spaced(b)
  {
    if a == "" {
      assert a + b == b;
    } else {
      SpacedAppend(a[1..], b);
      assert (a + b)[1..] == a[1..] + b;
    }
  }

  lemma {:induction false} SpacedDigits(s: string)
    requires AllDigits(s)
    ensures Spaced(s) == s
  {
    if s != "" {
      SpacedDigits(s[1..]);
    }
  }

  lemma {:induction false} SpacedAt(head: string, tail: seq<Group>)
    requires IsGrouped(head, tail)
    ensures Spaced(At(Joined, tail)) == At(Gapped, tail)
    decreases |tail|
  {
    if tail != [] {
      TailThousands(head, tail);
      SpacedAt(head, tail[1..]);
      SpacedDigits(tail[0].digits);
      var between := Between(Joined, tail);
      SpacedAppend(between, tail[0].digits);
      SpacedAppend(between + tail[0].digits, At(Joined, tail[1..]));
      assert Spaced("\\") == " " by {
        assert "\\"[1..] == "";
      }
    }
  }

  lemma JoinDigit(after: bool, c: char, s: string)
    requires IsDigit(c)
    ensures JoinGroups(after, [c] + s) == [c] + JoinGroups(true, s)
  {
    assert ([c] + s)[1..] == s && GapRun([c] + s) == 0;
  }

  lemma {:induction false} JoinDigits(after: bool, d: string, s: string)
    requires AllDigits(d) && d != ""
    ensures JoinGroups(after, d + s) == d + JoinGroups(true, s)
    decreases |d|
  {
    hide JoinGroups;
    JoinDigit(after, d[0], d[1..] + s);
    HeadTail(d, s);
    HeadTail(d, JoinGroups(true, s));
    if |d| > 1 {
      JoinDigits(true, d[1..], s);
    } else {
      assert d[1..] + s == s && d[1..] + JoinGroups(true, s) == JoinGroups(true, s);
    }
  }

  lemma {:induction false} DigitRunAppend(d: string, s: string, commas: bool)
    requires AllDigits(d)
    ensures DigitRun(d + s, commas) == |d| + DigitRun(s, commas)
  {
    if d == "" {
      assert d + s == s;
    } else {
      assert (d + s)[1..] == d[1..] + s;
      DigitRunAppend(d[1..], s, commas);
    }
  }

  /** How many digits are next: none after a thin space, at least three otherwise. */
  lemma RunAfter(head: string, tail: seq<Group>)
    requires IsGrouped(head, tail)
    ensures DigitRun(At(Gapped, tail), false) == 0 <==> tail == [] || tail[0].sep == Thin
  {
    if tail != [] && tail[0].sep != Thin {
      Unroll(Gapped, tail);
      assert "" + (tail[0].digits + At(Gapped, tail[1..])) == tail[0].digits + At(Gapped, tail[1..]);
      DigitRunAppend(tail[0].digits, At(Gapped, tail[1..]), false);
    }
  }

  lemma JoinSpace(d: string, s: string)
    requires AllDigits(d) && d != ""
    ensures JoinGroups(true, " " + (d + s)) ==
      (if |d| + DigitRun(s, false) == 3 then "" else " ") + (d + JoinGroups(true, s))
  {
    hide JoinGroups, DigitRun;
    var t := d + s;
    OneGap(t);
    DigitRunAppend(d, s, false);
    JoinDigits(false, d, s);
  }

  /** One space between a digit and a digit goes exactly when three digits follow. */
  lemma {:induction false} OneGap(t: string)
    requires t != "" && IsDigit(t[0])
    ensures JoinGroups(true, " " + t) == if ThreeDigits(t) then JoinGroups(false, t) else " " + JoinGroups(false, t)
  {
    assert (" " + t)[1..] == t && GapRun(t) == 0;
  }

  lemma {:induction false} JoinAt(head: string, tail: seq<Group>)
    requires IsGrouped(head, tail)
    ensures JoinGroups(true, At(Gapped, tail)) == At(Final, tail)
    decreases |tail|
  {
    if tail != [] {
      hide JoinGroups, DigitRun, At;
      TailThousands(head, tail);
      JoinAt(head, tail[1..]);
      RunAfter(head, tail[1..]);
      Unroll(Gapped, tail);
      Unroll(Final, tail);
      var d, s := tail[0].digits, At(Gapped, tail[1..]);
      if tail[0].sep == Thin {
        JoinSpace(d, s);
      } else {
        JoinDigits(true, d, s);
        assert "" + (d + s) == d + s && "" + (d + At(Final, tail[1..])) == d + At(Final, tail[1..]);
      }
    }
  }

  /** The whole of `_delatex` on printed groups. */
  lemma DelatexPrinted(frac: string -> string, head: string, tail: seq<Group>)
    requires FracLaw(frac) && IsGrouped(head, tail)
    ensures Delatex(frac, head + Printed(tail)) == head + At(Final, tail)
  {
    hide Plain, Commands, EmptyGroups, Spaced, JoinGroups, Printed, At;
    var bare := At(Bare, tail);
    PlainAppend(head, Printed(tail));
    PlainDigits(head);
    PlainPrinted(head, tail);
    BareNoLetters(head, tail);
    NoLettersNoF(head + bare);
    CommandsNone(head + bare);
    EmptyGroupsDigits(head, bare);
    EmptyGroupsAt(head, tail);
    SpacedAppend(head, At(Joined, tail));
    SpacedDigits(head);
    SpacedAt(head, tail);
    JoinDigits(false, head, At(Gapped, tail));
    JoinAt(head, tail);
  }

  lemma NoLettersNoF(s: string)
    requires NoLetters(s)
    ensures 'f' !in s
  {
  }

  /** A run of digits up to the end or a space is one number. */
  lemma NumberIs(d: string, s: string)
    requires AllDigits(d) && d != "" && (s == "" || s[0] == ' ')
    ensures NumberLen(d + s) == |d|
  {
    hide DigitRun;
    var t := d + s;
    DigitRunAppend(d, s, true);
    NoRun(s);
    assert t[0..] == t && t[|d|..] == s;
    assert DigitRun(t, true) == |d|;
  }

  lemma NoRun(s: string)
    requires s == "" || s[0] == ' '
    ensures DigitRun(s, true) == 0 && DigitRun(s, false) == 0
  {
  }

  lemma LastNumberEnd(run: string, last: Option<string>)
    requires AllDigits(run) && run != ""
    ensures LastNumber(run, last) == Some(run)
  {
    NumberIs(run, "");
    assert run + "" == run && run[|run|..] == "";
  }

  lemma {:induction false} LastNumberAt(run: string, tail: seq<Group>, last: Option<string>)
    requires IsGrouped(run, tail)
    ensures LastNumber(run + At(Final, tail), last) == Some(Survives(run, tail))
    decreases |tail|
  {
    if tail == [] {
      hide LastNumber;
      LastNumberEnd(run, last);
      assert run + "" == run;
    } else {
      hide LastNumber, At, NumberLen;
      TailThousands(run, tail);
      Unroll(Final, tail);
      var d, rest := tail[0].digits, At(Final, tail[1..]);
      if Breaks(tail) {
        LastNumberAt(d, tail[1..], Some(run));
        NumberIs(run, " " + (d + rest));
        LastNumberSpace(run, d + rest, last);
      } else {
        LastNumberAt(run + d, tail[1..], last);
        assert run + ("" + (d + rest)) == run + d + rest;
      }
    }
  }

  lemma LastNumberSpace(run: string, s: string, last: Option<string>)
    requires run != "" && NumberLen(run + (" " + s)) == |run|
    ensures LastNumber(run + (" " + s), last) == LastNumber(s, Some(run))
  {
    var t := run + (" " + s);
    assert t[..|run|] == run && t[|run|..] == " " + s && (" " + s)[1..] == s;
    assert NumberLen(" " + s) == 0;
  }

  lemma NumberOfPrinted(frac: string -> string, head: string, tail: seq<Group>)
    requires FracLaw(frac) && IsGrouped(head, tail)
    ensures NumberOf(frac, head + Printed(tail)) == Some(Survives(head, tail))
  {
    hide Delatex, LastNumber, Survives, Printed;
    DelatexPrinted(frac, head, tail);
    LastNumberAt(head, tail, None);
    SurvivesLength(head, tail);
  }

  // ---- the round trip ----

  lemma {:induction false} BalancedAppend(a: string, b: string)
    requires Balanced(a) && Balanced(b)
    ensures Balanced(a + b)
  {
    ExcessAppend(a, b);
    forall k | 0 <= k <= |a + b| ensures Excess((a + b)[..k]) >= 0 {
      if k <= |a| {
        assert (a + b)[..k] == a[..k];
      } else {
        assert (a + b)[..k] == a + b[..k - |a|];
        ExcessAppend(a, b[..k - |a|]);
      }
    }
  }

  lemma {:induction false} DigitsBalanced(s: string)
    requires AllDigits(s)
    ensures Balanced(s) && Excess(s) == 0
  {
    if s != "" {
      DigitsBalanced(s[1..]);
      forall k | 0 <= k <= |s| ensures Excess(s[..k]) >= 0 {
        if k > 0 {
          assert s[..k][1..] == s[1..][..k - 1];
        }
      }
    }
  }

  lemma SepBalanced(sep: Sep)
    ensures Balanced(SepText(sep))
  {
    var s := SepText(sep);
    assert "{,}"[1..] == ",}" && ",}"[1..] == "}" && "}"[1..] == "";
    assert "\\,"[1..] == "," && ","[1..] == "";
    forall k | 0 <= k <= |s| ensures Excess(s[..k]) >= 0 {
      assert s[..|s|] == s;
      assert "{,}"[..1] == "{" && "{,}"[..2] == "{," && "{,"[1..] == "," && "{"[1..] == "";
      assert "\\,"[..1] == "\\" && "\\"[1..] == "";
    }
  }

  lemma {:induction false} PrintedBalanced(head: string, tail: seq<Group>)
    requires IsGrouped(head, tail)
    ensures Balanced(Printed(tail))
    decreases |tail|
  {
    hide Balanced;
    if tail == [] {
      DigitsBalanced("");
    } else {
      TailThousands(head, tail);
      PrintedBalanced(head, tail[1..]);
      SepBalanced(tail[0].sep);
      DigitsBalanced(tail[0].digits);
      BalancedAppend(SepText(tail[0].sep), tail[0].digits);
      BalancedAppend(SepText(tail[0].sep) + tail[0].digits, Printed(tail[1..]));
    }
  }

  /** No letters, so neither a box nor a marker starts here. */
  lemma {:induction false} PrintedNoLetters(head: string, tail: seq<Group>)
    requires IsGrouped(head, tail)
    ensures NoLetters(Printed(tail)) && '<' !in Printed(tail)
    decreases |tail|
  {
    if tail != [] {
      TailThousands(head, tail);
      PrintedNoLetters(head, tail[1..]);
    }
  }

  lemma NoBoxAfter(body: string, post: string)
    requires NoLetters(body) && NoBox(post)
    ensures NoBox(body + "}" + post)
  {
    hide BoxedLen;
    var s := body + "}" + post;
    forall i: nat | i <= |s| ensures BoxedLen(s[i..]) == 0 {
      if i > |body| {
        assert s[i..] == post[i - |body| - 1..];
      } else {
        BoxChars(s[i..]);
      }
    }
  }

  lemma NoMarkAfter(body: string, post: string)
    requires '<' !in body && forall i: nat :: !MarkedAt(post, i)
    ensures forall i: nat :: !MarkedAt(BOXED + "{" + body + "}" + post, i)
  {
    hide MarkedAt;
    var front := BOXED + "{" + body + "}";
    forall i: nat ensures !MarkedAt(front + post, i) {
      if i >= |front| {
        MarkAppend(front, post, i);
      } else if MarkedAt(front + post, i) {
        MarkChars(front + post, i);
        NotMarker(body, i);
      }
    }
  }

  lemma NotMarker(body: string, i: nat)
    requires '<' !in body && i < |BOXED + "{" + body + "}"|
    ensures (BOXED + "{" + body + "}")[i] != '<'
  {
  }

  /** A number printed in thousands groups inside a box is read back exactly when no thin space is
      followed by a separator of another kind; otherwise only the digits after the last such break are. */
  lemma {:induction false} BoxedGroups(frac: string -> string, pre: string, head: string, tail: seq<Group>,
                                       post: string)
    requires FracLaw(frac) && IsGrouped(head, tail)
    requires NoBox(post) && forall i: nat :: !MarkedAt(post, i)
    ensures var read := PredNumber(frac, pre + (BOXED + "{" + (head + Printed(tail)) + "}" + post));
      && read == Some(Survives(head, tail))
      && (read == Some(head + Digits(tail)) <==> ThinLast(tail))
  {
    hide PredNumber, NoBox, Survives, Printed, Balanced, NumberOf, MarkedAt, ThinLast;
    var body := head + Printed(tail);
    PrintedBalanced(head, tail);
    DigitsBalanced(head);
    BalancedAppend(head, Printed(tail));
    NumberOfPrinted(frac, head, tail);
    PrintedNoLetters(head, tail);
    NoBoxAfter(body, post);
    NoMarkAfter(body, post);
    LastBoxWins(frac, pre, body, post);
    SurvivesLength(head, tail);
  }

  /** `1\,234,567` is read as 234567. */
  lemma {:induction false} ThinCommaBreaks(frac: string -> string)
    requires FracLaw(frac)
    ensures PredNumber(frac, "" + (BOXED + "{" + ("1" + "\\,234,567") + "}" + "")) == Some("234567")
  {
    hide PredNumber, MarkedAt, NoBox;
    NothingAfter();
    var last := [Group(Comma, "567")];
    var tail := [Group(Thin, "234")] + last;
    assert Printed(last) == ",567" + "" && Printed(tail) == "\\," + "234" + Printed(tail[1..]);
    assert tail[1..] == last && Printed(tail) == "\\,234,567";
    assert last[1..] == [] && Survives("234", last) == "234" + "567";
    assert Breaks(tail) && Survives("1", tail) == "234567";
    BoxedGroups(frac, "", "1", tail, "");
  }

  // ---- naturals ----

  function DigitChar(d: nat): (c: char)
    requires d < 10
    ensures IsDigit(c)
  {
    '0' + d as char
  }

  function Decimal(n: nat): (s: string)
    ensures s != "" && AllDigits(s)
  {
    if n < 10 then [DigitChar(n)] else Decimal(n / 10) + [DigitChar(n % 10)]
  }

  /** The last three digits, zeros included. */
  function LastThree(n: nat): (s: string)
    ensures |s| == 3 && AllDigits(s)
  {
    [DigitChar(n / 100 % 10), DigitChar(n / 10 % 10), DigitChar(n % 10)]
  }

  function HeadOf(n: nat): (s: string) {
    if n < 1000 then Decimal(n) else HeadOf(n / 1000)
  }

  function GroupsOf(n: nat, sep: Sep): seq<Group> {
    if n < 1000 then [] else GroupsOf(n / 1000, sep) + [Group(sep, LastThree(n))]
  }

  lemma {:induction false} DigitsAppend(tail: seq<Group>, g: Group)
    ensures Digits(tail + [g]) == Digits(tail) + g.digits
  {
    if tail == [] {
      assert [g][1..] == [];
    } else {
      DigitsAppend(tail[1..], g);
      assert (tail + [g])[1..] == tail[1..] + [g];
    }
  }

  lemma OneMoreGroup(head: string, tail: seq<Group>, g: Group)
    requires IsGrouped(head, tail) && |g.digits| == 3 && AllDigits(g.digits)
    requires forall i :: 0 <= i < |tail| ==> tail[i].sep == g.sep
    ensures IsGrouped(head, tail + [g]) && forall i :: 0 <= i < |tail + [g]| ==> (tail + [g])[i].sep == g.sep
  {
  }

  /** The groups of n are thousands groups, all with the one separator, and their digits are those of n. */
  lemma {:induction false} GroupsAreDigits(n: nat, sep: Sep)
    ensures IsGrouped(HeadOf(n), GroupsOf(n, sep)) && |HeadOf(n)| <= 3
    ensures forall i :: 0 <= i < |GroupsOf(n, sep)| ==> GroupsOf(n, sep)[i].sep == sep
    ensures HeadOf(n) + Digits(GroupsOf(n, sep)) == Decimal(n)
  {
    if n < 1000 {
      assert Decimal(n) + "" == Decimal(n);
      DecimalShort(n);
    } else {
      hide Decimal, Digits, IsGrouped;
      GroupsAreDigits(n / 1000, sep);
      OneMoreGroup(HeadOf(n / 1000), GroupsOf(n / 1000, sep), Group(sep, LastThree(n)));
      DigitsAppend(GroupsOf(n / 1000, sep), Group(sep, LastThree(n)));
      DecimalThousand(n);
    }
  }

  lemma DecimalShort(n: nat)
    requires n < 1000
    ensures |Decimal(n)| <= 3
  {
    if n >= 100 {
      assert |Decimal(n / 10 / 10)| == 1 && |Decimal(n / 10)| == 2;
    } else if n >= 10 {
      assert |Decimal(n / 10)| == 1;
    }
  }

  lemma DecimalThousand(n: nat)
    requires n >= 1000
    ensures Decimal(n) == Decimal(n / 1000) + LastThree(n)
  {
    var a, b, c := n / 10, n / 100, n / 1000;
    assert a / 10 == b && b / 10 == c;
    assert Decimal(n) == Decimal(a) + [DigitChar(n % 10)];
    assert Decimal(a) == Decimal(b) + [DigitChar(a % 10)];
    assert Decimal(b) == Decimal(c) + [DigitChar(b % 10)];
  }

  /** Every natural printed with its thousands groups joined by `,`, by `{,}` or by `\,` inside the last
      box is read back as its plain digits. */
  lemma NaturalReadBack(frac: string -> string, pre: string, n: nat, sep: Sep, post: string)
    requires FracLaw(frac) && NoBox(post) && forall i: nat :: !MarkedAt(post, i)
    ensures PredNumber(frac, pre + (BOXED + "{" + (HeadOf(n) + Printed(GroupsOf(n, sep))) + "}" + post))
         == Some(Decimal(n))
  {
    hide PredNumber, NoBox, Survives, Printed, MarkedAt;
    GroupsAreDigits(n, sep);
    BoxedGroups(frac, pre, HeadOf(n), GroupsOf(n, sep), post);
  }

  // ---- operands in braces ----

  function Around(left: string, a: string, mid: string, b: string, right: string): string {
    left + (a + (mid + (b + right)))
  }

  /** Two operands left in braces are kept apart exactly when the second does not have three digits: with
      three, the gap between them reads as a thousands gap and they fuse. */
  lemma OperandsFuse(frac: string -> string, a: string, b: string)
    requires FracLaw(frac) && AllDigits(a) && AllDigits(b) && a != "" && b != ""
    ensures Delatex(frac, Around("{", a, "}{", b, "}")) == Around(" ", a, if |b| == 3 then "" else "  ", b, " ")
  {
    hide Plain, Commands, EmptyGroups, Spaced, JoinGroups, Around;
    var s := Around("{", a, "}{", b, "}");
    OperandsChars(a, b);
    PlainNone(s);
    CommandsNone(s);
    NoLettersNoF(s);
    OperandsGroups(a, b);
    OperandsSpaced(a, b);
    OperandsJoin(a, b);
  }

  /** What is read of them behind a command: the second operand alone exactly when it does not have three
      digits, and otherwise both as one number. */
  lemma OperandsRead(frac: string -> string, pre: string, cmd: string, a: string, b: string, post: string)
    requires FracLaw(frac) && AllDigits(a) && AllDigits(b) && a != "" && b != ""
    requires IsCommand(cmd) && 'f' !in cmd
    requires NoBox(post) && forall i: nat :: !MarkedAt(post, i)
    ensures var body := "\\" + cmd + Around("{", a, "}{", b, "}");
      var read := PredNumber(frac, pre + (BOXED + "{" + body + "}" + post));
      && read == Some(if |b| == 3 then a + b else b)
      && (read == Some(b) <==> |b| != 3)
  {
    hide PredNumber, NoBox, MarkedAt, Balanced, NumberOf, Around;
    var operands := Around("{", a, "}{", b, "}");
    var body := "\\" + cmd + operands;
    CommandNumber(frac, cmd, a, b);
    CommandBalanced(cmd, a, b);
    OperandsChars(a, b);
    CommandNoBox(cmd, operands, post);
    NoMarkAfter(body, post);
    LastBoxWins(frac, pre, body, post);
  }

  /** Letters, but not those of a box. */
  predicate IsCommand(cmd: string) {
    cmd != "" && (forall i :: 0 <= i < |cmd| ==> IsLetter(cmd[i])) && !(|cmd| >= 5 && cmd[..5] == "boxed")
  }

  /** \binom{400}{110} is read as 400110. */
  lemma {:induction false} BinomialFuses(frac: string -> string)
    requires FracLaw(frac)
    ensures var body := "\\" + "binom" + Around("{", "400", "}{", "110", "}");
      PredNumber(frac, "" + (BOXED + "{" + body + "}" + "")) == Some("400110")
  {
    hide PredNumber, Around, MarkedAt;
    NothingAfter();
    assert "binom"[..5][0] != "boxed"[1] && "binom"[1] != "boxed"[1];
    assert "400" + "110" == "400110";
    OperandsRead(frac, "", "binom", "400", "110", "");
  }

  lemma NothingAfter()
    ensures NoBox("") && forall i: nat :: !MarkedAt("", i)
  {
  }

  lemma {:induction false} LettersRun(cmd: string, s: string)
    requires (forall i :: 0 <= i < |cmd| ==> IsLetter(cmd[i])) && (s == "" || !IsLetter(s[0]))
    ensures LetterRun(cmd + s) == |cmd|
  {
    if cmd == "" {
      assert cmd + s == s;
    } else {
      LettersRun(cmd[1..], s);
      assert (cmd + s)[1..] == cmd[1..] + s;
    }
  }

  /** The command becomes a space in front of what its operands become. */
  lemma CommandNumber(frac: string -> string, cmd: string, a: string, b: string)
    requires FracLaw(frac) && AllDigits(a) && AllDigits(b) && a != "" && b != "" && IsCommand(cmd) && 'f' !in cmd
    ensures NumberOf(frac, "\\" + cmd + Around("{", a, "}{", b, "}")) == Some(if |b| == 3 then a + b else b)
  {
    hide Plain, Commands, EmptyGroups, Spaced, JoinGroups, Around, LastNumber;
    var operands, gap := Around("{", a, "}{", b, "}"), if |b| == 3 then "" else "  ";
    OperandsChars(a, b);
    PlainNone("\\" + cmd + operands);
    CommandGone(cmd, operands);
    CommandsNone(operands);
    EmptyGroupsKeeps(' ', operands);
    OperandsGroups(a, b);
    SpacedAppend(" ", operands);
    OneSpace();
    OperandsSpaced(a, b);
    JoinFront(Around(" ", a, "  ", b, " "));
    OperandsJoin(a, b);
    LastOperand(a, b);
  }

  lemma OneSpace()
    ensures Spaced(" ") == " "
  {
    assert " "[1..] == "";
  }

  lemma CommandGone(cmd: string, s: string)
    requires IsCommand(cmd) && (s == "" || !IsLetter(s[0]))
    ensures Commands("\\" + cmd + s) == " " + Commands(s)
  {
    var t := "\\" + cmd + s;
    LettersRun(cmd, s);
    assert t[1..] == cmd + s && t[1 + |cmd|..] == s;
  }

  lemma LastOperand(a: string, b: string)
    requires AllDigits(a) && AllDigits(b) && a != "" && b != ""
    ensures LastNumber(" " + Around(" ", a, if |b| == 3 then "" else "  ", b, " "), None)
            == Some(if |b| == 3 then a + b else b)
    ensures StripDots(if |b| == 3 then a + b else b) == if |b| == 3 then a + b else b
  {
    hide NumberLen, LastNumber;
    if |b| == 3 {
      assert Around(" ", a, "", b, " ") == " " + (a + b + " ");
      SpaceSkipped(" " + (a + b + " "), None);
      SpaceSkipped(a + b + " ", None);
      NumberThenSpace(a + b, "", None);
    } else {
      assert Around(" ", a, "  ", b, " ") == " " + (a + (" " + (" " + (b + " "))));
      SpaceSkipped(" " + (a + (" " + (" " + (b + " ")))), None);
      SpaceSkipped(a + (" " + (" " + (b + " "))), None);
      NumberIs(a, " " + (" " + (b + " ")));
      LastNumberSpace(a, " " + (b + " "), None);
      SpaceSkipped(b + " ", Some(a));
      NumberThenSpace(b, "", Some(a));
    }
  }

  lemma SpaceSkipped(s: string, last: Option<string>)
    ensures LastNumber(" " + s, last) == LastNumber(s, last)
  {
    assert (" " + s)[1..] == s && NumberLen(" " + s) == 0;
  }

  lemma NumberThenSpace(d: string, s: string, last: Option<string>)
    requires AllDigits(d) && d != "" && s == ""
    ensures LastNumber(d + " ", last) == Some(d)
  {
    hide NumberLen, LastNumber;
    assert " " + s == " ";
    NumberIs(d, " " + s);
    LastNumberSpace(d, s, last);
    NothingLeft(Some(d));
  }

  lemma NothingLeft(last: Option<string>)
    ensures LastNumber("", last) == last
  {
  }

  lemma CommandBalanced(cmd: string, a: string, b: string)
    requires IsCommand(cmd) && AllDigits(a) && AllDigits(b)
    ensures Balanced("\\" + cmd + Around("{", a, "}{", b, "}"))
  {
    hide Balanced;
    DigitsBalanced(a);
    DigitsBalanced(b);
    GroupBalanced(a);
    GroupBalanced(b);
    PlainBalanced("\\" + cmd);
    BalancedAppend("{" + a + "}", "{" + b + "}");
    BalancedAppend("\\" + cmd, "{" + a + "}" + ("{" + b + "}"));
    assert Around("{", a, "}{", b, "}") == "{" + a + "}" + ("{" + b + "}");
  }

  lemma GroupBalanced(s: string)
    requires Balanced(s)
    ensures Balanced("{" + s + "}")
  {
    var t := "{" + s + "}";
    assert Excess("{") == 1 && Excess("}") == -1 by {
      assert "{"[1..] == "" && "}"[1..] == "";
    }
    ExcessAppend("{", s);
    ExcessAppend("{" + s, "}");
    forall k | 0 <= k <= |t| ensures Excess(t[..k]) >= 0 {
      if k == |t| {
        assert t[..k] == t;
      } else if k > 0 {
        assert t[..k] == "{" + s[..k - 1];
        ExcessAppend("{", s[..k - 1]);
      }
    }
  }

  lemma {:induction false} PlainBalanced(s: string)
    requires '{' !in s && '}' !in s
    ensures Balanced(s) && Excess(s) == 0
  {
    if s != "" {
      PlainBalanced(s[1..]);
      forall k | 0 <= k <= |s| ensures Excess(s[..k]) >= 0 {
        if k > 0 {
          assert s[..k][1..] == s[1..][..k - 1];
        }
      }
    }
  }

  lemma CommandNoBox(cmd: string, operands: string, post: string)
    requires IsCommand(cmd) && NoLetters(operands) && '\\' !in operands && operands != "" && NoBox(post)
    ensures NoBox("\\" + cmd + operands + "}" + post)
  {
    hide BoxedLen;
    var body := "\\" + cmd + operands;
    var s := body + "}" + post;
    forall i: nat | i <= |s| ensures BoxedLen(s[i..]) == 0 {
      if i > |body| {
        assert s[i..] == post[i - |body| - 1..];
      } else {
        BoxChars(s[i..]);
        if i == 0 {
          NotBoxed(s[0..]);
          BoxedName(cmd, operands + "}" + post);
          assert s[0..] == "\\" + cmd + (operands + "}" + post);
        } else {
          assert i < |s| && s[i..][0] == s[i];
        }
      }
    }
  }

  lemma NotBoxed(s: string)
    ensures BoxedLen(s) > 0 ==> |s| > 6 && s[..6] == BOXED
  {
  }

  lemma BoxedName(cmd: string, rest: string)
    requires IsCommand(cmd) && rest != "" && !IsLetter(rest[0])
    ensures var s := "\\" + cmd + rest; !(|s| > 6 && s[..6] == BOXED)
  {
    var s := "\\" + cmd + rest;
    if |cmd| < 5 {
      assert s[|cmd| + 1] == rest[0] && IsLetter(BOXED[|cmd| + 1]);
      assert |s| > 6 ==> s[..6][|cmd| + 1] == s[|cmd| + 1];
    } else {
      assert |s| > 6 ==> s[..6][1..] == cmd[..5];
      assert BOXED[1..] == "boxed";
    }
  }

  lemma OperandsChars(a: string, b: string)
    requires AllDigits(a) && AllDigits(b)
    ensures var s := Around("{", a, "}{", b, "}");
      s != "" && s[0] == '{' && NoLetters(s) && ',' !in s && '$' !in s && '\\' !in s && '<' !in s
  {
  }

  lemma {:induction false} PlainNone(s: string)
    requires ',' !in s && '$' !in s
    ensures Plain(s) == s
  {
    if s != "" {
      PlainNone(s[1..]);
    }
  }

  lemma OperandsGroups(a: string, b: string)
    requires AllDigits(a) && AllDigits(b) && a != "" && b != ""
    ensures EmptyGroups(Around("{", a, "}{", b, "}")) == Around("{", a, "}{", b, "}")
  {
    hide EmptyGroups;
    NothingGrouped();
    EmptyGroupsDigits(b, "}");
    EmptyGroupsKeeps('{', b + "}");
    EmptyGroupsKeeps('}', "{" + (b + "}"));
    assert "}" + ("{" + (b + "}")) == "}{" + (b + "}");
    EmptyGroupsDigits(a, "}{" + (b + "}"));
    EmptyGroupsKeeps('{', a + ("}{" + (b + "}")));
  }

  lemma NothingGrouped()
    ensures EmptyGroups("") == "" && EmptyGroups("}") == "}"
  {
  }

  lemma OperandsSpaced(a: string, b: string)
    requires AllDigits(a) && AllDigits(b)
    ensures Spaced(Around("{", a, "}{", b, "}")) == Around(" ", a, "  ", b, " ")
  {
    hide Spaced;
    SpacedAppend("{", a + ("}{" + (b + "}")));
    SpacedAppend(a, "}{" + (b + "}"));
    SpacedAppend("}{", b + "}");
    SpacedAppend(b, "}");
    SpacedDigits(a);
    SpacedDigits(b);
    SpacedBraces();
  }

  lemma SpacedBraces()
    ensures Spaced("{") == " " && Spaced("}") == " " && Spaced("}{") == "  "
  {
    assert "{"[1..] == "" && "}"[1..] == "" && "}{"[1..] == "{";
  }

  lemma OperandsJoin(a: string, b: string)
    requires AllDigits(a) && AllDigits(b) && a != "" && b != ""
    ensures JoinGroups(false, Around(" ", a, "  ", b, " ")) == Around(" ", a, if |b| == 3 then "" else "  ", b, " ")
  {
    hide JoinGroups, DigitRun;
    SecondOperand(b);
    JoinDigits(false, a, "  " + (b + " "));
    JoinFront(a + ("  " + (b + " ")));
  }

  lemma {:induction false} SecondOperand(b: string)
    requires AllDigits(b) && b != ""
    ensures JoinGroups(true, "  " + (b + " ")) == (if |b| == 3 then "" else "  ") + (b + " ")
  {
    hide JoinGroups, DigitRun;
    TwoGaps(b + " ");
    DigitRunAppend(b, " ", false);
    NoRun(" ");
    JoinDigits(false, b, " ");
    JoinEnd();
    assert "" + (b + " ") == b + " ";
  }

  lemma {:induction false} TwoGaps(t: string)
    requires t != "" && IsDigit(t[0])
    ensures JoinGroups(true, "  " + t) == if ThreeDigits(t) then JoinGroups(false, t) else "  " + JoinGroups(false, t)
  {
    hide JoinGroups, GapRun;
    var s := "  " + t;
    JoinFront(t);
    LongerGap(t);
    LongerGap(" " + t);
    assert s == " " + (" " + t) && s[1..] == " " + t && s[2..] == t;
    assert " " + (" " + JoinGroups(false, t)) == "  " + JoinGroups(false, t);
    TwoGapsJoin(s, t);
  }

  lemma LongerGap(s: string)
    ensures GapRun(" " + s) == 1 + GapRun(s)
    ensures s != "" && IsDigit(s[0]) ==> GapRun(s) == 0
  {
    assert (" " + s)[1..] == s;
  }

  lemma TwoGapsJoin(s: string, t: string)
    requires |s| >= 2 && s[0] == ' ' && s[1..] == " " + t && s[2..] == t && GapRun(s) == 2
    ensures JoinGroups(true, s) == if ThreeDigits(t) then JoinGroups(false, t) else " " + JoinGroups(false, " " + t)
  {
    hide GapRun;
  }

  lemma JoinEnd()
    ensures JoinGroups(true, " ") == " "
  {
    assert " "[1..] == "";
  }

  lemma JoinFront(s: string)
    ensures JoinGroups(false, " " + s) == " " + JoinGroups(false, s)
  {
    assert (" " + s)[1..] == s;
  }
}
