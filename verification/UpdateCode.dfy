/** Replacing the generated header of a component's code between two marker lines, with plain string
    operations on arbitrary code. */
module UpdateCode {
  import opened Wrappers
  import opened StringSplitting

  const START: string := "# ***** DO NOT EDIT LINES BELOW *****"
  const END: string := "    # ***** DO NOT EDIT LINES ABOVE *****\n"

  const BODY: string := "\n    # write your function code here.\n    pass\n"

  const ASYNC_MAIN: string := "async def main("
  const SYNC_MAIN: string := "def main("

  // ----- async or sync -----

  /** The last line that starts a main function decides; without one it is sync. */
  predicate IsCoroutine(lines: seq<string>) {
    lines != [] &&
    var last := lines[|lines| - 1];
    if ASYNC_MAIN <= last then true
    else if SYNC_MAIN <= last then false
    else IsCoroutine(lines[..|lines| - 1])
  }

  method ScanIsCoroutine(lines: seq<string>) returns (isCoroutine: bool)
    ensures isCoroutine == IsCoroutine(lines)
  {
    isCoroutine := false;
    for i := 0 to |lines|
      invariant isCoroutine == IsCoroutine(lines[..i])
    {
      assert lines[..i + 1][..i] == lines[..i];
      if ASYNC_MAIN <= lines[i] {
        isCoroutine := true;
      } else if SYNC_MAIN <= lines[i] {
        isCoroutine := false;
      }
    }
    assert lines[..|lines|] == lines;
  }

  predicate IsAsync(functionDefinition: string) {
    IsCoroutine(Split(functionDefinition, "\n"))
  }

  lemma {:induction false} IsCoroutineExact(lines: seq<string>)
    ensures IsCoroutine(lines) <==> exists i :: DecidedAt(lines, i)
  {
    if lines != [] {
      var n := |lines| - 1;
      IsCoroutineExact(lines[..n]);
      NotBoth(lines[n]);
      assert forall j :: 0 <= j < n ==> lines[..n][j] == lines[j];
      forall i | 0 <= i < n && !(SYNC_MAIN <= lines[n]) ensures DecidedAt(lines, i) <==> DecidedAt(lines[..n], i) {
      }
      if ASYNC_MAIN <= lines[n] {
        assert DecidedAt(lines, n);
      }
    }
  }

  lemma NotBoth(line: string)
    ensures !(ASYNC_MAIN <= line && SYNC_MAIN <= line)
  {
    assert ASYNC_MAIN[0] != SYNC_MAIN[0];
  }

  /** A line of the text begins at position i with m. */
  ghost predicate LineBegins(s: string, i: int, m: string) {
    Occurs(s, m, i) && (i == 0 || s[i - 1] == '\n')
  }

  lemma FirstLine(a: string, b: string, m: string, i: int)
    requires '\n' !in a && '\n' !in m && m != ""
    ensures LineBegins(a + "\n" + b, i, m) <==> (i == 0 && m <= a) || LineBegins(b, i - |a| - 1, m)
  {
    var s := a + "\n" + b;
    if i == 0 && |m| <= |s| {
      assert |m| > |a| ==> s[..|m|][|a|] == '\n';
      assert |m| <= |a| ==> s[..|m|] == a[..|m|];
    } else if 0 < i <= |a| {
      assert s[i - 1] == a[i - 1];
    } else if |a| < i && i + |m| <= |s| {
      assert s[i..i + |m|] == b[i - |a| - 1..i - |a| - 1 + |m|];
    }
  }

  lemma OnlyLine(a: string, m: string, i: int)
    requires '\n' !in a && m != ""
    ensures LineBegins(a, i, m) <==> i == 0 && m <= a
  {
    if 0 < i <= |a| {
      assert a[i - 1] in a;
    }
  }

  /** The lines of a text that begin with m are those of its lists of lines. */
  lemma {:induction false} LinesBegin(s: string, m: string)
    requires '\n' !in m && m != ""
    ensures (exists k :: 0 <= k < |Split(s, "\n")| && m <= Split(s, "\n")[k]) <==> exists i :: LineBegins(s, i, m)
    decreases |s|
  {
    PartsLackSeparator(s, '\n');
    var lines := Split(s, "\n");
    match SplitOnce(s, "\n") {
      case None =>
        assert lines == [s] && '\n' !in lines[0];
        forall i ensures LineBegins(s, i, m) <==> i == 0 && m <= lines[0] {
          OnlyLine(s, m, i);
        }
        if m <= s {
          assert m <= lines[0] && LineBegins(s, 0, m);
        }
      case Some((a, b)) =>
        LinesBegin(b, m);
        assert lines[0] == a && lines[1..] == Split(b, "\n");
        forall i ensures LineBegins(s, i, m) <==> (i == 0 && m <= a) || LineBegins(b, i - |a| - 1, m) {
          FirstLine(a, b, m, i);
        }
        hide LineBegins;
        if i :| LineBegins(b, i, m) {
          FirstLine(a, b, m, i + |a| + 1);
          assert LineBegins(s, i + |a| + 1, m);
          var k :| 0 <= k < |Split(b, "\n")| && m <= Split(b, "\n")[k];
          assert m <= lines[k + 1];
        } else if m <= a {
          assert m <= lines[0] && LineBegins(s, 0, m);
        }
        assert forall k :: 1 <= k < |lines| ==> lines[k] == Split(b, "\n")[k - 1];
    }
  }

  lemma CoroutineFront(a: string, rest: seq<string>)
    ensures IsCoroutine([a] + rest) <==>
      IsCoroutine(rest) || (ASYNC_MAIN <= a && forall k :: 0 <= k < |rest| ==> !(SYNC_MAIN <= rest[k]))
  {
    hide IsCoroutine;
    IsCoroutineExact([a] + rest);
    IsCoroutineExact(rest);
    DecidedFront(a, rest);
  }

  /** Line i starts an async main function and no later line a sync one. */
  ghost predicate DecidedAt(lines: seq<string>, i: int) {
    0 <= i < |lines| && ASYNC_MAIN <= lines[i] && forall j :: i < j < |lines| ==> !(SYNC_MAIN <= lines[j])
  }

  lemma DecidedFront(a: string, rest: seq<string>)
    ensures (exists i :: DecidedAt([a] + rest, i)) <==>
      (exists i :: DecidedAt(rest, i)) || (ASYNC_MAIN <= a && forall k :: 0 <= k < |rest| ==> !(SYNC_MAIN <= rest[k]))
  {
    var lines := [a] + rest;
    forall i ensures DecidedAt(rest, i) <==> 0 <= i && DecidedAt(lines, i + 1) {
      assert 0 <= i < |rest| ==> rest[i] == lines[i + 1];
      assert forall j :: i < j < |rest| && 0 <= i ==> rest[j] == lines[j + 1];
      assert forall j :: i + 1 < j < |lines| && 0 <= i ==> lines[j] == rest[j - 1];
    }
    assert DecidedAt(lines, 0) <==> ASYNC_MAIN <= a && forall k :: 0 <= k < |rest| ==> !(SYNC_MAIN <= rest[k]) by {
      assert forall k :: 0 <= k < |rest| ==> rest[k] == lines[k + 1];
    }
    hide DecidedAt;
    if i :| DecidedAt(lines, i) {
      assert i == 0 || DecidedAt(rest, i - 1) by {
        DecidedRange(lines, i);
      }
    }
  }

  lemma DecidedRange(lines: seq<string>, i: int)
    requires DecidedAt(lines, i)
    ensures 0 <= i < |lines|
  {
  }

  /** A line begins with an async main function, and no later one with a sync one. */
  ghost predicate AsyncAt(s: string, i: int) {
    LineBegins(s, i, "async def main(") && forall j :: i < j ==> !LineBegins(s, j, "def main(")
  }

  lemma AsyncBehind(a: string, b: string)
    requires '\n' !in a
    ensures (exists i :: AsyncAt(a + "\n" + b, i)) <==>
      (exists i :: AsyncAt(b, i)) || (ASYNC_MAIN <= a && forall j :: !LineBegins(b, j, SYNC_MAIN))
  {
    var s := a + "\n" + b;
    hide LineBegins;
    forall i ensures LineBegins(s, i, ASYNC_MAIN) <==> (i == 0 && ASYNC_MAIN <= a) || LineBegins(b, i - |a| - 1, ASYNC_MAIN) {
      FirstLine(a, b, ASYNC_MAIN, i);
    }
    forall i ensures LineBegins(s, i, SYNC_MAIN) <==> (i == 0 && SYNC_MAIN <= a) || LineBegins(b, i - |a| - 1, SYNC_MAIN) {
      FirstLine(a, b, SYNC_MAIN, i);
    }
    forall j ensures LineBegins(b, j, SYNC_MAIN) ==> LineBegins(s, j + |a| + 1, SYNC_MAIN) && 0 <= j {
      FirstLine(a, b, SYNC_MAIN, j + |a| + 1);
      WithinText(b, j, SYNC_MAIN);
    }
    if i :| AsyncAt(b, i) {
      FirstLine(a, b, ASYNC_MAIN, i + |a| + 1);
      WithinText(b, i, ASYNC_MAIN);
      assert AsyncAt(s, i + |a| + 1);
    }
    if ASYNC_MAIN <= a && forall j :: !LineBegins(b, j, SYNC_MAIN) {
      assert AsyncAt(s, 0);
    }
    if i :| AsyncAt(s, i) {
      if LineBegins(b, i - |a| - 1, ASYNC_MAIN) {
        assert AsyncAt(b, i - |a| - 1);
      }
    }
  }

  lemma WithinText(s: string, i: int, m: string)
    ensures LineBegins(s, i, m) ==> 0 <= i
  {
  }

  /** The kind of main, seen in the text. */
  lemma {:induction false} AsyncExactly(s: string)
    ensures IsAsync(s) <==> exists i :: AsyncAt(s, i)
    decreases |s|
  {
    hide AsyncAt, LineBegins, IsCoroutine;
    PartsLackSeparator(s, '\n');
    var lines := Split(s, "\n");
    match SplitOnce(s, "\n") {
      case None =>
        assert '\n' !in lines[0] && lines == [s] == [s] + [];
        CoroutineFront(s, []);
        assert !IsCoroutine([]) by {
          IsCoroutineExact([]);
        }
        OneLine(s);
      case Some((a, b)) =>
        assert '\n' !in lines[0] && lines == [a] + Split(b, "\n");
        CoroutineFront(a, Split(b, "\n"));
        AsyncExactly(b);
        LinesBegin(b, SYNC_MAIN);
        AsyncBehind(a, b);
    }
  }

  lemma OneLine(s: string)
    requires '\n' !in s
    ensures (exists i :: AsyncAt(s, i)) <==> ASYNC_MAIN <= s
  {
    forall i, m: string | m != "" ensures LineBegins(s, i, m) <==> i == 0 && m <= s {
      OnlyLine(s, m, i);
    }
    if ASYNC_MAIN <= s {
      assert AsyncAt(s, 0);
    }
  }

  // ----- the generated header -----

  /** What a new module begins with, and what stands between the two markers of the header generated for a
      revision, by kind. */
  datatype Generator = Generator(imports: string, middle: bool -> string) {
    function Header(isCoroutine: bool): string {
      START + middle(isCoroutine) + END
    }

    /** The beginning has no start marker; in the header the end marker stands only at the end, and it
        declares main as it was asked to. */
    ghost predicate WellFormed() {
      && (forall i :: !Occurs(imports, START, i))
      && forall c ::
        && (forall i :: i < |middle(c)| ==> !Occurs(middle(c) + END, END, i))
        && IsAsync(middle(c)) == c
    }
  }

  function CompleteModule(g: Generator): string {
    g.imports + g.Header(false) + BODY + "\n\n# %%\n"
  }

  function Update(g: Generator, code: string): string {
    if code == "" then CompleteModule(g)
    else match SplitOnce(code, START)
      case None => code + "\n\n" + g.Header(false) + BODY
      case Some((start, remaining)) =>
        match SplitOnce(remaining, END)
        case None => start + g.Header(false) + BODY
        case Some((previous, end)) => start + g.Header(IsAsync(previous)) + end
  }

  method UpdateExistingCode(g: Generator, code: string) returns (r: string)
    ensures r == Update(g, code)
  {
    if code == "" {
      return CompleteModule(g);
    }
    var split := SplitOnce(code, START);
    if split.None? {
      return code + "\n\n" + g.Header(false) + BODY;
    }
    var (start, remaining) := split.value;
    var split' := SplitOnce(remaining, END);
    if split'.None? {
      return start + g.Header(false) + BODY;
    }
    var (previous, end) := split'.value;
    var isCoroutine := ScanIsCoroutine(Split(previous, "\n"));
    return start + g.Header(isCoroutine) + end;
  }

  // ----- where markers can start -----

  lemma StartMarkerShape()
    ensures |START| == 37 && START[0] == '#' && START[2] == '*'
    ensures forall k :: 0 < k < |START| ==> START[k] != '#'
    ensures forall k :: 0 <= k < |START| ==> START[k] != '\n'
  {
  }

  /** A start marker cannot begin in `pre` and reach into a text that begins with '#'. */
  lemma NoStraddling(pre: string, rest: string)
    requires rest != "" && rest[0] == '#'
    requires forall i :: !Occurs(pre, START, i)
    ensures forall i :: i < |pre| ==> !Occurs(pre + rest, START, i)
  {
    StartMarkerShape();
    forall i | i < |pre| ensures !Occurs(pre + rest, START, i) {
      var s := pre + rest;
      if 0 <= i && i + |START| <= |s| {
        if i + |START| <= |pre| {
          assert s[i..i + |START|] == pre[i..i + |START|];
          assert !Occurs(pre, START, i);
        } else {
          var k := |pre| - i;
          assert s[i..i + |START|][k] == s[|pre|] == '#';
        }
      }
    }
  }

  /** Appending two line breaks to code without a start marker keeps it without one. */
  lemma AppendKeepsNoStart(code: string)
    requires forall i :: !Occurs(code, START, i)
    ensures forall i :: !Occurs(code + "\n\n", START, i)
  {
    StartMarkerShape();
    var s := code + "\n\n";
    forall i ensures !Occurs(s, START, i) {
      if 0 <= i && i + |START| <= |s| {
        if i + |START| <= |code| {
          assert s[i..i + |START|] == code[i..i + |START|];
          assert !Occurs(code, START, i);
        } else {
          var k := |code| - i;
          assert s[i..i + |START|][k] == s[|code|] == '\n';
        }
      }
    }
  }

  // ----- main results -----

  /** What an updated module looks like: `start`, the header of kind `c`, then `end`. */
  ghost predicate Composed(g: Generator, code: string, start: string, c: bool, end: string) {
    code == start + g.Header(c) + end && forall i :: i < |start| ==> !Occurs(start + g.Header(c) + end, START, i)
  }

  /** Splitting a composed module gives its three parts back. */
  lemma ComposedSplits(g: Generator, code: string, start: string, c: bool, end: string)
    requires g.WellFormed() && Composed(g, code, start, c, end)
    ensures SplitOnce(code, START) == Some((start, g.middle(c) + END + end))
    ensures SplitOnce(g.middle(c) + END + end, END) == Some((g.middle(c), end))
    ensures Update(g, code) == code
  {
    var mid := g.middle(c);
    var remaining := mid + END + end;
    assert code == start + START + remaining;
    SplitOnceUnique(start, START, remaining);
    MiddleSplits(g, c, end);
    StartMarkerShape();
    assert code != "" by {
      assert |code| >= |START|;
    }
    hide SplitOnce, Occurs;
  }

  lemma MiddleSplits(g: Generator, c: bool, end: string)
    requires g.WellFormed()
    ensures SplitOnce(g.middle(c) + END + end, END) == Some((g.middle(c), end))
  {
    var mid := g.middle(c);
    forall i | i < |mid| ensures !Occurs(mid + END + end, END, i) {
      assert !Occurs(mid + END, END, i);
      if 0 <= i {
        assert (mid + END + end)[i..i + |END|] == (mid + END)[i..i + |END|];
      }
    }
    SplitOnceUnique(mid, END, end);
  }

  lemma HeaderAfter(g: Generator, start: string, c: bool, end: string)
    requires forall i :: !Occurs(start, START, i)
    ensures Composed(g, start + g.Header(c) + end, start, c, end)
  {
    StartMarkerShape();
    assert start + g.Header(c) + end == start + (g.Header(c) + end);
    NoStraddling(start, g.Header(c) + end);
  }

  lemma FirstPartHasNoMarker(s: string, m: string)
    requires m != "" && SplitOnce(s, m).Some?
    ensures forall i :: !Occurs(SplitOnce(s, m).value.0, m, i)
  {
    var (a, b) := SplitOnce(s, m).value;
    forall i | 0 <= i && i + |m| <= |a| ensures !Occurs(a, m, i) {
      assert s[i..i + |m|] == a[i..i + |m|];
      assert !Occurs(s, m, i);
    }
  }

  /** The text around the header that an update leaves: all of it if no start marker is found, the
      part before the start marker otherwise, and the part after the end marker if there is one. */
  function Around(g: Generator, code: string): (string, bool, string) {
    if code == "" then (g.imports, false, BODY + "\n\n# %%\n")
    else match SplitOnce(code, START)
      case None => (code + "\n\n", false, BODY)
      case Some((start, remaining)) =>
        match SplitOnce(remaining, END)
        case None => (start, false, BODY)
        case Some((previous, end)) => (start, IsAsync(previous), end)
  }

  /** Every updated module is complete: it has the current header between its two surroundings. */
  lemma UpdateComposes(g: Generator, code: string)
    requires g.WellFormed()
    ensures var (start, c, end) := Around(g, code); Composed(g, Update(g, code), start, c, end)
  {
    var (start, c, end) := Around(g, code);
    if code != "" && SplitOnce(code, START).None? {
      AppendKeepsNoStart(code);
    } else if code != "" {
      FirstPartHasNoMarker(code, START);
    }
    HeaderAfter(g, start, c, end);
    assert Update(g, code) == start + g.Header(c) + end;
  }

  /** Updating is idempotent on every code string. */
  lemma UpdateIdempotent(g: Generator, code: string)
    requires g.WellFormed()
    ensures Update(g, Update(g, code)) == Update(g, code)
  {
    UpdateComposes(g, code);
    var (start, c, end) := Around(g, code);
    ComposedSplits(g, Update(g, code), start, c, end);
  }

  /** On a module with both markers an update changes nothing but the text between them, and it keeps
      the kind of main: the surroundings and the kind read back from the result are the old ones. */
  lemma UpdateKeepsSurroundings(g: Generator, code: string, start: string, remaining: string, previous: string, end: string)
    requires g.WellFormed()
    requires SplitOnce(code, START) == Some((start, remaining)) && SplitOnce(remaining, END) == Some((previous, end))
    ensures var c := IsAsync(previous);
      && SplitOnce(Update(g, code), START) == Some((start, g.middle(c) + END + end))
      && SplitOnce(g.middle(c) + END + end, END) == Some((g.middle(c), end))
      && IsAsync(g.middle(c)) == IsAsync(previous)
  {
    UpdateComposes(g, code);
    assert code != "";
    ComposedSplits(g, Update(g, code), start, IsAsync(previous), end);
  }

  /** A later update with another generator gives what that generator alone would have given: no trace
      of the earlier header is left. */
  lemma LastUpdateWins(g: Generator, g': Generator, code: string)
    requires g.imports == g'.imports
    requires g.WellFormed() && g'.WellFormed()
    ensures Update(g', Update(g, code)) == Update(g', code)
  {
    UpdateComposes(g, code);
    UpdateComposes(g', code);
    var (start, c, end) := Around(g, code);
    ComposedSplits(g, Update(g, code), start, c, end);
  }
}
