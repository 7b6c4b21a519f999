/** Splitting strings at separators. */
module StringSplitting {
  import opened Wrappers

  predicate Occurs(s: string, m: string, i: int) {
    0 <= i && i + |m| <= |s| && s[i..i + |m|] == m
  }

  lemma Prepend(c: char, a: string, m: string, b: string)
    ensures [c] + (a + m + b) == [c] + a + m + b
  {
  }

  /** `s.split(m, 1)`: the text before and after the first occurrence. */
  function SplitOnce(s: string, m: string): (r: Option<(string, string)>)
    requires m != ""
    ensures r.None? ==> forall i :: !Occurs(s, m, i)
    ensures r.Some? ==> s == r.value.0 + m + r.value.1 && forall i :: i < |r.value.0| ==> !Occurs(s, m, i)
  {
    if |s| < |m| then None
    else if s[..|m|] == m then Some(("", s[|m|..]))
    else
      var r := SplitOnce(s[1..], m);
      assert forall i :: i > 0 && Occurs(s, m, i) ==> Occurs(s[1..], m, i - 1) by {
        forall i | i > 0 && Occurs(s, m, i) ensures Occurs(s[1..], m, i - 1) {
          assert s[1..][i - 1..i - 1 + |m|] == s[i..i + |m|];
        }
      }
      assert !Occurs(s, m, 0);
      assert r.Some? ==> s == [s[0]] + r.value.0 + m + r.value.1 by {
        if r.Some? {
          Prepend(s[0], r.value.0, m, r.value.1);
          assert s == [s[0]] + s[1..];
        }
      }
      if r.None? then None else Some(([s[0]] + r.value.0, r.value.1))
  }

  lemma SplitOnceUnique(a: string, m: string, b: string)
    requires m != "" && forall i :: i < |a| ==> !Occurs(a + m + b, m, i)
    ensures SplitOnce(a + m + b, m) == Some((a, b))
  {
    var s := a + m + b;
    assert s[|a|..|a| + |m|] == m;
    assert Occurs(s, m, |a|);
    var r := SplitOnce(s, m);
    assert r.Some?;
    var (a', b') := r.value;
    assert s[|a'|..|a'| + |m|] == m;
    assert Occurs(s, m, |a'|);
    assert |a'| == |a|;
    assert a' == s[..|a|] == a;
    assert b' == s[|a| + |m|..] == b;
  }

  lemma SplitAtChar(a: string, c: char, b: string)
    requires c !in a
    ensures SplitOnce(a + [c] + b, [c]) == Some((a, b))
  {
    forall i | 0 <= i < |a| ensures !Occurs(a + [c] + b, [c], i) {
      assert (a + [c] + b)[i..i + 1][0] == a[i];
    }
    SplitOnceUnique(a, [c], b);
  }

  /** `s.split(m)`. There is one part more than `s.count(m)`. */
  function Split(s: string, m: string): (parts: seq<string>)
    requires m != ""
    ensures |parts| > 0
    decreases |s|
  {
    match SplitOnce(s, m)
    case None => [s]
    case Some((a, b)) => [a] + Split(b, m)
  }

  function Join(tokens: seq<string>, separator: char): string {
    if tokens == [] then ""
    else
      var n := |tokens| - 1;
      if n == 0 then tokens[0] else Join(tokens[..n], separator) + [separator] + tokens[n]
  }

  lemma JoinAppend(tokens: seq<string>, t: string, separator: char)
    ensures Join(tokens + [t], separator) == if tokens == [] then t else Join(tokens, separator) + [separator] + t
  {
    assert (tokens + [t])[..|tokens|] == tokens;
  }

  lemma {:induction false} JoinFront(tokens: seq<string>, separator: char)
    requires |tokens| > 1
    ensures Join(tokens, separator) == tokens[0] + [separator] + Join(tokens[1..], separator)
  {
    var n := |tokens| - 1;
    assert tokens[1..][..n - 1] == tokens[..n][1..];
    if n > 1 {
      JoinFront(tokens[..n], separator);
    }
  }

  lemma {:induction false} JoinSplit(s: string, c: char)
    ensures Join(Split(s, [c]), c) == s
    decreases |s|
  {
    match SplitOnce(s, [c]) {
      case None =>
      case Some((a, b)) =>
        JoinSplit(b, c);
        JoinFront(Split(s, [c]), c);
        assert Split(s, [c])[1..] == Split(b, [c]);
    }
  }

  /** Parts without the separator are found again. */
  lemma {:induction false} SplitJoin(parts: seq<string>, c: char)
    requires |parts| > 0 && forall i :: 0 <= i < |parts| ==> c !in parts[i]
    ensures Split(Join(parts, c), [c]) == parts
  {
    if |parts| == 1 {
      NoOccurrence(parts[0], c);
    } else {
      SplitJoin(parts[1..], c);
      JoinFront(parts, c);
      SplitAtChar(parts[0], c, Join(parts[1..], c));
    }
  }

  lemma NoOccurrence(s: string, c: char)
    requires c !in s
    ensures SplitOnce(s, [c]).None?
  {
  }

  lemma {:induction false} PartsLackSeparator(s: string, c: char)
    ensures forall i :: 0 <= i < |Split(s, [c])| ==> c !in Split(s, [c])[i]
    decreases |s|
  {
    match SplitOnce(s, [c]) {
      case None =>
        forall i | 0 <= i < |s| ensures s[i] != c {
          assert s[i..i + 1] == [s[i]];
          assert !Occurs(s, [c], i);
        }
      case Some((a, b)) =>
        PartsLackSeparator(b, c);
        forall i | 0 <= i < |a| ensures a[i] != c {
          assert s[i..i + 1] == [a[i]];
          assert !Occurs(s, [c], i);
        }
    }
  }
}
