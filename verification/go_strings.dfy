/** The three functions of Go's `strings` package that the adb wrapper relies
    on: `Index`, `Contains` and `Split` with a non-empty separator. Strings are
    sequences of characters; Go works on bytes, but every separator used by the
    wrapper is ASCII, so the distinction does not matter here.
 */
module GoStrings {

  /** `sub` occurs in `s` starting at position `i`. */
  predicate OccursAt(s: string, sub: string, i: int)
  {
    0 <= i && i + |sub| <= |s| && s[i..i + |sub|] == sub
  }

  /** Occurrences in `s[1..]` are the occurrences in `s` shifted by one. */
  lemma OccursAtTail(s: string, sub: string, j: int)
    requires |s| > 0 && 0 <= j
    ensures OccursAt(s[1..], sub, j) <==> OccursAt(s, sub, j + 1)
  {
  }

  /** Go's `strings.Index`: the position of the first occurrence of `sub` in
      `s`, or -1 when there is none. */
  function Index(s: string, sub: string): (r: int)
    ensures -1 <= r <= |s|
    ensures r >= 0 ==> OccursAt(s, sub, r)
    ensures r >= 0 ==> forall j :: 0 <= j < r ==> !OccursAt(s, sub, j)
    ensures r < 0 ==> forall j :: !OccursAt(s, sub, j)
    decreases |s|
  {
    if |sub| <= |s| && s[..|sub|] == sub then 0
    else if |s| == 0 then -1
    else
      var t := Index(s[1..], sub);
      assert !OccursAt(s, sub, 0) by {
        if |sub| <= |s| {
          assert s[0..|sub|] == s[..|sub|];
        }
      }
      forall j | 1 <= j
        ensures OccursAt(s[1..], sub, j - 1) <==> OccursAt(s, sub, j)
      {
        OccursAtTail(s, sub, j - 1);
      }
      if t < 0 then -1 else t + 1
  }

  /** Go's `strings.Contains`, defined as Go defines it: `Index(s, sub) >= 0`. */
  predicate Contains(s: string, sub: string)
  {
    Index(s, sub) >= 0
  }

  /** `Contains` holds exactly when there is an occurrence somewhere. */
  lemma ContainsOccurs(s: string, sub: string)
    ensures Contains(s, sub) <==> exists i :: OccursAt(s, sub, i)
  {
  }

  /** A string holds every needle written into it. */
  lemma ContainsInfix(a: string, sub: string, b: string)
    ensures Contains(a + sub + b, sub)
  {
    var s := a + sub + b;
    assert s[|a|..|a| + |sub|] == sub;
    assert OccursAt(s, sub, |a|);
    ContainsOccurs(s, sub);
  }

  /** A one-character needle occurs exactly when that character is present. */
  lemma ContainsChar(s: string, c: char)
    ensures Contains(s, [c]) <==> c in s
  {
    if c in s {
      var i :| 0 <= i < |s| && s[i] == c;
      assert s[i..i + 1] == [c];
      assert OccursAt(s, [c], i);
    }
    if Contains(s, [c]) {
      var i := Index(s, [c]);
      assert s[i] == s[i..i + 1][0];
    }
  }

  /** A string that lacks one of the needle's characters cannot contain it. */
  lemma MissingCharNotContained(s: string, sub: string, c: char)
    requires c in sub && c !in s
    ensures !Contains(s, sub)
  {
  }

  /** Go's `strings.Split(s, sep)` for a non-empty `sep`: the pieces between
      successive non-overlapping occurrences of `sep`, scanning left to right. */
  function Split(s: string, sep: string): (parts: seq<string>)
    requires |sep| > 0
    ensures |parts| >= 1
    ensures |parts| > 1 <==> Contains(s, sep)
    decreases |s|
  {
    var i := Index(s, sep);
    if i < 0 then [s] else [s[..i]] + Split(s[i + |sep|..], sep)
  }

  /** No piece of a split holds the separator. */
  lemma {:induction false} SplitPiecesLackSeparator(s: string, sep: string)
    requires |sep| > 0
    ensures forall k :: 0 <= k < |Split(s, sep)| ==> !Contains(Split(s, sep)[k], sep)
    decreases |s|
  {
    var i := Index(s, sep);
    if i >= 0 {
      var head, rest := s[..i], s[i + |sep|..];
      forall j | 0 <= j ensures !OccursAt(head, sep, j) {
        if j + |sep| <= |head| {
          assert !OccursAt(s, sep, j);
          assert s[j..j + |sep|] == head[j..j + |sep|];
        }
      }
      SplitPiecesLackSeparator(rest, sep);
      SplitUnfold(s, sep);
    }
  }

  /** The inverse of `Split`: the pieces glued back together with `sep`. */
  function Join(parts: seq<string>, sep: string): string
    requires |parts| >= 1
  {
    if |parts| == 1 then parts[0] else parts[0] + sep + Join(parts[1..], sep)
  }

  /** Joining the pieces of a split with the separator gives back the
      original string. */
  lemma {:induction false} JoinSplit(s: string, sep: string)
    requires |sep| > 0
    ensures Join(Split(s, sep), sep) == s
    decreases |s|
  {
    var i := Index(s, sep);
    if i >= 0 {
      var rest := s[i + |sep|..];
      JoinSplit(rest, sep);
      assert s[i..i + |sep|] == sep;
      assert s == s[..i] + s[i..i + |sep|] + rest;
    }
  }

  /** The first piece of a split is the text before the first separator, or
      all of `s` when there is no separator. */
  lemma SplitHead(s: string, sep: string)
    requires |sep| > 0
    ensures Index(s, sep) < 0 ==> Split(s, sep)[0] == s
    ensures Index(s, sep) >= 0 ==> Split(s, sep)[0] == s[..Index(s, sep)]
  {
  }

  /** The second piece `v` of a split is the text from `start`, just after
      the first separator, up to the next separator or the end of `s`. The
      offset is a parameter pinned by the requires, rather than the
      expression `Index(s, sep) + |sep|` written out in every ensures, so that
      the solver sees one term for it. */
  lemma SplitSecond(s: string, sep: string, start: int, v: string)
    requires |sep| > 0 && Index(s, sep) >= 0
    requires start == Index(s, sep) + |sep|
    requires |Split(s, sep)| > 1 && v == Split(s, sep)[1]
    ensures start + |v| <= |s|
    ensures s[start..start + |v|] == v
    ensures start + |v| < |s| ==> OccursAt(s, sep, start + |v|)
  {
    var t := s[start..];
    SecondIsTailHead(s, sep, start);
    TailFirstPiece(t, sep, v);
    SpanInSuffix(s, sep, start, v);
  }

  /** A prefix of a suffix of `s`, located in `s` itself. */
  lemma SpanInSuffix(s: string, sep: string, start: nat, v: string)
    requires start <= |s|
    requires |v| <= |s[start..]| && s[start..][..|v|] == v
    requires |v| == |s[start..]| || OccursAt(s[start..], sep, |v|)
    ensures start + |v| <= |s| && s[start..start + |v|] == v
    ensures start + |v| == |s| || OccursAt(s, sep, start + |v|)
  {
    if |v| < |s[start..]| {
      ShiftOccurrence(s, sep, start, |v|);
    }
    assert s[start..start + |v|] == s[start..][..|v|];
  }

  /** The second piece is the first piece of what follows the first
      separator. */
  lemma SecondIsTailHead(s: string, sep: string, start: int)
    requires |sep| > 0 && Index(s, sep) >= 0
    requires start == Index(s, sep) + |sep|
    ensures |Split(s, sep)| > 1
    ensures Split(s, sep)[1] == Split(s[start..], sep)[0]
  {
    assert Split(s, sep) == [s[..Index(s, sep)]] + Split(s[start..], sep);
  }

  /** One step of `Split` when a separator is present. */
  lemma SplitUnfold(s: string, sep: string)
    requires |sep| > 0 && Index(s, sep) >= 0
    ensures Split(s, sep) == [s[..Index(s, sep)]] + Split(s[Index(s, sep) + |sep|..], sep)
  {
  }

  /** The first piece is a prefix, followed by a separator or the end. */
  lemma TailFirstPiece(t: string, sep: string, v: string)
    requires |sep| > 0 && v == Split(t, sep)[0]
    ensures |v| <= |t| && t[..|v|] == v
    ensures |v| == |t| || OccursAt(t, sep, |v|)
  {
    SplitHead(t, sep);
  }

  /** An occurrence in a suffix is an occurrence in the whole string. */
  lemma ShiftOccurrence(s: string, sep: string, start: nat, j: nat)
    requires start <= |s| && OccursAt(s[start..], sep, j)
    ensures OccursAt(s, sep, start + j)
  {
  }

  /** When `a` holds no separator and no separator can straddle the end of
      `a` and the start of `sep`, the first separator of `a + sep + b` is the
      one right after `a`. */
  lemma IndexAfterPrefix(a: string, sep: string, b: string)
    requires |sep| > 0
    requires !Contains(a + sep[..|sep| - 1], sep)
    ensures Index(a + sep + b, sep) == |a|
  {
    var s := a + sep + b;
    var t := a + sep[..|sep| - 1];
    assert s[|a|..|a| + |sep|] == sep;
    assert OccursAt(s, sep, |a|);
    forall j | 0 <= j < |a| ensures !OccursAt(s, sep, j) {
      assert !OccursAt(t, sep, j);
      assert s[j..j + |sep|] == t[j..j + |sep|];
    }
  }

  /** Splitting peels off the first piece. */
  lemma SplitCons(a: string, sep: string, b: string)
    requires |sep| > 0
    requires !Contains(a + sep[..|sep| - 1], sep)
    ensures Split(a + sep + b, sep) == [a] + Split(b, sep)
  {
    var s := a + sep + b;
    IndexAfterPrefix(a, sep, b);
    assert s[..|a|] == a;
    assert s[|a| + |sep|..] == b;
  }

  /** With a one-character separator, splitting peels off every piece that
      lacks the separator. */
  lemma SplitConsChar(a: string, c: char, b: string)
    requires c !in a
    ensures Split(a + [c] + b, [c]) == [a] + Split(b, [c])
  {
    assert a + [c][..0] == a;
    ContainsChar(a, c);
    SplitCons(a, [c], b);
  }

  /** For a one-character separator, splitting undoes joining whenever no
      piece holds the separator. */
  lemma {:induction false} SplitJoin(parts: seq<string>, c: char)
    requires |parts| >= 1
    requires forall k :: 0 <= k < |parts| ==> c !in parts[k]
    ensures Split(Join(parts, [c]), [c]) == parts
    decreases |parts|
  {
    if |parts| == 1 {
      ContainsChar(parts[0], c);
    } else {
      var sep := [c];
      assert parts[0] + sep[..0] == parts[0];
      ContainsChar(parts[0], c);
      SplitCons(parts[0], sep, Join(parts[1..], sep));
      SplitJoin(parts[1..], c);
      assert parts == [parts[0]] + parts[1..];
    }
  }
}
