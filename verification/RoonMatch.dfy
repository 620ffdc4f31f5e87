/** The tolerance for one typing error when matching words (src/adapters/roon_match.rs). */
module RoonMatch {

  function Least(a: nat, b: nat): nat {
    if a < b then a else b
  }

  /** The Levenshtein distance: the fewest insertions, deletions and replacements of one character that
      turn one word into the other. */
  function Distance(a: string, b: string): nat
    decreases |a| + |b|
  {
    if a == [] then |b|
    else if b == [] then |a|
    else
      var replaced := Distance(a[1..], b[1..]) + if a[0] == b[0] then 0 else 1;
      Least(replaced, Least(Distance(a[1..], b) + 1, Distance(a, b[1..]) + 1))
  }

  lemma {:induction false} DistanceIsSymmetric(a: string, b: string)
    ensures Distance(a, b) == Distance(b, a)
    decreases |a| + |b|
  {
    if a != [] && b != [] {
      DistanceIsSymmetric(a[1..], b[1..]);
      DistanceIsSymmetric(a[1..], b);
      DistanceIsSymmetric(a, b[1..]);
    }
  }

  lemma {:induction false} OneStep(a: string, b: string)
    requires a != [] && b != []
    ensures var replaced := Distance(a[1..], b[1..]) + if a[0] == b[0] then 0 else 1;
            Distance(a, b) == Least(replaced, Least(Distance(a[1..], b) + 1, Distance(a, b[1..]) + 1))
  {
  }

  /** Lengths differ by no more than the distance, and only equal words are at distance zero. */
  lemma {:induction false} DistanceBounds(a: string, b: string)
    ensures |a| <= |b| + Distance(a, b) && |b| <= |a| + Distance(a, b)
    ensures Distance(a, b) == 0 <==> a == b
    decreases |a| + |b|
  {
    hide Distance;
    if a == [] || b == [] {
      DistanceToEmpty(a, b);
    } else {
      DistanceBounds(a[1..], b[1..]);
      DistanceBounds(a[1..], b);
      DistanceBounds(a, b[1..]);
      OneStep(a, b);
      assert a == [a[0]] + a[1..] && b == [b[0]] + b[1..];
    }
  }

  lemma {:induction false} DistanceGrows(a: string, b: string)
    ensures a != [] ==> Distance(a, b) <= Distance(a[1..], b) + 1
    ensures b != [] ==> Distance(a, b) <= Distance(a, b[1..]) + 1
  {
    hide Distance;
    if a == [] || b == [] {
      DistanceToEmpty(a, b);
      if a != [] { DistanceToEmpty(a[1..], b); }
      if b != [] { DistanceToEmpty(a, b[1..]); }
    } else {
      OneStep(a, b);
    }
  }

  /** Adding a character to one word changes the distance by at most one. */
  lemma {:induction false} DistanceStep(a: string, b: string)
    ensures b != [] ==> Distance(a, b[1..]) <= Distance(a, b) + 1
    ensures a != [] ==> Distance(a[1..], b) <= Distance(a, b) + 1
    decreases |a| + |b|
  {
    hide Distance;
    if a == [] || b == [] {
      DistanceToEmpty(a, b);
      if a != [] { DistanceToEmpty(a[1..], b); }
      if b != [] { DistanceToEmpty(a, b[1..]); }
    } else {
      DistanceStep(a[1..], b);
      DistanceStep(a, b[1..]);
      OneStep(a, b);
      DistanceGrows(a, b[1..]);
      DistanceGrows(a[1..], b);
    }
  }

  lemma {:induction false} DistanceToEmpty(a: string, b: string)
    requires a == [] || b == []
    ensures Distance(a, b) == |a| + |b|
  {
  }

  /** A common first character can be left out. */
  lemma {:induction false} SameFirst(a: string, b: string)
    requires a != [] && b != [] && a[0] == b[0]
    ensures Distance(a, b) == Distance(a[1..], b[1..])
  {
    DistanceStep(a[1..], b);
    DistanceStep(a, b[1..]);
  }

  /** What a difference in the first character leaves of the tolerance, by the lengths of the words. */
  lemma {:induction false} DifferentFirst(a: string, b: string)
    requires a != [] && b != [] && a[0] != b[0]
    ensures |a| == |b| ==> (Distance(a, b) <= 1 <==> a[1..] == b[1..])
    ensures |a| == |b| + 1 ==> (Distance(a, b) <= 1 <==> a[1..] == b)
    ensures |b| == |a| + 1 ==> (Distance(a, b) <= 1 <==> a == b[1..])
  {
    DistanceBounds(a[1..], b[1..]);
    DistanceBounds(a[1..], b);
    DistanceBounds(a, b[1..]);
  }

  /** One of the words is the other with one character taken out. */
  ghost predicate OneLess(longer: string, shorter: string) {
    exists k :: 0 <= k < |longer| && shorter == longer[..k] + longer[k + 1..]
  }

  /** The words differ in one place at most. */
  ghost predicate OneReplaced(a: string, b: string) {
    && |a| == |b|
    && forall i, j :: 0 <= i < j < |a| ==> a[i] == b[i] || a[j] == b[j]
  }

  lemma {:induction false} OneLessShifts(a: string, b: string)
    requires a != [] && b != [] && a[0] == b[0]
    ensures OneLess(a, b) <==> OneLess(a[1..], b[1..])
  {
    if k :| 0 <= k < |a| && b == a[..k] + a[k + 1..] {
      if k == 0 {
        assert b == a[1..] && b[1..] == a[1..][..0] + a[1..][1..];
      } else {
        assert b[1..] == a[1..][..k - 1] + a[1..][k..];
      }
    }
    if k :| 0 <= k < |a[1..]| && b[1..] == a[1..][..k] + a[1..][k + 1..] {
      assert b == [a[0]] + b[1..] && b == a[..k + 1] + a[k + 2..];
    }
  }

  lemma {:induction false} OneLessAtOnce(a: string, b: string)
    requires a != [] && b != [] && a[0] != b[0]
    ensures OneLess(a, b) <==> a[1..] == b
  {
    if a[1..] == b {
      assert b == a[..0] + a[1..];
    }
  }

  /** The distance is at most one exactly for equal words, and for words one of which becomes the other by
      replacing one character or by taking one out. */
  lemma {:induction false} CloseExactly(a: string, b: string)
    ensures Distance(a, b) <= 1 <==> OneReplaced(a, b) || OneLess(a, b) || OneLess(b, a)
    decreases |a| + |b|
  {
    hide Distance, OneLess, OneReplaced;
    if a == [] || b == [] {
      DistanceToEmpty(a, b);
      CloseToEmpty(a, b);
    } else if a[0] == b[0] {
      SameFirst(a, b);
      CloseExactly(a[1..], b[1..]);
      OneLessShifts(a, b);
      OneLessShifts(b, a);
      OneReplacedShifts(a, b);
    } else {
      DifferentFirst(a, b);
      DistanceBounds(a, b);
      OneLessAtOnce(a, b);
      OneLessAtOnce(b, a);
      OneReplacedAtOnce(a, b);
    }
  }

  lemma {:induction false} CloseToEmpty(a: string, b: string)
    requires a == [] || b == []
    ensures |a| + |b| <= 1 <==> OneReplaced(a, b) || OneLess(a, b) || OneLess(b, a)
  {
    if |a| == 1 {
      assert b == a[..0] + a[1..];
    }
    if |b| == 1 {
      assert a == b[..0] + b[1..];
    }
  }

  lemma {:induction false} OneReplacedShifts(a: string, b: string)
    requires a != [] && b != [] && a[0] == b[0]
    ensures OneReplaced(a, b) <==> OneReplaced(a[1..], b[1..])
  {
    if OneReplaced(a, b) {
      forall i, j | 0 <= i < j < |a| - 1 ensures a[1..][i] == b[1..][i] || a[1..][j] == b[1..][j] {
        assert a[i + 1] == b[i + 1] || a[j + 1] == b[j + 1];
      }
    }
    if OneReplaced(a[1..], b[1..]) {
      forall i, j | 0 < i < j < |a| ensures a[i] == b[i] || a[j] == b[j] {
        assert a[1..][i - 1] == b[1..][i - 1] || a[1..][j - 1] == b[1..][j - 1];
      }
    }
  }

  lemma {:induction false} OneReplacedAtOnce(a: string, b: string)
    requires a != [] && b != [] && a[0] != b[0]
    ensures OneReplaced(a, b) <==> a[1..] == b[1..]
  {
    if OneReplaced(a, b) {
      forall j | 0 <= j < |a| - 1 ensures a[1..][j] == b[1..][j] {
        assert a[0] == b[0] || a[j + 1] == b[j + 1];
      }
    }
    if a[1..] == b[1..] {
      forall j | 0 < j < |a| ensures a[j] == b[j] {
        assert a[1..][j - 1] == b[1..][j - 1];
      }
    }
  }

  /** The greedy test: walk both words, spend the one edit at the first difference, and decide by the
      lengths which word to advance. It holds exactly when the distance is at most one. */
  method EditDistanceAtMostOne(a: string, b: string) returns (close: bool)
    ensures close <==> Distance(a, b) <= 1
  {
    hide Distance;
    DistanceBounds(a, b);
    if |a| > |b| + 1 || |b| > |a| + 1 {
      return false;
    }
    var i, j, edits := 0, 0, 0;
    while i < |a| && j < |b|
      invariant i <= |a| && j <= |b| && 0 <= edits <= 1
      invariant edits == 0 ==> i == j
      invariant edits == 1 ==> i == j + (if |a| > |b| then 1 else 0) - (if |b| > |a| then 1 else 0)
      invariant edits == 0 ==> Distance(a, b) == Distance(a[i..], b[j..])
      invariant edits == 1 ==> (Distance(a, b) <= 1 <==> a[i..] == b[j..])
      decreases |a| - i + |b| - j
    {
      if a[i] == b[j] {
        SameFirst(a[i..], b[j..]);
        assert a[i..] == [a[i]] + a[i + 1..] && b[j..] == [b[j]] + b[j + 1..];
        i, j := i + 1, j + 1;
        continue;
      }
      edits := edits + 1;
      if edits > 1 {
        assert a[i..][0] != b[j..][0];
        return false;
      }
      DifferentFirst(a[i..], b[j..]);
      if |a| > |b| {
        i := i + 1;
      } else if |b| > |a| {
        j := j + 1;
      } else {
        i, j := i + 1, j + 1;
      }
    }
    DistanceToEmpty(a[i..], b[j..]);
    close := edits + (|a| - i) + (|b| - j) <= 1;
  }
}
