/**
 levenshteinDistance and calculateStringSimilarity of
 go_backend/extension_runtime_matching.go: the table holds the cheapest edit
 script, and the distance is a metric. Strings are their bytes, as in the code.
 */
module Levenshtein {
  type Text = seq<int>

  // ---------------------------------------------------------------- edit scripts

  /** What happens to a text, from left to right. */
  datatype Edit = Keep | Replace(c: int) | Insert(c: int) | Delete

  function Last<T>(s: seq<T>): T
    requires s != []
  {
    s[|s| - 1]
  }

  function Front<T>(s: seq<T>): seq<T>
    requires s != []
  {
    s[..|s| - 1]
  }

  /** The script fits the text and turns it into the second one. */
  ghost predicate Turns(a: Text, script: seq<Edit>, b: Text)
    decreases |script|
  {
    if script == [] then a == [] && b == []
    else
      match Last(script)
      case Keep => a != [] && b != [] && Last(a) == Last(b) && Turns(Front(a), Front(script), Front(b))
      case Replace(c) => a != [] && b != [] && Last(b) == c && Turns(Front(a), Front(script), Front(b))
      case Insert(c) => b != [] && Last(b) == c && Turns(a, Front(script), Front(b))
      case Delete => a != [] && Turns(Front(a), Front(script), b)
  }

  /** Keeping is free, everything else costs one. */
  function Cost(script: seq<Edit>): nat {
    if script == [] then 0 else Cost(Front(script)) + if Last(script).Keep? then 0 else 1
  }

  // ---------------------------------------------------------------- the recurrence of the table

  function Min(x: nat, y: nat): nat {
    if x <= y then x else y
  }

  function Mismatch(x: int, y: int): nat {
    if x == y then 0 else 1
  }

  /** The table entry for the first `i` and `j` bytes. */
  function Dist(a: Text, b: Text, i: nat, j: nat): nat
    requires i <= |a| && j <= |b|
  {
    if i == 0 then j
    else if j == 0 then i
    else
      Min(Min(Dist(a, b, i - 1, j) + 1, Dist(a, b, i, j - 1) + 1),
          Dist(a, b, i - 1, j - 1) + Mismatch(a[i - 1], b[j - 1]))
  }

  function Distance(a: Text, b: Text): nat {
    Dist(a, b, |a|, |b|)
  }

  lemma {:induction false} DistNeighbours(a: Text, b: Text, i: nat, j: nat)
    requires i <= |a| && j <= |b|
    ensures i > 0 ==> Dist(a, b, i, j) <= Dist(a, b, i - 1, j) + 1
    ensures j > 0 ==> Dist(a, b, i, j) <= Dist(a, b, i, j - 1) + 1
    ensures i > 0 && j > 0 ==> Dist(a, b, i, j) <= Dist(a, b, i - 1, j - 1) + Mismatch(a[i - 1], b[j - 1])
  {
    if i > 0 && j == 0 { assert Dist(a, b, i - 1, 0) == i - 1; }
    if j > 0 && i == 0 { assert Dist(a, b, 0, j - 1) == j - 1; }
  }

  // ---------------------------------------------------------------- the cheapest script

  /** No script is cheaper. */
  lemma {:induction false} NoScriptCheaper(a: Text, b: Text, i: nat, j: nat, script: seq<Edit>)
    requires i <= |a| && j <= |b| && Turns(a[..i], script, b[..j])
    ensures Dist(a, b, i, j) <= Cost(script)
    decreases |script|
  {
    if script != [] {
      DistNeighbours(a, b, i, j);
      var rest := Front(script);
      match Last(script)
      case Keep => Fronts(a, b, i, j); NoScriptCheaper(a, b, i - 1, j - 1, rest);
      case Replace(_) => Fronts(a, b, i, j); NoScriptCheaper(a, b, i - 1, j - 1, rest);
      case Insert(_) => Fronts(a, b, i, j); NoScriptCheaper(a, b, i, j - 1, rest);
      case Delete => Fronts(a, b, i, j); NoScriptCheaper(a, b, i - 1, j, rest);
    }
  }

  lemma {:induction false} Fronts(a: Text, b: Text, i: nat, j: nat)
    requires i <= |a| && j <= |b|
    ensures i > 0 ==> Front(a[..i]) == a[..i - 1] && Last(a[..i]) == a[i - 1]
    ensures j > 0 ==> Front(b[..j]) == b[..j - 1] && Last(b[..j]) == b[j - 1]
  {
  }

  lemma {:induction false} Appending(a: Text, b: Text, i: nat, j: nat, rest: seq<Edit>, e: Edit)
    requires i <= |a| && j <= |b| && (i > 0 || j > 0)
    requires match e
      case Keep => i > 0 && j > 0 && a[i - 1] == b[j - 1] && Turns(a[..i - 1], rest, b[..j - 1])
      case Replace(c) => i > 0 && j > 0 && c == b[j - 1] && Turns(a[..i - 1], rest, b[..j - 1])
      case Insert(c) => j > 0 && c == b[j - 1] && Turns(a[..i], rest, b[..j - 1])
      case Delete => i > 0 && Turns(a[..i - 1], rest, b[..j])
    ensures Turns(a[..i], rest + [e], b[..j]) && Cost(rest + [e]) == Cost(rest) + if e.Keep? then 0 else 1
  {
    Fronts(a, b, i, j);
    assert Front(rest + [e]) == rest && Last(rest + [e]) == e;
  }

  /** Some script is that cheap: read back from the table. */
  lemma {:induction false} CheapestScript(a: Text, b: Text, i: nat, j: nat) returns (script: seq<Edit>)
    requires i <= |a| && j <= |b|
    ensures Turns(a[..i], script, b[..j]) && Cost(script) == Dist(a, b, i, j)
    decreases i + j
  {
    if i == 0 && j == 0 {
      script := [];
    } else {
      var e: Edit;
      if i == 0 || (j > 0 && Dist(a, b, i, j) == Dist(a, b, i, j - 1) + 1) {
        script := CheapestScript(a, b, i, j - 1);
        e := Insert(b[j - 1]);
      } else if j == 0 || Dist(a, b, i, j) == Dist(a, b, i - 1, j) + 1 {
        script := CheapestScript(a, b, i - 1, j);
        e := Delete;
      } else {
        script := CheapestScript(a, b, i - 1, j - 1);
        e := if a[i - 1] == b[j - 1] then Keep else Replace(b[j - 1]);
      }
      Appending(a, b, i, j, script, e);
      script := script + [e];
    }
  }

  /** The distance is the cost of the cheapest script: one has it, and none has less. */
  lemma {:induction false} DistanceIsMinimal(a: Text, b: Text)
    ensures exists script :: Turns(a, script, b) && Cost(script) == Distance(a, b)
    ensures forall script :: Turns(a, script, b) ==> Distance(a, b) <= Cost(script)
  {
    assert a[..|a|] == a && b[..|b|] == b;
    var best := CheapestScript(a, b, |a|, |b|);
    forall script | Turns(a, script, b) ensures Distance(a, b) <= Cost(script) {
      NoScriptCheaper(a, b, |a|, |b|, script);
    }
  }

  // ---------------------------------------------------------------- a metric

  lemma {:induction false} LengthBounds(a: Text, b: Text, i: nat, j: nat)
    requires i <= |a| && j <= |b|
    ensures i - j <= Dist(a, b, i, j) && j - i <= Dist(a, b, i, j)
    ensures Dist(a, b, i, j) <= if i <= j then j else i
    decreases i + j
  {
    hide Dist;
    if i == 0 {
      FirstRow(a, b, j);
    } else if j == 0 {
      FirstColumn(a, b, i);
    } else {
      Inside(a, b, i, j);
      LengthBounds(a, b, i - 1, j);
      LengthBounds(a, b, i, j - 1);
      LengthBounds(a, b, i - 1, j - 1);
    }
  }

  lemma {:induction false} ZeroIffEqual(a: Text, b: Text, i: nat, j: nat)
    requires i <= |a| && j <= |b|
    ensures Dist(a, b, i, j) == 0 <==> a[..i] == b[..j]
    decreases i + j
  {
    hide Dist;
    if i == 0 {
      FirstRow(a, b, j);
    } else if j == 0 {
      FirstColumn(a, b, i);
    } else {
      Inside(a, b, i, j);
      LengthBounds(a, b, i - 1, j);
      LengthBounds(a, b, i, j - 1);
      ZeroIffEqual(a, b, i - 1, j - 1);
      LengthBounds(a, b, i, j);
      assert a[..i] == a[..i - 1] + [a[i - 1]] && b[..j] == b[..j - 1] + [b[j - 1]];
      if a[..i] == b[..j] {
        assert a[i - 1] == a[..i][i - 1] == b[..j][j - 1];
        assert a[..i - 1] == a[..i][..i - 1] == b[..j - 1];
      }
    }
  }

  lemma {:induction false} Symmetric(a: Text, b: Text, i: nat, j: nat)
    requires i <= |a| && j <= |b|
    ensures Dist(a, b, i, j) == Dist(b, a, j, i)
    decreases i + j
  {
    hide Dist;
    if i == 0 {
      FirstRow(a, b, j);
      FirstColumn(b, a, j);
    } else if j == 0 {
      FirstRow(b, a, i);
      FirstColumn(a, b, i);
    } else {
      Inside(a, b, i, j);
      Inside(b, a, j, i);
      Symmetric(a, b, i - 1, j);
      Symmetric(a, b, i, j - 1);
      Symmetric(a, b, i - 1, j - 1);
    }
  }

  lemma {:induction false} Triangle(a: Text, b: Text, c: Text, i: nat, j: nat, k: nat)
    requires i <= |a| && j <= |b| && k <= |c|
    ensures Dist(a, c, i, k) <= Dist(a, b, i, j) + Dist(b, c, j, k)
    decreases i + j + k
  {
    hide Dist;
    if i == 0 {
      FirstRow(a, b, j);
      FirstRow(a, c, k);
      LengthBounds(b, c, j, k);
    } else if k == 0 {
      FirstColumn(b, c, j);
      FirstColumn(a, c, i);
      LengthBounds(a, b, i, j);
    } else if j == 0 {
      FirstColumn(a, b, i);
      FirstRow(b, c, k);
      LongerBound(a, c, i, k);
    } else {
      Inside(a, c, i, k);
      if Dist(a, b, i, j) == Dist(a, b, i - 1, j) + 1 {
        Triangle(a, b, c, i - 1, j, k);
      } else if Dist(b, c, j, k) == Dist(b, c, j, k - 1) + 1 {
        Triangle(a, b, c, i, j, k - 1);
      } else {
        TriangleInner(a, b, c, i, j, k);
      }
    }
  }

  lemma {:induction false} LongerBound(a: Text, b: Text, i: nat, j: nat)
    requires i <= |a| && j <= |b|
    ensures Dist(a, b, i, j) <= i + j
  {
    hide Dist;
    LengthBounds(a, b, i, j);
  }

  /** The middle text's last byte is inserted or matched first, and deleted or matched then. */
  lemma {:induction false} TriangleInner(a: Text, b: Text, c: Text, i: nat, j: nat, k: nat)
    requires 0 < i <= |a| && 0 < j <= |b| && 0 < k <= |c|
    requires Dist(a, b, i, j) != Dist(a, b, i - 1, j) + 1 && Dist(b, c, j, k) != Dist(b, c, j, k - 1) + 1
    ensures Dist(a, c, i, k) <= Dist(a, b, i, j) + Dist(b, c, j, k)
    decreases i + j + k, 0
  {
    hide Dist;
    Inside(a, c, i, k);
    Inside(a, b, i, j);
    Inside(b, c, j, k);
    if Dist(a, b, i, j) == Dist(a, b, i, j - 1) + 1 {
      if Dist(b, c, j, k) == Dist(b, c, j - 1, k) + 1 {
        Triangle(a, b, c, i, j - 1, k);
      } else {
        Triangle(a, b, c, i, j - 1, k - 1);
      }
    } else if Dist(b, c, j, k) == Dist(b, c, j - 1, k) + 1 {
      Triangle(a, b, c, i - 1, j - 1, k);
    } else {
      Triangle(a, b, c, i - 1, j - 1, k - 1);
    }
  }

  /** Zero only between equal texts, symmetric, triangle inequality, bounded by the longer length. */
  lemma {:induction false} DistanceIsMetric(a: Text, b: Text, c: Text)
    ensures Distance(a, b) == 0 <==> a == b
    ensures Distance(a, b) == Distance(b, a)
    ensures Distance(a, c) <= Distance(a, b) + Distance(b, c)
    ensures Distance(a, b) <= if |a| <= |b| then |b| else |a|
  {
    assert a[..|a|] == a && b[..|b|] == b;
    ZeroIffEqual(a, b, |a|, |b|);
    Symmetric(a, b, |a|, |b|);
    Triangle(a, b, c, |a|, |b|, |c|);
    LengthBounds(a, b, |a|, |b|);
  }

  // ---------------------------------------------------------------- the code

  method LevenshteinDistance(s1: Text, s2: Text) returns (d: nat)
    ensures d == Distance(s1, s2)
  {
    hide Dist;
    if |s1| == 0 { FirstRow(s1, s2, |s2|); return |s2|; }
    if |s2| == 0 { FirstColumn(s1, s2, |s1|); return |s1|; }
    var matrix := new nat[|s1| + 1, |s2| + 1]((_, _) => 0);
    for i := 0 to |s1| + 1
      invariant forall p :: 0 <= p < i ==> matrix[p, 0] == p
    {
      matrix[i, 0] := i;
    }
    for j := 0 to |s2| + 1
      invariant forall p :: 0 <= p <= |s1| ==> matrix[p, 0] == p
      invariant forall q :: 0 <= q < j ==> matrix[0, q] == q
    {
      matrix[0, j] := j;
    }
    Borders(s1, s2);
    for i := 1 to |s1| + 1
      invariant forall p, q :: (0 <= p <= |s1| && 0 <= q <= |s2| && (p < i || q == 0)) ==>
        matrix[p, q] == Dist(s1, s2, p, q)
    {
      for j := 1 to |s2| + 1
        invariant forall p, q :: (0 <= p <= |s1| && 0 <= q <= |s2| && (p < i || q == 0 || (p == i && q < j))) ==>
          matrix[p, q] == Dist(s1, s2, p, q)
      {
        var cost := 1;
        if s1[i - 1] == s2[j - 1] { cost := 0; }
        Inside(s1, s2, i, j);
        matrix[i, j] := Min(Min(matrix[i - 1, j] + 1, matrix[i, j - 1] + 1), matrix[i - 1, j - 1] + cost);
      }
    }
    return matrix[|s1|, |s2|];
  }

  lemma {:induction false} FirstRow(a: Text, b: Text, j: nat)
    requires j <= |b|
    ensures Dist(a, b, 0, j) == j
  {
  }

  lemma {:induction false} FirstColumn(a: Text, b: Text, i: nat)
    requires i <= |a|
    ensures Dist(a, b, i, 0) == i
  {
  }

  lemma {:induction false} Borders(a: Text, b: Text)
    ensures forall i :: 0 <= i <= |a| ==> Dist(a, b, i, 0) == i
    ensures forall j :: 0 <= j <= |b| ==> Dist(a, b, 0, j) == j
  {
  }

  lemma {:induction false} Inside(a: Text, b: Text, i: nat, j: nat)
    requires 0 < i <= |a| && 0 < j <= |b|
    ensures Dist(a, b, i, j) ==
      Min(Min(Dist(a, b, i - 1, j) + 1, Dist(a, b, i, j - 1) + 1),
        Dist(a, b, i - 1, j - 1) + Mismatch(a[i - 1], b[j - 1]))
  {
  }

  /** 1 for equal texts only, 0 at the least, the same either way round. */
  method CalculateStringSimilarity(s1: Text, s2: Text) returns (r: real)
    ensures r == Similarity(s1, s2)
  {
    if |s1| == 0 && |s2| == 0 { return 1.0; }
    if |s1| == 0 || |s2| == 0 { return 0.0; }
    var distance := LevenshteinDistance(s1, s2);
    var maxLen := |s1|;
    if |s2| > maxLen { maxLen := |s2|; }
    return 1.0 - distance as real / maxLen as real;
  }

  function Longer(a: Text, b: Text): nat {
    if |b| > |a| then |b| else |a|
  }

  function Similarity(a: Text, b: Text): real {
    if Longer(a, b) == 0 then 1.0
    else if |a| == 0 || |b| == 0 then 0.0
    else 1.0 - Distance(a, b) as real / Longer(a, b) as real
  }

  lemma {:induction false} SimilarityRange(a: Text, b: Text)
    ensures 0.0 <= Similarity(a, b) <= 1.0
    ensures Similarity(a, b) == 1.0 <==> a == b
    ensures Similarity(a, b) == Similarity(b, a)
    ensures var n := if |a| < |b| then |b| else |a|;
      Similarity(a, b) * n as real == n as real - Distance(a, b) as real
  {
    Borders(a, b);
    hide Dist;
    DistanceIsMetric(a, b, a);
    if |a| > 0 && |b| > 0 { Fraction(Distance(a, b), Longer(a, b)); }
  }

  lemma {:induction false} Fraction(d: nat, n: nat)
    requires 0 < n && d <= n
    ensures 0.0 <= d as real / n as real <= 1.0
    ensures d as real / n as real == 0.0 <==> d == 0
    ensures (1.0 - d as real / n as real) * n as real == n as real - d as real
  {
    var q := d as real / n as real;
    assert q * n as real == d as real;
  }
}
