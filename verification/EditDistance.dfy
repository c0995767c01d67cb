/**
  The note-similarity kernel of moss/memory/service.py.

  `LevenshteinSimilarity` is the two-row dynamic program.  It is proved against the
  recursive distance `Lev`, and `Lev` against the definition a reader has in mind: the
  least number of single-character insertions, deletions and substitutions.
*/
module EditDistance {

  function Cost(x: char, y: char): nat {
    if x == y then 0 else 1
  }

  function Min(x: nat, y: nat, z: nat): nat {
    if x <= y && x <= z then x else if y <= z then y else z
  }

  function Max(x: nat, y: nat): nat {
    if x <= y then y else x
  }

  /** The textbook recursion: distance between the first `i` characters of `a` and the first `j` of `b`. */
  function Dist(a: string, i: nat, b: string, j: nat): nat
    requires i <= |a| && j <= |b|
    decreases i + j
  {
    if i == 0 then j
    else if j == 0 then i
    else Min(Dist(a, i, b, j - 1) + 1, Dist(a, i - 1, b, j) + 1, Dist(a, i - 1, b, j - 1) + Cost(a[i - 1], b[j - 1]))
  }

  function Lev(a: string, b: string): nat {
    Dist(a, |a|, b, |b|)
  }

  /** What the score means: 1 for equal texts, otherwise one minus the normalised distance. */
  function Similarity(first: string, second: string): real {
    if first == second then 1.0
    else 1.0 - Lev(first, second) as real / Max(|first|, |second|) as real
  }

  // ---- The two-row loop ----

  /** `cells` are the first entries of row `row` of the distance table. */
  ghost predicate IsRow(cells: seq<nat>, first: string, row: nat, second: string)
    requires row <= |first|
  {
    |cells| <= |second| + 1 && forall j :: 0 <= j < |cells| ==> cells[j] == Dist(first, row, second, j)
  }

  method NextRow(previous: seq<nat>, first: string, row: nat, second: string) returns (current: seq<nat>)
    requires 1 <= row <= |first|
    requires IsRow(previous, first, row - 1, second) && |previous| == |second| + 1
    ensures IsRow(current, first, row, second) && |current| == |second| + 1
  {
    hide Dist;
    Step(first, row, second, 0);
    current := [row];
    for column := 1 to |second| + 1
      invariant |current| == column && IsRow(current, first, row, second)
    {
      Step(first, row, second, column);
      var cell := Min(current[|current| - 1] + 1,
                      previous[column] + 1,
                      previous[column - 1] + Cost(first[row - 1], second[column - 1]));
      current := current + [cell];
    }
  }

  method LevenshteinSimilarity(first: string, second: string) returns (similarity: real)
    ensures similarity == Similarity(first, second)
    ensures 0.0 <= similarity <= 1.0
    ensures similarity == 1.0 <==> first == second
    ensures first != second && (first == "" || second == "") ==> similarity == 0.0
  {
    SimilarityIsAScore(first, second);
    if first == second {
      return 1.0;
    }
    if first == "" || second == "" {
      return 0.0;
    }
    var previous: seq<nat> := seq(|second| + 1, (i: nat) => i);
    for row := 1 to |first| + 1
      invariant IsRow(previous, first, row - 1, second) && |previous| == |second| + 1
    {
      previous := NextRow(previous, first, row, second);
    }
    return 1.0 - previous[|previous| - 1] as real / Max(|first|, |second|) as real;
  }

  // ---- Metric laws ----

  /** One unfolding of the recursion, so that the proofs below can keep `Dist` folded. */
  lemma {:induction false} Step(a: string, i: nat, b: string, j: nat)
    requires i <= |a| && j <= |b|
    ensures i == 0 || j == 0 ==> Dist(a, i, b, j) == i + j
    ensures i > 0 && j > 0 ==>
              Dist(a, i, b, j) == Min(Dist(a, i, b, j - 1) + 1, Dist(a, i - 1, b, j) + 1,
                                      Dist(a, i - 1, b, j - 1) + Cost(a[i - 1], b[j - 1]))
  {
  }

  lemma {:induction false} Bounds(a: string, i: nat, b: string, j: nat)
    requires i <= |a| && j <= |b|
    ensures Dist(a, i, b, j) <= Max(i, j)
    ensures i <= j + Dist(a, i, b, j) && j <= i + Dist(a, i, b, j)
    decreases i + j
  {
    hide Dist;
    Step(a, i, b, j);
    if i > 0 && j > 0 {
      Bounds(a, i, b, j - 1);
      Bounds(a, i - 1, b, j);
      Bounds(a, i - 1, b, j - 1);
    }
  }

  lemma {:induction false} DistSymmetric(a: string, i: nat, b: string, j: nat)
    requires i <= |a| && j <= |b|
    ensures Dist(a, i, b, j) == Dist(b, j, a, i)
    decreases i + j
  {
    hide Dist;
    Step(a, i, b, j);
    Step(b, j, a, i);
    if i > 0 && j > 0 {
      DistSymmetric(a, i, b, j - 1);
      DistSymmetric(a, i - 1, b, j);
      DistSymmetric(a, i - 1, b, j - 1);
    }
  }

  lemma {:induction false} ZeroIffEqual(a: string, i: nat, b: string, j: nat)
    requires i <= |a| && j <= |b|
    ensures Dist(a, i, b, j) == 0 <==> a[..i] == b[..j]
    decreases i + j
  {
    hide Dist;
    Step(a, i, b, j);
    if i > 0 && j > 0 {
      ZeroIffEqual(a, i, b, j - 1);
      ZeroIffEqual(a, i - 1, b, j);
      ZeroIffEqual(a, i - 1, b, j - 1);
      assert a[..i] == a[..i - 1] + [a[i - 1]] && b[..j] == b[..j - 1] + [b[j - 1]];
    } else {
      assert |a[..i]| == i && |b[..j]| == j;
    }
  }

  lemma {:induction false} DistTriangle(a: string, i: nat, b: string, j: nat, c: string, k: nat)
    requires i <= |a| && j <= |b| && k <= |c|
    ensures Dist(a, i, c, k) <= Dist(a, i, b, j) + Dist(b, j, c, k)
    decreases i + j + k
  {
    hide Dist;
    if i == 0 || j == 0 || k == 0 {
      Bounds(a, i, b, j);
      Bounds(b, j, c, k);
      Bounds(a, i, c, k);
      return;
    }
    Step(a, i, b, j);
    Step(b, j, c, k);
    Step(a, i, c, k);
    if Dist(a, i, b, j) == Dist(a, i - 1, b, j) + 1 {
      DistTriangle(a, i - 1, b, j, c, k);
    } else if Dist(b, j, c, k) == Dist(b, j, c, k - 1) + 1 {
      DistTriangle(a, i, b, j, c, k - 1);
    } else if Dist(a, i, b, j) == Dist(a, i, b, j - 1) + 1 {
      DistTriangle(a, i, b, j - 1, c, if Dist(b, j, c, k) == Dist(b, j - 1, c, k) + 1 then k else k - 1);
    } else if Dist(b, j, c, k) == Dist(b, j - 1, c, k) + 1 {
      DistTriangle(a, i - 1, b, j - 1, c, k);
    } else {
      DistTriangle(a, i - 1, b, j - 1, c, k - 1);
    }
  }

  /** `Lev` is a metric on strings, bounded by the longer length. */
  lemma {:induction false} LevIsAMetric(a: string, b: string, c: string)
    ensures Lev(a, b) == 0 <==> a == b
    ensures Lev(a, b) == Lev(b, a)
    ensures Lev(a, c) <= Lev(a, b) + Lev(b, c)
    ensures Lev(a, b) <= Max(|a|, |b|)
  {
    ZeroIffEqual(a, |a|, b, |b|);
    assert a[..|a|] == a && b[..|b|] == b;
    DistSymmetric(a, |a|, b, |b|);
    DistTriangle(a, |a|, b, |b|, c, |c|);
    Bounds(a, |a|, b, |b|);
  }

  lemma {:induction false} SimilarityIsAScore(first: string, second: string)
    ensures 0.0 <= Similarity(first, second) <= 1.0
    ensures Similarity(first, second) == 1.0 <==> first == second
    ensures Similarity(first, second) == Similarity(second, first)
    ensures first != second && (first == "" || second == "") ==> Similarity(first, second) == 0.0
  {
    LevIsAMetric(first, second, first);
    if first != second {
      UnitFraction(Lev(first, second), Max(|first|, |second|));
    }
  }

  /** What is missing from 1, times the longer length, is the number of edits. */
  lemma {:induction false} SimilarityCountsEdits(first: string, second: string)
    ensures var longer := if |first| >= |second| then |first| else |second|;
            (1.0 - Similarity(first, second)) * longer as real == Lev(first, second) as real
  {
    LevIsAMetric(first, second, first);
    hide Lev;
    if first != second {
      TimesDivided(Lev(first, second), Max(|first|, |second|));
    }
  }

  lemma TimesDivided(d: nat, m: nat)
    requires m > 0
    ensures (1.0 - (1.0 - d as real / m as real)) * m as real == d as real
  {
    assert d as real / m as real * m as real == d as real;
  }

  lemma UnitFraction(d: nat, m: nat)
    requires 0 < d <= m
    ensures 0.0 < d as real / m as real <= 1.0
    ensures d == m ==> d as real / m as real == 1.0
  {
  }

  // ---- The distance is the length of a shortest edit path ----

  ghost predicate Inserted(x: string, y: string) {
    |y| == |x| + 1 && exists i :: 0 <= i <= |x| && y == x[..i] + [y[i]] + x[i..]
  }

  ghost predicate Substituted(x: string, y: string) {
    |y| == |x| && exists i :: 0 <= i < |x| && y == x[..i] + [y[i]] + x[i + 1..]
  }

  /** `y` is `x` after one insertion, one deletion or one substitution. */
  ghost predicate OneEdit(x: string, y: string) {
    Inserted(x, y) || Inserted(y, x) || Substituted(x, y)
  }

  ghost predicate EditPath(p: seq<string>, a: string, b: string) {
    && |p| > 0
    && p[0] == a && p[|p| - 1] == b
    && forall k :: 0 <= k < |p| - 1 ==> OneEdit(p[k], p[k + 1])
  }

  lemma InsertedAppend(x: string, y: string, s: string)
    requires Inserted(x, y)
    ensures Inserted(x + s, y + s)
  {
    var i :| 0 <= i <= |x| && y == x[..i] + [y[i]] + x[i..];
    assert (x + s)[..i] == x[..i] && (x + s)[i..] == x[i..] + s;
    assert y + s == x[..i] + [y[i]] + (x[i..] + s);
  }

  lemma OneEditAppend(x: string, y: string, s: string)
    requires OneEdit(x, y)
    ensures OneEdit(x + s, y + s)
  {
    if Inserted(x, y) {
      InsertedAppend(x, y, s);
    } else if Inserted(y, x) {
      InsertedAppend(y, x, s);
    } else {
      var i :| 0 <= i < |x| && y == x[..i] + [y[i]] + x[i + 1..];
      assert y + s == (x + s)[..i] + [(y + s)[i]] + (x + s)[i + 1..];
    }
  }

  lemma AppendOne(s: string, c: char)
    ensures OneEdit(s, s + [c]) && OneEdit(s + [c], s)
  {
    assert s + [c] == s[..|s|] + [(s + [c])[|s|]] + s[|s|..];
  }

  lemma ReplaceLast(s: string, x: char, y: char)
    ensures OneEdit(s + [x], s + [y])
  {
    assert s + [y] == (s + [x])[..|s|] + [(s + [y])[|s|]] + (s + [x])[|s| + 1..];
  }

  lemma KeepLast(shorter: seq<string>, a: string, x: char, b: string, y: char) returns (p: seq<string>)
    requires EditPath(shorter, a, b)
    ensures EditPath(p, a + [x], b + [y]) && |p| == |shorter| + Cost(x, y)
  {
    p := seq(|shorter|, i requires 0 <= i < |shorter| => shorter[i] + [x]);
    forall k | 0 <= k < |p| - 1
      ensures OneEdit(p[k], p[k + 1])
    {
      OneEditAppend(shorter[k], shorter[k + 1], [x]);
    }
    if x != y {
      ReplaceLast(b, x, y);
      p := p + [b + [y]];
    }
  }

  lemma StayPut(a: string) returns (p: seq<string>)
    ensures EditPath(p, a, a) && |p| == 1
  {
    p := [a];
  }

  lemma ThenInsert(shorter: seq<string>, a: string, b: string, c: char) returns (p: seq<string>)
    requires EditPath(shorter, a, b)
    ensures EditPath(p, a, b + [c]) && |p| == |shorter| + 1
  {
    hide OneEdit;
    AppendOne(b, c);
    p := shorter + [b + [c]];
  }

  lemma FirstDelete(shorter: seq<string>, a: string, c: char, b: string) returns (p: seq<string>)
    requires EditPath(shorter, a, b)
    ensures EditPath(p, a + [c], b) && |p| == |shorter| + 1
  {
    hide OneEdit;
    AppendOne(a, c);
    p := [a + [c]] + shorter;
  }

  /** A path of exactly `Dist` single-character edits. */
  lemma {:induction false} ShortestPath(a: string, i: nat, b: string, j: nat) returns (p: seq<string>)
    requires i <= |a| && j <= |b|
    ensures EditPath(p, a[..i], b[..j]) && |p| == Dist(a, i, b, j) + 1
    decreases i + j
  {
    hide Dist, OneEdit, EditPath;
    Step(a, i, b, j);
    if i == 0 && j == 0 {
      p := StayPut(a[..i]);
      assert a[..i] == b[..j];
      return;
    }
    Step(a, i, b, if j == 0 then 0 else j - 1);
    Step(a, if i == 0 then 0 else i - 1, b, j);
    if j > 0 && Dist(a, i, b, j) == Dist(a, i, b, j - 1) + 1 {
      p := ShortestPath(a, i, b, j - 1);
      assert b[..j] == b[..j - 1] + [b[j - 1]];
      p := ThenInsert(p, a[..i], b[..j - 1], b[j - 1]);
    } else if i > 0 && Dist(a, i, b, j) == Dist(a, i - 1, b, j) + 1 {
      p := ShortestPath(a, i - 1, b, j);
      assert a[..i] == a[..i - 1] + [a[i - 1]];
      p := FirstDelete(p, a[..i - 1], a[i - 1], b[..j]);
    } else {
      p := ShortestPath(a, i - 1, b, j - 1);
      assert a[..i] == a[..i - 1] + [a[i - 1]] && b[..j] == b[..j - 1] + [b[j - 1]];
      p := KeepLast(p, a[..i - 1], a[i - 1], b[..j - 1], b[j - 1]);
    }
  }

  /** `Dist` looks only at the prefixes it is asked about. */
  lemma {:induction false} PrefixOnly(a: string, a': string, i: nat, b: string, b': string, j: nat)
    requires i <= |a| && i <= |a'| && a[..i] == a'[..i]
    requires j <= |b| && j <= |b'| && b[..j] == b'[..j]
    ensures Dist(a, i, b, j) == Dist(a', i, b', j)
    decreases i + j
  {
    hide Dist;
    Step(a, i, b, j);
    Step(a', i, b', j);
    if i > 0 && j > 0 {
      assert a[i - 1] == a[..i][i - 1] && b[j - 1] == b[..j][j - 1];
      assert a[..i - 1] == a[..i][..i - 1] && b[..j - 1] == b[..j][..j - 1];
      assert a'[..i - 1] == a'[..i][..i - 1] && b'[..j - 1] == b'[..j][..j - 1];
      PrefixOnly(a, a', i, b, b', j - 1);
      PrefixOnly(a, a', i - 1, b, b', j);
      PrefixOnly(a, a', i - 1, b, b', j - 1);
    }
  }

  lemma {:induction false} CommonSuffix(u: string, v: string, s: string, k: nat)
    requires k <= |s|
    ensures Dist(u + s, |u| + k, v + s, |v| + k) <= Lev(u, v)
  {
    hide Dist;
    if k == 0 {
      PrefixOnly(u + s, u, |u|, v + s, v, |v|);
    } else {
      Step(u + s, |u| + k, v + s, |v| + k);
      CommonSuffix(u, v, s, k - 1);
    }
  }

  lemma {:induction false} InsertAt(u: string, c: char, s: string)
    ensures Lev(u + s, u + [c] + s) <= 1
  {
    hide Dist;
    var v := u + [c];
    assert u[..|u|] == v[..|u|];
    ZeroIffEqual(u, |u|, v, |u|);
    Step(u, |u|, v, |u| + 1);
    CommonSuffix(u, v, s, |s|);
  }

  lemma {:induction false} SubstituteAt(u: string, c: char, d: char, s: string)
    ensures Lev(u + [c] + s, u + [d] + s) <= 1
  {
    hide Dist;
    var v, w := u + [c], u + [d];
    assert v[..|u|] == w[..|u|];
    ZeroIffEqual(v, |u|, w, |u|);
    Step(v, |u| + 1, w, |u| + 1);
    CommonSuffix(v, w, s, |s|);
  }

  lemma {:induction false} InsertedCost(x: string, y: string)
    requires Inserted(x, y)
    ensures Lev(x, y) <= 1
  {
    hide Dist, Lev;
    var i :| 0 <= i <= |x| && y == x[..i] + [y[i]] + x[i..];
    assert x == x[..i] + x[i..];
    InsertAt(x[..i], y[i], x[i..]);
  }

  lemma {:induction false} SubstitutedCost(x: string, y: string)
    requires Substituted(x, y)
    ensures Lev(x, y) <= 1
  {
    hide Dist, Lev;
    var i :| 0 <= i < |x| && y == x[..i] + [y[i]] + x[i + 1..];
    assert x == x[..i] + [x[i]] + x[i + 1..];
    SubstituteAt(x[..i], x[i], y[i], x[i + 1..]);
  }

  lemma {:induction false} OneEditCost(x: string, y: string)
    requires OneEdit(x, y)
    ensures Lev(x, y) <= 1
  {
    LevIsAMetric(x, y, x);
    if Inserted(x, y) {
      InsertedCost(x, y);
    } else if Inserted(y, x) {
      InsertedCost(y, x);
    } else {
      SubstitutedCost(x, y);
    }
  }

  lemma {:induction false} NoShorterPath(p: seq<string>, a: string, b: string)
    requires EditPath(p, a, b)
    ensures Lev(a, b) <= |p| - 1
    decreases |p|
  {
    LevIsAMetric(a, if |p| == 1 then a else p[1], b);
    if |p| > 1 {
      OneEditCost(p[0], p[1]);
      NoShorterPath(p[1..], p[1], b);
    }
  }

  /** Main result: `Lev` is the minimum length of an edit path, over all paths. */
  lemma {:induction false} LevIsLeastEditCount(a: string, b: string)
    ensures exists p :: EditPath(p, a, b) && |p| - 1 == Lev(a, b)
    ensures forall p :: EditPath(p, a, b) ==> Lev(a, b) <= |p| - 1
  {
    var shortest := ShortestPath(a, |a|, b, |b|);
    assert a[..|a|] == a && b[..|b|] == b;
    forall p | EditPath(p, a, b)
      ensures Lev(a, b) <= |p| - 1
    {
      NoShorterPath(p, a, b);
    }
  }
}
