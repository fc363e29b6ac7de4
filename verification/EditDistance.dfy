/** Levenshtein distance for command suggestion (crates/grith-cli/src/commands.rs): the matrix fill
    is the least cost over all edit scripts, and that cost is a metric. */
module EditDistance {
  import opened Basics

  /** `Replace` of a character by itself is the free step of the matrix. */
  datatype Edit = Insert(c: char) | Delete(c: char) | Replace(from: char, to: char)

  function Cost(e: Edit): nat {
    if e.Replace? && e.from == e.to then 0 else 1
  }

  function TotalCost(script: seq<Edit>): nat {
    if script == [] then 0 else Cost(script[0]) + TotalCost(script[1..])
  }

  function Read(e: Edit): string {
    match e
    case Insert(_) => []
    case Delete(c) => [c]
    case Replace(c, _) => [c]
  }

  function Written(e: Edit): string {
    match e
    case Insert(c) => [c]
    case Delete(_) => []
    case Replace(_, c) => [c]
  }

  /** The text a script reads. */
  function Source(script: seq<Edit>): string {
    if script == [] then [] else Read(script[0]) + Source(script[1..])
  }

  /** The text a script writes. */
  function Target(script: seq<Edit>): string {
    if script == [] then [] else Written(script[0]) + Target(script[1..])
  }

  ghost predicate Edits(script: seq<Edit>, a: string, b: string) {
    Source(script) == a && Target(script) == b
  }

  function Min(x: nat, y: nat): nat { if x <= y then x else y }

  /** Cell (i, j) of the matrix: the recurrence over the first `i` and `j` characters. */
  function Cell(a: string, b: string, i: nat, j: nat): nat
    requires i <= |a| && j <= |b|
  {
    if i == 0 then j
    else if j == 0 then i
    else Min(Min(Cell(a, b, i - 1, j) + 1, Cell(a, b, i, j - 1) + 1),
             Cell(a, b, i - 1, j - 1) + if a[i - 1] == b[j - 1] then 0 else 1)
  }

  function Distance(a: string, b: string): nat { Cell(a, b, |a|, |b|) }

  ghost predicate IsMatrix(matrix: array2<nat>, a: string, b: string)
    reads matrix
  {
    && matrix.Length0 == |a| + 1 && matrix.Length1 == |b| + 1
    && forall i, j :: 0 <= i <= |a| && 0 <= j <= |b| ==> matrix[i, j] == Cell(a, b, i, j)
  }

  /** A zeroed matrix with its first column and row filled in. */
  method Borders(m: nat, n: nat) returns (matrix: array2<nat>)
    ensures fresh(matrix) && matrix.Length0 == m + 1 && matrix.Length1 == n + 1
    ensures forall k :: 0 <= k <= m ==> matrix[k, 0] == k
    ensures forall k :: 0 <= k <= n ==> matrix[0, k] == k
  {
    matrix := new nat[m + 1, n + 1]((i, j) => 0);
    for i := 0 to m + 1
      invariant forall k :: 0 <= k < i ==> matrix[k, 0] == k
    {
      matrix[i, 0] := i;
    }
    for j := 0 to n + 1
      invariant forall k :: 0 <= k <= m ==> matrix[k, 0] == k
      invariant forall k :: 0 <= k < j ==> matrix[0, k] == k
    {
      matrix[0, j] := j;
    }
  }

  /** One inner cell of the recurrence. */
  lemma DistanceCell(a: string, b: string, i: nat, j: nat)
    requires 0 < i <= |a| && 0 < j <= |b|
    ensures Cell(a, b, i, j) == Min(Min(Cell(a, b, i - 1, j) + 1, Cell(a, b, i, j - 1) + 1),
                                    Cell(a, b, i - 1, j - 1) + if a[i - 1] == b[j - 1] then 0 else 1)
  {
  }

  /** Fills the matrix row by row, its borders first. */
  method FillMatrix(a: string, b: string) returns (matrix: array2<nat>)
    ensures fresh(matrix) && IsMatrix(matrix, a, b)
  {
    var m, n := |a|, |b|;
    matrix := Borders(m, n);
    for i := 1 to m + 1
      invariant forall k :: 0 <= k <= m ==> matrix[k, 0] == k
      invariant forall k, l :: 0 <= k < i && 0 <= l <= n ==> matrix[k, l] == Cell(a, b, k, l)
    {
      FillRow(matrix, a, b, i);
    }
  }

  method FillRow(matrix: array2<nat>, a: string, b: string, i: nat)
    requires 0 < i <= |a| && matrix.Length0 == |a| + 1 && matrix.Length1 == |b| + 1
    requires forall k, l :: 0 <= k < i && 0 <= l <= |b| ==> matrix[k, l] == Cell(a, b, k, l)
    requires matrix[i, 0] == i
    modifies matrix
    ensures forall l :: 0 <= l <= |b| ==> matrix[i, l] == Cell(a, b, i, l)
    ensures forall k, l :: 0 <= k <= |a| && k != i && 0 <= l <= |b| ==> matrix[k, l] == old(matrix[k, l])
  {
    for j := 1 to |b| + 1
      invariant forall k, l :: 0 <= k <= |a| && k != i && 0 <= l <= |b| ==> matrix[k, l] == old(matrix[k, l])
      invariant forall l :: 0 <= l < j ==> matrix[i, l] == Cell(a, b, i, l)
    {
      var cost := if a[i - 1] == b[j - 1] then 0 else 1;
      DistanceCell(a, b, i, j);
      matrix[i, j] := Min(Min(matrix[i - 1, j] + 1, matrix[i, j - 1] + 1), matrix[i - 1, j - 1] + cost);
    }
  }

  /** The matrix's last cell: the least cost of any script between the two texts. */
  method Levenshtein(a: string, b: string) returns (d: nat)
    ensures d == Distance(a, b)
    ensures exists script :: Edits(script, a, b) && TotalCost(script) == d
    ensures forall script :: Edits(script, a, b) ==> d <= TotalCost(script)
  {
    var matrix := FillMatrix(a, b);
    DistanceIsLeast(a, b);
    d := matrix[|a|, |b|];
  }

  lemma {:induction false} ScriptAppend(s: seq<Edit>, e: Edit)
    ensures Source(s + [e]) == Source(s) + Read(e)
    ensures Target(s + [e]) == Target(s) + Written(e)
    ensures TotalCost(s + [e]) == TotalCost(s) + Cost(e)
  {
    if s == [] {
      assert s + [e] == [e] && [e][1..] == [];
    } else {
      ScriptAppend(s[1..], e);
      FirstOf(s, e);
      ConcatAssociates(Read(s[0]), Source(s[1..]), Read(e));
      ConcatAssociates(Written(s[0]), Target(s[1..]), Written(e));
    }
  }

  lemma FirstOf(s: seq<Edit>, e: Edit)
    requires s != []
    ensures (s + [e])[1..] == s[1..] + [e] && (s + [e])[0] == s[0]
  {
  }

  /** Some script reaches the cell's cost. */
  lemma {:induction false} CellReached(a: string, b: string, i: nat, j: nat) returns (script: seq<Edit>)
    requires i <= |a| && j <= |b|
    ensures Edits(script, a[..i], b[..j]) && TotalCost(script) == Cell(a, b, i, j)
    decreases i + j
  {
    if i == 0 && j == 0 {
      script := [];
    } else {
      var k, l, e := CheapestNeighbour(a, b, i, j);
      var before := CellReached(a, b, k, l);
      ScriptAppend(before, e);
      script := before + [e];
    }
  }

  lemma CheapestNeighbour(a: string, b: string, i: nat, j: nat) returns (k: nat, l: nat, e: Edit)
    requires i <= |a| && j <= |b| && i + j > 0
    ensures k <= i && l <= j && k + l < i + j
    ensures a[..i] == a[..k] + Read(e) && b[..j] == b[..l] + Written(e)
    ensures Cell(a, b, i, j) == Cell(a, b, k, l) + Cost(e)
  {
    if i == 0 {
      k, l, e := i, j - 1, Insert(b[j - 1]);
    } else if j == 0 {
      k, l, e := i - 1, j, Delete(a[i - 1]);
    } else {
      DistanceCell(a, b, i, j);
      e := Cheapest(a[i - 1], b[j - 1], Cell(a, b, i - 1, j), Cell(a, b, i, j - 1), Cell(a, b, i - 1, j - 1),
                    Cell(a, b, i, j));
      k, l := if e.Insert? then i else i - 1, if e.Delete? then j else j - 1;
    }
    TakeOne(a, k, i);
    TakeOne(b, l, j);
  }

  /** The edit behind the least of the three neighbours. */
  lemma Cheapest(x: char, y: char, deleted: nat, inserted: nat, replaced: nat, least: nat) returns (e: Edit)
    requires least == Min(Min(deleted + 1, inserted + 1), replaced + if x == y then 0 else 1)
    ensures e == Delete(x) || e == Insert(y) || e == Replace(x, y)
    ensures least == (if e.Delete? then deleted else if e.Insert? then inserted else replaced) + Cost(e)
  {
    e := if least == deleted + 1 then Delete(x) else if least == inserted + 1 then Insert(y) else Replace(x, y);
  }

  lemma TakeOne(s: string, k: nat, i: nat)
    requires k <= i <= k + 1 && i <= |s|
    ensures s[..i] == s[..k] + if k == i then [] else [s[k]]
  {
  }

  /** No script undercuts the cell. */
  lemma {:induction false} CellIsLowerBound(a: string, b: string, i: nat, j: nat, script: seq<Edit>)
    requires i <= |a| && j <= |b|
    requires Edits(script, a[..i], b[..j])
    ensures Cell(a, b, i, j) <= TotalCost(script)
    decreases |script|
  {
    if script != [] {
      var n := |script| - 1;
      var s, e := script[..n], script[n];
      assert script == s + [e];
      ScriptAppend(s, e);
      var k := if e.Insert? then i else i - 1;
      var l := if e.Delete? then j else j - 1;
      LastStep(a[..i], Source(s), Read(e));
      LastStep(b[..j], Target(s), Written(e));
      assert Edits(s, a[..k], b[..l]);
      CellIsLowerBound(a, b, k, l, s);
      CellStep(a, b, i, j, e);
    }
  }

  lemma LastStep(whole: string, s: string, last: string)
    requires whole == s + last
    ensures |s| == |whole| - |last| && s == whole[..|s|]
    ensures |last| == 1 ==> last[0] == whole[|whole| - 1]
  {
  }

  /** A cell exceeds the neighbour a step comes from by at most the step's cost. */
  lemma CellStep(a: string, b: string, i: nat, j: nat, e: Edit)
    requires i <= |a| && j <= |b|
    requires !e.Insert? ==> i > 0
    requires !e.Delete? ==> j > 0
    requires e.Replace? ==> e.from == a[i - 1] && e.to == b[j - 1]
    ensures Cell(a, b, i, j)
         <= Cell(a, b, if e.Insert? then i else i - 1, if e.Delete? then j else j - 1) + Cost(e)
  {
  }

  lemma DistanceIsLeast(a: string, b: string)
    ensures exists script :: Edits(script, a, b) && TotalCost(script) == Distance(a, b)
    ensures forall script :: Edits(script, a, b) ==> Distance(a, b) <= TotalCost(script)
  {
    assert a[..|a|] == a && b[..|b|] == b;
    var best := CellReached(a, b, |a|, |b|);
    forall script | Edits(script, a, b) ensures Distance(a, b) <= TotalCost(script) {
      CellIsLowerBound(a, b, |a|, |b|, script);
    }
  }

  // ---------- The metric laws ----------

  /** The one step two steps that meet at the same middle character amount to. */
  function Joined(e: Edit, f: Edit): seq<Edit>
    requires !e.Delete? && !f.Insert?
  {
    match (e, f)
    case (Insert(_), Delete(_)) => []
    case (Insert(_), Replace(_, z)) => [Insert(z)]
    case (Replace(x, _), Delete(_)) => [Delete(x)]
    case (Replace(x, _), Replace(_, z)) => [Replace(x, z)]
  }

  /** Two scripts in a row, as one script that costs no more. */
  lemma {:induction false} Compose(s: seq<Edit>, t: seq<Edit>) returns (r: seq<Edit>)
    requires Target(s) == Source(t)
    ensures Edits(r, Source(s), Target(t))
    ensures TotalCost(r) <= TotalCost(s) + TotalCost(t)
    decreases |s| + |t|
  {
    if s != [] && s[0].Delete? {
      var rest := Compose(s[1..], t);
      r := [s[0]] + rest;
    } else if t != [] && t[0].Insert? {
      var rest := Compose(s, t[1..]);
      r := [t[0]] + rest;
    } else if s == [] || t == [] {
      r := [];
    } else {
      assert Target(s)[0] == Source(t)[0] && Target(s)[1..] == Target(s[1..]) && Source(t)[1..] == Source(t[1..]);
      var rest := Compose(s[1..], t[1..]);
      r := Joined(s[0], t[0]) + rest;
      JoinedStep(s[0], t[0], rest);
    }
  }

  lemma JoinedStep(e: Edit, f: Edit, rest: seq<Edit>)
    requires !e.Delete? && !f.Insert?
    requires Written(e) == Read(f)
    ensures Source(Joined(e, f) + rest) == Read(e) + Source(rest)
    ensures Target(Joined(e, f) + rest) == Written(f) + Target(rest)
    ensures TotalCost(Joined(e, f) + rest) <= Cost(e) + Cost(f) + TotalCost(rest)
  {
    var r := Joined(e, f) + rest;
    if |Joined(e, f)| == 0 {
      assert r == rest;
    } else {
      assert r[1..] == rest;
    }
  }

  function Inverse(script: seq<Edit>): seq<Edit> {
    if script == [] then []
    else [match script[0]
          case Insert(c) => Delete(c)
          case Delete(c) => Insert(c)
          case Replace(x, y) => Replace(y, x)] + Inverse(script[1..])
  }

  lemma {:induction false} InverseSwaps(script: seq<Edit>)
    ensures Edits(Inverse(script), Target(script), Source(script))
    ensures TotalCost(Inverse(script)) == TotalCost(script)
  {
    if script != [] {
      InverseSwaps(script[1..]);
      assert Inverse(script)[1..] == Inverse(script[1..]);
    }
  }

  lemma {:induction false} FreeScriptCopies(script: seq<Edit>)
    requires TotalCost(script) == 0
    ensures Source(script) == Target(script)
  {
    if script != [] {
      FreeScriptCopies(script[1..]);
    }
  }

  lemma {:induction false} CopyIsFree(a: string) returns (script: seq<Edit>)
    ensures Edits(script, a, a) && TotalCost(script) == 0
  {
    script := [];
    if a != [] {
      var rest := CopyIsFree(a[1..]);
      script := [Replace(a[0], a[0])] + rest;
    }
  }

  lemma DistanceIsMetric(a: string, b: string, c: string)
    ensures Distance(a, b) == 0 <==> a == b
    ensures Distance(a, b) == Distance(b, a)
    ensures Distance(a, c) <= Distance(a, b) + Distance(b, c)
  {
    DistanceIsLeast(a, b);
    DistanceIsLeast(b, c);
    DistanceIsLeast(a, c);
    DistanceIsLeast(b, a);
    var ab :| Edits(ab, a, b) && TotalCost(ab) == Distance(a, b);
    var ba :| Edits(ba, b, a) && TotalCost(ba) == Distance(b, a);
    var bc :| Edits(bc, b, c) && TotalCost(bc) == Distance(b, c);
    InverseSwaps(ab);
    InverseSwaps(ba);
    assert Edits(Inverse(ab), b, a) && Edits(Inverse(ba), a, b);
    var ac := Compose(ab, bc);
    assert Edits(ac, a, c);
    if a == b {
      var copy := CopyIsFree(a);
    } else if TotalCost(ab) == 0 {
      FreeScriptCopies(ab);
    }
  }

  // ---------- Command suggestion ----------

  predicate StartsWith(s: string, prefix: string): (r: bool)
    ensures r <==> prefix <= s
  {
    |prefix| <= |s| && s[..|prefix|] == prefix
  }

  /** Command `k` is `command`, it matches, and no earlier one does. */
  ghost predicate FirstMatch(known: seq<string>, inputLower: string, k: nat, command: string)
    requires k < |known|
  {
    && known[k] == command
    && (inputLower <= known[k] || Distance(known[k], inputLower) <= 2)
    && forall l :: 0 <= l < k ==> !(inputLower <= known[l]) && Distance(known[l], inputLower) > 2
  }

  /** The first known command the lower-cased input is a prefix of or within distance 2 of. */
  method SuggestCommand(known: seq<string>, inputLower: string) returns (suggestion: Option<string>)
    ensures suggestion.None? ==>
      forall k :: 0 <= k < |known| ==> !(inputLower <= known[k]) && Distance(known[k], inputLower) > 2
    ensures suggestion.Some? ==> exists k :: 0 <= k < |known| && FirstMatch(known, inputLower, k, suggestion.value)
  {
    for k := 0 to |known|
      invariant forall l :: 0 <= l < k ==> !(inputLower <= known[l]) && Distance(known[l], inputLower) > 2
    {
      var d := Levenshtein(known[k], inputLower);
      if StartsWith(known[k], inputLower) || d <= 2 {
        assert FirstMatch(known, inputLower, k, known[k]);
        return Some(known[k]);
      }
    }
    suggestion := None;
  }
}
