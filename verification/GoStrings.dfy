/** Go's strings as the registry uses them: the order that sort.Strings sorts by,
    sorting itself, searching, splitting and lower-casing. */
module GoStrings {

  // ---------- order ----------

  /** a <= b in Go's lexicographic string order. */
  predicate StrLe(a: string, b: string) {
    if a == [] then true
    else if b == [] then false
    else if a[0] != b[0] then a[0] < b[0]
    else StrLe(a[1..], b[1..])
  }

  lemma {:induction false} StrLeReflexive(a: string)
    ensures StrLe(a, a)
  {
    if a != [] { StrLeReflexive(a[1..]); }
  }

  lemma {:induction false} StrLeTotal(a: string, b: string)
    ensures StrLe(a, b) || StrLe(b, a)
  {
    if a != [] && b != [] && a[0] == b[0] { StrLeTotal(a[1..], b[1..]); }
  }

  lemma {:induction false} StrLeAntisymmetric(a: string, b: string)
    requires StrLe(a, b) && StrLe(b, a)
    ensures a == b
  {
    if a != [] {
      StrLeAntisymmetric(a[1..], b[1..]);
      assert a == [a[0]] + a[1..] && b == [b[0]] + b[1..];
    }
  }

  lemma {:induction false} StrLeTransitive(a: string, b: string, c: string)
    requires StrLe(a, b) && StrLe(b, c)
    ensures StrLe(a, c)
  {
    if a != [] && a[0] == b[0] && b[0] == c[0] { StrLeTransitive(a[1..], b[1..], c[1..]); }
  }

  lemma CommonPrefixStep(a: string, b: string, k: nat)
    requires 0 < k < |a| && k < |b|
    ensures a[0] == b[0] && a[1..][..k - 1] == b[1..][..k - 1] <==> a[..k] == b[..k]
    ensures a[1..][k - 1] == a[k] && b[1..][k - 1] == b[k]
  {
    assert a[..k] == [a[0]] + a[1..][..k - 1] && b[..k] == [b[0]] + b[1..][..k - 1];
  }

  /** The order in words: a is at most b exactly if a is a prefix of b, or the two agree up to some
      place at which a has the smaller character. */
  lemma {:induction false} StrLeIs(a: string, b: string)
    ensures StrLe(a, b) <==> a <= b || exists k :: 0 <= k < |a| && k < |b| && a[..k] == b[..k] && a[k] < b[k]
  {
    if a == [] || b == [] {
    } else if a[0] != b[0] {
      if a[0] < b[0] { assert a[..0] == b[..0]; }
      forall k | 0 < k < |a| && k < |b| ensures a[..k] != b[..k] { assert a[..k][0] == a[0] && b[..k][0] == b[0]; }
    } else {
      StrLeIs(a[1..], b[1..]);
      assert a <= b <==> a[1..] <= b[1..] by { assert a == [a[0]] + a[1..] && b == [b[0]] + b[1..]; }
      forall k | 0 < k < |a| && k < |b|
        ensures (a[..k] == b[..k] && a[k] < b[k])
           <==> (a[1..][..k - 1] == b[1..][..k - 1] && a[1..][k - 1] < b[1..][k - 1]) { CommonPrefixStep(a, b, k); }
      if exists j :: 0 <= j < |a[1..]| && j < |b[1..]| && a[1..][..j] == b[1..][..j] && a[1..][j] < b[1..][j] {
        var j :| 0 <= j < |a[1..]| && j < |b[1..]| && a[1..][..j] == b[1..][..j] && a[1..][j] < b[1..][j];
        assert a[..j + 1] == b[..j + 1] && a[j + 1] < b[j + 1] by { CommonPrefixStep(a, b, j + 1); }
      }
    }
  }

  // ---------- sorting ----------

  ghost predicate Ascending(s: seq<string>) {
    forall i, j :: 0 <= i < j < |s| ==> StrLe(s[i], s[j])
  }

  ghost predicate Distinct(s: seq<string>) {
    forall i, j :: 0 <= i < j < |s| ==> s[i] != s[j]
  }

  function Elements(s: seq<string>): set<string> {
    set x | x in s
  }

  function Insert(x: string, s: seq<string>): seq<string> {
    if s == [] then [x]
    else if StrLe(x, s[0]) then [x] + s
    else [s[0]] + Insert(x, s[1..])
  }

  /** The value a slice has after sort.Strings. */
  function Sort(s: seq<string>): seq<string> {
    if s == [] then [] else Insert(s[0], Sort(s[1..]))
  }

  lemma HeadIsLeast(a: seq<string>, x: string)
    requires Ascending(a) && x in a
    ensures StrLe(a[0], x)
  {
    StrLeReflexive(a[0]);
    var i :| 0 <= i < |a| && a[i] == x;
  }

  lemma {:induction false} InsertPermutes(x: string, s: seq<string>)
    ensures multiset(Insert(x, s)) == multiset(s) + multiset{x}
  {
    if s != [] {
      assert s == [s[0]] + s[1..];
      if !StrLe(x, s[0]) { InsertPermutes(x, s[1..]); }
    }
  }

  lemma AscendingCons(x: string, s: seq<string>)
    requires Ascending(s) && forall y :: y in s ==> StrLe(x, y)
    ensures Ascending([x] + s)
  {
    var r := [x] + s;
    forall i, j | 0 <= i < j < |r| ensures StrLe(r[i], r[j]) {
      assert r[j] == s[j - 1] && r[j] in s;
    }
  }

  lemma {:induction false} InsertAscending(x: string, s: seq<string>)
    requires Ascending(s)
    ensures Ascending(Insert(x, s))
  {
    if s == [] {
    } else if StrLe(x, s[0]) {
      forall y | y in s ensures StrLe(x, y) { HeadIsLeast(s, y); StrLeTransitive(x, s[0], y); }
      AscendingCons(x, s);
    } else {
      StrLeTotal(x, s[0]);
      InsertAscending(x, s[1..]);
      InsertPermutes(x, s[1..]);
      var r := Insert(x, s[1..]);
      forall y | y in r ensures StrLe(s[0], y) {
        assert y in multiset(r);
        if y != x { HeadIsLeast(s, y); }
      }
      AscendingCons(s[0], r);
    }
  }

  lemma {:induction false} SortPermutes(s: seq<string>)
    ensures multiset(Sort(s)) == multiset(s)
  {
    if s != [] {
      SortPermutes(s[1..]);
      InsertPermutes(s[0], Sort(s[1..]));
      assert s == [s[0]] + s[1..];
    }
  }

  lemma {:induction false} SortAscends(s: seq<string>)
    ensures Ascending(Sort(s))
  {
    if s != [] {
      SortAscends(s[1..]);
      InsertAscending(s[0], Sort(s[1..]));
    }
  }

  /** Sorting yields an ascending permutation. */
  lemma SortCorrect(s: seq<string>)
    ensures Ascending(Sort(s))
    ensures multiset(Sort(s)) == multiset(s)
    ensures |Sort(s)| == |s|
  {
    SortAscends(s);
    SortPermutes(s);
    assert |multiset(Sort(s))| == |multiset(s)|;
  }

  lemma TailMultiset(a: seq<string>)
    requires a != []
    ensures multiset(a[1..]) == multiset(a) - multiset{a[0]}
  {
    assert a == [a[0]] + a[1..];
  }

  lemma SameHead(a: seq<string>, b: seq<string>)
    requires Ascending(a) && Ascending(b) && multiset(a) == multiset(b) && a != [] && b != []
    ensures a[0] == b[0] && multiset(a[1..]) == multiset(b[1..])
  {
    assert a[0] in multiset(a) && b[0] in multiset(b);
    HeadIsLeast(a, b[0]);
    HeadIsLeast(b, a[0]);
    StrLeAntisymmetric(a[0], b[0]);
    TailMultiset(a);
    TailMultiset(b);
  }

  lemma TailAscending(a: seq<string>)
    requires Ascending(a) && a != []
    ensures Ascending(a[1..])
  {
    forall i, j | 0 <= i < j < |a[1..]| ensures StrLe(a[1..][i], a[1..][j]) {
      assert StrLe(a[i + 1], a[j + 1]);
    }
  }

  /** An ascending sequence is determined by its elements with multiplicity. */
  lemma {:induction false} AscendingUnique(a: seq<string>, b: seq<string>)
    requires Ascending(a) && Ascending(b) && multiset(a) == multiset(b)
    ensures a == b
  {
    assert |multiset(a)| == |a| && |multiset(b)| == |b|;
    if a != [] {
      SameHead(a, b);
      TailAscending(a);
      TailAscending(b);
      AscendingUnique(a[1..], b[1..]);
      assert a == [a[0]] + a[1..] && b == [b[0]] + b[1..];
    }
  }

  lemma {:induction false} DistinctCardinality(s: seq<string>)
    requires Distinct(s)
    ensures |Elements(s)| == |s|
    ensures forall x :: x in s ==> multiset(s)[x] == 1
  {
    if s != [] {
      DistinctCardinality(s[1..]);
      assert s == [s[0]] + s[1..];
      assert s[0] !in s[1..];
      assert Elements(s) == Elements(s[1..]) + {s[0]};
    }
  }

  lemma {:induction false} CardinalityDistinct(s: seq<string>)
    requires forall x :: x in s ==> multiset(s)[x] == 1
    ensures Distinct(s)
  {
    if s != [] {
      assert s == [s[0]] + s[1..];
      assert multiset(s) == multiset{s[0]} + multiset(s[1..]);
      forall x | x in s[1..] ensures multiset(s[1..])[x] == 1 {
        assert multiset(s)[x] >= multiset(s[1..])[x];
        assert x in multiset(s[1..]);
        assert x in s;
      }
      CardinalityDistinct(s[1..]);
      assert s[0] in s;
      assert s[0] !in multiset(s[1..]);
    }
  }

  /** Sorting a duplicate-free listing keeps its elements and stays duplicate-free. */
  lemma SortKeepsElements(s: seq<string>)
    ensures Elements(Sort(s)) == Elements(s)
    ensures Distinct(s) ==> Distinct(Sort(s))
  {
    SortCorrect(s);
    forall x ensures x in Sort(s) <==> x in s {
      assert x in Sort(s) <==> x in multiset(Sort(s));
      assert x in s <==> x in multiset(s);
    }
    if Distinct(s) {
      DistinctCardinality(s);
      CardinalityDistinct(Sort(s));
    }
  }

  /** Two duplicate-free listings of the same set sort to the same sequence. */
  lemma ListingsSortAlike(a: seq<string>, b: seq<string>)
    requires Distinct(a) && Distinct(b) && Elements(a) == Elements(b)
    ensures Sort(a) == Sort(b)
  {
    DistinctCardinality(a);
    DistinctCardinality(b);
    forall x ensures multiset(a)[x] == multiset(b)[x] {
      if x in a { assert x in Elements(b); } else { assert x !in multiset(a) && x !in Elements(b) && x !in multiset(b); }
    }
    assert multiset(a) == multiset(b);
    SortCorrect(a);
    SortCorrect(b);
    AscendingUnique(Sort(a), Sort(b));
  }

  /** An ascending sequence is its own sorted form. */
  lemma SortIdempotent(s: seq<string>)
    requires Ascending(s)
    ensures Sort(s) == s
  {
    SortCorrect(s);
    AscendingUnique(Sort(s), s);
  }

  // ---------- searching ----------

  /** k occurs in s at position i. */
  predicate OccursAt(s: string, k: string, i: nat) {
    i + |k| <= |s| && s[i..i + |k|] == k
  }

  /** strings.Index(s, k) >= 0. */
  predicate Contains(s: string, k: string) {
    exists i :: 0 <= i <= |s| && OccursAt(s, k, i)
  }

  lemma ContainsSelf(s: string)
    ensures Contains(s, s)
  {
    assert OccursAt(s, s, 0);
  }

  /** Position of the last occurrence of c, or -1. */
  function LastIndex(s: string, c: char): (i: int)
    ensures -1 <= i < |s|
  {
    if s == [] then -1
    else if s[|s| - 1] == c then |s| - 1
    else LastIndex(s[..|s| - 1], c)
  }

  lemma {:induction false} LastIndexIs(s: string, c: char, k: nat)
    requires k < |s| && s[k] == c && c !in s[k + 1..]
    ensures LastIndex(s, c) == k
  {
    if k < |s| - 1 {
      assert s[k + 1..][|s| - k - 2] == s[|s| - 1];
      assert s[..|s| - 1][k + 1..] == s[k + 1..][..|s| - k - 2];
      LastIndexIs(s[..|s| - 1], c, k);
    }
  }

  /** Position of the first occurrence of c, or -1. */
  function FirstIndex(s: string, c: char): (i: int)
    ensures -1 <= i < |s|
    ensures i >= 0 ==> s[i] == c
    ensures forall j :: 0 <= j < (if i < 0 then |s| else i) ==> s[j] != c
  {
    if s == [] then -1
    else if s[0] == c then 0
    else
      var r := FirstIndex(s[1..], c);
      assert forall j :: 0 < j < |s| ==> s[j] == s[1..][j - 1];
      if r < 0 then -1 else r + 1
  }

  // ---------- splitting ----------

  /** strings.Split(s, c) for a one-character separator. */
  function Split(s: string, c: char): (parts: seq<string>)
    ensures |parts| > 0
    ensures forall p :: p in parts ==> c !in p
    decreases |s|
  {
    var i := FirstIndex(s, c);
    if i < 0 then [s] else [s[..i]] + Split(s[i + 1..], c)
  }

  lemma FirstIndexAppend(s: string, c: char, part: string)
    requires c !in part
    ensures FirstIndex(s + [c] + part, c) == if FirstIndex(s, c) < 0 then |s| else FirstIndex(s, c)
  {
    var whole := s + [c] + part;
    assert whole[|s|] == c;
    assert forall j :: 0 <= j < |s| ==> whole[j] == s[j];
  }

  lemma SplitWithout(s: string, c: char)
    requires c !in s
    ensures Split(s, c) == [s]
  {
    assert FirstIndex(s, c) < 0;
  }

  /** The parts, put together again with the separator between them. */
  function Glue(parts: seq<string>, c: char): string {
    if parts == [] then "" else if |parts| == 1 then parts[0] else parts[0] + [c] + Glue(parts[1..], c)
  }

  lemma GlueCons(part: string, parts: seq<string>, c: char)
    requires parts != []
    ensures Glue([part] + parts, c) == part + [c] + Glue(parts, c)
  {
    assert ([part] + parts)[1..] == parts;
  }

  lemma {:induction false} GlueAppend(parts: seq<string>, part: string, c: char)
    requires parts != []
    ensures Glue(parts + [part], c) == Glue(parts, c) + [c] + part
  {
    var all := parts + [part];
    assert all[1..] == parts[1..] + [part];
    if |parts| == 1 {
      assert all[1..] == [part];
    } else {
      GlueAppend(parts[1..], part, c);
      assert parts[0] + [c] + (Glue(parts[1..], c) + [c] + part) == parts[0] + [c] + Glue(parts[1..], c) + [c] + part;
    }
  }

  lemma CutAt(s: string, c: char, i: nat)
    requires i < |s| && s[i] == c
    ensures s == s[..i] + [c] + s[i + 1..]
  {
  }

  /** Splitting loses nothing: the parts glued together are the string. */
  lemma {:induction false} SplitGlue(s: string, c: char)
    ensures Glue(Split(s, c), c) == s
    decreases |s|
  {
    var i := FirstIndex(s, c);
    if i >= 0 {
      SplitGlue(s[i + 1..], c);
      GlueCons(s[..i], Split(s[i + 1..], c), c);
      CutAt(s, c, i);
    }
  }

  /** Appending a separator and a part without it appends that part to the split. */
  lemma {:induction false} SplitAppend(s: string, c: char, part: string)
    requires c !in part
    ensures Split(s + [c] + part, c) == Split(s, c) + [part]
    decreases |s|
  {
    var whole := s + [c] + part;
    var i := FirstIndex(s, c);
    FirstIndexAppend(s, c, part);
    SplitWithout(part, c);
    if i < 0 {
      assert whole[..|s|] == s && whole[|s| + 1..] == part;
    } else {
      assert whole[..i] == s[..i] && whole[i + 1..] == s[i + 1..] + [c] + part;
      SplitAppend(s[i + 1..], c, part);
    }
  }

  // ---------- lower-casing ----------

  function LowerChar(c: char): char {
    if 'A' <= c <= 'Z' then c - 'A' + 'a' else c
  }

  /** strings.ToLower on ASCII method names. */
  function ToLower(s: string): (r: string)
    ensures |r| == |s|
    ensures forall i :: 0 <= i < |s| ==> r[i] == LowerChar(s[i])
  {
    seq(|s|, i requires 0 <= i < |s| => LowerChar(s[i]))
  }
}
