/** Small vocabulary shared by every module: optional values, outcomes, and facts about
    finite sets and order-preserving deduplication. */
module Common {

  datatype Option<+T> = None | Some(value: T)

  datatype Result<+T, +E> = Ok(value: T) | Err(error: E)

  // What str.strip() and int() take off the ends of a string, as far as it is ASCII.
  predicate Blank(c: char) {
    c == ' ' || '\t' <= c <= '\r' || '\U{1C}' <= c <= '\U{1F}'
  }

  // str.strip()
  function Strip(s: string): (r: string)
    ensures r != [] ==> !Blank(r[0]) && !Blank(r[|r| - 1])
    decreases |s|
  {
    if s == "" then ""
    else if Blank(s[0]) then Strip(s[1..])
    else if Blank(s[|s| - 1]) then Strip(s[..|s| - 1])
    else s
  }

  // Where the blanks at both ends stop.
  ghost predicate Ends(s: string, a: nat, b: nat, i: nat, j: nat) {
    && a <= i <= j <= b <= |s|
    && (forall k :: a <= k < i ==> Blank(s[k]))
    && (forall k :: j <= k < b ==> Blank(s[k]))
    && (i < j ==> !Blank(s[i]) && !Blank(s[j - 1]))
  }

  lemma {:induction false} EndsExist(s: string, a: nat, b: nat) returns (i: nat, j: nat)
    requires a <= b <= |s|
    ensures Ends(s, a, b, i, j)
    decreases b - a
  {
    i, j := a, b;
    if a < b && Blank(s[a]) {
      i, j := EndsExist(s, a + 1, b);
    } else if a < b && Blank(s[b - 1]) {
      i, j := EndsExist(s, a, b - 1);
    }
  }

  lemma {:induction false} StripCuts(s: string, a: nat, b: nat, i: nat, j: nat)
    requires Ends(s, a, b, i, j)
    ensures Strip(s[a..b]) == s[i..j]
    decreases b - a
  {
    StripStep(s, a, b);
    if a < i {
      StripCuts(s, a + 1, b, i, j);
    } else if j < b && !Blank(s[a]) {
      StripCuts(s, a, b - 1, i, j);
    } else if a < b && Blank(s[a]) {
      StripCuts(s, a + 1, b, b, b);
    }
  }

  lemma StripStep(s: string, a: nat, b: nat)
    requires a <= b <= |s|
    ensures Strip(s[a..b]) == if a < b && Blank(s[a]) then Strip(s[a + 1..b])
                              else if a < b && Blank(s[b - 1]) then Strip(s[a..b - 1])
                              else s[a..b]
  {
    if a < b {
      assert s[a..b][1..] == s[a + 1..b];
      assert s[a..b][..b - a - 1] == s[a..b - 1];
      assert s[a..b][0] == s[a] && s[a..b][b - a - 1] == s[b - 1];
    }
  }

  // HANDLE_RE: sixteen bytes in lower-case hex.
  predicate IsHandle(h: string) {
    |h| == 32 && forall i :: 0 <= i < |h| ==> h[i] in "0123456789abcdef"
  }

  lemma UnionSize<T>(a: set<T>, b: set<T>)
    requires a !! b
    ensures |a + b| == |a| + |b|
  {
  }

  lemma SubsetSize<T>(a: set<T>, b: set<T>)
    requires a <= b
    ensures |a| <= |b|
  {
    assert b == a + (b - a);
  }

  lemma Member<T>(s: set<T>) returns (x: T)
    requires s != {}
    ensures x in s
  {
    x :| x in s;
  }

  function ToSet<T>(xs: seq<T>): set<T> { set x | x in xs }

  // Python's tuple(dict.fromkeys(xs)): every value once, at the place it first appeared.
  function Dedup<T(==)>(xs: seq<T>): (r: seq<T>)
    ensures forall i :: 0 <= i < |r| ==> r[i] in xs
    ensures forall i :: 0 <= i < |xs| ==> xs[i] in r
    ensures forall i, j :: 0 <= i < j < |r| ==> r[i] != r[j]
  {
    if xs == [] then []
    else
      var rest := Dedup(xs[..|xs| - 1]);
      if xs[|xs| - 1] in rest then rest else rest + [xs[|xs| - 1]]
  }

  // `ys` is what stands at the places `at` of `xs`, in the same order.
  predicate Picks<T(==)>(xs: seq<T>, at: seq<int>, ys: seq<T>) {
    && |at| == |ys|
    && (forall k :: 0 <= k < |at| ==> 0 <= at[k] < |xs| && ys[k] == xs[at[k]])
    && (forall j, k :: 0 <= j < k < |at| ==> at[j] < at[k])
  }

  lemma PicksOneBefore<T>(xs: seq<T>, k: nat, at: seq<int>, ys: seq<T>)
    requires k < |xs| && Picks(xs, at, ys) && (at != [] ==> k < at[0])
    ensures Picks(xs, [k] + at, [xs[k]] + ys)
  {
  }

  // Where a value first appears.
  function FirstIndex<T(==)>(xs: seq<T>, x: T): (i: nat)
    requires x in xs
    ensures i < |xs| && xs[i] == x
    ensures forall j :: 0 <= j < i ==> xs[j] != x
  {
    if xs[0] == x then 0 else 1 + FirstIndex(xs[1..], x)
  }

  lemma FirstIndexOfPrefix<T>(xs: seq<T>, k: nat, x: T)
    requires k <= |xs| && x in xs[..k]
    ensures x in xs && FirstIndex(xs, x) == FirstIndex(xs[..k], x)
  {
    var i := FirstIndex(xs[..k], x);
    assert xs[i] == x;
    assert forall j :: 0 <= j < i ==> xs[j] == xs[..k][j];
    var i' := FirstIndex(xs, x);
    assert i' <= i;
  }

  // The survivors keep the order in which they first arrived.
  lemma {:induction false} DedupKeepsArrivalOrder<T>(xs: seq<T>, i: nat, j: nat)
    requires i < j < |Dedup(xs)|
    ensures FirstIndex(xs, Dedup(xs)[i]) < FirstIndex(xs, Dedup(xs)[j])
  {
    var n := |xs| - 1;
    var front := xs[..n];
    var rest := Dedup(front);
    assert rest[i] in front;
    FirstIndexOfPrefix(xs, n, rest[i]);
    if j < |rest| {
      assert rest[j] in front;
      DedupKeepsArrivalOrder(front, i, j);
      FirstIndexOfPrefix(xs, n, rest[j]);
    } else {
      var last := xs[n];
      var k := FirstIndex(xs, last);
      assert last !in rest;
      assert forall m :: 0 <= m < n ==> xs[m] == front[m] && front[m] in rest;
    }
  }
}
