/** Small vocabulary shared by every module. */
module Common {

  datatype Option<+T> = None | Some(value: T)

  datatype Result<+T, +E> = Ok(value: T) | Err(error: E)

  /** JSON values as the payload columns carry them. */
  datatype Json =
    | JNull
    | JBool(b: bool)
    | JInt(n: int)
    | JReal(x: real)
    | JString(s: string)
    | JArray(items: seq<Json>)
    | JObject(fields: map<string, Json>)

  // ---------------------------------------------------------------- strings in order

  /** Strings by code point, a prefix first. */
  predicate Precedes(a: string, b: string) {
    b != "" && (a == "" || a[0] < b[0] || (a[0] == b[0] && Precedes(a[1..], b[1..])))
  }

  /** They agree up to `i`, and there the first is at its end or has the lesser character. */
  ghost predicate LessAt(a: string, b: string, i: nat) {
    i <= |a| && i < |b| && a[..i] == b[..i] && (i == |a| || a[i] < b[i])
  }

  lemma {:induction false} PrecedesIff(a: string, b: string)
    ensures Precedes(a, b) <==> exists i: nat :: LessAt(a, b, i)
  {
    forall i: nat | LessAt(a, b, i) && i > 0 ensures a[0] == b[0] {
      assert a[..i][0] == b[..i][0];
    }
    if a == "" || b == "" || a[0] != b[0] {
      if b != "" && (a == "" || a[0] < b[0]) {
        assert LessAt(a, b, 0);
      }
    } else {
      PrecedesIff(a[1..], b[1..]);
      if i: nat :| LessAt(a[1..], b[1..], i) {
        assert a[..i + 1] == [a[0]] + a[1..][..i] && b[..i + 1] == [b[0]] + b[1..][..i];
        assert LessAt(a, b, i + 1);
      }
      if i: nat :| LessAt(a, b, i) {
        assert a[1..][..i - 1] == a[..i][1..] && b[1..][..i - 1] == b[..i][1..];
        assert LessAt(a[1..], b[1..], i - 1);
      }
    }
  }

  predicate Alphabetical(names: seq<string>) {
    forall i, j :: 0 <= i < j < |names| ==> Precedes(names[i], names[j])
  }

  lemma {:induction false} PrecedesOrders(a: string, b: string)
    ensures Precedes(a, b) || Precedes(b, a) <==> a != b
    ensures !(Precedes(a, b) && Precedes(b, a))
  {
    if a != "" && b != "" {
      PrecedesOrders(a[1..], b[1..]);
      assert a == [a[0]] + a[1..] && b == [b[0]] + b[1..];
    }
  }

  lemma {:induction false} PrecedesChains(a: string, b: string, c: string)
    requires Precedes(a, b) && Precedes(b, c)
    ensures Precedes(a, c)
  {
    if a != "" && a[0] == b[0] == c[0] {
      PrecedesChains(a[1..], b[1..], c[1..]);
    }
  }

  ghost predicate IsFirst(names: set<string>, a: string) {
    a in names && forall b <- names :: b == a || Precedes(a, b)
  }

  lemma {:induction false} HasFirst(names: set<string>) returns (a: string)
    requires names != {}
    ensures IsFirst(names, a)
  {
    var x :| x in names;
    var rest := names - {x};
    assert names == rest + {x};
    a := x;
    if rest != {} {
      var y := HasFirst(rest);
      PrecedesOrders(x, y);
      if Precedes(y, x) {
        a := y;
      } else {
        forall b <- rest ensures Precedes(x, b) {
          if b != y {
            PrecedesChains(x, y, b);
          }
        }
      }
    }
  }

  /** A set of names in alphabetical order. */
  method Alphabetized(names: set<string>) returns (list: seq<string>)
    ensures Alphabetical(list) && forall a :: a in list <==> a in names
  {
    list := [];
    var todo := names;
    while todo != {}
      invariant todo <= names && forall a <- names :: a in list <==> a !in todo
      invariant forall i, b :: 0 <= i < |list| && b in todo ==> Precedes(list[i], b)
      invariant Alphabetical(list) && forall a <- list :: a in names
      decreases |todo|
    {
      ghost var first := HasFirst(todo);
      var a :| a in todo && forall b <- todo :: b == a || Precedes(a, b);
      todo := todo - {a};
      list := list + [a];
    }
  }

  // ---------------------------------------------------------------- lists of lists

  /** The concatenation of a list of lists. */
  function Concat<T>(lists: seq<seq<T>>): seq<T> {
    if lists == [] then [] else lists[0] + Concat(lists[1..])
  }

  /** Where list `i` begins inside the concatenation: the lengths before it. */
  function Offset<T>(lists: seq<seq<T>>, i: nat): nat
    requires i <= |lists|
  {
    if i == 0 then 0 else Offset(lists, i - 1) + |lists[i - 1]|
  }

  lemma {:induction false} OffsetOfTail<T>(lists: seq<seq<T>>, i: nat)
    requires 0 < i <= |lists|
    ensures Offset(lists, i) == |lists[0]| + Offset(lists[1..], i - 1)
  {
    if i > 1 {
      OffsetOfTail(lists, i - 1);
    }
  }

  /** Element `j` of list `i` stands at `Offset(lists, i) + j`. */
  lemma {:induction false} ConcatAt<T>(lists: seq<seq<T>>, i: nat, j: nat)
    requires i < |lists| && j < |lists[i]|
    ensures Offset(lists, i) + j < |Concat(lists)|
    ensures Concat(lists)[Offset(lists, i) + j] == lists[i][j]
    decreases |lists|
  {
    if i > 0 {
      ConcatAt(lists[1..], i - 1, j);
      OffsetOfTail(lists, i);
    }
  }

  lemma {:induction false} ConcatLength<T>(lists: seq<seq<T>>)
    ensures |Concat(lists)| == Offset(lists, |lists|)
  {
    if lists != [] {
      ConcatLength(lists[1..]);
      OffsetOfTail(lists, |lists|);
    }
  }

  lemma {:induction false} OffsetGrows<T>(lists: seq<seq<T>>, i: nat, k: nat)
    requires i <= k <= |lists|
    ensures Offset(lists, i) <= Offset(lists, k)
    decreases k
  {
    if i < k {
      OffsetGrows(lists, i, k - 1);
    }
  }

  lemma {:induction false} SameOffsets<A, B>(a: seq<seq<A>>, b: seq<seq<B>>, i: nat)
    requires |a| == |b| && i <= |a|
    requires forall n :: 0 <= n < |a| ==> |a[n]| == |b[n]|
    ensures Offset(a, i) == Offset(b, i)
  {
    if i > 0 {
      SameOffsets(a, b, i - 1);
    }
  }

  /** Every element of a concatenation comes from one of the lists. */
  lemma {:induction false} ConcatOrigin<T>(lists: seq<seq<T>>, x: T)
    ensures x in Concat(lists) <==> exists i :: 0 <= i < |lists| && x in lists[i]
  {
    if lists != [] {
      ConcatOrigin(lists[1..], x);
      if x in Concat(lists) && x !in lists[0] {
        var i :| 0 <= i < |lists[1..]| && x in lists[1..][i];
        assert x in lists[i + 1];
      }
      if i :| 0 <= i < |lists| && x in lists[i] {
        if i > 0 {
          assert x in lists[1..][i - 1];
        }
      }
    }
  }

  // ---------------------------------------------------------------- the first error

  /** Run `f` over the items in order: the first error, or every result in order. */
  function Traverse<T, U, E>(items: seq<T>, f: T -> Result<U, E>): (r: Result<seq<U>, E>)
    ensures r.Ok? <==> forall i :: 0 <= i < |items| ==> f(items[i]).Ok?
    ensures r.Ok? ==> |r.value| == |items| && forall i :: 0 <= i < |items| ==> f(items[i]) == Ok(r.value[i])
    ensures r.Err? ==> exists i :: 0 <= i < |items| && f(items[i]) == Err(r.error)
  {
    if items == [] then Ok([])
    else
      match f(items[0])
      case Err(e) =>
        assert f(items[0]) == Err(e);
        Err(e)
      case Ok(u) =>
        match Traverse(items[1..], f)
        case Err(e) =>
          assert exists i :: 0 <= i < |items[1..]| && f(items[1..][i]) == Err(e);
          assert forall i :: 0 <= i < |items[1..]| ==> items[1..][i] == items[i + 1];
          Err(e)
        case Ok(us) =>
          assert forall i :: 1 <= i < |items| ==> items[i] == items[1..][i - 1];
          Ok([u] + us)
  }

  /** A forward loop that has seen no error on a prefix and meets its first error stops with the spec's error. */
  lemma {:induction false} TraverseStops<T, U, E>(items: seq<T>, f: T -> Result<U, E>, i: nat, e: E)
    requires i < |items|
    requires forall k :: 0 <= k < i ==> f(items[k]).Ok?
    requires f(items[i]) == Err(e)
    ensures Traverse(items, f) == Err(e)
  {
    if i > 0 {
      assert f(items[0]).Ok?;
      assert forall k :: 0 <= k < i - 1 ==> items[1..][k] == items[k + 1];
      TraverseStops(items[1..], f, i - 1, e);
    }
  }

  /** A forward loop that collected every result holds the spec's list. */
  lemma TraverseDone<T, U, E>(items: seq<T>, f: T -> Result<U, E>, done: seq<U>)
    requires |done| == |items|
    requires forall k :: 0 <= k < |items| ==> f(items[k]) == Ok(done[k])
    ensures Traverse(items, f) == Ok(done)
  {
    var r := Traverse(items, f);
    assert forall k :: 0 <= k < |items| ==> f(items[k]) == Ok(r.value[k]);
    assert r.value == done;
  }

  /** A forward loop has run the first `|done|` items without an error. */
  ghost predicate Ran<T, U, E>(items: seq<T>, f: T -> Result<U, E>, done: seq<U>) {
    |done| <= |items| && forall k :: 0 <= k < |done| ==> f(items[k]) == Ok(done[k])
  }

  lemma RanStep<T, U, E>(items: seq<T>, f: T -> Result<U, E>, done: seq<U>, u: U)
    requires Ran(items, f, done) && |done| < |items| && f(items[|done|]) == Ok(u)
    ensures Ran(items, f, done + [u])
  {
  }

  lemma RanStops<T, U, E>(items: seq<T>, f: T -> Result<U, E>, done: seq<U>, e: E)
    requires Ran(items, f, done) && |done| < |items| && f(items[|done|]) == Err(e)
    ensures Traverse(items, f) == Err(e)
  {
    TraverseStops(items, f, |done|, e);
  }

  lemma RanAll<T, U, E>(items: seq<T>, f: T -> Result<U, E>, done: seq<U>)
    requires Ran(items, f, done) && |done| == |items|
    ensures Traverse(items, f) == Ok(done)
  {
    TraverseDone(items, f, done);
  }
}
