/** List editing shared by the resume form, the upload list and the
    interview Q&A list, and the `some`/`forEach`/`filter` idioms the resume
    export and preview use to skip entries whose key field is blank. */
module Lists {

  /** `xs.filter((_, j) => j !== i)`: drop the element at index `i`; an index
      outside the list drops nothing. */
  function RemoveAt<T>(xs: seq<T>, i: int): (r: seq<T>)
    ensures 0 <= i < |xs| ==> |r| == |xs| - 1
    ensures 0 <= i < |xs| ==> forall j :: 0 <= j < i ==> r[j] == xs[j]
    ensures 0 <= i < |xs| ==> forall j :: i <= j < |r| ==> r[j] == xs[j + 1]
    ensures !(0 <= i < |xs|) ==> r == xs
  {
    if 0 <= i < |xs| then xs[..i] + xs[i + 1..] else xs
  }

  /** Put `x` back at index `i`, the inverse of `RemoveAt`. */
  function InsertAt<T>(xs: seq<T>, i: nat, x: T): (r: seq<T>)
    requires i <= |xs|
    ensures |r| == |xs| + 1 && r[i] == x
    ensures forall j :: 0 <= j < i ==> r[j] == xs[j]
    ensures forall j :: i < j < |r| ==> r[j] == xs[j - 1]
  {
    xs[..i] + [x] + xs[i..]
  }

  /** Removing an element and putting it back restores the list. */
  lemma RemoveInsert<T>(xs: seq<T>, i: nat)
    requires i < |xs|
    ensures InsertAt(RemoveAt(xs, i), i, xs[i]) == xs
  {
    var r := InsertAt(RemoveAt(xs, i), i, xs[i]);
    assert forall j :: 0 <= j < |xs| ==> r[j] == xs[j];
  }

  /** Inserting an element and removing it again restores the list. */
  lemma InsertRemove<T>(xs: seq<T>, i: nat, x: T)
    requires i <= |xs|
    ensures RemoveAt(InsertAt(xs, i, x), i) == xs
  {
    var r := RemoveAt(InsertAt(xs, i, x), i);
    assert forall j :: 0 <= j < |xs| ==> r[j] == xs[j];
  }

  /** The elements kept by `RemoveAt` are exactly the others, by multiplicity. */
  lemma RemoveAtMultiset<T>(xs: seq<T>, i: nat)
    requires i < |xs|
    ensures multiset(RemoveAt(xs, i)) + multiset{xs[i]} == multiset(xs)
  {
    assert xs == xs[..i] + [xs[i]] + xs[i + 1..];
  }

  /** `xs.some(keep)`. */
  predicate AnyKept<T>(xs: seq<T>, keep: T -> bool) {
    exists i :: 0 <= i < |xs| && keep(xs[i])
  }

  /** `xs.forEach(x => { if (keep(x)) { ...body(x)... } })`, collecting what
      each kept element produces, in order. */
  function ForEachKept<T, U>(xs: seq<T>, keep: T -> bool, body: T -> seq<U>): seq<U>
    decreases |xs|
  {
    if xs == [] then []
    else (if keep(xs[0]) then body(xs[0]) else []) + ForEachKept(xs[1..], keep, body)
  }

  /** `xs.filter(keep)`. */
  function Kept<T>(xs: seq<T>, keep: T -> bool): (r: seq<T>)
    ensures |r| <= |xs|
    ensures forall i :: 0 <= i < |r| ==> r[i] in xs && keep(r[i])
    ensures forall i :: 0 <= i < |xs| && keep(xs[i]) ==> xs[i] in r
    decreases |xs|
  {
    if xs == [] then []
    else if keep(xs[0]) then [xs[0]] + Kept(xs[1..], keep)
    else Kept(xs[1..], keep)
  }

  /** Elements that are not kept contribute nothing: iterating over the
      filtered list produces the same output. */
  lemma {:induction false} ForEachKeptIgnoresDropped<T, U>(xs: seq<T>, keep: T -> bool, body: T -> seq<U>)
    ensures ForEachKept(Kept(xs, keep), keep, body) == ForEachKept(xs, keep, body)
    ensures AnyKept(Kept(xs, keep), keep) <==> AnyKept(xs, keep)
    decreases |xs|
  {
    if xs != [] {
      ForEachKeptIgnoresDropped(xs[1..], keep, body);
      if keep(xs[0]) {
        var k := [xs[0]] + Kept(xs[1..], keep);
        assert k[0] == xs[0] && k[1..] == Kept(xs[1..], keep);
      }
    }
    var k := Kept(xs, keep);
    if AnyKept(xs, keep) {
      var i :| 0 <= i < |xs| && keep(xs[i]);
      assert xs[i] in k;
    }
    if AnyKept(k, keep) {
      var i :| 0 <= i < |k| && keep(k[i]);
      assert k[i] in xs;
    }
  }

  /** Appending an element that is not kept leaves the filter unchanged. */
  lemma {:induction false} KeptAppendDropped<T>(xs: seq<T>, x: T, keep: T -> bool)
    requires !keep(x)
    ensures Kept(xs + [x], keep) == Kept(xs, keep)
    decreases |xs|
  {
    if xs == [] {
      assert [x][1..] == [];
    } else {
      assert (xs + [x])[1..] == xs[1..] + [x];
      KeptAppendDropped(xs[1..], x, keep);
    }
  }

  /** `for x in xs: y = f(x); if keep(y): out.append(y)`: the images of the
      elements whose image is kept, in order. */
  function Collect<T, U>(xs: seq<T>, f: T -> U, keep: U -> bool): (r: seq<U>)
    ensures |r| <= |xs|
    ensures forall i :: 0 <= i < |r| ==> keep(r[i])
    ensures forall i :: 0 <= i < |r| ==> exists j :: 0 <= j < |xs| && r[i] == f(xs[j])
    decreases |xs|
  {
    if xs == [] then []
    else
      var rest := Collect(xs[1..], f, keep);
      assert forall j :: 0 <= j < |xs[1..]| ==> xs[1..][j] == xs[j + 1];
      (if keep(f(xs[0])) then [f(xs[0])] else []) + rest
  }

  /** Collecting over a concatenation collects over each part in turn, so
      the output follows the order of the input. */
  lemma {:induction false} CollectAppend<T, U>(a: seq<T>, b: seq<T>, f: T -> U, keep: U -> bool)
    ensures Collect(a + b, f, keep) == Collect(a, f, keep) + Collect(b, f, keep)
    decreases |a|
  {
    if a == [] {
      assert a + b == b;
    } else {
      assert (a + b)[0] == a[0] && (a + b)[1..] == a[1..] + b;
      CollectAppend(a[1..], b, f, keep);
    }
  }

  /** Every element whose image is kept contributes its image. */
  lemma {:induction false} CollectKeeps<T, U>(xs: seq<T>, f: T -> U, keep: U -> bool, j: nat)
    requires j < |xs| && keep(f(xs[j]))
    ensures f(xs[j]) in Collect(xs, f, keep)
    decreases j
  {
    if j > 0 {
      CollectKeeps(xs[1..], f, keep, j - 1);
      assert xs[1..][j - 1] == xs[j];
    }
  }

  /** The filter drops something exactly when some element is not kept. */
  lemma {:induction false} KeptDropsIffSomeRejected<T>(xs: seq<T>, keep: T -> bool)
    ensures |Kept(xs, keep)| == |xs| <==> forall i :: 0 <= i < |xs| ==> keep(xs[i])
    decreases |xs|
  {
    if xs != [] {
      KeptDropsIffSomeRejected(xs[1..], keep);
      assert forall i :: 1 <= i < |xs| ==> xs[i] == xs[1..][i - 1];
      if !keep(xs[0]) {
        assert |Kept(xs, keep)| <= |xs[1..]|;
      }
    }
  }
}
