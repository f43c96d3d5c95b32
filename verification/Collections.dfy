// Small vocabulary shared by the models: options, subsequences and folded predicates.
module Collections {

  // A predicate of the form `forall n {:trigger Unfold(n)} :: Unfold(n) ==> P` says P, but the
  // verifier looks inside only where `Unfold` is mentioned.
  ghost predicate Unfold(n: nat) { true }

  datatype Option<+T> = None | Some(value: T)

  // ----- subsequences: some of the elements, in their order

  // `at` picks positions below `n`, each once, in order.
  ghost predicate Positions(at: seq<nat>, n: nat) {
    && (forall i :: 0 <= i < |at| ==> at[i] < n)
    && (forall i, j :: 0 <= i < j < |at| ==> at[i] < at[j])
  }

  ghost predicate PickedBy<T>(xs: seq<T>, ys: seq<T>, at: seq<nat>) {
    |at| == |xs| && Positions(at, |ys|) && forall i :: 0 <= i < |xs| ==> xs[i] == ys[at[i]]
  }

  ghost predicate Subsequence<T>(xs: seq<T>, ys: seq<T>) {
    exists at: seq<nat> :: PickedBy(xs, ys, at)
  }

  lemma SubsequenceOfSelf<T>(xs: seq<T>)
    ensures Subsequence(xs, xs)
  {
    assert PickedBy(xs, xs, seq(|xs|, i => i));
  }

  lemma SubsequenceTransitive<T>(xs: seq<T>, ys: seq<T>, zs: seq<T>)
    requires Subsequence(xs, ys) && Subsequence(ys, zs)
    ensures Subsequence(xs, zs)
  {
    var a: seq<nat> :| PickedBy(xs, ys, a);
    var b: seq<nat> :| PickedBy(ys, zs, b);
    var c: seq<nat> := seq(|a|, i requires 0 <= i < |a| => b[a[i]]);
    assert PickedBy(xs, zs, c);
  }

  lemma SubsequenceOfAppend<T>(xs: seq<T>, ys: seq<T>, xs': seq<T>, ys': seq<T>)
    requires Subsequence(xs, ys) && Subsequence(xs', ys')
    ensures Subsequence(xs + xs', ys + ys')
  {
    var a: seq<nat> :| PickedBy(xs, ys, a);
    var b: seq<nat> :| PickedBy(xs', ys', b);
    var c: seq<nat> := a + seq(|b|, i requires 0 <= i < |b| => |ys| + b[i]);
    assert PickedBy(xs + xs', ys + ys', c);
  }

  lemma EmptySubsequence<T>(ys: seq<T>)
    ensures Subsequence([], ys)
  {
    assert PickedBy([], ys, []);
  }

  // Dropping the element at one position.
  lemma SubsequenceWithout<T>(ys: seq<T>, k: nat)
    requires k < |ys|
    ensures Subsequence(ys[..k] + ys[k + 1..], ys)
  {
    var at: seq<nat> := seq(|ys| - 1, i => if i < k then i else i + 1);
    assert PickedBy(ys[..k] + ys[k + 1..], ys, at);
  }

  lemma Associative<T>(xs: seq<T>, ys: seq<T>, zs: seq<T>)
    ensures xs + (ys + zs) == (xs + ys) + zs
  {
  }

  lemma AroundOne<T>(xs: seq<T>, k: nat)
    requires k < |xs|
    ensures xs == xs[..k] + ([xs[k]] + xs[k + 1..])
  {
  }

  lemma SubsequenceOfSnoc<T>(xs: seq<T>, ys: seq<T>, y: T)
    requires Subsequence(xs, ys)
    ensures Subsequence(xs, ys + [y]) && Subsequence(xs + [y], ys + [y])
  {
    EmptySubsequence([y]);
    SubsequenceOfAppend(xs, ys, [], [y]);
    assert xs + [] == xs;
    SubsequenceOfSelf([y]);
    SubsequenceOfAppend(xs, ys, [y], [y]);
  }

  lemma {:induction false} PositionsSpread(at: seq<nat>, n: nat, i: nat)
    requires Positions(at, n) && i < |at|
    ensures at[0] + i <= at[i]
  {
    if i > 0 {
      PositionsSpread(at, n, i - 1);
    }
  }

  lemma NoLonger<T>(xs: seq<T>, ys: seq<T>)
    requires Subsequence(xs, ys)
    ensures |xs| <= |ys|
  {
    var at: seq<nat> :| PickedBy(xs, ys, at);
    if at != [] {
      PositionsSpread(at, |ys|, |at| - 1);
    }
  }
}
