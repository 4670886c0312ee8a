/**
 * The shape shared by the list comprehension that normalises tickers and by
 * the loop that collects scan results: walk a list in order, ask `f` about
 * each element, and keep the value of every `Some` answer.
 */
module Selection {
  import opened Wrappers

  /** The values `f` returns for the elements of `xs`, in list order, skipping `None`. */
  function FilterMap<A, B>(xs: seq<A>, f: A -> Option<B>): (r: seq<B>)
    ensures |r| <= |xs|
  {
    if xs == [] then []
    else match f(xs[0])
      case Some(y) => [y] + FilterMap(xs[1..], f)
      case None => FilterMap(xs[1..], f)
  }

  /**
   * `r` is what remains of `xs` after `f`: `idx` lists, strictly increasing,
   * exactly the positions of `xs` where `f` answers `Some`, and `r[k]` is the
   * answer at position `idx[k]`.
   */
  ghost predicate IsSelection<A, B>(xs: seq<A>, f: A -> Option<B>, idx: seq<nat>, r: seq<B>)
  {
    Answers(xs, f, idx, r) && Increasing(idx) && Covers(xs, f, idx)
  }

  /** `r[k]` is the answer of `f` at position `idx[k]` of `xs`. */
  ghost predicate Answers<A, B>(xs: seq<A>, f: A -> Option<B>, idx: seq<nat>, r: seq<B>)
  {
    && |idx| == |r|
    && (forall k :: 0 <= k < |idx| ==> idx[k] < |xs| && f(xs[idx[k]]) == Some(r[k]))
  }

  ghost predicate Increasing(idx: seq<nat>)
  {
    forall j, k :: 0 <= j < k < |idx| ==> idx[j] < idx[k]
  }

  /** Every position where `f` answers `Some` is listed in `idx`. */
  ghost predicate Covers<A, B>(xs: seq<A>, f: A -> Option<B>, idx: seq<nat>)
  {
    forall i :: 0 <= i < |xs| && f(xs[i]).Some? ==> i in idx
  }

  /** Positions shifted by one, for a list that gained a new head. */
  function Shift(idx: seq<nat>): (s: seq<nat>)
    ensures |s| == |idx|
    ensures forall k :: 0 <= k < |idx| ==> s[k] == idx[k] + 1
  {
    seq(|idx|, k requires 0 <= k < |idx| => idx[k] + 1)
  }

  lemma ShiftIncreasing(idx: seq<nat>)
    requires Increasing(idx)
    ensures Increasing(Shift(idx)) && Increasing([0] + Shift(idx))
  {
    var s := Shift(idx);
    var s' := [0] + s;
    forall j, k | 0 <= j < k < |s'| ensures s'[j] < s'[k] {
      assert s'[k] == s[k - 1];
      if j > 0 {
        assert s'[j] == s[j - 1];
      }
    }
  }

  /** Answers for the tail, shifted, are answers for the whole list. */
  lemma ShiftAnswers<A, B>(xs: seq<A>, f: A -> Option<B>, idx: seq<nat>, r: seq<B>)
    requires xs != [] && Answers(xs[1..], f, idx, r)
    ensures Answers(xs, f, Shift(idx), r)
  {
    var s := Shift(idx);
    forall k | 0 <= k < |s|
      ensures s[k] < |xs| && f(xs[s[k]]) == Some(r[k])
    {
      assert xs[1..][idx[k]] == xs[s[k]];
    }
  }

  /** Covering the tail, shifted, covers every position of the whole list but the head. */
  lemma ShiftCovers<A, B>(xs: seq<A>, f: A -> Option<B>, idx: seq<nat>)
    requires xs != [] && Covers(xs[1..], f, idx)
    ensures forall i :: 1 <= i < |xs| && f(xs[i]).Some? ==> i in Shift(idx)
  {
    var s := Shift(idx);
    forall i | 1 <= i < |xs| && f(xs[i]).Some?
      ensures i in s
    {
      assert xs[1..][i - 1] == xs[i];
      var k :| 0 <= k < |idx| && idx[k] == i - 1;
      assert s[k] == i;
    }
  }

  /** A selection of the tail, shifted, is a selection of the whole list when the head is dropped. */
  lemma SelectionSkip<A, B>(xs: seq<A>, f: A -> Option<B>, idx: seq<nat>, r: seq<B>)
    requires xs != [] && f(xs[0]).None?
    requires IsSelection(xs[1..], f, idx, r)
    ensures IsSelection(xs, f, Shift(idx), r)
  {
    ShiftIncreasing(idx);
    ShiftAnswers(xs, f, idx, r);
    ShiftCovers(xs, f, idx);
  }

  /** Answers for the tail, shifted, with the head's answer in front, are answers for the whole list. */
  lemma KeepAnswers<A, B>(xs: seq<A>, f: A -> Option<B>, idx: seq<nat>, r: seq<B>)
    requires xs != [] && f(xs[0]).Some?
    requires Answers(xs, f, Shift(idx), r)
    ensures Answers(xs, f, [0] + Shift(idx), [f(xs[0]).value] + r)
  {
    var s := Shift(idx);
    var idx' := [0] + s;
    var r' := [f(xs[0]).value] + r;
    forall k | 1 <= k < |idx'|
      ensures idx'[k] < |xs| && f(xs[idx'[k]]) == Some(r'[k])
    {
      assert idx'[k] == s[k - 1] && r'[k] == r[k - 1];
    }
  }

  /** Covering the tail, shifted, with position 0 in front, covers the whole list. */
  lemma KeepCovers<A, B>(xs: seq<A>, f: A -> Option<B>, idx: seq<nat>)
    requires xs != [] && Covers(xs[1..], f, idx)
    ensures Covers(xs, f, [0] + Shift(idx))
  {
    var s := Shift(idx);
    ShiftCovers(xs, f, idx);
    forall i | 1 <= i < |xs| && f(xs[i]).Some?
      ensures i in [0] + s
    {
      assert i in s;
    }
  }

  /** A selection of the tail, shifted, with position 0 in front, is a selection of the whole list when the head is kept. */
  lemma SelectionKeep<A, B>(xs: seq<A>, f: A -> Option<B>, idx: seq<nat>, r: seq<B>)
    requires xs != [] && f(xs[0]).Some?
    requires IsSelection(xs[1..], f, idx, r)
    ensures IsSelection(xs, f, [0] + Shift(idx), [f(xs[0]).value] + r)
  {
    ShiftIncreasing(idx);
    ShiftAnswers(xs, f, idx, r);
    KeepAnswers(xs, f, idx, r);
    KeepCovers(xs, f, idx);
  }

  /** `FilterMap` keeps every `Some` answer, keeps nothing else, and keeps the input order. */
  lemma {:induction false} FilterMapIsSelection<A, B>(xs: seq<A>, f: A -> Option<B>)
    ensures exists idx :: IsSelection(xs, f, idx, FilterMap(xs, f))
  {
    if xs == [] {
      assert IsSelection(xs, f, [], FilterMap(xs, f));
    } else {
      FilterMapIsSelection(xs[1..], f);
      var idx :| IsSelection(xs[1..], f, idx, FilterMap(xs[1..], f));
      if f(xs[0]).Some? {
        SelectionKeep(xs, f, idx, FilterMap(xs[1..], f));
        assert IsSelection(xs, f, [0] + Shift(idx), FilterMap(xs, f));
      } else {
        SelectionSkip(xs, f, idx, FilterMap(xs[1..], f));
        assert IsSelection(xs, f, Shift(idx), FilterMap(xs, f));
      }
    }
  }

  /** Filtering a concatenation filters each part. */
  lemma {:induction false} FilterMapAppend<A, B>(xs: seq<A>, ys: seq<A>, f: A -> Option<B>)
    ensures FilterMap(xs + ys, f) == FilterMap(xs, f) + FilterMap(ys, f)
  {
    if xs == [] {
      assert xs + ys == ys;
    } else {
      assert (xs + ys)[0] == xs[0];
      assert (xs + ys)[1..] == xs[1..] + ys;
      FilterMapAppend(xs[1..], ys, f);
    }
  }

  /** Nothing is kept exactly when `f` answers `None` everywhere. */
  lemma {:induction false} FilterMapEmpty<A, B>(xs: seq<A>, f: A -> Option<B>)
    ensures FilterMap(xs, f) == [] <==> forall i :: 0 <= i < |xs| ==> f(xs[i]).None?
  {
    if xs != [] {
      FilterMapEmpty(xs[1..], f);
      assert forall i :: 1 <= i < |xs| ==> xs[1..][i - 1] == xs[i];
    }
  }

  /** When `f` hands every element back unchanged, filtering returns the list itself. */
  lemma {:induction false} FilterMapIdentity<A>(xs: seq<A>, f: A -> Option<A>)
    requires forall i :: 0 <= i < |xs| ==> f(xs[i]) == Some(xs[i])
    ensures FilterMap(xs, f) == xs
  {
    if xs != [] {
      assert forall i :: 1 <= i < |xs| ==> xs[1..][i - 1] == xs[i];
      FilterMapIdentity(xs[1..], f);
    }
  }
}
