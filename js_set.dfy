/** A JavaScript `Set<string>` as the selection uses it. Such a set remembers
    the order in which its elements were inserted, and `Array.from` lists them
    in that order, so it is modelled as a sequence without repeats. */
module JsSet {

  predicate NoDups(s: seq<string>) {
    forall i, j :: 0 <= i < j < |s| ==> s[i] != s[j]
  }

  /** The set the sequence stands for, without its order. */
  function Elems(s: seq<string>): (e: set<string>) {
    set x | x in s
  }

  /** `set.delete(x)`: the other elements stay, in their order. */
  function Delete(s: seq<string>, x: string): (r: seq<string>)
    ensures forall y :: y in r <==> y in s && y != x
    ensures NoDups(s) ==> NoDups(r)
    ensures |r| <= |s|
    ensures x !in s ==> r == s
    ensures NoDups(s) ==> forall k :: 0 <= k < |s| && s[k] == x ==> r == s[..k] + s[k + 1..]
  {
    if s == [] then []
    else
      var tail := Delete(s[1..], x);
      if s[0] == x then
        DeleteHead(s, x, tail);
        tail
      else
        DeleteKeepsHead(s, x, tail);
        [s[0]] + tail
  }

  /** The step of `Delete` that drops the head. */
  lemma DeleteHead(s: seq<string>, x: string, tail: seq<string>)
    requires s != [] && s[0] == x
    requires forall y :: y in tail <==> y in s[1..] && y != x
    requires NoDups(s[1..]) ==> NoDups(tail)
    requires |tail| <= |s[1..]|
    requires x !in s[1..] ==> tail == s[1..]
    ensures NoDups(s) ==> NoDups(tail)
    ensures NoDups(s) ==> forall k :: 0 <= k < |s| && s[k] == x ==> tail == s[..k] + s[k + 1..]
  {
    if NoDups(s) {
      assert s[0] !in s[1..];
      assert forall k :: 0 <= k < |s| && s[k] == x ==> k == 0;
    }
  }

  /** The step of `Delete` that keeps the head. */
  lemma DeleteKeepsHead(s: seq<string>, x: string, tail: seq<string>)
    requires s != [] && s[0] != x
    requires forall y :: y in tail <==> y in s[1..] && y != x
    requires NoDups(s[1..]) ==> NoDups(tail)
    requires |tail| <= |s[1..]|
    requires x !in s[1..] ==> tail == s[1..]
    requires NoDups(s[1..]) ==> forall k :: 0 <= k < |s[1..]| && s[1..][k] == x ==> tail == s[1..][..k] + s[1..][k + 1..]
    ensures forall y :: y in [s[0]] + tail <==> y in s && y != x
    ensures NoDups(s) ==> NoDups([s[0]] + tail)
    ensures x !in s ==> [s[0]] + tail == s
    ensures NoDups(s) ==> forall k :: 0 <= k < |s| && s[k] == x ==> [s[0]] + tail == s[..k] + s[k + 1..]
  {
    assert s == [s[0]] + s[1..];
    if NoDups(s) {
      assert NoDups(s[1..]);
      assert s[0] !in tail;
      forall k | 0 <= k < |s| && s[k] == x
        ensures [s[0]] + tail == s[..k] + s[k + 1..]
      {
        assert s[1..][k - 1] == x;
        ConsWithout(s, k, tail);
      }
    }
  }

  lemma ConsWithout(s: seq<string>, k: nat, tail: seq<string>)
    requires 1 <= k < |s| && tail == s[1..][..k - 1] + s[1..][k..]
    ensures [s[0]] + tail == s[..k] + s[k + 1..]
  {
    assert s[1..][..k - 1] == s[1..k] && s[1..][k..] == s[k + 1..];
    assert s[..k] == [s[0]] + s[1..k];
  }

  /** `set.add(x)`: `x` goes last, unless it is already there. */
  function Add(s: seq<string>, x: string): (r: seq<string>)
    ensures forall y :: y in r <==> y in s || y == x
    ensures NoDups(s) ==> NoDups(r)
    ensures x in s ==> r == s
    ensures x !in s ==> r == s + [x]
  {
    if x in s then s else s + [x]
  }

  /** The selection after a row is toggled: `x` drops out if it was in,
      and joins at the end otherwise. */
  function Toggled(s: seq<string>, x: string): (r: seq<string>)
    ensures x in r <==> x !in s
    ensures forall y :: y != x ==> (y in r <==> y in s)
    ensures NoDups(s) ==> NoDups(r)
  {
    if x in s then Delete(s, x) else Add(s, x)
  }

  /** `new Set(xs)`: the distinct elements of `xs`, in order of first occurrence. */
  function FromSeq(xs: seq<string>): (r: seq<string>)
    ensures NoDups(r)
    ensures forall y :: y in r <==> y in xs
    ensures |r| <= |xs|
  {
    if xs == [] then [] else Add(FromSeq(xs[..|xs| - 1]), xs[|xs| - 1])
  }

  /** Deleting the element that was just appended gives back the sequence. */
  lemma {:induction false} DeleteAppended(s: seq<string>, x: string)
    requires x !in s
    ensures Delete(s + [x], x) == s
  {
    if s != [] {
      assert (s + [x])[1..] == s[1..] + [x];
      DeleteAppended(s[1..], x);
    }
  }

  /** Toggling the same id twice gives back the same set. When the id was not
      selected, it even gives back the same order; when it was, the id moves
      to the end. */
  lemma {:induction false} ToggleTwice(s: seq<string>, x: string)
    requires NoDups(s)
    ensures Elems(Toggled(Toggled(s, x), x)) == Elems(s)
    ensures x !in s ==> Toggled(Toggled(s, x), x) == s
    ensures x in s ==> Toggled(Toggled(s, x), x) == Delete(s, x) + [x]
  {
    if x !in s {
      DeleteAppended(s, x);
    }
  }

  /** A sequence without repeats becomes a set without losing or moving anything. */
  lemma {:induction false} FromSeqOfDistinct(xs: seq<string>)
    requires NoDups(xs)
    ensures FromSeq(xs) == xs
  {
    if xs != [] {
      var init := xs[..|xs| - 1];
      assert NoDups(init);
      FromSeqOfDistinct(init);
      assert xs[|xs| - 1] !in init;
      assert init + [xs[|xs| - 1]] == xs;
    }
  }

  /** A set built from `xs` has as many elements as `xs` exactly when `xs`
      has no repeats. */
  lemma {:induction false} FromSeqLength(xs: seq<string>)
    ensures |FromSeq(xs)| == |xs| <==> NoDups(xs)
  {
    if NoDups(xs) {
      FromSeqOfDistinct(xs);
    } else {
      FromSeqShorter(xs);
    }
  }

  lemma {:induction false} FromSeqShorter(xs: seq<string>)
    requires !NoDups(xs)
    ensures |FromSeq(xs)| < |xs|
  {
    var init := xs[..|xs| - 1];
    var last := xs[|xs| - 1];
    if !NoDups(init) {
      FromSeqShorter(init);
    } else {
      var i, j :| 0 <= i < j < |xs| && xs[i] == xs[j];
      assert j == |xs| - 1;
      assert init[i] == last;
      FromSeqOfDistinct(init);
    }
  }
}
