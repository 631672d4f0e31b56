/** Order-preserving sequence filters shared by the model. */
module Seqs {
  import opened Wrappers

  ghost predicate NoDuplicates<T>(s: seq<T>) {
    forall i, j :: 0 <= i < j < |s| ==> s[i] != s[j]
  }

  /** The elements of `s` that satisfy `p`, in their original order
      (JavaScript's `Array.prototype.filter`). */
  function Filter<T(!new)>(p: T -> bool, s: seq<T>): (r: seq<T>)
    ensures |r| <= |s|
    ensures forall x :: x in r <==> x in s && p(x)
  {
    if s == [] then []
    else
      assert s == s[..|s| - 1] + [s[|s| - 1]];
      Filter(p, s[..|s| - 1]) + (if p(s[|s| - 1]) then [s[|s| - 1]] else [])
  }

  /** The values of the `Some` entries of `s`, in index order; the `None`
      entries are dropped. */
  function Compact<T(!new)>(s: seq<Option<T>>): (r: seq<T>)
    ensures |r| <= |s|
    ensures forall x :: x in r <==> Some(x) in s
  {
    if s == [] then []
    else
      assert s == s[..|s| - 1] + [s[|s| - 1]];
      Compact(s[..|s| - 1]) + (if s[|s| - 1].Some? then [s[|s| - 1].value] else [])
  }

  /** The indices of the `Some` entries of `s`, ascending. */
  function SomeIndices<T>(s: seq<Option<T>>): seq<nat> {
    if s == [] then []
    else SomeIndices(s[..|s| - 1]) + (if s[|s| - 1].Some? then [|s| - 1] else [])
  }

  /** Filtering a concatenation filters each part. */
  lemma {:induction false} FilterAppend<T(!new)>(p: T -> bool, a: seq<T>, b: seq<T>)
    ensures Filter(p, a + b) == Filter(p, a) + Filter(p, b)
  {
    if b == [] {
      assert a + b == a;
    } else {
      var b' := b[..|b| - 1];
      assert (a + b)[..|a + b| - 1] == a + b';
      FilterAppend(p, a, b');
    }
  }

  /** A filter keeps everything when every element passes. */
  lemma {:induction false} FilterAll<T(!new)>(p: T -> bool, s: seq<T>)
    requires forall i :: 0 <= i < |s| ==> p(s[i])
    ensures Filter(p, s) == s
  {
    if s != [] {
      var init, last := s[..|s| - 1], s[|s| - 1];
      assert s == init + [last];
      assert p(last);
      assert Filter(p, s) == Filter(p, init) + [last];
      assert forall i :: 0 <= i < |init| ==> init[i] == s[i];
      FilterAll(p, init);
    }
  }

  /** A filter keeps nothing when no element passes. */
  lemma FilterNone<T(!new)>(p: T -> bool, s: seq<T>)
    requires forall i :: 0 <= i < |s| ==> !p(s[i])
    ensures Filter(p, s) == []
  {
  }

  /** `SomeIndices(s)` lists, ascending, every index of a `Some` entry and no
      other index. */
  lemma {:induction false} SomeIndicesExact<T>(s: seq<Option<T>>)
    ensures forall k :: 0 <= k < |SomeIndices(s)| ==> SomeIndices(s)[k] < |s| && s[SomeIndices(s)[k]].Some?
    ensures forall a, b :: 0 <= a < b < |SomeIndices(s)| ==> SomeIndices(s)[a] < SomeIndices(s)[b]
    ensures forall i :: 0 <= i < |s| && s[i].Some? ==> i in SomeIndices(s)
  {
    if s != [] {
      var init := s[..|s| - 1];
      SomeIndicesExact(init);
      var idx0, idx := SomeIndices(init), SomeIndices(s);
      assert idx == idx0 + (if s[|s| - 1].Some? then [|s| - 1] else []);
      forall k | 0 <= k < |idx| ensures idx[k] < |s| && s[idx[k]].Some? {
        if k < |idx0| {
          assert idx[k] == idx0[k];
          assert init[idx0[k]] == s[idx0[k]];
        }
      }
      forall a, b | 0 <= a < b < |idx| ensures idx[a] < idx[b] {
        if b < |idx0| {
          assert idx[a] == idx0[a] && idx[b] == idx0[b];
        } else {
          assert idx[a] == idx0[a] < |init|;
        }
      }
      forall i | 0 <= i < |s| && s[i].Some? ensures i in idx {
        if i < |s| - 1 {
          assert init[i] == s[i];
          assert i in idx0;
        }
      }
    }
  }

  /** `Compact(s)` lists, one entry per `Some`, exactly the values at the
      `Some` indices of `s`, in ascending index order. */
  lemma {:induction false} CompactByIndex<T(!new)>(s: seq<Option<T>>)
    ensures |SomeIndices(s)| == |Compact(s)|
    ensures forall k :: 0 <= k < |SomeIndices(s)| ==>
      SomeIndices(s)[k] < |s| && s[SomeIndices(s)[k]] == Some(Compact(s)[k])
    ensures forall a, b :: 0 <= a < b < |SomeIndices(s)| ==> SomeIndices(s)[a] < SomeIndices(s)[b]
    ensures forall i :: 0 <= i < |s| && s[i].Some? ==> i in SomeIndices(s)
  {
    SomeIndicesExact(s);
    if s != [] {
      var init := s[..|s| - 1];
      CompactByIndex(init);
      var idx0, r0 := SomeIndices(init), Compact(init);
      var idx, r := SomeIndices(s), Compact(s);
      assert idx == idx0 + (if s[|s| - 1].Some? then [|s| - 1] else []);
      assert r == r0 + (if s[|s| - 1].Some? then [s[|s| - 1].value] else []);
      forall k | 0 <= k < |idx| ensures s[idx[k]] == Some(r[k]) {
        if k < |idx0| {
          assert idx[k] == idx0[k] && r[k] == r0[k];
          assert init[idx0[k]] == s[idx0[k]];
        }
      }
    }
  }

  lemma {:induction false} CompactAppend<T(!new)>(a: seq<Option<T>>, b: seq<Option<T>>)
    ensures Compact(a + b) == Compact(a) + Compact(b)
  {
    if b == [] {
      assert a + b == a;
    } else {
      var b' := b[..|b| - 1];
      var last := b[|b| - 1];
      var tail := if last.Some? then [last.value] else [];
      assert (a + b)[..|a + b| - 1] == a + b';
      assert (a + b)[|a + b| - 1] == last;
      assert Compact(a + b) == Compact(a + b') + tail;
      CompactAppend(a, b');
      assert Compact(b) == Compact(b') + tail;
    }
  }

  /** Compacting a sequence whose `Some` values are pairwise distinct keeps
      them distinct. */
  lemma CompactNoDuplicates<T(!new)>(s: seq<Option<T>>)
    requires forall i, j :: 0 <= i < j < |s| && s[i].Some? && s[j].Some? ==> s[i] != s[j]
    ensures NoDuplicates(Compact(s))
  {
    CompactByIndex(s);
    var idx, r := SomeIndices(s), Compact(s);
    forall a, b | 0 <= a < b < |r| ensures r[a] != r[b] {
      assert idx[a] < idx[b];
      assert s[idx[a]] == Some(r[a]) && s[idx[b]] == Some(r[b]);
    }
  }

  /** With no `None` entry, compaction keeps every entry. */
  lemma {:induction false} CompactAllSome<T(!new)>(s: seq<Option<T>>)
    requires forall i :: 0 <= i < |s| ==> s[i].Some?
    ensures |Compact(s)| == |s|
  {
    if s != [] {
      CompactAllSome(s[..|s| - 1]);
    }
  }

  lemma {:induction false} CompactOfSomes<T(!new)>(s: seq<T>)
    ensures Compact(seq(|s|, i requires 0 <= i < |s| => Some(s[i]))) == s
  {
    if s != [] {
      var init := s[..|s| - 1];
      CompactOfSomes(init);
      assert seq(|s|, i requires 0 <= i < |s| => Some(s[i]))[..|s| - 1]
        == seq(|init|, i requires 0 <= i < |init| => Some(init[i]));
    }
  }

  lemma PrefixSnoc<T>(s: seq<T>, i: nat)
    requires i < |s|
    ensures s[..i + 1] == s[..i] + [s[i]]
  {
  }
}
