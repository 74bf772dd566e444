/** Order-preserving, duplicate-free lists: the shape of each of the three
    lists a file collection keeps. A list is a plain sequence; "duplicate-free"
    is the predicate NoDup, and the operations below are the only ways the
    collection changes a list besides emptying it. */
module UniqueList {

  /** No value occurs twice. */
  predicate NoDup<T(==)>(s: seq<T>) {
    forall i, j :: 0 <= i < j < |s| ==> s[i] != s[j]
  }

  /** The position of the first occurrence of y in t. */
  function FirstPos<T(==)>(t: seq<T>, y: T): (k: nat)
    requires y in t
    ensures k < |t| && t[k] == y
    ensures forall m :: 0 <= m < k ==> t[m] != y
  {
    if t[0] == y then 0 else 1 + FirstPos(t[1..], y)
  }

  /** Append x unless it is already present (the `in_array` test followed by
      `$list[] = $x`). */
  function AddUnique<T(==)>(s: seq<T>, x: T): (r: seq<T>)
    ensures x in r && (forall y :: y in s ==> y in r)
    ensures forall y :: y in r ==> y in s || y == x
    ensures |s| <= |r| <= |s| + 1 && r[..|s|] == s
    ensures |r| == |s| <==> x in s
    ensures NoDup(s) ==> NoDup(r)
  {
    if x in s then s else s + [x]
  }

  /** AddUnique applied to the elements of xs, left to right. */
  function AddAll<T(==)>(s: seq<T>, xs: seq<T>): (r: seq<T>)
    ensures |s| <= |r| <= |s| + |xs|
    decreases |xs|
  {
    if xs == [] then s else AddAll(AddUnique(s, xs[0]), xs[1..])
  }

  /** Keep the elements of s that do not occur in rs, in their order
      (`array_diff` followed by `array_values`). */
  function Without<T(==)>(s: seq<T>, rs: seq<T>): (r: seq<T>)
    ensures forall y :: y in r ==> y in s && y !in rs
    ensures forall y :: y in s && y !in rs ==> y in r
    ensures |r| <= |s|
  {
    if s == [] then []
    else (if s[0] in rs then [] else [s[0]]) + Without(s[1..], rs)
  }

  // ---------------------------------------------------------------------
  // AddAll

  /** Earlier entries keep their positions: the old list is a prefix. */
  lemma {:induction false} AddAllPrefix<T>(s: seq<T>, xs: seq<T>)
    ensures |s| <= |AddAll(s, xs)| && AddAll(s, xs)[..|s|] == s
    decreases |xs|
  {
    if xs != [] {
      var s' := AddUnique(s, xs[0]);
      AddAllPrefix(s', xs[1..]);
      assert AddAll(s, xs)[..|s|] == AddAll(s', xs[1..])[..|s'|][..|s|];
    }
  }

  /** The result holds exactly the old entries and the added ones. */
  lemma {:induction false} AddAllMembers<T>(s: seq<T>, xs: seq<T>)
    ensures forall y :: y in AddAll(s, xs) <==> y in s || y in xs
    decreases |xs|
  {
    if xs != [] {
      AddAllMembers(AddUnique(s, xs[0]), xs[1..]);
      assert forall y :: y in xs <==> y == xs[0] || y in xs[1..];
    }
  }

  /** No duplicates are ever introduced. */
  lemma {:induction false} AddAllNoDup<T>(s: seq<T>, xs: seq<T>)
    requires NoDup(s)
    ensures NoDup(AddAll(s, xs))
    decreases |xs|
  {
    if xs != [] {
      AddAllNoDup(AddUnique(s, xs[0]), xs[1..]);
    }
  }

  /** Adding one more element at the end of the batch is one more AddUnique. */
  lemma {:induction false} AddAllSnoc<T>(s: seq<T>, xs: seq<T>, x: T)
    ensures AddAll(s, xs + [x]) == AddUnique(AddAll(s, xs), x)
    decreases |xs|
  {
    if xs == [] {
      assert xs + [x] == [x];
      assert [x][1..] == [];
    } else {
      assert (xs + [x])[0] == xs[0];
      assert (xs + [x])[1..] == xs[1..] + [x];
      AddAllSnoc(AddUnique(s, xs[0]), xs[1..], x);
    }
  }

  /** The values of r occur in t, and r lists them in the order of their
      first occurrence in t. */
  ghost predicate InFirstOccurrenceOrder<T>(r: seq<T>, t: seq<T>) {
    && (forall i :: 0 <= i < |r| ==> r[i] in t)
    && (forall i, j :: 0 <= i < j < |r| ==> FirstPos(t, r[i]) < FirstPos(t, r[j]))
  }

  /** Insertion order: starting from a duplicate-free list, AddAll lists every
      distinct value of s + xs, in the order of its first occurrence in s + xs. */
  lemma {:induction false} AddAllFirstOccurrenceOrder<T>(s: seq<T>, xs: seq<T>)
    requires NoDup(s)
    ensures InFirstOccurrenceOrder(AddAll(s, xs), s + xs)
    decreases |xs|
  {
    if xs == [] {
      assert s + xs == s;
      forall i, j | 0 <= i < j < |s| ensures FirstPos(s, s[i]) < FirstPos(s, s[j]) {
        FirstPosNoDup(s, i);
        FirstPosNoDup(s, j);
      }
    } else {
      var ys, x := xs[..|xs| - 1], xs[|xs| - 1];
      assert xs == ys + [x];
      assert s + xs == (s + ys) + [x];
      AddAllFirstOccurrenceOrder(s, ys);
      AddAllSnoc(s, ys, x);
      AddAllMembers(s, ys);
      AddAllNoDup(s, ys);
      OrderAppend(AddAll(s, ys), s + ys, x);
    }
  }

  /** One step of the above: appending x to the list and to the history. */
  lemma OrderAppend<T>(q: seq<T>, t: seq<T>, x: T)
    requires NoDup(q) && InFirstOccurrenceOrder(q, t)
    requires forall y :: y in t ==> y in q
    ensures InFirstOccurrenceOrder(AddUnique(q, x), t + [x])
  {
    var r := AddUnique(q, x);
    forall y | y in t ensures FirstPos(t + [x], y) == FirstPos(t, y) {
      FirstPosAppend(t, x, y);
    }
    forall i | 0 <= i < |r| ensures r[i] in t + [x] {
      if i < |q| { assert r[i] == q[i]; }
    }
    if x !in q {
      assert x !in t;
      FirstPosAppendNew(t, x);
      forall i, j | 0 <= i < j < |r| ensures FirstPos(t + [x], r[i]) < FirstPos(t + [x], r[j]) {
        assert r[i] == q[i];
        if j < |q| {
          assert r[j] == q[j];
        } else {
          assert r[j] == x;
        }
      }
    }
  }

  /** Adding a batch whose values are all present changes nothing. */
  lemma {:induction false} AddAllPresent<T>(s: seq<T>, xs: seq<T>)
    requires forall y :: y in xs ==> y in s
    ensures AddAll(s, xs) == s
    decreases |xs|
  {
    if xs != [] {
      assert xs[0] in xs;
      assert forall y :: y in xs[1..] ==> y in xs;
      AddAllPresent(s, xs[1..]);
    }
  }

  /** Adding the same batch a second time changes nothing. */
  lemma AddAllIdempotent<T>(s: seq<T>, xs: seq<T>)
    ensures AddAll(AddAll(s, xs), xs) == AddAll(s, xs)
  {
    AddAllMembers(s, xs);
    AddAllPresent(AddAll(s, xs), xs);
  }

  // ---------------------------------------------------------------------
  // Without

  /** Removal introduces no duplicates. */
  lemma {:induction false} WithoutNoDup<T>(s: seq<T>, rs: seq<T>)
    requires NoDup(s)
    ensures NoDup(Without(s, rs))
    decreases |s|
  {
    if s != [] {
      assert NoDup(s[1..]) by {
        forall i, j | 0 <= i < j < |s[1..]| ensures s[1..][i] != s[1..][j] {
          assert s[1..][i] == s[i + 1] && s[1..][j] == s[j + 1];
        }
      }
      WithoutNoDup(s[1..], rs);
      assert s[0] !in s[1..];
    }
  }

  /** The survivors keep their relative order. */
  lemma {:induction false} WithoutKeepsOrder<T>(s: seq<T>, rs: seq<T>)
    requires NoDup(s)
    ensures forall i, j :: 0 <= i < j < |Without(s, rs)| ==>
              FirstPos(s, Without(s, rs)[i]) < FirstPos(s, Without(s, rs)[j])
    decreases |s|
  {
    if s != [] {
      var tail := s[1..];
      assert NoDup(tail) by {
        forall i, j | 0 <= i < j < |tail| ensures tail[i] != tail[j] {
          assert tail[i] == s[i + 1] && tail[j] == s[j + 1];
        }
      }
      WithoutKeepsOrder(tail, rs);
      var w := Without(tail, rs);
      var r := Without(s, rs);
      forall y | y in tail ensures FirstPos(s, y) == 1 + FirstPos(tail, y) {
        assert s[0] != y by { assert s[0] !in tail; }
      }
      forall i, j | 0 <= i < j < |r| ensures FirstPos(s, r[i]) < FirstPos(s, r[j]) {
        if s[0] in rs {
          assert r == w;
        } else {
          assert r == [s[0]] + w;
          if i == 0 {
            assert r[j] == w[j - 1] && r[j] in tail;
          } else {
            assert r[i] == w[i - 1] && r[j] == w[j - 1];
          }
        }
      }
    }
  }

  /** Removing values that are not present changes nothing. */
  lemma {:induction false} WithoutAbsent<T>(s: seq<T>, rs: seq<T>)
    requires forall y :: y in rs ==> y !in s
    ensures Without(s, rs) == s
    decreases |s|
  {
    if s != [] {
      assert s[0] in s;
      assert forall y :: y in s[1..] ==> y in s;
      WithoutAbsent(s[1..], rs);
      assert [s[0]] + s[1..] == s;
    }
  }

  // ---------------------------------------------------------------------
  // FirstPos helpers

  lemma FirstPosNoDup<T>(s: seq<T>, i: nat)
    requires NoDup(s) && i < |s|
    ensures FirstPos(s, s[i]) == i
  {
  }

  lemma FirstPosAppend<T>(t: seq<T>, x: T, y: T)
    requires y in t
    ensures FirstPos(t + [x], y) == FirstPos(t, y)
  {
    var k, k' := FirstPos(t, y), FirstPos(t + [x], y);
    assert (t + [x])[k] == y;
    assert k' <= k;
    assert t[k'] == (t + [x])[k'];
  }

  lemma FirstPosAppendNew<T>(t: seq<T>, x: T)
    requires x !in t
    ensures FirstPos(t + [x], x) == |t|
  {
  }
}
