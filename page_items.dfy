/**
 * The compact page list of the generic table (`buildPageItems`): page 1, the last
 * page, page 2, the page before the last, and a window of `delta` pages around the
 * current one, sorted, with an ellipsis wherever consecutive numbers are not adjacent.
 */
module PageItems {
  import opened Common

  datatype PageItem = Page(n: int) | Ellipsis

  predicate StrictlyIncreasing(s: seq<int>)
  {
    forall i, j :: 0 <= i < j < |s| ==> s[i] < s[j]
  }

  /** Membership in the `Set` the source collects when `totalPages > 1`: the first and
      last pages, the window of `delta` pages either side of the current one clipped to
      the valid range, page 2 and the page before the last. */
  predicate InPageSet(p: int, current: int, totalPages: int, delta: int)
  {
    || p == 1 || p == totalPages
    || (current - delta <= p <= current + delta && 1 <= p <= totalPages)
    || (totalPages >= 2 && p == 2)
    || (totalPages >= 3 && p == totalPages - 1)
  }

  /** The output loop: each number in order, preceded by an ellipsis when it is more than
      one past the number before it. */
  function Ellipsize(s: seq<int>): seq<PageItem>
  {
    if |s| == 0 then []
    else if |s| == 1 then [Page(s[0])]
    else Ellipsize(s[..|s| - 1]) + (if s[|s| - 1] - s[|s| - 2] > 1 then [Ellipsis] else []) + [Page(s[|s| - 1])]
  }

  /** The page numbers of a page list, in order. */
  function Numbers(t: seq<PageItem>): seq<int>
  {
    if t == [] then [] else Numbers(t[..|t| - 1]) + (if t[|t| - 1].Page? then [t[|t| - 1].n] else [])
  }

  /** Ellipses sit exactly in the gaps: never first, never last, never next to each
      other, always between two numbers more than one apart; two numbers side by side
      are at most one apart. */
  predicate WellSpaced(t: seq<PageItem>)
  {
    && (forall i :: 0 <= i < |t| && t[i].Ellipsis? ==>
          0 < i < |t| - 1 && t[i - 1].Page? && t[i + 1].Page? && t[i + 1].n - t[i - 1].n > 1)
    && (forall i :: 0 <= i < |t| - 1 && t[i].Page? && t[i + 1].Page? ==> t[i + 1].n - t[i].n <= 1)
  }

  lemma {:induction false} NumbersAppend(a: seq<PageItem>, b: seq<PageItem>)
    ensures Numbers(a + b) == Numbers(a) + Numbers(b)
    decreases |b|
  {
    if b == [] {
      assert a + b == a;
    } else {
      assert (a + b)[..|a + b| - 1] == a + b[..|b| - 1];
      NumbersAppend(a, b[..|b| - 1]);
    }
  }

  /** The ellipses carry no numbers: the numbers of the page list are the input. */
  lemma {:induction false} NumbersOfEllipsize(s: seq<int>)
    ensures Numbers(Ellipsize(s)) == s
    decreases |s|
  {
    if |s| == 1 {
      assert Numbers([Page(s[0])]) == Numbers([]) + [s[0]];
    } else if |s| > 1 {
      var init := s[..|s| - 1];
      var last := s[|s| - 1];
      var gap: seq<PageItem> := if last - s[|s| - 2] > 1 then [Ellipsis] else [];
      var front := Ellipsize(init) + gap;
      assert Ellipsize(s) == front + [Page(last)];
      assert Numbers(front + [Page(last)]) == Numbers(front) + [last] by {
        NumbersAppend(front, [Page(last)]);
        assert Numbers([Page(last)]) == Numbers([]) + [last];
      }
      assert Numbers(front) == init by {
        NumbersAppend(Ellipsize(init), gap);
        NumbersOfEllipsize(init);
        assert Numbers(gap) == [] by {
          if gap != [] {
            assert Numbers(gap) == Numbers([]) + [];
          }
        }
      }
      assert init + [last] == s;
    }
  }

  lemma {:induction false} EllipsizeEnds(s: seq<int>)
    requires |s| >= 1
    ensures |Ellipsize(s)| >= 1
    ensures Ellipsize(s)[0] == Page(s[0])
    ensures Ellipsize(s)[|Ellipsize(s)| - 1] == Page(s[|s| - 1])
    decreases |s|
  {
    if |s| > 1 {
      EllipsizeEnds(s[..|s| - 1]);
    }
  }

  lemma {:induction false} EllipsizeWellSpaced(s: seq<int>)
    ensures WellSpaced(Ellipsize(s))
    decreases |s|
  {
    if |s| > 1 {
      var init := s[..|s| - 1];
      EllipsizeWellSpaced(init);
      EllipsizeEnds(init);
      ExtendWellSpaced(Ellipsize(init), s[|s| - 2], s[|s| - 1]);
    }
  }

  /** One step of the output loop keeps the list well spaced: the next number goes at
      the end, after an ellipsis exactly when it is more than one past the last. */
  lemma ExtendWellSpaced(a: seq<PageItem>, prev: int, last: int)
    requires WellSpaced(a) && |a| >= 1 && a[|a| - 1] == Page(prev)
    ensures WellSpaced(a + (if last - prev > 1 then [Ellipsis] else []) + [Page(last)])
  {
    var gap: seq<PageItem> := if last - prev > 1 then [Ellipsis] else [];
    var t := a + gap + [Page(last)];
    assert forall j :: 0 <= j < |a| ==> t[j] == a[j];
    assert t[|t| - 1] == Page(last);
    forall i | 0 <= i < |t| && t[i].Ellipsis?
      ensures 0 < i < |t| - 1 && t[i - 1].Page? && t[i + 1].Page? && t[i + 1].n - t[i - 1].n > 1
    {
      if i < |a| {
        assert t[i - 1] == a[i - 1] && t[i + 1] == a[i + 1];
      } else {
        assert i == |a| && gap == [Ellipsis];
      }
    }
    forall i | 0 <= i < |t| - 1 && t[i].Page? && t[i + 1].Page?
      ensures t[i + 1].n - t[i].n <= 1
    {
      if i < |a| - 1 {
        assert t[i + 1] == a[i + 1];
      }
    }
  }

  /** Two strictly increasing sequences with the same elements are equal, so a sorted
      list is fully determined by the set it enumerates. */
  lemma {:induction false} SortedIsUnique(a: seq<int>, b: seq<int>)
    requires StrictlyIncreasing(a) && StrictlyIncreasing(b)
    requires forall x :: x in a <==> x in b
    ensures a == b
    decreases |a|
  {
    if a != [] {
      assert a[0] in a;
      assert a[0] in b;
    }
    if b != [] {
      assert b[0] in b;
      assert b[0] in a;
    }
    if a != [] && b != [] {
      assert a[0] == b[0] by {
        var j :| 0 <= j < |b| && b[j] == a[0];
        var k :| 0 <= k < |a| && a[k] == b[0];
        assert b[0] <= b[j];
        assert a[0] <= a[k];
      }
      forall x ensures x in a[1..] <==> x in b[1..] {
        if x in a[1..] {
          assert x in b && x != b[0];
        }
        if x in b[1..] {
          assert x in a && x != a[0];
        }
      }
      SortedIsUnique(a[1..], b[1..]);
      assert a == [a[0]] + a[1..] && b == [b[0]] + b[1..];
    }
  }

  // ---------------------------------------------------------------------------
  // The imperative algorithm

  /** Some element of a non-empty set. */
  method Pick<T>(s: set<T>) returns (x: T)
    requires s != {}
    ensures x in s
  {
    x :| x in s;
  }

  /** The smallest element of a non-empty set. */
  method Least(s: set<int>) returns (m: int)
    requires s != {}
    ensures m in s && forall x :: x in s ==> m <= x
  {
    m := Pick(s);
    var others := s - {m};
    while others != {}
      invariant m in s && others <= s
      invariant forall x :: x in s && x !in others ==> m <= x
      decreases |others|
    {
      var y := Pick(others);
      if y < m {
        m := y;
      }
      others := others - {y};
    }
  }

  /** `Array.from(set).sort((a, b) => a - b)`: the elements of the set in ascending order. */
  method SortedElements(s: set<int>) returns (r: seq<int>)
    ensures StrictlyIncreasing(r)
    ensures forall x :: x in r <==> x in s
  {
    r := [];
    var rest := s;
    while rest != {}
      invariant StrictlyIncreasing(r)
      invariant forall x :: x in s <==> x in r || x in rest
      invariant forall x, y :: x in r && y in rest ==> x < y
      decreases |rest|
    {
      var m := Least(rest);
      assert forall i :: 0 <= i < |r| ==> r[i] < m by {
        forall i | 0 <= i < |r| ensures r[i] < m {
          assert r[i] in r;
        }
      }
      r := r + [m];
      rest := rest - {m};
    }
  }

  /** `buildPageItems(current, totalPages, delta)`. */
  method BuildPageItems(current: int, totalPages: int, delta: int) returns (items: seq<PageItem>)
    ensures totalPages <= 1 ==> items == [Page(1)]
    ensures totalPages > 1 ==>
              && StrictlyIncreasing(Numbers(items))
              && (forall p :: p in Numbers(items) <==> InPageSet(p, current, totalPages, delta))
              && items == Ellipsize(Numbers(items))
  {
    if totalPages <= 1 {
      return [Page(1)];
    }
    var pages := {1, totalPages};
    var i := current - delta;
    while i <= current + delta
      invariant current - delta <= i
      invariant i <= current + delta + 1 || i == current - delta
      invariant forall p :: p in pages <==> p == 1 || p == totalPages || (current - delta <= p < i && 1 <= p <= totalPages)
    {
      if i >= 1 && i <= totalPages {
        pages := pages + {i};
      }
      i := i + 1;
    }
    if totalPages >= 2 {
      pages := pages + {2};
    }
    if totalPages >= 3 {
      pages := pages + {totalPages - 1};
    }
    assert forall p :: p in pages <==> InPageSet(p, current, totalPages, delta);
    var sorted := SortedElements(pages);
    items := [];
    var k := 0;
    while k < |sorted|
      invariant 0 <= k <= |sorted|
      invariant items == Ellipsize(sorted[..k])
    {
      assert sorted[..k + 1][..k] == sorted[..k];
      if k > 0 && sorted[k] - sorted[k - 1] > 1 {
        items := items + [Ellipsis];
      }
      items := items + [Page(sorted[k])];
      k := k + 1;
    }
    assert sorted[..k] == sorted;
    NumbersOfEllipsize(sorted);
  }

  /** What a page list built for more than one page looks like: it starts at page 1,
      ends at the last page, every number is a valid page, and its ellipses mark exactly
      the gaps. */
  lemma PageListShape(current: int, totalPages: int, delta: int, s: seq<int>)
    requires totalPages > 1
    requires StrictlyIncreasing(s)
    requires forall p :: p in s <==> InPageSet(p, current, totalPages, delta)
    ensures var t := Ellipsize(s);
      && |t| >= 2 && t[0] == Page(1) && t[|t| - 1] == Page(totalPages)
      && (forall i :: 0 <= i < |t| && t[i].Page? ==> 1 <= t[i].n <= totalPages)
      && WellSpaced(t)
  {
    var t := Ellipsize(s);
    assert s[0] == 1 by {
      assert InPageSet(1, current, totalPages, delta);
      var j :| 0 <= j < |s| && s[j] == 1;
      assert s[0] <= s[j];
      assert InPageSet(s[0], current, totalPages, delta);
    }
    assert s[|s| - 1] == totalPages by {
      assert InPageSet(totalPages, current, totalPages, delta);
      var j :| 0 <= j < |s| && s[j] == totalPages;
      assert s[j] <= s[|s| - 1];
      assert InPageSet(s[|s| - 1], current, totalPages, delta);
    }
    assert |t| >= 1 && t[0] == Page(1) && t[|t| - 1] == Page(totalPages) by {
      EllipsizeEnds(s);
    }
    assert WellSpaced(t) by {
      EllipsizeWellSpaced(s);
    }
    forall i | 0 <= i < |t| && t[i].Page? ensures 1 <= t[i].n <= totalPages {
      assert t[i].n in s by {
        PageInNumbers(t, i);
        NumbersOfEllipsize(s);
      }
      assert InPageSet(t[i].n, current, totalPages, delta);
    }
  }

  lemma {:induction false} PageInNumbers(t: seq<PageItem>, i: nat)
    requires i < |t| && t[i].Page?
    ensures t[i].n in Numbers(t)
    decreases |t|
  {
    if i < |t| - 1 {
      PageInNumbers(t[..|t| - 1], i);
    }
  }
}
