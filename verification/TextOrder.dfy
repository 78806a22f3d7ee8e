/** Python's order of texts and `sorted` on a list of them. */
module TextOrder {

  /** Character by character, by code point; a prefix comes first. */
  predicate Precedes(a: string, b: string) {
    a == [] || (b != [] && (a[0] < b[0] || (a[0] == b[0] && Precedes(a[1..], b[1..]))))
  }

  /** One text precedes another when it is smaller at the first difference, or is a beginning of it. */
  lemma {:induction false} PrecedesExactly(a: string, b: string)
    ensures Precedes(a, b) <==>
            exists k :: 0 <= k <= |a| && k <= |b| && a[..k] == b[..k] && (k == |a| || (k < |b| && a[k] < b[k]))
  {
    if a == [] {
      assert a[..0] == b[..0];
    } else if b != [] && a[0] == b[0] {
      PrecedesExactly(a[1..], b[1..]);
      if k :| 0 <= k < |a| && k < |b| && a[1..][..k] == b[1..][..k] && (k == |a| - 1 || (k < |b| - 1 && a[1..][k] < b[1..][k])) {
        assert a[..k + 1] == [a[0]] + a[1..][..k] && b[..k + 1] == [b[0]] + b[1..][..k];
      }
      if k :| 0 <= k <= |a| && k <= |b| && a[..k] == b[..k] && (k == |a| || (k < |b| && a[k] < b[k])) {
        assert k > 0;
        assert a[1..][..k - 1] == a[..k][1..] && b[1..][..k - 1] == b[..k][1..];
      }
    } else if b != [] {
      assert a[..0] == b[..0];
      if k :| 0 <= k <= |a| && k <= |b| && a[..k] == b[..k] && (k == |a| || (k < |b| && a[k] < b[k])) {
        if k > 0 {
          assert a[..k][0] == b[..k][0];
        }
      }
    }
  }

  lemma {:induction false} PrecedesIsTotal(a: string, b: string)
    ensures Precedes(a, b) || Precedes(b, a)
    ensures Precedes(a, b) && Precedes(b, a) ==> a == b
  {
    if a != [] && b != [] && a[0] == b[0] {
      PrecedesIsTotal(a[1..], b[1..]);
      assert a == [a[0]] + a[1..] && b == [b[0]] + b[1..];
    }
  }

  lemma {:induction false} PrecedesIsTransitive(a: string, b: string, c: string)
    requires Precedes(a, b) && Precedes(b, c)
    ensures Precedes(a, c)
  {
    if a != [] && a[0] == b[0] && b[0] == c[0] {
      PrecedesIsTransitive(a[1..], b[1..], c[1..]);
    }
  }

  function Insert(s: seq<string>, x: string): seq<string> {
    if s == [] || Precedes(s[|s| - 1], x) then s + [x]
    else Insert(s[..|s| - 1], x) + [s[|s| - 1]]
  }

  function Sorted(texts: seq<string>): seq<string> {
    if texts == [] then [] else Insert(Sorted(texts[..|texts| - 1]), texts[|texts| - 1])
  }

  predicate IsOrdered(s: seq<string>) {
    forall i :: 0 < i < |s| ==> Precedes(s[i - 1], s[i])
  }

  lemma {:induction false} OrderedThroughout(s: seq<string>, i: nat, j: nat)
    requires IsOrdered(s) && i < j < |s|
    ensures Precedes(s[i], s[j])
    decreases j
  {
    if i + 1 < j {
      OrderedThroughout(s, i, j - 1);
      PrecedesIsTransitive(s[i], s[j - 1], s[j]);
    }
  }

  predicate UpTo(s: seq<string>, bound: string) {
    s != [] ==> Precedes(s[|s| - 1], bound)
  }

  lemma {:induction false} InsertKeepsOrder(s: seq<string>, x: string)
    requires IsOrdered(s)
    ensures IsOrdered(Insert(s, x)) && Insert(s, x) != []
    ensures forall bound :: UpTo(s, bound) && Precedes(x, bound) ==> UpTo(Insert(s, x), bound)
  {
    if s != [] && !Precedes(s[|s| - 1], x) {
      var init, last := s[..|s| - 1], s[|s| - 1];
      InsertKeepsOrder(init, x);
      PrecedesIsTotal(last, x);
      assert UpTo(init, last);
      assert UpTo(Insert(init, x), last);
    }
  }

  lemma {:induction false} InsertAddsOne(s: seq<string>, x: string)
    ensures multiset(Insert(s, x)) == multiset(s) + multiset{x}
  {
    if s != [] && !Precedes(s[|s| - 1], x) {
      InsertAddsOne(s[..|s| - 1], x);
      assert s == s[..|s| - 1] + [s[|s| - 1]];
    }
  }

  /** The sorted list is ordered and has the same texts. */
  lemma {:induction false} SortedIsOrderedPermutation(texts: seq<string>)
    ensures IsOrdered(Sorted(texts)) && multiset(Sorted(texts)) == multiset(texts)
  {
    if texts != [] {
      var init, last := texts[..|texts| - 1], texts[|texts| - 1];
      SortedIsOrderedPermutation(init);
      InsertKeepsOrder(Sorted(init), last);
      InsertAddsOne(Sorted(init), last);
      assert texts == init + [last];
    }
  }

  lemma {:induction false} OrderedIsSorted(texts: seq<string>)
    requires IsOrdered(texts)
    ensures Sorted(texts) == texts
  {
    if texts != [] {
      var init, last := texts[..|texts| - 1], texts[|texts| - 1];
      assert forall i :: 0 <= i < |init| ==> init[i] == texts[i];
      OrderedIsSorted(init);
      InsertLast(init, last);
      assert init + [last] == texts;
    }
  }

  lemma InsertLast(s: seq<string>, x: string)
    requires s != [] ==> Precedes(s[|s| - 1], x)
    ensures Insert(s, x) == s + [x]
  {}

  /** Sorting keeps the order of a list exactly when it is ordered already. */
  lemma SortingKeepsOrderExactly(texts: seq<string>)
    ensures Sorted(texts) == texts <==> IsOrdered(texts)
  {
    SortedIsOrderedPermutation(texts);
    if IsOrdered(texts) {
      OrderedIsSorted(texts);
    }
  }
}
