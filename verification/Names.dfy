/** Node names in lexicographic order, and what `sorted` makes of them. */
module Names {
  import opened Prelude
  import opened Consensus

  /** Python's `<=` on strings. */
  predicate AtMost(a: NodeId, b: NodeId) {
    a == [] || (b != [] && (a[0] < b[0] || (a[0] == b[0] && AtMost(a[1..], b[1..]))))
  }

  lemma {:induction false} Ordered(a: NodeId, b: NodeId)
    ensures AtMost(a, b) || AtMost(b, a)
    ensures AtMost(a, b) && AtMost(b, a) ==> a == b
  {
    if a != [] && b != [] && a[0] == b[0] {
      Ordered(a[1..], b[1..]);
      assert a == [a[0]] + a[1..] && b == [b[0]] + b[1..];
    }
  }

  lemma {:induction false} Transitive(a: NodeId, b: NodeId, c: NodeId)
    requires AtMost(a, b) && AtMost(b, c)
    ensures AtMost(a, c)
  {
    if a != [] && a[0] == b[0] && b[0] == c[0] {
      Transitive(a[1..], b[1..], c[1..]);
    }
  }

  lemma {:induction false} PrefixFirst(a: NodeId, b: NodeId)
    requires a <= b
    ensures AtMost(a, b)
  {
    if a != [] {
      PrefixFirst(a[1..], b[1..]);
    }
  }

  lemma {:induction false} SmallerFirst(a: NodeId, b: NodeId, k: nat)
    requires k < |a| && k < |b| && a[..k] == b[..k] && a[k] < b[k]
    ensures AtMost(a, b)
  {
    if k > 0 {
      assert a[0] == a[..k][0] && b[0] == b[..k][0];
      assert a[1..][..k - 1] == a[..k][1..] && b[1..][..k - 1] == b[..k][1..];
      SmallerFirst(a[1..], b[1..], k - 1);
    }
  }

  lemma {:induction false} FirstDifference(a: NodeId, b: NodeId) returns (k: nat)
    requires AtMost(a, b) && !(a <= b)
    ensures k < |a| && k < |b| && a[..k] == b[..k] && a[k] < b[k]
  {
    k := 0;
    if a[0] == b[0] {
      assert a == [a[0]] + a[1..] && b == [b[0]] + b[1..];
      var rest := FirstDifference(a[1..], b[1..]);
      k := rest + 1;
      assert a[..k] == [a[0]] + a[1..][..rest] && b[..k] == [b[0]] + b[1..][..rest];
    }
  }

  /** A name comes first if it is a prefix of the other, or has the smaller character where they first differ. */
  lemma Lexicographic(a: NodeId, b: NodeId)
    ensures AtMost(a, b) <==>
              a <= b || exists k :: 0 <= k < |a| && k < |b| && a[..k] == b[..k] && a[k] < b[k]
  {
    hide AtMost;
    if a <= b {
      PrefixFirst(a, b);
    } else if AtMost(a, b) {
      var k := FirstDifference(a, b);
    } else if k :| 0 <= k < |a| && k < |b| && a[..k] == b[..k] && a[k] < b[k] {
      SmallerFirst(a, b, k);
    }
  }

  predicate Sorted(names: seq<NodeId>) {
    forall i, j :: 0 <= i < j < |names| ==> AtMost(names[i], names[j])
  }

  function Insert(name: NodeId, names: seq<NodeId>): seq<NodeId> {
    if names == [] || AtMost(name, names[0]) then [name] + names else [names[0]] + Insert(name, names[1..])
  }

  function Sort(names: seq<NodeId>): seq<NodeId> {
    if names == [] then [] else Insert(names[0], Sort(names[1..]))
  }

  lemma SortedTail(names: seq<NodeId>)
    requires Sorted(names) && names != []
    ensures Sorted(names[1..]) && forall n :: n in names[1..] ==> AtMost(names[0], n)
  {
    hide AtMost;
  }

  lemma SortedCons(name: NodeId, names: seq<NodeId>)
    requires Sorted(names) && forall n :: n in names ==> AtMost(name, n)
    ensures Sorted([name] + names)
  {
    hide AtMost;
  }

  lemma {:induction false} InsertFacts(name: NodeId, names: seq<NodeId>)
    requires Sorted(names)
    ensures Sorted(Insert(name, names))
    ensures multiset(Insert(name, names)) == multiset(names) + multiset{name}
  {
    hide AtMost, Sorted;
    if names != [] {
      Ordered(name, names[0]);
      SortedTail(names);
      assert names == [names[0]] + names[1..];
      if AtMost(name, names[0]) {
        forall n | n in names
          ensures AtMost(name, n)
        {
          if n != names[0] {
            Transitive(name, names[0], n);
          }
        }
        SortedCons(name, names);
      } else {
        var rest := Insert(name, names[1..]);
        InsertFacts(name, names[1..]);
        forall n | n in rest
          ensures AtMost(names[0], n)
        {
          assert n in multiset(rest);
        }
        SortedCons(names[0], rest);
      }
    } else {
      SortedCons(name, names);
    }
  }

  /** What `sorted` returns: the same names, duplicates included, in order. */
  lemma {:induction false} SortFacts(names: seq<NodeId>)
    ensures Sorted(Sort(names)) && multiset(Sort(names)) == multiset(names)
  {
    if names != [] {
      SortFacts(names[1..]);
      InsertFacts(names[0], Sort(names[1..]));
      assert names == [names[0]] + names[1..];
    }
  }

  lemma TailNames(names: seq<NodeId>)
    requires names != []
    ensures multiset(names[1..]) == multiset(names) - multiset{names[0]} && names == [names[0]] + names[1..]
  {
    assert names == [names[0]] + names[1..];
  }

  /** Only one list of given names is in order: nodes told the same participants hold the same list. */
  lemma {:induction false} SortUnique(a: seq<NodeId>, b: seq<NodeId>)
    requires Sorted(a) && Sorted(b) && multiset(a) == multiset(b)
    ensures a == b
  {
    hide AtMost, Sorted;
    assert |a| == |multiset(a)| && |b| == |multiset(b)|;
    if a != [] {
      assert a[0] in multiset(b);
      SortedTail(a);
      SortedTail(b);
      FirstIsLeast(a, b);
      FirstIsLeast(b, a);
      Ordered(a[0], b[0]);
      TailNames(a);
      TailNames(b);
      SortUnique(a[1..], b[1..]);
    }
  }

  lemma FirstIsLeast(a: seq<NodeId>, b: seq<NodeId>)
    requires a != [] && b != [] && multiset(a) == multiset(b)
    requires forall n :: n in a[1..] ==> AtMost(a[0], n)
    ensures AtMost(a[0], b[0])
  {
    hide AtMost;
    assert b[0] in multiset(a);
    Ordered(a[0], a[0]);
    assert a == [a[0]] + a[1..];
  }

  // ---------------------------------------------------------------- sets of names

  predicate IsLeast(name: NodeId, names: set<NodeId>) {
    name in names && forall n :: n in names ==> AtMost(name, n)
  }

  lemma LeastUnique(names: set<NodeId>, a: NodeId, b: NodeId)
    requires IsLeast(a, names) && IsLeast(b, names)
    ensures a == b
  {
    Ordered(a, b);
  }

  lemma {:induction false} LeastExists(names: set<NodeId>) returns (name: NodeId)
    requires names != {}
    ensures IsLeast(name, names)
    decreases |names|
  {
    hide AtMost;
    name := Pick(names);
    Ordered(name, name);
    if names != {name} {
      var other := LeastExists(names - {name});
      Ordered(name, other);
      if AtMost(name, other) {
        forall n | n in names && n != name
          ensures AtMost(name, n)
        {
          Transitive(name, other, n);
        }
      } else {
        name := other;
      }
    }
  }

  function Least(names: set<NodeId>): (name: NodeId)
    requires names != {}
    ensures IsLeast(name, names)
  {
    assert exists n :: IsLeast(n, names) by { var n := LeastExists(names); }
    assert forall a, b :: IsLeast(a, names) && IsLeast(b, names) ==> a == b by {
      forall a, b | IsLeast(a, names) && IsLeast(b, names) ensures a == b { LeastUnique(names, a, b); }
    }
    var n :| n in names && IsLeast(n, names);
    n
  }

  /** `sorted` of a set. */
  function SortSet(names: set<NodeId>): (r: seq<NodeId>)
    ensures |r| == |names| && forall n :: n in r <==> n in names
    ensures names != {} ==> r[0] == Least(names)
  {
    if names == {} then [] else [Least(names)] + SortSet(names - {Least(names)})
  }

  lemma {:induction false} SortSetSorted(names: set<NodeId>)
    ensures Sorted(SortSet(names))
    decreases |names|
  {
    hide AtMost, Sorted;
    if names != {} {
      SortSetSorted(names - {Least(names)});
      SortedCons(Least(names), SortSet(names - {Least(names)}));
    } else {
      SortedNone();
    }
  }

  lemma SortedNone()
    ensures Sorted([])
  {
  }
}
