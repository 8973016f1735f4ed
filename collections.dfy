/**
 * ObservableCollection<T> and the minimal-diff reconcile loop that every view
 * model in the program uses to bring a bound collection to a desired order with
 * removes, inserts and moves instead of a reset.
 *
 * The loop compares items with their Equals: `desired.Contains(x)` asks
 * `desired[j].Equals(x)` and `target.IndexOf(x)` asks `target[p].Equals(x)`.
 * Equals is a parameter `eq` (eq(a, b) is a.Equals(b)): reference equality for
 * ProcessModel rows, the tolerance comparisons of the hardware records for the
 * GPU and drive cards. The latter are not transitive, so the correctness
 * condition below is stated over the relation itself.
 */
module Collections {
  import opened Wrappers

  /** The sequence after ObservableCollection.Move(from, to): the item is taken out and re-inserted at to. */
  function MoveSeq<T>(s: seq<T>, from: nat, to: nat): (r: seq<T>)
    requires from < |s| && to < |s|
    ensures |r| == |s| && r[to] == s[from]
    ensures forall k :: 0 <= k < to ==> r[k] == (if k < from then s[k] else s[k + 1])
    ensures forall k :: to < k < |s| ==> r[k] == (if k <= from then s[k - 1] else s[k])
  {
    var rest := s[..from] + s[from + 1..];
    assert forall k :: 0 <= k < |rest| ==> rest[k] == (if k < from then s[k] else s[k + 1]);
    rest[..to] + [s[from]] + rest[to..]
  }

  /** A move rearranges the items and keeps every one of them. */
  lemma MoveSeqMultiset<T>(s: seq<T>, from: nat, to: nat)
    requires from < |s| && to < |s|
    ensures multiset(MoveSeq(s, from, to)) == multiset(s)
  {
    var rest := s[..from] + s[from + 1..];
    InsertMultiset(rest, from, s[from]);
    assert rest[..from] + [s[from]] + rest[from..] == s;
    InsertMultiset(rest, to, s[from]);
  }

  /** A bound collection. Every RemoveAt/Insert/Move/Clear/Add raises one CollectionChanged notification. */
  class Collection<T(==)> {
    var items: seq<T>
    var changes: nat

    constructor ()
      ensures items == [] && changes == 0
    {
      items := [];
      changes := 0;
    }

    method RemoveAt(i: nat)
      requires i < |items|
      modifies this
      ensures items == old(items[..i] + items[i + 1..])
      ensures changes == old(changes) + 1
    {
      items := items[..i] + items[i + 1..];
      changes := changes + 1;
    }

    method Insert(i: nat, x: T)
      requires i <= |items|
      modifies this
      ensures items == old(items[..i]) + [x] + old(items[i..])
      ensures changes == old(changes) + 1
    {
      items := items[..i] + [x] + items[i..];
      changes := changes + 1;
    }

    method Move(from: nat, to: nat)
      requires from < |items| && to < |items|
      modifies this
      ensures items == MoveSeq(old(items), from, to)
      ensures changes == old(changes) + 1
    {
      items := MoveSeq(items, from, to);
      changes := changes + 1;
    }

    method Clear()
      modifies this
      ensures items == [] && changes == old(changes) + 1
    {
      items := [];
      changes := changes + 1;
    }

    method Add(x: T)
      modifies this
      ensures items == old(items) + [x] && changes == old(changes) + 1
    {
      items := items + [x];
      changes := changes + 1;
    }
  }

  /** List<T>.IndexOf: the first position p with s[p].Equals(x), else -1. */
  function IndexOf<T>(s: seq<T>, x: T, eq: (T, T) -> bool): (r: int)
    ensures -1 <= r < |s|
    ensures r >= 0 ==> eq(s[r], x) && forall k :: 0 <= k < r ==> !eq(s[k], x)
    ensures r == -1 ==> forall k :: 0 <= k < |s| ==> !eq(s[k], x)
  {
    if s == [] then -1
    else if eq(s[0], x) then 0
    else
      var k := IndexOf(s[1..], x, eq);
      if k == -1 then -1 else k + 1
  }

  /** List<T>.Contains: some d[j].Equals(x). */
  predicate Has<T>(d: seq<T>, x: T, eq: (T, T) -> bool) {
    exists j :: 0 <= j < |d| && eq(d[j], x)
  }

  /** Items of t that some desired item equals, in their order: what the remove pass keeps. */
  function KeepMatched<T>(t: seq<T>, d: seq<T>, eq: (T, T) -> bool): (r: seq<T>)
    ensures |r| <= |t|
    ensures forall p :: 0 <= p < |r| ==> Has(d, r[p], eq)
    ensures forall x :: x in t && Has(d, x, eq) ==> x in r
    ensures multiset(r) <= multiset(t)
  {
    if t == [] then []
    else
      var rest := KeepMatched(t[1..], d, eq);
      assert t == [t[0]] + t[1..];
      if Has(d, t[0], eq) then [t[0]] + rest else rest
  }

  /** Some desired position whose item x equals (x.Equals(d[j])), else -1. */
  function Partner<T>(x: T, d: seq<T>, eq: (T, T) -> bool): (j: int)
    ensures -1 <= j < |d|
    ensures j >= 0 ==> eq(x, d[j])
    ensures j == -1 ==> forall k :: 0 <= k < |d| ==> !eq(x, d[k])
  {
    if d == [] then -1
    else if eq(x, d[0]) then 0
    else
      var k := Partner(x, d[1..], eq);
      if k == -1 then -1 else k + 1
  }

  /** x equals at most one desired item. */
  ghost predicate Unique<T>(eq: (T, T) -> bool, x: T, d: seq<T>) {
    forall j :: 0 <= j < |d| && eq(x, d[j]) ==> j == Partner(x, d, eq)
  }

  /** Every desired item equals itself and no other desired item. */
  ghost predicate DesiredDistinct<T>(eq: (T, T) -> bool, d: seq<T>) {
    forall i, j :: 0 <= i < |d| && 0 <= j < |d| ==> (eq(d[i], d[j]) <==> i == j)
  }

  /** Equals is symmetric between current and desired items. */
  ghost predicate Symmetric<T>(eq: (T, T) -> bool, t: seq<T>, d: seq<T>) {
    forall p, j :: 0 <= p < |t| && 0 <= j < |d| ==> eq(t[p], d[j]) == eq(d[j], t[p])
  }

  /**
   * The matching between current and desired items is one-to-one: no two
   * desired items are equal, no current item equals two desired items, and no
   * desired item is equalled by two current items.
   */
  ghost predicate OneToOne<T>(eq: (T, T) -> bool, t: seq<T>, d: seq<T>) {
    DesiredDistinct(eq, d)
    && (forall p :: 0 <= p < |t| ==> Unique(eq, t[p], d))
    && (forall p, q :: 0 <= p < q < |t| && Partner(t[p], d, eq) >= 0 ==> Partner(t[p], d, eq) != Partner(t[q], d, eq))
  }

  /** Position by position, each current item equals the desired one. */
  ghost predicate Aligned<T>(eq: (T, T) -> bool, t: seq<T>, d: seq<T>) {
    |t| == |d| && forall k :: 0 <= k < |d| ==> eq(t[k], d[k])
  }

  lemma TailKeepsOneToOne<T>(eq: (T, T) -> bool, t: seq<T>, d: seq<T>)
    requires t != [] && OneToOne(eq, t, d) && Symmetric(eq, t, d)
    ensures OneToOne(eq, t[1..], d) && Symmetric(eq, t[1..], d)
  {
    assert forall p :: 0 <= p < |t| - 1 ==> t[1..][p] == t[p + 1];
  }

  lemma ConsOneToOne<T>(eq: (T, T) -> bool, r: seq<T>, d: seq<T>)
    requires r != [] && OneToOne(eq, r[1..], d) && Symmetric(eq, r[1..], d) && Unique(eq, r[0], d)
    requires forall j :: 0 <= j < |d| ==> eq(r[0], d[j]) == eq(d[j], r[0])
    requires Partner(r[0], d, eq) >= 0 ==> forall q :: 0 <= q < |r| - 1 ==> Partner(r[0], d, eq) != Partner(r[1..][q], d, eq)
    ensures OneToOne(eq, r, d) && Symmetric(eq, r, d)
  {
    var rest := r[1..];
    forall p | 0 <= p < |r| ensures Unique(eq, r[p], d) {
      if p > 0 { assert r[p] == rest[p - 1]; }
    }
    forall p, q | 0 <= p < q < |r| && Partner(r[p], d, eq) >= 0 ensures Partner(r[p], d, eq) != Partner(r[q], d, eq) {
      assert r[q] == rest[q - 1];
      if p > 0 { assert r[p] == rest[p - 1]; }
    }
    forall p, j | 0 <= p < |r| && 0 <= j < |d| ensures eq(r[p], d[j]) == eq(d[j], r[p]) {
      if p > 0 { assert r[p] == rest[p - 1]; }
    }
  }

  /** The remove pass keeps the matching one-to-one: it only drops items. */
  lemma {:induction false} KeepMatchedOneToOne<T>(eq: (T, T) -> bool, t: seq<T>, d: seq<T>)
    requires OneToOne(eq, t, d) && Symmetric(eq, t, d)
    ensures OneToOne(eq, KeepMatched(t, d, eq), d) && Symmetric(eq, KeepMatched(t, d, eq), d)
  {
    if t != [] {
      TailKeepsOneToOne(eq, t, d);
      KeepMatchedOneToOne(eq, t[1..], d);
      var rest := KeepMatched(t[1..], d, eq);
      if Has(d, t[0], eq) {
        forall q | 0 <= q < |rest| && Partner(t[0], d, eq) >= 0 ensures Partner(t[0], d, eq) != Partner(rest[q], d, eq) {
          assert rest[q] in multiset(t[1..]);
          var q' :| 0 <= q' < |t[1..]| && t[1..][q'] == rest[q];
          assert t[q' + 1] == rest[q];
        }
        assert Unique(eq, t[0], d);
        assert ([t[0]] + rest)[1..] == rest;
        ConsOneToOne(eq, [t[0]] + rest, d);
      }
    }
  }

  lemma KeepMatchedStep<T>(t: seq<T>, d: seq<T>, eq: (T, T) -> bool, i: nat)
    requires i < |t|
    ensures KeepMatched(t[i..], d, eq) ==
      if Has(d, t[i], eq) then [t[i]] + KeepMatched(t[i + 1..], d, eq) else KeepMatched(t[i + 1..], d, eq)
  {
    assert t[i..][1..] == t[i + 1..];
  }

  /** The items the remove pass leaves, with the one-to-one matching kept. */
  lemma RemoveStep<T>(t0: seq<T>, s: seq<T>, d: seq<T>, eq: (T, T) -> bool, i: nat)
    requires i < |t0| && s == t0[..i + 1] + KeepMatched(t0[i + 1..], d, eq)
    ensures i < |s| && s[i] == t0[i]
    ensures Has(d, t0[i], eq) ==> s == t0[..i] + KeepMatched(t0[i..], d, eq)
    ensures !Has(d, t0[i], eq) ==> s[..i] + s[i + 1..] == t0[..i] + KeepMatched(t0[i..], d, eq)
  {
    KeepMatchedStep(t0, d, eq, i);
    assert t0[..i + 1] == t0[..i] + [t0[i]];
    ConcatParts(s, t0[..i], t0[i], KeepMatched(t0[i + 1..], d, eq));
  }

  /** The pieces of pre + [x] + k. */
  lemma ConcatParts<T>(s: seq<T>, pre: seq<T>, x: T, k: seq<T>)
    requires s == pre + [x] + k
    ensures |pre| < |s| && s[|pre|] == x && s[..|pre|] == pre && s[|pre| + 1..] == k
    ensures s == pre + ([x] + k)
  {
    assert s[..|pre|] == pre;
  }

  /**
   * The remove pass: walking from the back, every item no desired item equals
   * is removed with RemoveAt, and nothing else.
   */
  method RemoveUnmatched<T(==)>(target: Collection<T>, d: seq<T>, eq: (T, T) -> bool)
    modifies target
    ensures target.items == KeepMatched(old(target.items), d, eq)
    ensures target.changes == old(target.changes) + |old(target.items)| - |target.items|
    ensures OneToOne(eq, old(target.items), d) && Symmetric(eq, old(target.items), d) ==>
      OneToOne(eq, target.items, d) && Symmetric(eq, target.items, d)
  {
    ghost var t0 := target.items;
    ghost var c0 := target.changes;
    var i := |target.items|;
    assert t0[..i] == t0 && t0[i..] == [];
    while i > 0
      invariant 0 <= i <= |t0|
      invariant target.items == t0[..i] + KeepMatched(t0[i..], d, eq)
      invariant target.changes == c0 + |t0| - |target.items|
    {
      i := i - 1;
      RemoveStep(t0, target.items, d, eq, i);
      var keep := IndexOf(d, target.items[i], eq) >= 0;
      if !keep {
        target.RemoveAt(i);
      }
    }
    assert t0[0..] == t0;
    if OneToOne(eq, t0, d) && Symmetric(eq, t0, d) { KeepMatchedOneToOne(eq, t0, d); }
  }

  /**
   * The state of the place pass before desired position i is handled, keyed by
   * the desired position each item equals: positions before i hold their own
   * desired item; every pending item equals a later desired item, and no two
   * pending items the same one.
   */
  ghost predicate PlaceInvariant<T>(eq: (T, T) -> bool, t: seq<T>, d: seq<T>, i: nat) {
    i <= |t| && i <= |d|
    && (forall p :: 0 <= p < |t| ==> Unique(eq, t[p], d))
    && (forall k :: 0 <= k < i ==> Partner(t[k], d, eq) == k)
    && (forall p :: i <= p < |t| ==> Partner(t[p], d, eq) >= i)
    && (forall p, q :: i <= p < q < |t| ==> Partner(t[p], d, eq) != Partner(t[q], d, eq))
  }

  lemma PlaceStart<T>(eq: (T, T) -> bool, t: seq<T>, d: seq<T>)
    requires OneToOne(eq, t, d) && Symmetric(eq, t, d)
    requires forall p :: 0 <= p < |t| ==> Has(d, t[p], eq)
    ensures PlaceInvariant(eq, t, d, 0)
  {
    forall p | 0 <= p < |t| ensures Partner(t[p], d, eq) >= 0 {
      assert Has(d, t[p], eq);
      var j :| 0 <= j < |d| && eq(d[j], t[p]);
      assert eq(t[p], d[j]);
    }
  }

  lemma DesiredPartner<T>(eq: (T, T) -> bool, d: seq<T>, i: nat)
    requires DesiredDistinct(eq, d) && i < |d|
    ensures Partner(d[i], d, eq) == i && Unique(eq, d[i], d)
  {
    assert eq(d[i], d[i]);
  }

  lemma InsertStep<T>(eq: (T, T) -> bool, t: seq<T>, d: seq<T>, i: nat)
    requires PlaceInvariant(eq, t, d, i) && DesiredDistinct(eq, d) && i < |d|
    requires forall p :: 0 <= p < |t| ==> !eq(t[p], d[i])
    ensures PlaceInvariant(eq, t[..i] + [d[i]] + t[i..], d, i + 1)
  {
    DesiredPartner(eq, d, i);
    var r := t[..i] + [d[i]] + t[i..];
    assert forall p :: i < p < |r| ==> r[p] == t[p - 1];
    assert forall k :: 0 <= k < i ==> r[k] == t[k];
    assert forall p :: i <= p < |t| ==> Partner(t[p], d, eq) != i;
  }

  /** Where the item at position p of MoveSeq(t, c, i) came from, for i <= c. */
  function MoveSource(i: nat, c: nat, p: nat): (q: nat)
    requires i <= c
    ensures p < i ==> q == p
    ensures p > c ==> q == p
  {
    if p < i then p else if p == i then c else if p <= c then p - 1 else p
  }

  lemma MoveSourceMap<T>(t: seq<T>, i: nat, c: nat)
    requires i <= c < |t|
    ensures forall p :: 0 <= p < |t| ==> MoveSource(i, c, p) < |t| && MoveSeq(t, c, i)[p] == t[MoveSource(i, c, p)]
  {
  }

  lemma MoveStep<T>(eq: (T, T) -> bool, t: seq<T>, d: seq<T>, i: nat, c: nat)
    requires PlaceInvariant(eq, t, d, i) && i < |d|
    requires i <= c < |t| && eq(t[c], d[i])
    ensures PlaceInvariant(eq, MoveSeq(t, c, i), d, i + 1)
  {
    var r := MoveSeq(t, c, i);
    MoveSourceMap(t, i, c);
    assert Partner(t[c], d, eq) == i;
    forall p | 0 <= p < |r| ensures Unique(eq, r[p], d) {
      assert r[p] == t[MoveSource(i, c, p)];
    }
    forall k | 0 <= k < i + 1 ensures Partner(r[k], d, eq) == k {
      assert r[k] == t[MoveSource(i, c, k)];
    }
    forall p | i + 1 <= p < |r| ensures Partner(r[p], d, eq) >= i + 1 {
      var q := MoveSource(i, c, p);
      assert r[p] == t[q] && q != c && i <= q;
    }
    forall p, q | i + 1 <= p < q < |r| ensures Partner(r[p], d, eq) != Partner(r[q], d, eq) {
      var p', q' := MoveSource(i, c, p), MoveSource(i, c, q);
      assert r[p] == t[p'] && r[q] == t[q'] && i <= p' < q';
    }
  }

  lemma PlaceEnd<T>(eq: (T, T) -> bool, t: seq<T>, d: seq<T>)
    requires PlaceInvariant(eq, t, d, |d|)
    ensures Aligned(eq, t, d)
  {
    assert |t| <= |d| || Partner(t[|d|], d, eq) >= |d|;
  }

  /** Before position i no placed item equals desired[i], so the first current item that does is pending. */
  lemma PlaceIndex<T>(eq: (T, T) -> bool, t: seq<T>, d: seq<T>, i: nat)
    requires i < |d|
    ensures PlaceInvariant(eq, t, d, i) ==>
      var c := IndexOf(t, d[i], eq);
      (c == -1 ==> forall p :: 0 <= p < |t| ==> !eq(t[p], d[i]))
      && (c != -1 ==> i <= c < |t| && eq(t[c], d[i]))
      && (i < |t| && eq(t[i], d[i]) ==> c == i)
  {
    if PlaceInvariant(eq, t, d, i) {
      assert forall k :: 0 <= k < i ==> !eq(t[k], d[i]);
    }
  }

  lemma InsertMultiset<T>(s: seq<T>, i: nat, x: T)
    requires i <= |s|
    ensures multiset(s[..i] + [x] + s[i..]) == multiset(s) + multiset{x}
  {
    assert s == s[..i] + s[i..];
  }

  lemma ItemsFromEither<T>(t0: seq<T>, d: seq<T>, i: nat, r: seq<T>)
    requires i <= |d| && multiset(r) <= multiset(t0) + multiset(d[..i])
    ensures forall k :: 0 <= k < |r| ==> r[k] in t0 || r[k] in d
  {
    forall k | 0 <= k < |r| ensures r[k] in t0 || r[k] in d {
      assert r[k] in multiset(r);
      assert r[k] in t0 || r[k] in d[..i];
    }
  }

  /**
   * What one step of the insert/move pass makes of the current items t at
   * desired position i; None is the exception a Move or Insert past the end
   * throws.
   */
  ghost function PlaceNext<T>(t: seq<T>, d: seq<T>, eq: (T, T) -> bool, i: nat): (r: Option<seq<T>>)
    requires i < |d|
  {
    var c := IndexOf(t, d[i], eq);
    if c == -1 then (if i > |t| then None else Some(t[..i] + [d[i]] + t[i..]))
    else if c != i then (if i >= |t| then None else Some(MoveSeq(t, c, i)))
    else Some(t)
  }

  /** A step keeps every item and adds at most desired[i]; from the place invariant it never throws and extends the invariant by one position, and it changes nothing where position i already matches. */
  lemma PlaceNextFacts<T>(eq: (T, T) -> bool, t: seq<T>, d: seq<T>, i: nat)
    requires i < |d|
    ensures var r := PlaceNext(t, d, eq, i).GetOr(t);
      multiset(t) <= multiset(r) <= multiset(t) + multiset{d[i]}
    ensures PlaceInvariant(eq, t, d, i) && DesiredDistinct(eq, d) ==>
      PlaceNext(t, d, eq, i).Some? && PlaceInvariant(eq, PlaceNext(t, d, eq, i).value, d, i + 1)
    ensures (PlaceInvariant(eq, t, d, i) && i < |t| && eq(t[i], d[i])) ==>
      IndexOf(t, d[i], eq) == i && PlaceNext(t, d, eq, i) == Some(t)
  {
    var c := IndexOf(t, d[i], eq);
    PlaceIndex(eq, t, d, i);
    if c == -1 {
      if i <= |t| {
        if PlaceInvariant(eq, t, d, i) && DesiredDistinct(eq, d) { InsertStep(eq, t, d, i); }
        InsertMultiset(t, i, d[i]);
      }
    } else if c != i {
      if i < |t| {
        if PlaceInvariant(eq, t, d, i) { MoveStep(eq, t, d, i, c); }
        MoveSeqMultiset(t, c, i);
      }
    }
  }

  /**
   * One step of the insert/move pass at desired position i: the first current
   * item equal to desired[i] is moved to i, or desired[i] is inserted at i when
   * none is. ok == false is the exception a Move or Insert past the end throws.
   */
  method PlaceAt<T(==)>(target: Collection<T>, d: seq<T>, eq: (T, T) -> bool, i: nat) returns (ok: bool)
    requires i < |d|
    modifies target
    ensures multiset(old(target.items)) <= multiset(target.items) <= multiset(old(target.items)) + multiset{d[i]}
    ensures PlaceInvariant(eq, old(target.items), d, i) && DesiredDistinct(eq, d) ==>
      ok && PlaceInvariant(eq, target.items, d, i + 1)
    ensures (PlaceInvariant(eq, old(target.items), d, i) && i < |old(target.items)| && eq(old(target.items)[i], d[i])) ==>
      ok && target.items == old(target.items) && target.changes == old(target.changes)
  {
    ghost var t := target.items;
    PlaceNextFacts(eq, t, d, i);
    var item := d[i];
    var current := IndexOf(target.items, item, eq);
    if current == -1 {
      if i > |target.items| { return false; }
      target.Insert(i, item);
    } else if current != i {
      if i >= |target.items| { return false; }
      target.Move(current, i);
    }
    assert target.items == PlaceNext(t, d, eq, i).value;
    return true;
  }

  /**
   * The insert/move pass: PlaceAt for each desired position in order. An
   * exception leaves the loop, reported by completed == false.
   */
  method PlaceInOrder<T(==)>(target: Collection<T>, d: seq<T>, eq: (T, T) -> bool) returns (completed: bool)
    modifies target
    ensures multiset(old(target.items)) <= multiset(target.items)
    ensures forall k :: 0 <= k < |target.items| ==> target.items[k] in old(target.items) || target.items[k] in d
    ensures PlaceInvariant(eq, old(target.items), d, 0) && DesiredDistinct(eq, d) ==>
      completed && Aligned(eq, target.items, d)
    ensures PlaceInvariant(eq, old(target.items), d, 0) && DesiredDistinct(eq, d) && Aligned(eq, old(target.items), d) ==>
      target.items == old(target.items) && target.changes == old(target.changes)
  {
    ghost var t0 := target.items;
    ghost var c0 := target.changes;
    ghost var good := PlaceInvariant(eq, t0, d, 0) && DesiredDistinct(eq, d);
    ghost var same := good && Aligned(eq, t0, d);
    var i := 0;
    while i < |d|
      invariant 0 <= i <= |d|
      invariant multiset(t0) <= multiset(target.items) <= multiset(t0) + multiset(d[..i])
      invariant good ==> PlaceInvariant(eq, target.items, d, i)
      invariant same ==> target.items == t0 && target.changes == c0
    {
      assert d[..i + 1] == d[..i] + [d[i]];
      var ok := PlaceAt(target, d, eq, i);
      if !ok {
        ItemsFromEither(t0, d, i + 1, target.items);
        return false;
      }
      i := i + 1;
    }
    if good { PlaceEnd(eq, target.items, d); }
    ItemsFromEither(t0, d, i, target.items);
    return true;
  }

  /**
   * ReconcileCollection / ReconcileChildrenCollection / ReconcileTopLevelOrder /
   * the loops of UpdateCollection: the remove pass, then the insert/move pass.
   * When the matching is one-to-one the target ends equal, position by
   * position, to the desired list; items the desired list still equals are
   * never removed (the row objects survive); a target that already matches
   * gets no notification at all.
   */
  method Reconcile<T(==)>(target: Collection<T>, desired: seq<T>, eq: (T, T) -> bool) returns (completed: bool)
    modifies target
    ensures forall x :: x in old(target.items) && Has(desired, x, eq) ==> x in target.items
    ensures forall k :: 0 <= k < |target.items| ==> target.items[k] in old(target.items) || target.items[k] in desired
    ensures OneToOne(eq, old(target.items), desired) && Symmetric(eq, old(target.items), desired) ==>
      completed && Aligned(eq, target.items, desired)
    ensures (OneToOne(eq, old(target.items), desired) && Symmetric(eq, old(target.items), desired)
      && Aligned(eq, old(target.items), desired)) ==>
        target.items == old(target.items) && target.changes == old(target.changes)
  {
    ghost var t0 := target.items;
    ghost var good := OneToOne(eq, t0, desired) && Symmetric(eq, t0, desired);
    RemoveUnmatched(target, desired, eq);
    ghost var t1 := target.items;
    if good {
      PlaceStart(eq, t1, desired);
      if Aligned(eq, t0, desired) { AlignedKeepsAll(eq, t0, desired); }
    }
    completed := PlaceInOrder(target, desired, eq);
    forall x | x in t1 ensures x in target.items {
      assert x in multiset(t1);
    }
    forall k | 0 <= k < |target.items| ensures target.items[k] in t0 || target.items[k] in desired {
      var y := target.items[k];
      if y in t1 { assert y in multiset(t1); }
    }
  }

  lemma AlignedKeepsAll<T>(eq: (T, T) -> bool, t: seq<T>, d: seq<T>)
    requires Aligned(eq, t, d) && Symmetric(eq, t, d)
    ensures KeepMatched(t, d, eq) == t
  {
    forall p | 0 <= p < |t| ensures Has(d, t[p], eq) {
      assert eq(d[p], t[p]);
    }
    KeepAllMatched(t, d, eq);
  }

  lemma {:induction false} KeepAllMatched<T>(t: seq<T>, d: seq<T>, eq: (T, T) -> bool)
    requires forall p :: 0 <= p < |t| ==> Has(d, t[p], eq)
    ensures KeepMatched(t, d, eq) == t
  {
    if t != [] {
      assert Has(d, t[0], eq);
      KeepAllMatched(t[1..], d, eq);
    }
  }

  /** No element occurs twice. */
  ghost predicate DistinctSeq<T>(s: seq<T>) {
    forall i, j :: 0 <= i < j < |s| ==> s[i] != s[j]
  }

  /** Reference equality, the Equals of a class that does not override it. */
  function Same<T(==)>(): (T, T) -> bool {
    (a: T, b: T) => a == b
  }

  /** For reference equality the one-to-one condition is: no duplicate among the desired items or among the current ones. */
  lemma IdentityOneToOne<T>(t: seq<T>, d: seq<T>)
    requires DistinctSeq(d) && DistinctSeq(t)
    ensures OneToOne(Same(), t, d) && Symmetric(Same(), t, d)
  {
  }

  /** For reference equality an aligned target is the desired list itself. */
  lemma IdentityAligned<T>(t: seq<T>, d: seq<T>)
    requires Aligned(Same(), t, d)
    ensures t == d
  {
  }

  /**
   * Reconcile under reference equality (ReconcileCollection,
   * ReconcileChildrenCollection, ReconcileTopLevelOrder): only items absent
   * from the desired list are removed, and with no duplicates on either side
   * the target ends as the desired list, untouched if it already was.
   */
  method ReconcileRefs<T(==)>(target: Collection<T>, desired: seq<T>)
    modifies target
    ensures forall x :: x in old(target.items) && x in desired ==> x in target.items
    ensures forall x :: x in target.items ==> x in old(target.items) || x in desired
    ensures DistinctSeq(old(target.items)) && DistinctSeq(desired) ==> target.items == desired
    ensures DistinctSeq(desired) && old(target.items) == desired ==> target.changes == old(target.changes)
  {
    ghost var t0 := target.items;
    if DistinctSeq(t0) && DistinctSeq(desired) {
      IdentityOneToOne(t0, desired);
    } else if DistinctSeq(desired) && t0 == desired {
      IdentityOneToOne(t0, desired);
    }
    forall x | x in t0 && x in desired ensures Has(desired, x, Same()) {
      var j :| 0 <= j < |desired| && desired[j] == x;
      assert Same()(desired[j], x);
    }
    var completed := Reconcile(target, desired, Same());
    assert forall k :: 0 <= k < |target.items| ==> target.items[k] in t0 || target.items[k] in desired;
    if DistinctSeq(t0) && DistinctSeq(desired) {
      IdentityAligned(target.items, desired);
    }
  }

  /** A sequence has no duplicate exactly when no element occurs twice in its multiset. */
  lemma {:induction false} DistinctCounts<T>(s: seq<T>)
    ensures DistinctSeq(s) <==> forall x :: multiset(s)[x] <= 1
    decreases |s|
  {
    if s != [] {
      DistinctCounts(s[1..]);
      assert s == [s[0]] + s[1..];
      if DistinctSeq(s) {
        assert DistinctSeq(s[1..]) by {
          forall i, j | 0 <= i < j < |s[1..]| ensures s[1..][i] != s[1..][j] {
            assert s[1..][i] == s[i + 1] && s[1..][j] == s[j + 1];
          }
        }
        assert s[0] !in s[1..] by {
          forall k | 0 <= k < |s[1..]| ensures s[1..][k] != s[0] { assert s[1..][k] == s[k + 1]; }
        }
      } else {
        var i, j :| 0 <= i < j < |s| && s[i] == s[j];
        if i == 0 {
          assert s[1..][j - 1] == s[0];
          assert multiset(s)[s[0]] >= 2;
        } else {
          assert !DistinctSeq(s[1..]) by { assert s[1..][i - 1] == s[1..][j - 1]; }
          var x :| multiset(s[1..])[x] > 1;
          assert multiset(s)[x] > 1;
        }
      }
    }
  }

  /** A rearrangement of a list without duplicates has none either. */
  lemma PermutationDistinct<T>(t: seq<T>, d: seq<T>)
    requires DistinctSeq(t) && multiset(d) == multiset(t)
    ensures DistinctSeq(d)
  {
    DistinctCounts(t);
    DistinctCounts(d);
  }

  /** A rearrangement of a list without duplicates is placed in one-to-one correspondence with it. */
  lemma PermutationStart<T>(t: seq<T>, d: seq<T>)
    requires DistinctSeq(t) && multiset(d) == multiset(t)
    ensures PlaceInvariant(Same(), t, d, 0) && DesiredDistinct(Same(), d)
  {
    PermutationDistinct(t, d);
    IdentityOneToOne(t, d);
    forall p | 0 <= p < |t| ensures Has(d, t[p], Same()) {
      assert t[p] in multiset(d);
      var j :| 0 <= j < |d| && d[j] == t[p];
      assert Same()(d[j], t[p]);
    }
    PlaceStart(Same(), t, d);
  }

  /**
   * One step of the Move pass at position i: the first item equal to
   * sorted[i], if any, is moved to i. ok == false is the exception a Move
   * past the end throws.
   */
  method MoveIfMisplaced<T(==)>(target: Collection<T>, sorted: seq<T>, i: nat) returns (ok: bool)
    requires i < |sorted|
    modifies target
    ensures multiset(target.items) == multiset(old(target.items))
    ensures PlaceInvariant(Same(), old(target.items), sorted, i) && DesiredDistinct(Same(), sorted) && sorted[i] in old(target.items) ==>
      ok && PlaceInvariant(Same(), target.items, sorted, i + 1)
    ensures (i < |old(target.items)| && old(target.items)[i] == sorted[i] && forall k :: 0 <= k < i ==> old(target.items)[k] != sorted[i]) ==>
      ok && target.items == old(target.items) && target.changes == old(target.changes)
  {
    ghost var t := target.items;
    var current := IndexOf(target.items, sorted[i], Same());
    if PlaceInvariant(Same(), t, sorted, i) && DesiredDistinct(Same(), sorted) && sorted[i] in t {
      PlaceIndex(Same(), t, sorted, i);
      PlaceNextFacts(Same(), t, sorted, i);
    }
    if current >= 0 && current != i {
      if i >= |target.items| {
        return false;
      }
      MoveSeqMultiset(target.items, current, i);
      target.Move(current, i);
    }
    return true;
  }

  /**
   * The Move pass of ApplySortOnly: each item of `sorted` found in the target
   * is moved to its position; nothing is inserted or removed, and a Move past
   * the end (the exception) ends the pass. When `sorted` rearranges a target
   * without duplicates, the target ends as `sorted`, without a notification
   * if it already was.
   */
  method MoveInOrder<T(==)>(target: Collection<T>, sorted: seq<T>)
    modifies target
    ensures multiset(target.items) == multiset(old(target.items))
    ensures DistinctSeq(old(target.items)) && multiset(sorted) == multiset(old(target.items)) ==> target.items == sorted
    ensures DistinctSeq(sorted) && old(target.items) == sorted ==> target.changes == old(target.changes)
  {
    ghost var t0, c0 := target.items, target.changes;
    ghost var good := DistinctSeq(t0) && multiset(sorted) == multiset(t0);
    ghost var same := DistinctSeq(sorted) && t0 == sorted;
    if good { PermutationStart(t0, sorted); }
    var i := 0;
    while i < |sorted|
      invariant 0 <= i <= |sorted|
      invariant multiset(target.items) == multiset(t0)
      invariant good ==> PlaceInvariant(Same(), target.items, sorted, i)
      invariant same ==> target.items == t0 && target.changes == c0
    {
      if good {
        assert sorted[i] in multiset(target.items);
      }
      var ok := MoveIfMisplaced(target, sorted, i);
      if !ok {
        return;
      }
      i := i + 1;
    }
    if good {
      PlaceEnd(Same(), target.items, sorted);
      IdentityAligned(target.items, sorted);
    }
  }

  /** The index of the first element satisfying `p`. */
  function FirstWhere<T>(s: seq<T>, p: T -> bool): (r: Option<nat>)
    ensures r.Some? ==> r.value < |s|
    decreases |s|
  {
    if s == [] then None
    else if p(s[0]) then Some(0)
    else
      match FirstWhere(s[1..], p)
      case None => None
      case Some(k) => Some(k + 1)
  }

  /** FirstWhere names an element satisfying `p` with none before it, and is
    * None exactly when no element does. */
  lemma {:induction false} FirstWhereIsFirst<T>(s: seq<T>, p: T -> bool)
    ensures var r := FirstWhere(s, p);
      && (r.None? <==> forall k :: 0 <= k < |s| ==> !p(s[k]))
      && (r.Some? ==> p(s[r.value]))
      && (r.Some? ==> forall k :: 0 <= k < r.value ==> !p(s[k]))
    decreases |s|
  {
    if s != [] && !p(s[0]) {
      var tail := s[1..];
      FirstWhereIsFirst(tail, p);
      forall k | 0 < k < |s| ensures s[k] == tail[k - 1] { }
    }
  }

  /** An element satisfying `p` with none before it is the first one. */
  lemma {:induction false} FirstWhereAt<T>(s: seq<T>, p: T -> bool, index: nat)
    requires index < |s| && p(s[index])
    requires forall k :: 0 <= k < index ==> !p(s[k])
    ensures FirstWhere(s, p) == Some(index)
    decreases index
  {
    if index > 0 {
      assert !p(s[0]);
      var tail := s[1..];
      forall k | 0 <= k < index - 1 ensures !p(tail[k]) {
        assert tail[k] == s[k + 1];
      }
      FirstWhereAt(tail, p, index - 1);
    }
  }
  /** Where(p).ToList(): the elements satisfying `p`, in order. */
  function Filter<T>(s: seq<T>, p: T -> bool): (r: seq<T>)
    ensures |r| <= |s|
    ensures forall k :: 0 <= k < |r| ==> r[k] in s && p(r[k])
    ensures forall k :: 0 <= k < |s| && p(s[k]) ==> s[k] in r
    decreases |s|
  {
    if s == [] then []
    else (if p(s[0]) then [s[0]] else []) + Filter(s[1..], p)
  }

  /** A sort key of two numbers, compared first on `primary`, then on `secondary`. */
  datatype Rank = Rank(primary: real, secondary: real)

  predicate Outranks(a: Rank, b: Rank) {
    a.primary > b.primary || (a.primary == b.primary && a.secondary > b.secondary)
  }

  /**
   * OrderByDescending(primary).ThenByDescending(secondary).First(): the sort
   * is stable, so the result is the first element that nothing outranks, and
   * it outranks every element before it.
   */
  function FirstHighest<T>(s: seq<T>, key: T -> Rank): (i: nat)
    requires s != []
    ensures i < |s|
    ensures forall k :: 0 <= k < |s| ==> !Outranks(key(s[k]), key(s[i]))
    ensures forall k :: 0 <= k < i ==> Outranks(key(s[i]), key(s[k]))
    decreases |s|
  {
    if |s| == 1 then 0
    else
      var tail := s[1..];
      var j := FirstHighest(tail, key) + 1;
      assert forall k :: 1 <= k < |s| ==> s[k] == tail[k - 1];
      if Outranks(key(s[j]), key(s[0])) then j else 0
  }

  /** Ordered from the highest key down. */
  ghost predicate SortedDescending<T>(s: seq<T>, key: T -> real) {
    forall i, j :: 0 <= i < j < |s| ==> key(s[i]) >= key(s[j])
  }

  /** Puts x in front of the first element whose key is not above its own. */
  function InsertDescending<T>(x: T, s: seq<T>, key: T -> real): (r: seq<T>)
    ensures |r| == |s| + 1
    ensures multiset(r) == multiset(s) + multiset{x}
    decreases |s|
  {
    if s == [] || key(x) >= key(s[0]) then [x] + s
    else
      assert s == [s[0]] + s[1..];
      [s[0]] + InsertDescending(x, s[1..], key)
  }

  /** Every element of the insertion is x or an element of s. */
  lemma InsertDescendingFrom<T>(x: T, s: seq<T>, key: T -> real, k: nat)
    requires k < |s| + 1
    ensures var r := InsertDescending(x, s, key); r[k] == x || r[k] in s
  {
    var r := InsertDescending(x, s, key);
    assert r[k] in multiset(r);
  }

  lemma {:induction false} InsertDescendingSorted<T>(x: T, s: seq<T>, key: T -> real)
    requires SortedDescending(s, key)
    ensures SortedDescending(InsertDescending(x, s, key), key)
    decreases |s|
  {
    if s != [] && key(x) < key(s[0]) {
      var tail := s[1..];
      assert SortedDescending(tail, key) by {
        forall i, j | 0 <= i < j < |tail| ensures key(tail[i]) >= key(tail[j]) {
          assert tail[i] == s[i + 1] && tail[j] == s[j + 1];
        }
      }
      InsertDescendingSorted(x, tail, key);
      var rest := InsertDescending(x, tail, key);
      var r := InsertDescending(x, s, key);
      assert r == [s[0]] + rest;
      forall j | 0 < j < |r| ensures key(r[0]) >= key(r[j]) {
        InsertDescendingFrom(x, tail, key, j - 1);
        assert r[j] == rest[j - 1];
        if r[j] != x {
          var m :| 0 <= m < |tail| && tail[m] == r[j];
          assert tail[m] == s[m + 1];
        }
      }
    }
  }

  /**
   * OrderByDescending(key), which is a stable sort: an element is put in front
   * of later elements with an equal key, so ties keep their order.
   */
  function SortDescending<T>(s: seq<T>, key: T -> real): (r: seq<T>)
    ensures |r| == |s|
    ensures multiset(r) == multiset(s)
    ensures SortedDescending(r, key)
    decreases |s|
  {
    if s == [] then []
    else
      assert s == [s[0]] + s[1..];
      var rest := SortDescending(s[1..], key);
      InsertDescendingSorted(s[0], rest, key);
      InsertDescending(s[0], rest, key)
  }

  /** The elements whose key is k, in order: one class of ties. */
  function WithKey<T>(s: seq<T>, key: T -> real, k: real): (r: seq<T>)
    ensures |r| <= |s| && forall i :: 0 <= i < |r| ==> r[i] in s && key(r[i]) == k
    decreases |s|
  {
    if s == [] then [] else (if key(s[0]) == k then [s[0]] else []) + WithKey(s[1..], key, k)
  }

  /** An insertion puts x first among the elements of its own key and moves nothing else within a class. */
  lemma {:induction false} InsertDescendingWithKey<T>(x: T, s: seq<T>, key: T -> real, k: real)
    ensures WithKey(InsertDescending(x, s, key), key, k) == (if key(x) == k then [x] else []) + WithKey(s, key, k)
    decreases |s|
  {
    var r := InsertDescending(x, s, key);
    if s == [] || key(x) >= key(s[0]) {
      assert r[1..] == s;
    } else {
      InsertDescendingWithKey(x, s[1..], key, k);
      assert r[1..] == InsertDescending(x, s[1..], key);
    }
  }

  /**
   * SortDescending is stable: the elements of each key keep the order they
   * had, as OrderByDescending keeps it.
   */
  lemma {:induction false} SortDescendingStable<T>(s: seq<T>, key: T -> real, k: real)
    ensures WithKey(SortDescending(s, key), key, k) == WithKey(s, key, k)
    decreases |s|
  {
    if s != [] {
      SortDescendingStable(s[1..], key, k);
      InsertDescendingWithKey(s[0], SortDescending(s[1..], key), key, k);
    }
  }

  /** A sequence already in order is left as it is; with a constant key nothing moves. */
  lemma {:induction false} SortDescendingOfSorted<T>(s: seq<T>, key: T -> real)
    requires SortedDescending(s, key)
    ensures SortDescending(s, key) == s
    decreases |s|
  {
    if s != [] {
      var tail := s[1..];
      assert SortedDescending(tail, key) by {
        forall i, j | 0 <= i < j < |tail| ensures key(tail[i]) >= key(tail[j]) {
          assert tail[i] == s[i + 1] && tail[j] == s[j + 1];
        }
      }
      SortDescendingOfSorted(tail, key);
      assert tail == [] || key(s[0]) >= key(tail[0]) by {
        if tail != [] { assert tail[0] == s[1]; }
      }
      assert [s[0]] + tail == s;
    }
  }
}
