/** Discovery as both scripts do it: every listed resource is scanned in
    turn; what the scans find is collected in listing order, and the first
    scan that raises ends the discovery with its exception. */
module Discovery {
  import opened Common
  import opened Tags

  /** The records found over all `items`, in order: each item contributes
      what its own scan found; the first item whose scan raised ends the
      discovery with that exception (the records before it stay found). */
  function Discover<S, R>(items: seq<S>, scanOf: S -> Scan<R>): Scan<R> {
    if items == [] then Scan([], None)
    else
      var d := Discover(items[..|items| - 1], scanOf);
      if d.error.Some? then d
      else
        var one := scanOf(items[|items| - 1]);
        Scan(d.found + one.found, one.error)
  }

  /** Every record found comes from the scan of some listed item: the one
      at the returned index. */
  lemma {:induction false} DiscoverSound<S, R>(items: seq<S>, scanOf: S -> Scan<R>, r: R) returns (i: nat)
    requires r in Discover(items, scanOf).found
    ensures i < |items| && r in scanOf(items[i]).found
  {
    var init := items[..|items| - 1];
    var d := Discover(init, scanOf);
    if r in d.found {
      i := DiscoverSound(init, scanOf, r);
      assert items[i] == init[i];
    } else {
      i := |items| - 1;
    }
  }

  /** A discovery that raised nothing scanned every item without error and
      kept everything each scan found. */
  lemma {:induction false} DiscoverComplete<S, R>(items: seq<S>, scanOf: S -> Scan<R>, i: nat)
    requires Discover(items, scanOf).error.None? && i < |items|
    ensures scanOf(items[i]).error.None?
    ensures forall r :: r in scanOf(items[i]).found ==> r in Discover(items, scanOf).found
  {
    var init := items[..|items| - 1];
    var d := Discover(init, scanOf);
    assert d.error.None?;
    if i < |init| {
      DiscoverComplete(init, scanOf, i);
      assert items[i] == init[i];
    }
  }

  /** A discovery that raised met an item whose own scan raised that. */
  lemma {:induction false} DiscoverErrorWitness<S, R>(items: seq<S>, scanOf: S -> Scan<R>)
    requires Discover(items, scanOf).error.Some?
    ensures exists i :: 0 <= i < |items| && scanOf(items[i]).error == Discover(items, scanOf).error
  {
    var init := items[..|items| - 1];
    if Discover(init, scanOf).error.Some? {
      DiscoverErrorWitness(init, scanOf);
      var i :| 0 <= i < |init| && scanOf(init[i]).error == Discover(init, scanOf).error;
      assert items[i] == init[i];
    }
  }

  /** One more item, as the loops consume them. */
  lemma {:induction false} DiscoverNext<S, R>(items: seq<S>, scanOf: S -> Scan<R>, i: nat)
    requires i < |items|
    ensures var d := Discover(items[..i], scanOf);
      Discover(items[..i + 1], scanOf) ==
        if d.error.Some? then d else Scan(d.found + scanOf(items[i]).found, scanOf(items[i]).error)
  {
    assert items[..i + 1][..i] == items[..i];
  }

  /** Once a prefix has raised, the items after it change nothing. */
  lemma {:induction false} DiscoverPrefix<S, R>(items: seq<S>, scanOf: S -> Scan<R>, j: nat)
    requires j <= |items| && Discover(items[..j], scanOf).error.Some?
    ensures Discover(items, scanOf) == Discover(items[..j], scanOf)
  {
    if j < |items| {
      assert items[..|items| - 1][..j] == items[..j];
      DiscoverPrefix(items[..|items| - 1], scanOf, j);
    } else {
      assert items[..j] == items;
    }
  }

  /** When no scan finds more than one record, the discovery finds at most
      one record per item: the k-th record comes from the item at `from[k]`,
      and these positions strictly increase, so no item gives two records. */
  lemma {:induction false} DiscoverAtMostOne<S, R>(items: seq<S>, scanOf: S -> Scan<R>) returns (from: seq<nat>)
    requires forall x :: x in items ==> |scanOf(x).found| <= 1
    ensures |from| == |Discover(items, scanOf).found| <= |items|
    ensures forall k :: 0 <= k < |from| ==> from[k] < |items| && Discover(items, scanOf).found[k] in scanOf(items[from[k]]).found
    ensures forall j, k :: 0 <= j < k < |from| ==> from[j] < from[k]
  {
    if items == [] {
      return [];
    }
    var n := |items| - 1;
    var init := items[..n];
    assert forall x :: x in init ==> x in items;
    from := DiscoverAtMostOne(init, scanOf);
    var d := Discover(init, scanOf);
    forall k | 0 <= k < |from|
      ensures Discover(items, scanOf).found[k] in scanOf(items[from[k]]).found
    {
      assert items[from[k]] == init[from[k]];
    }
    if d.error.None? {
      var one := scanOf(items[n]);
      assert items[n] in items;
      if one.found != [] {
        from := from + [n];
      }
    }
  }
}
