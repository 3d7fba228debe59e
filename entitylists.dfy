/** src/gj/entities/EntityList.java: the world's entities, held in ascending
    order of z-height, each at most once (by reference), with insertion by one
    step of insertion sort, removal, and the query for the entities whose
    transform intersects a region. */
module EntityLists {
  import opened Geometry
  import opened Entities

  /** Heights never decrease along the sequence. */
  predicate SortedByHeight(s: seq<Entity>) {
    forall i, j :: 0 <= i < j < |s| ==> s[i].zHeight <= s[j].zHeight
  }

  /** No entity occurs twice. */
  predicate NoDuplicates(s: seq<Entity>) {
    forall i, j :: 0 <= i < j < |s| ==> s[i] != s[j]
  }

  /** The first index whose height is at least h (|s| when there is none):
      where a new entity of height h belongs in a sorted list, ahead of every
      entity of equal height. */
  function LowerBound(s: seq<Entity>, h: int): (k: nat)
    ensures k <= |s|
    ensures forall j :: 0 <= j < k ==> s[j].zHeight < h
    ensures k < |s| ==> s[k].zHeight >= h
  {
    if s == [] || s[0].zHeight >= h then 0 else 1 + LowerBound(s[1..], h)
  }

  function Inserted(s: seq<Entity>, k: nat, e: Entity): (r: seq<Entity>)
    requires k <= |s|
  {
    s[..k] + [e] + s[k..]
  }

  function RemovedAt(s: seq<Entity>, k: nat): (r: seq<Entity>)
    requires k < |s|
  {
    s[..k] + s[k + 1..]
  }

  /** The position of the first occurrence of e. */
  function IndexOf(s: seq<Entity>, e: Entity): (k: nat)
    requires e in s
    ensures k < |s| && s[k] == e
    ensures forall j :: 0 <= j < k ==> s[j] != e
  {
    if s[0] == e then 0 else 1 + IndexOf(s[1..], e)
  }

  /** The entities of s whose transform intersects region, in the order of
      s. */
  function Visible(s: seq<Entity>, region: Rect): (r: seq<Entity>)
    reads set e | e in s :: e.transform
    ensures |r| <= |s|
    ensures forall k :: 0 <= k < |r| ==> r[k] in s && Intersects(region, r[k].transform.Bounds())
    ensures forall k :: 0 <= k < |s| && Intersects(region, s[k].transform.Bounds()) ==> s[k] in r
  {
    if s == [] then []
    else
      var last := s[|s| - 1];
      Visible(s[..|s| - 1], region) + (if Intersects(region, last.transform.Bounds()) then [last] else [])
  }

  /** Inserting at the lower bound keeps a sorted list sorted. */
  lemma InsertAtLowerBoundSorted(s: seq<Entity>, e: Entity)
    requires SortedByHeight(s)
    ensures SortedByHeight(Inserted(s, LowerBound(s, e.zHeight), e))
  {
    var k := LowerBound(s, e.zHeight);
    var r := Inserted(s, k, e);
    forall i, j | 0 <= i < j < |r|
      ensures r[i].zHeight <= r[j].zHeight
    {
      if j < k {
        assert r[i] == s[i] && r[j] == s[j];
      } else if j == k {
        assert r[i] == s[i];
      } else if i < k {
        assert r[i] == s[i] && r[j] == s[j - 1];
        assert s[i].zHeight < e.zHeight <= s[k].zHeight <= s[j - 1].zHeight;
      } else if i == k {
        assert r[j] == s[j - 1];
      } else {
        assert r[i] == s[i - 1] && r[j] == s[j - 1];
      }
    }
  }

  /** Inserting a new entity keeps a duplicate-free list duplicate-free, and
      removing it again gives back the list as it was: the existing entities
      keep their relative order. */
  lemma InsertedFreshKeepsOrder(s: seq<Entity>, k: nat, e: Entity)
    requires k <= |s| && NoDuplicates(s) && e !in s
    ensures NoDuplicates(Inserted(s, k, e))
    ensures |Inserted(s, k, e)| == |s| + 1 && Inserted(s, k, e)[k] == e
    ensures RemovedAt(Inserted(s, k, e), k) == s
  {
    var r := Inserted(s, k, e);
    assert r[..k] == s[..k] && r[k + 1..] == s[k..];
    forall i, j | 0 <= i < j < |r|
      ensures r[i] != r[j]
    {
      if j < k {
        assert r[i] == s[i] && r[j] == s[j];
      } else if j == k {
        assert r[i] == s[i];
      } else if i < k {
        assert r[i] == s[i] && r[j] == s[j - 1];
      } else if i == k {
        assert r[j] == s[j - 1];
      } else {
        assert r[i] == s[i - 1] && r[j] == s[j - 1];
      }
    }
  }

  /** Every entity of s owns its transform. */
  ghost predicate AllOwnTransforms(s: seq<Entity>)
    reads set e | e in s :: e.transform
  {
    forall e :: e in s ==> e.Valid()
  }

  /** Inserting a new entity at its lower bound keeps every part of the
      list invariant. */
  lemma InsertKeepsInvariant(s: seq<Entity>, e: Entity)
    requires SortedByHeight(s) && NoDuplicates(s) && AllOwnTransforms(s)
    requires e.Valid() && e !in s
    ensures var r := Inserted(s, LowerBound(s, e.zHeight), e);
            SortedByHeight(r) && NoDuplicates(r) && AllOwnTransforms(r)
  {
    var k := LowerBound(s, e.zHeight);
    InsertAtLowerBoundSorted(s, e);
    InsertedFreshKeepsOrder(s, k, e);
    var r := Inserted(s, k, e);
    assert forall x :: x in r ==> x in s || x == e;
  }

  /** Removing one element keeps a sorted list sorted and a duplicate-free
      list duplicate-free. */
  lemma RemovedAtKeepsInvariant(s: seq<Entity>, k: nat)
    requires k < |s|
    ensures SortedByHeight(s) ==> SortedByHeight(RemovedAt(s, k))
    ensures NoDuplicates(s) ==> NoDuplicates(RemovedAt(s, k)) && s[k] !in RemovedAt(s, k)
    ensures forall e :: e in RemovedAt(s, k) ==> e in s
  {
    var r := RemovedAt(s, k);
    assert forall i :: 0 <= i < |r| ==> r[i] == if i < k then s[i] else s[i + 1];
  }

  /** The visible entities of a sorted list are sorted: the query yields
      them in ascending height order. */
  lemma {:induction false} VisibleSorted(s: seq<Entity>, region: Rect)
    requires SortedByHeight(s)
    ensures SortedByHeight(Visible(s, region))
  {
    if s != [] {
      var init, last := s[..|s| - 1], s[|s| - 1];
      assert SortedByHeight(init);
      VisibleSorted(init, region);
      var v := Visible(init, region);
      forall k | 0 <= k < |v|
        ensures v[k].zHeight <= last.zHeight
      {
        var i :| 0 <= i < |init| && init[i] == v[k];
        assert s[i] == init[i];
      }
    }
  }

  /** The visible entities of a duplicate-free list are duplicate-free: the
      query yields each entity once. */
  lemma {:induction false} VisibleNoDuplicates(s: seq<Entity>, region: Rect)
    requires NoDuplicates(s)
    ensures NoDuplicates(Visible(s, region))
  {
    if s != [] {
      var init, last := s[..|s| - 1], s[|s| - 1];
      assert NoDuplicates(init);
      VisibleNoDuplicates(init, region);
      var v := Visible(init, region);
      forall k | 0 <= k < |v|
        ensures v[k] != last
      {
        var i :| 0 <= i < |init| && init[i] == v[k];
        assert s[i] == init[i];
      }
    }
  }

  /** src/gj/entities/EntityList.java: the list is the field ents, which
      iterator() and getAllEntities() hand out as it is. */
  class EntityList {
    var ents: seq<Entity>

    /** Sorted by height, no entity twice, each entity owning its
        transform. */
    ghost predicate Valid()
      reads this, set e | e in ents :: e.transform
    {
      && SortedByHeight(ents)
      && NoDuplicates(ents)
      && AllOwnTransforms(ents)
    }

    constructor ()
      ensures Valid() && ents == []
    {
      ents := [];
    }

    /** addEntity: refuses an entity already present; otherwise scans for
        the first index i with ent's height at most ents[i]'s and at least
        ents[i-1]'s, inserts there, and appends when the scan finds none. */
    method AddEntity(ent: Entity) returns (added: bool)
      requires Valid() && ent.Valid()
      modifies this
      ensures Valid()
      ensures added <==> ent !in old(ents)
      ensures added ==> ents == Inserted(old(ents), LowerBound(old(ents), ent.zHeight), ent)
      ensures !added ==> ents == old(ents)
    {
      if ent in ents {
        return false;
      }
      ghost var k := LowerBound(ents, ent.zHeight);
      InsertKeepsInvariant(ents, ent);
      for i := 0 to |ents|
        invariant ents == old(ents)
        invariant i <= k
      {
        if ent.zHeight <= ents[i].zHeight && (!(i - 1 >= 0) || ent.zHeight >= ents[i - 1].zHeight) {
          assert i == k;
          ents := ents[..i] + [ent] + ents[i..];
          return true;
        }
      }
      assert k == |ents|;
      ents := ents + [ent];
      return true;
    }

    /** removeEntity: removes the first (and only) occurrence of ent and
        reports whether there was one. */
    method RemoveEntity(ent: Entity) returns (removed: bool)
      requires Valid()
      modifies this
      ensures Valid()
      ensures removed <==> ent in old(ents)
      ensures removed ==> ents == RemovedAt(old(ents), IndexOf(old(ents), ent))
      ensures !removed ==> ents == old(ents)
      ensures ent !in ents
    {
      removed := ent in ents;
      if removed {
        var k := IndexOf(ents, ent);
        RemovedAtKeepsInvariant(ents, k);
        ents := RemovedAt(ents, k);
      }
    }

    /** getIntersectingEntities: a linear scan collecting, in list order,
        the entities whose transform intersects region. */
    method GetIntersectingEntities(region: Rect) returns (buf: seq<Entity>)
      ensures buf == Visible(ents, region)
      ensures forall e :: e in buf <==> e in ents && Intersects(region, e.transform.Bounds())
    {
      buf := [];
      for i := 0 to |ents|
        invariant buf == Visible(ents[..i], region)
      {
        var e := ents[i];
        assert ents[..i + 1][..i] == ents[..i];
        if Intersects(region, e.transform.Bounds()) {
          buf := buf + [e];
        }
      }
      assert ents[..|ents|] == ents;
    }
  }
}
