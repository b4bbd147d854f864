/**
 * The object runtime that every module of the toolkit is built on: reference
 * counts, and the multiset of references an owning string-keyed table holds.
 *
 * The runtime's own implementation is not part of this model; it is described
 * here by what its callers in cartesian.c and pyradardefinition.c rely on
 * (RAVE_OBJECT_NEW, RAVE_OBJECT_COPY, RAVE_OBJECT_RELEASE, RAVE_OBJECT_CLONE
 * and the owning hash table). The binding slot of an object header is
 * modelled with the wrapper layer that uses it (PyRadarDefinition).
 */
module RaveObject {
  /** Identity of a native object (a pointer in the C code). */
  type ObjId = nat

  /** Some key of a non-empty table (the order the table is walked in is not specified). */
  ghost function PickKey(m: map<string, ObjId>): (k: string)
    requires m != map[]
    ensures k in m
  {
    var k :| k in m; k
  }

  /** Taking one key out of a table makes it smaller. */
  lemma RemoveSmaller(m: map<string, ObjId>, k: string)
    requires k in m
    ensures |m - {k}| < |m|
  {
    assert (m - {k}).Keys == m.Keys - {k};
  }

  /** Taking two keys out of a table does not depend on their order. */
  lemma RemoveCommutes(m: map<string, ObjId>, j: string, k: string)
    ensures (m - {j}) - {k} == (m - {k}) - {j}
  {
  }

  /**
   * The references an owning string-keyed table holds: one per entry, so a
   * value stored under two keys is counted twice.
   */
  ghost function MapRefs(m: map<string, ObjId>): multiset<ObjId>
    decreases |m|, 1
  {
    if m == map[] then multiset{} else PickedRefs(m)
  }

  /** The references of a non-empty table: the entry under some key, and those of the rest. */
  ghost function PickedRefs(m: map<string, ObjId>): multiset<ObjId>
    requires m != map[]
    decreases |m|, 0
  {
    var k := PickKey(m);
    RemoveSmaller(m, k);
    MapRefs(m - {k}) + multiset{m[k]}
  }

  /** Removing one key gives up exactly the reference stored under it, whichever key it is. */
  lemma {:induction false} MapRefsRemove(m: map<string, ObjId>, k: string)
    requires k in m
    ensures MapRefs(m) == MapRefs(m - {k}) + multiset{m[k]}
    decreases |m|
  {
    var j := PickKey(m);
    if j != k {
      RemoveSmaller(m, j);
      RemoveSmaller(m, k);
      MapRefsRemove(m - {j}, k);
      MapRefsRemove(m - {k}, j);
      RemoveCommutes(m, j, k);
    }
  }

  /** Storing v under k replaces the reference held under k (if any) by one to v. */
  lemma MapRefsPut(m: map<string, ObjId>, k: string, v: ObjId)
    ensures MapRefs(m[k := v]) == MapRefs(m - {k}) + multiset{v}
    ensures k in m ==> MapRefs(m[k := v]) == MapRefs(m) - multiset{m[k]} + multiset{v}
  {
    MapRefsRemove(m[k := v], k);
    assert m[k := v] - {k} == m - {k};
    if k in m {
      MapRefsRemove(m, k);
    }
  }

  /** Storing v under a new key adds exactly one reference to v. */
  lemma MapRefsAdd(m: map<string, ObjId>, k: string, v: ObjId)
    requires k !in m
    ensures MapRefs(m[k := v]) == MapRefs(m) + multiset{v}
  {
    MapRefsPut(m, k, v);
    assert m - {k} == m;
  }

  /** The reference a table holds under k: one to m[k], or none when k is absent. */
  function Stored(m: map<string, ObjId>, k: string): multiset<ObjId> {
    if k in m then multiset{m[k]} else multiset{}
  }

  /** Storing v under k gives up the reference stored under k before and adds one to v. */
  lemma MapRefsReplace(m: map<string, ObjId>, k: string, v: ObjId)
    ensures MapRefs(m[k := v]) + Stored(m, k) == MapRefs(m) + multiset{v}
  {
    MapRefsPut(m, k, v);
    if k in m {
      MapRefsRemove(m, k);
      var rest := MapRefs(m - {k});
      assert MapRefs(m[k := v]) == rest + multiset{v};
      assert MapRefs(m) == rest + multiset{m[k]};
    } else {
      assert m - {k} == m;
    }
  }

  /** The table holds a reference to x exactly when x is one of its values. */
  lemma {:induction false} MapRefsValues(m: map<string, ObjId>, x: ObjId)
    ensures x in MapRefs(m) <==> x in m.Values
    decreases |m|
  {
    if m != map[] {
      var j := PickKey(m);
      RemoveSmaller(m, j);
      MapRefsValues(m - {j}, x);
      if x in m.Values && x != m[j] {
        var k :| k in m && m[k] == x;
        assert k in m - {j} && (m - {j})[k] == x;
      }
    }
  }

  /** The references an owning list holds: one per item, counted item by item from the end. */
  ghost function ListRefs(q: seq<ObjId>): multiset<ObjId>
    decreases |q|, 1
  {
    if q == [] then multiset{} else LastRefs(q)
  }

  /** The references of a non-empty list: its last item, and those of the items before it. */
  ghost function LastRefs(q: seq<ObjId>): multiset<ObjId>
    requires q != []
    decreases |q|, 0
  {
    ListRefs(q[..|q| - 1]) + multiset{q[|q| - 1]}
  }

  /** The references a list holds are the multiset of its items. */
  lemma {:induction false} ListRefsItems(q: seq<ObjId>)
    ensures ListRefs(q) == multiset(q)
    decreases |q|
  {
    if q != [] {
      ListRefsItems(q[..|q| - 1]);
      assert q == q[..|q| - 1] + [q[|q| - 1]];
    }
  }

  /** The values of a table, one per key, in some order: exactly the references the table holds. */
  method TableValues(m: map<string, ObjId>) returns (xs: seq<ObjId>)
    ensures multiset(xs) == MapRefs(m)
  {
    var rest := m;
    xs := [];
    while rest != map[]
      invariant multiset(xs) + MapRefs(rest) == MapRefs(m)
      decreases |rest|
    {
      var k :| k in rest;
      MapRefsRemove(rest, k);
      RemoveSmaller(rest, k);
      xs := xs + [rest[k]];
      rest := rest - {k};
    }
  }

  /** The keys of a table, each once, in some order. */
  method TableKeys(m: map<string, ObjId>) returns (ks: seq<string>)
    ensures forall k :: k in ks <==> k in m
    ensures forall i, j :: 0 <= i < j < |ks| ==> ks[i] != ks[j]
  {
    var rest := m;
    ks := [];
    while rest != map[]
      invariant forall k :: k in ks <==> k in m && k !in rest
      invariant rest.Keys <= m.Keys
      invariant forall i, j :: 0 <= i < j < |ks| ==> ks[i] != ks[j]
      decreases |rest|
    {
      var k :| k in rest;
      RemoveSmaller(rest, k);
      ks := ks + [k];
      rest := rest - {k};
    }
  }

  /**
   * One step of a holder: the counts and the holder's references move by the
   * same amounts, and what is gained was alive. Then everyone else's
   * references are as they were, the holder's are still counted, and no
   * object comes back to life.
   */
  lemma Step(rc0: multiset<ObjId>, rc1: multiset<ObjId>, h0: multiset<ObjId>, h1: multiset<ObjId>,
             gained: multiset<ObjId>, lost: multiset<ObjId>)
    requires h0 <= rc0
    requires rc1 + lost == rc0 + gained
    requires h1 + lost == h0 + gained
    requires forall x :: x in gained ==> x in rc0
    ensures rc1 + h0 == rc0 + h1
    ensures h1 <= rc1
    ensures forall x :: x in rc1 ==> x in rc0
  {
    forall y ensures (rc1 + h0)[y] == (rc0 + h1)[y] && h1[y] <= rc1[y] && (y in rc1 ==> y in rc0) {
      assert (rc1 + lost)[y] == (rc0 + gained)[y];
      assert (h1 + lost)[y] == (h0 + gained)[y];
    }
  }

  /** Adding the same references to two counts keeps them apart or equal. */
  lemma Cancel(a: multiset<ObjId>, b: multiset<ObjId>, c: multiset<ObjId>)
    requires a + c == b + c
    ensures a == b
  {
    forall y ensures a[y] == b[y] {
      assert (a + c)[y] == (b + c)[y];
    }
  }

  /** Two steps that each leave everyone else's references as they were make one such step. */
  lemma Chain(rc0: multiset<ObjId>, rc1: multiset<ObjId>, rc2: multiset<ObjId>,
              h0: multiset<ObjId>, h1: multiset<ObjId>, h2: multiset<ObjId>)
    requires rc1 + h0 == rc0 + h1
    requires rc2 + h1 == rc1 + h2
    ensures rc2 + h0 == rc0 + h2
  {
    forall y ensures (rc2 + h0)[y] == (rc0 + h2)[y] {
      assert (rc1 + h0)[y] == (rc0 + h1)[y];
      assert (rc2 + h1)[y] == (rc1 + h2)[y];
    }
  }

  /** One release while walking a list of references to give up: the walk's bookkeeping carries over to the rest of the list. */
  lemma ReleaseStep(rc: multiset<ObjId>, before: multiset<ObjId>, given: multiset<ObjId>, start: multiset<ObjId>, rest: seq<ObjId>)
    requires rest != [] && rc + multiset{rest[0]} == before
    requires before + given == start + multiset(rest)
    requires multiset(rest) <= before
    ensures rc + given == start + multiset(rest[1..])
    ensures multiset(rest[1..]) <= rc
  {
    assert rest == [rest[0]] + rest[1..];
    assert multiset(rest) == multiset{rest[0]} + multiset(rest[1..]);
    forall y ensures (rc + given)[y] == (start + multiset(rest[1..]))[y] {
      assert (before + given)[y] == (start + multiset(rest))[y];
    }
    forall y ensures multiset(rest[1..])[y] <= rc[y] {
      assert multiset(rest)[y] <= before[y];
    }
  }

  /**
   * The object runtime: the references to each live object (a multiset, one
   * copy per reference) and the next unused identity (identities are never
   * reused).
   */
  class Runtime {
    var rc: multiset<ObjId>
    var next: ObjId

    ghost predicate Valid()
      reads this`rc, this`next
    {
      forall x :: x in rc ==> x < next
    }

    constructor ()
      ensures Valid() && rc == multiset{} && next == 0
    {
      rc, next := multiset{}, 0;
    }

    /** create (RAVE_OBJECT_NEW): a fresh object with one reference, owned by the caller. */
    method New() returns (x: ObjId)
      requires Valid()
      modifies this
      ensures Valid()
      ensures x == old(next) && x !in old(rc)
      ensures rc == old(rc) + multiset{x} && next == old(next) + 1
    {
      x := next;
      rc := rc + multiset{x};
      next := next + 1;
    }

    /** retain (RAVE_OBJECT_COPY): one more reference to a live object. */
    method Retain(x: ObjId)
      requires Valid() && x in rc
      modifies this
      ensures Valid()
      ensures rc == old(rc) + multiset{x} && next == old(next)
    {
      rc := rc + multiset{x};
    }

    /** release (RAVE_OBJECT_RELEASE): one reference fewer; the last one destroys x. */
    method Release(x: ObjId)
      requires Valid() && x in rc
      modifies this
      ensures Valid()
      ensures rc + multiset{x} == old(rc) && next == old(next)
    {
      rc := rc - multiset{x};
    }

    /** Retains every element of xs once per occurrence (what building an owning list of them does). */
    method RetainAll(xs: seq<ObjId>)
      requires Valid() && forall i :: 0 <= i < |xs| ==> xs[i] in rc
      modifies this
      ensures Valid() && rc == old(rc) + multiset(xs)
      ensures next == old(next)
    {
      var i := 0;
      while i < |xs|
        invariant 0 <= i <= |xs|
        invariant Valid() && rc == old(rc) + multiset(xs[..i])
        invariant next == old(next)
      {
        assert xs[..i + 1] == xs[..i] + [xs[i]];
        assert xs[i] in old(rc);
        Retain(xs[i]);
        i := i + 1;
      }
      assert xs[..i] == xs;
    }

    /** Releases every element of xs once per occurrence (what destroying an owning list of them does). */
    method ReleaseAll(xs: seq<ObjId>)
      requires Valid() && multiset(xs) <= rc
      modifies this
      ensures Valid() && next == old(next)
      ensures rc + multiset(xs) == old(rc)
    {
      var rest := xs;
      while rest != []
        invariant Valid() && next == old(next)
        invariant rc + multiset(xs) == old(rc) + multiset(rest)
        invariant multiset(rest) <= rc
        decreases |rest|
      {
        assert rest == [rest[0]] + rest[1..];
        ghost var before := rc;
        Release(rest[0]);
        ReleaseStep(rc, before, multiset(xs), old(rc), rest);
        rest := rest[1..];
      }
    }

    /**
     * put on an owning table: v is retained and stored under k, and the
     * reference previously stored under k (if any) is released.
     */
    method TablePut(m: map<string, ObjId>, k: string, v: ObjId) returns (m': map<string, ObjId>)
      requires Valid() && v in rc && (k in m ==> m[k] in rc)
      modifies this
      ensures Valid() && next == old(next)
      ensures m' == m[k := v]
      ensures MapRefs(m') + Stored(m, k) == MapRefs(m) + multiset{v}
      ensures rc + Stored(m, k) == old(rc) + multiset{v}
    {
      Retain(v);
      if k in m {
        Release(m[k]);
      }
      m' := m[k := v];
      MapRefsReplace(m, k, v);
    }

    /** remove on an owning table followed by a release: the reference stored under k (if any) is given up. */
    method TableRemove(m: map<string, ObjId>, k: string) returns (m': map<string, ObjId>)
      requires Valid() && (k in m ==> m[k] in rc)
      modifies this
      ensures Valid() && next == old(next)
      ensures m' == m - {k}
      ensures MapRefs(m') + Stored(m, k) == MapRefs(m)
      ensures rc + Stored(m, k) == old(rc)
    {
      if k in m {
        Release(m[k]);
        MapRefsRemove(m, k);
      } else {
        assert m - {k} == m;
      }
      m' := m - {k};
    }

    /** Clones the objects a table holds (RAVE_OBJECT_CLONE of the table): one fresh object per entry, under the same key. */
    method CloneTable(m: map<string, ObjId>) returns (c: map<string, ObjId>)
      requires Valid()
      modifies this
      ensures Valid() && next >= old(next)
      ensures c.Keys == m.Keys
      ensures forall k :: k in c ==> old(next) <= c[k] < next
      ensures rc == old(rc) + MapRefs(c)
    {
      var rest := m;
      c := map[];
      while rest != map[]
        invariant Valid() && next >= old(next)
        invariant rest.Keys <= m.Keys
        invariant forall k :: k in c <==> k in m && k !in rest
        invariant forall k :: k in c ==> old(next) <= c[k] < next
        invariant rc == old(rc) + MapRefs(c)
        decreases |rest|
      {
        var k :| k in rest;
        RemoveSmaller(rest, k);
        var x := New();
        MapRefsAdd(c, k, x);
        c := c[k := x];
        rest := rest - {k};
      }
    }

    /** Clones the objects a list holds (RAVE_OBJECT_CLONE of the list): one fresh object per item, in order. */
    method CloneList(xs: seq<ObjId>) returns (ys: seq<ObjId>)
      requires Valid()
      modifies this
      ensures Valid() && next >= old(next)
      ensures |ys| == |xs|
      ensures forall i :: 0 <= i < |ys| ==> old(next) <= ys[i] < next
      ensures rc == old(rc) + multiset(ys)
    {
      ys := [];
      while |ys| < |xs|
        invariant Valid() && next >= old(next)
        invariant |ys| <= |xs|
        invariant forall i :: 0 <= i < |ys| ==> old(next) <= ys[i] < next
        invariant rc == old(rc) + multiset(ys)
      {
        var x := New();
        ys := ys + [x];
      }
    }
  }
}
