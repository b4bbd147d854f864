/**
 * The cartesian product (cartesian.c): an image on a projected grid. It owns
 * its parameters (a table keyed by quantity), its attributes (a table keyed by
 * name), its quality fields (a list) and its projection. It also keeps a
 * current parameter, resolved from the name of its default parameter.
 *
 * The objects it refers to are identities in a shared RaveObject.Runtime. The
 * references the product holds are counted there. Every operation leaves the
 * references held by everyone else unchanged, or hands the caller exactly one
 * new reference.
 */
module CartesianProduct {
  import opened Wrappers
  import opened RaveObject
  import opened RaveHlhdfTypes
  import RaveHlhdf
  import RaveListModel

  /** The object types a product may take, and any other one by its code (rave_types.h is not part of this model). */
  datatype ObjectType = Image | Comp | OtherObjectType(code: int)

  /** A product type: undefined, or some code of rave_types.h. */
  datatype ProductType = UndefinedProduct | Product(code: int)

  /** A date and time object (RaveDateTime); either part may be unset. */
  datatype DateTime = DateTime(date: Option<string>, time: Option<string>)

  const NoDateTime := DateTime(None, None)

  /** What addParameter reads from a parameter object: its quantity (possibly NULL) and its grid size. */
  datatype ParamInfo = ParamInfo(quantity: Option<string>, xsize: int, ysize: int)

  /** What init reads from an area definition: scales, sizes, projection and extent. */
  datatype Area = Area(xscale: real, yscale: real, xsize: int, ysize: int, projection: Option<ObjId>,
                       llX: real, llY: real, urX: real, urY: real)

  /** The reference an optional pointer holds. */
  function OptRef(p: Option<ObjId>): multiset<ObjId> {
    if p.Some? then multiset{p.value} else multiset{}
  }

  // Attribute names

  /** The position of the first '/' in s (strchr), if there is one. */
  function FirstSlash(s: string): (r: Option<nat>)
    ensures r.Some? ==> r.value < |s| && s[r.value] == '/' && '/' !in s[..r.value]
    ensures r.None? ==> '/' !in s
  {
    if s == [] then None
    else if s[0] == '/' then Some(0)
    else
      match FirstSlash(s[1..])
      case None => None
      case Some(i) =>
        assert s[..i + 1] == [s[0]] + s[1..][..i];
        Some(i + 1)
  }

  /** The '/' at i is the first one of s. */
  lemma FirstSlashAt(s: string, i: nat)
    requires i < |s| && s[i] == '/' && '/' !in s[..i]
    ensures FirstSlash(s) == Some(i)
  {
    match FirstSlash(s)
    case None =>
      assert false;
    case Some(j) =>
      if j < i {
        assert false;
      } else if j > i {
        assert false;
      }
  }

  /**
   * A name split into its group and the rest at its first '/', none when it
   * has no '/'. This is how the attribute helper of the toolkit is taken to
   * split names (that helper is not part of this model).
   */
  function SplitGroup(name: string): (r: Option<(string, string)>)
    ensures r.Some? <==> '/' in name
    ensures r.Some? ==> name == r.value.0 + "/" + r.value.1 && '/' !in r.value.0
  {
    match FirstSlash(name)
    case None => None
    case Some(i) =>
      assert name == name[..i] + "/" + name[i + 1..];
      Some((name[..i], name[i + 1..]))
  }

  /**
   * The attribute names addAttribute accepts: a direct member of the how
   * group (in any case), or what/prodpar (in any case). An accepted name has a
   * group, and starts with "how/" or is what/prodpar, ignoring case.
   */
  function AttributeNameAccepted(name: string): (r: bool)
    ensures r ==> '/' in name
    ensures r ==> RaveHlhdf.StartsWithCI(name, "how/") || RaveHlhdf.EqualsCI(name, "what/prodpar")
  {
    match SplitGroup(name)
    case None => false
    case Some(parts) =>
      if RaveHlhdf.EqualsCI(parts.0, "how") then
        HowGroupStarts(name);
        '/' !in parts.1 || RaveHlhdf.EqualsCI(name, "what/prodpar")
      else RaveHlhdf.EqualsCI(name, "what/prodpar")
  }

  /** A name that starts with "how/" (in any case) splits into that group and what follows the '/'. */
  lemma HowPrefixSplits(name: string)
    requires RaveHlhdf.StartsWithCI(name, "how/")
    ensures SplitGroup(name) == Some((name[..3], name[4..]))
    ensures RaveHlhdf.EqualsCI(name[..3], "how")
  {
    RaveHlhdf.SlashSurvivesFolding(name, "how/", 3);
    forall i | 0 <= i < 3 ensures name[..3][i] != '/' && RaveHlhdf.Lower(name[..3][i]) == RaveHlhdf.Lower("how"[i]) {
      assert name[..3][i] == name[i];
      assert RaveHlhdf.Lower(name[i]) == RaveHlhdf.Lower("how/"[i]);
    }
    FirstSlashAt(name, 3);
  }

  /** A name whose group is "how" (in any case) starts with "how/". */
  lemma HowGroupStarts(name: string)
    requires SplitGroup(name).Some? && RaveHlhdf.EqualsCI(SplitGroup(name).value.0, "how")
    ensures RaveHlhdf.StartsWithCI(name, "how/") && SplitGroup(name).value.1 == name[4..]
  {
    var g := SplitGroup(name).value.0;
    assert name[..3] == g && name[3] == '/';
    forall i | 0 <= i < 4 ensures RaveHlhdf.Lower(name[i]) == RaveHlhdf.Lower("how/"[i]) {
      if i < 3 {
        assert name[i] == g[i];
      }
    }
  }

  /** A name is accepted exactly when it starts with "how/" and has no further '/', or is what/prodpar, ignoring case. */
  lemma AttributeNameAcceptedIff(name: string)
    ensures AttributeNameAccepted(name) <==>
      (RaveHlhdf.StartsWithCI(name, "how/") && '/' !in name[4..]) || RaveHlhdf.EqualsCI(name, "what/prodpar")
  {
    if RaveHlhdf.StartsWithCI(name, "how/") {
      HowPrefixSplits(name);
    }
    if SplitGroup(name).Some? && RaveHlhdf.EqualsCI(SplitGroup(name).value.0, "how") {
      HowGroupStarts(name);
    }
    if RaveHlhdf.EqualsCI(name, "what/prodpar") {
      RaveHlhdf.SlashSurvivesFolding(name, "what/prodpar", 4);
      assert name[4] in name;
    }
  }

  /** A direct member of the how group is accepted in any case. */
  lemma HowNameAccepted()
    ensures AttributeNameAccepted("HOW/task")
  {
    HowPrefixSplits("HOW/task");
  }

  /** A name one level deeper in the how group is rejected. */
  lemma NestedHowNameRejected()
    ensures !AttributeNameAccepted("how/a/b")
  {
    HowPrefixSplits("how/a/b");
    assert "how/a/b"[4..][1] == '/';
  }

  /** A name in the where group is rejected. */
  lemma WhereNameRejected()
    ensures !AttributeNameAccepted("where/lon")
  {
    assert "where/lon"[..5] == "where";
    FirstSlashAt("where/lon", 5);
  }

  // Parameter admission

  /** The grid size once addParameter has looked at a parameter: an empty table adopts the size of a parameter with a quantity. */
  function GridAfter(count: nat, gridX: int, gridY: int, info: ParamInfo): (int, int) {
    if info.quantity.Some? && count == 0 then (info.xsize, info.ysize) else (gridX, gridY)
  }

  /** addParameter accepts a parameter that has a quantity and the size of the grid, once an empty table has adopted it. */
  predicate ParameterAdmitted(count: nat, gridX: int, gridY: int, info: ParamInfo) {
    info.quantity.Some? && (info.xsize, info.ysize) == GridAfter(count, gridX, gridY, info)
  }

  /** The sizing rules of addParameter, case by case. */
  lemma AdmissionRules(count: nat, gridX: int, gridY: int, info: ParamInfo)
    ensures info.quantity.None? ==> !ParameterAdmitted(count, gridX, gridY, info) && GridAfter(count, gridX, gridY, info) == (gridX, gridY)
    ensures info.quantity.Some? && count == 0 ==> ParameterAdmitted(count, gridX, gridY, info)
    ensures count > 0 ==> GridAfter(count, gridX, gridY, info) == (gridX, gridY)
    ensures count > 0 ==> (ParameterAdmitted(count, gridX, gridY, info) <==> info.quantity.Some? && info.xsize == gridX && info.ysize == gridY)
    ensures ParameterAdmitted(count, gridX, gridY, info) ==> GridAfter(count, gridX, gridY, info) == (info.xsize, info.ysize)
  {
  }

  /** What isTransformable decides: some parameter, positive scales, a projection, and every parameter transformable. */
  predicate TransformableSpec(params: map<string, ObjId>, xscale: real, yscale: real, projection: Option<ObjId>,
                              ready: set<ObjId>) {
    |params| > 0 && xscale > 0.0 && yscale > 0.0 && projection.Some? && forall k :: k in params ==> params[k] in ready
  }

  /** The values of a table, listed in any order, are all accepted exactly when every entry is; and there are some exactly when the table is not empty. */
  lemma ListedValues(xs: seq<ObjId>, m: map<string, ObjId>, ready: set<ObjId>)
    requires multiset(xs) == MapRefs(m)
    ensures (forall i :: 0 <= i < |xs| ==> xs[i] in ready) <==> (forall k :: k in m ==> m[k] in ready)
    ensures |xs| > 0 <==> |m| > 0
  {
    forall x ensures x in xs <==> x in m.Values {
      MapRefsValues(m, x);
      assert x in xs <==> x in multiset(xs);
    }
    if forall i :: 0 <= i < |xs| ==> xs[i] in ready {
      forall k | k in m ensures m[k] in ready {
        assert m[k] in m.Values;
      }
    }
    if forall k :: k in m ==> m[k] in ready {
      forall i | 0 <= i < |xs| ensures xs[i] in ready {
        assert xs[i] in xs;
      }
    }
    if |m| > 0 {
      var k :| k in m;
      assert m[k] in m.Values;
    }
    if |xs| > 0 {
      assert xs[0] in xs;
    }
  }

  /** The references held through two tables, a list and two optional pointers. */
  ghost function HeldOf(params: map<string, ObjId>, attrs: map<string, ObjId>, fields: seq<ObjId>,
                        current: Option<ObjId>, projection: Option<ObjId>): multiset<ObjId>
  {
    MapRefs(params) + MapRefs(attrs) + ListRefs(fields) + OptRef(current) + OptRef(projection)
  }

  /** A change to the parameter table moves the holdings by what it moves the table's references. */
  lemma ParamsMoved(p0: map<string, ObjId>, p1: map<string, ObjId>, a: map<string, ObjId>, q: seq<ObjId>,
                    c: Option<ObjId>, j: Option<ObjId>, gained: multiset<ObjId>, lost: multiset<ObjId>)
    requires MapRefs(p1) + lost == MapRefs(p0) + gained
    ensures HeldOf(p1, a, q, c, j) + lost == HeldOf(p0, a, q, c, j) + gained
  {
    forall y ensures (HeldOf(p1, a, q, c, j) + lost)[y] == (HeldOf(p0, a, q, c, j) + gained)[y] {
      assert (MapRefs(p1) + lost)[y] == (MapRefs(p0) + gained)[y];
    }
  }

  /** A change to the attribute table moves the holdings by what it moves the table's references. */
  lemma AttrsMoved(p: map<string, ObjId>, a0: map<string, ObjId>, a1: map<string, ObjId>, q: seq<ObjId>,
                   c: Option<ObjId>, j: Option<ObjId>, gained: multiset<ObjId>, lost: multiset<ObjId>)
    requires MapRefs(a1) + lost == MapRefs(a0) + gained
    ensures HeldOf(p, a1, q, c, j) + lost == HeldOf(p, a0, q, c, j) + gained
  {
    forall y ensures (HeldOf(p, a1, q, c, j) + lost)[y] == (HeldOf(p, a0, q, c, j) + gained)[y] {
      assert (MapRefs(a1) + lost)[y] == (MapRefs(a0) + gained)[y];
    }
  }

  /** A change to the quality-field list moves the holdings by what it moves the list's references. */
  lemma FieldsMoved(p: map<string, ObjId>, a: map<string, ObjId>, q0: seq<ObjId>, q1: seq<ObjId>,
                    c: Option<ObjId>, j: Option<ObjId>, gained: multiset<ObjId>, lost: multiset<ObjId>)
    requires ListRefs(q1) + lost == ListRefs(q0) + gained
    ensures HeldOf(p, a, q1, c, j) + lost == HeldOf(p, a, q0, c, j) + gained
  {
    forall y ensures (HeldOf(p, a, q1, c, j) + lost)[y] == (HeldOf(p, a, q0, c, j) + gained)[y] {
      assert (ListRefs(q1) + lost)[y] == (ListRefs(q0) + gained)[y];
    }
  }

  /** Setting or clearing the current parameter moves the holdings by the references of the two pointers. */
  lemma CurrentMoved(p: map<string, ObjId>, a: map<string, ObjId>, q: seq<ObjId>,
                     c0: Option<ObjId>, c1: Option<ObjId>, j: Option<ObjId>)
    ensures HeldOf(p, a, q, c1, j) + OptRef(c0) == HeldOf(p, a, q, c0, j) + OptRef(c1)
  {
    forall y ensures (HeldOf(p, a, q, c1, j) + OptRef(c0))[y] == (HeldOf(p, a, q, c0, j) + OptRef(c1))[y] {
    }
  }

  /** Setting or clearing the projection moves the holdings by the references of the two pointers. */
  lemma ProjectionMoved(p: map<string, ObjId>, a: map<string, ObjId>, q: seq<ObjId>,
                        c: Option<ObjId>, j0: Option<ObjId>, j1: Option<ObjId>)
    ensures HeldOf(p, a, q, c, j1) + OptRef(j0) == HeldOf(p, a, q, c, j0) + OptRef(j1)
  {
    forall y ensures (HeldOf(p, a, q, c, j1) + OptRef(j0))[y] == (HeldOf(p, a, q, c, j0) + OptRef(j1))[y] {
    }
  }

  /** Every reference in one of the parts is held. */
  lemma HeldParts(p: map<string, ObjId>, a: map<string, ObjId>, q: seq<ObjId>, c: Option<ObjId>, j: Option<ObjId>, x: ObjId)
    ensures x in p.Values || x in a.Values || x in q || c == Some(x) || j == Some(x) ==> x in HeldOf(p, a, q, c, j)
  {
    MapRefsValues(p, x);
    MapRefsValues(a, x);
    ListRefsItems(q);
    assert x in q ==> x in multiset(q);
  }

  /** An object the product refers to is alive while the product's references are counted. */
  lemma HeldAlive(p: map<string, ObjId>, a: map<string, ObjId>, q: seq<ObjId>, c: Option<ObjId>, j: Option<ObjId>,
                  rc: multiset<ObjId>, x: ObjId)
    requires HeldOf(p, a, q, c, j) <= rc
    requires x in p.Values || x in a.Values || x in q || c == Some(x) || j == Some(x)
    ensures x in rc
  {
    HeldParts(p, a, q, c, j, x);
  }

  /** The values listed from the parameter table are held, so each is alive. */
  lemma ParamsHeld(xs: seq<ObjId>, p: map<string, ObjId>, a: map<string, ObjId>, q: seq<ObjId>,
                   c: Option<ObjId>, j: Option<ObjId>, rc: multiset<ObjId>)
    requires multiset(xs) == MapRefs(p) && HeldOf(p, a, q, c, j) <= rc
    ensures forall i :: 0 <= i < |xs| ==> xs[i] in rc
  {
    forall i | 0 <= i < |xs| ensures xs[i] in rc {
      assert xs[i] in multiset(xs);
      assert HeldOf(p, a, q, c, j)[xs[i]] >= MapRefs(p)[xs[i]];
    }
  }

  /**
   * A change to the parameter table that the counts follow exactly, gaining
   * only live objects: the other holders' references stay as they were, the
   * product's stay counted and no object comes back to life.
   */
  lemma ParamsStep(p0: map<string, ObjId>, p1: map<string, ObjId>, a: map<string, ObjId>, q: seq<ObjId>,
                   c: Option<ObjId>, j: Option<ObjId>, rc0: multiset<ObjId>, rc1: multiset<ObjId>,
                   gained: multiset<ObjId>, lost: multiset<ObjId>)
    requires HeldOf(p0, a, q, c, j) <= rc0
    requires rc1 + lost == rc0 + gained
    requires MapRefs(p1) + lost == MapRefs(p0) + gained
    requires forall x :: x in gained ==> x in rc0
    ensures HeldOf(p1, a, q, c, j) <= rc1
    ensures rc1 + HeldOf(p0, a, q, c, j) == rc0 + HeldOf(p1, a, q, c, j)
    ensures forall x :: x in rc1 ==> x in rc0
  {
    ParamsMoved(p0, p1, a, q, c, j, gained, lost);
    Step(rc0, rc1, HeldOf(p0, a, q, c, j), HeldOf(p1, a, q, c, j), gained, lost);
  }

  /** The same for a change to the attribute table. */
  lemma AttrsStep(p: map<string, ObjId>, a0: map<string, ObjId>, a1: map<string, ObjId>, q: seq<ObjId>,
                  c: Option<ObjId>, j: Option<ObjId>, rc0: multiset<ObjId>, rc1: multiset<ObjId>,
                  gained: multiset<ObjId>, lost: multiset<ObjId>)
    requires HeldOf(p, a0, q, c, j) <= rc0
    requires rc1 + lost == rc0 + gained
    requires MapRefs(a1) + lost == MapRefs(a0) + gained
    requires forall x :: x in gained ==> x in rc0
    ensures HeldOf(p, a1, q, c, j) <= rc1
    ensures rc1 + HeldOf(p, a0, q, c, j) == rc0 + HeldOf(p, a1, q, c, j)
    ensures forall x :: x in rc1 ==> x in rc0
  {
    AttrsMoved(p, a0, a1, q, c, j, gained, lost);
    Step(rc0, rc1, HeldOf(p, a0, q, c, j), HeldOf(p, a1, q, c, j), gained, lost);
  }

  /** Appending a live field that has just been retained. */
  lemma FieldAppended(p: map<string, ObjId>, a: map<string, ObjId>, q: seq<ObjId>, c: Option<ObjId>, j: Option<ObjId>,
                      f: ObjId, rc0: multiset<ObjId>, rc1: multiset<ObjId>)
    requires HeldOf(p, a, q, c, j) <= rc0 && f in rc0 && rc1 == rc0 + multiset{f}
    ensures HeldOf(p, a, q + [f], c, j) <= rc1
    ensures rc1 + HeldOf(p, a, q, c, j) == rc0 + HeldOf(p, a, q + [f], c, j)
    ensures forall x :: x in rc1 ==> x in rc0
  {
    assert (q + [f])[..|q|] == q;
    assert ListRefs(q + [f]) == ListRefs(q) + multiset{f};
    FieldsMoved(p, a, q, q + [f], c, j, multiset{f}, multiset{});
    Step(rc0, rc1, HeldOf(p, a, q, c, j), HeldOf(p, a, q + [f], c, j), multiset{f}, multiset{});
  }

  /** Taking out the field at i, which has just been released. */
  lemma FieldRemoved(p: map<string, ObjId>, a: map<string, ObjId>, q: seq<ObjId>, c: Option<ObjId>, j: Option<ObjId>,
                     i: nat, rc0: multiset<ObjId>, rc1: multiset<ObjId>)
    requires i < |q| && HeldOf(p, a, q, c, j) <= rc0 && rc1 + multiset{q[i]} == rc0
    ensures HeldOf(p, a, RaveListModel.RemoveAt(q, i), c, j) <= rc1
    ensures rc1 + HeldOf(p, a, q, c, j) == rc0 + HeldOf(p, a, RaveListModel.RemoveAt(q, i), c, j)
    ensures forall x :: x in rc1 ==> x in rc0
  {
    var r := RaveListModel.RemoveAt(q, i);
    ListRefsItems(q);
    ListRefsItems(r);
    FieldsMoved(p, a, q, r, c, j, multiset{}, multiset{q[i]});
    Step(rc0, rc1, HeldOf(p, a, q, c, j), HeldOf(p, a, r, c, j), multiset{}, multiset{q[i]});
  }

  /** Replacing the current parameter, when the counts move by the two pointers' references and the new one was alive. */
  lemma CurrentStep(p: map<string, ObjId>, a: map<string, ObjId>, q: seq<ObjId>, c0: Option<ObjId>, c1: Option<ObjId>,
                    j: Option<ObjId>, rc0: multiset<ObjId>, rc1: multiset<ObjId>)
    requires HeldOf(p, a, q, c0, j) <= rc0
    requires rc1 + OptRef(c0) == rc0 + OptRef(c1)
    requires c1.Some? ==> c1.value in rc0
    ensures HeldOf(p, a, q, c1, j) <= rc1
    ensures rc1 + HeldOf(p, a, q, c0, j) == rc0 + HeldOf(p, a, q, c1, j)
    ensures forall x :: x in rc1 ==> x in rc0
  {
    CurrentMoved(p, a, q, c0, c1, j);
    Step(rc0, rc1, HeldOf(p, a, q, c0, j), HeldOf(p, a, q, c1, j), OptRef(c1), OptRef(c0));
  }

  /** Replacing the projection, in the same way. */
  lemma ProjectionStep(p: map<string, ObjId>, a: map<string, ObjId>, q: seq<ObjId>, c: Option<ObjId>,
                       j0: Option<ObjId>, j1: Option<ObjId>, rc0: multiset<ObjId>, rc1: multiset<ObjId>)
    requires HeldOf(p, a, q, c, j0) <= rc0
    requires rc1 + OptRef(j0) == rc0 + OptRef(j1)
    requires j1.Some? ==> j1.value in rc0
    ensures HeldOf(p, a, q, c, j1) <= rc1
    ensures rc1 + HeldOf(p, a, q, c, j0) == rc0 + HeldOf(p, a, q, c, j1)
    ensures forall x :: x in rc1 ==> x in rc0
  {
    ProjectionMoved(p, a, q, c, j0, j1);
    Step(rc0, rc1, HeldOf(p, a, q, c, j0), HeldOf(p, a, q, c, j1), OptRef(j1), OptRef(j0));
  }

  /** Storing under a name other than the default leaves the current parameter resolved. */
  lemma ResolvedAfterPut(dp: string, params: map<string, ObjId>, q: string, p: ObjId, current: Option<ObjId>)
    requires dp != q && (dp in params ==> current == Some(params[dp]))
    ensures dp in params[q := p] ==> current == Some(params[q := p][dp])
  {
  }

  /** A fresh object's one reference is the caller's, beyond the counted holder's. */
  lemma Created(rc0: multiset<ObjId>, rc1: multiset<ObjId>, h: multiset<ObjId>, x: ObjId)
    requires h <= rc0 && rc1 == rc0 + multiset{x}
    ensures h <= rc1 && x in rc1
  {
  }

  /** A fresh object handed to a holder in a balanced step leaves the caller one reference to it. */
  lemma Handed(rc0: multiset<ObjId>, rc1: multiset<ObjId>, rc2: multiset<ObjId>, h0: multiset<ObjId>, h2: multiset<ObjId>, x: ObjId)
    requires rc1 == rc0 + multiset{x} && rc2 + h0 == rc1 + h2
    ensures rc2 + h0 == rc0 + h2 + multiset{x}
  {
    forall y ensures (rc2 + h0)[y] == (rc0 + h2 + multiset{x})[y] {
      assert (rc2 + h0)[y] == (rc1 + h2)[y];
    }
  }

  /** Empty tables, an empty list and no pointers hold nothing. */
  lemma NothingHeld()
    ensures HeldOf(map[], map[], [], None, None) == multiset{}
  {
    assert MapRefs(map[]) == multiset{} && ListRefs([]) == multiset{};
  }

  /** A reference beyond a holder's survives a balanced step of that holder. */
  lemma StillOwned(rc0: multiset<ObjId>, rc1: multiset<ObjId>, h0: multiset<ObjId>, h1: multiset<ObjId>, x: ObjId)
    requires x in rc0 - h0 && rc1 + h0 == rc0 + h1
    ensures x in rc1 - h1
  {
    assert (rc1 + h0)[x] == (rc0 + h1)[x];
  }

  /** A reference just taken is one beyond those of a counted holder. */
  lemma Owned(rc: multiset<ObjId>, h: multiset<ObjId>, x: ObjId)
    requires h <= rc
    ensures x in (rc + multiset{x}) - h
  {
    assert (rc + multiset{x})[x] == rc[x] + 1;
  }

  /** The references of a product made of fresh clones are exactly what the clones added to the counts. */
  lemma ClonesHeld(p: map<string, ObjId>, a: map<string, ObjId>, q: seq<ObjId>, c: Option<ObjId>,
                   rc0: multiset<ObjId>, rc1: multiset<ObjId>)
    requires rc1 == rc0 + OptRef(c) + MapRefs(a) + multiset(q) + MapRefs(p)
    ensures HeldOf(p, a, q, c, None) <= rc1
    ensures rc1 == rc0 + HeldOf(p, a, q, c, None)
  {
    ListRefsItems(q);
    var h := HeldOf(p, a, q, c, None);
    assert h == MapRefs(p) + MapRefs(a) + multiset(q) + OptRef(c) + multiset{};
    Regrouped(rc0, rc1, OptRef(c), MapRefs(a), multiset(q), MapRefs(p));
  }

  /** The counts after the clones, regrouped in the order HeldOf lists the references. */
  lemma Regrouped(rc0: multiset<ObjId>, rc1: multiset<ObjId>, mc: multiset<ObjId>, ma: multiset<ObjId>,
                  mq: multiset<ObjId>, mp: multiset<ObjId>)
    requires rc1 == rc0 + mc + ma + mq + mp
    ensures rc1 == rc0 + (mp + ma + mq + mc + multiset{})
  {
    forall y ensures rc1[y] == (rc0 + (mp + ma + mq + mc + multiset{}))[y] {
      assert rc1[y] == rc0[y] + mc[y] + ma[y] + mq[y] + mp[y];
    }
  }

  /** Every reference the product holds, in the order the destructor gives them up. */
  lemma ListedHeld(j: Option<ObjId>, c: Option<ObjId>, avs: seq<ObjId>, q: seq<ObjId>, ps: seq<ObjId>,
                   p: map<string, ObjId>, a: map<string, ObjId>)
    requires multiset(avs) == MapRefs(a) && multiset(ps) == MapRefs(p)
    ensures multiset(OptSeq(j) + OptSeq(c) + avs + q + ps) == HeldOf(p, a, q, c, j)
  {
    ListRefsItems(q);
    assert multiset(OptSeq(j)) == OptRef(j);
    assert multiset(OptSeq(c)) == OptRef(c);
  }

  /** An optional pointer as a list of at most one item. */
  function OptSeq(p: Option<ObjId>): (s: seq<ObjId>)
    ensures multiset(s) == OptRef(p)
  {
    if p.Some? then [p.value] else []
  }

  /** The caller's own reference, taken before a balanced step of the holder, is still there after it. */
  lemma OwnInUse(rc0: multiset<ObjId>, rc1: multiset<ObjId>, rc2: multiset<ObjId>, h0: multiset<ObjId>, h2: multiset<ObjId>, x: ObjId)
    requires h0 <= rc0 && rc1 == rc0 + multiset{x} && rc2 + h0 == rc1 + h2
    ensures x in rc2
  {
    assert (rc2 + h0)[x] == (rc1 + h2)[x];
  }

  /**
   * Taking a reference of one's own, letting the holder make a balanced step
   * that revives nothing, and giving the reference back is a balanced step.
   */
  lemma OwnReturned(rc0: multiset<ObjId>, rc1: multiset<ObjId>, rc2: multiset<ObjId>, rc3: multiset<ObjId>,
                    h0: multiset<ObjId>, h2: multiset<ObjId>, x: ObjId)
    requires h0 <= rc0 && x in rc0 && rc1 == rc0 + multiset{x}
    requires rc2 + h0 == rc1 + h2 && forall y :: y in rc2 ==> y in rc1
    requires rc3 + multiset{x} == rc2
    ensures rc3 + h0 == rc0 + h2 && h2 <= rc3
    ensures forall y :: y in rc3 ==> y in rc0
  {
    forall y ensures (rc3 + h0)[y] == (rc0 + h2)[y] && h2[y] <= rc3[y] && (y in rc3 ==> y in rc0) {
      assert (rc2 + h0)[y] == (rc1 + h2)[y];
      assert (rc3 + multiset{x})[y] == rc2[y];
    }
  }

  /** Releasing the cloned current parameter leaves the clone holding its tables and list only. */
  lemma CurrentReleased(rc0: multiset<ObjId>, rc1: multiset<ObjId>, rc2: multiset<ObjId>,
                        p: map<string, ObjId>, a: map<string, ObjId>, q: seq<ObjId>, c: Option<ObjId>)
    requires rc1 == rc0 + HeldOf(p, a, q, c, None) && rc2 + OptRef(c) == rc1
    ensures rc2 == rc0 + HeldOf(p, a, q, None, None)
    ensures HeldOf(p, a, q, None, None) <= rc2
  {
    var h := HeldOf(p, a, q, None, None);
    forall y ensures rc2[y] == (rc0 + h)[y] {
      assert (rc2 + OptRef(c))[y] == (rc0 + HeldOf(p, a, q, c, None))[y];
    }
  }

  /** The references taken for the resolved current parameter and the projection clone complete the clone's holdings. */
  lemma CopyHeld(rc0: multiset<ObjId>, rc2: multiset<ObjId>, rc3: multiset<ObjId>, rc4: multiset<ObjId>,
                 p: map<string, ObjId>, a: map<string, ObjId>, q: seq<ObjId>, c: Option<ObjId>, j: Option<ObjId>)
    requires rc2 == rc0 + HeldOf(p, a, q, None, None)
    requires rc3 == rc2 + OptRef(c) && rc4 == rc3 + OptRef(j)
    ensures rc4 == rc0 + HeldOf(p, a, q, c, j)
    ensures HeldOf(p, a, q, c, j) <= rc4
  {
    var h := HeldOf(p, a, q, c, j);
    forall y ensures rc4[y] == (rc0 + h)[y] {
      assert h[y] == HeldOf(p, a, q, None, None)[y] + OptRef(c)[y] + OptRef(j)[y];
    }
  }

  /** The clones of the copy constructor: fresh objects for the current parameter, the attributes, the quality fields and the parameters. */
  method CloneParts(rt: Runtime, p0: map<string, ObjId>, a0: map<string, ObjId>, q0: seq<ObjId>, c0: Option<ObjId>)
    returns (p: map<string, ObjId>, a: map<string, ObjId>, q: seq<ObjId>, c: Option<ObjId>)
    requires rt.Valid()
    modifies rt
    ensures rt.Valid() && rt.next >= old(rt.next)
    ensures p.Keys == p0.Keys && a.Keys == a0.Keys && |q| == |q0|
    ensures forall k :: k in p ==> p[k] >= old(rt.next)
    ensures forall k :: k in a ==> a[k] >= old(rt.next)
    ensures forall i :: 0 <= i < |q| ==> q[i] >= old(rt.next)
    ensures c.Some? <==> c0.Some?
    ensures rt.rc == old(rt.rc) + HeldOf(p, a, q, c, None)
  {
    c := None;
    if c0.Some? {
      var x := rt.New();
      c := Some(x);
    }
    a := rt.CloneTable(a0);
    q := rt.CloneList(q0);
    p := rt.CloneTable(p0);
    ClonesHeld(p, a, q, c, old(rt.rc), rt.rc);
  }

  /**
   * The reference work of the copy constructor, on the source's values: the
   * current parameter, the attributes, the quality fields and the parameters
   * are cloned; setting the default name d on the clones releases the cloned
   * current parameter and retains the clone stored under d, if any; last the
   * projection is cloned. The counts grow by exactly what the clones hold.
   */
  method CloneHoldings(rt: Runtime, p0: map<string, ObjId>, a0: map<string, ObjId>, q0: seq<ObjId>,
                       c0: Option<ObjId>, j0: Option<ObjId>, d: string)
    returns (p: map<string, ObjId>, a: map<string, ObjId>, q: seq<ObjId>, c: Option<ObjId>, j: Option<ObjId>)
    requires rt.Valid()
    modifies rt
    ensures rt.Valid() && rt.next >= old(rt.next)
    ensures p.Keys == p0.Keys && a.Keys == a0.Keys && |q| == |q0|
    ensures forall k :: k in p ==> p[k] >= old(rt.next)
    ensures forall k :: k in a ==> a[k] >= old(rt.next)
    ensures forall i :: 0 <= i < |q| ==> q[i] >= old(rt.next)
    ensures c == if d in p then Some(p[d]) else None
    ensures j.Some? <==> j0.Some?
    ensures j.Some? ==> j.value >= old(rt.next)
    ensures rt.rc == old(rt.rc) + HeldOf(p, a, q, c, j) && HeldOf(p, a, q, c, j) <= rt.rc
  {
    var cc;
    p, a, q, cc := CloneParts(rt, p0, a0, q0, c0);
    ghost var rc1 := rt.rc;
    // setDefaultParameter on the clones.
    if cc.Some? {
      HeldAlive(p, a, q, cc, None, rt.rc, cc.value);
      rt.Release(cc.value);
    }
    ghost var rc2 := rt.rc;
    CurrentReleased(old(rt.rc), rc1, rc2, p, a, q, cc);
    c := None;
    if d in p {
      HeldAlive(p, a, q, None, None, rt.rc, p[d]);
      rt.Retain(p[d]);
      c := Some(p[d]);
    }
    ghost var rc3 := rt.rc;
    j := None;
    if j0.Some? {
      var x := rt.New();
      j := Some(x);
    }
    CopyHeld(old(rt.rc), rc2, rc3, rt.rc, p, a, q, c, j);
  }

  /**
   * The number of counted objects the plain constructor creates and the copy
   * constructor overwrites: the nominal, start and end date/times, the
   * attribute table, the quality-field list and the parameter table.
   */
  const ConstructorObjects := 6

  /** Objects created one after another, numbered from n: none of them is in the list twice. */
  lemma {:induction false} ConsecutiveOnce(s: seq<ObjId>, n: nat, i: nat)
    requires forall k :: 0 <= k < |s| ==> s[k] == n + k
    requires i < |s|
    ensures multiset(s)[s[i]] == 1
    decreases |s|
  {
    var last := |s| - 1;
    assert s == s[..last] + [s[last]];
    if i < last {
      ConsecutiveOnce(s[..last], n, i);
    } else {
      assert s[last] !in s[..last];
    }
  }

  /**
   * The leak of the copy constructor as written: when, besides the clone's
   * holdings h, the counts keep references to objects created before the
   * clone, then giving back h (what the clone's destructor does) leaves each
   * of those objects alive with one reference that nothing holds.
   */
  lemma OrphansOutliveClone(rc0: multiset<ObjId>, n: nat, made: seq<ObjId>, h: multiset<ObjId>, rc: multiset<ObjId>)
    requires forall x :: x in rc0 ==> x < n
    requires forall k :: 0 <= k < |made| ==> made[k] == n + k
    requires rc == rc0 + multiset(made) + h
    ensures rc - h == rc0 + multiset(made)
    ensures forall k :: 0 <= k < |made| ==> rc0[made[k]] == 0 && (rc - h)[made[k]] == 1
    ensures made != [] ==> rc - h != rc0
  {
    forall y ensures (rc - h)[y] == (rc0 + multiset(made))[y] {
    }
    forall k | 0 <= k < |made| ensures rc0[made[k]] == 0 && (rc - h)[made[k]] == 1 {
      ConsecutiveOnce(made, n, k);
    }
    if made != [] {
      ConsecutiveOnce(made, n, 0);
      assert (rc - h)[made[0]] != rc0[made[0]];
    }
  }

  /** The counted objects of Cartesian_constructor (cartesian.c:98-103): six fresh objects, one reference each. */
  method ConstructorRefs(rt: Runtime) returns (made: seq<ObjId>)
    requires rt.Valid()
    modifies rt
    ensures rt.Valid() && rt.next == old(rt.next) + ConstructorObjects
    ensures |made| == ConstructorObjects && forall k :: 0 <= k < |made| ==> made[k] == old(rt.next) + k
    ensures rt.rc == old(rt.rc) + multiset(made)
  {
    made := [];
    while |made| < ConstructorObjects
      invariant rt.Valid() && |made| <= ConstructorObjects
      invariant rt.next == old(rt.next) + |made|
      invariant forall k :: 0 <= k < |made| ==> made[k] == old(rt.next) + k
      invariant rt.rc == old(rt.rc) + multiset(made)
    {
      var x := rt.New();
      made := made + [x];
    }
  }

  /**
   * RAVE_OBJECT_CLONE of a product as written: the plain constructor runs
   * first and creates its six counted objects (cartesian.c:98-103); the copy
   * constructor then sets those fields to NULL and to the clones
   * (cartesian.c:141-155) without releasing what the constructor made. The
   * counts grow by the clone's holdings and by one reference to each of the
   * six objects, which outlive the clone.
   */
  method CloneHoldingsAsWritten(rt: Runtime, p0: map<string, ObjId>, a0: map<string, ObjId>, q0: seq<ObjId>,
                                c0: Option<ObjId>, j0: Option<ObjId>, d: string)
    returns (made: seq<ObjId>, p: map<string, ObjId>, a: map<string, ObjId>, q: seq<ObjId>, c: Option<ObjId>, j: Option<ObjId>)
    requires rt.Valid()
    modifies rt
    ensures rt.Valid()
    ensures |made| == ConstructorObjects && forall k :: 0 <= k < |made| ==> made[k] == old(rt.next) + k
    ensures p.Keys == p0.Keys && a.Keys == a0.Keys && |q| == |q0|
    ensures c == if d in p then Some(p[d]) else None
    ensures j.Some? <==> j0.Some?
    ensures rt.rc == old(rt.rc) + multiset(made) + HeldOf(p, a, q, c, j)
    ensures rt.rc - HeldOf(p, a, q, c, j) != old(rt.rc)
    ensures forall k :: 0 <= k < |made| ==> old(rt.rc)[made[k]] == 0 && (rt.rc - HeldOf(p, a, q, c, j))[made[k]] == 1
  {
    made := ConstructorRefs(rt);
    p, a, q, c, j := CloneHoldings(rt, p0, a0, q0, c0, j0, d);
    OrphansOutliveClone(old(rt.rc), old(rt.next), made, HeldOf(p, a, q, c, j), rt.rc);
  }

  /**
   * A cartesian product. The tables, the list and the optional pointers hold
   * references to objects of rt; the scalars, date/times, source and default
   * parameter name are plain values.
   */
  class Cartesian {
    const rt: Runtime
    var xscale: real
    var yscale: real
    var xsize: int
    var ysize: int
    var product: ProductType
    var objectType: ObjectType
    var llX: real
    var llY: real
    var urX: real
    var urY: real
    var datetime: DateTime
    var startdatetime: DateTime
    var enddatetime: DateTime
    var source: Option<string>
    var dataType: RaveDataType
    var projection: Option<ObjId>
    var attrs: map<string, ObjId>
    var qualityfields: seq<ObjId>
    var defaultParameter: string
    var currentParameter: Option<ObjId>
    var parameters: map<string, ObjId>

    /** The references the product holds: one per table entry and quality field, plus the current parameter and the projection. */
    ghost function Held(): multiset<ObjId>
      reads this`parameters, this`attrs, this`qualityfields, this`currentParameter, this`projection
    {
      HeldOf(parameters, attrs, qualityfields, currentParameter, projection)
    }

    /** Every reference the product holds is counted by the runtime. */
    ghost predicate Accounted()
      reads this`parameters, this`attrs, this`qualityfields, this`currentParameter, this`projection, rt`rc, rt`next
    {
      rt.Valid() && Held() <= rt.rc
    }

    /** Whenever the table has an entry under the default name, that entry is the current parameter. */
    ghost predicate CurrentResolved()
      reads this`defaultParameter, this`parameters, this`currentParameter
    {
      defaultParameter in parameters ==> currentParameter == Some(parameters[defaultParameter])
    }

    /** The product's references are counted, and the current parameter follows the default name. */
    ghost predicate Valid()
      reads this`parameters, this`attrs, this`qualityfields, this`currentParameter, this`projection, this`defaultParameter, rt`rc, rt`next
    {
      CurrentResolved() && Accounted()
    }

    /** Cartesian_constructor: the defaults of a fresh product, which holds no reference yet. */
    constructor (rt: Runtime)
      requires rt.Valid()
      ensures this.rt == rt && Valid() && Held() == multiset{}
      ensures xsize == 0 && ysize == 0 && xscale == 0.0 && yscale == 0.0
      ensures llX == 0.0 && llY == 0.0 && urX == 0.0 && urY == 0.0
      ensures product == UndefinedProduct && objectType == Image && dataType == UChar
      ensures source == None && projection == None
      ensures datetime == NoDateTime && startdatetime == NoDateTime && enddatetime == NoDateTime
      ensures defaultParameter == "DBZH" && currentParameter == None
      ensures parameters == map[] && attrs == map[] && qualityfields == []
    {
      this.rt := rt;
      xsize, ysize, xscale, yscale := 0, 0, 0.0, 0.0;
      llX, llY, urX, urY := 0.0, 0.0, 0.0, 0.0;
      product, objectType, dataType := UndefinedProduct, Image, UChar;
      source, projection := None, None;
      datetime, startdatetime, enddatetime := NoDateTime, NoDateTime, NoDateTime;
      defaultParameter, currentParameter := "DBZH", None;
      parameters, attrs, qualityfields := map[], map[], [];
    }

    // Date and time. Whether RaveDateTime accepts a value (its format check)
    // is not part of this model: `accepted` says it.

    /** Cartesian_setTime: sets the nominal time when the value is accepted. */
    method SetTime(value: Option<string>, accepted: bool) returns (ok: bool)
      modifies this`datetime
      ensures ok == accepted
      ensures datetime == if accepted then old(datetime).(time := value) else old(datetime)
    {
      ok := accepted;
      if accepted {
        datetime := datetime.(time := value);
      }
    }

    /** Cartesian_setDate: sets the nominal date when the value is accepted. */
    method SetDate(value: Option<string>, accepted: bool) returns (ok: bool)
      modifies this`datetime
      ensures ok == accepted
      ensures datetime == if accepted then old(datetime).(date := value) else old(datetime)
    {
      ok := accepted;
      if accepted {
        datetime := datetime.(date := value);
      }
    }

    /** Cartesian_setStartTime: sets the start time when the value is accepted. */
    method SetStartTime(value: Option<string>, accepted: bool) returns (ok: bool)
      modifies this`startdatetime
      ensures ok == accepted
      ensures startdatetime == if accepted then old(startdatetime).(time := value) else old(startdatetime)
    {
      ok := accepted;
      if accepted {
        startdatetime := startdatetime.(time := value);
      }
    }

    /** Cartesian_setStartDate: sets the start date when the value is accepted. */
    method SetStartDate(value: Option<string>, accepted: bool) returns (ok: bool)
      modifies this`startdatetime
      ensures ok == accepted
      ensures startdatetime == if accepted then old(startdatetime).(date := value) else old(startdatetime)
    {
      ok := accepted;
      if accepted {
        startdatetime := startdatetime.(date := value);
      }
    }

    /** Cartesian_setEndTime: sets the end time when the value is accepted. */
    method SetEndTime(value: Option<string>, accepted: bool) returns (ok: bool)
      modifies this`enddatetime
      ensures ok == accepted
      ensures enddatetime == if accepted then old(enddatetime).(time := value) else old(enddatetime)
    {
      ok := accepted;
      if accepted {
        enddatetime := enddatetime.(time := value);
      }
    }

    /** Cartesian_setEndDate: sets the end date when the value is accepted. */
    method SetEndDate(value: Option<string>, accepted: bool) returns (ok: bool)
      modifies this`enddatetime
      ensures ok == accepted
      ensures enddatetime == if accepted then old(enddatetime).(date := value) else old(enddatetime)
    {
      ok := accepted;
      if accepted {
        enddatetime := enddatetime.(date := value);
      }
    }

    /** Cartesian_getStartTime: the start time, or the nominal time while the start time is unset. */
    function GetStartTime(): (r: Option<string>)
      reads this`startdatetime, this`datetime
      ensures r.None? <==> startdatetime.time.None? && datetime.time.None?
      ensures startdatetime.time.Some? ==> r == startdatetime.time
      ensures startdatetime.time.None? ==> r == datetime.time
    {
      if startdatetime.time.None? then datetime.time else startdatetime.time
    }

    /** Cartesian_getStartDate: the start date, or the nominal date while the start date is unset. */
    function GetStartDate(): (r: Option<string>)
      reads this`startdatetime, this`datetime
      ensures r.None? <==> startdatetime.date.None? && datetime.date.None?
      ensures startdatetime.date.Some? ==> r == startdatetime.date
      ensures startdatetime.date.None? ==> r == datetime.date
    {
      if startdatetime.date.None? then datetime.date else startdatetime.date
    }

    /** Cartesian_getEndTime: the end time, or the nominal time while the end time is unset. */
    function GetEndTime(): (r: Option<string>)
      reads this`enddatetime, this`datetime
      ensures r.None? <==> enddatetime.time.None? && datetime.time.None?
      ensures enddatetime.time.Some? ==> r == enddatetime.time
      ensures enddatetime.time.None? ==> r == datetime.time
    {
      if enddatetime.time.None? then datetime.time else enddatetime.time
    }

    /** Cartesian_getEndDate: the end date, or the nominal date while the end date is unset. */
    function GetEndDate(): (r: Option<string>)
      reads this`enddatetime, this`datetime
      ensures r.None? <==> enddatetime.date.None? && datetime.date.None?
      ensures enddatetime.date.Some? ==> r == enddatetime.date
      ensures enddatetime.date.None? ==> r == datetime.date
    {
      if enddatetime.date.None? then datetime.date else enddatetime.date
    }

    // Plain values

    /** Cartesian_setSource: sets or (with NULL) clears the source; copying the string is taken to succeed. */
    method SetSource(value: Option<string>) returns (ok: bool)
      modifies this`source
      ensures ok && source == value
    {
      source := value;
      ok := true;
    }

    /** Cartesian_setObjectType: only IMAGE and COMP are accepted; any other type leaves the object type as it was. */
    method SetObjectType(t: ObjectType) returns (ok: bool)
      modifies this`objectType
      ensures ok <==> t == Image || t == Comp
      ensures objectType == if ok then t else old(objectType)
    {
      ok := t == Image || t == Comp;
      if ok {
        objectType := t;
      }
    }

    /** Cartesian_setXSize. */
    method SetXSize(x: int)
      modifies this`xsize
      ensures xsize == x
    {
      xsize := x;
    }

    /** Cartesian_setYSize. */
    method SetYSize(y: int)
      modifies this`ysize
      ensures ysize == y
    {
      ysize := y;
    }

    /** Cartesian_setAreaExtent. */
    method SetAreaExtent(llX: real, llY: real, urX: real, urY: real)
      modifies this`llX, this`llY, this`urX, this`urY
      ensures this.llX == llX && this.llY == llY && this.urX == urX && this.urY == urY
    {
      this.llX, this.llY, this.urX, this.urY := llX, llY, urX, urY;
    }

    /** Cartesian_setXScale. */
    method SetXScale(s: real)
      modifies this`xscale
      ensures xscale == s
    {
      xscale := s;
    }

    /** Cartesian_setYScale. */
    method SetYScale(s: real)
      modifies this`yscale
      ensures yscale == s
    {
      yscale := s;
    }

    /** Cartesian_setProduct: any product type is accepted. */
    method SetProduct(p: ProductType) returns (ok: bool)
      modifies this`product
      ensures ok && product == p
    {
      product := p;
      ok := true;
    }

    // Delegation to the current parameter; what the parameter itself does is a parameter of the model.

    /** Cartesian_getNodata: the nodata value of the current parameter, 0.0 without one. */
    method GetNodata(nodataOf: ObjId -> real) returns (r: real)
      ensures currentParameter.None? ==> r == 0.0
      ensures currentParameter.Some? ==> r == nodataOf(currentParameter.value)
    {
      r := if currentParameter.Some? then nodataOf(currentParameter.value) else 0.0;
    }

    /** Cartesian_getUndetect: the undetect value of the current parameter, 0.0 without one. */
    method GetUndetect(undetectOf: ObjId -> real) returns (r: real)
      ensures currentParameter.None? ==> r == 0.0
      ensures currentParameter.Some? ==> r == undetectOf(currentParameter.value)
    {
      r := if currentParameter.Some? then undetectOf(currentParameter.value) else 0.0;
    }

    /** Cartesian_setValue and Cartesian_setConvertedValue: refused without a current parameter. */
    method SetValue(x: int, y: int, v: real, setOn: (ObjId, int, int, real) -> bool) returns (ok: bool)
      ensures currentParameter.None? ==> !ok
      ensures currentParameter.Some? ==> ok == setOn(currentParameter.value, x, y, v)
    {
      ok := if currentParameter.Some? then setOn(currentParameter.value, x, y, v) else false;
    }

    /** Cartesian_getValue and Cartesian_getConvertedValue: UNDEFINED (none) without a current parameter. */
    method GetValue(x: int, y: int, getOn: (ObjId, int, int) -> Option<real>) returns (r: Option<real>)
      ensures currentParameter.None? ==> r.None?
      ensures currentParameter.Some? ==> r == getOn(currentParameter.value, x, y)
    {
      r := if currentParameter.Some? then getOn(currentParameter.value, x, y) else None;
    }

    // Holding and giving up references. Every method below states how the
    // runtime's counts move against the product's holdings: the equation
    // rt.rc + old(Held()) == old(rt.rc) + Held() says that the references
    // held by everyone other than the product are exactly as they were.
    // The helpers keep the product's references counted; the operations of
    // cartesian.c built from them also keep the current parameter resolved.

    /** RAVE_OBJECT_RELEASE on the current parameter: the product no longer has one. */
    method ReleaseCurrent()
      requires Accounted()
      modifies this`currentParameter, rt
      ensures Accounted() && currentParameter == None && rt.next == old(rt.next)
      ensures forall x :: x in rt.rc ==> x in old(rt.rc)
      ensures rt.rc + old(Held()) == old(rt.rc) + Held()
    {
      if currentParameter.Some? {
        var c0 := currentParameter;
        HeldAlive(parameters, attrs, qualityfields, c0, projection, rt.rc, c0.value);
        rt.Release(c0.value);
        currentParameter := None;
        CurrentStep(parameters, attrs, qualityfields, c0, None, projection, old(rt.rc), rt.rc);
      }
    }

    /** RAVE_OBJECT_COPY of a table entry into the empty current-parameter slot. */
    method AdoptCurrent(p: ObjId)
      requires Accounted() && currentParameter == None && p in parameters.Values
      modifies this`currentParameter, rt
      ensures Accounted() && currentParameter == Some(p) && rt.next == old(rt.next)
      ensures forall x :: x in rt.rc ==> x in old(rt.rc)
      ensures rt.rc + old(Held()) == old(rt.rc) + Held()
    {
      HeldAlive(parameters, attrs, qualityfields, None, projection, rt.rc, p);
      rt.Retain(p);
      currentParameter := Some(p);
      CurrentStep(parameters, attrs, qualityfields, None, Some(p), projection, old(rt.rc), rt.rc);
    }

    /** The current parameter is released, then c (a table entry, if any) becomes the current parameter. */
    method ReplaceCurrent(c: Option<ObjId>)
      requires Accounted() && (c.Some? ==> c.value in parameters.Values)
      modifies this`currentParameter, rt
      ensures Accounted() && currentParameter == c && rt.next == old(rt.next)
      ensures forall x :: x in rt.rc ==> x in old(rt.rc)
      ensures rt.rc + old(Held()) == old(rt.rc) + Held()
    {
      ReleaseCurrent();
      if c.Some? {
        ghost var rc1, h1 := rt.rc, Held();
        AdoptCurrent(c.value);
        Chain(old(rt.rc), rc1, rt.rc, old(Held()), h1, Held());
      }
    }

    /** RAVE_OBJECT_RELEASE on the projection: the product no longer has one. */
    method ReleaseProjection()
      requires Accounted()
      modifies this`projection, rt
      ensures Accounted() && projection == None && rt.next == old(rt.next)
      ensures forall x :: x in rt.rc ==> x in old(rt.rc)
      ensures rt.rc + old(Held()) == old(rt.rc) + Held()
    {
      if projection.Some? {
        var j0 := projection;
        HeldAlive(parameters, attrs, qualityfields, currentParameter, j0, rt.rc, j0.value);
        rt.Release(j0.value);
        projection := None;
        ProjectionStep(parameters, attrs, qualityfields, currentParameter, j0, None, old(rt.rc), rt.rc);
      }
    }

    /** RAVE_OBJECT_COPY of a live projection into the empty projection slot. */
    method AdoptProjection(p: ObjId)
      requires Accounted() && projection == None && p in rt.rc
      modifies this`projection, rt
      ensures Accounted() && projection == Some(p) && rt.next == old(rt.next)
      ensures forall x :: x in rt.rc ==> x in old(rt.rc)
      ensures rt.rc + old(Held()) == old(rt.rc) + Held()
    {
      rt.Retain(p);
      projection := Some(p);
      ProjectionStep(parameters, attrs, qualityfields, currentParameter, None, Some(p), old(rt.rc), rt.rc);
    }

    /** RaveObjectHashTable_put on the parameter table: p is retained under q, and the entry it replaces is released. */
    method PutParameter(q: string, p: ObjId)
      requires Accounted() && p in rt.rc
      modifies this`parameters, rt
      ensures Accounted() && parameters == old(parameters)[q := p] && rt.next == old(rt.next)
      ensures forall x :: x in rt.rc ==> x in old(rt.rc)
      ensures rt.rc + old(Held()) == old(rt.rc) + Held()
    {
      if q in parameters {
        HeldAlive(parameters, attrs, qualityfields, currentParameter, projection, rt.rc, parameters[q]);
      }
      var p0 := parameters;
      parameters := rt.TablePut(parameters, q, p);
      ParamsStep(p0, parameters, attrs, qualityfields, currentParameter, projection, old(rt.rc), rt.rc, multiset{p}, Stored(p0, q));
    }

    /** RaveObjectHashTable_remove on the parameter table, and a release of what it returns. */
    method DropParameter(name: string)
      requires Accounted()
      modifies this`parameters, rt
      ensures Accounted() && parameters == old(parameters) - {name} && rt.next == old(rt.next)
      ensures forall x :: x in rt.rc ==> x in old(rt.rc)
      ensures rt.rc + old(Held()) == old(rt.rc) + Held()
    {
      if name in parameters {
        HeldAlive(parameters, attrs, qualityfields, currentParameter, projection, rt.rc, parameters[name]);
      }
      var p0 := parameters;
      parameters := rt.TableRemove(parameters, name);
      ParamsStep(p0, parameters, attrs, qualityfields, currentParameter, projection, old(rt.rc), rt.rc, multiset{}, Stored(p0, name));
    }

    /** RaveObjectHashTable_put on the attribute table: a is retained under name, and the entry it replaces is released. */
    method PutAttribute(name: string, a: ObjId)
      requires Accounted() && a in rt.rc
      modifies this`attrs, rt
      ensures Accounted() && attrs == old(attrs)[name := a] && rt.next == old(rt.next)
      ensures forall x :: x in rt.rc ==> x in old(rt.rc)
      ensures rt.rc + old(Held()) == old(rt.rc) + Held()
    {
      if name in attrs {
        HeldAlive(parameters, attrs, qualityfields, currentParameter, projection, rt.rc, attrs[name]);
      }
      var a0 := attrs;
      attrs := rt.TablePut(attrs, name, a);
      AttrsStep(parameters, a0, attrs, qualityfields, currentParameter, projection, old(rt.rc), rt.rc, multiset{a}, Stored(a0, name));
    }

    /** RaveObjectList_add on the quality fields: f is retained and appended. */
    method AppendField(f: ObjId)
      requires Accounted() && f in rt.rc
      modifies this`qualityfields, rt
      ensures Accounted() && qualityfields == old(qualityfields) + [f] && rt.next == old(rt.next)
      ensures rt.rc == old(rt.rc) + multiset{f}
      ensures rt.rc + old(Held()) == old(rt.rc) + Held()
    {
      var q0 := qualityfields;
      rt.Retain(f);
      qualityfields := q0 + [f];
      FieldAppended(parameters, attrs, q0, currentParameter, projection, f, old(rt.rc), rt.rc);
    }

    /** RaveObjectList_remove on the quality fields, and a release of what it returns. */
    method DropField(index: nat)
      requires Accounted() && index < |qualityfields|
      modifies this`qualityfields, rt
      ensures Accounted() && qualityfields == RaveListModel.RemoveAt(old(qualityfields), index) && rt.next == old(rt.next)
      ensures forall x :: x in rt.rc ==> x in old(rt.rc)
      ensures rt.rc + old(Held()) == old(rt.rc) + Held()
    {
      var q0 := qualityfields;
      HeldAlive(parameters, attrs, q0, currentParameter, projection, rt.rc, q0[index]);
      qualityfields := RaveListModel.RemoveAt(q0, index);
      rt.Release(q0[index]);
      FieldRemoved(parameters, attrs, q0, currentParameter, projection, index, old(rt.rc), rt.rc);
    }

    // Parameters

    /**
     * Cartesian_setDefaultParameter: a NULL name is refused and changes nothing.
     * Otherwise the name becomes the default, the current parameter is
     * released, and the table entry under that name (if any) becomes the
     * current parameter; so the current parameter is resolved afterwards.
     */
    method SetDefaultParameter(name: Option<string>) returns (ok: bool)
      requires Accounted()
      modifies this`defaultParameter, this`currentParameter, rt
      ensures Accounted() && rt.next == old(rt.next)
      ensures ok <==> name.Some?
      ensures ok ==> defaultParameter == name.value && CurrentResolved()
      ensures ok ==> currentParameter == if name.value in parameters then Some(parameters[name.value]) else None
      ensures !ok ==> defaultParameter == old(defaultParameter) && currentParameter == old(currentParameter) && rt.rc == old(rt.rc)
      ensures forall x :: x in rt.rc ==> x in old(rt.rc)
      ensures rt.rc + old(Held()) == old(rt.rc) + Held()
    {
      if name.None? {
        return false;
      }
      defaultParameter := name.value;
      var c := None;
      if name.value in parameters {
        c := Some(parameters[name.value]);
      }
      ReplaceCurrent(c);
      ok := true;
    }

    /**
     * Cartesian_addParameter: a NULL parameter, or one without a quantity, is
     * refused. An empty table first adopts the parameter's grid size; a
     * parameter whose size differs from the grid's is refused. An accepted
     * parameter is stored under its quantity, replacing any earlier one, and
     * becomes the current parameter exactly when its quantity is the default
     * name.
     */
    method AddParameter(p: Option<ObjId>, info: ParamInfo) returns (ok: bool)
      requires Valid() && (p.Some? ==> p.value in rt.rc)
      modifies this`xsize, this`ysize, this`parameters, this`currentParameter, rt
      ensures Valid() && rt.next == old(rt.next)
      ensures (xsize, ysize) == if p.Some? then GridAfter(|old(parameters)|, old(xsize), old(ysize), info) else (old(xsize), old(ysize))
      ensures ok == (p.Some? && ParameterAdmitted(|old(parameters)|, old(xsize), old(ysize), info))
      ensures parameters == if ok then old(parameters)[info.quantity.value := p.value] else old(parameters)
      ensures currentParameter == if ok && info.quantity.value == defaultParameter then p else old(currentParameter)
      ensures !ok ==> rt.rc == old(rt.rc)
      ensures forall x :: x in rt.rc ==> x in old(rt.rc)
      ensures rt.rc + old(Held()) == old(rt.rc) + Held()
    {
      ok := false;
      if p.None? || info.quantity.None? {
        return;
      }
      var q := info.quantity.value;
      if |parameters| == 0 {
        // An empty table adopts the parameter's size, so the size check that follows cannot refuse it.
        AdoptGridAndStore(q, p.value, info.xsize, info.ysize);
      } else if info.xsize != xsize || info.ysize != ysize {
        return;
      } else {
        StoreParameter(q, p.value);
      }
      ok := true;
    }

    /** addParameter on an empty table: the grid takes the parameter's size, and the parameter is stored. */
    method AdoptGridAndStore(q: string, p: ObjId, x: int, y: int)
      requires Valid() && p in rt.rc
      modifies this`xsize, this`ysize, this`parameters, this`currentParameter, rt
      ensures Valid() && rt.next == old(rt.next)
      ensures xsize == x && ysize == y
      ensures parameters == old(parameters)[q := p]
      ensures currentParameter == if q == defaultParameter then Some(p) else old(currentParameter)
      ensures forall x :: x in rt.rc ==> x in old(rt.rc)
      ensures rt.rc + old(Held()) == old(rt.rc) + Held()
    {
      AdoptGrid(x, y);
      StoreParameter(q, p);
    }

    /** The grid size of addParameter on an empty table; the product's references and their counts are untouched. */
    method AdoptGrid(x: int, y: int)
      requires Valid()
      modifies this`xsize, this`ysize
      ensures xsize == x && ysize == y
      ensures Valid() && Held() == old(Held())
      ensures parameters == old(parameters) && currentParameter == old(currentParameter) && defaultParameter == old(defaultParameter)
    {
      xsize, ysize := x, y;
    }

    /** The storing half of addParameter: the put, then the current parameter when q is the default name. */
    method StoreParameter(q: string, p: ObjId)
      requires Valid() && p in rt.rc
      modifies this`parameters, this`currentParameter, rt
      ensures Valid() && rt.next == old(rt.next)
      ensures parameters == old(parameters)[q := p]
      ensures currentParameter == if q == defaultParameter then Some(p) else old(currentParameter)
      ensures forall x :: x in rt.rc ==> x in old(rt.rc)
      ensures rt.rc + old(Held()) == old(rt.rc) + Held()
    {
      if q == defaultParameter {
        StoreCurrent(q, p);
      } else {
        PutParameter(q, p);
        ResolvedAfterPut(defaultParameter, old(parameters), q, p, currentParameter);
      }
    }

    /** addParameter under the default name: the put, then the parameter becomes the current one. */
    method StoreCurrent(q: string, p: ObjId)
      requires Accounted() && p in rt.rc
      modifies this`parameters, this`currentParameter, rt
      ensures Accounted() && rt.next == old(rt.next)
      ensures parameters == old(parameters)[q := p] && currentParameter == Some(p)
      ensures forall x :: x in rt.rc ==> x in old(rt.rc)
      ensures rt.rc + old(Held()) == old(rt.rc) + Held()
    {
      PutParameter(q, p);
      ghost var rc1, h1 := rt.rc, Held();
      assert parameters[q] == p;
      ReplaceCurrent(Some(p));
      Chain(old(rt.rc), rc1, rt.rc, old(Held()), h1, Held());
    }

    /** Cartesian_getParameter: the entry under name, retained for the caller, or none. */
    method GetParameter(name: string) returns (r: Option<ObjId>)
      requires Valid()
      modifies rt
      ensures Valid() && rt.next == old(rt.next)
      ensures r == if name in parameters then Some(parameters[name]) else None
      ensures rt.rc == old(rt.rc) + OptRef(r)
    {
      r := None;
      if name in parameters {
        r := Some(parameters[name]);
        HeldAlive(parameters, attrs, qualityfields, currentParameter, projection, rt.rc, r.value);
        rt.Retain(r.value);
      }
    }

    /** Cartesian_removeParameter: the entry under name leaves the table and is released; the current parameter is kept as it is. */
    method RemoveParameter(name: string)
      requires Valid()
      modifies this`parameters, rt
      ensures Valid() && rt.next == old(rt.next)
      ensures parameters == old(parameters) - {name}
      ensures currentParameter == old(currentParameter)
      ensures forall x :: x in rt.rc ==> x in old(rt.rc)
      ensures rt.rc + old(Held()) == old(rt.rc) + Held()
    {
      DropParameter(name);
    }

    /** Cartesian_getParameterNames: every quantity in the table, once each. */
    method GetParameterNames() returns (names: seq<string>)
      ensures forall k :: k in names <==> k in parameters
      ensures forall i, j :: 0 <= i < j < |names| ==> names[i] != names[j]
    {
      names := TableKeys(parameters);
    }

    /**
     * Cartesian_createParameter: with a grid of positive size, a quantity and
     * a defined data type, a fresh parameter of the grid's size is created
     * and added under the quantity; the caller receives the one reference
     * beyond the table's. Otherwise nothing happens.
     */
    method CreateParameter(quantity: Option<string>, t: RaveDataType) returns (r: Option<ObjId>)
      requires Valid()
      modifies this`xsize, this`ysize, this`parameters, this`currentParameter, rt
      ensures Valid() && xsize == old(xsize) && ysize == old(ysize)
      ensures r.Some? <==> old(xsize) > 0 && old(ysize) > 0 && quantity.Some? && t != Undefined
      ensures r.Some? ==> r.value == old(rt.next) && r.value !in old(rt.rc) && rt.next == old(rt.next) + 1
      ensures r.Some? ==> parameters == old(parameters)[quantity.value := r.value]
      ensures r.Some? ==> currentParameter == if quantity.value == defaultParameter then r else old(currentParameter)
      ensures r.None? ==> parameters == old(parameters) && currentParameter == old(currentParameter)
      ensures r.None? ==> rt.rc == old(rt.rc) && rt.next == old(rt.next)
      ensures rt.rc + old(Held()) == old(rt.rc) + Held() + OptRef(r)
    {
      r := None;
      if xsize > 0 && ysize > 0 && quantity.Some? && t != Undefined {
        var x := rt.New();
        ghost var rc1 := rt.rc;
        Created(old(rt.rc), rc1, Held(), x);
        var ok := AddParameter(Some(x), ParamInfo(quantity, xsize, ysize));
        r := Some(x);
        Handed(old(rt.rc), rc1, rt.rc, old(Held()), Held(), x);
      }
    }

    /** One step of isTransformable: the parameter is fetched from the list, asked, and released again. */
    method ProbeParameter(param: ObjId, ready: set<ObjId>) returns (ok: bool)
      requires rt.Valid() && param in rt.rc
      modifies rt
      ensures rt.Valid() && rt.rc == old(rt.rc) && rt.next == old(rt.next)
      ensures ok <==> param in ready
    {
      rt.Retain(param);
      ok := param in ready;
      rt.Release(param);
      Cancel(rt.rc, old(rt.rc), multiset{param});
    }

    /** The loop of isTransformable over the listed parameters: it stops at the first one refused. */
    method ProbeParameters(params: seq<ObjId>, ready: set<ObjId>) returns (ok: bool)
      requires rt.Valid() && forall j :: 0 <= j < |params| ==> params[j] in rt.rc
      modifies rt
      ensures rt.Valid() && rt.rc == old(rt.rc) && rt.next == old(rt.next)
      ensures ok <==> forall j :: 0 <= j < |params| ==> params[j] in ready
    {
      ok := true;
      var i := 0;
      while ok && i < |params|
        invariant 0 <= i <= |params|
        invariant rt.Valid() && rt.rc == old(rt.rc)
        invariant rt.next == old(rt.next)
        invariant ok ==> forall j :: 0 <= j < i ==> params[j] in ready
        invariant !ok ==> 0 < i && params[i - 1] !in ready
      {
        ok := ProbeParameter(params[i], ready);
        i := i + 1;
      }
    }

    /**
     * The listed values of isTransformable, owned by the list while the
     * parameters are probed; the list's references are given back at the end.
     */
    method ProbeListed(params: seq<ObjId>, ready: set<ObjId>, go: bool) returns (ok: bool)
      requires rt.Valid() && forall j :: 0 <= j < |params| ==> params[j] in rt.rc
      modifies rt
      ensures rt.Valid() && rt.rc == old(rt.rc) && rt.next == old(rt.next)
      ensures ok <==> go && forall j :: 0 <= j < |params| ==> params[j] in ready
    {
      rt.RetainAll(params);
      ok := false;
      if go {
        forall j | 0 <= j < |params| ensures params[j] in rt.rc {
          assert params[j] in old(rt.rc);
        }
        ok := ProbeParameters(params, ready);
      }
      rt.ReleaseAll(params);
      Cancel(rt.rc, old(rt.rc), multiset(params));
    }

    /**
     * Cartesian_isTransformable: the product is transformable when it has a
     * parameter, positive scales and a projection, and every parameter is
     * transformable. CartesianParam_isTransformable is given as the set
     * `ready` of the parameters it accepts. The values are listed and each is
     * fetched and released in turn; the walk stops at the first refusal, and
     * every reference taken is given back.
     */
    method IsTransformable(ready: set<ObjId>) returns (ok: bool)
      requires Valid()
      modifies rt
      ensures Valid() && rt.rc == old(rt.rc) && rt.next == old(rt.next)
      ensures ok == TransformableSpec(parameters, xscale, yscale, projection, ready)
    {
      var params := TableValues(parameters);
      ParamsHeld(params, parameters, attrs, qualityfields, currentParameter, projection, rt.rc);
      ok := ProbeListed(params, ready, |params| > 0 && xscale > 0.0 && yscale > 0.0 && projection.Some?);
      ListedValues(params, parameters, ready);
    }

    // Attributes

    /**
     * Cartesian_addAttribute: an attribute with a NULL name is ignored, and
     * one whose name is not accepted is refused; both leave the table as it
     * was. An accepted one is stored under its full name, replacing any
     * earlier one.
     */
    method AddAttribute(a: ObjId, name: Option<string>) returns (ok: bool)
      requires Valid() && a in rt.rc
      modifies this`attrs, rt
      ensures Valid() && rt.next == old(rt.next)
      ensures ok <==> name.Some? && AttributeNameAccepted(name.value)
      ensures attrs == if ok then old(attrs)[name.value := a] else old(attrs)
      ensures !ok ==> rt.rc == old(rt.rc)
      ensures forall x :: x in rt.rc ==> x in old(rt.rc)
      ensures rt.rc + old(Held()) == old(rt.rc) + Held()
    {
      if name.None? || !AttributeNameAccepted(name.value) {
        return false;
      }
      PutAttribute(name.value, a);
      ok := true;
    }

    /** Cartesian_getAttribute: the attribute under name, retained for the caller; none for a NULL or unknown name. */
    method GetAttribute(name: Option<string>) returns (r: Option<ObjId>)
      requires Valid()
      modifies rt
      ensures Valid() && rt.next == old(rt.next)
      ensures r == if name.Some? && name.value in attrs then Some(attrs[name.value]) else None
      ensures rt.rc == old(rt.rc) + OptRef(r)
    {
      r := None;
      if name.Some? && name.value in attrs {
        r := Some(attrs[name.value]);
        HeldAlive(parameters, attrs, qualityfields, currentParameter, projection, rt.rc, r.value);
        rt.Retain(r.value);
      }
    }

    /** Cartesian_getAttributeNames: every attribute name in the table, once each. */
    method GetAttributeNames() returns (names: seq<string>)
      ensures forall k :: k in names <==> k in attrs
      ensures forall i, j :: 0 <= i < j < |names| ==> names[i] != names[j]
    {
      names := TableKeys(attrs);
    }

    // Quality fields

    /** Cartesian_addQualityField: the field is retained and appended. */
    method AddQualityField(f: ObjId) returns (ok: bool)
      requires Valid() && f in rt.rc
      modifies this`qualityfields, rt
      ensures Valid() && ok && qualityfields == old(qualityfields) + [f]
      ensures rt.next == old(rt.next)
      ensures rt.rc == old(rt.rc) + multiset{f}
      ensures rt.rc + old(Held()) == old(rt.rc) + Held()
    {
      AppendField(f);
      ok := true;
    }

    /** Cartesian_getQualityField: the field at index, retained for the caller; none out of range. */
    method GetQualityField(index: int) returns (r: Option<ObjId>)
      requires Valid()
      modifies rt
      ensures Valid() && rt.next == old(rt.next)
      ensures r == if 0 <= index < |qualityfields| then Some(qualityfields[index]) else None
      ensures rt.rc == old(rt.rc) + OptRef(r)
    {
      r := None;
      if 0 <= index < |qualityfields| {
        r := Some(qualityfields[index]);
        HeldAlive(parameters, attrs, qualityfields, currentParameter, projection, rt.rc, r.value);
        rt.Retain(r.value);
      }
    }

    /** Cartesian_removeQualityField: the field at index leaves the list and is released; out of range nothing happens. */
    method RemoveQualityField(index: int)
      requires Valid()
      modifies this`qualityfields, rt
      ensures Valid() && rt.next == old(rt.next)
      ensures qualityfields == if 0 <= index < |old(qualityfields)| then RaveListModel.RemoveAt(old(qualityfields), index) else old(qualityfields)
      ensures forall x :: x in rt.rc ==> x in old(rt.rc)
      ensures rt.rc + old(Held()) == old(rt.rc) + Held()
    {
      if 0 <= index < |qualityfields| {
        DropField(index);
      }
    }

    // Projection

    /**
     * Cartesian_setProjection: the old projection is released and the new one
     * (if any) retained. The old one goes first, so the caller must hold a
     * reference of its own to a projection it passes in.
     */
    method SetProjection(p: Option<ObjId>)
      requires Valid()
      requires p.Some? ==> p.value in rt.rc - Held()
      modifies this`projection, rt
      ensures Valid() && projection == p && rt.next == old(rt.next)
      ensures forall x :: x in rt.rc ==> x in old(rt.rc)
      ensures rt.rc + old(Held()) == old(rt.rc) + Held()
    {
      ReplaceProjection(p);
    }

    /** The release and retain of setProjection, on the counted references alone. */
    method ReplaceProjection(p: Option<ObjId>)
      requires Accounted()
      requires p.Some? ==> p.value in rt.rc - Held()
      modifies this`projection, rt
      ensures Accounted() && projection == p && rt.next == old(rt.next)
      ensures forall x :: x in rt.rc ==> x in old(rt.rc)
      ensures rt.rc + old(Held()) == old(rt.rc) + Held()
    {
      ReleaseProjection();
      if p.Some? {
        ghost var rc1, h1 := rt.rc, Held();
        StillOwned(old(rt.rc), rc1, old(Held()), h1, p.value);
        AdoptProjection(p.value);
        Chain(old(rt.rc), rc1, rt.rc, old(Held()), h1, Held());
      }
    }

    /** Cartesian_getProjection: the projection, retained for the caller, or none. */
    method GetProjection() returns (r: Option<ObjId>)
      requires Valid()
      modifies rt
      ensures Valid() && rt.next == old(rt.next)
      ensures r == projection
      ensures rt.rc == old(rt.rc) + OptRef(r)
    {
      r := projection;
      if r.Some? {
        HeldAlive(parameters, attrs, qualityfields, currentParameter, projection, rt.rc, r.value);
        rt.Retain(r.value);
      }
    }

    /**
     * Cartesian_init: scales, sizes and extent from the area; its projection,
     * fetched with a reference of the caller's own that is given back at the
     * end, becomes the product's projection.
     */
    method Init(area: Area)
      requires Valid()
      requires area.projection.Some? ==> area.projection.value in rt.rc
      modifies this`xscale, this`yscale, this`xsize, this`ysize, this`llX, this`llY, this`urX, this`urY, this`projection, rt
      ensures Valid() && rt.next == old(rt.next)
      ensures xscale == area.xscale && yscale == area.yscale && xsize == area.xsize && ysize == area.ysize
      ensures llX == area.llX && llY == area.llY && urX == area.urX && urY == area.urY
      ensures projection == area.projection
      ensures forall x :: x in rt.rc ==> x in old(rt.rc)
      ensures rt.rc + old(Held()) == old(rt.rc) + Held()
    {
      // The projection goes first: the scalar settings take no reference and do not depend on it.
      ProjectionFromArea(area.projection);
      InitGeometry(area);
    }

    /** The scales, sizes and extent init takes from the area; no field the product's references live in changes. */
    method InitGeometry(area: Area)
      modifies this`xscale, this`yscale, this`xsize, this`ysize, this`llX, this`llY, this`urX, this`urY
      ensures xscale == area.xscale && yscale == area.yscale && xsize == area.xsize && ysize == area.ysize
      ensures llX == area.llX && llY == area.llY && urX == area.urX && urY == area.urY
      ensures parameters == old(parameters) && attrs == old(attrs) && qualityfields == old(qualityfields)
      ensures currentParameter == old(currentParameter) && projection == old(projection) && defaultParameter == old(defaultParameter)
    {
      xscale, yscale, xsize, ysize := area.xscale, area.yscale, area.xsize, area.ysize;
      llX, llY, urX, urY := area.llX, area.llY, area.urX, area.urY;
    }

    /**
     * The projection part of init: Area_getProjection hands over a reference of
     * the caller's own, setProjection stores the projection, and that
     * reference is released (init does so last, after setting the extent,
     * which involves no reference).
     */
    method ProjectionFromArea(p: Option<ObjId>)
      requires Accounted() && (p.Some? ==> p.value in rt.rc)
      modifies this`projection, rt
      ensures Accounted() && projection == p && rt.next == old(rt.next)
      ensures forall x :: x in rt.rc ==> x in old(rt.rc)
      ensures rt.rc + old(Held()) == old(rt.rc) + Held()
    {
      if p.Some? {
        rt.Retain(p.value);
        Owned(old(rt.rc), Held(), p.value);
        ghost var rc1 := rt.rc;
        ReplaceProjection(p);
        ghost var rc2 := rt.rc;
        OwnInUse(old(rt.rc), rc1, rc2, old(Held()), Held(), p.value);
        rt.Release(p.value);
        OwnReturned(old(rt.rc), rc1, rc2, rt.rc, old(Held()), Held(), p.value);
      } else {
        ReplaceProjection(p);
      }
    }

    /**
     * Cartesian_copyconstructor: the scalars, date/times, data type, default
     * name and source are copied; the current parameter, the attributes, the
     * quality fields and the parameters are cloned into fresh objects, under
     * the same keys and in the same order. Setting the default name again
     * releases the cloned current parameter and resolves the current parameter
     * among the cloned parameters. Last the projection is cloned. This is the
     * clone without the leak of CloneHoldingsAsWritten: the counts grow by
     * exactly what the clone holds.
     */
    constructor Copy(src: Cartesian)
      requires src.rt.Valid()
      modifies src.rt
      ensures rt == src.rt && Valid()
      ensures xscale == old(src.xscale) && yscale == old(src.yscale) && xsize == old(src.xsize) && ysize == old(src.ysize)
      ensures llX == old(src.llX) && llY == old(src.llY) && urX == old(src.urX) && urY == old(src.urY)
      ensures product == old(src.product) && objectType == old(src.objectType) && dataType == old(src.dataType)
      ensures datetime == old(src.datetime) && startdatetime == old(src.startdatetime) && enddatetime == old(src.enddatetime)
      ensures source == old(src.source) && defaultParameter == old(src.defaultParameter)
      ensures parameters.Keys == old(src.parameters.Keys) && attrs.Keys == old(src.attrs.Keys)
      ensures |qualityfields| == |old(src.qualityfields)|
      ensures forall k :: k in parameters ==> parameters[k] >= old(src.rt.next)
      ensures forall k :: k in attrs ==> attrs[k] >= old(src.rt.next)
      ensures forall i :: 0 <= i < |qualityfields| ==> qualityfields[i] >= old(src.rt.next)
      ensures currentParameter == if defaultParameter in parameters then Some(parameters[defaultParameter]) else None
      ensures projection.Some? <==> old(src.projection).Some?
      ensures projection.Some? ==> projection.value >= old(src.rt.next)
      ensures rt.rc == old(src.rt.rc) + Held()
    {
      rt := src.rt;
      xscale, yscale, xsize, ysize := src.xscale, src.yscale, src.xsize, src.ysize;
      llX, llY, urX, urY := src.llX, src.llY, src.urX, src.urY;
      product, objectType, dataType := src.product, src.objectType, src.dataType;
      datetime, startdatetime, enddatetime := src.datetime, src.startdatetime, src.enddatetime;
      source, defaultParameter := src.source, src.defaultParameter;
      var p, a, q, c, j := CloneHoldings(src.rt, src.parameters, src.attrs, src.qualityfields,
                                         src.currentParameter, src.projection, src.defaultParameter);
      projection, currentParameter, attrs, qualityfields, parameters := j, c, a, q, p;
      new;
      assert rt.Valid() && HeldOf(p, a, q, c, j) <= rt.rc;
      assert parameters == p && attrs == a && qualityfields == q && currentParameter == c && projection == j;
    }

    /**
     * Cartesian_destructor: the projection, the current parameter, the
     * attributes, the quality fields and the parameters are released, in that
     * order, and the product holds nothing any more.
     */
    method Destroy()
      requires Accounted()
      modifies this`projection, this`currentParameter, this`attrs, this`qualityfields, this`parameters, rt
      ensures Valid() && rt.next == old(rt.next)
      ensures rt.rc + old(Held()) == old(rt.rc)
      ensures projection == None && currentParameter == None
      ensures attrs == map[] && qualityfields == [] && parameters == map[]
      ensures Held() == multiset{}
    {
      var j, c, a, q, p := projection, currentParameter, attrs, qualityfields, parameters;
      Clear();
      ReleaseHeld(p, a, q, c, j);
    }

    /** The destructor's view of the fields once everything is given up: nothing is held. */
    method Clear()
      modifies this`projection, this`currentParameter, this`attrs, this`qualityfields, this`parameters
      ensures projection == None && currentParameter == None
      ensures attrs == map[] && qualityfields == [] && parameters == map[]
      ensures Held() == multiset{} && CurrentResolved()
    {
      projection, currentParameter, attrs, qualityfields, parameters := None, None, map[], [], map[];
      NothingHeld();
    }

    /** Releases the references held through the given parts, in the destructor's order. */
    method ReleaseHeld(p: map<string, ObjId>, a: map<string, ObjId>, q: seq<ObjId>, c: Option<ObjId>, j: Option<ObjId>)
      requires rt.Valid() && HeldOf(p, a, q, c, j) <= rt.rc
      modifies rt
      ensures rt.Valid() && rt.next == old(rt.next)
      ensures rt.rc + HeldOf(p, a, q, c, j) == old(rt.rc)
    {
      var avs := TableValues(a);
      var ps := TableValues(p);
      ListedHeld(j, c, avs, q, ps, p, a);
      rt.ReleaseAll(OptSeq(j) + OptSeq(c) + avs + q + ps);
    }
  }
}
