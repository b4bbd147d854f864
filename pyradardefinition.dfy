/**
 * The Python binding of the radar definition (pyradardefinition.c): how a
 * Python wrapper and the native object it wraps keep track of each other.
 *
 * A native object lives in the shared RaveObject.Runtime and carries a
 * binding slot naming the wrapper bound to it. A wrapper holds one reference
 * to its native object and has its own Python reference count. Wrapping a
 * native object that already has a wrapper hands out that same wrapper
 * again, so a native object has at most one wrapper.
 */
module PyRadarDefinition {
  import opened Wrappers
  import opened RaveObject

  /** The identity of a Python wrapper object. */
  type WrapperId = nat

  /**
   * The state of the two layers: the native reference counts and the next
   * fresh native identity (as in RaveObject.Runtime), the binding slot of
   * every bound native object, the native object each live wrapper holds, the
   * Python reference counts of the wrappers, and the next fresh wrapper
   * identity.
   */
  datatype Layer = Layer(rc: multiset<ObjId>, next: ObjId, binding: map<ObjId, WrapperId>,
                         def: map<WrapperId, ObjId>, refs: multiset<WrapperId>, nextWrapper: WrapperId)

  /**
   * The invariant of the two layers: identities are fresh below their
   * counters; a wrapper somebody refers to is live; binding and wrapping are
   * inverse to each other, so a native object has at most one wrapper; and
   * the native object of a live wrapper is alive.
   */
  ghost predicate Inv(l: Layer) {
    && (forall x :: x in l.rc ==> x < l.next)
    && (forall w :: w in l.def ==> w < l.nextWrapper)
    && (forall w :: w in l.refs ==> w in l.def)
    && Inverse(l.binding, l.def)
    && (forall w :: w in l.def ==> l.def[w] in l.rc)
  }

  /** The binding slots and the wrapped objects name each other. */
  ghost predicate Inverse(binding: map<ObjId, WrapperId>, def: map<WrapperId, ObjId>) {
    && (forall x :: x in binding ==> binding[x] in def && def[binding[x]] == x)
    && (forall w :: w in def ==> def[w] in binding && binding[def[w]] == w)
  }

  /** Binding an unbound native object to a fresh wrapper keeps the two maps inverse. */
  lemma BindKeepsInverse(binding: map<ObjId, WrapperId>, def: map<WrapperId, ObjId>, x: ObjId, w: WrapperId)
    requires Inverse(binding, def) && x !in binding && w !in def
    ensures Inverse(binding[x := w], def[w := x])
  {
    var b, d := binding[x := w], def[w := x];
    forall v | v in d ensures d[v] in b && b[d[v]] == v {
      if v != w {
        assert d[v] == def[v] && def[v] != x;
      }
    }
  }

  /** Unbinding a wrapper and its native object keeps the two maps inverse. */
  lemma UnbindKeepsInverse(binding: map<ObjId, WrapperId>, def: map<WrapperId, ObjId>, w: WrapperId)
    requires Inverse(binding, def) && w in def
    ensures Inverse(binding - {def[w]}, def - {w})
  {
    var x := def[w];
    var b, d := binding - {x}, def - {w};
    forall v | v in d ensures d[v] in b && b[d[v]] == v {
      assert def[v] != x;
    }
  }

  /** The outcome of PyRadarDefinition_New: the new state and the wrapper returned, none on a MemoryError. */
  datatype NewResult = NewResult(layer: Layer, wrapper: Option<WrapperId>)

  /**
   * PyRadarDefinition_New. Without a native object one is created
   * (nativeOk says whether that allocation succeeds). A native object that
   * is already bound gives its wrapper one more Python reference. Otherwise
   * a wrapper is allocated (wrapperOk says whether that succeeds); it holds
   * one reference to the native object, is bound to it, and starts with one
   * Python reference. The temporary reference taken at the start is given
   * back, so an unbound native object is left with one reference more, a
   * created one with exactly the wrapper's, and a failure with none.
   */
  function NewStep(l: Layer, p: Option<ObjId>, nativeOk: bool, wrapperOk: bool): (r: NewResult)
    ensures r.wrapper.None? ==> r.layer.(next := l.next) == l
  {
    if p.None? then
      if !nativeOk then NewResult(l, None)
      else if !wrapperOk then NewResult(l.(next := l.next + 1), None)
      else
        var x, w := l.next, l.nextWrapper;
        NewResult(Layer(l.rc + multiset{x}, x + 1, l.binding[x := w], l.def[w := x], l.refs + multiset{w}, w + 1), Some(w))
    else if p.value in l.binding then
      NewResult(l.(refs := l.refs + multiset{l.binding[p.value]}), Some(l.binding[p.value]))
    else if !wrapperOk then NewResult(l, None)
    else
      var x, w := p.value, l.nextWrapper;
      NewResult(l.(rc := l.rc + multiset{x}, binding := l.binding[x := w], def := l.def[w := x],
                   refs := l.refs + multiset{w}, nextWrapper := w + 1), Some(w))
  }

  /**
   * _pyradardefinition_dealloc on a live wrapper nobody refers to any more:
   * the native object is unbound, then the wrapper's reference to it is
   * released, then the wrapper is deleted.
   */
  function DeallocStep(l: Layer, w: WrapperId): (r: Layer)
    requires w in l.def
    ensures r.def.Keys == l.def.Keys - {w} && r.refs == l.refs
  {
    var x := l.def[w];
    l.(binding := if x in l.binding && l.binding[x] == w then l.binding - {x} else l.binding,
       rc := l.rc - multiset{x}, def := l.def - {w})
  }

  /** PyRadarDefinition_GetNative: the caller gets one more reference to the wrapped native object. */
  function GetNativeStep(l: Layer, w: WrapperId): (r: Layer)
    requires w in l.def
    ensures r.rc == l.rc + multiset{l.def[w]} && r.binding == l.binding && r.def == l.def && r.refs == l.refs
  {
    l.(rc := l.rc + multiset{l.def[w]})
  }

  /** Every step keeps the invariant, given what each step demands of its caller. */
  lemma NewKeepsInv(l: Layer, p: Option<ObjId>, nativeOk: bool, wrapperOk: bool)
    requires Inv(l) && (p.Some? ==> p.value in l.rc)
    ensures Inv(NewStep(l, p, nativeOk, wrapperOk).layer)
  {
    if p.None? && nativeOk && wrapperOk {
      BindKeepsInv(l, l.next, l.rc + multiset{l.next}, l.next + 1);
    } else if p.Some? && p.value !in l.binding && wrapperOk {
      BindKeepsInv(l, p.value, l.rc + multiset{p.value}, l.next);
    }
  }

  /** Binding an unbound native object, alive in the new counts, to the next wrapper keeps the invariant. */
  lemma BindKeepsInv(l: Layer, x: ObjId, rc: multiset<ObjId>, next: ObjId)
    requires Inv(l) && x !in l.binding && x in rc && l.rc <= rc
    requires forall y :: y in rc ==> y < next
    ensures Inv(Layer(rc, next, l.binding[x := l.nextWrapper], l.def[l.nextWrapper := x],
                      l.refs + multiset{l.nextWrapper}, l.nextWrapper + 1))
  {
    BindKeepsInverse(l.binding, l.def, x, l.nextWrapper);
  }

  /** Deallocation keeps the invariant: the wrapper goes, together with its binding and its reference. */
  lemma DeallocKeepsInv(l: Layer, w: WrapperId)
    requires Inv(l) && w in l.def && w !in l.refs
    ensures Inv(DeallocStep(l, w))
  {
    var x := l.def[w];
    UnbindKeepsInverse(l.binding, l.def, w);
    forall v | v in l.def - {w} ensures l.def[v] in l.rc - multiset{x} {
      assert l.def[v] != x;
    }
  }

  /** Wrapping without a native object creates one whose only reference is the new wrapper's, bound to that wrapper. */
  lemma NewCreates(l: Layer, nativeOk: bool, wrapperOk: bool)
    requires Inv(l)
    ensures var r := NewStep(l, None, nativeOk, wrapperOk);
            r.wrapper.Some? <==> nativeOk && wrapperOk
    ensures var r := NewStep(l, None, nativeOk, wrapperOk);
            r.wrapper.Some? ==> var w, x := r.wrapper.value, r.layer.def[r.wrapper.value];
              && w !in l.def && x !in l.rc
              && r.layer.rc[x] == 1 && r.layer.rc == l.rc + multiset{x}
              && r.layer.binding == l.binding[x := w] && r.layer.refs == l.refs + multiset{w}
  {
  }

  /** Wrapping a bound native object returns its wrapper with one more Python reference; the native counts do not move. */
  lemma NewBound(l: Layer, x: ObjId, nativeOk: bool, wrapperOk: bool)
    requires Inv(l) && x in l.binding
    ensures NewStep(l, Some(x), nativeOk, wrapperOk)
              == NewResult(l.(refs := l.refs + multiset{l.binding[x]}), Some(l.binding[x]))
  {
  }

  /** Wrapping an unbound native object binds it to a fresh wrapper, which holds one more reference to it. */
  lemma NewUnbound(l: Layer, x: ObjId, nativeOk: bool, wrapperOk: bool)
    requires Inv(l) && x in l.rc && x !in l.binding
    ensures var r := NewStep(l, Some(x), nativeOk, wrapperOk);
            r.wrapper.Some? <==> wrapperOk
    ensures var r := NewStep(l, Some(x), nativeOk, wrapperOk);
            r.wrapper.Some? ==> var w := r.wrapper.value;
              && w !in l.def && r.layer.def == l.def[w := x]
              && r.layer.rc == l.rc + multiset{x}
              && r.layer.binding == l.binding[x := w] && r.layer.refs == l.refs + multiset{w}
  {
  }

  /** Wrapping the same native object twice gives the identical wrapper, whatever the allocations do the second time. */
  lemma {:induction false} NewTwiceSameWrapper(l: Layer, x: ObjId, nativeOk: bool, wrapperOk: bool, nativeOk2: bool, wrapperOk2: bool)
    requires Inv(l) && x in l.rc
    requires NewStep(l, Some(x), nativeOk, wrapperOk).wrapper.Some?
    ensures var r1 := NewStep(l, Some(x), nativeOk, wrapperOk);
            var r2 := NewStep(r1.layer, Some(x), nativeOk2, wrapperOk2);
            r2.wrapper == r1.wrapper
  {
    var r1 := NewStep(l, Some(x), nativeOk, wrapperOk);
    NewKeepsInv(l, Some(x), nativeOk, wrapperOk);
    assert x in r1.layer.binding && r1.layer.binding[x] == r1.wrapper.value;
    NewBound(r1.layer, x, nativeOk2, wrapperOk2);
  }

  /** Deallocation unbinds the native object and gives back exactly the wrapper's one reference. */
  lemma DeallocUnbinds(l: Layer, w: WrapperId)
    requires Inv(l) && w in l.def
    ensures var x := l.def[w];
            var r := DeallocStep(l, w);
            x !in r.binding && r.rc + multiset{x} == l.rc && r.binding == l.binding - {x}
  {
    assert l.binding[l.def[w]] == w;
  }

  /**
   * Round trip: wrapping an unbound native object, dropping the one Python
   * reference New handed out and deallocating the wrapper gives back the
   * original state, but for the wrapper identity used up.
   */
  lemma {:induction false} DeallocUndoesNew(l: Layer, x: ObjId, nativeOk: bool)
    requires x !in l.binding && l.nextWrapper !in l.def
    ensures var r := NewStep(l, Some(x), nativeOk, true);
            var w := r.wrapper.value;
            DeallocStep(r.layer.(refs := r.layer.refs - multiset{w}), w) == l.(nextWrapper := l.nextWrapper + 1)
  {
    var w := l.nextWrapper;
    var l1 := l.(rc := l.rc + multiset{x}, binding := l.binding[x := w], def := l.def[w := x],
                 refs := l.refs + multiset{w}, nextWrapper := w + 1);
    assert NewStep(l, Some(x), nativeOk, true) == NewResult(l1, Some(w));
    UnbindAfterBind(l.binding, l.def, x, w);
    assert (l.rc + multiset{x}) - multiset{x} == l.rc;
    assert (l.refs + multiset{w}) - multiset{w} == l.refs;
  }

  /** Taking out a pair just put in gives back both maps. */
  lemma UnbindAfterBind(binding: map<ObjId, WrapperId>, def: map<WrapperId, ObjId>, x: ObjId, w: WrapperId)
    requires x !in binding && w !in def
    ensures binding[x := w] - {x} == binding && def[w := x] - {w} == def
  {
  }

  /**
   * The two layers over a shared runtime. The native reference counts live in
   * the runtime; the binding slots, the wrapped objects and the Python
   * reference counts live here.
   */
  class Interpreter {
    const rt: Runtime
    var binding: map<ObjId, WrapperId>
    var def: map<WrapperId, ObjId>
    var refs: multiset<WrapperId>
    var nextWrapper: WrapperId

    /** The state of both layers as a value. */
    function Contents(): Layer
      reads this, rt`rc, rt`next
    {
      Layer(rt.rc, rt.next, binding, def, refs, nextWrapper)
    }

    ghost predicate Valid()
      reads this, rt`rc, rt`next
    {
      Inv(Contents())
    }

    /** No wrapper exists yet. */
    constructor (rt: Runtime)
      requires rt.Valid()
      ensures this.rt == rt && Valid()
      ensures binding == map[] && def == map[] && refs == multiset{} && nextWrapper == 0
    {
      this.rt := rt;
      binding, def, refs, nextWrapper := map[], map[], multiset{}, 0;
    }

    /** PyRadarDefinition_New, with the outcome of its two allocations as parameters. */
    method New(p: Option<ObjId>, nativeOk: bool, wrapperOk: bool) returns (r: Option<WrapperId>)
      requires Valid() && (p.Some? ==> p.value in rt.rc)
      modifies this, rt
      ensures Valid()
      ensures Contents() == NewStep(old(Contents()), p, nativeOk, wrapperOk).layer
      ensures r == NewStep(old(Contents()), p, nativeOk, wrapperOk).wrapper
    {
      NewKeepsInv(Contents(), p, nativeOk, wrapperOk);
      if p.None? {
        r := NewNative(nativeOk, wrapperOk);
      } else {
        r := NewFrom(p.value, wrapperOk);
      }
    }

    /** New without a native object: one is created, wrapped, and the creation's own reference given back. */
    method NewNative(nativeOk: bool, wrapperOk: bool) returns (r: Option<WrapperId>)
      requires rt.Valid()
      modifies this, rt
      ensures Contents() == NewStep(old(Contents()), None, nativeOk, wrapperOk).layer
      ensures r == NewStep(old(Contents()), None, nativeOk, wrapperOk).wrapper
    {
      if !nativeOk {
        return None;
      }
      var cp := rt.New();
      r := None;
      ghost var rc1 := rt.rc;
      if wrapperOk {
        var w := Wrap(cp);
        r := Some(w);
      }
      rt.Release(cp);
      if wrapperOk {
        Cancel(rt.rc, rc1, multiset{cp});
      } else {
        Cancel(rt.rc, old(rt.rc), multiset{cp});
      }
    }

    /** New on a native object: its wrapper again if it is bound, else a new wrapper; the temporary reference is given back. */
    method NewFrom(cp: ObjId, wrapperOk: bool) returns (r: Option<WrapperId>)
      requires rt.Valid() && cp in rt.rc
      modifies this, rt
      ensures Contents() == NewStep(old(Contents()), Some(cp), true, wrapperOk).layer
      ensures r == NewStep(old(Contents()), Some(cp), true, wrapperOk).wrapper
    {
      rt.Retain(cp);
      if cp in binding {
        r := Some(binding[cp]);
        refs := refs + multiset{binding[cp]};
        rt.Release(cp);
        Cancel(rt.rc, old(rt.rc), multiset{cp});
      } else if wrapperOk {
        ghost var rc1 := rt.rc;
        var w := Wrap(cp);
        r := Some(w);
        rt.Release(cp);
        Cancel(rt.rc, rc1, multiset{cp});
      } else {
        r := None;
        rt.Release(cp);
        Cancel(rt.rc, old(rt.rc), multiset{cp});
      }
    }

    /** PyObject_NEW, then RAVE_OBJECT_COPY of the native object into the wrapper and RAVE_OBJECT_BIND. */
    method Wrap(cp: ObjId) returns (w: WrapperId)
      requires rt.Valid() && cp in rt.rc
      modifies this, rt
      ensures w == old(nextWrapper)
      ensures Contents() == old(Contents()).(rc := old(rt.rc) + multiset{cp}, binding := old(binding)[cp := w],
                                             def := old(def)[w := cp], refs := old(refs) + multiset{w}, nextWrapper := w + 1)
    {
      w := nextWrapper;
      nextWrapper := nextWrapper + 1;
      refs := refs + multiset{w};
      rt.Retain(cp);
      def := def[w := cp];
      binding := binding[cp := w];
    }

    /** _pyradardefinition_dealloc: nothing for a NULL wrapper; otherwise unbind, release, delete. */
    method Dealloc(w: Option<WrapperId>)
      requires Valid() && (w.Some? ==> w.value in def && w.value !in refs)
      modifies this, rt
      ensures Valid()
      ensures Contents() == if w.Some? then DeallocStep(old(Contents()), w.value) else old(Contents())
    {
      if w.Some? {
        DeallocKeepsInv(Contents(), w.value);
        DeallocLive(w.value);
      }
    }

    /** The teardown of a live wrapper: RAVE_OBJECT_UNBIND, RAVE_OBJECT_RELEASE, PyObject_Del. */
    method DeallocLive(w: WrapperId)
      requires rt.Valid() && w in def && def[w] in rt.rc
      modifies this, rt
      ensures Contents() == DeallocStep(old(Contents()), w)
    {
      var x := def[w];
      // RAVE_OBJECT_UNBIND clears the slot only when it names this wrapper.
      var unbound := if x in binding && binding[x] == w then binding - {x} else binding;
      rt.Release(x);
      assert rt.rc == old(rt.rc) - multiset{x};
      binding, def := unbound, def - {w};
    }

    /** PyRadarDefinition_GetNative: the wrapped native object, with one more reference for the caller. */
    method GetNative(w: WrapperId) returns (x: ObjId)
      requires Valid() && w in def
      modifies rt
      ensures Valid()
      ensures x == old(def[w])
      ensures Contents() == GetNativeStep(old(Contents()), w)
    {
      x := def[w];
      rt.Retain(x);
    }
  }
}
