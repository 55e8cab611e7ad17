/**
  Slots in flight: a slot whose reference has been counted out, or not yet
  counted in, although memory already or still shows it.
 */
module InFlight {
  import opened ObjectGraph

  /** The reference in a slot stops counting as the slot's and becomes an external owner. */
  ghost function Take(s: State, w: Ref, i: nat): State
    requires w in s.objects && i < |s.objects[w].slots|
  {
    s.(props := s.props + One(Target(s.objects[w].slots[i])), busy := s.busy + {(w, i)})
  }

  /** An external owner of the value in a slot in flight becomes the slot's own reference. */
  ghost function Settle(s: State, w: Ref, i: nat): State
    requires w in s.objects && i < |s.objects[w].slots|
  {
    s.(props := s.props - One(Target(s.objects[w].slots[i])), busy := s.busy - {(w, i)})
  }

  /** Overwriting a slot. */
  function Write(m: map<Ref, Obj>, w: Ref, i: nat, v: Value): map<Ref, Obj>
    requires w in m && i < |m[w].slots|
  {
    m[w := m[w].(slots := m[w].slots[i := v])]
  }

  lemma TakeEdges(s: State, w: Ref, i: nat)
    requires w in s.objects && i < |s.objects[w].slots|
    ensures forall u: Ref, j: nat, o: Ref ::
        SlotEdge(Take(s, w, i), u, j, o) <==> SlotEdge(s, u, j, o) && !(u == w && j == i)
    ensures forall u: Ref, o: Ref :: WrapEdge(Take(s, w, i), u, o) <==> WrapEdge(s, u, o)
  {
  }

  lemma TakeOwners(s: State, w: Ref, i: nat, o: Ref)
    requires w in s.objects && !s.objects[w].pending && i < |s.objects[w].slots| && (w, i) !in s.busy && o != NULL
    ensures WrapOwners(Take(s, w, i), o) == WrapOwners(s, o)
    ensures |SlotOwners(s, o)| == |SlotOwners(Take(s, w, i), o)| + One(Target(s.objects[w].slots[i]))[o]
  {
    TakeEdges(s, w, i);
    var t := Take(s, w, i);
    assert SlotEdge(s, w, i, o) <==> Target(s.objects[w].slots[i]) == o;
    hide SlotEdge, WrapEdge;
    if Target(s.objects[w].slots[i]) == o {
      assert SlotOwners(s, o) == SlotOwners(t, o) + {(w, i)};
      assert (w, i) !in SlotOwners(t, o);
    } else {
      assert SlotOwners(s, o) == SlotOwners(t, o);
    }
  }

  lemma TakeKeepsBalance(s: State, w: Ref, i: nat)
    requires Balanced(s, NULL) && w in s.objects && !s.objects[w].pending && i < |s.objects[w].slots|
    requires (w, i) !in s.busy
    ensures Balanced(Take(s, w, i), NULL)
  {
    TakeIsClosed(s, w, i);
    hide ShapeOk, SlotOwners, WrapOwners, SlotEdge, WrapEdge;
    forall o | o in s.objects ensures Exact(Take(s, w, i), o) {
      TakeIsExact(s, w, i, o);
    }
  }

  lemma TakeIsClosed(s: State, w: Ref, i: nat)
    requires Closed(s) && w in s.objects && !s.objects[w].pending && i < |s.objects[w].slots| && (w, i) !in s.busy
    ensures Closed(Take(s, w, i))
  {
    TakeEdges(s, w, i);
    assert SlotEdge(s, w, i, Target(s.objects[w].slots[i]));
    hide ShapeOk, SlotEdge, WrapEdge;
    ClosedWithin(s, Take(s, w, i));
  }

  lemma TakeIsExact(s: State, w: Ref, i: nat, o: Ref)
    requires Closed(s) && w in s.objects && !s.objects[w].pending && i < |s.objects[w].slots| && (w, i) !in s.busy
    requires o in s.objects && Exact(s, o)
    ensures Exact(Take(s, w, i), o)
  {
    hide ShapeOk, SlotEdge, WrapEdge, SlotOwners, WrapOwners;
    TakeOwners(s, w, i, o);
  }

  /** Settling is the inverse of taking, provided the value has an external owner to give. */
  lemma SettleKeepsBalance(s: State, w: Ref, i: nat)
    requires Balanced(s, NULL) && w in s.objects && !s.objects[w].pending && i < |s.objects[w].slots|
    requires (w, i) in s.busy
    requires One(Target(s.objects[w].slots[i])) <= s.props
    ensures Balanced(Settle(s, w, i), NULL)
  {
    SettleIsClosed(s, w, i);
    hide ShapeOk, SlotOwners, WrapOwners, SlotEdge, WrapEdge;
    forall o | o in s.objects ensures Exact(Settle(s, w, i), o) {
      SettleIsExact(s, w, i, o);
    }
  }

  lemma SettleInverse(s: State, w: Ref, i: nat)
    requires w in s.objects && i < |s.objects[w].slots| && (w, i) in s.busy
    requires One(Target(s.objects[w].slots[i])) <= s.props
    ensures Take(Settle(s, w, i), w, i) == s
  {
  }

  lemma SettleIsClosed(s: State, w: Ref, i: nat)
    requires Closed(s) && w in s.objects && i < |s.objects[w].slots| && (w, i) in s.busy
    requires One(Target(s.objects[w].slots[i])) <= s.props
    ensures Closed(Settle(s, w, i))
  {
    var t := Settle(s, w, i);
    SettleInverse(s, w, i);
    TakeEdges(t, w, i);
    forall u: Ref, j: nat, o: Ref | SlotEdge(t, u, j, o) && o != NULL ensures o in t.objects {
      if u == w && j == i {
        assert o in One(Target(s.objects[w].slots[i]));
        assert o in s.props;
      }
    }
    forall u: Ref, o: Ref | WrapEdge(t, u, o) && o != NULL ensures o in t.objects {
      assert WrapEdge(s, u, o);
    }
  }

  lemma SettleIsExact(s: State, w: Ref, i: nat, o: Ref)
    requires Closed(s) && w in s.objects && !s.objects[w].pending && i < |s.objects[w].slots| && (w, i) in s.busy
    requires One(Target(s.objects[w].slots[i])) <= s.props
    requires o in s.objects && Exact(s, o)
    ensures Exact(Settle(s, w, i), o)
  {
    hide ShapeOk, SlotEdge, WrapEdge, SlotOwners, WrapOwners;
    SettleInverse(s, w, i);
    TakeOwners(Settle(s, w, i), w, i, o);
  }

  /** While a slot is in flight, what it shows does not matter. */
  lemma BusyWrite(s: State, w: Ref, i: nat, v: Value)
    requires Balanced(s, NULL) && w in s.objects && i < |s.objects[w].slots| && (w, i) in s.busy
    requires s.objects[w].cls.kind == Class
    requires (i < s.objects[w].cls.properties && !s.objects[w].cls.holdsObjects ==> Target(v) == NULL)
    ensures Balanced(s.(objects := Write(s.objects, w, i, v)), NULL)
  {
    var t := s.(objects := Write(s.objects, w, i, v));
    BusyWriteIsClosed(s, w, i, v);
    BusyWriteIsHeld(s, w, i, v);
    hide Closed, Held, Exact;
    forall o | o in t.objects ensures Exact(t, o) {
      BusyWriteIsExact(s, w, i, v, o);
    }
  }

  lemma BusyWriteIsHeld(s: State, w: Ref, i: nat, v: Value)
    requires Held(s, NULL) && w in s.objects && i < |s.objects[w].slots|
    ensures Held(s.(objects := Write(s.objects, w, i, v)), NULL)
  {
  }

  lemma BusyWriteIsClosed(s: State, w: Ref, i: nat, v: Value)
    requires Closed(s) && w in s.objects && i < |s.objects[w].slots| && (w, i) in s.busy
    requires s.objects[w].cls.kind == Class
    requires (i < s.objects[w].cls.properties && !s.objects[w].cls.holdsObjects ==> Target(v) == NULL)
    ensures Closed(s.(objects := Write(s.objects, w, i, v)))
  {
    var t := s.(objects := Write(s.objects, w, i, v));
    BusyWriteEdges(s, w, i, v);
    assert ShapeOk(t.objects[w]);
    hide SlotEdge, WrapEdge, ShapeOk;
    ClosedWithin(s, t);
  }

  lemma BusyWriteIsExact(s: State, w: Ref, i: nat, v: Value, o: Ref)
    requires w in s.objects && i < |s.objects[w].slots| && (w, i) in s.busy
    requires o in s.objects && Exact(s, o)
    ensures Exact(s.(objects := Write(s.objects, w, i, v)), o)
  {
    BusyWriteEdges(s, w, i, v);
    hide SlotEdge, WrapEdge;
    SameEdges(s, s.(objects := Write(s.objects, w, i, v)), o);
  }

  lemma BusyWriteEdges(s: State, w: Ref, i: nat, v: Value)
    requires w in s.objects && i < |s.objects[w].slots| && (w, i) in s.busy
    ensures EdgesWithin(s, s.(objects := Write(s.objects, w, i, v)))
    ensures EdgesWithin(s.(objects := Write(s.objects, w, i, v)), s)
  {
  }
}
