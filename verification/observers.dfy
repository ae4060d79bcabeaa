/** The observer lists of BookingService and RecordsService
    (booking_service.py, records_service.py): an ordered list of
    subscribers, `attach` appends, `detach` is Python's `list.remove`, and
    a notification calls every subscriber in list order. */
module Observers {
  import opened Wrappers

  /** An attached observer object; observers are compared by identity,
      as Python's `list.remove` does for objects without `__eq__`. */
  type ObserverRef = nat

  /** One call `observer.on_…(event)` made during a notification. */
  datatype Delivery<O, E> = Delivery(observer: O, event: E)

  function Attach<O>(observers: seq<O>, o: O): (r: seq<O>)
    ensures |r| == |observers| + 1 && r[|observers|] == o
    ensures r[..|observers|] == observers
  {
    observers + [o]
  }

  /** Index of the first occurrence of `o`. */
  function IndexOf<O(==)>(observers: seq<O>, o: O): (i: nat)
    requires o in observers
    ensures i < |observers| && observers[i] == o
    ensures forall j | 0 <= j < i :: observers[j] != o
  {
    if observers[0] == o then 0 else 1 + IndexOf(observers[1..], o)
  }

  /** `list.remove(o)`: drops the first occurrence; raises `ValueError`
      (here `None`) when `o` is not attached. */
  function Detach<O(==)>(observers: seq<O>, o: O): (r: Option<seq<O>>)
    ensures r.Some? <==> o in observers
    ensures r.Some? ==> |r.value| == |observers| - 1
    ensures r.Some? ==> r.value == observers[..IndexOf(observers, o)] + observers[IndexOf(observers, o) + 1..]
  {
    if o !in observers then None
    else
      var i := IndexOf(observers, o);
      Some(observers[..i] + observers[i + 1..])
  }

  /** The calls one notification makes: every observer, in attachment
      order, receives the same event. */
  function Notify<O, E>(observers: seq<O>, event: E): (r: seq<Delivery<O, E>>)
    ensures |r| == |observers|
    ensures forall i | 0 <= i < |r| :: r[i] == Delivery(observers[i], event)
  {
    if |observers| == 0 then []
    else [Delivery(observers[0], event)] + Notify(observers[1..], event)
  }

  // ----- Properties -----

  /** Detaching removes exactly one copy of `o`; `DetachKeepsOrder` says
      which copy and where the others go. */
  lemma DetachRemovesOne<O>(observers: seq<O>, o: O)
    requires o in observers
    ensures Detach(observers, o).Some?
    ensures multiset(Detach(observers, o).value) == multiset(observers) - multiset{o}
  {
    var i := IndexOf(observers, o);
    var r := Detach(observers, o).value;
    assert r == observers[..i] + observers[i + 1..];
    assert observers == observers[..i] + [o] + observers[i + 1..];
  }

  /** The positions of a list with position `i` removed. */
  lemma RemoveAt<O>(s: seq<O>, i: nat)
    requires i < |s|
    ensures forall k | 0 <= k < |s| - 1 :: (s[..i] + s[i + 1..])[k] == if k < i then s[k] else s[k + 1]
  {
  }

  /** When position `i` holds the first copy of `o`, detaching drops that
      copy and keeps every other entry in its order: the entries before it
      stay in place, those after it move up by one. */
  lemma DetachKeepsOrder<O>(observers: seq<O>, o: O, i: nat)
    requires i < |observers| && observers[i] == o
    requires forall j | 0 <= j < i :: observers[j] != o
    ensures Detach(observers, o).Some?
    ensures forall k | 0 <= k < |observers| - 1 ::
              Detach(observers, o).value[k] == if k < i then observers[k] else observers[k + 1]
  {
    FirstCopy(observers, o, i);
    var r := Detach(observers, o).value;
    assert r == observers[..i] + observers[i + 1..];
    RemoveAt(observers, i);
  }

  /** `IndexOf` finds the first copy. */
  lemma FirstCopy<O>(observers: seq<O>, o: O, i: nat)
    requires i < |observers| && observers[i] == o
    requires forall j | 0 <= j < i :: observers[j] != o
    ensures IndexOf(observers, o) == i
  {
  }

  /** The first of two copies goes: `[1, 2, 1]` becomes `[2, 1]`. */
  lemma DetachFirstCopy()
    ensures Detach([1, 2, 1], 1) == Some([2, 1])
  {
    var s: seq<int> := [1, 2, 1];
    assert s[0] == 1 && IndexOf(s, 1) == 0;
    assert s[..0] + s[1..] == [2, 1];
  }

  /** After detaching `o`, every other value is attached exactly when it
      was before, and `o` stays attached only if it was attached twice. */
  lemma DetachMembership<O>(observers: seq<O>, o: O)
    requires o in observers
    ensures Detach(observers, o).Some?
    ensures forall x | x != o :: x in Detach(observers, o).value <==> x in observers
    ensures o in Detach(observers, o).value <==> multiset(observers)[o] > 1
  {
    DetachRemovesOne(observers, o);
    var rest := Detach(observers, o).value;
    assert forall x :: x in rest <==> multiset(rest)[x] > 0;
    assert forall x :: x in observers <==> multiset(observers)[x] > 0;
  }

  /** Attaching a new observer and detaching it again restores the list. */
  lemma {:induction false} DetachUndoesAttach<O>(observers: seq<O>, o: O)
    requires o !in observers
    ensures Detach(Attach(observers, o), o) == Some(observers)
  {
    var a := Attach(observers, o);
    assert a[|observers|] == o;
    var i := IndexOf(a, o);
    assert i == |observers|;
    assert a[..i] == observers && a[i + 1..] == [];
    assert a[..i] + a[i + 1..] == observers;
  }

  /** Notifying a list built by `Attach` reaches the earlier observers
      first and the new one last. */
  lemma {:induction false} NotifyAfterAttach<O, E>(observers: seq<O>, o: O, event: E)
    ensures Notify(Attach(observers, o), event) == Notify(observers, event) + [Delivery(o, event)]
  {
  }
}
