/** The pointer tracker: `_activePointers`, a JavaScript Map from pointerId to
    the record `storePointer` builds, which keeps its keys in insertion order.
    It is modelled as a sequence of (id, record) pairs. */
module Tracker {

  import opened Optional

  /** The `type` of a pointer event; any other string is `Unknown`. */
  datatype EventType = PointerDown | PointerMove | PointerUp | PointerCancel | Unknown(name: string)

  /** The fields of a DOM PointerEvent that the handler reads. */
  datatype PointerEvent = PointerEvent(
    eventType: EventType,
    pointerId: int,
    pointerType: string,
    pageX: real, pageY: real,
    screenX: real, screenY: real,
    width: real, height: real)

  /** The record stored per pointer. An absent radius is JavaScript's `undefined`. */
  datatype PointerInfo = PointerInfo(
    identifier: int,
    radiusX: Option<real>, radiusY: Option<real>,
    pageX: real, pageY: real,
    screenX: real, screenY: real,
    pointerType: string)

  type Entry = (int, PointerInfo)

  const TOUCH := "touch"

  /** A contact radius is half the reported extent; a zero extent is falsy
      in the source and gives no radius. */
  function Radius(extent: real): (r: Option<real>)
    ensures r.Some? <==> extent != 0.0
    ensures r.Some? ==> 2.0 * r.value == extent
  {
    if extent != 0.0 then Some(extent / 2.0) else None
  }

  /** The record `storePointer` stores for an event. */
  function Record(e: PointerEvent): (info: PointerInfo)
    ensures info.identifier == e.pointerId && info.pointerType == e.pointerType
    ensures info.pageX == e.pageX && info.pageY == e.pageY
  {
    PointerInfo(e.pointerId, Radius(e.width), Radius(e.height),
                e.pageX, e.pageY, e.screenX, e.screenY, e.pointerType)
  }

  /** No key occurs twice: the Map invariant. */
  ghost predicate UniqueKeys(m: seq<Entry>) {
    forall i, j :: 0 <= i < j < |m| ==> m[i].0 != m[j].0
  }

  /** Every record carries the key it is stored under (storePointer sets both
      from the same pointerId). */
  ghost predicate KeysMatch(m: seq<Entry>) {
    forall i :: 0 <= i < |m| ==> m[i].1.identifier == m[i].0
  }

  ghost predicate WellFormed(m: seq<Entry>) {
    UniqueKeys(m) && KeysMatch(m)
  }

  /** The position of `id` in key order, or |m| when it is absent: the count
      of keys visited before `id` in `for (const id of map.keys())`. */
  function IndexOf(m: seq<Entry>, id: int): (k: nat)
    ensures k <= |m|
    ensures k < |m| ==> m[k].0 == id
    ensures forall j :: 0 <= j < k ==> m[j].0 != id
  {
    if m == [] then 0
    else if m[0].0 == id then 0
    else 1 + IndexOf(m[1..], id)
  }

  /** Map.prototype.has */
  predicate Has(m: seq<Entry>, id: int) {
    IndexOf(m, id) < |m|
  }

  ghost function KeySet(m: seq<Entry>): set<int> {
    set i | 0 <= i < |m| :: m[i].0
  }

  lemma HasIsMember(m: seq<Entry>, id: int)
    ensures Has(m, id) <==> id in KeySet(m)
  {
    if id in KeySet(m) {
      var i :| 0 <= i < |m| && m[i].0 == id;
    }
  }

  /** Map.prototype.get */
  function Lookup(m: seq<Entry>, id: int): Option<PointerInfo> {
    var k := IndexOf(m, id);
    if k < |m| then Some(m[k].1) else None
  }

  /** Map.prototype.set: an existing key keeps its position, a new key goes last. */
  function MapSet(m: seq<Entry>, id: int, info: PointerInfo): (r: seq<Entry>)
    ensures Has(m, id) ==> |r| == |m| && r[IndexOf(m, id)] == (id, info)
    ensures Has(m, id) ==> forall i :: 0 <= i < |m| && i != IndexOf(m, id) ==> r[i] == m[i]
    ensures !Has(m, id) ==> r == m + [(id, info)]
  {
    var k := IndexOf(m, id);
    if k < |m| then m[k := (id, info)] else m + [(id, info)]
  }

  /** Map.prototype.delete: removes the entry for `id`, keeping the order of the rest. */
  function MapDelete(m: seq<Entry>, id: int): (r: seq<Entry>)
    ensures Has(m, id) ==> r == m[..IndexOf(m, id)] + m[IndexOf(m, id) + 1..]
    ensures !Has(m, id) ==> r == m
  {
    var k := IndexOf(m, id);
    if k < |m| then m[..k] + m[k + 1..] else m
  }

  /** In a map without duplicate keys every key is found at its own position. */
  lemma IndexOfUnique(m: seq<Entry>, i: nat)
    requires UniqueKeys(m) && i < |m|
    ensures IndexOf(m, m[i].0) == i
  {
  }

  /** The first position holding `id` is its index. */
  lemma IndexOfFirst(m: seq<Entry>, id: int, k: nat)
    requires k <= |m| && (k < |m| ==> m[k].0 == id)
    requires forall j :: 0 <= j < k ==> m[j].0 != id
    ensures IndexOf(m, id) == k
  {
  }

  /** After `set`, `id` maps to the new record and every other key is untouched. */
  lemma MapSetLookup(m: seq<Entry>, id: int, info: PointerInfo, other: int)
    requires UniqueKeys(m)
    ensures UniqueKeys(MapSet(m, id, info))
    ensures Lookup(MapSet(m, id, info), other) == if other == id then Some(info) else Lookup(m, other)
  {
    var r := MapSet(m, id, info);
    if Has(m, id) {
      IndexOfFirst(r, id, IndexOf(m, id));
    } else {
      IndexOfFirst(r, id, |m|);
    }
    if other != id && Has(m, other) {
      IndexOfUnique(r, IndexOf(m, other));
    }
    if other != id && !Has(m, other) {
      assert forall j :: 0 <= j < |m| ==> m[j].0 != other;
      if Has(m, id) {
        assert forall j :: 0 <= j < |r| ==> r[j].0 != other by {
          forall j | 0 <= j < |r| ensures r[j].0 != other {
            if j != IndexOf(m, id) {
              assert r[j] == m[j];
            }
          }
        }
      } else {
        assert forall j :: 0 <= j < |r| ==> r[j].0 != other by {
          forall j | 0 <= j < |r| ensures r[j].0 != other {
            if j < |m| {
              assert r[j] == m[j];
            }
          }
        }
      }
    }
  }

  /** `set` never moves a stored contact: a repeated pointerdown or a move
      keeps every label, and a new contact is numbered after all others. */
  lemma MapSetKeepsOrdinals(m: seq<Entry>, id: int, info: PointerInfo, x: int)
    requires UniqueKeys(m)
    ensures Has(m, x) ==> IndexOf(MapSet(m, id, info), x) == IndexOf(m, x)
    ensures !Has(m, id) ==> IndexOf(MapSet(m, id, info), id) == |m|
  {
    var r := MapSet(m, id, info);
    if Has(m, x) {
      var k := IndexOf(m, x);
      forall j | 0 <= j < k ensures r[j].0 != x {
        if Has(m, id) && j == IndexOf(m, id) {
          assert r[j].0 == m[j].0;
        } else {
          assert r[j] == m[j];
        }
      }
      IndexOfFirst(r, x, k);
    }
    if !Has(m, id) {
      forall j | 0 <= j < |m| ensures r[j].0 != id {
        assert r[j] == m[j];
      }
      IndexOfFirst(r, id, |m|);
    }
  }

  /** The keys after `set` are the old keys and the new one. */
  lemma MapSetKeys(m: seq<Entry>, id: int, info: PointerInfo)
    ensures KeySet(MapSet(m, id, info)) == KeySet(m) + {id}
  {
    var r := MapSet(m, id, info);
    forall x | x in KeySet(m) + {id} ensures x in KeySet(r) {
      if x == id {
        var k := IndexOf(m, id);
        assert r[k].0 == id;
      } else {
        var i :| 0 <= i < |m| && m[i].0 == x;
        assert r[i].0 == x;
      }
    }
    forall x | x in KeySet(r) ensures x in KeySet(m) + {id} {
      var i :| 0 <= i < |r| && r[i].0 == x;
      if i < |m| && x != id {
        assert r[i] == m[i];
      }
    }
  }

  /** The keys after `delete` are the old keys without the deleted one. */
  lemma MapDeleteKeys(m: seq<Entry>, id: int)
    requires UniqueKeys(m)
    ensures KeySet(MapDelete(m, id)) == KeySet(m) - {id}
  {
    var r := MapDelete(m, id);
    if Has(m, id) {
      var k := IndexOf(m, id);
      DeleteAt(m, k);
      forall x | x in KeySet(m) - {id} ensures x in KeySet(r) {
        var i :| 0 <= i < |m| && m[i].0 == x;
        assert i != k;
        assert r[if i < k then i else i - 1].0 == x;
      }
      forall x | x in KeySet(r) ensures x in KeySet(m) - {id} {
        var i :| 0 <= i < |r| && r[i].0 == x;
        assert r[i] == if i < k then m[i] else m[i + 1];
      }
    } else {
      assert forall i :: 0 <= i < |m| ==> m[i].0 != id;
    }
  }

  /** Removing position k shifts every later entry one place down. */
  lemma DeleteAt(m: seq<Entry>, k: nat)
    requires k < |m|
    ensures var r := m[..k] + m[k + 1..];
            |r| == |m| - 1 && forall j :: 0 <= j < |r| ==> r[j] == if j < k then m[j] else m[j + 1]
  {
  }

  /** After `delete`, `id` is absent and every other key keeps its record. */
  lemma MapDeleteLookup(m: seq<Entry>, id: int, other: int)
    requires UniqueKeys(m)
    ensures UniqueKeys(MapDelete(m, id))
    ensures Lookup(MapDelete(m, id), other) == if other == id then None else Lookup(m, other)
  {
    var r := MapDelete(m, id);
    if Has(m, id) {
      var k := IndexOf(m, id);
      DeleteAt(m, k);
      if other == id {
        assert forall j :: 0 <= j < |r| ==> r[j].0 != id;
      } else if Has(m, other) {
        var o := IndexOf(m, other);
        IndexOfUnique(r, if o < k then o else o - 1);
      } else {
        assert forall j :: 0 <= j < |r| ==> r[j].0 != other;
      }
    }
  }

  /** The state change `_pointerHandler` makes for one event: only touch
      pointers are tracked; down sets, move overwrites a known pointer, up and
      cancel delete a known pointer, anything else changes nothing. */
  function ApplyEvent(m: seq<Entry>, e: PointerEvent): seq<Entry> {
    if e.pointerType != TOUCH then m
    else
      match e.eventType
      case PointerDown => MapSet(m, e.pointerId, Record(e))
      case PointerMove => if Has(m, e.pointerId) then MapSet(m, e.pointerId, Record(e)) else m
      case PointerUp => if Has(m, e.pointerId) then MapDelete(m, e.pointerId) else m
      case PointerCancel => if Has(m, e.pointerId) then MapDelete(m, e.pointerId) else m
      case Unknown(_) => m
  }

  predicate IsBegin(e: PointerEvent, id: int) {
    e.pointerType == TOUCH && e.eventType == PointerDown && e.pointerId == id
  }

  predicate IsEnd(e: PointerEvent, id: int) {
    e.pointerType == TOUCH && (e.eventType == PointerUp || e.eventType == PointerCancel) && e.pointerId == id
  }

  /** What one event does to one key: a begin adds it with the event's
      record, an end removes it, a touch move refreshes a present record, and
      nothing else touches it. */
  lemma ApplyEventLookup(m: seq<Entry>, e: PointerEvent, id: int)
    requires WellFormed(m)
    ensures WellFormed(ApplyEvent(m, e))
    ensures IsBegin(e, id) ==> Lookup(ApplyEvent(m, e), id) == Some(Record(e))
    ensures IsEnd(e, id) ==> Lookup(ApplyEvent(m, e), id) == None
    ensures e.pointerType == TOUCH && e.eventType == PointerMove && e.pointerId == id ==>
              Lookup(ApplyEvent(m, e), id) == if Has(m, id) then Some(Record(e)) else None
    ensures e.pointerType != TOUCH || e.pointerId != id ==> Lookup(ApplyEvent(m, e), id) == Lookup(m, id)
  {
    var r := ApplyEvent(m, e);
    if r == MapSet(m, e.pointerId, Record(e)) {
      MapSetLookup(m, e.pointerId, Record(e), id);
      assert KeysMatch(r) by {
        forall i | 0 <= i < |r| ensures r[i].1.identifier == r[i].0 {
          if Has(m, e.pointerId) && i != IndexOf(m, e.pointerId) {
            assert r[i] == m[i];
          }
        }
      }
    } else if r == MapDelete(m, e.pointerId) {
      MapDeleteLookup(m, e.pointerId, id);
      if Has(m, e.pointerId) {
        DeleteAt(m, IndexOf(m, e.pointerId));
      }
    }
  }

  /** The tracker after a sequence of events, starting from `m`. */
  function ApplyAll(m: seq<Entry>, events: seq<PointerEvent>): seq<Entry>
    decreases |events|
  {
    if events == [] then m else ApplyEvent(ApplyAll(m, events[..|events| - 1]), events[|events| - 1])
  }

  /** A contact is live when some touch pointerdown for it has not been
      followed by a touch pointerup or pointercancel for it. */
  ghost predicate Live(events: seq<PointerEvent>, id: int) {
    exists i :: 0 <= i < |events| && IsBegin(events[i], id)
                && forall j :: i < j < |events| ==> !IsEnd(events[j], id)
  }

  /** A begin as the last event makes its contact live. */
  lemma LiveAfterBegin(events: seq<PointerEvent>, id: int)
    requires events != [] && IsBegin(events[|events| - 1], id)
    ensures Live(events, id)
  {
    assert IsBegin(events[|events| - 1], id);
  }

  /** An end as the last event leaves its contact not live. */
  lemma LiveAfterEnd(events: seq<PointerEvent>, id: int)
    requires events != [] && IsEnd(events[|events| - 1], id)
    ensures !Live(events, id)
  {
    var n := |events|;
    forall i | 0 <= i < n && IsBegin(events[i], id)
      ensures exists j :: i < j < n && IsEnd(events[j], id)
    {
      assert IsEnd(events[n - 1], id);
    }
  }

  /** An event that neither begins nor ends a contact leaves it as live as
      it was before. */
  lemma LiveAfterOther(events: seq<PointerEvent>, id: int)
    requires events != []
    requires !IsBegin(events[|events| - 1], id) && !IsEnd(events[|events| - 1], id)
    ensures Live(events, id) == Live(events[..|events| - 1], id)
  {
    var n := |events|;
    var pre := events[..n - 1];
    if Live(pre, id) {
      var i :| 0 <= i < n - 1 && IsBegin(pre[i], id) && forall j :: i < j < n - 1 ==> !IsEnd(pre[j], id);
      assert IsBegin(events[i], id);
    }
    if Live(events, id) {
      var i :| 0 <= i < n && IsBegin(events[i], id) && forall j :: i < j < n ==> !IsEnd(events[j], id);
      assert i < n - 1 && IsBegin(pre[i], id);
    }
  }

  /** An event that neither begins nor ends a contact leaves it tracked or
      untracked as before. */
  lemma HasAfterOther(m: seq<Entry>, e: PointerEvent, id: int)
    requires WellFormed(m) && !IsBegin(e, id) && !IsEnd(e, id)
    ensures WellFormed(ApplyEvent(m, e))
    ensures Has(ApplyEvent(m, e), id) == Has(m, id)
  {
    ApplyEventLookup(m, e, id);
  }

  /** Starting from an empty tracker, the tracked ids are exactly the live
      contacts, whatever the order of downs, moves, ups and cancels. */
  lemma {:induction false} ActiveSetIsLive(events: seq<PointerEvent>, id: int)
    ensures WellFormed(ApplyAll([], events))
    ensures Has(ApplyAll([], events), id) <==> Live(events, id)
    decreases |events|
  {
    if events != [] {
      var n := |events|;
      var pre := events[..n - 1];
      var e := events[n - 1];
      ActiveSetIsLive(pre, id);
      var m := ApplyAll([], pre);
      assert ApplyAll([], events) == ApplyEvent(m, e);
      if IsBegin(e, id) {
        ApplyEventLookup(m, e, id);
        LiveAfterBegin(events, id);
      } else if IsEnd(e, id) {
        ApplyEventLookup(m, e, id);
        LiveAfterEnd(events, id);
      } else {
        HasAfterOther(m, e, id);
        LiveAfterOther(events, id);
      }
    }
  }

  /** Releasing an earlier contact moves every later contact one ordinal
      down; earlier contacts keep theirs. */
  lemma OrdinalAfterDelete(m: seq<Entry>, j: nat, k: nat)
    requires UniqueKeys(m) && j < |m| && k < |m| && j != k
    ensures IndexOf(MapDelete(m, m[j].0), m[k].0) == if k < j then k else k - 1
  {
    IndexOfUnique(m, j);
    var r := MapDelete(m, m[j].0);
    DeleteAt(m, j);
    IndexOfUnique(r, if k < j then k else k - 1);
  }
}
