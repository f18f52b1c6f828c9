/** The object-list state hook: the list, the loading flag and the load error, the
    full refresh, and the two list transforms the realtime events drive. */
module ObjectsHook {
  import opened Types

  const LoadFailedFallback := "Erreur lors du chargement"

  /** The list after a record is prepended. No entry with the same id is looked for. */
  function AddObject(prev: seq<HeyamaObject>, o: HeyamaObject): (r: seq<HeyamaObject>)
    ensures |r| == |prev| + 1
    ensures r[0] == o && r[1..] == prev
  {
    [o] + prev
  }

  /** The list without the entries whose id is `id`, the others kept in order. */
  function RemoveObject(prev: seq<HeyamaObject>, id: string): (r: seq<HeyamaObject>)
    ensures |r| <= |prev|
    ensures forall o :: o in r <==> o in prev && o.id != id
  {
    if prev == [] then []
    else (if prev[0].id != id then [prev[0]] else []) + RemoveObject(prev[1..], id)
  }

  /** How many entries carry the id `id`. */
  function CountId(s: seq<HeyamaObject>, id: string): nat
  {
    if s == [] then 0 else (if s[0].id == id then 1 else 0) + CountId(s[1..], id)
  }

  /** Adding never de-duplicates: the id's entry count grows by one, so delivering the
      same record twice leaves two entries with its id. */
  lemma AddCountsId(prev: seq<HeyamaObject>, o: HeyamaObject)
    ensures CountId(AddObject(prev, o), o.id) == CountId(prev, o.id) + 1
    ensures CountId(AddObject(AddObject(prev, o), o), o.id) == CountId(prev, o.id) + 2
  {
    assert AddObject(prev, o)[1..] == prev;
    assert AddObject(AddObject(prev, o), o)[1..] == AddObject(prev, o);
  }

  /** Removal keeps the relative order: it distributes over concatenation. */
  lemma {:induction false} RemoveDistributes(a: seq<HeyamaObject>, b: seq<HeyamaObject>, id: string)
    ensures RemoveObject(a + b, id) == RemoveObject(a, id) + RemoveObject(b, id)
  {
    if a != [] {
      assert (a + b)[1..] == a[1..] + b;
      RemoveDistributes(a[1..], b, id);
    } else {
      assert a + b == b;
    }
  }

  /** Removing an id no entry carries changes nothing. */
  lemma {:induction false} RemoveAbsent(prev: seq<HeyamaObject>, id: string)
    requires forall o :: o in prev ==> o.id != id
    ensures RemoveObject(prev, id) == prev
  {
    if prev != [] {
      assert prev[0] in prev;
      assert forall o :: o in prev[1..] ==> o in prev;
      RemoveAbsent(prev[1..], id);
      assert [prev[0]] + prev[1..] == prev;
    }
  }

  /** Removal leaves no entry with the id, and removing twice is removing once. */
  lemma RemoveIdempotent(prev: seq<HeyamaObject>, id: string)
    ensures CountId(RemoveObject(prev, id), id) == 0
    ensures RemoveObject(RemoveObject(prev, id), id) == RemoveObject(prev, id)
  {
    RemoveAbsent(RemoveObject(prev, id), id);
    NoneWithIdCountsZero(RemoveObject(prev, id), id);
  }

  lemma {:induction false} NoneWithIdCountsZero(s: seq<HeyamaObject>, id: string)
    requires forall o :: o in s ==> o.id != id
    ensures CountId(s, id) == 0
  {
    if s != [] {
      assert s[0] in s;
      assert forall o :: o in s[1..] ==> o in s;
      NoneWithIdCountsZero(s[1..], id);
    }
  }

  /** Removing the id of a record just added undoes the add and any older entries with it. */
  lemma RemoveAfterAdd(prev: seq<HeyamaObject>, o: HeyamaObject)
    ensures RemoveObject(AddObject(prev, o), o.id) == RemoveObject(prev, o.id)
  {
    RemoveDistributes([o], prev, o.id);
  }

  /** The two events the realtime channel delivers to the list. */
  datatype SocketEvent = ObjectCreated(record: HeyamaObject) | ObjectDeleted(id: string)

  /** The list transform each event triggers. */
  function ApplyEvent(prev: seq<HeyamaObject>, e: SocketEvent): (r: seq<HeyamaObject>)
    ensures e.ObjectCreated? ==> |r| == |prev| + 1 && r[0] == e.record && r[1..] == prev
    ensures e.ObjectDeleted? ==> |r| <= |prev| && forall o :: o in r <==> o in prev && o.id != e.id
  {
    match e
    case ObjectCreated(o) => AddObject(prev, o)
    case ObjectDeleted(id) => RemoveObject(prev, id)
  }

  /** From [A, B], a deletion of B's id gives [A], and a repeated deletion keeps [A]. */
  lemma DuplicateDeleteScenario(a: HeyamaObject, b: HeyamaObject)
    requires a.id != b.id
    ensures ApplyEvent([a, b], ObjectDeleted(b.id)) == [a]
    ensures ApplyEvent(ApplyEvent([a, b], ObjectDeleted(b.id)), ObjectDeleted(b.id)) == [a]
  {
    RemoveDistributes([a], [b], b.id);
    assert [a] + [b] == [a, b];
    RemoveIdempotent([a, b], b.id);
  }

  /** The toast a creation event raises. */
  function NewObjectToast(o: HeyamaObject): Toast
  {
    Toast("Nouvel objet", "\"" + o.title + "\" a été ajouté", false)
  }

  /** The hook's state. `toasts` records the notifications it raised, in order. */
  class ObjectsState {
    var objects: seq<HeyamaObject>
    var loading: bool
    var error: Option<string>
    var toasts: seq<Toast>

    /** The state on first render: empty list, loading, no error. */
    constructor ()
      ensures objects == [] && loading && error == None && toasts == []
    {
      objects := [];
      loading := true;
      error := None;
      toasts := [];
    }

    /** fetchObjects up to its await: loading is set and the error cleared before the request. */
    method BeginFetch()
      modifies this
      ensures loading && error == None
      ensures objects == old(objects) && toasts == old(toasts)
    {
      loading := true;
      error := None;
    }

    /** fetchObjects after its await: the list is replaced wholesale, or the error recorded
        and the list kept; the loading flag is released either way. */
    method CompleteFetch(response: Settled<seq<HeyamaObject>>)
      modifies this
      ensures !loading
      ensures response.Resolved? ==> objects == response.value && error == old(error)
      ensures response.Rejected? ==>
        objects == old(objects) && error == Some(MessageOf(response.reason, LoadFailedFallback))
      ensures toasts == old(toasts)
    {
      match response {
        case Resolved(data) =>
          objects := data;
        case Rejected(reason) =>
          error := Some(MessageOf(reason, LoadFailedFallback));
      }
      loading := false;
    }

    /** fetchObjects when no other update lands during the request. */
    method FetchObjects(response: Settled<seq<HeyamaObject>>)
      modifies this
      ensures !loading
      ensures objects == if response.Resolved? then response.value else old(objects)
      ensures error == if response.Resolved? then None
                       else Some(MessageOf(response.reason, LoadFailedFallback))
      ensures toasts == old(toasts)
    {
      BeginFetch();
      CompleteFetch(response);
    }

    /** addObject: prepend through the functional update. */
    method Add(o: HeyamaObject)
      modifies this
      ensures objects == AddObject(old(objects), o)
      ensures loading == old(loading) && error == old(error) && toasts == old(toasts)
    {
      objects := AddObject(objects, o);
    }

    /** removeObject: filter through the functional update. */
    method Remove(id: string)
      modifies this
      ensures objects == RemoveObject(old(objects), id)
      ensures loading == old(loading) && error == old(error) && toasts == old(toasts)
    {
      objects := RemoveObject(objects, id);
    }

    /** The socket listeners: a creation adds the record and raises a toast, a deletion
        removes the id. */
    method OnSocketEvent(e: SocketEvent)
      modifies this
      ensures objects == ApplyEvent(old(objects), e)
      ensures toasts == if e.ObjectCreated? then old(toasts) + [NewObjectToast(e.record)] else old(toasts)
      ensures loading == old(loading) && error == old(error)
    {
      match e
      case ObjectCreated(o) =>
        Add(o);
        toasts := toasts + [NewObjectToast(o)];
      case ObjectDeleted(id) =>
        Remove(id);
    }
  }
}
