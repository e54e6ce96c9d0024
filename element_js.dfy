/**
 * The JavaScript module element.js: the pool of event listeners the .NET side
 * registers by integer id, the closure that turns the .NET handler's behaviour code
 * into preventDefault/stopPropagation, and the multi-select value reader.
 */
module ElementJs {
  import opened Wrappers
  import opened Browser

  type ListenerId = int

  /** The closure registered for an id: the element and event type it was attached for. */
  datatype Listener = Listener(elem: NodeRef, eventType: string)

  /** One `elem.addEventListener(eventType, listener)` registration in the DOM. */
  datatype Registration = Registration(elem: NodeRef, eventType: string, id: ListenerId)

  /**
   * The module state: `funcSpace` (id -> listener), `elementIds` (element -> ids
   * added on it, a WeakMap of Sets) and the DOM registrations the module has made.
   */
  datatype PoolState = PoolState(
    funcSpace: map<ListenerId, Listener>,
    elementIds: map<NodeRef, set<ListenerId>>,
    attached: set<Registration>)

  /** The ids recorded for `elem`, or none. */
  function IdsOf(s: PoolState, elem: NodeRef): set<ListenerId> {
    if elem in s.elementIds then s.elementIds[elem] else {}
  }

  /** The state after a successful add of a fresh id. */
  function Added(s: PoolState, elem: NodeRef, eventType: string, id: ListenerId): PoolState {
    PoolState(
      s.funcSpace[id := Listener(elem, eventType)],
      s.elementIds[elem := IdsOf(s, elem) + {id}],
      s.attached + {Registration(elem, eventType, id)})
  }

  /** The state after a remove; an unknown id changes nothing. */
  function Removed(s: PoolState, elem: NodeRef, eventType: string, id: ListenerId): PoolState {
    if id !in s.funcSpace then s
    else
      var ids := IdsOf(s, elem) - {id};
      PoolState(
        s.funcSpace - {id},
        if elem !in s.elementIds then s.elementIds
        else if ids == {} then s.elementIds - {elem}
        else s.elementIds[elem := ids],
        s.attached - {Registration(elem, eventType, id)})
  }

  /**
   * The three tables agree: every id in the pool has exactly its one registration
   * and sits in the set of the element it was added on, and no element keeps an
   * empty set.
   */
  ghost predicate Consistent(s: PoolState) {
    && (forall id :: id in s.funcSpace ==>
          && Registration(s.funcSpace[id].elem, s.funcSpace[id].eventType, id) in s.attached
          && id in IdsOf(s, s.funcSpace[id].elem))
    && (forall r :: r in s.attached ==> r.id in s.funcSpace && s.funcSpace[r.id] == Listener(r.elem, r.eventType))
    && (forall e :: e in s.elementIds ==> s.elementIds[e] != {})
    && (forall e, id :: e in s.elementIds && id in s.elementIds[e] ==> id in s.funcSpace && s.funcSpace[id].elem == e)
  }

  lemma AddKeepsConsistent(s: PoolState, elem: NodeRef, eventType: string, id: ListenerId)
    requires Consistent(s) && id !in s.funcSpace
    ensures Consistent(Added(s, elem, eventType, id))
  {
    var t := Added(s, elem, eventType, id);
    forall e, i | e in t.elementIds && i in t.elementIds[e]
      ensures i in t.funcSpace && t.funcSpace[i].elem == e
    {
      if i != id {
        assert e in s.elementIds && i in s.elementIds[e];
      }
    }
  }

  /** Removing an id with the element and event type it was added for keeps the tables in agreement. */
  lemma RemoveKeepsConsistent(s: PoolState, id: ListenerId)
    requires Consistent(s) && id in s.funcSpace
    ensures Consistent(Removed(s, s.funcSpace[id].elem, s.funcSpace[id].eventType, id))
  {
    var l := s.funcSpace[id];
    var t := Removed(s, l.elem, l.eventType, id);
    forall i | i in t.funcSpace
      ensures Registration(t.funcSpace[i].elem, t.funcSpace[i].eventType, i) in t.attached
      ensures i in IdsOf(t, t.funcSpace[i].elem)
    {
      assert i != id && s.funcSpace[i] == t.funcSpace[i];
      assert i in IdsOf(s, s.funcSpace[i].elem);
    }
    forall e | e in t.elementIds
      ensures t.elementIds[e] != {}
    {
    }
    forall e, i | e in t.elementIds && i in t.elementIds[e]
      ensures i in t.funcSpace && t.funcSpace[i].elem == e
    {
      assert e in s.elementIds && i in s.elementIds[e] && i != id;
    }
  }

  /** Adding a fresh id and removing it again from the same element restores all three tables. */
  lemma {:induction false} AddThenRemoveRestores(s: PoolState, elem: NodeRef, eventType: string, id: ListenerId)
    requires Consistent(s) && id !in s.funcSpace
    ensures Removed(Added(s, elem, eventType, id), elem, eventType, id) == s
  {
    var t := Removed(Added(s, elem, eventType, id), elem, eventType, id);
    assert t.funcSpace == s.funcSpace;
    assert Registration(elem, eventType, id) !in s.attached;
    assert t.attached == s.attached;
    if elem in s.elementIds {
      assert id !in s.elementIds[elem];
      assert t.elementIds[elem] == s.elementIds[elem];
      assert t.elementIds == s.elementIds;
    } else {
      assert t.elementIds == s.elementIds;
    }
  }

  class ListenerPool {
    var funcSpace: map<ListenerId, Listener>
    var elementIds: map<NodeRef, set<ListenerId>>
    var attached: set<Registration>

    function State(): PoolState
      reads this
    {
      PoolState(funcSpace, elementIds, attached)
    }

    constructor()
      ensures State() == PoolState(map[], map[], {})
    {
      funcSpace := map[];
      elementIds := map[];
      attached := {};
    }

    /**
     * `addEventListener(elem, eventType, listenerId)`: an id already in the pool is an
     * error and changes nothing; otherwise the id is registered on `elem` and the
     * pool's new size is returned.
     */
    method AddEventListener(elem: NodeRef, eventType: string, listenerId: ListenerId) returns (r: Result<nat>)
      modifies this
      ensures listenerId in old(funcSpace) ==> r == Err(JsError) && State() == old(State())
      ensures listenerId !in old(funcSpace) ==>
        && State() == Added(old(State()), elem, eventType, listenerId)
        && r == Ok(|funcSpace|)
        && listenerId in funcSpace && listenerId in elementIds[elem]
    {
      if listenerId in funcSpace {
        return Err(JsError);
      }
      funcSpace := funcSpace[listenerId := Listener(elem, eventType)];
      attached := attached + {Registration(elem, eventType, listenerId)};
      if elem !in elementIds {
        elementIds := elementIds[elem := {}];
      }
      elementIds := elementIds[elem := elementIds[elem] + {listenerId}];
      r := Ok(|funcSpace|);
    }

    /**
     * `removeEventListener(elem, eventType, listenerId)`: forgets the id, detaches its
     * listener and drops it from `elem`'s set (and the set once it is empty); an unknown
     * id changes nothing. Returns the pool's size.
     */
    method RemoveEventListener(elem: NodeRef, eventType: string, listenerId: ListenerId) returns (size: nat)
      modifies this
      ensures State() == Removed(old(State()), elem, eventType, listenerId)
      ensures size == |funcSpace|
      ensures listenerId !in funcSpace
      ensures listenerId !in old(funcSpace) ==> State() == old(State())
    {
      if listenerId in funcSpace {
        attached := attached - {Registration(elem, eventType, listenerId)};
        funcSpace := funcSpace - {listenerId};
        if elem in elementIds {
          var ids := elementIds[elem] - {listenerId};
          elementIds := elementIds[elem := ids];
          if |ids| == 0 {
            elementIds := elementIds - {elem};
          }
        }
      }
      size := |funcSpace|;
    }
  }

  /** What the listener closure does to the event for the .NET handler's behaviour code. */
  datatype Behaviour = Behaviour(preventDefault: bool, stopPropagation: bool)

  /** The decoding in the listener closure: codes 2 and 3 prevent the default, 1 and 3 stop propagation. */
  function DecodeBehaviour(mode: int): Behaviour {
    Behaviour(mode == 2 || mode == 3, mode == 1 || mode == 3)
  }

  /** The behaviour code as a two-bit number: preventDefault is the high bit, stopPropagation the low one. */
  function EncodeBehaviour(b: Behaviour): (mode: int)
    ensures 0 <= mode <= 3
  {
    (if b.preventDefault then 2 else 0) + (if b.stopPropagation then 1 else 0)
  }

  /** Decoding inverts the two-bit encoding, for every behaviour. */
  lemma DecodeEncode(b: Behaviour)
    ensures DecodeBehaviour(EncodeBehaviour(b)) == b
  {
  }

  /** The four codes 0..3 are exactly the encodings of the four behaviours; every other code does nothing. */
  lemma EncodeDecode(mode: int)
    ensures 0 <= mode <= 3 ==> EncodeBehaviour(DecodeBehaviour(mode)) == mode
    ensures !(0 <= mode <= 3) ==> DecodeBehaviour(mode) == Behaviour(false, false)
  {
  }

  /** The state of an event as far as the listener can change it. */
  datatype EventFlags = EventFlags(defaultPrevented: bool, propagationStopped: bool)

  /** The listener closure, after the .NET handler returned `mode`. */
  function Dispatch(mode: int, ev: EventFlags): (r: EventFlags)
    ensures r.defaultPrevented <==> ev.defaultPrevented || mode == 2 || mode == 3
    ensures r.propagationStopped <==> ev.propagationStopped || mode == 1 || mode == 3
    ensures mode == 0 ==> r == ev
  {
    var b := DecodeBehaviour(mode);
    EventFlags(ev.defaultPrevented || b.preventDefault, ev.propagationStopped || b.stopPropagation)
  }

  /** An `<option>` as the multi-select reader sees it. */
  datatype OptionElement = OptionElement(
    value: string,
    selected: bool,
    disabled: bool,
    parentDisabled: bool,
    parentIsOptgroup: bool)

  /** Whether a selected option's value is reported: it is not disabled, nor inside a disabled optgroup. */
  predicate Reported(o: OptionElement) {
    o.selected && !o.disabled && (!o.parentDisabled || !o.parentIsOptgroup)
  }

  /** The reported values of `opts`, in order. */
  function SelectedValues(opts: seq<OptionElement>): seq<string>
    decreases |opts|
  {
    if opts == [] then []
    else SelectedValues(opts[..|opts| - 1]) + (if Reported(opts[|opts| - 1]) then [opts[|opts| - 1].value] else [])
  }

  /** Reported values of a concatenation are the concatenation of the reported values. */
  lemma {:induction false} SelectedValuesAppend(a: seq<OptionElement>, b: seq<OptionElement>)
    ensures SelectedValues(a + b) == SelectedValues(a) + SelectedValues(b)
    decreases |b|
  {
    if b == [] {
      assert a + b == a;
    } else {
      var b' := b[..|b| - 1];
      assert (a + b)[..|a + b| - 1] == a + b';
      SelectedValuesAppend(a, b');
    }
  }

  /** A value is reported exactly when some reported option carries it. */
  lemma {:induction false} SelectedValuesMembership(opts: seq<OptionElement>, v: string)
    ensures v in SelectedValues(opts) <==> exists i :: 0 <= i < |opts| && Reported(opts[i]) && opts[i].value == v
    decreases |opts|
  {
    if opts != [] {
      var init := opts[..|opts| - 1];
      SelectedValuesMembership(init, v);
      if v in SelectedValues(init) {
        var i :| 0 <= i < |init| && Reported(init[i]) && init[i].value == v;
        assert opts[i] == init[i];
      }
      if exists i :: 0 <= i < |opts| && Reported(opts[i]) && opts[i].value == v {
        var i :| 0 <= i < |opts| && Reported(opts[i]) && opts[i].value == v;
        if i < |init| {
          assert init[i] == opts[i];
        }
      }
    }
  }

  /** The count of reported values never exceeds the number of options. */
  lemma {:induction false} SelectedValuesLength(opts: seq<OptionElement>)
    ensures |SelectedValues(opts)| <= |opts|
    decreases |opts|
  {
    if opts != [] {
      SelectedValuesLength(opts[..|opts| - 1]);
    }
  }

  /** `getMultiSelectOptionValues(elem)` over `elem.options`. */
  method GetMultiSelectOptionValues(options: seq<OptionElement>) returns (values: seq<string>)
    ensures values == SelectedValues(options)
  {
    values := [];
    var ii := 0;
    while ii < |options|
      invariant 0 <= ii <= |options|
      invariant values == SelectedValues(options[..ii])
    {
      var option := options[ii];
      assert options[..ii + 1][..ii] == options[..ii];
      if option.selected {
        if !option.disabled && (!option.parentDisabled || !option.parentIsOptgroup) {
          values := values + [option.value];
        }
      }
      ii := ii + 1;
    }
    assert options[..ii] == options;
  }
}
