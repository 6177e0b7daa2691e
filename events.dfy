/**
 * The publish/subscribe registry of utils/event_system.py: each event type
 * maps to the list of its handlers, in subscription order. The registry is a
 * `defaultdict(list)`, so subscribing to a new type creates its list, while
 * unsubscribing and publishing only look at types already present.
 */
module Events {
  import opened Wrappers
  import opened Dicts

  /**
   * A handler, compared by identity as `list.remove` compares callables: its
   * name, whether it is a coroutine function, and whether the call
   * `handler(event)` raises (for a coroutine function, the call that creates
   * the coroutine, before any task exists).
   */
  datatype Handler = Handler(name: string, isCoroutine: bool, raises: bool)

  /** `Event`: its type and the frozen timestamp it was created with; the payload plays no part. */
  datatype Event = Event(eventType: string, timestamp: string)

  type Handlers = map<string, seq<Handler>>

  /** The message of the `ValueError` that `list.remove` raises. */
  const NotInListMessage: string := "list.remove(x): x not in list"

  // ---------------------------------------------------------------- the list operations

  /** The position of the first occurrence of `h`. */
  function IndexOf(s: seq<Handler>, h: Handler): (i: nat)
    requires h in s
    ensures i < |s| && s[i] == h && h !in s[..i]
  {
    if s[0] == h then 0
    else
      var j := IndexOf(s[1..], h);
      assert s[..j + 1] == [s[0]] + s[1..][..j];
      j + 1
  }

  /** `list.remove(h)`: the first occurrence of `h` goes, everything else stays in order. */
  function RemoveFirst(s: seq<Handler>, h: Handler): (r: seq<Handler>)
    requires h in s
    ensures |r| == |s| - 1
    ensures multiset(r) == multiset(s) - multiset{h}
    ensures exists i | 0 <= i < |s| :: s[i] == h && h !in s[..i] && r == s[..i] + s[i + 1..]
  {
    var i := IndexOf(s, h);
    assert s == s[..i] + [h] + s[i + 1..];
    assert s[i] == h && h !in s[..i];
    s[..i] + s[i + 1..]
  }

  /** A handler appended to a list that did not hold it is found at the end, so removing it gives the list back. */
  lemma {:induction false} RemoveAppended(s: seq<Handler>, h: Handler)
    requires h !in s
    ensures IndexOf(s + [h], h) == |s|
    ensures RemoveFirst(s + [h], h) == s
  {
    if s != [] {
      assert (s + [h])[1..] == s[1..] + [h];
      RemoveAppended(s[1..], h);
    }
    assert (s + [h])[..|s|] == s;
  }

  // ---------------------------------------------------------------- the operations, as functions

  /** `subscribe`: the handler goes to the end of its type's list (created if missing); duplicates are kept. */
  function SubscribeStep(hs: Handlers, t: string, h: Handler): (r: Handlers)
    ensures r.Keys == hs.Keys + {t}
    ensures forall u | u in hs && u != t :: r[u] == hs[u]
    ensures t in hs ==> r[t] == hs[t] + [h]
    ensures t !in hs ==> r[t] == [h]
  {
    hs[t := (if t in hs then hs[t] else []) + [h]]
  }

  /**
   * `unsubscribe`: an unknown type is a no-op; a known type loses the first
   * occurrence of the handler, and a handler missing from that list raises
   * `ValueError`, which the method does not catch.
   */
  function UnsubscribeStep(hs: Handlers, t: string, h: Handler): (r: Result<Handlers, string>)
    ensures r.Failure? <==> t in hs && h !in hs[t]
    ensures r.Failure? ==> r.error == NotInListMessage
    ensures t !in hs ==> r == Success(hs)
    ensures r.Success? ==> r.value.Keys == hs.Keys
    ensures r.Success? ==> forall u | u in hs && u != t :: r.value[u] == hs[u]
    ensures r.Success? && t in hs ==> multiset(r.value[t]) == multiset(hs[t]) - multiset{h}
    ensures r.Success? && t in hs ==> r.value[t] == RemoveFirst(hs[t], h)
  {
    if t !in hs then Success(hs)
    else if h !in hs[t] then Failure(NotInListMessage)
    else Success(hs[t := RemoveFirst(hs[t], h)])
  }

  /** What one handler's turn in `publish` did. */
  datatype Turn =
    | Called(handler: Handler)          // a plain function, called and returned
    | CalledAndLogged(handler: Handler) // the call raised: the error is logged, no task is made, dispatch goes on
    | Scheduled(handler: Handler)       // a coroutine function, wrapped in a task and gathered afterwards
  {
    function Who(): Handler { match this case Called(h) => h case CalledAndLogged(h) => h case Scheduled(h) => h }
  }

  /** The `try` around one handler: it covers the call for both kinds of handler. */
  function TurnOf(h: Handler): (r: Turn)
    ensures r.Who() == h
    ensures r.CalledAndLogged? <==> h.raises
    ensures r.Scheduled? <==> h.isCoroutine && !h.raises
    ensures r.Called? <==> !h.isCoroutine && !h.raises
  {
    if h.raises then CalledAndLogged(h) else if h.isCoroutine then Scheduled(h) else Called(h)
  }

  /** The loop of `publish` over a list of handlers, as a fold. */
  function Dispatch(hs: seq<Handler>): (r: seq<Turn>)
    ensures |r| == |hs|
    ensures forall i | 0 <= i < |hs| :: r[i].Who() == hs[i]
    ensures forall i | 0 <= i < |hs| :: r[i].Scheduled? <==> hs[i].isCoroutine && !hs[i].raises
    ensures forall i | 0 <= i < |hs| :: r[i].CalledAndLogged? <==> hs[i].raises
  {
    if hs == [] then [] else Dispatch(hs[..|hs| - 1]) + [TurnOf(hs[|hs| - 1])]
  }

  /** `publish`: nothing happens for a type never subscribed; otherwise every handler of the type gets its turn, in order. */
  function PublishStep(hs: Handlers, e: Event): (r: seq<Turn>)
    ensures e.eventType !in hs ==> r == []
    ensures e.eventType in hs ==> |r| == |hs[e.eventType]|
  {
    if e.eventType in hs then Dispatch(hs[e.eventType]) else []
  }

  // ---------------------------------------------------------------- properties relating operations

  /** Dispatching a list extended by one handler runs the old list's turns first and the new handler last. */
  lemma {:induction false} DispatchAppend(hs: seq<Handler>, h: Handler)
    ensures Dispatch(hs + [h]) == Dispatch(hs) + [TurnOf(h)]
  {
    assert (hs + [h])[..|hs + [h]| - 1] == hs;
  }

  /** A newly subscribed handler takes the last turn, after every handler subscribed before it has taken its own. */
  lemma PublishAfterSubscribe(hs: Handlers, e: Event, h: Handler)
    ensures var r := PublishStep(SubscribeStep(hs, e.eventType, h), e);
            && r == PublishStep(hs, e) + [TurnOf(h)]
            && r[|r| - 1].Who() == h
  {
    var t := e.eventType;
    DispatchAppend(if t in hs then hs[t] else [], h);
    assert Dispatch([]) == [];
  }

  /** Unsubscribing a handler just subscribed succeeds and leaves the list it joined with the handlers it had. */
  lemma SubscribeThenUnsubscribe(hs: Handlers, t: string, h: Handler)
    ensures var r := UnsubscribeStep(SubscribeStep(hs, t, h), t, h);
            && r.Success? && t in r.value
            && multiset(r.value[t]) == multiset(if t in hs then hs[t] else [])
  {
    var old_ := if t in hs then hs[t] else [];
    var sub := SubscribeStep(hs, t, h);
    assert sub[t] == old_ + [h];
    assert multiset(old_ + [h]) == multiset(old_) + multiset{h};
  }

  /** When the handler was not yet in the list, unsubscribing it again gives back the registry exactly (an empty list for a new type). */
  lemma SubscribeThenUnsubscribeRestores(hs: Handlers, t: string, h: Handler)
    requires t in hs ==> h !in hs[t]
    ensures UnsubscribeStep(SubscribeStep(hs, t, h), t, h) == Success(if t in hs then hs else hs[t := []])
  {
    var old_ := if t in hs then hs[t] else [];
    var sub := hs[t := old_ + [h]];
    assert SubscribeStep(hs, t, h) == sub;
    RemoveAppended(old_, h);
    assert UnsubscribeStep(sub, t, h) == Success(sub[t := old_]);
    UpdateTwice(hs, t, old_ + [h], old_);
    if t in hs {
      UpdateSame(hs, t);
    }
  }

  /** Subscribing or unsubscribing under one type leaves every other type's list as it was. */
  lemma OtherTypesUntouched(hs: Handlers, t: string, u: string, h: Handler)
    requires u in hs && u != t
    ensures SubscribeStep(hs, t, h)[u] == hs[u]
    ensures UnsubscribeStep(hs, t, h).Success? ==> UnsubscribeStep(hs, t, h).value[u] == hs[u]
  {
  }

  /** After `clear`, publishing any event runs no handler and unsubscribing anything is a no-op. */
  lemma ClearSilences(e: Event, t: string, h: Handler)
    ensures PublishStep(map[], e) == []
    ensures UnsubscribeStep(map[], t, h) == Success(map[])
  {
  }

  // ---------------------------------------------------------------- the object

  class EventSystem {
    /** The frozen `current_time` and `current_user` of the constructor. */
    const now: string
    const user: string
    var handlers: Handlers

    constructor (clock: string, currentUser: string)
      ensures now == clock && user == currentUser && handlers == map[]
    {
      now := clock;
      user := currentUser;
      handlers := map[];
    }

    method Subscribe(t: string, h: Handler)
      modifies this`handlers
      ensures handlers == SubscribeStep(old(handlers), t, h)
    {
      var list := if t in handlers then handlers[t] else [];
      handlers := handlers[t := list + [h]];
    }

    /** `unsubscribe`; the error is the `ValueError` message. */
    method Unsubscribe(t: string, h: Handler) returns (error: Option<string>)
      modifies this`handlers
      ensures var r := UnsubscribeStep(old(handlers), t, h);
              if r.Failure? then error == Some(r.error) && handlers == old(handlers)
              else error == None && handlers == r.value
    {
      if t in handlers {
        if h !in handlers[t] {
          return Some(NotInListMessage);
        }
        handlers := handlers[t := RemoveFirst(handlers[t], h)];
      }
      error := None;
    }

    /** `publish`: the turns taken, in order; the gathered tasks' own outcomes are not modelled. */
    method Publish(e: Event) returns (turns: seq<Turn>)
      ensures turns == PublishStep(handlers, e)
    {
      turns := [];
      if e.eventType in handlers {
        var list := handlers[e.eventType];
        var i := 0;
        while i < |list|
          invariant 0 <= i <= |list|
          invariant turns == Dispatch(list[..i])
        {
          var h := list[i];
          assert list[..i + 1] == list[..i] + [h];
          DispatchAppend(list[..i], h);
          if h.raises {
            turns := turns + [CalledAndLogged(h)];
          } else if h.isCoroutine {
            turns := turns + [Scheduled(h)];
          } else {
            turns := turns + [Called(h)];
          }
          i := i + 1;
        }
        assert list[..|list|] == list;
      }
    }

    method Clear()
      modifies this`handlers
      ensures handlers == map[]
    {
      handlers := map[];
    }
  }
}
