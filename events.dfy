/** aFrame's named-event registry (`AF.event`): `on` subscribes a handler
    under a name, `fire` calls the handlers of a name in the order they were
    subscribed, `clearEvents` forgets the handlers of one name or of all.
    Handlers are identified by number; calling one is recorded as an
    `Invocation` rather than run. */
module Events {
  import opened Wrappers

  /** An event name argument: a string, or any other JavaScript value. */
  datatype Name = Str(s: string) | NonString

  /** A subscribed handler: a function (by identity) or, for an argument
      that was not a function, the no-op that `on` puts in its place. */
  datatype Handler = Noop | Fn(id: nat)

  /** The payload or the extra arguments of a subscription: an object with
      integer fields (`{}` is the empty object). */
  type Payload = map<string, int>

  /** One registry item: `{func, arguments}`. */
  datatype Subscriber = Subscriber(func: Handler, arguments: Payload)

  /** One call `func(payload, arguments)` made by `fire`. */
  datatype Invocation = Call(func: Handler, payload: Payload, arguments: Payload)

  /** The handlers registered under `name` (none if the name is unknown). */
  function Listeners(registry: map<string, seq<Subscriber>>, name: string): seq<Subscriber> {
    if name in registry then registry[name] else []
  }

  /** The calls `fire` makes for the listeners `subs`, in order. */
  function Calls(subs: seq<Subscriber>, payload: Payload): seq<Invocation>
    decreases |subs|
  {
    if subs == [] then []
    else Calls(subs[..|subs| - 1], payload) +
         [Call(subs[|subs| - 1].func, payload, subs[|subs| - 1].arguments)]
  }

  /** `fire` calls every listener exactly once, in subscription order, each
      with the payload and its own arguments. */
  lemma {:induction false} CallsInOrder(subs: seq<Subscriber>, payload: Payload)
    ensures |Calls(subs, payload)| == |subs|
    ensures forall k :: 0 <= k < |subs| ==>
              Calls(subs, payload)[k] == Call(subs[k].func, payload, subs[k].arguments)
    decreases |subs|
  {
    if subs != [] {
      CallsInOrder(subs[..|subs| - 1], payload);
    }
  }

  /** The key `on` files a subscription under. */
  function Key(name: Name): string {
    if name.Str? then name.s else "unknown"
  }

  /** The registry after `on(name, fn, args)`. */
  function Subscribed(registry: map<string, seq<Subscriber>>, name: Name, sub: Subscriber): map<string, seq<Subscriber>> {
    registry[Key(name) := Listeners(registry, Key(name)) + [sub]]
  }

  /** Whether `clearEvents` clears everything: `name` is not a string or is
      the empty string, both falsy once type-checked. */
  predicate ClearsAll(name: Name) {
    name == NonString || name == Str("")
  }

  /** The registry after `clearEvents(name)`. */
  function Cleared(registry: map<string, seq<Subscriber>>, name: Name): map<string, seq<Subscriber>> {
    if ClearsAll(name) then map[]
    else if name.s in registry then registry[name.s := []]
    else registry
  }

  /** Firing after a subscription calls the old listeners and then the new
      one; every other name fires as before. */
  lemma FireAfterOn(registry: map<string, seq<Subscriber>>, name: Name, sub: Subscriber, other: string, payload: Payload)
    ensures Calls(Listeners(Subscribed(registry, name, sub), Key(name)), payload) ==
            Calls(Listeners(registry, Key(name)), payload) + [Call(sub.func, payload, sub.arguments)]
    ensures other != Key(name) ==>
            Listeners(Subscribed(registry, name, sub), other) == Listeners(registry, other)
  {
    var subs := Listeners(registry, Key(name));
    assert (subs + [sub])[..|subs|] == subs;
  }

  /** After `clearEvents`, a cleared name fires nothing and every other name
      fires as before. */
  lemma FireAfterClear(registry: map<string, seq<Subscriber>>, name: Name, other: string, payload: Payload)
    ensures ClearsAll(name) ==> Calls(Listeners(Cleared(registry, name), other), payload) == []
    ensures !ClearsAll(name) && other != name.s ==>
            Listeners(Cleared(registry, name), other) == Listeners(registry, other)
    ensures !ClearsAll(name) ==> Calls(Listeners(Cleared(registry, name), name.s), payload) == []
  {
  }

  /** What `fire` returns: `false` for a non-string name, otherwise nothing
      (`undefined`). */
  datatype FireResult = ReturnedFalse | ReturnedUndefined

  /** An object extended with the event methods, holding its registry. */
  class EventTarget {
    var registry: map<string, seq<Subscriber>>

    /** `AF.event(obj)`: an empty registry. */
    constructor ()
      ensures registry == map[]
    {
      registry := map[];
    }

    /** `clearEvents(name)`: a non-string or empty name empties the whole
        registry; a registered name loses its listeners (the name stays
        known); an unregistered name changes nothing. */
    method ClearEvents(name: Name)
      modifies this
      ensures registry == Cleared(old(registry), name)
      ensures ClearsAll(name) ==> registry == map[]
      ensures !ClearsAll(name) && name.s !in old(registry) ==> registry == old(registry)
      ensures !ClearsAll(name) ==> forall n :: n != name.s ==> Listeners(registry, n) == Listeners(old(registry), n)
    {
      if ClearsAll(name) {
        registry := map[];
        return;
      }
      if name.s in registry {
        registry := registry[name.s := []];
      }
    }

    /** `on(name, fn, args)`: a non-string name is filed under `'unknown'`, a
        missing function becomes a no-op and missing arguments become `{}`;
        the subscriber goes to the end of its name's list and no other list
        changes. */
    method On(name: Name, fn: Option<nat>, args: Option<Payload>)
      modifies this
      ensures var sub := Subscriber(if fn.Some? then Fn(fn.value) else Noop, args.GetOr(map[]));
              registry == Subscribed(old(registry), name, sub) &&
              Listeners(registry, Key(name)) == Listeners(old(registry), Key(name)) + [sub]
      ensures forall n :: n != Key(name) ==> Listeners(registry, n) == Listeners(old(registry), n)
    {
      var key := if name.Str? then name.s else "unknown";
      var func := if fn.Some? then Fn(fn.value) else Noop;
      var item := Subscriber(func, args.GetOr(map[]));
      if key in registry {
        registry := registry[key := registry[key] + [item]];
      } else {
        assert [] + [item] == [item];
        registry := registry[key := [item]];
      }
    }

    /** `fire(name, payload)`: a non-string name returns `false` and calls
        nothing; otherwise each listener of the name is called once, in
        subscription order, with the payload (`{}` when missing) and its own
        arguments, and an unknown name calls nothing. */
    method Fire(name: Name, payload: Option<Payload>) returns (result: FireResult, calls: seq<Invocation>)
      ensures result == ReturnedFalse <==> name == NonString
      ensures name == NonString ==> calls == []
      ensures name.Str? ==> calls == Calls(Listeners(registry, name.s), payload.GetOr(map[]))
      ensures name.Str? && name.s !in registry ==> calls == []
      ensures name.Str? ==> |calls| == |Listeners(registry, name.s)|
    {
      var p := payload.GetOr(map[]);
      calls := [];
      if !name.Str? {
        return ReturnedFalse, calls;
      }
      if name.s in registry {
        var fns := registry[name.s];
        var i := 0;
        while i < |fns|
          invariant 0 <= i <= |fns|
          invariant calls == Calls(fns[..i], p)
        {
          assert fns[..i + 1][..i] == fns[..i];
          calls := calls + [Call(fns[i].func, p, fns[i].arguments)];
          i := i + 1;
        }
        assert fns[..|fns|] == fns;
      }
      CallsInOrder(Listeners(registry, name.s), p);
      result := ReturnedUndefined;
    }
  }
}
