/**
 * `JSONPRequest` (dist/yourls.js): the module-level `seed` (the load time,
 * then incremented per request), the static callback holder keyed by
 * request id, the body with its `callback` parameter, and the one-shot
 * handler `process` registers. The script tag and the `window` global are
 * outside the model.
 */
module JsonpRequest {
  import opened Wrappers
  import opened JsValues
  import Connection
  import Request
  import Callbacks

  /** `'__yourls' + seed + '_jsonp'`, fixed when the library loads. */
  function HolderKey(loadTime: nat): string {
    "__yourls" + NatStr(loadTime) + "_jsonp"
  }

  /** `key + '[' + id + ']'`: the JavaScript expression the server's script calls. */
  function CallbackName(key: string, id: nat): string {
    key + "[" + NatStr(id) + "]"
  }

  /** `buildBody(api, data)`: the base body, then `body.callback` set to this request's handler. */
  function Body(key: string, api: Connection.Api, data: Value, id: nat): Dict {
    Put(Request.BuildBody(api, data), "callback", Str(CallbackName(key, id)))
  }

  /**
   * The callback parameter always names this request's own handler, even
   * when the data carries a `callback` of its own; every other property is
   * the base body's.
   */
  lemma BodyCallbackOverrides(key: string, api: Connection.Api, data: Value, id: nat, k: string)
    ensures Lookup(Body(key, api, data, id), "callback") == Str(CallbackName(key, id))
    ensures k != "callback" ==> Lookup(Body(key, api, data, id), k) == Lookup(Request.BuildBody(api, data), k)
    ensures Wf(Body(key, api, data, id))
    ensures "callback" in Body(key, api, data, id).keys
  {
    Request.BodyShape(api, data);
  }

  /** Different ids give different handler names. */
  lemma CallbackNameInjective(key: string, a: nat, b: nat)
    requires CallbackName(key, a) == CallbackName(key, b)
    ensures a == b
  {
    var na, nb := NatStr(a), NatStr(b);
    assert |na| == |nb|;
    assert CallbackName(key, a)[|key| + 1..|key| + 1 + |na|] == na;
    assert CallbackName(key, b)[|key| + 1..|key| + 1 + |nb|] == nb;
    NatStrInjective(a, b);
  }

  /** The `seed` counter and the callback holder, shared by every JSONP request. */
  class Registry {
    const key: string
    var seed: nat
    var handlers: map<nat, Callbacks.Pending>

    /** Every registered id was handed out already. */
    ghost predicate Valid()
      reads this
    {
      forall id :: id in handlers ==> id <= seed
    }

    /** Loading the library: the seed is the load time and nothing is pending. */
    constructor (loadTime: nat)
      ensures key == HolderKey(loadTime) && seed == loadTime && handlers == map[]
      ensures Valid()
    {
      key := HolderKey(loadTime);
      seed := loadTime;
      handlers := map[];
    }

    /**
     * `_generateId()`: `do { seed++ } while (holder[seed])`. The new id is the
     * least one above the old seed that no pending handler holds, so the
     * ids of successive requests strictly increase; when every pending id
     * is at most the seed, it is the seed plus one.
     */
    method GenerateId() returns (id: nat)
      modifies this
      ensures id > old(seed) && seed == id
      ensures id !in handlers && handlers == old(handlers)
      ensures forall j :: old(seed) < j < id ==> j in handlers
      ensures old(Valid()) ==> Valid() && id == old(seed) + 1
    {
      seed := seed + 1;
      while seed in handlers
        invariant seed > old(seed) && handlers == old(handlers)
        invariant forall j :: old(seed) < j < seed ==> j in handlers
        invariant old(Valid()) ==> seed == old(seed) + 1
        decreases set j | j in handlers && j >= seed
      {
        ghost var above := set j | j in handlers && j >= seed;
        ghost var next := set j | j in handlers && j >= seed + 1;
        assert seed in above && seed !in next;
        assert next <= above;
        seed := seed + 1;
      }
      id := seed;
      assert old(Valid()) ==> Valid() by {
        if old(Valid()) {
          forall j | j in handlers ensures j <= seed {
            assert j in old(handlers);
          }
        }
      }
    }

    /** What `process` stores: `holder[this._id] = handler`, replacing nothing else. */
    method Register(id: nat, names: Value, callback: Callbacks.Callback)
      modifies this
      ensures handlers == old(handlers)[id := Callbacks.Pending(names, callback)]
      ensures seed == old(seed)
      ensures old(Valid()) && id <= seed ==> Valid()
    {
      handlers := handlers[id := Callbacks.Pending(names, callback)];
    }

    /**
     * The server's script calling `key[id](response)`: the handler deletes
     * its own entry, and only that one, and then forwards the response. A
     * second call, or one for an id never registered, finds no function.
     */
    method Invoke(id: nat, response: Value) returns (r: Result<Callbacks.Call, Thrown>)
      modifies this
      ensures id in old(handlers) ==>
        handlers == old(handlers) - {id}
        && r == Success(Callbacks.Complete(old(handlers)[id], response))
      ensures id !in old(handlers) ==> handlers == old(handlers) && r.Failure? && r.error.TypeError?
      ensures seed == old(seed)
      ensures old(Valid()) ==> Valid()
    {
      if id !in handlers {
        return Failure(TypeError(CallbackName(key, id) + " is not a function"));
      }
      var pending := handlers[id];
      handlers := handlers - {id};
      r := Success(Callbacks.Complete(pending, response));
    }
  }
}
