/** The service's listener registry and the websocket gateway in front of it, as they mutate their maps. */
module SubscriptionGateway {
  import opened Wrappers
  import opened Subscriptions

  /** Releasing the listeners of a client one by one takes them all away. */
  lemma {:induction false} ReleaseMore(h: Hub, gone: set<nat>, client: string, key: string)
    requires InStep(h) && Entry(h, client, key) && SubOf(h, client, key).listener !in gone
    ensures Release(Without(h, gone), SubOf(h, client, key)) == Without(h, gone + {SubOf(h, client, key).listener})
  {
    var sub := SubOf(h, client, key);
    WithoutLive(h, gone, sub);
    forall symbol | symbol in h.listeners
      ensures h.listeners[symbol] - gone - {sub.listener} == h.listeners[symbol] - (gone + {sub.listener})
      ensures symbol != sub.symbol ==> h.listeners[symbol] - (gone + {sub.listener}) == h.listeners[symbol] - gone
    {
      OnlyItsOwnSymbol(h, client, key, symbol);
    }
    assert Release(Without(h, gone), sub).listeners == Without(h, gone + {sub.listener}).listeners;
    assert Release(Without(h, gone), sub).timers == Without(h, gone + {sub.listener}).timers;
  }

  /** The listeners of the keys of a client that are not left any more. */
  function Gone(subs: map<string, Subscription>, left: set<string>): set<nat> {
    set key | key in subs && key !in left :: subs[key].listener
  }

  lemma {:induction false} ReleaseNext(events: seq<Event>, client: string, left: set<string>, key: string)
    requires client in Run(events).clients && key in left && left <= Run(events).clients[client].Keys
    ensures var h, subs := Run(events), Run(events).clients[client];
            && Release(Without(h, Gone(subs, left)), subs[key]) == Without(h, Gone(subs, left - {key}))
  {
    var h, subs := Run(events), Run(events).clients[client];
    RunKeeps(events);
    assert Entry(h, client, key);
    forall k | k in subs && k !in left ensures subs[k].listener != subs[key].listener {
      assert Entry(h, client, k) && SubOf(h, client, k) == subs[k];
    }
    ReleaseMore(h, Gone(subs, left), client, key);
    assert Gone(subs, left) + {subs[key].listener} == Gone(subs, left - {key});
  }

  lemma {:induction false} NoneGone(events: seq<Event>)
    ensures Without(Run(events), {}) == Run(events)
  {
    RunKeeps(events);
    var h := Run(events);
    assert forall symbol | symbol in h.listeners :: h.listeners[symbol] - {} == h.listeners[symbol];
  }

  class ListenerRegistry {
    var listeners: map<string, set<nat>>
    var refreshTimers: set<string>
    var issued: nat

    constructor ()
      ensures listeners == map[] && refreshTimers == {} && issued == 0
    {
      listeners, refreshTimers, issued := map[], {}, 0;
    }

    ghost function Part(clients: map<string, map<string, Subscription>>): Hub
      reads this
    {
      Hub(listeners, refreshTimers, issued, clients)
    }

    /** The listener joins its symbol, whose timer starts if it is the first. */
    method Listen(pair: string) returns (r: Option<Subscription>)
      modifies this
      ensures r == match Normalize(pair) case None => None case Some(symbol) => Some(Subscription(symbol, old(issued)))
      ensures Part(map[]) ==
              match Normalize(pair)
              case None => old(Part(map[]))
              case Some(symbol) => Subscriptions.Listen(old(Part(map[])), symbol)
    {
      var normalized := Normalize(pair);
      if normalized.None? {
        return None;
      }
      var symbol := normalized.value;
      var current := if symbol in listeners then listeners[symbol] else {};
      listeners := listeners[symbol := current + {issued}];
      if symbol !in refreshTimers {
        refreshTimers := refreshTimers + {symbol};
      } else {
        assert refreshTimers == refreshTimers + {symbol};
      }
      r := Some(Subscription(symbol, issued));
      issued := issued + 1;
    }

    /** The closure handed out with a subscription. */
    method Release(sub: Subscription)
      modifies this
      ensures Part(map[]) == Subscriptions.Release(old(Part(map[])), sub)
    {
      if sub.symbol !in listeners {
        return;
      }
      var current := listeners[sub.symbol] - {sub.listener};
      if current == {} {
        listeners := listeners - {sub.symbol};
        refreshTimers := refreshTimers - {sub.symbol};
      } else {
        listeners := listeners[sub.symbol := current];
      }
    }
  }

  lemma {:induction false} ReleaseIgnoresClients(h: Hub, clients: map<string, map<string, Subscription>>,
                                                 sub: Subscription)
    ensures Release(h.(clients := clients), sub) == Release(h, sub).(clients := clients)
  {
  }

  /** A subscribe event, told apart by what the gateway finds. */
  lemma {:induction false} SubscribeIs(h: Hub, client: string, pair: string)
    ensures var h' := Apply(h, Subscribe(client, pair));
            && (Trim(pair) == [] ==> h' == h)
            && (Trim(pair) != [] && (KeyOf(pair) in Held(h, client) || Normalize(pair).None?) ==>
                h' == Noted(h, client))
            && (Trim(pair) != [] && KeyOf(pair) !in Held(h, client) && Normalize(pair).Some? ==>
                  h' == Enter(Noted(h, client), client, KeyOf(pair), Normalize(pair).value))
  {
  }

  lemma {:induction false} SubscribeAdds(events: seq<Event>, client: string, pair: string)
    ensures var h, h' := Run(events), Apply(Run(events), Subscribe(client, pair));
            && (KeyOf(pair) in Held(h, client) ==> Normalize(pair).Some?)
            && (Normalize(pair).Some? ==> Trim(pair) != [])
            && (forall c, key :: Entry(h', c, key) <==>
                Entry(h, c, key) || (Normalize(pair).Some? && c == client && key == KeyOf(pair)))
  {
    var h, event := Run(events), Subscribe(client, pair);
    RunKeeps(events);
    KeyDecides(pair);
    KeyIsBlankWithItsText(pair);
    assert KeyOf(pair) in Held(h, client) ==> Entry(h, client, KeyOf(pair));
    forall c, key ensures Decided(h, event, c, key, Apply(h, event)) {
      OneEventDecides(h, event, c, key);
    }
  }

  lemma {:induction false} UnsubscribeTakes(events: seq<Event>, client: string, pair: string)
    ensures var h, h' := Run(events), Apply(Run(events), Unsubscribe(client, pair));
            forall c, key :: Entry(h', c, key) <==> Entry(h, c, key) && !(c == client && key == KeyOf(pair))
  {
    var h, event := Run(events), Unsubscribe(client, pair);
    RunKeeps(events);
    forall c, key ensures Decided(h, event, c, key, Apply(h, event)) {
      OneEventDecides(h, event, c, key);
    }
  }

  class ConvertOrderbookGateway {
    const orderbooks: ListenerRegistry
    var unsubscribeByClient: map<string, map<string, Subscription>>
    ghost var history: seq<Event>

    constructor ()
      ensures Valid() && fresh(orderbooks) && history == []
    {
      orderbooks := new ListenerRegistry();
      unsubscribeByClient, history := map[], [];
    }

    ghost function State(): Hub
      reads this, orderbooks
    {
      orderbooks.Part(unsubscribeByClient)
    }

    /** The maps are those of the events so far. */
    ghost predicate Valid()
      reads this, orderbooks
    {
      State() == Run(history)
    }

    ghost method Happened(event: Event)
      requires State() == Apply(Run(history), event)
      modifies this`history
      ensures Valid() && history == old(history) + [event]
    {
      history := history + [event];
      assert history[..|history| - 1] == old(history);
    }

    method GetClientSubscriptions(client: string) returns (subs: map<string, Subscription>)
      modifies this`unsubscribeByClient
      ensures subs == Held(old(State()), client) && State() == Noted(old(State()), client)
    {
      if client in unsubscribeByClient {
        assert unsubscribeByClient == unsubscribeByClient[client := unsubscribeByClient[client]];
        return unsubscribeByClient[client];
      }
      subs := map[];
      unsubscribeByClient := unsubscribeByClient[client := subs];
    }

    method SubscribePair(client: string, pair: string) returns (ok: bool)
      requires Valid()
      modifies this, orderbooks
      ensures Valid() && history == old(history) + [Subscribe(client, pair)]
      ensures ok <==> Normalize(pair).Some?
      ensures forall c, key :: Entry(State(), c, key) <==>
                Entry(old(State()), c, key) || (ok && c == client && key == KeyOf(pair))
    {
      SubscribeAdds(history, client, pair);
      SubscribeIs(State(), client, pair);
      ok := Trim(pair) != [];
      if ok {
        var subs := GetClientSubscriptions(client);
        var key := KeyOf(pair);
        if key !in subs {
          ok := Add(client, key, pair);
        }
      }
      Happened(Subscribe(client, pair));
    }

    method Add(client: string, key: string, pair: string) returns (ok: bool)
      requires client in unsubscribeByClient && key !in unsubscribeByClient[client]
      modifies this`unsubscribeByClient, orderbooks
      ensures ok <==> Normalize(pair).Some?
      ensures !ok ==> State() == old(State())
      ensures ok ==> State() == Enter(old(State()), client, key, Normalize(pair).value)
    {
      var r := orderbooks.Listen(pair);
      ok := r.Some?;
      if ok {
        unsubscribeByClient := unsubscribeByClient[client := unsubscribeByClient[client][key := r.value]];
      }
    }

    method UnsubscribePair(client: string, pair: string) returns (ok: bool)
      requires Valid()
      modifies this, orderbooks
      ensures Valid() && history == old(history) + [Unsubscribe(client, pair)]
      ensures ok <==> Trim(pair) != []
      ensures forall c, key :: Entry(State(), c, key) <==>
                Entry(old(State()), c, key) && !(c == client && key == KeyOf(pair))
    {
      UnsubscribeTakes(history, client, pair);
      ok := Trim(pair) != [];
      if ok {
        var subs := GetClientSubscriptions(client);
        var key := KeyOf(pair);
        if key in subs {
          orderbooks.Release(subs[key]);
          unsubscribeByClient := unsubscribeByClient[client := subs - {key}];
        }
      }
      Happened(Unsubscribe(client, pair));
    }

    method HandleDisconnect(client: string)
      requires Valid()
      modifies this, orderbooks
      ensures Valid() && history == old(history) + [Disconnect(client)]
      ensures unsubscribeByClient == old(unsubscribeByClient) - {client}
      ensures forall sub :: Live(State(), sub) <==>
                Live(old(State()), sub) && sub !in Held(old(State()), client).Values
    {
      forall sub
        ensures Live(Run(history + [Disconnect(client)]), sub) <==>
                Live(State(), sub) && sub !in Held(State(), client).Values
      {
        DisconnectForgets(history, client, client, sub);
      }
      if client in unsubscribeByClient {
        ReleaseAll(client);
        unsubscribeByClient := unsubscribeByClient - {client};
      }
      Happened(Disconnect(client));
    }

    /** Calls every closure of the client. */
    method ReleaseAll(client: string)
      requires Valid() && client in unsubscribeByClient
      modifies orderbooks
      ensures State() == Without(Run(history), ListenersOf(unsubscribeByClient[client]))
    {
      var subs := unsubscribeByClient[client];
      var left := subs.Keys;
      ghost var was := Run(history);
      NoneGone(history);
      assert Gone(subs, left) == {};
      while left != {}
        invariant left <= subs.Keys
        invariant State() == Without(was, Gone(subs, left))
        decreases |left|
      {
        var key :| key in left;
        ReleaseNext(history, client, left, key);
        ReleaseIgnoresClients(orderbooks.Part(map[]), unsubscribeByClient, subs[key]);
        orderbooks.Release(subs[key]);
        left := left - {key};
      }
      assert Gone(subs, {}) == ListenersOf(subs);
    }

    /** A closure kept by a caller and called again after its subscription has ended. */
    method CallReleased(sub: Subscription)
      requires Valid() && !Live(State(), sub)
      modifies this, orderbooks
      ensures Valid() && history == old(history) + [CallAgain(sub)]
      ensures State() == old(State())
    {
      RunKeeps(history);
      StaleCallDoesNothing(Run(history), sub);
      orderbooks.Release(sub);
      Happened(CallAgain(sub));
    }
  }
}
