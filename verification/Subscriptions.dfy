/**
 * Who listens to which book: the gateway's subscriptions by client and pair, and the service's
 * listeners and refresh timers by symbol.
 */
module Subscriptions {
  import opened Wrappers

  // ----- pair names

  predicate Space(c: char) { c in " \t\n\r" }

  function TrimLeft(s: string): string {
    if s != [] && Space(s[0]) then TrimLeft(s[1..]) else s
  }

  function TrimRight(s: string): string {
    if s != [] && Space(s[|s| - 1]) then TrimRight(s[..|s| - 1]) else s
  }

  function Trim(s: string): string { TrimRight(TrimLeft(s)) }

  function UpperChar(c: char): char { if 'a' <= c <= 'z' then c - 'a' + 'A' else c }

  function Upper(s: string): string { seq(|s|, i requires 0 <= i < |s| => UpperChar(s[i])) }

  predicate Alphanumeric(s: string) {
    s != [] && forall c | c in s :: 'A' <= c <= 'Z' || '0' <= c <= '9'
  }

  predicate IsPair(s: string) {
    exists i :: 0 <= i < |s| && s[i] == '-' && Alphanumeric(s[..i]) && Alphanumeric(s[i + 1..])
  }

  /** The symbol of a pair, or nothing where the source throws. */
  function Normalize(pair: string): Option<string> {
    var text := Upper(Trim(pair));
    var raw := if "CONVERT:" <= text then text[8..] else text;
    if IsPair(raw) then Some(raw) else None
  }

  /** The gateway's own key for a pair. */
  function KeyOf(pair: string): string { Upper(Trim(pair)) }

  lemma {:induction false} TrimLeftEnds(s: string)
    ensures var t := TrimLeft(s); t != [] ==> !Space(t[0])
  {
    if s != [] && Space(s[0]) {
      TrimLeftEnds(s[1..]);
    }
  }

  lemma {:induction false} TrimRightEnds(s: string)
    ensures var t := TrimRight(s); t <= s && (t != [] ==> !Space(t[|t| - 1]))
  {
    if s != [] && Space(s[|s| - 1]) {
      TrimRightEnds(s[..|s| - 1]);
    }
  }

  /** The key decides the symbol: pairs with one key have one symbol. */
  lemma {:induction false} KeyDecides(pair: string)
    ensures Normalize(KeyOf(pair)) == Normalize(pair)
  {
    TrimLeftEnds(pair);
    TrimRightEnds(TrimLeft(pair));
    var key := KeyOf(pair);
    assert TrimLeft(key) == key;
    assert TrimRight(key) == key;
    assert Upper(key) == key;
  }

  predicate Blank(s: string) { forall c | c in s :: Space(c) }

  lemma {:induction false} TrimLeftIsTheRest(s: string) returns (blank: string)
    ensures s == blank + TrimLeft(s) && Blank(blank)
  {
    if s != [] && Space(s[0]) {
      blank := TrimLeftIsTheRest(s[1..]);
      blank := [s[0]] + blank;
    } else {
      blank := [];
    }
  }

  lemma {:induction false} TrimRightIsTheRest(s: string) returns (blank: string)
    ensures s == TrimRight(s) + blank && Blank(blank)
  {
    if s != [] && Space(s[|s| - 1]) {
      blank := TrimRightIsTheRest(s[..|s| - 1]);
      blank := blank + [s[|s| - 1]];
    } else {
      blank := [];
    }
  }

  /** A text is its trimmed part between blanks, and that part begins and ends with no blank. */
  lemma {:induction false} TrimIsTheMiddle(s: string) returns (before: string, after: string)
    ensures s == before + Trim(s) + after && Blank(before) && Blank(after)
    ensures Trim(s) != [] ==> !Space(Trim(s)[0]) && !Space(Trim(s)[|Trim(s)| - 1])
  {
    before := TrimLeftIsTheRest(s);
    after := TrimRightIsTheRest(TrimLeft(s));
    TrimLeftEnds(s);
    TrimRightEnds(TrimLeft(s));
  }

  lemma {:induction false} PairCharacters(s: string)
    requires IsPair(s)
    ensures forall k | 0 <= k < |s| :: s[k] == '-' || 'A' <= s[k] <= 'Z' || '0' <= s[k] <= '9'
  {
    var i :| 0 <= i < |s| && s[i] == '-' && Alphanumeric(s[..i]) && Alphanumeric(s[i + 1..]);
    forall k | 0 <= k < |s| ensures s[k] == '-' || 'A' <= s[k] <= 'Z' || '0' <= s[k] <= '9' {
      assert k < i ==> s[k] in s[..i];
      assert k > i ==> s[k] in s[i + 1..];
    }
  }

  /** The symbol is the pair the text spells in capitals, with or without its prefix. */
  lemma {:induction false} NormalizeReadsThePair(text: string, symbol: string)
    ensures Normalize(text) == Some(symbol) <==>
            IsPair(symbol) && (KeyOf(text) == symbol || KeyOf(text) == "CONVERT:" + symbol)
  {
    if IsPair(symbol) && "CONVERT:" <= symbol {
      assert symbol[7] == ':';
      PairCharacters(symbol);
      assert false;
    }
  }

  // ----- the state

  /** What an unsubscribe closure holds: its symbol and its own listener. */
  datatype Subscription = Subscription(symbol: string, listener: nat)

  /** `issued` numbers the listeners, so that each subscription has a listener of its own. */
  datatype Hub = Hub(listeners: map<string, set<nat>>, timers: set<string>, issued: nat,
                     clients: map<string, map<string, Subscription>>)

  const QUIET := Hub(map[], {}, 0, map[])

  datatype Event =
    | Subscribe(client: string, pair: string)
    | Unsubscribe(client: string, pair: string)
    | Disconnect(client: string)
    | CallAgain(sub: Subscription)

  function Held(h: Hub, client: string): map<string, Subscription> {
    if client in h.clients then h.clients[client] else map[]
  }

  /** The service's subscribe. */
  function Listen(h: Hub, symbol: string): Hub {
    var set_ := if symbol in h.listeners then h.listeners[symbol] else {};
    h.(listeners := h.listeners[symbol := set_ + {h.issued}], timers := h.timers + {symbol}, issued := h.issued + 1)
  }

  /** The closure it returns; calling it again is allowed. */
  function Release(h: Hub, sub: Subscription): Hub {
    if sub.symbol !in h.listeners then h
    else
      var rest := h.listeners[sub.symbol] - {sub.listener};
      if rest == {} then h.(listeners := h.listeners - {sub.symbol}, timers := h.timers - {sub.symbol})
      else h.(listeners := h.listeners[sub.symbol := rest])
  }

  /** All the listeners of a set gone at once, with the symbols they leave empty. */
  function Without(h: Hub, gone: set<nat>): Hub {
    h.(listeners := map symbol | symbol in h.listeners && h.listeners[symbol] - gone != {} ::
                      h.listeners[symbol] - gone,
       timers := set symbol | symbol in h.timers && !(symbol in h.listeners && h.listeners[symbol] - gone == {}))
  }

  function ListenersOf(subs: map<string, Subscription>): set<nat> {
    set key | key in subs :: subs[key].listener
  }

  /** The client's subscriptions, made if there are none. */
  function Noted(h: Hub, client: string): Hub { h.(clients := h.clients[client := Held(h, client)]) }

  function Enter(h: Hub, client: string, key: string, symbol: string): Hub {
    Listen(h, symbol).(clients := h.clients[client := Held(h, client)[key := Subscription(symbol, h.issued)]])
  }

  function Leave(h: Hub, client: string, key: string): Hub
    requires key in Held(h, client)
  {
    Release(h, Held(h, client)[key]).(clients := h.clients[client := Held(h, client) - {key}])
  }

  function LeaveAll(h: Hub, client: string): Hub
    requires client in h.clients
  {
    Without(h, ListenersOf(h.clients[client])).(clients := h.clients - {client})
  }

  function Apply(h: Hub, event: Event): Hub {
    match event
    case Subscribe(client, pair) =>
      if Trim(pair) == [] then h
      else if KeyOf(pair) in Held(h, client) || Normalize(pair).None? then Noted(h, client)
      else Enter(h, client, KeyOf(pair), Normalize(pair).value)
    case Unsubscribe(client, pair) =>
      if Trim(pair) == [] then h
      else if KeyOf(pair) in Held(h, client) then Leave(h, client, KeyOf(pair))
      else Noted(h, client)
    case Disconnect(client) => if client in h.clients then LeaveAll(h, client) else h
    case CallAgain(sub) => if Live(h, sub) then h else Release(h, sub)
  }

  predicate Live(h: Hub, sub: Subscription) {
    sub.symbol in h.listeners && sub.listener in h.listeners[sub.symbol]
  }

  function Run(events: seq<Event>): Hub {
    if events == [] then QUIET else Apply(Run(events[..|events| - 1]), events[|events| - 1])
  }

  // ----- what every run keeps

  /** A subscription of some client, by its key. */
  predicate Entry(h: Hub, client: string, key: string) {
    client in h.clients && key in h.clients[client]
  }

  function SubOf(h: Hub, client: string, key: string): Subscription
    requires Entry(h, client, key)
  {
    h.clients[client][key]
  }

  ghost predicate TimersOk(h: Hub) {
    h.timers == h.listeners.Keys && forall symbol | symbol in h.listeners :: h.listeners[symbol] != {}
  }

  ghost predicate EntriesOk(h: Hub) {
    forall client, key | Entry(h, client, key) ::
      Normalize(key) == Some(SubOf(h, client, key).symbol) && SubOf(h, client, key).listener < h.issued &&
        Live(h, SubOf(h, client, key))
  }

  ghost predicate OneEach(h: Hub) {
    forall c1, k1, c2, k2 | Entry(h, c1, k1) && Entry(h, c2, k2) ::
      SubOf(h, c1, k1).listener == SubOf(h, c2, k2).listener ==> c1 == c2 && k1 == k2
  }

  ghost predicate Owned(h: Hub, sub: Subscription) {
    exists client, key :: Entry(h, client, key) && SubOf(h, client, key) == sub
  }

  ghost predicate AllOwned(h: Hub) {
    forall sub | Live(h, sub) :: Owned(h, sub)
  }

  ghost predicate InStep(h: Hub) { TimersOk(h) && EntriesOk(h) && OneEach(h) && AllOwned(h) }

  /** A closure that has been called already changes nothing when it is called again. */
  lemma {:induction false} StaleCallDoesNothing(h: Hub, sub: Subscription)
    requires TimersOk(h) && !Live(h, sub)
    ensures Release(h, sub) == h
  {
    if sub.symbol in h.listeners {
      assert h.listeners[sub.symbol] - {sub.listener} == h.listeners[sub.symbol];
    }
  }

  lemma {:induction false} OnlyItsOwnSymbol(h: Hub, client: string, key: string, symbol: string)
    requires AllOwned(h) && OneEach(h) && Entry(h, client, key) && symbol in h.listeners
    ensures SubOf(h, client, key).listener in h.listeners[symbol] ==> symbol == SubOf(h, client, key).symbol
  {
    var sub := Subscription(symbol, SubOf(h, client, key).listener);
    if Live(h, sub) {
      var c, k :| Entry(h, c, k) && SubOf(h, c, k) == sub;
    }
  }

  /** Releasing one live subscription is taking its listener away everywhere. */
  lemma {:induction false} ReleaseIsWithout(h: Hub, client: string, key: string)
    requires TimersOk(h) && AllOwned(h) && OneEach(h) && Entry(h, client, key) && Live(h, SubOf(h, client, key))
    ensures Release(h, SubOf(h, client, key)) == Without(h, {SubOf(h, client, key).listener})
  {
    var sub := SubOf(h, client, key);
    forall symbol | symbol in h.listeners && symbol != sub.symbol
      ensures h.listeners[symbol] - {sub.listener} == h.listeners[symbol]
    {
      OnlyItsOwnSymbol(h, client, key, symbol);
    }
    assert Release(h, sub).listeners == Without(h, {sub.listener}).listeners;
    assert Release(h, sub).timers == Without(h, {sub.listener}).timers;
  }

  lemma {:induction false} WithoutLive(h: Hub, gone: set<nat>, sub: Subscription)
    ensures Live(Without(h, gone), sub) <==> Live(h, sub) && sub.listener !in gone
  {
    if sub.symbol in h.listeners && sub.listener in h.listeners[sub.symbol] && sub.listener !in gone {
      assert sub.listener in h.listeners[sub.symbol] - gone;
    }
  }

  /** What is left of the entries when the listeners of some are gone. */
  ghost predicate Remaining(h: Hub, gone: set<nat>, h': Hub) {
    && (forall client, key :: Entry(h', client, key) <==>
        Entry(h, client, key) && SubOf(h, client, key).listener !in gone)
    && (forall client, key | Entry(h', client, key) :: SubOf(h', client, key) == SubOf(h, client, key))
  }

  lemma {:induction false} DropKeepsEntries(h: Hub, gone: set<nat>, h': Hub)
    requires EntriesOk(h) && OneEach(h) && Remaining(h, gone, h') && h'.listeners == Without(h, gone).listeners &&
             h'.issued == h.issued
    ensures EntriesOk(h') && OneEach(h')
  {
    forall client, key | Entry(h', client, key)
      ensures Normalize(key) == Some(SubOf(h', client, key).symbol) && SubOf(h', client, key).listener < h'.issued &&
              Live(h', SubOf(h', client, key))
    {
      assert Entry(h, client, key) && SubOf(h', client, key) == SubOf(h, client, key);
      WithoutLive(h, gone, SubOf(h, client, key));
    }
    forall c1, k1, c2, k2 | Entry(h', c1, k1) && Entry(h', c2, k2) &&
        SubOf(h', c1, k1).listener == SubOf(h', c2, k2).listener
      ensures c1 == c2 && k1 == k2
    {
      assert Entry(h, c1, k1) && Entry(h, c2, k2);
    }
  }

  lemma {:induction false} DropKeepsOwners(h: Hub, gone: set<nat>, h': Hub)
    requires AllOwned(h) && Remaining(h, gone, h') && h'.listeners == Without(h, gone).listeners
    ensures AllOwned(h')
  {
    forall sub | Live(h', sub) ensures Owned(h', sub) {
      WithoutLive(h, gone, sub);
      assert Owned(h, sub);
      var client, key :| Entry(h, client, key) && SubOf(h, client, key) == sub;
      assert Entry(h', client, key) && SubOf(h', client, key) == sub;
    }
  }

  /** Dropping entries together with their listeners keeps the rest in step. */
  lemma {:induction false} DropKeeps(h: Hub, gone: set<nat>, clients: map<string, map<string, Subscription>>)
    requires InStep(h) && Remaining(h, gone, Without(h, gone).(clients := clients))
    ensures InStep(Without(h, gone).(clients := clients))
  {
    var h' := Without(h, gone).(clients := clients);
    DropKeepsEntries(h, gone, h');
    DropKeepsOwners(h, gone, h');
  }

  /** One new entry with a listener of its own. */
  ghost predicate Grown(h: Hub, client: string, key: string, sub: Subscription, h': Hub) {
    && !Entry(h, client, key)
    && (forall c, k :: Entry(h', c, k) <==> Entry(h, c, k) || (c == client && k == key))
    && (forall c, k | Entry(h, c, k) :: SubOf(h', c, k) == SubOf(h, c, k))
    && SubOf(h', client, key) == sub
  }

  lemma {:induction false} GrowKeepsEntries(h: Hub, client: string, key: string, symbol: string)
    requires EntriesOk(h) && OneEach(h) && key !in Held(h, client) && Normalize(key) == Some(symbol)
    ensures EntriesOk(Enter(h, client, key, symbol)) && OneEach(Enter(h, client, key, symbol))
  {
    var h' := Enter(h, client, key, symbol);
    EnterGrows(h, client, key, symbol);
    forall c, k | Entry(h', c, k)
      ensures Normalize(k) == Some(SubOf(h', c, k).symbol) && SubOf(h', c, k).listener < h'.issued &&
              Live(h', SubOf(h', c, k))
    {
      assert Entry(h, c, k) || (c == client && k == key);
    }
    forall c1, k1, c2, k2 | Entry(h', c1, k1) && Entry(h', c2, k2) &&
        SubOf(h', c1, k1).listener == SubOf(h', c2, k2).listener
      ensures c1 == c2 && k1 == k2
    {
      assert Entry(h, c1, k1) || (c1 == client && k1 == key);
      assert Entry(h, c2, k2) || (c2 == client && k2 == key);
    }
  }

  lemma {:induction false} GrowKeepsOwners(h: Hub, client: string, key: string, symbol: string, h': Hub)
    requires AllOwned(h) && Grown(h, client, key, Subscription(symbol, h.issued), h') &&
             h'.listeners == Listen(h, symbol).listeners
    ensures AllOwned(h')
  {
    forall sub | Live(h', sub) ensures Owned(h', sub) {
      if Live(h, sub) {
        assert Owned(h, sub);
        var c, k :| Entry(h, c, k) && SubOf(h, c, k) == sub;
        assert Entry(h', c, k) && SubOf(h', c, k) == sub;
      } else {
        assert Entry(h', client, key) && SubOf(h', client, key) == sub;
      }
    }
  }

  /** A client without entries of its own comes to no harm by being noted. */
  lemma {:induction false} NotingKeeps(h: Hub, client: string)
    requires InStep(h)
    ensures InStep(Noted(h, client))
  {
    var h' := Noted(h, client);
    assert forall c, k :: Entry(h', c, k) <==> Entry(h, c, k);
    assert forall c, k | Entry(h, c, k) :: SubOf(h', c, k) == SubOf(h, c, k);
    forall sub | Live(h', sub) ensures Owned(h', sub) {
      assert Live(h, sub);
      var c, k :| Entry(h, c, k) && SubOf(h, c, k) == sub;
      assert Entry(h', c, k);
    }
  }

  lemma {:induction false} EnterGrows(h: Hub, client: string, key: string, symbol: string)
    requires key !in Held(h, client)
    ensures Grown(h, client, key, Subscription(symbol, h.issued), Enter(h, client, key, symbol))
  {
  }

  lemma {:induction false} EnteringKeeps(h: Hub, client: string, key: string, symbol: string)
    requires InStep(h) && key !in Held(h, client) && Normalize(key) == Some(symbol)
    ensures InStep(Enter(h, client, key, symbol))
  {
    var h' := Enter(h, client, key, symbol);
    EnterGrows(h, client, key, symbol);
    GrowKeepsEntries(h, client, key, symbol);
    GrowKeepsOwners(h, client, key, symbol, h');
  }

  lemma {:induction false} LeavingKeeps(h: Hub, client: string, key: string)
    requires InStep(h) && key in Held(h, client)
    ensures InStep(Leave(h, client, key))
  {
    var clients := h.clients[client := Held(h, client) - {key}];
    assert Entry(h, client, key);
    ReleaseIsWithout(h, client, key);
    var gone := {SubOf(h, client, key).listener};
    forall c, k
      ensures Entry(Without(h, gone).(clients := clients), c, k) <==> Entry(h, c, k) && SubOf(h, c, k).listener !in gone
    {
      if Entry(h, c, k) && !(c == client && k == key) {
        assert SubOf(h, c, k).listener != SubOf(h, client, key).listener;
      }
    }
    DropKeeps(h, gone, clients);
  }

  lemma {:induction false} LeavingAllKeeps(h: Hub, client: string)
    requires InStep(h) && client in h.clients
    ensures InStep(LeaveAll(h, client))
  {
    var gone := ListenersOf(h.clients[client]);
    forall c, k | Entry(h, c, k) && SubOf(h, c, k).listener in gone ensures c == client {
      var key :| key in h.clients[client] && h.clients[client][key].listener == SubOf(h, c, k).listener;
      assert Entry(h, client, key) && SubOf(h, client, key).listener == SubOf(h, c, k).listener;
    }
    DropKeeps(h, gone, h.clients - {client});
  }

  lemma {:induction false} ApplyKeeps(h: Hub, event: Event)
    requires InStep(h)
    ensures InStep(Apply(h, event))
  {
    match event
    case Subscribe(client, pair) =>
      KeyDecides(pair);
      if Trim(pair) != [] {
        if KeyOf(pair) in Held(h, client) || Normalize(pair).None? {
          NotingKeeps(h, client);
        } else {
          EnteringKeeps(h, client, KeyOf(pair), Normalize(pair).value);
        }
      }
    case Unsubscribe(client, pair) =>
      if Trim(pair) != [] {
        if KeyOf(pair) in Held(h, client) {
          LeavingKeeps(h, client, KeyOf(pair));
        } else {
          NotingKeeps(h, client);
        }
      }
    case Disconnect(client) =>
      if client in h.clients {
        LeavingAllKeeps(h, client);
      }
    case CallAgain(sub) =>
      if !Live(h, sub) {
        StaleCallDoesNothing(h, sub);
      }
  }

  lemma {:induction false} RunKeeps(events: seq<Event>)
    ensures InStep(Run(events))
    decreases |events|
  {
    if events != [] {
      RunKeeps(events[..|events| - 1]);
      ApplyKeeps(Run(events[..|events| - 1]), events[|events| - 1]);
    }
  }

  // ----- the counts

  function Entries(h: Hub, symbol: string): set<(string, string)> {
    set client, key | client in h.clients && key in h.clients[client] && h.clients[client][key].symbol == symbol ::
      (client, key)
  }

  lemma {:induction false} AsManyImages(items: set<(string, string)>, image: map<(string, string), nat>)
    requires items <= image.Keys && forall a, b | a in items && b in items :: image[a] == image[b] ==> a == b
    ensures |set item | item in items :: image[item]| == |items|
    decreases |items|
  {
    if items != {} {
      var x :| x in items;
      AsManyImages(items - {x}, image);
      assert (set item | item in items :: image[item]) == (set item | item in items - {x} :: image[item]) + {image[x]};
    } else {
      assert (set item | item in items :: image[item]) == {};
    }
  }

  lemma {:induction false} CountsAgree(h: Hub, symbol: string)
    requires InStep(h) && symbol in h.listeners
    ensures |h.listeners[symbol]| == |Entries(h, symbol)|
  {
    var entries := Entries(h, symbol);
    var image := map e | e in entries :: h.clients[e.0][e.1].listener;
    forall a, b | a in entries && b in entries && image[a] == image[b] ensures a == b {
      assert Entry(h, a.0, a.1) && Entry(h, b.0, b.1);
    }
    AsManyImages(entries, image);
    forall listener | listener in h.listeners[symbol] ensures exists e :: e in entries && image[e] == listener {
      assert Live(h, Subscription(symbol, listener));
      var client, key :| Entry(h, client, key) && SubOf(h, client, key) == Subscription(symbol, listener);
      assert (client, key) in entries;
    }
    forall e | e in entries ensures image[e] in h.listeners[symbol] {
      assert Entry(h, e.0, e.1);
    }
    assert h.listeners[symbol] == set e | e in entries :: image[e];
  }

  /**
   * After any events: a refresh timer runs exactly for the symbols someone listens to, and a symbol
   * has as many listeners as there are client entries whose key normalises to it.
   */
  lemma {:induction false} TimersFollowListeners(events: seq<Event>, symbol: string)
    ensures var h := Run(events);
            && (symbol in h.timers <==> symbol in h.listeners && h.listeners[symbol] != {})
            && (if symbol in h.listeners then |h.listeners[symbol]| else 0) == |Entries(h, symbol)|
            && (forall e | e in Entries(h, symbol) :: Normalize(e.1) == Some(symbol))
  {
    var h := Run(events);
    RunKeeps(events);
    forall e | e in Entries(h, symbol) ensures Normalize(e.1) == Some(symbol) && symbol in h.listeners {
      assert Entry(h, e.0, e.1);
    }
    if symbol in h.listeners {
      CountsAgree(h, symbol);
    } else {
      assert Entries(h, symbol) == {};
    }
  }

  // ----- the events decide

  /** The event makes an entry of the client under the key, unless there is one. */
  predicate Subscribes(event: Event, client: string, key: string) {
    event.Subscribe? && event.client == client && KeyOf(event.pair) == key && Normalize(event.pair).Some?
  }

  /** The event takes the entry away: the client unsubscribes its key or disconnects. */
  predicate Ends(event: Event, client: string, key: string) {
    || event == Disconnect(client)
    || (event.Unsubscribe? && event.client == client && KeyOf(event.pair) == key)
  }

  /** Subscribed at i and not ended since. */
  predicate Standing(events: seq<Event>, client: string, key: string, i: nat) {
    i < |events| && Subscribes(events[i], client, key) && forall j | i < j < |events| :: !Ends(events[j], client, key)
  }

  ghost predicate Stands(events: seq<Event>, client: string, key: string) {
    exists i: nat :: Standing(events, client, key, i)
  }

  lemma {:induction false} KeyIsBlankWithItsText(text: string)
    ensures KeyOf(text) == [] <==> Trim(text) == []
    ensures Normalize(text).Some? ==> KeyOf(text) != []
  {
  }

  /** One event makes, ends or leaves an entry; one it leaves keeps its closure. */
  ghost predicate Decided(h: Hub, event: Event, client: string, key: string, h': Hub) {
    && (Entry(h', client, key) <==>
        Subscribes(event, client, key) || (Entry(h, client, key) && !Ends(event, client, key)))
    && (Entry(h, client, key) && !Ends(event, client, key) ==> SubOf(h', client, key) == SubOf(h, client, key))
  }

  lemma {:induction false} SubscribeDecides(h: Hub, event: Event, client: string, key: string)
    requires event.Subscribe?
    ensures Decided(h, event, client, key, Apply(h, event))
  {
    var own := KeyOf(event.pair);
    KeyIsBlankWithItsText(event.pair);
    if Trim(event.pair) != [] && own !in Held(h, event.client) && Normalize(event.pair).Some? {
      EnterGrows(h, event.client, own, Normalize(event.pair).value);
    }
  }

  lemma {:induction false} OneEventDecides(h: Hub, event: Event, client: string, key: string)
    requires EntriesOk(h)
    ensures Decided(h, event, client, key, Apply(h, event))
  {
    if event.Subscribe? {
      SubscribeDecides(h, event, client, key);
    } else {
      assert Entry(h, client, key) ==> Normalize(key).Some?;
      KeyIsBlankWithItsText(key);
      if event.Unsubscribe? {
        KeyIsBlankWithItsText(event.pair);
      }
    }
  }

  lemma {:induction false} StandsAfter(events: seq<Event>, event: Event, client: string, key: string)
    ensures Stands(events + [event], client, key) <==>
            Subscribes(event, client, key) || (Stands(events, client, key) && !Ends(event, client, key))
  {
    var all := events + [event];
    if Stands(all, client, key) && !Subscribes(event, client, key) {
      var i: nat :| Standing(all, client, key, i);
      assert all[|events|] == event;
      forall j | i < j < |events| ensures !Ends(events[j], client, key) {
        assert all[j] == events[j];
      }
      assert Standing(events, client, key, i);
    }
    if Subscribes(event, client, key) {
      assert Standing(all, client, key, |events|);
    } else if Stands(events, client, key) && !Ends(event, client, key) {
      var i: nat :| Standing(events, client, key, i);
      assert Standing(all, client, key, i);
    }
  }

  /** A client has an entry for a key exactly if it has subscribed to it and neither left nor disconnected since. */
  lemma {:induction false} EntriesAreWhatStands(events: seq<Event>, client: string, key: string)
    ensures Entry(Run(events), client, key) <==> Stands(events, client, key)
    decreases |events|
  {
    if events != [] {
      var before, last := events[..|events| - 1], events[|events| - 1];
      assert events == before + [last];
      EntriesAreWhatStands(before, client, key);
      RunKeeps(before);
      OneEventDecides(Run(before), last, client, key);
      StandsAfter(before, last, client, key);
    }
  }

  /** Someone listens to a symbol, and its timer runs, exactly while a subscription to it stands. */
  lemma {:induction false} TimersFollowTheEvents(events: seq<Event>, symbol: string)
    ensures symbol in Run(events).timers <==> symbol in Run(events).listeners
    ensures symbol in Run(events).listeners <==>
            exists client, key :: Stands(events, client, key) && Normalize(key) == Some(symbol)
  {
    var h := Run(events);
    RunKeeps(events);
    if symbol in h.listeners {
      var listener :| listener in h.listeners[symbol];
      assert Live(h, Subscription(symbol, listener));
      var client, key :| Entry(h, client, key) && SubOf(h, client, key) == Subscription(symbol, listener);
      EntriesAreWhatStands(events, client, key);
    }
    if client, key :| Stands(events, client, key) && Normalize(key) == Some(symbol) {
      EntriesAreWhatStands(events, client, key);
      assert Entry(h, client, key);
    }
  }

  /** An entry keeps its closure until it is ended. */
  lemma {:induction false} ClosureStays(events: seq<Event>, event: Event, client: string, key: string)
    requires Stands(events, client, key) && !Ends(event, client, key)
    ensures Entry(Run(events), client, key) && Entry(Run(events + [event]), client, key)
    ensures SubOf(Run(events + [event]), client, key) == SubOf(Run(events), client, key)
  {
    assert (events + [event])[..|events|] == events;
    EntriesAreWhatStands(events, client, key);
    RunKeeps(events);
    OneEventDecides(Run(events), event, client, key);
  }

  /** A disconnect leaves no record of the client, no closure of it live and every other client as it was. */
  lemma {:induction false} DisconnectForgets(events: seq<Event>, client: string, other: string, sub: Subscription)
    ensures var h, h' := Run(events), Run(events + [Disconnect(client)]);
            && client !in h'.clients
            && (other != client ==> (other in h'.clients <==> other in h.clients) && Held(h', other) == Held(h, other))
            && (Live(h', sub) <==> Live(h, sub) && sub !in Held(h, client).Values)
  {
    assert (events + [Disconnect(client)])[..|events|] == events;
    RunKeeps(events);
    var h := Run(events);
    if client in h.clients {
      WithoutLive(h, ListenersOf(h.clients[client]), sub);
      if Live(h, sub) {
        var c, k :| Entry(h, c, k) && SubOf(h, c, k) == sub;
        if key :| key in h.clients[client] && h.clients[client][key].listener == sub.listener {
          assert Entry(h, client, key) && SubOf(h, client, key).listener == SubOf(h, c, k).listener;
        }
      }
    }
  }

  /** When every subscription has been ended, no listener and no timer is left. */
  lemma {:induction false} NothingIsLeft(events: seq<Event>)
    requires forall client, key :: !Stands(events, client, key)
    ensures Run(events).listeners == map[] && Run(events).timers == {}
  {
    forall symbol ensures symbol !in Run(events).listeners && symbol !in Run(events).timers {
      TimersFollowTheEvents(events, symbol);
    }
  }
}
