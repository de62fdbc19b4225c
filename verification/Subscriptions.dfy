/**
  The subscription index (src/api/subscription-manager.ts): two maps, a set and a stream of events
  that all follow from one relation between clients and addresses.
 */
module Subscriptions {

  type Client = string
  type Address = string

  type Relation = set<(Client, Address)>

  datatype Trade = Trade(userAddress: Address, signature: string)

  datatype Event =
    | AddressAdded(address: Address)
    | AddressRemoved(address: Address)
    | TradeNotification(client: Client, trade: Trade)

  //
  // What the index is, given the relation
  //

  datatype Index = Index(
    addressSubscriptions: map<Address, set<Client>>,
    clientSubscriptions: map<Client, set<Address>>,
    trackedAddresses: set<Address>
  )

  function Addresses(r: Relation): set<Address> {
    set p | p in r :: p.1
  }

  function Clients(r: Relation): set<Client> {
    set p | p in r :: p.0
  }

  function SubscribersOf(r: Relation, address: Address): set<Client> {
    set p | p in r && p.1 == address :: p.0
  }

  function SubscriptionsOf(r: Relation, client: Client): set<Address> {
    set p | p in r && p.0 == client :: p.1
  }

  /** Both maps are projections of the relation, so none of their sets is empty. */
  function IndexOf(r: Relation): Index {
    Index(map address | address in Addresses(r) :: SubscribersOf(r, address),
          map client | client in Clients(r) :: SubscriptionsOf(r, client),
          Addresses(r))
  }

  function Pairs(client: Client, addresses: set<Address>): Relation {
    set address | address in addresses :: (client, address)
  }

  lemma InSubscribers(r: Relation, client: Client, address: Address)
    ensures client in SubscribersOf(r, address) <==> (client, address) in r
    ensures address in SubscriptionsOf(r, client) <==> (client, address) in r
    ensures (client, address) in r ==> address in Addresses(r) && client in Clients(r)
  {
    if (client, address) in r {
      var p := (client, address);
      assert p in r && p.0 == client && p.1 == address;
    }
  }

  lemma InDomains(r: Relation, client: Client, address: Address)
    ensures address in Addresses(r) <==> SubscribersOf(r, address) != {}
    ensures client in Clients(r) <==> SubscriptionsOf(r, client) != {}
  {
    if address in Addresses(r) {
      var p :| p in r && p.1 == address;
      InSubscribers(r, p.0, address);
    } else if c :| c in SubscribersOf(r, address) {
      InSubscribers(r, c, address);
    }
    if client in Clients(r) {
      var p :| p in r && p.0 == client;
      InSubscribers(r, client, p.1);
    } else if a :| a in SubscriptionsOf(r, client) {
      InSubscribers(r, client, a);
    }
  }

  //
  // One pair more, one pair less
  //

  lemma AddPair(r: Relation, client: Client, address: Address)
    ensures var t := r + {(client, address)};
            && Addresses(t) == Addresses(r) + {address} && Clients(t) == Clients(r) + {client}
            && SubscribersOf(t, address) == SubscribersOf(r, address) + {client}
            && SubscriptionsOf(t, client) == SubscriptionsOf(r, client) + {address}
            && (forall a :: a != address ==> SubscribersOf(t, a) == SubscribersOf(r, a))
            && (forall c :: c != client ==> SubscriptionsOf(t, c) == SubscriptionsOf(r, c))
  {
    var t := r + {(client, address)};
    InSubscribers(t, client, address);
  }

  lemma DropPair(r: Relation, client: Client, address: Address)
    ensures var t := r - {(client, address)};
            && SubscribersOf(t, address) == SubscribersOf(r, address) - {client}
            && SubscriptionsOf(t, client) == SubscriptionsOf(r, client) - {address}
            && (forall a :: a != address ==> SubscribersOf(t, a) == SubscribersOf(r, a))
            && (forall c :: c != client ==> SubscriptionsOf(t, c) == SubscriptionsOf(r, c))
  {
    var t := r - {(client, address)};
    forall a, c
      ensures c in SubscribersOf(t, a) <==> c in SubscribersOf(r, a) && (c, a) != (client, address)
      ensures a in SubscriptionsOf(t, c) <==> a in SubscriptionsOf(r, c) && (c, a) != (client, address)
    {
      InSubscribers(r, c, a);
      InSubscribers(t, c, a);
    }
  }

  lemma DropDomains(r: Relation, client: Client, address: Address)
    ensures var t := r - {(client, address)};
            && Addresses(t) == Addresses(r) - (if SubscribersOf(r, address) <= {client} then {address} else {})
            && Clients(t) == Clients(r) - (if SubscriptionsOf(r, client) <= {address} then {client} else {})
  {
    hide Addresses, Clients, SubscribersOf, SubscriptionsOf;
    var t := r - {(client, address)};
    DropPair(r, client, address);
    forall a
      ensures a in Addresses(t) <==>
              a in Addresses(r) - (if SubscribersOf(r, address) <= {client} then {address} else {})
    {
      InDomains(r, client, a);
      InDomains(t, client, a);
    }
    forall c
      ensures c in Clients(t) <==>
              c in Clients(r) - (if SubscriptionsOf(r, client) <= {address} then {client} else {})
    {
      InDomains(r, c, address);
      InDomains(t, c, address);
    }
  }

  lemma IndexAt(r: Relation, client: Client, address: Address)
    ensures var x := IndexOf(r);
            && x.addressSubscriptions.Keys == x.trackedAddresses
            && (address in x.addressSubscriptions ==>
                  x.addressSubscriptions[address] == SubscribersOf(r, address) != {})
            && (address !in x.addressSubscriptions ==> SubscribersOf(r, address) == {})
            && (client in x.clientSubscriptions ==>
                  x.clientSubscriptions[client] == SubscriptionsOf(r, client) != {})
            && (client !in x.clientSubscriptions ==> SubscriptionsOf(r, client) == {})
  {
    hide Addresses, Clients, SubscribersOf, SubscriptionsOf;
    InDomains(r, client, address);
  }

  lemma IndexAfterAdd(r: Relation, client: Client, address: Address)
    ensures var x, y := IndexOf(r), IndexOf(r + {(client, address)});
            && y.addressSubscriptions == x.addressSubscriptions[address := SubscribersOf(r, address) + {client}]
            && y.clientSubscriptions == x.clientSubscriptions[client := SubscriptionsOf(r, client) + {address}]
            && y.trackedAddresses == x.trackedAddresses + {address}
  {
    hide Addresses, Clients, SubscribersOf, SubscriptionsOf;
    AddPair(r, client, address);
    var x, y := IndexOf(r), IndexOf(r + {(client, address)});
    assert y.addressSubscriptions.Keys == x.addressSubscriptions.Keys + {address};
    assert y.clientSubscriptions.Keys == x.clientSubscriptions.Keys + {client};
  }

  lemma EntryRemoved<K, V>(m: map<K, set<V>>, k: K, s: set<V>)
    ensures m[k := s] - {k} == m - {k} && (k !in m ==> m - {k} == m)
  {
  }

  /** The map without an entry that has become empty. */
  function WithSet<K, V>(m: map<K, set<V>>, k: K, s: set<V>): map<K, set<V>> {
    if s == {} then m - {k} else m[k := s]
  }

  lemma IndexAfterDrop(r: Relation, client: Client, address: Address)
    ensures var x, y := IndexOf(r), IndexOf(r - {(client, address)});
            var subscribers, subscriptions := SubscribersOf(r, address) - {client}, SubscriptionsOf(r, client) - {address};
            && y.addressSubscriptions == WithSet(x.addressSubscriptions, address, subscribers)
            && y.clientSubscriptions == WithSet(x.clientSubscriptions, client, subscriptions)
            && y.trackedAddresses == x.trackedAddresses - (if subscribers == {} then {address} else {})
  {
    hide Addresses, Clients, SubscribersOf, SubscriptionsOf;
    DropPair(r, client, address);
    DropDomains(r, client, address);
    InDomains(r, client, address);
    var x, y := IndexOf(r), IndexOf(r - {(client, address)});
    assert y.addressSubscriptions.Keys
        == WithSet(x.addressSubscriptions, address, SubscribersOf(r, address) - {client}).Keys;
    assert y.clientSubscriptions.Keys
        == WithSet(x.clientSubscriptions, client, SubscriptionsOf(r, client) - {address}).Keys;
  }

  //
  // The events
  //

  /** The addresses that a listener tracks who starts from these and follows the events. */
  function ReplayFrom(tracked: set<Address>, events: seq<Event>): set<Address>
    decreases |events|
  {
    if events == [] then tracked
    else
      var before := ReplayFrom(tracked, events[..|events| - 1]);
      match events[|events| - 1]
      case AddressAdded(address) => before + {address}
      case AddressRemoved(address) => before - {address}
      case TradeNotification(_, _) => before
  }

  predicate About(e: Event, address: Address) {
    !e.TradeNotification? && e.address == address
  }

  /** The events about one address, in order. */
  function EventsOf(events: seq<Event>, address: Address): seq<Event>
    decreases |events|
  {
    if events == [] then []
    else
      var last := events[|events| - 1];
      EventsOf(events[..|events| - 1], address) + (if About(last, address) then [last] else [])
  }

  /** Strictly alternating, beginning with an addition. */
  predicate Alternates(events: seq<Event>) {
    forall i :: 0 <= i < |events| ==> (events[i].AddressAdded? <==> i % 2 == 0)
  }

  /** The stream tells the truth: replaying it gives the tracked addresses, without a redundant event. */
  ghost predicate Faithful(events: seq<Event>, tracked: set<Address>) {
    && ReplayFrom({}, events) == tracked
    && forall address ::
         && Alternates(EventsOf(events, address))
         && (address in tracked <==> |EventsOf(events, address)| % 2 == 1)
  }

  lemma AppendedEvent(events: seq<Event>, e: Event)
    ensures (events + [e])[..|events|] == events && (events + [e])[|events|] == e
  {
  }

  lemma FaithfulAdd(events: seq<Event>, tracked: set<Address>, address: Address)
    requires Faithful(events, tracked) && address !in tracked
    ensures Faithful(events + [AddressAdded(address)], tracked + {address})
  {
    AppendedEvent(events, AddressAdded(address));
    forall a
      ensures var es := EventsOf(events + [AddressAdded(address)], a);
              Alternates(es) && (a in tracked + {address} <==> |es| % 2 == 1)
    {
      assert Alternates(EventsOf(events, a));
    }
  }

  lemma FaithfulRemove(events: seq<Event>, tracked: set<Address>, address: Address)
    requires Faithful(events, tracked) && address in tracked
    ensures Faithful(events + [AddressRemoved(address)], tracked - {address})
  {
    AppendedEvent(events, AddressRemoved(address));
    forall a
      ensures var es := EventsOf(events + [AddressRemoved(address)], a);
              Alternates(es) && (a in tracked - {address} <==> |es| % 2 == 1)
    {
      assert Alternates(EventsOf(events, a));
    }
  }

  lemma FaithfulNotify(events: seq<Event>, tracked: set<Address>, client: Client, trade: Trade)
    requires Faithful(events, tracked)
    ensures Faithful(events + [TradeNotification(client, trade)], tracked)
  {
    AppendedEvent(events, TradeNotification(client, trade));
    forall a
      ensures EventsOf(events + [TradeNotification(client, trade)], a) == EventsOf(events, a)
    {
    }
  }

  /** These events occur exactly once each, and no others. */
  ghost predicate EachOnce(events: seq<Event>, of: set<Event>) {
    |events| == |of| && forall e :: e in events <==> e in of
  }

  /** A listener that starts with addresses of its own loses one of them once it is removed here. */
  lemma {:induction false} ListenerTracks(own: set<Address>, events: seq<Event>, address: Address)
    ensures address in ReplayFrom(own, events)
       <==> address in ReplayFrom({}, events) || (address in own && AddressRemoved(address) !in events)
    decreases |events|
  {
    if events != [] {
      var last := events[|events| - 1];
      assert events == events[..|events| - 1] + [last];
      ListenerTracks(own, events[..|events| - 1], address);
    }
  }

  //
  // Many pairs
  //

  lemma DropPairs(r: Relation, client: Client, gone: set<Address>, address: Address)
    ensures var t := r - Pairs(client, gone);
            && SubscriptionsOf(t, client) == SubscriptionsOf(r, client) - gone
            && (address !in gone ==> SubscribersOf(t, address) == SubscribersOf(r, address))
            && t - {(client, address)} == r - Pairs(client, gone + {address})
  {
    var t := r - Pairs(client, gone);
    forall a ensures a in SubscriptionsOf(t, client) <==> a in SubscriptionsOf(r, client) - gone {
      InSubscribers(r, client, a);
      InSubscribers(t, client, a);
    }
    forall c ensures address !in gone ==> (c in SubscribersOf(t, address) <==> c in SubscribersOf(r, address)) {
      InSubscribers(r, c, address);
      InSubscribers(t, c, address);
    }
  }

  /** The client's removal is this far: these of its subscriptions are gone, and no other pair. */
  ghost predicate Removing(before: Relation, r: Relation, client: Client, gone: set<Address>) {
    && r == before - Pairs(client, gone) && gone <= SubscriptionsOf(before, client)
    && SubscriptionsOf(r, client) == SubscriptionsOf(before, client) - gone
  }

  lemma RemoveNext(before: Relation, r: Relation, client: Client, gone: set<Address>, address: Address)
    requires Removing(before, r, client, gone) && address in SubscriptionsOf(r, client)
    ensures address !in gone && SubscribersOf(r, address) == SubscribersOf(before, address)
    ensures Removing(before, r - {(client, address)}, client, gone + {address})
    ensures |SubscriptionsOf(r - {(client, address)}, client)| < |SubscriptionsOf(r, client)|
  {
    hide Pairs, SubscribersOf, SubscriptionsOf;
    DropPairs(before, client, gone, address);
    DropPairs(before, client, gone + {address}, address);
    assert SubscriptionsOf(r, client) - {address} == SubscriptionsOf(r - {(client, address)}, client);
  }

  function WithoutClient(r: Relation, client: Client): Relation {
    set p | p in r && p.0 != client
  }

  lemma DropAllPairs(r: Relation, client: Client)
    ensures r - Pairs(client, SubscriptionsOf(r, client)) == WithoutClient(r, client)
  {
    forall p | p in r
      ensures p in Pairs(client, SubscriptionsOf(r, client)) <==> p.0 == client
    {
      InSubscribers(r, client, p.1);
    }
  }

  /** What removing these subscriptions of the client announces: the addresses that nobody else follows. */
  ghost function RemovalsOf(r: Relation, client: Client, gone: set<Address>): set<Event> {
    set a | a in gone && SubscribersOf(r, a) == {client} :: AddressRemoved(a)
  }

  ghost function NotificationsOf(subscribers: set<Client>, trade: Trade): set<Event> {
    set c | c in subscribers :: TradeNotification(c, trade)
  }

  lemma EachOnceMore(events: seq<Event>, of: set<Event>, e: Event)
    requires EachOnce(events, of) && e !in of
    ensures EachOnce(events + [e], of + {e})
  {
  }

  lemma NotifiedMore(events: seq<Event>, notified: set<Client>, trade: Trade, client: Client)
    requires EachOnce(events, NotificationsOf(notified, trade)) && client !in notified
    ensures EachOnce(events + [TradeNotification(client, trade)], NotificationsOf(notified + {client}, trade))
  {
    hide EachOnce;
    EachOnceMore(events, NotificationsOf(notified, trade), TradeNotification(client, trade));
    assert NotificationsOf(notified + {client}, trade)
        == NotificationsOf(notified, trade) + {TradeNotification(client, trade)};
  }

  lemma RemovedMore(events: seq<Event>, r: Relation, client: Client, gone: set<Address>, address: Address)
    requires EachOnce(events, RemovalsOf(r, client, gone)) && address !in gone
    ensures var more := if SubscribersOf(r, address) == {client} then [AddressRemoved(address)] else [];
            EachOnce(events + more, RemovalsOf(r, client, gone + {address}))
  {
    hide EachOnce, SubscribersOf;
    if SubscribersOf(r, address) == {client} {
      EachOnceMore(events, RemovalsOf(r, client, gone), AddressRemoved(address));
      assert RemovalsOf(r, client, gone + {address}) == RemovalsOf(r, client, gone) + {AddressRemoved(address)};
    } else {
      assert RemovalsOf(r, client, gone + {address}) == RemovalsOf(r, client, gone);
      assert events + [] == events;
    }
  }

  //
  // Counting
  //

  function PairsOf(r: Relation, clients: set<Client>): Relation {
    set p | p in r && p.0 in clients
  }

  lemma {:induction false} PairsCount(client: Client, addresses: set<Address>)
    ensures |Pairs(client, addresses)| == |addresses|
    decreases |addresses|
  {
    if addresses == {} {
      assert Pairs(client, addresses) == {};
    } else {
      var some :| some in addresses;
      PairsCount(client, addresses - {some});
      assert Pairs(client, addresses) == Pairs(client, addresses - {some}) + {(client, some)};
    }
  }

  lemma PairsOfMore(r: Relation, clients: set<Client>, client: Client)
    requires client !in clients
    ensures |PairsOf(r, clients + {client})| == |PairsOf(r, clients)| + |SubscriptionsOf(r, client)|
  {
    var added := Pairs(client, SubscriptionsOf(r, client));
    PairsCount(client, SubscriptionsOf(r, client));
    forall p
      ensures p in PairsOf(r, clients + {client}) <==> p in PairsOf(r, clients) + added
    {
      InSubscribers(r, client, p.1);
    }
    assert PairsOf(r, clients + {client}) == PairsOf(r, clients) + added;
    assert PairsOf(r, clients) !! added;
  }

  /** The subscriber counts of these addresses, added up. */
  ghost function SubscriberTotal(r: Relation, addresses: set<Address>): nat
    decreases |addresses|
  {
    if addresses == {} then 0
    else
      var some :| some in addresses;
      |SubscribersOf(r, some)| + SubscriberTotal(r, addresses - {some})
  }

  lemma {:induction false} FollowersCount(address: Address, clients: set<Client>)
    ensures |set c | c in clients :: (c, address)| == |clients|
    decreases |clients|
  {
    if clients == {} {
      assert (set c | c in clients :: (c, address)) == {};
    } else {
      var some :| some in clients;
      FollowersCount(address, clients - {some});
      assert (set c | c in clients :: (c, address)) == (set c | c in clients - {some} :: (c, address)) + {(some, address)};
    }
  }

  lemma {:induction false} SubscriberTotalCounts(r: Relation, addresses: set<Address>)
    ensures SubscriberTotal(r, addresses) == |set p | p in r && p.1 in addresses|
    decreases |addresses|
  {
    if addresses == {} {
      assert (set p | p in r && p.1 in addresses) == {};
    } else {
      var some :| some in addresses
        && SubscriberTotal(r, addresses) == |SubscribersOf(r, some)| + SubscriberTotal(r, addresses - {some});
      SubscriberTotalCounts(r, addresses - {some});
      FollowersCount(some, SubscribersOf(r, some));
      var rest, added := set p | p in r && p.1 in addresses - {some}, set c | c in SubscribersOf(r, some) :: (c, some);
      forall p
        ensures p in (set p | p in r && p.1 in addresses) <==> p in rest + added
      {
        InSubscribers(r, p.0, some);
      }
      assert (set p | p in r && p.1 in addresses) == rest + added && rest !! added;
    }
  }

  /** Counted by client or by address, the subscriptions are the pairs of the relation. */
  lemma SubscriptionsAreCounted(r: Relation)
    ensures SubscriberTotal(r, Addresses(r)) == |r| && PairsOf(r, Clients(r)) == r
  {
    SubscriberTotalCounts(r, Addresses(r));
    assert (set p | p in r && p.1 in Addresses(r)) == r;
  }

  //
  // The object
  //

  class SubscriptionManager {
    var addressSubscriptions: map<Address, set<Client>>
    var clientSubscriptions: map<Client, set<Address>>
    var trackedAddresses: set<Address>
    var events: seq<Event>
    ghost var relation: Relation

    ghost predicate Valid()
      reads this
    {
      && Index(addressSubscriptions, clientSubscriptions, trackedAddresses) == IndexOf(relation)
      && Faithful(events, trackedAddresses)
    }

    constructor ()
      ensures Valid() && relation == {} && events == []
    {
      addressSubscriptions, clientSubscriptions, trackedAddresses := map[], map[], {};
      events, relation := [], {};
    }

    method Subscribe(client: Client, address: Address) returns (done: bool)
      requires Valid()
      modifies this
      ensures Valid() && done && relation == old(relation) + {(client, address)}
      ensures events == old(events) + (if address in old(trackedAddresses) then [] else [AddressAdded(address)])
    {
      hide Faithful, SubscribersOf, SubscriptionsOf, Addresses, Clients, IndexOf;
      IndexAt(relation, client, address);
      IndexAfterAdd(relation, client, address);
      AddToSets(client, address);
      var isNewAddress := address !in trackedAddresses;
      ghost var before := trackedAddresses;
      trackedAddresses := trackedAddresses + {address};
      if isNewAddress {
        FaithfulAdd(events, before, address);
        events := events + [AddressAdded(address)];
      } else {
        assert trackedAddresses == before;
      }
      relation := relation + {(client, address)};
      done := true;
    }

    /** The two maps: a set is created when there is none. */
    method AddToSets(client: Client, address: Address)
      modifies this`addressSubscriptions, this`clientSubscriptions
      ensures addressSubscriptions == old(addressSubscriptions)[address :=
                (if address in old(addressSubscriptions) then old(addressSubscriptions)[address] else {}) + {client}]
      ensures clientSubscriptions == old(clientSubscriptions)[client :=
                (if client in old(clientSubscriptions) then old(clientSubscriptions)[client] else {}) + {address}]
    {
      if address !in addressSubscriptions {
        addressSubscriptions := addressSubscriptions[address := {}];
      }
      addressSubscriptions := addressSubscriptions[address := addressSubscriptions[address] + {client}];
      if client !in clientSubscriptions {
        clientSubscriptions := clientSubscriptions[client := {}];
      }
      clientSubscriptions := clientSubscriptions[client := clientSubscriptions[client] + {address}];
    }

    method Unsubscribe(client: Client, address: Address) returns (done: bool)
      requires Valid()
      modifies this
      ensures Valid() && done && relation == old(relation) - {(client, address)}
      ensures events == old(events)
        + (if SubscribersOf(old(relation), address) == {client} then [AddressRemoved(address)] else [])
    {
      hide Faithful, SubscribersOf, SubscriptionsOf, Addresses, Clients, IndexOf;
      IndexAt(relation, client, address);
      IndexAfterDrop(relation, client, address);
      RemoveSubscriber(client, address);
      RemoveSubscription(client, address);
      relation := relation - {(client, address)};
      done := true;
    }

    method RemoveSubscriber(client: Client, address: Address)
      requires addressSubscriptions.Keys == trackedAddresses && Faithful(events, trackedAddresses)
      modifies this`addressSubscriptions, this`trackedAddresses, this`events
      ensures addressSubscriptions.Keys == trackedAddresses && Faithful(events, trackedAddresses)
      ensures address !in old(addressSubscriptions) ==>
        addressSubscriptions == old(addressSubscriptions) && events == old(events)
      ensures address in old(addressSubscriptions) ==>
        var rest := old(addressSubscriptions)[address] - {client};
        && addressSubscriptions == WithSet(old(addressSubscriptions), address, rest)
        && events == old(events) + (if rest == {} then [AddressRemoved(address)] else [])
    {
      hide Faithful;
      if address in addressSubscriptions {
        var addressClients := addressSubscriptions[address] - {client};
        EntryRemoved(addressSubscriptions, address, addressClients);
        addressSubscriptions := addressSubscriptions[address := addressClients];
        if |addressClients| == 0 {
          FaithfulRemove(events, trackedAddresses, address);
          addressSubscriptions := addressSubscriptions - {address};
          trackedAddresses := trackedAddresses - {address};
          events := events + [AddressRemoved(address)];
        }
      }
    }

    method RemoveSubscription(client: Client, address: Address)
      modifies this`clientSubscriptions
      ensures client !in old(clientSubscriptions) ==> clientSubscriptions == old(clientSubscriptions)
      ensures client in old(clientSubscriptions) ==>
        clientSubscriptions
          == WithSet(old(clientSubscriptions), client, old(clientSubscriptions)[client] - {address})
    {
      if client in clientSubscriptions {
        var clientAddresses := clientSubscriptions[client] - {address};
        EntryRemoved(clientSubscriptions, client, clientAddresses);
        clientSubscriptions := clientSubscriptions[client := clientAddresses];
        if |clientAddresses| == 0 {
          clientSubscriptions := clientSubscriptions - {client};
        }
      }
    }

    /** Called on disconnect. The loop runs over the client's live set, from which each round removes one address. */
    method RemoveClient(client: Client)
      requires Valid()
      modifies this
      ensures Valid() && relation == WithoutClient(old(relation), client)
      ensures old(events) <= events
      ensures EachOnce(events[|old(events)|..],
                       RemovalsOf(old(relation), client, SubscriptionsOf(old(relation), client)))
    {
      hide Faithful, SubscribersOf, SubscriptionsOf, Addresses, Clients, EachOnce, RemovalsOf, IndexOf, Removing;
      ghost var gone: set<Address> := {};
      NothingRemoved(relation, client);
      IndexAt(relation, client, "");
      assert events[|events|..] == [];
      while client in clientSubscriptions
        invariant Valid() && Removing(old(relation), relation, client, gone)
        invariant client in clientSubscriptions ==>
                    clientSubscriptions[client] == SubscriptionsOf(relation, client) != {}
        invariant client !in clientSubscriptions ==> SubscriptionsOf(relation, client) == {}
        invariant old(events) <= events
        invariant EachOnce(events[|old(events)|..], RemovalsOf(old(relation), client, gone))
        decreases |SubscriptionsOf(relation, client)|
      {
        var address :| address in clientSubscriptions[client];
        RemoveNext(old(relation), relation, client, gone, address);
        RemovedMore(events[|old(events)|..], old(relation), client, gone, address);
        label before:
        var _ := Unsubscribe(client, address);
        assert events[|old(events)|..] == old@before(events)[|old(events)|..] + events[|old@before(events)|..];
        gone := gone + {address};
        IndexAt(relation, client, address);
      }
      AllRemoved(old(relation), relation, client, gone);
      clientSubscriptions := clientSubscriptions - {client};
    }

    /** Every subscriber of the trader's address is notified. */
    method HandleTrade(trade: Trade)
      requires Valid()
      modifies this`events
      ensures Valid() && old(events) <= events
      ensures EachOnce(events[|old(events)|..],
                       NotificationsOf(SubscribersOf(relation, trade.userAddress), trade))
    {
      hide Faithful, SubscribersOf, Addresses, Clients, EachOnce, IndexOf;
      IndexAt(relation, "", trade.userAddress);
      var subscribers :=
        if trade.userAddress in addressSubscriptions then addressSubscriptions[trade.userAddress] else {};
      assert subscribers == SubscribersOf(relation, trade.userAddress);
      var remaining := subscribers;
      assert events[|events|..] == [];
      NothingNotified(trade);
      assert subscribers - remaining == {};
      while remaining != {}
        invariant Valid() && old(events) <= events && remaining <= subscribers
        invariant EachOnce(events[|old(events)|..], NotificationsOf(subscribers - remaining, trade))
        decreases |remaining|
      {
        var client :| client in remaining;
        FaithfulNotify(events, trackedAddresses, client, trade);
        NotifiedMore(events[|old(events)|..], subscribers - remaining, trade, client);
        assert subscribers - (remaining - {client}) == subscribers - remaining + {client};
        assert (events + [TradeNotification(client, trade)])[|old(events)|..]
            == events[|old(events)|..] + [TradeNotification(client, trade)];
        events := events + [TradeNotification(client, trade)];
        remaining := remaining - {client};
      }
      assert subscribers - remaining == subscribers;
    }

    method GetStats() returns (totalClients: nat, totalAddresses: nat, totalSubscriptions: nat)
      requires Valid()
      ensures totalClients == |Clients(relation)| && totalAddresses == |Addresses(relation)|
      ensures totalSubscriptions == |relation|
    {
      hide Faithful, SubscribersOf, SubscriptionsOf, Addresses, Clients;
      totalSubscriptions := 0;
      var remaining := clientSubscriptions.Keys;
      SubscriptionsAreCounted(relation);
      assert Clients(relation) - remaining == {};
      assert PairsOf(relation, {}) == {};
      while remaining != {}
        invariant remaining <= Clients(relation)
        invariant totalSubscriptions == |PairsOf(relation, Clients(relation) - remaining)|
        decreases |remaining|
      {
        var client :| client in remaining;
        PairsOfMore(relation, Clients(relation) - remaining, client);
        assert Clients(relation) - (remaining - {client}) == Clients(relation) - remaining + {client};
        totalSubscriptions := totalSubscriptions + |clientSubscriptions[client]|;
        remaining := remaining - {client};
      }
      assert Clients(relation) - remaining == Clients(relation);
      totalClients, totalAddresses := |clientSubscriptions|, |trackedAddresses|;
      assert clientSubscriptions.Keys == Clients(relation);
    }
  }

  lemma NothingRemoved(r: Relation, client: Client)
    ensures EachOnce([], RemovalsOf(r, client, {})) && Removing(r, r, client, {})
  {
    hide SubscriptionsOf;
    assert r - Pairs(client, {}) == r;
  }

  lemma AllRemoved(before: Relation, r: Relation, client: Client, gone: set<Address>)
    requires Removing(before, r, client, gone) && SubscriptionsOf(r, client) == {}
    ensures r == WithoutClient(before, client) && gone == SubscriptionsOf(before, client)
  {
    hide SubscriptionsOf;
    DropAllPairs(before, client);
    forall a | a in SubscriptionsOf(before, client)
      ensures a in gone
    {
      assert a !in SubscriptionsOf(before, client) - gone;
    }
    assert gone == SubscriptionsOf(before, client);
  }

  lemma NothingNotified(trade: Trade)
    ensures EachOnce([], NotificationsOf({}, trade))
  {
  }
}
