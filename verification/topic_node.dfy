/** A `TopicNode`: per topic name, one readable/writeable server pair over
    one fresh storage, a reference count of how many times the topic was
    added, and the moderator that announces it.

    The servers are opaque handles naming the storage they share, their
    role, and whether they were ever started; creating a storage is drawing
    the next unused storage number. The interface address lookup is a
    parameter. */
module TopicNode {
  import opened Common
  import Address
  import Moderator
  import TopicProcessor

  datatype ServerRole = ReadableServer | WriteableServer

  /** A topic server: the storage it was built over, its role, and whether
      `start` has given it the `runner` that `stop` cleans up. */
  datatype Handle = Handle(storage: nat, role: ServerRole, hasRunner: bool)

  datatype Pair = Pair(readable: Handle, writeable: Handle)

  /** The pair `add_topic` builds over storage `s`: neither server started. */
  function NewPair(s: nat): Pair
  {
    Pair(Handle(s, ReadableServer, false), Handle(s, WriteableServer, false))
  }

  /** Both servers of the pair have been started, so both can be stopped. */
  predicate Started(p: Pair)
  {
    p.readable.hasRunner && p.writeable.hasRunner
  }

  function StartPair(p: Pair): Pair
  {
    Pair(p.readable.(hasRunner := true), p.writeable.(hasRunner := true))
  }

  datatype Node = Node(
    moderator: Moderator.Moderator,
    topics: map<string, Pair>,
    counter: map<string, int>,
    nextStorage: nat)

  function NewNode(m: Moderator.Moderator): (n: Node)
    ensures Valid(n) && n.topics == map[] && n.moderator == m
  {
    Node(m, map[], map[], 0)
  }

  /** `_topic_counter.get(name, 0)`. */
  function Count(n: Node, name: string): int
  {
    if name in n.counter then n.counter[name] else 0
  }

  /** The node's own invariant: a name has a server pair exactly when its
      count is at least one, counts are never negative, and each pair is
      built over its own storage, drawn earlier. */
  ghost predicate Valid(n: Node)
  {
    && (forall k :: k in n.topics <==> Count(n, k) >= 1)
    && (forall k :: k in n.counter ==> n.counter[k] >= 0)
    && (forall k :: k in n.topics ==>
          && n.topics[k].readable.role == ReadableServer
          && n.topics[k].writeable.role == WriteableServer
          && n.topics[k].writeable.storage == n.topics[k].readable.storage
          && n.topics[k].readable.storage < n.nextStorage)
    && (forall k, k' :: k in n.topics && k' in n.topics && k != k' ==>
          n.topics[k].readable.storage != n.topics[k'].readable.storage)
  }

  /** `_get_topics(name)`: the given name when it is truthy, otherwise every
      topic of the node. */
  function GetTopics(n: Node, name: Option<string>): (r: set<string>)
    ensures TruthyString(name) ==> r == {name.value}
    ensures !TruthyString(name) ==> forall k :: k in r <==> k in n.topics
  {
    if TruthyString(name) then {name.value} else n.topics.Keys
  }

  /** The URL fields `publish_topic` reads from a server address. */
  function UrlOf(address: string): (u: Moderator.Url)
  {
    match Address.ParseHttpAddress(address)
    case Some((h, p)) => Moderator.Url(Some(h), Some(p))
    case None => Moderator.Url(None, None)
  }

  function RoleProps(role: string): map<string, Moderator.PropValue>
  {
    map["role" := Moderator.StrProp(role)]
  }

  /** One `publish_topic` call of `add_topic`: the server's reported
      address, parsed, with the given role. The host is the interface's
      IPv4 address, which `gethostbyname` returns unchanged. */
  function PublishServer(m: Moderator.Moderator, name: string, server: TopicProcessor.Server, ip: string, role: string)
    : (r: Result<Moderator.Moderator, Exception>)
    ensures TopicProcessor.GetAddress(server).Err? ==> r == Err(TopicProcessor.GetAddress(server).error)
    ensures r.Ok? ==> Moderator.IsPublished(r.value, name)
    ensures Moderator.IsPublished(m, name) && TopicProcessor.GetAddress(server).Ok? ==> r == Ok(m)
  {
    match TopicProcessor.GetAddress(server)
    case Err(e) => Err(e)
    case Ok(address) =>
      match Moderator.PublishTopic(m, name, UrlOf(address), ip, Some(RoleProps(role)))
      case Err(e) => Err(e)
      case Ok((m', _)) => Ok(m')
  }

  /** `add_topic(name, interface)`. A known name only counts one more add
      and returns `False`. A new one gets a fresh storage and a server pair
      at `http://<ip>:0`; the topic is published with role `producer` at
      the readable server's address, then with role `consumer` at the
      writeable's; the pair is stored with count 1 and the call returns
      `True`. `ip` is what the interface lookup answered. */
  function AddTopic(n: Node, name: string, ip: string): (r: Result<(Node, bool), Exception>)
    ensures name in n.topics && name in n.counter ==>
      r == Ok((n.(counter := n.counter[name := n.counter[name] + 1]), false))
    ensures name in n.topics && name !in n.counter ==> r == Err(KeyError)
    ensures name !in n.topics && r.Ok? ==>
      && r.value.1
      && r.value.0.topics == n.topics[name := NewPair(n.nextStorage)]
      && r.value.0.counter == n.counter[name := 1]
      && r.value.0.nextStorage == n.nextStorage + 1
  {
    if name in n.topics then
      if name in n.counter then Ok((n.(counter := n.counter[name := n.counter[name] + 1]), false))
      else Err(KeyError)
    else
      var address := Address.HttpAddress(ip, 0);
      var s := n.nextStorage;
      var readable := TopicProcessor.NewServer(address);
      var writeable := TopicProcessor.NewServer(address);
      match PublishServer(n.moderator, name, readable, ip, "producer")
      case Err(e) => Err(e)
      case Ok(m1) =>
        match PublishServer(m1, name, writeable, ip, "consumer")
        case Err(e) => Err(e)
        case Ok(m2) =>
          Ok((Node(m2, n.topics[name := NewPair(s)], n.counter[name := 1], s + 1), true))
  }

  /** `get_readable(name)`: the pair's first server, or `NotTopicError`. */
  function GetReadable(n: Node, name: string): (r: Result<Handle, Exception>)
    ensures r.Err? <==> name !in n.topics
    ensures r.Err? ==> r.error == NotTopicError
    ensures r.Ok? ==> r.value == n.topics[name].readable
  {
    if name in n.topics then Ok(n.topics[name].readable) else Err(NotTopicError)
  }

  /** `get_writeable(name)`: the pair's second server, or `NotTopicError`. */
  function GetWriteable(n: Node, name: string): (r: Result<Handle, Exception>)
    ensures r.Err? <==> name !in n.topics
    ensures r.Err? ==> r.error == NotTopicError
    ensures r.Ok? ==> r.value == n.topics[name].writeable
  {
    if name in n.topics then Ok(n.topics[name].writeable) else Err(NotTopicError)
  }

  /** `start(name)`: the readable, then the writeable server of every
      selected topic is started. A truthy name the node does not have
      raises `KeyError` before anything starts. Binding the sockets is not
      modelled: each start succeeds. */
  function Start(n: Node, name: Option<string>): (r: Result<Node, Exception>)
    ensures r.Err? <==> TruthyString(name) && name.value !in n.topics
    ensures r.Err? ==> r.error == KeyError
    ensures r.Ok? ==>
      && r.value.moderator == n.moderator && r.value.counter == n.counter
      && r.value.nextStorage == n.nextStorage && r.value.topics.Keys == n.topics.Keys
    ensures r.Ok? ==> forall k :: k in n.topics && k in GetTopics(n, name) ==>
      Started(r.value.topics[k]) && r.value.topics[k] == StartPair(n.topics[k])
    ensures r.Ok? ==> forall k :: k in n.topics && k !in GetTopics(n, name) ==>
      r.value.topics[k] == n.topics[k]
  {
    if TruthyString(name) && name.value !in n.topics then Err(KeyError)
    else
      var selected := GetTopics(n, name);
      Ok(n.(topics := map k | k in n.topics :: if k in selected then StartPair(n.topics[k]) else n.topics[k]))
  }

  /** `stop(name)`: the readable, then the writeable server of every
      selected topic is stopped. A truthy name the node does not have
      raises `KeyError`; a selected server that was never started raises
      `AttributeError`. A stop only resets fields the node does not keep,
      so the node is the same whether or not the loop got through. */
  function Stop(n: Node, name: Option<string>): (r: Result<(), Exception>)
    ensures r.Ok? <==> forall k :: k in GetTopics(n, name) ==> k in n.topics && Started(n.topics[k])
    ensures TruthyString(name) && name.value !in n.topics ==> r == Err(KeyError)
    ensures r.Err? && !(TruthyString(name) && name.value !in n.topics) ==> r == Err(AttributeError)
  {
    if TruthyString(name) && name.value !in n.topics then Err(KeyError)
    else if exists k :: k in GetTopics(n, name) && k in n.topics && !Started(n.topics[k]) then Err(AttributeError)
    else Ok(())
  }

  /** `del_topic(name)`: the node after the call, and what the call
      returned or raised. A count above one is decremented, returning
      `True`. A count of one unpublishes the topic and then stops it
      (`stop(name)`, which for the name `""` selects every topic); an
      exception there propagates with the topic already unpublished and its
      pair and count kept. Otherwise the pair is dropped, the count set to
      0, and `True` returned. A count below one returns `False`. */
  function DelTopic(n: Node, name: string): (r: (Node, Result<bool, Exception>))
    ensures Count(n, name) > 1 ==> r == (n.(counter := n.counter[name := Count(n, name) - 1]), Ok(true))
    ensures Count(n, name) < 1 ==> r == (n, Ok(false))
    ensures Count(n, name) == 1 ==> r.0.moderator == Moderator.UnpublishTopic(n.moderator, name).0
    ensures Count(n, name) == 1 && Stop(n, Some(name)).Ok? ==>
      r == (Node(r.0.moderator, n.topics - {name}, n.counter[name := 0], n.nextStorage), Ok(true))
    ensures Count(n, name) == 1 && Stop(n, Some(name)).Err? ==>
      r == (n.(moderator := r.0.moderator), Err(Stop(n, Some(name)).error))
  {
    var c := Count(n, name);
    if c > 1 then (n.(counter := n.counter[name := c - 1]), Ok(true))
    else if c == 1 then
      var n1 := n.(moderator := Moderator.UnpublishTopic(n.moderator, name).0);
      match Stop(n1, Some(name))
      case Err(e) => (n1, Err(e))
      case Ok(_) => (Node(n1.moderator, n1.topics - {name}, n1.counter[name := 0], n1.nextStorage), Ok(true))
    else (n, Ok(false))
  }

  // ---------------------------------------------------------------------
  // Properties
  // ---------------------------------------------------------------------

  /** The record `add_topic` publishes for a server at `http://<ip>:0`:
      type and instance name of the topic, the interface address, port 0,
      the role and the `etherware` marker. */
  function RecordFor(name: string, ip: string, role: string): Moderator.ServiceInfo
  {
    Moderator.ServiceInfo(Moderator.SERVICE_TYPE, Moderator.InstanceName(name), [ip], 0,
                          RoleProps(role)["etherware" := Moderator.BoolProp(true)])
  }

  /** Publishing a server that has not been started always succeeds: its
      address is the configured `http://<ip>:0`, which has a port. It
      changes nothing for a name already published, and otherwise stores
      and registers the server's record. */
  lemma PublishFreshServer(m: Moderator.Moderator, name: string, ip: string, role: string)
    ensures var r := PublishServer(m, name, TopicProcessor.NewServer(Address.HttpAddress(ip, 0)), ip, role);
      && r.Ok? && Moderator.IsPublished(r.value, name)
      && (Moderator.IsPublished(m, name) ==> r.value == m)
      && (!Moderator.IsPublished(m, name) && !Address.Bracketed(ip) ==>
            && r.value.info == m.info[name := RecordFor(name, ip, role)]
            && r.value.names == m.names + [name]
            && r.value.registry == m.registry + {RecordFor(name, ip, role)})
  {
    Address.HttpAddressParses(ip, 0);
    if !Address.Bracketed(ip) {
      Address.HttpAddressRoundTrip(ip, 0);
    }
    var props := RoleProps(role);
    assert "etherware" !in props;
  }

  /** `add_topic` never raises on a valid node. For a new name that is not
      yet published, only the first of its two publishes has an effect:
      the moderator keeps the producer record at the readable server's
      pre-bind address (port 0), and the consumer record is dropped. */
  lemma AddTopicPublishesProducer(n: Node, name: string, ip: string)
    requires Valid(n)
    ensures AddTopic(n, name, ip).Ok?
    ensures name !in n.topics && !Moderator.IsPublished(n.moderator, name) && !Address.Bracketed(ip) ==>
      var m' := AddTopic(n, name, ip).value.0.moderator;
      && m'.info == n.moderator.info[name := RecordFor(name, ip, "producer")]
      && m'.registry == n.moderator.registry + {RecordFor(name, ip, "producer")}
      && m'.info[name].properties["role"] == Moderator.StrProp("producer")
  {
    if name !in n.topics {
      var address := Address.HttpAddress(ip, 0);
      PublishFreshServer(n.moderator, name, ip, "producer");
      var m1 := PublishServer(n.moderator, name, TopicProcessor.NewServer(address), ip, "producer").value;
      PublishFreshServer(m1, name, ip, "consumer");
    }
  }

  /** Adding keeps the node valid, and a name the node has is announced by
      its moderator. */
  lemma AddTopicKeepsValid(n: Node, name: string, ip: string)
    requires Valid(n) && Announced(n)
    ensures AddTopic(n, name, ip).Ok?
    ensures Valid(AddTopic(n, name, ip).value.0) && Announced(AddTopic(n, name, ip).value.0)
  {
    AddTopicPublishesProducer(n, name, ip);
    if name !in n.topics {
      AddNewKeepsValid(n, name, ip);
      AddNewAnnounced(n, name, ip);
    }
  }

  /** A new name keeps the node's own invariant: it takes the next storage. */
  lemma AddNewKeepsValid(n: Node, name: string, ip: string)
    requires Valid(n) && name !in n.topics
    ensures AddTopic(n, name, ip).Ok? && Valid(AddTopic(n, name, ip).value.0)
  {
    hide AddTopic;
    AddTopicPublishesProducer(n, name, ip);
  }

  /** A new name is announced along with every name announced before. */
  lemma AddNewAnnounced(n: Node, name: string, ip: string)
    requires Valid(n) && Announced(n) && name !in n.topics
    ensures AddTopic(n, name, ip).Ok? && Announced(AddTopic(n, name, ip).value.0)
  {
    AddTopicPublishesProducer(n, name, ip);
    var n' := AddTopic(n, name, ip).value.0;
    var address := Address.HttpAddress(ip, 0);
    PublishFreshServer(n.moderator, name, ip, "producer");
    var m1 := PublishServer(n.moderator, name, TopicProcessor.NewServer(address), ip, "producer").value;
    PublishFreshServer(m1, name, ip, "consumer");
    forall k | k in n'.topics ensures k in n'.moderator.info {
      if k != name {
        assert k in n.moderator.info;
      }
    }
  }

  /** Every topic of the node is published. */
  ghost predicate Announced(n: Node)
  {
    forall k :: k in n.topics ==> Moderator.IsPublished(n.moderator, k)
  }

  /** For a non-empty name, `stop(name)` raises `KeyError` for a name the
      node lacks, `AttributeError` when its pair was never fully started,
      and succeeds otherwise. */
  lemma StopOne(n: Node, name: string)
    requires name != ""
    ensures Stop(n, Some(name)) ==
      if name !in n.topics then Err(KeyError)
      else if !Started(n.topics[name]) then Err(AttributeError)
      else Ok(())
  {
  }

  /** Deleting keeps the node valid. It raises only on the last delete of a
      topic whose servers were not all started, and then `AttributeError`,
      with the topic unpublished but its pair kept, so the node no longer
      announces every topic it has; otherwise every topic stays announced. */
  lemma DelTopicKeepsValid(n: Node, name: string)
    requires Valid(n) && Announced(n)
    ensures var (n', r) := DelTopic(n, name);
      && Valid(n')
      && (r.Err? <==> Count(n, name) == 1 && Stop(n, Some(name)).Err?)
      && (r.Ok? ==> Announced(n'))
      && (r.Err? ==> r.error == AttributeError && name in n'.topics && !Moderator.IsPublished(n'.moderator, name))
  {
  }

  /** The last `del_topic` takes the topic out of the moderator whatever
      happens next; the pair goes, and later lookups fail, exactly when
      stopping the pair succeeds. */
  lemma DelTopicUnpublishes(n: Node, name: string)
    requires Valid(n) && Count(n, name) == 1
    ensures var (n', r) := DelTopic(n, name);
      && !Moderator.IsPublished(n'.moderator, name)
      && (r == Ok(true) <==> Stop(n, Some(name)).Ok?)
      && (r.Ok? ==> name !in n'.topics && Count(n', name) == 0 && GetReadable(n', name) == Err(NotTopicError))
      && (r.Err? ==> n'.topics == n.topics && Count(n', name) == 1)
  {
  }

  /** An add followed directly by a delete of the same name. A name the node
      has goes up one count and back down: the node is restored. A new
      name's pair was never started, so the delete's stop raises
      `AttributeError` after unpublishing: the pair and count 1 remain and
      the name is no longer published. */
  lemma AddDelBalance(n: Node, name: string, ip: string)
    requires Valid(n) && Announced(n)
    ensures AddTopic(n, name, ip).Ok?
    ensures var n1 := AddTopic(n, name, ip).value.0;
      var (n2, r) := DelTopic(n1, name);
      && (name in n.topics ==> n2 == n && r == Ok(true))
      && (name !in n.topics ==>
            && r == Err(AttributeError)
            && n2.topics == n1.topics && Count(n2, name) == 1
            && !Moderator.IsPublished(n2.moderator, name))
  {
    AddTopicPublishesProducer(n, name, ip);
    if name in n.topics {
      BalanceKnown(n, name, ip);
    } else {
      AddDelUnstarted(n, name, ip);
    }
  }

  lemma BalanceKnown(n: Node, name: string, ip: string)
    requires Valid(n) && name in n.topics
    ensures AddTopic(n, name, ip).Ok?
    ensures DelTopic(AddTopic(n, name, ip).value.0, name) == (n, Ok(true))
  {
    var n1 := AddTopic(n, name, ip).value.0;
    assert Count(n1, name) == Count(n, name) + 1 > 1;
    assert n1.counter[name := Count(n1, name) - 1] == n.counter;
  }

  /** The delete right after adding a new name: its stop raises. */
  lemma AddDelUnstarted(n: Node, name: string, ip: string)
    requires Valid(n) && name !in n.topics
    ensures AddTopic(n, name, ip).Ok?
    ensures var n1 := AddTopic(n, name, ip).value.0;
      var (n2, r) := DelTopic(n1, name);
      && r == Err(AttributeError)
      && n2.topics == n1.topics && Count(n2, name) == 1
      && !Moderator.IsPublished(n2.moderator, name)
  {
    hide AddTopic;
    AddTopicPublishesProducer(n, name, ip);
    var n1 := AddTopic(n, name, ip).value.0;
    assert n1.topics[name] == NewPair(n.nextStorage);
    assert name in GetTopics(n1, Some(name));
    assert Stop(n1, Some(name)) == Err(AttributeError);
  }

  /** Add, start every topic (as `start()` and entering the node do), then
      delete. A known name's count goes up and back down; a new name's pair
      is stopped and dropped. Either way the node has its old topics, each
      now started, and its old counts; for a new, unpublished name on an
      IPv4 address the moderator is exactly as before. */
  lemma AddStartDelBalance(n: Node, name: string, ip: string)
    requires Valid(n) && Announced(n) && Moderator.Consistent(n.moderator)
    ensures AddTopic(n, name, ip).Ok?
    ensures var n1 := AddTopic(n, name, ip).value.0;
      && Start(n1, None).Ok?
      && var (n2, r) := DelTopic(Start(n1, None).value, name);
      && r == Ok(true)
      && n2.topics.Keys == n.topics.Keys
      && (forall k :: k in n.topics ==> n2.topics[k] == StartPair(n.topics[k]))
      && (forall k :: Count(n2, k) == Count(n, k))
      && (name !in n.topics && !Moderator.IsPublished(n.moderator, name) && !Address.Bracketed(ip) ==>
            n2.moderator == n.moderator)
  {
    AddTopicPublishesProducer(n, name, ip);
    if name in n.topics {
      StartedBalanceKnown(n, name, ip);
    } else {
      StartedBalanceNew(n, name, ip);
      if !Moderator.IsPublished(n.moderator, name) && !Address.Bracketed(ip) {
        BalanceNewModerator(n, name, ip);
      }
    }
  }

  lemma StartedBalanceKnown(n: Node, name: string, ip: string)
    requires Valid(n) && name in n.topics
    ensures AddTopic(n, name, ip).Ok?
    ensures var ns := Start(AddTopic(n, name, ip).value.0, None);
      && ns.Ok?
      && DelTopic(ns.value, name) == (ns.value.(counter := n.counter), Ok(true))
      && ns.value.topics.Keys == n.topics.Keys
      && (forall k :: k in n.topics ==> ns.value.topics[k] == StartPair(n.topics[k]))
  {
    hide AddTopic, Start;
    var n1 := AddTopic(n, name, ip).value.0;
    assert n1.topics == n.topics && n1.counter == n.counter[name := n.counter[name] + 1];
    var ns := Start(n1, None).value;
    assert Count(ns, name) == Count(n, name) + 1 > 1;
    assert ns.counter[name := Count(ns, name) - 1] == n.counter;
  }

  /** The topics and counters part of AddStartDelBalance for a new name. */
  lemma StartedBalanceNew(n: Node, name: string, ip: string)
    requires Valid(n) && name !in n.topics
    ensures AddTopic(n, name, ip).Ok?
    ensures var n1 := AddTopic(n, name, ip).value.0;
      && Start(n1, None).Ok?
      && var (n2, r) := DelTopic(Start(n1, None).value, name);
      && r == Ok(true)
      && n2.moderator == Moderator.UnpublishTopic(n1.moderator, name).0
      && n2.topics.Keys == n.topics.Keys
      && (forall k :: k in n.topics ==> n2.topics[k] == StartPair(n.topics[k]))
      && (forall k :: Count(n2, k) == Count(n, k))
  {
    hide AddTopic, DelTopic, Start;
    AddTopicPublishesProducer(n, name, ip);
    var n1 := AddTopic(n, name, ip).value.0;
    var ns := Start(n1, None).value;
    assert Count(ns, name) == 1;
    assert Stop(ns, Some(name)).Ok?;
    var n2 := DelTopic(ns, name).0;
    assert Count(n, name) == 0;
    assert n2.topics.Keys == n.topics.Keys;
  }

  /** The moderator part of AddStartDelBalance: a name the moderator did not
      know, published under a plain address, is unpublished again. */
  lemma BalanceNewModerator(n: Node, name: string, ip: string)
    requires Valid(n) && Moderator.Consistent(n.moderator) && name !in n.topics
    requires !Moderator.IsPublished(n.moderator, name) && !Address.Bracketed(ip)
    ensures AddTopic(n, name, ip).Ok?
    ensures var n1 := AddTopic(n, name, ip).value.0;
      Moderator.UnpublishTopic(n1.moderator, name).0 == n.moderator
  {
    AddTopicPublishesProducer(n, name, ip);
    var n1 := AddTopic(n, name, ip).value.0;
    var url := Moderator.Url(Some(ip), Some(0));
    var props := Some(RoleProps("producer"));
    assert "etherware" !in props.value;
    Moderator.PublishUnpublishRoundTrip(n.moderator, name, url, ip, props);
    var m1 := Moderator.PublishTopic(n.moderator, name, url, ip, props).value.0;
    assert m1.info == n1.moderator.info && m1.registry == n1.moderator.registry;
    assert m1.names == n1.moderator.names;
    assert m1 == n1.moderator;
  }

  /** The node test's sequence on a fresh node: add a topic, start every
      topic, stop every topic, delete the topic. Each step succeeds, the
      topic is published while it exists, and the node ends with no topics
      and, for a name unpublished before on an IPv4 address, with its
      moderator as it began. */
  lemma BasicNode(m: Moderator.Moderator, name: string, ip: string)
    requires Moderator.Consistent(m)
    ensures var n1 := AddTopic(NewNode(m), name, ip);
      && n1.Ok? && Moderator.IsPublished(n1.value.0.moderator, name)
      && Start(n1.value.0, None).Ok?
      && var n2 := Start(n1.value.0, None).value;
      && Stop(n2, None) == Ok(())
      && DelTopic(n2, name).1 == Ok(true)
      && DelTopic(n2, name).0.topics == map[]
      && (!Moderator.IsPublished(m, name) && !Address.Bracketed(ip) ==> DelTopic(n2, name).0.moderator == m)
  {
    var n := NewNode(m);
    AddTopicKeepsValid(n, name, ip);
    AddStartDelBalance(n, name, ip);
    var n2 := Start(AddTopic(n, name, ip).value.0, None).value;
    assert DelTopic(n2, name).0.topics.Keys == {};
  }

  /** A topic added again after a last delete that went through gets a new
      pair, over a storage no earlier pair used, with count 1. */
  lemma ReAddIsFresh(n: Node, name: string, ip: string)
    requires Valid(n) && Announced(n) && Count(n, name) == 1
    ensures var (n1, r) := DelTopic(n, name);
      r.Ok? ==>
        && AddTopic(n1, name, ip).Ok?
        && var n2 := AddTopic(n1, name, ip).value.0;
        && AddTopic(n1, name, ip).value.1
        && Count(n2, name) == 1
        && n2.topics[name].readable.storage != n.topics[name].readable.storage
        && forall k :: k in n1.topics ==> n2.topics[name].readable.storage != n1.topics[k].readable.storage
  {
    DelTopicKeepsValid(n, name);
    var n1 := DelTopic(n, name).0;
    AddTopicPublishesProducer(n1, name, ip);
  }
}
