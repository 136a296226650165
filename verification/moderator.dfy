/** The publishing side of discovery: a `Moderator` remembers one zeroconf
    service record per published topic name and registers it. The zeroconf
    registry is kept as the set of records currently registered; the name
    lookup behind `gethostbyname` is a parameter. */
module Moderator {
  import opened Common

  /** The DNS-SD service type every topic is announced under. */
  const SERVICE_TYPE: string := "_http._tcp.local."

  /** The instance name of a topic's service record. */
  function InstanceName(topic: string): (n: string)
    ensures |n| == |topic| + 1 + |SERVICE_TYPE|
    ensures n[..|topic|] == topic && n[|topic|..] == "." + SERVICE_TYPE
  {
    topic + "." + SERVICE_TYPE
  }

  /** Different topics never share an instance name. */
  lemma InstanceNameInjective(a: string, b: string)
    requires InstanceName(a) == InstanceName(b)
    ensures a == b
  {
    assert |a| == |b|;
    assert a == InstanceName(a)[..|a|];
  }

  /** A property value as a caller passes it: the marker `True`, or text. */
  datatype PropValue = BoolProp(b: bool) | StrProp(s: string)

  /** A zeroconf `ServiceInfo`; addresses are kept as the resolved IP text
      (the packing by `inet_aton` is not modelled). */
  datatype ServiceInfo = ServiceInfo(
    serviceType: string,
    name: string,
    addresses: seq<string>,
    port: int,
    properties: map<string, PropValue>)

  /** The parts of `urlparse(address)` that publishing reads. */
  datatype Url = Url(hostname: Option<string>, port: Option<int>)

  /** `names` is the key order of `_topic_info` (insertion order),
      `info` its contents, `registry` the records registered with
      zeroconf. */
  datatype Moderator = Moderator(names: seq<string>, info: map<string, ServiceInfo>, registry: set<ServiceInfo>)

  function NewModerator(): (m: Moderator)
    ensures Consistent(m) && m.info == map[]
  {
    Moderator([], map[], {})
  }

  /** The bookkeeping agrees with itself and with the registry: the key
      order lists each key once, each record is its topic's record, and
      exactly the stored records are registered. */
  ghost predicate Consistent(m: Moderator)
  {
    && Distinct(m.names)
    && (forall k :: k in m.info <==> k in m.names)
    && (forall k :: k in m.info ==> m.info[k].name == InstanceName(k) && m.info[k].serviceType == SERVICE_TYPE)
    && m.registry == set k | k in m.info :: m.info[k]
  }

  /** `is_published(name)`. */
  predicate IsPublished(m: Moderator, name: string)
  {
    name in m.info
  }

  /** `properties or {}` followed by `dict(etherware=True, **props)`: a
      caller's own `etherware` key is a repeated keyword argument. */
  function MarkedProperties(props: Option<map<string, PropValue>>): (r: Result<map<string, PropValue>, Exception>)
    ensures r.Err? <==> props.Some? && "etherware" in props.value
    ensures r.Err? ==> r.error == TypeError
    ensures r.Ok? ==> "etherware" in r.value && r.value["etherware"] == BoolProp(true)
    ensures r.Ok? ==> forall k :: k in r.value <==> k == "etherware" || (props.Some? && k in props.value)
    ensures r.Ok? && props.Some? ==> forall k :: k in props.value ==> r.value[k] == props.value[k]
  {
    var p := if props.Some? then props.value else map[];
    if "etherware" in p then Err(TypeError) else Ok(p["etherware" := BoolProp(true)])
  }

  /** `publish_topic(name, address, properties)`. A published name returns
      `False` with no change. Otherwise the record is built (`int(None)` for
      a missing port, then a duplicate `etherware` key, raise `TypeError`,
      and nothing is stored), stored under the name, and registered; the
      call returns `None`. `hostip` is what `gethostbyname` answered for the
      URL's host. */
  function PublishTopic(m: Moderator, name: string, url: Url, hostip: string, props: Option<map<string, PropValue>>)
    : (r: Result<(Moderator, Option<bool>), Exception>)
    ensures IsPublished(m, name) ==> r == Ok((m, Some(false)))
    ensures !IsPublished(m, name) && url.port.None? ==> r == Err(TypeError)
    ensures !IsPublished(m, name) && url.port.Some? ==> (r.Err? <==> MarkedProperties(props).Err?)
    ensures r.Err? ==> r.error == TypeError
    ensures !IsPublished(m, name) && r.Ok? ==>
      && url.port.Some? && MarkedProperties(props).Ok?
      && var m', i := r.value.0, ServiceInfo(SERVICE_TYPE, InstanceName(name), [hostip], url.port.value, MarkedProperties(props).value);
      && r.value.1 == None
      && m'.info == m.info[name := i]
      && m'.names == m.names + [name]
      && m'.registry == m.registry + {i}
  {
    if IsPublished(m, name) then Ok((m, Some(false)))
    else if url.port.None? then Err(TypeError)
    else
      match MarkedProperties(props)
      case Err(e) => Err(e)
      case Ok(p) =>
        var i := ServiceInfo(SERVICE_TYPE, InstanceName(name), [hostip], url.port.value, p);
        Ok((Moderator(m.names + [name], m.info[name := i], m.registry + {i}), None))
  }

  /** `xs` without `x`, order kept. */
  function Without(xs: seq<string>, x: string): (ys: seq<string>)
    ensures forall y :: y in ys <==> y in xs && y != x
    ensures x !in xs ==> ys == xs
    ensures |ys| <= |xs|
  {
    if |xs| == 0 then []
    else if xs[0] == x then Without(xs[1..], x)
    else [xs[0]] + Without(xs[1..], x)
  }

  predicate Distinct(xs: seq<string>)
  {
    forall i, j :: 0 <= i < j < |xs| ==> xs[i] != xs[j]
  }

  /** Removing a name from a list without repeats leaves one without
      repeats. */
  lemma {:induction false} WithoutDistinct(xs: seq<string>, x: string)
    requires Distinct(xs)
    ensures Distinct(Without(xs, x))
  {
    if |xs| > 0 {
      WithoutDistinct(xs[1..], x);
      if xs[0] != x {
        var ys := Without(xs, x);
        var t := Without(xs[1..], x);
        assert ys == [xs[0]] + t;
        assert xs[0] !in xs[1..];
        assert xs[0] !in t;
        forall i, j | 0 <= i < j < |ys| ensures ys[i] != ys[j] {
          if i == 0 {
            assert ys[j] == t[j - 1];
          } else {
            assert ys[i] == t[i - 1] && ys[j] == t[j - 1];
          }
        }
      }
    }
  }

  /** `unpublish_topic(name)`: an unknown name returns `False` with no
      change; a known one is unregistered and forgotten, and the call
      returns `None`. */
  function UnpublishTopic(m: Moderator, name: string): (r: (Moderator, Option<bool>))
    ensures !IsPublished(m, name) ==> r == (m, Some(false))
    ensures IsPublished(m, name) ==>
      && r.1 == None
      && r.0.info == m.info - {name}
      && r.0.names == Without(m.names, name)
      && r.0.registry == m.registry - {m.info[name]}
  {
    if !IsPublished(m, name) then (m, Some(false))
    else (Moderator(Without(m.names, name), m.info - {name}, m.registry - {m.info[name]}), None)
  }

  /** Publishing keeps the bookkeeping consistent: the new record is not
      yet registered, since its instance name is new. */
  lemma PublishKeepsConsistent(m: Moderator, name: string, url: Url, hostip: string, props: Option<map<string, PropValue>>)
    requires Consistent(m)
    requires PublishTopic(m, name, url, hostip, props).Ok?
    ensures Consistent(PublishTopic(m, name, url, hostip, props).value.0)
  {
    if !IsPublished(m, name) {
      var m' := PublishTopic(m, name, url, hostip, props).value.0;
      var i := m'.info[name];
      assert m'.registry == set k | k in m'.info :: m'.info[k] by {
        forall x | x in m'.registry ensures exists k :: k in m'.info && m'.info[k] == x {
          if x == i {
            assert m'.info[name] == x;
          } else {
            var k :| k in m.info && m.info[k] == x;
            assert m'.info[k] == x;
          }
        }
      }
    }
  }

  /** Unpublishing keeps the bookkeeping consistent: no other topic shares
      the removed record. */
  lemma UnpublishKeepsConsistent(m: Moderator, name: string)
    requires Consistent(m)
    ensures Consistent(UnpublishTopic(m, name).0)
  {
    if IsPublished(m, name) {
      var m' := UnpublishTopic(m, name).0;
      var i := m.info[name];
      WithoutDistinct(m.names, name);
      forall x | x in m'.registry ensures exists k :: k in m'.info && m'.info[k] == x {
        var k :| k in m.info && m.info[k] == x;
        assert k != name;
        assert m'.info[k] == x;
      }
      forall k | k in m'.info ensures m'.info[k] in m'.registry {
        var x := m.info[k];
        if x == i {
          InstanceNameInjective(k, name);
        }
      }
    }
  }

  /** First publish wins: a second publish of the same name is refused and
      the record of the first stays. */
  lemma FirstPublishWins(m: Moderator, name: string, u1: Url, h1: string, p1: Option<map<string, PropValue>>,
                         u2: Url, h2: string, p2: Option<map<string, PropValue>>)
    requires PublishTopic(m, name, u1, h1, p1).Ok?
    ensures var m1 := PublishTopic(m, name, u1, h1, p1).value.0;
      && IsPublished(m1, name)
      && PublishTopic(m1, name, u2, h2, p2) == Ok((m1, Some(false)))
  {
  }

  /** Publishing a new name and unpublishing it restores the moderator
      exactly: key order, records and registry. */
  lemma PublishUnpublishRoundTrip(m: Moderator, name: string, url: Url, hostip: string, props: Option<map<string, PropValue>>)
    requires Consistent(m) && !IsPublished(m, name)
    requires PublishTopic(m, name, url, hostip, props).Ok?
    ensures UnpublishTopic(PublishTopic(m, name, url, hostip, props).value.0, name) == (m, None)
  {
    var m' := PublishTopic(m, name, url, hostip, props).value.0;
    var i := m'.info[name];
    assert Without(m.names + [name], name) == m.names by {
      WithoutAppend(m.names, name);
    }
    assert m'.info - {name} == m.info;
    assert i !in m.registry;
    assert m'.registry - {i} == m.registry;
  }

  lemma {:induction false} WithoutAppend(xs: seq<string>, x: string)
    requires x !in xs
    ensures Without(xs + [x], x) == xs
  {
    if |xs| > 0 {
      assert (xs + [x])[1..] == xs[1..] + [x];
      WithoutAppend(xs[1..], x);
    } else {
      assert xs + [x] == [x];
    }
  }

  // ---------------------------------------------------------------------
  // unpublish_topics
  // ---------------------------------------------------------------------

  /** `unpublish_topics` as written: it iterates over the live key view of
      `_topic_info` while `unpublish_topic` deletes from it, so after the
      first topic is unpublished the iterator raises `RuntimeError`
      ("dictionary changed size during iteration"). With nothing published
      it returns normally. */
  function UnpublishTopicsAsWritten(m: Moderator): (r: (Moderator, Option<Exception>))
    ensures |m.names| == 0 ==> r == (m, None)
    ensures |m.names| > 0 ==> r == (UnpublishTopic(m, m.names[0]).0, Some(RuntimeError))
  {
    if |m.names| == 0 then (m, None)
    else (UnpublishTopic(m, m.names[0]).0, Some(RuntimeError))
  }

  /** With two topics published the call raises and one stays published. */
  lemma UnpublishTopicsLeavesTopics(m: Moderator)
    requires Consistent(m) && |m.names| >= 2
    ensures var r := UnpublishTopicsAsWritten(m);
      r.1 == Some(RuntimeError) && IsPublished(r.0, m.names[1]) && r.0.registry != {}
  {
    var r := UnpublishTopicsAsWritten(m);
    var k := m.names[1];
    assert k in Without(m.names, m.names[0]);
    assert r.0.info[k] in r.0.registry by {
      UnpublishKeepsConsistent(m, m.names[0]);
    }
  }

  /** `unpublish_topics` as intended: unpublish every name of a snapshot
      of the keys, in order. */
  function UnpublishAll(m: Moderator, names: seq<string>): (m': Moderator)
    decreases |names|
  {
    if |names| == 0 then m else UnpublishAll(UnpublishTopic(m, names[0]).0, names[1..])
  }

  function UnpublishTopics(m: Moderator): (m': Moderator)
  {
    UnpublishAll(m, m.names)
  }

  /** Unpublishing the names of a snapshot removes exactly those names and
      their records, and keeps the bookkeeping consistent. */
  lemma {:induction false} UnpublishAllRemoves(m: Moderator, names: seq<string>)
    requires Consistent(m)
    ensures Consistent(UnpublishAll(m, names))
    ensures forall k :: k in UnpublishAll(m, names).info <==> k in m.info && k !in names
    decreases |names|
  {
    if |names| > 0 {
      UnpublishKeepsConsistent(m, names[0]);
      UnpublishAllRemoves(UnpublishTopic(m, names[0]).0, names[1..]);
    }
  }

  /** The intended `unpublish_topics` leaves nothing published and nothing
      registered. */
  lemma UnpublishTopicsClears(m: Moderator)
    requires Consistent(m)
    ensures var m' := UnpublishTopics(m);
      Consistent(m') && m'.info == map[] && m'.registry == {} && forall k :: k !in m'.names
  {
    UnpublishAllRemoves(m, m.names);
  }
}
