/** The browsing side of discovery: a `Witness` keeps the topics it has
    seen announced, keyed by service instance name, in the order they were
    first added (Python dictionaries keep insertion order, and
    `list_topics` reports in that order). The zeroconf lookup that the
    handler performs is a parameter: the `ServiceInfo` it returned, or
    `None`. */
module Witness {
  import opened Common
  import Address
  import Moderator

  const LOCAL_SUFFIX: string := "_http._tcp.local."

  datatype StateChange = Added | Removed | Updated

  /** A resolved service as the handler reads it: its port, its addresses
      as text, and its TXT properties decoded to text (`None` for a key
      without a value). */
  datatype Info = Info(port: nat, parsedAddresses: seq<string>, properties: map<string, Option<string>>)

  /** One entry of `topics`: the instance name and its `"addr:port"`
      strings. */
  datatype Entry = Entry(name: string, address: seq<string>)

  type Topics = seq<Entry>

  function Names(t: Topics): (ns: seq<string>)
    ensures |ns| == |t| && forall i :: 0 <= i < |t| ==> ns[i] == t[i].name
  {
    seq(|t|, i requires 0 <= i < |t| => t[i].name)
  }

  /** Each name is a key at most once. */
  predicate UniqueNames(t: Topics)
  {
    forall i, j :: 0 <= i < j < |t| ==> t[i].name != t[j].name
  }

  predicate HasName(t: Topics, name: string)
  {
    exists i :: 0 <= i < |t| && t[i].name == name
  }

  /** The position of the name's entry, the first one if several. */
  function IndexOf(t: Topics, name: string): (r: Option<nat>)
    ensures r.Some? <==> HasName(t, name)
    ensures r.Some? ==> r.value < |t| && t[r.value].name == name
    ensures r.Some? ==> forall j :: 0 <= j < r.value ==> t[j].name != name
  {
    if |t| == 0 then None
    else if t[0].name == name then Some(0)
    else
      match IndexOf(t[1..], name)
      case None =>
        assert !HasName(t[1..], name);
        assert forall i :: 0 < i < |t| ==> t[i] == t[1..][i - 1];
        None
      case Some(k) =>
        assert t[k + 1] == t[1..][k];
        assert forall j :: 1 <= j < k + 1 ==> t[j] == t[1..][j - 1];
        Some(k + 1)
  }

  /** `topics.get(name)`. */
  function Lookup(t: Topics, name: string): (r: Option<seq<string>>)
    ensures r.Some? <==> HasName(t, name)
    ensures r.Some? ==> exists i :: 0 <= i < |t| && t[i] == Entry(name, r.value)
  {
    match IndexOf(t, name)
    case None => None
    case Some(i) => Some(t[i].address)
  }

  /** `topics[name] = {"address": addrs}`: a known name keeps its place and
      gets the new value, a new name goes last. */
  function Store(t: Topics, name: string, addrs: seq<string>): (t': Topics)
    ensures HasName(t, name) ==> Names(t') == Names(t)
    ensures !HasName(t, name) ==> Names(t') == Names(t) + [name]
    ensures forall i :: 0 <= i < |t| && t[i].name != name ==> t'[i] == t[i]
    ensures Lookup(t', name) == Some(addrs)
  {
    match IndexOf(t, name)
    case Some(i) =>
      var t' := t[i := Entry(name, addrs)];
      assert IndexOf(t', name) == Some(i) by {
        assert t'[i].name == name;
        var k := IndexOf(t', name).value;
        assert forall j :: 0 <= j < i ==> t'[j] == t[j];
        assert !(i < k);
      }
      t'
    case None =>
      var t' := t + [Entry(name, addrs)];
      assert IndexOf(t', name) == Some(|t|) by {
        assert t'[|t|].name == name;
        var k := IndexOf(t', name).value;
        assert forall j :: 0 <= j < |t| ==> t'[j] == t[j];
      }
      t'
  }

  /** `del topics[name]` for a present name; nothing for an absent one. The
      other names keep their order. */
  function Delete(t: Topics, name: string): (t': Topics)
    ensures forall e :: e in t' <==> e in t && e.name != name
    ensures Names(t') == Moderator.Without(Names(t), name)
    ensures !HasName(t, name) ==> t' == t
    ensures |t'| <= |t|
  {
    if |t| == 0 then []
    else
      NamesCons(t[0], t[1..]);
      assert [t[0]] + t[1..] == t;
      if t[0].name == name then Delete(t[1..], name)
      else
        NamesCons(t[0], Delete(t[1..], name));
        [t[0]] + Delete(t[1..], name)
  }

  lemma NamesCons(e: Entry, t: Topics)
    ensures Names([e] + t) == [e.name] + Names(t)
  {
  }

  /** The marker test `info.properties and info.properties.get(b"etherware")`:
      the key is present with a non-empty value. */
  predicate Marked(info: Info)
  {
    "etherware" in info.properties && info.properties["etherware"].Some? && |info.properties["etherware"].value| > 0
  }

  /** The `"%s:%d"` strings, one per parsed address, in order. */
  function AddressStrings(info: Info): (a: seq<string>)
    ensures |a| == |info.parsedAddresses|
    ensures forall i :: 0 <= i < |a| ==> a[i] == Address.HostPort(info.parsedAddresses[i], info.port)
  {
    seq(|info.parsedAddresses|, i requires 0 <= i < |info.parsedAddresses| => Address.HostPort(info.parsedAddresses[i], info.port))
  }

  /** `on_service_state_change`: an `Added` service that resolves and
      carries the marker is stored under its name; a `Removed` one is
      forgotten; anything else changes nothing. */
  function OnServiceStateChange(t: Topics, name: string, change: StateChange, info: Option<Info>): (t': Topics)
    ensures change == Added && info.Some? && Marked(info.value) ==>
      Lookup(t', name) == Some(AddressStrings(info.value))
    ensures change == Added && !(info.Some? && Marked(info.value)) ==> t' == t
    ensures change == Removed ==> !HasName(t', name)
    ensures change == Updated ==> t' == t
    ensures forall e :: e in t && e.name != name ==> e in t'
    ensures forall e :: e in t' && e.name != name ==> e in t
  {
    match change
    case Added =>
      if info.Some? && Marked(info.value) then
        var t' := Store(t, name, AddressStrings(info.value));
        StoreOthers(t, name, AddressStrings(info.value));
        t'
      else t
    case Removed =>
      var t' := Delete(t, name);
      assert forall i :: 0 <= i < |t'| ==> t'[i] in t';
      t'
    case Updated => t
  }

  lemma StoreOthers(t: Topics, name: string, addrs: seq<string>)
    ensures forall e :: e in t && e.name != name ==> e in Store(t, name, addrs)
    ensures forall e :: e in Store(t, name, addrs) && e.name != name ==> e in t
  {
    var t' := Store(t, name, addrs);
    forall e | e in t && e.name != name ensures e in t' {
      var i :| 0 <= i < |t| && t[i] == e;
      assert t'[i] == e;
    }
    forall e | e in t' && e.name != name ensures e in t {
      var i :| 0 <= i < |t'| && t'[i] == e;
      assert Names(t')[i] == e.name;
      assert i < |t|;
      assert t[i] == e;
    }
  }

  /** The handler keeps names unique. */
  lemma OnServiceStateChangeUnique(t: Topics, name: string, change: StateChange, info: Option<Info>)
    requires UniqueNames(t)
    ensures UniqueNames(OnServiceStateChange(t, name, change, info))
  {
    var t' := OnServiceStateChange(t, name, change, info);
    if change == Added && info.Some? && Marked(info.value) {
      var ns, ns' := Names(t), Names(t');
      forall i, j | 0 <= i < j < |t'| ensures t'[i].name != t'[j].name {
        assert ns'[i] == t'[i].name && ns'[j] == t'[j].name;
        if j < |t| {
          assert ns'[i] == ns[i] && ns'[j] == ns[j];
        } else {
          assert ns'[j] == name;
          assert ns[i] == ns'[i];
        }
      }
    } else if change == Removed {
      DeleteUnique(t, name);
    }
  }

  lemma {:induction false} DeleteUnique(t: Topics, name: string)
    requires UniqueNames(t)
    ensures UniqueNames(Delete(t, name))
  {
    if |t| > 0 {
      DeleteUnique(t[1..], name);
      if t[0].name != name {
        var r := Delete(t[1..], name);
        forall k | 0 <= k < |r| ensures r[k].name != t[0].name {
          assert r[k] in r;
          var m :| 0 <= m < |t| - 1 && t[1..][m] == r[k];
          assert t[m + 1] == r[k];
        }
        ConsUnique(t[0], r);
      }
    }
  }

  lemma ConsUnique(e: Entry, r: Topics)
    requires UniqueNames(r)
    requires forall k :: 0 <= k < |r| ==> r[k].name != e.name
    ensures UniqueNames([e] + r)
  {
    var t := [e] + r;
    forall i, j | 0 <= i < j < |t| ensures t[i].name != t[j].name {
      assert t[j] == r[j - 1];
      if i > 0 {
        assert t[i] == r[i - 1];
      }
    }
  }

  /** An `Added` event for a name already known changes its value only:
      the names and their order stay. */
  lemma AddedKnownKeepsNames(t: Topics, name: string, info: Info)
    requires HasName(t, name) && Marked(info)
    ensures Names(OnServiceStateChange(t, name, Added, Some(info))) == Names(t)
  {
  }

  /** `t[:-(len(LOCAL_SUFFIX) + 1)]`: drop the dot and suffix; a name shorter
      than that leaves the empty string, as Python slicing clamps. */
  function StripLocalSuffix(s: string): (r: string)
    ensures |s| > |LOCAL_SUFFIX| + 1 ==> |r| == |s| - |LOCAL_SUFFIX| - 1 && s[..|r|] == r
    ensures |s| <= |LOCAL_SUFFIX| + 1 ==> r == ""
  {
    if |s| > |LOCAL_SUFFIX| + 1 then s[..|s| - |LOCAL_SUFFIX| - 1] else ""
  }

  /** `list_topics` after browsing: one entry per stored name, in order,
      each stripped of its suffix. */
  function ListTopics(t: Topics): (r: seq<string>)
    ensures |r| == |t|
    ensures forall i :: 0 <= i < |t| ==> r[i] == StripLocalSuffix(t[i].name)
  {
    seq(|t|, i requires 0 <= i < |t| => StripLocalSuffix(t[i].name))
  }

  /** A name built as the topic, a dot and the suffix strips back to the
      topic, including the empty topic. */
  lemma StripRoundTrip(topic: string)
    ensures StripLocalSuffix(topic + "." + LOCAL_SUFFIX) == topic
  {
    var s := topic + "." + LOCAL_SUFFIX;
    if |topic| > 0 {
      assert s[..|topic|] == topic;
    }
  }

  /** The witness strips exactly what the moderator appends: the suffix is
      the service type, so every published topic is listed under its own
      name. */
  lemma StripInstanceName(topic: string)
    ensures LOCAL_SUFFIX == Moderator.SERVICE_TYPE
    ensures StripLocalSuffix(Moderator.InstanceName(topic)) == topic
  {
    StripRoundTrip(topic);
  }

  /** How a published record reaches the handler: the TXT encoding of
      zeroconf turns `True` into `"true"`, `False` into `"false"`, and keeps
      text as it is; `addresses` are the resolved IPs. */
  function Advertise(i: Moderator.ServiceInfo): (info: Info)
    requires i.port >= 0
    ensures info.port == i.port && info.parsedAddresses == i.addresses
    ensures forall k :: k in info.properties <==> k in i.properties
  {
    Info(i.port, i.addresses,
         map k | k in i.properties :: Some(match i.properties[k]
                                          case BoolProp(b) => if b then "true" else "false"
                                          case StrProp(s) => s))
  }

  /** The marker as the handler sees it after the TXT encoding: any boolean
      `etherware` property passes, `False` included, since `"false"` is a
      non-empty value; a text property passes only when non-empty; no
      property, no marker. */
  lemma AdvertisedMarked(i: Moderator.ServiceInfo)
    requires i.port >= 0
    ensures Marked(Advertise(i)) <==>
      "etherware" in i.properties && (i.properties["etherware"].BoolProp? || |i.properties["etherware"].s| > 0)
  {
  }

  /** End to end: a record the moderator published, announced as added,
      makes `list_topics` report its topic; removing it again takes it
      out. */
  lemma PublishedTopicIsListed(m: Moderator.Moderator, topic: string, url: Moderator.Url, hostip: string,
                               props: Option<map<string, Moderator.PropValue>>, t: Topics)
    requires !Moderator.IsPublished(m, topic) && url.port.Some? && url.port.value >= 0
    requires Moderator.PublishTopic(m, topic, url, hostip, props).Ok?
    ensures var i := Moderator.PublishTopic(m, topic, url, hostip, props).value.0.info[topic];
      var t' := OnServiceStateChange(t, i.name, Added, Some(Advertise(i)));
      && topic in ListTopics(t')
      && !HasName(OnServiceStateChange(t', i.name, Removed, None), i.name)
  {
    var i := Moderator.PublishTopic(m, topic, url, hostip, props).value.0.info[topic];
    var info := Advertise(i);
    assert info.properties["etherware"] == Some("true");
    var t' := OnServiceStateChange(t, i.name, Added, Some(info));
    var addrs := Lookup(t', i.name).value;
    var k :| 0 <= k < |t'| && t'[k] == Entry(i.name, addrs);
    StripInstanceName(topic);
    assert ListTopics(t')[k] == topic;
  }

  /** A witness that saw one topic added and then removed lists nothing. */
  lemma AddedThenRemovedListsNothing(name: string, info: Info)
    requires Marked(info)
    ensures var t := OnServiceStateChange([], name, Added, Some(info));
      && ListTopics(t) == [StripLocalSuffix(name)]
      && ListTopics(OnServiceStateChange(t, name, Removed, None)) == []
  {
    var t := OnServiceStateChange([], name, Added, Some(info));
    assert Names(t) == [name];
    var t' := OnServiceStateChange(t, name, Removed, None);
    assert t[0].name == name;
    assert Delete(t[1..], name) == [];
  }
}
