/** Device identity from MQTT topics: the telemetry subscriber's rule and the connector's. */
module Topics {
  import opened Text

  datatype Extracted = NoId | Id(id: string)

  /** The topic a device publishes its telemetry on. */
  function TelemetryTopic(id: string): string {
    "devices/" + id + "/telemetry"
  }

  function DeviceIDFromTopic(topic: string): Extracted {
    var parts := Split(topic, '/');
    if |parts| != 3 then NoId
    else if parts[0] != "devices" || parts[2] != "telemetry" || parts[1] == "" then NoId
    else Id(parts[1])
  }

  /** The connector's device_id_path setting: absent, or "segment:" with a number or something else. */
  datatype Path = NoPath | Segment(index: int) | BadSegment

  datatype Subscription = Subscription(path: Path, segment: int)

  function ExtractTopicSegment(topic: string, idx: int): Extracted {
    var parts := Split(topic, '/');
    if idx < 0 || idx >= |parts| || parts[idx] == "" then NoId else Id(parts[idx])
  }

  function ExtractDeviceID(sub: Subscription, topic: string): Extracted {
    match sub.path
    case Segment(i) => ExtractTopicSegment(topic, i)
    case BadSegment => NoId
    case NoPath => if sub.segment > 0 then ExtractTopicSegment(topic, sub.segment) else ExtractTopicSegment(topic, 1)
  }

  lemma TopicIsJoin(id: string)
    ensures Join(["devices", id, "telemetry"], '/') == TelemetryTopic(id)
  {
    var parts := ["devices", id, "telemetry"];
    assert parts[1..] == [id, "telemetry"] && parts[1..][1..] == ["telemetry"];
    assert Join(["telemetry"], '/') == "telemetry";
    assert Join([id, "telemetry"], '/') == id + ['/'] + "telemetry" by {
      assert [id, "telemetry"][1..] == ["telemetry"];
    }
    assert "devices" + ['/'] == "devices/" && ['/'] + "telemetry" == "/telemetry";
    assert id + ['/'] + "telemetry" == id + "/telemetry";
    assert "devices" + ['/'] + (id + "/telemetry") == "devices/" + id + "/telemetry";
  }

  lemma TopicParts(id: string)
    requires '/' !in id
    ensures Split(TelemetryTopic(id), '/') == ["devices", id, "telemetry"]
  {
    var parts := ["devices", id, "telemetry"];
    SplitJoin(parts, '/');
    TopicIsJoin(id);
  }

  /** The subscriber accepts exactly the telemetry topics of non-empty ids without a slash,
      and returns that id. */
  lemma AcceptsExactlyTelemetryTopics(topic: string, id: string)
    ensures DeviceIDFromTopic(topic) == Id(id) <==> (topic == "devices/" + id + "/telemetry" && id != "" && '/' !in id)
  {
    if DeviceIDFromTopic(topic) == Id(id) {
      var parts := Split(topic, '/');
      JoinSplit(topic, '/');
      assert parts == ["devices", id, "telemetry"];
      TopicIsJoin(id);
      assert '/' !in parts[1];
    }
    if topic == TelemetryTopic(id) && id != "" && '/' !in id {
      TopicParts(id);
    }
  }

  /** On any topic, of whatever segments, the connector takes the segment at the given position, if it is there and
      not empty. */
  lemma SegmentIs(parts: seq<string>, idx: int)
    requires parts != [] && forall i :: 0 <= i < |parts| ==> '/' !in parts[i]
    ensures ExtractTopicSegment(Join(parts, '/'), idx) == if 0 <= idx < |parts| && parts[idx] != "" then Id(parts[idx]) else NoId
  {
    SplitJoin(parts, '/');
  }

  /** What each kind of subscription takes from a topic: the segment its path names, none if the path is not a
      number, else its positive segment number, else the second segment. */
  lemma SubscriptionFinds(sub: Subscription, parts: seq<string>)
    requires |parts| >= 2 && forall i :: 0 <= i < |parts| ==> '/' !in parts[i]
    ensures var found := ExtractDeviceID(sub, Join(parts, '/'));
      && (sub.path.BadSegment? ==> found == NoId)
      && (sub.path.Segment? ==> found == if 0 <= sub.path.index < |parts| && parts[sub.path.index] != "" then Id(parts[sub.path.index]) else NoId)
      && (sub.path.NoPath? && sub.segment > 0 ==> found == if sub.segment < |parts| && parts[sub.segment] != "" then Id(parts[sub.segment]) else NoId)
      && (sub.path.NoPath? && sub.segment <= 0 ==> found == if parts[1] != "" then Id(parts[1]) else NoId)
  {
    match sub.path
    case Segment(i) => SegmentIs(parts, i);
    case BadSegment =>
    case NoPath => SegmentIs(parts, if sub.segment > 0 then sub.segment else 1);
  }

  /** The segment a subscription takes the id from. */
  function Position(sub: Subscription): int {
    match sub.path
    case Segment(i) => i
    case BadSegment => -1
    case NoPath => if sub.segment > 0 then sub.segment else 1
  }

  /** On every topic the subscriber accepts, the connector finds the same id exactly when the segment it
      looks at holds that id; without any configured position it always does. */
  lemma ConnectorAgrees(sub: Subscription, topic: string)
    requires DeviceIDFromTopic(topic).Id?
    ensures ExtractDeviceID(sub, topic) == DeviceIDFromTopic(topic) <==>
      (0 <= Position(sub) < 3 && ["devices", DeviceIDFromTopic(topic).id, "telemetry"][Position(sub)] == DeviceIDFromTopic(topic).id)
    ensures sub.path.NoPath? && sub.segment <= 1 ==> ExtractDeviceID(sub, topic) == DeviceIDFromTopic(topic)
  {
    var id := DeviceIDFromTopic(topic).id;
    AcceptsExactlyTelemetryTopics(topic, id);
    TopicParts(id);
  }

  /** Only one topic names each device. */
  lemma TopicsAreInjective(a: string, b: string)
    requires '/' !in a && '/' !in b && TelemetryTopic(a) == TelemetryTopic(b)
    ensures a == b
  {
    TopicParts(a);
    TopicParts(b);
  }
}
