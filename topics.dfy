/** The MQTT vocabulary of the controller (connection.py): how an incoming
    message's topic is cut into levels below the user's root, how its payload
    is turned back into text, and the retained publications the controller
    sends. Topic levels are separated by '/' as in section 4.7.1 of MQTT 3.1.1;
    the controller subscribes to root + '#', the multi-level wildcard of
    section 4.7.1.2, which matches every topic that starts with root. */
module Topics {
  import opened PyText

  /** A delivered message: its topic name and its payload bytes, read as text. */
  datatype Message = Message(topic: string, payload: string)

  /** One call of client.publish(topic, payload, qos, retain). */
  datatype Publish = Publish(topic: string, payload: string, qos: int, retain: bool)

  /** str(payload) of a bytes payload: Python's repr, b'...'. */
  function BytesRepr(payload: string): string {
    "b'" + payload + "'"
  }

  /** Connection.format: message[2:len(message)-1]. */
  function Format(message: string): (r: string)
    ensures |message| >= 3 ==> r == message[2..|message| - 1]
    ensures |message| < 3 ==> r == ""
  {
    Slice(message, 2, |message| - 1)
  }

  /** format(str(payload)) recovers the payload's text. */
  lemma FormatRepr(payload: string)
    ensures Format(BytesRepr(payload)) == payload
  {
    assert BytesRepr(payload)[2..|BytesRepr(payload)| - 1] == payload;
  }

  /** The text a handler works with: format(str(message.payload)). */
  function Text(m: Message): (r: string)
    ensures r == m.payload
  {
    FormatRepr(m.payload);
    Format(BytesRepr(m.payload))
  }

  /** message.topic[root_len:].split('/'): the levels below the root. */
  function Levels(topic: string, rootLen: nat): (levels: seq<string>)
    ensures |levels| >= 1
  {
    Split(Drop(topic, rootLen), '/')
  }

  /** '/' + email + '/': every topic of the installation lives under it. */
  function Root(email: string): (root: string)
    ensures |root| == |email| + 2 && root[0] == '/' && root[|root| - 1] == '/'
  {
    "/" + email + "/"
  }

  /** The four topic prefixes the controller publishes under. */
  function LedControlTopic(root: string): string { root + "led/control/" }
  function LedBrightnessTopic(root: string): string { root + "led/brightness/" }
  function RgbControlTopic(root: string): string { root + "rgb/control/" }
  function RgbColorTopic(root: string): string { root + "rgb/color/" }

  /** A level name with no level separator in it. */
  predicate IsLevel(s: string) {
    '/' !in s
  }

  /** root + a/b/c splits back into [a, b, c] when none of a, b, c holds a '/'. */
  lemma {:induction false} LevelsOfPath(root: string, a: string, b: string, c: string)
    requires IsLevel(a) && IsLevel(b) && IsLevel(c)
    ensures Levels(root + a + "/" + b + "/" + c, |root|) == [a, b, c]
  {
    var t := root + a + "/" + b + "/" + c;
    assert Drop(t, |root|) == a + ['/'] + (b + ['/'] + c);
    SplitWhole(c, '/');
    SplitFirst(b, c, '/');
    SplitFirst(a, b + ['/'] + c, '/');
  }

  /** publish_led_control: str(control) under <root>led/control/<shelf>, qos 0, retained. */
  function LedControlPublish(root: string, shelf: string, control: bool): (p: Publish)
    ensures p.topic == root + "led" + "/" + "control" + "/" + shelf
    ensures p.qos == 0 && p.retain
    ensures (p.payload == "True") == control
  {
    BoolToStringIsTrue(control);
    Publish(LedControlTopic(root) + shelf, BoolToString(control), 0, true)
  }

  /** publish_led_brightness: str(value) under <root>led/brightness/<shelf>. */
  function LedBrightnessPublish(root: string, shelf: string, value: int): (p: Publish)
    ensures p.topic == root + "led" + "/" + "brightness" + "/" + shelf
    ensures p.qos == 0 && p.retain
    ensures ParseInt(p.payload) == Some(value)
  {
    ParseIntToString(value);
    Publish(LedBrightnessTopic(root) + shelf, IntToString(value), 0, true)
  }

  /** publish_rgb_control: str(control) under <root>rgb/control/<rack>. */
  function RgbControlPublish(root: string, rack: string, control: bool): (p: Publish)
    ensures p.topic == root + "rgb" + "/" + "control" + "/" + rack
    ensures p.qos == 0 && p.retain
    ensures (p.payload == "True") == control
  {
    BoolToStringIsTrue(control);
    Publish(RgbControlTopic(root) + rack, BoolToString(control), 0, true)
  }

  /** publish_rgb_color: the colour text itself under <root>rgb/color/<rack>. */
  function RgbColorPublish(root: string, rack: string, color: string): (p: Publish)
    ensures p.topic == root + "rgb" + "/" + "color" + "/" + rack
    ensures p.qos == 0 && p.retain && p.payload == color
  {
    Publish(RgbColorTopic(root) + rack, color, 0, true)
  }

  /** The message a broker would deliver for a publication. */
  function Delivered(p: Publish): (m: Message)
    ensures m.topic == p.topic && Text(m) == p.payload
  {
    Message(p.topic, p.payload)
  }

  /** Every publication sits under the root, so root + '#' matches it. */
  predicate UnderRoot(root: string, p: Publish) {
    |root| <= |p.topic| && p.topic[..|root|] == root
  }

  /** A publication about shelf or rack `target` reads back, below the root,
      as the levels [kind, action, target] with its payload as text. */
  lemma {:induction false} PublishReadsBack(root: string, kind: string, action: string, target: string, p: Publish)
    requires IsLevel(kind) && IsLevel(action) && IsLevel(target)
    requires p.topic == root + kind + "/" + action + "/" + target
    ensures UnderRoot(root, p)
    ensures Levels(Delivered(p).topic, |root|) == [kind, action, target]
    ensures Text(Delivered(p)) == p.payload
  {
    LevelsOfPath(root, kind, action, target);
    assert p.topic == root + (kind + "/" + action + "/" + target);
  }
}
