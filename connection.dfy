/** The message logic of connection.py with the MQTT client and its threads
    taken away. A message is routed by the connection's stage: ignored,
    replayed into a dummy store (the retained messages the broker sends on
    subscription) or handled as a live command against the real store.
    Between replay and listening, fix_conflicts repairs the dummy store and
    announces each repair as a retained publication. Publications are
    recorded in a log; the broker's echo of them is not modelled. */
module Connections {
  import opened PyText
  import opened SettingsStore
  import opened Topics

  /** Stage: what on_message does with a delivered message. */
  datatype Stage = Ignore | Retained | Listening

  /** Connection.rgb_default: the colour every rack is reset to. */
  const RgbDefault: string := "RGBA(0,0,0, 255)"

  lemma RgbDefaultIsStoreDefault()
    ensures RgbDefault == DefaultColorText
  {
  }

  /** No installation key holds the topic level separator. */
  lemma KeysAreLevels()
    ensures forall shelf :: shelf in ShelfIds ==> IsLevel(shelf)
    ensures forall rack :: rack in RackIds ==> IsLevel(rack)
  {
  }

  /** The n-th shelf and rack of the iteration order are installation keys. */
  lemma ListedKeys()
    ensures forall k :: 0 <= k < |Shelves| ==> Shelves[k] in ShelfIds
    ensures forall k :: 0 <= k < |Racks| ==> Racks[k] in RackIds
  {
  }

  // ---------------------------------------------------------------- the retained replay

  /** on_retained: a retained message written straight into the dummy store
      with the raw setters. A message with an empty topic, with other than three
      levels below the root, or with an unknown pair of first levels is dropped;
      an unknown shelf or rack, or a payload int() rejects, raises inside the
      setter and is caught, leaving the store as the setter left it. */
  function ApplyRetained(s: Snapshot, rootLen: nat, m: Message): (r: Snapshot)
    ensures r.leds.Keys == s.leds.Keys && r.rgbs.Keys == s.rgbs.Keys
  {
    if m.topic == "" then s
    else
      var levels := Levels(m.topic, rootLen);
      var msg := Text(m);
      if |levels| != 3 then s
      else if levels[0] == "led" then
        if levels[1] == "control" then SetLedControl(s, levels[2], msg)
        else if levels[1] == "brightness" then
          match ParseInt(msg)
          case None => s
          case Some(v) => SetLedBrightness(s, levels[2], v)
        else s
      else if levels[0] == "rgb" then
        if levels[1] == "control" then SetRgbControl(s, levels[2], msg)
        else if levels[1] == "color" then SetRgbColor(s, levels[2], msg)
        else s
      else s
  }

  /** A sequence of retained messages replayed in order. */
  function Replay(s: Snapshot, rootLen: nat, ms: seq<Message>): (r: Snapshot)
    ensures r.leds.Keys == s.leds.Keys && r.rgbs.Keys == s.rgbs.Keys
  {
    if ms == [] then s else ApplyRetained(Replay(s, rootLen, ms[..|ms| - 1]), rootLen, ms[|ms| - 1])
  }

  /** A topic that does not have exactly three levels below the root leaves the dummy store alone. */
  lemma RetainedNeedsThreeLevels(s: Snapshot, rootLen: nat, m: Message)
    requires |Levels(m.topic, rootLen)| != 3
    ensures ApplyRetained(s, rootLen, m) == s
  {
  }

  // ---------------------------------------------------------------- fix_conflicts

  /** A repair fix_conflicts makes: it is published (retained) and applied to the dummy store. */
  datatype Correction = ShelfOff(shelf: string) | ShelfZero(shelf: string) | ColorReset(rack: string)

  /** The correction concerns a key of the installation. */
  predicate OnKey(c: Correction) {
    match c
    case ShelfOff(shelf) => shelf in ShelfIds
    case ShelfZero(shelf) => shelf in ShelfIds
    case ColorReset(rack) => rack in RackIds
  }

  /** The retained publication that announces a correction. */
  function Publication(root: string, c: Correction): Publish {
    match c
    case ShelfOff(shelf) => LedControlPublish(root, shelf, false)
    case ShelfZero(shelf) => LedBrightnessPublish(root, shelf, 0)
    case ColorReset(rack) => RgbColorPublish(root, rack, RgbDefault)
  }

  /** The publications of a run of corrections, in order. */
  function Publications(root: string, cs: seq<Correction>): (ps: seq<Publish>)
    ensures |ps| == |cs|
    ensures forall i :: 0 <= i < |cs| ==> ps[i] == Publication(root, cs[i])
  {
    if cs == [] then [] else Publications(root, cs[..|cs| - 1]) + [Publication(root, cs[|cs| - 1])]
  }

  /** The raw setter call that applies a correction to the dummy store. */
  function Applied(s: Snapshot, c: Correction): (r: Snapshot)
    ensures r.leds.Keys == s.leds.Keys && r.rgbs.Keys == s.rgbs.Keys
  {
    match c
    case ShelfOff(shelf) => SetLedControl(s, shelf, BoolToString(false))
    case ShelfZero(shelf) => SetLedBrightness(s, shelf, 0)
    case ColorReset(rack) => SetRgbColor(s, rack, RgbDefault)
  }

  /** Corrections applied in order. */
  function ApplyAll(s: Snapshot, cs: seq<Correction>): (r: Snapshot)
    ensures r.leds.Keys == s.leds.Keys && r.rgbs.Keys == s.rgbs.Keys
  {
    if cs == [] then s else Applied(ApplyAll(s, cs[..|cs| - 1]), cs[|cs| - 1])
  }

  /** What a correction makes true of the store. */
  predicate Holds(s: Snapshot, c: Correction) {
    match c
    case ShelfOff(shelf) => shelf in s.leds && !s.leds[shelf].override
    case ShelfZero(shelf) => shelf in s.leds && s.leds[shelf].brightness == 0
    case ColorReset(rack) => rack in s.rgbs && s.rgbs[rack].color == Black && s.rgbs[rack].text == RgbDefault
  }

  /** Repairs for one rack: a rack with RGB override forces its shared shelf to
      [False, 0], one without has its colour reset unless it is already (0, 0, 0). */
  function FixRack(s: Snapshot, rack: string): (o: Outcome)
    requires WellFormed(s) && rack in RackIds
    ensures WellFormed(o.store)
  {
    SharedShelfOf(rack);
    if s.rgbs[rack].override then
      var shelf := SharedShelf(rack);
      var o1 :=
        if s.leds[shelf].override == true
        then Outcome(Applied(s, ShelfOff(shelf)), [ShelfOff(shelf)])
        else Outcome(s, []);
      if o1.store.leds[shelf].brightness != 0
      then Outcome(Applied(o1.store, ShelfZero(shelf)), o1.fixes + [ShelfZero(shelf)])
      else o1
    else
      var color := s.rgbs[rack].color;
      if color.r != 0 || color.g != 0 || color.b != 0
      then Outcome(Applied(s, ColorReset(rack)), [ColorReset(rack)])
      else Outcome(s, [])
  }

  /** The store and the repairs so far, after a loop has visited some keys. */
  datatype Outcome = Outcome(store: Snapshot, fixes: seq<Correction>)

  /** The first loop of fix_conflicts after visiting the first n racks. */
  function FixRacks(s: Snapshot, n: nat): (o: Outcome)
    requires WellFormed(s) && n <= |Racks|
    ensures WellFormed(o.store)
  {
    if n == 0 then Outcome(s, [])
    else
      ListedKeys();
      var o1 := FixRacks(s, n - 1);
      var o2 := FixRack(o1.store, Racks[n - 1]);
      Outcome(o2.store, o1.fixes + o2.fixes)
  }

  /** Repair for one shelf: without override its brightness must be 0. */
  function FixShelf(s: Snapshot, shelf: string): (o: Outcome)
    requires WellFormed(s) && shelf in ShelfIds
    ensures WellFormed(o.store)
  {
    if !s.leds[shelf].override && s.leds[shelf].brightness != 0
    then Outcome(Applied(s, ShelfZero(shelf)), [ShelfZero(shelf)])
    else Outcome(s, [])
  }

  /** The second loop of fix_conflicts after visiting the first n shelves. */
  function FixShelves(s: Snapshot, n: nat): (o: Outcome)
    requires WellFormed(s) && n <= |Shelves|
    ensures WellFormed(o.store)
  {
    if n == 0 then Outcome(s, [])
    else
      ListedKeys();
      var o1 := FixShelves(s, n - 1);
      var o2 := FixShelf(o1.store, Shelves[n - 1]);
      Outcome(o2.store, o1.fixes + o2.fixes)
  }

  /** fix_conflicts as a whole: the racks first, then the shelves. */
  function Reconcile(s: Snapshot): (o: Outcome)
    requires WellFormed(s)
    ensures WellFormed(o.store)
  {
    var racks := FixRacks(s, |Racks|);
    var shelves := FixShelves(racks.store, |Shelves|);
    Outcome(shelves.store, racks.fixes + shelves.fixes)
  }

  // ---------------------------------------------------------------- fix_conflicts: the corrections

  lemma {:induction false} ApplyAllAppend(s: Snapshot, a: seq<Correction>, b: seq<Correction>)
    ensures ApplyAll(s, a + b) == ApplyAll(ApplyAll(s, a), b)
  {
    if b == [] {
      assert a + b == a;
    } else {
      assert (a + b)[..|a + b| - 1] == a + b[..|b| - 1];
      ApplyAllAppend(s, a, b[..|b| - 1]);
    }
  }

  lemma ApplyOne(s: Snapshot, c: Correction)
    ensures ApplyAll(s, [c]) == Applied(s, c)
  {
    assert [c][..0] == [];
  }

  lemma ApplyTwo(s: Snapshot, c: Correction, d: Correction)
    ensures ApplyAll(s, [c, d]) == Applied(Applied(s, c), d)
  {
    assert [c, d][..1] == [c];
    ApplyOne(s, c);
  }

  lemma PublicationsAppend(root: string, a: seq<Correction>, b: seq<Correction>)
    ensures Publications(root, a + b) == Publications(root, a) + Publications(root, b)
  {
  }

  /** Every repair of one rack is one of the corrections it reports, applied in order. */
  lemma FixRackApplies(s: Snapshot, rack: string)
    requires WellFormed(s) && rack in RackIds
    ensures var o := FixRack(s, rack);
      o.store == ApplyAll(s, o.fixes) && forall c :: c in o.fixes ==> OnKey(c)
  {
    SharedShelfOf(rack);
    var shelf := SharedShelf(rack);
    var o := FixRack(s, rack);
    if s.rgbs[rack].override {
      if s.leds[shelf].override {
        var s1 := Applied(s, ShelfOff(shelf));
        if s1.leds[shelf].brightness != 0 {
          assert o.fixes == [ShelfOff(shelf), ShelfZero(shelf)];
          ApplyTwo(s, ShelfOff(shelf), ShelfZero(shelf));
        } else {
          assert o.fixes == [ShelfOff(shelf)];
          ApplyOne(s, ShelfOff(shelf));
        }
      } else if s.leds[shelf].brightness != 0 {
        assert o.fixes == [ShelfZero(shelf)];
        ApplyOne(s, ShelfZero(shelf));
      }
    } else if o.fixes != [] {
      ApplyOne(s, ColorReset(rack));
    }
  }

  lemma {:induction false} FixRacksApplies(s: Snapshot, n: nat)
    requires WellFormed(s) && n <= |Racks|
    ensures var o := FixRacks(s, n);
      o.store == ApplyAll(s, o.fixes) && forall c :: c in o.fixes ==> OnKey(c)
  {
    if n > 0 {
      ListedKeys();
      var o1 := FixRacks(s, n - 1);
      FixRacksApplies(s, n - 1);
      FixRackApplies(o1.store, Racks[n - 1]);
      ApplyAllAppend(s, o1.fixes, FixRack(o1.store, Racks[n - 1]).fixes);
    }
  }

  lemma FixShelfApplies(s: Snapshot, shelf: string)
    requires WellFormed(s) && shelf in ShelfIds
    ensures var o := FixShelf(s, shelf);
      o.store == ApplyAll(s, o.fixes) && forall c :: c in o.fixes ==> OnKey(c)
  {
    ApplyOne(s, ShelfZero(shelf));
  }

  lemma {:induction false} FixShelvesApplies(s: Snapshot, n: nat)
    requires WellFormed(s) && n <= |Shelves|
    ensures var o := FixShelves(s, n);
      o.store == ApplyAll(s, o.fixes) && forall c :: c in o.fixes ==> OnKey(c)
  {
    if n > 0 {
      ListedKeys();
      var o1 := FixShelves(s, n - 1);
      FixShelvesApplies(s, n - 1);
      FixShelfApplies(o1.store, Shelves[n - 1]);
      ApplyAllAppend(s, o1.fixes, FixShelf(o1.store, Shelves[n - 1]).fixes);
    }
  }

  /** fix_conflicts changes the dummy store exactly by the corrections it publishes. */
  lemma ReconcileApplies(s: Snapshot)
    requires WellFormed(s)
    ensures var o := Reconcile(s);
      o.store == ApplyAll(s, o.fixes) && forall c :: c in o.fixes ==> OnKey(c)
  {
    var racks := FixRacks(s, |Racks|);
    FixRacksApplies(s, |Racks|);
    FixShelvesApplies(racks.store, |Shelves|);
    ApplyAllAppend(s, racks.fixes, FixShelves(racks.store, |Shelves|).fixes);
  }

  /** A correction holds once applied ... */
  lemma AppliedHolds(s: Snapshot, c: Correction)
    requires WellFormed(s) && OnKey(c)
    ensures Holds(Applied(s, c), c)
  {
    if c.ColorReset? {
      DefaultColor(s.rgbs[c.rack]);
    }
  }

  /** ... and no later correction undoes it: none turns a shelf on, none makes a
      brightness nonzero and a colour reset only ever writes the default. */
  lemma AppliedKeeps(s: Snapshot, c: Correction, d: Correction)
    requires Holds(s, d)
    ensures Holds(Applied(s, c), d)
  {
    if c.ColorReset? && c.rack in s.rgbs {
      DefaultColor(s.rgbs[c.rack]);
    }
  }

  lemma {:induction false} ApplyAllKeeps(s: Snapshot, cs: seq<Correction>, d: Correction)
    requires Holds(s, d)
    ensures Holds(ApplyAll(s, cs), d)
  {
    if cs != [] {
      ApplyAllKeeps(s, cs[..|cs| - 1], d);
      AppliedKeeps(ApplyAll(s, cs[..|cs| - 1]), cs[|cs| - 1], d);
    }
  }

  /** After a run of corrections on installation keys, every one of them holds. */
  lemma {:induction false} ApplyAllHolds(s: Snapshot, cs: seq<Correction>)
    requires WellFormed(s) && forall c :: c in cs ==> OnKey(c)
    ensures forall c :: c in cs ==> Holds(ApplyAll(s, cs), c)
  {
    if cs != [] {
      var init, last := cs[..|cs| - 1], cs[|cs| - 1];
      assert forall c :: c in init ==> c in cs;
      ApplyAllHolds(s, init);
      var t := ApplyAll(s, init);
      assert ApplyAll(s, cs) == Applied(t, last);
      assert WellFormed(t);
      AppliedHolds(t, last);
      forall c | c in cs
        ensures Holds(Applied(t, last), c)
      {
        if c != last {
          assert c in init;
          AppliedKeeps(t, last, c);
        }
      }
    }
  }

  /** A correction that already holds changes nothing when applied again. */
  lemma AppliedWhenHolds(s: Snapshot, c: Correction)
    requires Holds(s, c)
    ensures Applied(s, c) == s
  {
    match c
    case ShelfOff(shelf) =>
      assert Applied(s, c).leds == s.leds;
    case ShelfZero(shelf) =>
      assert Applied(s, c).leds == s.leds;
    case ColorReset(rack) =>
      DefaultColor(s.rgbs[rack]);
      RgbDefaultIsStoreDefault();
      assert Applied(s, c).rgbs == s.rgbs;
  }

  /** Replaying the retained publication of a correction is the same as applying it:
      the dummy store ends as the broker's retained state would rebuild it. */
  lemma RetainedCorrection(s: Snapshot, root: string, c: Correction)
    requires OnKey(c)
    ensures ApplyRetained(s, |root|, Delivered(Publication(root, c))) == Applied(s, c)
  {
    KeysAreLevels();
    match c
    case ShelfOff(shelf) => RetainedShelfOff(s, root, shelf);
    case ShelfZero(shelf) => RetainedShelfZero(s, root, shelf);
    case ColorReset(rack) => RetainedColorReset(s, root, rack);
  }

  lemma RetainedShelfOff(s: Snapshot, root: string, shelf: string)
    requires IsLevel(shelf)
    ensures ApplyRetained(s, |root|, Delivered(Publication(root, ShelfOff(shelf)))) == Applied(s, ShelfOff(shelf))
  {
    PublishReadsBack(root, "led", "control", shelf, Publication(root, ShelfOff(shelf)));
  }

  lemma RetainedShelfZero(s: Snapshot, root: string, shelf: string)
    requires IsLevel(shelf)
    ensures ApplyRetained(s, |root|, Delivered(Publication(root, ShelfZero(shelf)))) == Applied(s, ShelfZero(shelf))
  {
    PublishReadsBack(root, "led", "brightness", shelf, Publication(root, ShelfZero(shelf)));
  }

  lemma RetainedColorReset(s: Snapshot, root: string, rack: string)
    requires IsLevel(rack)
    ensures ApplyRetained(s, |root|, Delivered(Publication(root, ColorReset(rack)))) == Applied(s, ColorReset(rack))
  {
    PublishReadsBack(root, "rgb", "color", rack, Publication(root, ColorReset(rack)));
  }

  /** After fix_conflicts every correction it announced is in force, so replaying
      any of its publications leaves the repaired store as it is. */
  lemma ReconcileReplayIsQuiet(s: Snapshot, root: string)
    requires WellFormed(s)
    ensures var o := Reconcile(s);
      forall p :: p in Publications(root, o.fixes) ==> ApplyRetained(o.store, |root|, Delivered(p)) == o.store
  {
    var o := Reconcile(s);
    ReconcileApplies(s);
    ApplyAllHolds(s, o.fixes);
    forall p | p in Publications(root, o.fixes)
      ensures ApplyRetained(o.store, |root|, Delivered(p)) == o.store
    {
      var i :| 0 <= i < |o.fixes| && Publications(root, o.fixes)[i] == p;
      RetainedCorrection(o.store, root, o.fixes[i]);
      AppliedWhenHolds(o.store, o.fixes[i]);
    }
  }

  // ---------------------------------------------------------------- fix_conflicts: I1, I2, I3

  /** I2 and I3 for one rack. */
  predicate RackSettled(s: Snapshot, rack: string) {
    && rack in s.rgbs && SharedShelf(rack) in s.leds
    && (s.rgbs[rack].override ==> s.leds[SharedShelf(rack)] == Dark)
    && (!s.rgbs[rack].override ==> s.rgbs[rack].color == Black)
  }

  /** I1 for one shelf. */
  predicate ShelfSettled(s: Snapshot, shelf: string) {
    shelf in s.leds && (s.leds[shelf].override || s.leds[shelf].brightness == 0)
  }

  /** No correction unsettles a rack: a dark shelf stays dark and a reset colour is black. */
  lemma AppliedKeepsRack(s: Snapshot, c: Correction, rack: string)
    requires RackSettled(s, rack)
    ensures RackSettled(Applied(s, c), rack)
  {
    BoolToStringIsTrue(false);
    if c.ColorReset? && c.rack in s.rgbs {
      DefaultColor(s.rgbs[c.rack]);
    }
  }

  lemma {:induction false} ApplyAllKeepsRack(s: Snapshot, cs: seq<Correction>, rack: string)
    requires RackSettled(s, rack)
    ensures RackSettled(ApplyAll(s, cs), rack)
  {
    if cs != [] {
      ApplyAllKeepsRack(s, cs[..|cs| - 1], rack);
      AppliedKeepsRack(ApplyAll(s, cs[..|cs| - 1]), cs[|cs| - 1], rack);
    }
  }

  lemma FixRackSettles(s: Snapshot, rack: string)
    requires WellFormed(s) && rack in RackIds
    ensures RackSettled(FixRack(s, rack).store, rack)
  {
    SharedShelfOf(rack);
    var shelf := SharedShelf(rack);
    if s.rgbs[rack].override {
      BoolToStringIsTrue(false);
      var o1 := if s.leds[shelf].override then Applied(s, ShelfOff(shelf)) else s;
      assert !o1.leds[shelf].override;
      assert o1.rgbs == s.rgbs;
    } else if s.rgbs[rack].color != Black {
      DefaultColor(s.rgbs[rack]);
    }
  }

  lemma {:induction false} FixRacksSettle(s: Snapshot, n: nat)
    requires WellFormed(s) && n <= |Racks|
    ensures forall k :: 0 <= k < n ==> RackSettled(FixRacks(s, n).store, Racks[k])
  {
    if n > 0 {
      ListedKeys();
      var o1 := FixRacks(s, n - 1);
      var rack := Racks[n - 1];
      FixRacksSettle(s, n - 1);
      FixRackApplies(o1.store, rack);
      FixRackSettles(o1.store, rack);
      forall k | 0 <= k < n - 1
        ensures RackSettled(FixRacks(s, n).store, Racks[k])
      {
        ApplyAllKeepsRack(o1.store, FixRack(o1.store, rack).fixes, Racks[k]);
      }
    }
  }

  /** A shelf step settles its shelf and unsettles none. */
  lemma FixShelfSettles(s: Snapshot, shelf: string, other: string)
    requires WellFormed(s) && shelf in ShelfIds && other in ShelfIds
    requires other == shelf || ShelfSettled(s, other)
    ensures ShelfSettled(FixShelf(s, shelf).store, other)
  {
  }

  lemma {:induction false} FixShelvesSettle(s: Snapshot, n: nat)
    requires WellFormed(s) && n <= |Shelves|
    ensures forall k :: 0 <= k < n ==> ShelfSettled(FixShelves(s, n).store, Shelves[k])
  {
    if n > 0 {
      ListedKeys();
      var o1 := FixShelves(s, n - 1);
      var shelf := Shelves[n - 1];
      FixShelvesSettle(s, n - 1);
      FixShelfSettles(o1.store, shelf, shelf);
      forall k | 0 <= k < n - 1
        ensures ShelfSettled(FixShelves(s, n).store, Shelves[k])
      {
        FixShelfSettles(o1.store, shelf, Shelves[k]);
      }
    }
  }

  /** Every rack and every shelf settled is I1, I2 and I3. */
  lemma SettledConsistent(s: Snapshot)
    requires WellFormed(s)
    requires forall k :: 0 <= k < |Racks| ==> RackSettled(s, Racks[k])
    requires forall k :: 0 <= k < |Shelves| ==> ShelfSettled(s, Shelves[k])
    ensures Consistent(s)
  {
    forall rack | rack in s.rgbs
      ensures RackSettled(s, rack)
    {
      RackPosition(rack);
    }
    forall shelf | shelf in s.leds
      ensures ShelfSettled(s, shelf)
    {
      ShelfPosition(shelf);
    }
  }

  /** After fix_conflicts the dummy store satisfies I1, I2 and I3, whatever the replay left in it. */
  lemma ReconcileConsistent(s: Snapshot)
    requires WellFormed(s)
    ensures Consistent(Reconcile(s).store)
  {
    var racks := FixRacks(s, |Racks|);
    var shelves := FixShelves(racks.store, |Shelves|);
    FixRacksSettle(s, |Racks|);
    FixShelvesApplies(racks.store, |Shelves|);
    forall k | 0 <= k < |Racks|
      ensures RackSettled(shelves.store, Racks[k])
    {
      ApplyAllKeepsRack(racks.store, shelves.fixes, Racks[k]);
    }
    FixShelvesSettle(racks.store, |Shelves|);
    SettledConsistent(shelves.store);
  }

  // ---------------------------------------------------------------- fix_conflicts: quiet and idempotent

  lemma FixRackQuiet(s: Snapshot, rack: string)
    requires WellFormed(s) && Consistent(s) && rack in RackIds
    ensures FixRack(s, rack) == Outcome(s, [])
  {
    SharedShelfOf(rack);
    assert SlotsClaimed(s) && ColorsAtRest(s);
  }

  lemma {:induction false} FixRacksQuiet(s: Snapshot, n: nat)
    requires WellFormed(s) && Consistent(s) && n <= |Racks|
    ensures FixRacks(s, n) == Outcome(s, [])
  {
    if n > 0 {
      FixRacksNext(s, n - 1);
      FixRacksQuiet(s, n - 1);
      FixRackQuiet(s, Racks[n - 1]);
      assert FixRacks(s, n) == Outcome(s, [] + []);
    }
  }

  lemma {:induction false} FixShelvesQuiet(s: Snapshot, n: nat)
    requires WellFormed(s) && Consistent(s) && n <= |Shelves|
    ensures FixShelves(s, n) == Outcome(s, [])
  {
    if n > 0 {
      ListedKeys();
      FixShelvesQuiet(s, n - 1);
    }
  }

  /** fix_conflicts publishes nothing exactly when the dummy store already satisfies
      I1, I2 and I3, and then it changes nothing. */
  lemma ReconcileQuiet(s: Snapshot)
    requires WellFormed(s)
    ensures Reconcile(s).fixes == [] <==> Consistent(s)
    ensures Consistent(s) ==> Reconcile(s).store == s
  {
    if Consistent(s) {
      FixRacksQuiet(s, |Racks|);
      FixShelvesQuiet(s, |Shelves|);
    }
    if Reconcile(s).fixes == [] {
      ReconcileApplies(s);
      ReconcileConsistent(s);
    }
  }

  /** A second fix_conflicts publishes nothing and changes nothing. */
  lemma ReconcileIdempotent(s: Snapshot)
    requires WellFormed(s)
    ensures var t := Reconcile(s).store; Reconcile(t) == Outcome(t, [])
  {
    var t := Reconcile(s).store;
    ReconcileConsistent(s);
    ReconcileQuiet(t);
  }

  // ---------------------------------------------------------------- fix_conflicts: each repair once

  /** Every correction was needed when it was made: it did not hold yet. */
  predicate Needed(s: Snapshot, cs: seq<Correction>) {
    forall i :: 0 <= i < |cs| ==> !Holds(ApplyAll(s, cs[..i]), cs[i])
  }

  lemma NeededAppend(s: Snapshot, a: seq<Correction>, b: seq<Correction>)
    requires Needed(s, a) && Needed(ApplyAll(s, a), b)
    ensures Needed(s, a + b)
  {
    forall i | 0 <= i < |a + b|
      ensures !Holds(ApplyAll(s, (a + b)[..i]), (a + b)[i])
    {
      if i < |a| {
        assert (a + b)[..i] == a[..i];
      } else {
        assert (a + b)[..i] == a + b[..i - |a|];
        ApplyAllAppend(s, a, b[..i - |a|]);
      }
    }
  }

  lemma FixRackNeeded(s: Snapshot, rack: string)
    requires WellFormed(s) && rack in RackIds
    ensures Needed(s, FixRack(s, rack).fixes)
  {
    SharedShelfOf(rack);
    var shelf := SharedShelf(rack);
    var fixes := FixRack(s, rack).fixes;
    assert ApplyAll(s, fixes[..0]) == s;
    if s.rgbs[rack].override && s.leds[shelf].override {
      var s1 := Applied(s, ShelfOff(shelf));
      if s1.leds[shelf].brightness != 0 {
        assert fixes == [ShelfOff(shelf), ShelfZero(shelf)];
        assert fixes[..1] == [ShelfOff(shelf)];
        ApplyOne(s, ShelfOff(shelf));
        assert !Holds(ApplyAll(s, fixes[..1]), fixes[1]);
      }
    }
  }

  lemma {:induction false} FixRacksNeeded(s: Snapshot, n: nat)
    requires WellFormed(s) && n <= |Racks|
    ensures Needed(s, FixRacks(s, n).fixes)
  {
    if n > 0 {
      ListedKeys();
      var o1 := FixRacks(s, n - 1);
      FixRacksNeeded(s, n - 1);
      FixRacksApplies(s, n - 1);
      FixRackNeeded(o1.store, Racks[n - 1]);
      NeededAppend(s, o1.fixes, FixRack(o1.store, Racks[n - 1]).fixes);
    }
  }

  lemma FixShelfNeeded(s: Snapshot, shelf: string)
    requires WellFormed(s) && shelf in ShelfIds
    ensures Needed(s, FixShelf(s, shelf).fixes)
  {
    var fixes := FixShelf(s, shelf).fixes;
    assert ApplyAll(s, fixes[..0]) == s;
  }

  lemma {:induction false} FixShelvesNeeded(s: Snapshot, n: nat)
    requires WellFormed(s) && n <= |Shelves|
    ensures Needed(s, FixShelves(s, n).fixes)
  {
    if n > 0 {
      ListedKeys();
      var o1 := FixShelves(s, n - 1);
      FixShelvesNeeded(s, n - 1);
      FixShelvesApplies(s, n - 1);
      FixShelfNeeded(o1.store, Shelves[n - 1]);
      NeededAppend(s, o1.fixes, FixShelf(o1.store, Shelves[n - 1]).fixes);
    }
  }

  /** Corrections that were each needed are pairwise distinct: an earlier one still holds. */
  lemma NeededOnce(s: Snapshot, cs: seq<Correction>)
    requires WellFormed(s) && (forall c :: c in cs ==> OnKey(c)) && Needed(s, cs)
    ensures forall i, j :: 0 <= i < j < |cs| ==> cs[i] != cs[j]
  {
    forall i, j | 0 <= i < j < |cs|
      ensures cs[i] != cs[j]
    {
      var init := cs[..j];
      assert forall c :: c in init ==> c in cs;
      ApplyAllHolds(s, init);
      assert cs[i] in init;
    }
  }

  /** fix_conflicts makes no repair that was not needed, and none twice: each
      correction is published once and applied once. */
  lemma ReconcileOnce(s: Snapshot)
    requires WellFormed(s)
    ensures Needed(s, Reconcile(s).fixes)
    ensures var cs := Reconcile(s).fixes; forall i, j :: 0 <= i < j < |cs| ==> cs[i] != cs[j]
  {
    var racks := FixRacks(s, |Racks|);
    FixRacksNeeded(s, |Racks|);
    FixRacksApplies(s, |Racks|);
    FixShelvesNeeded(racks.store, |Shelves|);
    NeededAppend(s, racks.fixes, FixShelves(racks.store, |Shelves|).fixes);
    ReconcileApplies(s);
    NeededOnce(s, Reconcile(s).fixes);
  }

  // ---------------------------------------------------------------- live commands

  /** A live command, as on_listening reads it from a message; Unrouted is a
      message it drops (an empty topic, other than three levels, an unknown
      pair of first levels, or a brightness int() rejects). */
  datatype Request =
    | ResetLed(shelf: string)
    | SwitchLed(shelf: string, on: bool)
    | DimLed(shelf: string, value: int)
    | ResetRgb(rack: string)
    | SwitchRgb(rack: string, on: bool)
    | PaintRgb(rack: string, color: string)
    | Unrouted

  /** on_listening's routing: control payloads compare with 'True', brightness goes through int(). */
  function ListenRequest(rootLen: nat, m: Message): Request {
    if m.topic == "" then Unrouted
    else
      var levels := Levels(m.topic, rootLen);
      var msg := Text(m);
      if |levels| != 3 then Unrouted
      else if levels[0] == "led" then LedRequest(levels[1], levels[2], msg)
      else if levels[0] == "rgb" then RgbRequest(levels[1], levels[2], msg)
      else Unrouted
  }

  /** The led/<action>/<shelf> commands. */
  function LedRequest(action: string, shelf: string, msg: string): Request {
    if action == "reset" then ResetLed(shelf)
    else if action == "control" then SwitchLed(shelf, msg == "True")
    else if action == "brightness" then
      match ParseInt(msg)
      case None => Unrouted
      case Some(v) => DimLed(shelf, v)
    else Unrouted
  }

  /** The rgb/<action>/<rack> commands. */
  function RgbRequest(action: string, rack: string, msg: string): Request {
    if action == "reset" then ResetRgb(rack)
    else if action == "control" then SwitchRgb(rack, msg == "True")
    else if action == "color" then PaintRgb(rack, msg)
    else Unrouted
  }

  /** A topic that does not have exactly three levels below the root is no command. */
  lemma ListenNeedsThreeLevels(rootLen: nat, m: Message)
    requires |Levels(m.topic, rootLen)| != 3
    ensures ListenRequest(rootLen, m) == Unrouted
  {
  }

  /** The live store after a command, and what the command published. */
  datatype Reply = Reply(store: Snapshot, out: seq<Publish>)

  /** led_reset: publish control False and brightness 0 for the shelf. */
  function LedResetReply(root: string, s: Snapshot, shelf: string): Reply {
    Reply(s, [LedControlPublish(root, shelf, false), LedBrightnessPublish(root, shelf, 0)])
  }

  /** led_control: switching a shelf on is refused (and answered with control
      False) when its name holds '3' and the rack of its first letter has RGB
      override; switching it off first zeroes its brightness, publishing that. */
  function LedControlReply(root: string, s: Snapshot, shelf: string, control: bool): (r: Reply)
    ensures r.store.rgbs == s.rgbs && r.store.leds.Keys == s.leds.Keys
    ensures forall k :: k in s.leds && k != shelf ==> r.store.leds[k] == s.leds[k]
  {
    if control then
      if '3' in shelf then
        var rack := [shelf[0]];
        if rack !in s.rgbs then Reply(s, [])
        else if s.rgbs[rack].override then Reply(s, [LedControlPublish(root, shelf, false)])
        else Reply(SetLedControl(s, shelf, BoolToString(control)), [])
      else Reply(SetLedControl(s, shelf, BoolToString(control)), [])
    else if shelf !in s.leds then Reply(s, [])
    else if s.leds[shelf].brightness != 0 then
      Reply(SetLedControl(SetLedBrightness(s, shelf, 0), shelf, BoolToString(control)),
            [LedBrightnessPublish(root, shelf, 0)])
    else Reply(SetLedControl(s, shelf, BoolToString(control)), [])
  }

  /** led_brightness: a nonzero brightness for a shelf without override is
      refused and answered with brightness 0. */
  function LedBrightnessReply(root: string, s: Snapshot, shelf: string, brightness: int): (r: Reply)
    ensures r.store.rgbs == s.rgbs && r.store.leds.Keys == s.leds.Keys
    ensures forall k :: k in s.leds ==> r.store.leds[k].override == s.leds[k].override
    ensures forall k :: k in s.leds && k != shelf ==> r.store.leds[k] == s.leds[k]
  {
    if shelf !in s.leds then Reply(s, [])
    else if !s.leds[shelf].override && brightness != 0 then Reply(s, [LedBrightnessPublish(root, shelf, 0)])
    else Reply(SetLedBrightness(s, shelf, brightness), [])
  }

  /** rgb_reset: publish control False and the default colour for the rack. */
  function RgbResetReply(root: string, s: Snapshot, rack: string): Reply {
    Reply(s, [RgbControlPublish(root, rack, false), RgbColorPublish(root, rack, RgbDefault)])
  }

  /** rgb_control: switching on resets the shared shelf if it is on; switching
      off publishes the default colour if the colour is not black; then the
      override is stored either way. */
  function RgbControlReply(root: string, s: Snapshot, rack: string, control: bool): (r: Reply)
    ensures r.store.leds == s.leds && r.store.rgbs.Keys == s.rgbs.Keys
    ensures forall k :: k in s.rgbs ==> r.store.rgbs[k].color == s.rgbs[k].color
    ensures forall k :: k in s.rgbs && k != rack ==> r.store.rgbs[k] == s.rgbs[k]
  {
    if control then
      var shelf := rack + "3";
      if shelf !in s.leds then Reply(s, [])
      else
        var out := if s.leds[shelf].override then LedResetReply(root, s, shelf).out else [];
        Reply(SetRgbControl(s, rack, BoolToString(control)), out)
    else if rack !in s.rgbs then Reply(s, [])
    else
      var color := s.rgbs[rack].color;
      var out := if color.r != 0 || color.g != 0 || color.b != 0 then [RgbColorPublish(root, rack, RgbDefault)] else [];
      Reply(SetRgbControl(s, rack, BoolToString(control)), out)
  }

  /** The handler chosen for a command; a colour request changes the store only
      later, when its listener commits (CommitReply). */
  function Listen(root: string, s: Snapshot, req: Request): (r: Reply)
    ensures r.store.leds.Keys == s.leds.Keys && r.store.rgbs.Keys == s.rgbs.Keys
    ensures !req.SwitchRgb? ==> r.store.rgbs == s.rgbs
    ensures req.ResetLed? || req.ResetRgb? || req.PaintRgb? ==> r.store == s
  {
    match req
    case ResetLed(shelf) => LedResetReply(root, s, shelf)
    case SwitchLed(shelf, on) => LedControlReply(root, s, shelf, on)
    case DimLed(shelf, value) => LedBrightnessReply(root, s, shelf, value)
    case ResetRgb(rack) => RgbResetReply(root, s, rack)
    case SwitchRgb(rack, on) => RgbControlReply(root, s, rack, on)
    case PaintRgb(_, _) => Reply(s, [])
    case Unrouted => Reply(s, [])
  }

  /** The colour-request bookkeeping: last_color, currently_listening, and the
      rack given to the listener thread most recently started. */
  datatype Tracker = Tracker(lastColor: Option<string>, listening: bool, worker: Option<string>)

  /** rgb_color: a colour equal to the stored text is ignored; otherwise it
      becomes last_color as rack/colour, and a listener for the rack is started
      unless one is already running. */
  function ColorRequest(s: Snapshot, t: Tracker, rack: string, color: string): (r: Tracker)
    ensures t.listening ==> r.listening && r.worker == t.worker
    ensures r != t ==> r.listening && r.lastColor == Some(rack + "/" + color)
  {
    if rack !in s.rgbs || color == s.rgbs[rack].text then t
    else
      var last := Some(rack + "/" + color);
      if t.listening then t.(lastColor := last) else Tracker(last, true, Some(rack))
  }

  /** How a command moves the colour-request bookkeeping: only a colour request does. */
  function ListenTracking(s: Snapshot, t: Tracker, req: Request): Tracker {
    if req.PaintRgb? then ColorRequest(s, t, req.rack, req.color) else t
  }

  /** The commit at the end of rgb_color_thread: the colour after the rack
      prefix is stored, except that a rack without override is forced to the
      default colour, which is then published. */
  function CommitReply(root: string, s: Snapshot, rack: string, tracking: string): (r: Reply)
    ensures r.store.leds == s.leds && r.store.rgbs.Keys == s.rgbs.Keys
    ensures forall k :: k in s.rgbs ==> r.store.rgbs[k].override == s.rgbs[k].override
    ensures forall k :: k in s.rgbs && k != rack ==> r.store.rgbs[k] == s.rgbs[k]
  {
    var raw := Drop(tracking, 2);
    if rack !in s.rgbs then Reply(s, [])
    else if !s.rgbs[rack].override && raw != RgbDefault
    then Reply(SetRgbColor(s, rack, RgbDefault), [RgbColorPublish(root, rack, RgbDefault)])
    else Reply(SetRgbColor(s, rack, raw), [])
  }

  // ---------------------------------------------------------------- live commands: properties

  /** No shelf whose name lacks '3', and no shelf whose first letter names a rack
      without override, is claimed by a rack. */
  lemma UnclaimedShelf(s: Snapshot, shelf: string)
    requires WellFormed(s)
    requires '3' !in shelf || [shelf[0]] !in s.rgbs || !s.rgbs[[shelf[0]]].override
    ensures forall rack :: rack in s.rgbs && s.rgbs[rack].override ==> SharedShelf(rack) != shelf
  {
    forall rack | rack in s.rgbs && s.rgbs[rack].override
      ensures SharedShelf(rack) != shelf
    {
      SharedShelfOf(rack);
    }
  }

  /** led_control keeps I1 on every shelf, and I2 and I3 where they held. */
  lemma LedControlKeepsInvariants(root: string, s: Snapshot, shelf: string, control: bool)
    requires WellFormed(s)
    ensures var t := LedControlReply(root, s, shelf, control).store;
      && WellFormed(t) && t.rgbs == s.rgbs
      && (LedsAtRest(s) ==> LedsAtRest(t))
      && (Consistent(s) ==> Consistent(t))
  {
    BoolToStringIsTrue(control);
    var t := LedControlReply(root, s, shelf, control).store;
    if control && t != s {
      UnclaimedShelf(s, shelf);
    }
  }

  /** led_brightness keeps I1 on every shelf, and I2 and I3 where they held. */
  lemma LedBrightnessKeepsInvariants(root: string, s: Snapshot, shelf: string, brightness: int)
    requires WellFormed(s)
    ensures var t := LedBrightnessReply(root, s, shelf, brightness).store;
      && WellFormed(t) && t.rgbs == s.rgbs
      && (LedsAtRest(s) ==> LedsAtRest(t))
      && (Consistent(s) ==> Consistent(t))
  {
  }

  /** led_control(shelf, False) leaves the shelf at [False, 0], publishing the
      brightness only if it had to be zeroed, and changes no other entry. */
  lemma LedControlOff(root: string, s: Snapshot, shelf: string)
    requires shelf in s.leds
    ensures var r := LedControlReply(root, s, shelf, false);
      && r.store.leds == s.leds[shelf := Dark] && r.store.rgbs == s.rgbs
      && r.out == if s.leds[shelf].brightness != 0 then [LedBrightnessPublish(root, shelf, 0)] else []
  {
    BoolToStringIsTrue(false);
  }

  /** Switching on the shared shelf of a rack with RGB override is refused: the
      store stays as it is and exactly one correction, control False, is published. */
  lemma LedControlRefused(root: string, s: Snapshot, rack: string)
    requires WellFormed(s) && rack in RackIds && s.rgbs[rack].override
    ensures LedControlReply(root, s, SharedShelf(rack), true)
         == Reply(s, [LedControlPublish(root, SharedShelf(rack), false)])
  {
    SharedShelfOf(rack);
  }

  /** Switching on a shelf that is not a third shelf is always accepted: the
      override is stored and nothing is published, whatever the racks say. */
  lemma LedControlAccepted(root: string, s: Snapshot, shelf: string)
    requires shelf in s.leds && '3' !in shelf
    ensures LedControlReply(root, s, shelf, true)
         == Reply(s.(leds := s.leds[shelf := s.leds[shelf].(override := true)]), [])
  {
  }

  /** A nonzero brightness for a shelf without override is refused: the store
      stays as it is and exactly one correction, brightness 0, is published. */
  lemma LedBrightnessRefused(root: string, s: Snapshot, shelf: string, brightness: int)
    requires shelf in s.leds && !s.leds[shelf].override && brightness != 0
    ensures LedBrightnessReply(root, s, shelf, brightness) == Reply(s, [LedBrightnessPublish(root, shelf, 0)])
  {
  }

  /** Every delivered publication of a reply replayed, in order, into a store. */
  function ReplayAll(s: Snapshot, rootLen: nat, ps: seq<Publish>): (r: Snapshot)
    ensures r.leds.Keys == s.leds.Keys && r.rgbs.Keys == s.rgbs.Keys
  {
    if ps == [] then s else ApplyRetained(ReplayAll(s, rootLen, ps[..|ps| - 1]), rootLen, Delivered(ps[|ps| - 1]))
  }

  /** led_reset touches no store; its two publications, read back as retained
      messages, put the shelf at [False, 0] and nothing else. */
  lemma LedResetRestores(root: string, s: Snapshot, shelf: string)
    requires shelf in s.leds && shelf in ShelfIds
    ensures var r := LedResetReply(root, s, shelf);
      && r.store == s && |r.out| == 2
      && ReplayAll(s, |root|, r.out) == s.(leds := s.leds[shelf := Dark])
  {
    var fixes := [ShelfOff(shelf), ShelfZero(shelf)];
    LedResetPublishes(root, s, shelf);
    RetainedCorrections(s, root, fixes);
    ShelfRests(s, shelf);
  }

  lemma LedResetPublishes(root: string, s: Snapshot, shelf: string)
    ensures LedResetReply(root, s, shelf).out == Publications(root, [ShelfOff(shelf), ShelfZero(shelf)])
  {
  }

  /** Control False then brightness 0 is [False, 0]. */
  lemma ShelfRests(s: Snapshot, shelf: string)
    requires shelf in s.leds
    ensures ApplyAll(s, [ShelfOff(shelf), ShelfZero(shelf)]) == s.(leds := s.leds[shelf := Dark])
  {
    ApplyTwo(s, ShelfOff(shelf), ShelfZero(shelf));
    ShelfOffThenZero(s, shelf);
  }

  lemma ShelfOffThenZero(s: Snapshot, shelf: string)
    requires shelf in s.leds
    ensures Applied(Applied(s, ShelfOff(shelf)), ShelfZero(shelf)) == s.(leds := s.leds[shelf := Dark])
  {
    BoolToStringIsTrue(false);
    var s1 := s.(leds := s.leds[shelf := s.leds[shelf].(override := false)]);
    assert Applied(s, ShelfOff(shelf)) == s1;
    assert Applied(s1, ShelfZero(shelf)) == s1.(leds := s1.leds[shelf := Dark]);
    assert s1.leds[shelf := Dark] == s.leds[shelf := Dark];
  }

  /** The retained publications of a run of corrections, replayed, apply them. */
  lemma {:induction false} RetainedCorrections(s: Snapshot, root: string, cs: seq<Correction>)
    requires forall c :: c in cs ==> OnKey(c)
    ensures ReplayAll(s, |root|, Publications(root, cs)) == ApplyAll(s, cs)
  {
    if cs != [] {
      var init := cs[..|cs| - 1];
      assert Publications(root, cs)[..|cs| - 1] == Publications(root, init);
      assert forall c :: c in init ==> c in cs;
      RetainedCorrections(s, root, init);
      RetainedCorrection(ApplyAll(s, init), root, cs[|cs| - 1]);
    }
  }

  lemma ReplayTwo(s: Snapshot, rootLen: nat, ps: seq<Publish>)
    requires |ps| == 2
    ensures ReplayAll(s, rootLen, ps)
         == ApplyRetained(ApplyRetained(s, rootLen, Delivered(ps[0])), rootLen, Delivered(ps[1]))
  {
    var first := ps[..1];
    assert first[..0] == [] && first[0] == ps[0];
    assert ReplayAll(s, rootLen, first) == ApplyRetained(s, rootLen, Delivered(ps[0]));
  }

  /** rgb_reset touches no store; its two publications, read back as retained
      messages, put the rack at override False with the default colour (0, 0, 0). */
  lemma RgbResetRestores(root: string, s: Snapshot, rack: string)
    requires rack in s.rgbs && IsLevel(rack)
    ensures var r := RgbResetReply(root, s, rack);
      && r.store == s && |r.out| == 2
      && ReplayAll(s, |root|, r.out) == s.(rgbs := s.rgbs[rack := Rgb(false, Black, RgbDefault)])
  {
    var out := RgbResetReply(root, s, rack).out;
    ReplayTwo(s, |root|, out);
    RgbControlRetained(s, root, rack);
    var s1 := SetRgbControl(s, rack, "False");
    assert out[1] == Publication(root, ColorReset(rack));
    RetainedColorReset(s1, root, rack);
    RackRests(s, rack);
  }

  lemma RgbControlRetained(s: Snapshot, root: string, rack: string)
    requires IsLevel(rack)
    ensures ApplyRetained(s, |root|, Delivered(RgbControlPublish(root, rack, false))) == SetRgbControl(s, rack, "False")
  {
    PublishReadsBack(root, "rgb", "control", rack, RgbControlPublish(root, rack, false));
  }

  /** Override False then the default colour is [False, (0, 0, 0)]. */
  lemma RackRests(s: Snapshot, rack: string)
    requires rack in s.rgbs
    ensures Applied(SetRgbControl(s, rack, "False"), ColorReset(rack)) == s.(rgbs := s.rgbs[rack := Rgb(false, Black, RgbDefault)])
  {
    BoolToStringIsTrue(false);
    var x := s.rgbs[rack].(override := false);
    var s1 := s.(rgbs := s.rgbs[rack := x]);
    assert SetRgbControl(s, rack, "False") == s1;
    DefaultColor(x);
    RgbDefaultIsStoreDefault();
    assert WithColor(x, RgbDefault) == Rgb(false, Black, RgbDefault);
    assert s1.rgbs[rack := Rgb(false, Black, RgbDefault)] == s.rgbs[rack := Rgb(false, Black, RgbDefault)];
  }

  /** rgb_control stores the requested override whatever the shelves say and never
      changes leds: switching on only publishes a reset of the shared shelf if it
      is on; switching off only publishes the default colour if the colour is not black. */
  lemma RgbControlEffect(root: string, s: Snapshot, rack: string, control: bool)
    requires WellFormed(s) && rack in RackIds
    ensures var r := RgbControlReply(root, s, rack, control);
      var shelf := SharedShelf(rack);
      && shelf in s.leds && r.store.leds == s.leds
      && r.store.rgbs == s.rgbs[rack := s.rgbs[rack].(override := control)]
      && r.out == (if control
                   then (if s.leds[shelf].override then LedResetReply(root, s, shelf).out else [])
                   else (if s.rgbs[rack].color != Black then [RgbColorPublish(root, rack, RgbDefault)] else []))
  {
    SharedShelfOf(rack);
    BoolToStringIsTrue(control);
  }

  /** Every live command other than rgb/control keeps the store well formed and
      keeps I1, I2 and I3 if they held. */
  lemma ListenKeepsConsistent(root: string, s: Snapshot, req: Request)
    requires WellFormed(s) && Consistent(s) && !req.SwitchRgb?
    ensures WellFormed(Listen(root, s, req).store) && Consistent(Listen(root, s, req).store)
  {
    match req
    case SwitchLed(shelf, on) => LedControlKeepsInvariants(root, s, shelf, on);
    case DimLed(shelf, value) => LedBrightnessKeepsInvariants(root, s, shelf, value);
    case _ =>
  }

  /** A colour request equal to the stored text, or for an unknown rack, changes nothing. */
  lemma ColorRequestIgnored(s: Snapshot, t: Tracker, rack: string, color: string)
    requires rack in s.rgbs ==> color == s.rgbs[rack].text
    ensures ColorRequest(s, t, rack, color) == t
  {
  }

  /** Otherwise last_color is rack/colour, so for a one-letter rack last_color[2:]
      is the colour; a listener runs afterwards, and a new one follows this rack. */
  lemma ColorRequestTracks(s: Snapshot, t: Tracker, rack: string, color: string)
    requires rack in s.rgbs && color != s.rgbs[rack].text && |rack| == 1
    ensures var u := ColorRequest(s, t, rack, color);
      && u.lastColor.Some? && Drop(u.lastColor.value, 2) == color && u.lastColor.value[..1] == rack
      && u.listening
      && u.worker == (if t.listening then t.worker else Some(rack))
  {
    var last := rack + "/" + color;
    assert last[2..] == color;
    assert last[..1] == rack;
  }

  /** The commit stores the default colour whenever the rack has no override and
      the requested colour is not the default (and publishes it); otherwise it
      stores the requested colour. Only that rack's colour and text can change. */
  lemma CommitEffect(root: string, s: Snapshot, rack: string, tracking: string)
    requires rack in s.rgbs
    ensures var r := CommitReply(root, s, rack, tracking);
      var raw := Drop(tracking, 2);
      var x := s.rgbs[rack];
      var stored := if !x.override && raw != RgbDefault then RgbDefault else raw;
      && r.store == s.(rgbs := s.rgbs[rack := WithColor(x, stored)])
      && r.store.rgbs[rack].override == x.override
      && r.out == (if stored != raw then [RgbColorPublish(root, rack, RgbDefault)] else [])
  {
  }

  /** The commit keeps the store well formed and keeps I1, I2 and I3 if they held:
      a rack without override always ends with colour (0, 0, 0). */
  lemma CommitKeepsConsistent(root: string, s: Snapshot, rack: string, tracking: string)
    requires WellFormed(s) && Consistent(s)
    ensures WellFormed(CommitReply(root, s, rack, tracking).store)
    ensures Consistent(CommitReply(root, s, rack, tracking).store)
  {
    if rack in s.rgbs {
      CommitEffect(root, s, rack, tracking);
      var x := s.rgbs[rack];
      var raw := Drop(tracking, 2);
      var stored := if !x.override && raw != RgbDefault then RgbDefault else raw;
      if !x.override {
        DefaultColor(x);
        RgbDefaultIsStoreDefault();
      }
      ColorChangeKeepsConsistent(s, rack, WithColor(x, stored));
    }
  }

  /** A new colour for a rack, keeping its override, and black if the override is off,
      keeps I1, I2 and I3. */
  lemma ColorChangeKeepsConsistent(s: Snapshot, rack: string, y: Rgb)
    requires WellFormed(s) && Consistent(s) && rack in s.rgbs
    requires y.override == s.rgbs[rack].override && (!y.override ==> y.color == Black)
    ensures var t := s.(rgbs := s.rgbs[rack := y]); WellFormed(t) && Consistent(t)
  {
  }

  /** The commit of the rack/colour value a colour request leaves in last_color
      (ColorRequestTracks) stores the requested colour on a rack with override,
      and on any rack when the colour is the default. */
  lemma CommitOfRequest(root: string, s: Snapshot, rack: string, color: string)
    requires rack in s.rgbs && |rack| == 1
    requires s.rgbs[rack].override || color == RgbDefault
    ensures CommitReply(root, s, rack, rack + "/" + color) == Reply(SetRgbColor(s, rack, color), [])
  {
    assert Drop(rack + "/" + color, 2) == color;
  }

  // ---------------------------------------------------------------- reconnect back-off

  /** What the client reports about the link: a CONNACK with its return code
      (section 3.2.2.3 of MQTT 3.1.1, 0 meaning accepted), or a lost connection. */
  datatype LinkEvent = ConnAck(rc: int) | Dropped

  /** on_connect resets the reconnect delay to 60 on success and doubles it on a
      refused connection; on_disconnect doubles it. */
  function NextDelay(delay: int, e: LinkEvent): (d: int)
    ensures e == ConnAck(0) ==> d == 60
    ensures Failure(e) ==> d == 2 * delay
    ensures delay >= 60 ==> d >= 60
  {
    match e
    case ConnAck(rc) => if rc == 0 then 60 else delay * 2
    case Dropped => delay * 2
  }

  /** The delay after a run of link events. */
  function DelayAfter(delay: int, es: seq<LinkEvent>): int
    decreases |es|
  {
    if es == [] then delay else DelayAfter(NextDelay(delay, es[0]), es[1..])
  }

  predicate Failure(e: LinkEvent) {
    e != ConnAck(0)
  }

  function Pow2(n: nat): (p: nat)
    ensures p >= 1
  {
    if n == 0 then 1 else 2 * Pow2(n - 1)
  }

  /** Every failure doubles the delay: n failures multiply it by 2^n. */
  lemma {:induction false} BackoffDoubles(delay: int, es: seq<LinkEvent>)
    requires forall i :: 0 <= i < |es| ==> Failure(es[i])
    ensures DelayAfter(delay, es) == delay * Pow2(|es|)
    decreases |es|
  {
    if es != [] {
      BackoffDoubles(delay * 2, es[1..]);
    }
  }

  lemma {:induction false} DelayAfterAppend(delay: int, a: seq<LinkEvent>, b: seq<LinkEvent>)
    ensures DelayAfter(delay, a + b) == DelayAfter(DelayAfter(delay, a), b)
    decreases |a|
  {
    if a == [] {
      assert a + b == b;
    } else {
      assert (a + b)[1..] == a[1..] + b;
      DelayAfterAppend(NextDelay(delay, a[0]), a[1..], b);
    }
  }

  /** A successful connection forgets every earlier failure: after it, the delay is
      60 doubled once per later failure (60 becomes 480 after three). */
  lemma BackoffResets(delay: int, before: seq<LinkEvent>, after: seq<LinkEvent>)
    requires forall i :: 0 <= i < |after| ==> Failure(after[i])
    ensures DelayAfter(delay, before + [ConnAck(0)] + after) == 60 * Pow2(|after|)
  {
    DelayAfterAppend(delay, before + [ConnAck(0)], after);
    DelayAfterAppend(delay, before, [ConnAck(0)]);
    BackoffDoubles(60, after);
  }

  /** Starting from 60, three failures in a row give 480, and a success brings it back to 60. */
  lemma BackoffExample()
    ensures DelayAfter(60, [ConnAck(5), Dropped, Dropped]) == 480
    ensures DelayAfter(60, [ConnAck(5), Dropped, Dropped, ConnAck(0)]) == 60
  {
    BackoffDoubles(60, [ConnAck(5), Dropped, Dropped]);
    BackoffResets(60, [ConnAck(5), Dropped, Dropped], []);
    assert [ConnAck(5), Dropped, Dropped] + [ConnAck(0)] + [] == [ConnAck(5), Dropped, Dropped, ConnAck(0)];
  }

  lemma PublicationsOne(root: string, c: Correction)
    ensures Publications(root, [c]) == [Publication(root, c)]
  {
  }

  /** A log that grew by the publications of two runs of corrections in turn. */
  lemma LogExtends(root: string, p0: seq<Publish>, p1: seq<Publish>, p2: seq<Publish>, a: seq<Correction>, b: seq<Correction>)
    requires p1 == p0 + Publications(root, a) && p2 == p1 + Publications(root, b)
    ensures p2 == p0 + Publications(root, a + b)
  {
    PublicationsAppend(root, a, b);
  }

  /** One more rack visited by the first loop of fix_conflicts. */
  lemma FixRacksNext(s: Snapshot, i: nat)
    requires WellFormed(s) && i < |Racks|
    ensures Racks[i] in RackIds
    ensures var o := FixRacks(s, i); var step := FixRack(o.store, Racks[i]);
      FixRacks(s, i + 1) == Outcome(step.store, o.fixes + step.fixes)
  {
    ListedKeys();
  }

  /** One more shelf visited by the second loop of fix_conflicts. */
  lemma FixShelvesNext(s: Snapshot, j: nat)
    requires WellFormed(s) && j < |Shelves|
    ensures Shelves[j] in ShelfIds
    ensures var o := FixShelves(s, j); var step := FixShelf(o.store, Shelves[j]);
      FixShelves(s, j + 1) == Outcome(step.store, o.fixes + step.fixes)
  {
    ListedKeys();
  }

  // ---------------------------------------------------------------- class Connection

  /** The controller's side of the MQTT session. `published` logs every call of
      client.publish; `worker` is the rack handed to the colour listener thread
      most recently started; `reconnectDelay` is the happyfish reconnect_delay the
      callbacks update; `timeEnded` is the time of the last disconnect, read from
      a clock the caller supplies. */
  class Connection {
    const root: string
    const rootLen: nat
    const settings: Settings
    var dummy: Settings?
    var stage: Stage
    var published: seq<Publish>
    var establishedConnection: bool
    var isConnecting: bool
    var failedConnection: bool
    var connectionClosed: bool
    var timeEnded: Option<real>
    var reconnectDelay: int
    var lastColor: Option<string>
    var currentlyListening: bool
    var worker: Option<string>

    predicate Valid()
      reads this, settings, dummy
    {
      && rootLen == |root|
      && settings.Valid()
      && dummy != settings
      && (dummy != null ==> dummy.Valid())
      && (stage == Retained ==> dummy != null)
    }

    /** The colour-request bookkeeping as a value. */
    function Tracking(): Tracker
      reads this
    {
      Tracker(lastColor, currentlyListening, worker)
    }

    /** Connection.__init__; the initial reconnect delay belongs to the caller. */
    constructor (email: string, live: Settings, initialDelay: int)
      requires live.Valid()
      ensures Valid()
      ensures root == Root(email) && rootLen == |root| && settings == live && dummy == null
      ensures stage == Ignore && published == []
      ensures !establishedConnection && !isConnecting && !failedConnection && !connectionClosed
      ensures timeEnded == None && reconnectDelay == initialDelay
      ensures Tracking() == Tracker(None, false, None)
    {
      root := Root(email);
      rootLen := |Root(email)|;
      settings := live;
      dummy := null;
      stage := Ignore;
      published := [];
      establishedConnection := false;
      isConnecting := false;
      failedConnection := false;
      connectionClosed := false;
      timeEnded := None;
      reconnectDelay := initialDelay;
      lastColor := None;
      currentlyListening := false;
      worker := None;
    }

    // ------------------------------------------------ link callbacks

    method OnConnect(rc: int)
      modifies this`isConnecting, this`establishedConnection, this`failedConnection, this`reconnectDelay
      ensures !isConnecting
      ensures establishedConnection == (rc == 0)
      ensures failedConnection == (rc != 0 || old(failedConnection))
      ensures reconnectDelay == NextDelay(old(reconnectDelay), ConnAck(rc))
    {
      isConnecting := false;
      if rc == 0 {
        establishedConnection := true;
        reconnectDelay := 60;
      } else {
        establishedConnection := false;
        failedConnection := true;
        reconnectDelay := reconnectDelay * 2;
      }
    }

    /** on_disconnect; its return code is only logged. */
    method OnDisconnect(rc: int, now: real)
      modifies this`reconnectDelay, this`connectionClosed, this`timeEnded
      ensures reconnectDelay == NextDelay(old(reconnectDelay), Dropped)
      ensures connectionClosed && timeEnded == Some(now)
    {
      reconnectDelay := reconnectDelay * 2;
      connectionClosed := true;
      timeEnded := Some(now);
    }

    // ------------------------------------------------ publishing

    method PublishLedControl(shelf: string, control: bool)
      modifies this`published
      ensures published == old(published) + [LedControlPublish(root, shelf, control)]
    {
      published := published + [Publish(LedControlTopic(root) + shelf, BoolToString(control), 0, true)];
    }

    method PublishLedBrightness(shelf: string, value: int)
      modifies this`published
      ensures published == old(published) + [LedBrightnessPublish(root, shelf, value)]
    {
      published := published + [Publish(LedBrightnessTopic(root) + shelf, IntToString(value), 0, true)];
    }

    method PublishRgbControl(rack: string, control: bool)
      modifies this`published
      ensures published == old(published) + [RgbControlPublish(root, rack, control)]
    {
      published := published + [Publish(RgbControlTopic(root) + rack, BoolToString(control), 0, true)];
    }

    method PublishRgbColor(rack: string, color: string)
      modifies this`published
      ensures published == old(published) + [RgbColorPublish(root, rack, color)]
    {
      published := published + [Publish(RgbColorTopic(root) + rack, color, 0, true)];
    }

    // ------------------------------------------------ established

    /** The first half of established: stage Retained and a fresh dummy store, into
        which the broker's retained messages are then replayed by on_message. */
    method Establish()
      requires Valid()
      modifies this`stage, this`dummy
      ensures Valid() && stage == Retained
      ensures fresh(dummy) && dummy.Model() == Initial()
    {
      stage := Retained;
      dummy := new Settings();
    }

    /** The second half of established: stage Ignore while fix_conflicts runs, then
        stage Listening with the dummy dictionaries copied into the live store. */
    method GoLive()
      requires Valid() && dummy != null
      modifies this`stage, this`published, dummy, settings
      ensures Valid() && stage == Listening
      ensures var o := Reconcile(old(dummy.Model()));
        && dummy.Model() == o.store && settings.Model() == o.store
        && published == old(published) + Publications(root, o.fixes)
    {
      stage := Ignore;
      FixConflicts();
      stage := Listening;
      settings.leds := dummy.leds;
      settings.rgbs := dummy.rgbs;
    }

    /** established as a whole, with `replay` the retained messages delivered while
        the stage is Retained. */
    method Established(replay: seq<Message>)
      requires Valid()
      modifies this`stage, this`dummy, this`published, this`lastColor, this`currentlyListening, this`worker, settings
      ensures Valid() && stage == Listening
      ensures var o := Reconcile(Replay(Initial(), rootLen, replay));
        && settings.Model() == o.store
        && published == old(published) + Publications(root, o.fixes)
    {
      Establish();
      ReplayRetained(replay);
      GoLive();
    }

    /** The retained messages delivered, in order, through on_message while the stage is Retained.
        The loop stands for the MQTT client's network thread delivering the broker's
        retained messages during the settle window; connection.py has no such loop. */
    method ReplayRetained(replay: seq<Message>)
      requires Valid() && stage == Retained
      modifies this`published, this`lastColor, this`currentlyListening, this`worker, settings, dummy
      ensures Valid() && unchanged(this) && unchanged(settings)
      ensures dummy.Model() == Replay(old(dummy.Model()), rootLen, replay)
    {
      ghost var s0 := dummy.Model();
      var k := 0;
      while k < |replay|
        invariant 0 <= k <= |replay|
        invariant Valid() && unchanged(this) && unchanged(settings)
        invariant dummy.Model() == Replay(s0, rootLen, replay[..k])
      {
        OnMessage(replay[k]);
        assert replay[..k + 1][..k] == replay[..k];
        k := k + 1;
      }
      assert replay[..k] == replay;
    }

    /** fix_conflicts: the racks, then the shelves, each repair published and then
        applied to the dummy store. */
    method FixConflicts()
      requires dummy != null && dummy.Valid()
      modifies this`published, dummy
      ensures dummy.Valid()
      ensures var o := Reconcile(old(dummy.Model()));
        dummy.Model() == o.store && published == old(published) + Publications(root, o.fixes)
    {
      ghost var s0 := dummy.Model();
      FixRacksInPlace();
      ghost var racks := FixRacks(s0, |Racks|);
      ghost var p := published;
      FixShelvesInPlace();
      LogExtends(root, old(published), p, published, racks.fixes, FixShelves(racks.store, |Shelves|).fixes);
    }

    /** The rack loop of fix_conflicts. */
    method FixRacksInPlace()
      requires dummy != null && dummy.Valid()
      modifies this`published, dummy
      ensures dummy.Valid()
      ensures var o := FixRacks(old(dummy.Model()), |Racks|);
        dummy.Model() == o.store && published == old(published) + Publications(root, o.fixes)
    {
      ghost var s0 := dummy.Model();
      ghost var fixes: seq<Correction> := [];
      var i := 0;
      while i < |Racks|
        invariant 0 <= i <= |Racks| && dummy.Valid()
        invariant FixRacks(s0, i) == Outcome(dummy.Model(), fixes)
        invariant published == old(published) + Publications(root, fixes)
      {
        ghost var cur := dummy.Model();
        FixRacksNext(s0, i);
        ghost var step := FixRack(cur, Racks[i]).fixes;
        ghost var p := published;
        FixRackInPlace(Racks[i]);
        LogExtends(root, old(published), p, published, fixes, step);
        fixes := fixes + step;
        i := i + 1;
      }
    }

    /** The shelf loop of fix_conflicts. */
    method FixShelvesInPlace()
      requires dummy != null && dummy.Valid()
      modifies this`published, dummy
      ensures dummy.Valid()
      ensures var o := FixShelves(old(dummy.Model()), |Shelves|);
        dummy.Model() == o.store && published == old(published) + Publications(root, o.fixes)
    {
      ghost var s0 := dummy.Model();
      ghost var fixes: seq<Correction> := [];
      var j := 0;
      while j < |Shelves|
        invariant 0 <= j <= |Shelves| && dummy.Valid()
        invariant FixShelves(s0, j) == Outcome(dummy.Model(), fixes)
        invariant published == old(published) + Publications(root, fixes)
      {
        ghost var cur := dummy.Model();
        FixShelvesNext(s0, j);
        ghost var step := FixShelf(cur, Shelves[j]).fixes;
        ghost var p := published;
        FixShelfInPlace(Shelves[j]);
        LogExtends(root, old(published), p, published, fixes, step);
        fixes := fixes + step;
        j := j + 1;
      }
    }

    /** One iteration of the rack loop of fix_conflicts. */
    method FixRackInPlace(rack: string)
      requires dummy != null && dummy.Valid() && rack in RackIds
      modifies this`published, dummy
      ensures dummy.Valid()
      ensures var o := FixRack(old(dummy.Model()), rack);
        dummy.Model() == o.store && published == old(published) + Publications(root, o.fixes)
    {
      if dummy.rgbs[rack].override {
        ClearSharedShelf(rack);
      } else {
        var color := dummy.rgbs[rack].color;
        if color.r != 0 || color.g != 0 || color.b != 0 {
          Correct(ColorReset(rack));
        }
      }
    }

    /** A rack with override: its shared shelf is switched off, then zeroed. */
    method ClearSharedShelf(rack: string)
      requires dummy != null && dummy.Valid() && rack in RackIds && dummy.rgbs[rack].override
      modifies this`published, dummy
      ensures dummy.Valid()
      ensures var o := FixRack(old(dummy.Model()), rack);
        dummy.Model() == o.store && published == old(published) + Publications(root, o.fixes)
    {
      SharedShelfOf(rack);
      ghost var s := dummy.Model();
      var shelf := rack + "3";
      ghost var first: seq<Correction> := [];
      if dummy.leds[shelf].override == true {
        Correct(ShelfOff(shelf));
        first := [ShelfOff(shelf)];
      }
      ghost var mid := published;
      if dummy.leds[shelf].brightness != 0 {
        Correct(ShelfZero(shelf));
        LogExtends(root, old(published), mid, published, first, [ShelfZero(shelf)]);
        assert FixRack(s, rack).fixes == first + [ShelfZero(shelf)];
      } else {
        assert FixRack(s, rack).fixes == first;
      }
    }

    /** One iteration of the shelf loop of fix_conflicts. */
    method FixShelfInPlace(shelf: string)
      requires dummy != null && dummy.Valid() && shelf in ShelfIds
      modifies this`published, dummy
      ensures dummy.Valid()
      ensures var o := FixShelf(old(dummy.Model()), shelf);
        dummy.Model() == o.store && published == old(published) + Publications(root, o.fixes)
    {
      if !dummy.leds[shelf].override {
        if dummy.leds[shelf].brightness != 0 {
          Correct(ShelfZero(shelf));
        }
      }
    }

    /** A repair of fix_conflicts: published first, then applied to the dummy store. */
    method Correct(c: Correction)
      requires dummy != null && dummy.Valid()
      modifies this`published, dummy
      ensures dummy.Valid()
      ensures dummy.Model() == Applied(old(dummy.Model()), c)
      ensures published == old(published) + Publications(root, [c])
    {
      PublicationsOne(root, c);
      match c
      case ShelfOff(shelf) =>
        PublishLedControl(shelf, false);
        var _ := dummy.LedControl(shelf, BoolToString(false));
      case ShelfZero(shelf) =>
        PublishLedBrightness(shelf, 0);
        var _ := dummy.LedBrightness(shelf, 0);
      case ColorReset(rack) =>
        PublishRgbColor(rack, RgbDefault);
        var _ := dummy.RgbColor(rack, RgbDefault);
    }

    // ------------------------------------------------ message routing

    /** on_message: the stage picks the handler. In Ignore the message is only logged. */
    method OnMessage(m: Message)
      requires Valid()
      modifies this`published, this`lastColor, this`currentlyListening, this`worker, settings, dummy
      ensures Valid()
      ensures stage == Ignore ==>
        && unchanged(settings) && unchanged(this) && (dummy != null ==> unchanged(dummy))
      ensures stage == Retained ==>
        && dummy.Model() == ApplyRetained(old(dummy.Model()), rootLen, m)
        && unchanged(settings) && unchanged(this)
      ensures stage == Listening ==>
        var r := Listen(root, old(settings.Model()), ListenRequest(rootLen, m));
        && settings.Model() == r.store && published == old(published) + r.out
        && Tracking() == ListenTracking(old(settings.Model()), old(Tracking()), ListenRequest(rootLen, m))
        && (dummy != null ==> unchanged(dummy))
    {
      if stage == Retained {
        OnRetained(m);
      }
      if stage == Listening {
        OnListening(m);
      }
    }

    /** on_retained: the message is written into the dummy store; exceptions are caught. */
    method OnRetained(m: Message)
      modifies dummy
      ensures dummy != null ==> dummy.Model() == ApplyRetained(old(dummy.Model()), rootLen, m)
    {
      if dummy == null || m.topic == "" {
        return;
      }
      var topics := Levels(m.topic, rootLen);
      var msg := Text(m);
      if |topics| == 3 {
        if topics[0] == "led" {
          if topics[1] == "control" {
            var _ := dummy.LedControl(topics[2], msg);
          } else if topics[1] == "brightness" {
            var value := ParseInt(msg);
            if value.Some? {
              var _ := dummy.LedBrightness(topics[2], value.value);
            }
          }
        } else if topics[0] == "rgb" {
          if topics[1] == "control" {
            var _ := dummy.RgbControl(topics[2], msg);
          } else if topics[1] == "color" {
            var _ := dummy.RgbColor(topics[2], msg);
          }
        }
      }
    }

    /** on_listening: the message is routed to a command handler on the live store. */
    method OnListening(m: Message)
      requires Valid()
      modifies this`published, this`lastColor, this`currentlyListening, this`worker, settings
      ensures Valid()
      ensures var r := Listen(root, old(settings.Model()), ListenRequest(rootLen, m));
        && settings.Model() == r.store && published == old(published) + r.out
        && Tracking() == ListenTracking(old(settings.Model()), old(Tracking()), ListenRequest(rootLen, m))
    {
      if m.topic == "" {
        return;
      }
      var topics := Levels(m.topic, rootLen);
      var msg := Text(m);
      if |topics| == 3 {
        if topics[0] == "led" {
          OnLedCommand(topics[1], topics[2], msg);
        } else if topics[0] == "rgb" {
          OnRgbCommand(topics[1], topics[2], msg);
        }
      }
    }

    method OnLedCommand(action: string, shelf: string, msg: string)
      requires Valid()
      modifies this`published, settings
      ensures Valid()
      ensures var r := Listen(root, old(settings.Model()), LedRequest(action, shelf, msg));
        settings.Model() == r.store && published == old(published) + r.out
    {
      if action == "reset" {
        LedReset(shelf);
      } else if action == "control" {
        LedControl(shelf, msg == "True");
      } else if action == "brightness" {
        var value := ParseInt(msg);
        if value.Some? {
          LedBrightness(shelf, value.value);
        }
      }
    }

    method OnRgbCommand(action: string, rack: string, msg: string)
      requires Valid()
      modifies this`published, this`lastColor, this`currentlyListening, this`worker, settings
      ensures Valid()
      ensures var r := Listen(root, old(settings.Model()), RgbRequest(action, rack, msg));
        && settings.Model() == r.store && published == old(published) + r.out
        && Tracking() == ListenTracking(old(settings.Model()), old(Tracking()), RgbRequest(action, rack, msg))
    {
      if action == "reset" {
        RgbReset(rack);
      } else if action == "control" {
        RgbControl(rack, msg == "True");
      } else if action == "color" {
        RgbColor(rack, msg);
      }
    }

    // ------------------------------------------------ command handlers

    method LedReset(shelf: string)
      modifies this`published
      ensures published == old(published) + LedResetReply(root, settings.Model(), shelf).out
    {
      PublishLedControl(shelf, false);
      PublishLedBrightness(shelf, 0);
    }

    method LedControl(shelf: string, control: bool)
      requires Valid()
      modifies this`published, settings
      ensures Valid()
      ensures var r := LedControlReply(root, old(settings.Model()), shelf, control);
        settings.Model() == r.store && published == old(published) + r.out
    {
      if control {
        if '3' in shelf {
          var rack := [shelf[0]];
          if rack !in settings.rgbs {
            return;
          }
          if settings.rgbs[rack].override {
            PublishLedControl(shelf, false);
          } else {
            var _ := settings.LedControl(shelf, BoolToString(control));
          }
        } else {
          var _ := settings.LedControl(shelf, BoolToString(control));
        }
      } else {
        if shelf !in settings.leds {
          return;
        }
        if settings.leds[shelf].brightness != 0 {
          var _ := settings.LedBrightness(shelf, 0);
          PublishLedBrightness(shelf, 0);
        }
        var _ := settings.LedControl(shelf, BoolToString(control));
      }
    }

    method LedBrightness(shelf: string, brightness: int)
      requires Valid()
      modifies this`published, settings
      ensures Valid()
      ensures var r := LedBrightnessReply(root, old(settings.Model()), shelf, brightness);
        settings.Model() == r.store && published == old(published) + r.out
    {
      if shelf !in settings.leds {
        return;
      }
      if !settings.leds[shelf].override && brightness != 0 {
        PublishLedBrightness(shelf, 0);
      } else {
        var _ := settings.LedBrightness(shelf, brightness);
      }
    }

    method RgbReset(rack: string)
      modifies this`published
      ensures published == old(published) + RgbResetReply(root, settings.Model(), rack).out
    {
      PublishRgbControl(rack, false);
      PublishRgbColor(rack, RgbDefault);
    }

    method RgbControl(rack: string, control: bool)
      requires Valid()
      modifies this`published, settings
      ensures Valid()
      ensures var r := RgbControlReply(root, old(settings.Model()), rack, control);
        settings.Model() == r.store && published == old(published) + r.out
    {
      if control {
        var shelf := rack + "3";
        if shelf !in settings.leds {
          return;
        }
        if settings.leds[shelf].override {
          LedReset(shelf);
        }
      } else {
        if rack !in settings.rgbs {
          return;
        }
        var color := settings.rgbs[rack].color;
        if color.r != 0 || color.g != 0 || color.b != 0 {
          PublishRgbColor(rack, RgbDefault);
        }
      }
      var _ := settings.RgbControl(rack, BoolToString(control));
    }

    /** rgb_color: records the request; the listener thread is represented by `worker`. */
    method RgbColor(rack: string, color: string)
      modifies this`lastColor, this`currentlyListening, this`worker
      ensures Tracking() == ColorRequest(settings.Model(), old(Tracking()), rack, color)
    {
      if rack !in settings.rgbs || color == settings.rgbs[rack].text {
        return;
      }
      lastColor := Some(rack + "/" + color);
      if !currentlyListening {
        worker := Some(rack);
        currentlyListening := true;
      }
    }

    /** The end of rgb_color_thread, once its debounce loop has settled on `tracking`. */
    method RgbColorCommit(rack: string, tracking: string)
      requires Valid()
      modifies this`currentlyListening, this`published, settings
      ensures Valid() && !currentlyListening
      ensures var r := CommitReply(root, old(settings.Model()), rack, tracking);
        settings.Model() == r.store && published == old(published) + r.out
    {
      currentlyListening := false;
      var rawColor := Drop(tracking, 2);
      if rack !in settings.rgbs {
        return;
      }
      if !settings.rgbs[rack].override && rawColor != RgbDefault {
        var _ := settings.RgbColor(rack, RgbDefault);
        PublishRgbColor(rack, RgbDefault);
      } else {
        var _ := settings.RgbColor(rack, rawColor);
      }
    }
  }
}
