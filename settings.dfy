/** The in-memory model of the lights (settings.py): one entry per shelf
    holding [override, brightness] and one per rack holding
    [override, [r, g, b], colour text]. The pure functions below give every
    mutation its meaning on a value; class Settings makes the same
    mutations in place and is proved against them. */
module SettingsStore {
  import opened PyText

  /** leds[shelf] = [override, brightness] */
  datatype Led = Led(override: bool, brightness: int)

  datatype Color = Color(r: int, g: int, b: int)

  /** rgbs[rack] = [override, [r, g, b], colour text] */
  datatype Rgb = Rgb(override: bool, color: Color, text: string)

  /** The two dictionaries of a store, as values. */
  datatype Snapshot = Snapshot(leds: map<string, Led>, rgbs: map<string, Rgb>)

  /** The dictionaries' keys, in their insertion order (the order Python iterates them). */
  const Shelves: seq<string> := ["A1", "A2", "A3", "B1", "B2", "B3", "C1", "C2", "C3"]
  const Racks: seq<string> := ["A", "B", "C"]
  const ShelfIds: set<string> := {"A1", "A2", "A3", "B1", "B2", "B3", "C1", "C2", "C3"}
  const RackIds: set<string> := {"A", "B", "C"}

  /** The colour every rack starts with and is reset to. */
  const DefaultColorText: string := "RGBA(0,0,0, 255)"
  const Black: Color := Color(0, 0, 0)
  const Dark: Led := Led(false, 0)

  lemma ShelfPosition(shelf: string)
    requires shelf in ShelfIds
    ensures exists k :: 0 <= k < |Shelves| && Shelves[k] == shelf
  {
    assert shelf in Shelves;
  }

  lemma RackPosition(rack: string)
    requires rack in RackIds
    ensures exists k :: 0 <= k < |Racks| && Racks[k] == rack
  {
    assert rack in Racks;
  }

  /** Shelf 3 of a rack is the slot its RGB fixture shares. */
  function SharedShelf(rack: string): string {
    rack + "3"
  }

  /** Each rack shares the third shelf of its own letter, and no two racks share one. */
  lemma SharedShelfOf(rack: string)
    requires rack in RackIds
    ensures SharedShelf(rack) in ShelfIds && '3' in SharedShelf(rack)
    ensures [SharedShelf(rack)[0]] == rack
    ensures forall other :: other in RackIds && other != rack ==> SharedShelf(other) != SharedShelf(rack)
  {
    if rack == "A" {
      assert SharedShelf(rack) == "A3";
    } else if rack == "B" {
      assert SharedShelf(rack) == "B3";
    } else {
      assert SharedShelf(rack) == "C3";
    }
    forall other | other in RackIds && other != rack
      ensures SharedShelf(other) != SharedShelf(rack)
    {
      assert SharedShelf(other)[0] != SharedShelf(rack)[0];
    }
  }

  /** Both dictionaries have exactly the installation's keys. */
  predicate WellFormed(s: Snapshot) {
    s.leds.Keys == ShelfIds && s.rgbs.Keys == RackIds
  }

  /** I1: a shelf without override has brightness 0. */
  predicate LedsAtRest(s: Snapshot) {
    forall shelf :: shelf in s.leds && !s.leds[shelf].override ==> s.leds[shelf].brightness == 0
  }

  /** I2: a rack whose RGB override is on holds its shared shelf at [False, 0]. */
  predicate SlotsClaimed(s: Snapshot) {
    forall rack :: rack in s.rgbs && s.rgbs[rack].override ==>
      SharedShelf(rack) in s.leds && s.leds[SharedShelf(rack)] == Dark
  }

  /** I3: a rack whose RGB override is off has colour (0, 0, 0). */
  predicate ColorsAtRest(s: Snapshot) {
    forall rack :: rack in s.rgbs && !s.rgbs[rack].override ==> s.rgbs[rack].color == Black
  }

  predicate Consistent(s: Snapshot) {
    LedsAtRest(s) && SlotsClaimed(s) && ColorsAtRest(s)
  }

  /** The store Settings.__init__ builds. */
  function Initial(): Snapshot {
    var off := Rgb(false, Black, DefaultColorText);
    Snapshot(
      map["A1" := Dark, "A2" := Dark, "A3" := Dark,
          "B1" := Dark, "B2" := Dark, "B3" := Dark,
          "C1" := Dark, "C2" := Dark, "C3" := Dark],
      map["A" := off, "B" := off, "C" := off])
  }

  /** A fresh store has the installation's keys, every shelf [False, 0], every rack
      [False, [0, 0, 0], 'RGBA(0,0,0, 255)'], and so satisfies I1, I2 and I3. */
  lemma InitialConsistent()
    ensures WellFormed(Initial()) && Consistent(Initial())
    ensures forall shelf :: shelf in Initial().leds ==> Initial().leds[shelf] == Led(false, 0)
    ensures forall rack :: rack in Initial().rgbs ==>
      Initial().rgbs[rack] == Rgb(false, Color(0, 0, 0), "RGBA(0,0,0, 255)")
  {
  }

  // ------------------------------------------------------------ raw setters

  /** led_control: leds[shelf][0] = (str(control) == 'True'); a missing shelf is a KeyError. */
  function SetLedControl(s: Snapshot, shelf: string, control: string): (r: Snapshot)
    ensures r.leds.Keys == s.leds.Keys && r.rgbs == s.rgbs
  {
    if shelf in s.leds then s.(leds := s.leds[shelf := s.leds[shelf].(override := control == "True")])
    else s
  }

  /** led_brightness: leds[shelf][1] = brightness, with no range check. */
  function SetLedBrightness(s: Snapshot, shelf: string, brightness: int): (r: Snapshot)
    ensures r.leds.Keys == s.leds.Keys && r.rgbs == s.rgbs
  {
    if shelf in s.leds then s.(leds := s.leds[shelf := s.leds[shelf].(brightness := brightness)])
    else s
  }

  /** rgb_control: rgbs[rack][0] = (str(control) == 'True'). */
  function SetRgbControl(s: Snapshot, rack: string, control: string): (r: Snapshot)
    ensures r.rgbs.Keys == s.rgbs.Keys && r.leds == s.leds
  {
    if rack in s.rgbs then s.(rgbs := s.rgbs[rack := s.rgbs[rack].(override := control == "True")])
    else s
  }

  /** The comma-separated fields rgb_color reads: color[5:len(color)-1].split(','). */
  function ColorFields(text: string): (fields: seq<string>)
    ensures |fields| >= 1
  {
    Split(Slice(text, 5, |text| - 1), ',')
  }

  /** All three channel fields are present and are numbers: rgb_color then runs to the end. */
  predicate ColorParses(text: string) {
    var f := ColorFields(text);
    |f| >= 3 && ParseInt(f[0]).Some? && ParseInt(f[1]).Some? && ParseInt(f[2]).Some?
  }

  /** An rgbs entry after rgb_color(rack, text): the channels are written one at a
      time, each as soon as its field parses, and the text only after all three;
      a missing or non-numeric field raises and ends the update where it stands. */
  function WithColor(x: Rgb, text: string): (r: Rgb)
    ensures r.override == x.override
  {
    var f := ColorFields(text);
    match ParseInt(f[0])
    case None => x
    case Some(r) =>
      var x1 := x.(color := x.color.(r := r));
      if |f| < 2 then x1
      else match ParseInt(f[1])
      case None => x1
      case Some(g) =>
        var x2 := x1.(color := x1.color.(g := g));
        if |f| < 3 then x2
        else match ParseInt(f[2])
        case None => x2
        case Some(b) => x2.(color := x2.color.(b := b), text := text)
  }

  /** rgb_color on the store: the rack's entry becomes WithColor of it; a missing
      rack is a KeyError. No override, and no other rack or shelf, changes. */
  function SetRgbColor(s: Snapshot, rack: string, color: string): (r: Snapshot)
    ensures r.rgbs.Keys == s.rgbs.Keys && r.leds == s.leds
    ensures forall k :: k in s.rgbs ==> r.rgbs[k].override == s.rgbs[k].override
    ensures forall k :: k in s.rgbs && k != rack ==> r.rgbs[k] == s.rgbs[k]
  {
    if rack in s.rgbs then s.(rgbs := s.rgbs[rack := WithColor(s.rgbs[rack], color)]) else s
  }

  /** turnAllOff: every shelf [True, 0], every rack override False, colours untouched. */
  function ForcedDark(s: Snapshot): (r: Snapshot)
    ensures r.leds.Keys == s.leds.Keys && r.rgbs.Keys == s.rgbs.Keys
  {
    Snapshot(map shelf | shelf in s.leds :: Led(true, 0),
             map rack | rack in s.rgbs :: s.rgbs[rack].(override := false))
  }

  // ------------------------------------------------------------ properties of the setters

  /** led_control stores True exactly for the text 'True' and touches nothing but leds[shelf][0]. */
  lemma LedControlEffect(s: Snapshot, shelf: string, control: string)
    requires shelf in s.leds
    ensures var t := SetLedControl(s, shelf, control);
      && t.rgbs == s.rgbs && t.leds.Keys == s.leds.Keys
      && (t.leds[shelf].override <==> control == "True")
      && t.leds[shelf].brightness == s.leds[shelf].brightness
      && forall other :: other in s.leds && other != shelf ==> t.leds[other] == s.leds[other]
  {
  }

  /** led_brightness stores the value as given and touches nothing but leds[shelf][1]. */
  lemma LedBrightnessEffect(s: Snapshot, shelf: string, brightness: int)
    requires shelf in s.leds
    ensures var t := SetLedBrightness(s, shelf, brightness);
      && t.rgbs == s.rgbs && t.leds.Keys == s.leds.Keys
      && t.leds[shelf] == Led(s.leds[shelf].override, brightness)
      && forall other :: other in s.leds && other != shelf ==> t.leds[other] == s.leds[other]
  {
  }

  /** rgb_control stores True exactly for the text 'True' and touches nothing but rgbs[rack][0]. */
  lemma RgbControlEffect(s: Snapshot, rack: string, control: string)
    requires rack in s.rgbs
    ensures var t := SetRgbControl(s, rack, control);
      && t.leds == s.leds && t.rgbs.Keys == s.rgbs.Keys
      && (t.rgbs[rack].override <==> control == "True")
      && t.rgbs[rack].color == s.rgbs[rack].color && t.rgbs[rack].text == s.rgbs[rack].text
      && forall other :: other in s.rgbs && other != rack ==> t.rgbs[other] == s.rgbs[other]
  {
  }

  /** The text an 'RGBA(r,g,b,alpha)' message carries, with decimal channels. */
  function ColorText(r: int, g: int, b: int, alpha: string): string {
    "RGBA(" + ColorInner(r, g, b, alpha) + ")"
  }

  lemma NoComma(n: int)
    ensures ',' !in IntToString(n)
  {
  }

  /** The piece rgb_color slices out of 'RGBA(' + inner + ')'. */
  lemma SliceInner(inner: string)
    ensures Slice("RGBA(" + inner + ")", 5, |"RGBA(" + inner + ")"| - 1) == inner
  {
    var text := "RGBA(" + inner + ")";
    assert text[5..|text| - 1] == inner;
  }

  /** The comma-separated text between 'RGBA(' and ')'. */
  function ColorInner(r: int, g: int, b: int, alpha: string): string {
    IntToString(r) + [','] + (IntToString(g) + [','] + (IntToString(b) + [','] + alpha))
  }

  lemma ColorTextInner(r: int, g: int, b: int, alpha: string)
    ensures ColorFields(ColorText(r, g, b, alpha)) == Split(ColorInner(r, g, b, alpha), ',')
  {
    SliceInner(ColorInner(r, g, b, alpha));
  }

  /** The fields of 'RGBA(r,g,b,alpha)' start with the numerals of r, g and b. */
  lemma {:induction false} ColorTextFields(r: int, g: int, b: int, alpha: string)
    ensures ColorFields(ColorText(r, g, b, alpha))
         == [IntToString(r), IntToString(g), IntToString(b)] + Split(alpha, ',')
  {
    var sr, sg, sb := IntToString(r), IntToString(g), IntToString(b);
    var tail := sb + [','] + alpha;
    var mid := sg + [','] + tail;
    ColorTextInner(r, g, b, alpha);
    NoComma(r);
    NoComma(g);
    NoComma(b);
    SplitFirst(sb, alpha, ',');
    SplitFirst(sg, tail, ',');
    SplitFirst(sr, mid, ',');
    assert Split(sr + [','] + mid, ',') == [sr] + ([sg] + ([sb] + Split(alpha, ',')));
  }

  /** rgb_color on 'RGBA(r,g,b,alpha)' runs to the end, stores [r, g, b] and the
      text verbatim and ignores alpha, whatever it is. */
  lemma {:induction false} ColorTextParses(x: Rgb, r: int, g: int, b: int, alpha: string)
    ensures ColorParses(ColorText(r, g, b, alpha))
    ensures WithColor(x, ColorText(r, g, b, alpha)) == Rgb(x.override, Color(r, g, b), ColorText(r, g, b, alpha))
  {
    ColorTextFields(r, g, b, alpha);
    ParseIntToString(r);
    ParseIntToString(g);
    ParseIntToString(b);
  }

  /** rgb_color on 'RGBA(r,g,b,alpha)' changes nothing but that rack's colour and text. */
  lemma RgbColorEffect(s: Snapshot, rack: string, r: int, g: int, b: int, alpha: string)
    requires rack in s.rgbs
    ensures var text := ColorText(r, g, b, alpha);
      var t := SetRgbColor(s, rack, text);
      && t.leds == s.leds && t.rgbs.Keys == s.rgbs.Keys
      && t.rgbs[rack] == Rgb(s.rgbs[rack].override, Color(r, g, b), text)
      && forall other :: other in s.rgbs && other != rack ==> t.rgbs[other] == s.rgbs[other]
  {
    ColorTextParses(s.rgbs[rack], r, g, b, alpha);
  }

  /** The default text is 'RGBA(0,0,0, 255)' in that form. */
  lemma DefaultIsColorText()
    ensures DefaultColorText == ColorText(0, 0, 0, " 255")
  {
    assert IntToString(0) == "0";
  }

  /** rgb_color('RGBA(0,0,0, 255)') yields the default triple [0, 0, 0]. */
  lemma DefaultColor(x: Rgb)
    ensures ColorParses(DefaultColorText)
    ensures WithColor(x, DefaultColorText) == Rgb(x.override, Color(0, 0, 0), DefaultColorText)
  {
    DefaultIsColorText();
    ColorTextParses(x, 0, 0, 0, " 255");
  }

  /** A second channel that is not a number raises after the first channel has been
      written: the rack keeps the new red, its old green and blue, and its old text. */
  lemma {:induction false} RgbColorBadSecond(x: Rgb, r: int, bad: string, rest: string)
    requires ParseInt(bad).None? && ',' !in bad
    ensures !ColorParses("RGBA(" + IntToString(r) + "," + bad + "," + rest + ")")
    ensures WithColor(x, "RGBA(" + IntToString(r) + "," + bad + "," + rest + ")")
         == x.(color := x.color.(r := r))
  {
    var sr := IntToString(r);
    var inner := sr + [','] + (bad + [','] + rest);
    assert "RGBA(" + IntToString(r) + "," + bad + "," + rest + ")" == "RGBA(" + inner + ")";
    SliceInner(inner);
    NoComma(r);
    SplitFirst(bad, rest, ',');
    SplitFirst(sr, bad + [','] + rest, ',');
    ParseIntToString(r);
  }

  /** A third channel that is not a number raises after red and green have been
      written: the rack keeps the new red and green, its old blue and its old text. */
  lemma {:induction false} RgbColorBadThird(x: Rgb, r: int, g: int, bad: string, rest: string)
    requires ParseInt(bad).None? && ',' !in bad
    ensures !ColorParses("RGBA(" + IntToString(r) + "," + IntToString(g) + "," + bad + "," + rest + ")")
    ensures WithColor(x, "RGBA(" + IntToString(r) + "," + IntToString(g) + "," + bad + "," + rest + ")")
         == x.(color := x.color.(r := r, g := g))
  {
    ThirdField(r, g, bad, rest);
    ParseIntToString(r);
    ParseIntToString(g);
  }

  /** The fields of such a text: red, green, the bad third one, then the rest. */
  lemma ThirdField(r: int, g: int, bad: string, rest: string)
    requires ',' !in bad
    ensures var f := ColorFields("RGBA(" + IntToString(r) + "," + IntToString(g) + "," + bad + "," + rest + ")");
      |f| >= 3 && f[0] == IntToString(r) && f[1] == IntToString(g) && f[2] == bad
  {
    var sr, sg := IntToString(r), IntToString(g);
    var tail := bad + [','] + rest;
    var mid := sg + [','] + tail;
    var inner := sr + [','] + mid;
    assert "RGBA(" + IntToString(r) + "," + IntToString(g) + "," + bad + "," + rest + ")" == "RGBA(" + inner + ")";
    SliceInner(inner);
    NoComma(r);
    NoComma(g);
    SplitFirst(bad, rest, ',');
    SplitFirst(sg, tail, ',');
    SplitFirst(sr, mid, ',');
  }

  /** A text too short to hold 'RGBA(' and ')' around anything writes nothing. */
  lemma RgbColorShort(x: Rgb, text: string)
    requires |text| <= 6
    ensures !ColorParses(text) && WithColor(x, text) == x
  {
    assert Slice(text, 5, |text| - 1) == "";
    ParseIntBlank("");
  }

  /** turnAllOff makes every shelf [True, 0] and every rack override False,
      leaves colours and texts alone, and a second call changes nothing. */
  lemma ForcedDarkEffect(s: Snapshot)
    ensures var t := ForcedDark(s);
      && t.leds.Keys == s.leds.Keys && t.rgbs.Keys == s.rgbs.Keys
      && (forall shelf :: shelf in t.leds ==> t.leds[shelf] == Led(true, 0))
      && (forall rack :: rack in t.rgbs ==>
            && !t.rgbs[rack].override
            && t.rgbs[rack].color == s.rgbs[rack].color && t.rgbs[rack].text == s.rgbs[rack].text)
      && ForcedDark(t) == t
      && LedsAtRest(t) && SlotsClaimed(t)
  {
    var t := ForcedDark(s);
    assert ForcedDark(t).leds == t.leds;
    assert ForcedDark(t).rgbs == t.rgbs;
  }

  /** After the shelf loop of turnAllOff: every shelf has been visited. */
  lemma ShelvesCovered(before: map<string, Led>, after: map<string, Led>)
    requires before.Keys == ShelfIds && after.Keys == before.Keys
    requires forall k :: 0 <= k < |Shelves| ==> after[Shelves[k]] == Led(true, 0)
    ensures after == map shelf | shelf in before :: Led(true, 0)
  {
    forall shelf | shelf in after
      ensures after[shelf] == Led(true, 0)
    {
      ShelfPosition(shelf);
    }
  }

  /** After the rack loop of turnAllOff: every rack has been visited. */
  lemma RacksCovered(before: map<string, Rgb>, after: map<string, Rgb>)
    requires before.Keys == RackIds && after.Keys == before.Keys
    requires forall rack :: rack in after ==> after[rack] == before[rack].(override := after[rack].override)
    requires forall k :: 0 <= k < |Racks| ==> !after[Racks[k]].override
    ensures after == map rack | rack in before :: before[rack].(override := false)
  {
    forall rack | rack in after
      ensures after[rack] == before[rack].(override := false)
    {
      RackPosition(rack);
    }
  }

  // ------------------------------------------------------------ the store object

  /** class Settings: the two dictionaries as fields that every method rewrites in place. */
  class Settings {
    var leds: map<string, Led>
    var rgbs: map<string, Rgb>

    function Model(): Snapshot
      reads this
    {
      Snapshot(leds, rgbs)
    }

    predicate Valid()
      reads this
    {
      WellFormed(Model())
    }

    constructor ()
      ensures Model() == Initial() && Valid()
    {
      var off := Rgb(false, Black, DefaultColorText);
      leds := map["A1" := Dark, "A2" := Dark, "A3" := Dark,
                  "B1" := Dark, "B2" := Dark, "B3" := Dark,
                  "C1" := Dark, "C2" := Dark, "C3" := Dark];
      rgbs := map["A" := off, "B" := off, "C" := off];
    }

    /** turnAllOff: a loop over each dictionary writing single fields. */
    method TurnAllOff()
      requires Valid()
      modifies this
      ensures Valid() && Model() == ForcedDark(old(Model()))
    {
      DarkenShelves();
      ReleaseRacks();
    }

    /** The first loop of turnAllOff: every shelf becomes [True, 0]. */
    method DarkenShelves()
      requires Valid()
      modifies this
      ensures Valid()
      ensures leds == map shelf | shelf in old(leds) :: Led(true, 0)
      ensures rgbs == old(rgbs)
    {
      var i := 0;
      while i < |Shelves|
        invariant 0 <= i <= |Shelves|
        invariant leds.Keys == old(leds).Keys && rgbs == old(rgbs)
        invariant forall k :: 0 <= k < i ==> leds[Shelves[k]] == Led(true, 0)
      {
        var shelf := Shelves[i];
        leds := leds[shelf := leds[shelf].(override := true)];
        leds := leds[shelf := leds[shelf].(brightness := 0)];
        i := i + 1;
      }
      ShelvesCovered(old(leds), leds);
    }

    /** The second loop of turnAllOff: every rack override becomes False. */
    method ReleaseRacks()
      requires Valid()
      modifies this
      ensures Valid()
      ensures rgbs == map rack | rack in old(rgbs) :: old(rgbs)[rack].(override := false)
      ensures leds == old(leds)
    {
      var j := 0;
      while j < |Racks|
        invariant 0 <= j <= |Racks|
        invariant rgbs.Keys == old(rgbs).Keys && leds == old(leds)
        invariant forall rack :: rack in rgbs ==> rgbs[rack] == old(rgbs)[rack].(override := rgbs[rack].override)
        invariant forall k :: 0 <= k < j ==> !rgbs[Racks[k]].override
      {
        var rack := Racks[j];
        rgbs := rgbs[rack := rgbs[rack].(override := false)];
        j := j + 1;
      }
      RacksCovered(old(rgbs), rgbs);
    }

    /** led_control; ok is false where Python raises KeyError. */
    method LedControl(shelf: string, control: string) returns (ok: bool)
      modifies this
      ensures ok == (shelf in old(leds))
      ensures Model() == SetLedControl(old(Model()), shelf, control)
    {
      if shelf !in leds {
        return false;
      }
      leds := leds[shelf := leds[shelf].(override := control == "True")];
      return true;
    }

    /** led_brightness (its argument already an int). */
    method LedBrightness(shelf: string, brightness: int) returns (ok: bool)
      modifies this
      ensures ok == (shelf in old(leds))
      ensures Model() == SetLedBrightness(old(Model()), shelf, brightness)
    {
      if shelf !in leds {
        return false;
      }
      leds := leds[shelf := leds[shelf].(brightness := brightness)];
      return true;
    }

    /** rgb_control */
    method RgbControl(rack: string, control: string) returns (ok: bool)
      modifies this
      ensures ok == (rack in old(rgbs))
      ensures Model() == SetRgbControl(old(Model()), rack, control)
    {
      if rack !in rgbs {
        return false;
      }
      rgbs := rgbs[rack := rgbs[rack].(override := control == "True")];
      return true;
    }

    /** rgb_color: parses and writes the channels one by one, then the text; ok is
        false where Python raises (KeyError, IndexError or ValueError), and the
        channels written before that point stay written. */
    method RgbColor(rack: string, color: string) returns (ok: bool)
      modifies this
      ensures ok == (rack in old(rgbs) && ColorParses(color))
      ensures Model() == SetRgbColor(old(Model()), rack, color)
    {
      if rack !in rgbs {
        return false;
      }
      var x := rgbs[rack];
      var before := rgbs;
      var formatted := ColorFields(color);
      var red := ParseInt(formatted[0]);
      if red.None? {
        return false;
      }
      var y := x.(color := x.color.(r := red.value));
      rgbs := before[rack := y];
      if |formatted| < 2 {
        assert y == WithColor(x, color);
        return false;
      }
      var green := ParseInt(formatted[1]);
      if green.None? {
        assert y == WithColor(x, color);
        return false;
      }
      y := y.(color := y.color.(g := green.value));
      rgbs := before[rack := y];
      if |formatted| < 3 {
        assert y == WithColor(x, color);
        return false;
      }
      var blue := ParseInt(formatted[2]);
      if blue.None? {
        assert y == WithColor(x, color);
        return false;
      }
      y := y.(color := y.color.(b := blue.value));
      rgbs := before[rack := y];
      y := y.(text := color);
      rgbs := before[rack := y];
      assert y == WithColor(x, color);
      return true;
    }
  }
}
