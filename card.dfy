/**
  `generate_readme_content`: the greeting card. The random choice of
  greeting and closing line becomes an index into each list, and the
  current time arrives already formatted.
 */
module Card {
  import opened Text
  import opened Info
  import StatBar

  /** Each greeting template, split at its single `{name}` placeholder. */
  const GreetingTemplates: seq<(string, string)> := [
    ("You have been greeted by **", "**"),
    ("A wild **", "** appeared to greet you!"),
    ("**", "** wants to brighten your day!"),
    ("Say hello to **", "**!"),
    ("**", "** is here to wish you well!"),
    ("Greetings from **", "**!"),
    ("**", "** sends you positive vibes!")
  ]

  const ClosingMessages: seq<string> := [
    "Have a wonderful day!",
    "May your day be filled with joy!",
    "Wishing you happiness and success!",
    "Hope you have an amazing day ahead!",
    "Sending you good vibes!",
    "Have a fantastic day!",
    "May your journey be legendary!"
  ]

  // Decorations of the card.
  const Target: string := "\U{1F3AF}"
  const Chart: string := "\U{1F4CA}"
  const Heart: string := "\U{2764}\U{FE0F}"
  const Swords: string := "\U{2694}\U{FE0F}"
  const Shield: string := "\U{1F6E1}\U{FE0F}"
  const Bolt: string := "\U{26A1}"
  const Sparkles: string := "\U{2728}"
  const Star: string := "\U{1F31F}"
  const Pokemon: string := "Pok\U{E9}mon"
  const PokeApi: string := "Pok\U{E9}API"

  /** `template.format(name=name)`. */
  function Greeting(g: nat, name: string): (r: string)
    requires g < |GreetingTemplates|
    ensures Contains(r, name)
  {
    var (before, after) := GreetingTemplates[g];
    assert OccursAt(before + name + after, name, |before|) by {
      assert (before + name + after)[|before|..|before| + |name|] == name;
    }
    before + name + after
  }

  /** `f"{id:03d}"`: at least three characters, zero-padded after any sign. */
  function FormatId(id: int): string
  {
    if id < 0 then "-" + Repeat('0', 2 - |NatToString(-id)|) + NatToString(-id)
    else Repeat('0', 3 - |NatToString(id)|) + NatToString(id)
  }

  /** Identifiers below 1000 are exactly three digits and read back as
      themselves; larger ones are printed in full. */
  lemma FormatIdDigits(id: int)
    requires id >= 0
    ensures id < 1000 ==> |FormatId(id)| == 3
    ensures AllDigits(FormatId(id)) && ParseDigits(FormatId(id)) == id
    ensures id >= 1000 ==> FormatId(id) == NatToString(id)
  {
    var s := NatToString(id);
    NatToStringRoundTrip(id);
    ParseDigitsLeadingZeros(if 3 - |s| < 0 then 0 else 3 - |s|, s);
    if id < 1000 {
      NatDigitsBelow1000(id);
    } else {
      NatDigitsFrom1000(id);
      assert Repeat('0', 3 - |s|) == "";
    }
  }

  lemma NatDigitsBelow1000(n: nat)
    requires n < 1000
    ensures |NatToString(n)| <= 3
  {
    if n >= 10 {
      NatDigitsBelow1000(n / 10);
      if n >= 100 {
        assert |NatToString(n / 10)| <= 2 by { NatDigitsBelow100(n / 10); }
      }
    }
  }

  lemma NatDigitsBelow100(n: nat)
    requires n < 100
    ensures |NatToString(n)| <= 2
  {
  }

  lemma NatDigitsFrom1000(n: nat)
    requires n >= 1000
    ensures |NatToString(n)| >= 4
  {
    assert NatToString(n) == NatToString(n / 10) + [DigitChar(n % 10)];
    assert NatToString(n / 10) == NatToString(n / 100) + [DigitChar(n / 10 % 10)];
    assert NatToString(n / 100) == NatToString(n / 1000) + [DigitChar(n / 100 % 10)];
  }

  lemma FormatIdExample()
    ensures FormatId(25) == "025"
  {
    assert NatToString(25) == NatToString(2) + ['5'];
  }

  // The fixed markup between the fields of the card.
  const Open: string := "<div align=\"center\">\n\n<img src=\""
  const ImageAttributes: string := "\" width=\"250\" height=\"250\" alt=\""
  const ImageClose: string := "\">\n\n# "
  const TableOpen: string := "\n\n<table>\n<tr>\n<td align=\"center\"><strong>"
  const NextCell: string := "</strong></td>\n<td align=\"center\"><strong>"
  const TableRest: string :=
    "</strong></td>\n</tr>\n<tr>\n<td align=\"center\">Number</td>\n<td align=\"center\">Type</td>\n"
    + "<td align=\"center\">Height</td>\n<td align=\"center\">Weight</td>\n</tr>\n</table>\n\n### "
    + Target + " Abilities\n**"
  const StatsHeading: string := "**\n\n### " + Chart + " Base Stats (Total: "
  const HpLabel: string := ")\n```\n" + Heart + "  HP      "
  const AttackLabel: string := "\n" + Swords + "  Attack  "
  const DefenseLabel: string := "\n" + Shield + "  Defense "
  const SpeedLabel: string := "\n" + Bolt + " Speed   "
  const ClosingOpen: string := "\n```\n\n## " + Sparkles + " "
  const UpdatedOpen: string := " " + Sparkles + "\n\n*Last updated: "
  const Footer: string :=
    "*\n\n---\n\n" + Star + " **This README is automatically updated every 24 hours with a new "
    + Pokemon + " greeting!** " + Star + "<br>\nPowered by [" + PokeApi
    + "](https://pokeapi.co/) | Made with " + Heart
    + " by [@isyuricunha](https://github.com/isyuricunha)\n\n</div>"

  /** The rendered values the card template substitutes. */
  datatype CardFields = CardFields(
    sprite: string, name: string, greeting: string, number: string,
    types: string, height: string, weight: string, abilities: string, total: string,
    hpBar: string, attackBar: string, defenseBar: string, speedBar: string,
    closing: string, updated: string)

  /** The card, piece by piece: markup and fields alternating. */
  function Layout(f: CardFields): seq<string>
  {
    [ Open, f.sprite, ImageAttributes, f.name, ImageClose, f.greeting,
      TableOpen, f.number, NextCell, f.types, NextCell, f.height, NextCell, f.weight,
      TableRest, f.abilities, StatsHeading, f.total,
      HpLabel, f.hpBar, AttackLabel, f.attackBar, DefenseLabel, f.defenseBar, SpeedLabel, f.speedBar,
      ClosingOpen, f.closing, UpdatedOpen, f.updated, Footer ]
  }

  /** The values substituted for a creature, the chosen greeting and closing, and the time. */
  function Fields(spriteUrl: string, info: DisplayInfo, g: nat, c: nat, timestamp: string): CardFields
    requires g < |GreetingTemplates| && c < |ClosingMessages|
  {
    CardFields(
      sprite := spriteUrl,
      name := info.name,
      greeting := Greeting(g, info.name),
      number := "#" + FormatId(info.id),
      types := info.types,
      height := info.height,
      weight := info.weight,
      abilities := info.abilities,
      total := IntToString(info.totalStats),
      hpBar := StatBar.CreateStatBar(info.hp),
      attackBar := StatBar.CreateStatBar(info.attack),
      defenseBar := StatBar.CreateStatBar(info.defense),
      speedBar := StatBar.CreateStatBar(info.speed),
      closing := ClosingMessages[c],
      updated := timestamp)
  }

  function GenerateReadmeContent(spriteUrl: string, info: DisplayInfo, g: nat, c: nat, timestamp: string): string
    requires g < |GreetingTemplates| && c < |ClosingMessages|
  {
    Concat(Layout(Fields(spriteUrl, info, g, c, timestamp)))
  }

  /** The image and the name appear in the laid-out card. */
  lemma LayoutShowsIdentity(f: CardFields)
    ensures var card := Concat(Layout(f));
      Contains(card, f.sprite) && Contains(card, f.name)
  {
    var pieces := Layout(f);
    assert pieces[1] == f.sprite && pieces[3] == f.name;
    ConcatContains(pieces, 1);
    ConcatContains(pieces, 3);
  }

  /** The greeting and the number appear in the laid-out card. */
  lemma LayoutShowsHeading(f: CardFields)
    ensures var card := Concat(Layout(f));
      Contains(card, f.greeting) && Contains(card, f.number)
  {
    var pieces := Layout(f);
    assert pieces[5] == f.greeting && pieces[7] == f.number;
    ConcatContains(pieces, 5);
    ConcatContains(pieces, 7);
  }

  /** The types and measures appear in the laid-out card. */
  lemma LayoutShowsDetails(f: CardFields)
    ensures var card := Concat(Layout(f));
      && Contains(card, f.types) && Contains(card, f.height) && Contains(card, f.weight)
  {
    var pieces := Layout(f);
    assert pieces[9] == f.types && pieces[11] == f.height && pieces[13] == f.weight;
    ConcatContains(pieces, 9);
    ConcatContains(pieces, 11);
    ConcatContains(pieces, 13);
  }

  /** The stat total and the four gauges appear in the laid-out card. */
  lemma LayoutShowsStats(f: CardFields)
    ensures var card := Concat(Layout(f));
      && Contains(card, f.total) && Contains(card, f.hpBar) && Contains(card, f.attackBar)
      && Contains(card, f.defenseBar) && Contains(card, f.speedBar)
  {
    var pieces := Layout(f);
    assert pieces[17] == f.total && pieces[19] == f.hpBar && pieces[21] == f.attackBar
      && pieces[23] == f.defenseBar && pieces[25] == f.speedBar;
    ConcatContains(pieces, 17);
    ConcatContains(pieces, 19);
    ConcatContains(pieces, 21);
    ConcatContains(pieces, 23);
    ConcatContains(pieces, 25);
  }

  /** The abilities, the closing line and the time appear in the laid-out card. */
  lemma LayoutShowsClosing(f: CardFields)
    ensures var card := Concat(Layout(f));
      && Contains(card, f.abilities) && Contains(card, f.closing) && Contains(card, f.updated)
  {
    var pieces := Layout(f);
    assert pieces[15] == f.abilities && pieces[27] == f.closing && pieces[29] == f.updated;
    ConcatContains(pieces, 15);
    ConcatContains(pieces, 27);
    ConcatContains(pieces, 29);
  }

  /** The card always shows the sprite URL, the name, the zero-padded number,
      the types, the height and the weight. */
  lemma CardShowsPokemon(spriteUrl: string, info: DisplayInfo, g: nat, c: nat, timestamp: string)
    requires g < |GreetingTemplates| && c < |ClosingMessages|
    ensures var card := GenerateReadmeContent(spriteUrl, info, g, c, timestamp);
      && Contains(card, spriteUrl)
      && Contains(card, info.name)
      && Contains(card, "#" + FormatId(info.id))
      && Contains(card, info.types)
      && Contains(card, info.height)
      && Contains(card, info.weight)
  {
    var f := Fields(spriteUrl, info, g, c, timestamp);
    LayoutShowsIdentity(f);
    LayoutShowsHeading(f);
    LayoutShowsDetails(f);
  }

  /** The card shows the chosen greeting (which names the creature), the
      chosen closing line, the timestamp and the four stat gauges. */
  lemma CardShowsChoicesAndStats(spriteUrl: string, info: DisplayInfo, g: nat, c: nat, timestamp: string)
    requires g < |GreetingTemplates| && c < |ClosingMessages|
    ensures var card := GenerateReadmeContent(spriteUrl, info, g, c, timestamp);
      && Contains(card, Greeting(g, info.name))
      && Contains(card, ClosingMessages[c])
      && Contains(card, timestamp)
      && Contains(card, StatBar.CreateStatBar(info.hp))
      && Contains(card, StatBar.CreateStatBar(info.attack))
      && Contains(card, StatBar.CreateStatBar(info.defense))
      && Contains(card, StatBar.CreateStatBar(info.speed))
  {
    var f := Fields(spriteUrl, info, g, c, timestamp);
    LayoutShowsHeading(f);
    LayoutShowsStats(f);
    LayoutShowsClosing(f);
  }
}
