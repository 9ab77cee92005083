# Pokémon greeting card: a Dafny model of its display logic

The greeting generator draws one creature from a public web API, turns the
loosely-typed record into display data and writes a greeting card to a
README file. It also keeps a JSON log of the last 100 greetings. This
project models the deterministic part of that pipeline:

- **Sprite selection** (`get_pokemon_sprite`). It scans four candidate
  image URLs in a fixed order of preference. It returns the first one that
  is present and non-empty, and a fixed fallback image otherwise
  (module `Sprites`, file `sprites.dfy`).
- **Info extraction** (`get_pokemon_info`). It produces:
  - the title-cased name;
  - the title-cased types joined with `" / "`;
  - at most two abilities, with hyphens turned into spaces, joined with `", "`;
  - height and weight in tenths, rendered with one decimal place;
  - a stats dictionary keyed by normalised stat name, the four displayed
    stats, and their total.

  The stats dictionary is filled by the same loop as in the source
  (module `Info`, file `info.dfy`).
- **Stat bars** (the nested `create_stat_bar`). Each bar is a ten-cell
  gauge of a value out of 255, followed by the value itself (module
  `StatBar`).
- **The card** (`generate_readme_content`). The fixed template is filled
  with the sprite URL, name, greeting, zero-padded number, types,
  measures, abilities, stat total, four gauges, closing line and time
  (module `Card`).
- **History capping**. This step is lifted out of `main`: it appends one
  entry and keeps the latest 100 (module `History`).

Shared text primitives live in module `Text`. These are Python's ASCII
`str.title()`, `str.replace`, `str.join`, `str * int`, `str(int)` and
substring containment. The raw record is in `Records`, and `Option` is in
`Wrappers`.

Modelling choices:
- The raw record is a datatype. Each key the source reads with a default is
  an `Option`, and an absent key is `None`. `name` and `id` are read
  without a default (generate.py:135-136), so they are plain fields and
  are always present.
- A Python dict is insertion-ordered. The stats dictionary is therefore an
  association list, `StatTable`. Assigning an existing key keeps its place
  and replaces its value. Assigning a new key appends it.
- Python computes `height / 10` as a float, then formats it with
  `:.1f`. The model computes `height / 10` and `height % 10` on integers
  instead. The bar's `int((value / 255) * 10)` is likewise computed
  exactly, truncating toward zero (`TruncDiv`).
- The two gauge glyphs are U+2588 (full block) and U+2591 (light shade).
  The card's decorations are the emoji and accented letters that the
  template's literals spell. In the source file these literals appear
  mis-encoded (generate.py:167, generate.py:191-209).
- `random.choice` over the greeting and closing lists becomes an index
  parameter into each list. `datetime.now()` becomes a timestamp string
  parameter.

Three behaviours of the code are worth stating outright:
- Ability names are title-cased and then have their hyphens replaced
  (generate.py:126). Stat keys are handled the other way round
  (generate.py:131). `Text.ReplaceHyphensCommutesWithTitle` proves that both
  orders give the same string.
- An empty sprite URL is skipped just like a missing one, because the
  scan tests Python truthiness (generate.py:109).
- All four stat bars are always rendered (generate.py:196-199).

## Model

| member | source | states |
|---|---|---|
| `Text.TitleCaseAt` | generate.py:135 | Character i of `title()` is upper-cased at the start of a run of letters and lower-cased inside one. A non-letter is kept. |
| `Text.TitleCaseLowerWord` | generate.py:135 | A lower-case word is title-cased by capitalising its first letter. |
| `Text.TitleCaseIdempotent` | generate.py:125 | Title-casing twice is the same as title-casing once. |
| `Text.ReplaceHyphens` | generate.py:126 | `replace('-', ' ')` keeps the length, turns each hyphen into a space, changes nothing else, and leaves no hyphen. |
| `Text.ReplaceHyphensCommutesWithTitle` | generate.py:126-131 | Replacing hyphens before or after title-casing gives the same string, so ability names (title, then replace) and stat keys (replace, then title) are normalised alike. |
| `Text.JoinSnoc` | generate.py:137 | Joining one more part appends the separator and that part at the end, so parts keep their order. |
| `Text.JoinLength` | generate.py:137 | A join has the total length of the parts plus one separator between each adjacent pair. |
| `Text.Repeat` | generate.py:167 | `c * n` is n copies of c, and is empty when n is zero or negative. |
| `Text.ConcatContains` | generate.py:170-211 | Every piece of a concatenation occurs in it, right after the pieces before it. |
| `Text.NatToStringRoundTrip` | generate.py:138-139 | Reading back the decimal rendering of a natural number gives the number. |
| `Text.ParseDigitsLeadingZeros` | generate.py:178 | Leading zeros do not change the value of a digit string. |
| `Text.IntToStringRoundTrip` | generate.py:168 | Reading back `str(value)` gives the integer, negatives included. |
| `Sprites.FirstTruthy` | generate.py:108-110 | Returns the index of the first truthy candidate: every earlier one is missing or empty. Returns the number of candidates when none is truthy. |
| `Sprites.SelectSprite` | generate.py:101-113 | The chosen URL is never empty. It is a candidate preceded only by falsy candidates, or the fallback image when all four are falsy. |
| `Sprites.GetPokemonSprite` | generate.py:88-113 | The scanning loop with its early return yields exactly the selected sprite. |
| `Sprites.FrontDefaultWins` | generate.py:102-110 | A non-empty `front_default` is always chosen. |
| `Sprites.ShinyWhenNoDefault` | generate.py:103-110 | A missing or empty `front_default` falls through to a non-empty `front_shiny`. |
| `Sprites.NoSpriteFallback` | generate.py:112-113 | When all four candidates are missing or empty, the fallback image `.../pokemon/0.png` is used. |
| `Info.TypesText` | generate.py:125-137 | No types give `""`. One type gives its title-cased name. n types give the text of the first n-1, then `" / "`, then the last title-cased name. |
| `Info.TwoTypesExample` | generate.py:137 | `[grass, poison]` renders as `"Grass / Poison"`. |
| `Info.AbilityName` | generate.py:126 | An ability name, title-cased and then de-hyphenated, equals its de-hyphenated and then title-cased form. |
| `Info.AbilitiesText` | generate.py:126-140 | No abilities give `""`. One gives its name. Two or more give only the first two names, joined with `", "`. |
| `Info.FormatTenthsRoundTrip` | generate.py:138-139 | The one-decimal rendering of a height or weight loses nothing. Parsing the whole units, the tenth digit and the unit gives back the raw value. |
| `Info.FormatTenthsExamples` | generate.py:138-139 | 4 renders as `"0.4 m"`, 60 as `"6.0 kg"` and 0 as `"0.0 m"`. |
| `Info.MissingMeasuresAreZero` | generate.py:138-139 | A missing height or weight renders as `"0.0 m"` or `"0.0 kg"`. |
| `Info.Lookup` | generate.py:141-144 | `stats.get(k)` finds a value exactly when k is a key of the dictionary. |
| `Info.Put` | generate.py:132 | `stats[k] = v` makes k map to v and leaves every other key's value alone. The key set gains k, and keys stay distinct. |
| `Info.StatsOf` | generate.py:129-132 | The dictionary built by the stats loop never holds a key twice. |
| `Info.StatsOfLookup` | generate.py:129-132 | Looking up a key in the built dictionary gives the value of the last entry with that normalised name, so a later duplicate overwrites an earlier one. |
| `Info.StatsOfKeys` | generate.py:129-132 | The dictionary's keys are exactly the normalised names of the entries. |
| `Info.SumPut` | generate.py:132-145 | Assigning a key changes the sum of the values by the new value minus the key's old value. |
| `Info.TotalStatsSnoc` | generate.py:132-145 | Each further stat entry replaces the earlier value of its normalised name in the total. A repeated name therefore counts once, with its latest value. |
| `Info.DuplicateStatExample` | generate.py:132-145 | Entries hp 10 then hp 20 total 20, not 30. |
| `Info.TotalStatsIsSum` | generate.py:145 | With no repeated stat names, `total_stats` is the plain sum of the base stats. |
| `Info.GetPokemonInfo` | generate.py:115-146 | The method fills the dictionary entry by entry. Its loop keeps the dictionary equal to the one built from the entries seen so far. The result is the display info of the record. |
| `Info.PokemonInfoStats` | generate.py:141-145 | hp, attack, defense and speed are each the value of the last entry with that name, or 0. The total is 0 without stats and the plain sum when names are distinct. In general it is the total of the earlier entries, with the last entry's value replacing its name's earlier value. |
| `Info.PikachuNames` | generate.py:135-137 | `"pikachu"` title-cases to `"Pikachu"`, and `[electric]` renders as `"Electric"`. |
| `Info.PikachuExample` | generate.py:135-139 | The sample record from test_generate.py:26-38 (id 25, pikachu, height 4, weight 60, electric) gives name `"Pikachu"`, id 25, types `"Electric"`, height `"0.4 m"` and weight `"6.0 kg"`. |
| `StatBar.TruncDiv` | generate.py:166 | `int(a / 255)` truncates toward zero. It is the floor for a ≥ 0 and the ceiling for a < 0. |
| `StatBar.CreateStatBar` | generate.py:164-168 | For 0 ≤ value ≤ 255 the bar is exactly ten cells: first the filled count of full blocks, then light shades. Then come a space and `str(value)`. |
| `StatBar.FilledInRange` | generate.py:166 | For 0 ≤ value ≤ 255 the filled count is between 0 and 10 and equals floor(10·value/255). |
| `StatBar.FilledMonotone` | generate.py:166 | A larger value never has fewer filled cells. |
| `StatBar.StatBarZero` | generate.py:164-168 | Value 0 gives ten light shades followed by `" 0"`. |
| `StatBar.StatBarMax` | generate.py:164-168 | Value 255 gives ten full blocks followed by `" 255"`. |
| `StatBar.NoLightAboveMax` | generate.py:166-167 | Above 255 no light shade appears, because repeating by a negative count is empty. |
| `StatBar.StatBarValueRoundTrip` | generate.py:168 | A space follows the gauge, and the text after it reads back as the value. |
| `Card.Greeting` | generate.py:160 | A greeting made from any template contains the creature's name. |
| `Card.FormatIdDigits` | generate.py:178 | `{id:03d}` of an id from 0 to 999 is exactly three digits that read back as the id. A larger id is printed in full. |
| `Card.FormatIdExample` | generate.py:178 | Id 25 renders as `"025"`. |
| `Card.CardShowsPokemon` | generate.py:170-211 | The card contains the sprite URL, the name, `#` followed by the zero-padded number, the types, the height and the weight. |
| `Card.CardShowsChoicesAndStats` | generate.py:160-211 | The card contains the chosen greeting, the chosen closing line, the timestamp and the four stat bars. |
| `History.AppendEntry` | generate.py:267-271 | After appending, the history has length min(old length + 1, 100). The new entry is last. The result is the tail of the old history followed by the entry, so order is kept and the oldest entries are dropped first. |
| `History.KeepLastAbsorbs` | generate.py:270-271 | Truncating to the last n before appending more does not change the last n after appending. |
| `History.ReplayFromAnyHistory` | generate.py:267-271 | From a loaded history of any length, at least one run leaves exactly the latest 100 (or fewer) of everything recorded, oldest first. |
| `History.ReplayKeepsLatest` | generate.py:261-273 | Start from a history of at most 100 entries. After any number of runs it equals the latest 100 entries (or fewer) of everything recorded, oldest first, so it never exceeds 100. |

## Left out

- `fetch_pokemon_data` (generate.py:63-86) is left out because it is network I/O through a foreign HTTP library.
- `load_history`, `save_history` and `update_readme` (generate.py:47-61, generate.py:215-232) are left out because they are file I/O and JSON encoding. This includes the rule that a missing or corrupt history file reads as an empty history.
- `main` (generate.py:234-276) is left out. It does logging, draws the id with `random.randint`, and updates history only after a successful README write. Only its append-and-cap step is modelled.
- History entries: building the entry (generate.py:261-266) is left out. The entry's fields are the ISO timestamp, the drawn id, and the display name and types. `HistoryEntry` holds them as given.
- Randomness and the clock are parameters: a greeting index, a closing index and a timestamp string. The `strftime` layout of the card's timestamp is not modelled.
- Float arithmetic is left out. Heights, weights and the bar's filled count are computed on integers. For heights and weights, Python's float result can differ once h/10 reaches 2^49 (h about 5.6·10^15). For example, height 5629499534213123 renders as "562949953421312.2 m" in Python and as "562949953421312.3 m" here.
- `str.title()` is modelled for ASCII letters only. Other Unicode letters and cased characters are left out.
- Python errors on malformed payloads are left out. The model's payload types cannot express them:
  - a `sprites` or `other` key present with value `null`;
  - a type, ability or stat element missing its nested `name`;
  - a sprite URL that is not a string.
- A key present with value `null` is read by the model as absent, and its default is used. Python raises an error instead. The affected keys are:
  - `official-artwork` or `home` (an AttributeError at generate.py:104-105);
  - `types`, `abilities` or `stats` (iterating `None` at generate.py:125, generate.py:126 and generate.py:130);
  - `height` or `weight` (`None / 10` at generate.py:138-139, where the model renders "0.0 m" or "0.0 kg").
- The mis-encoded literals are not reproduced. The glyphs are modelled as the characters the template intends.
