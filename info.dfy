/** `get_pokemon_info`: the display strings and numbers derived from a raw record. */
module Info {
  import opened Wrappers
  import opened Text
  import opened Records

  datatype DisplayInfo = DisplayInfo(
    name: string,
    id: int,
    types: string,
    height: string,
    weight: string,
    abilities: string,
    hp: int,
    attack: int,
    defense: int,
    speed: int,
    totalStats: int)

  // ---------------------------------------------------------------- types

  function TitleAll(names: seq<string>): (r: seq<string>)
    ensures |r| == |names| && forall i :: 0 <= i < |names| ==> r[i] == TitleCase(names[i])
  {
    seq(|names|, i requires 0 <= i < |names| => TitleCase(names[i]))
  }

  /** The type names, title-cased, in their original order, joined with " / ";
      no types give the empty string. */
  function TypesText(types: seq<string>): (r: string)
    ensures |types| == 0 ==> r == ""
    ensures |types| == 1 ==> r == TitleCase(types[0])
    ensures |types| >= 2 ==> r == TypesText(types[..|types| - 1]) + " / " + TitleCase(types[|types| - 1])
  {
    var titled := TitleAll(types);
    if |types| >= 2 then
      assert titled == TitleAll(types[..|types| - 1]) + [TitleCase(types[|types| - 1])];
      JoinSnoc(TitleAll(types[..|types| - 1]), TitleCase(types[|types| - 1]), " / ");
      Join(titled, " / ")
    else
      Join(titled, " / ")
  }

  // ------------------------------------------------------------ abilities

  /** An ability name: title-cased, then hyphens replaced by spaces. */
  function AbilityName(name: string): (r: string)
    ensures r == TitleCase(ReplaceHyphens(name))
  {
    ReplaceHyphensCommutesWithTitle(name);
    ReplaceHyphens(TitleCase(name))
  }

  /** At most the first two ability names, joined with ", ". */
  function AbilitiesText(abilities: seq<string>): (r: string)
    ensures |abilities| == 0 ==> r == ""
    ensures |abilities| == 1 ==> r == AbilityName(abilities[0])
    ensures |abilities| >= 2 ==> r == AbilityName(abilities[0]) + ", " + AbilityName(abilities[1])
  {
    var names := seq(|abilities|, i requires 0 <= i < |abilities| => AbilityName(abilities[i]));
    var shown := if |names| < 2 then names else names[..2];
    if |names| < 2 then Join(shown, ", ")
    else
      assert shown == [names[0], names[1]] && shown[1..] == [names[1]];
      assert names[0] == AbilityName(abilities[0]) && names[1] == AbilityName(abilities[1]);
      assert Join(shown, ", ") == names[0] + ", " + Join([names[1]], ", ");
      Join(shown, ", ")
  }

  // ------------------------------------------------------ height, weight

  /** A quantity given in tenths, rendered with one decimal place and a unit:
      `f"{tenths / 10:.1f} {unit}"` computed on integers. */
  function FormatTenths(tenths: nat, unit: string): string
  {
    NatToString(tenths / 10) + "." + [DigitChar(tenths % 10)] + " " + unit
  }

  /** Reads a `FormatTenths` rendering back into tenths. */
  function ParseTenths(s: string, unit: string): Option<nat>
  {
    var tail := " " + unit;
    if |s| < |tail| + 3 || s[|s| - |tail|..] != tail then None
    else
      var body := s[..|s| - |tail|];
      var m := |body|;
      if body[m - 2] == '.' && IsDigit(body[m - 1]) && AllDigits(body[..m - 2]) then
        Some(10 * ParseDigits(body[..m - 2]) + DigitValue(body[m - 1]))
      else None
  }

  /** The rendering loses nothing: whole units before the point, tenths after it. */
  lemma FormatTenthsRoundTrip(tenths: nat, unit: string)
    ensures ParseTenths(FormatTenths(tenths, unit), unit) == Some(tenths)
  {
    var whole := NatToString(tenths / 10);
    var body := whole + "." + [DigitChar(tenths % 10)];
    var tail := " " + unit;
    var s := FormatTenths(tenths, unit);
    assert s == body + tail;
    assert s[|s| - |tail|..] == tail;
    assert s[..|s| - |tail|] == body;
    assert body[..|body| - 2] == whole;
    NatToStringRoundTrip(tenths / 10);
  }

  lemma FormatTenthsExamples()
    ensures FormatTenths(4, "m") == "0.4 m"
    ensures FormatTenths(60, "kg") == "6.0 kg"
    ensures FormatTenths(0, "m") == "0.0 m"
  {
  }

  // ---------------------------------------------------------------- stats

  /** A stat's dictionary key: hyphens become spaces, then title case. */
  function StatKey(name: string): string
  {
    TitleCase(ReplaceHyphens(name))
  }

  /** An insertion-ordered dictionary from stat key to value, as a Python dict. */
  type StatTable = seq<(string, int)>

  function KeySet(t: StatTable): set<string>
  {
    set i | 0 <= i < |t| :: t[i].0
  }

  lemma KeySetCons(p: (string, int), t: StatTable)
    ensures KeySet([p] + t) == {p.0} + KeySet(t)
  {
    var u := [p] + t;
    assert u[0].0 == p.0;
    forall x | x in KeySet(u) ensures x in {p.0} + KeySet(t) {
      var i :| 0 <= i < |u| && u[i].0 == x;
      if i > 0 { assert t[i - 1].0 == x; }
    }
    forall x | x in KeySet(t) ensures x in KeySet(u) {
      var i :| 0 <= i < |t| && t[i].0 == x;
      assert u[i + 1].0 == x;
    }
  }

  predicate DistinctKeys(t: StatTable)
  {
    t == [] || (t[0].0 !in KeySet(t[1..]) && DistinctKeys(t[1..]))
  }

  /** `t.get(k)`. */
  function Lookup(t: StatTable, k: string): (v: Option<int>)
    ensures v.Some? <==> k in KeySet(t)
  {
    if t == [] then None
    else if t[0].0 == k then Some(t[0].1)
    else
      KeySetCons(t[0], t[1..]);
      assert t == [t[0]] + t[1..];
      Lookup(t[1..], k)
  }

  /** `t[k] = v`: an existing key keeps its position and takes the new value,
      a new key goes at the end. */
  function Put(t: StatTable, k: string, v: int): (r: StatTable)
    ensures Lookup(r, k) == Some(v)
    ensures forall k' :: k' != k ==> Lookup(r, k') == Lookup(t, k')
    ensures KeySet(r) == KeySet(t) + {k}
    ensures DistinctKeys(t) ==> DistinctKeys(r)
  {
    if t == [] then [(k, v)]
    else if t[0].0 == k then
      KeySetCons((k, v), t[1..]);
      KeySetCons(t[0], t[1..]);
      assert t == [t[0]] + t[1..];
      [(k, v)] + t[1..]
    else
      var r := [t[0]] + Put(t[1..], k, v);
      assert r[1..] == Put(t[1..], k, v);
      KeySetCons(t[0], Put(t[1..], k, v));
      KeySetCons(t[0], t[1..]);
      assert t == [t[0]] + t[1..];
      r
  }

  /** The table the `stats` loop builds: each entry assigned in turn. */
  function StatsOf(entries: seq<StatEntry>): (t: StatTable)
    ensures DistinctKeys(t)
  {
    if entries == [] then []
    else
      var last := entries[|entries| - 1];
      Put(StatsOf(entries[..|entries| - 1]), StatKey(last.name), last.baseStat)
  }

  /** Reference definition: the value of the last entry whose key is `k`. */
  function LastStat(entries: seq<StatEntry>, k: string): Option<int>
  {
    if entries == [] then None
    else if StatKey(entries[|entries| - 1].name) == k then Some(entries[|entries| - 1].baseStat)
    else LastStat(entries[..|entries| - 1], k)
  }

  /** A later entry with the same key overwrites an earlier one. */
  lemma {:induction false} StatsOfLookup(entries: seq<StatEntry>, k: string)
    ensures Lookup(StatsOf(entries), k) == LastStat(entries, k)
  {
    if entries != [] {
      StatsOfLookup(entries[..|entries| - 1], k);
    }
  }

  /** The normalised names of the entries. */
  function NameKeys(entries: seq<StatEntry>): set<string>
  {
    set i | 0 <= i < |entries| :: StatKey(entries[i].name)
  }

  lemma NameKeysSnoc(entries: seq<StatEntry>)
    requires entries != []
    ensures NameKeys(entries) == NameKeys(entries[..|entries| - 1]) + {StatKey(entries[|entries| - 1].name)}
  {
    var n := |entries| - 1;
    var front := entries[..n];
    forall x | x in NameKeys(entries)
      ensures x in NameKeys(front) + {StatKey(entries[n].name)}
    {
      var i :| 0 <= i < |entries| && StatKey(entries[i].name) == x;
      if i < n {
        assert front[i] == entries[i];
      }
    }
    forall x | x in NameKeys(front)
      ensures x in NameKeys(entries)
    {
      var i :| 0 <= i < n && StatKey(front[i].name) == x;
      assert entries[i] == front[i];
    }
    assert StatKey(entries[n].name) in NameKeys(entries);
  }

  /** The table has exactly one key per distinct normalised stat name. */
  lemma {:induction false} StatsOfKeys(entries: seq<StatEntry>)
    ensures KeySet(StatsOf(entries)) == NameKeys(entries)
  {
    if entries != [] {
      StatsOfKeys(entries[..|entries| - 1]);
      NameKeysSnoc(entries);
    }
  }

  /** `sum(t.values())`. */
  function SumValues(t: StatTable): int
  {
    if t == [] then 0 else t[0].1 + SumValues(t[1..])
  }

  /** Assigning a key replaces its old contribution to the sum. */
  lemma {:induction false} SumPut(t: StatTable, k: string, v: int)
    ensures SumValues(Put(t, k, v)) == SumValues(t) - Lookup(t, k).GetOr(0) + v
  {
    if t != [] && t[0].0 != k {
      SumPut(t[1..], k, v);
    }
  }

  /** `sum(stats.values()) if stats else 0`. */
  function TotalStats(t: StatTable): int
  {
    if t == [] then 0 else SumValues(t)
  }

  function SumBaseStats(entries: seq<StatEntry>): int
  {
    if entries == [] then 0 else SumBaseStats(entries[..|entries| - 1]) + entries[|entries| - 1].baseStat
  }

  predicate DistinctStatNames(entries: seq<StatEntry>)
  {
    forall i, j :: 0 <= i < j < |entries| ==> StatKey(entries[i].name) != StatKey(entries[j].name)
  }

  lemma {:induction false} LastStatAbsent(entries: seq<StatEntry>, k: string)
    requires forall i :: 0 <= i < |entries| ==> StatKey(entries[i].name) != k
    ensures LastStat(entries, k) == None
  {
    if entries != [] {
      LastStatAbsent(entries[..|entries| - 1], k);
    }
  }

  /** With no repeated stat names the total is the plain sum of the base stats;
      in general each entry replaces the earlier value of its key. */
  lemma {:induction false} TotalStatsIsSum(entries: seq<StatEntry>)
    requires DistinctStatNames(entries)
    ensures TotalStats(StatsOf(entries)) == SumBaseStats(entries)
  {
    if entries != [] {
      var n := |entries| - 1;
      var front := entries[..n];
      var key := StatKey(entries[n].name);
      assert DistinctStatNames(front);
      TotalStatsIsSum(front);
      LastStatAbsent(front, key);
      StatsOfLookup(front, key);
      SumPut(StatsOf(front), key, entries[n].baseStat);
    }
  }

  /** Each further entry replaces the earlier value of its normalised name in
      the total: a repeated name counts once, with its latest value. */
  lemma TotalStatsSnoc(entries: seq<StatEntry>, e: StatEntry)
    ensures TotalStats(StatsOf(entries + [e]))
         == TotalStats(StatsOf(entries)) - LastStat(entries, StatKey(e.name)).GetOr(0) + e.baseStat
  {
    assert (entries + [e])[..|entries|] == entries;
    StatsOfLookup(entries, StatKey(e.name));
    SumPut(StatsOf(entries), StatKey(e.name), e.baseStat);
  }

  /** A repeated stat name keeps only its latest value: hp 10 then hp 20 totals 20. */
  lemma DuplicateStatExample()
    ensures TotalStats(StatsOf([StatEntry("hp", 10), StatEntry("hp", 20)])) == 20
  {
    TotalStatsSnoc([StatEntry("hp", 10)], StatEntry("hp", 20));
    TotalStatsSnoc([], StatEntry("hp", 10));
    assert [] + [StatEntry("hp", 10)] == [StatEntry("hp", 10)];
    assert [StatEntry("hp", 10)] + [StatEntry("hp", 20)] == [StatEntry("hp", 10), StatEntry("hp", 20)];
  }

  // ---------------------------------------------------------- the record

  /** The display fields, given the stats table built from the record. */
  function Assemble(data: RawRecord, stats: StatTable): DisplayInfo
  {
    DisplayInfo(
      name := TitleCase(data.name),
      id := data.id,
      types := TypesText(data.types.GetOr([])),
      height := FormatTenths(data.height.GetOr(0), "m"),
      weight := FormatTenths(data.weight.GetOr(0), "kg"),
      abilities := AbilitiesText(data.abilities.GetOr([])),
      hp := Lookup(stats, "Hp").GetOr(0),
      attack := Lookup(stats, "Attack").GetOr(0),
      defense := Lookup(stats, "Defense").GetOr(0),
      speed := Lookup(stats, "Speed").GetOr(0),
      totalStats := TotalStats(stats))
  }

  /** The display information for a record. */
  function PokemonInfo(data: RawRecord): DisplayInfo
  {
    Assemble(data, StatsOf(data.stats.GetOr([])))
  }

  /** `get_pokemon_info`: fills the stats dictionary entry by entry, then
      assembles the display fields. */
  method GetPokemonInfo(data: RawRecord) returns (info: DisplayInfo)
    ensures info == PokemonInfo(data)
  {
    var entries := data.stats.GetOr([]);
    var stats: StatTable := [];
    var i := 0;
    while i < |entries|
      invariant 0 <= i <= |entries|
      invariant stats == StatsOf(entries[..i])
    {
      assert entries[..i + 1][..i] == entries[..i];
      stats := Put(stats, StatKey(entries[i].name), entries[i].baseStat);
      i := i + 1;
    }
    assert entries[..i] == entries;
    info := Assemble(data, stats);
  }

  /** A missing height or weight renders as zero. */
  lemma MissingMeasuresAreZero(data: RawRecord)
    ensures data.height.None? ==> PokemonInfo(data).height == "0.0 m"
    ensures data.weight.None? ==> PokemonInfo(data).weight == "0.0 kg"
  {
    FormatTenthsExamples();
  }

  /** Each shown stat is the value of the last entry with that name, or 0.
      The total is 0 without stats, the plain sum with distinct names, and in
      general the total of the earlier entries with the last entry's name
      taking its latest value. */
  lemma PokemonInfoStats(data: RawRecord)
    ensures PokemonInfo(data).hp == LastStat(data.stats.GetOr([]), "Hp").GetOr(0)
    ensures PokemonInfo(data).attack == LastStat(data.stats.GetOr([]), "Attack").GetOr(0)
    ensures PokemonInfo(data).defense == LastStat(data.stats.GetOr([]), "Defense").GetOr(0)
    ensures PokemonInfo(data).speed == LastStat(data.stats.GetOr([]), "Speed").GetOr(0)
    ensures DistinctStatNames(data.stats.GetOr([])) ==> PokemonInfo(data).totalStats == SumBaseStats(data.stats.GetOr([]))
    ensures data.stats.GetOr([]) == [] ==> PokemonInfo(data).totalStats == 0
    ensures var entries := data.stats.GetOr([]);
      entries != [] ==>
        var front, last := entries[..|entries| - 1], entries[|entries| - 1];
        PokemonInfo(data).totalStats
          == TotalStats(StatsOf(front)) - LastStat(front, StatKey(last.name)).GetOr(0) + last.baseStat
  {
    var entries := data.stats.GetOr([]);
    if entries != [] {
      var front := entries[..|entries| - 1];
      TotalStatsSnoc(front, entries[|entries| - 1]);
      assert front + [entries[|entries| - 1]] == entries;
    }
    StatsOfLookup(entries, "Hp");
    StatsOfLookup(entries, "Attack");
    StatsOfLookup(entries, "Defense");
    StatsOfLookup(entries, "Speed");
    if DistinctStatNames(entries) {
      TotalStatsIsSum(entries);
    }
  }

  /** The sample record at test_generate.py:26-38: pikachu, 4 tenths of a metre, 60 tenths of a kilogram. */
  lemma PikachuExample()
    ensures var info := PokemonInfo(RawRecord(25, "pikachu", Some(4), Some(60), Some(["electric"]), None, None, None));
      info.name == "Pikachu" && info.id == 25 && info.types == "Electric"
      && info.height == "0.4 m" && info.weight == "6.0 kg"
  {
    var data := RawRecord(25, "pikachu", Some(4), Some(60), Some(["electric"]), None, None, None);
    assert PokemonInfo(data) == Assemble(data, []);
    FormatTenthsExamples();
    PikachuNames();
  }

  lemma PikachuNames()
    ensures TitleCase("pikachu") == "Pikachu"
    ensures TypesText(["electric"]) == "Electric"
  {
    TitleCaseLowerWord("pikachu");
    TitleCaseLowerWord("electric");
  }

  /** Two types keep their order: grass then poison. */
  lemma TwoTypesExample()
    ensures TypesText(["grass", "poison"]) == "Grass / Poison"
  {
    TitleCaseLowerWord("grass");
    TitleCaseLowerWord("poison");
    assert ["grass", "poison"][..1] == ["grass"];
  }
}
