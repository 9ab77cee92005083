/**
  The raw creature record as the web API returns it. Every key the
  generator reads with a default is an `Option`; `name` and `id` are read
  without one, so they are plain fields here.
 */
module Records {
  import opened Wrappers

  /** `{"front_default": url}` under `sprites.other.<variant>`. */
  datatype Artwork = Artwork(frontDefault: Option<string>)

  /** `sprites.other`: the `official-artwork` and `home` variants. */
  datatype OtherSprites = OtherSprites(officialArtwork: Option<Artwork>, home: Option<Artwork>)

  datatype Sprites = Sprites(
    frontDefault: Option<string>,
    frontShiny: Option<string>,
    other: Option<OtherSprites>)

  /** One element of `stats`: `stat.name` and `base_stat`. */
  datatype StatEntry = StatEntry(name: string, baseStat: int)

  /** `types` and `abilities` hold the `type.name` / `ability.name` of each element, in order. */
  datatype RawRecord = RawRecord(
    id: int,
    name: string,
    height: Option<nat>,
    weight: Option<nat>,
    types: Option<seq<string>>,
    abilities: Option<seq<string>>,
    stats: Option<seq<StatEntry>>,
    sprites: Option<Sprites>)
}
