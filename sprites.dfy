/** Choosing the image shown on the card. */
module Sprites {
  import opened Wrappers
  import opened Records

  const FallbackSprite: string := "https://raw.githubusercontent.com/PokeAPI/sprites/master/sprites/pokemon/0.png"

  /** The four candidates in order of preference: front default, front shiny,
      official artwork, home artwork. A missing intermediate key reads as an
      empty mapping, so every candidate below it is absent. */
  function SpriteOptions(data: RawRecord): (opts: seq<Option<string>>)
  {
    var sprites := data.sprites.GetOr(Sprites(None, None, None));
    var other := sprites.other.GetOr(OtherSprites(None, None));
    [ sprites.frontDefault,
      sprites.frontShiny,
      other.officialArtwork.GetOr(Artwork(None)).frontDefault,
      other.home.GetOr(Artwork(None)).frontDefault ]
  }

  /** Python truthiness of a candidate: present and not the empty string. */
  predicate Truthy(o: Option<string>)
  {
    o.Some? && o.value != ""
  }

  /** The index of the first truthy candidate, or `|opts|` when there is none. */
  function FirstTruthy(opts: seq<Option<string>>): (k: nat)
    ensures k <= |opts|
    ensures k < |opts| ==> Truthy(opts[k])
    ensures forall j :: 0 <= j < k ==> !Truthy(opts[j])
  {
    if opts == [] then 0
    else if Truthy(opts[0]) then 0
    else 1 + FirstTruthy(opts[1..])
  }

  /** The first truthy candidate, else the fallback image: never empty, and
      either a candidate preceded only by falsy ones or the fallback when
      every candidate is falsy. */
  function SelectSprite(opts: seq<Option<string>>): (url: string)
    ensures url != ""
    ensures || (exists j :: 0 <= j < |opts| && opts[j] == Some(url) && forall i :: 0 <= i < j ==> !Truthy(opts[i]))
            || ((forall j :: 0 <= j < |opts| ==> !Truthy(opts[j])) && url == FallbackSprite)
  {
    var k := FirstTruthy(opts);
    if k < |opts| then opts[k].value else FallbackSprite
  }

  /** `get_pokemon_sprite`: scans the candidates and returns the first truthy one. */
  method GetPokemonSprite(data: RawRecord) returns (url: string)
    ensures url == SelectSprite(SpriteOptions(data))
  {
    var options := SpriteOptions(data);
    var i := 0;
    while i < |options|
      invariant 0 <= i <= |options|
      invariant forall j :: 0 <= j < i ==> !Truthy(options[j])
    {
      if Truthy(options[i]) {
        return options[i].value;
      }
      i := i + 1;
    }
    return FallbackSprite;
  }

  /** A non-empty `sprites.front_default` always wins. */
  lemma FrontDefaultWins(data: RawRecord, url: string)
    requires data.sprites.Some? && data.sprites.value.frontDefault == Some(url)
    requires url != ""
    ensures SelectSprite(SpriteOptions(data)) == url
  {
  }

  /** A missing or empty front default falls through to the shiny image. */
  lemma ShinyWhenNoDefault(data: RawRecord, url: string)
    requires data.sprites.Some? && !Truthy(data.sprites.value.frontDefault)
    requires data.sprites.value.frontShiny == Some(url) && url != ""
    ensures SelectSprite(SpriteOptions(data)) == url
  {
    var opts := SpriteOptions(data);
    assert !Truthy(opts[0]) && Truthy(opts[1]);
  }

  /** When all four candidates are missing or empty the fallback image is used. */
  lemma NoSpriteFallback(data: RawRecord)
    requires forall j :: 0 <= j < 4 ==> !Truthy(SpriteOptions(data)[j])
    ensures SelectSprite(SpriteOptions(data)) == FallbackSprite
  {
  }
}
