/** The game editions and their two tables (src/version.ts). */
module Versions {
  import opened Wrappers

  /** The `Version` enum, in declaration order. */
  datatype Version =
      RB
    | Yellow
    | GS
    | Crystal
    | RS
    | FRLG
    | Emerald
    | DP
    | Platinum
    | HGSS
    | BW
    | B2W2
    | XY
    | Colosseum
    | XD
    | ORAS
    | SM
    | USUM
    | LetsGo
    | SS
    | IsleOfArmor
    | CrownTundra
    | BDSP
    | LegendsArceus
    | SV
    | TealMask
    | IndigoDisk
    | RGJ
    | BlueJapan

  /**
   * `getVersionKey`: the edition's key into the move data. Defined for every edition,
   * and the key identifies the edition: `KeyVersion` inverts it.
   */
  function VersionKey(v: Version): (key: string)
    ensures KeyVersion(key) == Some(v)
  {
    match v
    case RB => "red-blue"
    case Yellow => "yellow"
    case GS => "gold-silver"
    case Crystal => "crystal"
    case RS => "ruby-sapphire"
    case FRLG => "firered-leafgreen"
    case Emerald => "emerald"
    case DP => "diamond-pearl"
    case Platinum => "platinum"
    case HGSS => "heartgold-soulsilver"
    case BW => "black-white"
    case B2W2 => "black-2-white-2"
    case XY => "x-y"
    case Colosseum => "colosseum"
    case XD => "xd"
    case ORAS => "omega-ruby-alpha-sapphire"
    case SM => "sun-moon"
    case USUM => "ultra-sun-ultra-moon"
    case LetsGo => "lets-go-pikachu-lets-go-evee"
    case SS => "sword-shield"
    case IsleOfArmor => "the-isle-of-armor"
    case CrownTundra => "the-crown-tundra"
    case BDSP => "brilliant-diamond-shining-pearl"
    case LegendsArceus => "legends-arceus"
    case SV => "scarlet-violet"
    case TealMask => "the-teal-mask"
    case IndigoDisk => "the-indigo-disk"
    case RGJ => "red-green-japan"
    case BlueJapan => "blue-japan"
  }

  /** The edition a data key belongs to, if any. */
  function KeyVersion(key: string): Option<Version> {
    match key
    case "red-blue" => Some(RB)
    case "yellow" => Some(Yellow)
    case "gold-silver" => Some(GS)
    case "crystal" => Some(Crystal)
    case "ruby-sapphire" => Some(RS)
    case "firered-leafgreen" => Some(FRLG)
    case "emerald" => Some(Emerald)
    case "diamond-pearl" => Some(DP)
    case "platinum" => Some(Platinum)
    case "heartgold-soulsilver" => Some(HGSS)
    case "black-white" => Some(BW)
    case "black-2-white-2" => Some(B2W2)
    case "x-y" => Some(XY)
    case "colosseum" => Some(Colosseum)
    case "xd" => Some(XD)
    case "omega-ruby-alpha-sapphire" => Some(ORAS)
    case "sun-moon" => Some(SM)
    case "ultra-sun-ultra-moon" => Some(USUM)
    case "lets-go-pikachu-lets-go-evee" => Some(LetsGo)
    case "sword-shield" => Some(SS)
    case "the-isle-of-armor" => Some(IsleOfArmor)
    case "the-crown-tundra" => Some(CrownTundra)
    case "brilliant-diamond-shining-pearl" => Some(BDSP)
    case "legends-arceus" => Some(LegendsArceus)
    case "scarlet-violet" => Some(SV)
    case "the-teal-mask" => Some(TealMask)
    case "the-indigo-disk" => Some(IndigoDisk)
    case "red-green-japan" => Some(RGJ)
    case "blue-japan" => Some(BlueJapan)
    case _ => None
  }

  /** Distinct editions have distinct keys. */
  lemma VersionKeyInjective(a: Version, b: Version)
    requires VersionKey(a) == VersionKey(b)
    ensures a == b
  {
    assert KeyVersion(VersionKey(a)) == Some(a);
  }

  /** Editions whose sprites live at the top level of the sprite tree. */
  predicate UnversionedSprites(v: Version) {
    v.SM? || v.USUM? || v.LetsGo? || v.SS? || v.IsleOfArmor? || v.CrownTundra? || v.BDSP? || v.LegendsArceus? || v.SV? || v.TealMask? || v.IndigoDisk?
  }

  /**
   * `getGeneration`: the generation directory of the edition's sprites, or "" for the
   * editions from Sun/Moon on.
   */
  function Generation(v: Version): (gen: string)
    ensures gen == "" <==> UnversionedSprites(v)
    ensures gen != "" ==> "generation-" <= gen
    ensures gen == "generation-i" <==> v.RB? || v.Yellow? || v.BlueJapan? || v.RGJ?
    ensures gen == "generation-ii" <==> v.GS? || v.Crystal?
  {
    match v
    case RB | Yellow | BlueJapan | RGJ => "generation-i"
    case GS | Crystal => "generation-ii"
    case RS | FRLG | Emerald | Colosseum | XD => "generation-iii"
    case DP | Platinum | HGSS => "generation-iv"
    case BW | B2W2 => "generation-v"
    case XY | ORAS => "generation-vi"
    case SM | USUM => ""
    case LetsGo | SS | IsleOfArmor | CrownTundra | BDSP | LegendsArceus | SV | TealMask | IndigoDisk => ""
  }
}
