/** The records read from the input files and the configuration constants. */
module Domain {

  /** A hero and its preference lists (Models/Hero.cs). The partners list is
      read but never used by any constraint or score. */
  datatype Hero = Hero(
    name: string,
    preferredPositions: seq<string>,
    preferredPartners: seq<string>,
    preferredShips: seq<string>,
    preferredTrinkets: seq<string>)

  /** A trinket and the number of copies in stock (Models/Trinket.cs). */
  datatype Trinket = Trinket(name: string, amount: int)

  /** Config.MaxActiveShips: declared, but the ship constraints hard-code 4. */
  const MaxActiveShips: int := 4
  const MaxScorePerHero: int := 10
  const MaxScorePerTrinket: int := 10

  /** The fixed crew positions of every ship (Program.cs). */
  const Positions: seq<string> := ["Captain", "First Mate", "Gunner"]

  function HeroNames(heroes: seq<Hero>): (names: seq<string>)
    ensures |names| == |heroes|
    ensures forall i :: 0 <= i < |heroes| ==> names[i] == heroes[i].name
  {
    seq(|heroes|, i requires 0 <= i < |heroes| => heroes[i].name)
  }

  function TrinketNames(trinkets: seq<Trinket>): (names: seq<string>)
    ensures |names| == |trinkets|
    ensures forall j :: 0 <= j < |trinkets| ==> names[j] == trinkets[j].name
  {
    seq(|trinkets|, j requires 0 <= j < |trinkets| => trinkets[j].name)
  }
}
