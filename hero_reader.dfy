/** Utilities/HeroReader.cs: one hero per CSV line, fields separated by `,`
    and each preference list by `|`. The file is given as its lines. */
module HeroReader {
  import opened Wrappers
  import opened Text
  import opened Domain

  /** One line: nothing when it has fewer than five fields; otherwise field 0
      is the name and fields 1 to 4 are the positions, partners, ships and
      trinkets, each split on `|`. Further fields are not read. */
  function ParseHero(line: string): Option<Hero> {
    var values := Split(line, ',');
    if |values| < 5 then None
    else Some(Hero(values[0], Split(values[1], '|'), Split(values[2], '|'), Split(values[3], '|'), Split(values[4], '|')))
  }

  /** The heroes of the lines, in line order. */
  function Heroes(lines: seq<string>): seq<Hero> {
    if lines == [] then []
    else
      Heroes(lines[..|lines| - 1])
        + (match ParseHero(lines[|lines| - 1]) case Some(hero) => [hero] case None => [])
  }

  /** `ReadHeroes`: the `while (!reader.EndOfStream)` loop over the lines. */
  method ReadHeroes(lines: seq<string>) returns (heroes: seq<Hero>)
    ensures heroes == Heroes(lines)
  {
    heroes := [];
    var i := 0;
    while i < |lines|
      invariant 0 <= i <= |lines|
      invariant heroes == Heroes(lines[..i])
    {
      var line := lines[i];
      assert lines[..i + 1][..i] == lines[..i];
      i := i + 1;
      var values := Split(line, ',');
      if |values| < 5 {
        continue;
      }
      var hero := Hero(values[0], Split(values[1], '|'), Split(values[2], '|'), Split(values[3], '|'), Split(values[4], '|'));
      heroes := heroes + [hero];
    }
    assert lines[..|lines|] == lines;
  }

  // ---------------------------------------------------------------------
  // The line format the reader inverts.

  /** A hero that can be written as one line: a name without `,` and
      non-empty preference lists whose entries contain neither `,` nor `|`. */
  predicate Writable(hero: Hero) {
    && ',' !in hero.name
    && ListWritable(hero.preferredPositions) && ListWritable(hero.preferredPartners)
    && ListWritable(hero.preferredShips) && ListWritable(hero.preferredTrinkets)
  }

  predicate ListWritable(names: seq<string>) {
    |names| >= 1 && forall i :: 0 <= i < |names| ==> ',' !in names[i] && '|' !in names[i]
  }

  /** The line that describes a hero. */
  function FormatHero(hero: Hero): string
    requires Writable(hero)
  {
    Join([hero.name, Join(hero.preferredPositions, '|'), Join(hero.preferredPartners, '|'),
          Join(hero.preferredShips, '|'), Join(hero.preferredTrinkets, '|')], ',')
  }

  /** A character absent from the pieces and distinct from the separator is
      absent from their join. */
  lemma {:induction false} JoinAvoids(parts: seq<string>, sep: char, c: char)
    requires |parts| >= 1 && c != sep
    requires forall i :: 0 <= i < |parts| ==> c !in parts[i]
    ensures c !in Join(parts, sep)
    decreases |parts|
  {
    if |parts| > 1 {
      JoinAvoids(parts[1..], sep, c);
    }
  }

  /** Reading the line written for a hero gives back that hero. */
  lemma ParseFormatHero(hero: Hero)
    requires Writable(hero)
    ensures ParseHero(FormatHero(hero)) == Some(hero)
  {
    var fields := [hero.name, Join(hero.preferredPositions, '|'), Join(hero.preferredPartners, '|'),
                   Join(hero.preferredShips, '|'), Join(hero.preferredTrinkets, '|')];
    JoinAvoids(hero.preferredPositions, '|', ',');
    JoinAvoids(hero.preferredPartners, '|', ',');
    JoinAvoids(hero.preferredShips, '|', ',');
    JoinAvoids(hero.preferredTrinkets, '|', ',');
    SplitJoin(fields, ',');
    SplitJoin(hero.preferredPositions, '|');
    SplitJoin(hero.preferredPartners, '|');
    SplitJoin(hero.preferredShips, '|');
    SplitJoin(hero.preferredTrinkets, '|');
  }

  /** An empty preference field is read as a list holding one empty name,
      not as an empty list. */
  lemma EmptyFieldsReadAsBlank(name: string)
    requires ',' !in name
    ensures ParseHero(name + ",,,,") == Some(Hero(name, [""], [""], [""], [""]))
  {
    var fields := [name, "", "", "", ""];
    var blanks: seq<string> := ["", "", "", ""];
    assert blanks[1..][1..][1..] == [""];
    assert Join(blanks[1..][1..], ',') == ",";
    assert Join(blanks[1..], ',') == ",,";
    assert Join(blanks, ',') == ",,,";
    assert fields[1..] == blanks;
    assert Join(fields, ',') == name + ",,,,";
    SplitJoin(fields, ',');
  }

  /** Fields after the fifth do not change the hero read from a line. */
  lemma ExtraFieldsIgnored(line: string, rest: string)
    requires |Split(line, ',')| >= 5
    ensures ParseHero(line + [','] + rest) == ParseHero(line)
  {
    SplitAppend(line, rest, ',');
  }

  // ---------------------------------------------------------------------
  // The whole file.

  /** Reading two blocks of lines one after the other reads the heroes of
      the first block, then those of the second. */
  lemma {:induction false} HeroesAppend(a: seq<string>, b: seq<string>)
    ensures Heroes(a + b) == Heroes(a) + Heroes(b)
  {
    if b != [] {
      var init := b[..|b| - 1];
      HeroesAppend(a, init);
      assert (a + b)[..|a + b| - 1] == a + init;
      assert (a + b)[|a + b| - 1] == b[|b| - 1];
    } else {
      assert a + b == a;
    }
  }

  /** One hero per accepted line: never more heroes than lines, and as many
      exactly when every line has at least five fields. */
  lemma {:induction false} HeroesLength(lines: seq<string>)
    ensures |Heroes(lines)| <= |lines|
    ensures |Heroes(lines)| == |lines| <==> forall i :: 0 <= i < |lines| ==> |Split(lines[i], ',')| >= 5
  {
    if lines != [] {
      var init := lines[..|lines| - 1];
      HeroesLength(init);
      if forall i :: 0 <= i < |lines| ==> |Split(lines[i], ',')| >= 5 {
        assert forall i :: 0 <= i < |init| ==> |Split(init[i], ',')| >= 5 by {
          forall i | 0 <= i < |init| ensures |Split(init[i], ',')| >= 5 {
            assert init[i] == lines[i];
          }
        }
      } else if |Split(lines[|lines| - 1], ',')| >= 5 {
        var i :| 0 <= i < |lines| && |Split(lines[i], ',')| < 5;
        assert init[i] == lines[i];
      }
    }
  }

  /** Lines that each read as a hero give exactly those heroes, in order. */
  lemma {:induction false} ReadLines(lines: seq<string>, heroes: seq<Hero>)
    requires |lines| == |heroes|
    requires forall j :: 0 <= j < |lines| ==> ParseHero(lines[j]) == Some(heroes[j])
    ensures Heroes(lines) == heroes
  {
    if lines != [] {
      var n := |lines| - 1;
      ReadLines(lines[..n], heroes[..n]);
      assert ParseHero(lines[n]) == Some(heroes[n]);
      assert heroes[..n] + [heroes[n]] == heroes;
    }
  }

  /** Reading the lines written for a list of heroes gives back the list. */
  lemma ReadFormattedHeroes(heroes: seq<Hero>)
    requires forall i :: 0 <= i < |heroes| ==> Writable(heroes[i])
    ensures Heroes(seq(|heroes|, i requires 0 <= i < |heroes| => FormatHero(heroes[i]))) == heroes
  {
    var lines := seq(|heroes|, i requires 0 <= i < |heroes| => FormatHero(heroes[i]));
    forall j | 0 <= j < |lines| ensures ParseHero(lines[j]) == Some(heroes[j]) {
      ParseFormatHero(heroes[j]);
    }
    ReadLines(lines, heroes);
  }
}
