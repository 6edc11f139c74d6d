/** Utilities/TrinketReader.cs: one trinket per CSV line, `name,amount`.
    The file is given as its lines. `Convert.ToInt32` either yields the
    amount or throws, and nothing catches the exception, so one bad amount
    fails the whole read: the model returns the index of that line. */
module TrinketReader {
  import opened Wrappers
  import opened Text
  import opened Domain

  // ---------------------------------------------------------------------
  // `Convert.ToInt32(string)`: `Int32.Parse` with `NumberStyles.Integer`.

  const Int32Min: int := -0x8000_0000
  const Int32Max: int := 0x7FFF_FFFF

  predicate InInt32(n: int) {
    Int32Min <= n <= Int32Max
  }

  /** The white space `NumberStyles.AllowLeadingWhite` and
      `AllowTrailingWhite` skip: U+0009 to U+000D and U+0020. */
  predicate IsWhite(c: char) {
    c == ' ' || '\t' <= c <= '\r'
  }

  predicate IsDigit(c: char) {
    '0' <= c <= '9'
  }

  predicate AllDigits(s: string) {
    forall i :: 0 <= i < |s| ==> IsDigit(s[i])
  }

  function TrimStart(s: string): string {
    if s != [] && IsWhite(s[0]) then TrimStart(s[1..]) else s
  }

  function TrimEnd(s: string): string {
    if s != [] && IsWhite(s[|s| - 1]) then TrimEnd(s[..|s| - 1]) else s
  }

  /** The number a string of decimal digits denotes. */
  function DigitsValue(ds: string): int {
    if ds == [] then 0 else 10 * DigitsValue(ds[..|ds| - 1]) + (ds[|ds| - 1] as int - '0' as int)
  }

  /** Optional white space, an optional `-` or `+`, at least one decimal
      digit, optional white space; the value must fit in 32 bits. `None`
      stands for the `FormatException` or `OverflowException` thrown otherwise. */
  function ParseInt32(s: string): Option<int> {
    ParseSigned(TrimEnd(TrimStart(s)))
  }

  /** The text between the white space: an optional sign, then digits. */
  function ParseSigned(t: string): Option<int> {
    var signed := t != [] && (t[0] == '-' || t[0] == '+');
    var digits := if signed then t[1..] else t;
    if digits == [] || !AllDigits(digits) then None
    else
      var n := if signed && t[0] == '-' then -DigitsValue(digits) else DigitsValue(digits);
      if InInt32(n) then Some(n) else None
  }

  // ---------------------------------------------------------------------
  // Lines and files.

  /** What one line contributes: nothing (fewer than two fields), a
      trinket, or the exception of an unreadable amount. */
  datatype LineRead = Skipped | Read(trinket: Trinket) | BadAmount

  /** Field 0 is the name, field 1 the amount; further fields are not read.
      A negative amount is read like any other. */
  function ReadLine(line: string): LineRead {
    var values := Split(line, ',');
    if |values| < 2 then Skipped
    else
      match ParseInt32(values[1])
      case Some(amount) => Read(Trinket(values[0], amount))
      case None => BadAmount
  }

  /** One more line after the lines that gave `r`, the new line having index `n`. */
  function TrinketsSnoc(r: Result<seq<Trinket>, nat>, n: nat, line: string): Result<seq<Trinket>, nat> {
    match r
    case Err(e) => Err(e)
    case Ok(ts) =>
      match ReadLine(line)
      case Skipped => Ok(ts)
      case Read(t) => Ok(ts + [t])
      case BadAmount => Err(n)
  }

  /** The trinkets of the lines in line order, or the index of the first
      line whose amount cannot be read. */
  function Trinkets(lines: seq<string>): Result<seq<Trinket>, nat> {
    if lines == [] then Ok([])
    else TrinketsSnoc(Trinkets(lines[..|lines| - 1]), |lines| - 1, lines[|lines| - 1])
  }

  /** `ReadTrinkets`: the `while (!reader.EndOfStream)` loop over the lines. */
  method ReadTrinkets(lines: seq<string>) returns (r: Result<seq<Trinket>, nat>)
    ensures r == Trinkets(lines)
  {
    var trinkets: seq<Trinket> := [];
    var i := 0;
    while i < |lines|
      invariant 0 <= i <= |lines|
      invariant Trinkets(lines[..i]) == Ok(trinkets)
    {
      var line := lines[i];
      assert lines[..i + 1][..i] == lines[..i];
      i := i + 1;
      var values := Split(line, ',');
      if |values| < 2 {
        continue;
      }
      var amount := ParseInt32(values[1]);
      if amount.None? {
        assert Trinkets(lines[..i]) == Err(i - 1);
        FailureKept(lines, i);
        return Err(i - 1);
      }
      var trinket := Trinket(values[0], amount.value);
      trinkets := trinkets + [trinket];
    }
    assert lines[..|lines|] == lines;
    r := Ok(trinkets);
  }

  // ---------------------------------------------------------------------
  // The number format the parser inverts.

  function Digit(d: int): char
    requires 0 <= d < 10
  {
    ('0' as int + d) as char
  }

  /** The decimal digits of a natural number, without leading zeros. */
  function FormatNat(n: nat): string
    decreases n
  {
    if n < 10 then [Digit(n)] else FormatNat(n / 10) + [Digit(n % 10)]
  }

  /** The decimal form of an integer, `-` first when it is negative. */
  function FormatInt(n: int): string {
    if n < 0 then "-" + FormatNat(-n) else FormatNat(n)
  }

  lemma {:induction false} FormatNatDigits(n: nat)
    ensures FormatNat(n) != [] && AllDigits(FormatNat(n)) && DigitsValue(FormatNat(n)) == n
    decreases n
  {
    var s := FormatNat(n);
    if n >= 10 {
      FormatNatDigits(n / 10);
      assert s[..|s| - 1] == FormatNat(n / 10);
    } else {
      assert s[..0] == [];
    }
  }

  lemma {:induction false} TrimStartWhite(w: string, s: string)
    requires forall i :: 0 <= i < |w| ==> IsWhite(w[i])
    requires s == [] || !IsWhite(s[0])
    ensures TrimStart(w + s) == s
    decreases |w|
  {
    if w != [] {
      assert (w + s)[1..] == w[1..] + s;
      TrimStartWhite(w[1..], s);
    } else {
      assert w + s == s;
    }
  }

  lemma {:induction false} TrimEndWhite(s: string, w: string)
    requires forall i :: 0 <= i < |w| ==> IsWhite(w[i])
    requires s == [] || !IsWhite(s[|s| - 1])
    ensures TrimEnd(s + w) == s
    decreases |w|
  {
    if w != [] {
      assert (s + w)[..|s + w| - 1] == s + w[..|w| - 1];
      TrimEndWhite(s, w[..|w| - 1]);
    } else {
      assert s + w == s;
    }
  }

  /** Reading the decimal form of an integer, with any white space around
      it, gives the integer when it fits in 32 bits and fails otherwise. */
  lemma ParseFormatInt(n: int, before: string, after: string)
    requires forall i :: 0 <= i < |before| ==> IsWhite(before[i])
    requires forall i :: 0 <= i < |after| ==> IsWhite(after[i])
    ensures ParseInt32(before + FormatInt(n) + after) == if InInt32(n) then Some(n) else None
  {
    var s := FormatInt(n);
    var m: nat := if n < 0 then -n else n;
    FormatNatDigits(m);
    var ds := FormatNat(m);
    assert s[|s| - 1] == ds[|ds| - 1];
    TrimAround(before, s, after);
    ParseSignedFormat(n);
  }

  /** White space on both sides of a text that neither starts nor ends with
      white space is trimmed away. */
  lemma TrimAround(before: string, s: string, after: string)
    requires forall i :: 0 <= i < |before| ==> IsWhite(before[i])
    requires forall i :: 0 <= i < |after| ==> IsWhite(after[i])
    requires s != [] && !IsWhite(s[0]) && !IsWhite(s[|s| - 1])
    ensures TrimEnd(TrimStart(before + s + after)) == s
  {
    TrimEndWhite(s, after);
    TrimStartWhite(before, s + after);
    assert before + s + after == before + (s + after);
  }

  lemma ParseSignedFormat(n: int)
    ensures ParseSigned(FormatInt(n)) == if InInt32(n) then Some(n) else None
  {
    var s := FormatInt(n);
    var m: nat := if n < 0 then -n else n;
    FormatNatDigits(m);
    if n < 0 {
      assert s[1..] == FormatNat(m);
    }
  }

  /** The line that describes a trinket. */
  function FormatTrinket(t: Trinket): string {
    t.name + "," + FormatInt(t.amount)
  }

  /** Reading the line written for a trinket with a name without `,` gives
      back the trinket when its amount fits in 32 bits, negative amounts
      included, and fails on the amount otherwise. */
  lemma ReadFormattedLine(t: Trinket)
    requires ',' !in t.name
    ensures ReadLine(FormatTrinket(t)) == if InInt32(t.amount) then Read(t) else BadAmount
  {
    var a := FormatInt(t.amount);
    var m: nat := if t.amount < 0 then -t.amount else t.amount;
    FormatNatDigits(m);
    assert ',' !in a by {
      if t.amount < 0 {
        assert a == "-" + FormatNat(m);
      }
    }
    SplitJoin([t.name, a], ',');
    assert Join([t.name, a], ',') == FormatTrinket(t);
    ParseFormatInt(t.amount, "", "");
    assert "" + a + "" == a;
  }

  /** Fields after the second do not change what a line contributes. */
  lemma ExtraFieldsIgnored(line: string, rest: string)
    requires |Split(line, ',')| >= 2
    ensures ReadLine(line + [','] + rest) == ReadLine(line)
  {
    SplitAppend(line, rest, ',');
  }

  /** Reading two blocks of lines one after the other: the trinkets of the
      first block and then those of the second, or the first failing line,
      counted from the start of the whole file. */
  lemma {:induction false} TrinketsAppend(a: seq<string>, b: seq<string>)
    ensures Trinkets(a).Err? ==> Trinkets(a + b) == Trinkets(a)
    ensures Trinkets(a).Ok? && Trinkets(b).Err? ==> Trinkets(a + b) == Err(|a| + Trinkets(b).error)
    ensures Trinkets(a).Ok? && Trinkets(b).Ok? ==> Trinkets(a + b) == Ok(Trinkets(a).value + Trinkets(b).value)
  {
    if b == [] {
      assert a + b == a;
      if Trinkets(a).Ok? {
        assert Trinkets(a).value + [] == Trinkets(a).value;
      }
    } else {
      var init, last := b[..|b| - 1], b[|b| - 1];
      TrinketsAppend(a, init);
      assert (a + b)[..|a + b| - 1] == a + init;
      assert (a + b)[|a + b| - 1] == last;
      assert Trinkets(a + b) == TrinketsSnoc(Trinkets(a + init), |a + b| - 1, last);
      assert Trinkets(b) == TrinketsSnoc(Trinkets(init), |b| - 1, last);
      if Trinkets(a).Ok? && Trinkets(init).Ok? {
        var x, y := Trinkets(a).value, Trinkets(init).value;
        if ReadLine(last).Read? {
          assert x + (y + [ReadLine(last).trinket]) == x + y + [ReadLine(last).trinket];
        }
      }
    }
  }

  /** Once a line fails, the lines after it do not change the result. */
  lemma {:induction false} FailureKept(lines: seq<string>, k: nat)
    requires k <= |lines| && Trinkets(lines[..k]).Err?
    ensures Trinkets(lines) == Trinkets(lines[..k])
    decreases |lines|
  {
    if |lines| == k {
      assert lines[..k] == lines;
    } else {
      var init := lines[..|lines| - 1];
      assert init[..k] == lines[..k];
      FailureKept(init, k);
    }
  }

  /** The read fails exactly on a line with two fields or more whose amount
      is unreadable, and then names the first such line. */
  lemma {:induction false} TrinketsFailure(lines: seq<string>)
    ensures Trinkets(lines).Err? <==> exists i :: 0 <= i < |lines| && ReadLine(lines[i]) == BadAmount
    ensures Trinkets(lines).Err? ==>
      var e := Trinkets(lines).error;
      e < |lines| && ReadLine(lines[e]) == BadAmount && forall i :: 0 <= i < e ==> ReadLine(lines[i]) != BadAmount
  {
    if lines != [] {
      var n := |lines| - 1;
      var init := lines[..n];
      TrinketsFailure(init);
      assert Trinkets(lines) == TrinketsSnoc(Trinkets(init), n, lines[n]);
      assert forall i :: 0 <= i < n ==> init[i] == lines[i];
      if Trinkets(init).Err? {
        var i :| 0 <= i < n && ReadLine(init[i]) == BadAmount;
        assert ReadLine(lines[i]) == BadAmount;
      } else if ReadLine(lines[n]) != BadAmount {
        forall i | 0 <= i < |lines| ensures ReadLine(lines[i]) != BadAmount {
          if i < n {
            assert lines[i] == init[i];
          }
        }
      }
    }
  }

  /** A successful read gives one trinket per line with two fields or more
      and skips every other line: never more trinkets than lines, and as
      many exactly when no line is skipped. */
  lemma {:induction false} TrinketsLength(lines: seq<string>)
    requires Trinkets(lines).Ok?
    ensures |Trinkets(lines).value| <= |lines|
    ensures |Trinkets(lines).value| == |lines| <==> forall i :: 0 <= i < |lines| ==> |Split(lines[i], ',')| >= 2
  {
    if lines != [] {
      var init := lines[..|lines| - 1];
      var last := lines[|lines| - 1];
      assert Trinkets(lines) == TrinketsSnoc(Trinkets(init), |lines| - 1, last);
      assert Trinkets(init).Ok?;
      TrinketsLength(init);
      if forall i :: 0 <= i < |lines| ==> |Split(lines[i], ',')| >= 2 {
        assert forall i :: 0 <= i < |init| ==> |Split(init[i], ',')| >= 2 by {
          forall i | 0 <= i < |init| ensures |Split(init[i], ',')| >= 2 {
            assert init[i] == lines[i];
          }
        }
      } else if |Split(last, ',')| >= 2 {
        var i :| 0 <= i < |lines| && |Split(lines[i], ',')| < 2;
        assert init[i] == lines[i];
      }
    }
  }

  /** Lines that each read as a trinket give exactly those trinkets, in order. */
  lemma {:induction false} ReadLines(lines: seq<string>, trinkets: seq<Trinket>)
    requires |lines| == |trinkets|
    requires forall j :: 0 <= j < |lines| ==> ReadLine(lines[j]) == Read(trinkets[j])
    ensures Trinkets(lines) == Ok(trinkets)
  {
    if lines != [] {
      var n := |lines| - 1;
      ReadLines(lines[..n], trinkets[..n]);
      assert Trinkets(lines) == TrinketsSnoc(Ok(trinkets[..n]), n, lines[n]);
      assert ReadLine(lines[n]) == Read(trinkets[n]);
      assert trinkets[..n] + [trinkets[n]] == trinkets;
    }
  }

  /** Reading the lines written for a list of trinkets with names without
      `,` and 32-bit amounts gives back the list. */
  lemma ReadFormattedTrinkets(trinkets: seq<Trinket>)
    requires forall j :: 0 <= j < |trinkets| ==> ',' !in trinkets[j].name && InInt32(trinkets[j].amount)
    ensures Trinkets(seq(|trinkets|, j requires 0 <= j < |trinkets| => FormatTrinket(trinkets[j]))) == Ok(trinkets)
  {
    var lines := seq(|trinkets|, j requires 0 <= j < |trinkets| => FormatTrinket(trinkets[j]));
    forall j | 0 <= j < |lines| ensures ReadLine(lines[j]) == Read(trinkets[j]) {
      ReadFormattedLine(trinkets[j]);
    }
    ReadLines(lines, trinkets);
  }

}
