/**
  Block locations and the `world,x,y,z` registry key that `ShopManager`
  derives from them (`serializeLocation` / `deserializeLocation`).

  The Java helpers the key format leans on are written out: `%d` formatting
  of an `int`, `Integer.parseInt`, and `String.split(",")`, which drops
  trailing empty fields.
 */
module Locations {
  import opened Wrappers

  /** Java's 32-bit `int`, the type of block coordinates. */
  type Int32 = x: int | -0x8000_0000 <= x < 0x8000_0000

  /** A location: the name of its world (None when the world is null) and its block coordinates. */
  datatype Location = Location(world: Option<string>, x: Int32, y: Int32, z: Int32)

  /** The location of a block that exists: a block always belongs to a world. */
  type PlacedLocation = l: Location | l.world.Some? witness Location(Some("world"), 0, 0, 0)

  // ---------------------------------------------------------------------------
  // Decimal digits: `%d` and `Integer.parseInt`
  // ---------------------------------------------------------------------------

  predicate IsDigit(c: char) { '0' <= c <= '9' }

  predicate AllDigits(s: string) { forall i :: 0 <= i < |s| ==> IsDigit(s[i]) }

  function DigitChar(d: nat): (c: char)
    requires d < 10
    ensures IsDigit(c) && c as int - '0' as int == d
  {
    (d + '0' as int) as char
  }

  /** The decimal digits of `n`, most significant first, without leading zeros. */
  function NatToDecimal(n: nat): (s: string)
    ensures |s| > 0 && AllDigits(s)
  {
    if n < 10 then [DigitChar(n)] else NatToDecimal(n / 10) + [DigitChar(n % 10)]
  }

  /** The value of a string of decimal digits (leading zeros allowed). */
  function DecimalValue(s: string): nat
    requires AllDigits(s)
  {
    if |s| == 0 then 0 else DecimalValue(s[..|s| - 1]) * 10 + (s[|s| - 1] as int - '0' as int)
  }

  lemma {:induction false} DecimalRoundTrip(n: nat)
    ensures DecimalValue(NatToDecimal(n)) == n
  {
    if n >= 10 {
      var s := NatToDecimal(n);
      assert s[..|s| - 1] == NatToDecimal(n / 10);
      DecimalRoundTrip(n / 10);
    }
  }

  /** `String.format("%d", n)`. */
  function FormatInt(n: int): (s: string)
    ensures |s| > 0 && ',' !in s
  {
    var s := if n < 0 then "-" + NatToDecimal(-n) else NatToDecimal(n);
    assert s[|s| - 1] != ',' && forall i :: 0 <= i < |s| ==> s[i] == '-' || IsDigit(s[i]);
    s
  }

  /** `Integer.parseInt(s)`: an optional sign, then at least one digit, and a value that fits an `int`; None for a NumberFormatException. */
  function ParseInt(s: string): (r: Option<Int32>)
    ensures r.Some? ==> |s| > 0
  {
    if |s| == 0 then None
    else
      var signed := s[0] == '-' || s[0] == '+';
      var digits := if signed then s[1..] else s;
      if |digits| == 0 || !AllDigits(digits) then None
      else
        var v: int := if s[0] == '-' then -(DecimalValue(digits) as int) else DecimalValue(digits);
        if -0x8000_0000 <= v < 0x8000_0000 then Some(v) else None
  }

  lemma ParseUnsigned(d: string)
    requires |d| > 0 && AllDigits(d) && DecimalValue(d) < 0x8000_0000
    ensures ParseInt(d) == Some(DecimalValue(d))
  {
    assert d[0] != '-' && d[0] != '+';
  }

  lemma ParseNegative(d: string)
    requires |d| > 0 && AllDigits(d) && DecimalValue(d) <= 0x8000_0000
    ensures ParseInt("-" + d) == Some(-(DecimalValue(d) as int))
  {
    var s := "-" + d;
    assert s[0] == '-' && s[1..] == d;
  }

  lemma ParseFormat(n: Int32)
    ensures ParseInt(FormatInt(n)) == Some(n)
  {
    if n < 0 {
      var d := NatToDecimal(-(n as int));
      assert FormatInt(n) == "-" + d;
      DecimalRoundTrip(-(n as int));
      ParseNegative(d);
    } else {
      var d := NatToDecimal(n);
      assert FormatInt(n) == d;
      DecimalRoundTrip(n);
      ParseUnsigned(d);
    }
  }

  lemma FormatIntInjective(a: Int32, b: Int32)
    requires FormatInt(a) == FormatInt(b)
    ensures a == b
  {
    ParseFormat(a);
    ParseFormat(b);
  }

  // ---------------------------------------------------------------------------
  // String.split(",")
  // ---------------------------------------------------------------------------

  /** Every comma-separated field of `s`, empty ones included: one more field than `s` has commas. */
  function SplitAll(s: string): (parts: seq<string>)
    ensures |parts| >= 1
    ensures forall i :: 0 <= i < |parts| ==> ',' !in parts[i]
  {
    if |s| == 0 then [""]
    else
      var rest := SplitAll(s[1..]);
      if s[0] == ',' then [""] + rest else [[s[0]] + rest[0]] + rest[1..]
  }

  function DropTrailingEmpty(parts: seq<string>): (kept: seq<string>)
    ensures kept <= parts
    ensures |kept| > 0 ==> kept[|kept| - 1] != ""
  {
    if |parts| > 0 && parts[|parts| - 1] == "" then DropTrailingEmpty(parts[..|parts| - 1]) else parts
  }

  /** `s.split(",")`: the fields with trailing empty ones removed; a string without a comma is its own single field. */
  function JavaSplit(s: string): (fields: seq<string>)
    ensures ',' !in s ==> fields == [s]
    ensures forall i :: 0 <= i < |fields| ==> ',' !in fields[i]
    ensures ',' in s && |fields| > 0 ==> fields[|fields| - 1] != ""
  {
    if ',' in s then DropTrailingEmpty(SplitAll(s)) else [s]
  }

  /** The fields joined back together with commas. */
  function JoinFields(parts: seq<string>): string
    requires |parts| >= 1
  {
    if |parts| == 1 then parts[0] else parts[0] + [','] + JoinFields(parts[1..])
  }

  lemma {:induction false} SplitWithoutComma(s: string)
    requires ',' !in s
    ensures SplitAll(s) == [s]
  {
    if |s| > 0 {
      SplitWithoutComma(s[1..]);
      assert [s[0]] + s[1..] == s;
    }
  }

  lemma {:induction false} SplitAtComma(a: string, b: string)
    ensures SplitAll(a + [','] + b) == SplitAll(a) + SplitAll(b)
  {
    if |a| == 0 {
      assert a + [','] + b == [','] + b;
      assert ([','] + b)[1..] == b;
    } else {
      var s := a + [','] + b;
      assert s[0] == a[0];
      assert s[1..] == a[1..] + [','] + b;
      SplitAtComma(a[1..], b);
    }
  }

  lemma {:induction false} JoinSplit(s: string)
    ensures JoinFields(SplitAll(s)) == s
  {
    if |s| > 0 {
      var rest := SplitAll(s[1..]);
      JoinSplit(s[1..]);
      if s[0] == ',' {
        assert SplitAll(s)[1..] == rest;
        assert s == [','] + s[1..];
      } else {
        var parts := SplitAll(s);
        assert parts == [[s[0]] + rest[0]] + rest[1..];
        if |rest| == 1 {
          assert JoinFields(parts) == [s[0]] + rest[0];
        } else {
          assert parts[1..] == rest[1..];
          assert JoinFields(rest) == rest[0] + [','] + JoinFields(rest[1..]);
          assert JoinFields(parts) == [s[0]] + rest[0] + [','] + JoinFields(rest[1..]);
        }
        assert s == [s[0]] + s[1..];
      }
    }
  }

  // ---------------------------------------------------------------------------
  // The registry key
  // ---------------------------------------------------------------------------

  /** `serializeLocation`: `world,x,y,z`, or the empty string when the world is null. */
  function Serialize(l: Location): string
  {
    match l.world
    case None => ""
    case Some(w) => w + "," + FormatInt(l.x) + "," + FormatInt(l.y) + "," + FormatInt(l.z)
  }

  /**
    `deserializeLocation`: None for the empty string, for anything that does
    not split into exactly four fields, for a world the server does not
    resolve, and for a coordinate `Integer.parseInt` refuses. `worlds` maps
    each name the server resolves (`Bukkit.getWorld`) to the name of the
    loaded world it resolves to.
   */
  function Deserialize(s: string, worlds: map<string, string>): (r: Option<Location>)
    ensures |s| == 0 ==> r == None
    ensures |JavaSplit(s)| != 4 ==> r == None
    ensures r.Some? ==> JavaSplit(s)[0] in worlds && r.value.world == Some(worlds[JavaSplit(s)[0]])
    ensures r.Some? ==>
      ParseInt(JavaSplit(s)[1]) == Some(r.value.x) &&
      ParseInt(JavaSplit(s)[2]) == Some(r.value.y) &&
      ParseInt(JavaSplit(s)[3]) == Some(r.value.z)
    ensures r.Some? <==>
      |s| > 0 && |JavaSplit(s)| == 4 && JavaSplit(s)[0] in worlds &&
      ParseInt(JavaSplit(s)[1]).Some? && ParseInt(JavaSplit(s)[2]).Some? && ParseInt(JavaSplit(s)[3]).Some?
  {
    if |s| == 0 then None
    else
      var parts := JavaSplit(s);
      if |parts| != 4 then None
      else if parts[0] !in worlds then None
      else match (ParseInt(parts[1]), ParseInt(parts[2]), ParseInt(parts[3]))
        case (Some(x), Some(y), Some(z)) => Some(Location(Some(worlds[parts[0]]), x, y, z))
        case _ => None
  }

  /** The fields of a key: the world name's own fields followed by the three coordinates. */
  lemma SerializeFields(l: Location)
    requires l.world.Some?
    ensures SplitAll(Serialize(l)) == SplitAll(l.world.value) + [FormatInt(l.x), FormatInt(l.y), FormatInt(l.z)]
  {
    var w, x, y, z := l.world.value, FormatInt(l.x), FormatInt(l.y), FormatInt(l.z);
    assert Serialize(l) == w + [','] + (x + [','] + (y + [','] + z));
    SplitAtComma(w, x + [','] + (y + [','] + z));
    SplitAtComma(x, y + [','] + z);
    SplitAtComma(y, z);
    SplitWithoutComma(x);
    SplitWithoutComma(y);
    SplitWithoutComma(z);
  }

  /** Round trip: a key deserializes to the location it was made from, when the world name has no comma and resolves to itself. */
  lemma DeserializeSerialize(l: Location, worlds: map<string, string>)
    requires l.world.Some? && ',' !in l.world.value
    requires l.world.value in worlds && worlds[l.world.value] == l.world.value
    ensures Deserialize(Serialize(l), worlds) == Some(l)
  {
    var s := Serialize(l);
    SerializeFields(l);
    SplitWithoutComma(l.world.value);
    var fields := [l.world.value, FormatInt(l.x), FormatInt(l.y), FormatInt(l.z)];
    assert SplitAll(s) == fields;
    assert s[|l.world.value|] == ',';
    assert JavaSplit(s) == fields;
    ParseFormat(l.x);
    ParseFormat(l.y);
    ParseFormat(l.z);
  }

  /** Two locations with a world share a key only if they are the same location, so the registry holds at most one shop per block. */
  lemma SerializeInjective(a: Location, b: Location)
    requires a.world.Some? && b.world.Some?
    requires Serialize(a) == Serialize(b)
    ensures a == b
  {
    SerializeFields(a);
    SerializeFields(b);
    var pa, pb := SplitAll(a.world.value), SplitAll(b.world.value);
    var fa := pa + [FormatInt(a.x), FormatInt(a.y), FormatInt(a.z)];
    var fb := pb + [FormatInt(b.x), FormatInt(b.y), FormatInt(b.z)];
    assert fa == fb;
    assert |pa| == |pb|;
    assert fa[|pa|] == FormatInt(a.x) && fb[|pb|] == FormatInt(b.x);
    assert fa[|pa| + 1] == FormatInt(a.y) && fb[|pb| + 1] == FormatInt(b.y);
    assert fa[|pa| + 2] == FormatInt(a.z) && fb[|pb| + 2] == FormatInt(b.z);
    FormatIntInjective(a.x, b.x);
    FormatIntInjective(a.y, b.y);
    FormatIntInjective(a.z, b.z);
    assert pa == fa[..|pa|] == fb[..|pb|] == pb;
    JoinSplit(a.world.value);
    JoinSplit(b.world.value);
  }

  /** The key is empty exactly when the world is null; otherwise it starts with the world's name and a comma. */
  lemma SerializeShape(l: Location)
    ensures Serialize(l) == "" <==> l.world.None?
    ensures l.world.Some? ==>
      |Serialize(l)| > |l.world.value| && Serialize(l)[..|l.world.value| + 1] == l.world.value + ","
  {
    if l.world.Some? {
      var w, rest := l.world.value, FormatInt(l.x) + "," + FormatInt(l.y) + "," + FormatInt(l.z);
      assert Serialize(l) == (w + ",") + rest;
    }
  }

  /** Every location of a null world collapses onto the one empty key. */
  lemma NullWorldsShareKey(a: Location, b: Location)
    requires a.world.None? && b.world.None?
    ensures Serialize(a) == Serialize(b) == ""
  {
  }

  /** `split` drops trailing empty fields, so a key followed by a stray comma still deserializes to the same location. */
  lemma TrailingCommaAccepted(l: Location, worlds: map<string, string>)
    requires l.world.Some? && ',' !in l.world.value
    requires l.world.value in worlds && worlds[l.world.value] == l.world.value
    ensures Deserialize(Serialize(l) + ",", worlds) == Some(l)
  {
    var s := Serialize(l);
    var fields := [l.world.value, FormatInt(l.x), FormatInt(l.y), FormatInt(l.z)];
    SerializeFields(l);
    SplitWithoutComma(l.world.value);
    assert SplitAll(s) == fields;
    SplitAtComma(s, "");
    assert s + "," == s + [','] + "";
    assert SplitAll(s + ",") == fields + [""];
    assert (s + ",")[|s|] == ',';
    assert DropTrailingEmpty(fields + [""]) == fields by {
      assert (fields + [""])[..4] == fields;
    }
    ParseFormat(l.x);
    ParseFormat(l.y);
    ParseFormat(l.z);
  }
}
