/** Sprite image addresses (src/sprites.ts, `getSpriteURL`). */
module Sprites {
  import opened Versions

  /** The fixed pattern that picks Gold or Silver art for a creature index. */
  const RandomArray: seq<int> := [0, 1, 1, 0, 1, 0, 0, 0, 1, 1, 0, 1, 0, 1]

  const Prefix: string := "https://raw.githubusercontent.com/PokeAPI/sprites/master/sprites/pokemon/"

  predicate IsDigit(c: char) {
    '0' <= c <= '9'
  }

  function DigitChar(d: int): (c: char)
    requires 0 <= d < 10
    ensures IsDigit(c) && c as int - '0' as int == d
  {
    ('0' as int + d) as char
  }

  /** The number a string of decimal digits denotes. */
  function DecimalValue(s: string): nat
    requires forall c :: c in s ==> IsDigit(c)
  {
    if s == [] then 0
    else
      assert forall c :: c in s[..|s| - 1] ==> c in s;
      assert s[|s| - 1] in s && IsDigit(s[|s| - 1]);
      DecimalValue(s[..|s| - 1]) * 10 + (s[|s| - 1] as int - '0' as int)
  }

  /** Decimal digits of `n`, without leading zeros, as JavaScript writes a number. */
  function NatToString(n: nat): (s: string)
    ensures |s| >= 1 && (|s| > 1 ==> s[0] != '0')
    ensures forall c :: c in s ==> IsDigit(c)
    ensures DecimalValue(s) == n
  {
    if n < 10 then [DigitChar(n)]
    else
      var s := NatToString(n / 10) + [DigitChar(n % 10)];
      assert s[..|s| - 1] == NatToString(n / 10);
      s
  }

  /** `"" + n` for an integer `n`. */
  function IntToString(n: int): (s: string)
    ensures s != "" && s[|s| - 1] != '-'
    ensures n >= 0 ==> (forall c :: c in s ==> IsDigit(c)) && DecimalValue(s) == n
    ensures n < 0 ==> s[0] == '-' && (forall c :: c in s[1..] ==> IsDigit(c)) && DecimalValue(s[1..]) == -n
    ensures n >= 0 ==> (|s| > 1 ==> s[0] != '0')
    ensures n < 0 ==> |s| >= 2 && s[1] != '0'
  {
    if n < 0 then "-" + NatToString(-n) else NatToString(n)
  }

  /** JavaScript's `%`, which truncates toward zero. */
  function JsRemainder(a: int, b: int): (r: int)
    requires b > 0
    ensures -b < r < b
    ensures a >= 0 ==> r == a % b
    ensures a < 0 ==> r <= 0
  {
    if a >= 0 then a % b else -((-a) % b)
  }

  /**
   * The directory name used for the edition: its key, except that Gold/Silver art is split
   * between "gold" and "silver" by `RandomArray`. A negative index reads past the start of
   * the array, which yields `undefined` and so "silver".
   */
  function VersionDirectory(ver: Version, idx: int): (dir: string)
    ensures dir == VersionKey(ver) || dir == "gold" || dir == "silver"
  {
    var key := VersionKey(ver);
    if key == "gold-silver" then
      var r := JsRemainder(idx, |RandomArray|);
      if 0 <= r && RandomArray[r] != 0 then "gold" else "silver"
    else key
  }

  /**
   * What `getSpriteURL` puts between the prefix and ".png": the index alone for the editions
   * without a generation directory, otherwise "versions/<generation>/<edition>/<index>".
   */
  function SpritePath(ver: Version, idx: int): (path: string)
    ensures UnversionedSprites(ver) ==> path == IntToString(idx)
    ensures !UnversionedSprites(ver) ==>
      path == "versions/" + Generation(ver) + "/" + VersionDirectory(ver, idx) + "/" + IntToString(idx)
  {
    var gen := Generation(ver);
    if |gen| == 0 then IntToString(idx)
    else "versions/" + gen + "/" + VersionDirectory(ver, idx) + "/" + IntToString(idx)
  }

  /** `getSpriteURL`: every address lies under the sprite tree and names a PNG file. */
  function SpriteURL(ver: Version, idx: int): (url: string)
    ensures Prefix <= url
    ensures |url| >= 4 && url[|url| - 4..] == ".png"
    ensures url == Prefix + SpritePath(ver, idx) + ".png"
  {
    Framed(Prefix, SpritePath(ver, idx), ".png");
    Prefix + SpritePath(ver, idx) + ".png"
  }

  lemma Framed(front: string, middle: string, back: string)
    ensures front <= front + middle + back
    ensures (front + middle + back)[|front + middle + back| - |back|..] == back
  {
    assert (front + middle + back)[..|front|] == front;
  }

  /** Only Gold/Silver departs from the edition key, and it picks one of its two halves. */
  lemma VersionDirectoryChoice(ver: Version, idx: int)
    ensures ver != GS ==> VersionDirectory(ver, idx) == VersionKey(ver)
    ensures ver == GS ==> VersionDirectory(ver, idx) in {"gold", "silver"}
    ensures ver == GS && idx >= 0 ==> (VersionDirectory(ver, idx) == "gold" <==> RandomArray[idx % 14] == 1)
    ensures ver == GS && idx < 0 ==> VersionDirectory(ver, idx) == "silver"
  {
    if VersionKey(ver) == "gold-silver" {
      assert VersionKey(GS) == "gold-silver";
      VersionKeyInjective(ver, GS);
    }
  }

  /** The Gold/Silver choice is a function of the index with period 14. */
  lemma {:induction false} GoldSilverPeriodic(idx: int)
    requires idx >= 0
    ensures VersionDirectory(GS, idx + 14) == VersionDirectory(GS, idx)
  {
    assert (idx + 14) % 14 == idx % 14;
  }
}
