/**
  Decimal rendering of indices and the string keys derived from them.

  Both the runtime script and the editor tool build names by interpolating a
  1-based index into a fixed prefix (`Video_3`, `HideVideo3`, `ShowVideo3`,
  `VideoPlayer3`). The point of this module is that these names identify their
  index: distinct indices never share a key, and keys with different prefixes
  never collide.
 */
module Keys {

  predicate IsDigit(c: char) {
    '0' <= c <= '9'
  }

  predicate AllDigits(s: string) {
    forall k :: 0 <= k < |s| ==> IsDigit(s[k])
  }

  function DigitChar(d: nat): (c: char)
    requires d < 10
    ensures IsDigit(c)
    ensures c as int - '0' as int == d
  {
    "0123456789"[d]
  }

  function DigitValue(c: char): (d: nat)
    requires IsDigit(c)
    ensures d < 10
  {
    c as int - '0' as int
  }

  /** The decimal text of `n`, as string interpolation renders a non-negative integer. */
  function NatToString(n: nat): (s: string)
    ensures |s| >= 1 && AllDigits(s)
    ensures s[0] == '0' ==> n == 0
    decreases n
  {
    if n < 10 then [DigitChar(n)] else NatToString(n / 10) + [DigitChar(n % 10)]
  }

  /** Reads a string of decimal digits back as a number (the inverse of NatToString). */
  function ParseDecimal(s: string): nat
    requires AllDigits(s)
    decreases |s|
  {
    if s == [] then 0 else ParseDecimal(s[..|s| - 1]) * 10 + DigitValue(s[|s| - 1])
  }

  lemma {:induction false} ParseNatToString(n: nat)
    ensures ParseDecimal(NatToString(n)) == n
    decreases n
  {
    var s := NatToString(n);
    if n >= 10 {
      var p := NatToString(n / 10);
      assert s == p + [DigitChar(n % 10)];
      assert s[..|s| - 1] == p;
      ParseNatToString(n / 10);
    }
  }

  /** Distinct numbers have distinct decimal texts. */
  lemma NatToStringInjective(a: nat, b: nat)
    ensures NatToString(a) == NatToString(b) <==> a == b
  {
    if NatToString(a) == NatToString(b) {
      ParseNatToString(a);
      ParseNatToString(b);
    }
  }

  /** `prefix` followed by the 1-based position `i + 1`. */
  function IndexedKey(prefix: string, i: nat): string {
    prefix + NatToString(i + 1)
  }

  /** Two keys with the same prefix are equal exactly when their indices are. */
  lemma IndexedKeyInjective(prefix: string, i: nat, j: nat)
    ensures IndexedKey(prefix, i) == IndexedKey(prefix, j) <==> i == j
  {
    if IndexedKey(prefix, i) == IndexedKey(prefix, j) {
      assert IndexedKey(prefix, i)[|prefix|..] == NatToString(i + 1);
      assert IndexedKey(prefix, j)[|prefix|..] == NatToString(j + 1);
      NatToStringInjective(i + 1, j + 1);
    }
  }

  /** Signal key sent by the runtime script when node `i` becomes active. */
  function VideoKey(i: nat): string {
    IndexedKey("Video_", i)
  }

  /** Gimmick key that hides node `i`. */
  function HideKey(i: nat): string {
    IndexedKey("HideVideo", i)
  }

  /** Gimmick key that shows node `i`. */
  function ShowKey(i: nat): string {
    IndexedKey("ShowVideo", i)
  }

  /** Name of the object created for node `i`. */
  function PlayerName(i: nat): string {
    IndexedKey("VideoPlayer", i)
  }

  lemma HideKeyInjective(i: nat, j: nat)
    ensures HideKey(i) == HideKey(j) <==> i == j
  {
    IndexedKeyInjective("HideVideo", i, j);
  }

  lemma ShowKeyInjective(i: nat, j: nat)
    ensures ShowKey(i) == ShowKey(j) <==> i == j
  {
    IndexedKeyInjective("ShowVideo", i, j);
  }

  lemma PlayerNameInjective(i: nat, j: nat)
    ensures PlayerName(i) == PlayerName(j) <==> i == j
  {
    IndexedKeyInjective("VideoPlayer", i, j);
  }

  /** A hide key is never a show key: the prefixes differ in their first letter. */
  lemma HideShowDistinct(i: nat, j: nat)
    ensures HideKey(i) != ShowKey(j)
  {
    assert HideKey(i)[0] == 'H' && ShowKey(j)[0] == 'S';
  }

  /**
    No two of the four prefixed names coincide, whatever their indices: the
    video key and the player name part at their sixth character (`_` against
    `P`), every other pair at its first.
   */
  lemma PrefixesDistinct(i: nat, j: nat)
    ensures VideoKey(i) != HideKey(j) && VideoKey(i) != ShowKey(j) && VideoKey(i) != PlayerName(j)
    ensures HideKey(i) != ShowKey(j) && HideKey(i) != PlayerName(j) && ShowKey(i) != PlayerName(j)
    ensures HideKey(j) != PlayerName(i) && ShowKey(j) != PlayerName(i)
  {
    HideShowDistinct(i, j);
    assert VideoKey(i)[0] == 'V' && VideoKey(i)[5] == '_' && PlayerName(j)[5] == 'P';
    assert HideKey(j)[0] == 'H' && ShowKey(j)[0] == 'S' && PlayerName(j)[0] == 'V';
    assert HideKey(i)[0] == 'H' && ShowKey(i)[0] == 'S' && PlayerName(i)[0] == 'V';
  }

  /** Keys the editor tool and the runtime script derive for node 0 (shown as decimal 1). */
  lemma FirstKeys()
    ensures VideoKey(0) == "Video_1" && HideKey(0) == "HideVideo1"
    ensures ShowKey(0) == "ShowVideo1" && PlayerName(0) == "VideoPlayer1"
  {
  }
}
