/** The little-endian images of values in a property stream. */
module PropBytes {
  import opened Bytes

  type half = v: int | 0 <= v < 0x1_0000
  type word = v: int | 0 <= v < 0x1_0000_0000
  type int32 = v: int | -0x8000_0000 <= v < 0x8000_0000

  function Le16(v: half): (s: seq<byte>)
    ensures |s| == 2
  {
    [v % 256, v / 256]
  }

  function Un16(s: seq<byte>): half
    requires |s| == 2
  {
    s[0] as int + s[1] as int * 256
  }

  function Le32(v: word): (s: seq<byte>)
    ensures |s| == 4
  {
    [v % 256, v / 256 % 256, v / 0x1_0000 % 256, v / 0x100_0000]
  }

  function Un32(s: seq<byte>): word
    requires |s| == 4
  {
    s[0] as int + s[1] as int * 256 + s[2] as int * 0x1_0000 + s[3] as int * 0x100_0000
  }

  function ToWord(v: int32): word {
    if v < 0 then v + 0x1_0000_0000 else v
  }

  function ToInt(v: word): int32 {
    if v < 0x8000_0000 then v else v - 0x1_0000_0000
  }

  lemma WordBack(v: word)
    ensures Un32(Le32(v)) == v
  {
    var a, b, c := v / 256, v / 0x1_0000, v / 0x100_0000;
    Divided(v, 256, a, b);
    Divided(v, 0x1_0000, b, c);
    assert v == 256 * a + v % 256 && a == 256 * b + a % 256 && b == 256 * c + b % 256;
  }

  /** The lowest byte comes first. */
  lemma LowestFirst(v: word)
    ensures var s := Le32(v);
      s[0] as int + 0x100 * s[1] as int + 0x1_0000 * s[2] as int + 0x100_0000 * s[3] as int == v
  {
    WordBack(v);
  }

  lemma Divided(v: nat, d: nat, q: nat, r: nat)
    requires (d == 256 || d == 0x1_0000) && q == v / d && r == v / (256 * d)
    ensures r == q / 256
  {
    assert d * q <= v < d * q + d && 256 * (q / 256) <= q < 256 * (q / 256) + 256;
  }

  lemma HalfBack(v: half)
    ensures Un16(Le16(v)) == v
  {
  }

  lemma IntBack(v: int32)
    ensures ToInt(Un32(Le32(ToWord(v)))) == v
  {
    WordBack(ToWord(v));
  }

  /** The n bytes at p, if there are that many. */
  predicate Has(bytes: seq<byte>, p: nat, n: nat) {
    p + n <= |bytes|
  }

  function Part(bytes: seq<byte>, p: nat, n: nat): (s: seq<byte>)
    requires Has(bytes, p, n)
    ensures |s| == n
  {
    bytes[p..p + n]
  }

  // ---------------------------------------------------------------- strings

  /** ADD_STRING: a 16-bit length, and as many bytes as it says. */
  function PutString(s: seq<byte>): seq<byte> {
    var len: half := |s| % 0x1_0000;
    Le16(len) + s[..len]
  }

  /** A C string ends at its first zero. */
  function UpToZero(s: seq<byte>): seq<byte> {
    if s == [] || s[0] == 0 then [] else [s[0]] + UpToZero(s[1..])
  }

  datatype StringRead = NoString | StringRead(value: seq<byte>, at: nat)

  /** GET_STRING */
  function GetString(bytes: seq<byte>, p: nat): StringRead {
    if !Has(bytes, p, 2) then NoString
    else
      var len := Un16(Part(bytes, p, 2));
      if !Has(bytes, p + 2, len) then NoString
      else StringRead(UpToZero(Part(bytes, p + 2, len)), p + 2 + len)
  }

  lemma {:induction false} NoZero(s: seq<byte>)
    ensures |UpToZero(s)| <= |s| && (UpToZero(s) == s <==> 0 !in s)
  {
    if s != [] && s[0] != 0 {
      NoZero(s[1..]);
      assert s == [s[0]] + s[1..];
    }
  }

  /** A string comes back exactly if its length fits 16 bits and it holds no zero byte; the stream is never left
      askew. */
  lemma StringBack(s: seq<byte>, before: seq<byte>, after: seq<byte>)
    ensures var r := GetString(before + PutString(s) + after, |before|);
      && r.StringRead? && r.at == |before| + |PutString(s)|
      && (r.value == s <==> |s| < 0x1_0000 && 0 !in s)
  {
    var len: half := |s| % 0x1_0000;
    var bytes := before + PutString(s) + after;
    HalfBack(len);
    assert Part(bytes, |before|, 2) == Le16(len);
    assert Part(bytes, |before| + 2, len) == s[..len];
    NoZero(s[..len]);
    if |s| < 0x1_0000 {
      assert s[..len] == s;
    }
  }
}
