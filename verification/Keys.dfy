/** The text form of a WireGuard key: base64 as in section 4 of RFC 4648, and why `ValidKey` accepts
    exactly the encodings of 32 bytes that are not all zero. */
module Keys {
  import opened Policy

  type Byte = x: int | 0 <= x < 256

  function Digit(n: int): (c: char)
    requires 0 <= n < 64
    ensures IsBase64(c) && (c == 'A' <==> n == 0)
  {
    if n < 26 then ('A' as int + n) as char
    else if n < 52 then ('a' as int + n - 26) as char
    else if n < 62 then ('0' as int + n - 52) as char
    else if n == 62 then '+' else '/'
  }

  function Value(c: char): (n: int)
    requires IsBase64(c)
    ensures 0 <= n < 64 && Digit(n) == c
  {
    if 'A' <= c <= 'Z' then c as int - 'A' as int
    else if 'a' <= c <= 'z' then c as int - 'a' as int + 26
    else if '0' <= c <= '9' then c as int - '0' as int + 52
    else if c == '+' then 62 else 63
  }

  function Group(x: Byte, y: Byte, z: Byte): string {
    [Digit(x / 4), Digit(x % 4 * 16 + y / 16), Digit(y % 16 * 4 + z / 64), Digit(z % 64)]
  }

  function Tail(x: Byte, y: Byte): string {
    [Digit(x / 4), Digit(x % 4 * 16 + y / 16), Digit(y % 16 * 4)]
  }

  /** Three bytes become four digits; one or two that are left over are padded. */
  function Encode(b: seq<Byte>): string {
    if |b| == 0 then ""
    else if |b| == 1 then [Digit(b[0] / 4), Digit(b[0] % 4 * 16), '=', '=']
    else if |b| == 2 then Tail(b[0], b[1]) + "="
    else Group(b[0], b[1], b[2]) + Encode(b[3..])
  }

  predicate Zero(b: seq<Byte>) {
    forall i :: 0 <= i < |b| ==> b[i] == 0
  }

  predicate Blank(digits: string) {
    forall i :: 0 <= i < |digits| ==> digits[i] == 'A'
  }

  /** The digits whose last two bits are zero. */
  predicate IsLast(c: char) {
    c in "AEIMQUYcgkosw048"
  }

  /** `k` groups of four digits, and three digits with one pad for the two bytes left over. */
  predicate Padded(s: string, k: nat) {
    && |s| == 4 * k + 4 && s[4 * k + 3] == '=' && IsLast(s[4 * k + 2])
    && forall i :: 0 <= i < 4 * k + 3 ==> IsBase64(s[i])
  }

  /** Three digits of which the last carries four bits. */
  predicate TailText(s: string) {
    |s| == 3 && IsBase64(s[0]) && IsBase64(s[1]) && IsLast(s[2])
  }

  predicate GroupText(s: string) {
    |s| == 4 && forall i :: 0 <= i < 4 ==> IsBase64(s[i])
  }

  lemma LastDigit(x: int)
    requires 0 <= x < 16
    ensures IsLast(Digit(x * 4))
  {
    assert Digit(x * 4) == "AEIMQUYcgkosw048"[x];
  }

  lemma ZeroTail(x: Byte, y: Byte)
    ensures x == 0 && y == 0 <==> x / 4 == 0 && x % 4 * 16 + y / 16 == 0 && y % 16 * 4 == 0
  {
  }

  /** The four numbers whose digits a group is. */
  lemma GroupParts(x: Byte, y: Byte, z: Byte) returns (a: int, b: int, c: int, d: int)
    ensures 0 <= a < 64 && 0 <= b < 64 && 0 <= c < 64 && 0 <= d < 64
    ensures Group(x, y, z) == [Digit(a), Digit(b), Digit(c), Digit(d)]
    ensures x == 0 && y == 0 && z == 0 <==> a == 0 && b == 0 && c == 0 && d == 0
  {
    hide Digit;
    a, b, c, d := x / 4, x % 4 * 16 + y / 16, y % 16 * 4 + z / 64, z % 64;
  }

  lemma BlankThree(s: string)
    requires |s| == 3
    ensures Blank(s) <==> s[0] == 'A' && s[1] == 'A' && s[2] == 'A'
  {
  }

  lemma BlankFour(s: string)
    requires |s| == 4
    ensures Blank(s) <==> s[0] == 'A' && s[1] == 'A' && s[2] == 'A' && s[3] == 'A'
  {
  }

  lemma ThreeDigits(a: int, b: int, c: int)
    requires 0 <= a < 64 && 0 <= b < 64 && 0 <= c < 16
    ensures TailText([Digit(a), Digit(b), Digit(c * 4)])
    ensures Blank([Digit(a), Digit(b), Digit(c * 4)]) <==> a == 0 && b == 0 && c == 0
  {
    hide Digit, IsLast, Blank, IsBase64;
    LastDigit(c);
    BlankThree([Digit(a), Digit(b), Digit(c * 4)]);
  }

  lemma FourDigits(a: int, b: int, c: int, d: int)
    requires 0 <= a < 64 && 0 <= b < 64 && 0 <= c < 64 && 0 <= d < 64
    ensures var s := [Digit(a), Digit(b), Digit(c), Digit(d)];
      GroupText(s) && (Blank(s) <==> a == 0 && b == 0 && c == 0 && d == 0)
  {
    hide Digit, Blank, IsBase64;
    BlankFour([Digit(a), Digit(b), Digit(c), Digit(d)]);
  }

  lemma TailIsText(x: Byte, y: Byte)
    ensures TailText(Tail(x, y)) && (x == 0 && y == 0 <==> Blank(Tail(x, y)))
  {
    hide Digit, TailText, Blank;
    ZeroTail(x, y);
    ThreeDigits(x / 4, x % 4 * 16 + y / 16, y % 16);
  }

  lemma GroupIsText(x: Byte, y: Byte, z: Byte)
    ensures GroupText(Group(x, y, z)) && (x == 0 && y == 0 && z == 0 <==> Blank(Group(x, y, z)))
  {
    hide Digit, Blank, GroupText, Group;
    var a, b, c, d := GroupParts(x, y, z);
    FourDigits(a, b, c, d);
  }

  lemma {:induction false} EncodingIsPadded(b: seq<Byte>, k: nat)
    requires |b| == 3 * k + 2
    ensures Padded(Encode(b), k)
    ensures Zero(b) <==> Blank(Encode(b)[..4 * k + 3])
  {
    hide Group, Tail, IsBase64, IsLast, Blank;
    if k == 0 {
      TailIsText(b[0], b[1]);
      LastIsWhole(Tail(b[0], b[1])[2]);
      assert Encode(b)[..3] == Tail(b[0], b[1]);
    } else {
      var rest := Encode(b[3..]);
      var head := Group(b[0], b[1], b[2]);
      EncodingIsPadded(b[3..], k - 1);
      GroupIsText(b[0], b[1], b[2]);
      ZeroAfter(b);
      assert (head + rest)[..4 * k + 3] == head + rest[..4 * k - 1];
      BlankHalves(head, rest[..4 * k - 1]);
      PaddedMore(head, rest, k - 1);
    }
  }

  lemma PaddedMore(head: string, rest: string, k: nat)
    requires GroupText(head) && Padded(rest, k)
    ensures Padded(head + rest, k + 1)
  {
    hide IsBase64, IsLast;
    assert (head + rest)[4 * k + 6] == rest[4 * k + 2];
  }

  lemma ZeroAfter(b: seq<Byte>)
    requires |b| >= 3
    ensures Zero(b) <==> b[0] == 0 && b[1] == 0 && b[2] == 0 && Zero(b[3..])
  {
    assert forall i :: 3 <= i < |b| ==> b[i] == b[3..][i - 3];
  }

  lemma BlankHalves(a: string, b: string)
    ensures Blank(a + b) <==> Blank(a) && Blank(b)
  {
    assert forall i :: 0 <= i < |b| ==> (a + b)[|a| + i] == b[i];
    assert forall i :: 0 <= i < |a| ==> (a + b)[i] == a[i];
  }

  lemma GroupOf(s: string) returns (x: Byte, y: Byte, z: Byte)
    requires GroupText(s)
    ensures Group(x, y, z) == s
  {
    var a, b, c, d := Value(s[0]), Value(s[1]), Value(s[2]), Value(s[3]);
    hide Digit, Value, IsBase64, IsLast;
    x, y, z := a * 4 + b / 16, b % 16 * 16 + c / 4, c % 4 * 64 + d;
    assert x / 4 == a && x % 4 * 16 + y / 16 == b;
    assert y % 16 * 4 + z / 64 == c && z % 64 == d;
  }

  lemma TailOf(s: string) returns (x: Byte, y: Byte)
    requires TailText(s)
    ensures Tail(x, y) == s
  {
    LastIsWhole(s[2]);
    var a, b, c := Value(s[0]), Value(s[1]), Value(s[2]);
    hide Digit, Value, IsBase64, IsLast;
    x, y := a * 4 + b / 16, b % 16 * 16 + c / 4;
    assert x / 4 == a && x % 4 * 16 + y / 16 == b && y % 16 * 4 == c;
  }

  lemma {:induction false} PaddedIsEncoding(s: string, k: nat) returns (b: seq<Byte>)
    requires Padded(s, k)
    ensures |b| == 3 * k + 2 && Encode(b) == s
  {
    hide Group, Tail, IsBase64, IsLast, Value;
    if k == 0 {
      var x, y := TailOf(s[..3]);
      b := [x, y];
      assert s == s[..3] + "=";
    } else {
      assert Padded(s[4..], k - 1);
      var rest := PaddedIsEncoding(s[4..], k - 1);
      var x, y, z := GroupOf(s[..4]);
      b := [x, y, z] + rest;
      assert b[3..] == rest && s == s[..4] + s[4..];
    }
  }

  lemma LastIsWhole(c: char)
    requires IsLast(c)
    ensures IsBase64(c) && Value(c) % 4 == 0
  {
  }

  /** Main theorem. A key is valid exactly when it is the encoding of 32 bytes that are not all zero. */
  lemma ValidKeysExactly(key: string)
    ensures ValidKey(key) <==> exists b: seq<Byte> :: |b| == 32 && !Zero(b) && Encode(b) == key
  {
    hide Encode, Padded, ValidKey, Zero, Blank;
    ValidIsPadded(key);
    if Padded(key, 10) {
      var b := PaddedIsEncoding(key, 10);
      EncodingIsPadded(b, 10);
    }
    if b: seq<Byte> :| |b| == 32 && !Zero(b) && Encode(b) == key {
      EncodingIsPadded(b, 10);
      assert |key| == 44 by { PaddedLength(key); }
    }
  }

  lemma PaddedLength(key: string)
    requires Padded(key, 10)
    ensures |key| == 44
  {
  }

  lemma ValidIsPadded(key: string)
    ensures ValidKey(key) <==> Padded(key, 10) && |key| == 44 && !Blank(key[..43])
  {
    hide IsBase64;
    if |key| == 44 {
      var digits := key[..43];
      assert forall i :: 0 <= i < 43 ==> digits[i] == key[i];
    }
  }
}
