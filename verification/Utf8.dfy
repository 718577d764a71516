/** UTF-8 byte strings (RFC 3629, section 4).
  * A text is its byte string, and a byte is written as the char with that code, so that ASCII
  * text can be written as a string literal. */
module Utf8 {

  /** A continuation byte, `10xxxxxx`. */
  predicate IsCont(b: char) {
    '\U{80}' <= b < '\U{C0}'
  }

  predicate IsAscii(b: char) {
    b < '\U{80}'
  }

  /** The number of bytes of the character that starts with lead byte `b`. */
  function CharLen(b: char): (n: nat)
    ensures 1 <= n <= 4
  {
    if b < '\U{80}' then 1 else if b < '\U{E0}' then 2 else if b < '\U{F0}' then 3 else 4
  }

  /** One well-formed character: the productions UTF8-1 to UTF8-4. */
  predicate IsChar(c: string) {
    match |c|
    case 1 => IsAscii(c[0])
    case 2 => '\U{C2}' <= c[0] < '\U{E0}' && IsCont(c[1])
    case 3 =>
      && '\U{E0}' <= c[0] < '\U{F0}' && IsCont(c[1]) && IsCont(c[2])
      && (c[0] == '\U{E0}' ==> '\U{A0}' <= c[1])
      && (c[0] == '\U{ED}' ==> c[1] < '\U{A0}')
    case 4 =>
      && '\U{F0}' <= c[0] <= '\U{F4}' && IsCont(c[1]) && IsCont(c[2]) && IsCont(c[3])
      && (c[0] == '\U{F0}' ==> '\U{90}' <= c[1])
      && (c[0] == '\U{F4}' ==> c[1] < '\U{90}')
    case _ => false
  }

  predicate Valid(s: string) {
    s == "" ||
    var n := CharLen(s[0]);
    n <= |s| && IsChar(s[..n]) && Valid(s[n..])
  }

  /** The bytes of a character (section 3). */
  function Encode(c: char): (bytes: string)
    ensures bytes != ""
  {
    var n := c as int;
    if n < 0x80 then [c]
    else if n < 0x800 then [Byte(0xC0 + n / 64), Tail(n)]
    else if n < 0x1_0000 then [Byte(0xE0 + n / 4096), Tail(n / 64), Tail(n)]
    else [Byte(0xF0 + n / 262144), Tail(n / 4096), Tail(n / 64), Tail(n)]
  }

  function Byte(n: nat): char
    requires n < 256
  {
    n as char
  }

  /** The continuation byte with the six low bits of `n`. */
  function Tail(n: nat): char {
    Byte(0x80 + n % 64)
  }

  lemma {:induction false} EncodeIsChar(c: char)
    ensures IsChar(Encode(c)) && CharLen(Encode(c)[0]) == |Encode(c)|
  {
  }

  /** A position at which a text may be cut. */
  predicate Boundary(s: string, i: nat) {
    i <= |s| && (i == 0 || i == |s| || !IsCont(s[i]))
  }

  /** Cutting out a piece of a text; the program stops when an end is not a boundary. */
  function Slice(s: string, i: nat, j: nat): string
    requires i <= j && Boundary(s, i) && Boundary(s, j)
  {
    s[i..j]
  }

  /** Both halves of a text cut at a boundary are texts. */
  lemma {:induction false} ValidSplit(s: string, i: nat)
    requires Valid(s) && Boundary(s, i)
    ensures Valid(s[..i]) && Valid(s[i..])
  {
    if i == 0 {
      assert s[0..] == s;
    } else {
      var n := CharLen(s[0]);
      if i < n {
        assert false;
      } else {
        var rest := s[n..];
        if i < |s| { assert rest[i - n] == s[i]; }
        if 0 < |rest| { LeadIsNotCont(rest); }
        ValidSplit(rest, i - n);
        assert rest[i - n..] == s[i..];
        assert s[..i][..n] == s[..n] && s[..i][n..] == rest[..i - n];
      }
    }
  }

  lemma {:induction false} LeadIsNotCont(s: string)
    requires Valid(s) && s != ""
    ensures !IsCont(s[0])
  {
    var n := CharLen(s[0]);
    assert s[..n][0] == s[0];
  }

  lemma {:induction false} ValidSlice(s: string, i: nat, j: nat)
    requires Valid(s) && i <= j && Boundary(s, i) && Boundary(s, j)
    ensures Valid(s[i..j])
  {
    ValidSplit(s, j);
    if i < j { assert s[..j][i] == s[i]; }
    ValidSplit(s[..j], i);
    assert s[..j][i..] == s[i..j];
  }

  lemma {:induction false} ValidConcat(s: string, t: string)
    requires Valid(s) && Valid(t)
    ensures Valid(s + t)
  {
    if s == "" {
      assert s + t == t;
    } else {
      var n := CharLen(s[0]);
      ValidConcat(s[n..], t);
      assert (s + t)[..n] == s[..n] && (s + t)[n..] == s[n..] + t;
    }
  }

  lemma {:induction false} AsciiValid(s: string)
    requires forall c | c in s :: IsAscii(c)
    ensures Valid(s)
  {
    if s != "" {
      assert s[0] in s && s[..1][0] == s[0];
      AsciiValid(s[1..]);
    }
  }

  lemma {:induction false} CharShape(t: string)
    requires Valid(t) && t != ""
    ensures CharLen(t[0]) <= |t| && !IsCont(t[0])
    ensures forall k | 0 < k < CharLen(t[0]) :: IsCont(t[k])
    ensures Valid(t[CharLen(t[0])..])
  {
    var n := CharLen(t[0]);
    var c := t[..n];
    assert c[0] == t[0];
    assert forall k | 0 < k < n :: t[k] == c[k];
  }

  /** Stepping over the character at a boundary leads to a boundary. */
  lemma {:induction false} NextBoundary(s: string, i: nat)
    requires Valid(s) && Boundary(s, i) && i < |s|
    ensures Boundary(s, i + CharLen(s[i]))
    ensures forall k | i < k < i + CharLen(s[i]) :: IsCont(s[k])
    ensures !IsCont(s[i])
  {
    ValidSplit(s, i);
    var t := s[i..];
    var n := CharLen(t[0]);
    CharShape(t);
    if n < |t| {
      LeadIsNotCont(t[n..]);
    }
    assert forall k | i < k < i + n :: s[k] == t[k - i];
  }

  /** The position after an ASCII byte is a boundary. */
  lemma {:induction false} AfterAscii(s: string, i: nat)
    requires Valid(s) && i < |s| && IsAscii(s[i])
    ensures Boundary(s, i) && Boundary(s, i + 1)
  {
    NextBoundary(s, i);
  }
}
