/**
 * The C-level vocabulary the backend is written in: 32-bit `int`, bytes,
 * NUL-terminated strings and the "strncpy then terminate" idiom that every
 * exported function uses to fill a caller's buffer.
 */
module CTypes {

  /** The C `int` of the backend (32-bit two's complement). */
  const INT_MAX: int := 0x7fff_ffff
  const INT_MIN: int := -0x8000_0000

  type Int32 = x: int | INT_MIN <= x <= INT_MAX

  /** Two's-complement wrap-around of a mathematical result into `int`. Signed
      overflow is undefined in C; this is what the usual targets produce. */
  function Wrap32(x: int): (r: Int32)
    ensures r % 0x1_0000_0000 == x % 0x1_0000_0000
    ensures INT_MIN <= x <= INT_MAX ==> r == x
  {
    var m := x % 0x1_0000_0000;
    if m <= INT_MAX then m else m - 0x1_0000_0000
  }

  /** A C `char`, seen as an unsigned byte. */
  type Byte = b: int | 0 <= b < 256

  datatype Option<+T> = None | Some(value: T)

  /** True of the bytes of a C string, which end at the first NUL. */
  predicate SemNul(s: seq<Byte>) {
    forall i | 0 <= i < |s| :: s[i] != 0
  }

  /** UTF-8 encoding of one Unicode scalar value (RFC 3629, section 3). */
  function Utf8Char(c: char): (r: seq<Byte>)
    ensures 1 <= |r| <= 4
    ensures (|r| == 1) == (c as int < 0x80)
    ensures c != '\0' ==> SemNul(r)
  {
    var n := c as int;
    if n < 0x80 then [n]
    else if n < 0x800 then [0xC0 + n / 0x40, 0x80 + n % 0x40]
    else if n < 0x1_0000 then [0xE0 + n / 0x1000, 0x80 + (n / 0x40) % 0x40, 0x80 + n % 0x40]
    else [0xF0 + n / 0x4_0000, 0x80 + (n / 0x1000) % 0x40, 0x80 + (n / 0x40) % 0x40, 0x80 + n % 0x40]
  }

  /** The bytes a C string literal of the source text occupies in memory. */
  function Utf8(s: string): (r: seq<Byte>)
    ensures |s| <= |r| <= 4 * |s|
    ensures (forall i | 0 <= i < |s| :: s[i] != '\0') ==> SemNul(r)
  {
    if s == [] then [] else Utf8Char(s[0]) + Utf8(s[1..])
  }

  function Min(a: int, b: int): int {
    if a <= b then a else b
  }

  function Zeros(n: nat): (r: seq<Byte>)
    ensures |r| == n && forall i | 0 <= i < n :: r[i] == 0
  {
    seq(n, _ => 0)
  }

  /**
   * The first `len` bytes of a buffer after `strncpy(buf, src, len - 1);
   * buf[len - 1] = '\0';`: the first `len - 1` bytes of the C string `src`,
   * then NUL bytes up to and including index `len - 1`.
   */
  function CopiaLimitada(src: seq<Byte>, len: int): (r: seq<Byte>)
    requires SemNul(src) && len > 0
    ensures |r| == len && r[len - 1] == 0
    ensures forall i | 0 <= i < len :: r[i] == if i < |src| && i < len - 1 then src[i] else 0
  {
    var m := Min(|src|, len - 1);
    src[..m] + Zeros(len - m)
  }

  /** The C string held in a buffer: its bytes up to the first NUL. */
  function LerCString(buf: seq<Byte>): (r: seq<Byte>)
    ensures SemNul(r) && |r| <= |buf| && r == buf[..|r|]
    ensures |r| < |buf| ==> buf[|r|] == 0
  {
    if buf == [] || buf[0] == 0 then [] else [buf[0]] + LerCString(buf[1..])
  }

  /** A string literal of the source as the C string the compiled program
      sees: its UTF-8 bytes up to the first NUL. */
  function CString(s: string): (r: seq<Byte>)
    ensures SemNul(r)
  {
    LerCString(Utf8(s))
  }

  /** A C string followed by a NUL reads back as itself, whatever follows. */
  lemma {:induction false} LerTerminada(p: seq<Byte>, resto: seq<Byte>)
    requires SemNul(p)
    ensures LerCString(p + [0] + resto) == p
  {
    if p != [] {
      assert (p + [0] + resto)[1..] == p[1..] + [0] + resto;
      LerTerminada(p[1..], resto);
    }
  }

  /** Reading back a bounded copy gives the source truncated to `len - 1`
      bytes: the buffer always holds a terminated C string. */
  lemma LerCopiaLimitada(src: seq<Byte>, len: int)
    requires SemNul(src) && len > 0
    ensures LerCString(CopiaLimitada(src, len)) == src[..Min(|src|, len - 1)]
  {
    var m := Min(|src|, len - 1);
    assert CopiaLimitada(src, len) == src[..m] + [0] + Zeros(len - m - 1);
    LerTerminada(src[..m], Zeros(len - m - 1));
  }

  /** A whole caller buffer after the bounded copy of `src` into its first
      `len` bytes; the bytes past `len` keep their old values. */
  function Escrito(antes: seq<Byte>, src: seq<Byte>, len: int): (r: seq<Byte>)
    requires SemNul(src) && 0 < len <= |antes|
    ensures |r| == |antes|
    ensures r[..len] == CopiaLimitada(src, len) && r[len..] == antes[len..]
  {
    CopiaLimitada(src, len) + antes[len..]
  }

  /** Whatever the buffer held, after the copy it holds a C string: `src`
      cut to at most `len - 1` bytes. */
  lemma LerEscrito(antes: seq<Byte>, src: seq<Byte>, len: int)
    requires SemNul(src) && 0 < len <= |antes|
    ensures LerCString(Escrito(antes, src, len)) == src[..Min(|src|, len - 1)]
  {
    var m := Min(|src|, len - 1);
    assert Escrito(antes, src, len) == src[..m] + [0] + (Zeros(len - m - 1) + antes[len..]);
    LerTerminada(src[..m], Zeros(len - m - 1) + antes[len..]);
  }

  /** `strncpy(buf, src, len - 1); buf[len - 1] = '\0';` where `src` is the
      C string being copied: bytes of `src` while they last, then NUL
      padding, then the terminator. */
  method CopiarLimitado(buf: array<Byte>, src: seq<Byte>, len: int)
    requires SemNul(src) && 0 < len <= buf.Length
    modifies buf
    ensures buf[..] == Escrito(old(buf[..]), src, len)
  {
    var i := 0;
    while i < len - 1 && i < |src|
      invariant 0 <= i <= len - 1 && i <= |src|
      invariant forall j | 0 <= j < i :: buf[j] == src[j]
      invariant forall j | i <= j < buf.Length :: buf[j] == old(buf[j])
    {
      buf[i] := src[i];
      i := i + 1;
    }
    while i < len - 1
      invariant 0 <= i <= len - 1
      invariant forall j | 0 <= j < i :: buf[j] == if j < |src| then src[j] else 0
      invariant forall j | i <= j < buf.Length :: buf[j] == old(buf[j])
    {
      buf[i] := 0;
      i := i + 1;
    }
    buf[len - 1] := 0;
    assert forall j | 0 <= j < buf.Length :: buf[j] == Escrito(old(buf[..]), src, len)[j];
  }

  /** An optional caller buffer after a function may have copied `src` into
      it: a null buffer is no output, a non-positive length is skipped and
      when nothing is to be written the contents stay `antes`. */
  ghost predicate SaidaTexto(buf: array?<Byte>, len: int, escreve: bool, src: seq<Byte>, antes: seq<Byte>)
    requires SemNul(src)
    requires buf != null && len > 0 ==> len <= |antes|
    reads buf
  {
    buf != null ==>
      buf[..] == if escreve && len > 0 then Escrito(antes, src, len) else antes
  }

  /** The contents of an optional buffer, empty when it is null. */
  function Conteudo<T>(buf: array?<T>): (r: seq<T>)
    reads buf
    ensures buf != null ==> r == buf[..]
  {
    if buf == null then [] else buf[..]
  }

  /** `s` back to front. */
  function Reverso<T>(s: seq<T>): (r: seq<T>)
    ensures |r| == |s|
    ensures forall i | 0 <= i < |s| :: r[i] == s[|s| - 1 - i]
  {
    if s == [] then [] else [s[|s| - 1]] + Reverso(s[..|s| - 1])
  }

  lemma ReversoAnexar<T>(s: seq<T>, a: T)
    ensures Reverso(s + [a]) == [a] + Reverso(s)
  {
    assert (s + [a])[..|s|] == s;
  }

  lemma ReversoAntepor<T>(a: T, s: seq<T>)
    ensures Reverso([a] + s) == Reverso(s) + [a]
  {
  }
}
