// Machine-level types of the ESP8266 target (32-bit `int` and `size_t`,
// `uint8_t`) and the C-string routines the request pipeline uses to fill
// its fixed-size character buffers.
module Machine {

  const TWO_TO_32: int := 0x1_0000_0000

  /** `uint8_t` */
  newtype byte = x: int | 0 <= x < 0x100

  /** `int` on the 32-bit target */
  newtype int32 = x: int | -0x8000_0000 <= x < 0x8000_0000

  /** `size_t` on the 32-bit target */
  newtype size_t = x: int | 0 <= x < 0x1_0000_0000

  /** The conversion `(size_t)x` of a 32-bit `int`: wrap-around modulo 2^32. */
  function ToSizeT(x: int32): (r: size_t)
    ensures x >= 0 ==> r as int == x as int
    ensures x < 0 ==> r as int == x as int + TWO_TO_32
  {
    ((x as int) % TWO_TO_32) as size_t
  }

  /** The conversion `(int)x` of a `size_t`: values above INT_MAX wrap to negatives. */
  function ToInt32(x: size_t): (r: int32)
    ensures x < 0x8000_0000 ==> r as int == x as int
    ensures ToSizeT(r) == x
  {
    if x < 0x8000_0000 then x as int32 else (x as int - TWO_TO_32) as int32
  }

  function MinSize(a: size_t, b: size_t): (r: size_t)
    ensures r <= a && r <= b && (r == a || r == b)
  {
    if a <= b then a else b
  }

  /** A `const char *` denotes the characters before its terminator, so it holds no NUL. */
  predicate NulFree(s: string)
  {
    forall i :: 0 <= i < |s| ==> s[i] != '\0'
  }

  /** `buf` holds the C string `s`: its characters, then the terminator. */
  ghost predicate HoldsCString(buf: array<char>, s: string)
    reads buf
  {
    NulFree(s) && |s| < buf.Length && buf[..|s|] == s && buf[|s|] == '\0'
  }

  /**
   * `strcpy(dst, src)`: copies `src` and its terminator to the front of
   * `dst`, which must have room for both; the rest of `dst` is untouched.
   */
  method StrCpy(dst: array<char>, src: string)
    requires NulFree(src) && |src| < dst.Length
    modifies dst
    ensures HoldsCString(dst, src)
    ensures dst[|src| + 1..] == old(dst[|src| + 1..])
  {
    var i := 0;
    while i < |src|
      invariant 0 <= i <= |src|
      invariant dst[..i] == src[..i]
      invariant dst[i..] == old(dst[i..])
    {
      dst[i] := src[i];
      i := i + 1;
    }
    dst[i] := '\0';
    assert dst[..|src|] == src;
  }

  /**
   * `strcat(dst, src)`: `dst` holds a C string `prefix`; `src` is written
   * over its terminator, followed by a new terminator.
   */
  method StrCat(dst: array<char>, ghost prefix: string, src: string)
    requires HoldsCString(dst, prefix)
    requires NulFree(src) && |prefix| + |src| < dst.Length
    modifies dst
    ensures HoldsCString(dst, prefix + src)
    ensures dst[|prefix| + |src| + 1..] == old(dst[|prefix| + |src| + 1..])
  {
    // strlen(dst): the first NUL is the terminator of prefix
    var k := 0;
    while dst[k] != '\0'
      invariant 0 <= k <= |prefix|
      invariant dst[..k] == prefix[..k]
      decreases |prefix| - k
    {
      k := k + 1;
    }
    assert k == |prefix|;
    var i := 0;
    while i < |src|
      invariant 0 <= i <= |src|
      invariant dst[..k] == prefix
      invariant dst[k..k + i] == src[..i]
      invariant dst[k + i..] == old(dst[k + i..])
    {
      dst[k + i] := src[i];
      i := i + 1;
      assert dst[k..k + i] == dst[k..k + i - 1] + [src[i - 1]];
    }
    dst[k + i] := '\0';
    assert dst[..k + i] == dst[..k] + dst[k..k + i];
    assert NulFree(prefix + src) by {
      forall j | 0 <= j < |prefix + src| ensures (prefix + src)[j] != '\0' {
        if j < |prefix| { assert (prefix + src)[j] == prefix[j]; }
        else { assert (prefix + src)[j] == src[j - |prefix|]; }
      }
    }
  }
}
