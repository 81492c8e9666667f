/** FAT32 helpers of kernel/fat.hpp: the first-cluster number of a directory
    entry, the 8.3 short name (split, format, set and compare), and cluster
    chains over the File Allocation Table (Microsoft's FAT32 File System
    Specification, "FAT Directory Structure" and "FAT Data Structure").
    Names are byte buffers; a C string is modelled by its bytes up to the
    terminating NUL. The FAT is an array of 32-bit entries. */
module Fat {
  import opened Wrappers

  newtype byte = x: int | 0 <= x < 256
  newtype u32 = x: int | 0 <= x < 0x1_0000_0000

  const Nul: byte := 0
  const Space: byte := 0x20
  const Dot: byte := 0x2E
  const LowerA: byte := 0x61
  const LowerZ: byte := 0x7A

  /** Bytes of a short name: 8 for the base, 3 for the extension. */
  const BaseLength: nat := 8
  const ExtLength: nat := 3
  const ShortNameLength: nat := 11

  // ---------------------------------------------------------------------
  // First cluster

  /** `FirstCluster()`: `first_cluster_low | first_cluster_high << 16`. */
  function JoinCluster(low: bv16, high: bv16): (c: bv32)
    ensures c & 0xFFFF == low as bv32
    ensures c >> 16 == high as bv32
  {
    (low as bv32) | ((high as bv32) << 16)
  }

  /** Any 32-bit cluster number is the join of its two 16-bit halves. */
  lemma JoinClusterRoundTrip(c: bv32)
    ensures JoinCluster((c & 0xFFFF) as bv16, (c >> 16) as bv16) == c
  {
    var low := (c & 0xFFFF) as bv16;
    var high := (c >> 16) as bv16;
    assert low as bv32 == c & 0xFFFF;
    assert high as bv32 == c >> 16;
    LowHighJoin(c);
  }

  lemma LowHighJoin(c: bv32)
    ensures (c & 0xFFFF) | ((c >> 16) << 16) == c
  {
  }

  // ---------------------------------------------------------------------
  // C strings and padding

  /** `toupper` in the C locale: only 'a'..'z' change. */
  function Upper(c: byte): (u: byte)
    ensures LowerA <= c <= LowerZ ==> u == c - 0x20
    ensures !(LowerA <= c <= LowerZ) ==> u == c
  {
    if LowerA <= c <= LowerZ then c - 0x20 else c
  }

  function UpperAll(s: seq<byte>): (r: seq<byte>)
    ensures |r| == |s| && forall i :: 0 <= i < |s| ==> r[i] == Upper(s[i])
  {
    seq(|s|, i requires 0 <= i < |s| => Upper(s[i]))
  }

  /** The string a NUL-terminated buffer holds: its bytes before the first NUL. */
  function CStr(s: seq<byte>): seq<byte>
  {
    if |s| == 0 || s[0] == Nul then [] else [s[0]] + CStr(s[1..])
  }

  /** The string of a buffer is a prefix of it without NULs, followed by a
      NUL unless it runs to the buffer's end. */
  lemma {:induction false} CStrShape(s: seq<byte>)
    ensures CStr(s) <= s && NoNul(CStr(s))
    ensures |CStr(s)| < |s| ==> s[|CStr(s)|] == Nul
    decreases |s|
  {
    if |s| > 0 && s[0] != Nul {
      CStrShape(s[1..]);
    }
  }

  predicate NoNul(s: seq<byte>)
  {
    forall i :: 0 <= i < |s| ==> s[i] != Nul
  }

  /** A buffer whose first NUL follows `t` holds the string `t`. */
  lemma {:induction false} CStrOfTerminated(t: seq<byte>, rest: seq<byte>)
    requires NoNul(t)
    ensures CStr(t + [Nul] + rest) == t
  {
    if |t| > 0 {
      assert (t + [Nul] + rest)[1..] == t[1..] + [Nul] + rest;
      CStrOfTerminated(t[1..], rest);
    }
  }

  /** `t` with its trailing spaces removed. */
  function TrimSpaces(s: seq<byte>): (r: seq<byte>)
    ensures r <= s
    ensures forall i :: |r| <= i < |s| ==> s[i] == Space
    ensures |r| > 0 ==> r[|r| - 1] != Space
  {
    if |s| == 0 || s[|s| - 1] != Space then s else TrimSpaces(s[..|s| - 1])
  }

  function Zeros(n: nat): (z: seq<byte>)
    ensures |z| == n && forall i :: 0 <= i < n ==> z[i] == Nul
  {
    seq(n, _ => Nul)
  }

  function Spaces(n: nat): (z: seq<byte>)
    ensures |z| == n && forall i :: 0 <= i < n ==> z[i] == Space
  {
    seq(n, _ => Space)
  }

  /** `t` NUL-filled to `n` bytes. */
  function PadNul(t: seq<byte>, n: nat): (r: seq<byte>)
    requires |t| <= n
    ensures |r| == n && r[..|t|] == t
    ensures forall i :: |t| <= i < n ==> r[i] == Nul
  {
    t + Zeros(n - |t|)
  }

  /** `t` space-filled to `n` bytes, as a short-name field. */
  function PadSpace(t: seq<byte>, n: nat): (r: seq<byte>)
    requires |t| <= n
    ensures |r| == n && r[..|t|] == t
    ensures forall i :: |t| <= i < n ==> r[i] == Space
  {
    t + Spaces(n - |t|)
  }

  /** Trimming a space-padded field gives the field's text back. */
  lemma {:induction false} TrimPadSpace(t: seq<byte>, n: nat)
    requires |t| <= n && (|t| > 0 ==> t[|t| - 1] != Space)
    ensures TrimSpaces(PadSpace(t, n)) == t
    decreases n
  {
    if n > |t| {
      var p := PadSpace(t, n);
      assert p[..n - 1] == PadSpace(t, n - 1);
      TrimPadSpace(t, n - 1);
    } else {
      assert PadSpace(t, n) == t;
    }
  }

  // ---------------------------------------------------------------------
  // Directory entries

  /** A 32-byte directory entry; only the fields the helpers touch. */
  class DirectoryEntry {
    const name: array<byte>
    var firstClusterHigh: bv16
    var firstClusterLow: bv16
    var fileSize: bv32

    constructor (n: seq<byte>, high: bv16, low: bv16, size: bv32)
      requires |n| == ShortNameLength
      ensures name[..] == n && firstClusterHigh == high && firstClusterLow == low && fileSize == size
      ensures fresh(name)
    {
      name := new byte[ShortNameLength](i requires 0 <= i < ShortNameLength => n[i]);
      firstClusterHigh := high;
      firstClusterLow := low;
      fileSize := size;
    }

    /** `FirstCluster()`: the low half from `first_cluster_low`, the high
        half from `first_cluster_high`. */
    function FirstCluster(): (c: bv32)
      reads this
      ensures c & 0xFFFF == firstClusterLow as bv32
      ensures c >> 16 == firstClusterHigh as bv32
    {
      JoinCluster(firstClusterLow, firstClusterHigh)
    }
  }

  /** The scan of `ReadName` from the end of a field while it sees spaces:
      the length of the field without its trailing spaces. */
  method TrimmedLength(src: seq<byte>) returns (n: nat)
    ensures n <= |src| && src[..n] == TrimSpaces(src)
  {
    n := |src|;
    while n > 0 && src[n - 1] == Space
      invariant n <= |src|
      invariant TrimSpaces(src) == TrimSpaces(src[..n])
    {
      assert src[..n][..n - 1] == src[..n - 1];
      n := n - 1;
    }
  }

  /** Copies `src` to `dst[off..]` NUL-terminated, with its trailing spaces
      turned into NULs: one half of `ReadName`. */
  method CopyTrimmed(src: seq<byte>, dst: array<byte>, off: nat)
    requires off + |src| < dst.Length
    modifies dst
    ensures dst[off..off + |src| + 1] == PadNul(TrimSpaces(src), |src| + 1)
    ensures dst[..off] == old(dst[..off]) && dst[off + |src| + 1..] == old(dst[off + |src| + 1..])
  {
    var n := TrimmedLength(src);
    forall j | off <= j <= off + |src| {
      dst[j] := if j - off < n then src[j - off] else Nul;
    }
    assert dst[off..off + |src| + 1] == PadNul(src[..n], |src| + 1);
  }

  /** `ReadName`: the base is `name[0..8)` and the extension `name[8..11)`,
      each NUL-terminated with its trailing spaces turned into NULs, in
      buffers of at least 9 and 4 bytes. */
  method ReadName(entry: DirectoryEntry, base: array<byte>, ext: array<byte>)
    requires entry.name.Length == ShortNameLength
    requires base.Length >= BaseLength + 1 && ext.Length >= ExtLength + 1
    requires base != ext && base != entry.name && ext != entry.name
    modifies base, ext
    ensures base[..BaseLength + 1] == PadNul(TrimSpaces(entry.name[..BaseLength]), BaseLength + 1)
    ensures ext[..ExtLength + 1] == PadNul(TrimSpaces(entry.name[BaseLength..]), ExtLength + 1)
    ensures base[BaseLength + 1..] == old(base[BaseLength + 1..])
    ensures ext[ExtLength + 1..] == old(ext[ExtLength + 1..])
  {
    CopyTrimmed(entry.name[..BaseLength], base, 0);
    CopyTrimmed(entry.name[BaseLength..], ext, 0);
  }

  /** The base and extension strings `ReadName` yields. */
  function BaseName(name: seq<byte>): seq<byte>
    requires |name| == ShortNameLength
  {
    CStr(TrimSpaces(name[..BaseLength]))
  }

  function ExtName(name: seq<byte>): seq<byte>
    requires |name| == ShortNameLength
  {
    CStr(TrimSpaces(name[BaseLength..]))
  }

  /** What `FormatName` writes: `<base>` when the extension is empty,
      `<base>.<ext>` otherwise. */
  function FormattedName(name: seq<byte>): seq<byte>
    requires |name| == ShortNameLength
  {
    if ExtName(name) == [] then BaseName(name) else BaseName(name) + [Dot] + ExtName(name)
  }

  /** The formatted name starts with the base, is longer than it exactly
      when there is an extension, fits a 13-byte buffer with its NUL, and
      holds no NUL of its own. */
  lemma FormattedNameShape(name: seq<byte>)
    requires |name| == ShortNameLength
    ensures BaseName(name) <= FormattedName(name)
    ensures ExtName(name) == [] <==> |FormattedName(name)| == |BaseName(name)|
    ensures |FormattedName(name)| <= BaseLength + 1 + ExtLength && NoNul(FormattedName(name))
    ensures |BaseName(name)| <= BaseLength && |ExtName(name)| <= ExtLength
  {
    var b, e := BaseName(name), ExtName(name);
    CStrShape(TrimSpaces(name[..BaseLength]));
    CStrShape(TrimSpaces(name[BaseLength..]));
    assert |b| <= BaseLength && |e| <= ExtLength && NoNul(b) && NoNul(e);
    if e != [] {
      var f := b + [Dot] + e;
      assert f[..|b|] == b;
      assert forall i :: |b| < i < |f| ==> f[i] == e[i - |b| - 1];
    }
  }

  /** `strlen`: the index of the first NUL of a terminated buffer. */
  method StrLen(a: array<byte>) returns (k: nat)
    requires |CStr(a[..])| < a.Length
    ensures k == |CStr(a[..])| && a[k] == Nul
  {
    ghost var d := CStr(a[..]);
    CStrShape(a[..]);
    k := 0;
    while a[k] != Nul
      invariant k <= |d| && a[..k] == d[..k]
      decreases |d| - k
    {
      k := k + 1;
    }
  }

  /** `strcat`: appends the string in `src` to the string in `dst`. */
  method StrCat(dst: array<byte>, src: array<byte>)
    requires dst != src
    requires |CStr(src[..])| < src.Length
    requires |CStr(dst[..])| + |CStr(src[..])| < dst.Length
    modifies dst
    ensures CStr(dst[..]) == old(CStr(dst[..])) + CStr(src[..])
  {
    ghost var d := CStr(dst[..]);
    ghost var s := CStr(src[..]);
    CStrShape(dst[..]);
    CStrShape(src[..]);
    var k := StrLen(dst);
    var n := StrLen(src);
    forall i | 0 <= i < n {
      dst[k + i] := src[i];
    }
    dst[k + n] := Nul;
    assert dst[..k] == d;
    assert dst[k..k + n] == s;
    Concatenated(dst[..], d, s);
    assert src[..] == old(src[..]);
  }

  /** A buffer holding `d`, then `s`, then a NUL holds the string `d + s`. */
  lemma Concatenated(a: seq<byte>, d: seq<byte>, s: seq<byte>)
    requires NoNul(d) && NoNul(s) && |d| + |s| < |a|
    requires a[..|d|] == d && a[|d|..|d| + |s|] == s && a[|d| + |s|] == Nul
    ensures CStr(a) == d + s
  {
    assert a == d + s + [Nul] + a[|d| + |s| + 1..];
    CStrOfTerminated(d + s, a[|d| + |s| + 1..]);
  }

  /** `FormatName`: `ReadName` into `dest` and into a "." buffer, then
      `strcat` the latter when the extension is non-empty; `dest` holds at
      least 13 bytes. */
  method FormatName(entry: DirectoryEntry, dest: array<byte>)
    requires entry.name.Length == ShortNameLength && dest.Length >= BaseLength + ExtLength + 2
    requires dest != entry.name
    modifies dest
    ensures CStr(dest[..]) == FormattedName(entry.name[..])
  {
    var name := entry.name[..];
    var ext := DotExtension(name);
    CopyTrimmed(name[..BaseLength], dest, 0);
    PaddedCStr(TrimSpaces(name[..BaseLength]), BaseLength + 1, dest[..]);
    if ext[1] != Nul {
      FormattedNameShape(name);
      StrCat(dest, ext);
    }
    assert entry.name[..] == name;
  }

  /** The `"."` buffer of `FormatName` after `ReadName` has written the
      extension behind its dot: it reads as the dot and the extension, and
      its second byte is NUL exactly when the extension is empty. */
  method DotExtension(name: seq<byte>) returns (ext: array<byte>)
    requires |name| == ShortNameLength
    ensures fresh(ext) && ext.Length == ExtLength + 2
    ensures CStr(ext[..]) == [Dot] + ExtName(name)
    ensures ext[1] != Nul <==> ExtName(name) != []
  {
    ext := new byte[ExtLength + 2];
    ext[0] := Dot;
    CopyTrimmed(name[BaseLength..], ext, 1);
    DotField(name, ext[..]);
  }

  lemma DotField(name: seq<byte>, ext: seq<byte>)
    requires |name| == ShortNameLength && |ext| == ExtLength + 2
    requires ext[0] == Dot && ext[1..] == PadNul(TrimSpaces(name[BaseLength..]), ExtLength + 1)
    ensures CStr(ext) == [Dot] + ExtName(name)
    ensures ext[1] != Nul <==> ExtName(name) != []
  {
    PaddedCStr(TrimSpaces(name[BaseLength..]), ExtLength + 1, ext[1..]);
    CStrCons(ext);
  }

  /** A C string that does not start with NUL starts with its first byte. */
  lemma CStrCons(s: seq<byte>)
    requires |s| > 0 && s[0] != Nul
    ensures CStr(s) == [s[0]] + CStr(s[1..])
  {
  }

  /** A NUL-padded field inside a buffer holds the same string as the field's text. */
  lemma PaddedCStr(t: seq<byte>, n: nat, buf: seq<byte>)
    requires |t| < n <= |buf| && buf[..n] == PadNul(t, n)
    ensures CStr(buf) == CStr(t)
  {
    var c := CStr(t);
    CStrShape(t);
    assert buf[..|t|] == t;
    if |c| < |t| {
      assert buf == c + [Nul] + buf[|c| + 1..] by {
        assert buf[..|c|] == t[..|c|];
      }
      CStrOfTerminated(c, buf[|c| + 1..]);
    } else {
      assert buf == c + [Nul] + buf[|c| + 1..] by {
        assert buf[|t|] == Nul;
      }
      CStrOfTerminated(c, buf[|c| + 1..]);
    }
  }

  // ---------------------------------------------------------------------
  // Setting and comparing short names

  function Min(a: nat, b: nat): nat
  {
    if a < b then a else b
  }

  /** `strrchr(name, '.')`: the position of the last dot, if any. */
  function LastDot(name: seq<byte>): (d: Option<nat>)
    ensures d.Some? ==> d.value < |name| && name[d.value] == Dot
    ensures d.Some? ==> forall j :: d.value < j < |name| ==> name[j] != Dot
    ensures d.None? ==> forall j :: 0 <= j < |name| ==> name[j] != Dot
  {
    if |name| == 0 then None
    else if name[|name| - 1] == Dot then Some(|name| - 1)
    else LastDot(name[..|name| - 1])
  }

  /** The 11 bytes `SetFileName` stores: up to 8 upper-cased bytes before the
      last dot and up to 3 after it, each field space-padded; without a dot,
      up to 8 bytes of the name and a blank extension. */
  function ShortName(name: seq<byte>): (r: seq<byte>)
    ensures |r| == ShortNameLength
  {
    match LastDot(name)
    case Some(d) =>
      PadSpace(UpperAll(name[..Min(BaseLength, d)]), BaseLength)
        + PadSpace(UpperAll(name[d + 1..][..Min(ExtLength, |name| - d - 1)]), ExtLength)
    case None =>
      PadSpace(UpperAll(name[..Min(BaseLength, |name|)]), BaseLength) + Spaces(ExtLength)
  }

  /** One copy loop of `SetFileName`: `n` upper-cased bytes of `src` into
      `a` from position `off`. */
  method CopyUpper(src: seq<byte>, n: nat, a: array<byte>, off: nat)
    requires n <= |src| && off + n <= a.Length
    modifies a
    ensures a[..] == Overwrite(old(a[..]), off, UpperAll(src[..n]))
  {
    var k := 0;
    while k < n
      invariant k <= n
      invariant forall j :: off <= j < off + k ==> a[j] == Upper(src[j - off])
      invariant forall j :: 0 <= j < a.Length && !(off <= j < off + k) ==> a[j] == old(a[j])
    {
      a[off + k] := Upper(src[k]);
      k := k + 1;
    }
  }

  /** Writing a base and an extension over a blank name gives the two
      space-padded fields. */
  lemma BlankFields(base: seq<byte>, ext: seq<byte>)
    requires |base| <= BaseLength && |ext| <= ExtLength
    ensures Overwrite(Spaces(ShortNameLength), 0, base) == PadSpace(base, BaseLength) + PadSpace([], ExtLength)
    ensures Overwrite(Overwrite(Spaces(ShortNameLength), 0, base), BaseLength, ext) == PadSpace(base, BaseLength) + PadSpace(ext, ExtLength)
  {
  }

  /** `SetFileName`: blank the 11 bytes, then copy the upper-cased base and
      extension around the last dot, truncated to 8 and 3 bytes. */
  method SetFileName(entry: DirectoryEntry, name: seq<byte>)
    requires entry.name.Length == ShortNameLength
    modifies entry.name
    ensures entry.name[..] == ShortName(name)
  {
    var a := entry.name;
    var dot := LastDot(name);
    forall i | 0 <= i < ShortNameLength {
      a[i] := Space;
    }
    assert a[..] == Spaces(ShortNameLength);
    if dot.Some? {
      var d := dot.value;
      CopyUpper(name, Min(BaseLength, d), a, 0);
      var rest := name[d + 1..];
      CopyUpper(rest, Min(ExtLength, |rest|), a, BaseLength);
      BlankFields(UpperAll(name[..Min(BaseLength, d)]), UpperAll(rest[..Min(ExtLength, |rest|)]));
    } else {
      CopyUpper(name, Min(BaseLength, |name|), a, 0);
      BlankFields(UpperAll(name[..Min(BaseLength, |name|)]), []);
    }
  }

  /** The loop of `NameIsEqual` from byte `i` of the name, writing position
      `i83` of the 11-byte pattern: a dot moves to the extension (position 8),
      any other byte is stored upper-cased; it stops at the end of the name
      or of the pattern. */
  function Pack83(name: seq<byte>, i: nat, i83: nat, buf: seq<byte>): (r: seq<byte>)
    requires i <= |name| && |buf| == ShortNameLength
    ensures |r| == ShortNameLength
    decreases |name| - i
  {
    if i == |name| || i83 >= ShortNameLength then buf
    else if name[i] == Dot then Pack83(name, i + 1, BaseLength, buf)
    else Pack83(name, i + 1, i83 + 1, buf[i83 := Upper(name[i])])
  }

  /** The pattern `NameIsEqual` compares an entry's name with. */
  function Name83(name: seq<byte>): seq<byte>
  {
    Pack83(name, 0, 0, Spaces(ShortNameLength))
  }

  /** `NameIsEqual`: build the space-filled upper-case 8+3 pattern of `name`
      and compare all 11 bytes with the entry's name. */
  method NameIsEqual(entry: DirectoryEntry, name: seq<byte>) returns (eq: bool)
    requires entry.name.Length == ShortNameLength
    ensures eq <==> entry.name[..] == Name83(name)
  {
    var name83 := new byte[ShortNameLength](_ => Space);
    var i := 0;
    var i83: nat := 0;
    assert name83[..] == Spaces(ShortNameLength);
    while i < |name| && i83 < ShortNameLength
      invariant i <= |name| && name83.Length == ShortNameLength
      invariant Pack83(name, i, i83, name83[..]) == Name83(name)
      decreases |name| - i
    {
      if name[i] == Dot {
        i83 := BaseLength - 1;
      } else {
        name83[i83] := Upper(name[i]);
      }
      i := i + 1;
      i83 := i83 + 1;
    }
    eq := entry.name[..] == name83[..];
  }

  /** The comparison does not distinguish upper and lower case: names that
      agree once upper-cased match the same entries. */
  lemma NameIsEqualIgnoresCase(n1: seq<byte>, n2: seq<byte>)
    requires UpperAll(n1) == UpperAll(n2)
    ensures Name83(n1) == Name83(n2)
  {
    PackUpper(n1, 0, 0, Spaces(ShortNameLength));
    PackUpper(n2, 0, 0, Spaces(ShortNameLength));
  }

  lemma {:induction false} PackUpper(name: seq<byte>, i: nat, i83: nat, buf: seq<byte>)
    requires i <= |name| && |buf| == ShortNameLength
    ensures Pack83(name, i, i83, buf) == Pack83(UpperAll(name), i, i83, buf)
    decreases |name| - i
  {
    if i < |name| && i83 < ShortNameLength {
      if name[i] == Dot {
        PackUpper(name, i + 1, BaseLength, buf);
      } else {
        PackUpper(name, i + 1, i83 + 1, buf[i83 := Upper(name[i])]);
      }
    }
  }

  /** An 8.3 name: at most 8 bytes before a single dot and at most 3 after
      it, or at most 8 bytes without a dot. */
  predicate Is83(name: seq<byte>)
  {
    match LastDot(name)
    case None => |name| <= BaseLength
    case Some(d) => d <= BaseLength && |name| - d - 1 <= ExtLength && forall j :: 0 <= j < d ==> name[j] != Dot
  }

  /** `buf` with `s` written from position `p`. */
  function Overwrite(buf: seq<byte>, p: nat, s: seq<byte>): (r: seq<byte>)
    requires p + |s| <= |buf|
    ensures |r| == |buf|
  {
    buf[..p] + s + buf[p + |s|..]
  }

  lemma OverwriteCons(buf: seq<byte>, p: nat, x: byte, s: seq<byte>)
    requires p + 1 + |s| <= |buf|
    ensures Overwrite(buf[p := x], p + 1, s) == Overwrite(buf, p, [x] + s)
  {
    var l, r := Overwrite(buf[p := x], p + 1, s), Overwrite(buf, p, [x] + s);
    assert forall k :: 0 <= k < |buf| ==> l[k] == r[k];
  }

  /** A dot-free run of the name is stored upper-cased at consecutive positions. */
  lemma {:induction false} PackSegment(name: seq<byte>, i: nat, j: nat, i83: nat, buf: seq<byte>)
    requires i <= j <= |name| && |buf| == ShortNameLength && i83 + (j - i) <= ShortNameLength
    requires forall k :: i <= k < j ==> name[k] != Dot
    ensures Pack83(name, i, i83, buf) == Pack83(name, j, i83 + (j - i), Overwrite(buf, i83, UpperAll(name[i..j])))
    decreases j - i
  {
    if i == j {
      assert Overwrite(buf, i83, UpperAll(name[i..j])) == buf;
    } else {
      var b1 := buf[i83 := Upper(name[i])];
      PackSegment(name, i + 1, j, i83 + 1, b1);
      assert UpperAll(name[i..j]) == [Upper(name[i])] + UpperAll(name[i + 1..j]);
      OverwriteCons(buf, i83, Upper(name[i]), UpperAll(name[i + 1..j]));
    }
  }

  /** A file named by `SetFileName` with an 8.3 name is found by
      `NameIsEqual` with the same name. */
  lemma SetFileNameThenNameIsEqual(name: seq<byte>)
    requires Is83(name)
    ensures Name83(name) == ShortName(name)
  {
    match LastDot(name)
    case None => PackedWithoutDot(name);
    case Some(d) => PackedWithDot(name, d);
  }

  lemma PackedWithoutDot(name: seq<byte>)
    requires Is83(name) && LastDot(name).None?
    ensures Name83(name) == ShortName(name)
  {
    var sp := Spaces(ShortNameLength);
    PackSegment(name, 0, |name|, 0, sp);
    assert name[0..|name|] == name[..Min(BaseLength, |name|)];
    BaseOverwrite(UpperAll(name));
  }

  lemma PackedWithDot(name: seq<byte>, d: nat)
    requires Is83(name) && LastDot(name) == Some(d)
    ensures Name83(name) == ShortName(name)
  {
    var sp := Spaces(ShortNameLength);
    PackSegment(name, 0, d, 0, sp);
    var b := Overwrite(sp, 0, UpperAll(name[0..d]));
    PackSegment(name, d + 1, |name|, BaseLength, b);
    assert name[0..d] == name[..Min(BaseLength, d)];
    assert name[d + 1..|name|] == name[d + 1..][..Min(ExtLength, |name| - d - 1)];
    BaseOverwrite(UpperAll(name[0..d]));
    ExtOverwrite(PadSpace(UpperAll(name[0..d]), BaseLength), UpperAll(name[d + 1..|name|]));
  }

  /** Writing a base into a blank name gives the padded base and a blank
      extension. */
  lemma BaseOverwrite(t: seq<byte>)
    requires |t| <= BaseLength
    ensures Overwrite(Spaces(ShortNameLength), 0, t) == PadSpace(t, BaseLength) + Spaces(ExtLength)
  {
  }

  /** Writing an extension after a padded base. */
  lemma ExtOverwrite(base: seq<byte>, t: seq<byte>)
    requires |base| == BaseLength && |t| <= ExtLength
    ensures Overwrite(base + Spaces(ExtLength), BaseLength, t) == base + PadSpace(t, ExtLength)
  {
  }


  /** A name `FormatName` can give back: an upper-case 8.3 name without
      spaces or NULs, whose dot, if any, is followed by an extension. */
  predicate IsFormattable(name: seq<byte>)
  {
    Is83(name) && UpperAll(name) == name
    && (forall i :: 0 <= i < |name| ==> name[i] != Space && name[i] != Nul)
    && (LastDot(name).Some? ==> LastDot(name).value < |name| - 1)
  }

  /** For a name already in upper-case 8.3 form, `SetFileName` then
      `FormatName` gives the dotted name back. */
  lemma SetFileNameThenFormatName(name: seq<byte>)
    requires IsFormattable(name)
    ensures FormattedName(ShortName(name)) == name
  {
    if LastDot(name).None? {
      FormatWithoutDot(name);
    } else {
      FormatWithDot(name, LastDot(name).value);
    }
  }

  lemma FormatWithoutDot(name: seq<byte>)
    requires IsFormattable(name) && LastDot(name).None?
    ensures FormattedName(ShortName(name)) == name
  {
    assert name[..Min(BaseLength, |name|)] == name;
    assert ShortName(name) == PadSpace(name, BaseLength) + PadSpace([], ExtLength);
    FieldsOf(ShortName(name), name, []);
  }
  lemma FormatWithDot(name: seq<byte>, d: nat)
    requires IsFormattable(name) && LastDot(name) == Some(d)
    ensures FormattedName(ShortName(name)) == name
  {
    ShortNameWithDot(name, d);
    PlainSlices(name, d);
    FieldsOf(ShortName(name), name[..d], name[d + 1..]);
    SplitAt(name, d);
  }
  /** Neither a space nor a NUL occurs in `t`. */
  predicate Plain(t: seq<byte>)
  {
    forall i :: 0 <= i < |t| ==> t[i] != Space && t[i] != Nul
  }
  lemma PlainSlices(name: seq<byte>, d: nat)
    requires IsFormattable(name) && d < |name|
    ensures Plain(name[..d]) && Plain(name[d + 1..])
  {
    var ext := name[d + 1..];
    assert forall i :: 0 <= i < |ext| ==> ext[i] == name[d + 1 + i];
  }
  /** Both fields of a short name built from plain parts read back as those parts. */
  lemma FieldsOf(sn: seq<byte>, base: seq<byte>, ext: seq<byte>)
    requires |base| <= BaseLength && |ext| <= ExtLength && Plain(base) && Plain(ext)
    requires sn == PadSpace(base, BaseLength) + PadSpace(ext, ExtLength)
    ensures BaseName(sn) == base && ExtName(sn) == ext
  {
    assert sn[..BaseLength] == PadSpace(base, BaseLength);
    assert sn[BaseLength..] == PadSpace(ext, ExtLength);
    FieldRoundTrip(base, BaseLength);
    FieldRoundTrip(ext, ExtLength);
  }
  lemma ShortNameWithDot(name: seq<byte>, d: nat)
    requires Is83(name) && UpperAll(name) == name && LastDot(name) == Some(d)
    ensures ShortName(name) == PadSpace(name[..d], BaseLength) + PadSpace(name[d + 1..], ExtLength)
  {
    assert UpperAll(name[..d]) == name[..d];
    assert UpperAll(name[d + 1..]) == name[d + 1..];
    assert name[..Min(BaseLength, d)] == name[..d];
    assert name[d + 1..][..Min(ExtLength, |name| - d - 1)] == name[d + 1..];
  }

  lemma SplitAt(s: seq<byte>, d: nat)
    requires d < |s|
    ensures s == s[..d] + [s[d]] + s[d + 1..]
  {
  }

  /** A field of an upper-case name without spaces or NULs reads back as itself. */
  lemma FieldRoundTrip(t: seq<byte>, n: nat)
    requires |t| <= n && Plain(t)
    ensures CStr(TrimSpaces(PadSpace(t, n))) == t
  {
    TrimPadSpace(t, n);
    CStrPrefix(t);
  }

  lemma {:induction false} CStrPrefix(t: seq<byte>)
    requires NoNul(t)
    ensures CStr(t) == t
  {
    if |t| > 0 {
      CStrPrefix(t[1..]);
    }
  }

  // ---------------------------------------------------------------------
  // Cluster chains

  /** `kEndOfClusterchain`, the marker `NextCluster` returns and chains end with. */
  const EndOfClusterchain: nat := 0x0FFF_FFFF

  /** The smallest end-of-chain marker of a FAT32 entry. */
  const EndOfChainMin: nat := 0x0FFF_FFF8

  /** `IsEndOfClusterchain`: FAT32 entries from 0x0FFFFFF8 up mark the end of a chain. */
  predicate IsEndOfClusterchain(cluster: nat)
  {
    cluster >= EndOfChainMin
  }

  /** `kEndOfClusterchain` is recognised as an end marker and fits a FAT entry. */
  lemma EndOfClusterchainIsEnd()
    ensures IsEndOfClusterchain(EndOfClusterchain) && EndOfClusterchain < 0x1_0000_0000
    ensures forall c: nat :: c < EndOfChainMin ==> !IsEndOfClusterchain(c)
  {
  }

  /** A FAT of a FAT32 volume: the two reserved entries 0 and 1, and no more
      clusters than can be numbered below the end markers. */
  predicate ValidFat(fat: seq<u32>)
  {
    2 <= |fat| <= EndOfChainMin
  }

  /** `NextCluster`: the entry of `cluster`, or `kEndOfClusterchain` when that
      entry is any end marker. */
  function NextCluster(fat: seq<u32>, cluster: nat): (next: nat)
    requires cluster < |fat|
    ensures IsEndOfClusterchain(next) <==> IsEndOfClusterchain(fat[cluster] as nat)
    ensures IsEndOfClusterchain(next) ==> next == EndOfClusterchain
    ensures !IsEndOfClusterchain(next) ==> next == fat[cluster] as nat
  {
    if IsEndOfClusterchain(fat[cluster] as nat) then EndOfClusterchain else fat[cluster] as nat
  }

  /** `c` starts a chain of `k` clusters: each entry but the last links to a
      data cluster (2 or more) of the table, and the k-th entry is an end marker. */
  ghost predicate IsChain(fat: seq<u32>, c: nat, k: nat)
    decreases k
  {
    c < |fat| && 0 < k
    && (if IsEndOfClusterchain(fat[c] as nat) then k == 1
        else 2 <= fat[c] as nat && 1 < k && IsChain(fat, fat[c] as nat, k - 1))
  }

  /** The clusters of that chain, in order. */
  ghost function Chain(fat: seq<u32>, c: nat, k: nat): (cs: seq<nat>)
    requires IsChain(fat, c, k)
    ensures |cs| == k && cs[0] == c
    ensures forall i :: 0 <= i < k ==> cs[i] < |fat|
    decreases k
  {
    if k == 1 then [c] else [c] + Chain(fat, fat[c] as nat, k - 1)
  }

  /** Strictly increasing, stated from the last element back. */
  predicate Increasing(cs: seq<nat>)
    decreases |cs|
  {
    cs == [] || (Increasing(cs[..|cs| - 1]) && forall i :: 0 <= i < |cs| - 1 ==> cs[i] < cs[|cs| - 1])
  }

  /** The free clusters (entry 0) among `lo..hi-1`, in increasing order. */
  function FreeIn(fat: seq<u32>, lo: nat, hi: nat): (r: seq<nat>)
    requires lo <= hi <= |fat|
    ensures forall i :: 0 <= i < |r| ==> lo <= r[i] < hi && fat[r[i]] == 0
    ensures Increasing(r)
    decreases hi - lo
  {
    if lo == hi then []
    else
      var r := FreeIn(fat, lo, hi - 1);
      if fat[hi - 1] == 0 then
        assert (r + [hi - 1])[..|r|] == r;
        r + [hi - 1]
      else r
  }

  /** The free data clusters of the whole table. */
  function FreeClusters(fat: seq<u32>): seq<nat>
    requires ValidFat(fat)
  {
    FreeIn(fat, 2, |fat|)
  }

  lemma {:induction false} FreeInSplit(fat: seq<u32>, lo: nat, mid: nat, hi: nat)
    requires lo <= mid <= hi <= |fat|
    ensures FreeIn(fat, lo, hi) == FreeIn(fat, lo, mid) + FreeIn(fat, mid, hi)
    decreases hi - mid
  {
    if mid < hi {
      FreeInSplit(fat, lo, mid, hi - 1);
    }
  }

  lemma {:induction false} FreeInSame(f: seq<u32>, g: seq<u32>, lo: nat, hi: nat)
    requires lo <= hi <= |f| == |g|
    requires forall x :: lo <= x < hi ==> f[x] == g[x]
    ensures FreeIn(f, lo, hi) == FreeIn(g, lo, hi)
    decreases hi - lo
  {
    if lo < hi {
      FreeInSame(f, g, lo, hi - 1);
    }
  }

  /** The cluster a list of new clusters is appended after, or its last one. */
  function LastOf(end: nat, cs: seq<nat>): nat
  {
    if cs == [] then end else cs[|cs| - 1]
  }

  /** Every cluster of `cs` is a data cluster of the table. */
  predicate DataClusters(fat: seq<u32>, cs: seq<nat>)
  {
    forall i :: 0 <= i < |cs| ==> 2 <= cs[i] < |fat|
  }

  /** New clusters for a chain: strictly increasing data clusters of the
      table. */
  predicate Ascending(fat: seq<u32>, cs: seq<nat>)
  {
    DataClusters(fat, cs) && Increasing(cs)
  }

  lemma {:induction false} IncreasingPrefix(cs: seq<nat>, n: nat)
    requires Increasing(cs) && n <= |cs|
    ensures Increasing(cs[..n])
    decreases |cs|
  {
    if n < |cs| {
      var init := cs[..|cs| - 1];
      IncreasingPrefix(init, n);
      assert init[..n] == cs[..n];
    } else {
      assert cs[..n] == cs;
    }
  }

  /** The table after linking `end` to `cs[0]`, each `cs[i]` to `cs[i+1]`,
      with the last new cluster's entry not yet written. */
  function LinkOpen(fat: seq<u32>, end: nat, cs: seq<nat>): (r: seq<u32>)
    requires ValidFat(fat) && end < |fat| && DataClusters(fat, cs)
    ensures |r| == |fat|
    decreases |cs|
  {
    if cs == [] then fat
    else
      var init := cs[..|cs| - 1];
      LinkOpen(fat, end, init)[LastOf(end, init) := cs[|cs| - 1] as u32]
  }

  /** The table after appending `cs` to the chain ending at `end`: the links,
      then the end marker in the last cluster. */
  function Link(fat: seq<u32>, end: nat, cs: seq<nat>): (r: seq<u32>)
    requires ValidFat(fat) && end < |fat| && DataClusters(fat, cs)
    ensures |r| == |fat|
  {
    LinkOpen(fat, end, cs)[LastOf(end, cs) := EndOfClusterchain as u32]
  }

  /** Linking one more cluster writes it into the entry of the current last one. */
  lemma LinkOpenSnoc(fat: seq<u32>, end: nat, cs: seq<nat>, c: nat)
    requires ValidFat(fat) && end < |fat| && Ascending(fat, cs) && 2 <= c < |fat|
    requires forall i :: 0 <= i < |cs| ==> cs[i] < c
    ensures Ascending(fat, cs + [c])
    ensures LinkOpen(fat, end, cs + [c]) == LinkOpen(fat, end, cs)[LastOf(end, cs) := c as u32]
  {
    assert (cs + [c])[..|cs|] == cs;
  }

  /** `LinkOpen` writes no entry but those of `end` and of the new clusters. */
  lemma {:induction false} LinkOpenOthers(fat: seq<u32>, end: nat, cs: seq<nat>)
    requires ValidFat(fat) && end < |fat| && DataClusters(fat, cs)
    ensures forall x :: 0 <= x < |fat| && x != end && x !in cs ==> LinkOpen(fat, end, cs)[x] == fat[x]
    decreases |cs|
  {
    if cs != [] {
      var init := cs[..|cs| - 1];
      LinkOpenOthers(fat, end, init);
      assert forall x :: x in init ==> x in cs;
    }
  }

  /** Which entries `LinkOpen` writes and with what. */
  lemma {:induction false} LinkOpenValues(fat: seq<u32>, end: nat, cs: seq<nat>)
    requires ValidFat(fat) && end < |fat| && Ascending(fat, cs) && end !in cs
    ensures forall x :: 0 <= x < |fat| && x != end && x !in cs ==> LinkOpen(fat, end, cs)[x] == fat[x]
    ensures cs != [] ==> LinkOpen(fat, end, cs)[end] == cs[0] as u32
    ensures cs == [] ==> LinkOpen(fat, end, cs)[end] == fat[end]
    ensures forall i :: 0 <= i < |cs| - 1 ==> LinkOpen(fat, end, cs)[cs[i]] == cs[i + 1] as u32
    ensures cs != [] ==> LinkOpen(fat, end, cs)[cs[|cs| - 1]] == fat[cs[|cs| - 1]]
    decreases |cs|
  {
    LinkOpenOthers(fat, end, cs);
    if cs != [] {
      var init := cs[..|cs| - 1];
      var c := cs[|cs| - 1];
      assert forall i :: 0 <= i < |init| ==> init[i] == cs[i];
      LinkOpenValues(fat, end, init);
      assert c !in init;
      assert LinkOpen(fat, end, cs) == LinkOpen(fat, end, init)[LastOf(end, init) := c as u32];
    }
  }

  /** Linking leaves the free/used state of every cluster past the new ones
      as it was: the end cluster was used and stays used. */
  lemma LinkOpenKeepsFree(fat: seq<u32>, end: nat, cs: seq<nat>, x: nat)
    requires ValidFat(fat) && end < |fat| && Ascending(fat, cs) && fat[end] != 0
    requires x < |fat| && forall i :: 0 <= i < |cs| ==> cs[i] < x
    ensures end !in cs ==> (LinkOpen(fat, end, cs)[x] == 0 <==> fat[x] == 0)
  {
    if end !in cs {
      LinkOpenValues(fat, end, cs);
    }
  }

  /** Which entries `Link` writes and with what. */
  lemma LinkValues(fat: seq<u32>, end: nat, cs: seq<nat>)
    requires ValidFat(fat) && end < |fat| && Ascending(fat, cs) && end !in cs
    ensures forall x :: 0 <= x < |fat| && x != end && x !in cs ==> Link(fat, end, cs)[x] == fat[x]
    ensures Link(fat, end, cs)[end] == if cs == [] then EndOfClusterchain as u32 else cs[0] as u32
    ensures forall i :: 0 <= i < |cs| - 1 ==> Link(fat, end, cs)[cs[i]] == cs[i + 1] as u32
    ensures cs != [] ==> Link(fat, end, cs)[cs[|cs| - 1]] == EndOfClusterchain as u32
  {
    LinkOpenValues(fat, end, cs);
  }

  /** Clusters each linked to the next, the last holding the end marker,
      form a chain from `cs[j]` on. */
  lemma {:induction false} LinkedRun(g: seq<u32>, cs: seq<nat>, j: nat)
    requires ValidFat(g) && DataClusters(g, cs) && j < |cs|
    requires forall i :: 0 <= i < |cs| - 1 ==> g[cs[i]] == cs[i + 1] as u32
    requires g[cs[|cs| - 1]] == EndOfClusterchain as u32
    ensures IsChain(g, cs[j], |cs| - j) && Chain(g, cs[j], |cs| - j) == cs[j..]
    decreases |cs| - j
  {
    if j < |cs| - 1 {
      LinkedRun(g, cs, j + 1);
      assert g[cs[j]] as nat == cs[j + 1];
      assert cs[j..] == [cs[j]] + cs[j + 1..];
    }
  }

  /** The new clusters form a chain from `cs[j]` to the end marker. */
  lemma LinkedTail(fat: seq<u32>, end: nat, cs: seq<nat>, j: nat)
    requires ValidFat(fat) && end < |fat| && Ascending(fat, cs) && end !in cs && j < |cs|
    ensures IsChain(Link(fat, end, cs), cs[j], |cs| - j)
    ensures Chain(Link(fat, end, cs), cs[j], |cs| - j) == cs[j..]
  {
    LinkValues(fat, end, cs);
    LinkedRun(Link(fat, end, cs), cs, j);
  }

  /** After linking, the chain from the old end runs through the new clusters. */
  lemma LinkFromEnd(fat: seq<u32>, end: nat, cs: seq<nat>)
    requires ValidFat(fat) && end < |fat| && Ascending(fat, cs) && end !in cs
    ensures IsChain(Link(fat, end, cs), end, 1 + |cs|)
    ensures Chain(Link(fat, end, cs), end, 1 + |cs|) == [end] + cs
  {
    LinkValues(fat, end, cs);
    if cs != [] {
      LinkedTail(fat, end, cs, 0);
      assert cs[0..] == cs;
    }
  }

  /** Appending free clusters to a chain: the chain from `c` now runs through
      its old clusters and then the new ones, in order. */
  lemma {:induction false} LinkExtendsChain(fat: seq<u32>, c: nat, k: nat, cs: seq<nat>)
    requires ValidFat(fat) && IsChain(fat, c, k) && Ascending(fat, cs)
    requires forall i :: 0 <= i < |cs| ==> fat[cs[i]] == 0
    ensures var end := Chain(fat, c, k)[k - 1];
      end !in cs
      && IsChain(Link(fat, end, cs), c, k + |cs|)
      && Chain(Link(fat, end, cs), c, k + |cs|) == Chain(fat, c, k) + cs
    decreases k
  {
    var end := Chain(fat, c, k)[k - 1];
    ChainEndIsEnd(fat, c, k);
    assert end !in cs;
    if k == 1 {
      LinkFromEnd(fat, end, cs);
    } else {
      var next := fat[c] as nat;
      assert Chain(fat, next, k - 1)[k - 2] == end;
      LinkExtendsChain(fat, next, k - 1, cs);
      LinkChainCons(fat, c, k, end, cs);
    }
  }

  /** Linking after the end of a chain keeps the first link of a chain of
      two or more clusters, so the longer chain is one cluster more than the
      chain from its second cluster. */
  lemma LinkChainCons(fat: seq<u32>, c: nat, k: nat, end: nat, cs: seq<nat>)
    requires ValidFat(fat) && IsChain(fat, c, k) && 1 < k && Ascending(fat, cs)
    requires end < |fat| && IsEndOfClusterchain(fat[end] as nat) && end !in cs
    requires forall i :: 0 <= i < |cs| ==> fat[cs[i]] == 0
    requires IsChain(Link(fat, end, cs), fat[c] as nat, k - 1 + |cs|)
    requires Chain(Link(fat, end, cs), fat[c] as nat, k - 1 + |cs|) == Chain(fat, fat[c] as nat, k - 1) + cs
    ensures IsChain(Link(fat, end, cs), c, k + |cs|)
    ensures Chain(Link(fat, end, cs), c, k + |cs|) == Chain(fat, c, k) + cs
  {
    assert c != end && c !in cs;
    LinkValues(fat, end, cs);
  }

  /** The last cluster of a chain holds an end marker. */
  lemma {:induction false} ChainEndIsEnd(fat: seq<u32>, c: nat, k: nat)
    requires IsChain(fat, c, k)
    ensures IsEndOfClusterchain(fat[Chain(fat, c, k)[k - 1]] as nat)
    decreases k
  {
    if k > 1 {
      ChainEndIsEnd(fat, fat[c] as nat, k - 1);
    }
  }

  /** Every cluster of a chain has a non-zero entry, and only the last holds an
      end marker. */
  lemma {:induction false} ChainMembers(fat: seq<u32>, c: nat, k: nat)
    requires IsChain(fat, c, k)
    ensures forall i :: 0 <= i < k ==> Chain(fat, c, k)[i] < |fat| && fat[Chain(fat, c, k)[i]] != 0
    ensures IsEndOfClusterchain(fat[Chain(fat, c, k)[k - 1]] as nat)
    ensures forall i :: 0 <= i < k - 1 ==> !IsEndOfClusterchain(fat[Chain(fat, c, k)[i]] as nat)
    decreases k
  {
    if k > 1 {
      ChainMembers(fat, fat[c] as nat, k - 1);
    }
  }

  /** The first loop of `ExtendCluster`: follow the entries from `c` until
      one holds an end marker. */
  method FindChainEnd(fat: array<u32>, c: nat, ghost k: nat) returns (end: nat)
    requires IsChain(fat[..], c, k)
    ensures end == Chain(fat[..], c, k)[k - 1]
    ensures end < fat.Length && IsEndOfClusterchain(fat[end] as nat)
  {
    end := c;
    ghost var j := k;
    while !IsEndOfClusterchain(fat[end] as nat)
      invariant IsChain(fat[..], end, j)
      invariant Chain(fat[..], c, k)[k - 1] == Chain(fat[..], end, j)[j - 1]
      decreases j
    {
      assert Chain(fat[..], end, j)[j - 1] == Chain(fat[..], fat[end] as nat, j - 1)[j - 2];
      end := fat[end] as nat;
      j := j - 1;
    }
  }

  /** What the scan of `AppendFree` has done once it reaches `candidate`:
      `cs` are the free clusters below it, and enough are left above it. */
  predicate AppendInv(f0: seq<u32>, end: nat, n: nat, cs: seq<nat>, candidate: nat)
    requires ValidFat(f0)
  {
    2 <= candidate <= |f0| && cs == FreeIn(f0, 2, candidate) && Ascending(f0, cs)
    && |cs| <= n && end !in cs && n - |cs| <= |FreeIn(f0, candidate, |f0|)|
  }

  /** One step of the scan: the candidate is free in the table being
      rewritten exactly when it was free at the start, and taking it (or
      skipping it) keeps the scan's invariant. */
  lemma AppendStep(f0: seq<u32>, end: nat, n: nat, cs: seq<nat>, candidate: nat)
    requires ValidFat(f0) && end < |f0| && f0[end] != 0
    requires AppendInv(f0, end, n, cs, candidate) && |cs| < n
    ensures candidate < |f0|
    ensures LinkOpen(f0, end, cs)[candidate] == 0 <==> f0[candidate] == 0
    ensures f0[candidate] == 0 ==> AppendInv(f0, end, n, cs + [candidate], candidate + 1)
    ensures f0[candidate] == 0 ==>
      LinkOpen(f0, end, cs + [candidate]) == LinkOpen(f0, end, cs)[LastOf(end, cs) := candidate as u32]
    ensures f0[candidate] != 0 ==> AppendInv(f0, end, n, cs, candidate + 1)
  {
    FreeInSplit(f0, candidate, candidate + 1, |f0|);
    LinkOpenKeepsFree(f0, end, cs, candidate);
    if f0[candidate] == 0 {
      AppendTake(f0, end, n, cs, candidate);
    } else {
      AppendSkip(f0, end, n, cs, candidate);
    }
  }

  lemma AppendSkip(f0: seq<u32>, end: nat, n: nat, cs: seq<nat>, candidate: nat)
    requires ValidFat(f0) && AppendInv(f0, end, n, cs, candidate)
    requires candidate < |f0| && f0[candidate] != 0
    requires |FreeIn(f0, candidate, |f0|)| == |FreeIn(f0, candidate + 1, |f0|)|
    ensures AppendInv(f0, end, n, cs, candidate + 1)
  {
    assert FreeIn(f0, 2, candidate + 1) == cs;
  }

  lemma AppendTake(f0: seq<u32>, end: nat, n: nat, cs: seq<nat>, candidate: nat)
    requires ValidFat(f0) && end < |f0| && f0[end] != 0
    requires AppendInv(f0, end, n, cs, candidate) && |cs| < n
    requires candidate < |f0| && f0[candidate] == 0
    requires |FreeIn(f0, candidate, |f0|)| == |FreeIn(f0, candidate + 1, |f0|)| + 1
    ensures AppendInv(f0, end, n, cs + [candidate], candidate + 1)
    ensures LinkOpen(f0, end, cs + [candidate]) == LinkOpen(f0, end, cs)[LastOf(end, cs) := candidate as u32]
  {
    assert FreeIn(f0, 2, candidate + 1) == cs + [candidate];
    LinkOpenSnoc(f0, end, cs, candidate);
  }

  /** When the scan has taken `n` clusters, they are the first `n` free ones. */
  lemma AppendDone(f0: seq<u32>, end: nat, n: nat, cs: seq<nat>, candidate: nat)
    requires ValidFat(f0) && AppendInv(f0, end, n, cs, candidate) && |cs| == n
    ensures n <= |FreeClusters(f0)| && FreeClusters(f0)[..n] == cs
  {
    FreeInSplit(f0, 2, candidate, |f0|);
  }

  /** The second loop of `ExtendCluster`: scan the clusters from 2 upwards,
      link each free one after the current end, and finally mark the last
      one as the end of the chain. */
  method AppendFree(fat: array<u32>, end: nat, n: nat) returns (last: nat)
    requires ValidFat(fat[..]) && end < fat.Length && IsEndOfClusterchain(fat[end] as nat)
    requires n <= |FreeClusters(fat[..])|
    modifies fat
    ensures var cs := FreeClusters(old(fat[..]))[..n];
      end !in cs && fat[..] == Link(old(fat[..]), end, cs) && last == LastOf(end, cs)
  {
    ghost var f0 := fat[..];
    var numAllocated := 0;
    var current := end;
    var candidate := 2;
    ghost var cs: seq<nat> := [];
    while numAllocated < n
      invariant AppendInv(f0, end, n, cs, candidate) && numAllocated == |cs|
      invariant current == LastOf(end, cs)
      invariant fat[..] == LinkOpen(f0, end, cs)
      decreases fat.Length - candidate
    {
      var taken := TakeIfFree(fat, f0, end, n, cs, current, candidate);
      if taken {
        cs := cs + [candidate];
        current := candidate;
        numAllocated := numAllocated + 1;
      }
      candidate := candidate + 1;
    }
    AppendDone(f0, end, n, cs, candidate);
    fat[current] := EndOfClusterchain as u32;
    last := current;
  }

  /** One step of that scan: when `candidate` is free, link it after
      `current`, the chain's present last cluster. */
  method TakeIfFree(fat: array<u32>, ghost f0: seq<u32>, end: nat, n: nat, ghost cs: seq<nat>,
                    current: nat, candidate: nat) returns (taken: bool)
    requires ValidFat(f0) && end < |f0| && f0[end] != 0
    requires AppendInv(f0, end, n, cs, candidate) && |cs| < n
    requires current == LastOf(end, cs) && fat[..] == LinkOpen(f0, end, cs)
    modifies fat
    ensures candidate < |f0| && taken == (f0[candidate] == 0)
    ensures taken ==> (AppendInv(f0, end, n, cs + [candidate], candidate + 1)
                       && fat[..] == LinkOpen(f0, end, cs + [candidate]))
    ensures !taken ==> AppendInv(f0, end, n, cs, candidate + 1) && fat[..] == old(fat[..])
  {
    AppendStep(f0, end, n, cs, candidate);
    taken := fat[candidate] == 0;
    if taken {
      fat[current] := candidate as u32;
    }
  }

  /** `ExtendCluster`: walk to the end of the chain containing `eocCluster`,
      then take free clusters in increasing order from cluster 2, linking each
      after the previous one, and end the chain at the last. */
  method ExtendCluster(fat: array<u32>, eocCluster: nat, n: nat, ghost k: nat) returns (last: nat)
    requires ValidFat(fat[..]) && IsChain(fat[..], eocCluster, k)
    requires n <= |FreeClusters(fat[..])|
    modifies fat
    ensures var end := Chain(old(fat[..]), eocCluster, k)[k - 1];
      var cs := FreeClusters(old(fat[..]))[..n];
      end !in cs && fat[..] == Link(old(fat[..]), end, cs) && last == LastOf(end, cs)
  {
    var end := FindChainEnd(fat, eocCluster, k);
    last := AppendFree(fat, end, n);
  }

  /** `ExtendCluster` appends exactly `n` previously free clusters to the
      chain and returns its new last cluster. */
  lemma ExtendClusterAppends(fat: seq<u32>, c: nat, k: nat, n: nat)
    requires ValidFat(fat) && IsChain(fat, c, k) && n <= |FreeClusters(fat)|
    ensures var end := Chain(fat, c, k)[k - 1];
      var cs := FreeClusters(fat)[..n];
      var nf := Link(fat, end, cs);
      IsChain(nf, c, k + n) && Chain(nf, c, k + n) == Chain(fat, c, k) + cs
      && Chain(nf, c, k + n)[k + n - 1] == LastOf(end, cs)
      && (forall i :: 0 <= i < n ==> fat[cs[i]] == 0)
  {
    var cs := FreeClusters(fat)[..n];
    IncreasingPrefix(FreeClusters(fat), n);
    LinkExtendsChain(fat, c, k, cs);
  }

  /** The free clusters of a table whose first free one is `first`. */
  lemma FirstFree(f: seq<u32>, first: nat)
    requires ValidFat(f) && 2 <= first < |f| && FreeIn(f, 2, first) == [] && f[first] == 0
    ensures FreeClusters(f) == [first] + FreeIn(f, first + 1, |f|)
  {
    FreeInSplit(f, 2, first, |f|);
    FreeInSplit(f, first, first + 1, |f|);
  }

  /** Marking a used cluster below which nothing is free leaves no free
      cluster up to it. */
  lemma NoneFreeUpTo(f0: seq<u32>, f1: seq<u32>, first: nat)
    requires ValidFat(f0) && |f1| == |f0| && 2 <= first < |f0|
    requires FreeIn(f0, 2, first) == [] && f1[first] != 0
    requires forall x :: 0 <= x < |f0| && x != first ==> f1[x] == f0[x]
    ensures FreeClusters(f1) == FreeIn(f0, first + 1, |f0|)
  {
    FreeInSame(f0, f1, 2, first);
    FreeInSame(f0, f1, first + 1, |f0|);
    FreeInSplit(f1, 2, first, |f0|);
    FreeInSplit(f1, first, first + 1, |f0|);
  }

  /** Once the first free cluster is marked as an end of chain, the free
      clusters are the rest of the old ones. */
  lemma FreeAfterFirst(f0: seq<u32>)
    requires ValidFat(f0) && FreeClusters(f0) != []
    ensures var first := FreeClusters(f0)[0];
      FreeClusters(f0[first := EndOfClusterchain as u32]) == FreeClusters(f0)[1..]
  {
    var first := FreeClusters(f0)[0];
    var f1 := f0[first := EndOfClusterchain as u32];
    FreeInSplit(f0, 2, first, |f0|);
    assert FreeIn(f0, 2, first) == [];
    FirstFree(f0, first);
    NoneFreeUpTo(f0, f1, first);
  }

  /** The table `AllocateClusterChain` leaves: the first free cluster marked
      as an end of chain, then `n - 1` more free clusters appended after it. */
  function AllocatedTable(f0: seq<u32>, n: nat): (r: seq<u32>)
    requires ValidFat(f0) && Max(n, 1) <= |FreeClusters(f0)|
    ensures |r| == |f0|
  {
    var first := FreeClusters(f0)[0];
    var f1 := f0[first := EndOfClusterchain as u32];
    FreeAfterFirst(f0);
    Link(f1, first, FreeClusters(f1)[..Max(n, 1) - 1])
  }

  function Max(a: nat, b: nat): (m: nat)
    ensures m >= a && m >= b && (m == a || m == b)
  {
    if a < b then b else a
  }

  /** One step of the search for the first free cluster. */
  lemma ScanStep(fat: seq<u32>, first: nat)
    requires ValidFat(fat) && 2 <= first < |fat| && FreeIn(fat, 2, first) == []
    ensures fat[first] != 0 ==> FreeIn(fat, 2, first + 1) == [] && FreeIn(fat, first, |fat|) == FreeIn(fat, first + 1, |fat|)
    ensures fat[first] == 0 ==> FreeClusters(fat) != [] && FreeClusters(fat)[0] == first
  {
    FreeInSplit(fat, 2, first, |fat|);
    FreeInSplit(fat, first, first + 1, |fat|);
    FreeInSplit(fat, 2, first, first + 1);
  }

  /** `AllocateClusterChain`: mark the first free cluster as a one-cluster
      chain, then extend that chain by `n - 1` more clusters; a request for
      none still takes one cluster. */
  method AllocateClusterChain(fat: array<u32>, n: nat) returns (first: nat)
    requires ValidFat(fat[..]) && Max(n, 1) <= |FreeClusters(fat[..])|
    modifies fat
    ensures first == FreeClusters(old(fat[..]))[0]
    ensures fat[..] == AllocatedTable(old(fat[..]), n)
  {
    ghost var f0 := fat[..];
    first := FirstFreeCluster(fat);
    fat[first] := EndOfClusterchain as u32;
    ghost var f1 := fat[..];
    FreeAfterFirst(f0);
    assert IsChain(f1, first, 1) && Chain(f1, first, 1) == [first];
    if n > 1 {
      var _ := ExtendCluster(fat, first, n - 1, 1);
    } else {
      assert FreeClusters(f1)[..0] == [];
      assert Link(f1, first, []) == f1;
    }
  }

  /** The first loop of `AllocateClusterChain`: scan from cluster 2 for an
      entry that is 0. */
  method FirstFreeCluster(fat: array<u32>) returns (first: nat)
    requires ValidFat(fat[..]) && FreeClusters(fat[..]) != []
    ensures first == FreeClusters(fat[..])[0]
  {
    first := 2;
    FreeInSplit(fat[..], 2, 2, fat.Length);
    while fat[first] != 0
      invariant 2 <= first < fat.Length
      invariant FreeIn(fat[..], 2, first) == [] && FreeIn(fat[..], first, fat.Length) != []
      decreases fat.Length - first
    {
      ScanStep(fat[..], first);
      first := first + 1;
    }
    ScanStep(fat[..], first);
  }

  /** A one-cluster chain at `first` with `rest` linked after it. */
  lemma ChainAfterFirst(f1: seq<u32>, first: nat, rest: seq<nat>)
    requires ValidFat(f1) && first < |f1| && f1[first] == EndOfClusterchain as u32
    requires Ascending(f1, rest) && forall i :: 0 <= i < |rest| ==> f1[rest[i]] == 0
    ensures first !in rest
    ensures IsChain(Link(f1, first, rest), first, 1 + |rest|)
    ensures Chain(Link(f1, first, rest), first, 1 + |rest|) == [first] + rest
    ensures forall x :: 0 <= x < |f1| && x != first && x !in rest ==> Link(f1, first, rest)[x] == f1[x]
  {
    LinkFromEnd(f1, first, rest);
    LinkValues(f1, first, rest);
  }

  /** The clusters linked after the first one are the next free ones, which
      are still free once the first is marked. */
  lemma AllocatedRest(f0: seq<u32>, m: nat)
    requires ValidFat(f0) && 1 <= m <= |FreeClusters(f0)|
    ensures var fc := FreeClusters(f0);
      var f1 := f0[fc[0] := EndOfClusterchain as u32];
      m - 1 <= |FreeClusters(f1)| && fc[1..m] == FreeClusters(f1)[..m - 1]
      && Ascending(f1, fc[1..m]) && (forall i :: 0 <= i < m - 1 ==> f1[fc[1..m][i]] == 0)
  {
    var fc := FreeClusters(f0);
    var f1 := f0[fc[0] := EndOfClusterchain as u32];
    FreeAfterFirst(f0);
    var ff := FreeClusters(f1);
    assert ff == fc[1..];
    assert ff[..m - 1] == fc[1..m];
    IncreasingPrefix(ff, m - 1);
  }

  /** `AllocatedTable` as the old end-of-chain cluster `first` with `rest`
      linked after it. */
  lemma AllocatedParts(f0: seq<u32>, n: nat)
    requires ValidFat(f0) && Max(n, 1) <= |FreeClusters(f0)|
    ensures var fc := FreeClusters(f0);
      var f1 := f0[fc[0] := EndOfClusterchain as u32];
      var rest := fc[1..Max(n, 1)];
      Ascending(f1, rest) && (forall i :: 0 <= i < |rest| ==> f1[rest[i]] == 0)
      && AllocatedTable(f0, n) == Link(f1, fc[0], rest)
      && fc[..Max(n, 1)] == [fc[0]] + rest
  {
    AllocatedRest(f0, Max(n, 1));
    HeadPrefix(FreeClusters(f0), Max(n, 1));
  }

  /** What `AllocateClusterChain` builds: a chain of exactly `max(n, 1)`
      clusters, the lowest free ones in increasing order, starting at the
      returned cluster; all were free before, and no other entry changes. */
  lemma AllocateClusterChainBuilds(f0: seq<u32>, n: nat)
    requires ValidFat(f0) && Max(n, 1) <= |FreeClusters(f0)|
    ensures var m := Max(n, 1);
      var cs := FreeClusters(f0)[..m];
      var g := AllocatedTable(f0, n);
      IsChain(g, cs[0], m) && Chain(g, cs[0], m) == cs
      && (forall i :: 0 <= i < m ==> f0[cs[i]] == 0)
      && (forall x :: 0 <= x < |f0| && x !in cs ==> g[x] == f0[x])
  {
    var fc := FreeClusters(f0);
    var m := Max(n, 1);
    var cs, rest := fc[..m], fc[1..m];
    var f1 := f0[fc[0] := EndOfClusterchain as u32];
    AllocatedParts(f0, n);
    ChainAfterFirst(f1, fc[0], rest);
    assert cs == [fc[0]] + rest;
    assert forall i :: 1 <= i < m ==> cs[i] == rest[i - 1];
  }

  lemma HeadPrefix(s: seq<nat>, m: nat)
    requires 1 <= m <= |s|
    ensures s[..m] == [s[0]] + s[1..m]
  {
  }
}
