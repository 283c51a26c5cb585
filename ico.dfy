/** The ICO container written by the icon script: a 6-byte header, one
    16-byte directory entry per image, then the PNG images themselves,
    each entry holding the byte offset of its image. Numbers are little
    endian. */
module Ico {
  newtype byte = x: int | 0 <= x < 256

  const HeaderSize: nat := 6
  const DirEntrySize: nat := 16
  /** The icon sizes the script renders, in order. */
  const IconSizes: seq<nat> := [16, 32, 48, 64, 128, 256]

  // ---------------------------------------------------------------------
  // Little-endian numbers

  function U16LE(v: nat): (bs: seq<byte>)
    requires v < 0x1_0000
    ensures |bs| == 2
  {
    [(v % 256) as byte, (v / 256) as byte]
  }

  function U32LE(v: nat): (bs: seq<byte>)
    requires v < 0x1_0000_0000
    ensures |bs| == 4
  {
    [(v % 256) as byte, ((v / 256) % 256) as byte, ((v / 0x1_0000) % 256) as byte, (v / 0x100_0000) as byte]
  }

  function ReadU16LE(bs: seq<byte>): nat
    requires |bs| >= 2
  {
    bs[0] as nat + 256 * bs[1] as nat
  }

  function ReadU32LE(bs: seq<byte>): nat
    requires |bs| >= 4
  {
    bs[0] as nat + 256 * bs[1] as nat + 0x1_0000 * bs[2] as nat + 0x100_0000 * bs[3] as nat
  }

  lemma U16RoundTrip(v: nat)
    requires v < 0x1_0000
    ensures ReadU16LE(U16LE(v)) == v
  {
  }

  lemma U32RoundTrip(v: nat)
    requires v < 0x1_0000_0000
    ensures ReadU32LE(U32LE(v)) == v
  {
    var q1, q2 := v / 256, v / 0x1_0000;
    assert v == v % 256 + 256 * q1;
    assert q1 / 256 == q2 && q2 / 256 == v / 0x100_0000;
    assert q1 == q1 % 256 + 256 * q2;
    assert q2 == q2 % 256 + 256 * (v / 0x100_0000);
    var bs := U32LE(v);
    assert bs[0] as nat == v % 256 && bs[1] as nat == q1 % 256;
    assert bs[2] as nat == q2 % 256 && bs[3] as nat == v / 0x100_0000;
  }

  /** `s` with the bytes from `off` on replaced by `bs`. */
  function Splice(s: seq<byte>, off: nat, bs: seq<byte>): (r: seq<byte>)
    requires off + |bs| <= |s|
    ensures |r| == |s| && r[off..off + |bs|] == bs
    ensures r[..off] == s[..off] && r[off + |bs|..] == s[off + |bs|..]
  {
    s[..off] + bs + s[off + |bs|..]
  }

  // ---------------------------------------------------------------------
  // Writers on a buffer; each refuses a value out of range, as Node does

  method WriteUInt8(buf: array<byte>, value: nat, off: nat)
    requires value < 256 && off < buf.Length
    modifies buf
    ensures buf[..] == Splice(old(buf[..]), off, [value as byte])
  {
    buf[off] := value as byte;
  }

  method WriteUInt16LE(buf: array<byte>, value: nat, off: nat)
    requires value < 0x1_0000 && off + 2 <= buf.Length
    modifies buf
    ensures buf[..] == Splice(old(buf[..]), off, U16LE(value))
  {
    buf[off] := (value % 256) as byte;
    buf[off + 1] := (value / 256) as byte;
  }

  method WriteUInt32LE(buf: array<byte>, value: nat, off: nat)
    requires value < 0x1_0000_0000 && off + 4 <= buf.Length
    modifies buf
    ensures buf[..] == Splice(old(buf[..]), off, U32LE(value))
  {
    buf[off] := (value % 256) as byte;
    buf[off + 1] := ((value / 256) % 256) as byte;
    buf[off + 2] := ((value / 0x1_0000) % 256) as byte;
    buf[off + 3] := (value / 0x100_0000) as byte;
  }

  // ---------------------------------------------------------------------
  // Header and directory entry

  /** Reserved 0, type 1 (icon), number of images. */
  function IcoHeader(numImages: nat): (bs: seq<byte>)
    requires numImages < 0x1_0000
    ensures |bs| == HeaderSize
  {
    U16LE(0) + U16LE(1) + U16LE(numImages)
  }

  /** The width or height byte: 256 does not fit and is written as 0. The
      contract is the format's rule itself; `DirEntryFields` places it in
      the directory entry. */
  function DimByte(d: nat): (b: byte)
    requires d <= 256
    ensures d < 256 ==> b as nat == d
    ensures d == 256 ==> b == 0
  {
    if d == 256 then 0 else d as byte
  }

  /** Width, height, no palette, reserved, one plane, 32 bits per pixel,
      image size, image offset. */
  function DirEntry(width: nat, height: nat, size: nat, offset: nat): (bs: seq<byte>)
    requires width <= 256 && height <= 256 && size < 0x1_0000_0000 && offset < 0x1_0000_0000
    ensures |bs| == DirEntrySize
  {
    [DimByte(width), DimByte(height), 0, 0] + U16LE(1) + U16LE(32) + U32LE(size) + U32LE(offset)
  }

  /** The fields read back from their offsets. */
  lemma HeaderFields(numImages: nat)
    requires numImages < 0x1_0000
    ensures var h := IcoHeader(numImages);
      ReadU16LE(h[0..2]) == 0 && ReadU16LE(h[2..4]) == 1 && ReadU16LE(h[4..6]) == numImages
  {
    var h := IcoHeader(numImages);
    assert h[4..6] == U16LE(numImages);
    U16RoundTrip(numImages);
  }

  lemma DirEntryFields(width: nat, height: nat, size: nat, offset: nat)
    requires width <= 256 && height <= 256 && size < 0x1_0000_0000 && offset < 0x1_0000_0000
    ensures var e := DirEntry(width, height, size, offset);
      e[0] == DimByte(width) && e[1] == DimByte(height) && e[2] == 0 && e[3] == 0
      && ReadU16LE(e[4..6]) == 1 && ReadU16LE(e[6..8]) == 32
      && ReadU32LE(e[8..12]) == size && ReadU32LE(e[12..16]) == offset
  {
    var e := DirEntry(width, height, size, offset);
    assert e[8..12] == U32LE(size);
    assert e[12..16] == U32LE(offset);
    U32RoundTrip(size);
    U32RoundTrip(offset);
  }

  method CreateIcoHeader(numImages: nat) returns (buffer: array<byte>)
    requires numImages < 0x1_0000
    ensures fresh(buffer) && buffer[..] == IcoHeader(numImages)
  {
    buffer := new byte[6](_ => 0);
    WriteUInt16LE(buffer, 0, 0);
    WriteUInt16LE(buffer, 1, 2);
    WriteUInt16LE(buffer, numImages, 4);
  }

  method CreateIcoDirEntry(width: nat, height: nat, size: nat, offset: nat) returns (buffer: array<byte>)
    requires width <= 256 && height <= 256 && size < 0x1_0000_0000 && offset < 0x1_0000_0000
    ensures fresh(buffer) && buffer[..] == DirEntry(width, height, size, offset)
  {
    buffer := new byte[16](_ => 0);
    ghost var zeros := buffer[..];
    WriteUInt8(buffer, if width == 256 then 0 else width, 0);
    WriteUInt8(buffer, if height == 256 then 0 else height, 1);
    WriteUInt8(buffer, 0, 2);
    WriteUInt8(buffer, 0, 3);
    ghost var small := buffer[..];
    WriteUInt16LE(buffer, 1, 4);
    WriteUInt16LE(buffer, 32, 6);
    ghost var middle := buffer[..];
    WriteUInt32LE(buffer, size, 8);
    WriteUInt32LE(buffer, offset, 12);
    DirEntryWrites(zeros, small, middle, buffer[..], width, height, size, offset);
  }

  /** The eight writes of createIcoDirEntry, on the buffer's contents. */
  lemma DirEntryWrites(zeros: seq<byte>, small: seq<byte>, middle: seq<byte>, full: seq<byte>,
                       width: nat, height: nat, size: nat, offset: nat)
    requires width <= 256 && height <= 256 && size < 0x1_0000_0000 && offset < 0x1_0000_0000
    requires |zeros| == 16
    requires small == Splice(Splice(Splice(Splice(zeros,
      0, [(if width == 256 then 0 else width) as byte]),
      1, [(if height == 256 then 0 else height) as byte]), 2, [0]), 3, [0])
    requires middle == Splice(Splice(small, 4, U16LE(1)), 6, U16LE(32))
    requires full == Splice(Splice(middle, 8, U32LE(size)), 12, U32LE(offset))
    ensures full == DirEntry(width, height, size, offset)
  {
    assert small[..4] == [DimByte(width), DimByte(height), 0, 0];
    assert middle[..8] == small[..4] + U16LE(1) + U16LE(32);
    assert full == middle[..8] + U32LE(size) + U32LE(offset);
  }

  // ---------------------------------------------------------------------
  // The whole file

  datatype Png = Png(size: nat, buffer: seq<byte>)

  function Flatten(xs: seq<seq<byte>>): (r: seq<byte>)
    decreases |xs|
  {
    if xs == [] then [] else Flatten(xs[..|xs| - 1]) + xs[|xs| - 1]
  }

  function Buffers(pngs: seq<Png>): (bs: seq<seq<byte>>)
    ensures |bs| == |pngs| && forall i :: 0 <= i < |pngs| ==> bs[i] == pngs[i].buffer
  {
    seq(|pngs|, i requires 0 <= i < |pngs| => pngs[i].buffer)
  }

  /** Where image `i` starts: after the header, all entries and the images before it. */
  function OffsetOf(pngs: seq<Png>, i: nat): nat
    requires i <= |pngs|
  {
    HeaderSize + DirEntrySize * |pngs| + |Flatten(Buffers(pngs)[..i])|
  }

  /** What a file needs for every field to fit: at most 65535 images,
      sizes up to 256, and every image length and offset within 32 bits. */
  predicate Encodable(pngs: seq<Png>) {
    |pngs| < 0x1_0000
    && forall i :: 0 <= i < |pngs| ==>
         pngs[i].size <= 256 && |pngs[i].buffer| < 0x1_0000_0000 && OffsetOf(pngs, i) < 0x1_0000_0000
  }

  function Entries(pngs: seq<Png>, n: nat): (es: seq<seq<byte>>)
    requires n <= |pngs| && Encodable(pngs)
    ensures |es| == n
  {
    seq(n, i requires 0 <= i < n =>
      DirEntry(pngs[i].size, pngs[i].size, |pngs[i].buffer|, OffsetOf(pngs, i)))
  }

  /** The file: header, then every entry, then every image, in order. */
  function IcoFile(pngs: seq<Png>): seq<byte>
    requires Encodable(pngs)
  {
    IcoHeader(|pngs|) + Flatten(Entries(pngs, |pngs|)) + Flatten(Buffers(pngs))
  }

  lemma OffsetNext(pngs: seq<Png>, i: nat)
    requires i < |pngs|
    ensures OffsetOf(pngs, i + 1) == OffsetOf(pngs, i) + |pngs[i].buffer|
  {
    var bs := Buffers(pngs);
    assert bs[..i + 1][..i] == bs[..i];
  }

  method GenerateIco(pngs: seq<Png>) returns (ico: seq<byte>)
    requires Encodable(pngs)
    ensures ico == IcoFile(pngs)
  {
    var headerSize := 6;
    var dirEntrySize := 16;
    var offset := headerSize + dirEntrySize * |pngs|;
    assert Buffers(pngs)[..0] == [];
    var dirEntries: seq<seq<byte>> := [];
    for i := 0 to |pngs|
      invariant dirEntries == Entries(pngs, i)
      invariant offset == OffsetOf(pngs, i)
    {
      var entry := CreateIcoDirEntry(pngs[i].size, pngs[i].size, |pngs[i].buffer|, offset);
      dirEntries := dirEntries + [entry[..]];
      OffsetNext(pngs, i);
      offset := offset + |pngs[i].buffer|;
    }
    var header := CreateIcoHeader(|pngs|);
    ico := header[..] + Flatten(dirEntries) + Flatten(Buffers(pngs));
  }

  // ---------------------------------------------------------------------
  // Layout

  lemma {:induction false} FlattenLength(xs: seq<seq<byte>>, k: nat)
    requires |xs| >= 1 && forall i :: 0 <= i < |xs| ==> |xs[i]| == k
    ensures |Flatten(xs)| == k * |xs|
    decreases |xs|
  {
    if |xs| > 1 {
      FlattenLength(xs[..|xs| - 1], k);
    }
  }

  /** Piece `i` of a flattened sequence sits right after the pieces before it. */
  lemma {:induction false} FlattenPiece(xs: seq<seq<byte>>, i: nat)
    requires i < |xs|
    ensures |Flatten(xs[..i])| + |xs[i]| <= |Flatten(xs)|
    ensures Flatten(xs)[|Flatten(xs[..i])|..|Flatten(xs[..i])| + |xs[i]|] == xs[i]
    decreases |xs|
  {
    var init := xs[..|xs| - 1];
    if i == |xs| - 1 {
      assert xs[..i] == init;
    } else {
      FlattenPiece(init, i);
      assert init[..i] == xs[..i];
      var f := Flatten(init);
      assert Flatten(xs) == f + xs[|xs| - 1];
      var a := |Flatten(xs[..i])|;
      assert Flatten(xs)[a..a + |xs[i]|] == f[a..a + |xs[i]|];
    }
  }

  /** The file is 6 + 16n bytes plus the images. */
  lemma IcoLength(pngs: seq<Png>)
    requires Encodable(pngs)
    ensures |IcoFile(pngs)| == HeaderSize + DirEntrySize * |pngs| + |Flatten(Buffers(pngs))|
  {
    if |pngs| > 0 {
      FlattenLength(Entries(pngs, |pngs|), DirEntrySize);
    }
  }

  /** The first image starts right after the directory, at 6 + 16n. */
  lemma FirstOffset(pngs: seq<Png>)
    requires |pngs| > 0
    ensures OffsetOf(pngs, 0) == HeaderSize + DirEntrySize * |pngs|
  {
    assert Buffers(pngs)[..0] == [];
  }

  lemma SliceOfMiddle(x: seq<byte>, y: seq<byte>, z: seq<byte>, a: nat, k: nat)
    requires a + k <= |y|
    ensures (x + y + z)[|x| + a..|x| + a + k] == y[a..a + k]
  {
  }

  lemma SliceOfLast(xy: seq<byte>, z: seq<byte>, a: nat, k: nat)
    requires a + k <= |z|
    ensures (xy + z)[|xy| + a..|xy| + a + k] == z[a..a + k]
  {
  }

  /** In a header of 6 bytes followed by 16-byte pieces, piece `i` is at 6 + 16i. */
  lemma PieceSlot(h: seq<byte>, es: seq<seq<byte>>, z: seq<byte>, i: nat)
    requires |h| == 6 && i < |es| && forall j :: 0 <= j < |es| ==> |es[j]| == 16
    ensures 6 + 16 * i + 16 <= |h + Flatten(es) + z|
    ensures (h + Flatten(es) + z)[6 + 16 * i..6 + 16 * i + 16] == es[i]
  {
    FlattenLength(es, 16);
    if i > 0 {
      FlattenLength(es[..i], 16);
    } else {
      assert es[..0] == [];
    }
    FlattenPiece(es, i);
    SliceOfMiddle(h, Flatten(es), z, 16 * i, 16);
  }

  /** Entry `i` is the 16 bytes at 6 + 16i. */
  lemma EntryAt(pngs: seq<Png>, i: nat)
    requires Encodable(pngs) && i < |pngs|
    ensures var ico := IcoFile(pngs);
      6 + 16 * i + 16 <= |ico|
      && ico[6 + 16 * i..6 + 16 * i + 16] == Entries(pngs, |pngs|)[i]
  {
    PieceSlot(IcoHeader(|pngs|), Entries(pngs, |pngs|), Flatten(Buffers(pngs)), i);
  }

  /** Image `i` lies at the offset its entry records. */
  lemma ImageAt(pngs: seq<Png>, i: nat)
    requires Encodable(pngs) && i < |pngs|
    ensures var ico := IcoFile(pngs);
      var off := OffsetOf(pngs, i);
      off + |pngs[i].buffer| <= |ico| && ico[off..off + |pngs[i].buffer|] == pngs[i].buffer
  {
    var es, bs := Entries(pngs, |pngs|), Buffers(pngs);
    ImageSlot(IcoHeader(|pngs|), es, bs, i);
  }

  /** After a 6-byte header and n 16-byte pieces, image `i` starts at
      6 + 16n plus the lengths of the images before it. */
  lemma ImageSlot(h: seq<byte>, es: seq<seq<byte>>, bs: seq<seq<byte>>, i: nat)
    requires |h| == 6 && i < |bs| && forall j :: 0 <= j < |es| ==> |es[j]| == 16
    ensures var off := 6 + 16 * |es| + |Flatten(bs[..i])|;
      off + |bs[i]| <= |h + Flatten(es) + Flatten(bs)|
      && (h + Flatten(es) + Flatten(bs))[off..off + |bs[i]|] == bs[i]
  {
    var x := h + Flatten(es);
    assert |x| == 6 + 16 * |es| by {
      if es != [] {
        FlattenLength(es, 16);
      }
    }
    FlattenPiece(bs, i);
    SliceOfLast(x, Flatten(bs), |Flatten(bs[..i])|, |bs[i]|);
  }

  /** Reading entry `i` of the file gives the image's size and an offset
      where exactly that image's bytes are found. */
  lemma EntryPointsAtImage(pngs: seq<Png>, i: nat)
    requires Encodable(pngs) && i < |pngs|
    ensures var ico := IcoFile(pngs);
      6 + 16 * i + 16 <= |ico|
      && var entry := ico[6 + 16 * i..6 + 16 * i + 16];
      var off := ReadU32LE(entry[12..16]);
      ReadU32LE(entry[8..12]) == |pngs[i].buffer|
      && off + |pngs[i].buffer| <= |ico| && ico[off..off + |pngs[i].buffer|] == pngs[i].buffer
  {
    EntryAt(pngs, i);
    ImageAt(pngs, i);
    DirEntryFields(pngs[i].size, pngs[i].size, |pngs[i].buffer|, OffsetOf(pngs, i));
  }

  /** For the six icon sizes the images start at byte 102, and the
      256-pixel entry writes 0 as its width and height. */
  lemma StandardIconLayout(pngs: seq<Png>)
    requires |pngs| == |IconSizes| && forall i :: 0 <= i < |pngs| ==> pngs[i].size == IconSizes[i]
    ensures OffsetOf(pngs, 0) == 102
    ensures DimByte(pngs[5].size) == 0 && DimByte(pngs[0].size) == 16
  {
    FirstOffset(pngs);
  }
}
