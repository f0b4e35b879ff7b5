/** On-disk format of fs.h: where inodes and the free map live, and which index blocks lead to a file block.

    The two builds share all of fs.c except the number of direct blocks and how deep the index tree is:
    project1 has 12 direct blocks and one indirect block, project3 has 10 direct blocks and a single,
    a double and a triple indirect block. */
module FsLayout {
  import opened Basics
  import opened Words

  datatype Build = Project1 | Project3

  datatype Super = Super(size: nat, ninodes: nat, inodestart: nat, bmapstart: nat)

  datatype Inode = Inode(typ: nat, major: nat, minor: nat, nlink: nat, size: nat, addrs: seq<nat>)

  const NINDIRECT := 128
  const NADDRS := 13
  const BPB := 4096
  const IPB := 8

  function NDirect(bd: Build): nat {
    if bd.Project1? then 12 else 10
  }

  /** Blocks bmap can reach. */
  function Cap(bd: Build): nat {
    if bd.Project1? then 12 + 128 else 10 + 128 * 128 * 128
  }

  function MaxFile(bd: Build): nat {
    if bd.Project1? then 12 + 128 else 10 + 128 + 128 * 128 + 128 * 128 * 128
  }

  lemma MaxFileIs(bd: Build)
    ensures MaxFile(bd) == if bd.Project1? then 140 else 2113674
  {
  }

  /** First data block: mkfs lays out boot, super, log, inode and bitmap blocks before it. */
  function Meta(sb: Super): nat {
    sb.bmapstart + sb.size / BPB + 1
  }

  predicate SuperOk(sb: Super) {
    && 0 < sb.inodestart
    && sb.inodestart + sb.ninodes / IPB + 1 == sb.bmapstart
    && Meta(sb) <= sb.size < 0x8000_0000
  }

  function IBlock(sb: Super, inum: nat): nat {
    inum / IPB + sb.inodestart
  }

  function BBlock(sb: Super, b: nat): nat {
    b / BPB + sb.bmapstart
  }

  lemma BBlockIsMeta(sb: Super, b: nat)
    requires SuperOk(sb) && b < sb.size
    ensures sb.bmapstart <= BBlock(sb, b) < Meta(sb) <= sb.size
  {
  }

  lemma IBlockIsMeta(sb: Super, inum: nat)
    requires SuperOk(sb) && inum < sb.ninodes
    ensures sb.inodestart <= IBlock(sb, inum) < sb.bmapstart < Meta(sb)
  {
  }

  // ---- the free map ----

  /** 1 << k */
  function P2(k: nat): (p: nat)
    ensures p > 0
  {
    if k == 0 then 1 else 2 * P2(k - 1)
  }

  /** Whether `x & (1 << k)` is not 0. */
  predicate BitOf(x: nat, k: nat) {
    if k == 0 then x % 2 == 1 else BitOf(x / 2, k - 1)
  }

  /** `x | m` is `x + m` when the bit is clear; it sets that bit and no other. */
  lemma {:induction false} SetBitOf(x: nat, k: nat, j: nat)
    requires !BitOf(x, k)
    ensures BitOf(x + P2(k), j) <==> j == k || BitOf(x, j)
  {
    if k > 0 {
      assert (x + P2(k)) / 2 == x / 2 + P2(k - 1) && (x + P2(k)) % 2 == x % 2;
      if j > 0 {
        SetBitOf(x / 2, k - 1, j - 1);
      }
    } else if j > 0 {
      assert (x + 1) / 2 == x / 2;
    }
  }

  /** `x & ~m` is `x - m` when the bit is set; it clears that bit and no other. */
  lemma {:induction false} ClearBitOf(x: nat, k: nat, j: nat)
    requires BitOf(x, k)
    ensures P2(k) <= x
    ensures BitOf(x - P2(k), j) <==> j != k && BitOf(x, j)
  {
    if k > 0 {
      ClearBitOf(x / 2, k - 1, if j > 0 then j - 1 else 0);
      assert (x - P2(k)) / 2 == x / 2 - P2(k - 1) && (x - P2(k)) % 2 == x % 2;
    } else if j > 0 {
      assert (x - 1) / 2 == x / 2;
    }
  }

  lemma Half(x: nat, p: nat, q: nat)
    requires x / 2 + p < q
    ensures x + 2 * p < 2 * q
  {
  }

  lemma P2Next(k: nat)
    requires k > 0
    ensures P2(k) == 2 * P2(k - 1)
  {
  }

  lemma BitNext(x: nat, k: nat)
    requires k > 0
    ensures BitOf(x, k) <==> BitOf(x / 2, k - 1)
  {
  }

  lemma LowBit(x: nat)
    ensures BitOf(x, 0) <==> x % 2 == 1
    ensures P2(0) == 1
  {
  }

  /** Setting a clear bit of a byte leaves a byte. */
  lemma {:induction false} SetBitRange(x: nat, k: nat, n: nat)
    requires !BitOf(x, k) && k < n && x < P2(n)
    ensures x + P2(k) < P2(n)
  {
    hide P2, BitOf;
    P2Next(n);
    if k > 0 {
      BitNext(x, k);
      SetBitRange(x / 2, k - 1, n - 1);
      P2Next(k);
      Half(x, P2(k - 1), P2(n - 1));
    } else {
      LowBit(x);
    }
  }

  lemma ByteRange()
    ensures P2(8) == 256
  {
    assert P2(2) == 4;
    assert P2(4) == 16;
    assert P2(6) == 64;
  }

  /** Bit `bi` of a bitmap block: `data[bi/8] & (1 << bi%8)`. */
  predicate BitIn(blk: Block, bi: nat)
    requires bi < BPB
  {
    BitOf(blk[bi / 8], bi % 8)
  }

  function SetBit(blk: Block, bi: nat): Block
    requires bi < BPB && !BitIn(blk, bi)
  {
    SetBitRange(blk[bi / 8], bi % 8, 8);
    ByteRange();
    blk[bi / 8 := blk[bi / 8] + P2(bi % 8)]
  }

  function ClearBit(blk: Block, bi: nat): Block
    requires bi < BPB && BitIn(blk, bi)
  {
    ClearBitOf(blk[bi / 8], bi % 8, 0);
    blk[bi / 8 := blk[bi / 8] - P2(bi % 8)]
  }

  lemma SetBitIn(blk: Block, bi: nat, ci: nat)
    requires bi < BPB && ci < BPB && !BitIn(blk, bi)
    ensures BitIn(SetBit(blk, bi), ci) <==> ci == bi || BitIn(blk, ci)
  {
    if ci / 8 == bi / 8 {
      SetBitOf(blk[bi / 8], bi % 8, ci % 8);
    }
  }

  lemma ClearBitIn(blk: Block, bi: nat, ci: nat)
    requires bi < BPB && ci < BPB && BitIn(blk, bi)
    ensures BitIn(ClearBit(blk, bi), ci) <==> ci != bi && BitIn(blk, ci)
  {
    if ci / 8 == bi / 8 {
      ClearBitOf(blk[bi / 8], bi % 8, ci % 8);
    }
  }

  /** The free-map bit of block `b`. */
  predicate Bit(sb: Super, data: seq<Block>, b: nat)
    requires SuperOk(sb) && |data| == sb.size && b < sb.size
  {
    BitIn(data[BBlock(sb, b)], b % BPB)
  }

  /** Marking one block changes one bit of the whole free map. */
  lemma SetOneBit(sb: Super, data: seq<Block>, b: nat, c: nat)
    requires SuperOk(sb) && |data| == sb.size && b < sb.size && c < sb.size
    requires !Bit(sb, data, b)
    ensures Bit(sb, data[BBlock(sb, b) := SetBit(data[BBlock(sb, b)], b % BPB)], c) <==> c == b || Bit(sb, data, c)
  {
    if c / BPB == b / BPB {
      SetBitIn(data[BBlock(sb, b)], b % BPB, c % BPB);
    }
  }

  lemma ClearOneBit(sb: Super, data: seq<Block>, b: nat, c: nat)
    requires SuperOk(sb) && |data| == sb.size && b < sb.size && c < sb.size
    requires Bit(sb, data, b)
    ensures Bit(sb, data[BBlock(sb, b) := ClearBit(data[BBlock(sb, b)], b % BPB)], c) <==> c != b && Bit(sb, data, c)
  {
    if c / BPB == b / BPB {
      ClearBitIn(data[BBlock(sb, b)], b % BPB, c % BPB);
    }
  }

  /** Where the bit of block `b` is: 4096 bits to a block, 8 to a byte, lowest first. */
  lemma BitPosition(sb: Super, data: seq<Block>, b: nat)
    requires SuperOk(sb) && |data| == sb.size && b < sb.size
    ensures sb.bmapstart + b / 4096 < |data|
    ensures Bit(sb, data, b) <==> ByteBit(data[sb.bmapstart + b / 4096][b % 4096 / 8], b % 8)
  {
    hide BitOf, ByteBit, SuperOk, Meta;
    BBlockIsMeta(sb, b);
    BitInBlock(b);
    BitOfByte(data[sb.bmapstart + b / 4096][b % 4096 / 8], b % 8);
  }

  predicate ByteBit(x: nat, k: nat)
    requires k < 8
  {
    x / [1, 2, 4, 8, 16, 32, 64, 128][k] % 2 == 1
  }

  lemma BitInBlock(b: nat)
    ensures b % 4096 % 8 == b % 8 && b % 4096 / 8 < 512
  {
  }

  lemma {:induction false} BitOfByte(x: nat, k: nat)
    requires k < 8
    ensures BitOf(x, k) <==> ByteBit(x, k)
    decreases k
  {
    if k > 0 {
      BitOfByte(x / 2, k - 1);
      BitNext(x, k);
      HalfByte(x, k);
    }
  }

  lemma HalfByte(x: nat, k: nat)
    requires 0 < k < 8
    ensures ByteBit(x / 2, k - 1) <==> ByteBit(x, k)
  {
    assert x / 2 / [1, 2, 4, 8, 16, 32, 64][k - 1] == x / [2, 4, 8, 16, 32, 64, 128][k - 1];
  }

  // ---- the index tree ----

  /** A block of a file's tree: `path[0]` is the slot in addrs, the rest the slots in index blocks. */
  datatype Node = Node(inum: nat, path: seq<nat>)

  /** How many index blocks hang above the data reached through addrs slot `k`. */
  function Depth(bd: Build, k: nat): nat {
    if k < NDirect(bd) then 0 else k - NDirect(bd) + 1
  }

  predicate NodeOk(bd: Build, ninodes: nat, n: Node) {
    && n.inum < ninodes
    && 1 <= |n.path|
    && n.path[0] < NADDRS
    && |n.path| <= 1 + Depth(bd, n.path[0])
    && forall j :: 1 <= j < |n.path| ==> n.path[j] < NINDIRECT
  }

  predicate IsLeaf(bd: Build, n: Node) {
    1 <= |n.path| && |n.path| == 1 + Depth(bd, n.path[0])
  }

  predicate IsIndex(bd: Build, n: Node) {
    1 <= |n.path| && |n.path| < 1 + Depth(bd, n.path[0])
  }

  function Kid(n: Node, j: nat): Node {
    Node(n.inum, n.path + [j])
  }

  function Parent(n: Node): Node
    requires |n.path| >= 2
  {
    Node(n.inum, n.path[..|n.path| - 1])
  }

  /** The slots bmap follows for file block `bn`. After the direct blocks are subtracted, project3 uses what
      is left as it is at all three levels. */
  function Path(bd: Build, bn: nat): seq<nat>
    requires bn < Cap(bd)
  {
    var nd := NDirect(bd);
    if bn < nd then [bn]
    else
      var r := bn - nd;
      if r < 128 then [nd, r]
      else if r < 128 * 128 then [nd + 1, r / 128, r % 128]
      else [nd + 2, r / (128 * 128), r % (128 * 128) / 128, r % 128]
  }

  function Leaf(bd: Build, inum: nat, bn: nat): Node
    requires bn < Cap(bd)
  {
    Node(inum, Path(bd, bn))
  }

  lemma LeafOk(bd: Build, ninodes: nat, inum: nat, bn: nat)
    requires bn < Cap(bd) && inum < ninodes
    ensures NodeOk(bd, ninodes, Leaf(bd, inum, bn)) && IsLeaf(bd, Leaf(bd, inum, bn))
  {
  }

  /** No two blocks of a file share a place in its tree. */
  lemma PathInjective(bd: Build, bn: nat, bm: nat)
    requires bn < Cap(bd) && bm < Cap(bd) && Path(bd, bn) == Path(bd, bm)
    ensures bn == bm
  {
    var p := Path(bd, bn);
    assert p == Path(bd, bm);
    var r, q := bn - NDirect(bd), bm - NDirect(bd);
    if |p| == 4 {
      assert p[1] == r / 16384 == q / 16384;
      assert p[2] == r % 16384 / 128 == q % 16384 / 128;
      assert p[3] == r % 128 == q % 128;
      Digits(r);
      Digits(q);
    } else if |p| == 3 {
      assert p[1] == r / 128 == q / 128 && p[2] == r % 128 == q % 128;
    } else if |p| == 2 {
      assert p[1] == r == q;
    } else {
      assert p[0] == bn == bm;
    }
  }

  lemma Digits(r: nat)
    ensures r == 16384 * (r / 16384) + 128 * (r % 16384 / 128) + r % 128
  {
    assert r % 16384 % 128 == r % 128 by {
      assert r == 16384 * (r / 16384) + r % 16384;
      assert r % 16384 == 128 * (r % 16384 / 128) + r % 16384 % 128;
      assert r == 128 * (128 * (r / 16384) + r % 16384 / 128) + r % 16384 % 128;
    }
  }

  // ---- inodes on disk ----

  function EncodeAddrs(addrs: seq<nat>): (s: seq<byte>)
    ensures |s| == 4 * |addrs|
    decreases |addrs|
  {
    if addrs == [] then [] else EncodeAddrs(addrs[..|addrs| - 1]) + Encode(addrs[|addrs| - 1], 4)
  }

  /** struct dinode: four shorts, the size, 13 addresses; 64 bytes. */
  function EncodeInode(ip: Inode): (s: seq<byte>)
    requires |ip.addrs| == NADDRS
    ensures |s| == 64
  {
    Encode(ip.typ, 2) + Encode(ip.major, 2) + Encode(ip.minor, 2) + Encode(ip.nlink, 2)
    + Encode(ip.size, 4) + EncodeAddrs(ip.addrs)
  }

  function DecodeInode(s: seq<byte>): Inode
    requires |s| == 64
  {
    Inode(Decode(s[0..2]), Decode(s[2..4]), Decode(s[4..6]), Decode(s[6..8]), Decode(s[8..12]),
          seq(NADDRS, k requires 0 <= k < NADDRS => Decode(s[12 + 4 * k..16 + 4 * k])))
  }

  predicate InodeFits(ip: Inode) {
    && |ip.addrs| == NADDRS
    && ip.typ < 0x1_0000 && ip.major < 0x1_0000 && ip.minor < 0x1_0000 && ip.nlink < 0x1_0000
    && ip.size < UINT
    && forall k :: 0 <= k < NADDRS ==> ip.addrs[k] < UINT
  }

  lemma {:induction false} EncodeAddrsAt(addrs: seq<nat>, k: nat)
    requires k < |addrs|
    ensures EncodeAddrs(addrs)[4 * k..4 * k + 4] == Encode(addrs[k], 4)
    decreases |addrs|
  {
    var front := addrs[..|addrs| - 1];
    if k < |front| {
      EncodeAddrsAt(front, k);
      assert EncodeAddrs(addrs)[4 * k..4 * k + 4] == EncodeAddrs(front)[4 * k..4 * k + 4];
    }
  }

  /** ilock reads back what iupdate wrote. */
  lemma InodeRoundTrip(ip: Inode)
    requires InodeFits(ip)
    ensures DecodeInode(EncodeInode(ip)) == ip
  {
    var s := EncodeInode(ip);
    LimitFour();
    assert Limit(2) == 65536;
    assert s[0..2] == Encode(ip.typ, 2) && s[2..4] == Encode(ip.major, 2);
    assert s[4..6] == Encode(ip.minor, 2) && s[6..8] == Encode(ip.nlink, 2);
    assert s[8..12] == Encode(ip.size, 4);
    DecodeEncode(ip.typ, 2);
    DecodeEncode(ip.major, 2);
    DecodeEncode(ip.minor, 2);
    DecodeEncode(ip.nlink, 2);
    DecodeEncode(ip.size, 4);
    forall k | 0 <= k < NADDRS
      ensures Decode(s[12 + 4 * k..16 + 4 * k]) == ip.addrs[k]
    {
      EncodeAddrsAt(ip.addrs, k);
      assert s[12 + 4 * k..16 + 4 * k] == EncodeAddrs(ip.addrs)[4 * k..4 * k + 4];
      DecodeEncode(ip.addrs[k], 4);
    }
  }

  function InodeSlot(blk: Block, inum: nat): (s: seq<byte>)
    ensures |s| == 64
  {
    blk[inum % IPB * 64..inum % IPB * 64 + 64]
  }

  function PutInode(blk: Block, inum: nat, ip: Inode): Block
    requires |ip.addrs| == NADDRS
  {
    blk[..inum % IPB * 64] + EncodeInode(ip) + blk[inum % IPB * 64 + 64..]
  }

  /** The four shorts at the front of a slot, and the size. */
  lemma FrontPosition(ip: Inode)
    requires |ip.addrs| == NADDRS
    ensures var s := EncodeInode(ip);
            && s[0..2] == Encode(ip.typ, 2) && s[2..4] == Encode(ip.major, 2) && s[4..6] == Encode(ip.minor, 2)
            && s[6..8] == Encode(ip.nlink, 2) && s[8..12] == Encode(ip.size, 4)
  {
    hide Encode, EncodeAddrs;
  }

  lemma ShortAt(s: seq<byte>, at: nat, w: nat)
    requires w < 0x1_0000 && at + 2 <= |s| && s[at..at + 2] == Encode(w, 2)
    ensures s[at] as int + 0x100 * s[at + 1] as int == w
  {
    hide Encode;
    ShortBytes(w);
    assert s[at..at + 2][0] == s[at] && s[at..at + 2][1] == s[at + 1];
  }

  /** Where the fields of an inode are in its 64 bytes: four shorts, the size, and thirteen addresses. */
  lemma InodePosition(ip: Inode)
    requires InodeFits(ip)
    ensures var s := EncodeInode(ip);
            && s[0] as int + 0x100 * s[1] as int == ip.typ && s[2] as int + 0x100 * s[3] as int == ip.major
            && s[4] as int + 0x100 * s[5] as int == ip.minor && s[6] as int + 0x100 * s[7] as int == ip.nlink
            && Word(s, 2) == ip.size
            && forall j :: 0 <= j < 13 ==> Word(s, 3 + j) == ip.addrs[j]
  {
    hide Decode, Encode, EncodeInode;
    var s := EncodeInode(ip);
    FrontPosition(ip);
    ShortAt(s, 0, ip.typ);
    ShortAt(s, 2, ip.major);
    ShortAt(s, 4, ip.minor);
    ShortAt(s, 6, ip.nlink);
    LimitFour();
    DecodeEncode(ip.size, 4);
    forall j | 0 <= j < 13
      ensures Word(s, 3 + j) == ip.addrs[j]
    {
      AddrPosition(ip, j);
      DecodeEncode(ip.addrs[j], 4);
    }
  }

  lemma AddrPosition(ip: Inode, j: nat)
    requires |ip.addrs| == NADDRS && j < NADDRS
    ensures EncodeInode(ip)[12 + 4 * j..16 + 4 * j] == Encode(ip.addrs[j], 4)
  {
    hide Encode;
    EncodeAddrsAt(ip.addrs, j);
    assert EncodeInode(ip)[12 + 4 * j..16 + 4 * j] == EncodeAddrs(ip.addrs)[4 * j..4 * j + 4];
  }

  /** Writing one inode leaves the others in its block alone. */
  lemma PutInodeSlots(sb: Super, blk: Block, inum: nat, ip: Inode, j: nat)
    requires |ip.addrs| == NADDRS
    ensures InodeSlot(PutInode(blk, inum, ip), inum) == EncodeInode(ip)
    ensures IBlock(sb, j) == IBlock(sb, inum) && j != inum ==>
              InodeSlot(PutInode(blk, inum, ip), j) == InodeSlot(blk, j)
  {
    assert InodeSlot(PutInode(blk, inum, ip), inum) == EncodeInode(ip);
    if IBlock(sb, j) == IBlock(sb, inum) && j != inum {
      assert j % IPB != inum % IPB;
      assert InodeSlot(PutInode(blk, inum, ip), j) == InodeSlot(blk, j);
    }
  }
}
