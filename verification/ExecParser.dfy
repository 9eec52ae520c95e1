/** From ELF program headers to page-aligned segments, in 32-bit unsigned arithmetic. */
module ExecParser {
  /** `getpagesize()` on i386. */
  const PAGE: nat := 4096

  const PT_LOAD: u32 := 1
  const PF_X: nat := 1
  const PF_W: nat := 2
  const PF_R: nat := 4
  const PERM_R: nat := 1
  const PERM_W: nat := 2
  const PERM_X: nat := 4

  type u32 = x: nat | x < 0x1_0000_0000

  function Wrap(x: int): u32 { x % 0x1_0000_0000 }

  predicate Bit(x: nat, bit: nat)
    requires bit > 0
  {
    x / bit % 2 == 1
  }

  /** The bitwise and of two numbers. */
  function And(x: nat, y: nat): (r: nat)
    ensures r <= x
  {
    if x == 0 || y == 0 then 0 else x % 2 * (y % 2) + 2 * And(x / 2, y / 2)
  }

  /** `~` on 32 bits. */
  function Complement(x: u32): u32 { 0xFFFF_FFFF - x }

  /** `ALIGN_DOWN` to a page. */
  function AlignDown(v: u32): u32 { And(v, Complement(PAGE - 1)) }

  /** A mask whose lowest `n` bits are 0 and whose others, up to bit `w`, are 1, goes down to a multiple of 2^n. */
  lemma {:induction false} MaskGoesDown(v: nat, n: nat, w: nat) returns (q: nat)
    requires n <= w && v < Power(w)
    ensures Power(n) <= Power(w)
    ensures var r := And(v, Power(w) - Power(n)); r == q * Power(n) && r <= v < r + Power(n)
    decreases w
  {
    if n == 0 {
      MaskOfOnes(v, w);
      q := v;
    } else {
      var a, b := Power(w - 1), Power(n - 1);
      assert Power(w) == 2 * a && Power(n) == 2 * b;
      hide Power, And;
      q := MaskGoesDown(v / 2, n - 1, w - 1);
      AndEven(v, a - b);
      Twice(q, b);
    }
  }

  lemma AndEven(v: nat, y: nat)
    ensures And(v, 2 * y) == 2 * And(v / 2, y)
  {
  }

  lemma Twice(q: nat, b: nat)
    ensures q * (2 * b) == 2 * (q * b)
  {
  }

  function Power(n: nat): (p: nat)
    ensures p > 0
  {
    if n == 0 then 1 else 2 * Power(n - 1)
  }

  lemma {:induction false} MaskOfOnes(v: nat, w: nat)
    requires v < Power(w)
    ensures And(v, Power(w) - 1) == v
    decreases w
  {
    if v > 0 {
      MaskOfOnes(v / 2, w - 1);
      assert (Power(w) - 1) / 2 == Power(w - 1) - 1 && (Power(w) - 1) % 2 == 1;
    }
  }

  /** The macro takes off the offset within the page. */
  lemma AlignDownIs(v: u32)
    ensures AlignDown(v) == v - v % 4096
  {
    hide And;
    assert Power(4) == 16;
    PowerAdd(4, 4);
    PowerAdd(8, 4);
    PowerAdd(12, 4);
    PowerAdd(16, 16);
    hide Power;
    var q := MaskGoesDown(v, 12, 32);
  }

  lemma {:induction false} PowerAdd(m: nat, n: nat)
    ensures Power(m + n) == Power(m) * Power(n)
    decreases m
  {
    if m > 0 { PowerAdd(m - 1, n); }
  }

  /** `Elf32_Phdr`, where the loader reads it. */
  datatype Phdr = Phdr(ptype: u32, offset: u32, vaddr: u32, filesz: u32, memsz: u32, flags: u32)

  /** `so_seg_t`, without the flags of mapped pages. */
  datatype Segment = Segment(vaddr: u32, fileSize: u32, memSize: u32, offset: u32, perm: u32)

  function PermOf(flags: u32): u32 {
    (if Bit(flags, PF_X) then PERM_X else 0) + (if Bit(flags, PF_R) then PERM_R else 0)
    + (if Bit(flags, PF_W) then PERM_W else 0)
  }

  /** The segment of a loadable header: it starts at the page of `vaddr`, and everything else grows by as much. */
  function SegmentOf(p: Phdr): Segment {
    var diff := p.vaddr - AlignDown(p.vaddr);
    Segment(AlignDown(p.vaddr), Wrap(p.filesz + diff), Wrap(p.memsz + diff), Wrap(p.offset - diff), PermOf(p.flags))
  }

  function Loadable(ps: seq<Phdr>): (n: nat)
    ensures n <= |ps|
  {
    if ps == [] then 0 else Loadable(ps[..|ps| - 1]) + (if ps[|ps| - 1].ptype == PT_LOAD then 1 else 0)
  }

  /** The segments of the loadable headers, in order. */
  function Segments(ps: seq<Phdr>): (segs: seq<Segment>)
    ensures |segs| == Loadable(ps)
  {
    if ps == [] then []
    else Segments(ps[..|ps| - 1]) + (if ps[|ps| - 1].ptype == PT_LOAD then [SegmentOf(ps[|ps| - 1])] else [])
  }

  /** The lowest start of these segments, or the largest address. */
  function BaseOf(segs: seq<Segment>): (b: u32)
    ensures forall i :: 0 <= i < |segs| ==> b <= segs[i].vaddr
    ensures b == 0xFFFF_FFFF || exists i :: 0 <= i < |segs| && segs[i].vaddr == b
  {
    if segs == [] then 0xFFFF_FFFF
    else
      var b := BaseOf(segs[..|segs| - 1]);
      if segs[|segs| - 1].vaddr < b then segs[|segs| - 1].vaddr else b
  }

  /** `so_exec_t` */
  class Exec {
    var baseAddr: u32
    var entry: u32
    var segments: array<Segment>

    /** The part of `so_parse_exec` that builds the segments: the loadable headers are counted, then converted. */
    constructor (phdrs: array<Phdr>, entry: u32)
      ensures fresh(segments) && segments[..] == Segments(phdrs[..])
      ensures baseAddr == BaseOf(segments[..]) && this.entry == entry
    {
      hide Loadable, Segments, BaseOf;
      NoHeaders();
      var n: nat := 0;
      assert phdrs[..0] == [];
      for i := 0 to phdrs.Length
        invariant n == Loadable(phdrs[..i])
      {
        LoadableGrows(phdrs[..], i);
        assert phdrs[..][..i] == phdrs[..i] && phdrs[..][..i + 1] == phdrs[..i + 1];
        if phdrs[i].ptype == PT_LOAD { n := n + 1; }
      }
      assert phdrs[..phdrs.Length] == phdrs[..];

      var base: u32 := 0xFFFF_FFFF;
      var segs := new Segment[n](_ => Segment(0, 0, 0, 0, 0));
      var j: nat := 0;
      for i := 0 to phdrs.Length
        invariant j == Loadable(phdrs[..i]) <= n
        invariant segs[..j] == Segments(phdrs[..i])
        invariant base == BaseOf(segs[..j])
      {
        LoadableGrows(phdrs[..], i);
        assert phdrs[..][..i] == phdrs[..i] && phdrs[..][..i + 1] == phdrs[..i + 1];
        if phdrs[i].ptype == PT_LOAD {
          var seg := Convert(phdrs[i]);
          ghost var was := segs[..j];
          segs[j] := seg;
          assert segs[..j + 1] == was + [seg];
          BaseGrows(was, seg);
          if seg.vaddr < base { base := seg.vaddr; }
          j := j + 1;
        }
      }
      assert segs[..] == segs[..j];
      baseAddr, this.entry, segments := base, entry, segs;
    }
  }

  /** One header. */
  method Convert(p: Phdr) returns (seg: Segment)
    ensures seg == SegmentOf(p)
  {
    var vaddr := AlignDown(p.vaddr);
    var diff := p.vaddr - vaddr;
    var perm: u32 := 0;
    if Bit(p.flags, PF_X) { perm := perm + PERM_X; }
    if Bit(p.flags, PF_R) { perm := perm + PERM_R; }
    if Bit(p.flags, PF_W) { perm := perm + PERM_W; }
    seg := Segment(vaddr, Wrap(p.filesz + diff), Wrap(p.memsz + diff), Wrap(p.offset - diff), perm);
  }

  lemma {:induction false} LoadableGrows(ps: seq<Phdr>, i: nat)
    requires i < |ps|
    ensures Loadable(ps[..i + 1]) == Loadable(ps[..i]) + (if ps[i].ptype == PT_LOAD then 1 else 0)
    ensures Segments(ps[..i + 1]) == Segments(ps[..i]) + (if ps[i].ptype == PT_LOAD then [SegmentOf(ps[i])] else [])
    ensures Loadable(ps[..i + 1]) <= Loadable(ps)
    decreases |ps|
  {
    assert ps[..i + 1][..i] == ps[..i];
    if i + 1 == |ps| {
      assert ps[..i + 1] == ps;
    } else {
      var shorter := ps[..|ps| - 1];
      LoadableGrows(shorter, i);
      assert shorter[..i + 1] == ps[..i + 1];
    }
  }

  lemma NoHeaders()
    ensures Loadable([]) == 0 && Segments([]) == [] && BaseOf([]) == 0xFFFF_FFFF
  {
  }

  lemma BaseGrows(segs: seq<Segment>, seg: Segment)
    ensures BaseOf(segs + [seg]) == if seg.vaddr < BaseOf(segs) then seg.vaddr else BaseOf(segs)
  {
    assert (segs + [seg])[..|segs|] == segs;
  }

  /** Every loadable header has its segment, behind those of the headers before it. */
  lemma {:induction false} SegmentOfHeader(ps: seq<Phdr>, i: nat)
    requires i < |ps| && ps[i].ptype == 1
    ensures Loadable(ps[..i]) < |Segments(ps)| && Segments(ps)[Loadable(ps[..i])] == SegmentOf(ps[i])
    decreases |ps|
  {
    var shorter := ps[..|ps| - 1];
    if i + 1 < |ps| {
      SegmentOfHeader(shorter, i);
      assert shorter[..i] == ps[..i];
    }
  }

  /** Segments start at pages of 4096 bytes, and the permissions carry over: bits 2, 1 and 0 of the header's flags, to
      read, write and execute, are bits 0, 1 and 2 of the segment's. */
  lemma SegmentShape(p: Phdr)
    ensures var s := SegmentOf(p);
            && s.vaddr % 4096 == 0 && s.vaddr <= p.vaddr < s.vaddr + 4096
            && s.perm % 2 == p.flags / 4 % 2 && s.perm / 2 % 2 == p.flags / 2 % 2 && s.perm / 4 % 2 == p.flags % 2
            && s.perm < 8
  {
    AlignDownIs(p.vaddr);
    hide AlignDown;
  }
}
