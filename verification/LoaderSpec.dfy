/** The page fault handler of the loader as a function of the address space. */
module LoaderSpec {
  import opened Options
  import opened ExecParser

  type octet = x: nat | x < 0x100

  /** One page of memory. */
  datatype Page = Page(bytes: seq<octet>, perm: u32)

  /** The mapped pages by page number, for every segment the indices of its pages that are flagged as mapped, and the
      position of the file descriptor. */
  datatype Space = Space(memory: map<nat, Page>, data: seq<set<nat>>, pos: nat)

  /** What becomes of a fault: the page is mapped, or the default handler ends the program, because no segment has
      the address or because its page is mapped already. `Overrun` is a negative count for `read`. */
  datatype Verdict = Handled | UnknownSegment | AlreadyMapped | Overrun

  /** `so_pf_in_segment`: the end address counts as inside. */
  predicate InSegment(seg: Segment, a: u32) {
    Wrap(seg.vaddr + seg.memSize) >= a && seg.vaddr <= a
  }

  /** The first segment that has the address, or the number of segments. */
  function FirstSegment(segs: seq<Segment>, a: u32): (i: nat)
    ensures i <= |segs| && (i < |segs| ==> InSegment(segs[i], a))
    ensures forall j :: 0 <= j < i ==> !InSegment(segs[j], a)
  {
    if segs == [] || InSegment(segs[0], a) then 0 else 1 + FirstSegment(segs[1..], a)
  }

  /** The value of an `int` with these 32 bits. */
  function AsInt(x: u32): int { if x < 0x8000_0000 then x else x - 0x1_0000_0000 }

  function Min(a: int, b: int): int { if a > b then b else a }

  /** `read` at a position of the file: as many bytes as there are. */
  function ReadAt(file: seq<octet>, pos: nat, n: nat): (r: seq<octet>)
    ensures |r| <= n
  {
    if pos + n <= |file| then file[pos..pos + n] else if pos <= |file| then file[pos..] else []
  }

  /** `lseek` to a 32-bit offset: one that is negative as an `off_t` is refused, and the position stays. */
  function Seek(pos: nat, target: u32): nat { if AsInt(target) < 0 then pos else target }

  function Zeros(n: nat): seq<octet> { seq(n, _ => 0) }

  /** A fresh page of zeros with the file's part of it read in, and the file position after that; none if the count is
      negative. The code does not look at what `lseek` returns. */
  function Content(file: seq<octet>, pos: nat, seg: Segment, pageOffset: nat): Option<(seq<octet>, nat)> {
    if seg.fileSize > pageOffset then
      var n := Min(AsInt(seg.fileSize - pageOffset), PAGE);
      if n < 0 then None
      else
        var start := Seek(pos, Wrap(seg.offset + pageOffset));
        var bytes := ReadAt(file, start, n);
        Some((bytes + Zeros(PAGE - |bytes|), start + |bytes|))
    else Some((Zeros(PAGE), pos))
  }

  /** `so_map_page_in_memory` for segment `i`. */
  function MapPage(file: seq<octet>, seg: Segment, i: nat, sp: Space, a: u32): (Space, Verdict)
    requires i < |sp.data| && seg.vaddr <= a
  {
    var k := (a - seg.vaddr) / PAGE;
    if k in sp.data[i] then (sp, AlreadyMapped)
    else
      match Content(file, sp.pos, seg, k * PAGE)
      case None => (sp, Overrun)
      case Some((bytes, pos)) =>
        var page := (seg.vaddr + k * PAGE) / PAGE;
        (Space(sp.memory[page := Page(bytes, seg.perm)], sp.data[i := sp.data[i] + {k}], pos), Handled)
  }

  /** `segv_handler` */
  function Fault(file: seq<octet>, segs: seq<Segment>, sp: Space, a: u32): (Space, Verdict)
    requires |sp.data| == |segs|
  {
    var i := FirstSegment(segs, a);
    if i < |segs| then MapPage(file, segs[i], i, sp, a) else (sp, UnknownSegment)
  }

  /** No page is mapped before the program starts. */
  function Unmapped(segs: seq<Segment>): Space { Space(map[], seq(|segs|, _ => {}), 0) }

  // ---------------------------------------------------------------- programs

  /** One memory access of the program. */
  datatype Access = Load(a: u32) | Store(a: u32, value: octet) | Fetch(a: u32)

  /** What the program gets: a byte, or its end. */
  datatype Answer = Value(b: octet) | Killed(v: Verdict)

  function Needed(x: Access): nat {
    match x
    case Load(_) => PERM_R
    case Store(_, _) => PERM_W
    case Fetch(_) => PERM_X
  }

  /** The access, if its page is mapped and the permissions allow it; otherwise a fault. */
  function Try(memory: map<nat, Page>, x: Access): Option<(map<nat, Page>, octet)> {
    var p, j := x.a / PAGE, x.a % PAGE;
    if p !in memory || !Bit(memory[p].perm, Needed(x)) || j >= |memory[p].bytes| then None
    else if x.Store? then Some((memory[p := memory[p].(bytes := memory[p].bytes[j := x.value])], x.value))
    else Some((memory, memory[p].bytes[j]))
  }

  /** The access under demand paging: after a fault that is handled, the instruction is executed again. */
  function Access1(file: seq<octet>, segs: seq<Segment>, sp: Space, x: Access): (r: (Space, Answer))
    requires |sp.data| == |segs|
    ensures |r.0.data| == |segs|
  {
    match Try(sp.memory, x)
    case Some((m, b)) => (sp.(memory := m), Value(b))
    case None =>
      var (sp1, v) := Fault(file, segs, sp, x.a);
      if !v.Handled? then (sp1, Killed(v))
      else
        match Try(sp1.memory, x)
        case Some((m, b)) => (sp1.(memory := m), Value(b))
        case None => var (sp2, w) := Fault(file, segs, sp1, x.a); (sp2, Killed(w))
  }

  /** The answers to a program's accesses, until it is killed. */
  function Answers(file: seq<octet>, segs: seq<Segment>, sp: Space, xs: seq<Access>): seq<Answer>
    requires |sp.data| == |segs|
    decreases |xs|
  {
    if xs == [] then []
    else
      var (sp1, r) := Access1(file, segs, sp, xs[0]);
      [r] + (if r.Killed? then [] else Answers(file, segs, sp1, xs[1..]))
  }
}
