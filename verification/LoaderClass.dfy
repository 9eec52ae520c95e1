/** The loader with its page flags and mapped memory updated in place. */
module LoaderClass {
  import opened ExecParser
  import opened LoaderSpec

  class Loader {
    const exec: Exec
    const file: seq<octet>
    var memory: map<nat, Page>
    var data: seq<set<nat>>
    var pos: nat  // of the file descriptor

    ghost predicate Valid()
      reads this, exec
    {
      |data| == exec.segments.Length
    }

    ghost function State(): Space
      reads this
    {
      Space(memory, data, pos)
    }

    /** `so_execute` up to the start of the program. */
    constructor (exec: Exec, file: seq<octet>)
      ensures Valid() && this.exec == exec && this.file == file
      ensures State() == Unmapped(exec.segments[..])
    {
      this.exec, this.file := exec, file;
      memory := map[];
      data := seq(exec.segments.Length, _ => {});
      pos := 0;
    }

    /** `so_map_page_in_memory` for segment `i`, up to a call of the default handler. */
    method MapPageInMemory(i: nat, addr: u32) returns (v: Verdict)
      requires Valid() && i < exec.segments.Length && exec.segments[i].vaddr <= addr
      modifies this
      ensures Valid() && (State(), v) == MapPage(file, exec.segments[i], i, old(State()), addr)
    {
      var segment := exec.segments[i];
      var pageIdx := (addr - segment.vaddr) / PAGE;
      var pageOffset := pageIdx * PAGE;
      if pageIdx in data[i] { return AlreadyMapped; }
      var bytes := Zeros(PAGE);
      if segment.fileSize > pageOffset {
        var n := Min(AsInt(segment.fileSize - pageOffset), PAGE);
        if n < 0 { return Overrun; }
        var target := Wrap(segment.offset + pageOffset);
        if AsInt(target) >= 0 { pos := target; }
        var got := ReadAt(file, pos, n);
        pos := pos + |got|;
        bytes := got + bytes[|got|..];
        assert bytes == got + Zeros(PAGE - |got|);
      }
      data := data[i := data[i] + {pageIdx}];
      memory := memory[(segment.vaddr + pageOffset) / PAGE := Page(bytes, segment.perm)];
      return Handled;
    }

    /** `segv_handler`: the first segment that has the address maps the page. */
    method SegvHandler(addr: u32) returns (v: Verdict)
      requires Valid()
      modifies this
      ensures Valid() && (State(), v) == Fault(file, exec.segments[..], old(State()), addr)
    {
      var segs := exec.segments;
      var i := 0;
      while i < segs.Length
        invariant 0 <= i <= segs.Length && State() == old(State())
        invariant forall j :: 0 <= j < i ==> !InSegment(segs[j], addr)
      {
        if InSegment(segs[i], addr) {
          FirstIs(segs[..], addr, i);
          v := MapPageInMemory(i, addr);
          return;
        }
        i := i + 1;
      }
      FirstIs(segs[..], addr, i);
      return UnknownSegment;
    }
  }

  lemma FirstIs(segs: seq<Segment>, a: u32, i: nat)
    requires i <= |segs| && (i < |segs| ==> InSegment(segs[i], a))
    requires forall j :: 0 <= j < i ==> !InSegment(segs[j], a)
    ensures FirstSegment(segs, a) == i
  {
    var k := FirstSegment(segs, a);
    assert k < |segs| ==> InSegment(segs[k], a);
  }
}
