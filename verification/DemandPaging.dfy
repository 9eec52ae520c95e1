/** Demand paging agrees with loading everything at the start. */
module DemandPaging {
  import opened Options
  import opened ExecParser
  import opened LoaderSpec

  // ---------------------------------------------------------------- the eager loader

  function FileByte(file: seq<octet>, pos: nat): octet { if pos < |file| then file[pos] else 0 }

  /** Byte `x` of a segment: from the file up to `fileSize`, 0 behind. */
  function SegmentByte(file: seq<octet>, seg: Segment, x: nat): octet {
    if x < seg.fileSize then FileByte(file, seg.offset + x) else 0
  }

  function FirstPage(seg: Segment): nat { seg.vaddr / PAGE }

  /** The page with the end address, which the handler takes for a part of the segment. */
  function LastPage(seg: Segment): nat { (seg.vaddr + seg.memSize) / PAGE }

  predicate Covers(seg: Segment, p: nat) { FirstPage(seg) <= p <= LastPage(seg) }

  /** A page as the eager loader fills it. */
  function Image(file: seq<octet>, seg: Segment, p: nat): Page
    requires FirstPage(seg) <= p
  {
    Page(seq<octet>(PAGE, j requires 0 <= j => SegmentByte(file, seg, (p - FirstPage(seg)) * PAGE + j)), seg.perm)
  }

  /** The first segment that covers the page, or the number of segments. */
  function Owner(segs: seq<Segment>, p: nat): (i: nat)
    ensures i <= |segs| && (i < |segs| ==> Covers(segs[i], p))
    ensures forall j :: 0 <= j < i ==> !Covers(segs[j], p)
  {
    if segs == [] || Covers(segs[0], p) then 0 else 1 + Owner(segs[1..], p)
  }

  predicate Covered(segs: seq<Segment>, p: nat) { Owner(segs, p) < |segs| }

  /** All pages of all segments. */
  function Eager(file: seq<octet>, segs: seq<Segment>): map<nat, Page> {
    map p: nat | p < 0x10_0000 && Covered(segs, p) :: Image(file, segs[Owner(segs, p)], p)
  }

  /** The access without demand paging: every fault ends the program. */
  function EagerAccess(m: map<nat, Page>, x: Access): (map<nat, Page>, Answer) {
    match Try(m, x)
    case Some((m', b)) => (m', Value(b))
    case None => (m, Killed(if x.a / PAGE in m then AlreadyMapped else UnknownSegment))
  }

  function EagerAnswers(m: map<nat, Page>, xs: seq<Access>): seq<Answer>
    decreases |xs|
  {
    if xs == [] then []
    else
      var (m1, r) := EagerAccess(m, xs[0]);
      [r] + (if r.Killed? then [] else EagerAnswers(m1, xs[1..]))
  }

  // ---------------------------------------------------------------- the segments

  /** The segment starts at a page and lies in the address space without wrapping around; its file part is not negative
      as an `int`, and lies where `lseek` can go. */
  predicate Sane(seg: Segment) {
    && seg.vaddr % PAGE == 0 && seg.vaddr + seg.memSize < 0x1_0000_0000
    && seg.fileSize < 0x8000_0000 && seg.offset + seg.fileSize <= 0x8000_0000
  }

  /** No two segments share a page, the page of the end address included. */
  predicate Separate(segs: seq<Segment>) {
    && (forall i :: 0 <= i < |segs| ==> Sane(segs[i]))
    && forall i, j :: 0 <= i < j < |segs| ==>
         LastPage(segs[i]) < FirstPage(segs[j]) || LastPage(segs[j]) < FirstPage(segs[i])
  }

  /** The address is not in the part of a segment's last page behind the segment. */
  predicate Settled(segs: seq<Segment>, a: u32) {
    forall i :: 0 <= i < |segs| && Covers(segs[i], a / PAGE) ==> InSegment(segs[i], a)
  }

  /** An address inside a segment is on one of its pages; separate segments have no address in common. */
  lemma InsideIsCovered(seg: Segment, a: u32)
    requires Sane(seg) && InSegment(seg, a)
    ensures Covers(seg, a / PAGE) && a / PAGE - FirstPage(seg) == (a - seg.vaddr) / PAGE
  {
  }

  lemma OneOwner(segs: seq<Segment>, i: nat, p: nat)
    requires Separate(segs) && i < |segs| && Covers(segs[i], p)
    ensures Owner(segs, p) == i
  {
    var j := Owner(segs, p);
    assert Covers(segs[j], p);
  }

  /** The handler picks the segment that covers the page. */
  lemma {:induction false} RightSegment(segs: seq<Segment>, a: u32)
    requires Separate(segs) && Settled(segs, a)
    ensures FirstSegment(segs, a) == Owner(segs, a / PAGE)
  {
    forall i | 0 <= i < |segs| ensures Covers(segs[i], a / PAGE) <==> InSegment(segs[i], a) {
      if InSegment(segs[i], a) { InsideIsCovered(segs[i], a); }
    }
    var i, j := FirstSegment(segs, a), Owner(segs, a / PAGE);
    assert i < |segs| ==> InSegment(segs[i], a);
    assert j < |segs| ==> Covers(segs[j], a / PAGE);
  }

  // ---------------------------------------------------------------- one page

  lemma {:induction false} ContentIsImage(file: seq<octet>, pos: nat, seg: Segment, k: nat)
    requires Sane(seg) && k * PAGE <= seg.memSize
    ensures var c := Content(file, pos, seg, k * PAGE);
            c.Some? && c.value.0 == Image(file, seg, FirstPage(seg) + k).bytes
  {
    var off := k * PAGE;
    var c, image := Content(file, pos, seg, off), Image(file, seg, FirstPage(seg) + k).bytes;
    assert c.Some? && |c.value.0| == PAGE;
    if seg.fileSize > off {
      var n, start := Min(AsInt(seg.fileSize - off), PAGE), seg.offset + off;
      assert Seek(pos, Wrap(start)) == start;
      var bytes := ReadAt(file, start, n);
      assert c.value.0 == bytes + Zeros(PAGE - |bytes|);
      forall j | 0 <= j < PAGE ensures c.value.0[j] == SegmentByte(file, seg, off + j) {
        ReadAtByte(file, start, n, j);
      }
    }
    assert forall j :: 0 <= j < PAGE ==> image[j] == SegmentByte(file, seg, off + j);
    assert c.value.0 == image;
  }

  lemma {:induction false} ReadAtByte(file: seq<octet>, pos: nat, n: nat, j: nat)
    ensures var r := ReadAt(file, pos, n);
            if j < |r| then j < n && r[j] == FileByte(file, pos + j) else j >= n || FileByte(file, pos + j) == 0
  {
  }

  // ---------------------------------------------------------------- one fault

  /** The flags say which pages are mapped. */
  ghost predicate Linked(segs: seq<Segment>, sp: Space) {
    && |sp.data| == |segs|
    && (forall p :: p in sp.memory ==> Covered(segs, p))
    && forall i, p: nat :: 0 <= i < |segs| && Covers(segs[i], p) ==>
         (p - FirstPage(segs[i]) in sp.data[i] <==> p in sp.memory)
  }

  /** An address that is not behind its segment. */
  lemma {:induction false} SettledFault(file: seq<octet>, segs: seq<Segment>, sp: Space, a: u32)
    requires Separate(segs) && Linked(segs, sp) && Settled(segs, a)
    ensures var (sp', v) := Fault(file, segs, sp, a);
            var p := a / PAGE;
            if p in sp.memory then v == AlreadyMapped && sp' == sp
            else if !Covered(segs, p) then v == UnknownSegment && sp' == sp
            else v == Handled && Linked(segs, sp')
                 && sp'.memory == sp.memory[p := Image(file, segs[Owner(segs, p)], p)]
  {
    hide Settled, FirstSegment, Owner, MapPage, Image, Sane;
    RightSegment(segs, a);
    var i, p := FirstSegment(segs, a), a / PAGE;
    if i < |segs| {
      MapPageFills(file, segs[i], i, sp, a);
      MappedPage(file, segs, sp, i, p, Fault(file, segs, sp, a).0.pos);
    } else {
      UncoveredIsUnmapped(segs, sp, p);
    }
  }

  /** Behind a segment a fault fills nothing. */
  lemma UnsettledFault(file: seq<octet>, segs: seq<Segment>, sp: Space, a: u32)
    requires Separate(segs) && !Settled(segs, a) && |sp.data| == |segs|
    ensures FirstSegment(segs, a) == |segs| && Fault(file, segs, sp, a) == (sp, UnknownSegment)
    ensures Covered(segs, a / PAGE)
  {
    var i :| 0 <= i < |segs| && Covers(segs[i], a / PAGE) && !InSegment(segs[i], a);
    OneOwner(segs, i, a / PAGE);
    var j := FirstSegment(segs, a);
    if j < |segs| {
      InsideIsCovered(segs[j], a);
      OneOwner(segs, j, a / PAGE);
    }
  }

  /** What a fault does under separate segments, at any address: it fills the page that has the address with its image,
      if the address is not behind a segment and the page was not mapped; no other page changes. */
  lemma {:induction false} FaultFillsOnePage(file: seq<octet>, segs: seq<Segment>, sp: Space, a: u32)
    requires Separate(segs) && Linked(segs, sp)
    ensures |sp.data| == |segs|
    ensures var (sp', v) := Fault(file, segs, sp, a);
            var p := a / PAGE;
            if !Settled(segs, a) || !Covered(segs, p) then v == UnknownSegment && sp' == sp
            else if p in sp.memory then v == AlreadyMapped && sp' == sp
            else v == Handled && Linked(segs, sp')
                 && sp'.memory == sp.memory[p := Image(file, segs[Owner(segs, p)], p)]
  {
    LinkedLength(segs, sp);
    if Settled(segs, a) {
      if !Covered(segs, a / PAGE) { UncoveredIsUnmapped(segs, sp, a / PAGE); }
      hide Settled, Owner, Linked, Separate, Image, Fault;
      SettledFault(file, segs, sp, a);
    } else {
      UnsettledFault(file, segs, sp, a);
    }
  }

  lemma UncoveredIsUnmapped(segs: seq<Segment>, sp: Space, p: nat)
    requires Linked(segs, sp) && !Covered(segs, p)
    ensures p !in sp.memory
  {
  }

  lemma {:induction false} MapPageFills(file: seq<octet>, seg: Segment, i: nat, sp: Space, a: u32)
    requires Sane(seg) && InSegment(seg, a) && i < |sp.data|
    ensures var p, k := a / PAGE, a / PAGE - FirstPage(seg);
            && k >= 0 && Covers(seg, p)
            && MapPage(file, seg, i, sp, a)
               == if k in sp.data[i] then (sp, AlreadyMapped)
                  else (Space(sp.memory[p := Image(file, seg, p)], sp.data[i := sp.data[i] + {k}],
                              MapPage(file, seg, i, sp, a).0.pos), Handled)
  {
    hide Content, Image;
    InsideIsCovered(seg, a);
    var k := (a - seg.vaddr) / PAGE;
    ContentIsImage(file, sp.pos, seg, k);
    ImagePerm(file, seg, FirstPage(seg) + k);
  }

  lemma ImagePerm(file: seq<octet>, seg: Segment, p: nat)
    requires FirstPage(seg) <= p
    ensures Image(file, seg, p).perm == seg.perm
  {
  }

  /** Flagging and mapping one page keeps flags and pages together. */
  lemma {:induction false} MappedPage(file: seq<octet>, segs: seq<Segment>, sp: Space, i: nat, p: nat, pos: nat)
    requires Separate(segs) && Linked(segs, sp) && i < |segs| && Covers(segs[i], p)
    ensures var k := p - FirstPage(segs[i]);
            Linked(segs, Space(sp.memory[p := Image(file, segs[i], p)], sp.data[i := sp.data[i] + {k}], pos))
  {
    OneOwner(segs, i, p);
    forall j, r: nat | 0 <= j < |segs| && Covers(segs[j], r)
      ensures j == i || r != p
      ensures r == p || r - FirstPage(segs[j]) != p - FirstPage(segs[i]) || j != i
    {
      if r == p { OneOwner(segs, j, p); }
    }
    hide Separate, Covers, Owner, Image;
  }

  // ---------------------------------------------------------------- the simulation

  /** The pages mapped so far are those of the eager loader, and its other pages are as it filled them. */
  ghost predicate Agree(file: seq<octet>, segs: seq<Segment>, sp: Space, m: map<nat, Page>) {
    && Linked(segs, sp)
    && (forall p :: p in m <==> Covered(segs, p))
    && (forall p :: p in sp.memory ==> p in m && sp.memory[p] == m[p])
    && forall p :: p in m && p !in sp.memory ==> m[p] == Image(file, segs[Owner(segs, p)], p)
  }

  lemma {:induction false} SettledAccessAgrees(file: seq<octet>, segs: seq<Segment>, sp: Space, m: map<nat, Page>,
                                               x: Access)
    requires Separate(segs) && Agree(file, segs, sp, m) && Settled(segs, x.a)
    ensures var (sp', r) := Access1(file, segs, sp, x);
            var (m', r') := EagerAccess(m, x);
            r == r' && (r.Value? ==> Agree(file, segs, sp', m'))
  {
    hide Fault, Separate, Settled, Image, Agree;
    AgreeIsLinked(file, segs, sp, m);
    SettledFault(file, segs, sp, x.a);
    var p := x.a / PAGE;
    if p in sp.memory {
      MappedAccessAgrees(file, segs, sp, m, x);
    } else if Covered(segs, p) {
      var (sp1, v) := Fault(file, segs, sp, x.a);
      FilledAgrees(file, segs, sp, m, sp1, p);
      MappedAccessAgrees(file, segs, sp1, m, x);
      SettledFault(file, segs, sp1, x.a);
    }
  }

  /** At any address: an access has the same answer, and the spaces go on agreeing, exactly if its address is not behind
      a segment or its page is mapped already with the permission it needs. */
  lemma {:induction false} AccessAgreesIff(file: seq<octet>, segs: seq<Segment>, sp: Space, m: map<nat, Page>,
                                           x: Access)
    requires Separate(segs) && Agree(file, segs, sp, m)
    ensures |sp.data| == |segs|
    ensures var (sp', r) := Access1(file, segs, sp, x);
            var (m', r') := EagerAccess(m, x);
            && (r == r' <==> Settled(segs, x.a) || Try(sp.memory, x).Some?)
            && (r == r' && r.Value? ==> Agree(file, segs, sp', m'))
  {
    hide Separate, Settled, Image, Agree, Linked, Fault;
    AgreeIsLinked(file, segs, sp, m);
    LinkedLength(segs, sp);
    if Settled(segs, x.a) {
      SettledAccessAgrees(file, segs, sp, m, x);
    } else {
      UnsettledFault(file, segs, sp, x.a);
      if Try(sp.memory, x).Some? {
        MappedAccessAgrees(file, segs, sp, m, x);
      }
    }
  }

  lemma AgreeIsLinked(file: seq<octet>, segs: seq<Segment>, sp: Space, m: map<nat, Page>)
    requires Agree(file, segs, sp, m)
    ensures Linked(segs, sp)
    ensures forall p :: p in m <==> Covered(segs, p)
    ensures forall p :: p in sp.memory ==> p in m && sp.memory[p] == m[p]
  {
  }

  /** An access to a mapped page. */
  lemma {:induction false} MappedAccessAgrees(file: seq<octet>, segs: seq<Segment>, sp: Space, m: map<nat, Page>,
                                              x: Access)
    requires Agree(file, segs, sp, m) && x.a / PAGE in sp.memory
    ensures match Try(sp.memory, x)
            case None => Try(m, x).None?
            case Some((m1, b)) => Try(m, x).Some? && Try(m, x).value.1 == b
                                  && Agree(file, segs, sp.(memory := m1), Try(m, x).value.0)
  {
    hide Image, Owner;
    match Try(sp.memory, x)
    case None =>
    case Some((m1, b)) =>
      assert forall p :: p in m1 <==> p in sp.memory;
      LinkedByKeys(segs, sp, m1);
  }

  lemma {:induction false} LinkedByKeys(segs: seq<Segment>, sp: Space, m: map<nat, Page>)
    requires Linked(segs, sp) && forall p :: p in m <==> p in sp.memory
    ensures Linked(segs, sp.(memory := m))
  {
  }

  /** A page that was filled agrees with the eager loader. */
  lemma {:induction false} FilledAgrees(file: seq<octet>, segs: seq<Segment>, sp: Space, m: map<nat, Page>, sp1: Space,
                                        p: nat)
    requires Agree(file, segs, sp, m) && p !in sp.memory && Covered(segs, p) && Linked(segs, sp1)
    requires sp1.memory == sp.memory[p := Image(file, segs[Owner(segs, p)], p)]
    ensures Agree(file, segs, sp1, m)
  {
    hide Image, Owner;
  }

  // ---------------------------------------------------------------- whole programs

  predicate AllSettled(segs: seq<Segment>, xs: seq<Access>) {
    forall i :: 0 <= i < |xs| ==> Settled(segs, xs[i].a)
  }

  lemma {:induction false} AnswersAgree(file: seq<octet>, segs: seq<Segment>, sp: Space, m: map<nat, Page>,
                                        xs: seq<Access>)
    requires Separate(segs) && Agree(file, segs, sp, m) && AllSettled(segs, xs)
    ensures |sp.data| == |segs| && Answers(file, segs, sp, xs) == EagerAnswers(m, xs)
    decreases |xs|
  {
    hide Access1, EagerAccess, Agree, Settled;
    AgreeIsLinked(file, segs, sp, m);
    if xs != [] {
      SettledAccessAgrees(file, segs, sp, m, xs[0]);
      var (sp1, r) := Access1(file, segs, sp, xs[0]);
      var (m1, _) := EagerAccess(m, xs[0]);
      if r.Value? { AnswersAgree(file, segs, sp1, m1, xs[1..]); }
    }
  }

  lemma {:induction false} StartAgrees(file: seq<octet>, segs: seq<Segment>)
    requires Separate(segs)
    ensures Agree(file, segs, Unmapped(segs), Eager(file, segs))
  {
    hide Image;
    forall p: nat | Covered(segs, p) ensures p < 0x10_0000 {
      assert Sane(segs[Owner(segs, p)]);
    }
  }

  /** Demand paging is transparent: with separate segments a program gets the answers that it would get with
      everything loaded, exactly if it keeps away from the part of a last page behind its segment. */
  lemma {:induction false} TransparentIff(file: seq<octet>, segs: seq<Segment>, used: set<u32>)
    requires Separate(segs)
    ensures (forall xs: seq<Access> :: (forall i :: 0 <= i < |xs| ==> xs[i].a in used) ==>
               Answers(file, segs, Unmapped(segs), xs) == EagerAnswers(Eager(file, segs), xs))
            <==> forall a :: a in used ==> Settled(segs, a)
  {
    hide Agree, Separate, Settled, Answers, EagerAnswers;
    StartAgrees(file, segs);
    if forall a :: a in used ==> Settled(segs, a) {
      forall xs: seq<Access> | forall i :: 0 <= i < |xs| ==> xs[i].a in used
        ensures Answers(file, segs, Unmapped(segs), xs) == EagerAnswers(Eager(file, segs), xs)
      {
        AnswersAgree(file, segs, Unmapped(segs), Eager(file, segs), xs);
      }
    } else {
      var a :| a in used && !Settled(segs, a);
      SlackDiffers(file, segs, a);
      var xs := [Load(a)];
      assert forall i :: 0 <= i < |xs| ==> xs[i].a in used;
    }
  }

  /** Behind a segment the first access is fatal, although the page would be there. */
  lemma {:induction false} SlackDiffers(file: seq<octet>, segs: seq<Segment>, a: u32)
    requires Separate(segs) && !Settled(segs, a)
    ensures Answers(file, segs, Unmapped(segs), [Load(a)]) == [Killed(UnknownSegment)]
    ensures EagerAnswers(Eager(file, segs), [Load(a)]) != [Killed(UnknownSegment)]
  {
    hide Image;
    UnsettledFault(file, segs, Unmapped(segs), a);
    var i :| 0 <= i < |segs| && Covers(segs[i], a / PAGE) && !InSegment(segs[i], a);
    OneOwner(segs, i, a / PAGE);
    var m := Eager(file, segs);
    assert a / PAGE in m;
    assert EagerAnswers(m, [Load(a)])[0] == EagerAccess(m, Load(a)).1;
  }

  // ---------------------------------------------------------------- every page once

  /** The pages that are filled while the program runs. */
  function Fills(file: seq<octet>, segs: seq<Segment>, sp: Space, xs: seq<Access>): seq<nat>
    requires |sp.data| == |segs|
    decreases |xs|
  {
    if xs == [] then []
    else
      var (sp1, r) := Access1(file, segs, sp, xs[0]);
      (if Try(sp.memory, xs[0]).None? && Fault(file, segs, sp, xs[0].a).1.Handled? then [xs[0].a / PAGE] else [])
      + (if r.Killed? then [] else Fills(file, segs, sp1, xs[1..]))
  }

  lemma LinkedLength(segs: seq<Segment>, sp: Space)
    requires Linked(segs, sp)
    ensures |sp.data| == |segs|
  {
  }

  /** Pages stay mapped, and one that was just filled is among them. */
  lemma {:induction false} AccessKeepsPages(file: seq<octet>, segs: seq<Segment>, sp: Space, x: Access)
    requires Separate(segs) && Linked(segs, sp)
    ensures var (sp1, r) := Access1(file, segs, sp, x);
            && (r.Value? ==> Linked(segs, sp1))
            && (forall p :: p in sp.memory ==> p in sp1.memory)
            && (Try(sp.memory, x).None? && Fault(file, segs, sp, x.a).1.Handled? ==>
                  x.a / PAGE !in sp.memory && x.a / PAGE in sp1.memory)
  {
    LinkedLength(segs, sp);
    if !Settled(segs, x.a) { UnsettledFault(file, segs, sp, x.a); }
    hide Fault, Separate, Settled, Image, Linked;
    if Settled(segs, x.a) { SettledFault(file, segs, sp, x.a); }
    match Try(sp.memory, x)
    case Some((m, _)) => LinkedByKeys(segs, sp, m);
    case None =>
      var (sp1, v) := Fault(file, segs, sp, x.a);
      if v.Handled? {
        SettledFault(file, segs, sp1, x.a);
        match Try(sp1.memory, x)
        case Some((m, _)) => LinkedByKeys(segs, sp1, m);
        case None =>
      }
  }

  /** These pages are different from each other and not mapped yet. */
  predicate Fresh(f: seq<nat>, memory: map<nat, Page>) {
    (forall i :: 0 <= i < |f| ==> f[i] !in memory) && forall i, j :: 0 <= i < j < |f| ==> f[i] != f[j]
  }

  lemma FreshLater(f: seq<nat>, memory: map<nat, Page>, later: map<nat, Page>, p: nat)
    requires Fresh(f, later) && forall q :: q in memory ==> q in later
    ensures Fresh(f, memory)
    ensures p !in memory && p in later ==> Fresh([p] + f, memory)
  {
    var g := [p] + f;
    assert forall i :: 0 < i < |g| ==> g[i] == f[i - 1];
  }

  /** No page is filled twice, and none that was mapped before. */
  lemma {:induction false} FilledOnce(file: seq<octet>, segs: seq<Segment>, sp: Space, xs: seq<Access>)
    requires Separate(segs) && Linked(segs, sp)
    ensures |sp.data| == |segs| && Fresh(Fills(file, segs, sp, xs), sp.memory)
    decreases |xs|
  {
    LinkedLength(segs, sp);
    hide Access1, Fault, Try, Settled, Linked, Separate, Fresh;
    NoneFresh(sp.memory);
    if xs != [] {
      AccessKeepsPages(file, segs, sp, xs[0]);
      var (sp1, r) := Access1(file, segs, sp, xs[0]);
      var rest := if r.Killed? then [] else Fills(file, segs, sp1, xs[1..]);
      NoneFresh(sp1.memory);
      if r.Value? { FilledOnce(file, segs, sp1, xs[1..]); }
      FreshLater(rest, sp.memory, sp1.memory, xs[0].a / PAGE);
      assert [] + rest == rest;
    }
  }

  lemma NoneFresh(memory: map<nat, Page>)
    ensures Fresh([], memory)
  {
  }

  // ---------------------------------------------------------------- what the program finds

  /** A header whose offset leaves room for the bytes before it in its page, whose file part is not longer than the
      part in memory, and where nothing wraps around. The ELF format demands more: that address and offset agree within
      a page. */
  predicate WellFormed(p: Phdr) {
    && p.vaddr % PAGE <= p.offset && p.filesz <= p.memsz
    && p.vaddr + p.memsz < 0x1_0000_0000 && p.offset + p.filesz <= 0x8000_0000 && p.filesz + PAGE < 0x8000_0000
  }

  lemma WellFormedIsSane(p: Phdr)
    requires WellFormed(p)
    ensures var seg, diff := SegmentOf(p), p.vaddr % PAGE;
            && Sane(seg) && seg.vaddr == p.vaddr - diff && seg.offset == p.offset - diff
            && seg.fileSize == p.filesz + diff && seg.memSize == p.memsz + diff
  {
    AlignDownIs(p.vaddr);
    hide AlignDown;
  }

  /** The byte that the eager loader puts at an address. */
  function ByteAt(m: map<nat, Page>, a: u32): Option<octet> {
    if a / PAGE in m && a % PAGE < |m[a / PAGE].bytes| then Some(m[a / PAGE].bytes[a % PAGE]) else None
  }

  /** Byte `x` of a loadable header is where the header wants it: from the file, or 0 behind the file part. */
  lemma {:induction false} HeaderImage(file: seq<octet>, ps: seq<Phdr>, i: nat, x: nat)
    requires Separate(Segments(ps)) && i < |ps| && ps[i].ptype == 1 && WellFormed(ps[i]) && x < ps[i].memsz
    ensures var segs, p := Segments(ps), ps[i];
            && Settled(segs, p.vaddr + x)
            && ByteAt(Eager(file, segs), p.vaddr + x)
               == Some(if x < p.filesz then FileByte(file, p.offset + x) else 0)
            && Eager(file, segs)[(p.vaddr + x) / PAGE].perm == SegmentOf(p).perm
  {
    hide Segments, Separate, Eager, ByteAt, Settled, SegmentOf, Sane;
    var segs, p := Segments(ps), ps[i];
    SegmentOfHeader(ps, i);
    WellFormedIsSane(p);
    var k := Loadable(ps[..i]);
    AddressImage(file, segs, k, p.vaddr + x);
  }

  lemma {:induction false} AddressImage(file: seq<octet>, segs: seq<Segment>, k: nat, a: u32)
    requires Separate(segs) && k < |segs| && segs[k].vaddr <= a < segs[k].vaddr + segs[k].memSize
    ensures Settled(segs, a)
    ensures ByteAt(Eager(file, segs), a) == Some(SegmentByte(file, segs[k], a - segs[k].vaddr))
    ensures Eager(file, segs)[a / PAGE].perm == segs[k].perm
  {
    InsideIsCovered(segs[k], a);
    OneOwner(segs, k, a / PAGE);
    forall i | 0 <= i < |segs| && Covers(segs[i], a / PAGE) ensures InSegment(segs[i], a) {
      OneOwner(segs, i, a / PAGE);
    }
  }

  /** Whatever a program did before, a byte that it did not overwrite is the one it finds. */
  lemma {:induction false} UntouchedByte(m: map<nat, Page>, xs: seq<Access>, a: u32)
    requires ByteAt(m, a).Some? && Bit(m[a / PAGE].perm, PERM_R)
    requires forall i :: 0 <= i < |xs| ==> !(xs[i].Store? && xs[i].a == a)
    ensures var r := EagerAnswers(m, xs + [Load(a)]);
            |r| == |xs| + 1 ==> r[|xs|] == Value(ByteAt(m, a).value)
    decreases |xs|
  {
    if xs != [] {
      var (m1, r) := EagerAccess(m, xs[0]);
      assert (xs + [Load(a)])[1..] == xs[1..] + [Load(a)];
      if r.Value? { UntouchedByte(m1, xs[1..], a); }
    }
  }

  /** The room is needed: without it the segment's offset wraps around to where `lseek` cannot go, and the first fault
      reads on from the current position of the file. So the first byte of the file part is found at its address exactly
      if there is room, or the bytes at that position happen to agree. */
  lemma {:induction false} OffsetIff(file: seq<octet>, pos: nat, p: Phdr)
    requires 0 < p.filesz && p.filesz + PAGE < 0x8000_0000 && p.offset < 0x8000_0000
    ensures var c, diff := Content(file, pos, SegmentOf(p), 0), p.vaddr % PAGE;
            && c.Some? && |c.value.0| == PAGE
            && c.value.0[diff] == FileByte(file, if diff <= p.offset then p.offset else pos + diff)
            && (c.value.0[diff] == FileByte(file, p.offset)
                <==> diff <= p.offset || FileByte(file, pos + diff) == FileByte(file, p.offset))
  {
    hide Content;
    AlignDownIs(p.vaddr);
    hide AlignDown;
    var seg, diff := SegmentOf(p), p.vaddr % PAGE;
    assert seg.fileSize == p.filesz + diff && seg.offset == Wrap(p.offset - diff);
    hide SegmentOf;
    FirstContentByte(file, pos, seg, diff);
    if diff <= p.offset {
      assert seg.offset == p.offset - diff;
    } else {
      assert seg.offset == p.offset - diff + 0x1_0000_0000;
    }
  }

  lemma FirstContentByte(file: seq<octet>, pos: nat, seg: Segment, j: nat)
    requires j < seg.fileSize < 0x8000_0000 && j < PAGE
    ensures var c := Content(file, pos, seg, 0);
            && c.Some? && |c.value.0| == PAGE && c.value.0[j] == FileByte(file, Seek(pos, seg.offset) + j)
  {
    var n, start := Min(AsInt(seg.fileSize), PAGE), Seek(pos, seg.offset);
    var bytes := ReadAt(file, start, n);
    assert Wrap(seg.offset + 0) == seg.offset;
    assert Content(file, pos, seg, 0) == Some((bytes + Zeros(PAGE - |bytes|), start + |bytes|));
    ReadAtByte(file, start, n, j);
  }

  /** A program that reads a byte of a loadable header finds what the header promises, whatever it did before without
      overwriting that byte, if it gets that far. */
  lemma LoadSeesFile(file: seq<octet>, ps: seq<Phdr>, i: nat, x: nat, xs: seq<Access>)
    requires Separate(Segments(ps)) && i < |ps| && ps[i].ptype == 1 && WellFormed(ps[i]) && x < ps[i].memsz
    requires ps[i].flags / 4 % 2 == 1 && AllSettled(Segments(ps), xs)
    requires forall k :: 0 <= k < |xs| ==> !(xs[k].Store? && xs[k].a == ps[i].vaddr + x)
    ensures var segs, p := Segments(ps), ps[i];
            var r := Answers(file, segs, Unmapped(segs), xs + [Load(p.vaddr + x)]);
            |r| == |xs| + 1 ==> r[|xs|] == Value(if x < p.filesz then FileByte(file, p.offset + x) else 0)
  {
    hide Separate, Segments, Eager, ByteAt, Settled, Answers, EagerAnswers, Agree, SegmentOf, PermOf;
    var segs, p := Segments(ps), ps[i];
    var m, load := Eager(file, segs), Load(p.vaddr + x);
    HeaderImage(file, ps, i, x);
    SegmentShape(p);
    PageIsThere(m, p.vaddr + x);
    StartAgrees(file, segs);
    AnswersAgree(file, segs, Unmapped(segs), m, xs + [load]);
    UntouchedByte(m, xs, p.vaddr + x);
  }

  lemma PageIsThere(m: map<nat, Page>, a: u32)
    requires ByteAt(m, a).Some?
    ensures a / PAGE in m
  {
  }

  /** What a program may do at an address of a loadable header: load, store and fetch exactly if bit 2, 1 and 0 of the
      header's flags are set, on the first access already. */
  lemma {:induction false} HeaderPermissions(file: seq<octet>, ps: seq<Phdr>, i: nat, x: nat, b: octet)
    requires Separate(Segments(ps)) && i < |ps| && ps[i].ptype == 1 && WellFormed(ps[i]) && x < ps[i].memsz
    ensures var segs, a := Segments(ps), ps[i].vaddr + x;
            && (Access1(file, segs, Unmapped(segs), Load(a)).1.Value? <==> ps[i].flags / 4 % 2 == 1)
            && (Access1(file, segs, Unmapped(segs), Store(a, b)).1.Value? <==> ps[i].flags / 2 % 2 == 1)
            && (Access1(file, segs, Unmapped(segs), Fetch(a)).1.Value? <==> ps[i].flags % 2 == 1)
  {
    var a: u32 := ps[i].vaddr + x;
    hide Separate, Segments, SegmentOf, WellFormed, Access1;
    SegmentShape(ps[i]);
    FirstAccess(file, ps, i, x, Load(a));
    FirstAccess(file, ps, i, x, Store(a, b));
    FirstAccess(file, ps, i, x, Fetch(a));
  }

  predicate Permits(perm: u32, x: Access) {
    match x
    case Load(_) => perm % 2 == 1
    case Store(_, _) => perm / 2 % 2 == 1
    case Fetch(_) => perm / 4 % 2 == 1
  }

  lemma {:induction false} FirstAccess(file: seq<octet>, ps: seq<Phdr>, i: nat, x: nat, acc: Access)
    requires Separate(Segments(ps)) && i < |ps| && ps[i].ptype == 1 && WellFormed(ps[i]) && x < ps[i].memsz
    requires acc.a == ps[i].vaddr + x
    ensures var segs := Segments(ps);
            Access1(file, segs, Unmapped(segs), acc).1.Value? <==> Permits(SegmentOf(ps[i]).perm, acc)
  {
    hide Separate, Segments, Eager, ByteAt, Settled, Agree, SegmentOf, Access1, EagerAccess, Permits;
    var segs := Segments(ps);
    var m := Eager(file, segs);
    HeaderImage(file, ps, i, x);
    PageIsThere(m, acc.a);
    StartAgrees(file, segs);
    SettledAccessAgrees(file, segs, Unmapped(segs), m, acc);
    EagerPermits(m, acc);
  }

  lemma EagerPermits(m: map<nat, Page>, x: Access)
    requires ByteAt(m, x.a).Some? && x.a / PAGE in m
    ensures EagerAccess(m, x).1.Value? <==> Permits(m[x.a / PAGE].perm, x)
  {
  }

  /** A byte that was stored is the one that is loaded. */
  lemma StoredByteIsLoaded(m: map<nat, Page>, a: u32, b: octet)
    requires EagerAccess(m, Store(a, b)).1.Value?
    ensures EagerAccess(m, Store(a, b)).1 == Value(b) && ByteAt(EagerAccess(m, Store(a, b)).0, a) == Some(b)
  {
  }

  // ---------------------------------------------------------------- segments that touch

  /** The address is in the segment, its end not included. */
  predicate Has(seg: Segment, a: u32) { seg.vaddr <= a < seg.vaddr + seg.memSize }

  /** No address is in two segments; they may share pages. */
  ghost predicate Disjoint(segs: seq<Segment>) {
    forall i, j, a: u32 :: 0 <= i < j < |segs| && Has(segs[i], a) ==> !Has(segs[j], a)
  }

  /** An address of segment `j` is served by it exactly if no segment before it in the list ends at that address: the
      handler takes the end address for a part of the segment. */
  lemma ServedIff(segs: seq<Segment>, j: nat, a: u32)
    requires (forall i :: 0 <= i < |segs| ==> Sane(segs[i])) && Disjoint(segs) && j < |segs| && Has(segs[j], a)
    ensures FirstSegment(segs, a) <= j
    ensures FirstSegment(segs, a) == j <==> forall i :: 0 <= i < j ==> segs[i].vaddr + segs[i].memSize != a
  {
    hide Sane;
    SaneInSegment(segs[j], a);
    forall i | 0 <= i < j ensures InSegment(segs[i], a) <==> segs[i].vaddr + segs[i].memSize == a {
      SaneInSegment(segs[i], a);
      assert !Has(segs[i], a);
    }
  }

  lemma SaneInSegment(seg: Segment, a: u32)
    requires Sane(seg)
    ensures InSegment(seg, a) <==> Has(seg, a) || seg.vaddr + seg.memSize == a
  {
  }

  /** The page that a first fault at an address of segment `j` fills: it is flagged for `j` and filled from it exactly
      if no segment before it ends at that address, and otherwise flagged for such a segment and filled from that. */
  lemma FilledFromIff(file: seq<octet>, segs: seq<Segment>, j: nat, a: u32)
    requires (forall i :: 0 <= i < |segs| ==> Sane(segs[i])) && Disjoint(segs) && j < |segs| && Has(segs[j], a)
    ensures var (sp, v) := Fault(file, segs, Unmapped(segs), a);
            var p, i := a / PAGE, FirstSegment(segs, a);
            && v.Handled? && i <= j && FirstPage(segs[i]) <= p
            && sp.memory == map[p := Image(file, segs[i], p)]
            && (forall k :: 0 <= k < |segs| ==> sp.data[k] == if k == i then {p - FirstPage(segs[i])} else {})
            && (i == j <==> forall k :: 0 <= k < j ==> segs[k].vaddr + segs[k].memSize != a)
            && (i != j ==> segs[i].vaddr + segs[i].memSize == a)
  {
    hide Image, MapPage, FirstSegment, Sane;
    ServedIff(segs, j, a);
    var i := FirstSegment(segs, a);
    SaneInSegment(segs[i], a);
    if i != j { assert !Has(segs[i], a); }
    MapPageFills(file, segs[i], i, Unmapped(segs), a);
  }

  // ---------------------------------------------------------------- inputs that fail

  lemma ImageByte(file: seq<octet>, seg: Segment, p: nat, j: nat)
    requires FirstPage(seg) <= p && j < PAGE
    ensures |Image(file, seg, p).bytes| == PAGE
    ensures Image(file, seg, p).bytes[j] == SegmentByte(file, seg, (p - FirstPage(seg)) * PAGE + j)
  {
  }

  /** Two segments of a page each that touch: the first byte of the second is 7 in the file, and the program reads 0. */
  lemma TouchingSegments()
    ensures var s, t := Segment(0x1000, 0, 0x1000, 0, PERM_R), Segment(0x2000, 1, 0x1000, 0, PERM_R);
            && Disjoint([s, t]) && SegmentByte([7], t, 0) == 7
            && Answers([7], [s, t], Unmapped([s, t]), [Load(0x2000)]) == [Value(0)]
  {
    var s, t := Segment(0x1000, 0, 0x1000, 0, PERM_R), Segment(0x2000, 1, 0x1000, 0, PERM_R);
    var segs, sp := [s, t], Unmapped([s, t]);
    FilledFromIff([7], segs, 1, 0x2000);
    var (sp1, v) := Fault([7], segs, sp, 0x2000);
    hide Fault;
    assert FirstSegment(segs, 0x2000) == 0 by { assert InSegment(segs[0], 0x2000); }
    ImageByte([7], s, 2, 0);
    assert Try(sp1.memory, Load(0x2000)) == Some((sp1.memory, 0));
    assert Access1([7], segs, sp, Load(0x2000)) == (sp1, Value(0));
  }

  /** A header at address 1 whose byte is the first of the file: the program does not find it there. */
  lemma SmallOffset()
    ensures var p := Phdr(PT_LOAD, 0, 1, 1, 1, PF_R);
            var c := Content([9], 0, SegmentOf(p), 0);
            FileByte([9], p.offset) == 9 && c.Some? && |c.value.0| == PAGE && c.value.0[1] == 0
  {
    OffsetIff([9], 0, Phdr(PT_LOAD, 0, 1, 1, 1, PF_R));
  }
}
