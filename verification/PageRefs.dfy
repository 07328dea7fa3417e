/**
  The bitmap allocator for page descriptors (kern/vm/kmalloc.c:175-339): sixteen roots of
  256 descriptors, each root with a bitmap of eight 32-bit words (kept here as the bits)
  and a count of the bits that are set. A descriptor is named by its slot number
  256 * root + 32 * word + bit.
*/
module PageRefs {
  import opened Basics

  const NROOTS := 16
  const PER_PAGE := 256
  const WORDS := 8
  const WORD_BITS := 32

  /** `page` is the address of the root's page of descriptors, 0 while it has none. */
  datatype Root = Root(page: nat, inuse: seq<seq<bool>>, numinuse: nat)

  function CountWord(w: seq<bool>): (n: nat)
    ensures n <= |w|
  {
    if w == [] then 0 else (if w[0] then 1 else 0) + CountWord(w[1..])
  }

  function Count(ws: seq<seq<bool>>): nat {
    if ws == [] then 0 else CountWord(ws[0]) + Count(ws[1..])
  }

  ghost predicate Shaped(inuse: seq<seq<bool>>) {
    |inuse| == WORDS && forall i :: 0 <= i < WORDS ==> |inuse[i]| == WORD_BITS
  }

  /** A root's counter is the number of set bits in its bitmap. */
  ghost predicate RootOk(r: Root) {
    Shaped(r.inuse) && r.numinuse == Count(r.inuse)
  }

  ghost predicate RootsOk(roots: seq<Root>) {
    |roots| == NROOTS && forall i :: 0 <= i < NROOTS ==> RootOk(roots[i])
  }

  ghost predicate Bit(roots: seq<Root>, s: nat)
    requires RootsOk(roots)
  {
    s < NROOTS * PER_PAGE && roots[s / PER_PAGE].inuse[s % PER_PAGE / WORD_BITS][s % WORD_BITS]
  }

  // ---------- counting bits ----------

  lemma {:induction false} CountWordSet(w: seq<bool>, b: nat, v: bool)
    requires b < |w|
    ensures CountWord(w[b := v]) == CountWord(w) - (if w[b] then 1 else 0) + (if v then 1 else 0)
  {
    if b == 0 {
      assert w[b := v][1..] == w[1..];
    } else {
      assert w[b := v][1..] == w[1..][b - 1 := v];
      CountWordSet(w[1..], b - 1, v);
    }
  }

  lemma {:induction false} CountSet(ws: seq<seq<bool>>, i: nat, w: seq<bool>)
    requires i < |ws|
    ensures Count(ws[i := w]) == Count(ws) - CountWord(ws[i]) + CountWord(w)
  {
    if i == 0 {
      assert ws[i := w][1..] == ws[1..];
    } else {
      assert ws[i := w][1..] == ws[1..][i - 1 := w];
      CountSet(ws[1..], i - 1, w);
    }
  }

  lemma {:induction false} CountWordFull(w: seq<bool>)
    ensures CountWord(w) == |w| <==> forall b :: 0 <= b < |w| ==> w[b]
  {
    if w != [] {
      CountWordFull(w[1..]);
      assert forall b :: 0 < b < |w| ==> w[b] == w[1..][b - 1];
      assert forall b :: 0 <= b < |w| - 1 ==> w[1..][b] == w[b + 1];
    }
  }

  ghost predicate Full(ws: seq<seq<bool>>) {
    forall i, b :: 0 <= i < |ws| && 0 <= b < |ws[i]| ==> ws[i][b]
  }

  lemma {:induction false} CountFull(ws: seq<seq<bool>>)
    requires forall i :: 0 <= i < |ws| ==> |ws[i]| == WORD_BITS
    ensures Count(ws) <= WORD_BITS * |ws|
    ensures Count(ws) == WORD_BITS * |ws| <==> Full(ws)
  {
    if ws != [] {
      CountFull(ws[1..]);
      CountWordFull(ws[0]);
      assert Full(ws) <==> Full(ws[..1]) && Full(ws[1..]) by {
        assert forall i, b :: 0 < i < |ws| && 0 <= b < |ws[i]| ==> ws[i][b] == ws[1..][i - 1][b];
        assert forall i, b :: 0 <= i < |ws| - 1 && 0 <= b < |ws[1..][i]| ==> ws[1..][i][b] == ws[i + 1][b];
      }
    }
  }

  /** A root whose counter reads 256 has no clear bit, and conversely. */
  lemma FullMeansCounted(r: Root)
    requires RootOk(r)
    ensures r.numinuse >= PER_PAGE <==> Full(r.inuse)
  {
    CountFull(r.inuse);
  }

  // ---------- setting and clearing one bit ----------

  function Put(roots: seq<Root>, s: nat, v: bool, delta: int): seq<Root>
    requires s < NROOTS * PER_PAGE && RootsOk(roots)
    requires 0 <= roots[s / PER_PAGE].numinuse + delta
  {
    var r := roots[s / PER_PAGE];
    var i := s % PER_PAGE / WORD_BITS;
    roots[s / PER_PAGE := r.(inuse := r.inuse[i := r.inuse[i][s % WORD_BITS := v]], numinuse := r.numinuse + delta)]
  }

  lemma PutOk(roots: seq<Root>, s: nat, v: bool)
    requires s < NROOTS * PER_PAGE && RootsOk(roots) && Bit(roots, s) != v
    ensures var delta := if v then 1 else -1;
      && 0 <= roots[s / PER_PAGE].numinuse + delta
      && RootsOk(Put(roots, s, v, delta))
      && Bit(Put(roots, s, v, delta), s) == v
  {
    var r := roots[s / PER_PAGE];
    var i, b := s % PER_PAGE / WORD_BITS, s % WORD_BITS;
    CountWordSet(r.inuse[i], b, v);
    CountSet(r.inuse, i, r.inuse[i][b := v]);
    assert Shaped(r.inuse[i := r.inuse[i][b := v]]);
  }

  /** Only the one bit changes, and no root changes its page. */
  lemma PutFrame(roots: seq<Root>, s: nat, v: bool, delta: int)
    requires s < NROOTS * PER_PAGE && RootsOk(roots)
    requires 0 <= roots[s / PER_PAGE].numinuse + delta && RootsOk(Put(roots, s, v, delta))
    ensures forall t: nat :: t != s ==> Bit(Put(roots, s, v, delta), t) == Bit(roots, t)
    ensures forall r :: 0 <= r < NROOTS ==> Put(roots, s, v, delta)[r].page == roots[r].page
  {
    forall t: nat | t != s && t < NROOTS * PER_PAGE ensures Bit(Put(roots, s, v, delta), t) == Bit(roots, t) {
      SameSlot(s, t);
    }
  }

  lemma SameSlot(s: nat, t: nat)
    ensures (s / PER_PAGE == t / PER_PAGE && s % PER_PAGE / WORD_BITS == t % PER_PAGE / WORD_BITS
             && s % WORD_BITS == t % WORD_BITS) ==> s == t
  {
  }

  lemma SlotParts(r: nat, i: nat, b: nat)
    requires i < WORDS && b < WORD_BITS
    ensures var s := r * PER_PAGE + i * WORD_BITS + b;
      s / PER_PAGE == r && s % PER_PAGE / WORD_BITS == i && s % WORD_BITS == b
  {
  }

  // ---------- allocpageref and freepageref ----------

  /** The descriptor search takes the first clear bit of all, and fails only when there is none. */
  method TakeSlot(roots: seq<Root>) returns (slot: Option<nat>, roots': seq<Root>)
    requires RootsOk(roots)
    ensures slot.None? ==> roots' == roots && forall t: nat :: t < NROOTS * PER_PAGE ==> Bit(roots, t)
    ensures slot.Some? ==>
      && slot.value < NROOTS * PER_PAGE
      && !Bit(roots, slot.value)
      && (forall t: nat :: t < slot.value ==> Bit(roots, t))
      && roots' == Put(roots, slot.value, true, 1)
  {
    var whichroot := 0;
    while whichroot < NROOTS
      invariant 0 <= whichroot <= NROOTS
      invariant forall t: nat :: t < whichroot * PER_PAGE ==> Bit(roots, t)
    {
      var root := roots[whichroot];
      if root.numinuse >= PER_PAGE {
        FullMeansCounted(root);
      } else {
        var i, j := FirstClear(root);
        SlotParts(whichroot, i, j);
        forall t: nat | whichroot * PER_PAGE <= t < whichroot * PER_PAGE + i * WORD_BITS + j ensures Bit(roots, t) {
          SlotOrder(whichroot, i, j, t);
        }
        return Some(whichroot * PER_PAGE + i * WORD_BITS + j),
               roots[whichroot := root.(inuse := root.inuse[i := root.inuse[i][j := true]], numinuse := root.numinuse + 1)];
      }
      forall t: nat | whichroot * PER_PAGE <= t < (whichroot + 1) * PER_PAGE ensures Bit(roots, t) {
        assert t / PER_PAGE == whichroot;
      }
      whichroot := whichroot + 1;
    }
    return None, roots;
  }

  lemma SlotOrder(r: nat, i: nat, j: nat, t: nat)
    requires i < WORDS && j < WORD_BITS
    requires r * PER_PAGE <= t < r * PER_PAGE + i * WORD_BITS + j
    ensures t / PER_PAGE == r
    ensures t % PER_PAGE / WORD_BITS < i || (t % PER_PAGE / WORD_BITS == i && t % WORD_BITS < j)
  {
  }

  /** The two inner loops: word by word, skipping full words, then bit by bit. */
  method FirstClear(root: Root) returns (i: nat, j: nat)
    requires RootOk(root) && root.numinuse < PER_PAGE
    ensures i < WORDS && j < WORD_BITS && !root.inuse[i][j]
    ensures forall k, b :: 0 <= k < i && 0 <= b < WORD_BITS ==> root.inuse[k][b]
    ensures forall b :: 0 <= b < j ==> root.inuse[i][b]
  {
    FullMeansCounted(root);
    i := 0;
    while i < WORDS
      invariant 0 <= i <= WORDS
      invariant forall k, b :: 0 <= k < i && 0 <= b < WORD_BITS ==> root.inuse[k][b]
    {
      if exists b :: 0 <= b < WORD_BITS && !root.inuse[i][b] {
        j := 0;
        while j < WORD_BITS && root.inuse[i][j]
          invariant 0 <= j <= WORD_BITS
          invariant forall b :: 0 <= b < j ==> root.inuse[i][b]
        {
          j := j + 1;
        }
        return;
      }
      i := i + 1;
    }
    assert false;
  }

  /** `Panicked` is a failed KASSERT. */
  datatype Release = Panicked | Released(roots: seq<Root>)

  /** A root before `s`'s own that has bits set but no page. */
  predicate Stranded(roots: seq<Root>, s: nat) {
    exists k :: 0 <= k < |roots| && k < s / PER_PAGE && roots[k].page == 0 && roots[k].numinuse > 0
  }

  /** Releasing a descriptor clears its bit, unless the walk to it meets a stranded root. */
  method ReleaseSlot(roots: seq<Root>, s: nat) returns (r: Release)
    requires RootsOk(roots) && Bit(roots, s) && roots[s / PER_PAGE].page != 0
    ensures r.Panicked? <==> Stranded(roots, s)
    ensures r.Released? ==> roots[s / PER_PAGE].numinuse > 0 && r.roots == Put(roots, s, false, -1)
  {
    PutOk(roots, s, false);
    var whichroot := 0;
    while whichroot < NROOTS
      invariant 0 <= whichroot <= s / PER_PAGE
      invariant forall k :: 0 <= k < whichroot ==> !(roots[k].page == 0 && roots[k].numinuse > 0)
    {
      var root := roots[whichroot];
      if root.page == 0 {
        if root.numinuse != 0 {
          return Panicked;
        }
      } else if s / PER_PAGE == whichroot {
        var i, j := s % PER_PAGE / WORD_BITS, s % WORD_BITS;
        return Released(roots[whichroot := root.(inuse := root.inuse[i := root.inuse[i][j := false]], numinuse := root.numinuse - 1)]);
      }
      whichroot := whichroot + 1;
    }
    assert false;
  }
}
