/**
 The overlapping chunker: chunks of `size` characters starting every `size - overlap`,
 blank ones dropped.  Which characters are blank is a given predicate.
 */
module Chunker {
  import opened Prelude

  type Blank = char -> bool

  predicate AllBlank(blank: Blank, s: string) {
    forall i :: 0 <= i < |s| ==> blank(s[i])
  }

  function Min(a: int, b: int): int {
    if a < b then a else b
  }

  /** The chunk that starts at `i`. */
  function ChunkAt(content: string, i: nat, size: nat): string
    requires i <= |content|
  {
    content[i..Min(i + size, |content|)]
  }

  /** The chunks starting at `i`, `i + step`, ..., blank ones included. */
  function Cuts(content: string, i: nat, step: nat, size: nat): seq<string>
    requires step > 0
    decreases |content| - i
  {
    if i >= |content| then [] else [ChunkAt(content, i, size)] + Cuts(content, i + step, step, size)
  }

  function Kept(blank: Blank, cuts: seq<string>): seq<string> {
    if cuts == [] then [] else (if AllBlank(blank, cuts[0]) then [] else [cuts[0]]) + Kept(blank, cuts[1..])
  }

  lemma NextCut(blank: Blank, content: string, i: nat, step: nat, size: nat)
    requires step > 0 && i < |content|
    ensures Kept(blank, Cuts(content, i, step, size))
      == (if AllBlank(blank, ChunkAt(content, i, size)) then [] else [ChunkAt(content, i, size)])
         + Kept(blank, Cuts(content, i + step, step, size))
  {
    hide AllBlank;
    assert Cuts(content, i, step, size)[1..] == Cuts(content, i + step, step, size);
  }

  datatype Chunking = BadStep | Chunks(chunks: seq<string>)

  /** A zero step is an error, a negative one yields nothing. */
  method Chunk(blank: Blank, content: string, size: nat, overlap: nat) returns (r: Chunking)
    ensures overlap < size ==> r == Chunks(Kept(blank, Cuts(content, 0, size - overlap, size)))
    ensures overlap == size ==> r == if content == "" then Chunks([]) else BadStep
    ensures overlap > size ==> r == Chunks([])
  {
    if content == "" {
      return Chunks([]);
    }
    var step := size - overlap;
    if step == 0 {
      return BadStep;
    }
    var chunks: seq<string> := [];
    if step > 0 {
      chunks := CutAndKeep(blank, content, step, size);
    }
    r := Chunks(chunks);
  }

  method CutAndKeep(blank: Blank, content: string, step: nat, size: nat) returns (chunks: seq<string>)
    requires step > 0
    ensures chunks == Kept(blank, Cuts(content, 0, step, size))
  {
    hide Cuts, Kept, AllBlank;
    chunks := [];
    var i: nat := 0;
    while i < |content|
      invariant chunks + Kept(blank, Cuts(content, i, step, size)) == Kept(blank, Cuts(content, 0, step, size))
      decreases |content| - i
    {
      var chunk := content[i..Min(i + size, |content|)];
      NextCut(blank, content, i, step, size);
      if !AllBlank(blank, chunk) {
        chunks := chunks + [chunk];
      }
      i := i + step;
    }
    NoMoreCuts(blank, content, i, step, size);
  }

  lemma NoMoreCuts(blank: Blank, content: string, i: nat, step: nat, size: nat)
    requires step > 0 && i >= |content|
    ensures Kept(blank, Cuts(content, i, step, size)) == []
  {
  }

  /** The first `step` characters of each chunk, joined. */
  function Prefixes(cuts: seq<string>, step: nat): string {
    if cuts == [] then "" else cuts[0][..Min(step, |cuts[0]|)] + Prefixes(cuts[1..], step)
  }

  /** Before blank chunks are dropped, the non-overlapping prefixes spell the content. */
  lemma {:induction false} PrefixesSpellContent(content: string, i: nat, step: nat, size: nat)
    requires 0 < step <= size && i <= |content|
    ensures Prefixes(Cuts(content, i, step, size), step) == content[i..]
    decreases |content| - i
  {
    if i < |content| {
      var next := i + step;
      var cuts := Cuts(content, i, step, size);
      assert cuts[1..] == Cuts(content, next, step, size);
      if next <= |content| {
        PrefixesSpellContent(content, next, step, size);
        assert cuts[0][..step] == content[i..next];
        assert content[i..] == content[i..next] + content[next..];
      } else {
        assert cuts[1..] == [];
        assert cuts[0][..Min(step, |cuts[0]|)] == content[i..];
      }
    }
  }

  /** Content is never lost or reordered: the chunk prefixes of a whole document are the document. */
  lemma ChunksSpellContent(content: string, size: nat, overlap: nat)
    requires overlap < size
    ensures Prefixes(Cuts(content, 0, size - overlap, size), size - overlap) == content
  {
    PrefixesSpellContent(content, 0, size - overlap, size);
    assert content[0..] == content;
  }

  /** `chunk` holds the characters `a..b` of the content, at some offset. */
  ghost predicate Contains(chunk: string, content: string, a: nat, b: nat)
    requires a <= b <= |content|
  {
    exists k: nat :: HoldsAt(chunk, content, a, b, k)
  }

  ghost predicate HoldsAt(chunk: string, content: string, a: nat, b: nat, k: nat)
    requires a <= b <= |content|
  {
    k + (b - a) <= |chunk| && chunk[k..k + (b - a)] == content[a..b]
  }

  /** The characters `a..b` of the content stay together in one of the chunks kept of it. */
  ghost predicate InOneChunk(blank: Blank, content: string, step: nat, size: nat, a: nat, b: nat)
    requires step > 0 && a <= b <= |content|
  {
    exists c :: c in Kept(blank, Cuts(content, 0, step, size)) && Contains(c, content, a, b)
  }

  lemma {:induction false} KeptMember(blank: Blank, cuts: seq<string>, c: string)
    requires c in cuts && !AllBlank(blank, c)
    ensures c in Kept(blank, cuts)
  {
    if c != cuts[0] {
      KeptMember(blank, cuts[1..], c);
    }
  }

  lemma {:induction false} WindowInCut(
    content: string, i: nat, size: nat, overlap: nat, a: nat, b: nat) returns (start: nat)
    requires overlap < size && i <= a < b <= |content| && b - a <= overlap + 1
    ensures start <= a && b <= start + size && ChunkAt(content, start, size) in Cuts(content, i, size - overlap, size)
    decreases |content| - i
  {
    var step := size - overlap;
    if a < i + step {
      start := i;
    } else {
      start := WindowInCut(content, i + step, size, overlap, a, b);
    }
  }

  /** Every non-blank window of up to `overlap + 1` characters lies inside one kept chunk. */
  lemma WindowKept(blank: Blank, content: string, size: nat, overlap: nat, a: nat, b: nat)
    requires overlap < size && a < b <= |content| && b - a <= overlap + 1
    requires !AllBlank(blank, content[a..b])
    ensures InOneChunk(blank, content, size - overlap, size, a, b)
  {
    var start := WindowInCut(content, 0, size, overlap, a, b);
    var c := ChunkAt(content, start, size);
    SliceOfSlice(content, start, Min(start + size, |content|), a, b);
    assert !AllBlank(blank, c) by {
      var i :| 0 <= i < b - a && !blank(content[a..b][i]);
      assert c[a - start + i] == content[a..b][i];
    }
    KeptMember(blank, Cuts(content, 0, size - overlap, size), c);
    assert HoldsAt(c, content, a, b, a - start);
    assert Contains(c, content, a, b);
  }

  lemma SliceOfSlice(s: string, lo: nat, hi: nat, a: nat, b: nat)
    requires lo <= a <= b <= hi <= |s|
    ensures s[lo..hi][a - lo..b - lo] == s[a..b]
  {
    var l, r := s[lo..hi][a - lo..b - lo], s[a..b];
    assert forall i :: 0 <= i < |r| ==> l[i] == r[i];
  }

  // ---- Exactly which chunks, and how sharp the window bound is ----

  /** The `j`-th chunk is the slice of at most `size` characters that starts at `j` steps. */
  lemma {:induction false} CutsExact(content: string, i: nat, step: nat, size: nat, j: nat)
    requires step > 0 && j < |Cuts(content, i, step, size)|
    ensures i + j * step < |content|
    ensures Cuts(content, i, step, size)[j] == content[i + j * step..Min(i + j * step + size, |content|)]
    decreases j
  {
    if j > 0 {
      CutsExact(content, i + step, step, size, j - 1);
      assert i + step + (j - 1) * step == i + j * step;
    }
  }

  /** `c` is the slice of at most `size` characters that starts after `j` steps. */
  ghost predicate IsCut(c: string, content: string, j: nat, step: nat, size: nat) {
    j * step < |content| && c == content[j * step..Min(j * step + size, |content|)]
  }

  /** The kept chunks are exactly the non-blank slices that start at a multiple of the step. */
  lemma KeptExact(blank: Blank, content: string, step: nat, size: nat, c: string)
    requires step > 0
    ensures c in Kept(blank, Cuts(content, 0, step, size)) <==>
      && (exists i :: 0 <= i < |c| && !blank(c[i]))
      && exists j: nat :: IsCut(c, content, j, step, size)
  {
    assert !AllBlank(blank, c) <==> exists i :: 0 <= i < |c| && !blank(c[i]);
    hide AllBlank, Cuts;
    var cuts := Cuts(content, 0, step, size);
    if c in Kept(blank, cuts) {
      KeptFrom(blank, cuts, c);
      var j :| 0 <= j < |cuts| && cuts[j] == c;
      CutsExact(content, 0, step, size, j);
      assert IsCut(c, content, j, step, size);
    }
    if !AllBlank(blank, c) && exists j: nat :: IsCut(c, content, j, step, size) {
      var j: nat :| IsCut(c, content, j, step, size);
      CutMember(content, 0, step, size, j);
      KeptMember(blank, cuts, c);
    }
  }

  lemma {:induction false} CutMember(content: string, i: nat, step: nat, size: nat, j: nat)
    requires step > 0 && i + j * step < |content|
    ensures content[i + j * step..Min(i + j * step + size, |content|)] in Cuts(content, i, step, size)
    decreases j
  {
    if j > 0 {
      assert i + step + (j - 1) * step == i + j * step;
      CutMember(content, i + step, step, size, j - 1);
    }
  }

  /** `x...xyx...xz`: a window from the only `y` to the only `z`. */
  function Marked(a: nat, overlap: nat): (s: string)
    ensures |s| == a + overlap + 2 && s[a] == 'y' && s[a + overlap + 1] == 'z'
    ensures forall i :: 0 <= i < a ==> s[i] == 'x'
    ensures forall i :: a < i < a + overlap + 1 ==> s[i] == 'x'
  {
    Copies('x', a) + "y" + Copies('x', overlap) + "z"
  }

  lemma NonBlankFrom(blank: Blank, s: string, a: nat, b: nat)
    requires a < b <= |s| && !blank(s[a])
    ensures !AllBlank(blank, s[a..b])
  {
    assert s[a..b][0] == s[a];
  }

  /**
   The bound is sharp: for every size and overlap some non-blank window one character
   longer is in no kept chunk.
   */
  lemma LongerWindowsCanBeCut(blank: Blank, size: nat, overlap: nat) returns (content: string, a: nat)
    requires overlap < size && !blank('y')
    ensures a + overlap + 2 <= |content| && !AllBlank(blank, content[a..a + overlap + 2])
    ensures !InOneChunk(blank, content, size - overlap, size, a, a + overlap + 2)
  {
    hide Cuts, Kept, AllBlank, IsCut, Contains, Marked;
    var step := size - overlap;
    a := step - 1;
    content := Marked(a, overlap);
    NonBlankFrom(blank, content, a, a + overlap + 2);
    forall c | c in Kept(blank, Cuts(content, 0, step, size))
      ensures !Contains(c, content, a, a + overlap + 2)
    {
      KeptExact(blank, content, step, size, c);
      var j: nat :| IsCut(c, content, j, step, size);
      CutMissesEnd(content, j, step, size, c, a, a + overlap + 2);
    }
  }

  /** The first chunk ends before the last character, and later ones start after the window does. */
  lemma CutMissesEnd(content: string, j: nat, step: nat, size: nat, c: string, a: nat, b: nat)
    requires a + 1 == step && b == size + 1
    requires 0 < step <= size && |content| == size + 1 && IsCut(c, content, j, step, size)
    requires content[a] == 'y' && forall i :: step <= i < size ==> content[i] == 'x'
    requires content[size] == 'z' && forall i :: 0 <= i < a ==> content[i] == 'x'
    ensures !Contains(c, content, a, b)
  {
    var start := j * step;
    if j == 0 {
      assert 'z' !in c;
    } else {
      assert start >= step by { LaterStart(j, step); }
      assert 'y' !in c;
    }
    forall k: nat
      ensures !HoldsAt(c, content, a, b, k)
    {
      if HoldsAt(c, content, a, b, k) {
        EndsOfWindow(c, content, a, b, k);
      }
    }
  }

  lemma LaterStart(j: nat, step: nat)
    requires j > 0
    ensures j * step >= step
  {
    assert (j - 1) * step >= 0;
  }

  lemma EndsOfWindow(c: string, content: string, a: nat, b: nat, k: nat)
    requires a < b <= |content| && HoldsAt(c, content, a, b, k)
    ensures content[a] in c && content[b - 1] in c
  {
    var w := c[k..k + (b - a)];
    assert w[0] == content[a] && w[b - a - 1] == content[b - 1];
    assert c[k] == w[0] && c[k + (b - a) - 1] == w[b - a - 1];
  }

  lemma {:induction false} KeptFrom(blank: Blank, cuts: seq<string>, c: string)
    requires c in Kept(blank, cuts)
    ensures c in cuts && !AllBlank(blank, c)
  {
    if c !in (if AllBlank(blank, cuts[0]) then [] else [cuts[0]]) {
      KeptFrom(blank, cuts[1..], c);
    }
  }

  lemma KeptCons(blank: Blank, c: string, cuts: seq<string>)
    ensures Kept(blank, [c] + cuts) == (if AllBlank(blank, c) then [] else [c]) + Kept(blank, cuts)
    ensures Kept(blank, []) == []
  {
    hide AllBlank;
    assert ([c] + cuts)[1..] == cuts;
  }

  /** Keeping is done chunk by chunk: in order, and each as often as it is cut. */
  lemma {:induction false} KeptConcat(blank: Blank, a: seq<string>, b: seq<string>)
    ensures Kept(blank, a + b) == Kept(blank, a) + Kept(blank, b)
    ensures Kept(blank, []) == []
  {
    hide Kept, AllBlank;
    if a == [] {
      KeptCons(blank, "", b);
      assert a + b == b;
    } else {
      KeptConcat(blank, a[1..], b);
      KeptCons(blank, a[0], a[1..]);
      KeptCons(blank, a[0], a[1..] + b);
      assert a == [a[0]] + a[1..] && a + b == [a[0]] + (a[1..] + b);
    }
  }

  lemma KeptOne(blank: Blank, c: string)
    ensures Kept(blank, [c]) == if exists i :: 0 <= i < |c| && !blank(c[i]) then [c] else []
  {
    assert [c][1..] == [];
  }
}
